/** Heatmaps laid over screenshots (hci_logger/processing/heatmap_overlay.py): the
    time window that joins events to a screenshot, the partition of those events
    into activity and click markers, the per-screenshot overlay, the loop over all
    screenshots, and the layout of the comparison grid. Image loading, drawing and
    saving are left out: an overlay is the grid, the markers and the title it is
    drawn from, and whether the file exists or the drawing succeeds are oracles. */
module HeatmapOverlay {
  import opened Wrappers
  import opened Text
  import opened MouseEvents
  import opened ActivityGrid

  /** The fields of a screenshot row that the overlay code reads. */
  datatype ScreenshotRecord = ScreenshotRecord(filePath: string, timestamp: real)

  // ---------------------------------------------------------------------------
  // The time window.

  /** `screenshot_time - time_window <= t <= screenshot_time`: both ends included. */
  predicate InWindow(t: real, shotTime: real, window: real) {
    shotTime - window <= t <= shotTime
  }

  /** The events inside the window before a screenshot, in their original order. */
  function EventsInWindow(events: seq<MouseEvent>, shotTime: real, window: real): (r: seq<MouseEvent>)
    ensures |r| <= |events|
    ensures forall e :: e in r <==> e in events && InWindow(e.timestamp, shotTime, window)
  {
    if events == [] then []
    else (if InWindow(events[0].timestamp, shotTime, window) then [events[0]] else [])
         + EventsInWindow(events[1..], shotTime, window)
  }

  // ---------------------------------------------------------------------------
  // Activity and click markers.

  /** Whether an event adds to the activity heatmap: a move, or a pressed click. */
  predicate IsActivity(e: MouseEvent) {
    e.eventType == Move || IsPressedClick(e)
  }

  /** The coordinates that feed the activity heatmap, in event order. */
  function ActivityCoords(events: seq<MouseEvent>): seq<Coord>
    decreases |events|
  {
    if events == [] then []
    else ActivityCoords(events[..|events| - 1]) +
         (if IsActivity(events[|events| - 1]) then [CoordOf(events[|events| - 1])] else [])
  }

  /** The coordinates that get a click marker, in event order. */
  function MarkerCoords(events: seq<MouseEvent>): seq<Coord>
    decreases |events|
  {
    if events == [] then []
    else MarkerCoords(events[..|events| - 1]) +
         (if IsPressedClick(events[|events| - 1]) then [CoordOf(events[|events| - 1])] else [])
  }

  /** Every marker is also an activity point, so there are never more markers than
      activity points; an event list with a move or a pressed click has activity. */
  lemma {:induction false} MarkersWithinActivity(events: seq<MouseEvent>)
    ensures |MarkerCoords(events)| <= |ActivityCoords(events)|
    ensures forall c :: c in MarkerCoords(events) ==> c in ActivityCoords(events)
    ensures (exists i :: 0 <= i < |events| && IsActivity(events[i])) <==> ActivityCoords(events) != []
    decreases |events|
  {
    if events != [] {
      var init := events[..|events| - 1];
      MarkersWithinActivity(init);
      if exists i :: 0 <= i < |init| && IsActivity(init[i]) {
        var i :| 0 <= i < |init| && IsActivity(init[i]);
        assert events[i] == init[i];
      }
      if exists i :: 0 <= i < |events| && IsActivity(events[i]) {
        var i :| 0 <= i < |events| && IsActivity(events[i]);
        if i < |init| {
          assert init[i] == events[i];
        }
      }
    }
  }

  /** The partition loop of `generate_overlay_for_screenshot`: a move goes to the
      activity list; a click whose `pressed` is truthy goes to the markers and also
      to the activity list; everything else is skipped. */
  method PartitionCoords(events: seq<MouseEvent>) returns (moveCoords: seq<Coord>, clickCoords: seq<Coord>)
    ensures moveCoords == ActivityCoords(events)
    ensures clickCoords == MarkerCoords(events)
  {
    moveCoords, clickCoords := [], [];
    var i := 0;
    while i < |events|
      invariant 0 <= i <= |events|
      invariant moveCoords == ActivityCoords(events[..i])
      invariant clickCoords == MarkerCoords(events[..i])
    {
      var e := events[i];
      if e.eventType == Move {
        moveCoords := moveCoords + [CoordOf(e)];
      } else if e.eventType == Click && IsPressed(e.pressed) {
        clickCoords := clickCoords + [CoordOf(e)];
        moveCoords := moveCoords + [CoordOf(e)];
      }
      assert events[..i + 1][..i] == events[..i];
      i := i + 1;
    }
    assert events[..|events|] == events;
  }

  /** `f"Heatmap Overlay - {moves} movimientos"`, plus `f" - {clicks} clicks"` when there are clicks. */
  function OverlayTitle(moves: nat, clicks: nat): string {
    "Heatmap Overlay - " + NatToString(moves) + " movimientos" +
    (if clicks > 0 then " - " + NatToString(clicks) + " clicks" else "")
  }

  /** What one overlay is drawn from: the activity grid, the marker centres, the title. */
  datatype Overlay = Overlay(grid: Grid, markers: seq<Coord>, title: string)

  /** The overlay of a window of events: the activity heatmap (all zeros when there is
      no activity), the click markers when they are shown, and the title with both
      counts. */
  function OverlayOf(events: seq<MouseEvent>, width: int, height: int, showClicks: bool, blur: Grid -> Grid): Overlay
    requires width > 0 && height > 0
  {
    var activity, markers := ActivityCoords(events), MarkerCoords(events);
    Overlay(
      if activity == [] then ZeroGrid(width, height) else HeatmapOf(activity, width, height, blur),
      if showClicks then markers else [],
      OverlayTitle(|activity|, |markers|))
  }

  // ---------------------------------------------------------------------------
  // File names.

  /** The index of the last `ch` in `s`, or -1 (`str.rfind`). */
  function LastIndexOf(s: string, ch: char): (i: int)
    ensures -1 <= i < |s|
    ensures i >= 0 ==> s[i] == ch
  {
    if s == [] then -1
    else if s[|s| - 1] == ch then |s| - 1
    else LastIndexOf(s[..|s| - 1], ch)
  }

  /** No later position holds `ch`. */
  lemma {:induction false} LastIndexOfIsLast(s: string, ch: char)
    ensures forall j :: LastIndexOf(s, ch) < j < |s| ==> s[j] != ch
  {
    if s != [] && s[|s| - 1] != ch {
      LastIndexOfIsLast(s[..|s| - 1], ch);
    }
  }

  /** The final component of a '/'-separated path. */
  function FileName(path: string): (name: string)
  {
    path[LastIndexOf(path, '/') + 1..]
  }

  /** `Path(path).stem`: the file name without its last suffix; a leading dot or a
      trailing dot does not start a suffix. */
  function Stem(path: string): string {
    var name := FileName(path);
    var i := LastIndexOf(name, '.');
    if 0 < i < |name| - 1 then name[..i] else name
  }

  /** `output_dir / f"overlay_{stem}.png"`. */
  function OverlayPath(outDir: string, shot: ScreenshotRecord): string {
    (outDir + "/overlay_") + Stem(shot.filePath) + ".png"
  }

  /** Overlay paths in one directory differ exactly when the screenshot stems differ. */
  lemma OverlayPathInjective(outDir: string, a: ScreenshotRecord, b: ScreenshotRecord)
    ensures OverlayPath(outDir, a) == OverlayPath(outDir, b) <==> Stem(a.filePath) == Stem(b.filePath)
  {
    MiddleDetermines(outDir + "/overlay_", Stem(a.filePath), Stem(b.filePath), ".png");
  }

  // ---------------------------------------------------------------------------
  // All overlays of a session.

  /** Whether the overlay of one screenshot is produced: its file exists, its window
      holds at least one event, and the drawing succeeds. */
  predicate OverlaySucceeds(shot: ScreenshotRecord, events: seq<MouseEvent>, window: real, fileExists: bool, renderOk: bool) {
    fileExists && EventsInWindow(events, shot.timestamp, window) != [] && renderOk
  }

  /** The outcome of each screenshot's overlay, in screenshot order. */
  function Outcomes(shots: seq<ScreenshotRecord>, events: seq<MouseEvent>, window: real,
                    fileExists: seq<bool>, renderOk: seq<bool>): (ok: seq<bool>)
    requires |fileExists| == |shots| && |renderOk| == |shots|
    ensures |ok| == |shots|
  {
    seq(|shots|, i requires 0 <= i < |shots| => OverlaySucceeds(shots[i], events, window, fileExists[i], renderOk[i]))
  }

  /** The screenshots whose overlay succeeded, in order. */
  function Kept(shots: seq<ScreenshotRecord>, ok: seq<bool>): (r: seq<ScreenshotRecord>)
    requires |ok| == |shots|
    ensures |r| <= |shots|
    ensures forall s :: s in r ==> s in shots
    decreases |shots|
  {
    if shots == [] then []
    else
      var n := |shots| - 1;
      Kept(shots[..n], ok[..n]) + (if ok[n] then [shots[n]] else [])
  }

  /** The overlay path of each screenshot in a list. */
  function OverlayPaths(outDir: string, shots: seq<ScreenshotRecord>): (r: seq<string>)
    ensures |r| == |shots|
  {
    seq(|shots|, i requires 0 <= i < |shots| => OverlayPath(outDir, shots[i]))
  }

  /** The list `generate_all_overlays` returns: the overlay paths of the screenshots
      whose overlay succeeded, in screenshot order. */
  function GeneratedPaths(shots: seq<ScreenshotRecord>, events: seq<MouseEvent>, window: real, outDir: string,
                          fileExists: seq<bool>, renderOk: seq<bool>): seq<string>
    requires |fileExists| == |shots| && |renderOk| == |shots|
  {
    OverlayPaths(outDir, Kept(shots, Outcomes(shots, events, window, fileExists, renderOk)))
  }

  lemma OverlayPathsAppend(outDir: string, a: seq<ScreenshotRecord>, b: seq<ScreenshotRecord>)
    ensures OverlayPaths(outDir, a + b) == OverlayPaths(outDir, a) + OverlayPaths(outDir, b)
  {
  }

  /** One more screenshot adds its overlay path exactly when its overlay succeeded. */
  lemma GeneratedStep(outDir: string, shots: seq<ScreenshotRecord>, ok: seq<bool>, i: nat)
    requires |ok| == |shots| && i < |shots|
    ensures OverlayPaths(outDir, Kept(shots[..i + 1], ok[..i + 1])) ==
            OverlayPaths(outDir, Kept(shots[..i], ok[..i])) + (if ok[i] then [OverlayPath(outDir, shots[i])] else [])
  {
    var before := Kept(shots[..i], ok[..i]);
    assert shots[..i + 1][..i] == shots[..i] && ok[..i + 1][..i] == ok[..i];
    assert Kept(shots[..i + 1], ok[..i + 1]) == before + (if ok[i] then [shots[i]] else []);
    OverlayPathsAppend(outDir, before, if ok[i] then [shots[i]] else []);
  }

  /** At most one overlay per screenshot, each the overlay path of one of them. */
  lemma GeneratedAreOverlayPaths(shots: seq<ScreenshotRecord>, events: seq<MouseEvent>, window: real,
                                 outDir: string, fileExists: seq<bool>, renderOk: seq<bool>)
    requires |fileExists| == |shots| && |renderOk| == |shots|
    ensures var r := GeneratedPaths(shots, events, window, outDir, fileExists, renderOk);
      |r| <= |shots| && forall p :: p in r ==> exists s :: s in shots && p == OverlayPath(outDir, s)
  {
    var kept := Kept(shots, Outcomes(shots, events, window, fileExists, renderOk));
    forall p | p in OverlayPaths(outDir, kept)
      ensures exists s :: s in shots && p == OverlayPath(outDir, s)
    {
      var j :| 0 <= j < |kept| && OverlayPaths(outDir, kept)[j] == p;
      assert kept[j] in shots;
    }
  }

  /** When every outcome is a success, every screenshot is kept, in order. */
  lemma {:induction false} AllKept(shots: seq<ScreenshotRecord>, ok: seq<bool>)
    requires |ok| == |shots| && forall i :: 0 <= i < |ok| ==> ok[i]
    ensures Kept(shots, ok) == shots
    decreases |shots|
  {
    if shots != [] {
      var n := |shots| - 1;
      AllKept(shots[..n], ok[..n]);
      assert shots[..n] + [shots[n]] == shots;
    }
  }

  /** When every overlay succeeds, the list holds one path per screenshot, aligned by position. */
  lemma AllSucceedAligned(shots: seq<ScreenshotRecord>, events: seq<MouseEvent>, window: real, outDir: string,
                          fileExists: seq<bool>, renderOk: seq<bool>)
    requires |fileExists| == |shots| && |renderOk| == |shots|
    requires forall i :: 0 <= i < |shots| ==> OverlaySucceeds(shots[i], events, window, fileExists[i], renderOk[i])
    ensures GeneratedPaths(shots, events, window, outDir, fileExists, renderOk) == OverlayPaths(outDir, shots)
  {
    AllKept(shots, Outcomes(shots, events, window, fileExists, renderOk));
  }

  // ---------------------------------------------------------------------------
  // Pairing screenshots with overlays for the comparison grid.

  /** `zip(screenshots, overlay_paths)` as written: pairs by position, and stops at the
      shorter list. */
  function PairsAsWritten(shots: seq<ScreenshotRecord>, overlays: seq<string>): (r: seq<(ScreenshotRecord, string)>)
    ensures |r| == if |shots| < |overlays| then |shots| else |overlays|
  {
    var n := if |shots| < |overlays| then |shots| else |overlays|;
    seq(n, i requires 0 <= i < n => (shots[i], overlays[i]))
  }

  /** The pairing the grid is meant to show: each screenshot with its own overlay, or
      with none when its overlay was not produced. */
  function PairByName(shots: seq<ScreenshotRecord>, overlays: seq<string>, outDir: string): (r: seq<Option<string>>)
    ensures |r| == |shots|
    decreases |shots|
  {
    if shots == [] then []
    else PairByName(shots[..|shots| - 1], overlays, outDir) + [PairFor(shots[|shots| - 1], overlays, outDir)]
  }

  /** A screenshot's own overlay path, if it is among the overlays produced. */
  function PairFor(shot: ScreenshotRecord, overlays: seq<string>, outDir: string): (r: Option<string>)
    ensures r != None <==> OverlayPath(outDir, shot) in overlays
    ensures r != None ==> r.value == OverlayPath(outDir, shot)
  {
    if OverlayPath(outDir, shot) in overlays then Some(OverlayPath(outDir, shot)) else None
  }

  lemma {:induction false} PairByNameAt(shots: seq<ScreenshotRecord>, overlays: seq<string>, outDir: string, i: nat)
    requires i < |shots|
    ensures PairByName(shots, overlays, outDir)[i] == PairFor(shots[i], overlays, outDir)
    decreases |shots|
  {
    var n := |shots| - 1;
    if i < n {
      PairByNameAt(shots[..n], overlays, outDir, i);
    }
  }

  /** When no overlay was skipped, the positional pairing is right and agrees with the
      pairing by name. */
  lemma PairingsAgreeWhenNoneSkipped(shots: seq<ScreenshotRecord>, events: seq<MouseEvent>, window: real, outDir: string,
                                     fileExists: seq<bool>, renderOk: seq<bool>)
    requires |fileExists| == |shots| && |renderOk| == |shots|
    requires forall i :: 0 <= i < |shots| ==> OverlaySucceeds(shots[i], events, window, fileExists[i], renderOk[i])
    ensures var overlays := GeneratedPaths(shots, events, window, outDir, fileExists, renderOk);
      var zipped := PairsAsWritten(shots, overlays);
      |zipped| == |shots| &&
      forall i :: 0 <= i < |shots| ==> zipped[i] == (shots[i], OverlayPath(outDir, shots[i])) &&
                                       PairByName(shots, overlays, outDir)[i] == Some(zipped[i].1)
  {
    AllSucceedAligned(shots, events, window, outDir, fileExists, renderOk);
    var overlays := OverlayPaths(outDir, shots);
    forall i | 0 <= i < |shots|
      ensures PairByName(shots, overlays, outDir)[i] == Some(OverlayPath(outDir, shots[i]))
    {
      assert overlays[i] == OverlayPath(outDir, shots[i]);
      PairByNameAt(shots, overlays, outDir, i);
    }
  }

  /** Two screenshots with different stems, the first taken at a moment with no event
      in its window (so its overlay is not produced) and the second with one. The
      list `generate_all_overlays` returns holds only the second one's path, and the
      positional pairing shows it next to the first screenshot, whose overlay it is
      not; the pairing by name leaves the first without an overlay. */
  lemma SkippedOverlayMisaligns(first: ScreenshotRecord, second: ScreenshotRecord, events: seq<MouseEvent>,
                                window: real, outDir: string)
    requires Stem(first.filePath) != Stem(second.filePath)
    requires EventsInWindow(events, first.timestamp, window) == []
    requires EventsInWindow(events, second.timestamp, window) != []
    ensures var shots := [first, second];
      var overlays := GeneratedPaths(shots, events, window, outDir, [true, true], [true, true]);
      && overlays == [OverlayPath(outDir, second)]
      && PairsAsWritten(shots, overlays) == [(first, OverlayPath(outDir, second))]
      && OverlayPath(outDir, second) != OverlayPath(outDir, first)
      && PairByName(shots, overlays, outDir) == [None, Some(OverlayPath(outDir, second))]
  {
    var shots := [first, second];
    OverlayPathInjective(outDir, first, second);
    var pa, pb := OverlayPath(outDir, first), OverlayPath(outDir, second);
    var ok := Outcomes(shots, events, window, [true, true], [true, true]);
    assert ok == [false, true];
    assert Kept(shots[..1], ok[..1]) == [] by {
      assert shots[..1][..0] == [] && ok[..1][..0] == [];
    }
    assert Kept(shots, ok) == [second];
    var overlays := OverlayPaths(outDir, [second]);
    assert overlays == [pb];
    assert pa !in overlays && pb in overlays;
    assert PairByName(shots[..1], overlays, outDir) == [None] by {
      assert shots[..1][..0] == [];
    }
  }

  /** The stem of a five-character name "x.png". */
  lemma StemOfSimpleName(name: string)
    requires |name| == 5 && name[0] != '/' && name[0] != '.' && name[1] == '.'
    requires name[2] != '/' && name[3] != '/' && name[4] != '/' && name[2] != '.' && name[3] != '.' && name[4] != '.'
    ensures Stem(name) == name[..1]
  {
    var s4, s3, s2, s1 := name[..4], name[..3], name[..2], name[..1];
    assert s4[..3] == s3 && s3[..2] == s2 && s2[..1] == s1 && s1[..0] == [];
    assert LastIndexOf(s1, '/') == -1;
    assert LastIndexOf(s2, '/') == -1;
    assert LastIndexOf(s3, '/') == -1;
    assert LastIndexOf(s4, '/') == -1;
    assert LastIndexOf(name, '/') == -1;
    assert FileName(name) == name;
    assert LastIndexOf(s2, '.') == 1;
    assert LastIndexOf(s3, '.') == 1;
    assert LastIndexOf(s4, '.') == 1;
    assert LastIndexOf(name, '.') == 1;
  }

  // ---------------------------------------------------------------------------
  // The comparison grid layout.

  /** `(n + max_per_row - 1) // max_per_row`. */
  function NRows(n: nat, perRow: int): nat
    requires perRow > 0
  {
    (n + perRow - 1) / perRow
  }

  /** The row count is the ceiling of n / per_row: enough cells for every item, and
      no row left entirely empty. */
  lemma NRowsIsCeiling(n: nat, perRow: int)
    requires perRow > 0
    ensures n <= NRows(n, perRow) * perRow
    ensures n > 0 ==> (NRows(n, perRow) - 1) * perRow < n
  {
    var q, r := (n + perRow - 1) / perRow, (n + perRow - 1) % perRow;
    assert n + perRow - 1 == q * perRow + r;
  }

  lemma MulCancel(a: int, b: int, k: int)
    requires k > 0 && a * k < b * k
    ensures a < b
  {
  }

  /** Item i sits in row i // per_row, at columns (i % per_row)·2 and that plus one,
      inside the grid. */
  lemma LayoutInRange(i: nat, n: nat, perRow: int)
    requires perRow > 0 && i < NRows(n, perRow) * perRow
    ensures i / perRow < NRows(n, perRow) && (i % perRow) * 2 + 1 < 2 * perRow
  {
    MulCancel(i / perRow, NRows(n, perRow), perRow);
  }

  /** No two items share a cell. */
  lemma LayoutCellsDistinct(i: nat, j: nat, perRow: int)
    requires perRow > 0 && i != j
    ensures i / perRow != j / perRow || i % perRow != j % perRow
  {
  }

  /** One subplot of the comparison grid: untouched, showing an image under a title,
      or switched off. */
  datatype Pane = Blank | Shows(path: string, title: string) | Off

  function ShotTitle(k: nat): string {
    "Screenshot #" + NatToString(k) + "\nOriginal"
  }

  function OverlayPaneTitle(k: nat): string {
    "Screenshot #" + NatToString(k) + "\ncon Heatmap"
  }

  // ---------------------------------------------------------------------------

  class HeatmapOverlayGenerator {
    const screenWidth: int
    const screenHeight: int

    predicate Valid() {
      screenWidth > 0 && screenHeight > 0
    }

    constructor (screenWidth: int, screenHeight: int)
      requires screenWidth > 0 && screenHeight > 0
      ensures Valid() && this.screenWidth == screenWidth && this.screenHeight == screenHeight
    {
      this.screenWidth := screenWidth;
      this.screenHeight := screenHeight;
    }

    /** `generate_overlay_for_screenshot`: False without drawing anything when the file
        is missing or there are no events, or when drawing fails; otherwise True, with
        the overlay of those events. */
    method GenerateOverlayForScreenshot(fileExists: bool, events: seq<MouseEvent>, showClicks: bool,
                                        blur: Grid -> Grid, renderOk: bool)
      returns (success: bool, overlay: Option<Overlay>)
      requires Valid()
      ensures success <==> fileExists && events != [] && renderOk
      ensures overlay.Some? <==> success
      ensures success ==> overlay.value == OverlayOf(events, screenWidth, screenHeight, showClicks, blur)
    {
      if !fileExists || events == [] {
        return false, None;
      }
      var moveCoords, clickCoords := PartitionCoords(events);
      var grid;
      if moveCoords != [] {
        grid := CreateHeatmapArray(moveCoords, screenWidth, screenHeight, blur);
      } else {
        grid := ZeroGrid(screenWidth, screenHeight);
      }
      if !renderOk {
        return false, None;
      }
      var markers := if showClicks then clickCoords else [];
      return true, Some(Overlay(grid, markers, OverlayTitle(|moveCoords|, |clickCoords|)));
    }

    /** `generate_all_overlays`: for each screenshot in order, the events of its window
        are drawn over it; the paths of the overlays that succeeded are returned. */
    method GenerateAllOverlays(shots: seq<ScreenshotRecord>, events: seq<MouseEvent>, outDir: string, window: real,
                               showClicks: bool, blur: Grid -> Grid, fileExists: seq<bool>, renderOk: seq<bool>)
      returns (generated: seq<string>)
      requires Valid()
      requires |fileExists| == |shots| && |renderOk| == |shots|
      ensures generated == GeneratedPaths(shots, events, window, outDir, fileExists, renderOk)
    {
      generated := [];
      ghost var ok := Outcomes(shots, events, window, fileExists, renderOk);
      var i := 0;
      while i < |shots|
        invariant 0 <= i <= |shots|
        invariant generated == OverlayPaths(outDir, Kept(shots[..i], ok[..i]))
      {
        var inWindow := EventsInWindow(events, shots[i].timestamp, window);
        var success, _ := GenerateOverlayForScreenshot(fileExists[i], inWindow, showClicks, blur, renderOk[i]);
        assert success == ok[i];
        GeneratedStep(outDir, shots, ok, i);
        if success {
          generated := generated + [OverlayPath(outDir, shots[i])];
        }
        i := i + 1;
      }
      assert shots[..|shots|] == shots && ok[..|shots|] == ok;
    }

    /** `create_comparison_grid`, pairing each screenshot with its own overlay: item i
        shows the screenshot in row i // per_row, column (i % per_row)·2, and its
        overlay (when there is one) in the next column; the cells past the last item
        are switched off. The grid is filled row by row: the pane pair in row r,
        column pair c belongs to item r·per_row + c (`RowStartIsProduct` and
        `ItemCell` show this is the cell the source computes for that item). With
        no screenshots or a non-positive row width the source raises, so those
        inputs are excluded. */
    method CreateComparisonGrid(shots: seq<ScreenshotRecord>, overlays: seq<string>, outDir: string, perRow: int)
      returns (axes: array2<Pane>)
      requires |shots| > 0 && perRow > 0
      ensures axes.Length0 == NRows(|shots|, perRow) && axes.Length1 == 2 * perRow
      ensures forall r, c :: 0 <= r < axes.Length0 && 0 <= c < perRow ==>
        && axes[r, 2 * c] == ExpectedPane(shots, PairByName(shots, overlays, outDir), RowStart(r, perRow) + c, 0)
        && axes[r, 2 * c + 1] == ExpectedPane(shots, PairByName(shots, overlays, outDir), RowStart(r, perRow) + c, 1)
    {
      var rows := NRows(|shots|, perRow);
      axes := new Pane[rows, 2 * perRow]((r, c) => Blank);
      var pairs := PairByName(shots, overlays, outDir);
      var row, base := 0, 0;
      while row < rows
        invariant 0 <= row <= rows && base == RowStart(row, perRow)
        invariant forall r, c :: 0 <= r < row && 0 <= c < perRow ==>
          axes[r, 2 * c] == ExpectedPane(shots, pairs, RowStart(r, perRow) + c, 0) &&
          axes[r, 2 * c + 1] == ExpectedPane(shots, pairs, RowStart(r, perRow) + c, 1)
      {
        FillGridRow(axes, row, base, perRow, shots, pairs);
        row, base := row + 1, base + perRow;
      }
      assert row == rows;
    }
  }

  /** One row of the comparison grid: the pane pairs of items base .. base + per_row - 1. */
  method FillGridRow(axes: array2<Pane>, row: nat, base: nat, perRow: int,
                     shots: seq<ScreenshotRecord>, pairs: seq<Option<string>>)
    requires row < axes.Length0 && axes.Length1 == 2 * perRow && |pairs| == |shots|
    modifies axes
    ensures forall c :: 0 <= c < perRow ==>
      axes[row, 2 * c] == ExpectedPane(shots, pairs, base + c, 0) &&
      axes[row, 2 * c + 1] == ExpectedPane(shots, pairs, base + c, 1)
    ensures forall r, c :: 0 <= r < axes.Length0 && r != row && 0 <= c < axes.Length1 ==> axes[r, c] == old(axes[r, c])
  {
    var col := 0;
    while col < perRow
      invariant 0 <= col <= perRow
      invariant forall c :: 0 <= c < col ==>
        axes[row, 2 * c] == ExpectedPane(shots, pairs, base + c, 0) &&
        axes[row, 2 * c + 1] == ExpectedPane(shots, pairs, base + c, 1)
      invariant forall r, c :: 0 <= r < axes.Length0 && r != row && 0 <= c < axes.Length1 ==> axes[r, c] == old(axes[r, c])
    {
      axes[row, 2 * col] := ExpectedPane(shots, pairs, base + col, 0);
      axes[row, 2 * col + 1] := ExpectedPane(shots, pairs, base + col, 1);
      col := col + 1;
    }
  }

  /** The index of the first item of row r: r·per_row, counted row by row. */
  function RowStart(r: nat, perRow: nat): nat {
    if r == 0 then 0 else RowStart(r - 1, perRow) + perRow
  }

  lemma {:induction false} RowStartIsProduct(r: nat, perRow: nat)
    ensures RowStart(r, perRow) == r * perRow
  {
    if r > 0 {
      RowStartIsProduct(r - 1, perRow);
    }
  }

  /** Item r·per_row + c is in row r and column pair c. */
  lemma ItemCell(r: nat, c: nat, perRow: int)
    requires 0 <= c < perRow
    ensures (r * perRow + c) / perRow == r && (r * perRow + c) % perRow == c
  {
    var n := r * perRow + c;
    var q, m := n / perRow, n % perRow;
    assert n == q * perRow + m;
    assert (r - q) * perRow == m - c;
    if r - q >= 1 {
      MulAtLeast(r - q, perRow);
    } else if q - r >= 1 {
      MulAtLeast(q - r, perRow);
    }
  }

  lemma MulAtLeast(x: int, p: int)
    requires p > 0 && x >= 1
    ensures x * p >= p
  {
    assert x * p == (x - 1) * p + p;
  }

  /** What item k shows: past the last screenshot both panes are switched off;
      otherwise the screenshot, and beside it its own overlay or nothing. */
  function ExpectedPane(shots: seq<ScreenshotRecord>, pairs: seq<Option<string>>, k: nat, side: int): Pane
    requires |pairs| == |shots|
  {
    if k >= |shots| then Off
    else if side == 0 then Shows(shots[k].filePath, ShotTitle(k + 1))
    else match pairs[k]
      case None => Blank
      case Some(p) => Shows(p, OverlayPaneTitle(k + 1))
  }
}
