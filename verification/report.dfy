/** The post-session report (main.py, `ReportDialog`): the summary tallies of the
    stored pointer rows, the dominant emotion per task, and the activity grid
    behind the in-memory overlay of one screenshot. */
module Report {
  import opened Wrappers
  import opened MouseEvents
  import opened ActivityGrid
  import opened EventBuffer

  /** `e["event_type"] == "click" and e["pressed"]`. */
  predicate PressedClickRow(r: Row) {
    r.eventType == Click && IsPressed(r.pressed)
  }

  /** `sum(1 for e in events if …)`: the number of rows that satisfy `p`. */
  function CountWhere(rows: seq<Row>, p: Row -> bool): (n: nat)
    ensures n <= |rows|
  {
    if rows == [] then 0
    else CountWhere(rows[..|rows| - 1], p) + (if p(rows[|rows| - 1]) then 1 else 0)
  }

  function Clicks(rows: seq<Row>): nat {
    CountWhere(rows, PressedClickRow)
  }

  function Moves(rows: seq<Row>): nat {
    CountWhere(rows, (r: Row) => r.eventType == Move)
  }

  function Scrolls(rows: seq<Row>): nat {
    CountWhere(rows, (r: Row) => r.eventType == Scroll)
  }

  /** Pressed clicks made while task `t` was active. */
  function TaskClicks(rows: seq<Row>, t: int): nat {
    CountWhere(rows, (r: Row) => PressedClickRow(r) && r.taskId == t)
  }

  /** The pressed clicks of task 1 and of task 2 together never exceed all pressed
      clicks, and pressed clicks, moves and scrolls together never exceed the rows
      (a released click is in none of the three). */
  lemma {:induction false} TallyBounds(rows: seq<Row>)
    ensures TaskClicks(rows, 1) + TaskClicks(rows, 2) <= Clicks(rows)
    ensures Clicks(rows) + Moves(rows) + Scrolls(rows) <= |rows|
    decreases |rows|
  {
    if rows != [] {
      TallyBounds(rows[..|rows| - 1]);
    }
  }

  /** A released click is counted by none of the three tallies. */
  lemma {:induction false} ReleasedClicksUncounted(rows: seq<Row>)
    requires forall i :: 0 <= i < |rows| ==> rows[i].eventType == Click && !IsPressed(rows[i].pressed)
    ensures Clicks(rows) == 0 && Moves(rows) == 0 && Scrolls(rows) == 0
    decreases |rows|
  {
    if rows != [] {
      ReleasedClicksUncounted(rows[..|rows| - 1]);
    }
  }

  // ---------------------------------------------------------------------------
  // Dominant emotion per task

  /** A stored emotion event, as far as the tab reads it. */
  datatype EmotionRow = EmotionRow(taskId: Option<int>, dominantEmotion: string)

  /** `[e["dominant_emotion"] for e in emotions if e.get("task_id") == task_id]`. */
  function TaskLabels(emotions: seq<EmotionRow>, taskId: int): (labels: seq<string>)
    ensures |labels| <= |emotions|
    ensures forall l :: l in labels <==> exists i :: 0 <= i < |emotions| && emotions[i].taskId == Some(taskId) && emotions[i].dominantEmotion == l
  {
    if emotions == [] then []
    else
      var init := emotions[..|emotions| - 1];
      var last := emotions[|emotions| - 1];
      var rest := TaskLabels(init, taskId);
      assert forall i :: 0 <= i < |init| ==> init[i] == emotions[i];
      rest + (if last.taskId == Some(taskId) then [last.dominantEmotion] else [])
  }

  predicate Distinct(keys: seq<string>) {
    forall i, j :: 0 <= i < j < |keys| ==> keys[i] != keys[j]
  }

  /** The counts of `keys`, added up. */
  function SumCounts(keys: seq<string>, counts: map<string, nat>): nat
    requires forall k :: k in keys ==> k in counts
  {
    if keys == [] then 0 else SumCounts(keys[..|keys| - 1], counts) + counts[keys[|keys| - 1]]
  }

  /** Changing the count of a key that is not listed leaves the sum alone. */
  lemma {:induction false} SumCountsOther(keys: seq<string>, counts: map<string, nat>, d: string, v: nat)
    requires forall k :: k in keys ==> k in counts
    requires d !in keys
    ensures SumCounts(keys, counts[d := v]) == SumCounts(keys, counts)
    decreases |keys|
  {
    if keys != [] {
      SumCountsOther(keys[..|keys| - 1], counts, d, v);
    }
  }

  /** Raising the count of one listed key (keys listed once) raises the sum by one. */
  lemma {:induction false} SumCountsBump(keys: seq<string>, counts: map<string, nat>, d: string)
    requires forall k :: k in keys ==> k in counts
    requires Distinct(keys) && d in keys
    ensures SumCounts(keys, counts[d := counts[d] + 1]) == SumCounts(keys, counts) + 1
    decreases |keys|
  {
    var init, last := keys[..|keys| - 1], keys[|keys| - 1];
    if last == d {
      assert d !in init;
      SumCountsOther(init, counts, d, counts[d] + 1);
    } else {
      assert d in init;
      SumCountsBump(init, counts, d);
    }
  }

  /** `max(summary, key=summary.get)`: the position of the first key, in insertion
      order, with the highest count. */
  function FirstMaxIndex(keys: seq<string>, counts: map<string, nat>): (i: nat)
    requires keys != [] && forall k :: k in keys ==> k in counts
    ensures i < |keys|
    ensures forall j :: 0 <= j < |keys| ==> counts[keys[j]] <= counts[keys[i]]
    ensures forall j :: 0 <= j < i ==> counts[keys[j]] < counts[keys[i]]
  {
    if |keys| == 1 then 0
    else
      var r := FirstMaxIndex(keys[1..], counts);
      assert forall j :: 1 <= j < |keys| ==> keys[j] == keys[1..][j - 1];
      if counts[keys[0]] >= counts[keys[1..][r]] then 0 else r + 1
  }

  /** `keys` and `counts` are the tally of `seen`: each distinct label once, in
      first-seen order, with the number of times it was seen; the counts add up
      to the number of labels seen. */
  ghost predicate Tallied(seen: seq<string>, keys: seq<string>, counts: map<string, nat>) {
    && Distinct(keys)
    && (forall k :: k in keys <==> k in counts)
    && (forall k :: k in counts <==> k in seen)
    && (forall k :: k in counts ==> counts[k] == multiset(seen)[k])
    && SumCounts(keys, counts) == |seen|
  }

  /** A label seen for the first time becomes the last key, with count 1. */
  lemma TallyNewLabel(seen: seq<string>, keys: seq<string>, counts: map<string, nat>, d: string)
    requires Tallied(seen, keys, counts) && d !in counts
    ensures Tallied(seen + [d], keys + [d], counts[d := 1])
  {
    NewKeyDistinct(keys, counts, d);
    NewKeyCounted(seen, counts, d);
    assert (keys + [d])[..|keys|] == keys;
    SumCountsOther(keys, counts, d, 1);
  }

  /** Appending a key that has no count keeps the keys distinct. */
  lemma NewKeyDistinct(keys: seq<string>, counts: map<string, nat>, d: string)
    requires Distinct(keys) && (forall k :: k in keys ==> k in counts) && d !in counts
    ensures Distinct(keys + [d])
  {
    var keys' := keys + [d];
    forall i, j | 0 <= i < j < |keys'| ensures keys'[i] != keys'[j] {
      if j == |keys| {
        assert keys'[i] == keys[i] && keys[i] in keys;
      } else {
        assert keys'[i] == keys[i] && keys'[j] == keys[j];
      }
    }
  }

  /** A label not seen before, counted once, keeps every count equal to its
      number of occurrences. */
  lemma NewKeyCounted(seen: seq<string>, counts: map<string, nat>, d: string)
    requires (forall k :: k in counts <==> k in seen) && (forall k :: k in counts ==> counts[k] == multiset(seen)[k])
    requires d !in counts
    ensures forall k :: k in counts[d := 1] <==> k in seen + [d]
    ensures forall k :: k in counts[d := 1] ==> counts[d := 1][k] == multiset(seen + [d])[k]
  {
    assert multiset(seen + [d]) == multiset(seen) + multiset{d};
    assert d !in multiset(seen);
  }

  /** A label seen before has its count raised by one. */
  lemma TallySeenLabel(seen: seq<string>, keys: seq<string>, counts: map<string, nat>, d: string)
    requires Tallied(seen, keys, counts) && d in counts
    ensures Tallied(seen + [d], keys, counts[d := counts[d] + 1])
  {
    SumCountsBump(keys, counts, d);
  }

  /** The counting loop of `_build_emotions_tab`: each label of the task's events
      once, keys in first-seen order. */
  method Tally(labels: seq<string>) returns (keys: seq<string>, counts: map<string, nat>)
    ensures Tallied(labels, keys, counts)
  {
    keys, counts := [], map[];
    var i := 0;
    while i < |labels|
      invariant 0 <= i <= |labels|
      invariant Tallied(labels[..i], keys, counts)
    {
      var d := labels[i];
      assert labels[..i + 1] == labels[..i] + [d];
      if d in counts {
        TallySeenLabel(labels[..i], keys, counts, d);
        counts := counts[d := counts[d] + 1];
      } else {
        TallyNewLabel(labels[..i], keys, counts, d);
        counts := counts[d := 1];
        keys := keys + [d];
      }
      i := i + 1;
    }
    assert labels[..i] == labels;
  }

  /** The per-task summary of `_build_emotions_tab`: count each dominant emotion
      once per event, keys in first-seen order, then take the first most frequent
      one. */
  method TallyTaskEmotions(labels: seq<string>) returns (keys: seq<string>, counts: map<string, nat>, top: string)
    requires labels != []
    ensures Distinct(keys) && forall k :: k in keys <==> k in counts
    ensures forall k :: k in counts <==> k in labels
    ensures forall k :: k in counts ==> counts[k] == multiset(labels)[k]
    ensures SumCounts(keys, counts) == |labels|
    ensures top in counts && forall k :: k in counts ==> counts[k] <= counts[top]
    ensures exists i :: 0 <= i < |keys| && keys[i] == top && forall j :: 0 <= j < i ==> counts[keys[j]] < counts[top]
  {
    keys, counts := Tally(labels);
    assert labels[0] in counts;
    var t := FirstMaxIndex(keys, counts);
    top := keys[t];
  }

  // ---------------------------------------------------------------------------
  // The in-memory overlay of one screenshot

  /** Rows that heat a cell in `_make_overlay_pixmap`: moves and every click,
      pressed or released. */
  predicate HeatsCell(r: Row) {
    r.eventType == Move || r.eventType == Click
  }

  function RowCoord(r: Row): Coord {
    Coord(r.x, r.y)
  }

  /** The coordinates that heat the grid, in event order. */
  function HeatCoords(rows: seq<Row>): (cs: seq<Coord>)
    ensures |cs| <= |rows|
  {
    if rows == [] then []
    else HeatCoords(rows[..|rows| - 1]) + (if HeatsCell(rows[|rows| - 1]) then [RowCoord(rows[|rows| - 1])] else [])
  }

  /** The click markers: pressed clicks only, at their unclamped coordinates. */
  function ClickMarkers(rows: seq<Row>): (cs: seq<Coord>)
    ensures |cs| <= |rows|
  {
    if rows == [] then []
    else ClickMarkers(rows[..|rows| - 1]) + (if PressedClickRow(rows[|rows| - 1]) then [RowCoord(rows[|rows| - 1])] else [])
  }

  /** Every marker is also a heat point, so there are never more markers than
      heat points, and the grid's total is the number of heat points. */
  lemma {:induction false} MarkersAmongHeat(rows: seq<Row>, width: int, height: int)
    requires width > 0 && height > 0
    ensures |ClickMarkers(rows)| <= |HeatCoords(rows)|
    ensures forall m :: m in ClickMarkers(rows) ==> m in HeatCoords(rows)
    ensures Mass(HeatCoords(rows), width, height, height) == |HeatCoords(rows)|
    decreases |rows|
  {
    MassIsCount(HeatCoords(rows), width, height);
    if rows != [] {
      MarkersAmongHeat(rows[..|rows| - 1], width, height);
    }
  }

  /** One more row extends the heat points and the markers by that row's own. */
  lemma PixmapStep(rows: seq<Row>, i: nat)
    requires i < |rows|
    ensures HeatCoords(rows[..i + 1]) == HeatCoords(rows[..i]) + (if HeatsCell(rows[i]) then [RowCoord(rows[i])] else [])
    ensures ClickMarkers(rows[..i + 1]) == ClickMarkers(rows[..i]) + (if PressedClickRow(rows[i]) then [RowCoord(rows[i])] else [])
  {
    assert rows[..i + 1][..i] == rows[..i];
  }

  /** One more heating row changes the count of its clamped cell by one, and no
      other count; any other row changes nothing. */
  lemma HeatDelta(heat: seq<Coord>, e: Row, width: int, height: int)
    requires width > 0 && height > 0
    ensures forall r, c :: 0 <= r < height && 0 <= c < width ==>
      CellCount(heat + (if HeatsCell(e) then [RowCoord(e)] else []), width, height, r, c) ==
      CellCount(heat, width, height, r, c) +
        (if HeatsCell(e) && r == Clamp(e.y, 0, height - 1) && c == Clamp(e.x, 0, width - 1) then 1 else 0)
  {
    forall r, c | 0 <= r < height && 0 <= c < width
      ensures CellCount(heat + (if HeatsCell(e) then [RowCoord(e)] else []), width, height, r, c) ==
              CellCount(heat, width, height, r, c) +
                (if HeatsCell(e) && r == Clamp(e.y, 0, height - 1) && c == Clamp(e.x, 0, width - 1) then 1 else 0)
    {
      if HeatsCell(e) {
        CellCountSnoc(heat, RowCoord(e), width, height, r, c);
      } else {
        assert heat + [] == heat;
      }
    }
  }

  /** `heatmap[y, x] += 1`: one cell grows by one, every other cell keeps its value. */
  method Bump(hm: array2<real>, y: int, x: int)
    requires 0 <= y < hm.Length0 && 0 <= x < hm.Length1
    modifies hm
    ensures forall r, c :: 0 <= r < hm.Length0 && 0 <= c < hm.Length1 ==>
              hm[r, c] == old(hm[r, c]) + (if r == y && c == x then 1.0 else 0.0)
  {
    hm[y, x] := hm[y, x] + 1.0;
  }

  /** The accumulation loop of `_make_overlay_pixmap`: each move or click adds one
      to its clamped cell of an H×W grid indexed [y, x], and each pressed click
      becomes a marker. */
  method OverlayPixmapGrid(rows: seq<Row>, width: int, height: int) returns (hm: array2<real>, markers: seq<Coord>)
    requires width > 0 && height > 0
    ensures hm.Length0 == height && hm.Length1 == width
    ensures forall r, c :: 0 <= r < height && 0 <= c < width ==>
              hm[r, c] == CellCount(HeatCoords(rows), width, height, r, c) as real
    ensures markers == ClickMarkers(rows)
  {
    hm := new real[height, width]((r, c) => 0.0);
    markers := [];
    ghost var heat: seq<Coord> := [];
    var i := 0;
    while i < |rows|
      invariant 0 <= i <= |rows|
      invariant heat == HeatCoords(rows[..i])
      invariant forall r, c :: 0 <= r < height && 0 <= c < width ==>
                  hm[r, c] == CellCount(heat, width, height, r, c) as real
      invariant markers == ClickMarkers(rows[..i])
    {
      var e := rows[i];
      var ex := Clamp(e.x, 0, width - 1);
      var ey := Clamp(e.y, 0, height - 1);
      PixmapStep(rows, i);
      HeatDelta(heat, e, width, height);
      heat := heat + (if HeatsCell(e) then [RowCoord(e)] else []);
      if e.eventType == Click && IsPressed(e.pressed) {
        markers := markers + [RowCoord(e)];
      }
      if e.eventType == Move || e.eventType == Click {
        Bump(hm, ey, ex);
      }
      i := i + 1;
    }
    assert rows[..|rows|] == rows;
  }
}
