/** The activity grid shared by the heatmap generators and the report overlay
    (`_create_heatmap_array` in hci_logger/processing/heatmap.py and
    hci_logger/processing/heatmap_overlay.py): an H×W grid indexed [y, x], one unit
    added per (clamped) coordinate, then a Gaussian blur and a normalisation by the
    maximum. The blur is foreign code and is a function parameter here. */
module ActivityGrid {
  import opened MouseEvents

  /** `max(lo, min(v, hi))`. */
  function Clamp(v: int, lo: int, hi: int): (r: int)
    requires lo <= hi
    ensures lo <= r <= hi
    ensures lo <= v <= hi ==> r == v
    ensures v < lo ==> r == lo
    ensures v > hi ==> r == hi
  {
    if v < lo then lo else if v > hi then hi else v
  }

  /** The grid cell that a coordinate lands in on a width×height grid. */
  function CellOf(p: Coord, width: int, height: int): (c: Coord)
    requires width > 0 && height > 0
    ensures 0 <= c.x < width && 0 <= c.y < height
    ensures 0 <= p.x < width && 0 <= p.y < height ==> c == p
  {
    Coord(Clamp(p.x, 0, width - 1), Clamp(p.y, 0, height - 1))
  }

  /** How many of the coordinates land in cell [row, col]. */
  function CellCount(coords: seq<Coord>, width: int, height: int, row: int, col: int): nat
    requires width > 0 && height > 0
    decreases |coords|
  {
    if coords == [] then 0
    else CellCount(coords[..|coords| - 1], width, height, row, col) +
         (if CellOf(coords[|coords| - 1], width, height) == Coord(col, row) then 1 else 0)
  }

  lemma CellCountSnoc(coords: seq<Coord>, p: Coord, width: int, height: int, row: int, col: int)
    requires width > 0 && height > 0
    ensures CellCount(coords + [p], width, height, row, col) ==
            CellCount(coords, width, height, row, col) + (if CellOf(p, width, height) == Coord(col, row) then 1 else 0)
  {
    assert (coords + [p])[..|coords|] == coords;
  }

  /** Sum of the first `n` cells of a row. */
  function RowMass(coords: seq<Coord>, width: int, height: int, row: int, n: nat): nat
    requires width > 0 && height > 0
  {
    if n == 0 then 0 else RowMass(coords, width, height, row, n - 1) + CellCount(coords, width, height, row, n - 1)
  }

  /** Sum of all cells of the first `m` rows. */
  function Mass(coords: seq<Coord>, width: int, height: int, m: nat): nat
    requires width > 0 && height > 0
  {
    if m == 0 then 0 else Mass(coords, width, height, m - 1) + RowMass(coords, width, height, m - 1, width)
  }

  lemma {:induction false} RowMassSnoc(coords: seq<Coord>, p: Coord, width: int, height: int, row: int, n: nat)
    requires width > 0 && height > 0
    ensures var c := CellOf(p, width, height);
      RowMass(coords + [p], width, height, row, n) ==
      RowMass(coords, width, height, row, n) + (if c.y == row && c.x < n then 1 else 0)
  {
    if n > 0 {
      RowMassSnoc(coords, p, width, height, row, n - 1);
      CellCountSnoc(coords, p, width, height, row, n - 1);
    }
  }

  lemma {:induction false} MassSnoc(coords: seq<Coord>, p: Coord, width: int, height: int, m: nat)
    requires width > 0 && height > 0
    ensures Mass(coords + [p], width, height, m) ==
            Mass(coords, width, height, m) + (if CellOf(p, width, height).y < m then 1 else 0)
  {
    if m > 0 {
      MassSnoc(coords, p, width, height, m - 1);
      RowMassSnoc(coords, p, width, height, m - 1, width);
    }
  }

  /** Before the blur, the total mass of the grid equals the number of coordinates:
      each adds exactly one unit, to a cell inside the grid. */
  lemma {:induction false} MassIsCount(coords: seq<Coord>, width: int, height: int)
    requires width > 0 && height > 0
    ensures Mass(coords, width, height, height) == |coords|
    decreases |coords|
  {
    if coords == [] {
      MassOfNothing(width, height, height);
    } else {
      var init, p := coords[..|coords| - 1], coords[|coords| - 1];
      assert coords == init + [p];
      MassIsCount(init, width, height);
      MassSnoc(init, p, width, height, height);
    }
  }

  lemma {:induction false} MassOfNothing(width: int, height: int, m: nat)
    requires width > 0 && height > 0
    ensures Mass([], width, height, m) == 0
  {
    if m > 0 {
      MassOfNothing(width, height, m - 1);
      RowMassOfNothing(width, height, m - 1, width);
    }
  }

  lemma {:induction false} RowMassOfNothing(width: int, height: int, row: int, n: nat)
    requires width > 0 && height > 0
    ensures RowMass([], width, height, row, n) == 0
  {
    if n > 0 {
      RowMassOfNothing(width, height, row, n - 1);
    }
  }

  /** `heatmap = np.zeros((H, W)); for x, y in coordinates: heatmap[y, x] += 1` after
      clamping each coordinate into [0, W-1]×[0, H-1]. */
  method Accumulate(coords: seq<Coord>, width: int, height: int) returns (heat: array2<real>)
    requires width > 0 && height > 0
    ensures heat.Length0 == height && heat.Length1 == width
    ensures forall r, c :: 0 <= r < height && 0 <= c < width ==>
              heat[r, c] == CellCount(coords, width, height, r, c) as real
  {
    heat := new real[height, width]((r, c) => 0.0);
    var i := 0;
    while i < |coords|
      invariant 0 <= i <= |coords|
      invariant forall r, c :: 0 <= r < height && 0 <= c < width ==>
                  heat[r, c] == CellCount(coords[..i], width, height, r, c) as real
    {
      var x := Clamp(coords[i].x, 0, width - 1);
      var y := Clamp(coords[i].y, 0, height - 1);
      assert CellOf(coords[i], width, height) == Coord(x, y);
      assert coords[..i + 1] == coords[..i] + [coords[i]];
      forall r, c | 0 <= r < height && 0 <= c < width
        ensures CellCount(coords[..i + 1], width, height, r, c) ==
                CellCount(coords[..i], width, height, r, c) + (if r == y && c == x then 1 else 0)
      {
        CellCountSnoc(coords[..i], coords[i], width, height, r, c);
      }
      heat[y, x] := heat[y, x] + 1.0;
      i := i + 1;
    }
    assert coords[..|coords|] == coords;
  }

  // ---------------------------------------------------------------------------
  // Real-valued grids and the normalisation by the maximum.

  type Grid = seq<seq<real>>

  /** The cells of a grid, row by row. */
  function Cells(g: Grid): seq<real> {
    if g == [] then [] else g[0] + Cells(g[1..])
  }

  /** The largest value of a non-empty sequence (numpy's `max()`). */
  function MaxOf(s: seq<real>): (m: real)
    requires |s| > 0
    ensures m in s
    ensures forall i :: 0 <= i < |s| ==> s[i] <= m
  {
    if |s| == 1 then s[0]
    else
      var rest := MaxOf(s[1..]);
      if s[0] >= rest then s[0] else rest
  }

  function DivideRow(row: seq<real>, m: real): (r: seq<real>)
    requires m > 0.0
    ensures |r| == |row|
  {
    seq(|row|, j requires 0 <= j < |row| => row[j] / m)
  }

  function DivideGrid(g: Grid, m: real): (r: Grid)
    requires m > 0.0
    ensures |r| == |g| && forall i :: 0 <= i < |g| ==> |r[i]| == |g[i]|
  {
    seq(|g|, i requires 0 <= i < |g| => DivideRow(g[i], m))
  }

  lemma {:induction false} CellsDivide(g: Grid, m: real)
    requires m > 0.0
    ensures Cells(DivideGrid(g, m)) == DivideRow(Cells(g), m)
    decreases |g|
  {
    if g != [] {
      CellsDivide(g[1..], m);
      assert DivideGrid(g, m)[1..] == DivideGrid(g[1..], m);
      assert DivideRow(g[0] + Cells(g[1..]), m) == DivideRow(g[0], m) + DivideRow(Cells(g[1..]), m);
    }
  }

  lemma {:induction false} MaxDivide(s: seq<real>, m: real)
    requires |s| > 0 && m > 0.0
    ensures MaxOf(DivideRow(s, m)) == MaxOf(s) / m
    decreases |s|
  {
    if |s| > 1 {
      var d := DivideRow(s, m);
      MaxDivide(s[1..], m);
      assert d[1..] == DivideRow(s[1..], m);
      assert d[0] == s[0] / m;
      DivideKeepsOrder(s[0], MaxOf(s[1..]), m);
    }
  }

  lemma DivideKeepsOrder(a: real, b: real, m: real)
    requires m > 0.0
    ensures a >= b <==> a / m >= b / m
  {
    assert a == (a / m) * m && b == (b / m) * m;
    assert a - b == (a / m - b / m) * m;
  }

  /** `if grid.max() > 0: grid = grid / grid.max()`: a grid with a positive maximum is
      scaled so that its maximum is exactly 1 and no cell exceeds 1; any other grid
      is returned unchanged. The shape is kept. */
  function Normalize(g: Grid): (n: Grid)
    ensures |n| == |g| && forall i :: 0 <= i < |g| ==> |n[i]| == |g[i]|
  {
    if |Cells(g)| > 0 && MaxOf(Cells(g)) > 0.0 then DivideGrid(g, MaxOf(Cells(g))) else g
  }

  /** A grid with a positive peak is scaled so that its peak becomes exactly 1 and
      no cell exceeds 1; every cell keeps its proportion to the peak. */
  lemma NormalizeScalesToPeak(g: Grid)
    requires |Cells(g)| > 0 && MaxOf(Cells(g)) > 0.0
    ensures |Cells(Normalize(g))| == |Cells(g)|
    ensures forall i :: 0 <= i < |Cells(g)| ==> Cells(Normalize(g))[i] == Cells(g)[i] / MaxOf(Cells(g))
    ensures MaxOf(Cells(Normalize(g))) == 1.0
    ensures forall i :: 0 <= i < |Cells(g)| ==> Cells(Normalize(g))[i] <= 1.0
  {
    var m := MaxOf(Cells(g));
    assert m / m == 1.0;
    var cells := Cells(g);
    assert Normalize(g) == DivideGrid(g, m);
    CellsDivide(g, m);
    var scaled := DivideRow(cells, m);
    assert Cells(Normalize(g)) == scaled;
    MaxDivide(cells, m);
    forall i | 0 <= i < |cells|
      ensures scaled[i] <= 1.0
    {
      DivideKeepsOrder(m, cells[i], m);
    }
  }



  /** The accumulated counts as a real grid, rows first. */
  function CountGrid(coords: seq<Coord>, width: int, height: int): (g: Grid)
    requires width > 0 && height > 0
  {
    seq(height, r requires 0 <= r < height => seq(width, c requires 0 <= c < width => CellCount(coords, width, height, r, c) as real))
  }

  /** An all-zero width×height grid (`np.zeros((H, W))`). */
  function ZeroGrid(width: int, height: int): Grid
    requires width > 0 && height > 0
  {
    seq(height, r => seq(width, c => 0.0))
  }

  lemma {:induction false} CellsOfZeros(g: Grid)
    requires forall i, j :: 0 <= i < |g| && 0 <= j < |g[i]| ==> g[i][j] == 0.0
    ensures forall k :: 0 <= k < |Cells(g)| ==> Cells(g)[k] == 0.0
    decreases |g|
  {
    if g != [] {
      CellsOfZeros(g[1..]);
    }
  }

  /** With no coordinates the grid is all zero, and normalisation leaves it so. */
  lemma EmptyInputZeroGrid(width: int, height: int)
    requires width > 0 && height > 0
    ensures CountGrid([], width, height) == ZeroGrid(width, height)
    ensures Normalize(ZeroGrid(width, height)) == ZeroGrid(width, height)
  {
    var z := ZeroGrid(width, height);
    var g := CountGrid([], width, height);
    forall r | 0 <= r < height
      ensures g[r] == z[r]
    {
    }
    CellsOfZeros(z);
  }

  /** The grid as a sequence of rows. */
  function ToGrid(heat: array2<real>): (g: Grid)
    reads heat
    ensures |g| == heat.Length0 && forall r :: 0 <= r < |g| ==> |g[r]| == heat.Length1
  {
    seq(heat.Length0, r requires 0 <= r < heat.Length0 reads heat =>
      seq(heat.Length1, c requires 0 <= c < heat.Length1 reads heat => heat[r, c]))
  }

  /** The activity map of a list of coordinates: counts, blurred, normalised. */
  function HeatmapOf(coords: seq<Coord>, width: int, height: int, blur: Grid -> Grid): Grid
    requires width > 0 && height > 0
  {
    Normalize(blur(CountGrid(coords, width, height)))
  }

  /** `_create_heatmap_array`: accumulate, blur, normalise. */
  method CreateHeatmapArray(coords: seq<Coord>, width: int, height: int, blur: Grid -> Grid) returns (g: Grid)
    requires width > 0 && height > 0
    ensures g == HeatmapOf(coords, width, height, blur)
  {
    var heat := Accumulate(coords, width, height);
    var counts := ToGrid(heat);
    var expected := CountGrid(coords, width, height);
    forall r | 0 <= r < height
      ensures counts[r] == expected[r]
    {
    }
    assert counts == expected;
    g := Normalize(blur(counts));
  }
}
