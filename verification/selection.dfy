/** The selection layer of `MapModel`: one marker per texel, drawn over the
    data by the map shader. Markers: 0 none, 1 picked point or profile
    pixel, 2 highlight, 5 profile sample, -1 reference pixel.

    The array has shape `(h, w, 2)` and every write sets both channels, so a
    cell is one marker here and `selection.sum()` counts each marker twice.
    Points are `(x, y)` texture coordinates and address `selection[y, x]`,
    with Python's negative indices. */
module Selection {
  import opened Outcomes
  import opened Coords
  import opened Utils
  import opened Bresenham

  const Empty: int := 0
  const Point: int := 1
  const Highlight: int := 2
  const Sample: int := 5
  const Reference: int := -1

  /** `h` rows of `w` markers. */
  datatype Grid = Grid(h: nat, w: nat, cells: seq<seq<int>>)

  predicate Shaped(g: Grid) {
    |g.cells| == g.h && forall r :: 0 <= r < g.h ==> |g.cells[r]| == g.w
  }

  predicate SameShape(g: Grid, g': Grid) {
    Shaped(g) && Shaped(g') && g.h == g'.h && g.w == g'.w
  }

  /** `np.zeros((h, w, 2))`. */
  function Zeros(h: nat, w: nat): (g: Grid)
    ensures Shaped(g) && g.h == h && g.w == w
    ensures forall r, c :: 0 <= r < h && 0 <= c < w ==> g.cells[r][c] == Empty
  {
    Grid(h, w, seq(h, r => seq(w, c => Empty)))
  }

  /** The cell `(row, col)` that `selection[y, x]` addresses, if any. */
  function Target(h: nat, w: nat, p: Pair): (r: Option<(nat, nat)>)
    ensures r.Some? <==> -(h as int) <= p.1 < h && -(w as int) <= p.0 < w
    ensures r.Some? ==> r.value.0 < h && r.value.1 < w
  {
    match (PyIndex(p.1, h), PyIndex(p.0, w))
    case (Some(row), Some(col)) => Some((row, col))
    case _ => None
  }

  /** `selection[y, x] = v`. */
  function Put(g: Grid, p: Pair, v: int): (r: Result<Grid>)
    requires Shaped(g)
    ensures r.Ok? <==> Target(g.h, g.w, p).Some?
    ensures r.Err? ==> r.fault == IndexError
    ensures r.Ok? ==> SameShape(g, r.value)
    ensures r.Ok? ==> forall row, col :: 0 <= row < g.h && 0 <= col < g.w ==>
              r.value.cells[row][col] == if Target(g.h, g.w, p) == Some((row, col)) then v else g.cells[row][col]
  {
    match Target(g.h, g.w, p)
    case None => Err(IndexError)
    case Some((row, col)) => Ok(g.(cells := g.cells[row := g.cells[row][col := v]]))
  }

  /** Some point of `ps` addresses `(row, col)`. */
  predicate Hits(h: nat, w: nat, ps: seq<Pair>, row: nat, col: nat) {
    exists k :: 0 <= k < |ps| && Target(h, w, ps[k]) == Some((row, col))
  }

  /** `for p in ps: selection[y, x] = v`. */
  function MarkAll(g: Grid, ps: seq<Pair>, v: int): (r: Result<Grid>)
    requires Shaped(g)
    ensures r.Ok? <==> forall k :: 0 <= k < |ps| ==> Target(g.h, g.w, ps[k]).Some?
    ensures r.Err? ==> r.fault == IndexError
    ensures r.Ok? ==> SameShape(g, r.value)
    decreases |ps|
  {
    if ps == [] then Ok(g)
    else
      match Put(g, ps[0], v)
      case Err(f) => Err(f)
      case Ok(g1) =>
        assert forall k :: 1 <= k < |ps| ==> ps[k] == ps[1..][k - 1];
        MarkAll(g1, ps[1..], v)
  }

  /** After `MarkAll` a cell holds `v` when some point addresses it and its
      old marker otherwise. */
  lemma {:induction false} MarkAllCells(g: Grid, ps: seq<Pair>, v: int, row: nat, col: nat)
    requires Shaped(g) && row < g.h && col < g.w && MarkAll(g, ps, v).Ok?
    ensures MarkAll(g, ps, v).value.cells[row][col] == if Hits(g.h, g.w, ps, row, col) then v else g.cells[row][col]
    decreases |ps|
  {
    if ps != [] {
      var g1 := Put(g, ps[0], v).value;
      MarkAllCells(g1, ps[1..], v, row, col);
      if Hits(g.h, g.w, ps[1..], row, col) {
        var k :| 0 <= k < |ps[1..]| && Target(g.h, g.w, ps[1..][k]) == Some((row, col));
        assert ps[k + 1] == ps[1..][k];
      }
      if Hits(g.h, g.w, ps, row, col) && Target(g.h, g.w, ps[0]) != Some((row, col)) {
        var k :| 0 <= k < |ps| && Target(g.h, g.w, ps[k]) == Some((row, col));
        assert ps[1..][k - 1] == ps[k];
      }
      if Target(g.h, g.w, ps[0]) == Some((row, col)) {
        assert Hits(g.h, g.w, ps, row, col);
      }
    }
  }

  /** Every point of `ps` is marked `v` after `MarkAll`. */
  lemma MarkAllMarks(g: Grid, ps: seq<Pair>, v: int, k: nat)
    requires Shaped(g) && k < |ps| && MarkAll(g, ps, v).Ok?
    ensures var (row, col) := Target(g.h, g.w, ps[k]).value;
            MarkAll(g, ps, v).value.cells[row][col] == v
  {
    var (row, col) := Target(g.h, g.w, ps[k]).value;
    MarkAllCells(g, ps, v, row, col);
  }

  /** `selection[selection == 2] = 0`. */
  function ClearHighlights(g: Grid): (r: Grid)
    requires Shaped(g)
    ensures SameShape(g, r)
    ensures forall row, col :: 0 <= row < g.h && 0 <= col < g.w ==>
              r.cells[row][col] == if g.cells[row][col] == Highlight then Empty else g.cells[row][col]
  {
    g.(cells := seq(g.h, row requires 0 <= row < g.h =>
                  seq(g.w, col requires 0 <= col < g.w =>
                    if g.cells[row][col] == Highlight then Empty else g.cells[row][col])))
  }

  // ---------------------------------------------------------------------------
  // Sums

  function RowTotal(s: seq<int>): int {
    if s == [] then 0 else s[0] + RowTotal(s[1..])
  }

  function Total(rows: seq<seq<int>>): int {
    if rows == [] then 0 else RowTotal(rows[0]) + Total(rows[1..])
  }

  /** `selection.sum()`: both channels, so every marker twice. */
  function SelectionSum(g: Grid): int { 2 * Total(g.cells) }

  lemma {:induction false} RowTotalZeros(s: seq<int>)
    requires forall k :: 0 <= k < |s| ==> s[k] == Empty
    ensures RowTotal(s) == 0
  {
    if s != [] {
      RowTotalZeros(s[1..]);
    }
  }

  lemma {:induction false} TotalZeros(rows: seq<seq<int>>)
    requires forall r, c :: 0 <= r < |rows| && 0 <= c < |rows[r]| ==> rows[r][c] == Empty
    ensures Total(rows) == 0
  {
    if rows != [] {
      RowTotalZeros(rows[0]);
      TotalZeros(rows[1..]);
    }
  }

  /** A fresh layer sums to zero. */
  lemma ZerosSum(h: nat, w: nat)
    ensures SelectionSum(Zeros(h, w)) == 0
  {
    TotalZeros(Zeros(h, w).cells);
  }

  /** The sum counts each marker twice and a reference pixel as -1, so a
      layer holding one point and one reference pixel sums to 0. */
  lemma PointAndReferenceCancel()
    ensures SelectionSum(Grid(1, 2, [[Point, Reference]])) == 0
  {
    var row := [Point, Reference];
    assert row[1..][1..] == [];
    assert row[1..] == [Reference] && row[1..][1..] == [];
    assert RowTotal(row[1..]) == Reference;
    assert RowTotal(row) == Point + Reference;
    var rows: seq<seq<int>> := [row];
    assert rows[1..] == [];
    assert Total(rows) == RowTotal(row) + Total(rows[1..]);
    assert Grid(1, 2, [[Point, Reference]]).cells == rows;
  }

  // ---------------------------------------------------------------------------
  // show_points

  /** What `show_points` is given: a `(x, y)` tuple or the rows of an array. */
  datatype Pointers = Tuple(p: Pair) | Array(rows: seq<Pair>)

  /** `k` is among the indices `np.nonzero(rows)` returns: a row index of a
      non-zero entry, or the column index (0 for x, 1 for y) of one. */
  ghost predicate NonzeroIndex(rows: seq<Pair>, k: nat) {
    (k < |rows| && rows[k] != (0, 0))
    || (k == 0 && exists r :: 0 <= r < |rows| && rows[r].0 != 0)
    || (k == 1 && exists r :: 0 <= r < |rows| && rows[r].1 != 0)
  }

  /** The last row that is not `(0, 0)`. */
  function LastNonzeroRow(rows: seq<Pair>): (r: Option<nat>)
    ensures r.None? <==> forall k :: 0 <= k < |rows| ==> rows[k] == (0, 0)
    ensures r.Some? ==> r.value < |rows| && rows[r.value] != (0, 0)
    ensures r.Some? ==> forall k :: r.value < k < |rows| ==> rows[k] == (0, 0)
  {
    if rows == [] then None
    else if rows[|rows| - 1] != (0, 0) then Some(|rows| - 1)
    else LastNonzeroRow(rows[..|rows| - 1])
  }

  /** `np.max(np.nonzero(rows))`: the largest of those indices; `None`
      where there is none and `np.max` of an empty array raises. */
  function NonzeroMax(rows: seq<Pair>): (r: Option<nat>)
    ensures r.Some? <==> exists k :: 0 <= k < |rows| && rows[k] != (0, 0)
    ensures r.Some? ==> NonzeroIndex(rows, r.value)
    ensures r.Some? ==> forall k: nat :: NonzeroIndex(rows, k) ==> k <= r.value
  {
    match LastNonzeroRow(rows)
    case None => None
    case Some(last) =>
      var anyY := exists r :: 0 <= r < |rows| && rows[r].1 != 0;
      if anyY && last == 0 then
        Some(1)
      else
        Some(last)
  }

  /** The point `show_points` marks: the tuple itself; with more rows than
      `nMax` the last row; otherwise row `np.max(np.nonzero(rows))`. */
  function Chosen(ptrs: Pointers, nMax: nat): (r: Result<Pair>)
    ensures ptrs.Tuple? ==> r == Ok(ptrs.p)
    ensures ptrs.Array? && |ptrs.rows| > nMax ==> r == Ok(ptrs.rows[|ptrs.rows| - 1])
    ensures ptrs.Array? && |ptrs.rows| <= nMax ==>
              match NonzeroMax(ptrs.rows)
              case None => r == Err(ValueError)
              case Some(k) => if k < |ptrs.rows| then r == Ok(ptrs.rows[k]) else r == Err(IndexError)
  {
    match ptrs
    case Tuple(p) => Ok(p)
    case Array(rows) =>
      if |rows| > nMax then Ok(rows[|rows| - 1])
      else
        match NonzeroMax(rows)
        case None => Err(ValueError)
        case Some(k) => if k < |rows| then Ok(rows[k]) else Err(IndexError)
  }

  /** With one non-zero row at the top whose y is non-zero, the index is the
      column index 1, not the row: the zero row below it is marked, or the
      lookup raises when there is no second row. */
  lemma NonzeroPicksColumnIndex(p: Pair, rest: seq<Pair>, nMax: nat)
    requires p.1 != 0 && 1 + |rest| <= nMax
    requires forall k :: 0 <= k < |rest| ==> rest[k] == (0, 0)
    ensures rest != [] ==> Chosen(Array([p] + rest), nMax) == Ok((0, 0))
    ensures rest == [] ==> Chosen(Array([p] + rest), nMax) == Err(IndexError)
  {
    var rows := [p] + rest;
    assert rows[0] == p;
    assert forall k :: 1 <= k < |rows| ==> rows[k] == rest[k - 1];
    assert NonzeroMax(rows) == Some(1);
  }

  /** The marking step of `show_points`: the chosen point becomes 1, and with
      more rows than `nMax` the first row's cell then becomes 0. */
  function MarkPoints(g: Grid, ptrs: Pointers, nMax: nat): (r: Result<Grid>)
    requires Shaped(g)
    ensures Chosen(ptrs, nMax).Err? ==> r == Err(Chosen(ptrs, nMax).fault)
    ensures r.Ok? ==> SameShape(g, r.value)
    ensures r.Ok? ==>
              var oldest := if ptrs.Array? && |ptrs.rows| > nMax then Target(g.h, g.w, ptrs.rows[0]) else None;
              var chosen := Target(g.h, g.w, Chosen(ptrs, nMax).value);
              && chosen.Some?
              && forall row, col :: 0 <= row < g.h && 0 <= col < g.w ==>
                   r.value.cells[row][col] ==
                     if oldest == Some((row, col)) then Empty
                     else if chosen == Some((row, col)) then Point
                     else g.cells[row][col]
    ensures r.Err? && Chosen(ptrs, nMax).Ok? ==> r.fault == IndexError
  {
    match Chosen(ptrs, nMax)
    case Err(f) => Err(f)
    case Ok(p) =>
      match Put(g, p, Point)
      case Err(f) => Err(f)
      case Ok(g1) =>
        if ptrs.Array? && |ptrs.rows| > nMax then Put(g1, ptrs.rows[0], Empty) else Ok(g1)
  }

  /** The cells `mymask` selects from the neighbour list: the listed cells,
      or every cell when the list is empty (indexing with an empty tuple
      selects the whole array). */
  predicate InMask(ns: seq<Pair>, row: nat, col: nat) {
    ns == [] || (row, col) in ns
  }

  /** The highlight step of `show_points(pointers, highlight)`: the cells
      within Chebyshev distance 2 of row `highlight`'s point, the point
      excluded, become 2 unless they hold 1. A tuple cannot be indexed by
      `[h, 1]`. */
  function HighlightAround(g: Grid, ptrs: Pointers, highlight: int): (r: Result<Grid>)
    requires Shaped(g)
    ensures ptrs.Tuple? ==> r == Err(TypeError)
    ensures ptrs.Array? && PyIndex(highlight, |ptrs.rows|).None? ==> r == Err(IndexError)
    ensures r.Ok? ==> SameShape(g, r.value)
    ensures r.Ok? ==>
              var q := ptrs.rows[PyIndex(highlight, |ptrs.rows|).value];
              var nr := Neighbors(g.h, g.w, q.1, q.0, 2);
              nr.Ok? && forall row, col :: 0 <= row < g.h && 0 <= col < g.w ==>
                r.value.cells[row][col] ==
                  if InMask(nr.value, row, col) && g.cells[row][col] != Point then Highlight else g.cells[row][col]
  {
    match ptrs
    case Tuple(_) => Err(TypeError)
    case Array(rows) =>
      match PyIndex(highlight, |rows|)
      case None => Err(IndexError)
      case Some(k) =>
        match Neighbors(g.h, g.w, rows[k].1, rows[k].0, 2)
        case Err(f) => Err(f)
        case Ok(ns) =>
          Ok(g.(cells := seq(g.h, row requires 0 <= row < g.h =>
                  seq(g.w, col requires 0 <= col < g.w =>
                    if InMask(ns, row, col) && g.cells[row][col] != Point then Highlight else g.cells[row][col]))))
  }

  /** On a layer larger than one cell the highlighted cells are exactly the
      ring of Chebyshev radius 2 around the point, inside the layer. */
  lemma HighlightIsRing(g: Grid, rows: seq<Pair>, highlight: int, row: nat, col: nat)
    requires Shaped(g) && (g.h > 1 || g.w > 1) && row < g.h && col < g.w
    requires HighlightAround(g, Array(rows), highlight).Ok?
    ensures var q := rows[PyIndex(highlight, |rows|).value];
            HighlightAround(g, Array(rows), highlight).value.cells[row][col] ==
              if Chebyshev((row, col), (q.1, q.0)) <= 2 && (row, col) != (q.1, q.0) && g.cells[row][col] != Point
              then Highlight else g.cells[row][col]
  {
    var q := rows[PyIndex(highlight, |rows|).value];
    var ns := Neighbors(g.h, g.w, q.1, q.0, 2).value;
    var a, b := q.1, q.0;
    assert InGrid(g.h, g.w, (a, b));
    var other: Pair := if g.h > 1 then (if a == 0 then (1, b) else (a - 1, b)) else (a, if b == 0 then 1 else b - 1);
    assert InGrid(g.h, g.w, other) && Chebyshev(other, (a, b)) <= 2 && other != (a, b);
    assert other in ns;
  }

  /** `show_points(pointers, highlight)`: highlights cleared, the chosen
      point marked, then the optional highlight. */
  function ShowPoints(g: Grid, ptrs: Pointers, highlight: Option<int>, nMax: nat): (r: Result<Grid>)
    requires Shaped(g)
    ensures r.Ok? ==> SameShape(g, r.value)
    ensures Chosen(ptrs, nMax).Err? ==> r.Err?
    ensures r.Ok? ==> Target(g.h, g.w, Chosen(ptrs, nMax).value).Some?
    ensures r.Ok? && highlight.None? ==>
              forall row, col :: 0 <= row < g.h && 0 <= col < g.w ==> r.value.cells[row][col] != Highlight
    ensures r.Ok? && highlight.None? && !(ptrs.Array? && |ptrs.rows| > nMax) ==>
              var (row, col) := Target(g.h, g.w, Chosen(ptrs, nMax).value).value;
              r.value.cells[row][col] == Point
  {
    match MarkPoints(ClearHighlights(g), ptrs, nMax)
    case Err(f) => Err(f)
    case Ok(g1) =>
      match highlight
      case None => Ok(g1)
      case Some(hl) => HighlightAround(g1, ptrs, hl)
  }

  // ---------------------------------------------------------------------------
  // show_ref

  /** `show_ref()`: every reference pixel becomes -1, nothing else changes;
      highlights are left in place. */
  function ShowRef(g: Grid, refs: seq<Pair>): (r: Result<Grid>)
    requires Shaped(g)
    ensures r.Ok? <==> forall k :: 0 <= k < |refs| ==> Target(g.h, g.w, refs[k]).Some?
    ensures r.Ok? ==> SameShape(g, r.value)
    ensures r.Ok? ==> forall row, col :: 0 <= row < g.h && 0 <= col < g.w ==>
              (r.value.cells[row][col] == Reference <==> Hits(g.h, g.w, refs, row, col) || g.cells[row][col] == Reference)
    ensures r.Ok? ==> forall row, col :: 0 <= row < g.h && 0 <= col < g.w && !Hits(g.h, g.w, refs, row, col) ==>
              r.value.cells[row][col] == g.cells[row][col]
  {
    var r := MarkAll(g, refs, Reference);
    if r.Ok? then
      forall row, col | 0 <= row < g.h && 0 <= col < g.w {
        MarkAllCells(g, refs, Reference, row, col);
      }
      r
    else r
  }

  // ---------------------------------------------------------------------------
  // show_profile

  /** The profile state `show_profile` works on: the layer, the traced
      pixels `profile_points`, and the samples `all_pointers_ij`. */
  datatype ProfileLayer = ProfileLayer(grid: Grid, points: seq<Pair>, samples: Option<seq<Pair>>)

  /** The traced pixels after a click once a profile is under way: the
      Bresenham line from the last traced pixel to the click, its first
      pixel dropped, appended to them. */
  function Extend(points: seq<Pair>, click: Pair): (r: seq<Pair>)
    requires points != []
    ensures |r| >= |points| && r[..|points|] == points
    ensures r[|r| - 1] == click
    ensures forall k :: |points| - 1 <= k < |r| - 1 ==> Chebyshev(r[k], r[k + 1]) <= 1 && r[k] != r[k + 1]
  {
    var last := points[|points| - 1];
    var ln := Line(last.0, last.1, click.0, click.1);
    LineEnds(last.0, last.1, click.0, click.1);
    var pts := points + ln[1..];
    assert forall k :: |points| - 1 <= k < |pts| ==> pts[k] == ln[k - |points| + 1];
    forall k | |points| - 1 <= k < |pts| - 1
      ensures Chebyshev(pts[k], pts[k + 1]) <= 1 && pts[k] != pts[k + 1]
    {
      LineSteps(last.0, last.1, click.0, click.1, k - |points| + 1);
    }
    assert pts[..|points|] == points;
    pts
  }

  /** A traced pixel or sample marker. */
  predicate Traced(m: int) { m == Point || m == Sample }

  /** `all_pointers_ij` after the profile has been extended to `pts`: resampled
      when longer than `nMax`, otherwise as it was. */
  function Samples(pts: seq<Pair>, samples: Option<seq<Pair>>, nMax: nat, subsample: seq<Pair> -> seq<Pair>): Option<seq<Pair>> {
    if |pts| > nMax then Some(subsample(pts)) else samples
  }

  /** All points address a cell of a `h` by `w` layer. */
  predicate AllTargeted(h: nat, w: nat, ps: seq<Pair>) {
    forall k :: 0 <= k < |ps| ==> Target(h, w, ps[k]).Some?
  }

  /** The branch of `show_profile` taken once the layer sums above 1, as the
      profile is meant to be drawn: the profile is extended to the click,
      resampled when longer than `nMax`, every traced pixel is marked 1 and
      then every sample 5, if there are samples. */
  function Trace(g: Grid, points: seq<Pair>, click: Pair, samples: Option<seq<Pair>>, nMax: nat,
                 subsample: seq<Pair> -> seq<Pair>): (r: Result<ProfileLayer>)
    requires Shaped(g) && points != []
    ensures var pts := Extend(points, click);
            var ss := Samples(pts, samples, nMax, subsample);
            r.Ok? <==> AllTargeted(g.h, g.w, pts) && (ss.Some? ==> AllTargeted(g.h, g.w, ss.value))
    ensures r.Err? ==> r.fault == IndexError
    ensures r.Ok? ==> SameShape(g, r.value.grid)
    ensures r.Ok? ==> r.value.points == Extend(points, click)
    ensures r.Ok? ==> r.value.samples == Samples(r.value.points, samples, nMax, subsample)
    ensures r.Ok? ==> forall k :: 0 <= k < |r.value.points| ==>
              Target(g.h, g.w, r.value.points[k]).Some? &&
              var (row, col) := Target(g.h, g.w, r.value.points[k]).value;
              Traced(r.value.grid.cells[row][col])
    ensures r.Ok? && r.value.samples.Some? ==> forall k :: 0 <= k < |r.value.samples.value| ==>
              Target(g.h, g.w, r.value.samples.value[k]).Some? &&
              var (row, col) := Target(g.h, g.w, r.value.samples.value[k]).value;
              r.value.grid.cells[row][col] == Sample
  {
    var pts := Extend(points, click);
    var samples := Samples(pts, samples, nMax, subsample);
    match MarkAll(g, pts, Point)
    case Err(f) => Err(f)
    case Ok(g2) =>
      var marked := if samples.Some? then MarkAll(g2, samples.value, Sample) else Ok(g2);
      match marked
      case Err(f) => Err(f)
      case Ok(g3) =>
        forall k | 0 <= k < |pts|
          ensures Target(g.h, g.w, pts[k]).Some?
          ensures var (row, col) := Target(g.h, g.w, pts[k]).value; Traced(g3.cells[row][col])
        {
          var (row, col) := Target(g.h, g.w, pts[k]).value;
          MarkAllMarks(g, pts, Point, k);
          if samples.Some? {
            MarkAllCells(g2, samples.value, Sample, row, col);
          }
        }
        if samples.Some? then
          forall k | 0 <= k < |samples.value|
            ensures Target(g.h, g.w, samples.value[k]).Some?
            ensures var (row, col) := Target(g.h, g.w, samples.value[k]).value; g3.cells[row][col] == Sample
          {
            MarkAllMarks(g2, samples.value, Sample, k);
          }
          Ok(ProfileLayer(g3, pts, samples))
        else
          Ok(ProfileLayer(g3, pts, samples))
  }

  /** The same branch as the code has it: `for point in self.all_pointers_ij`
      raises when no samples exist, which is the case until the profile
      first grows beyond `nMax` pixels. */
  function TraceAsWritten(g: Grid, points: seq<Pair>, click: Pair, samples: Option<seq<Pair>>, nMax: nat,
                          subsample: seq<Pair> -> seq<Pair>): (r: Result<ProfileLayer>)
    requires Shaped(g) && points != []
    ensures Samples(Extend(points, click), samples, nMax, subsample).None? ==> r.Err?
    ensures Samples(Extend(points, click), samples, nMax, subsample).Some? ==>
              r == Trace(g, points, click, samples, nMax, subsample)
  {
    var pts := Extend(points, click);
    if Samples(pts, samples, nMax, subsample).None? then
      if MarkAll(g, pts, Point).Err? then Err(IndexError) else Err(TypeError)
    else
      Trace(g, points, click, samples, nMax, subsample)
  }

  /** As written, a profile's second click whose trace stays within `nMax`
      pixels always raises, wherever the two clicks are; the corrected
      branch draws it whenever its pixels lie on the layer. */
  lemma ShortProfileRaises(g: Grid, first: Pair, click: Pair, nMax: nat, subsample: seq<Pair> -> seq<Pair>)
    requires Shaped(g) && |Extend([first], click)| <= nMax
    ensures TraceAsWritten(g, [first], click, None, nMax, subsample).Err?
    ensures AllTargeted(g.h, g.w, Extend([first], click)) ==> Trace(g, [first], click, None, nMax, subsample).Ok?
  {
  }

  /** A successful trace ends at the click, keeps the earlier pixels and
      marks the click's pixel. */
  lemma TraceReachesClick(g: Grid, points: seq<Pair>, click: Pair, samples: Option<seq<Pair>>, nMax: nat,
                          subsample: seq<Pair> -> seq<Pair>)
    requires Shaped(g) && points != [] && Trace(g, points, click, samples, nMax, subsample).Ok?
    ensures var r := Trace(g, points, click, samples, nMax, subsample).value;
            && |r.points| >= |points| && r.points[..|points|] == points
            && |r.points| > 0 && r.points[|r.points| - 1] == click
            && Target(g.h, g.w, click).Some?
            && var (row, col) := Target(g.h, g.w, click).value; Traced(r.grid.cells[row][col])
  {
    var r := Trace(g, points, click, samples, nMax, subsample).value;
    var k := |r.points| - 1;
    assert r.points[k] == click;
    assert Target(g.h, g.w, r.points[k]).Some?;
  }

  /** `show_profile(click)`, with `subsample` standing for
      `subsample_profile`. Once the layer sums above 1 (some point or sample
      is on it) the profile is traced on to the click, by the corrected
      `Trace`; otherwise the click is appended and marked 1. Either way the profile then ends at the
      click, keeps its earlier pixels, and the click's pixel is marked. */
  function ShowProfile(st: ProfileLayer, click: Pair, nMax: nat, subsample: seq<Pair> -> seq<Pair>): (r: Result<ProfileLayer>)
    requires Shaped(st.grid)
    ensures r.Ok? ==> SameShape(st.grid, r.value.grid)
    ensures r.Ok? ==> |r.value.points| > 0 && r.value.points[|r.value.points| - 1] == click
    ensures r.Ok? ==> |r.value.points| >= |st.points| && r.value.points[..|st.points|] == st.points
    ensures r.Ok? ==> Target(st.grid.h, st.grid.w, click).Some?
    ensures r.Ok? ==> var (row, col) := Target(st.grid.h, st.grid.w, click).value;
                      Traced(r.value.grid.cells[row][col])
    ensures SelectionSum(ClearHighlights(st.grid)) > 1 && st.points == [] ==> r == Err(IndexError)
    ensures SelectionSum(ClearHighlights(st.grid)) <= 1 && r.Ok? ==>
              r.value.points == st.points + [click] && r.value.samples == st.samples
    ensures r.Ok? ==> r.value.samples == st.samples || r.value.samples == Some(subsample(r.value.points))
  {
    var g1 := ClearHighlights(st.grid);
    if SelectionSum(g1) > 1 then
      if st.points == [] then Err(IndexError)
      else
        var r := Trace(g1, st.points, click, st.samples, nMax, subsample);
        if r.Ok? then TraceReachesClick(g1, st.points, click, st.samples, nMax, subsample); r
        else r
    else
      match Put(g1, click, Point)
      case Err(f) => Err(f)
      case Ok(g2) =>
        assert (st.points + [click])[..|st.points|] == st.points;
        Ok(ProfileLayer(g2, st.points + [click], st.samples))
  }
}
