/** The pixel-geometry helpers of the `utils` module: nearest-value lookup,
    Chebyshev neighbourhoods and axis-aligned rectangles. */
module Utils {
  import opened Outcomes
  import opened Coords

  // ---------------------------------------------------------------------------
  // get_nearest

  /** `i` is what `np.abs(array - value).argmin()` returns: an index of a
      smallest distance, the first one when several tie. */
  predicate IsFirstNearest(s: seq<real>, v: real, i: int) {
    0 <= i < |s|
    && (forall k :: 0 <= k < |s| ==> AbsReal(s[i] - v) <= AbsReal(s[k] - v))
    && (forall k :: 0 <= k < i ==> AbsReal(s[k] - v) > AbsReal(s[i] - v))
  }

  /** The argmin, scanning left to right and keeping the earlier index on ties. */
  function NearestIndex(s: seq<real>, v: real): (i: nat)
    requires |s| > 0
    ensures IsFirstNearest(s, v, i)
    decreases |s|
  {
    if |s| == 1 then 0
    else
      var j := NearestIndex(s[..|s| - 1], v);
      NearestStep(s, v, j);
      if AbsReal(s[|s| - 1] - v) < AbsReal(s[j] - v) then |s| - 1 else j
  }

  /** The first nearest index of a prefix, compared with the next value. */
  lemma NearestStep(s: seq<real>, v: real, j: int)
    requires |s| > 1 && IsFirstNearest(s[..|s| - 1], v, j)
    ensures IsFirstNearest(s, v, if AbsReal(s[|s| - 1] - v) < AbsReal(s[j] - v) then |s| - 1 else j)
  {
    var prefix := s[..|s| - 1];
    assert forall k :: 0 <= k < |prefix| ==> prefix[k] == s[k];
  }

  /** The first nearest index is unique. */
  lemma FirstNearestUnique(s: seq<real>, v: real, i: int, j: int)
    requires IsFirstNearest(s, v, i) && IsFirstNearest(s, v, j)
    ensures i == j
  {
    assert AbsReal(s[i] - v) <= AbsReal(s[j] - v);
    assert AbsReal(s[j] - v) <= AbsReal(s[i] - v);
  }

  /** `get_nearest(array, value)`: the nearest value and its index. An empty
      array makes `argmin` raise. */
  function GetNearest(s: seq<real>, v: real): (r: Result<(real, nat)>)
    ensures r.Ok? <==> |s| > 0
    ensures r.Ok? ==> IsFirstNearest(s, v, r.value.1) && r.value.0 == s[r.value.1]
    ensures r.Err? ==> r.fault == ValueError
  {
    if |s| == 0 then Err(ValueError)
    else
      var i := NearestIndex(s, v);
      Ok((s[i], i))
  }

  /** The two examples of `get_nearest`'s documentation. */
  lemma GetNearestExamples()
    ensures GetNearest([1.0, 5.0, 13.0, 7.0], 8.0) == Ok((7.0, 3))
    ensures GetNearest([1.0, 5.0, 13.0, 7.0], 1.23) == Ok((1.0, 0))
  {
    var s := [1.0, 5.0, 13.0, 7.0];
    assert IsFirstNearest(s, 8.0, 3);
    FirstNearestUnique(s, 8.0, 3, NearestIndex(s, 8.0));
    assert IsFirstNearest(s, 1.23, 0);
    FirstNearestUnique(s, 1.23, 0, NearestIndex(s, 1.23));
  }

  // ---------------------------------------------------------------------------
  // get_neighbors_idxs

  /** Chebyshev distance: diagonals count as one step. */
  function Chebyshev(p: Pair, q: Pair): nat {
    Max(Abs(p.0 - q.0), Abs(p.1 - q.1))
  }

  predicate InGrid(rows: nat, cols: nat, p: Pair) {
    0 <= p.0 < rows && 0 <= p.1 < cols
  }

  /** The comprehension's filter `i > -1 and j > -1 and j < cols and i < rows`,
      keeping the order. */
  function KeepInGrid(rows: nat, cols: nat, s: seq<Pair>): (r: seq<Pair>)
    ensures forall p :: p in r <==> p in s && InGrid(rows, cols, p)
    ensures Increasing(s) ==> Increasing(r)
    ensures |r| <= |s|
  {
    if s == [] then []
    else
      var rest := KeepInGrid(rows, cols, s[1..]);
      assert forall p :: p in s <==> p == s[0] || p in s[1..];
      assert Increasing(s) ==> forall p :: p in rest ==> LexLess(s[0], p);
      if InGrid(rows, cols, s[0]) then [s[0]] + rest else rest
  }

  /** `list.remove(x)`: drops the first occurrence, or raises `ValueError`
      when `x` is absent (`None` here). */
  function RemoveFirst(s: seq<Pair>, x: Pair): (r: Option<seq<Pair>>)
    ensures r.Some? <==> x in s
    ensures r.Some? ==> |r.value| == |s| - 1
    ensures r.Some? && Increasing(s) ==>
              Increasing(r.value) && forall p :: p in r.value <==> p in s && p != x
  {
    if s == [] then None
    else if s[0] == x then Some(s[1..])
    else
      match RemoveFirst(s[1..], x)
      case None => None
      case Some(rest) =>
        assert Increasing(s) ==> forall p :: p in rest ==> LexLess(s[0], p);
        Some([s[0]] + rest)
  }

  /** The pairs the comprehension walks: `range(a - radius, a + radius + 1)`
      outer, `range(b - radius, b + radius + 1)` inner. */
  function Window(a: int, b: int, radius: int): seq<Pair> {
    Product(Range(a - radius, a + radius + 1), Range(b - radius, b + radius + 1))
  }

  /** The product of two ranges is the box they span, in increasing order. */
  lemma ProductOfRanges(x0: int, x1: int, y0: int, y1: int)
    ensures forall s :: s in Product(Range(x0, x1 + 1), Range(y0, y1 + 1)) <==> x0 <= s.0 <= x1 && y0 <= s.1 <= y1
    ensures Increasing(Product(Range(x0, x1 + 1), Range(y0, y1 + 1)))
  {
    var xs, ys := Range(x0, x1 + 1), Range(y0, y1 + 1);
    RangeMembers(x0, x1 + 1);
    RangeMembers(y0, y1 + 1);
    ProductMembers(xs, ys);
    RangeSorted(x0, x1 + 1);
    RangeSorted(y0, y1 + 1);
    ProductIncreasing(xs, ys);
  }

  /** The window is the Chebyshev ball, listed in increasing order. */
  lemma WindowIsBall(a: int, b: int, radius: int)
    ensures forall p :: p in Window(a, b, radius) <==> Chebyshev(p, (a, b)) <= radius
    ensures Increasing(Window(a, b, radius))
  {
    ProductOfRanges(a - radius, a + radius, b - radius, b + radius);
    assert a + radius + 1 == (a + radius) + 1 && b + radius + 1 == (b + radius) + 1;
    forall p
      ensures p in Window(a, b, radius) <==> Chebyshev(p, (a, b)) <= radius
    {
      assert Chebyshev(p, (a, b)) <= radius <==> a - radius <= p.0 <= a + radius && b - radius <= p.1 <= b + radius;
    }
  }

  /** `get_neighbors_idxs(array, (a, b), radius)` on a `rows` x `cols` array,
      before the final `zip`: the in-bounds pairs within Chebyshev distance
      `radius` of the target, in row-major order, the target removed. With no
      rows the filter's `len(array[0])` raises as soon as a candidate has
      `i > -1 and j > -1`; otherwise a target outside the array is absent from
      the list and `remove` raises. */
  function Neighbors(rows: nat, cols: nat, a: int, b: int, radius: int): (r: Result<seq<Pair>>)
    ensures r.Ok? <==> radius >= 0 && InGrid(rows, cols, (a, b))
    ensures r.Ok? ==> Increasing(r.value)
    ensures r.Ok? ==> forall p ::
              p in r.value <==> InGrid(rows, cols, p) && Chebyshev(p, (a, b)) <= radius && p != (a, b)
  {
    if rows == 0 then
      // some candidate has i > -1 and j > -1 exactly when both ranges reach 0
      if radius >= 0 && a + radius >= 0 && b + radius >= 0 then Err(IndexError) else Err(ValueError)
    else
      var w := Window(a, b, radius);
      WindowIsBall(a, b, radius);
      var kept := KeepInGrid(rows, cols, w);
      assert (a, b) in kept <==> radius >= 0 && InGrid(rows, cols, (a, b));
      match RemoveFirst(kept, (a, b))
      case None => Err(ValueError)
      case Some(rest) => Ok(rest)
  }

  lemma RangeSorted(lo: int, hi: int)
    ensures StrictlySorted(Range(lo, hi))
  {
  }

  /** `tuple(zip(*neighbors))`: the row indices and the column indices, ready
      for numpy fancy indexing. */
  function Unzip(s: seq<Pair>): (r: (seq<int>, seq<int>))
    ensures |r.0| == |s| && |r.1| == |s|
    ensures forall k :: 0 <= k < |s| ==> (r.0[k], r.1[k]) == s[k]
  {
    (seq(|s|, k requires 0 <= k < |s| => s[k].0), seq(|s|, k requires 0 <= k < |s| => s[k].1))
  }

  /** Away from the border the neighbourhood has `(2 radius + 1)^2 - 1` cells. */
  lemma NeighborsInteriorCount(rows: nat, cols: nat, a: int, b: int, radius: nat)
    requires radius <= a && a + radius < rows && radius <= b && b + radius < cols
    ensures Neighbors(rows, cols, a, b, radius).Ok?
    ensures |Neighbors(rows, cols, a, b, radius).value| == (2 * radius + 1) * (2 * radius + 1) - 1
  {
    var w := Window(a, b, radius);
    WindowIsBall(a, b, radius);
    assert |Range(a - radius, a + radius + 1)| == 2 * radius + 1;
    assert |Range(b - radius, b + radius + 1)| == 2 * radius + 1;
    assert |w| == (2 * radius + 1) * (2 * radius + 1);
    KeepAllInGrid(rows, cols, w);
    assert (a, b) in w;
  }

  /** Filtering a list that is already in the grid keeps it whole. */
  lemma {:induction false} KeepAllInGrid(rows: nat, cols: nat, s: seq<Pair>)
    requires forall p :: p in s ==> InGrid(rows, cols, p)
    ensures KeepInGrid(rows, cols, s) == s
  {
    if s != [] {
      assert s[0] in s;
      forall p | p in s[1..]
        ensures InGrid(rows, cols, p)
      {
        assert p in s;
      }
      KeepAllInGrid(rows, cols, s[1..]);
      assert KeepInGrid(rows, cols, s) == [s[0]] + KeepInGrid(rows, cols, s[1..]);
      assert s == [s[0]] + s[1..];
    }
  }

  /** The 19 indices listed in `get_neighbors_idxs`' documentation. */
  const DocNeighbors: seq<Pair> := [
    (0, 0), (0, 1), (0, 2), (0, 3), (0, 4),
    (1, 0), (1, 1), (1, 3), (1, 4),
    (2, 0), (2, 1), (2, 2), (2, 3), (2, 4),
    (3, 0), (3, 1), (3, 2), (3, 3), (3, 4)]

  /** Every listed index is in the array, within distance 2 of the target
      and not the target; and the list is in the order the loops make. */
  lemma DocNeighborsInBall()
    ensures Increasing(DocNeighbors)
    ensures forall p :: p in DocNeighbors ==> InGrid(6, 6, p) && Chebyshev(p, (1, 2)) <= 2 && p != (1, 2)
  {
    AdjacentIncreasing(DocNeighbors);
    forall k | 0 <= k < |DocNeighbors|
      ensures InGrid(6, 6, DocNeighbors[k]) && Chebyshev(DocNeighbors[k], (1, 2)) <= 2 && DocNeighbors[k] != (1, 2)
    {
    }
  }

  /** Every index of the ball around the target, the target excepted, is
      listed. */
  lemma DocNeighborsBall()
    ensures Increasing(DocNeighbors)
    ensures forall p :: p in DocNeighbors <==> InGrid(6, 6, p) && Chebyshev(p, (1, 2)) <= 2 && p != (1, 2)
  {
    DocNeighborsInBall();
    forall p | InGrid(6, 6, p) && Chebyshev(p, (1, 2)) <= 2 && p != (1, 2)
      ensures p in DocNeighbors
    {
      if p.0 == 0 {
        assert p == DocNeighbors[p.1];
      } else if p.0 == 1 {
        assert p == DocNeighbors[if p.1 < 2 then 5 + p.1 else 4 + p.1];
      } else if p.0 == 2 {
        assert p == DocNeighbors[9 + p.1];
      } else {
        assert p == DocNeighbors[14 + p.1];
      }
    }
  }

  /** The example of `get_neighbors_idxs`' documentation: target (1, 2),
      radius 2, on a 6 x 6 array. */
  lemma NeighborsExample()
    ensures Neighbors(6, 6, 1, 2, 2) == Ok(DocNeighbors)
  {
    DocNeighborsBall();
    IncreasingUnique(Neighbors(6, 6, 1, 2, 2).value, DocNeighbors);
  }

  /** A target outside the array raises. */
  lemma NeighborsOutside(rows: nat, cols: nat, a: int, b: int, radius: int)
    requires !InGrid(rows, cols, (a, b))
    ensures Neighbors(rows, cols, a, b, radius).Err?
  {
  }

  // ---------------------------------------------------------------------------
  // get_rectangle

  /** `get_rectangle(p, q)`: the x-major cartesian product
      `[min x .. max x] x [min y .. max y]`. */
  function Rectangle(p: Pair, q: Pair): (r: seq<Pair>)
    ensures |r| == (Abs(p.0 - q.0) + 1) * (Abs(p.1 - q.1) + 1)
    ensures forall s :: s in r <==> Min(p.0, q.0) <= s.0 <= Max(p.0, q.0) && Min(p.1, q.1) <= s.1 <= Max(p.1, q.1)
    ensures p in r && q in r
    ensures Increasing(r)
  {
    var x0, x1, y0, y1 := Min(p.0, q.0), Max(p.0, q.0), Min(p.1, q.1), Max(p.1, q.1);
    ProductOfRanges(x0, x1, y0, y1);
    assert |Range(x0, x1 + 1)| == Abs(p.0 - q.0) + 1 && |Range(y0, y1 + 1)| == Abs(p.1 - q.1) + 1;
    Product(Range(x0, x1 + 1), Range(y0, y1 + 1))
  }

  /** The corners may be given in either order. */
  lemma RectangleSymmetric(p: Pair, q: Pair)
    ensures Rectangle(p, q) == Rectangle(q, p)
  {
    IncreasingUnique(Rectangle(p, q), Rectangle(q, p));
  }

  /** A degenerate rectangle is its single corner. */
  lemma RectangleOfPoint(p: Pair)
    ensures Rectangle(p, p) == [p]
  {
    var r := Rectangle(p, p);
    assert |r| == 1 && p in r;
  }

  /** The list of `get_rectangle`'s documentation, shifted to `(x, y)`. */
  function DocRectangle(x: int, y: int): seq<Pair> {
    [(x, y), (x, y + 1), (x, y + 2), (x, y + 3),
     (x + 1, y), (x + 1, y + 1), (x + 1, y + 2), (x + 1, y + 3),
     (x + 2, y), (x + 2, y + 1), (x + 2, y + 2), (x + 2, y + 3)]
  }

  /** The documented list is increasing and holds exactly the 3 x 4 box. */
  lemma DocRectangleBox(x: int, y: int)
    ensures Increasing(DocRectangle(x, y))
    ensures forall p :: p in DocRectangle(x, y) <==> x <= p.0 <= x + 2 && y <= p.1 <= y + 3
  {
    var l := DocRectangle(x, y);
    AdjacentIncreasing(l);
    forall k | 0 <= k < |l|
      ensures x <= l[k].0 <= x + 2 && y <= l[k].1 <= y + 3
    {
    }
    forall p: Pair | x <= p.0 <= x + 2 && y <= p.1 <= y + 3
      ensures p in l
    {
      var j := p.1 - y;
      if p.0 == x {
        assert p == l[j];
      } else if p.0 == x + 1 {
        assert p == l[4 + j];
      } else {
        assert p == l[8 + j];
      }
    }
  }

  /** The example of `get_rectangle`'s documentation, anywhere on the grid. */
  lemma RectangleExample(x: int, y: int)
    ensures Rectangle((x, y), (x + 2, y + 3)) == DocRectangle(x, y)
  {
    DocRectangleBox(x, y);
    IncreasingUnique(Rectangle((x, y), (x + 2, y + 3)), DocRectangle(x, y));
  }
}
