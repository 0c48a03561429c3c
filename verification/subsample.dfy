/** `MapModel.subsample_profile`: `nMax` points spread evenly, by arc length,
    along a traced profile. The arc length is the running sum of Euclidean
    steps; `interp1d`'s linear interpolation and `np.round` are written out,
    and the square root is a parameter pinned down by its square. */
module Subsample {
  import opened Outcomes
  import opened Coords

  /** `np.linspace(0, 1, n)`. */
  function Linspace(n: nat): (r: seq<real>)
    ensures |r| == n
    ensures n >= 1 ==> r[0] == 0.0
    ensures n >= 2 ==> r[n - 1] == 1.0
    ensures forall k :: 0 <= k < n ==> 0.0 <= r[k] <= 1.0
    ensures forall i, j :: 0 <= i < j < n ==> r[i] < r[j]
    ensures n >= 2 ==> forall k :: 0 <= k < n - 1 ==> r[k + 1] - r[k] == 1.0 / (n - 1) as real
  {
    if n == 1 then [0.0]
    else
      var r := seq(n, k requires 0 <= k < n => k as real / (n - 1) as real);
      forall i, j | 0 <= i < j < n ensures r[i] < r[j] {
        DivMonotone(i as real, j as real, (n - 1) as real);
      }
      DivSelf((n - 1) as real);
      r
  }

  /** `np.round`: the nearest integer, ties to the even one. */
  function RoundHalfEven(x: real): (r: int)
    ensures -0.5 <= r as real - x <= 0.5
    ensures (r as real - x == 0.5 || x - r as real == 0.5) ==> r % 2 == 0
    ensures x == x.Floor as real ==> r == x.Floor
  {
    var f := x.Floor;
    var d := x - f as real;
    if d < 0.5 then f
    else if d > 0.5 then f + 1
    else if f % 2 == 0 then f else f + 1
  }

  /** A value between two integers rounds to a value between them. */
  lemma RoundBetween(x: real, m: int, n: int)
    requires m as real <= x <= n as real
    ensures m <= RoundHalfEven(x) <= n
  {
  }

  function SquaredDistance(p: Pair, q: Pair): int {
    (p.0 - q.0) * (p.0 - q.0) + (p.1 - q.1) * (p.1 - q.1)
  }

  /** `dist` is the Euclidean distance: non-negative, and its square is the
      sum of the squared coordinate differences. */
  ghost predicate Euclidean(dist: (Pair, Pair) -> real) {
    forall p, q :: dist(p, q) >= 0.0 && dist(p, q) * dist(p, q) == SquaredDistance(p, q) as real
  }

  /** Two distinct points are a positive distance apart. */
  lemma DistinctPositive(dist: (Pair, Pair) -> real, p: Pair, q: Pair)
    requires Euclidean(dist) && p != q
    ensures dist(p, q) > 0.0
  {
    assert dist(p, q) * dist(p, q) == SquaredDistance(p, q) as real;
    SquareNonNegative(p.0 - q.0);
    SquareNonNegative(p.1 - q.1);
    if p.0 != q.0 {
      SquarePositive(p.0 - q.0);
    } else {
      SquarePositive(p.1 - q.1);
    }
    assert SquaredDistance(p, q) > 0;
  }

  lemma SquareNonNegative(a: int)
    ensures a * a >= 0
  {
    if a < 0 {
      assert a * a == (-a) * (-a);
    }
  }

  lemma SquarePositive(a: int)
    requires a != 0
    ensures a * a > 0
  {
    SquareNonNegative(a);
    if a < 0 {
      assert a * a == (-a) * (-a);
    }
  }

  /** `np.cumsum(np.sqrt(ediff(x, to_begin=0)**2 + ediff(y, to_begin=0)**2))`:
      the arc length from the first point to each point. */
  function Cumulative(points: seq<Pair>, dist: (Pair, Pair) -> real): (r: seq<real>)
    ensures |r| == |points|
    ensures |points| > 0 ==> r[0] == 0.0
    ensures forall k :: 0 < k < |points| ==> r[k] == r[k - 1] + dist(points[k - 1], points[k])
  {
    if |points| <= 1 then seq(|points|, k => 0.0)
    else
      var n := |points|;
      var c := Cumulative(points[..n - 1], dist);
      assert forall k :: 0 <= k < n - 1 ==> points[..n - 1][k] == points[k];
      c + [c[n - 2] + dist(points[n - 2], points[n - 1])]
  }

  /** No two neighbouring points coincide, as on a traced profile. */
  predicate Stepping(points: seq<Pair>) {
    forall k :: 0 <= k < |points| - 1 ==> points[k] != points[k + 1]
  }

  predicate StrictlyIncreasing(s: seq<real>) {
    forall i, j :: 0 <= i < j < |s| ==> s[i] < s[j]
  }

  /** Along a profile whose neighbouring points differ the arc length
      strictly grows. */
  lemma {:induction false} CumulativeIncreasing(points: seq<Pair>, dist: (Pair, Pair) -> real, i: nat, j: nat)
    requires Euclidean(dist) && Stepping(points) && i < j < |points|
    ensures Cumulative(points, dist)[i] < Cumulative(points, dist)[j]
    decreases j - i
  {
    var c := Cumulative(points, dist);
    DistinctPositive(dist, points[j - 1], points[j]);
    if i < j - 1 {
      CumulativeIncreasing(points, dist, i, j - 1);
    }
  }

  /** `distance / distance[-1]`: the arc length as a fraction of the whole. */
  function Fractions(c: seq<real>): (r: seq<real>)
    requires |c| >= 2 && StrictlyIncreasing(c) && c[0] == 0.0
    ensures |r| == |c| && r[0] == 0.0 && r[|r| - 1] == 1.0
    ensures StrictlyIncreasing(r)
    ensures forall k :: 0 <= k < |r| ==> r[k] * c[|c| - 1] == c[k]
  {
    var total := c[|c| - 1];
    assert total > 0.0;
    var r := seq(|c|, k requires 0 <= k < |c| => c[k] / total);
    forall i, j | 0 <= i < j < |r| ensures r[i] < r[j] {
      DivMonotone(c[i], c[j], total);
    }
    r
  }

  lemma DivSelf(d: real)
    requires d != 0.0
    ensures d / d == 1.0
  {
  }

  lemma DivMonotone(a: real, b: real, d: real)
    requires a < b && d > 0.0
    ensures a / d < b / d
  {
    assert (b - a) / d > 0.0;
    assert b / d - a / d == (b - a) / d;
  }

  /** `np.searchsorted(xs, a)`: the first index whose value is at least `a`. */
  function SearchLeft(xs: seq<real>, a: real): (r: nat)
    ensures r <= |xs|
    ensures forall i :: 0 <= i < r ==> xs[i] < a
    ensures r < |xs| ==> xs[r] >= a
  {
    if xs == [] || xs[0] >= a then 0
    else 1 + SearchLeft(xs[1..], a)
  }

  /** `interp1d(xs, ys)(a)` for `a` inside `[xs[0], xs[-1]]`: the line
      through the segment `searchsorted` picks, kept to `1 .. len - 1`. */
  function Interp(xs: seq<real>, ys: seq<real>, a: real): (r: real)
    requires |xs| == |ys| >= 2 && StrictlyIncreasing(xs)
    requires xs[0] <= a <= xs[|xs| - 1]
    ensures var k := Segment(xs, a);
            && xs[k] <= a <= xs[k + 1]
            && (r - ys[k]) * (xs[k + 1] - xs[k]) == (a - xs[k]) * (ys[k + 1] - ys[k])
  {
    var k := Segment(xs, a);
    var slope := (ys[k + 1] - ys[k]) / (xs[k + 1] - xs[k]);
    var r := slope * (a - xs[k]) + ys[k];
    assert slope * (xs[k + 1] - xs[k]) == ys[k + 1] - ys[k];
    r
  }

  /** The lower end of the segment `Interp` uses. */
  function Segment(xs: seq<real>, a: real): (k: nat)
    requires |xs| >= 2 && StrictlyIncreasing(xs) && xs[0] <= a <= xs[|xs| - 1]
    ensures k + 1 < |xs| && xs[k] <= a <= xs[k + 1]
  {
    var i := SearchLeft(xs, a);
    var hi := if i < 1 then 1 else if i > |xs| - 1 then |xs| - 1 else i;
    hi - 1
  }

  /** Interpolation passes through every node. */
  lemma InterpAtNode(xs: seq<real>, ys: seq<real>, j: nat)
    requires |xs| == |ys| >= 2 && StrictlyIncreasing(xs) && j < |xs|
    ensures Interp(xs, ys, xs[j]) == ys[j]
  {
    var k := Segment(xs, xs[j]);
    var r := Interp(xs, ys, xs[j]);
    if j == k {
    } else {
      assert j == k + 1;
      ScaleCancel(r - ys[k], ys[k + 1] - ys[k], xs[k + 1] - xs[k]);
    }
  }

  lemma ScaleCancel(a: real, b: real, d: real)
    requires d != 0.0 && a * d == d * b
    ensures a == b
  {
    assert (a - b) * d == 0.0;
  }

  /** An interpolated value lies between the values at its segment's ends. */
  lemma InterpBetween(xs: seq<real>, ys: seq<real>, a: real)
    requires |xs| == |ys| >= 2 && StrictlyIncreasing(xs) && xs[0] <= a <= xs[|xs| - 1]
    ensures var k := Segment(xs, a);
            var r := Interp(xs, ys, a);
            (ys[k] <= r <= ys[k + 1]) || (ys[k + 1] <= r <= ys[k])
  {
    var k := Segment(xs, a);
    var r := Interp(xs, ys, a);
    var d, t := xs[k + 1] - xs[k], a - xs[k];
    assert 0.0 <= t <= d && d > 0.0;
    assert (r - ys[k]) * d == t * (ys[k + 1] - ys[k]);
    LinearBetween(ys[k], ys[k + 1], r, t, d);
  }

  /** A value a fraction `t / d` of the way from `y0` to `y1` lies between
      them. */
  lemma LinearBetween(y0: real, y1: real, r: real, t: real, d: real)
    requires 0.0 <= t <= d && d > 0.0 && (r - y0) * d == t * (y1 - y0)
    ensures (y0 <= r <= y1) || (y1 <= r <= y0)
  {
    var dy := y1 - y0;
    if dy >= 0.0 {
      var u, m := r - y0, dy;
      MulMonotone(t, d, m);
      assert u * d == t * m && 0.0 <= t * m <= d * m;
      ScaleBounds(u, m, d);
    } else {
      assert (y0 - r) * d == t * (-dy);
      MulMonotone(t, d, -dy);
      var u, m := y0 - r, -dy;
      assert u * d == t * m && t * m <= d * m;
      ScaleBounds(u, m, d);
    }
  }

  lemma MulMonotone(a: real, b: real, m: real)
    requires 0.0 <= a <= b && m >= 0.0
    ensures 0.0 <= a * m <= b * m
  {
    assert b * m - a * m == (b - a) * m;
  }

  lemma ScaleBounds(u: real, m: real, d: real)
    requires d > 0.0 && 0.0 <= u * d <= d * m
    ensures 0.0 <= u <= m
  {
    var p := u * d;
    assert u == p / d;
    assert m == (d * m) / d;
    DivMonotoneWeak(0.0, p, d);
    DivMonotoneWeak(p, d * m, d);
  }

  lemma DivMonotoneWeak(a: real, b: real, d: real)
    requires a <= b && d > 0.0
    ensures a / d <= b / d
  {
    assert b / d - a / d == (b - a) / d;
  }

  function Xs(points: seq<Pair>): (r: seq<real>)
    ensures |r| == |points| && forall k :: 0 <= k < |points| ==> r[k] == points[k].0 as real
  {
    seq(|points|, k requires 0 <= k < |points| => points[k].0 as real)
  }

  function Ys(points: seq<Pair>): (r: seq<real>)
    ensures |r| == |points| && forall k :: 0 <= k < |points| ==> r[k] == points[k].1 as real
  {
    seq(|points|, k requires 0 <= k < |points| => points[k].1 as real)
  }

  /** The arc-length fractions of a profile of at least two points. */
  function ProfileFractions(points: seq<Pair>, dist: (Pair, Pair) -> real): (r: seq<real>)
    requires Euclidean(dist) && Stepping(points) && |points| >= 2
    ensures |r| == |points| && r[0] == 0.0 && r[|r| - 1] == 1.0 && StrictlyIncreasing(r)
  {
    var c := Cumulative(points, dist);
    forall i, j | 0 <= i < j < |c| ensures c[i] < c[j] {
      CumulativeIncreasing(points, dist, i, j);
    }
    Fractions(c)
  }

  /** The sample at arc-length fraction `a`: `x` and `y` interpolated and
      rounded. */
  function SampleAt(points: seq<Pair>, dist: (Pair, Pair) -> real, a: real): Pair
    requires Euclidean(dist) && Stepping(points) && |points| >= 2 && 0.0 <= a <= 1.0
  {
    var ds := ProfileFractions(points, dist);
    (RoundHalfEven(Interp(ds, Xs(points), a)), RoundHalfEven(Interp(ds, Ys(points), a)))
  }

  /** The samples at the ends of the arc are the ends of the profile. */
  lemma SampleAtEnds(points: seq<Pair>, dist: (Pair, Pair) -> real)
    requires Euclidean(dist) && Stepping(points) && |points| >= 2
    ensures SampleAt(points, dist, 0.0) == points[0]
    ensures SampleAt(points, dist, 1.0) == points[|points| - 1]
  {
    var ds := ProfileFractions(points, dist);
    InterpAtNode(ds, Xs(points), 0);
    InterpAtNode(ds, Ys(points), 0);
    InterpAtNode(ds, Xs(points), |ds| - 1);
    InterpAtNode(ds, Ys(points), |ds| - 1);
  }

  /** Both coordinates lie between those of `p` and `q`. */
  predicate InBox(s: Pair, p: Pair, q: Pair) {
    Min(p.0, q.0) <= s.0 <= Max(p.0, q.0) && Min(p.1, q.1) <= s.1 <= Max(p.1, q.1)
  }

  /** A sample lies in the bounding box of two neighbouring profile points. */
  lemma SampleInBox(points: seq<Pair>, dist: (Pair, Pair) -> real, a: real) returns (j: nat)
    requires Euclidean(dist) && Stepping(points) && |points| >= 2 && 0.0 <= a <= 1.0
    ensures j + 1 < |points| && InBox(SampleAt(points, dist, a), points[j], points[j + 1])
  {
    var ds := ProfileFractions(points, dist);
    var xs, ys := Xs(points), Ys(points);
    j := Segment(ds, a);
    InterpBetween(ds, xs, a);
    InterpBetween(ds, ys, a);
    RoundBetween(Interp(ds, xs, a), Min(points[j].0, points[j + 1].0), Max(points[j].0, points[j + 1].0));
    RoundBetween(Interp(ds, ys, a), Min(points[j].1, points[j + 1].1), Max(points[j].1, points[j + 1].1));
  }

  /** `subsample_profile(points)`: the profile's `x` and `y` interpolated at
      `nMax` evenly spaced arc-length fractions and rounded. An empty profile
      cannot be indexed and `interp1d` refuses fewer than two points. */
  function Subsample(points: seq<Pair>, nMax: nat, dist: (Pair, Pair) -> real): (r: Result<seq<Pair>>)
    requires Euclidean(dist) && Stepping(points)
    ensures points == [] ==> r == Err(IndexError)
    ensures |points| == 1 ==> r == Err(ValueError)
    ensures r.Ok? <==> |points| >= 2
    ensures r.Ok? ==> |r.value| == nMax
    ensures r.Ok? && nMax >= 1 ==> r.value[0] == points[0]
    ensures r.Ok? && nMax >= 2 ==> r.value[nMax - 1] == points[|points| - 1]
    ensures r.Ok? ==> forall k :: 0 <= k < nMax ==>
              exists j :: 0 <= j < |points| - 1 && InBox(r.value[k], points[j], points[j + 1])
  {
    if points == [] then Err(IndexError)
    else if |points| == 1 then Err(ValueError)
    else
      var alpha := Linspace(nMax);
      var r := seq(nMax, k requires 0 <= k < nMax => SampleAt(points, dist, alpha[k]));
      SampleAtEnds(points, dist);
      forall k | 0 <= k < nMax
        ensures exists j :: 0 <= j < |points| - 1 && InBox(r[k], points[j], points[j + 1])
      {
        var j := SampleInBox(points, dist, alpha[k]);
      }
      Ok(r)
  }
}
