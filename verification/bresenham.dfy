/** The integer Bresenham rasteriser used to trace profile lines
    (`line(x0, y0, x1, y1)` of the bresenham module). */
module Bresenham {
  import opened Coords

  /** `1 if v > 0 else -1`: a zero delta gets sign -1. */
  function Sign(v: int): int { if v > 0 then 1 else -1 }

  /** The octant normalisation of `line`: `d` is the major (larger) absolute
      delta, `e` the minor one, and `major`/`minor` the unit steps
      `(xx, xy)` and `(yx, yy)` along each axis. Ties `|dx| == |dy|` make y major. */
  datatype Frame = Frame(d: nat, e: nat, major: Pair, minor: Pair)

  function FrameOf(x0: int, y0: int, x1: int, y1: int): Frame {
    var dx := x1 - x0;
    var dy := y1 - y0;
    if Abs(dx) > Abs(dy) then Frame(Abs(dx), Abs(dy), (Sign(dx), 0), (0, Sign(dy)))
    else Frame(Abs(dy), Abs(dx), (0, Sign(dy)), (Sign(dx), 0))
  }

  /** The pixel `k` steps along the major axis and `m` along the minor one. */
  function At(x0: int, y0: int, f: Frame, k: int, m: int): Pair {
    (x0 + k * f.major.0 + m * f.minor.0, y0 + k * f.major.1 + m * f.minor.1)
  }

  /** The `for x in range(dx + 1)` loop from iteration `k` on, with minor
      offset `m` and decision variable `D`: emit, then step the minor axis
      when `D >= 0`, then add `2e`. */
  function Walk(x0: int, y0: int, f: Frame, k: nat, m: int, D: int): seq<Pair>
    requires k <= f.d + 1
    decreases f.d + 1 - k
  {
    if k == f.d + 1 then []
    else if D >= 0 then [At(x0, y0, f, k, m)] + Walk(x0, y0, f, k + 1, m + 1, D - 2 * f.d + 2 * f.e)
    else [At(x0, y0, f, k, m)] + Walk(x0, y0, f, k + 1, m, D + 2 * f.e)
  }

  /** `line(x0, y0, x1, y1)`: the pixels from `(x0, y0)` to `(x1, y1)`, both included. */
  function Line(x0: int, y0: int, x1: int, y1: int): seq<Pair> {
    var f := FrameOf(x0, y0, x1, y1);
    Walk(x0, y0, f, 0, 0, 2 * f.e - f.d)
  }

  // ---------------------------------------------------------------------------
  // Reference definition: the ideal segment rounded to the nearest pixel.

  /** The minor offset at step `k` of the segment of slope `e/d`: `e*k/d`
      rounded to the nearest integer, exact halves rounded UP. */
  function MinorOffset(d: nat, e: nat, k: nat): nat {
    if d == 0 then 0 else (2 * e * k + d) / (2 * d)
  }

  /** `m` is within half a pixel of the ideal minor coordinate `e*k/d`,
      ties counted on the lower side: `-d < 2dm - 2ek <= d`. */
  predicate Rounds(d: nat, e: nat, k: int, m: int) {
    -(d as int) < 2 * d * m - 2 * e * k <= d
  }

  lemma MulAtLeast(b: int, t: int)
    requires b > 0 && t >= 1
    ensures b * t >= b
  {
  }

  /** Euclidean division is characterised by its bracket. */
  lemma DivBracket(n: int, b: int, q: int)
    requires b > 0 && b * q <= n < b * q + b
    ensures n / b == q
  {
    var r := n / b;
    assert b * r <= n < b * r + b;
    if q > r {
      MulAtLeast(b, q - r);
    } else if r > q {
      MulAtLeast(b, r - q);
    }
  }

  /** `Rounds` pins `m` down to `MinorOffset`. */
  lemma RoundsIsMinorOffset(d: nat, e: nat, k: nat, m: int)
    requires d > 0 && Rounds(d, e, k, m)
    ensures m == MinorOffset(d, e, k)
  {
    assert 2 * d * m == (2 * d) * m;
    DivBracket(2 * e * k + d, 2 * d, m);
  }

  /** One iteration of the loop body preserves the decision-variable identity
      and the rounding bound. */
  lemma StepKeepsRounding(d: nat, e: nat, k: int, m: int, D: int)
    requires e <= d && Rounds(d, e, k, m)
    requires D == 2 * e * (k + 1) - d * (2 * m + 1)
    ensures D >= 0 ==> Rounds(d, e, k + 1, m + 1)
    ensures D >= 0 ==> D - 2 * d + 2 * e == 2 * e * (k + 2) - d * (2 * (m + 1) + 1)
    ensures D < 0 ==> Rounds(d, e, k + 1, m)
    ensures D < 0 ==> D + 2 * e == 2 * e * (k + 2) - d * (2 * m + 1)
  {
    var A, M := 2 * e * k, 2 * d * m;
    assert 2 * e * (k + 1) == A + 2 * e;
    assert 2 * e * (k + 2) == A + 4 * e;
    assert d * (2 * m + 1) == M + d;
    assert d * (2 * (m + 1) + 1) == M + 3 * d;
    assert 2 * d * (m + 1) == M + 2 * d;
    assert D == 2 * e - d - (M - A);
  }

  /** The walk keeps `D == 2e(k+1) - d(2m+1)` and `Rounds(d, e, k, m)`, so each
      emitted pixel is the ideal one. This is the loop invariant of `line`. */
  lemma {:induction false} WalkIsIdeal(x0: int, y0: int, f: Frame, k: nat, m: int, D: int)
    requires f.e <= f.d && k <= f.d + 1
    requires D == 2 * f.e * (k + 1) - f.d * (2 * m + 1)
    requires Rounds(f.d, f.e, k, m) || (f.d == 0 && m == 0)
    ensures |Walk(x0, y0, f, k, m, D)| == f.d + 1 - k
    ensures forall n :: 0 <= n < f.d + 1 - k ==>
              Walk(x0, y0, f, k, m, D)[n] == At(x0, y0, f, k + n, MinorOffset(f.d, f.e, k + n))
    decreases f.d + 1 - k
  {
    if k <= f.d {
      var d, e := f.d, f.e;
      if d == 0 {
        assert k == 0 && e == 0 && m == 0;
        assert Walk(x0, y0, f, k, m, D) == [At(x0, y0, f, 0, 0)];
      } else {
        RoundsIsMinorOffset(d, e, k, m);
        StepKeepsRounding(d, e, k, m, D);
        var m', D' := if D >= 0 then m + 1 else m, if D >= 0 then D - 2 * d + 2 * e else D + 2 * e;
        WalkIsIdeal(x0, y0, f, k + 1, m', D');
        assert Walk(x0, y0, f, k, m, D) == [At(x0, y0, f, k, m)] + Walk(x0, y0, f, k + 1, m', D');
      }
    }
  }

  /** The reference definition of the rasterised segment. */
  function Ideal(x0: int, y0: int, x1: int, y1: int): (r: seq<Pair>) {
    var f := FrameOf(x0, y0, x1, y1);
    seq(f.d + 1, k requires 0 <= k <= f.d => At(x0, y0, f, k, MinorOffset(f.d, f.e, k)))
  }

  /** `line` rasterises the segment exactly: its k-th pixel takes k major steps
      and the nearest-rounded number of minor steps (halves rounded up). */
  lemma LineIsIdeal(x0: int, y0: int, x1: int, y1: int)
    ensures Line(x0, y0, x1, y1) == Ideal(x0, y0, x1, y1)
  {
    var f := FrameOf(x0, y0, x1, y1);
    assert 2 * f.e * (0 + 1) - f.d * (2 * 0 + 1) == 2 * f.e - f.d;
    WalkIsIdeal(x0, y0, f, 0, 0, 2 * f.e - f.d);
  }

  /** Every pixel of `line` lies within half a pixel of the ideal segment:
      with major step k and minor offset m, `-d < 2dm - 2ek <= d`. */
  lemma LineWithinHalfPixel(x0: int, y0: int, x1: int, y1: int, k: nat)
    requires k < |Line(x0, y0, x1, y1)|
    ensures var f := FrameOf(x0, y0, x1, y1);
            exists m :: Line(x0, y0, x1, y1)[k] == At(x0, y0, f, k, m)
                     && 0 <= m <= f.e
                     && (f.d > 0 ==> Rounds(f.d, f.e, k, m))
  {
    var f := FrameOf(x0, y0, x1, y1);
    LineIsIdeal(x0, y0, x1, y1);
    var m := MinorOffset(f.d, f.e, k);
    if f.d > 0 {
      MinorOffsetRounds(f.d, f.e, k);
    }
    assert Line(x0, y0, x1, y1)[k] == At(x0, y0, f, k, m);
  }

  lemma MinorOffsetRounds(d: nat, e: nat, k: nat)
    requires d > 0 && e <= d && k <= d
    ensures Rounds(d, e, k, MinorOffset(d, e, k))
    ensures MinorOffset(d, e, k) <= e
  {
    var n := 2 * e * k + d;
    var q := n / (2 * d);
    assert (2 * d) * q <= n < (2 * d) * q + 2 * d;
    assert 2 * d * q == (2 * d) * q;
    if q > e {
      MulAtLeast(2 * d, q - e);
      assert (2 * d) * q - (2 * d) * e == (2 * d) * (q - e);
      assert 2 * e * k <= 2 * e * d by { MulMono(2 * e, k, d); }
      assert false;
    }
  }

  lemma MulMono(a: nat, b: int, c: int)
    requires b <= c
    ensures a * b <= a * c
  {
    assert a * c - a * b == a * (c - b);
  }

  /** The result has `max(|dx|, |dy|) + 1` pixels. */
  lemma LineLength(x0: int, y0: int, x1: int, y1: int)
    ensures |Line(x0, y0, x1, y1)| == Max(Abs(x1 - x0), Abs(y1 - y0)) + 1
  {
    LineIsIdeal(x0, y0, x1, y1);
  }

  lemma AbsSign(v: int)
    ensures Abs(v) * Sign(v) == v
  {
  }

  /** `d` major steps and `e` minor steps lead from `(x0, y0)` to `(x1, y1)`. */
  lemma FrameReachesEnd(x0: int, y0: int, x1: int, y1: int)
    ensures var f := FrameOf(x0, y0, x1, y1); At(x0, y0, f, f.d, f.e) == (x1, y1)
  {
    var dx, dy := x1 - x0, y1 - y0;
    AbsSign(dx);
    AbsSign(dy);
    var f := FrameOf(x0, y0, x1, y1);
    if Abs(dx) > Abs(dy) {
      assert At(x0, y0, f, f.d, f.e) == (x0 + Abs(dx) * Sign(dx), y0 + Abs(dy) * Sign(dy));
    } else {
      assert At(x0, y0, f, f.d, f.e) == (x0 + Abs(dx) * Sign(dx), y0 + Abs(dy) * Sign(dy));
    }
  }

  /** The first pixel is `(x0, y0)` and the last is `(x1, y1)`. */
  lemma LineEnds(x0: int, y0: int, x1: int, y1: int)
    ensures Line(x0, y0, x1, y1)[0] == (x0, y0)
    ensures Line(x0, y0, x1, y1)[|Line(x0, y0, x1, y1)| - 1] == (x1, y1)
  {
    var f := FrameOf(x0, y0, x1, y1);
    LineIsIdeal(x0, y0, x1, y1);
    MinorOffsetEnds(f.d, f.e);
    FrameReachesEnd(x0, y0, x1, y1);
    assert Ideal(x0, y0, x1, y1)[0] == At(x0, y0, f, 0, 0) == (x0, y0);
    assert Ideal(x0, y0, x1, y1)[f.d] == At(x0, y0, f, f.d, f.e);
  }

  /** The minor offset is 0 at the start and `e` at the end. */
  lemma MinorOffsetEnds(d: nat, e: nat)
    requires e <= d
    ensures MinorOffset(d, e, 0) == 0 && MinorOffset(d, e, d) == e
  {
    if d > 0 {
      DivBracket(d, 2 * d, 0);
      assert 2 * e * d + d == (2 * d) * e + d;
      DivBracket(2 * e * d + d, 2 * d, e);
    }
  }

  /** Coincident endpoints give the single pixel. */
  lemma LineOfPoint(x: int, y: int)
    ensures Line(x, y, x, y) == [(x, y)]
  {
    LineLength(x, y, x, y);
    LineEnds(x, y, x, y);
  }

  /** Consecutive pixels advance exactly one step (in the delta's sign) along
      the major axis, and zero or one step (in the delta's sign) along the
      other; y is major when `|dx| <= |dy|`. */
  lemma LineSteps(x0: int, y0: int, x1: int, y1: int, k: nat)
    requires k + 1 < |Line(x0, y0, x1, y1)|
    ensures var p, q := Line(x0, y0, x1, y1)[k], Line(x0, y0, x1, y1)[k + 1];
            var dx, dy := x1 - x0, y1 - y0;
            if Abs(dx) > Abs(dy) then
              q.0 == p.0 + Sign(dx) && (q.1 == p.1 || q.1 == p.1 + Sign(dy))
            else
              q.1 == p.1 + Sign(dy) && (q.0 == p.0 || q.0 == p.0 + Sign(dx))
  {
    var f := FrameOf(x0, y0, x1, y1);
    LineIsIdeal(x0, y0, x1, y1);
    MinorOffsetRounds(f.d, f.e, k);
    MinorOffsetRounds(f.d, f.e, k + 1);
    var m, m' := MinorOffset(f.d, f.e, k), MinorOffset(f.d, f.e, k + 1);
    // the minor offset grows by 0 or 1 because 0 <= 2e <= 2d
    StepBound(f.d, f.e, k, m, m');
    AtStep(x0, y0, x1, y1, k, m, m');
  }

  /** One major step, with zero or one minor step, moves one pixel along
      the major axis and zero or one along the minor one. */
  lemma AtStep(x0: int, y0: int, x1: int, y1: int, k: int, m: int, m': int)
    requires m' == m || m' == m + 1
    ensures var f := FrameOf(x0, y0, x1, y1);
            var p, q := At(x0, y0, f, k, m), At(x0, y0, f, k + 1, m');
            var dx, dy := x1 - x0, y1 - y0;
            if Abs(dx) > Abs(dy) then
              q.0 == p.0 + Sign(dx) && (q.1 == p.1 || q.1 == p.1 + Sign(dy))
            else
              q.1 == p.1 + Sign(dy) && (q.0 == p.0 || q.0 == p.0 + Sign(dx))
  {
    var sx, sy := Sign(x1 - x0), Sign(y1 - y0);
    assert (k + 1) * sx == k * sx + sx && (k + 1) * sy == k * sy + sy;
    assert (m + 1) * sx == m * sx + sx && (m + 1) * sy == m * sy + sy;
  }

  /** Two consecutive rounded minor offsets differ by 0 or 1, since `0 <= e <= d`. */
  lemma StepBound(d: nat, e: nat, k: int, m: int, m': int)
    requires d > 0 && e <= d && Rounds(d, e, k, m) && Rounds(d, e, k + 1, m')
    ensures m == m' || m' == m + 1
  {
    var A, M, M' := 2 * e * k, 2 * d * m, 2 * d * m';
    assert 2 * e * (k + 1) == A + 2 * e;
    if m' > m + 1 {
      MulAtLeast(2 * d, m' - m - 1);
    } else if m' < m {
      MulAtLeast(2 * d, m - m');
    }
  }

  /** Up to `|v|` unit steps in the direction of `v` stay between `c` and `c + v`. */
  lemma StepsBetween(c: int, k: int, v: int)
    requires 0 <= k <= Abs(v)
    ensures Min(c, c + v) <= c + k * Sign(v) <= Max(c, c + v)
  {
    if v > 0 {
      assert k * Sign(v) == k;
    } else {
      assert k * Sign(v) == -k;
    }
  }

  /** A pixel up to `d` major and `e` minor steps out lies in the box. */
  lemma AtInBox(x0: int, y0: int, x1: int, y1: int, k: int, m: int)
    requires var f := FrameOf(x0, y0, x1, y1); 0 <= k <= f.d && 0 <= m <= f.e
    ensures var p := At(x0, y0, FrameOf(x0, y0, x1, y1), k, m);
            Min(x0, x1) <= p.0 <= Max(x0, x1) && Min(y0, y1) <= p.1 <= Max(y0, y1)
  {
    var dx, dy := x1 - x0, y1 - y0;
    var f := FrameOf(x0, y0, x1, y1);
    if Abs(dx) > Abs(dy) {
      StepsBetween(x0, k, dx);
      StepsBetween(y0, m, dy);
      assert At(x0, y0, f, k, m) == (x0 + k * Sign(dx), y0 + m * Sign(dy));
    } else {
      StepsBetween(x0, m, dx);
      StepsBetween(y0, k, dy);
      assert At(x0, y0, f, k, m) == (x0 + m * Sign(dx), y0 + k * Sign(dy));
    }
  }

  /** Every pixel lies in the axis-aligned box spanned by the endpoints. */
  lemma LineInBox(x0: int, y0: int, x1: int, y1: int)
    ensures forall p :: p in Line(x0, y0, x1, y1) ==>
              Min(x0, x1) <= p.0 <= Max(x0, x1) && Min(y0, y1) <= p.1 <= Max(y0, y1)
  {
    var f := FrameOf(x0, y0, x1, y1);
    var r := Line(x0, y0, x1, y1);
    LineIsIdeal(x0, y0, x1, y1);
    forall p | p in r
      ensures Min(x0, x1) <= p.0 <= Max(x0, x1) && Min(y0, y1) <= p.1 <= Max(y0, y1)
    {
      var k :| 0 <= k < |r| && r[k] == p;
      if f.d > 0 {
        MinorOffsetRounds(f.d, f.e, k);
      }
      AtInBox(x0, y0, x1, y1, k, MinorOffset(f.d, f.e, k));
    }
  }

  /** The example of `line`'s documentation, anywhere on the grid. */
  lemma LineExample(x: int, y: int)
    ensures Line(x, y, x + 4, y + 3) == [(x, y), (x + 1, y + 1), (x + 2, y + 2), (x + 3, y + 2), (x + 4, y + 3)]
  {
    LineIsIdeal(x, y, x + 4, y + 3);
    var f := FrameOf(x, y, x + 4, y + 3);
    assert f == Frame(4, 3, (1, 0), (0, 1));
    assert MinorOffset(4, 3, 1) == 1 && MinorOffset(4, 3, 2) == 2;
    assert MinorOffset(4, 3, 3) == 2 && MinorOffset(4, 3, 4) == 3;
  }

  /** A tie (`D == 0`) steps the minor axis, so reversing the endpoints does
      not reverse the pixels. */
  lemma LineNotReversible(x: int, y: int)
    ensures Line(x, y, x + 2, y + 1) == [(x, y), (x + 1, y + 1), (x + 2, y + 1)]
    ensures Line(x + 2, y + 1, x, y) == [(x + 2, y + 1), (x + 1, y), (x, y)]
    ensures Line(x, y, x + 2, y + 1) != Reverse(Line(x + 2, y + 1, x, y))
  {
    LineIsIdeal(x, y, x + 2, y + 1);
    LineIsIdeal(x + 2, y + 1, x, y);
    assert FrameOf(x, y, x + 2, y + 1) == Frame(2, 1, (1, 0), (0, 1));
    assert FrameOf(x + 2, y + 1, x, y) == Frame(2, 1, (-1, 0), (0, -1));
    assert MinorOffset(2, 1, 1) == 1 && MinorOffset(2, 1, 2) == 1;
    assert Reverse(Line(x + 2, y + 1, x, y))[1] == (x + 1, y);
  }
}
