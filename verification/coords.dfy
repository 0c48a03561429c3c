/** Integer pairs, Python-style ranges and cartesian products. */
module Coords {
  import opened Outcomes

  /** A Python tuple of two integers: `(x, y)` texture coordinates, or
      `(row, col)` array indices, depending on the caller. */
  type Pair = (int, int)

  function Abs(v: int): nat { if v < 0 then -v else v }

  function Min(a: int, b: int): int { if a <= b then a else b }

  function Max(a: int, b: int): int { if a >= b then a else b }

  function AbsReal(x: real): real { if x < 0.0 then -x else x }

  /** Python's `int()` on a float: truncation toward zero. */
  function Trunc(x: real): (r: int)
    ensures x >= 0.0 ==> r as real <= x < r as real + 1.0
    ensures x < 0.0 ==> r as real - 1.0 < x <= r as real
  {
    if x >= 0.0 then x.Floor else -((-x).Floor)
  }

  /** Python's subscript `xs[i]` on a sequence of length `n`: negative
      indices count from the end; anything outside `[-n, n)` raises
      `IndexError` (`None` here). */
  function PyIndex(i: int, n: nat): (r: Option<nat>)
    ensures r.Some? <==> -(n as int) <= i < n
    ensures r.Some? ==> r.value < n && (if i >= 0 then r.value == i else r.value == i + n)
  {
    if 0 <= i < n then Some(i) else if -(n as int) <= i < 0 then Some(i + n) else None
  }

  /** Python's `range(lo, hi)` as a sequence. */
  function Range(lo: int, hi: int): (r: seq<int>)
    ensures |r| == if lo <= hi then hi - lo else 0
    ensures forall k :: 0 <= k < |r| ==> r[k] == lo + k
    decreases hi - lo
  {
    if lo >= hi then [] else [lo] + Range(lo + 1, hi)
  }

  lemma RangeMembers(lo: int, hi: int)
    ensures forall v :: v in Range(lo, hi) <==> lo <= v < hi
  {
    var r := Range(lo, hi);
    forall v | lo <= v < hi ensures v in r {
      assert r[v - lo] == v;
    }
  }

  /** Lexicographic order on pairs: the order in which nested Python loops
      (first component outer) produce them. */
  predicate LexLess(p: Pair, q: Pair) {
    p.0 < q.0 || (p.0 == q.0 && p.1 < q.1)
  }

  /** Strictly increasing in `LexLess`; in particular free of duplicates. */
  predicate Increasing(s: seq<Pair>) {
    forall i, j :: 0 <= i < j < |s| ==> LexLess(s[i], s[j])
  }

  predicate StrictlySorted(s: seq<int>) {
    forall i, j :: 0 <= i < j < |s| ==> s[i] < s[j]
  }

  /** `[(x, y) for y in ys]`. */
  function Row(x: int, ys: seq<int>): (r: seq<Pair>)
    ensures |r| == |ys|
    ensures forall k :: 0 <= k < |ys| ==> r[k] == (x, ys[k])
  {
    seq(|ys|, k requires 0 <= k < |ys| => (x, ys[k]))
  }

  /** `list(itertools.product(xs, ys))`: first component outer. */
  function Product(xs: seq<int>, ys: seq<int>): (r: seq<Pair>)
    ensures |r| == |xs| * |ys|
  {
    if xs == [] then []
    else
      assert |xs| * |ys| == |ys| + (|xs| - 1) * |ys|;
      Row(xs[0], ys) + Product(xs[1..], ys)
  }

  /** The product holds exactly the pairs of a member of `xs` and a member of `ys`. */
  lemma {:induction false} ProductMembers(xs: seq<int>, ys: seq<int>)
    ensures forall p :: p in Product(xs, ys) <==> p.0 in xs && p.1 in ys
  {
    if xs != [] {
      ProductMembers(xs[1..], ys);
      assert forall p :: p in Row(xs[0], ys) <==> p.0 == xs[0] && p.1 in ys;
      assert forall v :: v in xs <==> v == xs[0] || v in xs[1..];
    }
  }

  /** Sorted factors give a lexicographically increasing product. */
  lemma {:induction false} ProductIncreasing(xs: seq<int>, ys: seq<int>)
    requires StrictlySorted(xs) && StrictlySorted(ys)
    ensures Increasing(Product(xs, ys))
  {
    if xs != [] {
      var rest := Product(xs[1..], ys);
      ProductIncreasing(xs[1..], ys);
      ProductMembers(xs[1..], ys);
      assert forall p :: p in rest ==> xs[0] < p.0;
    }
  }

  /** A list whose neighbours are in order is increasing. */
  lemma {:induction false} AdjacentIncreasing(s: seq<Pair>)
    requires forall i :: 0 <= i < |s| - 1 ==> LexLess(s[i], s[i + 1])
    ensures Increasing(s)
  {
    if |s| > 1 {
      AdjacentIncreasing(s[1..]);
      forall j | 1 < j < |s|
        ensures LexLess(s[0], s[j])
      {
        assert LexLess(s[1..][0], s[1..][j - 1]);
      }
    }
  }

  /** The head of an increasing list precedes its other members. */
  lemma HeadLeast(s: seq<Pair>, p: Pair)
    requires Increasing(s) && p in s
    ensures p == s[0] || LexLess(s[0], p)
  {
  }

  /** An increasing list is determined by its members. */
  lemma {:induction false} IncreasingUnique(s: seq<Pair>, t: seq<Pair>)
    requires Increasing(s) && Increasing(t)
    requires forall p :: p in s <==> p in t
    ensures s == t
  {
    if s != [] {
      assert s[0] in t;
    }
    if t != [] {
      assert t[0] in s;
    }
    if s != [] {
      HeadLeast(t, s[0]);
      HeadLeast(s, t[0]);
      forall p | p in s[1..] ensures p in t[1..] {
        HeadLeast(s, p);
        assert p in t && p != t[0];
      }
      forall p | p in t[1..] ensures p in s[1..] {
        HeadLeast(t, p);
        assert p in s && p != s[0];
      }
      IncreasingUnique(s[1..], t[1..]);
      assert s == [s[0]] + s[1..] && t == [t[0]] + t[1..];
    }
  }

  /** `s[::-1]`. */
  function Reverse<T>(s: seq<T>): (r: seq<T>)
    ensures |r| == |s|
    ensures forall k :: 0 <= k < |s| ==> r[k] == s[|s| - 1 - k]
  {
    seq(|s|, k requires 0 <= k < |s| => s[|s| - 1 - k])
  }
}
