/** The string operations the loader relies on: the two regular-expression
    searches, `str.split`, `str.strip`, slicing and Python's ordering of
    strings. Characters are code points; `\d` is the ASCII digits here. */
module Text {
  import opened Outcomes

  predicate IsDigit(c: char) { '0' <= c <= '9' }

  /** `n` digits start at position `p` of `s`. */
  predicate DigitsAt(s: string, p: nat, n: nat) {
    p + n <= |s| && forall k :: p <= k < p + n ==> IsDigit(s[k])
  }

  /** `\d{8}` matches at `p`. */
  predicate DateAt(s: string, p: nat) { DigitsAt(s, p, 8) }

  /** `\d{8}T\d{6}` matches at `p`. */
  predicate StampAt(s: string, p: nat) {
    DigitsAt(s, p, 8) && p + 15 <= |s| && s[p + 8] == 'T' && DigitsAt(s, p + 9, 6)
  }

  /** The leftmost `p >= from` where `\d{8}` matches. */
  function FindDate(s: string, from: nat): (r: Option<nat>)
    ensures r.Some? ==> from <= r.value && DateAt(s, r.value)
    ensures r.Some? ==> forall q :: from <= q < r.value ==> !DateAt(s, q)
    ensures r.None? ==> forall q :: from <= q ==> !DateAt(s, q)
    decreases |s| - from
  {
    if from + 8 > |s| then None
    else if DateAt(s, from) then Some(from)
    else FindDate(s, from + 1)
  }

  /** The leftmost `p >= from` where `\d{8}T\d{6}` matches. */
  function FindStamp(s: string, from: nat): (r: Option<nat>)
    ensures r.Some? ==> from <= r.value && StampAt(s, r.value)
    ensures r.Some? ==> forall q :: from <= q < r.value ==> !StampAt(s, q)
    ensures r.None? ==> forall q :: from <= q ==> !StampAt(s, q)
    decreases |s| - from
  {
    if from + 15 > |s| then None
    else if StampAt(s, from) then Some(from)
    else FindStamp(s, from + 1)
  }

  /** `re.search(r"\d{8}", s)[0]`: the first run of eight digits, or `None`
      where the search finds no match (subscripting it then raises). */
  function FirstDate(s: string): (r: Option<string>)
    ensures r.Some? <==> exists p :: DateAt(s, p)
    ensures r.Some? ==> |r.value| == 8 && forall k :: 0 <= k < 8 ==> IsDigit(r.value[k])
  {
    match FindDate(s, 0)
    case None => None
    case Some(p) => Some(s[p..p + 8])
  }

  function EndsWith(s: string, suffix: string): bool {
    |suffix| <= |s| && s[|s| - |suffix|..] == suffix
  }

  /** `re.search(r"\d{8}T\d{6}.*bin$", s)` finds a match, for names without
      line breaks: a stamp followed, possibly after more text, by a final
      `bin`. */
  ghost predicate IsStackLayer(s: string) {
    EndsWith(s, "bin") && exists p: nat :: StampAt(s, p) && p + 18 <= |s|
  }

  /** The test as the search performs it: only the leftmost stamp needs to
      be examined, since a later one leaves less room for `bin`. */
  function StackLayerTest(s: string): (r: bool)
    ensures r <==> IsStackLayer(s)
  {
    EndsWith(s, "bin") &&
    match FindStamp(s, 0)
    case None => false
    case Some(p) =>
      assert forall q: nat :: StampAt(s, q) ==> p <= q;
      p + 18 <= |s|
  }

  /** `d[-8:]`: the last eight characters, or all of a shorter string. */
  function LastEight(d: string): (r: string)
    ensures |r| == if |d| < 8 then |d| else 8
    ensures EndsWith(d, r)
  {
    if |d| < 8 then d else d[|d| - 8..]
  }

  /** `sep` occurs in `s` at position `q`. */
  predicate SepAt(s: string, sep: string, q: nat) {
    q + |sep| <= |s| && s[q..q + |sep|] == sep
  }

  /** The first position of `sep` in `s` at or after `from`. */
  function Find(s: string, sep: string, from: nat): (r: Option<nat>)
    requires |sep| > 0
    ensures r.Some? ==> from <= r.value && SepAt(s, sep, r.value)
    ensures r.Some? ==> forall q: nat :: from <= q < r.value ==> !SepAt(s, sep, q)
    ensures r.None? ==> forall q: nat :: from <= q ==> !SepAt(s, sep, q)
    decreases |s| - from
  {
    if from + |sep| > |s| then None
    else if SepAt(s, sep, from) then Some(from)
    else Find(s, sep, from + 1)
  }

  /** `s.split(sep, maxsplit=1)` when it yields two parts; `None` when `sep`
      does not occur and the split yields the whole string alone. */
  function SplitOnce(s: string, sep: string): (r: Option<(string, string)>)
    requires |sep| > 0
    ensures r.Some? ==> r.value.0 + sep + r.value.1 == s
    ensures r.Some? ==> forall q: nat :: q < |r.value.0| ==> !SepAt(s, sep, q)
    ensures r.None? ==> forall q: nat :: !SepAt(s, sep, q)
  {
    match Find(s, sep, 0)
    case None => None
    case Some(p) =>
      assert s == s[..p] + s[p..p + |sep|] + s[p + |sep|..];
      Some((s[..p], s[p + |sep|..]))
  }

  /** `filename.split('.')[0]`: everything before the first dot. */
  function BeforeFirstDot(s: string): (r: string)
    ensures '.' !in r
    ensures r <= s
    ensures r == s || (|r| < |s| && s[|r|] == '.')
  {
    if s == [] || s[0] == '.' then []
    else [s[0]] + BeforeFirstDot(s[1..])
  }

  /** A dot after a dot-free stem cuts the name at the stem. */
  lemma {:induction false} BeforeFirstDotOfStem(stem: string, rest: string)
    requires '.' !in stem
    ensures BeforeFirstDot(stem + "." + rest) == stem
  {
    if stem != [] {
      assert (stem + "." + rest)[1..] == stem[1..] + "." + rest;
      BeforeFirstDotOfStem(stem[1..], rest);
    }
  }

  /** The characters `str.strip()` removes, those for which `str.isspace()`
      holds: the ASCII controls tab to carriage return and the four
      separators U+001C..U+001F, the space, U+0085, U+00A0, and the Unicode
      space separators and line and paragraph separators. */
  predicate IsSpace(c: char) {
    || '\t' <= c <= '\r' || '\U{001C}' <= c <= ' '
    || c == '\U{0085}' || c == '\U{00A0}' || c == '\U{1680}'
    || '\U{2000}' <= c <= '\U{200A}' || c == '\U{2028}' || c == '\U{2029}'
    || c == '\U{202F}' || c == '\U{205F}' || c == '\U{3000}'
  }

  function StripLeft(s: string): (r: string)
    ensures r == [] || !IsSpace(r[0])
    ensures exists k :: 0 <= k <= |s| && r == s[k..] && forall i :: 0 <= i < k ==> IsSpace(s[i])
  {
    if s != [] && IsSpace(s[0]) then
      var r := StripLeft(s[1..]);
      var k :| 0 <= k <= |s[1..]| && r == s[1..][k..] && forall i :: 0 <= i < k ==> IsSpace(s[1..][i]);
      assert r == s[k + 1..];
      r
    else
      assert s == s[0..];
      s
  }

  function StripRight(s: string): (r: string)
    ensures r == [] || !IsSpace(r[|r| - 1])
    ensures exists k :: 0 <= k <= |s| && r == s[..k] && forall i :: k <= i < |s| ==> IsSpace(s[i])
  {
    if s != [] && IsSpace(s[|s| - 1]) then
      var r := StripRight(s[..|s| - 1]);
      var k :| 0 <= k <= |s| - 1 && r == s[..|s| - 1][..k] && forall i :: k <= i < |s| - 1 ==> IsSpace(s[i]);
      assert r == s[..k];
      r
    else
      assert s == s[..|s|];
      s
  }

  /** `s.strip()`: leading and trailing whitespace removed. */
  function Strip(s: string): (r: string)
    ensures r == [] || (!IsSpace(r[0]) && !IsSpace(r[|r| - 1]))
    ensures exists i, j :: && 0 <= i <= j <= |s| && r == s[i..j]
                           && (forall k :: 0 <= k < i ==> IsSpace(s[k]))
                           && (forall k :: j <= k < |s| ==> IsSpace(s[k]))
  {
    StripIsSlice(s);
    StripRight(StripLeft(s))
  }

  /** The two halves of `Strip` cut only whitespace off the ends. */
  lemma {:induction false} StripIsSlice(s: string)
    ensures exists i, j :: && 0 <= i <= j <= |s| && StripRight(StripLeft(s)) == s[i..j]
                           && (forall k :: 0 <= k < i ==> IsSpace(s[k]))
                           && (forall k :: j <= k < |s| ==> IsSpace(s[k]))
  {
    var i := LeadingCut(s);
    var n := TrailingCut(s[i..]);
    CutEnds(s, i, n);
    assert StripRight(StripLeft(s)) == s[i..i + n];
  }

  /** How many leading characters `StripLeft` removes. */
  lemma {:induction false} LeadingCut(s: string) returns (i: nat)
    ensures i <= |s| && StripLeft(s) == s[i..] && forall k :: 0 <= k < i ==> IsSpace(s[k])
  {
    i :| 0 <= i <= |s| && StripLeft(s) == s[i..] && forall k :: 0 <= k < i ==> IsSpace(s[k]);
  }

  /** How many leading characters `StripRight` keeps. */
  lemma {:induction false} TrailingCut(t: string) returns (n: nat)
    ensures n <= |t| && StripRight(t) == t[..n] && forall k :: n <= k < |t| ==> IsSpace(t[k])
  {
    n :| 0 <= n <= |t| && StripRight(t) == t[..n] && forall k :: n <= k < |t| ==> IsSpace(t[k]);
  }

  /** Cutting `i` leading and then all but `n` characters of whitespace
      leaves the slice `s[i..i + n]`. */
  lemma {:induction false} CutEnds(s: string, i: nat, n: nat)
    requires i + n <= |s|
    requires forall k :: 0 <= k < i ==> IsSpace(s[k])
    requires forall k :: n <= k < |s| - i ==> IsSpace(s[i..][k])
    ensures s[i..][..n] == s[i..i + n]
    ensures forall k :: i + n <= k < |s| ==> IsSpace(s[k])
  {
    forall k | i + n <= k < |s| ensures IsSpace(s[k]) {
      assert s[k] == s[i..][k - i];
    }
  }

  /** A string without whitespace at either end is its own strip. */
  lemma StripTrimmed(s: string)
    requires s == [] || (!IsSpace(s[0]) && !IsSpace(s[|s| - 1]))
    ensures Strip(s) == s
  {
  }

  /** Stripping twice is stripping once. */
  lemma StripIdempotent(s: string)
    ensures Strip(Strip(s)) == Strip(s)
  {
    var r := Strip(s);
    if r != [] {
      assert StripLeft(r) == r;
      assert StripRight(r) == r;
    }
  }

  /** Python's `<` on strings: code-point lexicographic, a proper prefix first. */
  ghost predicate StrLess(a: string, b: string) {
    (|a| < |b| && a == b[..|a|])
    || exists k :: 0 <= k < |a| && k < |b| && a[..k] == b[..k] && a[k] < b[k]
  }

  /** Python's `<=` on strings, decided by scanning. */
  function StrLe(a: string, b: string): bool {
    if a == [] then true
    else if b == [] then false
    else if a[0] != b[0] then a[0] < b[0]
    else StrLe(a[1..], b[1..])
  }

  /** The scan decides Python's order. */
  lemma {:induction false} StrLeIsPythonOrder(a: string, b: string)
    ensures StrLe(a, b) <==> a == b || StrLess(a, b)
  {
    if a == [] {
      assert b != [] ==> b[..0] == a;
    } else if b == [] {
    } else if a[0] != b[0] {
      assert a[..0] == b[..0];
      if a[0] > b[0] {
        assert !(|a| < |b| && a == b[..|a|]) by {
          if |a| < |b| { assert b[..|a|][0] == b[0]; }
        }
      }
    } else {
      StrLeIsPythonOrder(a[1..], b[1..]);
      StrLessTail(a, b);
      assert a == b <==> a[1..] == b[1..] by {
        if a[1..] == b[1..] { assert a == [a[0]] + a[1..] && b == [b[0]] + b[1..]; }
      }
    }
  }

  /** With equal heads, `StrLess` is decided by the tails. */
  lemma StrLessTail(a: string, b: string)
    requires a != [] && b != [] && a[0] == b[0]
    ensures StrLess(a, b) <==> StrLess(a[1..], b[1..])
  {
    if StrLess(a[1..], b[1..]) {
      if |a| - 1 < |b| - 1 && a[1..] == b[1..][..|a| - 1] {
        assert a == b[..|a|] by {
          assert a == [a[0]] + a[1..];
          assert b[..|a|] == [b[0]] + b[1..][..|a| - 1];
        }
      } else {
        var k :| 0 <= k < |a| - 1 && k < |b| - 1 && a[1..][..k] == b[1..][..k] && a[1..][k] < b[1..][k];
        assert a[..k + 1] == [a[0]] + a[1..][..k];
        assert b[..k + 1] == [b[0]] + b[1..][..k];
        assert a[k + 1] < b[k + 1];
      }
    }
    if StrLess(a, b) {
      if |a| < |b| && a == b[..|a|] {
        assert a[1..] == b[1..][..|a| - 1];
      } else {
        var k :| 0 <= k < |a| && k < |b| && a[..k] == b[..k] && a[k] < b[k];
        assert k != 0;
        assert a[1..][..k - 1] == a[..k][1..];
        assert b[1..][..k - 1] == b[..k][1..];
        assert a[1..][k - 1] < b[1..][k - 1];
      }
    }
  }

  lemma {:induction false} StrLeTrans(a: string, b: string, c: string)
    requires StrLe(a, b) && StrLe(b, c)
    ensures StrLe(a, c)
    decreases |a|
  {
    if a != [] && b != [] && c != [] && a[0] == b[0] && b[0] == c[0] {
      StrLeTrans(a[1..], b[1..], c[1..]);
    }
  }

  lemma {:induction false} StrLeTotal(a: string, b: string)
    ensures StrLe(a, b) || StrLe(b, a)
    decreases |a|
  {
    if a != [] && b != [] && a[0] == b[0] {
      StrLeTotal(a[1..], b[1..]);
    }
  }

  predicate SortedStrings(s: seq<string>) {
    forall i, j :: 0 <= i < j < |s| ==> StrLe(s[i], s[j])
  }

  /** Inserts `x` before the first element it does not follow. */
  function Insert(x: string, s: seq<string>): (r: seq<string>)
    ensures multiset(r) == multiset(s) + multiset{x}
    ensures |r| == |s| + 1
  {
    if s == [] then [x]
    else if StrLe(x, s[0]) then [x] + s
    else
      assert s == [s[0]] + s[1..];
      [s[0]] + Insert(x, s[1..])
  }

  lemma {:induction false} InsertSorted(x: string, s: seq<string>)
    requires SortedStrings(s)
    ensures SortedStrings(Insert(x, s))
  {
    if s == [] {
    } else if StrLe(x, s[0]) {
      forall k | 0 <= k < |s| ensures StrLe(x, s[k]) {
        if k > 0 { StrLeTrans(x, s[0], s[k]); }
      }
    } else {
      var rest := Insert(x, s[1..]);
      InsertSorted(x, s[1..]);
      StrLeTotal(x, s[0]);
      assert s == [s[0]] + s[1..];
      forall k | 0 <= k < |rest| ensures StrLe(s[0], rest[k]) {
        assert rest[k] in multiset(rest);
        assert rest[k] == x || rest[k] in multiset(s[1..]);
        if rest[k] != x {
          var j :| 0 <= j < |s[1..]| && s[1..][j] == rest[k];
          assert StrLe(s[0], s[j + 1]);
        }
      }
    }
  }

  /** `list.sort()` on strings: a sorted permutation. (A stable sort on a
      total order returns the same list whatever the algorithm.) */
  function Sort(s: seq<string>): (r: seq<string>)
    ensures multiset(r) == multiset(s)
    ensures |r| == |s|
    ensures SortedStrings(r)
  {
    if s == [] then []
    else
      var rest := Sort(s[1..]);
      InsertSorted(s[0], rest);
      assert s == [s[0]] + s[1..];
      Insert(s[0], rest)
  }
}
