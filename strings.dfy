/** Python's string order, the sort that `list.sort()` performs on strings,
    order-preserving filtering, and the decimal formatting of `str(n)` and
    `f"{n:0wd}"`. */
module Strings {

  // ---------------------------------------------------------------------
  // Python's `<` on str: code-point lexicographic order, a proper prefix
  // being smaller.
  // ---------------------------------------------------------------------

  predicate LexLess(a: string, b: string)
    decreases |a|
  {
    if |a| == 0 then |b| > 0
    else if |b| == 0 then false
    else if a[0] != b[0] then a[0] < b[0]
    else LexLess(a[1..], b[1..])
  }

  predicate LexLessEq(a: string, b: string)
  {
    a == b || LexLess(a, b)
  }

  lemma {:induction false} LexLessIrreflexive(a: string)
    ensures !LexLess(a, a)
  {
    if |a| > 0 {
      LexLessIrreflexive(a[1..]);
    }
  }

  lemma {:induction false} LexLessTransitive(a: string, b: string, c: string)
    requires LexLess(a, b) && LexLess(b, c)
    ensures LexLess(a, c)
    decreases |a|
  {
    if |a| > 0 && a[0] == b[0] && b[0] == c[0] {
      LexLessTransitive(a[1..], b[1..], c[1..]);
    }
  }

  lemma {:induction false} LexLessTotal(a: string, b: string)
    ensures a == b || LexLess(a, b) || LexLess(b, a)
    decreases |a|
  {
    if |a| > 0 && |b| > 0 && a[0] == b[0] {
      LexLessTotal(a[1..], b[1..]);
      if a[1..] == b[1..] {
        assert a == [a[0]] + a[1..] && b == [b[0]] + b[1..];
      }
    }
  }

  lemma {:induction false} LexLessAsymmetric(a: string, b: string)
    requires LexLess(a, b)
    ensures !LexLess(b, a) && a != b
  {
    if LexLess(b, a) {
      LexLessTransitive(a, b, a);
      LexLessIrreflexive(a);
    }
    if a == b {
      LexLessIrreflexive(a);
    }
  }

  /** A common prefix does not change the order of two strings. */
  lemma {:induction false} LexLessCommonPrefix(p: string, a: string, b: string)
    ensures LexLess(p + a, p + b) <==> LexLess(a, b)
    decreases |p|
  {
    if |p| > 0 {
      assert (p + a)[1..] == p[1..] + a;
      assert (p + b)[1..] == p[1..] + b;
      LexLessCommonPrefix(p[1..], a, b);
    } else {
      assert p + a == a && p + b == b;
    }
  }

  /** When two strings of equal length are ordered, anything appended keeps
      that order: the first difference lies inside them. */
  lemma {:induction false} LexLessEqualLengthAppend(a: string, b: string, x: string, y: string)
    requires |a| == |b| && LexLess(a, b)
    ensures LexLess(a + x, b + y)
    decreases |a|
  {
    assert |a| > 0;
    if a[0] == b[0] {
      assert (a + x)[1..] == a[1..] + x;
      assert (b + y)[1..] == b[1..] + y;
      LexLessEqualLengthAppend(a[1..], b[1..], x, y);
    }
  }

  // ---------------------------------------------------------------------
  // Sorting: `list.sort()` on strings yields the unique ascending
  // permutation of its input, here computed by insertion.
  // ---------------------------------------------------------------------

  ghost predicate Sorted(s: seq<string>)
  {
    forall i, j :: 0 <= i < j < |s| ==> LexLessEq(s[i], s[j])
  }

  ghost predicate StrictlyIncreasing(s: seq<string>)
  {
    forall i, j :: 0 <= i < j < |s| ==> LexLess(s[i], s[j])
  }

  lemma LexLessEqTransitive(a: string, b: string, c: string)
    requires LexLessEq(a, b) && LexLessEq(b, c)
    ensures LexLessEq(a, c)
  {
    if a != b && b != c {
      LexLessTransitive(a, b, c);
    }
  }

  function Insert(x: string, s: seq<string>): (r: seq<string>)
    ensures multiset(r) == multiset(s) + multiset{x}
    ensures |r| == |s| + 1
  {
    if s == [] then [x]
    else if LexLessEq(x, s[0]) then [x] + s
    else
      assert s == [s[0]] + s[1..];
      [s[0]] + Insert(x, s[1..])
  }

  /** A string no greater than the head of a sorted list may stand before it. */
  lemma ConsSorted(x: string, s: seq<string>)
    requires Sorted(s)
    requires forall k :: 0 <= k < |s| ==> LexLessEq(x, s[k])
    ensures Sorted([x] + s)
  {
    var r := [x] + s;
    forall i, j | 0 <= i < j < |r| ensures LexLessEq(r[i], r[j]) {
      if i > 0 {
        assert r[i] == s[i - 1] && r[j] == s[j - 1];
      }
    }
  }

  lemma {:induction false} InsertSorted(x: string, s: seq<string>)
    requires Sorted(s)
    ensures Sorted(Insert(x, s))
  {
    if s == [] {
    } else if LexLessEq(x, s[0]) {
      forall k | 0 <= k < |s| ensures LexLessEq(x, s[k]) {
        LexLessEqTransitive(x, s[0], s[k]);
      }
      ConsSorted(x, s);
    } else {
      var t := Insert(x, s[1..]);
      InsertSorted(x, s[1..]);
      LexLessTotal(x, s[0]);
      forall k | 0 <= k < |t| ensures LexLessEq(s[0], t[k]) {
        assert t[k] in multiset(t);
        if t[k] != x {
          assert t[k] in multiset(s[1..]);
          var m :| 0 <= m < |s[1..]| && s[1..][m] == t[k];
          assert s[m + 1] == t[k];
        }
      }
      ConsSorted(s[0], t);
    }
  }

  function SortStrings(s: seq<string>): (r: seq<string>)
    ensures multiset(r) == multiset(s)
    ensures Sorted(r)
  {
    if s == [] then []
    else
      assert s == [s[0]] + s[1..];
      var t := SortStrings(s[1..]);
      InsertSorted(s[0], t);
      Insert(s[0], t)
  }

  /** Sorting a list that is already in ascending order leaves it as it is. */
  lemma {:induction false} SortSortedIsIdentity(s: seq<string>)
    requires Sorted(s)
    ensures SortStrings(s) == s
  {
    if s != [] {
      assert Sorted(s[1..]);
      SortSortedIsIdentity(s[1..]);
      assert s == [s[0]] + s[1..];
    }
  }

  lemma StrictlyIncreasingIsSorted(s: seq<string>)
    requires StrictlyIncreasing(s)
    ensures Sorted(s)
  {
  }

  // ---------------------------------------------------------------------
  // Order-preserving filtering: `[x for x in s if p(x)]`.
  // ---------------------------------------------------------------------

  /** `r` can be obtained from `s` by deleting elements. */
  ghost predicate IsSubsequence(r: seq<string>, s: seq<string>)
    decreases |s|
  {
    if s == [] then r == []
    else (r != [] && r[0] == s[0] && IsSubsequence(r[1..], s[1..])) || IsSubsequence(r, s[1..])
  }

  function Filter(s: seq<string>, p: string -> bool): (r: seq<string>)
    ensures |r| <= |s|
    ensures forall x :: x in r <==> x in s && p(x)
    ensures forall x :: multiset(r)[x] == if p(x) then multiset(s)[x] else 0
    ensures IsSubsequence(r, s)
  {
    if s == [] then []
    else
      assert s == [s[0]] + s[1..];
      var t := Filter(s[1..], p);
      if p(s[0]) then
        assert ([s[0]] + t)[1..] == t;
        [s[0]] + t
      else
        t
  }

  /** A filter every element passes keeps the whole sequence. */
  lemma {:induction false} FilterKeepsAll(s: seq<string>, p: string -> bool)
    requires forall k :: 0 <= k < |s| ==> p(s[k])
    ensures Filter(s, p) == s
  {
    if s != [] {
      FilterKeepsAll(s[1..], p);
      assert s == [s[0]] + s[1..];
    }
  }

  // ---------------------------------------------------------------------
  // Decimal formatting.
  // ---------------------------------------------------------------------

  predicate IsDigit(c: char)
  {
    '0' <= c <= '9'
  }

  function DigitChar(d: int): (c: char)
    requires 0 <= d <= 9
    ensures IsDigit(c) && c as int - '0' as int == d
  {
    ('0' as int + d) as char
  }

  function Pow10(n: nat): (r: nat)
    ensures r >= 1
  {
    if n == 0 then 1 else 10 * Pow10(n - 1)
  }

  /** The `w` low-order decimal digits of `n`, most significant first. */
  function Digits(n: nat, w: nat): (r: string)
    ensures |r| == w
    ensures forall i :: 0 <= i < w ==> IsDigit(r[i])
  {
    if w == 0 then "" else Digits(n / 10, w - 1) + [DigitChar(n % 10)]
  }

  function NumDigits(n: nat): (k: nat)
    ensures k >= 1
  {
    if n < 10 then 1 else 1 + NumDigits(n / 10)
  }

  /** `f"{n:0{width}d}"`: at least `width` characters, zero-padded on the left. */
  function PadInt(n: nat, width: nat): string
  {
    Digits(n, if NumDigits(n) < width then width else NumDigits(n))
  }

  /** `str(n)` for a non-negative integer. */
  function DecimalString(n: nat): string
  {
    Digits(n, NumDigits(n))
  }

  /** Numbers below 10^w are written in at most w digits, so padding them to
      width w is exactly their w low-order digits. */
  lemma {:induction false} PadIntBelowWidth(n: nat, w: nat)
    requires 1 <= w && n < Pow10(w)
    ensures NumDigits(n) <= w
    ensures PadInt(n, w) == Digits(n, w)
  {
    if n >= 10 {
      assert n / 10 < Pow10(w - 1);
      PadIntBelowWidth(n / 10, w - 1);
    }
  }

  /** Fixed-width decimal strings sort like the numbers they denote. */
  lemma {:induction false} DigitsOrder(n: nat, m: nat, w: nat)
    requires n < m < Pow10(w)
    ensures LexLess(Digits(n, w), Digits(m, w))
  {
    assert w > 0;
    var hn, hm := Digits(n / 10, w - 1), Digits(m / 10, w - 1);
    if n / 10 < m / 10 {
      DigitsOrder(n / 10, m / 10, w - 1);
      LexLessEqualLengthAppend(hn, hm, [DigitChar(n % 10)], [DigitChar(m % 10)]);
    } else {
      assert n % 10 < m % 10;
      DigitsAgree(n / 10, m / 10, w - 1);
      LexLessCommonPrefix(hn, [DigitChar(n % 10)], [DigitChar(m % 10)]);
    }
  }

  lemma DigitsAgree(n: nat, m: nat, w: nat)
    requires n == m
    ensures Digits(n, w) == Digits(m, w)
  {
  }

  /** Fixed-width decimal strings of numbers below 10^w identify the number. */
  lemma DigitsInjective(n: nat, m: nat, w: nat)
    requires n < Pow10(w) && m < Pow10(w)
    requires Digits(n, w) == Digits(m, w)
    ensures n == m
  {
    if n < m {
      DigitsOrder(n, m, w);
      LexLessIrreflexive(Digits(n, w));
    } else if m < n {
      DigitsOrder(m, n, w);
      LexLessIrreflexive(Digits(m, w));
    }
  }

  /** Equal strings with a common prefix and suffix agree in the middle. */
  lemma AffixCancel(p: string, x: string, y: string, q: string)
    requires p + x + q == p + y + q
    ensures x == y
  {
    assert |x| == |y|;
    assert x == (p + x + q)[|p|..|p| + |x|];
    assert y == (p + y + q)[|p|..|p| + |y|];
  }
}
