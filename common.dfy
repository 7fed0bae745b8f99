/** Small building blocks shared by both toolkits: an Option type, Python's
    notion of whitespace and decimal digits, integer formatting as an
    f-string does it, str.strip(), sums over sequences and concatenation. */
module Common {

  datatype Option<T> = None | Some(value: T) {
    function GetOr(default: T): T {
      match this
      case Some(v) => v
      case None => default
    }
  }

  function Min(a: int, b: int): int { if a <= b then a else b }

  // ---------------------------------------------------------------------
  // Characters

  /** Python's str.isspace(), which is also what `\s` matches in a `str`
      pattern and what str.strip() removes. */
  predicate IsPySpace(c: char) {
    ('\t' <= c <= '\r') || ('\U{1C}' <= c <= '\U{1F}') || c == ' '
    || c == '\U{85}' || c == '\U{A0}' || c == '\U{1680}'
    || ('\U{2000}' <= c <= '\U{200A}') || c == '\U{2028}' || c == '\U{2029}'
    || c == '\U{202F}' || c == '\U{205F}' || c == '\U{3000}'
  }

  predicate IsDigit(c: char) { '0' <= c <= '9' }

  predicate AllDigits(s: string) { forall i :: 0 <= i < |s| ==> IsDigit(s[i]) }

  function DigitChar(d: nat): char
    requires d < 10
  {
    "0123456789"[d]
  }

  function DigitValue(c: char): nat
    requires IsDigit(c)
  {
    (c as int - '0' as int) as nat
  }

  // ---------------------------------------------------------------------
  // Integers as text

  /** Decimal text of a natural number, as `str(n)` writes it. */
  function NatToString(n: nat): (s: string)
    ensures |s| >= 1 && AllDigits(s)
    decreases n
  {
    if n < 10 then [DigitChar(n)] else NatToString(n / 10) + [DigitChar(n % 10)]
  }

  /** Decimal text of an integer, with a leading '-' when negative. */
  function IntToString(i: int): string {
    if i < 0 then "-" + NatToString(-i) else NatToString(i)
  }

  /** The value of a string of decimal digits (leading zeros allowed). */
  function DigitsValue(s: string): nat
    requires AllDigits(s)
    decreases |s|
  {
    if s == [] then 0 else 10 * DigitsValue(s[..|s| - 1]) + DigitValue(s[|s| - 1])
  }

  /** Reading back the text `str(n)` gives n: formatting loses nothing. */
  lemma {:induction false} NatToStringRoundTrip(n: nat)
    ensures DigitsValue(NatToString(n)) == n
    decreases n
  {
    var s := NatToString(n);
    if n < 10 {
      assert s[..0] == [];
    } else {
      NatToStringRoundTrip(n / 10);
      assert s[..|s| - 1] == NatToString(n / 10);
    }
  }

  lemma NatToStringInjective(m: nat, n: nat)
    requires NatToString(m) == NatToString(n)
    ensures m == n
  {
    NatToStringRoundTrip(m);
    NatToStringRoundTrip(n);
  }

  lemma IntToStringShape(i: int)
    ensures i < 0 ==> IntToString(i)[0] == '-' && IntToString(i)[1..] == NatToString(-i)
    ensures i >= 0 ==> IntToString(i) == NatToString(i) && IsDigit(IntToString(i)[0])
  {
  }

  /** Different numbers are written differently. */
  lemma IntToStringInjective(a: int, b: int)
    requires IntToString(a) == IntToString(b)
    ensures a == b
  {
    IntToStringShape(a);
    IntToStringShape(b);
    if a < 0 && b < 0 {
      assert NatToString(-a) == IntToString(a)[1..] == IntToString(b)[1..] == NatToString(-b);
      NatToStringInjective(-a, -b);
    } else if a >= 0 && b >= 0 {
      NatToStringInjective(a, b);
    } else {
      // One text starts with '-', the other with a digit.
      assert false;
    }
  }

  // ---------------------------------------------------------------------
  // Strings

  predicate StartsWith(s: string, prefix: string) {
    |prefix| <= |s| && s[..|prefix|] == prefix
  }

  predicate EndsWith(s: string, suffix: string) {
    |suffix| <= |s| && s[|s| - |suffix|..] == suffix
  }

  function LStrip(s: string): (r: string)
    ensures |r| <= |s| && r == s[|s| - |r|..]
    ensures r == [] || !IsPySpace(r[0])
    ensures forall i :: 0 <= i < |s| - |r| ==> IsPySpace(s[i])
    decreases |s|
  {
    if s != [] && IsPySpace(s[0]) then LStrip(s[1..]) else s
  }

  function RStrip(s: string): (r: string)
    ensures |r| <= |s| && r == s[..|r|]
    ensures r == [] || !IsPySpace(r[|r| - 1])
    ensures forall i :: |r| <= i < |s| ==> IsPySpace(s[i])
    decreases |s|
  {
    if s != [] && IsPySpace(s[|s| - 1]) then RStrip(s[..|s| - 1]) else s
  }

  /** Python's str.strip() with no argument. */
  function Strip(s: string): string {
    RStrip(LStrip(s))
  }

  /** A string that neither starts nor ends with whitespace is its own strip. */
  lemma StripOfTrimmed(s: string)
    requires s == [] || (!IsPySpace(s[0]) && !IsPySpace(s[|s| - 1]))
    ensures Strip(s) == s
  {
  }

  /** Python's str.replace(pat, rep): every occurrence of pat, scanning
      from the left and without overlaps, becomes rep. */
  function Replace(s: string, pat: string, rep: string): string
    requires pat != []
    decreases |s|
  {
    if s == [] then []
    else if StartsWith(s, pat) then rep + Replace(s[|pat|..], pat, rep)
    else [s[0]] + Replace(s[1..], pat, rep)
  }

  // ---------------------------------------------------------------------
  // Sums and concatenation (Python's sum(...) and list.extend in a loop)

  function SumBy<T>(s: seq<T>, f: T -> int): int
    decreases |s|
  {
    if s == [] then 0 else SumBy(s[..|s| - 1], f) + f(s[|s| - 1])
  }

  lemma {:induction false} SumByAppend<T>(a: seq<T>, b: seq<T>, f: T -> int)
    ensures SumBy(a + b, f) == SumBy(a, f) + SumBy(b, f)
    decreases |b|
  {
    if b == [] {
      assert a + b == a;
    } else {
      SumByAppend(a, b[..|b| - 1], f);
      assert (a + b)[..|a + b| - 1] == a + b[..|b| - 1];
    }
  }

  lemma SumByNonNegative<T>(s: seq<T>, f: T -> int)
    requires forall i :: 0 <= i < |s| ==> f(s[i]) >= 0
    ensures SumBy(s, f) >= 0
    decreases |s|
  {
    if s != [] {
      SumByNonNegative(s[..|s| - 1], f);
    }
  }

  lemma SumByBounded<T>(s: seq<T>, f: T -> int)
    requires forall i :: 0 <= i < |s| ==> 0 <= f(s[i]) <= 1
    ensures 0 <= SumBy(s, f) <= |s|
    decreases |s|
  {
    if s != [] {
      SumByBounded(s[..|s| - 1], f);
    }
  }

  lemma SumByConstant<T>(s: seq<T>, f: T -> int, c: int)
    requires forall i :: 0 <= i < |s| ==> f(s[i]) == c
    ensures SumBy(s, f) == |s| * c
    decreases |s|
  {
    if s != [] {
      SumByConstant(s[..|s| - 1], f, c);
    }
  }

  /** Taking out one element of a sequence takes its value out of the sum. */
  lemma SumByRemove<T>(s: seq<T>, k: nat, f: T -> int)
    requires k < |s|
    ensures SumBy(s, f) == f(s[k]) + SumBy(s[..k] + s[k + 1..], f)
  {
    var front, x, back := s[..k], s[k], s[k + 1..];
    SplitAround(s, k);
    SumByAppend(front + [x], back, f);
    SumByAppend(front, [x], f);
    SumByAppend(front, back, f);
    assert [x][..0] == [];
    assert SumBy([x], f) == f(x);
  }

  lemma SplitAround<T>(s: seq<T>, k: nat)
    requires k < |s|
    ensures s == (s[..k] + [s[k]]) + s[k + 1..]
  {
  }

  lemma MultisetRemove<T>(s: seq<T>, k: nat)
    requires k < |s|
    ensures multiset(s[..k] + s[k + 1..]) == multiset(s) - multiset{s[k]}
  {
    assert s == s[..k] + [s[k]] + s[k + 1..];
  }

  lemma MultisetSplit<T>(s: seq<T>, k: nat)
    requires k < |s|
    ensures multiset(s) == multiset(s[..k] + s[k + 1..]) + multiset{s[k]}
  {
    assert s == s[..k] + [s[k]] + s[k + 1..];
  }

  /** A sum does not depend on the order of its terms. */
  lemma {:induction false} SumByPermutation<T>(a: seq<T>, b: seq<T>, f: T -> int)
    requires multiset(a) == multiset(b)
    ensures SumBy(a, f) == SumBy(b, f)
    decreases |a|
  {
    if a == [] {
      assert |b| == |multiset(b)| == 0;
    } else {
      var x := a[|a| - 1];
      MultisetRemove(a, |a| - 1);
      assert x in multiset(b);
      var k :| 0 <= k < |b| && b[k] == x;
      MultisetRemove(b, k);
      SumByPermutation(a[..|a| - 1], b[..k] + b[k + 1..], f);
      SumByRemove(b, k, f);
    }
  }

  function Concat<T>(ss: seq<seq<T>>): seq<T>
    decreases |ss|
  {
    if ss == [] then [] else Concat(ss[..|ss| - 1]) + ss[|ss| - 1]
  }

  lemma {:induction false} ConcatAppend<T>(a: seq<seq<T>>, b: seq<seq<T>>)
    ensures Concat(a + b) == Concat(a) + Concat(b)
    decreases |b|
  {
    if b == [] {
      assert a + b == a;
    } else {
      var front, last := b[..|b| - 1], b[|b| - 1];
      ConcatAppend(a, front);
      assert (a + b)[..|a + b| - 1] == a + front;
      assert Concat(a + b) == Concat(a + front) + last;
      assert Concat(b) == Concat(front) + last;
    }
  }

  lemma ConcatFront<T>(x: seq<T>, rest: seq<seq<T>>)
    ensures Concat([x] + rest) == x + Concat(rest)
  {
    ConcatAppend([x], rest);
    assert Concat([x]) == Concat([x][..0]) + x;
    assert [x][..0] == [];
  }

  /** Summing over a concatenation is summing the per-part sums. */
  lemma {:induction false} SumByConcat<T>(ss: seq<seq<T>>, f: T -> int, g: seq<T> -> int)
    requires forall i :: 0 <= i < |ss| ==> g(ss[i]) == SumBy(ss[i], f)
    ensures SumBy(Concat(ss), f) == SumBy(ss, g)
    decreases |ss|
  {
    if ss != [] {
      SumByConcat(ss[..|ss| - 1], f, g);
      SumByAppend(Concat(ss[..|ss| - 1]), ss[|ss| - 1], f);
    }
  }

  /** The length of a concatenation is the sum of the lengths. */
  lemma {:induction false} ConcatLength<T>(ss: seq<seq<T>>)
    ensures |Concat(ss)| == SumBy(ss, (s: seq<T>) => |s|)
    decreases |ss|
  {
    if ss != [] {
      ConcatLength(ss[..|ss| - 1]);
    }
  }

  predicate Distinct<T(==)>(s: seq<T>) {
    forall i, j :: 0 <= i < j < |s| ==> s[i] != s[j]
  }

  /** Removing one position of a duplicate-free sequence removes exactly
      that element. */
  lemma DistinctRemove<T>(s: seq<T>, k: nat)
    requires Distinct(s) && k < |s|
    ensures Distinct(s[..k] + s[k + 1..])
    ensures forall y :: y in s[..k] + s[k + 1..] <==> y in s && y != s[k]
  {
    var s' := s[..k] + s[k + 1..];
    forall i, j | 0 <= i < j < |s'|
      ensures s'[i] != s'[j]
    {
      var i' := if i < k then i else i + 1;
      var j' := if j < k then j else j + 1;
      assert s'[i] == s[i'] && s'[j] == s[j'] && i' < j';
    }
    forall y
      ensures y in s' <==> y in s && y != s[k]
    {
      if y in s' {
        var j :| 0 <= j < |s'| && s'[j] == y;
        if j < k { assert s[j] == y; } else { assert s[j + 1] == y; }
      }
      if y in s && y != s[k] {
        var j :| 0 <= j < |s| && s[j] == y;
        if j < k { assert s'[j] == y; } else { assert s'[j - 1] == y; }
      }
    }
  }

  /** Two duplicate-free sequences with the same elements are permutations
      of each other. */
  lemma {:induction false} DistinctSameElements<T>(a: seq<T>, b: seq<T>)
    requires Distinct(a) && Distinct(b)
    requires forall x :: x in a <==> x in b
    ensures multiset(a) == multiset(b)
    decreases |a|
  {
    if a == [] {
      DistinctCardinality(b);
      assert (set x | x in b) == {};
    } else {
      var x := a[|a| - 1];
      assert x in b;
      var k :| 0 <= k < |b| && b[k] == x;
      var a' := a[..|a| - 1] + a[|a|..];
      var b' := b[..k] + b[k + 1..];
      DistinctRemove(a, |a| - 1);
      DistinctRemove(b, k);
      forall y
        ensures y in a' <==> y in b'
      {
        assert y in a' <==> y in a && y != x;
        assert y in b' <==> y in b && y != x;
      }
      DistinctSameElements(a', b');
      MultisetSplit(a, |a| - 1);
      MultisetSplit(b, k);
    }
  }

  /** A duplicate-free sequence has as many elements as its set. */
  lemma {:induction false} DistinctCardinality<T>(s: seq<T>)
    requires Distinct(s)
    ensures |set x | x in s| == |s|
    decreases |s|
  {
    if s != [] {
      var s' := s[..|s| - 1];
      var x := s[|s| - 1];
      DistinctCardinality(s');
      assert (set y | y in s) == (set y | y in s') + {x};
    }
  }
}
