/**
 Text: the order strings are sorted by, and decimal numerals.
 */
module Strings {
  import opened Wrappers

  // ----- lexicographic order by code point -----

  predicate Less(a: string, b: string) {
    if b == [] then false
    else if a == [] then true
    else a[0] < b[0] || (a[0] == b[0] && Less(a[1..], b[1..]))
  }

  lemma LessIrreflexive(a: string)
    ensures !Less(a, a)
  {
  }

  lemma LessTransitive(a: string, b: string, c: string)
    requires Less(a, b) && Less(b, c)
    ensures Less(a, c)
  {
  }

  lemma LessTotal(a: string, b: string)
    ensures a == b || Less(a, b) || Less(b, a)
  {
    if a != [] && b != [] && a[0] == b[0] {
      LessTotal(a[1..], b[1..]);
      if a[1..] == b[1..] { assert a == [a[0]] + a[1..] && b == [b[0]] + b[1..]; }
    }
  }

  /** Strictly increasing in a key. */
  ghost predicate SortedBy<T(!new)>(key: T -> string, s: seq<T>) {
    forall i, j | 0 <= i < j < |s| :: Less(key(s[i]), key(s[j]))
  }

  ghost predicate SameElements<T(!new)>(a: seq<T>, b: seq<T>) {
    forall x :: x in a <==> x in b
  }

  lemma TailKeeps<T(!new)>(key: T -> string, a: seq<T>, b: seq<T>, x: T)
    requires a != [] && b != [] && a[0] == b[0] && SortedBy(key, a) && SameElements(a, b) && x in a[1..]
    ensures x in b[1..]
  {
    var i :| 0 < i < |a| && a[i] == x;
    assert x in a;
    LessIrreflexive(key(x));
    assert Less(key(a[0]), key(a[i]));
    var j :| 0 <= j < |b| && b[j] == x;
    assert b[1..][j - 1] == x;
  }

  lemma NonEmptyTogether<T(!new)>(a: seq<T>, b: seq<T>)
    requires SameElements(a, b) && a != []
    ensures b != []
  {
    assert a[0] in a;
    assert a[0] in b;
  }

  /** A strictly sorted list is determined by what is in it. */
  lemma {:induction false} SortedDetermined<T(!new)>(key: T -> string, a: seq<T>, b: seq<T>)
    requires SortedBy(key, a) && SortedBy(key, b) && SameElements(a, b)
    ensures a == b
    decreases |a|
  {
    if a != [] { NonEmptyTogether(a, b); }
    if b != [] {
      NonEmptyTogether(b, a);
      assert b[0] in b && a[0] in a;
      var i :| 0 <= i < |b| && b[i] == a[0];
      var j :| 0 <= j < |a| && a[j] == b[0];
      if i > 0 && j > 0 {
        LessTransitive(key(a[0]), key(b[0]), key(a[0]));
        LessIrreflexive(key(a[0]));
      }
      forall x ensures x in a[1..] <==> x in b[1..] {
        if x in a[1..] { TailKeeps(key, a, b, x); }
        if x in b[1..] { TailKeeps(key, b, a, x); }
      }
      SortedDetermined(key, a[1..], b[1..]);
      assert a == [a[0]] + a[1..] && b == [b[0]] + b[1..];
    }
  }

  ghost predicate DistinctBy<T>(key: T -> string, s: seq<T>) {
    forall i, j | 0 <= i < j < |s| :: key(s[i]) != key(s[j])
  }

  method InsertSorted<T(!new)>(key: T -> string, s: seq<T>, x: T) returns (r: seq<T>)
    requires SortedBy(key, s) && forall i | 0 <= i < |s| :: key(s[i]) != key(x)
    ensures SortedBy(key, r) && forall y :: y in r <==> y in s || y == x
  {
    var i := 0;
    while i < |s| && Less(key(s[i]), key(x))
      invariant 0 <= i <= |s|
      invariant forall k | 0 <= k < i :: Less(key(s[k]), key(x))
    {
      i := i + 1;
    }
    r := s[..i] + [x] + s[i..];
    if i < |s| { LessTotal(key(s[i]), key(x)); }
    forall k, l | 0 <= k < l < |r| ensures Less(key(r[k]), key(r[l])) {
      if k == i && l > i + 1 { LessTransitive(key(x), key(s[i]), key(s[l - 1])); }
    }
    forall y ensures y in r <==> y in s || y == x {
      assert s == s[..i] + s[i..];
    }
  }

  method SortDistinct<T(!new)>(key: T -> string, s: seq<T>) returns (r: seq<T>)
    requires DistinctBy(key, s)
    ensures SortedBy(key, r) && SameElements(r, s)
  {
    r := [];
    for i := 0 to |s|
      invariant SortedBy(key, r) && SameElements(r, s[..i])
    {
      forall k | 0 <= k < |r| ensures key(r[k]) != key(s[i]) {
        assert r[k] in r;
        var l :| 0 <= l < i && s[l] == r[k];
      }
      r := InsertSorted(key, r, s[i]);
      assert s[..i + 1] == s[..i] + [s[i]];
    }
    assert s[..|s|] == s;
  }

  function Elements<T>(s: seq<T>): set<T> {
    set x | x in s
  }

  lemma {:induction false} CountSorted<T(!new)>(key: T -> string, s: seq<T>)
    requires SortedBy(key, s)
    ensures |Elements(s)| == |s|
    decreases |s|
  {
    if s != [] {
      var last := |s| - 1;
      CountSorted(key, s[..last]);
      assert Elements(s) == Elements(s[..last]) + {s[last]} by { assert s == s[..last] + [s[last]]; }
      if s[last] in s[..last] {
        var i :| 0 <= i < last && s[i] == s[last];
        LessIrreflexive(key(s[i]));
      }
    }
  }

  function Below<T>(key: T -> string, s: seq<T>, k: string): set<T> {
    set x | x in s && Less(key(x), k)
  }

  /** The position in a sorted list is the number of smaller elements. */
  lemma PositionIsRank<T(!new)>(key: T -> string, s: seq<T>, i: nat)
    requires SortedBy(key, s) && i < |s|
    ensures |Below(key, s, key(s[i]))| == i
  {
    var smaller := Below(key, s, key(s[i]));
    forall x ensures x in smaller <==> x in Elements(s[..i]) {
      if x in smaller {
        var j :| 0 <= j < |s| && s[j] == x;
        if j == i { LessIrreflexive(key(x)); }
        if j > i { LessTransitive(key(x), key(s[i]), key(x)); LessIrreflexive(key(x)); }
        assert s[..i][j] == x;
      }
    }
    CountSorted(key, s[..i]);
    assert smaller == Elements(s[..i]);
  }

  // ----- stable sorting -----

  /** Behind everything not larger. */
  function InsertStable<T>(key: T -> string, s: seq<T>, x: T): seq<T> {
    if s == [] then [x]
    else
      var last := |s| - 1;
      if Less(key(x), key(s[last])) then InsertStable(key, s[..last], x) + [s[last]] else s + [x]
  }

  function SortStable<T>(key: T -> string, s: seq<T>): seq<T> {
    if s == [] then [] else InsertStable(key, SortStable(key, s[..|s| - 1]), s[|s| - 1])
  }

  ghost predicate WeaklySortedBy<T(!new)>(key: T -> string, s: seq<T>) {
    forall i, j | 0 <= i < j < |s| :: !Less(key(s[j]), key(s[i]))
  }

  /** The elements of one key, in order. */
  function OfKey<T>(key: T -> string, s: seq<T>, k: string): seq<T> {
    if s == [] then []
    else OfKey(key, s[..|s| - 1], k) + if key(s[|s| - 1]) == k then [s[|s| - 1]] else []
  }

  lemma {:induction false} InsertedElements<T(!new)>(key: T -> string, s: seq<T>, x: T)
    ensures multiset(InsertStable(key, s, x)) == multiset(s) + multiset{x}
    decreases |s|
  {
    if s != [] {
      var last := |s| - 1;
      assert s == s[..last] + [s[last]];
      InsertedElements(key, s[..last], x);
    }
  }

  lemma {:induction false} InsertedOfKey<T(!new)>(key: T -> string, s: seq<T>, x: T, k: string)
    ensures OfKey(key, InsertStable(key, s, x), k) == OfKey(key, s, k) + if key(x) == k then [x] else []
    decreases |s|
  {
    if s != [] {
      var last := |s| - 1;
      LessIrreflexive(key(x));
      if Less(key(x), key(s[last])) {
        InsertedOfKey(key, s[..last], x, k);
        var inner := InsertStable(key, s[..last], x);
        assert (inner + [s[last]])[..|inner|] == inner;
      } else {
        assert (s + [x])[..|s|] == s;
      }
    } else {
      assert [x][..0] == [];
    }
  }

  lemma LessFlips(a: string, b: string)
    requires Less(a, b)
    ensures !Less(b, a)
  {
    if Less(b, a) { LessTransitive(a, b, a); LessIrreflexive(a); }
  }

  lemma NotLess(a: string, b: string, x: string)
    requires !Less(b, a) && Less(x, a)
    ensures Less(x, b)
  {
    LessTotal(a, b);
    if a != b { LessTransitive(x, a, b); }
  }

  lemma {:induction false} InsertedSorted<T(!new)>(key: T -> string, s: seq<T>, x: T)
    requires WeaklySortedBy(key, s)
    ensures WeaklySortedBy(key, InsertStable(key, s, x))
    decreases |s|
  {
    if s != [] {
      var last := |s| - 1;
      if Less(key(x), key(s[last])) {
        InsertedSorted(key, s[..last], x);
        var inner := InsertStable(key, s[..last], x);
        InsertedElements(key, s[..last], x);
        LessFlips(key(x), key(s[last]));
        forall i | 0 <= i < |inner| ensures !Less(key(s[last]), key(inner[i])) {
          assert inner[i] in multiset(inner);
          assert inner[i] == x || inner[i] in s[..last];
        }
      } else {
        forall i | 0 <= i < |s| ensures !Less(key(x), key(s[i])) {
          if Less(key(x), key(s[i])) { NotLess(key(s[i]), key(s[last]), key(x)); }
        }
      }
    }
  }

  /** Sorted, nothing lost, and elements of one key in their old order. */
  lemma {:induction false} SortedStable<T(!new)>(key: T -> string, s: seq<T>, k: string)
    ensures var r := SortStable(key, s);
            WeaklySortedBy(key, r) && multiset(r) == multiset(s) && OfKey(key, r, k) == OfKey(key, s, k)
    decreases |s|
  {
    if s != [] {
      var last := |s| - 1;
      assert s == s[..last] + [s[last]];
      SortedStable(key, s[..last], k);
      var sorted := SortStable(key, s[..last]);
      InsertedElements(key, sorted, s[last]);
      InsertedOfKey(key, sorted, s[last], k);
      InsertedSorted(key, sorted, s[last]);
    }
  }

  // ----- decimal numerals -----

  const DIGITS := "0123456789"

  predicate IsDigit(c: char) {
    '0' <= c <= '9'
  }

  predicate AllDigits(s: string) {
    forall i | 0 <= i < |s| :: IsDigit(s[i])
  }

  function DigitChar(d: nat): (c: char)
    requires d < 10
    ensures IsDigit(c) && DigitValue(c) == d
  {
    DIGITS[d]
  }

  function DigitValue(c: char): (d: nat)
    requires IsDigit(c)
    ensures d < 10
  {
    c as int - '0' as int
  }

  function Numeral(n: nat): (s: string)
    ensures s != "" && AllDigits(s)
  {
    if n < 10 then [DigitChar(n)] else Numeral(n / 10) + [DigitChar(n % 10)]
  }

  function NumeralValue(s: string): nat
    requires AllDigits(s)
  {
    if s == [] then 0 else 10 * NumeralValue(s[..|s| - 1]) + DigitValue(s[|s| - 1])
  }

  lemma NumeralRoundTrip(n: nat)
    ensures NumeralValue(Numeral(n)) == n
  {
    var s := Numeral(n);
    if n >= 10 {
      assert s[..|s| - 1] == Numeral(n / 10);
      NumeralRoundTrip(n / 10);
    }
  }

  lemma NumeralInjective(m: nat, n: nat)
    requires Numeral(m) == Numeral(n)
    ensures m == n
  {
    NumeralRoundTrip(m);
    NumeralRoundTrip(n);
  }

  // ----- names with an ordinal -----

  /** The first holder of a name keeps it; the others get 2, 3, … */
  function Ordinal(rank: nat): string {
    if rank == 0 then "" else Numeral(rank + 1)
  }

  /** `b` is `a` and then digits. */
  predicate ExtendsByDigits(a: string, b: string) {
    |a| < |b| && b[..|a|] == a && AllDigits(b[|a|..])
  }

  lemma OrdinalDigits(k: nat)
    ensures AllDigits(Ordinal(k))
  {
  }

  lemma OrdinalInjective(j: nat, k: nat)
    requires Ordinal(j) == Ordinal(k)
    ensures j == k
  {
    if j > 0 && k > 0 { NumeralInjective(j + 1, k + 1); }
  }

  /** Two names with digits appended are equal only if one extends the other by digits. */
  lemma AppendedDigits(a: string, x: string, b: string, y: string)
    requires AllDigits(x) && AllDigits(y) && a + x == b + y && |a| < |b|
    ensures ExtendsByDigits(a, b)
  {
    assert (b + y)[..|b|] == b;
    assert (a + x)[..|a|] == a;
    forall i | 0 <= i < |b| - |a| ensures IsDigit(b[|a|..][i]) {
      assert (a + x)[|a| + i] == x[i] && (b + y)[|a| + i] == b[|a| + i];
    }
  }

  lemma AppendedEqual(a: string, x: string, b: string, y: string)
    requires AllDigits(x) && AllDigits(y)
    ensures a + x == b + y <==>
      (a == b && x == y) || (ExtendsByDigits(a, b) && x == b[|a|..] + y) || (ExtendsByDigits(b, a) && y == a[|b|..] + x)
  {
    if ExtendsByDigits(a, b) && x == b[|a|..] + y { assert a + (b[|a|..] + y) == b + y; }
    if ExtendsByDigits(b, a) && y == a[|b|..] + x { assert b + (a[|b|..] + x) == a + x; }
    if a + x == b + y {
      assert (a + x)[|a|..] == x && (b + y)[|b|..] == y && (a + x)[..|a|] == a && (b + y)[..|b|] == b;
      if |a| < |b| {
        AppendedDigits(a, x, b, y);
        assert b + y == a + (b[|a|..] + y);
      } else if |b| < |a| {
        AppendedDigits(b, y, a, x);
        assert a + x == b + (a[|b|..] + x);
      }
    }
  }

  /** Texts with a common ending that is not all digits: none is another one and then digits. */
  lemma CommonEnding(a: string, b: string, ending: string)
    requires EndsWith(a, ending) && EndsWith(b, ending) && !AllDigits(ending)
    ensures !ExtendsByDigits(a, b)
  {
    var q := LastNonDigit(ending);
    if |a| < |b| {
      var at := |b| - |ending| + q;
      assert b[at] == b[|b| - |ending|..][q] == ending[q];
      if at >= |a| {
        assert !IsDigit(b[|a|..][at - |a|]);
      } else {
        var r := at - (|a| - |ending|);
        assert a[at] == a[|a| - |ending|..][r] == ending[r];
        assert b[..|a|][at] != a[at];
      }
    }
  }

  predicate EndsWith(s: string, ending: string) {
    |ending| <= |s| && s[|s| - |ending|..] == ending
  }

  lemma LastNonDigit(s: string) returns (q: nat)
    requires !AllDigits(s)
    ensures q < |s| && !IsDigit(s[q]) && forall i | q < i < |s| :: IsDigit(s[i])
  {
    var last := |s| - 1;
    if IsDigit(s[last]) {
      assert !AllDigits(s[..last]);
      q := LastNonDigit(s[..last]);
    } else {
      q := last;
    }
  }

  // ----- lookups -----

  function Entry(m: map<string, string>, u: string): Option<string> {
    if u in m then Some(m[u]) else None
  }
}
