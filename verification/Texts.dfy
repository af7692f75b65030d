/** Splitting and ordering strings, and writing numbers in decimal. */
module Texts {

  lemma Cut<T>(a: seq<T>, b: seq<T>)
    ensures (a + b)[..|a|] == a && (a + b)[|a|..] == b
  {
  }

  function FirstIndex(s: string, c: char): (i: nat)
    ensures i <= |s|
  {
    if s == [] || s[0] == c then 0 else 1 + FirstIndex(s[1..], c)
  }

  lemma {:induction false} FirstIndexEnds(a: string, b: string, c: char)
    requires c !in a && (b == [] || b[0] == c)
    ensures FirstIndex(a + b, c) == |a|
  {
    if a == [] {
      assert a + b == b;
    } else {
      FirstIndexEnds(a[1..], b, c);
      assert (a + b)[1..] == a[1..] + b;
    }
  }

  function LastIndex(s: string, c: char): (i: int)
    ensures -1 <= i < |s|
  {
    if s == [] then -1 else if s[|s| - 1] == c then |s| - 1 else LastIndex(s[..|s| - 1], c)
  }

  lemma {:induction false} LastIndexStarts(a: string, b: string, c: char)
    requires c !in b
    ensures LastIndex(a + [c] + b, c) == |a|
    decreases |b|
  {
    if b == [] {
      assert a + [c] + b == a + [c];
    } else {
      LastIndexStarts(a, b[..|b| - 1], c);
      assert (a + [c] + b)[..|a + [c] + b| - 1] == a + [c] + b[..|b| - 1];
    }
  }

  // A text is cut in one way only at the first c ...
  lemma CutAtFirst(a: string, b: string, a': string, b': string, c: char)
    requires a + b == a' + b' && c !in a && c !in a'
    requires (b == [] || b[0] == c) && (b' == [] || b'[0] == c)
    ensures a == a' && b == b'
  {
    FirstIndexEnds(a, b, c);
    FirstIndexEnds(a', b', c);
    Cut(a, b);
    Cut(a', b');
  }

  // ... and in one way only at the last.
  lemma CutAtLast(a: string, b: string, a': string, b': string, c: char)
    requires a + [c] + b == a' + [c] + b' && c !in b && c !in b'
    ensures a == a' && b == b'
  {
    LastIndexStarts(a, b, c);
    LastIndexStarts(a', b', c);
    Cut(a + [c], b);
    Cut(a' + [c], b');
    assert (a + [c])[..|a|] == a && (a' + [c])[..|a'|] == a';
  }

  // ----- Decimal numbers -----

  function Digit(d: nat): char
    requires d < 10
  {
    "0123456789"[d]
  }

  function Decimal(n: nat): (s: string)
    ensures s != [] && (n > 0 ==> s != "0")
    ensures forall i :: 0 <= i < |s| ==> '0' <= s[i] <= '9'
  {
    if n < 10 then [Digit(n)] else Decimal(n / 10) + [Digit(n % 10)]
  }

  function Value(s: string): int {
    if s == [] then 0 else 10 * Value(s[..|s| - 1]) + (s[|s| - 1] as int - '0' as int)
  }

  lemma DigitValue(d: nat)
    requires d < 10
    ensures Digit(d) as int - '0' as int == d && Value([Digit(d)]) == d
  {
    assert [Digit(d)][..0] == [];
  }

  lemma {:induction false} ValueOfDecimal(n: nat)
    ensures Value(Decimal(n)) == n
  {
    if n < 10 {
      DigitValue(n);
    } else {
      DigitValue(n % 10);
      ValueOfDecimal(n / 10);
      assert Decimal(n)[..|Decimal(n)| - 1] == Decimal(n / 10);
    }
  }

  // The numerals of the positive numbers: digits without a leading zero.
  predicate IsNumeral(s: string) {
    s != [] && s[0] != '0' && forall i :: 0 <= i < |s| ==> '0' <= s[i] <= '9'
  }

  lemma {:induction false} DecimalIsNumeral(n: nat)
    requires n > 0
    ensures IsNumeral(Decimal(n))
  {
    if n < 10 {
    } else {
      DecimalIsNumeral(n / 10);
      assert Decimal(n)[0] == Decimal(n / 10)[0];
    }
  }

  lemma {:induction false} DecimalOfValue(s: string)
    requires IsNumeral(s)
    ensures Value(s) > 0 && Decimal(Value(s)) == s
  {
    var t, d := s[..|s| - 1], s[|s| - 1] as int - '0' as int;
    assert s == t + [Digit(d)];
    if t == [] {
      assert Value(t) == 0;
    } else {
      DecimalOfValue(t);
      assert Value(s) / 10 == Value(t) && Value(s) % 10 == d;
    }
  }

  // ----- The order of strings, and sorting -----

  predicate AtMost(a: string, b: string) {
    a == [] || (b != [] && (a[0] < b[0] || (a[0] == b[0] && AtMost(a[1..], b[1..]))))
  }

  lemma {:induction false} AtMostIsTotal(a: string, b: string)
    ensures AtMost(a, b) || AtMost(b, a)
    ensures AtMost(a, b) && AtMost(b, a) ==> a == b
  {
    if a == [] || b == [] {
    } else {
      AtMostIsTotal(a[1..], b[1..]);
      assert a == [a[0]] + a[1..] && b == [b[0]] + b[1..];
    }
  }

  lemma {:induction false} AtMostIsTransitive(a: string, b: string, c: string)
    requires AtMost(a, b) && AtMost(b, c)
    ensures AtMost(a, c)
  {
    if a == [] || b == [] || c == [] || a[0] != b[0] || b[0] != c[0] {
    } else {
      AtMostIsTransitive(a[1..], b[1..], c[1..]);
    }
  }

  ghost predicate IsSorted(s: seq<string>) {
    s != [] ==> (forall x :: x in s[1..] ==> AtMost(s[0], x)) && IsSorted(s[1..])
  }

  function Inserted(x: string, s: seq<string>): seq<string> {
    if s == [] || AtMost(x, s[0]) then [x] + s else [s[0]] + Inserted(x, s[1..])
  }

  function Sorted(s: seq<string>): seq<string> {
    if s == [] then [] else Inserted(s[0], Sorted(s[1..]))
  }

  lemma AtMostAll(x: string, s: seq<string>)
    requires s != [] && IsSorted(s) && AtMost(x, s[0])
    ensures forall y :: y in s ==> AtMost(x, y)
  {
    forall y | y in s
      ensures AtMost(x, y)
    {
      if y in s[1..] {
        AtMostIsTransitive(x, s[0], y);
      }
    }
  }

  lemma ConsIsSorted(x: string, s: seq<string>)
    requires IsSorted(s) && forall y :: y in s ==> AtMost(x, y)
    ensures IsSorted([x] + s) && multiset([x] + s) == multiset(s) + multiset{x}
  {
    assert ([x] + s)[1..] == s;
  }

  lemma {:induction false} InsertedKeeps(x: string, s: seq<string>)
    requires IsSorted(s)
    ensures multiset(Inserted(x, s)) == multiset(s) + multiset{x}
    ensures IsSorted(Inserted(x, s))
  {
    if s == [] {
    } else if AtMost(x, s[0]) {
      AtMostAll(x, s);
      ConsIsSorted(x, s);
    } else {
      var t := Inserted(x, s[1..]);
      assert s == [s[0]] + s[1..];
      InsertedKeeps(x, s[1..]);
      forall y | y in t
        ensures AtMost(s[0], y)
      {
        AtMostIsTotal(x, s[0]);
        assert y in multiset(t);
      }
      ConsIsSorted(s[0], t);
    }
  }

  lemma {:induction false} SortedIsSortedPermutation(s: seq<string>)
    ensures multiset(Sorted(s)) == multiset(s) && IsSorted(Sorted(s))
  {
    if s == [] {
    } else {
      SortedIsSortedPermutation(s[1..]);
      InsertedKeeps(s[0], Sorted(s[1..]));
      TailMultiset(s);
    }
  }

  lemma HeadIsLeast(a: seq<string>, x: string)
    requires IsSorted(a) && a != [] && x in multiset(a)
    ensures AtMost(a[0], x)
  {
    AtMostIsTotal(a[0], a[0]);
    assert x in a;
  }

  lemma SameMembersSameHead(a: seq<string>, b: seq<string>)
    requires IsSorted(a) && IsSorted(b) && multiset(a) == multiset(b) && a != [] && b != []
    ensures a[0] == b[0]
  {
    assert a[0] in multiset(a) && b[0] in multiset(b);
    HeadIsLeast(a, b[0]);
    HeadIsLeast(b, a[0]);
    AtMostIsTotal(a[0], b[0]);
  }

  lemma TailMultiset(a: seq<string>)
    requires a != []
    ensures multiset(a[1..]) == multiset(a) - multiset{a[0]}
  {
    assert a == [a[0]] + a[1..];
  }

  // There is only one way to sort a multiset.
  lemma {:induction false} SortedIsUnique(a: seq<string>, b: seq<string>)
    requires IsSorted(a) && IsSorted(b) && multiset(a) == multiset(b)
    ensures a == b
  {
    assert |a| == |multiset(a)| && |b| == |multiset(b)|;
    if a == [] {
    } else {
      SameMembersSameHead(a, b);
      TailMultiset(a);
      TailMultiset(b);
      SortedIsUnique(a[1..], b[1..]);
      assert a == [a[0]] + a[1..] && b == [b[0]] + b[1..];
    }
  }

  lemma SortedAgreeIffSameMultiset(a: seq<string>, b: seq<string>)
    ensures Sorted(a) == Sorted(b) <==> multiset(a) == multiset(b)
  {
    SortedIsSortedPermutation(a);
    SortedIsSortedPermutation(b);
    if multiset(a) == multiset(b) {
      SortedIsUnique(Sorted(a), Sorted(b));
    }
  }
}
