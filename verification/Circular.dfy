/** Reading a fixed-size buffer round its end.
    Shared by the deque and the ring buffer, which both index with (start + i) % capacity. */
module Circular {

  // The quotient of x by c is 0 or 1 as long as x < 2c.
  lemma ModOnce(x: nat, c: nat)
    requires 0 < c && x < 2 * c
    ensures x % c == if x < c then x else x - c
  {
    if x < c {
      assert x / c == 0;
    } else {
      assert x / c == 1;
    }
  }

  lemma SmallMultiple(d: int, c: int)
    requires -c < d * c < c
    ensures d == 0
  {
  }

  // A division with remainder is the division: quotient and remainder are unique.
  lemma DivUnique(x: int, q: int, r: int, c: int)
    requires 0 <= r < c && x == q * c + r
    ensures x % c == r && x / c == q
  {
    assert (q - x / c) * c == x % c - r;
    SmallMultiple(q - x / c, c);
  }

  lemma AddPeriod(x: int, c: int)
    requires 0 < c
    ensures (x + c) % c == x % c
  {
    assert x + c == (x / c + 1) * c + x % c;
    DivUnique(x + c, x / c + 1, x % c, c);
  }

  lemma ModAdd(x: int, i: int, c: int)
    requires 0 < c
    ensures (x % c + i) % c == (x + i) % c
  {
    var y := x % c + i;
    assert x + i == (x / c) * c + (y / c) * c + y % c == (x / c + y / c) * c + y % c;
    DivUnique(x + i, x / c + y / c, y % c, c);
  }

  // The buffer slot that lies i places after start.
  function Slot(start: nat, i: nat, c: nat): (slot: nat)
    requires start < c && i <= c
    ensures slot == if start + i < c then start + i else start + i - c
  {
    ModOnce(start + i, c);
    (start + i) % c
  }

  lemma StepBack(start: nat, i: nat, c: nat)
    requires start < c && 0 < i < c
    ensures Slot(Slot(start, i, c), c - 1, c) == Slot(start, i - 1, c)
    ensures Slot(start, i, c) != start
  {
  }

  ghost predicate InRange(start: nat, n: nat, c: nat) {
    n <= c && (start < c || c == 0)
  }

  // The n elements found from start onwards, wrapping round.
  ghost function Window<T>(s: seq<T>, start: nat, n: nat): (w: seq<T>)
    requires InRange(start, n, |s|)
    ensures |w| == n
    ensures forall i :: 0 <= i < n ==> w[i] == s[Slot(start, i, |s|)]
  {
    seq(n, i requires 0 <= i < n => s[Slot(start, i, |s|)])
  }

  // Writing the slot after the last element appends.
  lemma WindowAppend<T>(s: seq<T>, start: nat, n: nat, e: T)
    requires n < |s| && start < |s|
    ensures Window(s[Slot(start, n, |s|) := e], start, n + 1) == Window(s, start, n) + [e]
  {
  }

  // Writing the slot before start and stepping back prepends.
  lemma WindowPrepend<T>(s: seq<T>, start: nat, n: nat, e: T)
    requires n < |s| && start < |s|
    ensures var back := Slot(start, |s| - 1, |s|);
            Window(s[back := e], back, n + 1) == [e] + Window(s, start, n)
  {
  }

  // The same, for a buffer seen before and after the write.
  lemma WroteBefore<T>(s: seq<T>, start: nat, s': seq<T>, start': nat, n: nat, e: T)
    requires n < |s| && start < |s| && start' == Slot(start, |s| - 1, |s|)
    requires s' == s[start' := e]
    ensures Window(s', start', n + 1) == [e] + Window(s, start, n)
  {
    WindowPrepend(s, start, n, e);
  }

  lemma WindowDropLast<T>(s: seq<T>, start: nat, n: nat)
    requires 0 < n <= |s| && start < |s|
    ensures Window(s, start, n - 1) == Window(s, start, n)[..n - 1]
  {
  }

  lemma WindowDropFirst<T>(s: seq<T>, start: nat, n: nat)
    requires 0 < n <= |s| && start < |s|
    ensures Window(s, Slot(start, 1, |s|), n - 1) == Window(s, start, n)[1..]
  {
  }

  // Overwriting the oldest element of a full buffer drops it and appends the new one.
  lemma WindowRotate<T>(s: seq<T>, start: nat, e: T)
    requires start < |s|
    ensures Window(s[Slot(start, |s|, |s|) := e], Slot(start, 1, |s|), |s|)
         == Window(s, start, |s|)[1..] + [e]
  {
  }
}
