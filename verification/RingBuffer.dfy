/** backend/pkg/ring_buffer/ring_buffer.go, used by one goroutine at a time. */
module RingBuffers {
  import opened Wrappers
  import opened Circular

  // ----- What a push does to the contents, and what many pushes leave -----

  ghost function Pushed<T>(contents: seq<T>, capacity: nat, e: T): seq<T>
    requires |contents| <= capacity
  {
    if capacity == 0 then [] else
    if |contents| == capacity then contents[1..] + [e] else contents + [e]
  }

  ghost function PushedAll<T>(contents: seq<T>, capacity: nat, es: seq<T>): (r: seq<T>)
    requires |contents| <= capacity
    ensures |r| <= capacity
    decreases |es|
  {
    if es == [] then contents else PushedAll(Pushed(contents, capacity, es[0]), capacity, es[1..])
  }

  ghost function Newest<T>(es: seq<T>, count: nat): seq<T> {
    if |es| <= count then es else es[|es| - count..]
  }

  lemma NewestAfterPush<T>(contents: seq<T>, capacity: nat, e: T, rest: seq<T>)
    requires |contents| <= capacity
    ensures Newest(Pushed(contents, capacity, e) + rest, capacity) == Newest(contents + ([e] + rest), capacity)
  {
    if |contents| < capacity {
      assert contents + ([e] + rest) == Pushed(contents, capacity, e) + rest;
    } else if capacity > 0 {
      assert (contents + ([e] + rest))[1..] == Pushed(contents, capacity, e) + rest;
    }
  }

  // However many elements are pushed, the buffer holds exactly the newest ones that fit.
  lemma {:induction false} PushesKeepNewest<T>(contents: seq<T>, capacity: nat, es: seq<T>)
    requires |contents| <= capacity
    ensures PushedAll(contents, capacity, es) == Newest(contents + es, capacity)
    decreases |es|
  {
    if es == [] {
      assert contents + es == contents;
    } else {
      var pushed := Pushed(contents, capacity, es[0]);
      PushesKeepNewest(pushed, capacity, es[1..]);
      NewestAfterPush(contents, capacity, es[0], es[1..]);
      assert es == [es[0]] + es[1..];
    }
  }

  // The elements an iteration visits: up to and including the first one the callback stops at.
  ghost function Visited<T>(s: seq<T>, stop: T -> bool): seq<T> {
    if s == [] then [] else if stop(s[0]) then [s[0]] else [s[0]] + Visited(s[1..], stop)
  }

  lemma {:induction false} VisitedStep<T>(s: seq<T>, stop: T -> bool, i: nat)
    requires i < |s|
    requires forall j :: 0 <= j < i ==> !stop(s[j])
    ensures stop(s[i]) ==> Visited(s, stop) == s[..i + 1]
    ensures !stop(s[i]) && i + 1 == |s| ==> Visited(s, stop) == s
  {
    if i == 0 {
    } else {
      VisitedStep(s[1..], stop, i - 1);
      assert stop(s[i]) ==> s[..i + 1] == [s[0]] + s[1..][..i];
    }
  }

  ghost function Reversed<T>(s: seq<T>): (r: seq<T>)
    ensures |r| == |s|
    ensures forall i :: 0 <= i < |s| ==> r[i] == s[|s| - 1 - i]
  {
    seq(|s|, i requires 0 <= i < |s| => s[|s| - 1 - i])
  }

  class RingBuffer<T(0)> {
    const buffer: array<T>
    var start: nat
    var n: nat

    ghost predicate Valid()
      reads this, buffer
    {
      InRange(start, n, buffer.Length)
    }

    ghost function Contents(): (s: seq<T>)
      requires Valid()
      reads this, buffer
      ensures |s| == n
    {
      Window(buffer[..], start, n)
    }

    constructor (capacity: nat)
      ensures Valid() && fresh(buffer) && buffer.Length == capacity && Contents() == []
    {
      buffer := new T[capacity];
      start, n := 0, 0;
    }

    method Push(elem: T)
      requires Valid()
      modifies this, buffer
      ensures Valid() && Contents() == Pushed(old(Contents()), buffer.Length, elem)
    {
      var slot := GetPushPointer();
      match slot
      case None =>
      case Some(i) =>
        ghost var updated := buffer[..][i := elem];
        buffer[i] := elem;
        assert buffer[..] == updated;
    }

    // The slot the next element goes to, already counted in: writing it completes the push.
    method GetPushPointer() returns (slot: Option<nat>)
      requires Valid()
      modifies this
      ensures Valid() && (slot == None <==> buffer.Length == 0)
      ensures slot == None ==> Contents() == old(Contents()) == []
      ensures slot.Some? ==>
                && slot.value < buffer.Length
                && forall e ::
                     Window(buffer[..][slot.value := e], start, n) == Pushed(old(Contents()), buffer.Length, e)
    {
      var c := buffer.Length;
      if c == 0 {
        return None;
      }
      var pushIdx := Slot(start, n, c);
      forall e
        ensures if n == c
                then Window(buffer[..][pushIdx := e], Slot(start, 1, c), n) == Pushed(Contents(), c, e)
                else Window(buffer[..][pushIdx := e], start, n + 1) == Pushed(Contents(), c, e)
      {
        if n == c {
          WindowRotate(buffer[..], start, e);
        } else {
          WindowAppend(buffer[..], start, n, e);
        }
      }
      if n == c {
        start := Slot(start, 1, c);
      } else {
        n := n + 1;
      }
      return Some(pushIdx);
    }

    method Pop() returns (e: Option<T>)
      requires Valid()
      modifies this
      ensures Valid()
      ensures old(Contents()) == [] ==> e == None && Contents() == []
      ensures old(Contents()) != [] ==> e.Some? && Contents() + [e.value] == old(Contents())
    {
      if n == 0 {
        return None;
      }
      WindowDropLast(buffer[..], start, n);
      var ridx := Slot(start, n - 1, buffer.Length);
      n := n - 1;
      return Some(buffer[ridx]);
    }

    // An index is taken round the whole buffer, from its first element: at or past the length,
    // or below zero, it is a slot outside the contents unless the buffer is full.
    method Get(idx: int) returns (e: Option<T>)
      requires Valid()
      ensures Contents() == [] ==> e == None
      ensures Contents() != [] ==> e == Some(buffer[(start + idx) % buffer.Length])
      ensures 0 <= idx < |Contents()| ==> e == Some(Contents()[idx])
    {
      var c := buffer.Length;
      if c == 0 || n == 0 {
        return None;
      }
      var i := idx;
      while i < 0
        invariant (start + i) % c == (start + idx) % c
        invariant idx >= 0 ==> i == idx
        decreases -i
      {
        AddPeriod(start + i, c);
        i := i + c;
      }
      assert 0 <= idx < n ==> (start + idx) % c == Slot(start, idx, c);
      return Some(buffer[(start + i) % c]);
    }

    method GetFirst() returns (e: Option<T>)
      requires Valid()
      ensures e == if Contents() == [] then None else Some(Contents()[0])
    {
      e := Get(0);
    }

    method GetLast() returns (e: Option<T>)
      requires Valid()
      ensures e == if Contents() == [] then None else Some(Contents()[n - 1])
    {
      if buffer.Length == 0 || n == 0 {
        return None;
      }
      return Some(buffer[Slot(start, n - 1, buffer.Length)]);
    }

    method Iterate(stop: T -> bool) returns (visited: seq<T>)
      requires Valid()
      ensures visited == Visited(Contents(), stop)
    {
      visited := [];
      if n == 0 {
        return;
      }
      var i := 0;
      while i < n
        invariant 0 <= i <= n && visited == Contents()[..i]
        invariant forall j :: 0 <= j < i ==> !stop(Contents()[j])
        invariant i == n ==> Visited(Contents(), stop) == visited
      {
        var e := Get(i);
        VisitedStep(Contents(), stop, i);
        visited := visited + [e.value];
        if stop(e.value) {
          break;
        }
        i := i + 1;
      }
    }

    // Newest first.
    method ReverseIterate(stop: T -> bool) returns (visited: seq<T>)
      requires Valid()
      ensures visited == Visited(Reversed(Contents()), stop)
    {
      visited := [];
      if buffer.Length == 0 || n == 0 {
        return;
      }
      var c := buffer.Length;
      ghost var rev := Reversed(Contents());
      var idx := Slot(start, n - 1, c);
      ghost var i := 0;
      while true
        invariant 0 <= i < n && idx == Slot(start, n - 1 - i, c)
        invariant visited == rev[..i]
        invariant forall j :: 0 <= j < i ==> !stop(rev[j])
        decreases n - i
      {
        var e := buffer[idx];
        assert e == rev[i];
        VisitedStep(rev, stop, i);
        visited := visited + [e];
        assert visited == rev[..i + 1];
        if stop(e) {
          return;
        }
        if i + 1 < n {
          StepBack(start, n - 1 - i, c);
        }
        if idx == start {
          return;
        }
        idx := Slot(idx, c - 1, c);
        i := i + 1;
      }
    }

    method Size() returns (size: nat)
      requires Valid()
      ensures size == |Contents()|
    {
      return n;
    }
  }
}
