/** backend/pkg/deque/deque.go: a growing and shrinking circular buffer. */
module Deques {
  import opened Wrappers
  import opened Circular

  // ----- The sizes alone: what each operation does to the length and the capacity -----

  datatype Shape = Shape(n: nat, cap: nat)

  datatype Op = Push | PushBack | Pop | PopBack | Flush

  function GrownCap(cap: nat): nat {
    if cap == 0 then 1 else 2 * cap
  }

  function ShrunkCap(s: Shape): nat {
    if s.n > 0 then s.cap / 2 else 0
  }

  predicate MustGrow(s: Shape) {
    s.n == s.cap
  }

  predicate MustShrink(s: Shape) {
    3 * s.n <= s.cap
  }

  function Resize(op: Op, s: Shape): Shape
    requires s.n <= s.cap
  {
    match op
    case Push | PushBack => Shape(s.n + 1, if MustGrow(s) then GrownCap(s.cap) else s.cap)
    case Pop | PopBack =>
      if s.n == 0 then s else
      var popped := Shape(s.n - 1, s.cap);
      Shape(popped.n, if MustShrink(popped) then ShrunkCap(popped) else popped.cap)
    case Flush => Shape(0, s.cap)
  }

  // The number of elements realloc copies during one operation.
  function Copies(op: Op, s: Shape): nat
    requires s.n <= s.cap
  {
    match op
    case Push | PushBack => if MustGrow(s) then s.n else 0
    case Pop | PopBack => if s.n > 0 && MustShrink(Shape(s.n - 1, s.cap)) then s.n - 1 else 0
    case Flush => 0
  }

  // No operation ever leaves a buffer too small for its elements.
  lemma ResizeHoldsElements(op: Op, s: Shape)
    requires s.n <= s.cap
    ensures Resize(op, s).n <= Resize(op, s).cap
  {
  }

  function ShapeAfter(s: Shape, ops: seq<Op>): (r: Shape)
    requires s.n <= s.cap
    ensures r.n <= r.cap
    decreases |ops|
  {
    if ops == [] then s else
    ResizeHoldsElements(ops[0], s);
    ShapeAfter(Resize(ops[0], s), ops[1..])
  }

  function TotalCopies(s: Shape, ops: seq<Op>): nat
    requires s.n <= s.cap
    decreases |ops|
  {
    if ops == [] then 0 else
    ResizeHoldsElements(ops[0], s);
    Copies(ops[0], s) + TotalCopies(Resize(ops[0], s), ops[1..])
  }

  function Abs(x: int): nat {
    if x < 0 then -x else x
  }

  // Credit stored in a buffer: how far it is from half full, plus the elements it holds.
  function Potential(s: Shape): nat {
    2 * Abs(2 * s.n - s.cap) + 4 * s.n
  }

  lemma OneOperationPaysForItself(op: Op, s: Shape)
    requires s.n <= s.cap
    ensures Copies(op, s) + Potential(Resize(op, s)) <= Potential(s) + 8
  {
  }

  lemma {:induction false} RunPaysForItself(s: Shape, ops: seq<Op>)
    requires s.n <= s.cap
    ensures TotalCopies(s, ops) + Potential(ShapeAfter(s, ops)) <= Potential(s) + 8 * |ops|
    decreases |ops|
  {
    if ops == [] {
    } else {
      ResizeHoldsElements(ops[0], s);
      OneOperationPaysForItself(ops[0], s);
      RunPaysForItself(Resize(ops[0], s), ops[1..]);
    }
  }

  // Amortised bound: m operations on New(size) copy at most 8m + 2*size elements in all.
  lemma AmortizedCopies(size: nat, ops: seq<Op>)
    ensures TotalCopies(Shape(0, size), ops) <= 8 * |ops| + 2 * size
  {
    RunPaysForItself(Shape(0, size), ops);
  }

  // A buffer that starts empty and is never flushed stays more than a third full, or has no memory at all.
  ghost predicate Tight(s: Shape) {
    s.n <= s.cap && (s.cap < 3 * s.n || s.cap == 0)
  }

  lemma {:induction false} NeverFlushedStaysTight(s: Shape, ops: seq<Op>)
    requires Tight(s) && Flush !in ops
    ensures Tight(ShapeAfter(s, ops))
    decreases |ops|
  {
    if ops == [] {
    } else {
      ResizeHoldsElements(ops[0], s);
      NeverFlushedStaysTight(Resize(ops[0], s), ops[1..]);
    }
  }

  predicate IsPowerOfTwo(c: nat) {
    c == 1 || (c > 0 && c % 2 == 0 && IsPowerOfTwo(c / 2))
  }

  predicate AllPushes(ops: seq<Op>) {
    forall i :: 0 <= i < |ops| ==> ops[i].Push? || ops[i].PushBack?
  }

  predicate AllPops(ops: seq<Op>) {
    forall i :: 0 <= i < |ops| ==> ops[i].Pop? || ops[i].PopBack?
  }

  lemma {:induction false} PushesDouble(s: Shape, ops: seq<Op>)
    requires 0 < s.n <= s.cap < 2 * s.n && IsPowerOfTwo(s.cap) && AllPushes(ops)
    ensures var s' := ShapeAfter(s, ops);
            && s'.n == s.n + |ops| && s'.n <= s'.cap < 2 * s'.n && IsPowerOfTwo(s'.cap)
            && TotalCopies(s, ops) == s'.cap - s.cap
    decreases |ops|
  {
    if ops == [] {
    } else {
      ResizeHoldsElements(ops[0], s);
      PushesDouble(Resize(ops[0], s), ops[1..]);
    }
  }

  // m elements pushed into a deque without memory lie in the least power of two that holds them, and getting there
  // has copied one element less than that.
  lemma GrowsByDoubling(ops: seq<Op>)
    requires ops != [] && AllPushes(ops)
    ensures var s := ShapeAfter(Shape(0, 0), ops);
            && s.n == |ops| && s.n <= s.cap < 2 * s.n && IsPowerOfTwo(s.cap)
            && TotalCopies(Shape(0, 0), ops) == s.cap - 1
  {
    PushesDouble(Shape(1, 1), ops[1..]);
  }

  // The capacity halved until less than three times k.
  function Drained(cap: nat, k: nat): nat
    requires k > 0
  {
    if 3 * k <= cap then Drained(cap / 2, k) else cap
  }

  // Popping down to k elements halves the capacity just as often as it takes for them to fill more than a third.
  lemma {:induction false} DrainsByHalving(s: Shape, ops: seq<Op>)
    requires s.n <= s.cap < 3 * s.n && AllPops(ops) && |ops| < s.n
    ensures ShapeAfter(s, ops) == Shape(s.n - |ops|, Drained(s.cap, s.n - |ops|))
    decreases |ops|
  {
    if ops == [] {
    } else {
      ResizeHoldsElements(ops[0], s);
      DrainsByHalving(Resize(ops[0], s), ops[1..]);
    }
  }

  // ----- The buffer itself -----

  class Deque<T(0)> {
    var start: nat
    var n: nat
    var data: array<T>
    ghost var copied: nat  // elements moved by Realloc since construction

    ghost predicate Valid()
      reads this, data
    {
      InRange(start, n, data.Length)
    }

    ghost function Contents(): (s: seq<T>)
      requires Valid()
      reads this, data
      ensures |s| == n
    {
      Window(data[..], start, n)
    }

    ghost function Sizes(): Shape
      reads this, data
    {
      Shape(n, data.Length)
    }

    constructor (size: nat)
      ensures Valid() && fresh(data) && Contents() == []
      ensures Sizes() == Shape(0, size) && copied == 0
    {
      start, n, copied := 0, 0, 0;
      data := new T[size];
    }

    method Get(i: nat) returns (e: Option<T>)
      requires Valid()
      ensures e == if i < |Contents()| then Some(Contents()[i]) else None
    {
      if i >= n {
        return None;
      }
      return Some(data[Slot(start, i, data.Length)]);
    }

    method Peek() returns (e: Option<T>)
      requires Valid()
      ensures e == if Contents() == [] then None else Some(Contents()[n - 1])
    {
      if n == 0 {
        return None;
      }
      return Some(data[Slot(start, n - 1, data.Length)]);
    }

    method PeekBack() returns (e: Option<T>)
      requires Valid()
      ensures e == if Contents() == [] then None else Some(Contents()[0])
    {
      if n == 0 {
        return None;
      }
      return Some(data[start]);
    }

    method Pop() returns (e: Option<T>)
      requires Valid()
      modifies this, data
      ensures Valid() && (data == old(data) || fresh(data))
      ensures old(Contents()) == [] ==> e == None && Contents() == []
      ensures old(Contents()) != [] ==>
                e.Some? && Contents() + [e.value] == old(Contents())
      ensures Sizes() == Resize(Op.Pop, old(Sizes()))
      ensures copied == old(copied) + Copies(Op.Pop, old(Sizes()))
    {
      if n == 0 {
        return None;
      }
      WindowDropLast(data[..], start, n);
      e := Some(data[Slot(start, n - 1, data.Length)]);
      n := n - 1;
      CheckShrink();
    }

    method Push(e: T)
      requires Valid()
      modifies this, data
      ensures Valid() && if MustGrow(old(Sizes())) then fresh(data) else data == old(data)
      ensures Contents() == old(Contents()) + [e]
      ensures Sizes() == Resize(Op.Push, old(Sizes()))
      ensures copied == old(copied) + Copies(Op.Push, old(Sizes()))
    {
      CheckGrow();
      ghost var before := data[..];
      var i := Slot(start, n, data.Length);
      data[i] := e;
      n := n + 1;
      assert Window(data[..], start, n) == Window(before, start, n - 1) + [e] by {
        assert data[..] == before[i := e];
        WindowAppend(before, start, n - 1, e);
      }
    }

    method PopBack() returns (e: Option<T>)
      requires Valid()
      modifies this, data
      ensures Valid() && (data == old(data) || fresh(data))
      ensures old(Contents()) == [] ==> e == None && Contents() == []
      ensures old(Contents()) != [] ==>
                e.Some? && [e.value] + Contents() == old(Contents())
      ensures Sizes() == Resize(Op.PopBack, old(Sizes()))
      ensures copied == old(copied) + Copies(Op.PopBack, old(Sizes()))
    {
      if n == 0 {
        return None;
      }
      WindowDropFirst(data[..], start, n);
      e := Some(data[start]);
      start := Slot(start, 1, data.Length);
      n := n - 1;
      CheckShrink();
    }

    method PushBack(e: T)
      requires Valid()
      modifies this, data
      ensures Valid() && if MustGrow(old(Sizes())) then fresh(data) else data == old(data)
      ensures Contents() == [e] + old(Contents())
      ensures Sizes() == Resize(Op.PushBack, old(Sizes()))
      ensures copied == old(copied) + Copies(Op.PushBack, old(Sizes()))
    {
      CheckGrow();
      var l := data.Length;
      ghost var before, was := data[..], start;
      var i := Slot(start, l - 1, l);
      start := i;
      data[i] := e;
      n := n + 1;
      WroteBefore(before, was, data[..], i, n - 1, e);
    }

    method Size() returns (size: nat)
      requires Valid()
      ensures size == |Contents()|
    {
      return n;
    }

    method Slice() returns (s: seq<T>)
      requires Valid()
      ensures s == Contents()
    {
      s := [];
      for i := 0 to n
        invariant s == Contents()[..i]
      {
        var e := Get(i);
        s := s + [e.value];
      }
    }

    method Flush()
      requires Valid()
      modifies this
      ensures Valid() && data == old(data) && Contents() == []
      ensures Sizes() == Resize(Op.Flush, old(Sizes())) && copied == old(copied)
    {
      start, n := 0, 0;
    }

    method CheckGrow()
      requires Valid()
      modifies this
      ensures Valid() && Contents() == old(Contents())
      ensures if MustGrow(old(Sizes())) then fresh(data) else data == old(data)
      ensures data.Length == if MustGrow(old(Sizes())) then GrownCap(old(data.Length)) else old(data.Length)
      ensures copied == old(copied) + if MustGrow(old(Sizes())) then n else 0
    {
      if n == data.Length {
        Grow();
      }
    }

    method CheckShrink()
      requires Valid()
      modifies this
      ensures Valid() && Contents() == old(Contents())
      ensures if MustShrink(old(Sizes())) then fresh(data) else data == old(data)
      ensures data.Length == if MustShrink(old(Sizes())) then ShrunkCap(old(Sizes())) else old(data.Length)
      ensures copied == old(copied) + if MustShrink(old(Sizes())) then n else 0
    {
      if 3 * n <= data.Length {
        Shrink();
      }
    }

    method Grow()
      requires Valid()
      modifies this
      ensures Valid() && Contents() == old(Contents()) && fresh(data)
      ensures data.Length == GrownCap(old(data.Length))
      ensures copied == old(copied) + n
    {
      var twice := 2 * data.Length;
      if twice == 0 {
        twice := 1;
      }
      Realloc(twice);
    }

    method Shrink()
      requires Valid() && MustShrink(Sizes())
      modifies this
      ensures Valid() && Contents() == old(Contents()) && fresh(data)
      ensures data.Length == ShrunkCap(old(Sizes()))
      ensures copied == old(copied) + n
    {
      var newcap := 0;
      if n > 0 {
        newcap := data.Length / 2;
      }
      Realloc(newcap);
    }

    method Realloc(newcap: nat)
      requires Valid() && n <= newcap
      modifies this
      ensures Valid() && Contents() == old(Contents()) && fresh(data)
      ensures data.Length == newcap && start == 0
      ensures copied == old(copied) + n
    {
      var newmem := new T[newcap];
      for i := 0 to n
        invariant Valid() && unchanged(`start, `n, `data)
        invariant copied == old(copied) + i
        invariant newmem[..i] == Contents()[..i]
      {
        newmem[i] := data[Slot(start, i, data.Length)];
        copied := copied + 1;
      }
      start := 0;
      data := newmem;
    }
  }
}
