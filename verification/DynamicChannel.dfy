/** backend/pkg/dynamic_channel/channel.go: the state the mutex protects and its lock sections.
    A claim pointer is modelled as the claim's index in the allocation order. */
module DynamicChannels {
  import opened Wrappers
  import opened Deques

  // A `chan struct{}`, used only to meet another goroutine or to be closed.
  datatype Gate = Nil | Open | Closed

  datatype Claim<T> = Claim(datum: Option<T>, ready: Gate, invalid: Gate)

  function BlockingClaim<T>(datum: Option<T>): Claim<T> {
    Claim(datum, Open, Open)
  }

  function NonblockingClaim<T>(d: T): Claim<T> {
    Claim(Some(d), Nil, Nil)
  }

  // supply and demand are in the deque's own order: PushBack adds at index 0, Pop takes the last.
  datatype Shared<T> = Shared(claims: seq<Claim<T>>, supply: seq<nat>, demand: seq<nat>)

  // How a lock section ended: with a claim of the caller's own in the queue,
  // with a claim of the other side taken out of its queue, or empty-handed.
  datatype Turn = Parked(claim: nat) | Matched(claim: nat) | Empty

  // Claims are numbered as they are allocated, so a queue runs from the newest claim to the oldest.
  ghost predicate NewestFirst(q: seq<nat>) {
    forall i, j :: 0 <= i < j < |q| ==> q[i] > q[j]
  }

  ghost predicate WellFormed<T>(s: Shared<T>) {
    && (forall c :: c in s.supply ==> c < |s.claims| && s.claims[c].datum.Some?)
    && (forall c :: c in s.demand ==> c < |s.claims|)
    && NewestFirst(s.supply) && NewestFirst(s.demand)
    && (forall c :: c in s.supply ==> c !in s.demand)
  }

  // What both Enqueue and EnqueueNonblock do while they hold the lock.
  function Offer<T>(s: Shared<T>, d: T, claim: Claim<T>): (Shared<T>, Turn)
    requires forall c :: c in s.demand ==> c < |s.claims|
  {
    if s.demand == [] then
      (s.(claims := s.claims + [claim], supply := [|s.claims|] + s.supply), Parked(|s.claims|))
    else
      var w := s.demand[|s.demand| - 1];
      assert w in s.demand;
      (s.(claims := s.claims[w := s.claims[w].(datum := Some(d))], demand := s.demand[..|s.demand| - 1]),
       Matched(w))
  }

  // What Dequeue (which parks a claim when there is no supply) and DequeueNonblock do under the lock.
  function Take<T>(s: Shared<T>, parks: bool): (Shared<T>, Turn) {
    if s.supply != [] then
      (s.(supply := s.supply[..|s.supply| - 1]), Matched(s.supply[|s.supply| - 1]))
    else if parks then
      (s.(claims := s.claims + [BlockingClaim(None)], demand := [|s.claims|] + s.demand), Parked(|s.claims|))
    else
      (s, Empty)
  }

  // The datum of the i-th oldest claim in the supply queue.
  ghost function Waiting<T>(s: Shared<T>, i: nat): T
    requires WellFormed(s) && i < |s.supply|
  {
    var c := s.supply[|s.supply| - 1 - i];
    assert c in s.supply;
    s.claims[c].datum.value
  }

  // The parked data, oldest first.
  ghost function Pending<T>(s: Shared<T>): (r: seq<T>)
    requires WellFormed(s)
    ensures |r| == |s.supply|
    ensures forall i :: 0 <= i < |r| ==> r[i] == Waiting(s, i)
  {
    seq(|s.supply|, i requires 0 <= i < |s.supply| => Waiting(s, i))
  }

  lemma PushKeepsNewestFirst(q: seq<nat>, c: nat)
    requires NewestFirst(q) && forall x :: x in q ==> x < c
    ensures NewestFirst([c] + q)
  {
    var q' := [c] + q;
    forall i, j | 0 <= i < j < |q'|
      ensures q'[i] > q'[j]
    {
      assert q'[j] == q[j - 1] && q[j - 1] in q;
      if i > 0 {
        assert q'[i] == q[i - 1];
      }
    }
  }

  lemma PopTakesOldest(q: seq<nat>)
    requires NewestFirst(q) && q != []
    ensures var oldest, others := q[|q| - 1], q[..|q| - 1];
            && NewestFirst(others)
            && oldest in q && forall x :: x in others ==> oldest < x
  {
  }

  // At every lock release one of the two queues is empty.
  ghost predicate OneSided<T>(s: Shared<T>) {
    s.supply == [] || s.demand == []
  }

  lemma OfferKeepsOneSided<T>(s: Shared<T>, d: T, claim: Claim<T>)
    requires WellFormed(s) && OneSided(s) && claim.datum == Some(d)
    ensures var (s', turn) := Offer(s, d, claim);
            && WellFormed(s') && OneSided(s')
            && (turn.Matched? ==> Pending(s) == [] && Pending(s') == [])
            && (turn.Parked? ==> Pending(s') == Pending(s) + [d])
  {
    var (s', turn) := Offer(s, d, claim);
    if turn.Matched? {
      assert forall c :: c in s'.demand ==> c in s.demand;
      assert turn.claim in s.demand;
      PopTakesOldest(s.demand);
    } else {
      PushKeepsNewestFirst(s.supply, |s.claims|);
      assert WellFormed(s');
      assert Pending(s') == Pending(s) + [d];
    }
  }

  lemma PoppedPending<T>(s: Shared<T>)
    requires WellFormed(s) && s.supply != []
    requires WellFormed(s.(supply := s.supply[..|s.supply| - 1]))
    ensures Pending(s) == [Waiting(s, 0)] + Pending(s.(supply := s.supply[..|s.supply| - 1]))
  {
  }

  lemma TakeKeepsOneSided<T>(s: Shared<T>, parks: bool)
    requires WellFormed(s) && OneSided(s)
    ensures var (s', turn) := Take(s, parks);
            && WellFormed(s') && OneSided(s')
            && (turn.Matched? ==> turn.claim in s.supply && turn.claim !in s'.supply
                                  && Pending(s) == [s.claims[turn.claim].datum.value] + Pending(s'))
            && (!turn.Matched? ==> Pending(s) == [] && Pending(s') == [])
  {
    var (s', turn) := Take(s, parks);
    assert forall c :: c in s'.supply ==> c in s.supply;
    if turn.Matched? {
      PopTakesOldest(s.supply);
      PoppedPending(s);
    } else if turn.Parked? {
      PushKeepsNewestFirst(s.demand, |s.claims|);
    }
  }

  // Whoever finds the other side waiting takes out the one that has waited longest, and nothing else.
  lemma OldestIsServedFirst<T>(s: Shared<T>, d: T, claim: Claim<T>, parks: bool)
    requires WellFormed(s)
    ensures var (s', turn) := Offer(s, d, claim);
            turn.Matched? ==> s.demand == s'.demand + [turn.claim] && forall w :: w in s'.demand ==> turn.claim < w
    ensures var (s', turn) := Take(s, parks);
            turn.Matched? ==> s.supply == s'.supply + [turn.claim] && forall c :: c in s'.supply ==> turn.claim < c
  {
    if s.demand != [] {
      PopTakesOldest(s.demand);
    }
    if s.supply != [] {
      PopTakesOldest(s.supply);
    }
  }

  class DynamicChannel<T> {
    const supply: Deque<nat>
    const demand: Deque<nat>
    var claims: seq<Claim<T>>

    ghost predicate Valid()
      reads this, supply, supply.data, demand, demand.data
    {
      && supply != demand && supply.data != demand.data
      && supply.Valid() && demand.Valid()
      && WellFormed(State()) && OneSided(State())
    }

    ghost function State(): Shared<T>
      requires supply.Valid() && demand.Valid()
      reads this, supply, supply.data, demand, demand.data
    {
      Shared(claims, supply.Contents(), demand.Contents())
    }

    constructor ()
      ensures Valid() && State() == Shared([], [], [])
      ensures fresh(supply) && fresh(supply.data) && fresh(demand) && fresh(demand.data)
    {
      supply := new Deque<nat>(0);
      demand := new Deque<nat>(0);
      claims := [];
    }

    // The lock section of Enqueue, with a blocking claim, and of EnqueueNonblock, with a nonblocking one.
    method OfferSection(d: T, claim: Claim<T>) returns (turn: Turn)
      requires Valid() && claim.datum == Some(d)
      modifies this, supply, supply.data, demand, demand.data
      ensures Valid() && (State(), turn) == Offer(old(State()), d, claim)
      ensures supply.data == old(supply.data) || fresh(supply.data)
      ensures demand.data == old(demand.data) || fresh(demand.data)
    {
      ghost var s := State();
      OfferKeepsOneSided(s, d, claim);
      var waiters := demand.Size();
      if waiters != 0 {
        var w := demand.Pop();
        assert s.demand == demand.Contents() + [w.value];
        assert s.demand[|s.demand| - 1] == w.value;
        assert w.value in s.demand;
        claims := claims[w.value := claims[w.value].(datum := Some(d))];
        turn := Matched(w.value);
      } else {
        supply.PushBack(|claims|);
        turn := Parked(|claims|);
        claims := claims + [claim];
      }
      assert State() == Offer(s, d, claim).0;
    }

    // The lock section of Dequeue (parks) and of DequeueNonblock (does not).
    method TakeSection(parks: bool) returns (turn: Turn)
      requires Valid()
      modifies this, supply, supply.data, demand, demand.data
      ensures Valid() && (State(), turn) == Take(old(State()), parks)
      ensures supply.data == old(supply.data) || fresh(supply.data)
      ensures demand.data == old(demand.data) || fresh(demand.data)
    {
      ghost var s := State();
      TakeKeepsOneSided(s, parks);
      var parked := supply.Size();
      if parked != 0 {
        var c := supply.Pop();
        assert s.supply == supply.Contents() + [c.value];
        turn := Matched(c.value);
      } else if parks {
        demand.PushBack(|claims|);
        turn := Parked(|claims|);
        claims := claims + [BlockingClaim(None)];
      } else {
        turn := Empty;
      }
      assert State() == Take(s, parks).0;
    }

    method Slice() returns (d: seq<T>)
      requires Valid()
      ensures d == Pending(State())
    {
      d := [];
      var size := supply.Size();
      for i := 0 to size
        invariant d == Pending(State())[size - i..]
      {
        var cl := supply.Get(i);
        assert cl.value in State().supply;
        d := [claims[cl.value].datum.value] + d;
      }
    }

    method Peek() returns (d: Option<T>)
      requires Valid()
      ensures d == if Pending(State()) == [] then None else Some(Pending(State())[0])
    {
      var elem := supply.Peek();
      if elem == None {
        return None;
      }
      assert elem.value in State().supply;
      return claims[elem.value].datum;
    }

    method Size() returns (size: nat)
      requires Valid()
      ensures size == |Pending(State())|
    {
      size := supply.Size();
    }
  }
}
