/** backend/pkg/dynamic_channel/channel.go as a concurrent system.
    Any number of calls run at once. One step is one lock section, one select, or one close;
    a run is any legal sequence of steps, so every interleaving and every cancellation is covered. */
module ChannelProtocol {
  import opened Wrappers
  import opened DynamicChannels

  datatype Call<V> = Enqueue(d: V) | EnqueueNonblock(d: V) | Dequeue | DequeueNonblock {
    predicate Produces() {
      Enqueue? || EnqueueNonblock?
    }
  }

  // A datum tagged with the call that enqueued it. The code never looks inside a datum.
  datatype Item<V> = Item(origin: nat, value: V)

  datatype Result<V> =
    | Accepted                           // an enqueue returned nil
    | Cancelled                          // returned the context's error
    | Received(item: Option<Item<V>>)    // a dequeue returned the claim's datum
    | Nothing                            // DequeueNonblock returned nil

  datatype Pc<V> =
    | AtLock(retry: bool)                // about to take the lock
    | Offering(claim: nat)               // has taken a claim of the other side, is at the select over it
    | Closing(claim: nat)                // EnqueueNonblock chose default, is about to close ready
    | Waiting(claim: nat)                // has parked its own claim, is at the select over it
    | Invalidating(claim: nat)           // chose ctx.Done, is about to invalidate its own claim
    | Done(result: Result<V>)

  datatype Thread<V> = Thread(call: Call<V>, pc: Pc<V>)

  datatype Handover<V> = Handover(item: Item<V>, to: nat)

  // owner, enqueued and handed are history: who allocated each claim, and, in lock order,
  // what entered the channel and which dequeue was assigned what.
  datatype System<V> = System(
    sh: Shared<Item<V>>,
    threads: seq<Thread<V>>,
    owner: seq<nat>,
    enqueued: seq<Item<V>>,
    handed: seq<Handover<V>>)

  datatype Step<V> =
    | Start(call: Call<V>)               // a goroutine calls one of the four operations
    | Section(t: nat)                    // a lock section
    | FindInvalid(t: nat)                // select: <-claim.invalid
    | Cancel(t: nat)                     // select: <-ctx.Done()
    | CloseInvalid(t: nat)               // claim.invalidate()
    | Rendezvous(t: nat, u: nat)         // select: t sends on ready while u, parked on the claim, receives
    | TakeDefault(t: nat)                // select: default
    | CloseReady(t: nat)                 // close(claim.ready)
    | ReceiveClosed(t: nat)              // select: <-ready, which has been closed

  function Init<V>(): System<V> {
    System(Shared([], [], []), [], [], [], [])
  }

  predicate InBounds<V>(pc: Pc<V>, claims: nat) {
    (pc.Offering? || pc.Closing? || pc.Waiting? || pc.Invalidating?) ==> pc.claim < claims
  }

  ghost predicate Bounded<V>(s: System<V>) {
    && |s.owner| == |s.sh.claims|
    && (forall c :: 0 <= c < |s.owner| ==> s.owner[c] < |s.threads|)
    && (forall c :: c in s.sh.supply ==> c < |s.sh.claims|)
    && (forall c :: c in s.sh.demand ==> c < |s.sh.claims|)
    && (forall t :: 0 <= t < |s.threads| ==> InBounds(s.threads[t].pc, |s.sh.claims|))
  }

  ghost predicate Enabled<V>(s: System<V>, step: Step<V>)
    requires Bounded(s)
  {
    if step.Start? then true else
    step.t < |s.threads| &&
    var th := s.threads[step.t];
    match step
    case Section(_) => th.pc.AtLock?
    case FindInvalid(_) => th.pc.Offering? && s.sh.claims[th.pc.claim].invalid == Closed
    case Cancel(_) => (th.call.Enqueue? || th.call.Dequeue?) && (th.pc.Offering? || th.pc.Waiting?)
    case CloseInvalid(_) => th.pc.Invalidating?
    case Rendezvous(t, u) =>
      && th.pc.Offering? && !th.call.EnqueueNonblock?
      && s.sh.claims[th.pc.claim].ready == Open
      && u < |s.threads| && s.threads[u].pc == Waiting(th.pc.claim)
    case TakeDefault(_) =>
      && (th.call.EnqueueNonblock? || th.call.DequeueNonblock?)
      && th.pc.Offering? && s.sh.claims[th.pc.claim].invalid != Closed
    case CloseReady(_) => th.pc.Closing?
    case ReceiveClosed(_) => th.pc.Waiting? && s.sh.claims[th.pc.claim].ready == Closed
  }

  function Goto<V>(s: System<V>, t: nat, pc: Pc<V>): System<V>
    requires t < |s.threads|
  {
    s.(threads := s.threads[t := s.threads[t].(pc := pc)])
  }

  function ParkedClaim<V>(call: Call<V>, item: Item<V>): Claim<Item<V>> {
    if call.Enqueue? then BlockingClaim(Some(item)) else NonblockingClaim(item)
  }

  // The lock section of a producer.
  ghost function ProducerSection<V>(s: System<V>, t: nat): System<V>
    requires Bounded(s) && t < |s.threads| && s.threads[t].pc.AtLock? && s.threads[t].call.Produces()
  {
    var th := s.threads[t];
    var item := Item(t, th.call.d);
    var (sh', turn) := Offer(s.sh, item, ParkedClaim(th.call, item));
    var log := if th.pc.retry then s.enqueued else s.enqueued + [item];
    if turn.Matched? then
      assert turn.claim in s.sh.demand;
      Goto(s.(sh := sh', enqueued := log, handed := s.handed + [Handover(item, s.owner[turn.claim])]),
           t, Offering(turn.claim))
    else
      Goto(s.(sh := sh', owner := s.owner + [t], enqueued := log),
           t, if th.call.Enqueue? then Waiting(|s.sh.claims|) else Done(Accepted))
  }

  // The lock section of a consumer. A claim without channels is consumed on the spot.
  ghost function ConsumerSection<V>(s: System<V>, t: nat): System<V>
    requires Bounded(s) && t < |s.threads| && s.threads[t].pc.AtLock? && !s.threads[t].call.Produces()
  {
    var (sh', turn) := Take(s.sh, s.threads[t].call.Dequeue?);
    match turn
    case Matched(c) =>
      assert c in s.sh.supply;
      var claim := s.sh.claims[c];
      var log := if claim.datum.Some? then s.handed + [Handover(claim.datum.value, t)] else s.handed;
      Goto(s.(sh := sh', handed := log), t, if claim.ready == Nil then Done(Received(claim.datum)) else Offering(c))
    case Parked(c) => Goto(s.(sh := sh', owner := s.owner + [t]), t, Waiting(c))
    case Empty => Goto(s, t, Done(Nothing))
  }

  ghost function Apply<V>(s: System<V>, step: Step<V>): (s': System<V>)
    requires Bounded(s) && Enabled(s, step)
  {
    match step
    case Start(call) => s.(threads := s.threads + [Thread(call, AtLock(false))])
    case Section(t) => if s.threads[t].call.Produces() then ProducerSection(s, t) else ConsumerSection(s, t)
    case FindInvalid(t) => Goto(s, t, AtLock(true))
    case Cancel(t) =>
      Goto(s, t, if s.threads[t].pc.Offering? then Done(Cancelled) else Invalidating(s.threads[t].pc.claim))
    case CloseInvalid(t) =>
      var c := s.threads[t].pc.claim;
      Goto(s.(sh := s.sh.(claims := s.sh.claims[c := s.sh.claims[c].(invalid := Closed)])), t, Done(Cancelled))
    case Rendezvous(t, u) =>
      var received := Done(Received(s.sh.claims[s.threads[t].pc.claim].datum));
      if s.threads[t].call.Produces() then Goto(Goto(s, t, Done(Accepted)), u, received)
      else Goto(Goto(s, t, received), u, Done(Accepted))
    case TakeDefault(t) =>
      var c := s.threads[t].pc.claim;
      Goto(s, t, if s.threads[t].call.Produces() then Closing(c) else Done(Received(s.sh.claims[c].datum)))
    case CloseReady(t) =>
      var c := s.threads[t].pc.claim;
      Goto(s.(sh := s.sh.(claims := s.sh.claims[c := s.sh.claims[c].(ready := Closed)])), t, Done(Accepted))
    case ReceiveClosed(t) => Goto(s, t, Done(Received(s.sh.claims[s.threads[t].pc.claim].datum)))
  }

  // ----- The invariant -----

  ghost predicate IsSupply<V>(s: System<V>, c: nat)
    requires Bounded(s) && c < |s.owner|
  {
    s.threads[s.owner[c]].call.Produces()
  }

  ghost predicate IsItem<V>(s: System<V>, item: Item<V>) {
    && item.origin < |s.threads|
    && s.threads[item.origin].call.Produces()
    && item.value == s.threads[item.origin].call.d
  }

  ghost predicate QueuesOk<V>(s: System<V>)
    requires Bounded(s)
  {
    && WellFormed(s.sh) && OneSided(s.sh)
    && (forall c :: c in s.sh.supply ==> IsSupply(s, c))
    && (forall c :: c in s.sh.demand ==> !IsSupply(s, c))
  }

  ghost predicate ClaimOk<V>(s: System<V>, c: nat)
    requires Bounded(s) && c < |s.sh.claims|
  {
    var claim := s.sh.claims[c];
    var call := s.threads[s.owner[c]].call;
    if call.Produces() then
      && claim.datum.Some? && claim.datum.value.origin == s.owner[c] && IsItem(s, claim.datum.value)
      && claim.ready == (if call.Enqueue? then Open else Nil)
    else
      && call.Dequeue?
      && claim.ready != Nil
      && (claim.ready == Closed ==>
            && c !in s.sh.demand
            && claim.datum.Some? && IsItem(s, claim.datum.value)
            && s.threads[claim.datum.value.origin] == Thread(EnqueueNonblock(claim.datum.value.value), Done(Accepted)))
  }

  // A producer or consumer that has taken claim c out of its queue and not yet finished with it.
  ghost predicate Holds<V>(s: System<V>, t: nat, c: nat) {
    t < |s.threads| && (s.threads[t].pc == Offering(c) || s.threads[t].pc == Closing(c))
  }

  ghost predicate HeldOk<V>(s: System<V>, t: nat, c: nat)
    requires Bounded(s) && t < |s.threads| && c < |s.sh.claims|
  {
    && c !in s.sh.supply && c !in s.sh.demand
    && s.sh.claims[c].ready == Open
    && IsSupply(s, c) != s.threads[t].call.Produces()
    && (s.threads[t].call.Produces() ==> s.sh.claims[c].datum == Some(Item(t, s.threads[t].call.d)))
  }

  // A blocking enqueue whose datum has been received has returned nil,
  // unless it was DequeueNonblock's default branch that received it.
  ghost predicate ReceiptOk<V>(s: System<V>, t: nat, item: Item<V>)
    requires t < |s.threads|
  {
    && IsItem(s, item)
    && (s.threads[item.origin].call.Enqueue? ==>
          s.threads[item.origin].pc == Done(Accepted) || s.threads[t].call.DequeueNonblock?)
  }

  ghost predicate ThreadOk<V>(s: System<V>, t: nat)
    requires Bounded(s) && t < |s.threads|
  {
    var th := s.threads[t];
    match th.pc
    case AtLock(_) => true
    case Offering(c) => HeldOk(s, t, c)
    case Closing(c) => HeldOk(s, t, c) && th.call.EnqueueNonblock?
    case Waiting(c) => s.owner[c] == t && (th.call.Enqueue? || th.call.Dequeue?) && s.sh.claims[c].invalid == Open
    case Invalidating(c) => s.owner[c] == t && (th.call.Enqueue? || th.call.Dequeue?) && s.sh.claims[c].invalid == Open
    case Done(Accepted) => th.call.Produces()
    case Done(Cancelled) => th.call.Enqueue? || th.call.Dequeue?
    case Done(Received(i)) => !th.call.Produces() && i.Some? && ReceiptOk(s, t, i.value)
    case Done(Nothing) => th.call.DequeueNonblock?
  }

  ghost predicate Exclusive<V>(s: System<V>) {
    forall t, u, c :: Holds(s, t, c) && Holds(s, u, c) ==> t == u
  }

  // Dequeue t has returned the datum of enqueue e.
  ghost predicate Receives<V>(s: System<V>, t: nat, e: nat) {
    && t < |s.threads|
    && s.threads[t].pc.Done? && s.threads[t].pc.result.Received?
    && s.threads[t].pc.result.item.Some? && s.threads[t].pc.result.item.value.origin == e
  }

  ghost predicate AcceptedOk<V>(s: System<V>) {
    forall e :: 0 <= e < |s.threads| && s.threads[e].call.Enqueue? && s.threads[e].pc == Done(Accepted)
      ==> exists t :: Receives(s, t, e)
  }

  ghost predicate Inv<V>(s: System<V>) {
    && Bounded(s)
    && QueuesOk(s)
    && (forall c :: 0 <= c < |s.sh.claims| ==> ClaimOk(s, c))
    && (forall t :: 0 <= t < |s.threads| ==> ThreadOk(s, t))
    && Exclusive(s)
    && AcceptedOk(s)
  }

  ghost predicate Free<V>(s: System<V>, c: nat) {
    forall u :: !Holds(s, u, c)
  }

  lemma QueuedIsFree<V>(s: System<V>, c: nat)
    requires Inv(s) && (c in s.sh.supply || c in s.sh.demand)
    ensures Free(s, c)
  {
    forall u: nat
      ensures !Holds(s, u, c)
    {
      assert u < |s.threads| ==> ThreadOk(s, u);
    }
  }

  // Only t may have come to hold a claim, and only one nobody held before.
  lemma ExclusiveStays<V>(s: System<V>, s': System<V>, t: nat)
    requires Exclusive(s)
    requires forall u, c :: u != t && Holds(s', u, c) ==> Holds(s, u, c)
    requires forall c :: Holds(s', t, c) ==> Holds(s, t, c) || Free(s, c)
    ensures Exclusive(s')
  {
    forall u, v, c | Holds(s', u, c) && Holds(s', v, c)
      ensures u == v
    {
      if u != t {
        assert Holds(s, u, c);
      }
      if v != t {
        assert Holds(s, v, c);
      }
    }
  }

  // Returned calls stay returned.
  lemma ReceiptsStay<V>(s: System<V>, s': System<V>)
    requires AcceptedOk(s)
    requires |s.threads| <= |s'.threads|
    requires forall t :: 0 <= t < |s.threads| && s.threads[t].pc.Done? ==> s'.threads[t] == s.threads[t]
    requires forall e :: (&& 0 <= e < |s'.threads| && s'.threads[e].call.Enqueue? && s'.threads[e].pc == Done(Accepted)
                          && !(e < |s.threads| && s.threads[e] == s'.threads[e])) ==> exists t :: Receives(s', t, e)
    ensures AcceptedOk(s')
  {
    forall e | 0 <= e < |s'.threads| && s'.threads[e].call.Enqueue? && s'.threads[e].pc == Done(Accepted)
      ensures exists t :: Receives(s', t, e)
    {
      if e < |s.threads| && s.threads[e] == s'.threads[e] {
        var t :| Receives(s, t, e);
        assert Receives(s', t, e);
      }
    }
  }

  lemma StartKeepsInv<V>(s: System<V>, call: Call<V>)
    requires Inv(s)
    ensures Inv(Apply(s, Start(call)))
  {
    var s' := Apply(s, Start(call));
    forall c | 0 <= c < |s'.sh.claims|
      ensures ClaimOk(s', c)
    {
      assert ClaimOk(s, c);
    }
    forall t | 0 <= t < |s'.threads|
      ensures ThreadOk(s', t)
    {
      if t < |s.threads| {
        assert ThreadOk(s, t);
      }
    }
    ExclusiveStays(s, s', |s.threads|);
    ReceiptsStay(s, s');
  }

  // Thread t moves on and may change claim x, in a way no other thread depends on.
  ghost predicate Touches<V>(s: System<V>, s': System<V>, t: nat, x: nat)
    requires Bounded(s) && Bounded(s')
  {
    && t < |s.threads| == |s'.threads| && !s.threads[t].pc.Done?
    && s'.threads == s.threads[t := s'.threads[t]] && s'.threads[t].call == s.threads[t].call
    && s.owner <= s'.owner
    && (forall c :: 0 <= c < |s.sh.claims| && c != x ==> s'.sh.claims[c] == s.sh.claims[c])
    && (forall c :: c in s'.sh.supply && c < |s.sh.claims| ==> c in s.sh.supply)
    && (forall c :: c in s'.sh.demand && c < |s.sh.claims| ==> c in s.sh.demand)
    && (x < |s.sh.claims| ==>
          && (|| (s'.sh.claims[x].ready == s.sh.claims[x].ready && s'.sh.claims[x].datum == s.sh.claims[x].datum)
              || (forall u :: u != t ==> !Holds(s, u, x)))
          && (s'.sh.claims[x].invalid == s.sh.claims[x].invalid || s.owner[x] == t))
  }

  lemma OthersStay<V>(s: System<V>, s': System<V>, t: nat, x: nat)
    requires Inv(s) && Bounded(s') && Touches(s, s', t, x)
    ensures forall c :: 0 <= c < |s.sh.claims| && c != x ==> ClaimOk(s', c)
    ensures forall u :: 0 <= u < |s.threads| && u != t ==> ThreadOk(s', u)
  {
    forall c | 0 <= c < |s.sh.claims| && c != x
      ensures ClaimOk(s', c)
    {
      assert ClaimOk(s, c);
    }
    forall u | 0 <= u < |s.threads| && u != t
      ensures ThreadOk(s', u)
    {
      assert ThreadOk(s, u);
      assert s'.threads[u] == s.threads[u];
      assert s.threads[u].pc.Offering? || s.threads[u].pc.Closing? ==> Holds(s, u, s.threads[u].pc.claim);
    }
  }

  lemma QueuesStay<V>(s: System<V>, s': System<V>, t: nat, x: nat)
    requires Inv(s) && Bounded(s') && Touches(s, s', t, x) && WellFormed(s'.sh) && OneSided(s'.sh)
    requires |s'.sh.claims| <= |s.sh.claims| || (x == |s.sh.claims| && |s'.sh.claims| == x + 1)
    requires x in s'.sh.supply ==> IsSupply(s', x)
    requires x in s'.sh.demand ==> !IsSupply(s', x)
    ensures QueuesOk(s')
  {
    forall c: nat | c < |s.sh.claims|
      ensures IsSupply(s', c) == IsSupply(s, c)
    {
      assert s'.owner[c] == s.owner[c];
    }
  }

  // So if t and x are in order afterwards, everything is.
  lemma TouchKeepsInv<V>(s: System<V>, s': System<V>, t: nat, x: nat)
    requires Inv(s) && Bounded(s') && Touches(s, s', t, x) && QueuesOk(s')
    requires |s'.sh.claims| <= |s.sh.claims| || (x == |s.sh.claims| && |s'.sh.claims| == x + 1)
    requires x < |s'.sh.claims| ==> ClaimOk(s', x)
    requires ThreadOk(s', t)
    requires forall c :: Holds(s', t, c) ==> Holds(s, t, c) || Free(s, c)
    requires s'.threads[t].call.Enqueue? ==> s'.threads[t].pc != Done(Accepted)
    ensures Inv(s')
  {
    OthersStay(s, s', t, x);
    ExclusiveStays(s, s', t);
    ReceiptsStay(s, s');
  }

  // The claim a producer takes out of demand.
  lemma MatchedDemand<V>(s: System<V>) returns (w: nat)
    requires Inv(s) && s.sh.demand != []
    ensures w == s.sh.demand[|s.sh.demand| - 1] && w in s.sh.demand && w !in s.sh.demand[..|s.sh.demand| - 1]
    ensures ClaimOk(s, w) && Free(s, w) && s.sh.supply == [] && s.sh.claims[w].ready == Open && !IsSupply(s, w)
  {
    w := s.sh.demand[|s.sh.demand| - 1];
    assert w in s.sh.demand && ClaimOk(s, w);
    QueuedIsFree(s, w);
    PopTakesOldest(s.sh.demand);
  }

  lemma MatchedProducerKeepsInv<V>(s: System<V>, t: nat)
    requires Inv(s) && Enabled(s, Section(t)) && s.threads[t].call.Produces() && s.sh.demand != []
    ensures Inv(Apply(s, Section(t)))
  {
    var s' := Apply(s, Section(t));
    var item := Item(t, s.threads[t].call.d);
    OfferKeepsOneSided(s.sh, item, ParkedClaim(s.threads[t].call, item));
    var w := MatchedDemand(s);
    QueuesStay(s, s', t, w);
    assert ClaimOk(s', w);
    assert ThreadOk(s', t);
    TouchKeepsInv(s, s', t, w);
  }

  lemma ParkingProducerKeepsInv<V>(s: System<V>, t: nat)
    requires Inv(s) && Enabled(s, Section(t)) && s.threads[t].call.Produces() && s.sh.demand == []
    ensures Inv(Apply(s, Section(t)))
  {
    var s' := Apply(s, Section(t));
    var item := Item(t, s.threads[t].call.d);
    OfferKeepsOneSided(s.sh, item, ParkedClaim(s.threads[t].call, item));
    QueuesStay(s, s', t, |s.sh.claims|);
    TouchKeepsInv(s, s', t, |s.sh.claims|);
  }

  // The claim a consumer takes out of supply.
  lemma MatchedSupply<V>(s: System<V>) returns (c: nat)
    requires Inv(s) && s.sh.supply != []
    ensures c == s.sh.supply[|s.sh.supply| - 1] && c in s.sh.supply && c !in s.sh.supply[..|s.sh.supply| - 1]
    ensures ClaimOk(s, c) && Free(s, c) && s.sh.demand == [] && IsSupply(s, c)
  {
    c := s.sh.supply[|s.sh.supply| - 1];
    assert c in s.sh.supply && ClaimOk(s, c);
    QueuedIsFree(s, c);
    PopTakesOldest(s.sh.supply);
  }

  lemma MatchedConsumerKeepsInv<V>(s: System<V>, t: nat)
    requires Inv(s) && Enabled(s, Section(t)) && !s.threads[t].call.Produces() && s.sh.supply != []
    ensures Inv(Apply(s, Section(t)))
  {
    var s' := Apply(s, Section(t));
    TakeKeepsOneSided(s.sh, s.threads[t].call.Dequeue?);
    var c := MatchedSupply(s);
    QueuesStay(s, s', t, c);
    assert ClaimOk(s', c);
    assert ThreadOk(s', t);
    TouchKeepsInv(s, s', t, c);
  }

  lemma UnmatchedConsumerKeepsInv<V>(s: System<V>, t: nat)
    requires Inv(s) && Enabled(s, Section(t)) && !s.threads[t].call.Produces() && s.sh.supply == []
    ensures Inv(Apply(s, Section(t)))
  {
    var s' := Apply(s, Section(t));
    TakeKeepsOneSided(s.sh, s.threads[t].call.Dequeue?);
    QueuesStay(s, s', t, |s.sh.claims|);
    TouchKeepsInv(s, s', t, |s.sh.claims|);
  }

  // A step that only moves threads on.
  ghost predicate MovesThreads<V>(s: System<V>, s': System<V>) {
    && s'.sh == s.sh && s'.owner == s.owner && |s'.threads| == |s.threads|
    && (forall t :: 0 <= t < |s.threads| ==> s'.threads[t].call == s.threads[t].call)
    && (forall t :: 0 <= t < |s.threads| && s.threads[t].pc.Done? ==> s'.threads[t] == s.threads[t])
  }

  lemma MovesKeepClaims<V>(s: System<V>, s': System<V>)
    requires Inv(s) && Bounded(s') && MovesThreads(s, s')
    ensures QueuesOk(s')
    ensures forall c :: 0 <= c < |s'.sh.claims| ==> ClaimOk(s', c)
    ensures forall t :: 0 <= t < |s.threads| && s'.threads[t] == s.threads[t] ==> ThreadOk(s', t)
  {
    forall c | 0 <= c < |s'.sh.claims|
      ensures ClaimOk(s', c)
    {
      assert ClaimOk(s, c);
    }
    forall t | 0 <= t < |s.threads| && s'.threads[t] == s.threads[t]
      ensures ThreadOk(s', t)
    {
      assert ThreadOk(s, t);
    }
  }

  // The steps outside the lock leave both queues alone.
  lemma SelectKeepsInv<V>(s: System<V>, step: Step<V>, s': System<V>)
    requires Inv(s) && Enabled(s, step) && s' == Apply(s, step) && Bounded(s') && MovesThreads(s, s')
    requires step.FindInvalid? || step.Cancel? || step.TakeDefault? || step.ReceiveClosed?
    requires s'.threads == s.threads[step.t := s'.threads[step.t]]
    requires ThreadOk(s', step.t)
    requires forall c :: Holds(s', step.t, c) ==> Holds(s, step.t, c)
    requires s'.threads[step.t].pc != Done(Accepted)
    ensures Inv(s')
  {
    MovesKeepClaims(s, s');
    ExclusiveStays(s, s', step.t);
    ReceiptsStay(s, s');
  }

  lemma FindInvalidKeepsInv<V>(s: System<V>, t: nat)
    requires Inv(s) && Enabled(s, FindInvalid(t))
    ensures Inv(Apply(s, FindInvalid(t)))
  {
    SelectKeepsInv(s, FindInvalid(t), Apply(s, FindInvalid(t)));
  }

  lemma CancelKeepsInv<V>(s: System<V>, t: nat)
    requires Inv(s) && Enabled(s, Cancel(t))
    ensures Inv(Apply(s, Cancel(t)))
  {
    assert ThreadOk(s, t);
    SelectKeepsInv(s, Cancel(t), Apply(s, Cancel(t)));
  }

  lemma TakeDefaultKeepsInv<V>(s: System<V>, t: nat)
    requires Inv(s) && Enabled(s, TakeDefault(t))
    ensures Inv(Apply(s, TakeDefault(t)))
  {
    assert ThreadOk(s, t) && ClaimOk(s, s.threads[t].pc.claim);
    SelectKeepsInv(s, TakeDefault(t), Apply(s, TakeDefault(t)));
  }

  lemma ReceiveClosedKeepsInv<V>(s: System<V>, t: nat)
    requires Inv(s) && Enabled(s, ReceiveClosed(t))
    ensures Inv(Apply(s, ReceiveClosed(t)))
  {
    assert ThreadOk(s, t) && ClaimOk(s, s.threads[t].pc.claim);
    SelectKeepsInv(s, ReceiveClosed(t), Apply(s, ReceiveClosed(t)));
  }

  lemma CloseInvalidKeepsInv<V>(s: System<V>, t: nat)
    requires Inv(s) && Enabled(s, CloseInvalid(t))
    ensures Inv(Apply(s, CloseInvalid(t)))
  {
    var s' := Apply(s, CloseInvalid(t));
    var c := s.threads[t].pc.claim;
    assert ThreadOk(s, t) && ClaimOk(s, c);
    TouchKeepsInv(s, s', t, c);
  }

  lemma CloseReadyKeepsInv<V>(s: System<V>, t: nat)
    requires Inv(s) && Enabled(s, CloseReady(t))
    ensures Inv(Apply(s, CloseReady(t)))
  {
    var s' := Apply(s, CloseReady(t));
    var c := s.threads[t].pc.claim;
    assert ThreadOk(s, t) && ClaimOk(s, c) && Holds(s, t, c);
    TouchKeepsInv(s, s', t, c);
  }

  lemma ProducerMeetsConsumer<V>(s: System<V>, t: nat, u: nat)
    requires Inv(s) && Enabled(s, Rendezvous(t, u)) && s.threads[t].call.Produces()
    ensures Inv(Apply(s, Rendezvous(t, u)))
  {
    var s' := Apply(s, Rendezvous(t, u));
    assert ThreadOk(s, t) && ThreadOk(s, u);
    MovesKeepClaims(s, s');
    assert Receives(s', u, t);
    assert ThreadOk(s', t) && ThreadOk(s', u);
    ExclusiveStays(s, s', t);
    ReceiptsStay(s, s');
  }

  lemma ConsumerMeetsProducer<V>(s: System<V>, t: nat, u: nat)
    requires Inv(s) && Enabled(s, Rendezvous(t, u)) && !s.threads[t].call.Produces()
    ensures Inv(Apply(s, Rendezvous(t, u)))
  {
    var s' := Apply(s, Rendezvous(t, u));
    assert ThreadOk(s, t) && ThreadOk(s, u) && ClaimOk(s, s.threads[t].pc.claim);
    MovesKeepClaims(s, s');
    assert Receives(s', t, u);
    assert ThreadOk(s', t) && ThreadOk(s', u);
    ExclusiveStays(s, s', t);
    ReceiptsStay(s, s');
  }

  lemma StepKeepsInv<V>(s: System<V>, step: Step<V>)
    requires Inv(s) && Enabled(s, step)
    ensures Inv(Apply(s, step))
  {
    match step
    case Start(call) => StartKeepsInv(s, call);
    case Section(t) =>
      if s.threads[t].call.Produces() {
        if s.sh.demand == [] { ParkingProducerKeepsInv(s, t); } else { MatchedProducerKeepsInv(s, t); }
      } else {
        if s.sh.supply == [] { UnmatchedConsumerKeepsInv(s, t); } else { MatchedConsumerKeepsInv(s, t); }
      }
    case FindInvalid(t) => FindInvalidKeepsInv(s, t);
    case Cancel(t) => CancelKeepsInv(s, t);
    case CloseInvalid(t) => CloseInvalidKeepsInv(s, t);
    case Rendezvous(t, u) =>
      if s.threads[t].call.Produces() { ProducerMeetsConsumer(s, t, u); } else { ConsumerMeetsProducer(s, t, u); }
    case TakeDefault(t) => TakeDefaultKeepsInv(s, t);
    case CloseReady(t) => CloseReadyKeepsInv(s, t);
    case ReceiveClosed(t) => ReceiveClosedKeepsInv(s, t);
  }
}
