/** What the dynamic channel keeps: every datum that EnqueueNonblock has accepted is in exactly one place, and lost
    only in the claim of a Dequeue that has given up; and when a waiter can be left with nobody to serve it. */
module ChannelLoss {
  import opened DynamicChannels
  import opened ChannelProtocol
  import opened ChannelDelivery

  // ----- Claims are waited for -----

  ghost predicate Awaited<V>(s: System<V>, c: nat)
    requires Bounded(s) && c < |s.sh.claims|
  {
    || s.sh.claims[c].invalid == Closed
    || s.threads[s.owner[c]].pc == Waiting(c)
    || s.threads[s.owner[c]].pc == Invalidating(c)
  }

  // A claim with channels that is queued, or in somebody's hands, is waited for, and an invalidated one is given up.
  ghost predicate WaitersOk<V>(s: System<V>)
    requires Bounded(s)
  {
    && (forall c :: c in s.sh.demand ==> Awaited(s, c))
    && (forall c :: c in s.sh.supply && s.sh.claims[c].ready != Nil ==> Awaited(s, c))
    && (forall t: nat, c: nat :: Holds(s, t, c) && c < |s.sh.claims| ==> Awaited(s, c))
    && (forall c :: 0 <= c < |s.sh.claims| && s.sh.claims[c].invalid == Closed ==>
          s.threads[s.owner[c]].pc == Done(Cancelled))
  }

  // A thread moves on that is not waiting, or stops waiting for a claim that is no longer needed.
  lemma MoverKeepsWaiters<V>(s: System<V>, s': System<V>, t: nat)
    requires Inv(s) && Inv(s') && WaitersOk(s)
    requires t < |s.threads| == |s'.threads| && s'.threads == s.threads[t := s'.threads[t]]
    requires s'.threads[t].call == s.threads[t].call && s.owner <= s'.owner && !s.threads[t].pc.Done?
    requires forall c :: 0 <= c < |s.sh.claims| ==> s'.sh.claims[c].invalid == s.sh.claims[c].invalid
    requires forall c :: |s.sh.claims| <= c < |s'.sh.claims| ==> s'.sh.claims[c].invalid != Closed
    requires !s.threads[t].pc.Waiting? && !s.threads[t].pc.Invalidating?
    requires forall c :: c in s'.sh.demand ==> c in s.sh.demand || Awaited(s', c)
    requires forall c :: c in s'.sh.supply && s'.sh.claims[c].ready != Nil ==>
               Awaited(s', c) || (c in s.sh.supply && s.sh.claims[c].ready != Nil)
    requires forall c: nat :: Holds(s', t, c) ==>
               Holds(s, t, c) || c in s.sh.demand || (c in s.sh.supply && s.sh.claims[c].ready != Nil)
    ensures WaitersOk(s')
  {
    forall c | 0 <= c < |s.sh.claims| && Awaited(s, c)
      ensures Awaited(s', c)
    {
      assert s'.owner[c] == s.owner[c];
    }
    forall u: nat, c: nat | Holds(s', u, c) && c < |s'.sh.claims|
      ensures Awaited(s', c)
    {
      assert u != t ==> Holds(s, u, c);
    }
  }

  lemma ProducerKeepsWaiters<V>(s: System<V>, t: nat)
    requires Inv(s) && WaitersOk(s) && Enabled(s, Section(t)) && Inv(Apply(s, Section(t)))
    requires s.threads[t].call.Produces()
    ensures WaitersOk(Apply(s, Section(t)))
  {
    if s.sh.demand != [] {
      var w := MatchedDemand(s);
    }
    MoverKeepsWaiters(s, Apply(s, Section(t)), t);
  }

  lemma ConsumerKeepsWaiters<V>(s: System<V>, t: nat)
    requires Inv(s) && WaitersOk(s) && Enabled(s, Section(t)) && Inv(Apply(s, Section(t)))
    requires !s.threads[t].call.Produces()
    ensures WaitersOk(Apply(s, Section(t)))
  {
    if s.sh.supply != [] {
      var c := MatchedSupply(s);
    }
    MoverKeepsWaiters(s, Apply(s, Section(t)), t);
  }

  // A select or a close over a claim in hand.
  lemma HolderKeepsWaiters<V>(s: System<V>, step: Step<V>)
    requires Inv(s) && WaitersOk(s) && Enabled(s, step) && Inv(Apply(s, step))
    requires step.FindInvalid? || step.TakeDefault? || step.CloseReady?
             || (step.Cancel? && s.threads[step.t].pc.Offering?)
    ensures WaitersOk(Apply(s, step))
  {
    assert ThreadOk(s, step.t);
    MoverKeepsWaiters(s, Apply(s, step), step.t);
  }

  // Whoever stops waiting for claim c leaves it to nobody.
  lemma LeaverKeepsWaiters<V>(s: System<V>, s': System<V>, u: nat, c: nat)
    requires Inv(s) && Inv(s') && WaitersOk(s)
    requires u < |s.threads| == |s'.threads| && s.threads[u].pc == Waiting(c) && s'.owner == s.owner && s'.sh == s.sh
    requires forall t :: 0 <= t < |s.threads| ==> s'.threads[t].call == s.threads[t].call
    requires forall t :: 0 <= t < |s.threads| && t != u && !s.threads[t].pc.Offering? ==>
               s'.threads[t] == s.threads[t]
    requires forall t: nat, d: nat :: Holds(s', t, d) ==> Holds(s, t, d)
    requires c !in s.sh.demand && c !in s.sh.supply && Free(s', c)
    ensures WaitersOk(s')
  {
    forall d | 0 <= d < |s.sh.claims| && Awaited(s, d) && d != c
      ensures Awaited(s', d)
    {
    }
    forall t: nat, d: nat | Holds(s', t, d) && d < |s'.sh.claims|
      ensures Awaited(s', d)
    {
      assert Holds(s, t, d) && d != c;
    }
  }

  lemma RendezvousKeepsWaiters<V>(s: System<V>, t: nat, u: nat)
    requires Inv(s) && WaitersOk(s) && Enabled(s, Rendezvous(t, u)) && Inv(Apply(s, Rendezvous(t, u)))
    ensures WaitersOk(Apply(s, Rendezvous(t, u)))
  {
    var c := s.threads[t].pc.claim;
    assert ThreadOk(s, t) && Holds(s, t, c);
    LeaverKeepsWaiters(s, Apply(s, Rendezvous(t, u)), u, c);
  }

  lemma ReceiveClosedKeepsWaiters<V>(s: System<V>, t: nat)
    requires Inv(s) && WaitersOk(s) && Enabled(s, ReceiveClosed(t)) && Inv(Apply(s, ReceiveClosed(t)))
    ensures WaitersOk(Apply(s, ReceiveClosed(t)))
  {
    var c := s.threads[t].pc.claim;
    assert ThreadOk(s, t) && ClaimOk(s, c);
    forall u: nat
      ensures !Holds(s, u, c)
    {
      assert u < |s.threads| ==> ThreadOk(s, u);
    }
    assert forall u: nat :: Holds(Apply(s, ReceiveClosed(t)), u, c) ==> Holds(s, u, c);
    LeaverKeepsWaiters(s, Apply(s, ReceiveClosed(t)), t, c);
  }

  lemma GivingUpKeepsWaiters<V>(s: System<V>, step: Step<V>)
    requires Inv(s) && WaitersOk(s) && Enabled(s, step) && Inv(Apply(s, step))
    requires (step.Cancel? && s.threads[step.t].pc.Waiting?) || step.CloseInvalid?
    ensures WaitersOk(Apply(s, step))
  {
    var s' := Apply(s, step);
    assert ThreadOk(s, step.t);
    forall c | 0 <= c < |s.sh.claims| && Awaited(s, c)
      ensures Awaited(s', c)
    {
    }
    forall u: nat, c: nat | Holds(s', u, c) && c < |s'.sh.claims|
      ensures Awaited(s', c)
    {
      assert Holds(s, u, c);
    }
  }

  lemma StartKeepsWaiters<V>(s: System<V>, call: Call<V>)
    requires Inv(s) && WaitersOk(s) && Inv(Apply(s, Start(call)))
    ensures WaitersOk(Apply(s, Start(call)))
  {
    var s' := Apply(s, Start(call));
    forall u: nat, c: nat | Holds(s', u, c) && c < |s'.sh.claims|
      ensures Awaited(s', c)
    {
      assert Holds(s, u, c);
    }
  }

  lemma StepKeepsWaiters<V>(s: System<V>, step: Step<V>)
    requires Inv(s) && WaitersOk(s) && Enabled(s, step) && Inv(Apply(s, step))
    ensures WaitersOk(Apply(s, step))
  {
    match step
    case Start(call) => StartKeepsWaiters(s, call);
    case Section(t) =>
      if s.threads[t].call.Produces() {
        ProducerKeepsWaiters(s, t);
      } else {
        ConsumerKeepsWaiters(s, t);
      }
    case Rendezvous(t, u) => RendezvousKeepsWaiters(s, t, u);
    case ReceiveClosed(t) => ReceiveClosedKeepsWaiters(s, t);
    case CloseInvalid(t) => GivingUpKeepsWaiters(s, step);
    case Cancel(t) =>
      if s.threads[t].pc.Waiting? {
        GivingUpKeepsWaiters(s, step);
      } else {
        HolderKeepsWaiters(s, step);
      }
    case _ => HolderKeepsWaiters(s, step);
  }

  // ----- Accepted data are somewhere -----

  // Where the datum of an accepted EnqueueNonblock can be.
  predicate IsResting(p: Place) {
    p.Queued? || p.Handed? || p.Delivered? || p.Lost?
  }

  ghost predicate Rests<V>(s: System<V>, e: nat)
    requires Bounded(s)
  {
    exists p :: IsResting(p) && At(s, e, p)
  }

  ghost predicate NonblockAccepted<V>(s: System<V>, e: nat) {
    e < |s.threads| && s.threads[e].call.EnqueueNonblock? && s.threads[e].pc == Done(Accepted)
  }

  ghost predicate AcceptedRest<V>(s: System<V>)
    requires Bounded(s)
  {
    forall e :: NonblockAccepted(s, e) ==> Rests(s, e)
  }

  lemma PoppedRests<V>(s: System<V>, t: nat, e: nat, c: nat)
    requires Inv(s) && Enabled(s, Section(t)) && Inv(Apply(s, Section(t))) && NonblockAccepted(s, e)
    requires At(s, e, Queued(c)) && !s.threads[t].call.Produces() && c == s.sh.supply[|s.sh.supply| - 1]
    ensures Rests(Apply(s, Section(t)), e)
  {
    assert ClaimOk(s, c);
    assert At(Apply(s, Section(t)), e, Delivered(t));
  }

  lemma QueuedRests<V>(s: System<V>, step: Step<V>, e: nat, c: nat)
    requires Inv(s) && Enabled(s, step) && Inv(Apply(s, step)) && NonblockAccepted(s, e) && At(s, e, Queued(c))
    ensures Rests(Apply(s, step), e)
  {
    if step.Section? && !s.threads[step.t].call.Produces() && c == s.sh.supply[|s.sh.supply| - 1] {
      PoppedRests(s, step.t, e, c);
    } else {
      assert At(Apply(s, step), e, Queued(c));
    }
  }

  // A closed claim of a consumer is not touched until its owner moves on.
  lemma ClosedStays<V>(s: System<V>, step: Step<V>, c: nat)
    requires Inv(s) && Enabled(s, step) && Inv(Apply(s, step))
    requires c < |s.sh.claims| && s.sh.claims[c].ready == Closed
    ensures var claim := Apply(s, step).sh.claims[c];
              claim.ready == Closed && claim.datum == s.sh.claims[c].datum
    ensures !(step.CloseInvalid? && s.threads[step.t].pc.claim == c) ==>
              Apply(s, step).sh.claims[c] == s.sh.claims[c]
  {
    assert ClaimOk(s, c);
    if step.Section? && s.threads[step.t].call.Produces() && s.sh.demand != [] {
      var w := MatchedDemand(s);
    }
    if step.CloseReady? {
      assert ThreadOk(s, step.t);
    }
  }

  lemma HandedMovesOn<V>(s: System<V>, step: Step<V>, e: nat)
    requires Inv(s) && Enabled(s, step) && Inv(Apply(s, step))
    requires (step.CloseInvalid? || step.ReceiveClosed?) && At(s, e, Handed(step.t))
    ensures Rests(Apply(s, step), e)
  {
    var c := s.threads[step.t].pc.claim;
    ClosedStays(s, step, c);
    assert At(Apply(s, step), e, if step.CloseInvalid? then Lost(c) else Delivered(step.t));
  }

  lemma HandedStays<V>(s: System<V>, step: Step<V>, e: nat, t: nat)
    requires Inv(s) && Enabled(s, step) && Inv(Apply(s, step))
    requires At(s, e, Handed(t)) && step != CloseInvalid(t) && step != ReceiveClosed(t)
    ensures Rests(Apply(s, step), e)
  {
    assert ThreadOk(s, t);
    ClosedStays(s, step, s.threads[t].pc.claim);
    if step.CloseInvalid? || step.Rendezvous? {
      assert ThreadOk(s, step.t);
    }
    assert At(Apply(s, step), e, Handed(t));
  }

  lemma HandedRests<V>(s: System<V>, step: Step<V>, e: nat, t: nat)
    requires Inv(s) && Enabled(s, step) && Inv(Apply(s, step)) && At(s, e, Handed(t))
    ensures Rests(Apply(s, step), e)
  {
    if step == CloseInvalid(t) || step == ReceiveClosed(t) {
      HandedMovesOn(s, step, e);
    } else {
      HandedStays(s, step, e, t);
    }
  }

  lemma LostRests<V>(s: System<V>, step: Step<V>, e: nat, c: nat)
    requires Inv(s) && Enabled(s, step) && Inv(Apply(s, step)) && At(s, e, Lost(c))
    ensures Rests(Apply(s, step), e)
  {
    if step.CloseInvalid? {
      assert ThreadOk(s, step.t);
    }
    ClosedStays(s, step, c);
    assert At(Apply(s, step), e, Lost(c));
  }

  lemma DeliveredRests<V>(s: System<V>, step: Step<V>, e: nat, t: nat)
    requires Inv(s) && Enabled(s, step) && Inv(Apply(s, step)) && At(s, e, Delivered(t))
    ensures Rests(Apply(s, step), e)
  {
    assert At(Apply(s, step), e, Delivered(t));
  }

  // The two ways in which an EnqueueNonblock returns: it has parked its datum, or closed a claim.
  lemma HowAccepted<V>(s: System<V>, step: Step<V>, e: nat)
    requires Inv(s) && Enabled(s, step) && NonblockAccepted(Apply(s, step), e) && !NonblockAccepted(s, e)
    ensures e < |s.threads| && s.threads[e].call.EnqueueNonblock?
    ensures step == Section(e) || step == CloseReady(e)
    ensures step.Section? ==> s.sh.demand == []
  {
    assert e < |s.threads| ==> ThreadOk(s, e);
  }

  lemma ParkedRests<V>(s: System<V>, e: nat)
    requires Inv(s) && Enabled(s, Section(e)) && Inv(Apply(s, Section(e)))
    requires s.threads[e].call.Produces() && s.sh.demand == []
    ensures Rests(Apply(s, Section(e)), e)
  {
    assert At(Apply(s, Section(e)), e, Queued(|s.sh.claims|));
  }

  lemma ClosedRests<V>(s: System<V>, e: nat)
    requires Inv(s) && WaitersOk(s) && Enabled(s, CloseReady(e)) && Inv(Apply(s, CloseReady(e)))
    ensures Rests(Apply(s, CloseReady(e)), e)
  {
    var c := s.threads[e].pc.claim;
    assert ThreadOk(s, e) && Holds(s, e, c) && Awaited(s, c);
    assert At(Apply(s, CloseReady(e)), e, if s.sh.claims[c].invalid == Closed then Lost(c) else Handed(s.owner[c]));
  }

  lemma NewlyAcceptedRests<V>(s: System<V>, step: Step<V>, e: nat)
    requires Inv(s) && WaitersOk(s) && Enabled(s, step) && Inv(Apply(s, step))
    requires NonblockAccepted(Apply(s, step), e) && !NonblockAccepted(s, e)
    ensures Rests(Apply(s, step), e)
  {
    HowAccepted(s, step, e);
    if step.Section? {
      ParkedRests(s, e);
    } else {
      ClosedRests(s, e);
    }
  }

  lemma StepKeepsAcceptedRest<V>(s: System<V>, step: Step<V>)
    requires Inv(s) && WaitersOk(s) && AcceptedRest(s) && Enabled(s, step) && Inv(Apply(s, step))
    ensures AcceptedRest(Apply(s, step))
  {
    forall e | NonblockAccepted(Apply(s, step), e)
      ensures Rests(Apply(s, step), e)
    {
      if NonblockAccepted(s, e) {
        var p :| IsResting(p) && At(s, e, p);
        match p
        case Queued(c) => QueuedRests(s, step, e, c);
        case Handed(t) => HandedRests(s, step, e, t);
        case Delivered(t) => DeliveredRests(s, step, e, t);
        case Lost(c) => LostRests(s, step, e, c);
      } else {
        NewlyAcceptedRests(s, step, e);
      }
    }
  }

  lemma {:induction false} RunKeepsAcceptedRest<V>(s: System<V>, steps: seq<Step<V>>)
    requires Inv(s) && WaitersOk(s) && AcceptedRest(s) && Legal(s, steps)
    ensures WaitersOk(Exec(s, steps)) && AcceptedRest(Exec(s, steps))
    decreases |steps|
  {
    if steps == [] {
    } else {
      StepKeepsInv(s, steps[0]);
      StepKeepsWaiters(s, steps[0]);
      StepKeepsAcceptedRest(s, steps[0]);
      RunKeepsAcceptedRest(Apply(s, steps[0]), steps[1..]);
    }
  }

  // In every run the datum of an EnqueueNonblock that has returned is in exactly one place: queued, handed to a
  // Dequeue that has not looked yet, returned by a dequeue, or lost.
  lemma AcceptedIsInOnePlace<V>(steps: seq<Step<V>>, e: nat) returns (p: Place)
    requires Legal(Init(), steps) && NonblockAccepted(Exec(Init(), steps), e)
    ensures IsResting(p) && At(Exec(Init(), steps), e, p)
    ensures forall q :: At(Exec(Init(), steps), e, q) ==> q == p
  {
    var s := Exec(Init(), steps);
    RunKeepsAcceptedRest(Init(), steps);
    RunKeepsOnePlace(Init(), steps);
    assert Rests(s, e);
    p :| IsResting(p) && At(s, e, p);
  }

  // What is lost was handed to a Dequeue that gave up.
  lemma LostToCancelled<V>(steps: seq<Step<V>>, e: nat, c: nat)
    requires Legal(Init(), steps) && At(Exec(Init(), steps), e, Lost(c))
    ensures var s := Exec(Init(), steps); s.threads[s.owner[c]] == Thread(Dequeue, Done(Cancelled))
  {
    var s := Exec(Init(), steps);
    RunKeepsAcceptedRest(Init(), steps);
    assert ClaimOk(s, c);
  }

  ghost predicate GaveUp<V>(th: Thread<V>) {
    th.pc.Invalidating? || th.pc == Done(Cancelled)
  }

  // As long as no Dequeue has given up, whatever else is cancelled, nothing accepted is lost.
  lemma NothingIsLost<V>(steps: seq<Step<V>>, e: nat) returns (p: Place)
    requires Legal(Init(), steps) && NonblockAccepted(Exec(Init(), steps), e)
    requires forall th :: th in Exec(Init(), steps).threads && th.call.Dequeue? ==> !GaveUp(th)
    ensures At(Exec(Init(), steps), e, p) && (p.Queued? || p.Handed? || p.Delivered?)
  {
    p := AcceptedIsInOnePlace(steps, e);
    if p.Lost? {
      LostToCancelled(steps, e, p.claim);
    }
  }

  // ----- Waiters nobody will serve -----

  // Claim c is in a queue, or somebody has it in hand, or has closed it.
  ghost predicate Attended<V>(s: System<V>, c: nat)
    requires Bounded(s) && c < |s.sh.claims|
  {
    c in s.sh.supply || c in s.sh.demand || s.sh.claims[c].ready == Closed || exists u :: Holds(s, u, c)
  }

  // Call t waits for a claim that nobody will ever look at again.
  ghost predicate Stranded<V>(s: System<V>, t: nat)
    requires Bounded(s)
  {
    t < |s.threads| && s.threads[t].pc.Waiting? && !Attended(s, s.threads[t].pc.claim)
  }

  ghost predicate NobodyStranded<V>(s: System<V>)
    requires Bounded(s)
  {
    forall t :: !Stranded(s, t)
  }

  // The step drops a claim that its owner is waiting for: an Enqueue or a Dequeue gives up while it has the claim
  // in hand, or DequeueNonblock takes the datum without meeting its producer.
  ghost predicate Abandons<V>(s: System<V>, step: Step<V>)
    requires Bounded(s) && Enabled(s, step)
  {
    && (step.Cancel? || (step.TakeDefault? && s.threads[step.t].call.DequeueNonblock?))
    && s.threads[step.t].pc.Offering?
    && var c := s.threads[step.t].pc.claim; s.threads[s.owner[c]].pc == Waiting(c)
  }

  lemma AbandoningStrands<V>(s: System<V>, step: Step<V>)
    requires Inv(s) && Enabled(s, step) && Inv(Apply(s, step)) && Abandons(s, step)
    ensures !NobodyStranded(Apply(s, step))
  {
    var s', c := Apply(s, step), s.threads[step.t].pc.claim;
    assert ThreadOk(s, step.t) && Holds(s, step.t, c);
    forall u: nat
      ensures !Holds(s', u, c)
    {
      assert Holds(s', u, c) ==> Holds(s, u, c);
    }
    assert Stranded(s', s.owner[c]);
  }

  lemma QueuedStaysAttended<V>(s: System<V>, step: Step<V>, v: nat, c: nat)
    requires Inv(s) && Enabled(s, step) && Inv(Apply(s, step))
    requires v < |s.threads| && s.threads[v].pc == Waiting(c) && (c in s.sh.supply || c in s.sh.demand)
    ensures Attended(Apply(s, step), c)
  {
    var s' := Apply(s, step);
    assert ThreadOk(s, v) && ClaimOk(s, c);
    if step.Section? && c !in s'.sh.supply && c !in s'.sh.demand {
      assert Holds(s', step.t, c);
    }
  }

  lemma HeldStaysAttended<V>(s: System<V>, step: Step<V>, v: nat, c: nat, u: nat)
    requires Inv(s) && Enabled(s, step) && Inv(Apply(s, step)) && !Abandons(s, step)
    requires v < |s.threads| && s.threads[v].pc == Waiting(c) == Apply(s, step).threads[v].pc && Holds(s, u, c)
    ensures Attended(Apply(s, step), c)
  {
    var s' := Apply(s, step);
    assert ThreadOk(s, v) && ThreadOk(s, u);
    if step.CloseReady? && step.t == u {
      assert s'.sh.claims[c].ready == Closed;
    } else {
      if step.Rendezvous? {
        assert ThreadOk(s, step.u);
      }
      assert Holds(s', u, c);
    }
  }

  lemma WaiterStaysAttended<V>(s: System<V>, step: Step<V>, v: nat, c: nat)
    requires Inv(s) && Enabled(s, step) && Inv(Apply(s, step)) && !Abandons(s, step)
    requires v < |s.threads| && s.threads[v].pc == Waiting(c) == Apply(s, step).threads[v].pc && Attended(s, c)
    ensures Attended(Apply(s, step), c)
  {
    if s.sh.claims[c].ready == Closed {
      ClosedStays(s, step, c);
    } else if u :| Holds(s, u, c) {
      HeldStaysAttended(s, step, v, c, u);
    } else {
      QueuedStaysAttended(s, step, v, c);
    }
  }

  lemma NewWaiterIsAttended<V>(s: System<V>, step: Step<V>, v: nat)
    requires Inv(s) && Enabled(s, step) && v < |Apply(s, step).threads| && Apply(s, step).threads[v].pc.Waiting?
    requires v < |s.threads| ==> s.threads[v].pc != Apply(s, step).threads[v].pc
    requires Bounded(Apply(s, step))
    ensures Attended(Apply(s, step), Apply(s, step).threads[v].pc.claim)
  {
  }

  // A step leaves a waiter stranded exactly when it drops the claim that one is waiting for.
  lemma StepStrandsIff<V>(s: System<V>, step: Step<V>)
    requires Inv(s) && Enabled(s, step) && NobodyStranded(s)
    ensures Inv(Apply(s, step))
    ensures NobodyStranded(Apply(s, step)) <==> !Abandons(s, step)
  {
    StepKeepsInv(s, step);
    var s' := Apply(s, step);
    if Abandons(s, step) {
      AbandoningStrands(s, step);
    } else {
      forall v: nat | v < |s'.threads| && s'.threads[v].pc.Waiting?
        ensures !Stranded(s', v)
      {
        var c := s'.threads[v].pc.claim;
        if v < |s.threads| && s.threads[v].pc == Waiting(c) {
          assert !Stranded(s, v);
          WaiterStaysAttended(s, step, v, c);
        } else {
          NewWaiterIsAttended(s, step, v);
        }
      }
    }
  }

  ghost predicate NeverAbandons<V>(s: System<V>, steps: seq<Step<V>>)
    requires Inv(s) && Legal(s, steps)
    decreases |steps|
  {
    steps != [] ==>
      && !Abandons(s, steps[0])
      && (StepKeepsInv(s, steps[0]);
          NeverAbandons(Apply(s, steps[0]), steps[1..]))
  }

  // In a run without such steps nobody is ever left waiting for a claim that is out of everybody's sight.
  lemma {:induction false} AttendedUnlessAbandoned<V>(s: System<V>, steps: seq<Step<V>>)
    requires Inv(s) && NobodyStranded(s) && Legal(s, steps) && NeverAbandons(s, steps)
    ensures NobodyStranded(Exec(s, steps))
    decreases |steps|
  {
    if steps == [] {
    } else {
      StepKeepsInv(s, steps[0]);
      StepStrandsIff(s, steps[0]);
      AttendedUnlessAbandoned(Apply(s, steps[0]), steps[1..]);
    }
  }
}
