/** The dynamic channel as a queue: order and completeness in the runs in which no context is cancelled. */
module ChannelOrder {
  import opened Wrappers
  import opened DynamicChannels
  import opened ChannelProtocol
  import opened ChannelDelivery

  ghost function Items<V>(handed: seq<Handover<V>>): (items: seq<Item<V>>)
    ensures |items| == |handed|
  {
    seq(|handed|, i requires 0 <= i < |handed| => handed[i].item)
  }

  // The dequeue an item was assigned to is still on its way to returning it, or has returned it.
  ghost predicate HandoverOk<V>(s: System<V>, h: Handover<V>)
    requires Bounded(s)
  {
    h.to < |s.threads| && !s.threads[h.to].call.Produces() &&
    match s.threads[h.to].pc
    case Offering(c) => s.sh.claims[c].datum == Some(h.item)
    case Waiting(c) => c !in s.sh.demand && s.sh.claims[c].datum == Some(h.item)
    case Done(r) => r == Received(Some(h.item))
    case _ => false
  }

  // Whatever a dequeue returns, or is about to, was assigned to it.
  ghost predicate ReceiptLogged<V>(s: System<V>, t: nat)
    requires Bounded(s) && t < |s.threads|
  {
    s.threads[t].call.Produces() ||
    match s.threads[t].pc
    case Offering(c) => s.sh.claims[c].datum.Some? && Handover(s.sh.claims[c].datum.value, t) in s.handed
    case Waiting(c) =>
      c in s.sh.demand || (s.sh.claims[c].datum.Some? && Handover(s.sh.claims[c].datum.value, t) in s.handed)
    case Done(Received(i)) => i.Some? && Handover(i.value, t) in s.handed
    case _ => true
  }

  ghost predicate Undisturbed<V>(s: System<V>)
    requires Bounded(s)
  {
    && (forall t :: 0 <= t < |s.threads| ==>
          && s.threads[t].pc != AtLock(true) && !s.threads[t].pc.Invalidating?
          && s.threads[t].pc != Done(Cancelled))
    && (forall c :: 0 <= c < |s.sh.claims| ==> s.sh.claims[c].invalid != Closed)
    && (forall w :: w in s.sh.demand ==> s.threads[s.owner[w]].pc == Waiting(w))
  }

  ghost predicate Ordered<V>(s: System<V>)
    requires Inv(s)
  {
    && Undisturbed(s)
    && s.enqueued == Items(s.handed) + Pending(s.sh)
    && (forall h :: h in s.handed ==> HandoverOk(s, h))
    && (forall t :: 0 <= t < |s.threads| ==> ReceiptLogged(s, t))
  }

  lemma MatchedProducerKeepsOrdered<V>(s: System<V>, t: nat)
    requires Inv(s) && Ordered(s) && Enabled(s, Section(t)) && Inv(Apply(s, Section(t)))
    requires s.threads[t].call.Produces() && s.sh.demand != []
    ensures Ordered(Apply(s, Section(t)))
  {
    var s' := Apply(s, Section(t));
    var item := Item(t, s.threads[t].call.d);
    OfferKeepsOneSided(s.sh, item, ParkedClaim(s.threads[t].call, item));
    var w := MatchedDemand(s);
    assert ThreadOk(s, s.owner[w]);
    assert s'.enqueued == Items(s'.handed) + Pending(s'.sh);
    forall h | h in s'.handed
      ensures HandoverOk(s', h)
    {
      if h in s.handed {
        assert HandoverOk(s, h) && ThreadOk(s, h.to);
      }
    }
    forall u | 0 <= u < |s'.threads|
      ensures ReceiptLogged(s', u)
    {
      assert ReceiptLogged(s, u) && ThreadOk(s, u);
    }
  }

  lemma ParkingProducerKeepsOrdered<V>(s: System<V>, t: nat)
    requires Inv(s) && Ordered(s) && Enabled(s, Section(t)) && Inv(Apply(s, Section(t)))
    requires s.threads[t].call.Produces() && s.sh.demand == []
    ensures Ordered(Apply(s, Section(t)))
  {
    var s' := Apply(s, Section(t));
    var item := Item(t, s.threads[t].call.d);
    OfferKeepsOneSided(s.sh, item, ParkedClaim(s.threads[t].call, item));
    forall h | h in s'.handed
      ensures HandoverOk(s', h)
    {
      assert HandoverOk(s, h);
    }
    forall u | 0 <= u < |s'.threads|
      ensures ReceiptLogged(s', u)
    {
      assert ReceiptLogged(s, u) && ThreadOk(s, u);
    }
  }

  lemma MatchedConsumerKeepsOrdered<V>(s: System<V>, t: nat)
    requires Inv(s) && Ordered(s) && Enabled(s, Section(t)) && Inv(Apply(s, Section(t)))
    requires !s.threads[t].call.Produces() && s.sh.supply != []
    ensures Ordered(Apply(s, Section(t)))
  {
    var s' := Apply(s, Section(t));
    TakeKeepsOneSided(s.sh, s.threads[t].call.Dequeue?);
    var c := s.sh.supply[|s.sh.supply| - 1];
    assert c in s.sh.supply && ClaimOk(s, c);
    assert Items(s'.handed) == Items(s.handed) + [s.sh.claims[c].datum.value];
    forall h | h in s'.handed
      ensures HandoverOk(s', h)
    {
      if h in s.handed {
        assert HandoverOk(s, h);
      }
    }
    forall u | 0 <= u < |s'.threads|
      ensures ReceiptLogged(s', u)
    {
      assert ReceiptLogged(s, u);
    }
  }

  lemma UnmatchedConsumerKeepsOrdered<V>(s: System<V>, t: nat)
    requires Inv(s) && Ordered(s) && Enabled(s, Section(t)) && Inv(Apply(s, Section(t)))
    requires !s.threads[t].call.Produces() && s.sh.supply == []
    ensures Ordered(Apply(s, Section(t)))
  {
    var s' := Apply(s, Section(t));
    TakeKeepsOneSided(s.sh, s.threads[t].call.Dequeue?);
    forall h | h in s'.handed
      ensures HandoverOk(s', h)
    {
      assert HandoverOk(s, h);
    }
    forall u | 0 <= u < |s'.threads|
      ensures ReceiptLogged(s', u)
    {
      assert ReceiptLogged(s, u);
    }
  }

  lemma StartKeepsOrdered<V>(s: System<V>, call: Call<V>)
    requires Inv(s) && Ordered(s) && Inv(Apply(s, Start(call)))
    ensures Ordered(Apply(s, Start(call)))
  {
    var s' := Apply(s, Start(call));
    forall h | h in s'.handed
      ensures HandoverOk(s', h)
    {
      assert HandoverOk(s, h);
    }
    forall u | 0 <= u < |s.threads|
      ensures ReceiptLogged(s', u)
    {
      assert ReceiptLogged(s, u);
    }
  }

  lemma ProducerMeetingKeepsOrdered<V>(s: System<V>, t: nat, u: nat)
    requires Inv(s) && Ordered(s) && Enabled(s, Rendezvous(t, u)) && Inv(Apply(s, Rendezvous(t, u)))
    requires s.threads[t].call.Produces()
    ensures Ordered(Apply(s, Rendezvous(t, u)))
  {
    var s' := Apply(s, Rendezvous(t, u));
    assert ThreadOk(s, t) && ThreadOk(s, u) && ReceiptLogged(s, u);
    forall h | h in s'.handed
      ensures HandoverOk(s', h)
    {
      assert HandoverOk(s, h);
    }
    forall v | 0 <= v < |s'.threads|
      ensures ReceiptLogged(s', v)
    {
      assert v != t && v != u ==> ReceiptLogged(s, v);
    }
    assert Pending(s'.sh) == Pending(s.sh);
  }

  lemma ConsumerMeetingKeepsOrdered<V>(s: System<V>, t: nat, u: nat)
    requires Inv(s) && Ordered(s) && Enabled(s, Rendezvous(t, u)) && Inv(Apply(s, Rendezvous(t, u)))
    requires !s.threads[t].call.Produces()
    ensures Ordered(Apply(s, Rendezvous(t, u)))
  {
    var s' := Apply(s, Rendezvous(t, u));
    assert ThreadOk(s, t) && ThreadOk(s, u) && ReceiptLogged(s, t);
    forall h | h in s'.handed
      ensures HandoverOk(s', h)
    {
      assert HandoverOk(s, h);
    }
    forall v | 0 <= v < |s'.threads|
      ensures ReceiptLogged(s', v)
    {
      assert v != t && v != u ==> ReceiptLogged(s, v);
    }
    assert Pending(s'.sh) == Pending(s.sh);
  }

  lemma FinishingKeepsOrdered<V>(s: System<V>, step: Step<V>)
    requires Inv(s) && Ordered(s) && Enabled(s, step) && Inv(Apply(s, step))
    requires step.TakeDefault? || step.CloseReady? || step.ReceiveClosed?
    ensures Ordered(Apply(s, step))
  {
    var s' := Apply(s, step);
    assert ThreadOk(s, step.t) && ReceiptLogged(s, step.t) && ClaimOk(s, s.threads[step.t].pc.claim);
    assert Pending(s'.sh) == Pending(s.sh);
    forall h | h in s'.handed
      ensures HandoverOk(s', h)
    {
      assert HandoverOk(s, h);
    }
    forall u | 0 <= u < |s'.threads|
      ensures ReceiptLogged(s', u)
    {
      assert ReceiptLogged(s, u);
    }
  }

  lemma StepKeepsOrdered<V>(s: System<V>, step: Step<V>)
    requires Inv(s) && Ordered(s) && Enabled(s, step) && Inv(Apply(s, step)) && !step.Cancel?
    ensures Ordered(Apply(s, step))
  {
    if step.Section? {
      if s.threads[step.t].call.Produces() {
        if s.sh.demand == [] {
          ParkingProducerKeepsOrdered(s, step.t);
        } else {
          MatchedProducerKeepsOrdered(s, step.t);
        }
      } else if s.sh.supply == [] {
        UnmatchedConsumerKeepsOrdered(s, step.t);
      } else {
        MatchedConsumerKeepsOrdered(s, step.t);
      }
    } else if step.Start? {
      StartKeepsOrdered(s, step.call);
    } else if step.Rendezvous? {
      if s.threads[step.t].call.Produces() {
        ProducerMeetingKeepsOrdered(s, step.t, step.u);
      } else {
        ConsumerMeetingKeepsOrdered(s, step.t, step.u);
      }
    } else if step.TakeDefault? || step.CloseReady? || step.ReceiveClosed? {
      FinishingKeepsOrdered(s, step);
    }
  }

  ghost predicate NeverCancelled<V>(steps: seq<Step<V>>) {
    forall i :: 0 <= i < |steps| ==> !steps[i].Cancel?
  }

  lemma {:induction false} RunKeepsOrdered<V>(s: System<V>, steps: seq<Step<V>>)
    requires Inv(s) && Ordered(s) && Legal(s, steps) && NeverCancelled(steps)
    ensures Ordered(Exec(s, steps))
    decreases |steps|
  {
    if steps == [] {
    } else {
      StepKeepsInv(s, steps[0]);
      StepKeepsOrdered(s, steps[0]);
      RunKeepsOrdered(Apply(s, steps[0]), steps[1..]);
    }
  }

  // First in, first out, and nothing lost: as long as no context is cancelled, everything enqueued,
  // in lock order, is what dequeues were assigned, in lock order, followed by what Slice returns.
  lemma FirstInFirstOut<V>(steps: seq<Step<V>>)
    requires Legal(Init(), steps) && NeverCancelled(steps)
    ensures var s := Exec(Init(), steps); s.enqueued == Items(s.handed) + Pending(s.sh)
  {
    RunKeepsOrdered(Init(), steps);
  }

  // The assignment is the delivery: a dequeue that has returned returned the datum assigned to it,
  // and returns no datum that was not.
  lemma AssignedIffReturned<V>(steps: seq<Step<V>>, t: nat, item: Item<V>)
    requires Legal(Init(), steps) && NeverCancelled(steps)
    requires var s := Exec(Init(), steps); t < |s.threads| && s.threads[t].pc.Done?
    ensures var s := Exec(Init(), steps);
            Handover(item, t) in s.handed <==> s.threads[t].pc == Done(Received(Some(item)))
  {
    RunKeepsOrdered(Init(), steps);
    LoggedIffReturned(Exec(Init(), steps), t, item);
  }

  lemma LoggedIffReturned<V>(s: System<V>, t: nat, item: Item<V>)
    requires Inv(s) && Ordered(s) && t < |s.threads| && s.threads[t].pc.Done?
    ensures Handover(item, t) in s.handed <==> s.threads[t].pc == Done(Received(Some(item)))
  {
    assert ReceiptLogged(s, t) && ThreadOk(s, t);
    if Handover(item, t) in s.handed {
      assert HandoverOk(s, Handover(item, t));
    }
  }
}
