/** What the dynamic channel guarantees over whole runs. */
module ChannelDelivery {
  import opened Wrappers
  import opened DynamicChannels
  import opened ChannelProtocol

  // ----- Runs -----

  ghost predicate Legal<V>(s: System<V>, steps: seq<Step<V>>)
    requires Inv(s)
    decreases |steps|
  {
    steps != [] ==>
      && Enabled(s, steps[0])
      && (StepKeepsInv(s, steps[0]);
          Legal(Apply(s, steps[0]), steps[1..]))
  }

  ghost function Exec<V>(s: System<V>, steps: seq<Step<V>>): (s': System<V>)
    requires Inv(s) && Legal(s, steps)
    ensures Inv(s')
    decreases |steps|
  {
    if steps == [] then s else
    StepKeepsInv(s, steps[0]);
    Exec(Apply(s, steps[0]), steps[1..])
  }

  // ----- At most one delivery -----

  // Where the right to deliver the datum of an enqueue can be. It is lost in a claim that has been closed by its
  // producer and invalidated by its consumer.
  datatype Place =
    | AtProducer
    | Queued(claim: nat)
    | Taken(taker: nat)
    | Handed(to: nat)
    | Delivered(to: nat)
    | Lost(claim: nat)

  ghost predicate At<V>(s: System<V>, e: nat, p: Place)
    requires Bounded(s)
  {
    match p
    case AtProducer =>
      && e < |s.threads| && s.threads[e].call.Produces()
      && (s.threads[e].pc.AtLock? || s.threads[e].pc.Offering? || s.threads[e].pc.Closing?)
    case Queued(c) => c in s.sh.supply && s.owner[c] == e
    case Taken(t) =>
      && t < |s.threads| && !s.threads[t].call.Produces()
      && s.threads[t].pc.Offering? && s.owner[s.threads[t].pc.claim] == e
    case Handed(t) =>
      && t < |s.threads| && (s.threads[t].pc.Waiting? || s.threads[t].pc.Invalidating?)
      && var claim := s.sh.claims[s.threads[t].pc.claim];
         claim.ready == Closed && claim.datum.Some? && claim.datum.value.origin == e
    case Delivered(t) => Receives(s, t, e)
    case Lost(c) =>
      && c < |s.sh.claims|
      && var claim := s.sh.claims[c];
         claim.ready == Closed == claim.invalid && claim.datum.Some? && claim.datum.value.origin == e
  }

  ghost predicate OnePlace<V>(s: System<V>)
    requires Bounded(s)
  {
    forall e, p, q :: At(s, e, p) && At(s, e, q) ==> p == q
  }

  // At most the right of e moves, from one place to another.
  ghost predicate Moves<V>(s: System<V>, s': System<V>, e: nat, from: Place, to: Place)
    requires Bounded(s) && Bounded(s')
  {
    forall x, p :: At(s', x, p) ==>
      At(s, x, p) || (x == e && p == to && At(s, e, from) && !At(s', e, from))
  }

  lemma MoveKeepsOnePlace<V>(s: System<V>, s': System<V>, e: nat, from: Place, to: Place)
    requires Bounded(s) && Bounded(s') && OnePlace(s) && Moves(s, s', e, from, to)
    ensures OnePlace(s')
  {
  }

  // A call not yet made has nothing to deliver.
  lemma FutureCallHasNoPlace<V>(s: System<V>, p: Place)
    requires Inv(s)
    ensures !At(s, |s.threads|, p)
  {
    match p
    case AtProducer =>
    case Queued(c) =>
    case Taken(_) =>
    case Handed(t) =>
      if t < |s.threads| && (s.threads[t].pc.Waiting? || s.threads[t].pc.Invalidating?) {
        assert ThreadOk(s, t) && ClaimOk(s, s.threads[t].pc.claim);
      }
    case Delivered(t) =>
      if t < |s.threads| {
        assert ThreadOk(s, t);
      }
    case Lost(c) =>
      if c < |s.sh.claims| {
        assert ClaimOk(s, c);
      }
  }

  lemma StartKeepsOnePlace<V>(s: System<V>, call: Call<V>)
    requires Inv(s) && OnePlace(s) && Bounded(Apply(s, Start(call)))
    ensures OnePlace(Apply(s, Start(call)))
  {
    var s' := Apply(s, Start(call));
    forall x: nat, p | At(s', x, p)
      ensures At(s, x, p) || (x == |s.threads| && p == AtProducer)
    {
    }
    forall p
      ensures !At(s, |s.threads|, p)
    {
      FutureCallHasNoPlace(s, p);
    }
  }

  lemma ProducerKeepsOnePlace<V>(s: System<V>, t: nat)
    requires Inv(s) && OnePlace(s) && Enabled(s, Section(t)) && s.threads[t].call.Produces()
    requires Bounded(Apply(s, Section(t)))
    ensures OnePlace(Apply(s, Section(t)))
  {
    if s.sh.demand != [] {
      var w := s.sh.demand[|s.sh.demand| - 1];
      assert w in s.sh.demand && ClaimOk(s, w);
    }
    MoveKeepsOnePlace(s, Apply(s, Section(t)), t, AtProducer, Queued(|s.sh.claims|));
  }

  lemma ConsumerKeepsOnePlace<V>(s: System<V>, t: nat)
    requires Inv(s) && OnePlace(s) && Enabled(s, Section(t)) && !s.threads[t].call.Produces()
    requires Bounded(Apply(s, Section(t)))
    ensures OnePlace(Apply(s, Section(t)))
  {
    var s' := Apply(s, Section(t));
    if s.sh.supply != [] {
      var c := s.sh.supply[|s.sh.supply| - 1];
      assert c in s.sh.supply && ClaimOk(s, c);
      PopTakesOldest(s.sh.supply);
      MoveKeepsOnePlace(s, s', s.owner[c], Queued(c), if s.sh.claims[c].ready == Nil then Delivered(t) else Taken(t));
    } else {
      MoveKeepsOnePlace(s, s', t, AtProducer, AtProducer);
    }
  }

  // Giving up, or going back to the lock, delivers nothing.
  lemma LeavingKeepsOnePlace<V>(s: System<V>, step: Step<V>)
    requires Inv(s) && OnePlace(s) && Enabled(s, step) && Bounded(Apply(s, step))
    requires step.FindInvalid? || step.Cancel?
    ensures OnePlace(Apply(s, step))
  {
    assert ThreadOk(s, step.t);
    MoveKeepsOnePlace(s, Apply(s, step), step.t, AtProducer, AtProducer);
  }

  // A waiter that gives up loses what it has been handed.
  lemma CloseInvalidKeepsOnePlace<V>(s: System<V>, t: nat)
    requires Inv(s) && OnePlace(s) && Enabled(s, CloseInvalid(t)) && Bounded(Apply(s, CloseInvalid(t)))
    ensures OnePlace(Apply(s, CloseInvalid(t)))
  {
    var c := s.threads[t].pc.claim;
    assert ThreadOk(s, t) && ClaimOk(s, c);
    var e := if s.sh.claims[c].datum.Some? then s.sh.claims[c].datum.value.origin else t;
    MoveKeepsOnePlace(s, Apply(s, CloseInvalid(t)), e, Handed(t), Lost(c));
  }

  lemma RendezvousKeepsOnePlace<V>(s: System<V>, t: nat, u: nat)
    requires Inv(s) && OnePlace(s) && Enabled(s, Rendezvous(t, u)) && Bounded(Apply(s, Rendezvous(t, u)))
    ensures OnePlace(Apply(s, Rendezvous(t, u)))
  {
    var s' := Apply(s, Rendezvous(t, u));
    assert ThreadOk(s, t) && ThreadOk(s, u) && ClaimOk(s, s.threads[t].pc.claim);
    if s.threads[t].call.Produces() {
      MoveKeepsOnePlace(s, s', t, AtProducer, Delivered(u));
    } else {
      MoveKeepsOnePlace(s, s', u, Taken(t), Delivered(t));
    }
  }

  lemma TakeDefaultKeepsOnePlace<V>(s: System<V>, t: nat)
    requires Inv(s) && OnePlace(s) && Enabled(s, TakeDefault(t)) && Bounded(Apply(s, TakeDefault(t)))
    ensures OnePlace(Apply(s, TakeDefault(t)))
  {
    var c := s.threads[t].pc.claim;
    assert ThreadOk(s, t) && ClaimOk(s, c);
    MoveKeepsOnePlace(s, Apply(s, TakeDefault(t)), s.owner[c], Taken(t), Delivered(t));
  }

  lemma CloseReadyKeepsOnePlace<V>(s: System<V>, t: nat)
    requires Inv(s) && OnePlace(s) && Enabled(s, CloseReady(t)) && Bounded(Apply(s, CloseReady(t)))
    ensures OnePlace(Apply(s, CloseReady(t)))
  {
    var s' := Apply(s, CloseReady(t));
    var c := s.threads[t].pc.claim;
    assert ThreadOk(s, t);
    var to := if s.sh.claims[c].invalid == Closed then Lost(c) else Handed(s.owner[c]);
    forall x: nat, p | At(s', x, p)
      ensures At(s, x, p) || (x == t && p == to)
    {
      if p.Handed? {
        assert ThreadOk(s, p.to);
      }
    }
    MoveKeepsOnePlace(s, s', t, AtProducer, to);
  }

  lemma ReceiveClosedKeepsOnePlace<V>(s: System<V>, t: nat)
    requires Inv(s) && OnePlace(s) && Enabled(s, ReceiveClosed(t)) && Bounded(Apply(s, ReceiveClosed(t)))
    ensures OnePlace(Apply(s, ReceiveClosed(t)))
  {
    var c := s.threads[t].pc.claim;
    assert ThreadOk(s, t) && ClaimOk(s, c);
    MoveKeepsOnePlace(s, Apply(s, ReceiveClosed(t)), s.sh.claims[c].datum.value.origin, Handed(t), Delivered(t));
  }

  lemma {:induction false} RunKeepsOnePlace<V>(s: System<V>, steps: seq<Step<V>>)
    requires Inv(s) && OnePlace(s) && Legal(s, steps)
    ensures OnePlace(Exec(s, steps))
    decreases |steps|
  {
    if steps == [] {
    } else {
      var s' := Apply(s, steps[0]);
      StepKeepsInv(s, steps[0]);
      match steps[0] {
        case Start(call) => StartKeepsOnePlace(s, call);
        case Section(t) =>
          if s.threads[t].call.Produces() { ProducerKeepsOnePlace(s, t); } else { ConsumerKeepsOnePlace(s, t); }
        case Rendezvous(t, u) => RendezvousKeepsOnePlace(s, t, u);
        case TakeDefault(t) => TakeDefaultKeepsOnePlace(s, t);
        case CloseInvalid(t) => CloseInvalidKeepsOnePlace(s, t);
        case CloseReady(t) => CloseReadyKeepsOnePlace(s, t);
        case ReceiveClosed(t) => ReceiveClosedKeepsOnePlace(s, t);
        case _ => LeavingKeepsOnePlace(s, steps[0]);
      }
      RunKeepsOnePlace(s', steps[1..]);
    }
  }

  // In every interleaving, with any cancellations, each datum is returned by at most one dequeue,
  // and what that dequeue returns is exactly what was enqueued.
  lemma DeliveredAtMostOnce<V>(steps: seq<Step<V>>, e: nat, t: nat, u: nat)
    requires Legal(Init(), steps)
    requires var s := Exec(Init(), steps); Receives(s, t, e) && Receives(s, u, e)
    ensures t == u
    ensures var s := Exec(Init(), steps);
            && !s.threads[t].call.Produces()
            && e < |s.threads| && s.threads[e].call.Produces()
            && s.threads[t].pc == Done(Received(Some(Item(e, s.threads[e].call.d))))
  {
    var s := Exec(Init(), steps);
    RunKeepsOnePlace(Init(), steps);
    assert At(s, e, Delivered(t)) && At(s, e, Delivered(u));
    assert ThreadOk(s, t);
  }

  // A blocking Enqueue returns nil only if exactly one dequeue returns its datum.
  lemma AcceptedIsDeliveredOnce<V>(steps: seq<Step<V>>, e: nat) returns (t: nat)
    requires Legal(Init(), steps)
    requires var s := Exec(Init(), steps);
             e < |s.threads| && s.threads[e].call.Enqueue? && s.threads[e].pc == Done(Accepted)
    ensures Receives(Exec(Init(), steps), t, e)
    ensures forall u :: Receives(Exec(Init(), steps), u, e) ==> u == t
  {
    var s := Exec(Init(), steps);
    t :| Receives(s, t, e);
    forall u | Receives(s, u, e)
      ensures u == t
    {
      DeliveredAtMostOnce(steps, e, t, u);
    }
  }

  // Where nobody calls DequeueNonblock, a blocking Enqueue that has returned
  // returned nil if and only if some dequeue returned its datum.
  lemma AcceptedIffDelivered<V>(steps: seq<Step<V>>, e: nat)
    requires Legal(Init(), steps)
    requires var s := Exec(Init(), steps);
             && e < |s.threads| && s.threads[e].call.Enqueue? && s.threads[e].pc.Done?
             && forall t :: 0 <= t < |s.threads| ==> !s.threads[t].call.DequeueNonblock?
    ensures var s := Exec(Init(), steps);
            s.threads[e].pc == Done(Accepted) <==> exists t :: Receives(s, t, e)
  {
    var s := Exec(Init(), steps);
    if t :| Receives(s, t, e) {
      assert ThreadOk(s, t);
    }
  }

  // No goroutine can ever send on or close a closed or nil channel: every pending send finds ready
  // open, every pending close(ready) closes it for the first time, and so does every invalidate.
  lemma NoChannelPanics<V>(steps: seq<Step<V>>, t: nat)
    requires Legal(Init(), steps) && t < |Exec(Init(), steps).threads|
    ensures var s := Exec(Init(), steps);
            var pc := s.threads[t].pc;
            && (pc.Offering? || pc.Closing? ==> s.sh.claims[pc.claim].ready == Open)
            && (pc.Invalidating? ==> s.sh.claims[pc.claim].invalid == Open)
  {
    assert ThreadOk(Exec(Init(), steps), t);
  }

  // At every lock release at most one of supply and demand is non-empty.
  lemma QueuesNeverBothFilled<V>(steps: seq<Step<V>>)
    requires Legal(Init(), steps)
    ensures OneSided(Exec(Init(), steps).sh)
  {
    assert QueuesOk(Exec(Init(), steps));
  }
}
