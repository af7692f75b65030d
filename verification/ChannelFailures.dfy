/** What the default branch of DequeueNonblock and cancellations can do,
    and exactly which programs they can do it to. */
module ChannelFailures {
  import opened Wrappers
  import opened DynamicChannels
  import opened ChannelProtocol
  import opened ChannelDelivery
  import opened ChannelLoss

  // ----- Runs -----

  // steps is a legal run that ends in s.
  ghost predicate Reaches<V>(steps: seq<Step<V>>, s: System<V>) {
    Legal(Init(), steps) && Exec(Init(), steps) == s
  }

  lemma {:induction false} AppendStep<V>(s: System<V>, steps: seq<Step<V>>, step: Step<V>)
    requires Inv(s) && Legal(s, steps) && Enabled(Exec(s, steps), step)
    ensures Legal(s, steps + [step]) && Exec(s, steps + [step]) == Apply(Exec(s, steps), step)
    decreases |steps|
  {
    var all := steps + [step];
    if steps == [] {
      StepKeepsInv(s, step);
      assert all[1..] == [] && Legal(Apply(s, step), all[1..]);
    } else {
      StepKeepsInv(s, steps[0]);
      AppendStep(Apply(s, steps[0]), steps[1..], step);
      assert all[1..] == steps[1..] + [step];
    }
  }

  ghost predicate Takes<V>(s: System<V>, step: Step<V>, s': System<V>) {
    Bounded(s) && Enabled(s, step) && s' == Apply(s, step)
  }

  lemma Continue<V>(steps: seq<Step<V>>, s: System<V>, step: Step<V>, s': System<V>) returns (steps': seq<Step<V>>)
    requires Reaches(steps, s)
    requires Takes(s, step, s')
    ensures Reaches(steps', s')
  {
    AppendStep(Init(), steps, step);
    steps' := steps + [step];
  }

  // A claim parked by one call and taken by another, seen at the select.
  function Offered<V>(a: Thread<V>, b: Thread<V>, claim: Claim<Item<V>>, item: Item<V>): System<V> {
    System(Shared([claim], [], []), [a, b], [0], [item], [Handover(item, if a.call.Dequeue? then 0 else 1)])
  }

  // Two calls have started, the first has parked a claim.
  function ParkedFirst<V>(a: Call<V>, b: Call<V>): System<V>
    requires a.Dequeue? || a.Enqueue?
  {
    System(if a.Dequeue? then Shared([BlockingClaim(None)], [], [0])
           else Shared([BlockingClaim(Some(Item(0, a.d)))], [0], []),
           [Thread(a, Waiting(0)), Thread(b, AtLock(false))], [0],
           if a.Dequeue? then [] else [Item(0, a.d)], [])
  }

  lemma ReachParked<V>(a: Call<V>, b: Call<V>) returns (steps: seq<Step<V>>)
    requires a.Dequeue? || a.Enqueue?
    ensures Reaches(steps, ParkedFirst(a, b))
  {
    var s0: System<V> := Init();
    var s1 := s0.(threads := [Thread(a, AtLock(false))]);
    var s2 := s0.(threads := [Thread(a, AtLock(false)), Thread(b, AtLock(false))]);
    steps := [];
    steps := Continue(steps, s0, Start(a), s1);
    steps := Continue(steps, s1, Start(b), s2);
    steps := Continue(steps, s2, Section(0), ParkedFirst(a, b));
  }

  lemma ReachOffered<V>(a: Call<V>, b: Call<V>, item: Item<V>) returns (steps: seq<Step<V>>)
    requires if a.Produces() then a.Enqueue? && !b.Produces() && item == Item(0, a.d)
             else a.Dequeue? && b.Produces() && item == Item(1, b.d)
    ensures Reaches(steps, Offered(Thread(a, Waiting(0)), Thread(b, Offering(0)), BlockingClaim(Some(item)), item))
  {
    steps := ReachParked(a, b);
    steps := Continue(steps, ParkedFirst(a, b), Section(1),
                      Offered(Thread(a, Waiting(0)), Thread(b, Offering(0)), BlockingClaim(Some(item)), item));
  }

  // Two calls have been made and have both succeeded, with the datum of the one handed to the other.
  ghost predicate Met<V>(s: System<V>, a: Call<V>, b: Call<V>) {
    var e := if a.Produces() then 0 else 1;
    && |s.threads| == 2 && s.threads[0].call == a && s.threads[1].call == b
    && s.threads[e].pc == Done(Accepted) && s.threads[e].call.Produces()
    && s.threads[1 - e].pc == Done(Received(Some(Item(e, s.threads[e].call.d))))
  }

  // A blocking call that waits can be met by a blocking one, and an Enqueue by a DequeueNonblock too.
  lemma WaitingCanMeet<V>(a: Call<V>, b: Call<V>) returns (steps: seq<Step<V>>)
    requires (a.Enqueue? && !b.Produces()) || (a.Dequeue? && b.Enqueue?)
    ensures Legal(Init(), steps) && Met(Exec(Init(), steps), a, b)
  {
    var item := if a.Enqueue? then Item(0, a.d) else Item(1, b.d);
    var open := BlockingClaim(Some(item));
    var accepted, received := Done(Accepted), Done(Received(Some(item)));
    var s := Offered(Thread(a, Waiting(0)), Thread(b, Offering(0)), open, item);
    var s' := Offered(Thread(a, if a.Enqueue? then accepted else received),
                      Thread(b, if a.Enqueue? then received else accepted), open, item);
    steps := ReachOffered(a, b, item);
    steps := Continue(steps, s, Rendezvous(1, 0), s');
  }

  // What EnqueueNonblock has parked can be taken by either dequeue.
  lemma ParkedCanBeTaken<V>(d: V, b: Call<V>) returns (steps: seq<Step<V>>)
    requires !b.Produces()
    ensures Legal(Init(), steps) && Met(Exec(Init(), steps), EnqueueNonblock(d), b)
  {
    var item, a := Item(0, d), Thread(EnqueueNonblock(d), Done(Accepted));
    var claim := NonblockingClaim(item);
    var s0: System<V> := Init();
    var s1 := s0.(threads := [Thread(EnqueueNonblock(d), AtLock(false))]);
    var s2 := System(Shared([claim], [0], []), [a], [0], [item], []);
    var s3 := System(Shared([claim], [0], []), [a, Thread(b, AtLock(false))], [0], [item], []);
    var s4 := System(Shared([claim], [], []), [a, Thread(b, Done(Received(Some(item))))], [0], [item],
                     [Handover(item, 1)]);
    steps := [];
    steps := Continue(steps, s0, Start(EnqueueNonblock(d)), s1);
    steps := Continue(steps, s1, Section(0), s2);
    steps := Continue(steps, s2, Start(b), s3);
    steps := Continue(steps, s3, Section(1), s4);
  }

  // ----- The default branch -----

  // DequeueNonblock's default branch takes a datum without meeting its producer,
  // whose Enqueue can then still report the context's error.
  lemma FailedEnqueueCanBeDelivered<V>(d: V) returns (steps: seq<Step<V>>)
    ensures Legal(Init(), steps)
    ensures var s := Exec(Init(), steps);
            && |s.threads| == 2
            && s.threads[0] == Thread(Enqueue(d), Done(Cancelled))
            && s.threads[1] == Thread(DequeueNonblock, Done(Received(Some(Item(0, d)))))
  {
    var item := Item(0, d);
    var open := BlockingClaim(Some(item));
    var got := Thread(DequeueNonblock, Done(Received(Some(item))));
    var s4 := Offered(Thread(Enqueue(d), Waiting(0)), Thread(DequeueNonblock, Offering(0)), open, item);
    var s5 := Offered(Thread(Enqueue(d), Waiting(0)), got, open, item);
    var s6 := Offered(Thread(Enqueue(d), Invalidating(0)), got, open, item);
    var s7 := Offered(Thread(Enqueue(d), Done(Cancelled)), got, open.(invalid := Closed), item);
    steps := ReachOffered(Enqueue(d), DequeueNonblock, item);
    steps := Continue(steps, s4, TakeDefault(1), s5);
    steps := Continue(steps, s5, Cancel(0), s6);
    steps := Continue(steps, s6, CloseInvalid(0), s7);
  }

  ghost predicate Returned<V>(s: System<V>, e: nat) {
    e < |s.threads| && s.threads[e].call.Enqueue? && s.threads[e].pc.Done?
  }

  ghost predicate OnlyCalls<V>(s: System<V>, allowed: iset<Call<V>>) {
    forall th :: th in s.threads ==> th.call in allowed
  }

  // A program that makes only the allowed calls can rely on what Enqueue returns: nil means that a dequeue has
  // returned the datum, and an error that none ever has.
  ghost predicate EnqueueTells<V(!new)>(allowed: iset<Call<V>>) {
    forall steps: seq<Step<V>>, s: System<V>, e: nat :: Reaches(steps, s) && OnlyCalls(s, allowed) && Returned(s, e) ==>
      (s.threads[e].pc == Done(Accepted) <==> exists t :: Receives(s, t, e))
  }

  // It can exactly when it does not make both Enqueue and DequeueNonblock calls.
  lemma EnqueueTellsIff<V(!new)>(allowed: iset<Call<V>>)
    ensures EnqueueTells(allowed) <==> !(DequeueNonblock in allowed && exists d :: Enqueue(d) in allowed)
  {
    if DequeueNonblock in allowed && exists d :: Enqueue(d) in allowed {
      var d :| Enqueue(d) in allowed;
      var steps := FailedEnqueueCanBeDelivered(d);
      var s := Exec(Init(), steps);
      assert Reaches(steps, s) && OnlyCalls(s, allowed) && Returned(s, 0) && Receives(s, 1, 0);
    } else {
      forall steps: seq<Step<V>>, s: System<V>, e: nat | Reaches(steps, s) && OnlyCalls(s, allowed) && Returned(s, e)
        ensures s.threads[e].pc == Done(Accepted) <==> exists t :: Receives(s, t, e)
      {
        assert s.threads[e] in s.threads;
        forall t | 0 <= t < |s.threads|
          ensures !s.threads[t].call.DequeueNonblock?
        {
          assert s.threads[t] in s.threads;
        }
        AcceptedIffDelivered(steps, e);
      }
    }
  }

  // ----- Cancellation -----

  // EnqueueNonblock has closed the claim of a waiting Dequeue and returned.
  function Given<V>(d: V, consumer: Pc<V>, invalid: Gate): System<V> {
    var item := Item(1, d);
    Offered(Thread(Dequeue, consumer), Thread(EnqueueNonblock(d), Done(Accepted)),
            Claim(Some(item), Closed, invalid), item)
  }

  lemma ReachGiven<V>(d: V) returns (steps: seq<Step<V>>)
    ensures Reaches(steps, Given(d, Waiting(0), Open))
  {
    var item := Item(1, d);
    var open := BlockingClaim(Some(item));
    var s4 := Offered(Thread(Dequeue, Waiting(0)), Thread(EnqueueNonblock(d), Offering(0)), open, item);
    var s5 := Offered(Thread(Dequeue, Waiting(0)), Thread(EnqueueNonblock(d), Closing(0)), open, item);
    steps := ReachOffered(Dequeue, EnqueueNonblock(d), item);
    steps := Continue(steps, s4, TakeDefault(1), s5);
    steps := Continue(steps, s5, CloseReady(1), Given(d, Waiting(0), Open));
  }

  // EnqueueNonblock can serve a waiting Dequeue.
  lemma GivenCanBeReceived<V>(d: V) returns (steps: seq<Step<V>>)
    ensures Legal(Init(), steps) && Met(Exec(Init(), steps), Dequeue, EnqueueNonblock(d))
  {
    steps := ReachGiven(d);
    steps := Continue(steps, Given(d, Waiting(0), Open), ReceiveClosed(0),
                      Given(d, Done(Received(Some(Item(1, d)))), Open));
  }

  // Every enqueue can pass its datum to every dequeue, and whoever waits first can be served.
  lemma EveryPairCanMeet<V>(a: Call<V>, b: Call<V>) returns (steps: seq<Step<V>>)
    requires (a.Produces() && !b.Produces()) || (a.Dequeue? && b.Produces())
    ensures Legal(Init(), steps) && Met(Exec(Init(), steps), a, b)
  {
    if a.EnqueueNonblock? {
      steps := ParkedCanBeTaken(a.d, b);
    } else if b.EnqueueNonblock? {
      steps := GivenCanBeReceived(b.d);
    } else {
      steps := WaitingCanMeet(a, b);
    }
  }

  // The Dequeue whose claim has been closed has both cases of its select ready and may choose its context.
  // Nobody has the datum then.
  lemma CancelledDequeueCanLoseDatum<V>(d: V) returns (steps: seq<Step<V>>)
    ensures Legal(Init(), steps)
    ensures var s := Exec(Init(), steps);
            && s.threads == [Thread(Dequeue, Done(Cancelled)), Thread(EnqueueNonblock(d), Done(Accepted))]
            && Pending(s.sh) == []
  {
    var given := Given(d, Waiting(0), Open);
    var leaving := Given(d, Invalidating(0), Open);
    var left := Given(d, Done(Cancelled), Closed);
    steps := ReachGiven(d);
    steps := Continue(steps, given, Cancel(0), leaving);
    steps := Continue(steps, leaving, CloseInvalid(0), left);
  }

  ghost predicate OnlyCancelled<V>(s: System<V>, cancellable: iset<Call<V>>) {
    forall th :: th in s.threads && GaveUp(th) ==> th.call in cancellable
  }

  ghost predicate IsAccepted<V>(s: System<V>, e: nat) {
    e < |s.threads| && s.threads[e].call.Produces() && s.threads[e].pc == Done(Accepted)
  }

  ghost predicate IsKept<V>(s: System<V>, e: nat)
    requires Bounded(s)
  {
    exists p: Place :: (p.Queued? || p.Handed? || p.Delivered?) && At(s, e, p)
  }

  // The channel loses nothing it has accepted from a program that makes only the allowed calls and cancels only
  // the cancellable ones: the datum is queued, handed to a Dequeue that has not looked yet, or returned.
  ghost predicate Lossless<V(!new)>(allowed: iset<Call<V>>, cancellable: iset<Call<V>>) {
    forall steps: seq<Step<V>>, s: System<V>, e: nat ::
      Reaches(steps, s) && OnlyCalls(s, allowed) && OnlyCancelled(s, cancellable) && IsAccepted(s, e) ==> IsKept(s, e)
  }

  lemma AcceptedIsKept<V>(steps: seq<Step<V>>, e: nat)
    requires Legal(Init(), steps) && IsAccepted(Exec(Init(), steps), e)
    requires var s := Exec(Init(), steps);
             s.threads[e].call.EnqueueNonblock? ==> forall th :: th in s.threads && th.call.Dequeue? ==> !GaveUp(th)
    ensures IsKept(Exec(Init(), steps), e)
  {
    var s := Exec(Init(), steps);
    if s.threads[e].call.Enqueue? {
      var t := AcceptedIsDeliveredOnce(steps, e);
      assert At(s, e, Delivered(t));
    } else {
      var p := NothingIsLost(steps, e);
    }
  }

  // Exactly when EnqueueNonblock is not used together with a Dequeue that may be cancelled.
  lemma LosslessIff<V(!new)>(allowed: iset<Call<V>>, cancellable: iset<Call<V>>)
    ensures Lossless(allowed, cancellable) <==>
            !((exists d :: EnqueueNonblock(d) in allowed) && Dequeue in allowed && Dequeue in cancellable)
  {
    if (exists d :: EnqueueNonblock(d) in allowed) && Dequeue in allowed && Dequeue in cancellable {
      var d :| EnqueueNonblock(d) in allowed;
      var steps := CancelledDequeueCanLoseDatum(d);
      var s := Exec(Init(), steps);
      assert Reaches(steps, s) && OnlyCalls(s, allowed) && OnlyCancelled(s, cancellable) && IsAccepted(s, 1);
      assert |Pending(s.sh)| == 0;
      assert !IsKept(s, 1);
    } else {
      forall steps: seq<Step<V>>, s: System<V>, e: nat |
        Reaches(steps, s) && OnlyCalls(s, allowed) && OnlyCancelled(s, cancellable) && IsAccepted(s, e)
        ensures IsKept(s, e)
      {
        assert s.threads[e] in s.threads;
        AcceptedIsKept(steps, e);
      }
    }
  }

  // ----- Waiters left behind -----

  // In every run of a program that makes only the allowed calls and cancels only the cancellable ones, each waiter's
  // claim is queued, in somebody's hands, or closed.
  ghost predicate NeverStrands<V(!new)>(allowed: iset<Call<V>>, cancellable: iset<Call<V>>) {
    forall steps: seq<Step<V>>, s: System<V> ::
      Reaches(steps, s) && OnlyCalls(s, allowed) && OnlyCancelled(s, cancellable) ==> NobodyStranded(s)
  }

  // The program has a consumer that can drop the claim of a waiting Enqueue, or an Enqueue that can drop the claim
  // of a waiting Dequeue.
  ghost predicate CanStrand<V(!new)>(allowed: iset<Call<V>>, cancellable: iset<Call<V>>) {
    && (exists d :: Enqueue(d) in allowed)
    && (|| DequeueNonblock in allowed
        || (Dequeue in allowed &&
            (Dequeue in cancellable || exists d :: Enqueue(d) in allowed && Enqueue(d) in cancellable)))
  }

  // The first call waits for its claim, and the second has dropped it.
  ghost predicate LeftBehind<V>(s: System<V>, a: Call<V>, b: Thread<V>) {
    && s.threads == [Thread(a, Waiting(0)), b] && b.pc.Done?
    && |s.sh.claims| == 1 && s.sh.claims[0].ready == Open && s.sh.supply == [] && s.sh.demand == []
  }

  lemma LeftBehindIsStranded<V>(s: System<V>, a: Call<V>, b: Thread<V>)
    requires Bounded(s) && LeftBehind(s, a, b)
    ensures !NobodyStranded(s)
  {
    assert Stranded(s, 0);
  }

  // DequeueNonblock takes the datum of a waiting Enqueue by default: the Enqueue waits on, and nobody has its claim.
  lemma DefaultLeavesEnqueueBehind<V>(d: V) returns (steps: seq<Step<V>>)
    ensures Legal(Init(), steps)
    ensures LeftBehind(Exec(Init(), steps), Enqueue(d), Thread(DequeueNonblock, Done(Received(Some(Item(0, d))))))
  {
    var item := Item(0, d);
    var open := BlockingClaim(Some(item));
    var s := Offered(Thread(Enqueue(d), Waiting(0)), Thread(DequeueNonblock, Offering(0)), open, item);
    var s' := Offered(Thread(Enqueue(d), Waiting(0)), Thread(DequeueNonblock, Done(Received(Some(item)))), open, item);
    steps := ReachOffered(Enqueue(d), DequeueNonblock, item);
    steps := Continue(steps, s, TakeDefault(1), s');
  }

  // A call that gives up with the other side's claim in hand leaves the other side behind.
  lemma CancelledLeavesOtherBehind<V>(a: Call<V>, b: Call<V>) returns (steps: seq<Step<V>>)
    requires (a.Enqueue? && b.Dequeue?) || (a.Dequeue? && b.Enqueue?)
    ensures Legal(Init(), steps) && LeftBehind(Exec(Init(), steps), a, Thread(b, Done(Cancelled)))
  {
    var item := if a.Enqueue? then Item(0, a.d) else Item(1, b.d);
    var open := BlockingClaim(Some(item));
    var s := Offered(Thread(a, Waiting(0)), Thread(b, Offering(0)), open, item);
    var s' := Offered(Thread(a, Waiting(0)), Thread(b, Done(Cancelled)), open, item);
    steps := ReachOffered(a, b, item);
    steps := Continue(steps, s, Cancel(1), s');
  }

  lemma LeftBehindCounts<V(!new)>(steps: seq<Step<V>>, a: Call<V>, b: Thread<V>,
                                  allowed: iset<Call<V>>, cancellable: iset<Call<V>>)
    requires Legal(Init(), steps) && LeftBehind(Exec(Init(), steps), a, b)
    requires a in allowed && b.call in allowed && (GaveUp(b) ==> b.call in cancellable)
    ensures !NeverStrands(allowed, cancellable)
  {
    var s := Exec(Init(), steps);
    assert Reaches(steps, s) && OnlyCalls(s, allowed) && OnlyCancelled(s, cancellable);
    LeftBehindIsStranded(s, a, b);
  }

  lemma CanStrandStrands<V(!new)>(allowed: iset<Call<V>>, cancellable: iset<Call<V>>)
    requires CanStrand(allowed, cancellable)
    ensures !NeverStrands(allowed, cancellable)
  {
    var d :| Enqueue(d) in allowed;
    if DequeueNonblock in allowed {
      var steps := DefaultLeavesEnqueueBehind(d);
      LeftBehindCounts(steps, Enqueue(d), Thread(DequeueNonblock, Done(Received(Some(Item(0, d))))),
                       allowed, cancellable);
    } else if Dequeue in cancellable {
      var steps := CancelledLeavesOtherBehind(Enqueue(d), Dequeue);
      LeftBehindCounts(steps, Enqueue(d), Thread(Dequeue, Done(Cancelled)), allowed, cancellable);
    } else {
      var e :| Enqueue(e) in allowed && Enqueue(e) in cancellable;
      var steps := CancelledLeavesOtherBehind(Dequeue, Enqueue(e));
      LeftBehindCounts(steps, Dequeue, Thread(Enqueue(e), Done(Cancelled)), allowed, cancellable);
    }
  }

  // Calls are not taken back, nor is giving up.
  ghost predicate GoesOn<V>(s: System<V>, s': System<V>) {
    && |s.threads| <= |s'.threads|
    && forall t :: 0 <= t < |s.threads| ==>
         s'.threads[t].call == s.threads[t].call && (GaveUp(s.threads[t]) ==> GaveUp(s'.threads[t]))
  }

  lemma StepGoesOn<V>(s: System<V>, step: Step<V>)
    requires Bounded(s) && Enabled(s, step)
    ensures GoesOn(s, Apply(s, step))
  {
  }

  lemma {:induction false} RunGoesOn<V>(s: System<V>, steps: seq<Step<V>>)
    requires Inv(s) && Legal(s, steps)
    ensures GoesOn(s, Exec(s, steps))
    decreases |steps|
  {
    if steps == [] {
    } else {
      StepKeepsInv(s, steps[0]);
      StepGoesOn(s, steps[0]);
      RunGoesOn(Apply(s, steps[0]), steps[1..]);
    }
  }

  lemma GoesOnKeepsOnly<V>(s: System<V>, s': System<V>, allowed: iset<Call<V>>, cancellable: iset<Call<V>>)
    requires GoesOn(s, s') && OnlyCalls(s', allowed) && OnlyCancelled(s', cancellable)
    ensures OnlyCalls(s, allowed) && OnlyCancelled(s, cancellable)
  {
    forall th | th in s.threads
      ensures th.call in allowed && (GaveUp(th) ==> th.call in cancellable)
    {
      var t: nat :| t < |s.threads| && s.threads[t] == th;
      assert s'.threads[t] in s'.threads;
    }
  }

  // Whoever drops a claim its owner waits for is one of the calls that can.
  lemma AbandoningCanStrand<V(!new)>(s: System<V>, step: Step<V>, allowed: iset<Call<V>>, cancellable: iset<Call<V>>)
    requires Inv(s) && Enabled(s, step) && Abandons(s, step)
    requires OnlyCalls(Apply(s, step), allowed) && OnlyCancelled(Apply(s, step), cancellable)
    ensures CanStrand(allowed, cancellable)
  {
    var s', t := Apply(s, step), step.t;
    var u := s.owner[s.threads[t].pc.claim];
    assert ThreadOk(s, t) && ThreadOk(s, u) && ClaimOk(s, s.threads[t].pc.claim);
    assert s'.threads[t] in s'.threads && s'.threads[u] in s'.threads;
  }

  lemma {:induction false} RunNeverStrands<V(!new)>(s: System<V>, steps: seq<Step<V>>, allowed: iset<Call<V>>,
                                                    cancellable: iset<Call<V>>)
    requires Inv(s) && Legal(s, steps) && NobodyStranded(s) && !CanStrand(allowed, cancellable)
    requires OnlyCalls(Exec(s, steps), allowed) && OnlyCancelled(Exec(s, steps), cancellable)
    ensures NobodyStranded(Exec(s, steps))
    decreases |steps|
  {
    if steps == [] {
    } else {
      var s' := Apply(s, steps[0]);
      StepStrandsIff(s, steps[0]);
      RunGoesOn(s', steps[1..]);
      GoesOnKeepsOnly(s', Exec(s', steps[1..]), allowed, cancellable);
      if Abandons(s, steps[0]) {
        AbandoningCanStrand(s, steps[0], allowed, cancellable);
      }
      RunNeverStrands(s', steps[1..], allowed, cancellable);
    }
  }

  // Exactly the programs without such calls never leave a waiter behind.
  lemma NeverStrandsIff<V(!new)>(allowed: iset<Call<V>>, cancellable: iset<Call<V>>)
    ensures NeverStrands(allowed, cancellable) <==> !CanStrand(allowed, cancellable)
  {
    if CanStrand(allowed, cancellable) {
      CanStrandStrands(allowed, cancellable);
    } else {
      forall steps: seq<Step<V>>, s: System<V> |
        Reaches(steps, s) && OnlyCalls(s, allowed) && OnlyCancelled(s, cancellable)
        ensures NobodyStranded(s)
      {
        RunNeverStrands(Init(), steps, allowed, cancellable);
      }
    }
  }
}
