/** What the calls of the dynamic channel answer, and why: which steps answer a call, what an invalidated claim
    leads to, and what an answer rules out for good. */
module ChannelAnswers {
  import opened Wrappers
  import opened DynamicChannels
  import opened ChannelProtocol
  import opened ChannelDelivery
  import opened ChannelLoss

  // ----- The steps that answer -----

  // The step that answers call t answers it so.
  ghost predicate Answers<V>(s: System<V>, step: Step<V>, t: nat)
    requires Inv(s) && Enabled(s, step)
  {
    t < |s.threads| && !s.threads[t].pc.Done? && t < |Apply(s, step).threads| && Apply(s, step).threads[t].pc.Done?
  }

  // DequeueNonblock answers nil only from a lock section that finds nothing parked.
  lemma NothingMeansEmpty<V>(s: System<V>, step: Step<V>, t: nat)
    requires Inv(s) && Enabled(s, step) && Answers(s, step, t)
    requires Apply(s, step).threads[t].pc == Done(Nothing)
    ensures step == Section(t) && s.threads[t].call.DequeueNonblock? && Pending(s.sh) == []
  {
  }

  // And it does answer nil then, instead of waiting or trying again.
  lemma NothingIffEmpty<V>(s: System<V>, t: nat)
    requires Inv(s) && Enabled(s, Section(t)) && s.threads[t].call.DequeueNonblock?
    ensures Apply(s, Section(t)).threads[t].pc == Done(Nothing) <==> Pending(s.sh) == []
  {
    if s.sh.supply != [] {
      var c := MatchedSupply(s);
      assert |Pending(s.sh)| > 0;
    }
  }

  // A call gives up only by its own choice: at once with a claim of the other side in hand, and by invalidating its
  // own claim otherwise.
  lemma CancelledByItself<V>(s: System<V>, step: Step<V>, t: nat)
    requires Inv(s) && Enabled(s, step) && t < |s.threads| && t < |Apply(s, step).threads|
    requires s.threads[t].pc != Apply(s, step).threads[t].pc
    ensures Apply(s, step).threads[t].pc == Done(Cancelled) ==>
              (step == Cancel(t) && s.threads[t].pc.Offering?) || step == CloseInvalid(t)
    ensures Apply(s, step).threads[t].pc.Invalidating? ==> step == Cancel(t) && s.threads[t].pc.Waiting?
  {
  }

  // An enqueue is accepted by meeting a dequeue, by closing the claim of one, or by parking a datum without a claim
  // to wait for; a dequeue receives what its own claim was given, or what the claim it took out holds.
  lemma HowAccepted<V>(s: System<V>, step: Step<V>, t: nat)
    requires Inv(s) && Enabled(s, step) && Answers(s, step, t)
    requires Apply(s, step).threads[t].pc == Done(Accepted)
    ensures s.threads[t].call.Enqueue? ==>
              exists u :: step == Rendezvous(t, u) || step == Rendezvous(u, t)
    ensures s.threads[t].call.EnqueueNonblock? ==>
              step == CloseReady(t) || (step == Section(t) && s.sh.demand == [])
  {
    if step.Rendezvous? {
      assert ThreadOk(s, step.t) && ThreadOk(s, step.u);
      assert t == step.t || t == step.u;
      assert step == Rendezvous(t, step.u) || step == Rendezvous(step.t, t);
    } else {
      assert ThreadOk(s, t);
    }
  }

  // ----- Over whole runs -----

  lemma {:induction false} PrefixIsLegal<V>(s: System<V>, a: seq<Step<V>>, b: seq<Step<V>>)
    requires Inv(s) && Legal(s, a + b)
    ensures Legal(s, a) && Legal(Exec(s, a), b) && Exec(s, a + b) == Exec(Exec(s, a), b)
    decreases |a|
  {
    if a == [] {
      assert a + b == b;
    } else {
      StepKeepsInv(s, a[0]);
      assert (a + b)[1..] == a[1..] + b;
      PrefixIsLegal(Apply(s, a[0]), a[1..], b);
    }
  }

  lemma SnocStep<V>(s: System<V>, front: seq<Step<V>>, last: Step<V>)
    requires Inv(s) && Legal(s, front + [last])
    ensures Legal(s, front) && Enabled(Exec(s, front), last)
    ensures Exec(s, front + [last]) == Apply(Exec(s, front), last)
  {
    PrefixIsLegal(s, front, [last]);
    assert [last][1..] == [];
  }

  lemma LastStep<V>(s: System<V>, steps: seq<Step<V>>) returns (front: seq<Step<V>>, last: Step<V>)
    requires Inv(s) && Legal(s, steps) && steps != []
    ensures steps == front + [last]
    ensures Legal(s, front) && Enabled(Exec(s, front), last) && Exec(s, steps) == Apply(Exec(s, front), last)
  {
    front, last := steps[..|steps| - 1], steps[|steps| - 1];
    assert steps == front + [last];
    SnocStep(s, front, last);
  }

  lemma AnswersStay<V>(s: System<V>, step: Step<V>, t: nat)
    requires Inv(s) && Enabled(s, step) && t < |s.threads| && s.threads[t].pc.Done?
    ensures t < |Apply(s, step).threads| && Apply(s, step).threads[t] == s.threads[t]
  {
  }

  lemma NewlyNothing<V>(s: System<V>, step: Step<V>, t: nat)
    requires Inv(s) && Enabled(s, step) && t < |Apply(s, step).threads|
    requires Apply(s, step).threads[t].pc == Done(Nothing) && !(t < |s.threads| && s.threads[t].pc == Done(Nothing))
    ensures step == Section(t) && Pending(s.sh) == []
  {
    if t < |s.threads| {
      if s.threads[t].pc.Done? {
        AnswersStay(s, step, t);
      } else {
        NothingMeansEmpty(s, step, t);
      }
    }
  }

  // A DequeueNonblock that has answered nil has found nothing parked in a lock section of its own.
  lemma {:induction false} NilFoundNothing<V>(steps: seq<Step<V>>, t: nat) returns (k: nat)
    requires Legal(Init(), steps)
    requires var s := Exec(Init(), steps); t < |s.threads| && s.threads[t].pc == Done(Nothing)
    ensures k < |steps| && steps[k] == Section(t)
    ensures Legal(Init(), steps[..k]) && Pending(Exec(Init(), steps[..k]).sh) == []
    decreases |steps|
  {
    assert steps != [];
    var front, last := LastStep(Init(), steps);
    var s := Exec(Init(), front);
    if t < |s.threads| && s.threads[t].pc == Done(Nothing) {
      k := NilFoundNothing(front, t);
      assert steps[..k] == front[..k];
    } else {
      NewlyNothing(s, last, t);
      k := |front|;
      assert steps[..k] == front;
    }
  }

  lemma StepGivesUpIff<V>(s: System<V>, step: Step<V>, t: nat)
    requires Inv(s) && Enabled(s, step) && t < |Apply(s, step).threads|
    ensures GaveUp(Apply(s, step).threads[t]) <==> (t < |s.threads| && GaveUp(s.threads[t])) || step == Cancel(t)
  {
  }

  // Exactly the calls whose context has been chosen at a select give up, in every run.
  lemma {:induction false} GaveUpIff<V>(steps: seq<Step<V>>, t: nat)
    requires Legal(Init(), steps) && t < |Exec(Init(), steps).threads|
    ensures GaveUp(Exec(Init(), steps).threads[t]) <==> Cancel(t) in steps
    decreases |steps|
  {
    if steps == [] {
    } else {
      var front, last := LastStep(Init(), steps);
      var s := Exec(Init(), front);
      StepGivesUpIff(s, last, t);
      if t < |s.threads| {
        GaveUpIff(front, t);
      } else {
        NoStepsYet(front, t);
      }
    }
  }

  // Nothing has been done by a call that has not been made.
  lemma {:induction false} NoStepsYet<V>(steps: seq<Step<V>>, t: nat)
    requires Legal(Init(), steps) && t >= |Exec(Init(), steps).threads|
    ensures Cancel(t) !in steps
    decreases |steps|
  {
    if steps == [] {
    } else {
      var front, last := LastStep(Init(), steps);
      NoStepsYet(front, t);
    }
  }

  ghost predicate Moves<V>(step: Step<V>, t: nat) {
    !step.Start? && (step.t == t || (step.Rendezvous? && step.u == t))
  }

  lemma {:induction false} OthersLeaveAlone<V>(s: System<V>, steps: seq<Step<V>>, t: nat)
    requires Inv(s) && Legal(s, steps) && t < |s.threads|
    requires forall i :: 0 <= i < |steps| ==> !Moves(steps[i], t)
    ensures t < |Exec(s, steps).threads| && Exec(s, steps).threads[t] == s.threads[t]
    decreases |steps|
  {
    if steps == [] {
    } else {
      StepKeepsInv(s, steps[0]);
      assert Apply(s, steps[0]).threads[t] == s.threads[t];
      OthersLeaveAlone(Apply(s, steps[0]), steps[1..], t);
    }
  }

  // A call that finds the claim it took out invalidated has not answered: until it moves on, it is back at the lock,
  // and can take it.
  lemma InvalidClaimMeansRetry<V>(steps: seq<Step<V>>, t: nat, more: seq<Step<V>>)
    requires Legal(Init(), steps + [FindInvalid(t)] + more)
    requires forall i :: 0 <= i < |more| ==> !Moves(more[i], t)
    ensures var s := Exec(Init(), steps + [FindInvalid(t)] + more);
            t < |s.threads| && s.threads[t].pc == AtLock(true) && Enabled(s, Section(t))
  {
    var step: Step<V> := FindInvalid(t);
    var first := steps + [step];
    PrefixIsLegal(Init(), first, more);
    SnocStep(Init(), steps, step);
    OthersLeaveAlone(Exec(Init(), first), more, t);
  }

  // ----- What an error rules out -----

  // Whoever has parked a claim is waiting for it, is invalidating it, or has returned; with an error only after
  // invalidating it.
  ghost predicate OwnersSettled<V>(s: System<V>)
    requires Bounded(s)
  {
    forall c :: 0 <= c < |s.sh.claims| ==>
      var pc := s.threads[s.owner[c]].pc;
      || pc == Waiting(c) || pc == Invalidating(c)
      || (pc.Done? && (pc == Done(Cancelled) ==> s.sh.claims[c].invalid == Closed))
  }

  lemma SectionKeepsOwnersSettled<V>(s: System<V>, t: nat)
    requires Inv(s) && OwnersSettled(s) && Enabled(s, Section(t)) && Inv(Apply(s, Section(t)))
    ensures OwnersSettled(Apply(s, Section(t)))
  {
    if s.threads[t].call.Produces() && s.sh.demand != [] {
      var w := MatchedDemand(s);
    }
  }

  lemma SelectKeepsOwnersSettled<V>(s: System<V>, step: Step<V>)
    requires Inv(s) && OwnersSettled(s) && Enabled(s, step) && Inv(Apply(s, step))
    requires !step.Section? && !step.Start?
    ensures OwnersSettled(Apply(s, step))
  {
    assert ThreadOk(s, step.t);
  }

  lemma StepKeepsOwnersSettled<V>(s: System<V>, step: Step<V>)
    requires Inv(s) && OwnersSettled(s) && Enabled(s, step) && Inv(Apply(s, step))
    ensures OwnersSettled(Apply(s, step))
  {
    if step.Section? {
      SectionKeepsOwnersSettled(s, step.t);
    } else if !step.Start? {
      SelectKeepsOwnersSettled(s, step);
    }
  }

  // Enqueue e has returned an error.
  ghost predicate Failed<V>(s: System<V>, e: nat) {
    e < |s.threads| && s.threads[e].call.Enqueue? && s.threads[e].pc == Done(Cancelled)
  }

  lemma RendezvousIsNotFailed<V>(s: System<V>, t: nat, u: nat, e: nat, v: nat)
    requires Inv(s) && Enabled(s, Rendezvous(t, u)) && Failed(s, e)
    requires Receives(Apply(s, Rendezvous(t, u)), v, e)
    ensures Receives(s, v, e)
  {
    var c := s.threads[t].pc.claim;
    assert ThreadOk(s, t) && ThreadOk(s, u) && ClaimOk(s, c);
    assert s.sh.claims[c].datum.Some? && s.sh.claims[c].datum.value.origin != e;
  }

  lemma SectionIsNotFailed<V>(s: System<V>, t: nat, e: nat, v: nat)
    requires Inv(s) && Enabled(s, Section(t)) && Failed(s, e) && Receives(Apply(s, Section(t)), v, e)
    ensures Receives(s, v, e)
  {
    if !s.threads[t].call.Produces() && s.sh.supply != [] {
      var c := MatchedSupply(s);
    }
  }

  lemma SelectIsNotFailed<V>(s: System<V>, step: Step<V>, e: nat, v: nat)
    requires Inv(s) && OwnersSettled(s) && Enabled(s, step) && Failed(s, e)
    requires step.TakeDefault? || step.ReceiveClosed?
    requires Receives(Apply(s, step), v, e)
    ensures Receives(s, v, e)
  {
    var c := s.threads[step.t].pc.claim;
    assert ThreadOk(s, step.t) && ClaimOk(s, c);
  }

  // No step returns the datum of an Enqueue that has returned an error.
  lemma StepKeepsUnreceived<V>(s: System<V>, step: Step<V>, e: nat, v: nat)
    requires Inv(s) && OwnersSettled(s) && Enabled(s, step) && Failed(s, e) && Receives(Apply(s, step), v, e)
    ensures Receives(s, v, e)
  {
    if step.Rendezvous? {
      RendezvousIsNotFailed(s, step.t, step.u, e, v);
    } else if step.Section? {
      SectionIsNotFailed(s, step.t, e, v);
    } else if step.TakeDefault? || step.ReceiveClosed? {
      SelectIsNotFailed(s, step, e, v);
    }
  }

  lemma {:induction false} RunKeepsOwnersSettled<V>(s: System<V>, steps: seq<Step<V>>)
    requires Inv(s) && OwnersSettled(s) && Legal(s, steps)
    ensures OwnersSettled(Exec(s, steps))
    decreases |steps|
  {
    if steps == [] {
    } else {
      StepKeepsInv(s, steps[0]);
      StepKeepsOwnersSettled(s, steps[0]);
      RunKeepsOwnersSettled(Apply(s, steps[0]), steps[1..]);
    }
  }

  lemma {:induction false} RunKeepsUnreceived<V>(s: System<V>, more: seq<Step<V>>, e: nat, v: nat)
    requires Inv(s) && OwnersSettled(s) && Legal(s, more) && Failed(s, e) && Receives(Exec(s, more), v, e)
    ensures Receives(s, v, e)
    decreases |more|
  {
    if more == [] {
    } else {
      StepKeepsInv(s, more[0]);
      StepKeepsOwnersSettled(s, more[0]);
      AnswersStay(s, more[0], e);
      RunKeepsUnreceived(Apply(s, more[0]), more[1..], e, v);
      StepKeepsUnreceived(s, more[0], e, v);
    }
  }

  // An error is final: once a blocking Enqueue has returned one, nobody will be given its datum who has not got it
  // by then.
  lemma ErrorIsFinal<V>(steps: seq<Step<V>>, more: seq<Step<V>>, e: nat, v: nat)
    requires Legal(Init(), steps + more)
    requires Legal(Init(), steps) && Failed(Exec(Init(), steps), e)
    requires Receives(Exec(Init(), steps + more), v, e)
    ensures Receives(Exec(Init(), steps), v, e)
  {
    PrefixIsLegal(Init(), steps, more);
    RunKeepsOwnersSettled(Init(), steps);
    RunKeepsUnreceived(Exec(Init(), steps), more, e, v);
  }

  // ----- What can still be lost to a Dequeue that has given up -----

  // Claim c has been invalidated, and no call from the n-th on has it in hand to close, or has closed it.
  ghost predicate PastUse<V>(s: System<V>, c: nat, n: nat)
    requires Bounded(s)
  {
    && c < |s.sh.claims| && n <= |s.threads| && s.sh.claims[c].invalid == Closed
    && (forall t :: n <= t < |s.threads| ==> s.threads[t].pc != Closing(c))
    && (s.sh.claims[c].ready == Closed && s.sh.claims[c].datum.Some? ==> s.sh.claims[c].datum.value.origin < n)
  }

  lemma StepKeepsPastUse<V>(s: System<V>, step: Step<V>, c: nat, n: nat)
    requires Inv(s) && Enabled(s, step) && Inv(Apply(s, step)) && PastUse(s, c, n)
    ensures PastUse(Apply(s, step), c, n)
  {
    if s.sh.claims[c].ready == Closed {
      ClosedStays(s, step, c);
    }
    if !step.Start? {
      assert ThreadOk(s, step.t);
    }
  }

  lemma {:induction false} RunKeepsPastUse<V>(s: System<V>, more: seq<Step<V>>, c: nat, n: nat)
    requires Inv(s) && Legal(s, more) && PastUse(s, c, n)
    ensures PastUse(Exec(s, more), c, n)
    decreases |more|
  {
    if more == [] {
    } else {
      StepKeepsInv(s, more[0]);
      StepKeepsPastUse(s, more[0], c, n);
      RunKeepsPastUse(Apply(s, more[0]), more[1..], c, n);
    }
  }

  // An EnqueueNonblock can lose its datum only to a Dequeue that gave up after it was called.
  lemma LostToLaterOnly<V>(steps: seq<Step<V>>, more: seq<Step<V>>, e: nat, c: nat)
    requires Legal(Init(), steps) && Legal(Init(), steps + more)
    requires e >= |Exec(Init(), steps).threads| && At(Exec(Init(), steps + more), e, Lost(c))
    ensures var s := Exec(Init(), steps); c < |s.sh.claims| ==> s.sh.claims[c].invalid != Closed
  {
    var s := Exec(Init(), steps);
    PrefixIsLegal(Init(), steps, more);
    if c < |s.sh.claims| && s.sh.claims[c].invalid == Closed {
      assert ClaimOk(s, c);
      RunKeepsPastUse(s, more, c, |s.threads|);
    }
  }

  // ----- Nobody is stuck half-way -----

  // A step that no clock or caller has to decide on: neither a new call nor a context's end.
  ghost predicate CanGoOn<V(!new)>(s: System<V>)
    requires Bounded(s)
  {
    exists step: Step<V> :: !step.Start? && !step.Cancel? && Enabled(s, step)
  }

  lemma HolderCanGoOn<V(!new)>(s: System<V>, t: nat, c: nat)
    requires Inv(s) && WaitersOk(s) && t < |s.threads| && s.threads[t].pc == Offering(c)
    ensures CanGoOn(s)
  {
    assert ThreadOk(s, t) && Holds(s, t, c) && Awaited(s, c);
    var u := s.owner[c];
    if s.sh.claims[c].invalid == Closed {
      assert Enabled(s, FindInvalid(t));
    } else if s.threads[t].call.EnqueueNonblock? || s.threads[t].call.DequeueNonblock? {
      assert Enabled(s, TakeDefault(t));
    } else if s.threads[u].pc == Waiting(c) {
      assert Enabled(s, Rendezvous(t, u));
    } else {
      assert Enabled(s, CloseInvalid(u));
    }
  }

  lemma UnansweredCanGoOn<V(!new)>(s: System<V>, t: nat)
    requires Inv(s) && WaitersOk(s) && t < |s.threads| && !s.threads[t].pc.Done? && !s.threads[t].pc.Waiting?
    ensures CanGoOn(s)
  {
    match s.threads[t].pc
    case AtLock(_) => assert Enabled(s, Section(t));
    case Offering(c) => HolderCanGoOn(s, t, c);
    case Closing(c) => assert Enabled(s, CloseReady(t));
    case Invalidating(c) => assert Enabled(s, CloseInvalid(t));
  }

  lemma WaiterIsQueuedOrStranded<V(!new)>(s: System<V>, t: nat)
    requires Inv(s) && WaitersOk(s) && t < |s.threads| && s.threads[t].pc.Waiting?
    ensures var c := s.threads[t].pc.claim;
            CanGoOn(s) || Stranded(s, t) || c in s.sh.supply || c in s.sh.demand
  {
    var c := s.threads[t].pc.claim;
    if s.sh.claims[c].ready == Closed {
      assert Enabled(s, ReceiveClosed(t));
    } else if u :| Holds(s, u, c) {
      UnansweredCanGoOn(s, u);
    }
  }

  // No deadlock: in every run, when nothing can go on by itself, each call has returned, or waits for a claim that
  // is in its queue, or for one that has been dropped.
  lemma OnlyWaitersAreLeft<V(!new)>(steps: seq<Step<V>>, t: nat)
    requires Legal(Init(), steps) && t < |Exec(Init(), steps).threads|
    ensures var s := Exec(Init(), steps);
            CanGoOn(s) || s.threads[t].pc.Done? || Stranded(s, t)
            || (s.threads[t].pc.Waiting? &&
                (s.threads[t].pc.claim in s.sh.supply || s.threads[t].pc.claim in s.sh.demand))
  {
    var s := Exec(Init(), steps);
    RunKeepsAcceptedRest(Init(), steps);
    if !s.threads[t].pc.Done? {
      if s.threads[t].pc.Waiting? {
        WaiterIsQueuedOrStranded(s, t);
      } else {
        UnansweredCanGoOn(s, t);
      }
    }
  }

  // ----- Nobody tries for ever -----

  // How many steps a call may still take, other than to take further claims out of a queue.
  function Weight<V>(th: Thread<V>): nat {
    match th.pc
    case AtLock(_) => 5
    case Offering(_) => 6
    case Closing(_) => 1
    case Waiting(_) => 2
    case Invalidating(_) => 1
    case Done(_) => 0
  }

  ghost function TotalWeight<V>(threads: seq<Thread<V>>): nat {
    if threads == [] then 0 else TotalWeight(threads[..|threads| - 1]) + Weight(threads[|threads| - 1])
  }

  ghost function Fuel<V>(s: System<V>): nat {
    TotalWeight(s.threads) + 2 * (|s.sh.supply| + |s.sh.demand|)
  }

  lemma {:induction false} WeightOfUpdate<V>(threads: seq<Thread<V>>, t: nat, th: Thread<V>)
    requires t < |threads|
    ensures TotalWeight(threads[t := th]) + Weight(threads[t]) == TotalWeight(threads) + Weight(th)
    decreases |threads|
  {
    var front := threads[..|threads| - 1];
    if t == |threads| - 1 {
      assert threads[t := th][..|threads| - 1] == front;
    } else {
      assert threads[t := th][..|threads| - 1] == front[t := th];
      WeightOfUpdate(front, t, th);
    }
  }

  lemma OneMoves<V>(s: System<V>, s': System<V>, t: nat)
    requires t < |s.threads| == |s'.threads| && s'.threads == s.threads[t := s'.threads[t]]
    ensures TotalWeight(s'.threads) + Weight(s.threads[t]) == TotalWeight(s.threads) + Weight(s'.threads[t])
  {
    WeightOfUpdate(s.threads, t, s'.threads[t]);
  }

  lemma SectionBurns<V>(s: System<V>, t: nat)
    requires Inv(s) && Enabled(s, Section(t))
    ensures Fuel(Apply(s, Section(t))) < Fuel(s)
  {
    OneMoves(s, Apply(s, Section(t)), t);
    if s.threads[t].call.Produces() {
      if s.sh.demand != [] {
        var w := MatchedDemand(s);
      }
    } else if s.sh.supply != [] {
      var c := MatchedSupply(s);
    }
  }

  lemma RendezvousBurns<V>(s: System<V>, t: nat, u: nat)
    requires Inv(s) && Enabled(s, Rendezvous(t, u))
    ensures Fuel(Apply(s, Rendezvous(t, u))) < Fuel(s)
  {
    var s' := Apply(s, Rendezvous(t, u));
    WeightOfUpdate(s.threads, t, s'.threads[t]);
    WeightOfUpdate(s.threads[t := s'.threads[t]], u, s'.threads[u]);
    assert s'.threads == s.threads[t := s'.threads[t]][u := s'.threads[u]];
  }

  lemma StepBurns<V>(s: System<V>, step: Step<V>)
    requires Inv(s) && Enabled(s, step)
    ensures if step.Start? then Fuel(Apply(s, step)) == Fuel(s) + 5 && |Apply(s, step).threads| == |s.threads| + 1
            else Fuel(Apply(s, step)) < Fuel(s) && |Apply(s, step).threads| == |s.threads|
  {
    if step.Start? {
      assert Apply(s, step).threads[..|s.threads|] == s.threads;
    } else if step.Section? {
      SectionBurns(s, step.t);
    } else if step.Rendezvous? {
      RendezvousBurns(s, step.t, step.u);
    } else {
      OneMoves(s, Apply(s, step), step.t);
    }
  }

  // No livelock: however calls interleave, fail and try again, a run of n calls takes at most 6n steps.
  lemma {:induction false} SixStepsPerCall<V>(steps: seq<Step<V>>)
    requires Legal(Init(), steps)
    ensures |steps| + Fuel(Exec(Init(), steps)) <= 6 * |Exec(Init(), steps).threads|
    decreases |steps|
  {
    if steps == [] {
    } else {
      var front, last := LastStep(Init(), steps);
      SixStepsPerCall(front);
      StepBurns(Exec(Init(), front), last);
    }
  }
}
