/** src/utils/emitter.ts in terms of what has been asked of the emitter: who is called, in what order, and what a
    registration is given of the past, told from the operations so far. */
module EmitterHistories {
  import opened Wrappers
  import opened Emitters

  // The calls that an operation makes after the others.
  ghost function CallsOf<P>(caching: bool, ops: seq<Op<P>>, op: Op<P>): seq<Call<P>> {
    Step(Exec(New(caching), ops), op).1
  }

  predicate Unregisters<P>(op: Op<P>, e: string, h: Handler) {
    op.OffAllEvents? || (op.Off? && op.event == e && (op.which == None || op.which == Some(h)))
  }

  // h was registered with on for e, and has not been unregistered since.
  ghost predicate Persists<P>(ops: seq<Op<P>>, e: string, h: Handler) {
    ops != [] &&
    var front, op := ops[..|ops| - 1], ops[|ops| - 1];
    op == On(e, h) || (!Unregisters(op, e, h) && Persists(front, e, h))
  }

  // h was registered with once for e, was not given anything then, and e has not been emitted since.
  ghost predicate Awaits<P>(caching: bool, ops: seq<Op<P>>, e: string, h: Handler) {
    ops != [] &&
    var front, op := ops[..|ops| - 1], ops[|ops| - 1];
    if op == Once(e, h) then CallsOf(caching, front, op) == []
    else !Unregisters(op, e, h) && !(op.Emit? && op.event == e) && Awaits(caching, front, e, h)
  }

  lemma {:induction false} ExecSnoc<P>(s: State<P>, ops: seq<Op<P>>, op: Op<P>)
    ensures Exec(s, ops + [op]) == Step(Exec(s, ops), op).0
    decreases |ops|
  {
    if ops == [] {
      assert [op][1..] == [];
    } else {
      assert (ops + [op])[1..] == ops[1..] + [op];
      ExecSnoc(Step(s, ops[0]).0, ops[1..], op);
    }
  }

  lemma ExecLast<P>(s: State<P>, ops: seq<Op<P>>)
    requires ops != []
    ensures Exec(s, ops) == Step(Exec(s, ops[..|ops| - 1]), ops[|ops| - 1]).0
  {
    assert ops == ops[..|ops| - 1] + [ops[|ops| - 1]];
    ExecSnoc(s, ops[..|ops| - 1], ops[|ops| - 1]);
  }

  lemma {:induction false} RemovedKeepsOthers(hs: seq<Handler>, h: Handler)
    ensures forall x :: x in Removed(hs, h) <==> x in hs && x != h
  {
    if hs == [] {
    } else {
      RemovedKeepsOthers(hs[1..], h);
    }
  }

  lemma StepKeepsOn<P>(s: State<P>, op: Op<P>, e: string, h: Handler)
    ensures h in Get(Step(s, op).0.on, e) <==> op == On(e, h) || (!Unregisters(op, e, h) && h in Get(s.on, e))
  {
    if op.Off? && op.which.Some? {
      RemovedKeepsOthers(Get(s.on, op.event), op.which.value);
    }
  }

  lemma OnceKeepsOnce<P>(s: State<P>, op: Op<P>, e: string, h: Handler)
    requires CachedOnlyUnheard(s) && op.Once?
    ensures h in Get(Step(s, op).0.once, e) <==>
            if op == Once(e, h) then Step(s, op).1 == [] else h in Get(s.once, e)
  {
    assert Get(s.cached, op.event) != [] ==> !Listened(s, op.event);
    RemovedKeepsOthers(Added(Get(s.once, op.event), op.handler), op.handler);
  }

  lemma StepKeepsOnce<P>(s: State<P>, op: Op<P>, e: string, h: Handler)
    requires CachedOnlyUnheard(s)
    ensures h in Get(Step(s, op).0.once, e) <==>
            if op == Once(e, h) then Step(s, op).1 == []
            else !Unregisters(op, e, h) && !(op.Emit? && op.event == e) && h in Get(s.once, e)
  {
    if op.Off? && op.which.Some? {
      RemovedKeepsOthers(Get(s.once, op.event), op.which.value);
    } else if op.Once? {
      OnceKeepsOnce(s, op, e, h);
    }
  }

  // The handlers the emitter knows are those that the operations so far have registered.
  lemma {:induction false} RegisteredIff<P>(caching: bool, ops: seq<Op<P>>, e: string, h: Handler)
    ensures h in Get(Exec(New(caching), ops).on, e) <==> Persists(ops, e, h)
    ensures h in Get(Exec(New(caching), ops).once, e) <==> Awaits(caching, ops, e, h)
  {
    if ops == [] {
    } else {
      var front, op := ops[..|ops| - 1], ops[|ops| - 1];
      RegisteredIff(caching, front, e, h);
      RunKeepsCachedUnheard(New(caching), front);
      ExecLast(New(caching), ops);
      StepKeepsOn(Exec(New(caching), front), op, e, h);
      StepKeepsOnce(Exec(New(caching), front), op, e, h);
    }
  }

  lemma {:induction false} RunKeepsSets<P>(s: State<P>, ops: seq<Op<P>>)
    requires SetsAreSets(s)
    ensures SetsAreSets(Exec(s, ops))
    decreases |ops|
  {
    if ops == [] {
    } else {
      StepKeepsSets(s, ops[0]);
      RunKeepsSets(Step(s, ops[0]).0, ops[1..]);
    }
  }

  // An emission calls each handler exactly once for every way in which it is registered, with what is emitted.
  lemma EmissionCallsRegistered<P>(caching: bool, ops: seq<Op<P>>, e: string, p: P, h: Handler)
    ensures var calls := CallsOf(caching, ops, Emit(e, p));
            && Hits(calls, e, h) ==
               (if Persists(ops, e, h) then 1 else 0) + (if Awaits(caching, ops, e, h) then 1 else 0)
            && forall c :: c in calls ==> c.event == e && c.payload == p
  {
    var s := Exec(New(caching), ops);
    RegisteredIff(caching, ops, e, h);
    RunKeepsSets(New(caching), ops);
    assert Unique(Get(s.on, e)) && Unique(Get(s.once, e));
    HitsOfCalls(e, Get(s.on, e), p, e, h);
    HitsOfCalls(e, Get(s.once, e), p, e, h);
    HitsConcat(Calls(e, Get(s.on, e), p), Calls(e, Get(s.once, e), p), e, h);
  }

  lemma {:induction false} PersistsOn<P>(a: seq<Op<P>>, b: seq<Op<P>>, e: string, h: Handler)
    requires forall op :: op in b ==> !Unregisters(op, e, h)
    ensures Persists(a + [On(e, h)] + b, e, h)
    decreases |b|
  {
    var all := a + [On(e, h)] + b;
    if b == [] {
      assert all[|all| - 1] == On(e, h);
    } else {
      assert all[..|all| - 1] == a + [On(e, h)] + b[..|b| - 1] && all[|all| - 1] == b[|b| - 1];
      PersistsOn(a, b[..|b| - 1], e, h);
    }
  }

  // Who has been registered with on, and not been unregistered since, is called by every emission.
  lemma RegisteredIsCalled<P>(caching: bool, a: seq<Op<P>>, b: seq<Op<P>>, e: string, h: Handler, p: P)
    requires forall op :: op in b ==> !Unregisters(op, e, h)
    ensures var ops := a + [On(e, h)] + b;
            && Hits(CallsOf(caching, ops, Emit(e, p)), e, h) == (if Awaits(caching, ops, e, h) then 2 else 1)
            && Call(e, h, p) in CallsOf(caching, ops, Emit(e, p))
  {
    var ops := a + [On(e, h)] + b;
    PersistsOn(a, b, e, h);
    EmissionCallsRegistered(caching, ops, e, p, h);
    HitIsCall(CallsOf(caching, ops, Emit(e, p)), e, h);
  }

  lemma {:induction false} HitIsCall<P>(calls: seq<Call<P>>, e: string, h: Handler)
    requires Hits(calls, e, h) > 0
    ensures exists c :: c in calls && c.event == e && c.handler == h
  {
    if calls[0].event == e && calls[0].handler == h {
    } else {
      HitIsCall(calls[1..], e, h);
    }
  }

  lemma {:induction false} NeverRegistered<P>(ops: seq<Op<P>>, e: string, h: Handler)
    requires Once(e, h) !in ops
    ensures TimesRegistered(ops, e, h) == 0
  {
    if ops == [] {
    } else {
      NeverRegistered(ops[1..], e, h);
    }
  }

  // Who has been unregistered, in whatever way, and not been registered since, is not called any more.
  lemma UnregisteredIsNotCalled<P>(caching: bool, a: seq<Op<P>>, off: Op<P>, b: seq<Op<P>>, e: string, h: Handler)
    requires Unregisters(off, e, h) && On(e, h) !in b && Once(e, h) !in b
    ensures TimesCalled(Exec(New(caching), a + [off]), b, e, h) == 0
  {
    var ops := a + [off];
    assert ops[|ops| - 1] == off;
    RegisteredIff(caching, ops, e, h);
    RunKeepsSets(New(caching), ops);
    RunUsesUpOnce(Exec(New(caching), ops), b, e, h);
    NeverRegistered(b, e, h);
  }

  // ----- The order of the calls -----

  ghost predicate Registered<P>(once: bool, caching: bool, ops: seq<Op<P>>, e: string, h: Handler) {
    if once then Awaits(caching, ops, e, h) else Persists(ops, e, h)
  }

  // The operation by which h came to be registered, with once or with on.
  ghost function Since<P>(once: bool, caching: bool, ops: seq<Op<P>>, e: string, h: Handler): (i: nat)
    requires Registered(once, caching, ops, e, h)
    ensures i < |ops|
  {
    var front := ops[..|ops| - 1];
    if Registered(once, caching, front, e, h) then Since(once, caching, front, e, h) else |front|
  }

  // Each was registered before those behind it.
  ghost predicate InOrder<P>(once: bool, caching: bool, ops: seq<Op<P>>, e: string, hs: seq<Handler>) {
    hs != [] ==>
      && Registered(once, caching, ops, e, hs[0])
      && (forall x :: x in hs[1..] ==>
            Registered(once, caching, ops, e, x)
            && Since(once, caching, ops, e, hs[0]) < Since(once, caching, ops, e, x))
      && InOrder(once, caching, ops, e, hs[1..])
  }

  // Those that stay registered stay in order.
  lemma {:induction false} StaysInOrder<P>(once: bool, caching: bool, front: seq<Op<P>>, op: Op<P>, e: string,
                                           hs: seq<Handler>)
    requires InOrder(once, caching, front, e, hs)
    requires forall x :: x in hs ==> Registered(once, caching, front + [op], e, x)
    ensures InOrder(once, caching, front + [op], e, hs)
    decreases |hs|
  {
    assert (front + [op])[..|front|] == front;
    if hs == [] {
    } else {
      StaysInOrder(once, caching, front, op, e, hs[1..]);
      forall x | x in hs
        ensures Registered(once, caching, front, e, x)
        ensures Since(once, caching, front + [op], e, x) == Since(once, caching, front, e, x)
      {
        assert x == hs[0] || x in hs[1..];
      }
    }
  }

  lemma {:induction false} RemovedInOrder<P>(once: bool, caching: bool, ops: seq<Op<P>>, e: string,
                                             hs: seq<Handler>, h: Handler)
    requires InOrder(once, caching, ops, e, hs)
    ensures InOrder(once, caching, ops, e, Removed(hs, h))
  {
    if hs == [] {
    } else {
      RemovedInOrder(once, caching, ops, e, hs[1..], h);
    }
  }

  lemma {:induction false} OrderedAreRegistered<P>(once: bool, caching: bool, ops: seq<Op<P>>, e: string,
                                                   hs: seq<Handler>)
    requires InOrder(once, caching, ops, e, hs)
    ensures forall x :: x in hs ==> Registered(once, caching, ops, e, x)
  {
    if hs == [] {
    } else {
      OrderedAreRegistered(once, caching, ops, e, hs[1..]);
      assert forall x :: x in hs ==> x == hs[0] || x in hs[1..];
    }
  }

  // The newest one goes to the end.
  lemma {:induction false} AppendedInOrder<P>(once: bool, caching: bool, ops: seq<Op<P>>, e: string,
                                              hs: seq<Handler>, h: Handler)
    requires InOrder(once, caching, ops, e, hs) && Registered(once, caching, ops, e, h)
    requires forall x :: x in hs ==>
               Registered(once, caching, ops, e, x) && Since(once, caching, ops, e, x) < Since(once, caching, ops, e, h)
    ensures InOrder(once, caching, ops, e, hs + [h])
    decreases |hs|
  {
    if hs == [] {
      assert hs + [h] == [h] && [h][1..] == [];
    } else {
      assert (hs + [h])[1..] == hs[1..] + [h];
      AppendedInOrder(once, caching, ops, e, hs[1..], h);
    }
  }

  // The handler that an operation names, if it does.
  function Named<P>(op: Op<P>): Handler {
    match op
    case On(_, h) => h
    case Once(_, h) => h
    case Off(_, Some(h)) => h
    case _ => 0
  }

  ghost predicate IsNext(hs: seq<Handler>, hs': seq<Handler>, h: Handler) {
    hs' == hs || hs' == [] || hs' == Removed(hs, h) || hs' == Added(hs, h)
  }

  // One operation leaves the handlers as they are, removes some, or adds one at the end.
  lemma NextInOrder<P>(once: bool, caching: bool, front: seq<Op<P>>, op: Op<P>, e: string,
                       hs: seq<Handler>, hs': seq<Handler>, h: Handler)
    requires InOrder(once, caching, front, e, hs)
    requires IsNext(hs, hs', h)
    requires forall x :: x in hs <==> Registered(once, caching, front, e, x)
    requires forall x :: x in hs' <==> Registered(once, caching, front + [op], e, x)
    ensures InOrder(once, caching, front + [op], e, hs')
  {
    if hs' == Removed(hs, h) {
      RemovedInOrder(once, caching, front, e, hs, h);
    }
    if hs' == hs + [h] && h !in hs {
      assert forall x :: x in hs ==> x in hs';
      assert h in hs';
      StaysInOrder(once, caching, front, op, e, hs);
      assert (front + [op])[..|front|] == front;
      AppendedInOrder(once, caching, front + [op], e, hs, h);
    } else {
      StaysInOrder(once, caching, front, op, e, hs');
    }
  }

  lemma StepChangesOn<P>(s: State<P>, op: Op<P>, e: string)
    ensures IsNext(Get(s.on, e), Get(Step(s, op).0.on, e), Named(op))
  {
  }

  lemma OnceChangesOnce<P>(s: State<P>, e': string, h: Handler, e: string)
    requires CachedOnlyUnheard(s)
    ensures IsNext(Get(s.once, e), Get(Step(s, Once(e', h)).0.once, e), h)
  {
    if Get(s.cached, e') != [] {
      assert Get(s.once, e') == [] && Added([], h) == [h];
      assert [h][1..] == [] && Removed([h], h) == Removed([], h) == [];
    }
  }

  lemma StepChangesOnce<P>(s: State<P>, op: Op<P>, e: string)
    requires CachedOnlyUnheard(s)
    ensures IsNext(Get(s.once, e), Get(Step(s, op).0.once, e), Named(op))
  {
    if op.Once? {
      OnceChangesOnce(s, op.event, op.handler, e);
    }
  }

  lemma AllRegistered<P>(caching: bool, ops: seq<Op<P>>, e: string)
    ensures forall h :: h in Get(Exec(New(caching), ops).on, e) <==> Registered(false, caching, ops, e, h)
    ensures forall h :: h in Get(Exec(New(caching), ops).once, e) <==> Registered(true, caching, ops, e, h)
  {
    forall h: Handler
      ensures h in Get(Exec(New(caching), ops).on, e) <==> Registered(false, caching, ops, e, h)
      ensures h in Get(Exec(New(caching), ops).once, e) <==> Registered(true, caching, ops, e, h)
    {
      RegisteredIff(caching, ops, e, h);
    }
  }

  lemma {:induction false} HandlersInOrder<P>(caching: bool, ops: seq<Op<P>>, e: string)
    ensures InOrder(false, caching, ops, e, Get(Exec(New(caching), ops).on, e))
    ensures InOrder(true, caching, ops, e, Get(Exec(New(caching), ops).once, e))
  {
    if ops == [] {
    } else {
      var front, op := ops[..|ops| - 1], ops[|ops| - 1];
      var s := Exec(New(caching), front);
      assert ops == front + [op];
      HandlersInOrder(caching, front, e);
      RunKeepsCachedUnheard(New(caching), front);
      ExecLast(New(caching), ops);
      AllRegistered(caching, front, e);
      AllRegistered(caching, ops, e);
      StepChangesOn(s, op, e);
      StepChangesOnce(s, op, e);
      NextInOrder(false, caching, front, op, e, Get(s.on, e), Get(Step(s, op).0.on, e), Named(op));
      NextInOrder(true, caching, front, op, e, Get(s.once, e), Get(Step(s, op).0.once, e), Named(op));
    }
  }

  // The handlers called, in order.
  ghost function HandlersOf<P>(calls: seq<Call<P>>): (hs: seq<Handler>)
    ensures |hs| == |calls|
  {
    seq(|calls|, i requires 0 <= i < |calls| => calls[i].handler)
  }

  // An emission calls those registered with on, in the order in which they were registered, and then those registered
  // with once, in theirs.
  lemma EmissionIsInOrder<P>(caching: bool, ops: seq<Op<P>>, e: string, p: P) returns (k: nat)
    ensures k <= |CallsOf(caching, ops, Emit(e, p))|
    ensures var hs := HandlersOf(CallsOf(caching, ops, Emit(e, p)));
            InOrder(false, caching, ops, e, hs[..k]) && InOrder(true, caching, ops, e, hs[k..])
  {
    var s := Exec(New(caching), ops);
    var on, once, calls := Get(s.on, e), Get(s.once, e), CallsOf(caching, ops, Emit(e, p));
    k := |on|;
    HandlersInOrder(caching, ops, e);
    assert HandlersOf(calls)[..k] == on && HandlersOf(calls)[k..] == once;
  }

  // ----- What a registration is given of the past -----

  // What a handler registered now would be given.
  ghost function Waiting<P>(caching: bool, ops: seq<Op<P>>, e: string): seq<P> {
    PayloadsOf(CallsOf(caching, ops, On(e, 0)))
  }

  ghost predicate IsCaching<P>(caching: bool, ops: seq<Op<P>>) {
    if ops == [] then caching
    else if ops[|ops| - 1].SetCaching? then ops[|ops| - 1].caching
    else IsCaching(caching, ops[..|ops| - 1])
  }

  ghost predicate Unheard<P>(caching: bool, ops: seq<Op<P>>, e: string) {
    forall h :: !Persists(ops, e, h) && !Awaits(caching, ops, e, h)
  }

  lemma {:induction false} CachingIsKept<P>(caching: bool, ops: seq<Op<P>>)
    ensures Exec(New(caching), ops).caching == IsCaching(caching, ops)
  {
    if ops == [] {
    } else {
      CachingIsKept(caching, ops[..|ops| - 1]);
      ExecLast(New(caching), ops);
    }
  }

  lemma UnheardIff<P>(caching: bool, ops: seq<Op<P>>, e: string)
    ensures Unheard(caching, ops, e) <==> !Listened(Exec(New(caching), ops), e)
  {
    var s := Exec(New(caching), ops);
    AllRegistered(caching, ops, e);
    assert Get(s.on, e) != [] ==> Get(s.on, e)[0] in Get(s.on, e);
    assert Get(s.once, e) != [] ==> Get(s.once, e)[0] in Get(s.once, e);
    assert forall h :: Registered(false, caching, ops, e, h) == Persists(ops, e, h);
    assert forall h :: Registered(true, caching, ops, e, h) == Awaits(caching, ops, e, h);
  }

  lemma WaitingIsCached<P>(caching: bool, ops: seq<Op<P>>, e: string)
    ensures Waiting(caching, ops, e) == Get(Exec(New(caching), ops).cached, e)
  {
  }

  // Keeping says whether what is emitted for e is kept.
  ghost function NextWaiting<P>(waiting: seq<P>, op: Op<P>, e: string, keeping: bool): seq<P> {
    match op
    case Emit(x, p) => if x == e && keeping then waiting + [p] else waiting
    case On(x, _) => if x == e then [] else waiting
    case Once(x, _) => if x == e && waiting != [] then waiting[1..] else waiting
    case DropCached(es) => if e in es then [] else waiting
    case _ => waiting
  }

  lemma StepChangesWaiting<P>(s: State<P>, op: Op<P>, e: string)
    ensures Get(Step(s, op).0.cached, e) == NextWaiting(Get(s.cached, e), op, e, s.caching && !Listened(s, e))
  {
  }

  // What is emitted while nobody is registered waits, if the emitter is caching then, until it is given to the next
  // handler or dropped.
  lemma WaitingAfter<P>(caching: bool, ops: seq<Op<P>>, op: Op<P>, e: string)
    ensures Waiting(caching, ops + [op], e) ==
            NextWaiting(Waiting(caching, ops, e), op, e, IsCaching(caching, ops) && Unheard(caching, ops, e))
  {
    WaitingIsCached(caching, ops, e);
    WaitingIsCached(caching, ops + [op], e);
    ExecSnoc(New(caching), ops, op);
    CachingIsKept(caching, ops);
    UnheardIff(caching, ops, e);
    StepChangesWaiting(Exec(New(caching), ops), op, e);
  }

  // Whoever registers is given all that waits, in order, and whoever registers with once just the first of it.
  lemma RegistrationIsGiven<P>(caching: bool, ops: seq<Op<P>>, e: string, h: Handler)
    ensures CallsOf(caching, ops, On(e, h)) == Replayed(e, h, Waiting(caching, ops, e))
    ensures CallsOf(caching, ops, Once(e, h)) ==
            if Waiting(caching, ops, e) == [] then [] else [Call(e, h, Waiting(caching, ops, e)[0])]
  {
    WaitingIsCached(caching, ops, e);
  }
}
