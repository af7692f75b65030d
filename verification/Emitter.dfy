/** src/utils/emitter.ts: an event emitter that keeps what it emits while nobody listens.
    Handlers are identified by numbers; they do not call back into the emitter. */
module Emitters {
  import opened Wrappers

  type Handler = nat

  datatype Call<P> = Call(event: string, handler: Handler, payload: P)

  // A Set iterates in insertion order, so a set of handlers is a sequence without repetitions.
  datatype State<P> = State(
    on: map<string, seq<Handler>>,
    once: map<string, seq<Handler>>,
    cached: map<string, seq<P>>,
    caching: bool)

  datatype Op<P> =
    | On(event: string, handler: Handler)
    | Once(event: string, handler: Handler)
    | Off(event: string, which: Option<Handler>)
    | OffAllEvents
    | Emit(event: string, payload: P)
    | SetCaching(caching: bool)
    | DropCached(events: set<string>)

  function Get<T>(m: map<string, seq<T>>, event: string): seq<T> {
    if event in m then m[event] else []
  }

  function Added(hs: seq<Handler>, h: Handler): seq<Handler> {
    if h in hs then hs else hs + [h]
  }

  function Removed(hs: seq<Handler>, h: Handler): (r: seq<Handler>)
    ensures h !in r && forall x :: x in r ==> x in hs
  {
    if hs == [] then [] else if hs[0] == h then Removed(hs[1..], h) else [hs[0]] + Removed(hs[1..], h)
  }

  function Calls<P>(event: string, hs: seq<Handler>, p: P): (r: seq<Call<P>>)
    ensures |r| == |hs|
  {
    seq(|hs|, i requires 0 <= i < |hs| => Call(event, hs[i], p))
  }

  function Replayed<P>(event: string, h: Handler, ps: seq<P>): (r: seq<Call<P>>)
    ensures |r| == |ps|
  {
    seq(|ps|, i requires 0 <= i < |ps| => Call(event, h, ps[i]))
  }

  function Cleared<T>(m: map<string, seq<T>>, event: string): map<string, seq<T>> {
    if event in m then m[event := []] else m
  }

  // What one operation does, and the handler calls it makes, in order.
  function Step<P>(s: State<P>, op: Op<P>): (State<P>, seq<Call<P>>) {
    match op
    case On(e, h) =>
      var s' := s.(on := s.on[e := Added(Get(s.on, e), h)]);
      var ps := Get(s.cached, e);
      if ps == [] then (s', []) else (s'.(cached := s.cached[e := []]), Replayed(e, h, ps))
    case Once(e, h) =>
      var hs := Added(Get(s.once, e), h);
      var ps := Get(s.cached, e);
      if ps == [] then (s.(once := s.once[e := hs]), [])
      else (s.(once := s.once[e := Removed(hs, h)], cached := s.cached[e := ps[1..]]), [Call(e, h, ps[0])])
    case Off(e, None) => (s.(on := Cleared(s.on, e), once := Cleared(s.once, e)), [])
    case Off(e, Some(h)) =>
      (s.(on := if e in s.on then s.on[e := Removed(s.on[e], h)] else s.on,
          once := if e in s.once then s.once[e := Removed(s.once[e], h)] else s.once), [])
    case OffAllEvents => (s.(on := map[], once := map[]), [])
    case Emit(e, p) =>
      var on, once := Get(s.on, e), Get(s.once, e);
      if s.caching && on == [] && once == [] then (s.(cached := s.cached[e := Get(s.cached, e) + [p]]), [])
      else (s.(once := Cleared(s.once, e)), Calls(e, on, p) + Calls(e, once, p))
    case SetCaching(c) => (s.(caching := c), [])
    case DropCached(es) => (s.(cached := map e | e in s.cached :: if e in es then [] else s.cached[e]), [])
  }

  function New<P>(caching: bool): State<P> {
    State(map[], map[], map[], caching)
  }

  // ----- Runs -----

  function Exec<P>(s: State<P>, ops: seq<Op<P>>): State<P>
    decreases |ops|
  {
    if ops == [] then s else Exec(Step(s, ops[0]).0, ops[1..])
  }

  predicate Listened<P>(s: State<P>, e: string) {
    Get(s.on, e) != [] || Get(s.once, e) != []
  }

  // An event with payloads waiting has no handlers.
  ghost predicate CachedOnlyUnheard<P>(s: State<P>) {
    forall e :: Get(s.cached, e) != [] ==> !Listened(s, e)
  }

  lemma StepKeepsCachedUnheard<P>(s: State<P>, op: Op<P>)
    requires CachedOnlyUnheard(s)
    ensures CachedOnlyUnheard(Step(s, op).0)
  {
    var s' := Step(s, op).0;
    forall e | Get(s'.cached, e) != []
      ensures !Listened(s', e)
    {
      assert Get(s.cached, e) != [] ==> !Listened(s, e);
      if op.Once? && op.event == e {
        assert Get(s.cached, e) != [] && Get(s.once, e) == [];
        assert Added(Get(s.once, e), op.handler) == [op.handler];
        assert Removed([op.handler], op.handler) == [];
      } else if op.Off? && op.event == e && op.which.Some? {
        assert Removed([], op.which.value) == [];
      }
    }
  }

  lemma {:induction false} RunKeepsCachedUnheard<P>(s: State<P>, ops: seq<Op<P>>)
    requires CachedOnlyUnheard(s)
    ensures CachedOnlyUnheard(Exec(s, ops))
    decreases |ops|
  {
    if ops == [] {
    } else {
      StepKeepsCachedUnheard(s, ops[0]);
      RunKeepsCachedUnheard(Step(s, ops[0]).0, ops[1..]);
    }
  }

  lemma CachedMeansUnheard<P>(caching: bool, ops: seq<Op<P>>, e: string)
    requires Get(Exec(New(caching), ops).cached, e) != []
    ensures !Listened(Exec(New(caching), ops), e)
  {
    RunKeepsCachedUnheard(New(caching), ops);
  }

  // The payloads emitted for an event.
  ghost function Emitted<P>(ops: seq<Op<P>>, e: string): seq<P> {
    if ops == [] then [] else
    (if ops[0].Emit? && ops[0].event == e then [ops[0].payload] else []) + Emitted(ops[1..], e)
  }

  ghost function PayloadsOf<P>(calls: seq<Call<P>>): (r: seq<P>)
    ensures |r| == |calls|
  {
    seq(|calls|, i requires 0 <= i < |calls| => calls[i].payload)
  }

  // The payloads an operation delivers: a registration one per call it makes,
  // an emission its payload, once, however many handlers are called with it.
  ghost function Delivers<P>(s: State<P>, op: Op<P>, e: string): seq<P> {
    var calls := Step(s, op).1;
    if (op.On? || op.Once?) && op.event == e then PayloadsOf(calls)
    else if op.Emit? && op.event == e && calls != [] then [calls[0].payload]
    else []
  }

  ghost function Delivered<P>(s: State<P>, ops: seq<Op<P>>, e: string): seq<P>
    decreases |ops|
  {
    if ops == [] then [] else Delivers(s, ops[0], e) + Delivered(Step(s, ops[0]).0, ops[1..], e)
  }

  ghost predicate Lossless<P>(ops: seq<Op<P>>) {
    forall i :: 0 <= i < |ops| ==> !ops[i].DropCached? && ops[i] != SetCaching(false)
  }

  // One operation moves payloads from the front of the cache to the handlers, or appends the emitted one.
  lemma StepConserves<P>(s: State<P>, op: Op<P>, e: string)
    requires CachedOnlyUnheard(s) && s.caching && !op.DropCached?
    ensures Delivers(s, op, e) + Get(Step(s, op).0.cached, e)
         == Get(s.cached, e) + (if op.Emit? && op.event == e then [op.payload] else [])
  {
  }

  lemma Shuffle<P>(c: seq<P>, d: seq<P>, c': seq<P>, x: seq<P>, ds: seq<P>, c'': seq<P>, xs: seq<P>)
    requires d + c' == c + x && ds + c'' == c' + xs
    ensures (d + ds) + c'' == c + (x + xs)
  {
    assert (d + ds) + c'' == d + (ds + c'') == d + (c' + xs) == (d + c') + xs == (c + x) + xs == c + (x + xs);
  }

  lemma {:induction false} RunConserves<P>(s: State<P>, ops: seq<Op<P>>, e: string)
    requires CachedOnlyUnheard(s) && s.caching && Lossless(ops)
    ensures Delivered(s, ops, e) + Get(Exec(s, ops).cached, e) == Get(s.cached, e) + Emitted(ops, e)
    decreases |ops|
  {
    if ops == [] {
    } else {
      var op, rest, s' := ops[0], ops[1..], Step(s, ops[0]).0;
      StepConserves(s, op, e);
      StepKeepsCachedUnheard(s, op);
      RunConserves(s', rest, e);
      Shuffle(Get(s.cached, e), Delivers(s, op, e), Get(s'.cached, e),
              if op.Emit? && op.event == e then [op.payload] else [],
              Delivered(s', rest, e), Get(Exec(s', rest).cached, e), Emitted(rest, e));
    }
  }

  // No loss, no duplication, order kept: while the emitter caches and nobody drops its cache, the payloads
  // emitted for an event are those delivered, each once, followed by those still waiting.
  lemma EmittedIsDeliveredThenCached<P>(ops: seq<Op<P>>, e: string)
    requires Lossless(ops)
    ensures Emitted(ops, e) == Delivered(New(true), ops, e) + Get(Exec(New(true), ops).cached, e)
  {
    RunConserves(New(true), ops, e);
    assert [] + Emitted(ops, e) == Emitted(ops, e);
  }

  // ----- Once means at most once -----

  ghost function Hits<P>(calls: seq<Call<P>>, e: string, h: Handler): nat {
    if calls == [] then 0 else (if calls[0].event == e && calls[0].handler == h then 1 else 0) + Hits(calls[1..], e, h)
  }

  ghost function TimesCalled<P>(s: State<P>, ops: seq<Op<P>>, e: string, h: Handler): nat
    decreases |ops|
  {
    if ops == [] then 0 else Hits(Step(s, ops[0]).1, e, h) + TimesCalled(Step(s, ops[0]).0, ops[1..], e, h)
  }

  ghost function TimesRegistered<P>(ops: seq<Op<P>>, e: string, h: Handler): nat {
    if ops == [] then 0 else (if ops[0] == Once(e, h) then 1 else 0) + TimesRegistered(ops[1..], e, h)
  }

  ghost predicate Unique(hs: seq<Handler>) {
    forall i, j :: 0 <= i < j < |hs| ==> hs[i] != hs[j]
  }

  ghost predicate SetsAreSets<P>(s: State<P>) {
    forall e :: Unique(Get(s.on, e)) && Unique(Get(s.once, e))
  }

  lemma {:induction false} RemovedStaysUnique(hs: seq<Handler>, h: Handler)
    requires Unique(hs)
    ensures Unique(Removed(hs, h))
  {
    if hs == [] {
    } else {
      assert Unique(hs[1..]) by {
        assert forall i :: 0 <= i < |hs| - 1 ==> hs[1..][i] == hs[i + 1];
      }
      RemovedStaysUnique(hs[1..], h);
      assert hs[0] !in hs[1..];
    }
  }

  lemma OnceKeepsSets<P>(s: State<P>, e: string, h: Handler)
    requires SetsAreSets(s)
    ensures SetsAreSets(Step(s, Once(e, h)).0)
  {
    assert Unique(Get(s.once, e));
    RemovedStaysUnique(Added(Get(s.once, e), h), h);
  }

  lemma OffKeepsSets<P>(s: State<P>, e: string, h: Handler)
    requires SetsAreSets(s)
    ensures SetsAreSets(Step(s, Off(e, Some(h))).0)
  {
    var s' := Step(s, Off(e, Some(h))).0;
    RemovedStaysUnique(Get(s.on, e), h);
    RemovedStaysUnique(Get(s.once, e), h);
    forall x
      ensures Unique(Get(s'.on, x)) && Unique(Get(s'.once, x))
    {
      assert Unique(Get(s.on, x)) && Unique(Get(s.once, x));
    }
  }

  lemma StepKeepsSets<P>(s: State<P>, op: Op<P>)
    requires SetsAreSets(s)
    ensures SetsAreSets(Step(s, op).0)
  {
    if op.Once? {
      OnceKeepsSets(s, op.event, op.handler);
    } else if op.Off? && op.which.Some? {
      OffKeepsSets(s, op.event, op.which.value);
    } else {
      var s' := Step(s, op).0;
      forall e
        ensures Unique(Get(s'.on, e)) && Unique(Get(s'.once, e))
      {
        assert Unique(Get(s.on, e)) && Unique(Get(s.once, e));
      }
    }
  }

  lemma {:induction false} HitsOfCalls<P>(e: string, hs: seq<Handler>, p: P, e': string, h: Handler)
    requires Unique(hs)
    ensures Hits(Calls(e, hs, p), e', h) == if e == e' && h in hs then 1 else 0
  {
    if hs == [] {
    } else {
      assert Unique(hs[1..]) by {
        assert forall i :: 0 <= i < |hs| - 1 ==> hs[1..][i] == hs[i + 1];
      }
      HitsOfCalls(e, hs[1..], p, e', h);
      assert Calls(e, hs, p)[1..] == Calls(e, hs[1..], p);
      assert hs[0] !in hs[1..];
    }
  }

  lemma {:induction false} HitsConcat<P>(a: seq<Call<P>>, b: seq<Call<P>>, e: string, h: Handler)
    ensures Hits(a + b, e, h) == Hits(a, e, h) + Hits(b, e, h)
  {
    if a == [] {
      assert a + b == b;
    } else {
      HitsConcat(a[1..], b, e, h);
      assert (a + b)[1..] == a[1..] + b;
    }
  }

  lemma {:induction false} NoHitsInReplay<P>(e: string, g: Handler, ps: seq<P>, e': string, h: Handler)
    requires e != e' || g != h
    ensures Hits(Replayed(e, g, ps), e', h) == 0
  {
    if ps == [] {
    } else {
      NoHitsInReplay(e, g, ps[1..], e', h);
      assert Replayed(e, g, ps)[1..] == Replayed(e, g, ps[1..]);
    }
  }

  // Calls made to h so far plus its registration, if it is pending, never exceed its registrations.
  lemma EmitUsesUpOnce<P>(s: State<P>, e': string, p: P, e: string, h: Handler)
    requires SetsAreSets(s) && h !in Get(s.on, e)
    ensures var (s', calls) := Step(s, Emit(e', p));
            Hits(calls, e, h) + (if h in Get(s'.once, e) then 1 else 0) == if h in Get(s.once, e) then 1 else 0
  {
    HitsOfCalls(e', Get(s.on, e'), p, e, h);
    HitsOfCalls(e', Get(s.once, e'), p, e, h);
    HitsConcat(Calls(e', Get(s.on, e'), p), Calls(e', Get(s.once, e'), p), e, h);
  }

  lemma OnceCountsOnce<P>(s: State<P>, e': string, g: Handler, e: string, h: Handler)
    ensures var (s', calls) := Step(s, Once(e', g));
            Hits(calls, e, h) + (if h in Get(s'.once, e) then 1 else 0)
            <= (if h in Get(s.once, e) then 1 else 0) + (if e' == e && g == h then 1 else 0)
  {
    assert Hits<P>([], e, h) == 0;
    assert Get(s.cached, e') != [] ==>
        Hits([Call(e', g, Get(s.cached, e')[0])], e, h) == if e' == e && g == h then 1 else 0;
  }

  lemma StepUsesUpOnce<P>(s: State<P>, op: Op<P>, e: string, h: Handler)
    requires SetsAreSets(s) && h !in Get(s.on, e) && op != On(e, h)
    ensures h !in Get(Step(s, op).0.on, e)
    ensures Hits(Step(s, op).1, e, h) + (if h in Get(Step(s, op).0.once, e) then 1 else 0)
         <= (if h in Get(s.once, e) then 1 else 0) + (if op == Once(e, h) then 1 else 0)
  {
    if op.On? {
      NoHitsInReplay(op.event, op.handler, Get(s.cached, op.event), e, h);
    } else if op.Emit? {
      EmitUsesUpOnce(s, op.event, op.payload, e, h);
    } else if op.Once? {
      OnceCountsOnce(s, op.event, op.handler, e, h);
    }
  }

  lemma {:induction false} RunUsesUpOnce<P>(s: State<P>, ops: seq<Op<P>>, e: string, h: Handler)
    requires SetsAreSets(s) && h !in Get(s.on, e) && On(e, h) !in ops
    ensures TimesCalled(s, ops, e, h) <= (if h in Get(s.once, e) then 1 else 0) + TimesRegistered(ops, e, h)
    decreases |ops|
  {
    if ops == [] {
    } else {
      StepUsesUpOnce(s, ops[0], e, h);
      StepKeepsSets(s, ops[0]);
      RunUsesUpOnce(Step(s, ops[0]).0, ops[1..], e, h);
    }
  }

  // A handler registered only with once is called at most once per registration, in any run at all.
  lemma OnceIsAtMostOnce<P>(caching: bool, ops: seq<Op<P>>, e: string, h: Handler)
    requires On(e, h) !in ops
    ensures TimesCalled(New(caching), ops, e, h) <= TimesRegistered(ops, e, h)
  {
    RunUsesUpOnce(New(caching), ops, e, h);
  }

  // ----- The emitter -----

  class EventEmitter<P> {
    var onHandlers: map<string, seq<Handler>>
    var onceHandlers: map<string, seq<Handler>>
    var cachedEvents: map<string, seq<P>>
    var isCaching: bool

    ghost function Now(): State<P>
      reads this
    {
      State(onHandlers, onceHandlers, cachedEvents, isCaching)
    }

    constructor (caching: bool)
      ensures Now() == New(caching)
    {
      onHandlers, onceHandlers, cachedEvents, isCaching := map[], map[], map[], caching;
    }

    method SetCachingMode(c: bool)
      modifies this
      ensures Now() == Step(old(Now()), SetCaching(c)).0
    {
      isCaching := c;
    }

    method On(event: string, handler: Handler) returns (calls: seq<Call<P>>)
      modifies this
      ensures (Now(), calls) == Step(old(Now()), Op.On(event, handler))
    {
      if event !in onHandlers {
        onHandlers := onHandlers[event := []];
      }
      onHandlers := onHandlers[event := Added(onHandlers[event], handler)];
      assert onHandlers == old(onHandlers)[event := Added(Get(old(onHandlers), event), handler)];
      calls := EmitCached(event, handler, false);
    }

    method Once(event: string, handler: Handler) returns (calls: seq<Call<P>>)
      modifies this
      ensures (Now(), calls) == Step(old(Now()), Op.Once(event, handler))
    {
      if event !in onceHandlers {
        onceHandlers := onceHandlers[event := []];
      }
      onceHandlers := onceHandlers[event := Added(onceHandlers[event], handler)];
      ghost var added := Added(Get(old(onceHandlers), event), handler);
      assert onceHandlers == old(onceHandlers)[event := added];
      assert onceHandlers[event := Removed(added, handler)] == old(onceHandlers)[event := Removed(added, handler)];
      calls := EmitCached(event, handler, true);
    }

    method Off(event: string, handler: Option<Handler>)
      modifies this
      ensures Now() == Step(old(Now()), Op.Off(event, handler)).0
    {
      if handler == None {
        onHandlers := Cleared(onHandlers, event);
        onceHandlers := Cleared(onceHandlers, event);
        return;
      }
      if event in onHandlers {
        onHandlers := onHandlers[event := Removed(onHandlers[event], handler.value)];
      }
      if event in onceHandlers {
        onceHandlers := onceHandlers[event := Removed(onceHandlers[event], handler.value)];
      }
    }

    method OffAll()
      modifies this
      ensures Now() == Step(old(Now()), OffAllEvents).0
    {
      onHandlers, onceHandlers := map[], map[];
    }

    method Emit(event: string, payload: P) returns (calls: seq<Call<P>>)
      modifies this
      ensures (Now(), calls) == Step(old(Now()), Op.Emit(event, payload))
    {
      var on, once := Get(onHandlers, event), Get(onceHandlers, event);
      calls := [];
      if isCaching && |on| == 0 && |once| == 0 {
        SaveCached(event, payload);
        return;
      }
      for i := 0 to |on|
        invariant calls == Calls(event, on, payload)[..i]
      {
        calls := calls + [Call(event, on[i], payload)];
      }
      assert calls == Calls(event, on, payload) + [];
      if event in onceHandlers {
        var handlers := onceHandlers[event];
        onceHandlers := onceHandlers[event := []];
        for i := 0 to |handlers|
          invariant calls == Calls(event, on, payload) + Calls(event, handlers, payload)[..i]
        {
          calls := calls + [Call(event, handlers[i], payload)];
        }
      }
      assert calls == Calls(event, on, payload) + Calls(event, once, payload);
    }

    method HasHandlers(event: string) returns (b: bool)
      ensures b == Listened(Now(), event)
    {
      b := |Get(onHandlers, event)| > 0 || |Get(onceHandlers, event)| > 0;
    }

    method DropCachedEvents(eventsToDrop: seq<string>)
      modifies this
      ensures forall e :: Get(cachedEvents, e) ==
                Get(Step(old(Now()), DropCached(set x | x in eventsToDrop)).0.cached, e)
      ensures Now().(cached := old(cachedEvents)) == old(Now())
    {
      for i := 0 to |eventsToDrop|
        invariant Now().(cached := old(cachedEvents)) == old(Now())
        invariant forall e :: Get(cachedEvents, e) ==
                    if e in eventsToDrop[..i] then [] else Get(old(cachedEvents), e)
      {
        cachedEvents := cachedEvents[eventsToDrop[i] := []];
      }
    }

    method EmitCached(event: string, handler: Handler, once: bool) returns (calls: seq<Call<P>>)
      requires once ==> event in onceHandlers
      modifies this
      ensures var cached := Get(old(cachedEvents), event);
              && isCaching == old(isCaching) && onHandlers == old(onHandlers)
              && (cached == [] ==> calls == [] && Now() == old(Now()))
              && (cached != [] && once ==>
                    && calls == [Call(event, handler, cached[0])]
                    && cachedEvents == old(cachedEvents)[event := cached[1..]]
                    && onceHandlers == old(onceHandlers)[event := Removed(old(onceHandlers)[event], handler)])
              && (cached != [] && !once ==>
                    && calls == Replayed(event, handler, cached)
                    && cachedEvents == old(cachedEvents)[event := []]
                    && onceHandlers == old(onceHandlers))
    {
      calls := [];
      var cached := Get(cachedEvents, event);
      if |cached| == 0 {
        return;
      }
      if once {
        cachedEvents := cachedEvents[event := cached[1..]];
        onceHandlers := onceHandlers[event := Removed(onceHandlers[event], handler)];
        return [Call(event, handler, cached[0])];
      }
      for i := 0 to |cached|
        invariant calls == Replayed(event, handler, cached)[..i]
      {
        calls := calls + [Call(event, handler, cached[i])];
      }
      cachedEvents := cachedEvents[event := []];
    }

    method SaveCached(event: string, payload: P)
      modifies this`cachedEvents
      ensures cachedEvents == old(cachedEvents)[event := Get(old(cachedEvents), event) + [payload]]
    {
      if event !in cachedEvents {
        cachedEvents := cachedEvents[event := []];
      }
      cachedEvents := cachedEvents[event := cachedEvents[event] + [payload]];
    }
  }
}
