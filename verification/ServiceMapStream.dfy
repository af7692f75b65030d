/** backend/internal/apiserver/service_map_stream.go: the loop that buffers flows, keeps the cache and sends. */
module ServiceMapStreams {
  import opened Flows
  import opened Services
  import opened Links
  import opened Caches
  import opened Circular
  import opened DataThrottlers
  import opened Sequences

  datatype Response = Response(flows: seq<Flow>, links: seq<Result<Link>>, services: seq<Result<Service>>)

  // What the select of the loop can come up with; sends says whether a message sent in response gets through.
  datatype Event =
    | FlowArrived(f: Flow, now: int, sends: bool)
    | Tick(now: int, sends: bool)
    | StatusArrived(sends: bool)
    | RecoverableError
    | UnrecoverableError     // of the flow stream or the status checker
    | FlowStreamStopped
    | ChannelGone            // the context is done, or the channel is closed or shut down

  datatype Outcome = Running | Closed | SendFailed | StreamFailed

  ghost function AllFlows(sent: seq<Response>): seq<Flow> {
    if sent == [] then [] else AllFlows(sent[..|sent| - 1]) + sent[|sent| - 1].flows
  }

  ghost function AllLinks(sent: seq<Response>): seq<Result<Link>> {
    if sent == [] then [] else AllLinks(sent[..|sent| - 1]) + sent[|sent| - 1].links
  }

  ghost function AllServices(sent: seq<Response>): seq<Result<Service>> {
    if sent == [] then [] else AllServices(sent[..|sent| - 1]) + sent[|sent| - 1].services
  }

  ghost function Arrived(events: seq<Event>): seq<Flow> {
    if events == [] then [] else
    Arrived(events[..|events| - 1]) + (if events[|events| - 1].FlowArrived? then [events[|events| - 1].f] else [])
  }

  // ----- What each event does -----

  // Where a flow that is buffered meets a full buffer, or a tick comes, everything buffered is to be sent.
  predicate IsDue(max: nat, buffered: nat, event: Event) {
    event.Tick? || (event.FlowArrived? && buffered == max)
  }

  // A send that is due and fails ends the loop, and so do errors that cannot be recovered from and closed channels.
  function OutcomeOf(max: nat, buffered: nat, event: Event): Outcome {
    match event
    case FlowArrived(_, _, sends) => if buffered == max && !sends then SendFailed else Running
    case Tick(_, sends) => if sends then Running else SendFailed
    case StatusArrived(sends) => if sends then Running else SendFailed
    case RecoverableError => Running
    case UnrecoverableError => StreamFailed
    case FlowStreamStopped => StreamFailed
    case ChannelGone => Closed
  }

  ghost predicate Sends(event: Event) {
    match event
    case FlowArrived(_, _, sends) => sends
    case Tick(_, sends) => sends
    case StatusArrived(sends) => sends
    case _ => false
  }

  // Why the loop ends: a send that was due failed, the flow stream or the status checker failed for good, or the
  // channel is gone.
  lemma OutcomeSaysWhy(max: nat, buffered: nat, event: Event)
    ensures var outcome := OutcomeOf(max, buffered, event);
            && (outcome == SendFailed <==> (IsDue(max, buffered, event) || event.StatusArrived?) && !Sends(event))
            && (outcome == StreamFailed <==> event.UnrecoverableError? || event.FlowStreamStopped?)
            && (outcome == Closed <==> event.ChannelGone?)
  {
  }

  ghost function ArrivedIn(event: Event): seq<Flow> {
    if event.FlowArrived? then [event.f] else []
  }

  // What is buffered, and which batches have been sent, once all events have been handled.
  ghost function BufferAt(max: nat, buffer: seq<Flow>, events: seq<Event>): seq<Flow> {
    if events == [] then buffer else
    var before, event := BufferAt(max, buffer, events[..|events| - 1]), events[|events| - 1];
    (if IsDue(max, |before|, event) then [] else before) + ArrivedIn(event)
  }

  ghost function Batches(max: nat, buffer: seq<Flow>, events: seq<Event>): seq<seq<Flow>> {
    if events == [] then [] else
    var before, event := BufferAt(max, buffer, events[..|events| - 1]), events[|events| - 1];
    Batches(max, buffer, events[..|events| - 1]) + (if IsDue(max, |before|, event) then [before] else [])
  }

  // One more event.
  lemma Unfolds(max: nat, buffer: seq<Flow>, events: seq<Event>, event: Event)
    ensures var before := BufferAt(max, buffer, events);
            var due := IsDue(max, |before|, event);
            && BufferAt(max, buffer, events + [event]) == (if due then [] else before) + ArrivedIn(event)
            && Batches(max, buffer, events + [event]) == Batches(max, buffer, events) + (if due then [before] else [])
            && Arrived(events + [event]) == Arrived(events) + ArrivedIn(event)
  {
    assert (events + [event])[..|events|] == events;
  }

  // No event ends the loop.
  ghost predicate RunsThrough(max: nat, buffer: seq<Flow>, events: seq<Event>) {
    forall i :: 0 <= i < |events| ==> OutcomeOf(max, |BufferAt(max, buffer, events[..i])|, events[i]) == Running
  }

  ghost function BatchesIn(sent: seq<Response>): (r: seq<seq<Flow>>)
    ensures |r| == |sent|
  {
    seq(|sent|, i requires 0 <= i < |sent| => sent[i].flows)
  }

  ghost function Joined(batches: seq<seq<Flow>>): seq<Flow> {
    if batches == [] then [] else Joined(batches[..|batches| - 1]) + batches[|batches| - 1]
  }

  lemma JoinedSnoc(batches: seq<seq<Flow>>, b: seq<Flow>)
    ensures Joined(batches + [b]) == Joined(batches) + b
  {
    assert (batches + [b])[..|batches|] == batches;
  }

  lemma Regroup(j: seq<Flow>, b: seq<Flow>, x: seq<Flow>, y: seq<Flow>, a: seq<Flow>)
    requires j + b == x + y
    ensures j + (b + a) == x + (y + a) && (j + b) + a == x + (y + a)
  {
    assert j + (b + a) == (j + b) + a == (x + y) + a == x + (y + a);
  }

  lemma BatchesInSnoc(sent: seq<Response>, resp: Response)
    ensures BatchesIn(sent + [resp]) == BatchesIn(sent) + [resp.flows]
  {
  }

  // However events come, what has been sent and what is buffered are the flows that arrived, in order.
  lemma {:induction false} BatchesThenBuffer(max: nat, buffer: seq<Flow>, events: seq<Event>)
    ensures Joined(Batches(max, buffer, events)) + BufferAt(max, buffer, events) == buffer + Arrived(events)
  {
    if events == [] {
      assert [] + buffer == buffer + [];
    } else {
      var front, event := events[..|events| - 1], events[|events| - 1];
      var batches, before := Batches(max, buffer, front), BufferAt(max, buffer, front);
      BatchesThenBuffer(max, buffer, front);
      SplitLast(events);
      Unfolds(max, buffer, front, event);
      Regroup(Joined(batches), before, buffer, Arrived(front), ArrivedIn(event));
      JoinedSnoc(batches, before);
      assert batches + [] == batches && [] + ArrivedIn(event) == ArrivedIn(event);
    }
  }

  // After a tick nothing that has arrived is left unsent.
  lemma TickSendsEverything(max: nat, buffer: seq<Flow>, events: seq<Event>, tick: Event)
    requires tick.Tick?
    ensures BufferAt(max, buffer, events + [tick]) == []
    ensures Joined(Batches(max, buffer, events + [tick])) == buffer + Arrived(events)
  {
    var all := events + [tick];
    assert all[..|events|] == events;
    BatchesThenBuffer(max, buffer, all);
    assert Arrived(all) == Arrived(events) + [] == Arrived(events);
    assert Joined(Batches(max, buffer, all)) + [] == Joined(Batches(max, buffer, all));
  }

  lemma NextInRound(n: nat, max: nat)
    requires 0 < max && 0 < n
    ensures if (n - 1) % max + 1 == max then n % max == 0 && n / max == (n - 1) / max + 1
            else n % max == (n - 1) % max + 1 && n / max == (n - 1) / max
  {
    var q, r := (n - 1) / max, (n - 1) % max;
    assert n - 1 == q * max + r;
    if r + 1 == max {
      assert n == (q + 1) * max + 0;
      DivUnique(n, q + 1, 0, max);
    } else {
      DivUnique(n, q, r + 1, max);
    }
  }

  // Between ticks a batch is sent only when a flow finds the buffer full: of n flows since the last tick, whole
  // batches of max are sent as late as can be.
  lemma {:induction false} SinceTick(max: nat, events: seq<Event>)
    requires 0 < max && forall i :: 0 <= i < |events| ==> !events[i].Tick?
    ensures var n := |Arrived(events)|;
            && |BufferAt(max, [], events)| == (if n == 0 then 0 else (n - 1) % max + 1)
            && |Batches(max, [], events)| == (if n == 0 then 0 else (n - 1) / max)
  {
    if events == [] {
    } else {
      var front := events[..|events| - 1];
      SinceTick(max, front);
      var n := |Arrived(front)|;
      if n > 0 {
        NextInRound(n, max);
      } else {
        assert 0 % max == 0 && 0 / max == 0;
      }
    }
  }

  // From a tick on everything is as if the loop had just begun.
  lemma {:induction false} FromTickOn(max: nat, buffer: seq<Flow>, events: seq<Event>, tick: Event, later: seq<Event>)
    requires tick.Tick?
    ensures BufferAt(max, buffer, events + [tick] + later) == BufferAt(max, [], later)
    ensures Batches(max, buffer, events + [tick] + later) ==
            Batches(max, buffer, events + [tick]) + Batches(max, [], later)
    decreases |later|
  {
    if later == [] {
      assert events + [tick] + later == events + [tick];
      TickSendsEverything(max, buffer, events, tick);
      assert Batches(max, buffer, events + [tick]) + [] == Batches(max, buffer, events + [tick]);
    } else {
      var front, event, all := later[..|later| - 1], later[|later| - 1], events + [tick] + later[..|later| - 1];
      FromTickOn(max, buffer, events, tick, front);
      SplitLast(later);
      assert events + [tick] + later == all + [event];
      Unfolds(max, buffer, all, event);
      Unfolds(max, [], front, event);
    }
  }

  // What the loop can be seen to have done: what it has buffered, sent and received.
  datatype Progress = Progress(buffer: seq<Flow>, batches: seq<seq<Flow>>, received: seq<Flow>)

  ghost predicate Handles(max: nat, s: Progress, event: Event, outcome: Outcome, s': Progress) {
    var due := IsDue(max, |s.buffer|, event);
    && outcome == OutcomeOf(max, |s.buffer|, event)
    && (outcome == Running ==> s'.buffer == (if due then [] else s.buffer) + ArrivedIn(event))
    && s'.batches == s.batches + (if due && outcome == Running then [s.buffer] else [])
    && s'.received == s.received + ArrivedIn(event)
  }

  ghost function ProgressAt(max: nat, s: Progress, events: seq<Event>): Progress {
    Progress(BufferAt(max, s.buffer, events), s.batches + Batches(max, s.buffer, events), s.received + Arrived(events))
  }

  // None of the events ended the loop.
  ghost predicate Follows(max: nat, s: Progress, events: seq<Event>, s': Progress) {
    RunsThrough(max, s.buffer, events) && s' == ProgressAt(max, s, events)
  }

  // The last of the events ended it, and none before.
  ghost predicate EndsWith(max: nat, s: Progress, events: seq<Event>, outcome: Outcome, s': Progress) {
    && outcome != Running && events != []
    && var front := events[..|events| - 1];
       && RunsThrough(max, s.buffer, front)
       && Handles(max, ProgressAt(max, s, front), events[|events| - 1], outcome, s')
  }

  lemma RunsThroughSnoc(max: nat, buffer: seq<Flow>, events: seq<Event>, event: Event)
    requires RunsThrough(max, buffer, events)
    requires OutcomeOf(max, |BufferAt(max, buffer, events)|, event) == Running
    ensures RunsThrough(max, buffer, events + [event])
  {
    var all := events + [event];
    forall i | 0 <= i < |all|
      ensures OutcomeOf(max, |BufferAt(max, buffer, all[..i])|, all[i]) == Running
    {
      assert all[..i] == events[..i];
    }
  }

  lemma FollowsNone(max: nat, s: Progress)
    ensures Follows(max, s, [], s)
  {
    assert s.batches + [] == s.batches && s.received + [] == s.received;
  }

  lemma ProgressSnoc(max: nat, s: Progress, events: seq<Event>, event: Event, s': Progress)
    requires Handles(max, ProgressAt(max, s, events), event, Running, s')
    ensures s' == ProgressAt(max, s, events + [event])
  {
    Unfolds(max, s.buffer, events, event);
    var before := BufferAt(max, s.buffer, events);
    var due := if IsDue(max, |before|, event) then [before] else [];
    AppendAssoc(s.batches, Batches(max, s.buffer, events), due);
    AppendAssoc(s.received, Arrived(events), ArrivedIn(event));
  }

  lemma FollowsOn(max: nat, s: Progress, events: seq<Event>, n: nat, s1: Progress, outcome: Outcome, s2: Progress)
    requires n < |events| && Follows(max, s, events[..n], s1) && Handles(max, s1, events[n], outcome, s2)
    ensures if outcome == Running then Follows(max, s, events[..n + 1], s2)
            else EndsWith(max, s, events[..n + 1], outcome, s2)
  {
    assert events[..n + 1] == events[..n] + [events[n]] && events[..n + 1][..n] == events[..n];
    if outcome == Running {
      ProgressSnoc(max, s, events[..n], events[n], s2);
      RunsThroughSnoc(max, s.buffer, events[..n], events[n]);
    }
  }

  lemma FollowsTick(max: nat, s: Progress, events: seq<Event>, s': Progress)
    requires Follows(max, s, events, s') && events != [] && events[|events| - 1].Tick?
    ensures s'.buffer == []
  {
  }

  // ----- Link and service results -----

  lemma {:induction false} LinksOfConcat(a: seq<Flow>, b: seq<Flow>)
    ensures LinksOf(a + b) == LinksOf(a) + LinksOf(b)
  {
    if a == [] {
      assert a + b == b;
    } else {
      assert (a + b)[1..] == a[1..] + b && (a + b)[0] == a[0];
      LinksOfConcat(a[1..], b);
      LinksOfCons(a);
      LinksOfCons(a + b);
    }
  }

  lemma LinksOfCons(flows: seq<Flow>)
    requires flows != []
    ensures LinksOf(flows) == LinksOf([flows[0]]) + LinksOf(flows[1..])
  {
    assert [flows[0]][1..] == [];
  }

  lemma {:induction false} ServicesOfConcat(a: seq<Flow>, b: seq<Flow>)
    ensures ServicesOf(a + b) == ServicesOf(a) + ServicesOf(b)
  {
    if a == [] {
      assert a + b == b;
    } else {
      assert (a + b)[1..] == a[1..] + b && (a + b)[0] == a[0];
      ServicesOfConcat(a[1..], b);
    }
  }

  ghost predicate Short(sent: seq<Response>, maxLength: nat) {
    forall i :: 0 <= i < |sent| ==> |sent[i].flows| <= maxLength
  }

  // The link results sent are those a cache reports that is given the flows sent, and `links` is what it then holds.
  ghost predicate Reports(sent: seq<Response>, links: map<string, Link>) {
    (links, AllLinks(sent)) == UpsertAll(map[], LinksOf(AllFlows(sent)))
  }

  // And the same of the service results.
  ghost predicate ReportsServices(sent: seq<Response>, services: map<string, Service>) {
    (services, AllServices(sent)) == UpsertServices(map[], ServicesOf(AllFlows(sent)))
  }

  lemma AllFlowsSnoc(sent: seq<Response>, resp: Response)
    ensures AllFlows(sent + [resp]) == AllFlows(sent) + resp.flows
    ensures AllLinks(sent + [resp]) == AllLinks(sent) + resp.links
    ensures AllServices(sent + [resp]) == AllServices(sent) + resp.services
  {
    assert (sent + [resp])[..|sent|] == sent;
  }

  lemma SendKeepsReports(sent: seq<Response>, links: map<string, Link>, resp: Response, links': map<string, Link>)
    requires Reports(sent, links) && (links', resp.links) == UpsertAll(links, LinksOf(resp.flows))
    ensures Reports(sent + [resp], links')
  {
    AllFlowsSnoc(sent, resp);
    LinksOfConcat(AllFlows(sent), resp.flows);
    BatchesConcatenate(map[], LinksOf(AllFlows(sent)), LinksOf(resp.flows));
  }

  lemma SendKeepsReportsServices(sent: seq<Response>, services: map<string, Service>, resp: Response,
                                 services': map<string, Service>)
    requires ReportsServices(sent, services)
    requires (services', resp.services) == UpsertServices(services, ServicesOf(resp.flows))
    ensures ReportsServices(sent + [resp], services')
  {
    AllFlowsSnoc(sent, resp);
    ServicesOfConcat(AllFlows(sent), resp.flows);
    ServiceBatchesConcatenate(map[], ServicesOf(AllFlows(sent)), ServicesOf(resp.flows),
                              services, AllServices(sent), services', resp.services);
  }

  // The cache is what the flows sent so far make of it, and the results sent so far are what it reported. Results
  // that are not wanted are not sent.
  ghost predicate Coherent(wantServices: bool, wantLinks: bool, sent: seq<Response>,
                           services: map<string, Service>, links: map<string, Link>)
  {
    && (if wantLinks then Reports(sent, links) else AllLinks(sent) == [])
    && (if wantServices then ReportsServices(sent, services) else AllServices(sent) == [])
    && (wantServices && wantLinks ==> EndsKnown(services, links))
  }

  // One more batch has gone through the cache, and resp says what came of it.
  ghost predicate Updates(wantServices: bool, wantLinks: bool, services: map<string, Service>,
                          links: map<string, Link>, resp: Response,
                          services': map<string, Service>, links': map<string, Link>)
  {
    && (links', resp.links) == (if wantLinks then UpsertAll(links, LinksOf(resp.flows)) else (links, []))
    && (services', resp.services) ==
       (if wantServices then UpsertServices(services, ServicesOf(resp.flows)) else (services, []))
  }

  lemma SendKeepsCoherent(wantServices: bool, wantLinks: bool, sent: seq<Response>, services: map<string, Service>,
                          links: map<string, Link>, resp: Response,
                          services': map<string, Service>, links': map<string, Link>)
    requires Coherent(wantServices, wantLinks, sent, services, links)
    requires Updates(wantServices, wantLinks, services, links, resp, services', links')
    ensures Coherent(wantServices, wantLinks, sent + [resp], services', links')
  {
    AllFlowsSnoc(sent, resp);
    if wantLinks {
      SendKeepsReports(sent, links, resp, links');
    }
    if wantServices {
      SendKeepsReportsServices(sent, services, resp, services');
    }
    if wantServices && wantLinks {
      BatchKeepsEndsKnown(services, links, resp.flows);
    }
  }

  lemma AppendFlow(sent: seq<Flow>, lost: seq<Flow>, buffer: seq<Flow>, received: seq<Flow>, f: Flow)
    requires sent + lost + buffer == received
    ensures sent + lost + (buffer + [f]) == received + [f]
    ensures buffer == [] ==> sent + (lost + [f]) + buffer == received + [f]
  {
  }

  lemma NothingLeft(sent: seq<Flow>, lost: seq<Flow>, buffer: seq<Flow>, received: seq<Flow>)
    requires sent + lost + buffer == received && lost == [] && buffer == []
    ensures sent == received
  {
  }

  lemma MoveBatch(sent: seq<Flow>, batch: seq<Flow>, received: seq<Flow>)
    requires sent + [] + batch == received
    ensures (sent + batch) + [] + [] == received && sent + batch + [] == received
  {
  }

  class ServiceMapStream {
    const flows: DataThrottler<Flow>
    const dcache: DataCache
    const wantServices: bool
    const wantLinks: bool
    var sent: seq<Response>
    ghost var received: seq<Flow>
    ghost var lost: seq<Flow>    // what a failed send took with it

    ghost predicate Valid()
      reads this, flows, flows.buffer, flows.buffer.data, dcache
    {
      && flows.Valid()
      && AllFlows(sent) + lost + flows.Contents() == received
      && Short(sent, flows.maxLength)
      && (lost == [] ==> Coherent(wantServices, wantLinks, sent, dcache.services, dcache.links))
    }

    ghost function Now(): Progress
      requires flows.Valid()
      reads this, flows, flows.buffer, flows.buffer.data
    {
      Progress(flows.Contents(), BatchesIn(sent), received)
    }

    constructor (wantServices: bool, wantLinks: bool)
      ensures Valid() && sent == [] && received == [] && lost == []
      ensures fresh(flows) && fresh(flows.buffer) && fresh(flows.buffer.data) && fresh(dcache)
      ensures this.wantServices == wantServices && this.wantLinks == wantLinks && flows.maxLength == 500
    {
      flows := new DataThrottler<Flow>(500);
      dcache := new DataCache();
      this.wantServices, this.wantLinks := wantServices, wantLinks;
      sent, received, lost := [], [], [];
    }

    // Takes the links and services from a batch of flows.
    method UpdateCache(wflows: seq<Flow>) returns (resp: Response)
      modifies dcache
      ensures resp.flows == wflows
      ensures Updates(wantServices, wantLinks, old(dcache.services), old(dcache.links), resp,
                      dcache.services, dcache.links)
    {
      var svcs, links := [], [];
      if wantServices {
        svcs := dcache.UpsertServicesFromFlows(wflows);
      }
      if wantLinks {
        links := dcache.UpsertLinksFromFlows(wflows);
      }
      resp := Response(wflows, links, svcs);
    }

    method FlushFlows(now: int, sends: bool) returns (ok: bool)
      requires Valid() && lost == []
      modifies this`sent, this`lost, flows`lastFlashAt, flows.buffer, dcache
      ensures Valid() && ok == sends && flows.buffer.data == old(flows.buffer.data)
      ensures old(sent) <= sent
      ensures flows.Contents() == [] && received == old(received)
      ensures lost == if ok then [] else old(flows.Contents())
      ensures BatchesIn(sent) == BatchesIn(old(sent)) + if ok then [old(flows.Contents())] else []
    {
      ghost var services, links := dcache.services, dcache.links;
      var wflows := flows.Flush(now);
      var resp := UpdateCache(wflows);
      MoveBatch(AllFlows(sent), wflows, received);
      if sends {
        AllFlowsSnoc(sent, resp);
        BatchesInSnoc(sent, resp);
        SendKeepsCoherent(wantServices, wantLinks, sent, services, links, resp, dcache.services, dcache.links);
        sent := sent + [resp];
      } else {
        lost := wflows;
      }
      return sends;
    }

    // A flow is buffered; if the buffer is full, what it holds is sent first, and then there is room.
    method OnFlow(f: Flow, now: int, sends: bool) returns (ok: bool)
      requires Valid() && lost == []
      modifies this`sent, this`lost, this`received, flows`lastFlashAt, flows.buffer, flows.buffer.data, dcache
      ensures Valid() && flows.buffer.data == old(flows.buffer.data)
      ensures old(sent) <= sent
      ensures received == old(received) + [f]
      ensures ok == (sends || |old(flows.Contents())| < flows.maxLength)
      ensures lost == if ok then [] else old(flows.Contents()) + [f]
      ensures var full := |old(flows.Contents())| == flows.maxLength;
              && (ok ==> flows.Contents() == (if full then [] else old(flows.Contents())) + [f])
              && BatchesIn(sent) == BatchesIn(old(sent)) + if full && ok then [old(flows.Contents())] else []
    {
      AppendFlow(AllFlows(sent), lost, flows.Contents(), received, f);
      var isAdded := flows.Push(f);
      if isAdded {
        received := received + [f];
        return true;
      }
      ok := FlushFlows(now, sends);
      AppendFlow(AllFlows(sent), lost, flows.Contents(), received, f);
      received := received + [f];
      if !ok {
        lost := lost + [f];
        return;
      }
      var again := flows.Push(f);
      assert again;
    }

    // One round of the loop: what the select came up with.
    method Handle(event: Event) returns (outcome: Outcome)
      requires Valid() && lost == []
      modifies this`sent, this`lost, this`received, flows`lastFlashAt, flows.buffer, flows.buffer.data, dcache
      ensures Valid() && flows.buffer.data == old(flows.buffer.data)
      ensures old(sent) <= sent
      ensures lost == if outcome == SendFailed && IsDue(flows.maxLength, |old(flows.Contents())|, event)
                      then old(flows.Contents()) + ArrivedIn(event) else []
      ensures Handles(flows.maxLength, old(Now()), event, outcome, Now())
    {
      var ok := true;
      match event {
        case FlowArrived(f, now, sends) => ok := OnFlow(f, now, sends);
        case Tick(now, sends) => ok := FlushFlows(now, sends);
        case StatusArrived(sends) => ok := sends;
        case RecoverableError =>
        case UnrecoverableError => return StreamFailed;
        case FlowStreamStopped => return StreamFailed;
        case ChannelGone => return Closed;
      }
      return if ok then Running else SendFailed;
    }

    // The loop: handles events until the first one that ends it, and says why. Until then it has sent just the
    // batches that were due, and after a tick nothing received is left unsent.
    method Run(events: seq<Event>) returns (outcome: Outcome, handled: nat)
      requires Valid() && lost == []
      modifies this`sent, this`lost, this`received, flows`lastFlashAt, flows.buffer, flows.buffer.data, dcache
      ensures Valid() && flows.buffer.data == old(flows.buffer.data)
      ensures old(sent) <= sent
      ensures handled <= |events| && (outcome == Running ==> handled == |events|)
      ensures outcome != SendFailed ==> lost == []
      ensures if outcome == Running then Follows(flows.maxLength, old(Now()), events[..handled], Now())
              else EndsWith(flows.maxLength, old(Now()), events[..handled], outcome, Now())
      ensures outcome == Running && events != [] && events[|events| - 1].Tick? ==> AllFlows(sent) == received
    {
      outcome, handled := Running, 0;
      ghost var max, start := flows.maxLength, Now();
      FollowsNone(max, start);
      while handled < |events|
        invariant Valid() && lost == [] && flows.buffer.data == old(flows.buffer.data)
        invariant handled <= |events| && outcome == Running && old(sent) <= sent
        invariant Follows(max, start, events[..handled], Now())
      {
        ghost var before := Now();
        outcome := Handle(events[handled]);
        FollowsOn(max, start, events, handled, before, outcome, Now());
        handled := handled + 1;
        if outcome != Running {
          return;
        }
      }
      assert events[..handled] == events;
      if events != [] && events[|events| - 1].Tick? {
        FollowsTick(max, start, events, Now());
        NothingLeft(AllFlows(sent), lost, flows.Contents(), received);
      }
    }
  }

  // A client that applies the link results it is sent has the table of a client that made links of every flow
  // it is sent, and that is the cache's table too.
  lemma ClientTableIsLastWritten(sent: seq<Response>, links: map<string, Link>)
    requires Reports(sent, links)
    ensures Replayed(map[], AllLinks(sent)) == LastWritten(map[], LinksOf(AllFlows(sent)))
    ensures Replayed(map[], AllLinks(sent)) == TableOf(links)
  {
    ReplayAgrees(map[], LinksOf(AllFlows(sent)));
    assert TableOf(map[]) == map[];
  }

  // In terms of flows: for each link id it has what the last flow it is sent says that makes a link with that id, and
  // it has no other ids.
  lemma ClientSeesLastFlows(sent: seq<Response>, links: map<string, Link>, id: string)
    requires Reports(sent, links)
    ensures var t, flows := Replayed(map[], AllLinks(sent)), AllFlows(sent);
              && (id in t <==> exists f :: f in flows && Makes(f, id))
              && (forall i :: 0 <= i < |flows| && Makes(flows[i], id)
                              && (forall j :: i < j < |flows| ==> !Makes(flows[j], id)) ==>
                    id in t && t[id].id == id && Describes(t[id], flows[i]))
  {
    ClientTableIsLastWritten(sent, links);
    LastFlowIsWritten(map[], AllFlows(sent), id);
    LastMakerIsLast(AllFlows(sent), id);
  }

  // A client that applies the service results it is sent has the cached services, each with the workload names of
  // the latest service with its id among the flows it is sent.
  lemma ClientServicesAreLatest(sent: seq<Response>, services: map<string, Service>)
    requires ReportsServices(sent, services)
    ensures ReplayedServices(map[], AllServices(sent)) == services
    ensures NamesOf(ReplayedServices(map[], AllServices(sent))) == LastNames(map[], ServicesOf(AllFlows(sent)))
  {
    ServiceReplayAgrees(map[], ServicesOf(AllFlows(sent)));
    CachedNamesAreLatest(map[], ServicesOf(AllFlows(sent)));
    assert NamesOf(map[]) == map[];
  }

  // And both ends of every link it has are services it has.
  lemma ClientKnowsEnds(sent: seq<Response>, services: map<string, Service>, links: map<string, Link>)
    requires ReportsServices(sent, services) && Reports(sent, links)
    ensures var t, ss := Replayed(map[], AllLinks(sent)), ReplayedServices(map[], AllServices(sent));
              forall id :: id in t ==> t[id].sourceId in ss && t[id].destinationId in ss
  {
    ClientServicesAreLatest(sent, services);
    ClientTableIsLastWritten(sent, links);
    BatchKeepsEndsKnown(map[], map[], AllFlows(sent));
  }

  // Its services are the ends of the flows it is sent, each under its id, and none is missing.
  lemma ClientServicesAreTheEnds(sent: seq<Response>, services: map<string, Service>)
    requires ReportsServices(sent, services)
    ensures var ss, flows := ReplayedServices(map[], AllServices(sent)), AllFlows(sent);
              && (forall id :: id in ss ==> Id(ss[id]) == id && IsEndIn(ss[id], flows))
              && (forall f :: f in flows ==>
                    && ServiceId(EndpointOf(f.source), f.sourceNames, false) in ss
                    && ServiceId(EndpointOf(f.destination), f.destinationNames, true) in ss)
  {
    ClientServicesAreLatest(sent, services);
    ServicesAreTheEnds(AllFlows(sent));
  }
}
