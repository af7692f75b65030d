/** backend/domain/cache/cache.go: the cache of services and links, which reports only what changes. */
module Caches {
  import opened Wrappers
  import opened Flows
  import opened Services
  import opened Links
  import opened Sequences

  datatype EventKind = Added | Modified | Exists | Unknown

  predicate IsChanged(k: EventKind) {
    k == Added || k == Modified
  }

  datatype Result<T> = Result(entry: T, kind: EventKind)

  function Reported<T>(entry: T, kind: EventKind): seq<Result<T>> {
    if IsChanged(kind) then [Result(entry, kind)] else []
  }

  // ----- Links -----

  function UpsertLink(links: map<string, Link>, l: Link): (map<string, Link>, EventKind) {
    if l.id !in links then (links[l.id := l], Added)
    else if Equals(links[l.id], l) then (links, Exists)
    else (links[l.id := l], Modified)
  }

  // A batch of links upserted one by one: the cache afterwards and the results reported.
  ghost function UpsertAll(links: map<string, Link>, ls: seq<Link>): (map<string, Link>, seq<Result<Link>>)
    decreases |ls|
  {
    if ls == [] then (links, []) else
    var (links', kind) := UpsertLink(links, ls[0]);
    var (links'', results) := UpsertAll(links', ls[1..]);
    (links'', Reported(ls[0], kind) + results)
  }

  // The links of a batch of flows; flows without a protocol or an end make none.
  ghost function LinksOf(flows: seq<Flow>): seq<Link> {
    if flows == [] then [] else
    (if FromFlow(flows[0]).Some? then [FromFlow(flows[0]).value] else []) + LinksOf(flows[1..])
  }

  type Table = map<string, ServiceLink>

  // What a client has that applies the reported results to its own table, whatever their kind.
  ghost function Replayed(t: Table, results: seq<Result<Link>>): Table
    decreases |results|
  {
    if results == [] then t else Replayed(t[results[0].entry.id := ToProto(results[0].entry)], results[1..])
  }

  // What a client has that sees every link.
  ghost function LastWritten(t: Table, ls: seq<Link>): Table
    decreases |ls|
  {
    if ls == [] then t else LastWritten(t[ls[0].id := ToProto(ls[0])], ls[1..])
  }

  ghost function TableOf(links: map<string, Link>): Table {
    map id | id in links :: ToProto(links[id])
  }

  ghost predicate KeyedById(links: map<string, Link>) {
    forall id :: id in links ==> links[id].id == id
  }

  lemma UpsertKeepsKeys(links: map<string, Link>, l: Link)
    requires KeyedById(links)
    ensures KeyedById(UpsertLink(links, l).0)
    ensures TableOf(UpsertLink(links, l).0) == TableOf(links)[l.id := ToProto(l)]
    ensures UpsertLink(links, l).1 == Exists <==> l.id in links && TableOf(links)[l.id] == ToProto(l)
  {
    var links' := UpsertLink(links, l).0;
    if l.id in links {
      assert Equals(links[l.id], l) <==> ToProto(links[l.id]) == ToProto(l);
      assert TableOf(links)[l.id] == ToProto(links[l.id]);
    }
    forall id | id in TableOf(links)[l.id := ToProto(l)]
      ensures id in links' && ToProto(links'[id]) == TableOf(links)[l.id := ToProto(l)][id]
    {
    }
  }

  // A client that applies only the reported changes agrees with one that sees everything.
  lemma {:induction false} ReplayAgrees(links: map<string, Link>, ls: seq<Link>)
    requires KeyedById(links)
    ensures var (links', results) := UpsertAll(links, ls);
            && KeyedById(links')
            && TableOf(links') == LastWritten(TableOf(links), ls)
            && Replayed(TableOf(links), results) == LastWritten(TableOf(links), ls)
    decreases |ls|
  {
    if ls == [] {
    } else {
      var (links', kind) := UpsertLink(links, ls[0]);
      UpsertKeepsKeys(links, ls[0]);
      ReplayAgrees(links', ls[1..]);
      var rest := UpsertAll(links', ls[1..]).1;
      if kind == Exists {
        assert TableOf(links') == TableOf(links);
        assert [] + rest == rest;
      } else {
        assert ([Result(ls[0], kind)] + rest)[1..] == rest;
      }
    }
  }

  // Several batches are one long one.
  lemma {:induction false} BatchesConcatenate(links: map<string, Link>, a: seq<Link>, b: seq<Link>)
    ensures var (links', ra) := UpsertAll(links, a);
            var (links'', rb) := UpsertAll(links', b);
            UpsertAll(links, a + b) == (links'', ra + rb)
    decreases |a|
  {
    if a == [] {
      assert a + b == b;
      var (links'', rb) := UpsertAll(links, b);
      assert [] + rb == rb;
    } else {
      var (links1, kind) := UpsertLink(links, a[0]);
      var (links', ra) := UpsertAll(links1, a[1..]);
      var (links'', rb) := UpsertAll(links', b);
      assert UpsertAll(links1, a[1..] + b) == (links'', ra + rb) by {
        BatchesConcatenate(links1, a[1..], b);
      }
      assert (a + b)[1..] == a[1..] + b;
      AppendAssoc(Reported(a[0], kind), ra, rb);
    }
  }

  // Nothing is reported in vain: each result is Added if the client had nothing under its id, and otherwise
  // Modified with something else than the client had.
  ghost predicate EachChanges(t: Table, results: seq<Result<Link>>)
    decreases |results|
  {
    results != [] ==>
      var l := results[0].entry;
      && results[0].kind == (if l.id in t then Modified else Added)
      && (l.id in t ==> t[l.id] != ToProto(l))
      && EachChanges(t[l.id := ToProto(l)], results[1..])
  }

  lemma {:induction false} EveryResultChangesTheTable(links: map<string, Link>, ls: seq<Link>)
    requires KeyedById(links)
    ensures EachChanges(TableOf(links), UpsertAll(links, ls).1)
    decreases |ls|
  {
    if ls == [] {
    } else {
      var (links', kind) := UpsertLink(links, ls[0]);
      UpsertKeepsKeys(links, ls[0]);
      EveryResultChangesTheTable(links', ls[1..]);
      var rest := UpsertAll(links', ls[1..]).1;
      if kind == Exists {
        assert TableOf(links') == TableOf(links);
        assert [] + rest == rest;
      } else {
        assert ([Result(ls[0], kind)] + rest)[1..] == rest;
      }
    }
  }

  lemma {:induction false} AddedComesFirst(t: Table, results: seq<Result<Link>>, i: nat)
    requires EachChanges(t, results) && i < |results|
    ensures results[i].kind == Added <==>
              results[i].entry.id !in t && forall j :: 0 <= j < i ==> results[j].entry.id != results[i].entry.id
    ensures results[i].kind != Added ==> results[i].kind == Modified
    decreases |results|
  {
    if i == 0 {
    } else {
      var l := results[0].entry;
      AddedComesFirst(t[l.id := ToProto(l)], results[1..], i - 1);
      assert results[1..][i - 1] == results[i];
      assert forall j :: 1 <= j < i ==> results[j] == results[1..][j - 1];
      assert forall j :: 0 <= j < i - 1 ==> results[1..][j] == results[j + 1];
    }
  }

  // From an empty cache, each id is reported Added the first time it is reported and Modified ever after.
  lemma AddedOnceThenModified(ls: seq<Link>, i: nat)
    requires i < |UpsertAll(map[], ls).1|
    ensures var results := UpsertAll(map[], ls).1;
            results[i].kind == if exists j :: 0 <= j < i && results[j].entry.id == results[i].entry.id
                               then Modified else Added
  {
    EveryResultChangesTheTable(map[], ls);
    assert TableOf(map[]) == map[];
    AddedComesFirst(map[], UpsertAll(map[], ls).1, i);
  }

  // ----- The same in terms of flows -----

  // Flow f makes a link, and the link has this id.
  ghost predicate Makes(f: Flow, id: string) {
    f.l4.Some? && f.source.Some? && f.destination.Some? && FromFlow(f).value.id == id
  }

  // What is sent says of flow f who talked to whom over what, and what came of it.
  ghost predicate Describes(sl: ServiceLink, f: Flow) {
    && sl.sourceId == ServiceId(EndpointOf(f.source), f.sourceNames, false)
    && sl.destinationId == ServiceId(EndpointOf(f.destination), f.destinationNames, true)
    && sl.verdict == f.verdict && sl.authType == f.authType && sl.isEncrypted == f.encrypted
    && f.l4.Some?
    && match f.l4.value
       case TCP(port) => sl.ipProtocol == IPProtocol.TCP && sl.destinationPort == port
       case UDP(port) => sl.ipProtocol == IPProtocol.UDP && sl.destinationPort == port
       case ICMPv4 => sl.ipProtocol == ICMP_V4 && sl.destinationPort == 0
       case ICMPv6 => sl.ipProtocol == ICMP_V6 && sl.destinationPort == 0
       case Other => sl.ipProtocol == UNKNOWN_IP_PROTOCOL && sl.destinationPort == 0
  }

  // The last of the flows that makes a link with this id.
  ghost function LastMaker(flows: seq<Flow>, id: string): Option<Flow> {
    if flows == [] then None else
    var later := LastMaker(flows[1..], id);
    if later.Some? then later else if Makes(flows[0], id) then Some(flows[0]) else None
  }

  lemma {:induction false} LastMakerIsLast(flows: seq<Flow>, id: string)
    ensures LastMaker(flows, id) == None <==> forall f :: f in flows ==> !Makes(f, id)
    ensures forall i :: 0 <= i < |flows| && Makes(flows[i], id)
                        && (forall j :: i < j < |flows| ==> !Makes(flows[j], id)) ==>
              LastMaker(flows, id) == Some(flows[i])
  {
    if flows == [] {
    } else {
      var rest := flows[1..];
      LastMakerIsLast(rest, id);
      assert forall f :: f in flows <==> f == flows[0] || f in rest;
      forall i | 0 <= i < |flows| && Makes(flows[i], id) && forall j :: i < j < |flows| ==> !Makes(flows[j], id)
        ensures LastMaker(flows, id) == Some(flows[i])
      {
        LaterOnes(flows, i, id);
      }
    }
  }

  lemma LaterOnes(flows: seq<Flow>, i: nat, id: string)
    requires i < |flows| && forall j :: i < j < |flows| ==> !Makes(flows[j], id)
    ensures i == 0 ==> forall f :: f in flows[1..] ==> !Makes(f, id)
    ensures i > 0 ==> flows[1..][i - 1] == flows[i]
                      && forall j :: i - 1 < j < |flows| - 1 ==> !Makes(flows[1..][j], id)
  {
    assert forall j :: 0 <= j < |flows| - 1 ==> flows[1..][j] == flows[j + 1];
  }

  lemma OneFlowWritten(t: Table, f: Flow, id: string)
    ensures var t' := LastWritten(t, LinksOf([f]));
              if Makes(f, id) then id in t' && t'[id].id == id && Describes(t'[id], f)
              else (id in t' <==> id in t) && (id in t ==> t'[id] == t[id])
  {
    assert [f][1..] == [] && LinksOf([]) == [];
    var ls := LinksOf([f]);
    if FromFlow(f).Some? {
      assert ls == [FromFlow(f).value] && ls[1..] == [];
    } else {
      assert ls == [];
    }
  }

  lemma LastWrittenCons(t: Table, flows: seq<Flow>)
    requires flows != []
    ensures LastWritten(t, LinksOf(flows)) ==
            LastWritten(LastWritten(t, LinksOf([flows[0]])), LinksOf(flows[1..]))
  {
    var ls, rest := LinksOf([flows[0]]), LinksOf(flows[1..]);
    assert [flows[0]][1..] == [] && LinksOf([]) == [];
    if FromFlow(flows[0]).Some? {
      assert ls == [FromFlow(flows[0]).value] && ls[1..] == [] && (ls + rest)[1..] == rest;
    } else {
      assert [] + rest == rest;
    }
  }

  // For each id the table has what the last flow that makes a link with that id says.
  lemma {:induction false} LastFlowIsWritten(t: Table, flows: seq<Flow>, id: string)
    ensures var t', maker := LastWritten(t, LinksOf(flows)), LastMaker(flows, id);
              if maker.Some? then id in t' && t'[id].id == id && Describes(t'[id], maker.value)
              else (id in t' <==> id in t) && (id in t ==> t'[id] == t[id])
    decreases |flows|
  {
    if flows == [] {
    } else {
      LastWrittenCons(t, flows);
      OneFlowWritten(t, flows[0], id);
      LastFlowIsWritten(LastWritten(t, LinksOf([flows[0]])), flows[1..], id);
    }
  }

  // ----- Services -----

  ghost function UpsertService(services: map<string, Service>, s: Service): (map<string, Service>, EventKind) {
    if Id(s) == "0" then (services, Unknown)
    else if Id(s) !in services then (services[Id(s) := s], Added)
    else if WorkloadNames(services[Id(s)]) != WorkloadNames(s) then (services[Id(s) := s], Modified)
    else (services, Exists)
  }

  ghost function UpsertServices(services: map<string, Service>, ss: seq<Service>)
    : (map<string, Service>, seq<Result<Service>>)
    decreases |ss|
  {
    if ss == [] then (services, []) else
    var (services', kind) := UpsertService(services, ss[0]);
    var (services'', results) := UpsertServices(services', ss[1..]);
    (services'', Reported(ss[0], kind) + results)
  }

  ghost function ServicesOf(flows: seq<Flow>): seq<Service> {
    if flows == [] then [] else [SenderOf(flows[0]), ReceiverOf(flows[0])] + ServicesOf(flows[1..])
  }

  ghost function NamesOf(services: map<string, Service>): map<string, multiset<string>> {
    map id | id in services :: WorkloadNames(services[id])
  }

  // The workload names of the last service upserted under each id.
  ghost function LastNames(names: map<string, multiset<string>>, ss: seq<Service>): map<string, multiset<string>>
    decreases |ss|
  {
    if ss == [] then names else LastNames(names[Id(ss[0]) := WorkloadNames(ss[0])], ss[1..])
  }

  lemma UpsertServiceKeepsNames(services: map<string, Service>, s: Service)
    ensures NamesOf(UpsertService(services, s).0) == NamesOf(services)[Id(s) := WorkloadNames(s)]
  {
    IdIsNeverZero(s.endpoint, s.dnsNames, s.isReceiver);
  }

  // After any run, every cached service has the workload names of the latest service with its id.
  lemma {:induction false} CachedNamesAreLatest(services: map<string, Service>, ss: seq<Service>)
    ensures NamesOf(UpsertServices(services, ss).0) == LastNames(NamesOf(services), ss)
    decreases |ss|
  {
    if ss == [] {
    } else {
      UpsertServiceKeepsNames(services, ss[0]);
      CachedNamesAreLatest(UpsertService(services, ss[0]).0, ss[1..]);
    }
  }

  // No service is reported in vain: each result is Added if its id is new to the client, and otherwise Modified,
  // with other workload names than the client had.
  ghost predicate EachServiceChanges(t: map<string, Service>, results: seq<Result<Service>>)
    decreases |results|
  {
    results != [] ==>
      var s := results[0].entry;
      && results[0].kind == (if Id(s) in t then Modified else Added)
      && (Id(s) in t ==> WorkloadNames(t[Id(s)]) != WorkloadNames(s))
      && EachServiceChanges(t[Id(s) := s], results[1..])
  }

  lemma {:induction false} EveryServiceResultChanges(services: map<string, Service>, ss: seq<Service>)
    ensures EachServiceChanges(services, UpsertServices(services, ss).1)
    decreases |ss|
  {
    if ss == [] {
    } else {
      var (services', kind) := UpsertService(services, ss[0]);
      EveryServiceResultChanges(services', ss[1..]);
      var rest := UpsertServices(services', ss[1..]).1;
      if IsChanged(kind) {
        assert ([Result(ss[0], kind)] + rest)[1..] == rest;
      } else {
        assert [] + rest == rest;
      }
    }
  }

  // s is what the sending, or the receiving, end of flow f makes of itself.
  ghost predicate IsSenderIn(s: Service, f: Flow) {
    s.endpoint == EndpointOf(f.source) && s.dnsNames == f.sourceNames && s.isSender && !s.isReceiver
  }

  ghost predicate IsReceiverIn(s: Service, f: Flow) {
    s.endpoint == EndpointOf(f.destination) && s.dnsNames == f.destinationNames && s.isReceiver && !s.isSender
  }

  ghost predicate IsEndIn(s: Service, flows: seq<Flow>) {
    exists f :: f in flows && (IsSenderIn(s, f) || IsReceiverIn(s, f))
  }

  lemma {:induction false} ServicesAreEnds(flows: seq<Flow>)
    ensures forall s :: s in ServicesOf(flows) ==> IsEndIn(s, flows)
    ensures forall f :: f in flows ==> SenderOf(f) in ServicesOf(flows) && ReceiverOf(f) in ServicesOf(flows)
  {
    if flows == [] {
    } else {
      var ss := ServicesOf(flows);
      ServicesAreEnds(flows[1..]);
      assert ss[0] == SenderOf(flows[0]) && ss[1] == ReceiverOf(flows[0]) && ss[2..] == ServicesOf(flows[1..]);
      forall s | s in ss
        ensures IsEndIn(s, flows)
      {
        if s in ss[2..] {
          var f :| f in flows[1..] && (IsSenderIn(s, f) || IsReceiverIn(s, f));
          assert f in flows;
        } else {
          assert flows[0] in flows;
          assert s == ss[0] || s == ss[1];
        }
      }
      assert forall f :: f in flows ==> f == flows[0] || f in flows[1..];
    }
  }

  lemma {:induction false} UpsertsComeFrom(services: map<string, Service>, ss: seq<Service>)
    ensures forall id :: id in UpsertServices(services, ss).0 ==>
              var s := UpsertServices(services, ss).0[id];
              (id in services && s == services[id]) || (s in ss && Id(s) == id)
    decreases |ss|
  {
    if ss == [] {
    } else {
      UpsertsComeFrom(UpsertService(services, ss[0]).0, ss[1..]);
      assert ss[0] in ss;
    }
  }

  // The services are the ends of the flows, each under its id, and none is missing.
  lemma ServicesAreTheEnds(flows: seq<Flow>)
    ensures var services := UpsertServices(map[], ServicesOf(flows)).0;
              && (forall id :: id in services ==> Id(services[id]) == id && IsEndIn(services[id], flows))
              && (forall f :: f in flows ==>
                    && ServiceId(EndpointOf(f.source), f.sourceNames, false) in services
                    && ServiceId(EndpointOf(f.destination), f.destinationNames, true) in services)
  {
    ServicesAreEnds(flows);
    UpsertsComeFrom(map[], ServicesOf(flows));
    ServicesOnlyGrow(map[], ServicesOf(flows));
    forall f | f in flows
      ensures var services := UpsertServices(map[], ServicesOf(flows)).0;
                && ServiceId(EndpointOf(f.source), f.sourceNames, false) in services
                && ServiceId(EndpointOf(f.destination), f.destinationNames, true) in services
    {
      assert Id(SenderOf(f)) == ServiceId(EndpointOf(f.source), f.sourceNames, false);
      assert Id(ReceiverOf(f)) == ServiceId(EndpointOf(f.destination), f.destinationNames, true);
    }
  }

  // What a client has that applies the reported results to its own map, whatever their kind.
  ghost function ReplayedServices(t: map<string, Service>, results: seq<Result<Service>>): map<string, Service>
    decreases |results|
  {
    if results == [] then t else ReplayedServices(t[Id(results[0].entry) := results[0].entry], results[1..])
  }

  // A client that applies only the reported changes has the very services that are cached.
  lemma {:induction false} ServiceReplayAgrees(services: map<string, Service>, ss: seq<Service>)
    ensures var (services', results) := UpsertServices(services, ss);
            ReplayedServices(services, results) == services'
    decreases |ss|
  {
    if ss == [] {
    } else {
      var (services', kind) := UpsertService(services, ss[0]);
      ServiceReplayAgrees(services', ss[1..]);
      var rest := UpsertServices(services', ss[1..]).1;
      if IsChanged(kind) {
        assert ([Result(ss[0], kind)] + rest)[1..] == rest;
      } else {
        assert [] + rest == rest;
      }
    }
  }

  lemma UpsertServicesCons(services: map<string, Service>, s: Service, ss: seq<Service>)
    ensures var (services1, kind) := UpsertService(services, s);
            var (services', results) := UpsertServices(services1, ss);
            UpsertServices(services, [s] + ss) == (services', Reported(s, kind) + results)
  {
    assert ([s] + ss)[1..] == ss;
  }

  lemma {:induction false} ServiceBatchesConcatenate(services: map<string, Service>, a: seq<Service>, b: seq<Service>,
                                                     services': map<string, Service>, ra: seq<Result<Service>>,
                                                     services'': map<string, Service>, rb: seq<Result<Service>>)
    requires UpsertServices(services, a) == (services', ra) && UpsertServices(services', b) == (services'', rb)
    ensures UpsertServices(services, a + b) == (services'', ra + rb)
    decreases |a|
  {
    if a == [] {
      assert a + b == b && ra + rb == rb;
    } else {
      var s, rest := a[0], a[1..];
      var (services1, kind) := UpsertService(services, s);
      var (services2, ra1) := UpsertServices(services1, rest);
      SplitFirst(a, b);
      assert services2 == services' && ra == Reported(s, kind) + ra1 by {
        UpsertServicesCons(services, s, rest);
      }
      assert UpsertServices(services, a + b) == (services'', Reported(s, kind) + (ra1 + rb)) by {
        ServiceBatchesConcatenate(services1, rest, b, services', ra1, services'', rb);
        UpsertServicesCons(services, s, rest + b);
      }
      AppendAssoc(Reported(s, kind), ra1, rb);
    }
  }

  // ----- Both: every end of a cached link is a cached service -----

  ghost predicate EndsKnown(services: map<string, Service>, links: map<string, Link>) {
    forall id :: id in links ==> links[id].sourceId in services && links[id].destinationId in services
  }

  lemma {:induction false} ServicesOnlyGrow(services: map<string, Service>, ss: seq<Service>)
    ensures services.Keys <= UpsertServices(services, ss).0.Keys
    ensures forall s :: s in ss ==> Id(s) in UpsertServices(services, ss).0
    decreases |ss|
  {
    if ss == [] {
    } else {
      IdIsNeverZero(ss[0].endpoint, ss[0].dnsNames, ss[0].isReceiver);
      ServicesOnlyGrow(UpsertService(services, ss[0]).0, ss[1..]);
    }
  }

  lemma {:induction false} LinksJoinServices(flows: seq<Flow>)
    ensures forall l :: l in LinksOf(flows) ==>
              exists s, r :: s in ServicesOf(flows) && r in ServicesOf(flows)
                              && l.sourceId == Id(s) && l.destinationId == Id(r)
  {
    if flows == [] {
    } else {
      LinksJoinServices(flows[1..]);
      IdsAgree(flows[0]);
      var ss := ServicesOf(flows);
      assert ss[0] == SenderOf(flows[0]) && ss[1] == ReceiverOf(flows[0]);
      forall l | l in LinksOf(flows)
        ensures exists s, r :: s in ss && r in ss && l.sourceId == Id(s) && l.destinationId == Id(r)
      {
        if FromFlow(flows[0]) == Some(l) {
          assert ss[0] in ss && ss[1] in ss && l.sourceId == Id(ss[0]) && l.destinationId == Id(ss[1]);
        } else {
          assert l in LinksOf(flows[1..]);
          var s, r :| s in ServicesOf(flows[1..]) && r in ServicesOf(flows[1..])
                      && l.sourceId == Id(s) && l.destinationId == Id(r);
          assert s in ss && r in ss;
        }
      }
    }
  }

  lemma {:induction false} UpsertAllKeepsEnds(services: map<string, Service>, links: map<string, Link>, ls: seq<Link>)
    requires EndsKnown(services, links)
    requires forall l :: l in ls ==> l.sourceId in services && l.destinationId in services
    ensures EndsKnown(services, UpsertAll(links, ls).0)
    decreases |ls|
  {
    if ls == [] {
    } else {
      assert ls[0] in ls;
      UpsertAllKeepsEnds(services, UpsertLink(links, ls[0]).0, ls[1..]);
    }
  }

  // Upserting the services and then the links of a batch keeps every end of every link known.
  lemma BatchKeepsEndsKnown(services: map<string, Service>, links: map<string, Link>, flows: seq<Flow>)
    requires EndsKnown(services, links)
    ensures EndsKnown(UpsertServices(services, ServicesOf(flows)).0, UpsertAll(links, LinksOf(flows)).0)
  {
    var services' := UpsertServices(services, ServicesOf(flows)).0;
    ServicesOnlyGrow(services, ServicesOf(flows));
    LinksJoinServices(flows);
    UpsertAllKeepsEnds(services', links, LinksOf(flows));
  }

  // ----- The cache -----

  class DataCache {
    var services: map<string, Service>
    var links: map<string, Link>

    constructor ()
      ensures services == map[] && links == map[]
    {
      services, links := map[], map[];
    }

    method Drop()
      modifies this
      ensures services == map[] && links == map[]
    {
      services, links := map[], map[];
    }

    method UpsertServicesFromFlows(flows: seq<Flow>) returns (results: seq<Result<Service>>)
      modifies this`services
      ensures (services, results) == UpsertServices(old(services), ServicesOf(flows))
    {
      results := [];
      ghost var done: seq<Service> := [];
      for i := 0 to |flows|
        invariant done + ServicesOf(flows[i..]) == ServicesOf(flows)
        invariant (services, results) == UpsertServices(old(services), done)
      {
        var sender, receiver := SenderOf(flows[i]), ReceiverOf(flows[i]);
        ServicesStep(flows, i, done);
        results := UpsertReporting(sender, results, old(services), done);
        results := UpsertReporting(receiver, results, old(services), done + [sender]);
        done := done + [sender] + [receiver];
      }
      assert done + ServicesOf([]) == done;
    }

    // The part of the loop above that handles one of the two services of a flow.
    method UpsertReporting(svc: Service, results: seq<Result<Service>>,
                           ghost start: map<string, Service>, ghost done: seq<Service>)
      returns (results': seq<Result<Service>>)
      requires (services, results) == UpsertServices(start, done)
      modifies this`services
      ensures (services, results') == UpsertServices(start, done + [svc])
    {
      UpsertOneMore(start, done, svc);
      results' := results;
      ghost var kind := UpsertService(services, svc).1;
      if Id(svc) != "0" {
        var flag := UpsertOneService(svc);
        if IsChanged(flag) {
          results' := results' + [Result(svc, flag)];
        }
      }
      assert results' == results + Reported(svc, kind);
    }

    method UpsertOneService(newSvc: Service) returns (kind: EventKind)
      modifies this`services
      ensures (services, kind) == UpsertService(old(services), newSvc)
    {
      var svcId := Id(newSvc);
      if svcId == "0" {
        return Unknown;
      }
      if svcId !in services {
        services := services[svcId := newSvc];
        return Added;
      }
      var enriched := IsEnrichedWith(services[svcId], newSvc);
      if enriched {
        services := services[svcId := newSvc];
        return Modified;
      }
      return Exists;
    }

    method UpsertLinksFromFlows(flows: seq<Flow>) returns (results: seq<Result<Link>>)
      modifies this`links
      ensures (links, results) == UpsertAll(old(links), LinksOf(flows))
    {
      results := [];
      ghost var done: seq<Link> := [];
      for i := 0 to |flows|
        invariant done + LinksOf(flows[i..]) == LinksOf(flows)
        invariant (links, results) == UpsertAll(old(links), done)
      {
        var svcLink := FromFlow(flows[i]);
        LinksStep(flows, i, done);
        if svcLink == None {
          continue;
        }
        UpsertOneMoreLink(old(links), done, svcLink.value);
        var flags := UpsertServiceLink(svcLink.value);
        ghost var before := results;
        if IsChanged(flags) {
          results := results + [Result(svcLink.value, flags)];
        }
        assert results == before + Reported(svcLink.value, flags);
        done := done + [svcLink.value];
      }
      assert done + LinksOf([]) == done;
    }

    method UpsertServiceLink(newLink: Link) returns (kind: EventKind)
      modifies this`links
      ensures (links, kind) == UpsertLink(old(links), newLink)
    {
      if newLink.id !in links {
        links := links[newLink.id := newLink];
        return Added;
      }
      if Equals(links[newLink.id], newLink) {
        return Exists;
      }
      links := links[newLink.id := newLink];
      return Modified;
    }
  }

  lemma UpsertOneMoreLink(links: map<string, Link>, ls: seq<Link>, l: Link)
    ensures var (links', results) := UpsertAll(links, ls);
            var (links'', kind) := UpsertLink(links', l);
            UpsertAll(links, ls + [l]) == (links'', results + Reported(l, kind))
  {
    BatchesConcatenate(links, ls, [l]);
    var links' := UpsertAll(links, ls).0;
    var (links'', kind) := UpsertLink(links', l);
    assert [l][1..] == [] && UpsertAll(links'', []) == (links'', []);
    assert Reported(l, kind) + [] == Reported(l, kind);
    assert UpsertAll(links', [l]) == (links'', Reported(l, kind));
  }

  lemma LinksStep(flows: seq<Flow>, i: nat, done: seq<Link>)
    requires i < |flows|
    ensures done + LinksOf(flows[i..])
         == (if FromFlow(flows[i]).Some? then done + [FromFlow(flows[i]).value] else done) + LinksOf(flows[i + 1..])
  {
    assert flows[i..][1..] == flows[i + 1..];
  }

  lemma ServicesStep(flows: seq<Flow>, i: nat, done: seq<Service>)
    requires i < |flows|
    ensures done + ServicesOf(flows[i..])
         == (done + [SenderOf(flows[i])] + [ReceiverOf(flows[i])]) + ServicesOf(flows[i + 1..])
  {
    assert flows[i..][1..] == flows[i + 1..];
  }

  lemma UpsertOneMore(services: map<string, Service>, ss: seq<Service>, s: Service)
    ensures var (services', results) := UpsertServices(services, ss);
            var (services'', kind) := UpsertService(services', s);
            UpsertServices(services, ss + [s]) == (services'', results + Reported(s, kind))
  {
    var (services', results) := UpsertServices(services, ss);
    var (services'', kind) := UpsertService(services', s);
    assert [s][1..] == [] && UpsertServices(services'', []) == (services'', []);
    assert Reported(s, kind) + [] == Reported(s, kind);
    ServiceBatchesConcatenate(services, ss, [s], services', results, services'', Reported(s, kind));
  }
}
