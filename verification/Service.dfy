/** backend/domain/service/service.go: service identity and enrichment. */
module Services {
  import opened Flows
  import opened Texts

  datatype Service = Service(endpoint: Endpoint, dnsNames: seq<string>, isSender: bool, isReceiver: bool)

  function SenderOf(f: Flow): Service {
    Service(EndpointOf(f.source), f.sourceNames, true, false)
  }

  function ReceiverOf(f: Flow): Service {
    Service(EndpointOf(f.destination), f.destinationNames, false, true)
  }

  function Suffix(isReceiver: bool): string {
    if isReceiver then "-receiver" else "-sender"
  }

  function ServiceId(ep: Endpoint, dnsNames: seq<string>, isReceiver: bool): string {
    if !ep.isWorld && ep.identity > 0 then Decimal(ep.identity)
    else if |ep.workloads| > 0 && |ep.workloads[0].name| > 0 && |ep.workloads[0].kind| > 0 then
      ep.workloads[0].kind + "/" + ep.workloads[0].name
    else
      (if |dnsNames| > 0 then dnsNames[0] else "world") + Suffix(isReceiver)
  }

  function Id(s: Service): string {
    ServiceId(s.endpoint, s.dnsNames, s.isReceiver)
  }

  function IdsFromFlow(f: Flow): (string, string) {
    (ServiceId(EndpointOf(f.source), f.sourceNames, false),
     ServiceId(EndpointOf(f.destination), f.destinationNames, true))
  }

  // No service ever has the id that the cache refuses.
  lemma IdIsNeverZero(ep: Endpoint, dnsNames: seq<string>, isReceiver: bool)
    ensures ServiceId(ep, dnsNames, isReceiver) != "0" && ServiceId(ep, dnsNames, isReceiver) != ""
  {
    var id := ServiceId(ep, dnsNames, isReceiver);
    if ep.isWorld || ep.identity == 0 {
      assert |id| >= 2;
    }
  }

  // ----- Which texts are ids -----

  predicate EndsIn(x: string, suffix: string) {
    |suffix| <= |x| && x[|x| - |suffix|..] == suffix
  }

  // A numeral below 2^32, a text with a slash inside, or one that ends in the side of the service.
  predicate IsId(x: string, isReceiver: bool) {
    || (IsNumeral(x) && Value(x) < 0x1_0000_0000)
    || (exists i :: 0 < i < |x| - 1 && x[i] == '/')
    || EndsIn(x, Suffix(isReceiver))
  }

  lemma SlashedIsId(kind: string, name: string, isReceiver: bool)
    requires kind != "" && name != ""
    ensures IsId(kind + "/" + name, isReceiver)
  {
    assert (kind + "/" + name)[|kind|] == '/';
  }

  lemma SuffixedIsId(name: string, isReceiver: bool)
    ensures IsId(name + Suffix(isReceiver), isReceiver)
  {
    Cut(name, Suffix(isReceiver));
  }

  lemma EveryIdIsId(ep: Endpoint, dnsNames: seq<string>, isReceiver: bool)
    ensures IsId(ServiceId(ep, dnsNames, isReceiver), isReceiver)
  {
    if !ep.isWorld && ep.identity > 0 {
      DecimalIsNumeral(ep.identity);
      ValueOfDecimal(ep.identity);
    } else if |ep.workloads| > 0 && |ep.workloads[0].name| > 0 && |ep.workloads[0].kind| > 0 {
      SlashedIsId(ep.workloads[0].kind, ep.workloads[0].name, isReceiver);
    } else {
      SuffixedIsId(if |dnsNames| > 0 then dnsNames[0] else "world", isReceiver);
    }
  }

  lemma IdOfSome(x: string, isReceiver: bool) returns (ep: Endpoint, dnsNames: seq<string>)
    requires IsId(x, isReceiver)
    ensures ServiceId(ep, dnsNames, isReceiver) == x
  {
    ep, dnsNames := NO_ENDPOINT, [];
    if IsNumeral(x) && Value(x) < 0x1_0000_0000 {
      DecimalOfValue(x);
      ep := Endpoint(Value(x), false, []);
    } else if i :| 0 < i < |x| - 1 && x[i] == '/' {
      ep := Endpoint(0, false, [Workload(x[i + 1..], x[..i])]);
      assert x == x[..i] + "/" + x[i + 1..];
    } else {
      dnsNames := [x[..|x| - |Suffix(isReceiver)|]];
      assert x == dnsNames[0] + Suffix(isReceiver);
    }
  }

  // The ids of senders, and of receivers, are exactly the texts of that shape.
  lemma IdsAreExactly(x: string, isReceiver: bool)
    ensures IsId(x, isReceiver) <==> exists ep, dnsNames :: ServiceId(ep, dnsNames, isReceiver) == x
  {
    if IsId(x, isReceiver) {
      var ep, dnsNames := IdOfSome(x, isReceiver);
    }
    if ep, dnsNames :| ServiceId(ep, dnsNames, isReceiver) == x {
      EveryIdIsId(ep, dnsNames, isReceiver);
    }
  }

  // ----- What an id says of its endpoint -----

  lemma HasNoNumeral(x: string, i: nat)
    requires i < |x| && !('0' <= x[i] <= '9')
    ensures !IsNumeral(x)
  {
  }

  // An id is a numeral exactly when the endpoint has an identity and is not the world, and then it is that identity.
  lemma NumeralIffIdentified(ep: Endpoint, dnsNames: seq<string>, isReceiver: bool)
    ensures var id := ServiceId(ep, dnsNames, isReceiver);
            && (IsNumeral(id) <==> !ep.isWorld && ep.identity > 0)
            && (IsNumeral(id) ==> Value(id) == ep.identity)
  {
    var id := ServiceId(ep, dnsNames, isReceiver);
    if !ep.isWorld && ep.identity > 0 {
      DecimalIsNumeral(ep.identity);
      ValueOfDecimal(ep.identity);
    } else if |ep.workloads| > 0 && |ep.workloads[0].name| > 0 && |ep.workloads[0].kind| > 0 {
      HasNoNumeral(id, |ep.workloads[0].kind|);
    } else {
      HasNoNumeral(id, |id| - 1);
    }
  }

  predicate IsNamed(w: Workload) {
    w.name != "" && w.kind != ""
  }

  // An endpoint without identity and workload goes by its first name, or as the world, and by nothing else.
  lemma OtherwiseFirstName(ep: Endpoint, dnsNames: seq<string>, isReceiver: bool)
    requires ep.isWorld || ep.identity == 0
    requires ep.workloads == [] || !IsNamed(ep.workloads[0])
    ensures var id := ServiceId(ep, dnsNames, isReceiver);
            && EndsIn(id, Suffix(isReceiver))
            && id[..|id| - |Suffix(isReceiver)|] == if dnsNames == [] then "world" else dnsNames[0]
  {
    Cut(if |dnsNames| > 0 then dnsNames[0] else "world", Suffix(isReceiver));
  }

  // And one with a named workload first, but no identity, by that workload alone.
  lemma OtherwiseWorkload(ep: Endpoint, dnsNames: seq<string>, isReceiver: bool)
    requires (ep.isWorld || ep.identity == 0) && ep.workloads != [] && IsNamed(ep.workloads[0])
    ensures var id, w := ServiceId(ep, dnsNames, isReceiver), ep.workloads[0];
            && |id| == |w.kind| + 1 + |w.name|
            && id[..|w.kind|] == w.kind && id[|w.kind|] == '/' && id[|w.kind| + 1..] == w.name
  {
    var w := ep.workloads[0];
    Cut(w.kind + "/", w.name);
    Cut(w.kind, "/" + w.name);
    assert ServiceId(ep, dnsNames, isReceiver) == w.kind + ("/" + w.name);
  }

  lemma SuffixesDiffer(a: string, b: string)
    ensures a + Suffix(false) != b + Suffix(true)
  {
    var x, y := a + Suffix(false), b + Suffix(true);
    assert x[|x| - 3] == 'd' && y[|y| - 3] == 'v';
  }

  // What sends and what receives is one service exactly when it has an identity of its own or a named workload.
  lemma SidesMeetIff(ep: Endpoint, sourceNames: seq<string>, destinationNames: seq<string>)
    ensures ServiceId(ep, sourceNames, false) == ServiceId(ep, destinationNames, true)
       <==> (!ep.isWorld && ep.identity > 0) || (ep.workloads != [] && IsNamed(ep.workloads[0]))
  {
    SuffixesDiffer(if |sourceNames| > 0 then sourceNames[0] else "world",
                   if |destinationNames| > 0 then destinationNames[0] else "world");
  }

  // The ids a link is given are the ids of the services built from the same flow.
  lemma IdsAgree(f: Flow)
    ensures IdsFromFlow(f) == (Id(SenderOf(f)), Id(ReceiverOf(f)))
  {
  }

  // ----- Enrichment -----

  function Names(ws: seq<Workload>): (r: seq<string>)
    ensures |r| == |ws|
  {
    seq(|ws|, i requires 0 <= i < |ws| => ws[i].name)
  }

  // The names of a service's workloads, with repetitions and without order.
  ghost function WorkloadNames(s: Service): multiset<string> {
    multiset(Names(s.endpoint.workloads))
  }

  method MapNames(ws: seq<Workload>) returns (r: seq<string>)
    ensures r == Names(ws)
  {
    r := [];
    for i := 0 to |ws|
      invariant r == Names(ws)[..i]
    {
      r := r + [ws[i].name];
    }
  }

  method ArrayEquals(a: seq<string>, b: seq<string>) returns (equal: bool)
    ensures equal <==> a == b
  {
    if |a| != |b| {
      return false;
    }
    for i := 0 to |a|
      invariant a[..i] == b[..i]
    {
      if a[i] != b[i] {
        return false;
      }
    }
    assert a == a[..|a|] && b == b[..|b|];
    return true;
  }

  // A service is enriched by another exactly when their workload names differ as multisets.
  method IsEnrichedWith(l: Service, r: Service) returns (enriched: bool)
    ensures enriched <==> WorkloadNames(l) != WorkloadNames(r)
  {
    var lworkloads, rworkloads := l.endpoint.workloads, r.endpoint.workloads;
    if |rworkloads| > |lworkloads| {
      assert |WorkloadNames(l)| == |lworkloads| && |WorkloadNames(r)| == |rworkloads|;
      return true;
    }
    var lnames := MapNames(lworkloads);
    var rnames := MapNames(rworkloads);
    SortedAgreeIffSameMultiset(lnames, rnames);
    lnames, rnames := Sorted(lnames), Sorted(rnames);
    var equal := ArrayEquals(lnames, rnames);
    return !equal;
  }
}
