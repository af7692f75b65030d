/** backend/domain/link/link.go: links between services and their ids. */
module Links {
  import opened Wrappers
  import opened Flows
  import opened Texts
  import Services

  datatype IPProtocol = UNKNOWN_IP_PROTOCOL | TCP | UDP | ICMP_V4 | ICMP_V6

  datatype Link = Link(
    id: string,
    sourceId: string,
    destinationId: string,
    destinationPort: uint32,
    verdict: int,
    ipProtocol: IPProtocol,
    authType: int,
    isEncrypted: bool)

  // What is sent for a link: here, all of it.
  datatype ServiceLink = ServiceLink(
    id: string,
    sourceId: string,
    destinationId: string,
    destinationPort: uint32,
    verdict: int,
    ipProtocol: IPProtocol,
    authType: int,
    isEncrypted: bool)

  function ToProto(l: Link): ServiceLink {
    ServiceLink(l.id, l.sourceId, l.destinationId, l.destinationPort,
                l.verdict, l.ipProtocol, l.authType, l.isEncrypted)
  }

  // The id does not take part.
  predicate Equals(l: Link, r: Link) {
    && l.sourceId == r.sourceId
    && l.destinationId == r.destinationId
    && l.destinationPort == r.destinationPort
    && l.verdict == r.verdict
    && l.ipProtocol == r.ipProtocol
    && l.authType == r.authType
    && l.isEncrypted == r.isEncrypted
  }

  function Name(p: IPProtocol): string {
    match p
    case UNKNOWN_IP_PROTOCOL => "UNKNOWN_IP_PROTOCOL"
    case TCP => "TCP"
    case UDP => "UDP"
    case ICMP_V4 => "ICMP_V4"
    case ICMP_V6 => "ICMP_V6"
  }

  function PortProtocol(l4: L4): (uint32, IPProtocol) {
    match l4
    case TCP(port) => (port, IPProtocol.TCP)
    case UDP(port) => (port, IPProtocol.UDP)
    case ICMPv4 => (0, ICMP_V4)
    case ICMPv6 => (0, ICMP_V6)
    case Other => (0, UNKNOWN_IP_PROTOCOL)
  }

  // src, the protocol's name and dst, with a space in between.
  function Joined(src: string, name: string, dst: string): string {
    src + [' '] + name + [' '] + dst
  }

  function LinkId(src: string, dst: string, port: uint32, p: IPProtocol): string {
    Joined(src, Name(p), dst) + [':'] + Decimal(port)
  }

  function FromFlow(f: Flow): Option<Link> {
    if f.l4 == None || f.source == None || f.destination == None then None else
    var (src, dst) := Services.IdsFromFlow(f);
    var (port, p) := PortProtocol(f.l4.value);
    Some(Link(LinkId(src, dst, port, p), src, dst, port, f.verdict, p, f.authType, f.encrypted))
  }

  // ----- What an id tells -----

  lemma NamesAreWords(p: IPProtocol)
    ensures ' ' !in Name(p) && Name(p) != ""
  {
  }

  lemma NamesDiffer(p: IPProtocol, q: IPProtocol)
    requires Name(p) == Name(q)
    ensures p == q
  {
    assert |Name(p)| == |Name(q)|;
    assert Name(p)[|Name(p)| - 1] == Name(q)[|Name(q)| - 1];
    assert Name(p)[0] == Name(q)[0];
  }

  lemma DecimalHasNoColon(n: nat)
    ensures ':' !in Decimal(n)
  {
  }

  // The port can always be read off an id, whatever the destination looks like.
  lemma IdTellsPort(src: string, dst: string, port: uint32, p: IPProtocol,
                    src': string, dst': string, port': uint32, p': IPProtocol)
    ensures LinkId(src, dst, port, p) == LinkId(src', dst', port', p')
       <==> Joined(src, Name(p), dst) == Joined(src', Name(p'), dst') && port == port'
  {
    if LinkId(src, dst, port, p) == LinkId(src', dst', port', p') {
      DecimalHasNoColon(port);
      DecimalHasNoColon(port');
      CutAtLast(Joined(src, Name(p), dst), Decimal(port), Joined(src', Name(p'), dst'), Decimal(port'), ':');
      ValueOfDecimal(port);
      ValueOfDecimal(port');
    }
  }

  lemma JoinedAfterSource(src: string, n: string, dst: string, n': string, dst': string)
    requires Joined(src, n, dst) == Joined(src, n', dst') && ' ' !in n && ' ' !in n'
    ensures n == n' && dst == dst'
  {
    var rest, rest' := n + ([' '] + dst), n' + ([' '] + dst');
    assert Joined(src, n, dst) == (src + [' ']) + rest && Joined(src, n', dst') == (src + [' ']) + rest';
    Cut(src + [' '], rest);
    Cut(src + [' '], rest');
    CutAtFirst(n, [' '] + dst, n', [' '] + dst', ' ');
    Cut([' '], dst);
    Cut([' '], dst');
  }

  lemma JoinedTellsParts(src: string, n: string, dst: string, src': string, n': string, dst': string)
    requires Joined(src, n, dst) == Joined(src', n', dst') && ' ' !in n && ' ' !in n'
    requires ' ' !in src && ' ' !in src'
    ensures src == src' && n == n' && dst == dst'
  {
    var rest, rest' := [' '] + n + [' '] + dst, [' '] + n' + [' '] + dst';
    assert Joined(src, n, dst) == src + rest && Joined(src', n', dst') == src' + rest';
    CutAtFirst(src, rest, src', rest', ' ');
    JoinedAfterSource(src, n, dst, n', dst');
  }

  // For sources without spaces the id is injective, even when a destination contains colons or spaces.
  lemma LinkIdIsInjective(src: string, dst: string, port: uint32, p: IPProtocol,
                          src': string, dst': string, port': uint32, p': IPProtocol)
    requires ' ' !in src && ' ' !in src'
    requires LinkId(src, dst, port, p) == LinkId(src', dst', port', p')
    ensures src == src' && dst == dst' && port == port' && p == p'
  {
    IdTellsPort(src, dst, port, p, src', dst', port', p');
    NamesAreWords(p);
    NamesAreWords(p');
    JoinedTellsParts(src, Name(p), dst, src', Name(p'), dst');
    NamesDiffer(p, p');
  }

  // Two links made from flows whose source ids have no spaces, and which share an id, can differ only in
  // verdict, authentication type and encryption.
  lemma SameIdDiffersOnlyInVerdictAuthEncryption(f: Flow, g: Flow)
    requires FromFlow(f).Some? && FromFlow(g).Some?
    requires ' ' !in FromFlow(f).value.sourceId && ' ' !in FromFlow(g).value.sourceId
    requires FromFlow(f).value.id == FromFlow(g).value.id
    ensures var l, r := FromFlow(f).value, FromFlow(g).value;
            Equals(l, r) <==> l.verdict == r.verdict && l.authType == r.authType && l.isEncrypted == r.isEncrypted
  {
    var l, r := FromFlow(f).value, FromFlow(g).value;
    LinkIdIsInjective(l.sourceId, l.destinationId, l.destinationPort, l.ipProtocol,
                      r.sourceId, r.destinationId, r.destinationPort, r.ipProtocol);
  }

  // ----- When ids collide -----

  function Spaced(name: string): string {
    [' '] + name + [' ']
  }

  // A text with a protocol name in it, between spaces.
  ghost predicate Marked(t: string) {
    exists q, x, y :: t == x + Spaced(Name(q)) + y
  }

  // Some other link has the same id.
  ghost predicate Collides(src: string, dst: string, port: uint32, p: IPProtocol) {
    exists src', dst', port': uint32, p' ::
      (src', dst', port', p') != (src, dst, port, p) && LinkId(src', dst', port', p') == LinkId(src, dst, port, p)
  }

  // A marker in the source, and one in the destination, gives another way to read the parts.
  lemma ReadEarlier(src: string, n: string, dst: string, x: string, m: string, y: string)
    requires src + [' '] == x + Spaced(m) + y
    ensures |x| < |src| && Joined(src, n, dst) == Joined(x, m, y + n + [' '] + dst)
  {
    assert |src + [' ']| == |x| + |m| + 2 + |y|;
    calc {
      Joined(src, n, dst);
      (src + [' ']) + (n + [' '] + dst);
      (x + Spaced(m) + y) + (n + [' '] + dst);
      Joined(x, m, y + n + [' '] + dst);
    }
  }

  lemma ReadLater(src: string, n: string, dst: string, x: string, m: string, y: string)
    requires [' '] + dst == x + Spaced(m) + y
    ensures Joined(src, n, dst) == Joined(src + [' '] + n + x, m, y)
  {
    calc {
      Joined(src, n, dst);
      (src + [' '] + n) + ([' '] + dst);
      (src + [' '] + n) + (x + Spaced(m) + y);
      Joined(src + [' '] + n + x, m, y);
    }
  }

  // Of two different readings, the one with the longer source has the marker of the other in it,
  // and the one with the longer destination has the marker of the first.
  lemma LongerSourceIsMarked(src: string, n: string, dst: string, src': string, n': string, dst': string)
      returns (y: string, x: string)
    requires Joined(src, n, dst) == Joined(src', n', dst') && |src'| < |src| && ' ' !in n'
    ensures src + [' '] == src' + Spaced(n') + y
    ensures [' '] + dst' == x + Spaced(n) + dst
  {
    var w := Joined(src, n, dst);
    var k := |src'| + |n'| + 2;
    assert w[|src|] == ' ' && w[k - 1] == ' ';
    assert forall i :: |src'| < i < k - 1 ==> w[i] == n'[i - |src'| - 1];
    assert k <= |src| + 1;
    y := w[k..|src| + 1];
    x := w[k - 1..|src|];
    assert w[..k] == src' + Spaced(n') && w[..|src| + 1] == src + [' '];
    assert w[..|src| + 1] == w[..k] + y;
    assert w[k - 1..] == [' '] + dst' && w[|src|..] == Spaced(n) + dst;
    assert w[k - 1..] == x + w[|src|..];
  }

  lemma MarkedCollides(src: string, dst: string, port: uint32, p: IPProtocol)
    requires Marked(src + [' ']) || Marked([' '] + dst)
    ensures Collides(src, dst, port, p)
  {
    if Marked(src + [' ']) {
      var q, x, y :| src + [' '] == x + Spaced(Name(q)) + y;
      ReadEarlier(src, Name(p), dst, x, Name(q), y);
      var dst' := y + Name(p) + [' '] + dst;
      IdTellsPort(src, dst, port, p, x, dst', port, q);
      assert (x, dst', port, q) != (src, dst, port, p);
    } else {
      var q, x, y :| [' '] + dst == x + Spaced(Name(q)) + y;
      ReadLater(src, Name(p), dst, x, Name(q), y);
      var src' := src + [' '] + Name(p) + x;
      IdTellsPort(src, dst, port, p, src', y, port, q);
      assert (src', y, port, q) != (src, dst, port, p);
    }
  }

  lemma CollidingIsMarked(src: string, dst: string, port: uint32, p: IPProtocol,
                          src': string, dst': string, port': uint32, p': IPProtocol)
    requires (src', dst', port', p') != (src, dst, port, p)
    requires LinkId(src', dst', port', p') == LinkId(src, dst, port, p)
    ensures Marked(src + [' ']) || Marked([' '] + dst)
  {
    IdTellsPort(src, dst, port, p, src', dst', port', p');
    NamesAreWords(p);
    NamesAreWords(p');
    if |src'| < |src| {
      var y, x := LongerSourceIsMarked(src, Name(p), dst, src', Name(p'), dst');
    } else if |src| < |src'| {
      var y, x := LongerSourceIsMarked(src', Name(p'), dst', src, Name(p), dst);
    } else {
      assert Joined(src, Name(p), dst)[..|src|] == src && Joined(src', Name(p'), dst')[..|src'|] == src';
      JoinedAfterSource(src, Name(p), dst, Name(p'), dst');
      NamesDiffer(p, p');
    }
  }

  // Exactly when linkIdFromParts gives one id to several parts, whatever texts it is called with: a protocol name,
  // between spaces, shows up in the source or the destination.
  lemma CollidesIffMarked(src: string, dst: string, port: uint32, p: IPProtocol)
    ensures Collides(src, dst, port, p) <==> Marked(src + [' ']) || Marked([' '] + dst)
  {
    if Marked(src + [' ']) || Marked([' '] + dst) {
      MarkedCollides(src, dst, port, p);
    }
    if Collides(src, dst, port, p) {
      var src', dst', port': uint32, p' :|
        (src', dst', port', p') != (src, dst, port, p) && LinkId(src', dst', port', p') == LinkId(src, dst, port, p);
      CollidingIsMarked(src, dst, port, p, src', dst', port', p');
    }
  }

  // ----- When the links of flows collide -----

  // Only TCP and UDP flows have ports other than 0.
  predicate PortFits(p: IPProtocol, port: uint32) {
    p.TCP? || p.UDP? || port == 0
  }

  ghost predicate SameParts(l: Link, r: Link) {
    && l.sourceId == r.sourceId
    && l.destinationId == r.destinationId
    && l.destinationPort == r.destinationPort
    && l.ipProtocol == r.ipProtocol
  }

  // Some flow's link has the id of this one but other parts.
  ghost predicate Shared(l: Link) {
    exists g :: FromFlow(g).Some? && FromFlow(g).value.id == l.id && !SameParts(FromFlow(g).value, l)
  }

  // At a marker in the source, what comes before it is a sender's id and what comes after it a receiver's.
  ghost predicate SourceReadsOn(l: Link) {
    exists q, x, y ::
      && l.sourceId + [' '] == x + Spaced(Name(q)) + y
      && PortFits(q, l.destinationPort)
      && Services.IsId(x, false)
      && Services.IsId(y + Name(l.ipProtocol) + [' '] + l.destinationId, true)
  }

  // At a marker in the destination, what comes before it is a sender's id and what comes after it a receiver's.
  ghost predicate DestinationReadsOn(l: Link) {
    exists q, x, y ::
      && [' '] + l.destinationId == x + Spaced(Name(q)) + y
      && PortFits(q, l.destinationPort)
      && Services.IsId(l.sourceId + [' '] + Name(l.ipProtocol) + x, false)
      && Services.IsId(y, true)
  }

  lemma FlowOfParts(src: string, dst: string, port: uint32, p: IPProtocol) returns (f: Flow)
    requires Services.IsId(src, false) && Services.IsId(dst, true) && PortFits(p, port)
    ensures FromFlow(f).Some?
    ensures var l := FromFlow(f).value;
            && l.sourceId == src && l.destinationId == dst && l.destinationPort == port && l.ipProtocol == p
            && l.id == LinkId(src, dst, port, p)
  {
    var sep, snames := Services.IdOfSome(src, false);
    var rep, rnames := Services.IdOfSome(dst, true);
    var l4 := match p
      case TCP => L4.TCP(port)
      case UDP => L4.UDP(port)
      case ICMP_V4 => ICMPv4
      case ICMP_V6 => ICMPv6
      case UNKNOWN_IP_PROTOCOL => Other;
    f := Flow(Some(sep), Some(rep), snames, rnames, Some(l4), 0, 0, false);
  }

  lemma PartsOfFlow(f: Flow)
    requires FromFlow(f).Some?
    ensures var l := FromFlow(f).value;
            && Services.IsId(l.sourceId, false) && Services.IsId(l.destinationId, true)
            && PortFits(l.ipProtocol, l.destinationPort)
            && l.id == LinkId(l.sourceId, l.destinationId, l.destinationPort, l.ipProtocol)
  {
    Services.EveryIdIsId(EndpointOf(f.source), f.sourceNames, false);
    Services.EveryIdIsId(EndpointOf(f.destination), f.destinationNames, true);
  }

  lemma ReadsOnIsShared(f: Flow)
    requires FromFlow(f).Some?
    requires SourceReadsOn(FromFlow(f).value) || DestinationReadsOn(FromFlow(f).value)
    ensures Shared(FromFlow(f).value)
  {
    var l := FromFlow(f).value;
    var src, dst, port, p := l.sourceId, l.destinationId, l.destinationPort, l.ipProtocol;
    if SourceReadsOn(l) {
      var q, x, y :|
        && src + [' '] == x + Spaced(Name(q)) + y && PortFits(q, port)
        && Services.IsId(x, false) && Services.IsId(y + Name(p) + [' '] + dst, true);
      ReadEarlier(src, Name(p), dst, x, Name(q), y);
      var g := FlowOfParts(x, y + Name(p) + [' '] + dst, port, q);
      IdTellsPort(src, dst, port, p, x, y + Name(p) + [' '] + dst, port, q);
    } else {
      var q, x, y :|
        && [' '] + dst == x + Spaced(Name(q)) + y && PortFits(q, port)
        && Services.IsId(src + [' '] + Name(p) + x, false) && Services.IsId(y, true);
      ReadLater(src, Name(p), dst, x, Name(q), y);
      var g := FlowOfParts(src + [' '] + Name(p) + x, y, port, q);
      IdTellsPort(src, dst, port, p, src + [' '] + Name(p) + x, y, port, q);
    }
  }

  lemma SameEndSameStart(src: string, n: string, dst: string, src': string)
    requires Joined(src, n, dst) == Joined(src', n, dst)
    ensures src == src'
  {
    assert |src| == |src'|;
    assert Joined(src, n, dst)[..|src|] == src && Joined(src', n, dst)[..|src|] == src';
  }

  lemma ShorterSourceReadsOn(l: Link, r: Link)
    requires Joined(l.sourceId, Name(l.ipProtocol), l.destinationId) ==
             Joined(r.sourceId, Name(r.ipProtocol), r.destinationId)
    requires PortFits(r.ipProtocol, l.destinationPort)
    requires Services.IsId(r.sourceId, false) && Services.IsId(r.destinationId, true)
    requires |r.sourceId| < |l.sourceId|
    ensures SourceReadsOn(l)
  {
    var src, dst, n := l.sourceId, l.destinationId, Name(l.ipProtocol);
    var src', dst', n' := r.sourceId, r.destinationId, Name(r.ipProtocol);
    NamesAreWords(r.ipProtocol);
    var y, x := LongerSourceIsMarked(src, n, dst, src', n', dst');
    ReadEarlier(src, n, dst, src', n', y);
    JoinedAfterSource(src', n', dst', n', y + n + [' '] + dst);
  }

  lemma LongerSourceReadsOn(l: Link, r: Link)
    requires Joined(l.sourceId, Name(l.ipProtocol), l.destinationId) ==
             Joined(r.sourceId, Name(r.ipProtocol), r.destinationId)
    requires PortFits(r.ipProtocol, l.destinationPort)
    requires Services.IsId(r.sourceId, false) && Services.IsId(r.destinationId, true)
    requires |l.sourceId| < |r.sourceId|
    ensures DestinationReadsOn(l)
  {
    var src, dst, n := l.sourceId, l.destinationId, Name(l.ipProtocol);
    var src', dst', n' := r.sourceId, r.destinationId, Name(r.ipProtocol);
    NamesAreWords(l.ipProtocol);
    var y, x := LongerSourceIsMarked(src', n', dst', src, n, dst);
    ReadLater(src, n, dst, x, n', dst');
    SameEndSameStart(src', n', dst', src + [' '] + n + x);
  }

  lemma SameLengthSameParts(l: Link, r: Link)
    requires Joined(l.sourceId, Name(l.ipProtocol), l.destinationId) ==
             Joined(r.sourceId, Name(r.ipProtocol), r.destinationId)
    requires |l.sourceId| == |r.sourceId|
    ensures l.sourceId == r.sourceId && l.ipProtocol == r.ipProtocol && l.destinationId == r.destinationId
  {
    var src, n, dst := l.sourceId, Name(l.ipProtocol), l.destinationId;
    var src', n', dst' := r.sourceId, Name(r.ipProtocol), r.destinationId;
    assert Joined(src, n, dst)[..|src|] == src && Joined(src', n', dst')[..|src'|] == src';
    NamesAreWords(l.ipProtocol);
    NamesAreWords(r.ipProtocol);
    JoinedAfterSource(src, n, dst, n', dst');
    NamesDiffer(l.ipProtocol, r.ipProtocol);
  }

  lemma SharedReadsOn(f: Flow, g: Flow)
    requires FromFlow(f).Some? && FromFlow(g).Some?
    requires FromFlow(g).value.id == FromFlow(f).value.id && !SameParts(FromFlow(g).value, FromFlow(f).value)
    ensures SourceReadsOn(FromFlow(f).value) || DestinationReadsOn(FromFlow(f).value)
  {
    PartsOfFlow(f);
    PartsOfFlow(g);
    var l, r := FromFlow(f).value, FromFlow(g).value;
    IdTellsPort(l.sourceId, l.destinationId, l.destinationPort, l.ipProtocol,
                r.sourceId, r.destinationId, r.destinationPort, r.ipProtocol);
    if |r.sourceId| < |l.sourceId| {
      ShorterSourceReadsOn(l, r);
    } else if |l.sourceId| < |r.sourceId| {
      LongerSourceReadsOn(l, r);
    } else {
      SameLengthSameParts(l, r);
    }
  }

  // The id of a flow's link is shared by the link of a flow with another source, protocol, destination or port
  // exactly when a marker in its source or its destination leaves the ids of a sender and of a receiver on its sides.
  lemma SharedIffReadsOn(f: Flow)
    requires FromFlow(f).Some?
    ensures var l := FromFlow(f).value; Shared(l) <==> SourceReadsOn(l) || DestinationReadsOn(l)
  {
    var l := FromFlow(f).value;
    if SourceReadsOn(l) || DestinationReadsOn(l) {
      ReadsOnIsShared(f);
    }
    if Shared(l) {
      var g :| FromFlow(g).Some? && FromFlow(g).value.id == l.id && !SameParts(FromFlow(g).value, l);
      SharedReadsOn(f, g);
    }
  }

  function FlowBetween(source: Endpoint, destination: Endpoint, names: seq<string>, l4: L4, authType: int): Flow {
    Flow(Some(source), Some(destination), [], names, Some(l4), 0, authType, false)
  }

  function Pod(kind: string, name: string): Endpoint {
    Endpoint(0, false, [Workload(name, kind)])
  }

  lemma FiveAndPods()
    ensures Decimal(5) == "5"
    ensures "k" + "/" + "a TCP k/b" == "k/a TCP k/b"
    ensures "k" + "/" + "a" == "k/a" && "k" + "/" + "b TCP 5" == "k/b TCP 5"
  {
  }

  lemma TwoReadings()
    ensures Joined("k/a TCP k/b", "TCP", "5") == "k/a TCP k/b TCP 5" == Joined("k/a", "TCP", "k/b TCP 5")
  {
  }

  // It happens: a workload called "a TCP k/b" talking to 5, and a workload a talking to one called "b TCP 5", both
  // have the id "k/a TCP k/b TCP 5:80".
  lemma TwoFlowsShareAnId() returns (f: Flow, g: Flow)
    ensures FromFlow(f).Some? && FromFlow(g).Some?
    ensures FromFlow(f).value.sourceId == "k/a TCP k/b" && FromFlow(f).value.destinationId == "5"
    ensures FromFlow(g).value.sourceId == "k/a" && FromFlow(g).value.destinationId == "k/b TCP 5"
    ensures FromFlow(f).value.id == FromFlow(g).value.id
    ensures FromFlow(f).value.destinationPort == FromFlow(g).value.destinationPort == 80
    ensures FromFlow(f).value.ipProtocol == FromFlow(g).value.ipProtocol == IPProtocol.TCP
    ensures Shared(FromFlow(f).value)
  {
    f := FlowBetween(Pod("k", "a TCP k/b"), Endpoint(5, false, []), [], L4.TCP(80), 0);
    g := FlowBetween(Pod("k", "a"), Pod("k", "b TCP 5"), [], L4.TCP(80), 0);
    FiveAndPods();
    TwoReadings();
    assert |FromFlow(f).value.sourceId| != |FromFlow(g).value.sourceId|;
    assert !SameParts(FromFlow(g).value, FromFlow(f).value);
  }

  lemma LastOnesAreIn(s: string, k: nat, c: char)
    requires k <= |s|
    ensures c in s[|s| - k..] ==> c in s
  {
  }

  lemma Lacking(s: string, suffix: string, c: char)
    requires c !in s && c in suffix
    ensures !Services.EndsIn(s, suffix)
  {
    if |suffix| <= |s| {
      LastOnesAreIn(s, |suffix|, c);
    }
  }

  // Nothing before a marker in the destination below can be the rest of a sender's id.
  lemma NoSenderStartsSo(x: string, rest: string)
    requires x + rest == " a TCP b-receiver"
    ensures !Services.IsId("1" + [' '] + "TCP" + x, false)
  {
    var s := "1" + [' '] + "TCP" + x;
    assert s[1] == ' ';
    assert '/' !in x && 's' !in x by {
      assert '/' !in x + rest && 's' !in x + rest;
    }
    assert '/' !in s && 's' !in s;
    Lacking(s, "-sender", 's');
  }

  lemma NoMarkerFits(q: IPProtocol, x: string, y: string)
    ensures "1" + [' '] != x + Spaced(Name(q)) + y
  {
    NamesAreWords(q);
    assert |x + Spaced(Name(q)) + y| > 2;
  }

  lemma OneReadingOnly(l: Link)
    requires l.sourceId == "1" && l.destinationId == "a TCP b-receiver" && l.ipProtocol == IPProtocol.TCP
    ensures !SourceReadsOn(l) && !DestinationReadsOn(l)
  {
    forall q, x, y
      ensures l.sourceId + [' '] != x + Spaced(Name(q)) + y
    {
      NoMarkerFits(q, x, y);
    }
    assert [' '] + l.destinationId == " a TCP b-receiver";
    forall q, x, y | [' '] + l.destinationId == x + Spaced(Name(q)) + y
      ensures !Services.IsId(l.sourceId + [' '] + Name(l.ipProtocol) + x, false)
    {
      assert x + Spaced(Name(q)) + y == x + (Spaced(Name(q)) + y);
      NoSenderStartsSo(x, Spaced(Name(q)) + y);
    }
  }

  lemma OneToNamed() returns (f: Flow)
    ensures FromFlow(f).Some?
    ensures FromFlow(f).value.sourceId == "1" && FromFlow(f).value.destinationId == "a TCP b-receiver"
    ensures FromFlow(f).value.ipProtocol == IPProtocol.TCP
  {
    f := FlowBetween(Endpoint(1, false, []), NO_ENDPOINT, ["a TCP b"], L4.TCP(80), 0);
    assert Decimal(1) == "1";
    assert "a TCP b" + "-receiver" == "a TCP b-receiver";
  }

  lemma OneIsMarked()
    ensures Marked([' '] + "a TCP b-receiver")
  {
    assert [' '] + "a TCP b-receiver" == " a" + Spaced(Name(IPProtocol.TCP)) + "b-receiver";
  }

  // A marker alone is not enough: with destination "a TCP b" what comes before it is nobody's id.
  lemma MarkedNeedNotBeShared() returns (f: Flow)
    ensures FromFlow(f).Some?
    ensures Marked([' '] + FromFlow(f).value.destinationId) && !Shared(FromFlow(f).value)
  {
    f := OneToNamed();
    OneIsMarked();
    OneReadingOnly(FromFlow(f).value);
    SharedIffReadsOn(f);
  }

  // Links that share an id and are no different in the parts it is made of, and still are not Equal.
  lemma SameIdCanDifferInAuthType() returns (f: Flow, g: Flow)
    ensures FromFlow(f).Some? && FromFlow(g).Some?
    ensures var l, r := FromFlow(f).value, FromFlow(g).value;
            l.id == r.id && SameParts(l, r) && l.verdict == r.verdict && l.isEncrypted == r.isEncrypted && !Equals(l, r)
  {
    f := FlowBetween(Endpoint(1, false, []), Endpoint(2, false, []), [], L4.TCP(80), 0);
    g := FlowBetween(Endpoint(1, false, []), Endpoint(2, false, []), [], L4.TCP(80), 1);
  }
}
