/** The udp relay that runs without the tunnel's own extension header: each player (a
    client address behind a tunnel ip) is given a local socket shared with other players
    whose origin ports do not overlap, a map from tunneled flow to socket, and idle clients
    and sockets are cleared periodically. */
module UdpRelayClients {
  import opened Ints
  import opened Net
  import opened Wrappers
  import opened UdpProto
  import OriginLookups

  // ---------------------------------------------------------------------------
  // Host resources
  // ---------------------------------------------------------------------------

  /** The origin a client reaches: the tunnel's ports `[tunnFromPort, tunnToPort)` map onto
      the origin's ports counted from its own. */
  datatype HostResource = HostResource(hostOrigin: SocketAddr, tunnFromPort: u16, tunnToPort: u16)

  /** `tunn_to_port - tunn_from_port` in `u16` arithmetic (which wraps). */
  function PortCount(r: HostResource): u16 {
    Sub16(r.tunnToPort, r.tunnFromPort)
  }

  /** The origin port one past the resource's last, in `u16` arithmetic. */
  function SpanEnd(r: HostResource): u16 {
    Add16(r.hostOrigin.Port(), PortCount(r))
  }

  /** A resource whose range is ordered and whose origin ports stay below 65536, so that no
      `u16` sum or difference above wraps. */
  predicate Spans(r: HostResource) {
    r.tunnFromPort <= r.tunnToPort && r.hostOrigin.Port() + (r.tunnToPort - r.tunnFromPort) < TWO_16
  }

  /** `contains_addr`: the same ip, and a port from the origin's up to, not including, the
      origin's plus the port count. */
  predicate ContainsAddr(r: HostResource, addr: SocketAddr)
    ensures ContainsAddr(r, addr) ==> r.hostOrigin.Ip() == addr.Ip() && InSpan(r, addr.Port())
  {
    r.hostOrigin.Ip() == addr.Ip() && r.hostOrigin.Port() <= addr.Port() < SpanEnd(r)
  }

  lemma ContainsAddrMeans(r: HostResource, addr: SocketAddr)
    requires Spans(r)
    ensures ContainsAddr(r, addr) <==>
      r.hostOrigin.Ip() == addr.Ip() &&
      r.hostOrigin.Port() <= addr.Port() < r.hostOrigin.Port() + (r.tunnToPort - r.tunnFromPort)
  {
  }

  /** The closed span `[port, end]` that `is_overlapping` compares. */
  predicate InSpan(r: HostResource, p: int) {
    r.hostOrigin.Port() <= p <= SpanEnd(r)
  }

  /** `is_overlapping`: the same ip, and the closed spans from each origin port to its end
      meet. */
  predicate IsOverlapping(a: HostResource, b: HostResource)
    ensures IsOverlapping(a, b) ==>
      a.hostOrigin.Ip() == b.hostOrigin.Ip() &&
      InSpan(a, Max(a.hostOrigin.Port(), b.hostOrigin.Port())) && InSpan(b, Max(a.hostOrigin.Port(), b.hostOrigin.Port()))
  {
    a.hostOrigin.Ip() == b.hostOrigin.Ip() &&
    Max(a.hostOrigin.Port(), b.hostOrigin.Port()) <= Min(SpanEnd(a), SpanEnd(b))
  }

  lemma IsOverlappingSymmetric(a: HostResource, b: HostResource)
    ensures IsOverlapping(a, b) <==> IsOverlapping(b, a)
  {
  }

  /** The comparison of the larger start with the smaller end is the intersection of the two
      closed spans. */
  lemma IsOverlappingMeans(a: HostResource, b: HostResource)
    ensures IsOverlapping(a, b) <==> a.hostOrigin.Ip() == b.hostOrigin.Ip() && exists p :: InSpan(a, p) && InSpan(b, p)
  {
    if IsOverlapping(a, b) {
      var p := Max(a.hostOrigin.Port(), b.hostOrigin.Port());
      assert InSpan(a, p) && InSpan(b, p);
    }
  }

  /** Two resources holding a common address overlap, so a set of clients that do not
      overlap has at most one that holds any address. */
  lemma SharedAddrOverlaps(a: HostResource, b: HostResource, x: SocketAddr)
    requires ContainsAddr(a, x) && ContainsAddr(b, x)
    ensures IsOverlapping(a, b)
  {
    assert InSpan(a, x.Port()) && InSpan(b, x.Port());
    IsOverlappingMeans(a, b);
  }

  /** The spans are closed at the end, so a resource starting where another ends overlaps
      it although no address belongs to both. */
  lemma TouchingSpansOverlap(a: HostResource, b: HostResource)
    requires a.hostOrigin.Ip() == b.hostOrigin.Ip() && b.hostOrigin.Port() == SpanEnd(a)
    requires Spans(a) && Spans(b)
    ensures IsOverlapping(a, b)
    ensures forall x :: !(ContainsAddr(a, x) && ContainsAddr(b, x))
  {
  }

  // ---------------------------------------------------------------------------
  // Clients of one socket
  // ---------------------------------------------------------------------------

  /** The player behind a client: the tunnel ip it sent to and its own address. */
  datatype TunnelFlow =
    | V4Client(tunnelIp: Ipv4Addr, clientIp: Ipv4Addr, clientPort: u16)
    | V6Client(tunnelIp6: Ipv6Addr, clientIp6: Ipv6Addr, clientPort6: u16)

  /** A client; instants are milliseconds on one clock and the tunnel id is a uuid's number. */
  datatype SocketClient = SocketClient(
    tunnelId: nat,
    resource: HostResource,
    tunnelFlow: TunnelFlow,
    lastTunnelActivity: nat,
    lastHostActivity: Option<nat>,
    usesProxyProtocol: bool,
    lastProxyPacket: Option<nat>)

  /** `SocketClients::can_add` as written: some client does not overlap the resource. */
  function CanAddAsWritten(clients: seq<SocketClient>, r: HostResource): (b: bool)
    ensures b <==> exists i :: 0 <= i < |clients| && !IsOverlapping(clients[i].resource, r)
  {
    if |clients| == 0 then false
    else
      var rest := CanAddAsWritten(clients[1..], r);
      assert forall i :: 1 <= i < |clients| ==> clients[i] == clients[1..][i - 1];
      !IsOverlapping(clients[0].resource, r) || rest
  }

  /** `can_add` as evidently intended: no client overlaps the resource. */
  function CanAdd(clients: seq<SocketClient>, r: HostResource): (b: bool)
    ensures b <==> forall i :: 0 <= i < |clients| ==> !IsOverlapping(clients[i].resource, r)
  {
    if |clients| == 0 then true
    else
      var rest := CanAdd(clients[1..], r);
      assert forall i :: 1 <= i < |clients| ==> clients[i] == clients[1..][i - 1];
      !IsOverlapping(clients[0].resource, r) && rest
  }

  /** The clients of a socket do not overlap one another. */
  predicate Disjoint(clients: seq<SocketClient>) {
    forall i, j :: 0 <= i < j < |clients| ==> !IsOverlapping(clients[i].resource, clients[j].resource)
  }

  /** A client added after `CanAdd` keeps the socket's clients disjoint. */
  lemma PushKeepsDisjoint(clients: seq<SocketClient>, c: SocketClient)
    requires Disjoint(clients) && CanAdd(clients, c.resource)
    ensures Disjoint(clients + [c])
  {
    var r := clients + [c];
    forall i, j | 0 <= i < j < |r|
      ensures !IsOverlapping(r[i].resource, r[j].resource)
    {
      if j == |clients| {
        IsOverlappingSymmetric(r[i].resource, c.resource);
      }
    }
  }

  /** Among disjoint clients at most one holds an address, so the lookup of the client a
      packet from the origin belongs to is unambiguous. */
  lemma DisjointUniqueContainer(clients: seq<SocketClient>, x: SocketAddr, i: nat, j: nat)
    requires Disjoint(clients) && i < |clients| && j < |clients|
    requires ContainsAddr(clients[i].resource, x) && ContainsAddr(clients[j].resource, x)
    ensures i == j
  {
    if i < j {
      SharedAddrOverlaps(clients[i].resource, clients[j].resource, x);
    } else if j < i {
      SharedAddrOverlaps(clients[j].resource, clients[i].resource, x);
    }
  }

  /** As written, `can_add` refuses every empty socket and accepts a resource that overlaps
      a client as soon as another client does not overlap it. */
  lemma CanAddAsWrittenAdmitsOverlap(a: SocketClient, b: SocketClient, c: SocketClient)
    requires IsOverlapping(a.resource, c.resource) && !IsOverlapping(b.resource, c.resource)
    ensures !CanAddAsWritten([], c.resource) && CanAdd([], c.resource)
    ensures CanAddAsWritten([a, b], c.resource) && !CanAdd([a, b], c.resource)
    ensures !Disjoint([a, b] + [c])
  {
    assert ([a, b] + [c])[0] == a && ([a, b] + [c])[2] == c;
  }

  /** Two one-port resources on 127.0.0.1, at ports 100 and 200, and a third at 100. */
  function LoopbackOnePort(port: u16): HostResource {
    HostResource(SockV4(SocketAddrV4(LOCALHOST_V4, port)), 4000, 4001)
  }

  /** With clients at 127.0.0.1:100 and 127.0.0.1:200, `can_add` as written admits a new
      client at 127.0.0.1:100, and the two clients at port 100 both hold its address. */
  lemma CanAddAsWrittenExample(a: SocketClient, b: SocketClient, c: SocketClient)
    requires a.resource == LoopbackOnePort(100) && b.resource == LoopbackOnePort(200) && c.resource == LoopbackOnePort(100)
    ensures CanAddAsWritten([a, b], c.resource)
    ensures ContainsAddr(a.resource, SockV4(SocketAddrV4(LOCALHOST_V4, 100))) && ContainsAddr(c.resource, SockV4(SocketAddrV4(LOCALHOST_V4, 100)))
  {
    CanAddAsWrittenAdmitsOverlap(a, b, c);
  }

  /** The tunnel ip of a client, and the destination of a flow, are the same ip. */
  predicate SameTunnelIp(t: TunnelFlow, flow: UdpFlow) {
    match t
    case V4Client(tunnelIp, _, _) => flow.V4? && flow.dst.ip == tunnelIp
    case V6Client(tunnelIp, _, _) => flow.V6? && flow.dst6.0 == tunnelIp
  }

  /** `get_client_mut`'s test: the client's family and tunnel ip, and a destination port in
      the tunnel's range. */
  predicate ServesFlow(c: SocketClient, flow: UdpFlow) {
    SameTunnelIp(c.tunnelFlow, flow) && c.resource.tunnFromPort <= Dst(flow).Port() < c.resource.tunnToPort
  }

  /** `get_client_mut`: the first client that serves the flow. */
  function GetClient(clients: seq<SocketClient>, flow: UdpFlow): (r: Option<nat>)
    ensures r.Some? ==> r.value < |clients| && ServesFlow(clients[r.value], flow)
    ensures r.Some? ==> forall j :: 0 <= j < r.value ==> !ServesFlow(clients[j], flow)
    ensures r.None? <==> forall j :: 0 <= j < |clients| ==> !ServesFlow(clients[j], flow)
  {
    GetClientFrom(clients, flow, 0)
  }

  function GetClientFrom(clients: seq<SocketClient>, flow: UdpFlow, from: nat): (r: Option<nat>)
    requires from <= |clients|
    ensures r.Some? ==> from <= r.value < |clients| && ServesFlow(clients[r.value], flow)
    ensures r.Some? ==> forall j :: from <= j < r.value ==> !ServesFlow(clients[j], flow)
    ensures r.None? <==> forall j :: from <= j < |clients| ==> !ServesFlow(clients[j], flow)
    decreases |clients| - from
  {
    if from == |clients| then None
    else if ServesFlow(clients[from], flow) then Some(from)
    else GetClientFrom(clients, flow, from + 1)
  }

  /** The flows `clear_old` drops with a client: the map's range from the flow to the
      tunnel's first port to the flow to its end port. Flows are ordered by family, then
      source, then destination address (ip, then port), then the rest, so this range is every
      flow of the client's family from its own address to its tunnel ip at a port in the
      tunnel's range. */
  predicate InClientRange(f: UdpFlow, c: SocketClient) {
    match c.tunnelFlow
    case V4Client(tunnelIp, clientIp, clientPort) =>
      f.V4? && f.src == SocketAddrV4(clientIp, clientPort) && f.dst.ip == tunnelIp &&
      c.resource.tunnFromPort <= f.dst.port < c.resource.tunnToPort
    case V6Client(tunnelIp, clientIp, clientPort) =>
      f.V6? && f.src6 == (clientIp, clientPort) && f.dst6.0 == tunnelIp &&
      c.resource.tunnFromPort <= f.dst6.1 < c.resource.tunnToPort
  }

  /** A flow in a client's range is served by it. */
  lemma RangeFlowServed(f: UdpFlow, c: SocketClient)
    requires InClientRange(f, c)
    ensures ServesFlow(c, f)
  {
  }

  /** The player of a tunneled flow. */
  function TunnelFlowOf(flow: UdpFlow): (t: TunnelFlow)
    ensures t.V4Client? == flow.V4? && SameTunnelIp(t, flow)
  {
    match flow
    case V4(src, dst, _, _) => V4Client(dst.ip, src.ip, src.port)
    case V6(src, dst, _) => V6Client(dst.0, src.0, src.1)
  }

  /** The client made for a new flow, given the tunnel the lookup found. */
  function NewClient(flow: UdpFlow, tunnelId: nat, resource: HostResource, proxyV2: bool, now: nat): SocketClient {
    SocketClient(tunnelId, resource, TunnelFlowOf(flow), now, None, proxyV2, None)
  }

  /** The client made for a flow whose port is in the found range holds the flow in its range. */
  lemma NewClientHoldsFlow(flow: UdpFlow, tunnelId: nat, resource: HostResource, proxyV2: bool, now: nat)
    requires resource.tunnFromPort <= Dst(flow).Port() < resource.tunnToPort
    ensures InClientRange(flow, NewClient(flow, tunnelId, resource, proxyV2, now))
    ensures ServesFlow(NewClient(flow, tunnelId, resource, proxyV2, now), flow)
  {
  }

  // ---------------------------------------------------------------------------
  // Addresses towards and from the origin
  // ---------------------------------------------------------------------------

  /** Where a tunneled packet goes: the origin's ip at its port plus the destination port less
      the tunnel's first port, in `u16` arithmetic. */
  function TargetAddr(r: HostResource, dstPort: u16): (a: SocketAddr)
    ensures a.Ip() == r.hostOrigin.Ip()
    ensures Spans(r) && r.tunnFromPort <= dstPort < r.tunnToPort ==>
      a.Port() == r.hostOrigin.Port() + (dstPort - r.tunnFromPort)
  {
    NewSocketAddr(r.hostOrigin.Ip(), Sub16(Add16(r.hostOrigin.Port(), dstPort), r.tunnFromPort))
  }

  /** The flow a packet from the origin address `from` is sent back with: from the client
      to its tunnel ip at the tunnel port as far above the first as `from` is above the
      origin's port. */
  function HostReplyFlow(c: SocketClient, from: SocketAddr): UdpFlow {
    var tunnelPort := Add16(c.resource.tunnFromPort, Sub16(from.Port(), c.resource.hostOrigin.Port()));
    match c.tunnelFlow
    case V4Client(tunnelIp, clientIp, clientPort) =>
      UdpFlow.V4(SocketAddrV4(clientIp, clientPort), SocketAddrV4(tunnelIp, tunnelPort), None, None)
    case V6Client(tunnelIp, clientIp, clientPort) =>
      UdpFlow.V6((clientIp, clientPort), (tunnelIp, tunnelPort), None)
  }

  /** A tunneled packet to port `dstPort` reaches an address of the client's resource, and a
      reply from that address travels back on a flow to the same tunnel port, in the range
      `clear_old` drops with the client. */
  lemma TargetRoundTrip(c: SocketClient, dstPort: u16)
    requires Spans(c.resource) && c.resource.tunnFromPort <= dstPort < c.resource.tunnToPort
    ensures ContainsAddr(c.resource, TargetAddr(c.resource, dstPort))
    ensures Dst(HostReplyFlow(c, TargetAddr(c.resource, dstPort))).Port() == dstPort
    ensures InClientRange(HostReplyFlow(c, TargetAddr(c.resource, dstPort)), c)
  {
  }

  // ---------------------------------------------------------------------------
  // Idle clients
  // ---------------------------------------------------------------------------

  /** `Instant::elapsed`: the time since `t`, zero for an instant not yet reached. */
  function Elapsed(now: nat, t: nat): nat {
    if t <= now then now - t else 0
  }

  /** `clear_old`'s keep rule: a client never heard from the origin is kept for 15 seconds
      after its tunnel traffic; otherwise it is dropped when both sides are idle for more than
      a minute or either for more than five. */
  predicate KeepClient(now: nat, c: SocketClient) {
    var sinceTunnel := Elapsed(now, c.lastTunnelActivity);
    match c.lastHostActivity
    case None => sinceTunnel < 15_000
    case Some(hostTs) =>
      var sinceHost := Elapsed(now, hostTs);
      if 60_000 < Min(sinceHost, sinceTunnel) then false
      else if 300_000 < Max(sinceHost, sinceTunnel) then false
      else true
  }

  lemma KeepClientMeans(now: nat, c: SocketClient)
    ensures c.lastHostActivity.None? ==> (KeepClient(now, c) <==> Elapsed(now, c.lastTunnelActivity) < 15_000)
    ensures c.lastHostActivity.Some? ==>
      (KeepClient(now, c) <==>
        (Elapsed(now, c.lastTunnelActivity) <= 60_000 || Elapsed(now, c.lastHostActivity.value) <= 60_000) &&
        Elapsed(now, c.lastTunnelActivity) <= 300_000 && Elapsed(now, c.lastHostActivity.value) <= 300_000)
  {
  }

  // ---------------------------------------------------------------------------
  // The sockets and the flow map
  // ---------------------------------------------------------------------------

  datatype SocketType = Tunnel | Client

  /** A socket and the clients that share it; `emptyAt` is when it last lost its clients. */
  datatype Socket = Socket(id: u64, clients: seq<SocketClient>, socketType: SocketType, emptyAt: nat)

  predicate UniqueIds(ss: seq<Socket>) {
    forall i, j :: 0 <= i < j < |ss| ==> ss[i].id != ss[j].id
  }

  /** `IdSlab::get`: where the socket of an id is. */
  function IndexOfId(ss: seq<Socket>, id: u64): (r: Option<nat>)
    ensures r.Some? ==> r.value < |ss| && ss[r.value].id == id
    ensures r.None? <==> forall k :: 0 <= k < |ss| ==> ss[k].id != id
  {
    if |ss| == 0 then None
    else if ss[|ss| - 1].id == id then Some(|ss| - 1)
    else IndexOfId(ss[..|ss| - 1], id)
  }

  /** Some client of a socket has the flow in its range. */
  predicate Covers(clients: seq<SocketClient>, f: UdpFlow) {
    exists i :: 0 <= i < |clients| && InClientRange(f, clients[i])
  }

  /** The relay's invariant: ids are unique; the tunnel socket is there, is the only socket
      of its type and has no clients; every socket's clients are disjoint; and every mapped
      flow names a socket with a client whose range has the flow. */
  ghost predicate TableInv(ss: seq<Socket>, flows: map<UdpFlow, u64>, tunnelSocketId: u64) {
    UniqueIds(ss) &&
    IndexOfId(ss, tunnelSocketId).Some? &&
    (forall k :: 0 <= k < |ss| ==> (ss[k].socketType == Tunnel <==> ss[k].id == tunnelSocketId)) &&
    TunnelsEmpty(ss) &&
    (forall k :: 0 <= k < |ss| ==> Disjoint(ss[k].clients)) &&
    FlowsCovered(ss, flows)
  }

  predicate TunnelsEmpty(ss: seq<Socket>) {
    forall k :: 0 <= k < |ss| && ss[k].socketType == Tunnel ==> ss[k].clients == []
  }

  ghost predicate FlowCovered(ss: seq<Socket>, flows: map<UdpFlow, u64>, f: UdpFlow)
    requires f in flows
  {
    IndexOfId(ss, flows[f]).Some? && Covers(ss[IndexOfId(ss, flows[f]).value].clients, f)
  }

  ghost predicate FlowsCovered(ss: seq<Socket>, flows: map<UdpFlow, u64>) {
    forall f {:trigger FlowCovered(ss, flows, f)} :: f in flows ==> FlowCovered(ss, flows, f)
  }

  // The three passes of `clear_old`, as functions of the state before it.

  /** The flows in the map that lie in a client's range. */
  function RangeFlows(flows: map<UdpFlow, u64>, c: SocketClient): (r: set<UdpFlow>)
    ensures forall f :: f in r <==> f in flows && InClientRange(f, c)
  {
    set f | f in flows && InClientRange(f, c)
  }

  /** The clients `retain` keeps, in their order. */
  function Retained(now: nat, cs: seq<SocketClient>): (r: seq<SocketClient>)
    ensures |r| <= |cs|
    ensures forall x :: x in r <==> x in cs && KeepClient(now, x)
  {
    if |cs| == 0 then []
    else Retained(now, cs[..|cs| - 1]) + (if KeepClient(now, cs[|cs| - 1]) then [cs[|cs| - 1]] else [])
  }

  /** The flows queued for the clients `retain` drops, one copy per dropped client. */
  function QueuedFlows(now: nat, flows: map<UdpFlow, u64>, cs: seq<SocketClient>): multiset<UdpFlow> {
    if |cs| == 0 then multiset{}
    else (QueuedFlows(now, flows, cs[..|cs| - 1]) +
      (if KeepClient(now, cs[|cs| - 1]) then multiset{} else multiset(RangeFlows(flows, cs[|cs| - 1]))))
  }

  /** `assert!(flow_rm_count != 0)` holds for every dropped client. */
  predicate DroppedHaveFlows(now: nat, flows: map<UdpFlow, u64>, cs: seq<SocketClient>) {
    forall c :: c in cs && !KeepClient(now, c) ==> RangeFlows(flows, c) != {}
  }

  /** The sockets whose clients `clear_old` goes through: client sockets with clients. */
  predicate Visited(s: Socket) {
    s.socketType == Client && |s.clients| > 0
  }

  /** A socket after the first pass: its clients retained, and `emptyAt` set when none is left. */
  function SocketAfter(now: nat, s: Socket): Socket {
    if !Visited(s) then s
    else
      var kept := Retained(now, s.clients);
      s.(clients := kept, emptyAt := if |kept| == 0 then now else s.emptyAt)
  }

  /** A client socket already empty when the pass starts and empty for over a minute. */
  predicate SocketExpires(now: nat, s: Socket) {
    s.socketType == Client && |s.clients| == 0 && 60_000 < Elapsed(now, s.emptyAt)
  }

  function AfterRetain(now: nat, ss: seq<Socket>): (r: seq<Socket>)
    ensures |r| == |ss|
    ensures forall k :: 0 <= k < |ss| ==> r[k] == SocketAfter(now, ss[k])
  {
    if |ss| == 0 then []
    else AfterRetain(now, ss[..|ss| - 1]) + [SocketAfter(now, ss[|ss| - 1])]
  }

  function AllQueued(now: nat, flows: map<UdpFlow, u64>, ss: seq<Socket>): multiset<UdpFlow> {
    if |ss| == 0 then multiset{}
    else (AllQueued(now, flows, ss[..|ss| - 1]) +
      (if Visited(ss[|ss| - 1]) then QueuedFlows(now, flows, ss[|ss| - 1].clients) else multiset{}))
  }

  predicate AssertsHold(now: nat, flows: map<UdpFlow, u64>, ss: seq<Socket>) {
    forall k :: 0 <= k < |ss| && Visited(ss[k]) ==> DroppedHaveFlows(now, flows, ss[k].clients)
  }

  predicate IsExpiringId(now: nat, ss: seq<Socket>, id: u64) {
    exists k :: 0 <= k < |ss| && ss[k].id == id && SocketExpires(now, ss[k])
  }

  /** The ids of the expiring sockets, in order. */
  function ExpiringIds(now: nat, ss: seq<Socket>): (r: seq<u64>)
    ensures forall x :: x in r <==> IsExpiringId(now, ss, x)
  {
    if |ss| == 0 then []
    else
      var init := ss[..|ss| - 1];
      var r := ExpiringIds(now, init) + (if SocketExpires(now, ss[|ss| - 1]) then [ss[|ss| - 1].id] else []);
      assert forall x :: IsExpiringId(now, init, x) ==> IsExpiringId(now, ss, x) by {
        forall x | IsExpiringId(now, init, x) ensures IsExpiringId(now, ss, x) {
          var k :| 0 <= k < |init| && init[k].id == x && SocketExpires(now, init[k]);
          assert ss[k] == init[k];
        }
      }
      assert forall x :: IsExpiringId(now, ss, x) ==> x in r by {
        forall x | IsExpiringId(now, ss, x) ensures x in r {
          var k :| 0 <= k < |ss| && ss[k].id == x && SocketExpires(now, ss[k]);
          if k < |init| {
            assert init[k] == ss[k];
            assert IsExpiringId(now, init, x);
          }
        }
      }
      r
  }

  /** The sockets whose id is not in `ids`, in order. */
  function Without(ss: seq<Socket>, ids: set<u64>): (r: seq<Socket>)
    ensures forall x :: x in r <==> x in ss && x.id !in ids
  {
    if |ss| == 0 then []
    else Without(ss[..|ss| - 1], ids) + (if ss[|ss| - 1].id in ids then [] else [ss[|ss| - 1]])
  }

  /** The ids of a list, as a set. */
  function IdSet(ids: seq<u64>): (r: set<u64>)
    ensures forall x :: x in r <==> x in ids
  {
    set x | x in ids
  }

  /** The sockets after `clear_old`. */
  function ClearedSockets(now: nat, ss: seq<Socket>): seq<Socket> {
    Without(AfterRetain(now, ss), IdSet(ExpiringIds(now, ss)))
  }

  /** The flows `clear_old` removes from the map. */
  function ClearedFlows(now: nat, flows: map<UdpFlow, u64>, ss: seq<Socket>): map<UdpFlow, u64> {
    flows - (set f | f in AllQueued(now, flows, ss))
  }

  ghost predicate NoRepeats(m: multiset<UdpFlow>) {
    forall f :: m[f] <= 1
  }

  // Facts about the passes.

  /** `retain` keeps a subsequence, so the kept clients stay disjoint. */
  lemma {:induction false} RetainedDisjoint(now: nat, cs: seq<SocketClient>)
    requires Disjoint(cs)
    ensures Disjoint(Retained(now, cs))
    decreases |cs|
  {
    if |cs| > 0 {
      var init := cs[..|cs| - 1];
      var last := cs[|cs| - 1];
      assert Disjoint(init) by {
        forall i, j | 0 <= i < j < |init| ensures !IsOverlapping(init[i].resource, init[j].resource) {
          assert init[i] == cs[i] && init[j] == cs[j];
        }
      }
      RetainedDisjoint(now, init);
      var r := Retained(now, cs);
      var ri := Retained(now, init);
      if KeepClient(now, last) {
        forall i, j | 0 <= i < j < |r| ensures !IsOverlapping(r[i].resource, r[j].resource) {
          if j == |ri| {
            assert r[i] == ri[i] && ri[i] in init;
            var k :| 0 <= k < |init| && init[k] == ri[i];
            assert cs[k] == ri[i];
          } else {
            assert r[i] == ri[i] && r[j] == ri[j];
          }
        }
      } else {
        assert r == ri;
      }
    }
  }

  /** Every queued flow is in the map the ranges are taken from. */
  lemma {:induction false} QueuedInMap(now: nat, flows: map<UdpFlow, u64>, cs: seq<SocketClient>)
    ensures forall f :: f in QueuedFlows(now, flows, cs) ==> f in flows
    decreases |cs|
  {
    if |cs| > 0 {
      QueuedInMap(now, flows, cs[..|cs| - 1]);
    }
  }

  lemma {:induction false} AllQueuedInMap(now: nat, flows: map<UdpFlow, u64>, ss: seq<Socket>)
    ensures forall f :: f in AllQueued(now, flows, ss) ==> f in flows
    decreases |ss|
  {
    if |ss| > 0 {
      AllQueuedInMap(now, flows, ss[..|ss| - 1]);
      QueuedInMap(now, flows, ss[|ss| - 1].clients);
    }
  }

  /** The flows of every dropped client are queued. */
  lemma {:induction false} QueuedHas(now: nat, flows: map<UdpFlow, u64>, cs: seq<SocketClient>, k: nat, f: UdpFlow)
    requires k < |cs| && !KeepClient(now, cs[k]) && f in flows && InClientRange(f, cs[k])
    ensures f in QueuedFlows(now, flows, cs)
    decreases |cs|
  {
    if k < |cs| - 1 {
      var init := cs[..|cs| - 1];
      assert init[k] == cs[k];
      QueuedHas(now, flows, init, k, f);
    } else {
      assert f in RangeFlows(flows, cs[k]);
    }
  }

  lemma {:induction false} AllQueuedHas(now: nat, flows: map<UdpFlow, u64>, ss: seq<Socket>, k: nat, i: nat, f: UdpFlow)
    requires k < |ss| && Visited(ss[k]) && i < |ss[k].clients|
    requires !KeepClient(now, ss[k].clients[i]) && f in flows && InClientRange(f, ss[k].clients[i])
    ensures f in AllQueued(now, flows, ss)
    decreases |ss|
  {
    if k < |ss| - 1 {
      var init := ss[..|ss| - 1];
      assert init[k] == ss[k];
      AllQueuedHas(now, flows, init, k, i, f);
    } else {
      QueuedHas(now, flows, ss[k].clients, i, f);
    }
  }

  lemma {:induction false} WithoutStep(ss: seq<Socket>, ids: set<u64>, id: u64)
    ensures Without(Without(ss, ids), {id}) == Without(ss, ids + {id})
    decreases |ss|
  {
    if |ss| > 0 {
      WithoutStep(ss[..|ss| - 1], ids, id);
      var w := Without(ss, ids);
      if ss[|ss| - 1].id !in ids {
        assert w[..|w| - 1] == Without(ss[..|ss| - 1], ids);
      } else {
        assert w == Without(ss[..|ss| - 1], ids);
      }
    }
  }

  lemma {:induction false} WithoutUnique(ss: seq<Socket>, ids: set<u64>)
    requires UniqueIds(ss)
    ensures UniqueIds(Without(ss, ids))
    decreases |ss|
  {
    if |ss| > 0 {
      var init := ss[..|ss| - 1];
      assert UniqueIds(init) by {
        forall i, j | 0 <= i < j < |init| ensures init[i].id != init[j].id {
          assert init[i] == ss[i] && init[j] == ss[j];
        }
      }
      WithoutUnique(init, ids);
      var w := Without(ss, ids);
      var wi := Without(init, ids);
      if ss[|ss| - 1].id !in ids {
        forall i, j | 0 <= i < j < |w| ensures w[i].id != w[j].id {
          if j == |wi| {
            assert w[i] == wi[i] && wi[i] in init;
            var k :| 0 <= k < |init| && init[k] == wi[i];
            assert ss[k] == wi[i];
          } else {
            assert w[i] == wi[i] && w[j] == wi[j];
          }
        }
      } else {
        assert w == wi;
      }
    }
  }

  /** With unique ids, looking up a socket's id finds that socket. */
  lemma IndexOfMember(ss: seq<Socket>, x: Socket)
    requires UniqueIds(ss) && x in ss
    ensures IndexOfId(ss, x.id).Some? && ss[IndexOfId(ss, x.id).value] == x
  {
    var k :| 0 <= k < |ss| && ss[k] == x;
    var i := IndexOfId(ss, x.id);
    assert i.Some?;
  }

  lemma AfterRetainUnique(now: nat, ss: seq<Socket>)
    requires UniqueIds(ss)
    ensures UniqueIds(AfterRetain(now, ss))
  {
    var a := AfterRetain(now, ss);
    forall i, j | 0 <= i < j < |a| ensures a[i].id != a[j].id {
      assert a[i].id == ss[i].id && a[j].id == ss[j].id;
    }
  }

  predicate DistinctIds(ids: seq<u64>) {
    forall i, j :: 0 <= i < j < |ids| ==> ids[i] != ids[j]
  }

  lemma {:induction false} ExpiringIdsNoDup(now: nat, ss: seq<Socket>)
    requires UniqueIds(ss)
    ensures DistinctIds(ExpiringIds(now, ss))
    decreases |ss|
  {
    if |ss| > 0 {
      var init := ss[..|ss| - 1];
      assert UniqueIds(init) by {
        forall i, j | 0 <= i < j < |init| ensures init[i].id != init[j].id {
          assert init[i] == ss[i] && init[j] == ss[j];
        }
      }
      ExpiringIdsNoDup(now, init);
      var r := ExpiringIds(now, ss);
      var ri := ExpiringIds(now, init);
      if SocketExpires(now, ss[|ss| - 1]) {
        assert r == ri + [ss[|ss| - 1].id];
        forall i, j | 0 <= i < j < |r| ensures r[i] != r[j] {
          if j == |ri| {
            assert r[i] == ri[i] && IsExpiringId(now, init, ri[i]);
            var k :| 0 <= k < |init| && init[k].id == ri[i] && SocketExpires(now, init[k]);
            assert ss[k] == init[k];
          } else {
            assert r[i] == ri[i] && r[j] == ri[j];
          }
        }
      } else {
        assert r == ri;
      }
    }
  }

  /** An expiring socket not yet removed is still found by its id, empty and of the client
      type (what the last pass of `clear_old` unwraps and asserts). */
  lemma ExpiringStillThere(now: nat, ss: seq<Socket>, removed: set<u64>, id: u64)
    requires UniqueIds(ss) && IsExpiringId(now, ss, id) && id !in removed
    ensures var w := Without(AfterRetain(now, ss), removed);
      IndexOfId(w, id).Some? && w[IndexOfId(w, id).value].clients == [] &&
      w[IndexOfId(w, id).value].socketType == Client
  {
    var k :| 0 <= k < |ss| && ss[k].id == id && SocketExpires(now, ss[k]);
    var a := AfterRetain(now, ss);
    assert a[k] == ss[k];
    AfterRetainUnique(now, ss);
    WithoutUnique(a, removed);
    IndexOfMember(Without(a, removed), ss[k]);
  }

  /** The tunnel socket survives `clear_old` untouched. */
  lemma ClearedKeepsTunnel(now: nat, ss: seq<Socket>, flows: map<UdpFlow, u64>, tunnelSocketId: u64)
    requires TableInv(ss, flows, tunnelSocketId)
    ensures var kt := IndexOfId(ss, tunnelSocketId).value; ss[kt] in ClearedSockets(now, ss)
  {
    var kt := IndexOfId(ss, tunnelSocketId).value;
    var a := AfterRetain(now, ss);
    assert a[kt] == ss[kt];
  }

  /** A socket after `clear_old` is one of the sockets before it after its first pass. */
  lemma ClearedFrom(now: nat, ss: seq<Socket>, x: Socket)
    requires x in ClearedSockets(now, ss)
    ensures exists k :: 0 <= k < |ss| && x == SocketAfter(now, ss[k])
  {
    var a := AfterRetain(now, ss);
    assert x in a;
    var k :| 0 <= k < |a| && a[k] == x;
  }

  /** A socket that does not expire is, after its first pass, found under its id. */
  lemma SurvivesClear(now: nat, ss: seq<Socket>, k: nat)
    requires UniqueIds(ss) && k < |ss| && !SocketExpires(now, ss[k])
    ensures var w := ClearedSockets(now, ss);
      IndexOfId(w, ss[k].id).Some? && w[IndexOfId(w, ss[k].id).value] == SocketAfter(now, ss[k])
  {
    var a := AfterRetain(now, ss);
    var expiring := IdSet(ExpiringIds(now, ss));
    NotExpiringId(now, ss, k);
    assert a[k].id !in expiring;
    AfterRetainUnique(now, ss);
    WithoutUnique(a, expiring);
    assert a[k] in Without(a, expiring);
    IndexOfMember(Without(a, expiring), a[k]);
  }

  lemma NotExpiringId(now: nat, ss: seq<Socket>, k: nat)
    requires UniqueIds(ss) && k < |ss| && !SocketExpires(now, ss[k])
    ensures !IsExpiringId(now, ss, ss[k].id)
  {
  }

  /** A client whose range has a flow that `clear_old` keeps is kept itself. */
  lemma CoveringClientKept(now: nat, ss: seq<Socket>, flows: map<UdpFlow, u64>, f: UdpFlow, k: nat, i: nat)
    requires k < |ss| && Visited(ss[k]) && i < |ss[k].clients| && f in flows && InClientRange(f, ss[k].clients[i])
    requires f in ClearedFlows(now, flows, ss)
    ensures KeepClient(now, ss[k].clients[i])
    ensures Covers(SocketAfter(now, ss[k]).clients, f)
  {
    if !KeepClient(now, ss[k].clients[i]) {
      AllQueuedHas(now, flows, ss, k, i, f);
    }
    var kept := Retained(now, ss[k].clients);
    assert ss[k].clients[i] in kept;
    var j :| 0 <= j < |kept| && kept[j] == ss[k].clients[i];
  }

  /** A flow kept by `clear_old` still names a socket with a client whose range has it. */
  lemma ClearedKeepsFlow(now: nat, ss: seq<Socket>, flows: map<UdpFlow, u64>, f: UdpFlow)
    requires UniqueIds(ss) && TunnelsEmpty(ss) && FlowsCovered(ss, flows)
    requires f in ClearedFlows(now, flows, ss)
    ensures FlowCovered(ClearedSockets(now, ss), ClearedFlows(now, flows, ss), f)
  {
    assert FlowCovered(ss, flows, f);
    var k := IndexOfId(ss, flows[f]).value;
    var i :| 0 <= i < |ss[k].clients| && InClientRange(f, ss[k].clients[i]);
    assert f !in AllQueued(now, flows, ss);
    CoveringClientKept(now, ss, flows, f, k, i);
    SurvivesClear(now, ss, k);
  }

  /** `clear_old` keeps the relay's invariant. */
  lemma ClearedTableInv(now: nat, ss: seq<Socket>, flows: map<UdpFlow, u64>, tunnelSocketId: u64)
    requires TableInv(ss, flows, tunnelSocketId)
    ensures TableInv(ClearedSockets(now, ss), ClearedFlows(now, flows, ss), tunnelSocketId)
  {
    var w := ClearedSockets(now, ss);
    AfterRetainUnique(now, ss);
    WithoutUnique(AfterRetain(now, ss), IdSet(ExpiringIds(now, ss)));
    ClearedKeepsTunnel(now, ss, flows, tunnelSocketId);
    var kt := IndexOfId(ss, tunnelSocketId).value;
    assert IndexOfId(w, tunnelSocketId).Some? by {
      var j :| 0 <= j < |w| && w[j] == ss[kt];
    }
    forall k | 0 <= k < |w|
      ensures (w[k].socketType == Tunnel <==> w[k].id == tunnelSocketId)
      ensures w[k].socketType == Tunnel ==> w[k].clients == []
      ensures Disjoint(w[k].clients)
    {
      ClearedFrom(now, ss, w[k]);
      var j :| 0 <= j < |ss| && w[k] == SocketAfter(now, ss[j]);
      if Visited(ss[j]) {
        RetainedDisjoint(now, ss[j].clients);
      }
    }
    forall f | f in ClearedFlows(now, flows, ss)
      ensures FlowCovered(w, ClearedFlows(now, flows, ss), f)
    {
      ClearedKeepsFlow(now, ss, flows, f);
    }
  }

  /** One more client in the `retain` pass. */
  lemma RetainStep(now: nat, flows: map<UdpFlow, u64>, cs: seq<SocketClient>, i: nat)
    requires i < |cs|
    ensures Retained(now, cs[..i + 1]) == Retained(now, cs[..i]) + (if KeepClient(now, cs[i]) then [cs[i]] else [])
    ensures QueuedFlows(now, flows, cs[..i + 1]) ==
      QueuedFlows(now, flows, cs[..i]) + (if KeepClient(now, cs[i]) then multiset{} else multiset(RangeFlows(flows, cs[i])))
    ensures DroppedHaveFlows(now, flows, cs[..i + 1]) <==>
      DroppedHaveFlows(now, flows, cs[..i]) && (KeepClient(now, cs[i]) || RangeFlows(flows, cs[i]) != {})
  {
    assert cs[..i + 1][..i] == cs[..i];
    assert cs[..i + 1] == cs[..i] + [cs[i]];
  }

  /** The `retain` pass over one socket's clients: the kept clients and the ranges of the
      dropped ones, or `true` where a dropped client has no flow and the source's assertion
      fails. */
  method RetainClients(now: nat, clients: seq<SocketClient>, flows: map<UdpFlow, u64>)
    returns (kept: seq<SocketClient>, queued: multiset<UdpFlow>, panicked: bool)
    ensures !panicked <==> DroppedHaveFlows(now, flows, clients)
    ensures !panicked ==> kept == Retained(now, clients) && queued == QueuedFlows(now, flows, clients)
  {
    kept := [];
    queued := multiset{};
    var i := 0;
    while i < |clients|
      invariant 0 <= i <= |clients|
      invariant kept == Retained(now, clients[..i]) && queued == QueuedFlows(now, flows, clients[..i])
      invariant DroppedHaveFlows(now, flows, clients[..i])
    {
      RetainStep(now, flows, clients, i);
      var c := clients[i];
      if KeepClient(now, c) {
        kept := kept + [c];
      } else {
        var range := RangeFlows(flows, c);
        if range == {} {
          return kept, queued, true;
        }
        queued := queued + multiset(range);
      }
      i := i + 1;
    }
    assert clients[..i] == clients;
    panicked := false;
  }

  /** One more socket in the first pass of `clear_old`. */
  lemma PassStep(now: nat, flows: map<UdpFlow, u64>, ss: seq<Socket>, i: nat)
    requires i < |ss|
    ensures AfterRetain(now, ss[..i + 1]) == AfterRetain(now, ss[..i]) + [SocketAfter(now, ss[i])]
    ensures AllQueued(now, flows, ss[..i + 1]) ==
      AllQueued(now, flows, ss[..i]) + (if Visited(ss[i]) then QueuedFlows(now, flows, ss[i].clients) else multiset{})
    ensures ExpiringIds(now, ss[..i + 1]) == ExpiringIds(now, ss[..i]) + (if SocketExpires(now, ss[i]) then [ss[i].id] else [])
    ensures AssertsHold(now, flows, ss[..i + 1]) <==>
      AssertsHold(now, flows, ss[..i]) && (Visited(ss[i]) ==> DroppedHaveFlows(now, flows, ss[i].clients))
  {
    assert ss[..i + 1][..i] == ss[..i];
    assert ss[..i + 1] == ss[..i] + [ss[i]];
  }

  lemma AssertsHoldAt(now: nat, flows: map<UdpFlow, u64>, ss: seq<Socket>, i: nat)
    requires i < |ss| && Visited(ss[i]) && !DroppedHaveFlows(now, flows, ss[i].clients)
    ensures !AssertsHold(now, flows, ss)
  {
  }

  /** The first pass of `clear_old` over the sockets in slab order, on values: the sockets'
      clients retained, the flows and the sockets queued for removal, or `true` where a
      dropped client has no flow. */
  method RetainPass(now: nat, ss: seq<Socket>, flows: map<UdpFlow, u64>)
    returns (after: seq<Socket>, queuedFlows: multiset<UdpFlow>, queuedSockets: seq<u64>, panicked: bool)
    ensures !panicked <==> AssertsHold(now, flows, ss)
    ensures !panicked ==> (after == AfterRetain(now, ss) && queuedFlows == AllQueued(now, flows, ss) &&
      queuedSockets == ExpiringIds(now, ss))
  {
    after := [];
    queuedFlows := multiset{};
    queuedSockets := [];
    var i := 0;
    while i < |ss|
      invariant 0 <= i <= |ss|
      invariant after == AfterRetain(now, ss[..i]) && queuedFlows == AllQueued(now, flows, ss[..i])
      invariant queuedSockets == ExpiringIds(now, ss[..i]) && AssertsHold(now, flows, ss[..i])
    {
      PassStep(now, flows, ss, i);
      var socket := ss[i];
      if socket.socketType == Client && |socket.clients| == 0 {
        if 60_000 < Elapsed(now, socket.emptyAt) {
          queuedSockets := queuedSockets + [socket.id];
        }
        after := after + [socket];
      } else if socket.socketType == Client {
        var kept, queued, failed := RetainClients(now, socket.clients, flows);
        if failed {
          AssertsHoldAt(now, flows, ss, i);
          return after, queuedFlows, queuedSockets, true;
        }
        queuedFlows := queuedFlows + queued;
        after := after + [socket.(clients := kept, emptyAt := if |kept| == 0 then now else socket.emptyAt)];
      } else {
        after := after + [socket];
      }
      i := i + 1;
    }
    assert ss[..i] == ss;
    panicked := false;
  }

  /** The second pass: every queued flow leaves the map, in any order; `true` when a flow
      is queued twice, where the source panics on its second removal. */
  method RemoveFlows(flows: map<UdpFlow, u64>, queued: multiset<UdpFlow>)
    returns (remaining: map<UdpFlow, u64>, panicked: bool)
    requires forall f :: f in queued ==> f in flows
    ensures !panicked <==> NoRepeats(queued)
    ensures !panicked ==> remaining == flows - (set f | f in queued)
  {
    remaining := flows;
    var rest := queued;
    ghost var done: multiset<UdpFlow> := multiset{};
    while rest != multiset{}
      invariant done + rest == queued && NoRepeats(done)
      invariant remaining == flows - (set f | f in done)
      decreases |rest|
    {
      var f :| f in rest;
      if f !in remaining {
        assert queued[f] >= 2;
        return remaining, true;
      }
      remaining := remaining - {f};
      rest := rest - multiset{f};
      done := done + multiset{f};
    }
    assert done == queued;
    panicked := false;
  }

  lemma IdSetSnoc(ids: seq<u64>, j: nat)
    requires j < |ids|
    ensures IdSet(ids[..j + 1]) == IdSet(ids[..j]) + {ids[j]}
  {
    assert ids[..j + 1] == ids[..j] + [ids[j]];
  }

  /** One more socket removed in the last pass of `clear_old`. */
  lemma RemoveSocketStep(now: nat, ss: seq<Socket>, ids: seq<u64>, j: nat)
    requires UniqueIds(ss) && ids == ExpiringIds(now, ss) && DistinctIds(ids) && j < |ids|
    ensures var w := Without(AfterRetain(now, ss), IdSet(ids[..j]));
      IndexOfId(w, ids[j]).Some? && w[IndexOfId(w, ids[j]).value].clients == [] &&
      w[IndexOfId(w, ids[j]).value].socketType == Client &&
      Without(w, {ids[j]}) == Without(AfterRetain(now, ss), IdSet(ids[..j + 1]))
  {
    var removed := IdSet(ids[..j]);
    assert ids[j] !in removed;
    ExpiringStillThere(now, ss, removed, ids[j]);
    WithoutStep(AfterRetain(now, ss), removed, ids[j]);
    IdSetSnoc(ids, j);
  }

  /** The last pass: the queued sockets leave the slab, each found by its id, empty and of
      the client type, as the source unwraps and asserts. */
  method RemoveSockets(now: nat, ss: seq<Socket>, ids: seq<u64>) returns (remaining: seq<Socket>)
    requires UniqueIds(ss) && ids == ExpiringIds(now, ss)
    ensures remaining == ClearedSockets(now, ss)
  {
    ExpiringIdsNoDup(now, ss);
    var after := AfterRetain(now, ss);
    remaining := Without(after, {});
    assert IdSet(ids[..0]) == {};
    var j := 0;
    while j < |ids|
      invariant 0 <= j <= |ids|
      invariant remaining == Without(after, IdSet(ids[..j]))
    {
      var id := ids[j];
      RemoveSocketStep(now, ss, ids, j);
      var k := IndexOfId(remaining, id);
      assert k.Some? && remaining[k.value].clients == [] && remaining[k.value].socketType == Client;
      remaining := Without(remaining, {id});
      j := j + 1;
    }
    assert ids[..j] == ids;
  }

  // ---------------------------------------------------------------------------
  // Forwarding a tunneled packet to its origin
  // ---------------------------------------------------------------------------

  /** What the address lookup finds for a new flow's destination: the tunnel, its origin and
      PROXY protocol setting, and the tunnel's port range `[fromPort, toPort)`. */
  datatype FoundTunnel = FoundTunnel(
    tunnelId: nat,
    hostAddr: SocketAddr,
    proxyProtocol: Option<OriginLookups.ProxyProtocol>,
    fromPort: u16,
    toPort: u16)

  /** Why a packet of a flow without a socket is dropped. `PortOutsideFound` is where the
      source's asserts on the found range panic. */
  datatype PlaceError = TunnelMissing | PortOutsideFound | SocketLimit | SocketSetupFailed

  datatype ForwardOutcome =
    | Dropped(error: PlaceError)
    | Forwarded(socketId: u64, target: SocketAddr, sendsProxyHeader: bool)

  predicate UsesProxyV2(found: FoundTunnel) {
    found.proxyProtocol == Some(OriginLookups.ProxyProtocolV2)
  }

  function ResourceOf(found: FoundTunnel): HostResource {
    HostResource(found.hostAddr, found.fromPort, found.toPort)
  }

  /** A socket that takes a new client for `r`: a client socket (the tunnel socket never
      relays for clients) none of whose clients overlaps `r`. */
  predicate Accepts(s: Socket, r: HostResource) {
    s.socketType == Client && CanAdd(s.clients, r)
  }

  /** The socket a new client goes to: the first that accepts it. */
  function ChooseSocket(ss: seq<Socket>, r: HostResource): (k: Option<nat>)
    ensures k.Some? ==> k.value < |ss| && Accepts(ss[k.value], r)
    ensures k.Some? ==> forall j :: 0 <= j < k.value ==> !Accepts(ss[j], r)
    ensures k.None? <==> forall j :: 0 <= j < |ss| ==> !Accepts(ss[j], r)
  {
    ChooseSocketFrom(ss, r, 0)
  }

  function ChooseSocketFrom(ss: seq<Socket>, r: HostResource, from: nat): (k: Option<nat>)
    requires from <= |ss|
    ensures k.Some? ==> from <= k.value < |ss| && Accepts(ss[k.value], r)
    ensures k.Some? ==> forall j :: from <= j < k.value ==> !Accepts(ss[j], r)
    ensures k.None? <==> forall j :: from <= j < |ss| ==> !Accepts(ss[j], r)
    decreases |ss| - from
  {
    if from == |ss| then None
    else if Accepts(ss[from], r) then Some(from)
    else ChooseSocketFrom(ss, r, from + 1)
  }

  /** The table with `c` pushed onto the clients of the socket at `k`. */
  function AddClient(ss: seq<Socket>, k: nat, c: SocketClient): seq<Socket>
    requires k < |ss|
  {
    ss[k := ss[k].(clients := ss[k].clients + [c])]
  }

  /** The table with a new socket placed at `pos`, where its slab entry falls in iteration order. */
  function InsertSocket(ss: seq<Socket>, pos: nat, s: Socket): seq<Socket>
    requires pos <= |ss|
  {
    ss[..pos] + [s] + ss[pos..]
  }

  /** The new client for a flow without a socket, and the table and socket id once it is
      placed: on the first socket that accepts it, or else on a new client socket under the
      slab's free id (`newSocketId`, none at the socket limit) when the socket is set up. */
  function PlaceNewClient(ss: seq<Socket>, flow: UdpFlow, found: Option<FoundTunnel>, now: nat,
                          newSocketId: Option<u64>, newSocketPos: nat, socketSetUp: bool)
    : (r: Result<(seq<Socket>, u64), PlaceError>)
    requires newSocketPos <= |ss|
    ensures r == Err(TunnelMissing) <==> found.None?
    ensures r == Err(PortOutsideFound) <==>
      found.Some? && !(found.value.fromPort <= Dst(flow).Port() < found.value.toPort)
    ensures r.Ok? ==> found.Some? && found.value.fromPort <= Dst(flow).Port() < found.value.toPort
    ensures r.Ok? && ChooseSocket(ss, ResourceOf(found.value)).Some? ==>
      var k := ChooseSocket(ss, ResourceOf(found.value)).value;
      r.value.1 == ss[k].id && r.value.0 ==
        AddClient(ss, k, NewClient(flow, found.value.tunnelId, ResourceOf(found.value), UsesProxyV2(found.value), now))
    ensures (found.Some? && found.value.fromPort <= Dst(flow).Port() < found.value.toPort &&
      ChooseSocket(ss, ResourceOf(found.value)).None?) ==>
      (r == Err(SocketLimit) <==> newSocketId.None?) &&
      (r == Err(SocketSetupFailed) <==> newSocketId.Some? && !socketSetUp) &&
      (r.Ok? ==> r.value.1 == newSocketId.value && r.value.0 == InsertSocket(ss, newSocketPos,
        Socket(newSocketId.value,
          [NewClient(flow, found.value.tunnelId, ResourceOf(found.value), UsesProxyV2(found.value), now)],
          Client, now)))
  {
    if found.None? then Err(TunnelMissing)
    else if !(found.value.fromPort <= Dst(flow).Port() < found.value.toPort) then Err(PortOutsideFound)
    else
      var res := ResourceOf(found.value);
      var c := NewClient(flow, found.value.tunnelId, res, UsesProxyV2(found.value), now);
      match ChooseSocket(ss, res)
      case Some(k) => Ok((AddClient(ss, k, c), ss[k].id))
      case None =>
        if newSocketId.None? then Err(SocketLimit)
        else if !socketSetUp then Err(SocketSetupFailed)
        else Ok((InsertSocket(ss, newSocketPos, Socket(newSocketId.value, [c], Client, now)), newSocketId.value))
  }

  /** The socket and client `get_client_mut` finds for a flow mapped to socket `id`. */
  function ServedClient(ss: seq<Socket>, id: u64, flow: UdpFlow): (r: Option<(nat, nat)>)
    ensures r.Some? ==> (r.value.0 < |ss| && ss[r.value.0].id == id &&
      r.value.1 < |ss[r.value.0].clients| && ServesFlow(ss[r.value.0].clients[r.value.1], flow))
  {
    match IndexOfId(ss, id)
    case None => None
    case Some(k) =>
      match GetClient(ss[k].clients, flow)
      case None => None
      case Some(i) => Some((k, i))
  }

  /** When a PROXY protocol v2 header goes out before the packet: the client uses it, has not
      heard from the origin in the last 15 seconds and has not been sent one in the last 2. */
  predicate ProxyHeaderDue(now: nat, c: SocketClient) {
    c.usesProxyProtocol &&
    (c.lastHostActivity.None? || 15_000 <= Elapsed(now, c.lastHostActivity.value)) &&
    (c.lastProxyPacket.None? || 2_000 <= Elapsed(now, c.lastProxyPacket.value))
  }

  /** A client after a tunneled packet: its tunnel activity is now, and so is its last
      header when one was sent. */
  function Touched(now: nat, c: SocketClient, headerSent: bool): (t: SocketClient)
    ensures t.resource == c.resource && t.tunnelFlow == c.tunnelFlow
    ensures t.lastTunnelActivity == now && t.lastHostActivity == c.lastHostActivity
    ensures t.lastProxyPacket == (if headerSent then Some(now) else c.lastProxyPacket)
  {
    c.(lastTunnelActivity := now, lastProxyPacket := if headerSent then Some(now) else c.lastProxyPacket)
  }

  function TouchClient(ss: seq<Socket>, k: nat, i: nat, now: nat, headerSent: bool): seq<Socket>
    requires k < |ss| && i < |ss[k].clients|
  {
    ss[k := ss[k].(clients := ss[k].clients[i := Touched(now, ss[k].clients[i], headerSent)])]
  }

  /** A new client that uses PROXY protocol v2 is sent a header with its first packet. */
  lemma NewClientGetsHeader(flow: UdpFlow, tunnelId: nat, resource: HostResource, now: nat)
    ensures ProxyHeaderDue(now, NewClient(flow, tunnelId, resource, true, now))
    ensures !ProxyHeaderDue(now, NewClient(flow, tunnelId, resource, false, now))
  {
  }

  /** A header is sent at most once every two seconds, and never while the origin has been
      heard from in the last 15. */
  lemma HeaderRateLimited(now: nat, later: nat, c: SocketClient)
    requires now <= later < now + 2_000
    ensures !ProxyHeaderDue(later, Touched(now, c, true))
    ensures c.lastHostActivity.Some? && c.lastHostActivity.value <= later < c.lastHostActivity.value + 15_000 ==>
      !ProxyHeaderDue(later, c)
  {
  }

  /** Tables with the same ids at the same places find every id at the same place. */
  lemma {:induction false} SameIdsSameIndex(ss: seq<Socket>, ss2: seq<Socket>, id: u64)
    requires |ss| == |ss2| && forall k :: 0 <= k < |ss| ==> ss2[k].id == ss[k].id
    ensures IndexOfId(ss2, id) == IndexOfId(ss, id)
    decreases |ss|
  {
    if |ss| > 0 && ss[|ss| - 1].id != id {
      SameIdsSameIndex(ss[..|ss| - 1], ss2[..|ss| - 1], id);
    }
  }

  /** Pushing a client for `f` onto a socket that accepts it keeps the invariant with `f`
      mapped to that socket. */
  lemma AddClientInv(ss: seq<Socket>, flows: map<UdpFlow, u64>, tunnelSocketId: u64, k: nat, c: SocketClient, f: UdpFlow)
    requires TableInv(ss, flows, tunnelSocketId)
    requires k < |ss| && Accepts(ss[k], c.resource) && InClientRange(f, c)
    ensures TableInv(AddClient(ss, k, c), flows[f := ss[k].id], tunnelSocketId)
  {
    var ss2 := AddClient(ss, k, c);
    var flows2 := flows[f := ss[k].id];
    forall id: u64 ensures IndexOfId(ss2, id) == IndexOfId(ss, id) {
      SameIdsSameIndex(ss, ss2, id);
    }
    PushKeepsDisjoint(ss[k].clients, c);
    assert ss2[k].clients[|ss[k].clients|] == c;
    forall g | g in flows2 ensures FlowCovered(ss2, flows2, g) {
      if g == f {
        IndexOfMember(ss, ss[k]);
      } else {
        assert FlowCovered(ss, flows, g);
        var j := IndexOfId(ss, flows[g]).value;
        if j == k {
          var i :| 0 <= i < |ss[k].clients| && InClientRange(g, ss[k].clients[i]);
          assert ss2[k].clients[i] == ss[k].clients[i];
        }
      }
    }
  }

  /** A new socket, under an id not in use, holding one client for `f` keeps the invariant
      with `f` mapped to it. */
  /** Inserting a socket under an unused id keeps the ids unique and every socket in place. */
  lemma InsertSocketKeeps(ss: seq<Socket>, pos: nat, s: Socket)
    requires UniqueIds(ss) && pos <= |ss| && IndexOfId(ss, s.id).None?
    ensures UniqueIds(InsertSocket(ss, pos, s))
    ensures s in InsertSocket(ss, pos, s)
    ensures forall x :: x in ss ==> x in InsertSocket(ss, pos, s)
    ensures forall k :: 0 <= k < |InsertSocket(ss, pos, s)| ==> InsertSocket(ss, pos, s)[k] in ss || InsertSocket(ss, pos, s)[k] == s
  {
    var ss2 := InsertSocket(ss, pos, s);
    // The place in `ss` of each socket of `ss2` other than the new one.
    assert forall j :: 0 <= j < |ss2| && j != pos ==> ss2[j] == ss[if j < pos then j else j - 1];
    assert ss2[pos] == s;
    forall i, j | 0 <= i < j < |ss2| ensures ss2[i].id != ss2[j].id {
      if i != pos && j != pos {
        assert ss2[i] == ss[if i < pos then i else i - 1];
        assert ss2[j] == ss[if j < pos then j else j - 1];
      }
    }
    forall x | x in ss ensures x in ss2 {
      var j :| 0 <= j < |ss| && ss[j] == x;
      if j < pos { assert ss2[j] == x; } else { assert ss2[j + 1] == x; }
    }
  }

  lemma InsertSocketInv(ss: seq<Socket>, flows: map<UdpFlow, u64>, tunnelSocketId: u64, pos: nat, s: Socket, f: UdpFlow)
    requires TableInv(ss, flows, tunnelSocketId) && pos <= |ss|
    requires IndexOfId(ss, s.id).None? && s.socketType == Client
    requires |s.clients| == 1 && InClientRange(f, s.clients[0])
    ensures TableInv(InsertSocket(ss, pos, s), flows[f := s.id], tunnelSocketId)
  {
    var ss2 := InsertSocket(ss, pos, s);
    var flows2 := flows[f := s.id];
    InsertSocketKeeps(ss, pos, s);
    var tunnel := ss[IndexOfId(ss, tunnelSocketId).value];
    IndexOfMember(ss2, tunnel);
    IndexOfMember(ss2, s);
    assert forall k :: 0 <= k < |ss2| ==> ss2[k] in ss || ss2[k] == s;
    forall g | g in flows2 ensures FlowCovered(ss2, flows2, g) {
      if g != f {
        assert FlowCovered(ss, flows, g);
        IndexOfMember(ss2, ss[IndexOfId(ss, flows[g]).value]);
      }
    }
  }

  /** Placing a new client keeps the invariant, with its flow mapped to the socket it went to. */
  lemma PlaceNewClientInv(ss: seq<Socket>, flows: map<UdpFlow, u64>, tunnelSocketId: u64, flow: UdpFlow,
                          found: Option<FoundTunnel>, now: nat, newSocketId: Option<u64>, newSocketPos: nat, socketSetUp: bool)
    requires TableInv(ss, flows, tunnelSocketId) && newSocketPos <= |ss|
    requires newSocketId.Some? ==> IndexOfId(ss, newSocketId.value).None?
    requires PlaceNewClient(ss, flow, found, now, newSocketId, newSocketPos, socketSetUp).Ok?
    ensures var (ss2, id) := PlaceNewClient(ss, flow, found, now, newSocketId, newSocketPos, socketSetUp).value;
      TableInv(ss2, flows[flow := id], tunnelSocketId)
  {
    var res := ResourceOf(found.value);
    var c := NewClient(flow, found.value.tunnelId, res, UsesProxyV2(found.value), now);
    NewClientHoldsFlow(flow, found.value.tunnelId, res, UsesProxyV2(found.value), now);
    match ChooseSocket(ss, res)
    case Some(k) =>
      AddClientInv(ss, flows, tunnelSocketId, k, c, flow);
    case None =>
      InsertSocketInv(ss, flows, tunnelSocketId, newSocketPos, Socket(newSocketId.value, [c], Client, now), flow);
  }

  /** Under the invariant every mapped flow finds its socket and a client that serves it: the
      two panicking unwraps after the lookup never fire. */
  lemma MappedFlowServed(ss: seq<Socket>, flows: map<UdpFlow, u64>, tunnelSocketId: u64, f: UdpFlow)
    requires TableInv(ss, flows, tunnelSocketId) && f in flows
    ensures ServedClient(ss, flows[f], f).Some?
  {
    assert FlowCovered(ss, flows, f);
    var k := IndexOfId(ss, flows[f]).value;
    var i :| 0 <= i < |ss[k].clients| && InClientRange(f, ss[k].clients[i]);
    RangeFlowServed(f, ss[k].clients[i]);
  }

  /** Refreshing a client's times keeps the invariant: its resource and player are unchanged. */
  lemma TouchClientInv(ss: seq<Socket>, flows: map<UdpFlow, u64>, tunnelSocketId: u64, k: nat, i: nat, now: nat, headerSent: bool)
    requires TableInv(ss, flows, tunnelSocketId) && k < |ss| && i < |ss[k].clients|
    ensures TableInv(TouchClient(ss, k, i, now, headerSent), flows, tunnelSocketId)
  {
    var ss2 := TouchClient(ss, k, i, now, headerSent);
    forall id: u64 ensures IndexOfId(ss2, id) == IndexOfId(ss, id) {
      SameIdsSameIndex(ss, ss2, id);
    }
    assert forall j :: 0 <= j < |ss[k].clients| ==> ss2[k].clients[j].resource == ss[k].clients[j].resource;
    assert Disjoint(ss2[k].clients);
    forall g | g in flows ensures FlowCovered(ss2, flows, g) {
      assert FlowCovered(ss, flows, g);
      var j := IndexOfId(ss, flows[g]).value;
      if j == k {
        var w :| 0 <= w < |ss[k].clients| && InClientRange(g, ss[k].clients[w]);
        assert InClientRange(g, ss2[k].clients[w]);
      }
    }
  }

  class UdpClients {
    var sockets: seq<Socket>
    var flowToSocketId: map<UdpFlow, u64>
    const tunnelSocketId: u64

    ghost predicate Valid()
      reads this
    {
      TableInv(sockets, flowToSocketId, tunnelSocketId)
    }

    /** `new`: the tunnel socket alone, under the id its slab entry got, and no flows. */
    constructor (tunnelId: u64, now: nat)
      ensures Valid() && tunnelSocketId == tunnelId
      ensures sockets == [Socket(tunnelId, [], Tunnel, now)] && flowToSocketId == map[]
    {
      tunnelSocketId := tunnelId;
      sockets := [Socket(tunnelId, [], Tunnel, now)];
      flowToSocketId := map[];
    }

    /** `clear_old`: the three passes in turn. `panicked` is where the source panics: a
        dropped client without a flow, or a flow queued twice. */
    method ClearOld(now: nat) returns (panicked: bool)
      requires Valid()
      modifies this
      ensures !panicked <==> (AssertsHold(now, old(flowToSocketId), old(sockets)) &&
        NoRepeats(AllQueued(now, old(flowToSocketId), old(sockets))))
      ensures !panicked ==> sockets == ClearedSockets(now, old(sockets))
      ensures !panicked ==> flowToSocketId == ClearedFlows(now, old(flowToSocketId), old(sockets))
      ensures !panicked ==> Valid()
    {
      ghost var sockets0 := sockets;
      var after, queuedFlows, queuedSockets, failed := RetainPass(now, sockets, flowToSocketId);
      if failed {
        return true;
      }
      ClearedTableInv(now, sockets, flowToSocketId, tunnelSocketId);
      AllQueuedInMap(now, flowToSocketId, sockets);
      var remaining, twice := RemoveFlows(flowToSocketId, queuedFlows);
      if twice {
        return true;
      }
      flowToSocketId := remaining;
      sockets := RemoveSockets(now, sockets, queuedSockets);
      panicked := false;
    }

    /** The part of `forward_packet_to_origin` after the flow has its socket `id`: the client
        that serves the flow gets its times refreshed, and the packet goes to its target,
        after a header when one is due and a packet buffer is free. */
    method Deliver(now: nat, flow: UdpFlow, packetFree: bool) returns (outcome: ForwardOutcome)
      requires Valid() && flow in flowToSocketId
      modifies this
      ensures Valid() && flowToSocketId == old(flowToSocketId)
      ensures outcome.Forwarded? && outcome.socketId == flowToSocketId[flow]
      ensures ServedClient(old(sockets), outcome.socketId, flow).Some?
      ensures var ki := ServedClient(old(sockets), outcome.socketId, flow).value;
        var k, i := ki.0, ki.1;
        var c := old(sockets)[k].clients[i];
        outcome.target == TargetAddr(c.resource, Dst(flow).Port()) &&
        (outcome.sendsProxyHeader <==> ProxyHeaderDue(now, c) && packetFree) &&
        sockets == TouchClient(old(sockets), k, i, now, outcome.sendsProxyHeader)
    {
      var id := flowToSocketId[flow];
      MappedFlowServed(sockets, flowToSocketId, tunnelSocketId, flow);
      var ki := ServedClient(sockets, id, flow).value;
      var k, i := ki.0, ki.1;
      var c := sockets[k].clients[i];
      var headerSent := ProxyHeaderDue(now, c) && packetFree;
      TouchClientInv(sockets, flowToSocketId, tunnelSocketId, k, i, now, headerSent);
      sockets := TouchClient(sockets, k, i, now, headerSent);
      outcome := Forwarded(id, TargetAddr(c.resource, Dst(flow).Port()), headerSent);
    }

    /** `forward_packet_to_origin`: a known flow goes to its socket; a new one is placed as
        `PlaceNewClient` says and mapped to its socket, or the packet is dropped. The client
        that serves the flow is refreshed, and the packet goes to its target on the origin,
        after a PROXY header when one is due and a packet buffer is free (`packetFree`). */
    method ForwardPacketToOrigin(now: nat, flow: UdpFlow, found: Option<FoundTunnel>,
                                 newSocketId: Option<u64>, newSocketPos: nat, socketSetUp: bool, packetFree: bool)
      returns (outcome: ForwardOutcome)
      requires Valid()
      requires newSocketPos <= |sockets|
      requires newSocketId.Some? ==> IndexOfId(sockets, newSocketId.value).None?
      modifies this
      ensures Valid()
      ensures flow in old(flowToSocketId) ==> outcome.Forwarded? && outcome.socketId == old(flowToSocketId)[flow]
      ensures flow !in old(flowToSocketId) ==>
        var placed := PlaceNewClient(old(sockets), flow, found, now, newSocketId, newSocketPos, socketSetUp);
        (outcome.Dropped? <==> placed.Err?) &&
        (placed.Err? ==> outcome.error == placed.error && sockets == old(sockets) && flowToSocketId == old(flowToSocketId)) &&
        (placed.Ok? ==> outcome.socketId == placed.value.1)
      ensures outcome.Forwarded? ==> flowToSocketId == old(flowToSocketId)[flow := outcome.socketId]
      ensures outcome.Forwarded? ==>
        var before := if flow in old(flowToSocketId) then old(sockets)
          else PlaceNewClient(old(sockets), flow, found, now, newSocketId, newSocketPos, socketSetUp).value.0;
        ServedClient(before, outcome.socketId, flow).Some? &&
        (var (k, i) := ServedClient(before, outcome.socketId, flow).value;
         var c := before[k].clients[i];
         outcome.target == TargetAddr(c.resource, Dst(flow).Port()) &&
         (outcome.sendsProxyHeader <==> ProxyHeaderDue(now, c) && packetFree) &&
         sockets == TouchClient(before, k, i, now, outcome.sendsProxyHeader))
    {
      if flow !in flowToSocketId {
        var placed := PlaceNewClient(sockets, flow, found, now, newSocketId, newSocketPos, socketSetUp);
        if placed.Err? {
          return Dropped(placed.error);
        }
        PlaceNewClientInv(sockets, flowToSocketId, tunnelSocketId, flow, found, now, newSocketId, newSocketPos, socketSetUp);
        sockets, flowToSocketId := placed.value.0, flowToSocketId[flow := placed.value.1];
      } else {
        assert flowToSocketId[flow := flowToSocketId[flow]] == flowToSocketId;
      }
      outcome := Deliver(now, flow, packetFree);
    }
  }
}
