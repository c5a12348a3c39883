/** The shared crate's tunnel messages: claim protocols, the request upgrade from the
    v4-only claim, the version-neutral client and channel records, and `abs_diff`. */
module CommonLib {
  import opened Ints
  import opened Net

  datatype ClaimProto = Udp | Tcp | Both
  datatype Proto = ProtoUdp | ProtoTcp

  /** `has_tcp`: false only for `Udp`. */
  function HasTcp(p: ClaimProto): (r: bool)
    ensures r <==> p != Udp
  {
    match p
    case Udp => false
    case Tcp => true
    case Both => true
  }

  /** `has_udp`: false only for `Tcp`. */
  function HasUdp(p: ClaimProto): (r: bool)
    ensures r <==> p != Tcp
  {
    match p
    case Udp => true
    case Tcp => false
    case Both => true
  }

  /** Every protocol carries at least one of the two, and only `Both` carries both. */
  lemma ClaimProtoCoverage(p: ClaimProto)
    ensures HasTcp(p) || HasUdp(p)
    ensures HasTcp(p) && HasUdp(p) <==> p == Both
  {
  }

  datatype ClaimLeaseV4 = ClaimLeaseV4(ip: Ipv4Addr, fromPort: u16, toPort: u16, proto: ClaimProto)
  datatype ClaimLease = ClaimLease(ip: IpAddr, fromPort: u16, toPort: u16, proto: ClaimProto)

  /** `From<ClaimLeaseV4> for ClaimLease`. */
  function ClaimLeaseFromV4(c: ClaimLeaseV4): (r: ClaimLease)
    ensures r.ip == V4(c.ip) && r.fromPort == c.fromPort && r.toPort == c.toPort && r.proto == c.proto
  {
    ClaimLease(V4(c.ip), c.fromPort, c.toPort, c.proto)
  }

  datatype TunnelPing = TunnelPing(id: u64)

  datatype TunnelRequest =
    | Ping(ping: TunnelPing)
    | RegisterAgent
    | KeepAlive
    | ClaimLeaseReq(claimV4: ClaimLeaseV4)
    | SetupUdpChannel
    | ClaimLeaseV2(claim: ClaimLease)

  /** `upgrade`: a v4-only claim becomes the version-neutral one with the same fields; any
      other request is kept. */
  function Upgrade(r: TunnelRequest): (u: TunnelRequest)
    ensures !u.ClaimLeaseReq?
    ensures r.ClaimLeaseReq? ==> u == ClaimLeaseV2(ClaimLeaseFromV4(r.claimV4))
    ensures !r.ClaimLeaseReq? ==> u == r
  {
    match r
    case ClaimLeaseReq(claim) => ClaimLeaseV2(ClaimLeaseFromV4(claim))
    case _ => r
  }

  /** Upgrading twice is upgrading once, and an upgraded claim still says which v4 claim it
      came from. */
  lemma UpgradeIdempotent(r: TunnelRequest)
    ensures Upgrade(Upgrade(r)) == Upgrade(r)
  {
  }

  lemma UpgradeInjective(a: TunnelRequest, b: TunnelRequest)
    requires Upgrade(a) == Upgrade(b) && a.ClaimLeaseReq? && b.ClaimLeaseReq?
    ensures a == b
  {
    assert ClaimLeaseFromV4(a.claimV4).ip == V4(a.claimV4.ip);
    assert ClaimLeaseFromV4(b.claimV4).ip == V4(b.claimV4.ip);
  }

  datatype ClaimInstructionVersioned =
    | Tcp4(address4: SocketAddrV4, token4: seq<u8>)
    | Tcp6(address6: SocketAddrV6, token6: seq<u8>)

  datatype ClaimInstruction = ClaimInstruction(address: SocketAddr, token: seq<u8>)

  /** `into_instruction`: the address of either family and the token. */
  function IntoInstruction(c: ClaimInstructionVersioned): (r: ClaimInstruction)
    ensures c.Tcp4? ==> r.address == SockV4(c.address4) && r.token == c.token4
    ensures c.Tcp6? ==> r.address == SockV6(c.address6) && r.token == c.token6
  {
    match c
    case Tcp4(address, token) => ClaimInstruction(SockV4(address), token)
    case Tcp6(address, token) => ClaimInstruction(SockV6(address), token)
  }

  /** Nothing is lost: the instruction determines the versioned value. */
  lemma IntoInstructionInjective(a: ClaimInstructionVersioned, b: ClaimInstructionVersioned)
    requires IntoInstruction(a) == IntoInstruction(b)
    ensures a == b
  {
  }

  datatype NewClientV4 = NewClientV4(connectAddr: SocketAddrV4, peerAddr: SocketAddrV4,
    claimInstructions: ClaimInstructionVersioned, fromTunnelServer: string)
  datatype NewClientV6 = NewClientV6(connectAddr: SocketAddrV6, peerAddr: SocketAddrV6,
    claimInstructions: ClaimInstructionVersioned, fromTunnelServer: string)
  datatype NewClient = NewClient(connectAddr: SocketAddr, peerAddr: SocketAddr,
    claimInstructions: ClaimInstructionVersioned, fromTunnelServer: string)

  /** `From<NewClientV4> for NewClient`. */
  function NewClientFromV4(c: NewClientV4): (r: NewClient)
    ensures r.connectAddr == SockV4(c.connectAddr) && r.peerAddr == SockV4(c.peerAddr)
    ensures r.claimInstructions == c.claimInstructions && r.fromTunnelServer == c.fromTunnelServer
  {
    NewClient(SockV4(c.connectAddr), SockV4(c.peerAddr), c.claimInstructions, c.fromTunnelServer)
  }

  /** `From<NewClientV6> for NewClient`. */
  function NewClientFromV6(c: NewClientV6): (r: NewClient)
    ensures r.connectAddr == SockV6(c.connectAddr) && r.peerAddr == SockV6(c.peerAddr)
    ensures r.claimInstructions == c.claimInstructions && r.fromTunnelServer == c.fromTunnelServer
  {
    NewClient(SockV6(c.connectAddr), SockV6(c.peerAddr), c.claimInstructions, c.fromTunnelServer)
  }

  /** The two conversions lose nothing and never meet: the result says which family it came
      from and every field. */
  lemma NewClientConversionsInjective(a: NewClientV4, b: NewClientV4, c: NewClientV6, d: NewClientV6)
    ensures NewClientFromV4(a) == NewClientFromV4(b) ==> a == b
    ensures NewClientFromV6(c) == NewClientFromV6(d) ==> c == d
    ensures NewClientFromV4(a) != NewClientFromV6(c)
  {
  }

  datatype SetupUdpChannelDetailsV4 = SetupUdpChannelDetailsV4(tunnelAddr: SocketAddrV4, token: seq<u8>)
  datatype SetupUdpChannelDetailsV6 = SetupUdpChannelDetailsV6(tunnelAddr: SocketAddrV6, token: seq<u8>)
  datatype SetupUdpChannelDetails = SetupUdpChannelDetails(tunnelAddr: SocketAddr, token: seq<u8>)

  function DetailsFromV4(d: SetupUdpChannelDetailsV4): (r: SetupUdpChannelDetails)
    ensures r.tunnelAddr == SockV4(d.tunnelAddr) && r.token == d.token
  {
    SetupUdpChannelDetails(SockV4(d.tunnelAddr), d.token)
  }

  function DetailsFromV6(d: SetupUdpChannelDetailsV6): (r: SetupUdpChannelDetails)
    ensures r.tunnelAddr == SockV6(d.tunnelAddr) && r.token == d.token
  {
    SetupUdpChannelDetails(SockV6(d.tunnelAddr), d.token)
  }

  lemma DetailsConversionsInjective(a: SetupUdpChannelDetailsV4, b: SetupUdpChannelDetailsV4,
                                    c: SetupUdpChannelDetailsV6, d: SetupUdpChannelDetailsV6)
    ensures DetailsFromV4(a) == DetailsFromV4(b) ==> a == b
    ensures DetailsFromV6(c) == DetailsFromV6(d) ==> c == d
    ensures DetailsFromV4(a) != DetailsFromV6(c)
  {
  }

  /** `abs_diff`: the larger minus the smaller, so it never underflows. */
  function AbsDiff(a: u64, b: u64): (r: u64)
    ensures a > b ==> r == a - b
    ensures a <= b ==> r == b - a
  {
    if a > b then a - b else b - a
  }

  /** `abs_diff` is symmetric, zero exactly on equal arguments, and the distance on the
      integer line. */
  lemma AbsDiffProperties(a: u64, b: u64)
    ensures AbsDiff(a, b) == AbsDiff(b, a)
    ensures AbsDiff(a, b) == 0 <==> a == b
    ensures AbsDiff(a, b) <= a || AbsDiff(a, b) <= b
    ensures a + AbsDiff(a, b) == b || b + AbsDiff(a, b) == a
  {
  }
}
