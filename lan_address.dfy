/** The local source address used to reach an origin on the loopback interface: every peer
    is mapped to its own address in 127.0.0.0/8, so that a game server can ban players by
    ip, and a udp peer to a port that stays the same across agent restarts. */
module LanAddresses {
  import opened Ints
  import opened Net
  import opened Wrappers
  import opened Shuffles

  const TWO_24: nat := 0x100_0000

  /** `as_local_masked`: the low 24 bits of the shuffled value, 1 if those are all zero,
      under the 127 network. (The source's `& 0x00FFFFFF` and `| 0x7F000000` act on disjoint
      bits, so they are the remainder by 2^24 and an addition here.) */
  function AsLocalMasked(ip: u32): (r: u32)
    ensures r / TWO_24 == 127 && r % TWO_24 != 0
  {
    var low := (Shuffle(ip) as int) % TWO_24;
    0x7F00_0000 + (if low == 0 then 1 else low)
  }

  /** The xor of the shuffled words a v6 address is mapped by: the first word once and the
      second three times. */
  function V6Words(octets: Octets16): bv32 {
    var w0 := ReadU32(octets[..4]);
    var w1 := ReadU32(octets[4..8]);
    Shuffle(w0) ^ Shuffle(w1) ^ Shuffle(w1) ^ Shuffle(w1)
  }

  /** `map_to_local_ip4`. */
  function MapToLocalIp4(ip: IpAddr): (r: Ipv4Addr)
    ensures r.octets[0] == 127 && r.octets[1..] != [0, 0, 0]
  {
    var n := AsLocalMasked(
      match ip
      case V4(a) => Ipv4ToU32(a)
      case V6(a) => V6Words(a.octets) as int);
    LoopbackOctets(n);
    Ipv4FromU32(n)
  }

  /** A number in 127.0.0.0/8 with non-zero low bits has the octets of such an address. */
  lemma LoopbackOctets(n: u32)
    requires n / TWO_24 == 127 && n % TWO_24 != 0
    ensures Ipv4FromU32(n).octets[0] == 127
    ensures Ipv4FromU32(n).octets[1..] != [0, 0, 0]
  {
    var o := ToBE(n, 4);
    assert o == ToBE(n / 256, 3) + [n % 256];
    assert ToBE(n / 256, 3) == ToBE(n / 65536, 2) + [(n / 256) % 256];
    assert ToBE(n / 65536, 2) == ToBE(n / TWO_24, 1) + [(n / 65536) % 256];
    assert ToBE(n / TWO_24, 1) == [127];
    assert o[1..] == [(n / 65536) % 256, (n / 256) % 256, n % 256];
  }

  /** Every peer, v4 or v6, is given a loopback address other than 127.0.0.0. */
  lemma MapToLocalIsLoopback(ip: IpAddr)
    ensures MapToLocalIp4(ip).octets[0] == 127
    ensures IsLoopback(V4(MapToLocalIp4(ip)))
    ensures MapToLocalIp4(ip) != Ipv4Addr([127, 0, 0, 0])
  {
    var n := AsLocalMasked(match ip case V4(a) => Ipv4ToU32(a) case V6(a) => V6Words(a.octets) as int);
    LoopbackOctets(n);
    assert MapToLocalIp4(ip).octets[1..] != [0, 0, 0];
  }

  /** The second word of a v6 address is xor-ed in three times, so it counts once: the local
      address depends on the first eight bytes only. */
  lemma V6WordsOnce(octets: Octets16)
    ensures V6Words(octets) == Shuffle(ReadU32(octets[..4])) ^ Shuffle(ReadU32(octets[4..8]))
  {
    var a := Shuffle(ReadU32(octets[..4]));
    var b := Shuffle(ReadU32(octets[4..8]));
    XorThrice(a, b);
  }

  lemma XorThrice(a: bv32, b: bv32)
    ensures a ^ b ^ b ^ b == a ^ b
  {
  }

  lemma V6PrefixOnly(a: Ipv6Addr, b: Ipv6Addr)
    requires a.octets[..8] == b.octets[..8]
    ensures MapToLocalIp4(V6(a)) == MapToLocalIp4(V6(b))
  {
    assert a.octets[..4] == a.octets[..8][..4] == b.octets[..4];
    assert a.octets[4..8] == a.octets[..8][4..] == b.octets[4..8];
    assert V6Words(a.octets) == V6Words(b.octets);
  }

  // ---------------------------------------------------------------------------
  // Choosing the socket
  // ---------------------------------------------------------------------------

  /** The udp source port kept across restarts: `40000 + port % 24000`, in [40000, 64000). */
  function SpecialUdpPort(peer: SocketAddr): (r: u16)
    ensures 40000 <= r < 64000
    ensures r - 40000 == peer.Port() % 24000
  {
    40000 + peer.Port() % 24000
  }

  /** Peers whose ports differ by less than 24000 get different udp source ports. */
  lemma SpecialUdpPortDistinct(p: SocketAddr, q: SocketAddr)
    requires p.Port() < q.Port() < p.Port() + 24000
    ensures SpecialUdpPort(p) != SpecialUdpPort(q)
  {
  }

  /** Whether the special address is used: the origin is on the loopback interface and the
      feature is on. */
  predicate UsesSpecialLan(specialLanIp: bool, host: SocketAddr) {
    IsLoopback(host.Ip()) && specialLanIp
  }

  /** The local addresses `udp_socket` tries to bind, in order: the special address and port,
      the special address with any port, then any address; without the special address only
      the last. */
  function UdpBindAttempts(specialLanIp: bool, peer: SocketAddr, host: SocketAddr): (r: seq<SocketAddrV4>)
    ensures |r| >= 1 && r[|r| - 1] == SocketAddrV4(UNSPECIFIED_V4, 0)
    ensures UsesSpecialLan(specialLanIp, host) ==>
      r == [SocketAddrV4(MapToLocalIp4(peer.Ip()), SpecialUdpPort(peer)),
            SocketAddrV4(MapToLocalIp4(peer.Ip()), 0), SocketAddrV4(UNSPECIFIED_V4, 0)]
    ensures !UsesSpecialLan(specialLanIp, host) ==> r == [SocketAddrV4(UNSPECIFIED_V4, 0)]
  {
    if UsesSpecialLan(specialLanIp, host) then
      var localIp := MapToLocalIp4(peer.Ip());
      [SocketAddrV4(localIp, SpecialUdpPort(peer)), SocketAddrV4(localIp, 0), SocketAddrV4(UNSPECIFIED_V4, 0)]
    else [SocketAddrV4(UNSPECIFIED_V4, 0)]
  }

  /** The first attempt the operating system lets the agent bind, given which ones succeed. */
  function FirstBound(attempts: seq<SocketAddrV4>, binds: SocketAddrV4 -> bool): (r: Option<SocketAddrV4>)
    ensures r.None? <==> forall i :: 0 <= i < |attempts| ==> !binds(attempts[i])
    ensures r.Some? ==> binds(r.value) && r.value in attempts
  {
    if |attempts| == 0 then None
    else if binds(attempts[0]) then Some(attempts[0])
    else
      var r := FirstBound(attempts[1..], binds);
      assert forall i :: 1 <= i < |attempts| ==> attempts[i] == attempts[1..][i - 1];
      r
  }

  /** `udp_socket`: the socket is bound to the first attempt that succeeds; the error of the
      last attempt is returned when none does. */
  function UdpSocket(specialLanIp: bool, peer: SocketAddr, host: SocketAddr, binds: SocketAddrV4 -> bool)
    : (r: Option<SocketAddrV4>)
    ensures r.Some? ==> binds(r.value)
    ensures !UsesSpecialLan(specialLanIp, host) ==>
      r == if binds(SocketAddrV4(UNSPECIFIED_V4, 0)) then Some(SocketAddrV4(UNSPECIFIED_V4, 0)) else None
  {
    FirstBound(UdpBindAttempts(specialLanIp, peer, host), binds)
  }

  /** With the special address in use, a udp socket is bound on 127.x.y.z at its fixed port,
      on 127.x.y.z at some port, or anywhere, in that order of preference. */
  lemma UdpSocketChoice(specialLanIp: bool, peer: SocketAddr, host: SocketAddr, binds: SocketAddrV4 -> bool)
    requires UsesSpecialLan(specialLanIp, host)
    ensures var r := UdpSocket(specialLanIp, peer, host, binds);
      r.Some? ==> ((r.value.ip == MapToLocalIp4(peer.Ip()) && r.value.port in {SpecialUdpPort(peer), 0}) ||
        r.value == SocketAddrV4(UNSPECIFIED_V4, 0))
    ensures binds(SocketAddrV4(MapToLocalIp4(peer.Ip()), SpecialUdpPort(peer))) ==>
      UdpSocket(specialLanIp, peer, host, binds) == Some(SocketAddrV4(MapToLocalIp4(peer.Ip()), SpecialUdpPort(peer)))
  {
  }

  /** How `tcp_socket` ends: connected from the special address (at a port the operating
      system picks), connected from an address the operating system chooses, failed to make
      the socket for the special address, or failed the final connect. */
  datatype TcpOutcome =
    | FromSpecial(local: SocketAddrV4)
    | FromOsChoice
    | SocketFailed
    | ConnectFailed

  /** `tcp_socket`, given whether making a v4 socket, binding it to the special address,
      connecting from it, and the plain connect to the host succeed. Failing to make the
      socket ends the call at once; a failed bind or connect from the special address falls
      back to the plain connect. */
  function TcpSource(specialLanIp: bool, peer: SocketAddr, host: SocketAddr, socketCreated: bool,
                     specialBinds: bool, specialConnects: bool, hostConnects: bool): (r: TcpOutcome)
    ensures r == SocketFailed <==> UsesSpecialLan(specialLanIp, host) && !socketCreated
    ensures r.FromSpecial? <==> UsesSpecialLan(specialLanIp, host) && socketCreated && specialBinds && specialConnects
    ensures r.FromSpecial? ==> r.local == SocketAddrV4(MapToLocalIp4(peer.Ip()), 0)
    ensures r == FromOsChoice <==>
      hostConnects && !(UsesSpecialLan(specialLanIp, host) && (!socketCreated || (specialBinds && specialConnects)))
    ensures !UsesSpecialLan(specialLanIp, host) ==> r == if hostConnects then FromOsChoice else ConnectFailed
  {
    if UsesSpecialLan(specialLanIp, host) && !socketCreated then SocketFailed
    else if UsesSpecialLan(specialLanIp, host) && specialBinds && specialConnects then
      FromSpecial(SocketAddrV4(MapToLocalIp4(peer.Ip()), 0))
    else if hostConnects then FromOsChoice
    else ConnectFailed
  }
}
