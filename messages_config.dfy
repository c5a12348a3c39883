/** The configuration record of the messages crate: port mappings with optional ends,
    game-specific tunnel types, and the lookup of the local address a v4 tunnel address
    forwards to. */
module MessagesConfig {
  import opened Ints
  import opened Net
  import opened Wrappers
  import opened CommonLib

  const DEFAULT_API: string := "https://api.playit.cloud/agent"

  datatype TunnelType =
    | MinecraftJava | MinecraftBedrock | Valheim | Terraria | Starbound | Rust | SevenDays | Unturned

  /** Mapping ids are 128-bit uuids, compared only for equality. */
  datatype PortMapping = PortMapping(
    id: Option<seq<u8>>, name: Option<string>, proto: ClaimProto, tunnelIp: IpAddr,
    tunnelFromPort: u16, tunnelToPort: Option<u16>, bindIp: Option<IpAddr>,
    localIp: Option<IpAddr>, localPort: Option<u16>, tunnelType: Option<TunnelType>,
    generatedDomainName: Option<string>)

  datatype AgentConfig = AgentConfig(
    lastUpdate: Option<u64>, apiUrl: Option<string>, refreshFromApi: bool, secretKey: string,
    mappings: seq<PortMapping>)

  function GetApiUrl(c: AgentConfig): (r: string)
    ensures c.apiUrl.Some? ==> r == c.apiUrl.value
    ensures c.apiUrl.None? ==> r == DEFAULT_API
  {
    match c.apiUrl
    case Some(v) => v
    case None => DEFAULT_API
  }

  /** `is_compatible`: a Minecraft Java tunnel needs tcp, a Bedrock one udp, every other game
      accepts any port type. */
  function IsCompatible(t: TunnelType, portType: ClaimProto): (r: bool)
    ensures t == MinecraftJava ==> (r <==> HasTcp(portType))
    ensures t == MinecraftBedrock ==> (r <==> HasUdp(portType))
    ensures t != MinecraftJava && t != MinecraftBedrock ==> r
  {
    match (t, portType)
    case (MinecraftJava, Both) => true
    case (MinecraftJava, Tcp) => true
    case (MinecraftBedrock, Both) => true
    case (MinecraftBedrock, Udp) => true
    case (MinecraftJava, _) => false
    case (MinecraftBedrock, _) => false
    case _ => true
  }

  /** A port claimed for both protocols suits every tunnel type. */
  lemma BothIsAlwaysCompatible(t: TunnelType)
    ensures IsCompatible(t, Both)
    ensures IsCompatible(t, Tcp) || IsCompatible(t, Udp)
  {
  }

  /** The mapping's port range: `from` up to, not including, `to`, which defaults to
      `from + 1` in `u16`. */
  function ToPort(m: PortMapping): u16 {
    if m.tunnelToPort.Some? then m.tunnelToPort.value else Add16(m.tunnelFromPort, 1)
  }

  predicate ServesProto(mapping: ClaimProto, proto: Proto) {
    !(mapping == Udp && proto == ProtoTcp) && !(mapping == Tcp && proto == ProtoUdp)
  }

  /** The mapping takes the connection: right protocol, exactly the v4 tunnel ip (a v6
      tunnel ip never compares equal to a v4 address), and the port in range. */
  predicate Matches(m: PortMapping, addr: SocketAddrV4, proto: Proto) {
    ServesProto(m.proto, proto) && m.tunnelIp == V4(addr.ip) &&
    m.tunnelFromPort <= addr.port < ToPort(m)
  }

  /** The bind ip, and the local address moved by the port's offset in the range: the local
      port defaults to `from` and the local ip to 127.0.0.1; the sum wraps in `u16`. */
  function Target(m: PortMapping, addr: SocketAddrV4): (Option<IpAddr>, SocketAddr)
    requires m.tunnelFromPort <= addr.port
  {
    var localPort := if m.localPort.Some? then m.localPort.value else m.tunnelFromPort;
    var localIp := if m.localIp.Some? then m.localIp.value else V4(LOCALHOST_V4);
    (m.bindIp, NewSocketAddr(localIp, Add16(localPort, addr.port - m.tunnelFromPort)))
  }

  function FirstMatch(mappings: seq<PortMapping>, addr: SocketAddrV4, proto: Proto)
    : Option<(Option<IpAddr>, SocketAddr)>
  {
    if |mappings| == 0 then None
    else if Matches(mappings[0], addr, proto) then Some(Target(mappings[0], addr))
    else FirstMatch(mappings[1..], addr, proto)
  }

  /** `FirstMatch` answers with the lowest matching index, and with nothing when no mapping
      matches. */
  lemma {:induction false} FirstMatchIndex(mappings: seq<PortMapping>, addr: SocketAddrV4, proto: Proto)
    ensures FirstMatch(mappings, addr, proto).None? <==>
      forall i :: 0 <= i < |mappings| ==> !Matches(mappings[i], addr, proto)
    ensures FirstMatch(mappings, addr, proto).Some? ==>
      exists i :: 0 <= i < |mappings| && Matches(mappings[i], addr, proto) &&
        (forall j :: 0 <= j < i ==> !Matches(mappings[j], addr, proto)) &&
        FirstMatch(mappings, addr, proto).value == Target(mappings[i], addr)
  {
    if |mappings| > 0 && !Matches(mappings[0], addr, proto) {
      var rest := mappings[1..];
      FirstMatchIndex(rest, addr, proto);
      if FirstMatch(rest, addr, proto).Some? {
        var i :| 0 <= i < |rest| && Matches(rest[i], addr, proto) &&
          (forall j :: 0 <= j < i ==> !Matches(rest[j], addr, proto)) &&
          FirstMatch(rest, addr, proto).value == Target(rest[i], addr);
        assert mappings[i + 1] == rest[i];
        forall j | 0 <= j < i + 1
          ensures !Matches(mappings[j], addr, proto)
        {
          if j > 0 { assert mappings[j] == rest[j - 1]; }
        }
      } else {
        forall i | 0 <= i < |mappings|
          ensures !Matches(mappings[i], addr, proto)
        {
          if i > 0 { assert mappings[i] == rest[i - 1]; }
        }
      }
    }
  }

  /** A mapping without a `to` port forwards only its own `from` port, to the local port
      (or `from`) unchanged. */
  lemma SinglePortMapping(m: PortMapping, addr: SocketAddrV4, proto: Proto)
    requires m.tunnelToPort.None? && Matches(m, addr, proto)
    ensures addr.port == m.tunnelFromPort
    ensures Target(m, addr).1.Port() == if m.localPort.Some? then m.localPort.value else m.tunnelFromPort
  {
  }

  /** `find_local_addr`: the loop skips the other protocol, other tunnel ips and ports out
      of range, and returns at the first mapping left. */
  method FindLocalAddr(c: AgentConfig, addr: SocketAddrV4, proto: Proto)
    returns (r: Option<(Option<IpAddr>, SocketAddr)>)
    ensures r == FirstMatch(c.mappings, addr, proto)
  {
    var i := 0;
    while i < |c.mappings|
      invariant 0 <= i <= |c.mappings|
      invariant FirstMatch(c.mappings, addr, proto) == FirstMatch(c.mappings[i..], addr, proto)
    {
      var mapping := c.mappings[i];
      assert c.mappings[i..][1..] == c.mappings[i + 1..];
      if !ServesProto(mapping.proto, proto) || mapping.tunnelIp != V4(addr.ip) {
        i := i + 1;
        continue;
      }
      var toPort := if mapping.tunnelToPort.Some? then mapping.tunnelToPort.value else Add16(mapping.tunnelFromPort, 1);
      if !(mapping.tunnelFromPort <= addr.port < toPort) {
        i := i + 1;
        continue;
      }
      var portDelta := addr.port - mapping.tunnelFromPort;
      var localPort := Add16(if mapping.localPort.Some? then mapping.localPort.value else mapping.tunnelFromPort, portDelta);
      var localIp := if mapping.localIp.Some? then mapping.localIp.value else V4(LOCALHOST_V4);
      return Some((mapping.bindIp, NewSocketAddr(localIp, localPort)));
    }
    return None;
  }
}
