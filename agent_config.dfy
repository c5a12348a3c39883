/** The agent's configuration: the user-facing builder with optional fields and the defaults
    it fills in, merging an updated configuration into the running one, and finding the
    local address a tunnelled connection is forwarded to. */
module AgentConfigs {
  import opened Ints
  import opened Net
  import opened Wrappers
  import opened CommonLib

  const DEFAULT_API: string := "https://api.playit.cloud/agent"
  const DEFAULT_CONTROL: string := "control.playit.gg"
  const DEFAULT_PING_INTERVAL: u64 := 5_000
  /** The default, and the least, API refresh period in milliseconds. */
  const MIN_API_REFRESH_RATE: u64 := 5_000

  datatype PortMappingConfig = PortMappingConfig(
    name: Option<string>, previewAddress: string, proto: ClaimProto,
    tunnelIp: IpAddr, tunnelFromPort: u16, tunnelToPort: u16,
    bindIp: Option<IpAddr>, localIp: IpAddr, localPort: u16)

  datatype AgentConfig = AgentConfig(
    lastUpdate: u64, apiUrl: string, pingTargetAddresses: seq<string>, controlAddress: string,
    apiRefreshRate: Option<u64>, pingInterval: u64, secretKey: string,
    mappings: seq<PortMappingConfig>, apiUrlSet: bool, controlAddrSet: bool)

  datatype PortMappingBuilder = PortMappingBuilder(
    name: Option<string>, generatedAddress: Option<string>, customAddress: Option<string>,
    proto: ClaimProto, tunnelIp: IpAddr, tunnelFromPort: u16, tunnelToPort: Option<u16>,
    bindIp: Option<IpAddr>, localIp: Option<IpAddr>, localPort: Option<u16>)

  datatype AgentConfigBuilder = AgentConfigBuilder(
    lastUpdate: Option<u64>, apiUrl: Option<string>, pingTargets: Option<seq<SocketAddr>>,
    pingTargetAddresses: Option<seq<string>>, controlAddress: Option<string>,
    refreshFromApi: Option<bool>, apiRefreshRate: Option<u64>, pingInterval: Option<u64>,
    secretKey: string, mappings: seq<PortMappingBuilder>)

  const LOCALHOST: IpAddr := V4(LOCALHOST_V4)

  // ---------------------------------------------------------------------------
  // The secret key
  // ---------------------------------------------------------------------------

  predicate IsAsciiHexDigit(c: char) {
    ('0' <= c <= '9') || ('a' <= c <= 'f') || ('A' <= c <= 'F')
  }

  /** An even number of hex digits. (The source tests the UTF-8 byte length; a key with a
      non-ASCII character fails the digit test anyway, so the two agree.) */
  predicate IsHexKey(key: string) {
    |key| % 2 == 0 && forall i :: 0 <= i < |key| ==> IsAsciiHexDigit(key[i])
  }

  /** `valid_secret_key`: odd length fails at once, then the first non-hex character fails. */
  method ValidSecretKey(key: string) returns (valid: bool)
    ensures valid <==> IsHexKey(key)
  {
    if |key| % 2 == 1 {
      return false;
    }
    var i := 0;
    while i < |key|
      invariant 0 <= i <= |key|
      invariant forall j :: 0 <= j < i ==> IsAsciiHexDigit(key[j])
    {
      if !IsAsciiHexDigit(key[i]) {
        return false;
      }
      i := i + 1;
    }
    return true;
  }

  // ---------------------------------------------------------------------------
  // Building
  // ---------------------------------------------------------------------------

  /** The `(refresh_from_api, api_refresh_rate)` table of `build`. */
  function ApiRefreshRate(refreshFromApi: Option<bool>, rate: Option<u64>): (r: Option<u64>)
    ensures r.None? <==> refreshFromApi == Some(false) || (refreshFromApi.None? && rate == Some(0))
    ensures r.Some? ==> r.value >= MIN_API_REFRESH_RATE
    ensures r.Some? && rate.None? ==> r.value == MIN_API_REFRESH_RATE
    ensures r.Some? && rate.Some? ==> r.value == Max(rate.value, MIN_API_REFRESH_RATE)
  {
    if refreshFromApi == Some(false) then None
    else if rate.None? then Some(MIN_API_REFRESH_RATE)
    else if refreshFromApi.None? && rate.value == 0 then None
    else Some(Max(rate.value, MIN_API_REFRESH_RATE))
  }

  function GetApiUrl(b: AgentConfigBuilder): string {
    if b.apiUrl.Some? then b.apiUrl.value else DEFAULT_API
  }

  /** `PortMappingBuilder::build`: the range defaults to the single port `from`, the local
      address to 127.0.0.1 on the same port, and the preview to the custom address, else the
      generated one, else the tunnel address. */
  function BuildMapping(b: PortMappingBuilder): (r: PortMappingConfig)
    ensures r.name == b.name && r.proto == b.proto && r.tunnelIp == b.tunnelIp &&
      r.tunnelFromPort == b.tunnelFromPort && r.bindIp == b.bindIp
    ensures b.tunnelToPort.Some? ==> r.tunnelToPort == b.tunnelToPort.value
    ensures b.localIp.None? ==> r.localIp == LOCALHOST
    ensures b.localPort.None? ==> r.localPort == b.tunnelFromPort
    ensures b.customAddress.Some? ==> r.previewAddress == b.customAddress.value
    ensures b.customAddress.None? && b.generatedAddress.None? ==>
      r.previewAddress == SocketAddrString(NewSocketAddr(b.tunnelIp, b.tunnelFromPort))
  {
    PortMappingConfig(
      b.name,
      if b.customAddress.Some? then b.customAddress.value
      else if b.generatedAddress.Some? then b.generatedAddress.value
      else SocketAddrString(NewSocketAddr(b.tunnelIp, b.tunnelFromPort)),
      b.proto, b.tunnelIp, b.tunnelFromPort,
      if b.tunnelToPort.Some? then b.tunnelToPort.value else Add16(b.tunnelFromPort, 1),
      b.bindIp,
      if b.localIp.Some? then b.localIp.value else LOCALHOST,
      if b.localPort.Some? then b.localPort.value else b.tunnelFromPort)
  }

  function PingTargetStrings(targets: Option<seq<SocketAddr>>, addresses: Option<seq<string>>): seq<string> {
    (if targets.Some? then seq(|targets.value|, i requires 0 <= i < |targets.value| => SocketAddrString(targets.value[i])) else [])
    + (if addresses.Some? then addresses.value else [])
  }

  /** `AgentConfigBuilder::build` as a value. */
  function Built(b: AgentConfigBuilder): AgentConfig {
    AgentConfig(
      if b.lastUpdate.Some? then b.lastUpdate.value else 0,
      GetApiUrl(b),
      PingTargetStrings(b.pingTargets, b.pingTargetAddresses),
      if b.controlAddress.Some? then b.controlAddress.value else DEFAULT_CONTROL,
      ApiRefreshRate(b.refreshFromApi, b.apiRefreshRate),
      if b.pingInterval.Some? then b.pingInterval.value else DEFAULT_PING_INTERVAL,
      b.secretKey,
      seq(|b.mappings|, i requires 0 <= i < |b.mappings| => BuildMapping(b.mappings[i])),
      b.apiUrl.Some?, b.controlAddress.Some?)
  }

  /** `build`: the ping targets are gathered by two loops (`GatherPingTargets`), then the
      defaults are filled in. */
  method Build(b: AgentConfigBuilder) returns (c: AgentConfig)
    ensures c == Built(b)
  {
    var pingTargetAddresses := GatherPingTargets(b.pingTargets, b.pingTargetAddresses);
    c := AgentConfig(
      if b.lastUpdate.Some? then b.lastUpdate.value else 0,
      if b.apiUrl.Some? then b.apiUrl.value else DEFAULT_API,
      pingTargetAddresses,
      if b.controlAddress.Some? then b.controlAddress.value else DEFAULT_CONTROL,
      ApiRefreshRate(b.refreshFromApi, b.apiRefreshRate),
      if b.pingInterval.Some? then b.pingInterval.value else DEFAULT_PING_INTERVAL,
      b.secretKey,
      seq(|b.mappings|, i requires 0 <= i < |b.mappings| => BuildMapping(b.mappings[i])),
      b.apiUrl.Some?, b.controlAddress.Some?);
  }

  /** The two loops of `build` over the ping targets: the socket addresses as text first,
      then the address strings. */
  method GatherPingTargets(targets: Option<seq<SocketAddr>>, addresses: Option<seq<string>>)
    returns (r: seq<string>)
    ensures r == PingTargetStrings(targets, addresses)
  {
    r := [];
    if targets.Some? {
      var ts := targets.value;
      for i := 0 to |ts|
        invariant r == seq(i, j requires 0 <= j < i => SocketAddrString(ts[j]))
      {
        r := r + [SocketAddrString(ts[i])];
      }
    }
    ghost var fromTargets := r;
    if addresses.Some? {
      var xs := addresses.value;
      for i := 0 to |xs|
        invariant r == fromTargets + xs[..i]
      {
        r := r + [xs[i]];
      }
      assert xs[..|xs|] == xs;
    }
  }

  /** What a builder with every option unset builds to: `AgentConfig::default`. */
  lemma DefaultConfig(secretKey: string, mappings: seq<PortMappingBuilder>)
    ensures var c := Built(AgentConfigBuilder(None, None, None, None, None, None, None, None, secretKey, mappings));
      c.lastUpdate == 0 && c.apiUrl == DEFAULT_API && c.controlAddress == DEFAULT_CONTROL &&
      c.pingInterval == DEFAULT_PING_INTERVAL && c.apiRefreshRate == Some(MIN_API_REFRESH_RATE) &&
      c.pingTargetAddresses == [] && !c.apiUrlSet && !c.controlAddrSet && |c.mappings| == |mappings|
  {
  }

  /** The `*_set` flags record exactly whether the builder gave the value, and the values
      given are kept. */
  lemma BuildRecordsPresence(b: AgentConfigBuilder)
    ensures Built(b).apiUrlSet <==> b.apiUrl.Some?
    ensures Built(b).controlAddrSet <==> b.controlAddress.Some?
    ensures Built(b).apiUrl == GetApiUrl(b)
    ensures b.controlAddress.Some? ==> Built(b).controlAddress == b.controlAddress.value
    ensures b.pingTargets.None? && b.pingTargetAddresses.Some? ==> Built(b).pingTargetAddresses == b.pingTargetAddresses.value
  {
  }

  /** A mapping built without a `to` port covers exactly the port `from` (unless `from` is
      65535, where `from + 1` wraps to 0 and the range is empty). */
  lemma SinglePortDefault(b: PortMappingBuilder)
    requires b.tunnelToPort.None? && b.tunnelFromPort < 0xffff
    ensures var m := BuildMapping(b); m.tunnelToPort == m.tunnelFromPort + 1
    ensures BuildMapping(b).localPort == (if b.localPort.Some? then b.localPort.value else b.tunnelFromPort)
  {
  }

  // ---------------------------------------------------------------------------
  // Back to a builder
  // ---------------------------------------------------------------------------

  /** `PortMappingConfig::as_builder`: values equal to the defaults become `None`. */
  function MappingAsBuilder(m: PortMappingConfig): (b: PortMappingBuilder)
    ensures b.customAddress.None? && b.generatedAddress.None?
    ensures b.localIp.None? <==> m.localIp == LOCALHOST
    ensures b.localPort.None? <==> m.localPort == m.tunnelFromPort
    ensures BuildMapping(b) == m.(previewAddress := SocketAddrString(NewSocketAddr(m.tunnelIp, m.tunnelFromPort)))
  {
    PortMappingBuilder(
      m.name, None, None, m.proto, m.tunnelIp, m.tunnelFromPort,
      if m.tunnelToPort == Add16(m.tunnelFromPort, 1) then None else Some(m.tunnelToPort),
      m.bindIp,
      if m.localIp == LOCALHOST then None else Some(m.localIp),
      if m.localPort == m.tunnelFromPort then None else Some(m.localPort))
  }

  /** `AgentConfig::as_builder`: every value is given, so the `*_set` flags build back as
      true, and a refresh rate comes back at least the 5 s floor. */
  function AsBuilder(c: AgentConfig): (b: AgentConfigBuilder)
    ensures b.secretKey == c.secretKey && |b.mappings| == |c.mappings|
    ensures b.apiUrl == Some(c.apiUrl) && b.controlAddress == Some(c.controlAddress)
    ensures ApiRefreshRate(b.refreshFromApi, b.apiRefreshRate) ==
      if c.apiRefreshRate.Some? then Some(Max(c.apiRefreshRate.value, MIN_API_REFRESH_RATE)) else None
    ensures PingTargetStrings(b.pingTargets, b.pingTargetAddresses) == c.pingTargetAddresses
  {
    AgentConfigBuilder(
      Some(c.lastUpdate), Some(c.apiUrl), None, Some(c.pingTargetAddresses), Some(c.controlAddress),
      Some(c.apiRefreshRate.Some?), c.apiRefreshRate, Some(c.pingInterval), c.secretKey,
      seq(|c.mappings|, i requires 0 <= i < |c.mappings| => MappingAsBuilder(c.mappings[i])))
  }

  /** The builder forgets the preview address; a mapping whose preview is its tunnel address
      builds back unchanged. */
  lemma MappingRoundTrip(m: PortMappingConfig)
    requires m.previewAddress == SocketAddrString(NewSocketAddr(m.tunnelIp, m.tunnelFromPort))
    ensures BuildMapping(MappingAsBuilder(m)) == m
  {
  }

  /** A configuration builds back from its builder exactly when nothing lost on the way
      matters: both `*_set` flags are true, the refresh rate is unset or at least 5 s, and
      every preview address is the default one. */
  lemma {:induction false} ConfigRoundTrip(c: AgentConfig)
    requires c.apiUrlSet && c.controlAddrSet
    requires c.apiRefreshRate.Some? ==> c.apiRefreshRate.value >= MIN_API_REFRESH_RATE
    requires forall i :: 0 <= i < |c.mappings| ==>
      c.mappings[i].previewAddress == SocketAddrString(NewSocketAddr(c.mappings[i].tunnelIp, c.mappings[i].tunnelFromPort))
    ensures Built(AsBuilder(c)) == c
  {
    var b := AsBuilder(c);
    forall i | 0 <= i < |c.mappings|
      ensures Built(b).mappings[i] == c.mappings[i]
    {
      MappingRoundTrip(c.mappings[i]);
    }
    assert PingTargetStrings(b.pingTargets, b.pingTargetAddresses) == [] + c.pingTargetAddresses;
  }

  /** A flag that `as_builder` cannot carry: an unset API url builds back as set. */
  lemma AsBuilderSetsFlags(c: AgentConfig)
    ensures Built(AsBuilder(c)).apiUrlSet && Built(AsBuilder(c)).controlAddrSet
  {
  }

  // ---------------------------------------------------------------------------
  // Updating
  // ---------------------------------------------------------------------------

  /** The update with the API url and control address it did not set taken, flag and all,
      from the running configuration. */
  function Inherit(current: AgentConfig, updated: AgentConfig): (r: AgentConfig)
    ensures r.apiUrlSet <==> updated.apiUrlSet || current.apiUrlSet
    ensures r.controlAddrSet <==> updated.controlAddrSet || current.controlAddrSet
    ensures updated.apiUrlSet && updated.controlAddrSet ==> r == updated
    ensures r.mappings == updated.mappings && r.secretKey == updated.secretKey
  {
    var u := if !updated.apiUrlSet then updated.(apiUrl := current.apiUrl, apiUrlSet := current.apiUrlSet) else updated;
    if !u.controlAddrSet then u.(controlAddress := current.controlAddress, controlAddrSet := current.controlAddrSet) else u
  }

  /** `get_updated`: `None` when the update, after inheriting, equals the running
      configuration. */
  function GetUpdated(current: AgentConfig, updated: AgentConfig): (r: Option<AgentConfig>)
    ensures r.None? <==> Inherit(current, updated) == current
    ensures r.Some? ==> r.value == Inherit(current, updated)
  {
    var u := Inherit(current, updated);
    if u == current then None else Some(u)
  }

  /** `to_updated`: the inherited update, whether or not it differs from the running
      configuration. */
  function ToUpdated(current: AgentConfig, updated: AgentConfig): (r: AgentConfig)
    ensures r == Inherit(current, updated)
  {
    match GetUpdated(current, updated)
    case Some(v) => v
    case None => current
  }

  /** Whether or not `get_updated` reports a change, `to_updated` ends with the inherited
      update; updating with the running configuration itself changes nothing. */
  lemma ToUpdatedInherits(current: AgentConfig, updated: AgentConfig)
    ensures ToUpdated(current, updated) == Inherit(current, updated)
    ensures GetUpdated(current, current) == None
  {
  }

  /** Every field but the two inheritable ones comes from the update; those come from the
      update exactly when it set them. */
  lemma InheritFields(current: AgentConfig, updated: AgentConfig)
    ensures var r := Inherit(current, updated);
      r.(apiUrl := updated.apiUrl, apiUrlSet := updated.apiUrlSet,
         controlAddress := updated.controlAddress, controlAddrSet := updated.controlAddrSet) == updated
    ensures Inherit(current, updated).apiUrl == if updated.apiUrlSet then updated.apiUrl else current.apiUrl
    ensures Inherit(current, updated).controlAddress ==
      if updated.controlAddrSet then updated.controlAddress else current.controlAddress
  {
  }

  /** Applying the same update twice is applying it once. */
  lemma ToUpdatedIdempotent(current: AgentConfig, updated: AgentConfig)
    ensures ToUpdated(ToUpdated(current, updated), updated) == ToUpdated(current, updated)
  {
    ToUpdatedInherits(current, updated);
    ToUpdatedInherits(Inherit(current, updated), updated);
  }

  // ---------------------------------------------------------------------------
  // Finding the local address
  // ---------------------------------------------------------------------------

  /** `get_match_ip`: a v4 address keeps only its last octet, at the end of an all-zero v6
      address; a v6 address under 2602:fbaf::/32 whose third segment is below 0x1000 loses
      its first three segments; any other v6 address is kept. */
  function GetMatchIp(ip: IpAddr): (r: Ipv6Addr)
    ensures ip.V4? ==> r.octets == ZEROS_15 + [ip.v4.octets[3]]
    ensures ip.V6? && IsPlayitPrefix(ip.v6) ==> r.octets == ZEROS_6 + ip.v6.octets[6..]
    ensures ip.V6? && !IsPlayitPrefix(ip.v6) ==> r == ip.v6
  {
    match ip
    case V4(a) => Ipv6Addr(ZEROS_15 + [a.octets[3]])
    case V6(a) =>
      SegmentsArePlayitPrefix(a);
      if Segment(a, 0) != 0x2602 || Segment(a, 1) != 0xfbaf || Segment(a, 2) >= 0x1000 then a
      else Ipv6Addr(ZEROS_6 + a.octets[6..])
  }

  const ZEROS_6: seq<u8> := [0, 0, 0, 0, 0, 0]
  const ZEROS_15: seq<u8> := [0, 0, 0, 0, 0, 0, 0, 0, 0, 0, 0, 0, 0, 0, 0]

  lemma SegmentsArePlayitPrefix(a: Ipv6Addr)
    ensures (Segment(a, 0) == 0x2602 && Segment(a, 1) == 0xfbaf && Segment(a, 2) < 0x1000) <==> IsPlayitPrefix(a)
  {
    assert a.octets[..4] == [a.octets[0], a.octets[1], a.octets[2], a.octets[3]];
  }

  /** The same test on the octets: bytes 26 02 fb af, then a byte below 0x10. */
  predicate IsPlayitPrefix(a: Ipv6Addr) {
    a.octets[..4] == [0x26, 0x02, 0xfb, 0xaf] && a.octets[4] < 0x10
  }

  /** A mapping open to `proto`: a udp-only mapping is skipped for tcp and the reverse. */
  predicate ServesProto(mapping: ClaimProto, proto: Proto) {
    !(mapping == Udp && proto == ProtoTcp) && !(mapping == Tcp && proto == ProtoUdp)
  }

  lemma ServesProtoMeans(mapping: ClaimProto, proto: Proto)
    ensures ServesProto(mapping, proto) <==> if proto == ProtoTcp then HasTcp(mapping) else HasUdp(mapping)
  {
  }

  predicate MappingMatches(m: PortMappingConfig, addr: SocketAddr, proto: Proto) {
    ServesProto(m.proto, proto) && m.tunnelFromPort <= addr.Port() < m.tunnelToPort &&
    GetMatchIp(m.tunnelIp) == GetMatchIp(addr.Ip())
  }

  /** The bind ip and the local address `addr`'s port maps to: the local port moved by the
      port's offset in the range, with `u16` wrap-around. */
  function Found(m: PortMappingConfig, addr: SocketAddr): (Option<IpAddr>, SocketAddr)
    requires m.tunnelFromPort <= addr.Port()
  {
    (m.bindIp, NewSocketAddr(m.localIp, Add16(m.localPort, addr.Port() - m.tunnelFromPort)))
  }

  /** The first mapping that matches. */
  function FirstMatch(mappings: seq<PortMappingConfig>, addr: SocketAddr, proto: Proto)
    : (r: Option<(Option<IpAddr>, SocketAddr)>)
  {
    if |mappings| == 0 then None
    else if MappingMatches(mappings[0], addr, proto) then Some(Found(mappings[0], addr))
    else FirstMatch(mappings[1..], addr, proto)
  }

  /** `FirstMatch` finds the lowest index that matches, and nothing when none does. */
  lemma FirstMatchIndex(mappings: seq<PortMappingConfig>, addr: SocketAddr, proto: Proto)
    ensures FirstMatch(mappings, addr, proto).None? <==>
      forall i :: 0 <= i < |mappings| ==> !MappingMatches(mappings[i], addr, proto)
    ensures FirstMatch(mappings, addr, proto).Some? ==>
      exists i :: 0 <= i < |mappings| && MappingMatches(mappings[i], addr, proto) &&
        (forall j :: 0 <= j < i ==> !MappingMatches(mappings[j], addr, proto)) &&
        FirstMatch(mappings, addr, proto).value == Found(mappings[i], addr)
  {
    FirstMatchNone(mappings, addr, proto);
    if FirstMatch(mappings, addr, proto).Some? {
      var i := FirstMatchSome(mappings, addr, proto);
    }
  }

  lemma {:induction false} FirstMatchNone(mappings: seq<PortMappingConfig>, addr: SocketAddr, proto: Proto)
    ensures FirstMatch(mappings, addr, proto).None? <==>
      forall i :: 0 <= i < |mappings| ==> !MappingMatches(mappings[i], addr, proto)
  {
    if |mappings| > 0 && !MappingMatches(mappings[0], addr, proto) {
      var rest := mappings[1..];
      FirstMatchNone(rest, addr, proto);
      assert FirstMatch(mappings, addr, proto) == FirstMatch(rest, addr, proto);
      assert forall i :: 1 <= i < |mappings| ==> mappings[i] == rest[i - 1];
    }
  }

  /** The index of the mapping a successful `FirstMatch` took. */
  lemma {:induction false} FirstMatchSome(mappings: seq<PortMappingConfig>, addr: SocketAddr, proto: Proto)
    returns (i: nat)
    requires FirstMatch(mappings, addr, proto).Some?
    ensures i < |mappings| && MappingMatches(mappings[i], addr, proto)
    ensures forall j :: 0 <= j < i ==> !MappingMatches(mappings[j], addr, proto)
    ensures FirstMatch(mappings, addr, proto).value == Found(mappings[i], addr)
  {
    if MappingMatches(mappings[0], addr, proto) {
      i := 0;
    } else {
      var rest := mappings[1..];
      assert FirstMatch(mappings, addr, proto) == FirstMatch(rest, addr, proto);
      var k := FirstMatchSome(rest, addr, proto);
      i := k + 1;
      assert mappings[i] == rest[k];
      forall j | 0 <= j < i
        ensures !MappingMatches(mappings[j], addr, proto)
      {
        if j > 0 { assert mappings[j] == rest[j - 1]; }
      }
    }
  }

  /** `find_local_addr`: the loop skips mappings for the other protocol, outside the range
      or announced under a different match ip, and returns at the first one left. */
  method FindLocalAddr(c: AgentConfig, addr: SocketAddr, proto: Proto)
    returns (r: Option<(Option<IpAddr>, SocketAddr)>)
    ensures r == FirstMatch(c.mappings, addr, proto)
  {
    var addrIpNumber := GetMatchIp(addr.Ip());
    var i := 0;
    while i < |c.mappings|
      invariant 0 <= i <= |c.mappings|
      invariant FirstMatch(c.mappings, addr, proto) == FirstMatch(c.mappings[i..], addr, proto)
    {
      var mapping := c.mappings[i];
      assert c.mappings[i..][1..] == c.mappings[i + 1..];
      if !ServesProto(mapping.proto, proto) {
        i := i + 1;
        continue;
      }
      if !(mapping.tunnelFromPort <= addr.Port() < mapping.tunnelToPort) {
        i := i + 1;
        continue;
      }
      var portDelta := addr.Port() - mapping.tunnelFromPort;
      var localPort := Add16(mapping.localPort, portDelta);
      var found := (mapping.bindIp, NewSocketAddr(mapping.localIp, localPort));
      var tunnelIpNumber := GetMatchIp(mapping.tunnelIp);
      if tunnelIpNumber == addrIpNumber {
        return Some(found);
      }
      i := i + 1;
    }
    return None;
  }

  // ---------------------------------------------------------------------------
  // The lookup test
  // ---------------------------------------------------------------------------

  const TUNNEL_V6: Octets16 := [0x26, 0x02, 0xfb, 0xaf, 0x01, 0xc0, 0, 0, 0, 0, 0, 0, 0, 0, 0, 0xc0]
  const TUNNEL_V4: Octets4 := [32, 12, 41, 2]
  const LOCAL_133: SocketAddr := SockV4(SocketAddrV4(Ipv4Addr([127, 0, 0, 133]), 9912))
  /** 2602:fbaf::2, inside the playit prefix. */
  const PREFIX_2: Octets16 := [0x26, 0x02, 0xfb, 0xaf, 0, 0, 0, 0, 0, 0, 0, 0, 0, 0, 0, 2]
  const LOCAL_199: SocketAddr := SockV4(SocketAddrV4(Ipv4Addr([127, 0, 0, 199]), 444))

  /** The two udp mappings of the unit test: 2602:fbaf:1c0::c0 ports 100..200 to
      127.0.0.133:9912, and 32.12.41.2 ports 100..200 to 127.0.0.199:444. */
  function TestMappings(): seq<PortMappingConfig> {
    [PortMappingConfig(None, "", Udp, V6(Ipv6Addr(TUNNEL_V6)), 100, 200, None, V4(Ipv4Addr([127, 0, 0, 133])), 9912),
     PortMappingConfig(None, "", Udp, V4(Ipv4Addr(TUNNEL_V4)), 100, 200, None, V4(Ipv4Addr([127, 0, 0, 199])), 444)]
  }

  /** Both tunnel addresses' match ips: ::c0 and ::2. */
  lemma TestTunnelMatchIps()
    ensures GetMatchIp(V6(Ipv6Addr(TUNNEL_V6))).octets == ZEROS_15 + [0xc0]
    ensures GetMatchIp(V4(Ipv4Addr(TUNNEL_V4))).octets == ZEROS_15 + [2]
  {
    assert IsPlayitPrefix(Ipv6Addr(TUNNEL_V6));
    assert TUNNEL_V6[6..] == [0, 0, 0, 0, 0, 0, 0, 0, 0, 0xc0];
  }

  /** A connection to the v6 tunnel address itself reaches the first mapping over udp only. */
  lemma FindLocalTestExact()
    ensures var a := NewSocketAddr(V6(Ipv6Addr(TUNNEL_V6)), 100);
      FirstMatch(TestMappings(), a, ProtoTcp) == None &&
      FirstMatch(TestMappings(), a, ProtoUdp) == Some((None, LOCAL_133))
  {
    TestTunnelMatchIps();
  }

  /** 2602:fbaf::c0 shares the match ip ::c0 with the first mapping. */
  lemma FindLocalTestSamePrefix()
    ensures var a := NewSocketAddr(V6(Ipv6Addr([0x26, 0x02, 0xfb, 0xaf, 0, 0, 0, 0, 0, 0, 0, 0, 0, 0, 0, 0xc0])), 100);
      FirstMatch(TestMappings(), a, ProtoUdp) == Some((None, LOCAL_133))
  {
    TestTunnelMatchIps();
    SamePrefixMatchIp();
  }

  lemma SamePrefixMatchIp()
    ensures GetMatchIp(V6(Ipv6Addr([0x26, 0x02, 0xfb, 0xaf, 0, 0, 0, 0, 0, 0, 0, 0, 0, 0, 0, 0xc0]))).octets == ZEROS_15 + [0xc0]
  {
    var ip := Ipv6Addr([0x26, 0x02, 0xfb, 0xaf, 0, 0, 0, 0, 0, 0, 0, 0, 0, 0, 0, 0xc0]);
    assert IsPlayitPrefix(ip);
    assert ip.octets[6..] == [0, 0, 0, 0, 0, 0, 0, 0, 0, 0xc0];
  }

  /** 2603:fbaf:1c0::c0 is outside the prefix and matches neither mapping. */
  lemma FindLocalTestOtherPrefix()
    ensures var a := NewSocketAddr(V6(Ipv6Addr([0x26, 0x03, 0xfb, 0xaf, 0x01, 0xc0, 0, 0, 0, 0, 0, 0, 0, 0, 0, 0xc0])), 100);
      FirstMatch(TestMappings(), a, ProtoUdp) == None
  {
    TestTunnelMatchIps();
    var ip := Ipv6Addr([0x26, 0x03, 0xfb, 0xaf, 0x01, 0xc0, 0, 0, 0, 0, 0, 0, 0, 0, 0, 0xc0]);
    assert !IsPlayitPrefix(ip);
    assert ip.octets != ZEROS_15 + [0xc0] && ip.octets != ZEROS_15 + [2] by {
      assert ip.octets[0] != 0;
    }
  }

  /** 2602:fbaf::2 and 199.33.123.2 both have the match ip ::2 of the second mapping. */
  lemma FindLocalTestSecondMapping()
    ensures var a := NewSocketAddr(V6(Ipv6Addr(PREFIX_2)), 100);
      FirstMatch(TestMappings(), a, ProtoUdp) == Some((None, LOCAL_199))
    ensures var a := NewSocketAddr(V4(Ipv4Addr([199, 33, 123, 2])), 100);
      FirstMatch(TestMappings(), a, ProtoUdp) == Some((None, LOCAL_199))
  {
    TestTunnelMatchIps();
    SecondMappingMatchIps();
    assert (ZEROS_15 + [2 as u8])[15] != (ZEROS_15 + [0xc0 as u8])[15];
  }

  /** The match ips of the two addresses of `FindLocalTestSecondMapping`. */
  lemma SecondMappingMatchIps()
    ensures GetMatchIp(V6(Ipv6Addr(PREFIX_2))).octets == ZEROS_15 + [2]
    ensures GetMatchIp(V4(Ipv4Addr([199, 33, 123, 2]))).octets == ZEROS_15 + [2]
  {
    var ip := Ipv6Addr(PREFIX_2);
    assert IsPlayitPrefix(ip);
    assert ip.octets[6..] == [0, 0, 0, 0, 0, 0, 0, 0, 0, 2];
  }
}
