/** Where the agent forwards a tunnel's connections: each tunnel of the run data becomes an
    origin resource (a local address, or an http/https pair), stored by tunnel id and
    protocol, and a connection's port offset is resolved against it. */
module OriginLookups {
  import opened Ints
  import opened Net
  import opened Wrappers
  import opened ProtoLib
  import ApiTypes

  datatype ProxyProtocol = ProxyProtocolV1 | ProxyProtocolV2

  datatype OriginTarget =
    | Https(ip: IpAddr, httpPort: u16, httpsPort: u16)
    | Port(ip: IpAddr, port: u16)

  datatype OriginResource = OriginResource(
    tunnelId: u64, proto: PortProto, target: OriginTarget, portCount: u16,
    proxyProtocol: Option<ProxyProtocol>)

  datatype Key = Key(tunnelId: u64, isTcp: bool)

  datatype AgentTunnelAttr = AgentTunnelAttr(name: string, value: string)

  /** The part of a tunnel of the run data the lookup reads. */
  datatype AgentTunnel = AgentTunnel(
    internalId: u64, tunnelType: Option<string>, portType: ApiTypes.PortType, portCount: u16,
    fields: seq<AgentTunnelAttr>)

  /** Decoders the lookup borrows: whether a tunnel-type string names the https type, and
      the text form of an ip address. */
  datatype Parsers = Parsers(isHttps: string -> bool, parseIp: string -> Option<IpAddr>)

  // ---------------------------------------------------------------------------
  // Reading a tunnel's settings
  // ---------------------------------------------------------------------------

  /** The value of the first attribute with the given name. */
  function FindField(fields: seq<AgentTunnelAttr>, name: string): (r: Option<string>)
    ensures r.None? <==> forall i :: 0 <= i < |fields| ==> fields[i].name != name
    ensures r.Some? ==> exists i :: (0 <= i < |fields| && fields[i].name == name && fields[i].value == r.value &&
      forall j :: 0 <= j < i ==> fields[j].name != name)
  {
    if |fields| == 0 then None
    else if fields[0].name == name then Some(fields[0].value)
    else
      var r := FindField(fields[1..], name);
      assert forall j :: 1 <= j < |fields| ==> fields[j] == fields[1..][j - 1];
      if r.Some? then
        ghost var i :| 0 <= i < |fields[1..]| && fields[1..][i].name == name && fields[1..][i].value == r.value &&
          forall j :: 0 <= j < i ==> fields[1..][j].name != name;
        assert fields[i + 1] == fields[1..][i];
        r
      else r
  }

  /** The names the proxy protocol setting is written with. */
  function ParseProxyProtocol(s: string): (r: Option<ProxyProtocol>)
    ensures r == Some(ProxyProtocolV1) <==> s == "proxy-protocol-v1"
    ensures r == Some(ProxyProtocolV2) <==> s == "proxy-protocol-v2"
  {
    if s == "proxy-protocol-v1" then Some(ProxyProtocolV1)
    else if s == "proxy-protocol-v2" then Some(ProxyProtocolV2)
    else None
  }

  predicate AllDigits(s: string) {
    forall i :: 0 <= i < |s| ==> IsDecimalDigit(s[i])
  }

  /** `u16::from_str`: an optional `+`, then at least one decimal digit, with a value that
      fits in 16 bits. */
  function ParseU16(s: string): (r: Option<u16>)
    ensures r.Some? ==> |s| >= 1
    ensures r.Some? && s[0] != '+' ==> AllDigits(s) && r.value == DecimalValue(s)
  {
    var digits := if |s| > 0 && s[0] == '+' then s[1..] else s;
    if |digits| == 0 || !AllDigits(digits) then None
    else
      var v := DecimalValue(digits);
      if v < TWO_16 then Some(v) else None
  }

  /** A port printed in decimal parses back. */
  lemma ParseU16Decimal(n: u16)
    ensures ParseU16(Decimal(n)) == Some(n)
  {
    DecimalRoundTrip(n);
  }

  lemma ParseU16Rejects()
    ensures ParseU16("") == None && ParseU16("+") == None
    ensures ParseU16("-1") == None && ParseU16("65536") == None
    ensures ParseU16("+80") == Some(80)
  {
    assert !IsDecimalDigit('-');
    assert DecimalValue("8") == 8;
    assert "+80"[1..] == "80";
    assert "80"[..1] == "8";
    assert DecimalValue("80") == 80;
    assert "65536"[..4] == "6553" && "6553"[..3] == "655" && "655"[..2] == "65" && "65"[..1] == "6";
    assert DecimalValue("65536") == 65536;
  }

  function ParsedPort(fields: seq<AgentTunnelAttr>, name: string): Option<u16> {
    match FindField(fields, name)
    case Some(v) => ParseU16(v)
    case None => None
  }

  function LocalIp(fields: seq<AgentTunnelAttr>, parsers: Parsers): IpAddr {
    match FindField(fields, "local_ip")
    case Some(v) => (match parsers.parseIp(v) case Some(ip) => ip case None => V4(LOCALHOST_V4))
    case None => V4(LOCALHOST_V4)
  }

  function ProtoOf(t: ApiTypes.PortType): (p: PortProto) {
    match t
    case Tcp => PortProto.Tcp
    case Udp => PortProto.Udp
    case Both => PortProto.Both
  }

  /** `OriginResource::from_agent_tunnel`: an https tunnel takes its ip and both ports from
      its settings (default 127.0.0.1, 80 and 443); any other tunnel needs a `local_port`
      that parses, and takes its ip likewise. */
  function FromAgentTunnel(t: AgentTunnel, parsers: Parsers): (r: Option<OriginResource>)
    ensures r.None? <==> (!(t.tunnelType.Some? && parsers.isHttps(t.tunnelType.value)) &&
      ParsedPort(t.fields, "local_port").None?)
    ensures r.Some? ==> (r.value.tunnelId == t.internalId && r.value.portCount == t.portCount &&
      r.value.proto == ProtoOf(t.portType) && r.value.target.ip == LocalIp(t.fields, parsers))
    ensures r.Some? && r.value.target.Https? ==>
      r.value.target.httpPort == (match ParsedPort(t.fields, "http_port") case Some(p) => p case None => 80) &&
      r.value.target.httpsPort == (match ParsedPort(t.fields, "https_port") case Some(p) => p case None => 443)
    ensures r.Some? && r.value.target.Port? ==> Some(r.value.target.port) == ParsedPort(t.fields, "local_port")
    ensures r.Some? ==> (r.value.proxyProtocol ==
      match FindField(t.fields, "proxy_protocol") case Some(v) => ParseProxyProtocol(v) case None => None)
  {
    var proxyProtocol := match FindField(t.fields, "proxy_protocol")
      case Some(v) => ParseProxyProtocol(v)
      case None => None;
    var ip := LocalIp(t.fields, parsers);
    if t.tunnelType.Some? && parsers.isHttps(t.tunnelType.value) then
      var httpPort := match ParsedPort(t.fields, "http_port") case Some(p) => p case None => 80;
      var httpsPort := match ParsedPort(t.fields, "https_port") case Some(p) => p case None => 443;
      Some(OriginResource(t.internalId, ProtoOf(t.portType), Https(ip, httpPort, httpsPort), t.portCount, proxyProtocol))
    else
      match ParsedPort(t.fields, "local_port")
      case None => None
      case Some(port) =>
        Some(OriginResource(t.internalId, ProtoOf(t.portType), Port(ip, port), t.portCount, proxyProtocol))
  }

  // ---------------------------------------------------------------------------
  // Resolving a port offset
  // ---------------------------------------------------------------------------

  /** `resolve_local`: an https target answers offsets 0 and 1 with its two ports; a port
      target with no port count answers every offset with its base address, otherwise only
      offsets below the count, with the port moved by the offset (`u16` wrap-around). */
  function ResolveLocal(res: OriginResource, portOffset: u16): (r: Option<SocketAddr>)
    ensures res.target.Https? ==> (r.Some? <==> portOffset <= 1)
    ensures res.target.Https? && portOffset == 0 ==> r == Some(NewSocketAddr(res.target.ip, res.target.httpPort))
    ensures res.target.Https? && portOffset == 1 ==> r == Some(NewSocketAddr(res.target.ip, res.target.httpsPort))
    ensures res.target.Port? && res.portCount == 0 ==> r == Some(NewSocketAddr(res.target.ip, res.target.port))
    ensures res.target.Port? && res.portCount != 0 ==> (r.Some? <==> portOffset < res.portCount)
    ensures res.target.Port? && portOffset < res.portCount && res.target.port + portOffset < TWO_16 ==>
      r == Some(NewSocketAddr(res.target.ip, res.target.port + portOffset))
  {
    match res.target
    case Https(ip, httpPort, httpsPort) =>
      if portOffset == 0 then Some(NewSocketAddr(ip, httpPort))
      else if portOffset == 1 then Some(NewSocketAddr(ip, httpsPort))
      else None
    case Port(ip, port) =>
      if res.portCount == 0 then Some(NewSocketAddr(ip, port))
      else if res.portCount <= portOffset then None
      else Some(NewSocketAddr(ip, Add16(port, portOffset)))
  }

  /** Within a port target that does not run past port 65535, distinct offsets reach distinct
      local addresses. */
  lemma ResolveLocalInjective(res: OriginResource, a: u16, b: u16)
    requires res.target.Port? && res.target.port + res.portCount <= TWO_16
    requires a < res.portCount && b < res.portCount && a != b
    ensures ResolveLocal(res, a).Some? && ResolveLocal(res, b).Some?
    ensures ResolveLocal(res, a) != ResolveLocal(res, b)
  {
    assert ResolveLocal(res, a).value.Port() == res.target.port + a;
  }

  // ---------------------------------------------------------------------------
  // The lookup table
  // ---------------------------------------------------------------------------

  /** The keys a resource is stored under: its tcp key, its udp key, or both. */
  predicate StoredUnder(res: OriginResource, k: Key) {
    k.tunnelId == res.tunnelId &&
    (if k.isTcp then res.proto != PortProto.Udp else res.proto != PortProto.Tcp)
  }

  function Insert(m: map<Key, OriginResource>, res: OriginResource): (r: map<Key, OriginResource>)
    ensures forall k :: k in r <==> k in m || StoredUnder(res, k)
    ensures forall k :: k in r ==> r[k] == if StoredUnder(res, k) then res else m[k]
  {
    match res.proto
    case Tcp => m[Key(res.tunnelId, true) := res]
    case Udp => m[Key(res.tunnelId, false) := res]
    case Both => m[Key(res.tunnelId, true) := res][Key(res.tunnelId, false) := res]
  }

  /** The table `update` leaves: the resources inserted in order into an empty table. */
  function Table(resources: seq<OriginResource>): (r: map<Key, OriginResource>)
    ensures forall k :: k in r ==> StoredUnder(r[k], k)
    ensures forall k :: k in r ==> r[k] in resources
  {
    if |resources| == 0 then map[] else Insert(Table(resources[..|resources| - 1]), resources[|resources| - 1])
  }

  /** A key is present exactly when some resource is stored under it, and it holds the last
      such resource: later updates for the same tunnel and protocol win. */
  lemma TableLookup(resources: seq<OriginResource>, k: Key)
    ensures k in Table(resources) <==> exists i :: 0 <= i < |resources| && StoredUnder(resources[i], k)
    ensures k in Table(resources) ==> exists i :: (0 <= i < |resources| && StoredUnder(resources[i], k) &&
      Table(resources)[k] == resources[i] &&
      forall j :: i < j < |resources| ==> !StoredUnder(resources[j], k))
  {
    TablePresence(resources, k);
    if k in Table(resources) {
      var i := TableLast(resources, k);
    }
  }

  lemma {:induction false} TablePresence(resources: seq<OriginResource>, k: Key)
    ensures k in Table(resources) <==> exists i :: 0 <= i < |resources| && StoredUnder(resources[i], k)
  {
    if |resources| > 0 {
      var n := |resources| - 1;
      var prefix := resources[..n];
      TablePresence(prefix, k);
      assert forall i :: 0 <= i < n ==> prefix[i] == resources[i];
    }
  }

  /** The position of the resource a present key holds: the last one stored under it. */
  lemma {:induction false} TableLast(resources: seq<OriginResource>, k: Key) returns (i: nat)
    requires k in Table(resources)
    ensures i < |resources| && StoredUnder(resources[i], k) && Table(resources)[k] == resources[i]
    ensures forall j :: i < j < |resources| ==> !StoredUnder(resources[j], k)
  {
    var n := |resources| - 1;
    var prefix := resources[..n];
    if StoredUnder(resources[n], k) {
      i := n;
    } else {
      assert Table(resources)[k] == Table(prefix)[k];
      i := TableLast(prefix, k);
      assert prefix[i] == resources[i];
    }
  }

  /** Both keys of a `both` resource, and only its tunnel's, answer with it when no later
      resource replaces them. */
  lemma TableBoth(resources: seq<OriginResource>, res: OriginResource)
    requires res.proto == PortProto.Both
    ensures Table(resources + [res])[Key(res.tunnelId, true)] == res
    ensures Table(resources + [res])[Key(res.tunnelId, false)] == res
  {
    assert (resources + [res])[..|resources|] == resources;
  }

  class OriginLookup {
    var entries: map<Key, OriginResource>

    constructor()
      ensures entries == map[]
    {
      entries := map[];
    }

    /** `update`: the table is cleared, then every resource inserted under its keys. */
    method Update(resources: seq<OriginResource>)
      modifies this
      ensures entries == Table(resources)
    {
      entries := map[];
      for i := 0 to |resources|
        invariant entries == Table(resources[..i])
      {
        var res := resources[i];
        assert resources[..i + 1][..i] == resources[..i];
        match res.proto {
          case Tcp =>
            entries := entries[Key(res.tunnelId, true) := res];
          case Udp =>
            entries := entries[Key(res.tunnelId, false) := res];
          case Both =>
            entries := entries[Key(res.tunnelId, true) := res];
            entries := entries[Key(res.tunnelId, false) := res];
        }
      }
      assert resources[..|resources|] == resources;
    }

    /** `update_from_run_data`: the tunnels that convert, in order. */
    method UpdateFromRunData(tunnels: seq<AgentTunnel>, parsers: Parsers)
      modifies this
      ensures entries == Table(Converted(tunnels, parsers))
    {
      Update(Converted(tunnels, parsers));
    }

    function Lookup(tunnelId: u64, isTcp: bool): (r: Option<OriginResource>)
      reads this
      ensures r.Some? <==> Key(tunnelId, isTcp) in entries
      ensures r.Some? ==> r.value == entries[Key(tunnelId, isTcp)]
    {
      if Key(tunnelId, isTcp) in entries then Some(entries[Key(tunnelId, isTcp)]) else None
    }
  }

  /** The tunnels' resources, skipping those that do not convert. */
  function Converted(tunnels: seq<AgentTunnel>, parsers: Parsers): (r: seq<OriginResource>)
    ensures |r| <= |tunnels|
  {
    if |tunnels| == 0 then []
    else
      var rest := Converted(tunnels[1..], parsers);
      match FromAgentTunnel(tunnels[0], parsers)
      case Some(res) => [res] + rest
      case None => rest
  }
}
