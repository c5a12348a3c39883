/** The agent protocol's shared records: the session id triple, the port-protocol code and a
    claimed port range, with their wire encodings. */
module ProtoLib {
  import opened Ints
  import opened Net
  import opened Wrappers
  import opened Encoding

  datatype AgentSessionId = AgentSessionId(sessionId: u64, accountId: u64, agentId: u64)

  /** Declared in the order `Both, Tcp, Udp`, which is also the derived `Ord`. */
  datatype PortProto = Both | Tcp | Udp

  datatype PortRange = PortRange(ip: IpAddr, portStart: u16, portEnd: u16, portProto: PortProto)

  // ---------------------------------------------------------------------------
  // AgentSessionId: three big-endian u64s
  // ---------------------------------------------------------------------------

  function PutAgentSessionId(id: AgentSessionId, rest: seq<u8>): (r: seq<u8>)
    ensures |r| == 24 + |rest|
    ensures GetAgentSessionId(r) == Ok((id, rest))
  {
    PutU64(id.sessionId, PutU64(id.accountId, PutU64(id.agentId, rest)))
  }

  function GetAgentSessionId(s: seq<u8>): (r: Decoded<AgentSessionId>)
    ensures r.Err? <==> |s| < 24
    ensures r.Err? ==> r.error == UnexpectedEof
    ensures r.Ok? ==> |r.value.1| == |s| - 24
  {
    var a :- GetU64(s);
    var b :- GetU64(a.1);
    var c :- GetU64(b.1);
    Ok((AgentSessionId(a.0, b.0, c.0), c.1))
  }

  // ---------------------------------------------------------------------------
  // PortProto: one byte
  // ---------------------------------------------------------------------------

  function PortProtoCode(p: PortProto): u8 {
    match p
    case Tcp => 1
    case Udp => 2
    case Both => 3
  }

  function PutPortProto(p: PortProto, rest: seq<u8>): (r: seq<u8>)
    ensures |r| == 1 + |rest| && r[0] == PortProtoCode(p)
    ensures GetPortProto(r) == Ok((p, rest))
  {
    PutU8(PortProtoCode(p), rest)
  }

  /** Bytes 1, 2 and 3 are the three protocols; any other byte is rejected with
      `ErrorKind::Other`. */
  function GetPortProto(s: seq<u8>): (r: Decoded<PortProto>)
    ensures |s| == 0 ==> r == Err(UnexpectedEof)
    ensures |s| > 0 ==> (r.Ok? <==> 1 <= s[0] <= 3)
    ensures |s| > 0 && !(1 <= s[0] <= 3) ==> r == Err(Other)
    ensures r.Ok? ==> PortProtoCode(r.value.0) == s[0] && r.value.1 == s[1..]
  {
    var b :- GetU8(s);
    if b.0 == 1 then Ok((Tcp, b.1))
    else if b.0 == 2 then Ok((Udp, b.1))
    else if b.0 == 3 then Ok((Both, b.1))
    else Err(Other)
  }

  // ---------------------------------------------------------------------------
  // PortRange: ip, big-endian port_start, big-endian port_end, proto
  // ---------------------------------------------------------------------------

  /** The byte count `PortRange::write_to` returns: 4 for the two ports, plus what the ip and
      proto writes returned. */
  function PortRangeWriteLen(p: PortRange): nat {
    4 + IpWriteLen(p.ip) + 1
  }

  function PutPortRange(p: PortRange, rest: seq<u8>): (r: seq<u8>)
    ensures |r| == PortRangeWriteLen(p) + |rest|
    ensures r == PutIpAddr(p.ip, PutU16(p.portStart, PutU16(p.portEnd, PutPortProto(p.portProto, rest))))
    ensures GetPortRange(r) == Ok((p, rest))
  {
    PutIpAddr(p.ip, PutU16(p.portStart, PutU16(p.portEnd, PutPortProto(p.portProto, rest))))
  }

  function GetPortRange(s: seq<u8>): (r: Decoded<PortRange>)
    ensures GetIpAddr(s).Err? ==> r == Err(GetIpAddr(s).error)
  {
    var ip :- GetIpAddr(s);
    var start :- GetU16(ip.1);
    var end :- GetU16(start.1);
    var proto :- GetPortProto(end.1);
    Ok((PortRange(ip.0, start.0, end.0, proto.0), proto.1))
  }

  /** Every port range encodes in at most 22 bytes: the largest ip (17), the two ports and the
      proto byte. */
  lemma PortRangeMaxSize(p: PortRange)
    ensures |PutPortRange(p, [])| <= 17 + 4 + 1
  {
  }
}
