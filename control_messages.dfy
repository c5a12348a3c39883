/** The control channel's request and response messages: a big-endian u32 tag, then the
    variant's fields. Old request versions (the legacy ping and the version-1 registration) are
    upgraded as they are decoded, and `AgentRegister` carries its protocol version in bit 63 of
    its first word. */
module ControlMessages {
  import opened Ints
  import opened Net
  import opened Wrappers
  import opened Encoding
  import opened ProtoLib

  // ---------------------------------------------------------------------------
  // Request ids
  // ---------------------------------------------------------------------------

  /** The `#[repr(u32)]` request ids 1 to 7; the `END` marker (8) is never a valid id. */
  datatype ControlRequestId =
    | PingV1 | AgentRegisterV1 | AgentKeepAliveV1 | SetupUdpChannelV1
    | AgentCheckPortMappingV1 | PingV2 | AgentRegisterV2

  const REQUEST_ID_END: u32 := 8

  function RequestIdNum(id: ControlRequestId): (n: u32)
    ensures 0 < n < REQUEST_ID_END
  {
    match id
    case PingV1 => 1
    case AgentRegisterV1 => 2
    case AgentKeepAliveV1 => 3
    case SetupUdpChannelV1 => 4
    case AgentCheckPortMappingV1 => 5
    case PingV2 => 6
    case AgentRegisterV2 => 7
  }

  /** `ControlRequestId::from_num`: `None` for 0 and for anything from `END` on. */
  function FromNum(num: u32): (r: Option<ControlRequestId>)
    ensures r.None? <==> num == 0 || REQUEST_ID_END <= num
    ensures r.Some? ==> RequestIdNum(r.value) == num
  {
    if REQUEST_ID_END <= num || num == 0 then None
    else if num == 1 then Some(PingV1)
    else if num == 2 then Some(ControlRequestId.AgentRegisterV1)
    else if num == 3 then Some(AgentKeepAliveV1)
    else if num == 4 then Some(SetupUdpChannelV1)
    else if num == 5 then Some(AgentCheckPortMappingV1)
    else if num == 6 then Some(PingV2)
    else Some(AgentRegisterV2)
  }

  /** Every id is recovered from its number. */
  lemma FromNumInverse(id: ControlRequestId)
    ensures FromNum(RequestIdNum(id)) == Some(id)
  {
  }

  function PutRequestId(id: ControlRequestId, rest: seq<u8>): (r: seq<u8>)
    ensures |r| == 4 + |rest|
    ensures GetRequestId(r) == Ok((id, rest))
  {
    FromNumInverse(id);
    PutU32(RequestIdNum(id), rest)
  }

  /** A u32 that is not a request id is rejected with `ErrorKind::InvalidData`. */
  function GetRequestId(s: seq<u8>): (r: Decoded<ControlRequestId>)
    ensures |s| < 4 ==> r == Err(UnexpectedEof)
    ensures GetU32(s).Ok? && FromNum(GetU32(s).value.0).None? ==> r == Err(InvalidData)
    ensures r.Ok? ==> GetU32(s) == Ok((RequestIdNum(r.value.0), r.value.1))
  {
    var v :- GetU32(s);
    match FromNum(v.0)
    case None => Err(InvalidData)
    case Some(id) => Ok((id, v.1))
  }

  // ---------------------------------------------------------------------------
  // Ping
  // ---------------------------------------------------------------------------

  datatype Ping = Ping(now: u64, currentPing: Option<u32>, sessionId: Option<AgentSessionId>)

  function PutPing(p: Ping, rest: seq<u8>): (r: seq<u8>)
    ensures 10 + |rest| <= |r| <= 38 + |rest|
    ensures GetPing(r) == Ok((p, rest))
  {
    var tail := PutOption(PutAgentSessionId, p.sessionId, rest);
    OptionRoundTrip(PutAgentSessionId, GetAgentSessionId, p.sessionId, rest);
    OptionRoundTrip(PutU32, GetU32, p.currentPing, tail);
    PutU64(p.now, PutOption(PutU32, p.currentPing, tail))
  }

  function GetPing(s: seq<u8>): (r: Decoded<Ping>)
    ensures |s| < 10 ==> r.Err?
  {
    var now :- GetU64(s);
    var current :- GetOption(GetU32, now.1);
    var session :- GetOption(GetAgentSessionId, current.1);
    Ok((Ping(now.0, current.0, session.0), session.1))
  }


  // ---------------------------------------------------------------------------
  // AgentRegister and its version-1 predecessor
  // ---------------------------------------------------------------------------

  const SIGNATURE_LEN: nat := 32

  const ZERO_SIGNATURE: seq<u8> := seq(32, i => 0)

  /** The 32-byte HMAC-SHA256 signature field. */
  type Signature = s: seq<u8> | |s| == 32 witness ZERO_SIGNATURE

  datatype AgentRegister = AgentRegister(
    protoVersion: u64, accountId: u64, agentId: u64, agentVersion: u64, timestamp: u64,
    clientAddr: SocketAddr, tunnelAddr: SocketAddr, signature: Signature)

  /** `ENCODING_INCLUDES_VERSION_BIT`, bit 63: a u64 has it set exactly when it is at least
      2^63, so `w & BIT == BIT` is `w >= 2^63`, `w | BIT` on a clear word adds 2^63 and
      `w & !BIT` on a set word subtracts it. */
  predicate HasVersionBit(w: u64) {
    w >= TWO_63
  }

  /** The first word of a version-2 encoding: the version with bit 63 set. */
  function WithVersionBit(v: u64): (w: u64)
    requires !HasVersionBit(v)
    ensures HasVersionBit(w) && WithoutVersionBit(w) == v
  {
    v + TWO_63
  }

  function WithoutVersionBit(w: u64): (v: u64)
    requires HasVersionBit(w)
    ensures !HasVersionBit(v)
  {
    w - TWO_63
  }

  /** A registration can be written unless a version-1 account id, or a version-2 protocol
      version, has bit 63 set. */
  predicate AgentRegisterWritable(m: AgentRegister) {
    if m.protoVersion <= 1 then !HasVersionBit(m.accountId) else !HasVersionBit(m.protoVersion)
  }

  /** The two socket addresses. */
  function PutAddrPair(c: SocketAddr, t: SocketAddr, rest: seq<u8>): (r: seq<u8>)
    ensures |r| == SocketAddrWriteLen(c) + SocketAddrWriteLen(t) + |rest|
    ensures GetAddrPair(r) == Ok(((WireSocketAddr(c), WireSocketAddr(t)), rest))
  {
    PutSocketAddr(c, PutSocketAddr(t, rest))
  }

  function GetAddrPair(s: seq<u8>): Decoded<(SocketAddr, SocketAddr)> {
    var c :- GetSocketAddr(s);
    var t :- GetSocketAddr(c.1);
    Ok(((c.0, t.0), t.1))
  }

  /** The fields between the account id and the signature: agent id, agent version, timestamp
      and the two socket addresses. */
  function PutRegisterMiddle(m: AgentRegister, rest: seq<u8>): (r: seq<u8>)
    ensures |r| == 24 + SocketAddrWriteLen(m.clientAddr) + SocketAddrWriteLen(m.tunnelAddr) + |rest|
    ensures GetRegisterMiddle(r) == Ok(((m.agentId, m.agentVersion, m.timestamp,
                                         WireSocketAddr(m.clientAddr), WireSocketAddr(m.tunnelAddr)), rest))
  {
    PutU64(m.agentId, PutU64(m.agentVersion, PutU64(m.timestamp, PutAddrPair(m.clientAddr, m.tunnelAddr, rest))))
  }

  function GetRegisterMiddle(s: seq<u8>): Decoded<(u64, u64, u64, SocketAddr, SocketAddr)> {
    var agentId :- GetU64(s);
    var agentVersion :- GetU64(agentId.1);
    var timestamp :- GetU64(agentVersion.1);
    var addrs :- GetAddrPair(timestamp.1);
    Ok(((agentId.0, agentVersion.0, timestamp.0, addrs.0.0, addrs.0.1), addrs.1))
  }

  /** The version word (for versions above 1) and the account id, or the `InvalidInput`
      error when bit 63 is in the way. */
  function PutRegisterHead(m: AgentRegister, rest: seq<u8>): (r: Result<seq<u8>, IoError>)
    ensures r.Err? <==> !AgentRegisterWritable(m)
    ensures r.Err? ==> r.error == InvalidInput
    ensures r.Ok? ==> |r.value| == (if m.protoVersion <= 1 then 8 else 16) + |rest|
    ensures r.Ok? ==> GetRegisterHead(r.value) == Ok(((if m.protoVersion <= 1 then 1 else m.protoVersion, m.accountId), rest))
  {
    if m.protoVersion <= 1 then
      if HasVersionBit(m.accountId) then Err(InvalidInput)
      else Ok(PutU64(m.accountId, rest))
    else
      if HasVersionBit(m.protoVersion) then Err(InvalidInput)
      else Ok(PutU64(WithVersionBit(m.protoVersion), PutU64(m.accountId, rest)))
  }

  /** A first word with bit 63 set is the version, followed by the account id; otherwise the
      first word is the account id and the version is 1. */
  function GetRegisterHead(s: seq<u8>): (r: Decoded<(u64, u64)>)
    ensures |s| < 8 ==> r == Err(UnexpectedEof)
    ensures r.Ok? && !HasVersionBit(GetU64(s).value.0) ==> r.value.0 == (1, GetU64(s).value.0)
    ensures r.Ok? && HasVersionBit(GetU64(s).value.0) ==> r.value.0.0 == WithoutVersionBit(GetU64(s).value.0)
  {
    var first :- GetU64(s);
    if HasVersionBit(first.0) then
      var account :- GetU64(first.1);
      Ok(((WithoutVersionBit(first.0), account.0), account.1))
    else Ok(((1, first.0), first.1))
  }

  /** Every field but the signature. */
  function PutRegisterFields(m: AgentRegister, rest: seq<u8>): (r: Result<seq<u8>, IoError>)
    ensures r == PutRegisterHead(m, PutRegisterMiddle(m, rest))
  {
    PutRegisterHead(m, PutRegisterMiddle(m, rest))
  }

  /** What a written registration decodes to: versions 0 and 1 are both written without a
      version word and come back as 1, and the socket addresses lose their v6 flow label and
      scope id. */
  function AgentRegisterDecoded(m: AgentRegister): AgentRegister {
    m.(protoVersion := if m.protoVersion <= 1 then 1 else m.protoVersion,
       clientAddr := WireSocketAddr(m.clientAddr),
       tunnelAddr := WireSocketAddr(m.tunnelAddr))
  }

  /** `AgentRegister::write_to`: the head, the middle fields and the raw signature. Version 0
      or 1 rejects an account id with bit 63 set; a later version rejects a version that has
      bit 63 set. */
  function PutAgentRegister(m: AgentRegister, rest: seq<u8>): (r: Result<seq<u8>, IoError>)
    ensures r.Err? <==> !AgentRegisterWritable(m)
    ensures r.Err? ==> r.error == InvalidInput
    ensures r.Ok? ==> (|r.value| == (if m.protoVersion <= 1 then 8 else 16) + 24
                       + SocketAddrWriteLen(m.clientAddr) + SocketAddrWriteLen(m.tunnelAddr) + 32 + |rest|)
    ensures r.Ok? ==> GetAgentRegister(r.value) == Ok((AgentRegisterDecoded(m), rest))
  {
    PutRegisterFields(m, PutArray(m.signature, rest))
  }

  /** `AgentRegister::read_from`. */
  function GetAgentRegister(s: seq<u8>): (r: Decoded<AgentRegister>)
    ensures GetRegisterHead(s).Err? ==> r == Err(GetRegisterHead(s).error)
    ensures r.Ok? ==> (r.value.0.protoVersion == GetRegisterHead(s).value.0.0
                       && r.value.0.accountId == GetRegisterHead(s).value.0.1)
  {
    var head :- GetRegisterHead(s);
    var mid :- GetRegisterMiddle(head.1);
    var sig :- GetArray(mid.1, SIGNATURE_LEN);
    var (agentId, agentVersion, timestamp, client, tunnel) := mid.0;
    Ok((AgentRegister(head.0.0, head.0.1, agentId, agentVersion, timestamp, client, tunnel, sig.0), sig.1))
  }

  /** A registration round-trips exactly when its version is at least 1 and both socket
      addresses survive the wire. */
  lemma AgentRegisterRoundTrip(m: AgentRegister, rest: seq<u8>)
    requires AgentRegisterWritable(m)
    ensures GetAgentRegister(PutAgentRegister(m, rest).value) == Ok((m, rest)) <==>
      m.protoVersion >= 1 && WireSocketAddr(m.clientAddr) == m.clientAddr && WireSocketAddr(m.tunnelAddr) == m.tunnelAddr
  {
  }

  /** The fields are written in front of whatever follows them. */
  lemma RegisterFieldsAppend(m: AgentRegister, b: seq<u8>)
    requires AgentRegisterWritable(m)
    ensures PutRegisterFields(m, b).Ok? && PutRegisterFields(m, []).Ok?
    ensures PutRegisterFields(m, b).value == PutRegisterFields(m, []).value + b
  {
    var mid := PutRegisterMiddle(m, []);
    assert PutRegisterMiddle(m, b) == mid + b by {
      var t := PutAddrPair(m.clientAddr, m.tunnelAddr, []);
      assert PutAddrPair(m.clientAddr, m.tunnelAddr, b) == t + b by {
        PutSocketAddrAppend(m.tunnelAddr, [], b);
        PutSocketAddrAppend(m.clientAddr, PutSocketAddr(m.tunnelAddr, []), b);
      }
      PutU64Append(m.timestamp, t, b);
      PutU64Append(m.agentVersion, PutU64(m.timestamp, t), b);
      PutU64Append(m.agentId, PutU64(m.agentVersion, PutU64(m.timestamp, t)), b);
    }
    if m.protoVersion <= 1 {
      PutU64Append(m.accountId, mid, b);
    } else {
      PutU64Append(m.accountId, mid, b);
      PutU64Append(WithVersionBit(m.protoVersion), PutU64(m.accountId, mid), b);
    }
  }

  /** `write_plain`: the encoding without its trailing 32 signature bytes, the data the HMAC
      signs. The Rust code unwraps the write, so it is only called on a writable registration. */
  function WritePlain(m: AgentRegister): (r: seq<u8>)
    requires AgentRegisterWritable(m)
    ensures r + m.signature == PutAgentRegister(m, []).value
    ensures r == PutRegisterFields(m, []).value
  {
    var full := PutAgentRegister(m, []).value;
    RegisterFieldsAppend(m, m.signature);
    assert PutArray(m.signature, []) == m.signature;
    assert full[..|full| - 32] == PutRegisterFields(m, []).value;
    full[..|full| - 32]
  }

  /** The signed bytes never depend on the signature they are signed into. */
  lemma WritePlainIgnoresSignature(m: AgentRegister, sig: Signature)
    requires AgentRegisterWritable(m)
    ensures WritePlain(m.(signature := sig)) == WritePlain(m)
  {
    var m' := m.(signature := sig);
    assert PutRegisterMiddle(m', []) == PutRegisterMiddle(m, []);
  }

  /** An HMAC-SHA256 keyed by the agent's secret, abstracted as the function from data to tag. */
  type Hmac = seq<u8> -> Signature

  /** `verify_signature`: the HMAC of the plain bytes equals the carried signature. */
  predicate VerifySignature(m: AgentRegister, hmac: Hmac)
    requires AgentRegisterWritable(m)
    ensures VerifySignature(m, hmac) <==> m.(signature := hmac(WritePlain(m))) == m
  {
    hmac(WritePlain(m)) == m.signature
  }

  /** `update_signature`: the registration with its signature replaced by the HMAC of its
      plain bytes, after which it verifies. */
  function UpdateSignature(m: AgentRegister, hmac: Hmac): (r: AgentRegister)
    requires AgentRegisterWritable(m)
    ensures AgentRegisterWritable(r) && r.(signature := m.signature) == m
    ensures VerifySignature(r, hmac)
  {
    WritePlainIgnoresSignature(m, hmac(WritePlain(m)));
    m.(signature := hmac(WritePlain(m)))
  }

  /** Signing twice gives the same signature: the plain bytes of a signed registration are
      those it was signed over. */
  lemma UpdateSignatureIdempotent(m: AgentRegister, hmac: Hmac)
    requires AgentRegisterWritable(m)
    ensures UpdateSignature(UpdateSignature(m, hmac), hmac) == UpdateSignature(m, hmac)
  {
    WritePlainIgnoresSignature(m, hmac(WritePlain(m)));
  }

  /** The legacy registration layout, read only for request id 2. */
  datatype AgentRegisterV1 = AgentRegisterV1(
    accountId: u64, agentId: u64, agentVersion: u64, timestamp: u64,
    clientAddr: SocketAddr, tunnelAddr: SocketAddr, signature: Signature)

  /** `AgentRegisterV1::upgrade`: version 1, every other field carried over. */
  function Upgrade(m: AgentRegisterV1): (r: AgentRegister)
    ensures r.protoVersion == 1
    ensures Downgrade(r) == m
  {
    AgentRegister(1, m.accountId, m.agentId, m.agentVersion, m.timestamp, m.clientAddr, m.tunnelAddr, m.signature)
  }

  /** The legacy view of a registration: every field but the version. */
  function Downgrade(m: AgentRegister): (r: AgentRegisterV1)
    ensures m.(protoVersion := 1) ==
      AgentRegister(1, r.accountId, r.agentId, r.agentVersion, r.timestamp, r.clientAddr, r.tunnelAddr, r.signature)
  {
    AgentRegisterV1.AgentRegisterV1(m.accountId, m.agentId, m.agentVersion, m.timestamp, m.clientAddr, m.tunnelAddr, m.signature)
  }

  function PutAgentRegisterV1(m: AgentRegisterV1, rest: seq<u8>): (r: seq<u8>)
    ensures GetAgentRegisterV1(r) == Ok((Downgrade(AgentRegisterDecoded(Upgrade(m))), rest))
  {
    var u := Upgrade(m);
    PutU64(m.accountId, PutRegisterMiddle(u, PutArray(m.signature, rest)))
  }

  /** `AgentRegisterV1::read_from`: the account id comes first with no version bit check, and
      fewer than 32 signature bytes is `UnexpectedEof`. */
  function GetAgentRegisterV1(s: seq<u8>): (r: Decoded<AgentRegisterV1>)
    ensures |s| < 8 ==> r == Err(UnexpectedEof)
  {
    var accountId :- GetU64(s);
    var mid :- GetRegisterMiddle(accountId.1);
    var sig :- GetArray(mid.1, SIGNATURE_LEN);
    var (agentId, agentVersion, timestamp, client, tunnel) := mid.0;
    Ok((AgentRegisterV1.AgentRegisterV1(accountId.0, agentId, agentVersion, timestamp, client, tunnel, sig.0), sig.1))
  }

  /** A version-0 or version-1 registration is written byte for byte in the legacy layout. */
  lemma AgentRegisterV1SameEncoding(m: AgentRegister, rest: seq<u8>)
    requires m.protoVersion <= 1 && !HasVersionBit(m.accountId)
    ensures PutAgentRegister(m, rest) == Ok(PutAgentRegisterV1(Downgrade(m), rest))
  {
    assert PutRegisterMiddle(Upgrade(Downgrade(m)), PutArray(m.signature, rest)) == PutRegisterMiddle(m, PutArray(m.signature, rest));
  }

  // ---------------------------------------------------------------------------
  // ControlRequest
  // ---------------------------------------------------------------------------

  datatype AgentCheckPortMapping = AgentCheckPortMapping(agentSessionId: AgentSessionId, portRange: PortRange)

  function PutAgentCheckPortMapping(m: AgentCheckPortMapping, rest: seq<u8>): (r: seq<u8>)
    ensures |r| == 24 + PortRangeWriteLen(m.portRange) + |rest|
    ensures GetAgentCheckPortMapping(r) == Ok((m, rest))
  {
    PutAgentSessionId(m.agentSessionId, PutPortRange(m.portRange, rest))
  }

  function GetAgentCheckPortMapping(s: seq<u8>): (r: Decoded<AgentCheckPortMapping>)
    ensures |s| < 24 ==> r == Err(UnexpectedEof)
  {
    var id :- GetAgentSessionId(s);
    var range :- GetPortRange(id.1);
    Ok((AgentCheckPortMapping(id.0, range.0), range.1))
  }

  datatype ControlRequest =
    | PingRequest(ping: Ping)
    | AgentRegisterRequest(register: AgentRegister)
    | AgentKeepAlive(keepAlive: AgentSessionId)
    | SetupUdpChannel(setup: AgentSessionId)
    | AgentCheckPortMappingRequest(check: AgentCheckPortMapping)

  /** The id a request is written with: `PingV2` for pings, `AgentRegisterV1` for a
      registration of version 0 or 1 and `AgentRegisterV2` for a later one. */
  function WrittenRequestId(m: ControlRequest): ControlRequestId {
    match m
    case PingRequest(_) => PingV2
    case AgentRegisterRequest(a) => if a.protoVersion <= 1 then ControlRequestId.AgentRegisterV1 else AgentRegisterV2
    case AgentKeepAlive(_) => AgentKeepAliveV1
    case SetupUdpChannel(_) => SetupUdpChannelV1
    case AgentCheckPortMappingRequest(_) => AgentCheckPortMappingV1
  }

  predicate ControlRequestWritable(m: ControlRequest) {
    m.AgentRegisterRequest? ==> AgentRegisterWritable(m.register)
  }

  /** What a written request decodes to. */
  function ControlRequestDecoded(m: ControlRequest): ControlRequest {
    match m
    case AgentRegisterRequest(a) => AgentRegisterRequest(AgentRegisterDecoded(a))
    case _ => m
  }

  /** `ControlRequest::MAX_SIZE` less the 4-byte id: the largest body, a version-2
      registration of 5 u64s, two 19-byte socket addresses and the signature. */
  const REQUEST_BODY_MAX_SIZE: nat := 5 * 8 + 2 * 19 + 32

  /** The fields of a request, after its id. */
  function PutRequestBody(m: ControlRequest, rest: seq<u8>): (r: Result<seq<u8>, IoError>)
    ensures r.Err? <==> !ControlRequestWritable(m)
    ensures r.Err? ==> r.error == InvalidInput
  {
    match m
    case PingRequest(p) => Ok(PutPing(p, rest))
    case AgentRegisterRequest(a) => PutAgentRegister(a, rest)
    case AgentKeepAlive(s) => Ok(PutAgentSessionId(s, rest))
    case SetupUdpChannel(s) => Ok(PutAgentSessionId(s, rest))
    case AgentCheckPortMappingRequest(c) => Ok(PutAgentCheckPortMapping(c, rest))
  }

  /** The body read back under the id it is written with is the request as it decodes. */
  lemma RequestBodyRoundTrip(m: ControlRequest, rest: seq<u8>)
    requires ControlRequestWritable(m)
    ensures GetRequestBody(WrittenRequestId(m), PutRequestBody(m, rest).value) == Ok((ControlRequestDecoded(m), rest))
  {
    match m
    case PingRequest(p) => PingBodyDecodes(p, rest);
    case AgentRegisterRequest(a) => RegisterBodyDecodes(a, rest);
    case AgentKeepAlive(s) => SessionBodyDecodes(s, rest);
    case SetupUdpChannel(s) => SessionBodyDecodes(s, rest);
    case AgentCheckPortMappingRequest(c) => CheckBodyDecodes(c, rest);
  }

  lemma PingBodyDecodes(p: Ping, rest: seq<u8>)
    ensures GetRequestBody(PingV2, PutPing(p, rest)) == Ok((PingRequest(p), rest))
  {
  }

  lemma SessionBodyDecodes(s: AgentSessionId, rest: seq<u8>)
    ensures GetRequestBody(AgentKeepAliveV1, PutAgentSessionId(s, rest)) == Ok((AgentKeepAlive(s), rest))
    ensures GetRequestBody(SetupUdpChannelV1, PutAgentSessionId(s, rest)) == Ok((SetupUdpChannel(s), rest))
  {
  }

  lemma CheckBodyDecodes(c: AgentCheckPortMapping, rest: seq<u8>)
    ensures GetRequestBody(AgentCheckPortMappingV1, PutAgentCheckPortMapping(c, rest)) == Ok((AgentCheckPortMappingRequest(c), rest))
  {
  }

  /** A registration of version 0 or 1 goes out under the legacy id and comes back through
      the legacy reader and `upgrade`; a later one uses the current reader. */
  lemma RegisterBodyDecodes(a: AgentRegister, rest: seq<u8>)
    requires AgentRegisterWritable(a)
    ensures GetRequestBody(WrittenRequestId(AgentRegisterRequest(a)), PutAgentRegister(a, rest).value)
      == Ok((AgentRegisterRequest(AgentRegisterDecoded(a)), rest))
  {
    if a.protoVersion <= 1 {
      LegacyRegisterBodyDecodes(a, rest);
    } else {
      assert GetRequestBody(AgentRegisterV2, PutAgentRegister(a, rest).value)
        == Ok((AgentRegisterRequest(AgentRegisterDecoded(a)), rest));
    }
  }

  lemma LegacyRegisterBodyDecodes(a: AgentRegister, rest: seq<u8>)
    requires a.protoVersion <= 1 && !HasVersionBit(a.accountId)
    ensures GetRequestBody(ControlRequestId.AgentRegisterV1, PutAgentRegister(a, rest).value)
      == Ok((AgentRegisterRequest(AgentRegisterDecoded(a)), rest))
  {
    AgentRegisterV1SameEncoding(a, rest);
    var v := Downgrade(AgentRegisterDecoded(Upgrade(Downgrade(a))));
    assert GetAgentRegisterV1(PutAgentRegisterV1(Downgrade(a), rest)) == Ok((v, rest));
    assert Upgrade(v) == AgentRegisterDecoded(a);
  }

  /** `ControlRequest::write_to`: the request id as a big-endian u32, then the body. */
  function PutControlRequest(m: ControlRequest, rest: seq<u8>): (r: Result<seq<u8>, IoError>)
    ensures r.Err? <==> !ControlRequestWritable(m)
    ensures r.Err? ==> r.error == InvalidInput
    ensures r.Ok? ==> GetRequestId(r.value).Ok? && GetRequestId(r.value).value.0 == WrittenRequestId(m)
    ensures r.Ok? ==> GetControlRequest(r.value) == Ok((ControlRequestDecoded(m), rest))
  {
    var body :- PutRequestBody(m, rest);
    RequestBodyRoundTrip(m, rest);
    Ok(PutRequestId(WrittenRequestId(m), body))
  }

  /** The body that follows request id `id`. Id 1 is the legacy ping: a bare `now`, with no
      current ping and no session. Id 2 is a legacy registration, upgraded to version 1. */
  function GetRequestBody(id: ControlRequestId, s: seq<u8>): (r: Decoded<ControlRequest>)
    ensures id == PingV1 ==> r == (var now :- GetU64(s); Ok((PingRequest(Ping(now.0, None, None)), now.1)))
    ensures id == ControlRequestId.AgentRegisterV1 && r.Ok? ==>
      r.value.0.AgentRegisterRequest? && r.value.0.register.protoVersion == 1
  {
    match id
    case PingV2 =>
      var p :- GetPing(s);
      Ok((PingRequest(p.0), p.1))
    case AgentRegisterV1 =>
      var a :- GetAgentRegisterV1(s);
      Ok((AgentRegisterRequest(Upgrade(a.0)), a.1))
    case AgentRegisterV2 =>
      var a :- GetAgentRegister(s);
      Ok((AgentRegisterRequest(a.0), a.1))
    case AgentKeepAliveV1 =>
      var a :- GetAgentSessionId(s);
      Ok((AgentKeepAlive(a.0), a.1))
    case SetupUdpChannelV1 =>
      var a :- GetAgentSessionId(s);
      Ok((SetupUdpChannel(a.0), a.1))
    case AgentCheckPortMappingV1 =>
      var c :- GetAgentCheckPortMapping(s);
      Ok((AgentCheckPortMappingRequest(c.0), c.1))
    case PingV1 =>
      var now :- GetU64(s);
      Ok((PingRequest(Ping(now.0, None, None)), now.1))
  }

  /** `ControlRequest::read_from`: the id, then the body it selects. */
  function GetControlRequest(s: seq<u8>): (r: Decoded<ControlRequest>)
    ensures GetRequestId(s).Err? ==> r == Err(GetRequestId(s).error)
    ensures GetRequestId(s).Ok? ==> r == GetRequestBody(GetRequestId(s).value.0, GetRequestId(s).value.1)
  {
    var id :- GetRequestId(s);
    GetRequestBody(id.0, id.1)
  }

  /** A request round-trips exactly when a registration in it has a version of at least 1 and
      socket addresses that survive the wire. */
  lemma ControlRequestRoundTrip(m: ControlRequest, rest: seq<u8>)
    requires ControlRequestWritable(m)
    ensures GetControlRequest(PutControlRequest(m, rest).value) == Ok((m, rest)) <==>
      (m.AgentRegisterRequest? ==>
         (m.register.protoVersion >= 1
          && WireSocketAddr(m.register.clientAddr) == m.register.clientAddr
          && WireSocketAddr(m.register.tunnelAddr) == m.register.tunnelAddr))
  {
  }

  /** A legacy registration frame decodes to the upgraded registration. */
  lemma LegacyRegisterDecode(v1: AgentRegisterV1, rest: seq<u8>)
    ensures GetControlRequest(PutRequestId(ControlRequestId.AgentRegisterV1, PutAgentRegisterV1(v1, rest)))
      == Ok((AgentRegisterRequest(AgentRegisterDecoded(Upgrade(v1))), rest))
  {
  }

  /** A legacy ping frame (id 1 and a bare u64) decodes to a ping with no current ping and no
      session. */
  lemma LegacyPingDecode(now: u64, rest: seq<u8>)
    ensures GetControlRequest(PutRequestId(PingV1, PutU64(now, rest)))
      == Ok((PingRequest(Ping(now, None, None)), rest))
  {
  }

  /** `ControlRequest::MAX_SIZE`: the id and the largest body. */
  lemma ControlRequestMaxSize(m: ControlRequest)
    requires ControlRequestWritable(m)
    ensures |PutControlRequest(m, []).value| <= 4 + REQUEST_BODY_MAX_SIZE
  {
    RequestBodyMaxSize(m);
    assert PutControlRequest(m, []).value == PutRequestId(WrittenRequestId(m), PutRequestBody(m, []).value);
  }

  lemma RequestBodyMaxSize(m: ControlRequest)
    requires ControlRequestWritable(m)
    ensures |PutRequestBody(m, []).value| <= REQUEST_BODY_MAX_SIZE
  {
    match m
    case PingRequest(p) =>
    case AgentRegisterRequest(a) => RegisterBodyMaxSize(a);
    case AgentKeepAlive(k) =>
    case SetupUdpChannel(k) =>
    case AgentCheckPortMappingRequest(c) => PortRangeMaxSize(c.portRange);
  }

  lemma RegisterBodyMaxSize(a: AgentRegister)
    requires AgentRegisterWritable(a)
    ensures |PutAgentRegister(a, []).value| <= REQUEST_BODY_MAX_SIZE
  {
    SocketAddrMaxSize(a.clientAddr);
    SocketAddrMaxSize(a.tunnelAddr);
  }

  // ---------------------------------------------------------------------------
  // ControlResponse
  // ---------------------------------------------------------------------------

  datatype Pong = Pong(
    requestNow: u64, serverNow: u64, serverId: u64, dataCenterId: u32,
    clientAddr: SocketAddr, tunnelAddr: SocketAddr, sessionExpireAt: Option<u64>)

  function PongDecoded(p: Pong): Pong {
    p.(clientAddr := WireSocketAddr(p.clientAddr), tunnelAddr := WireSocketAddr(p.tunnelAddr))
  }

  /** A pong's addresses and session expiry. */
  function PutPongTail(c: SocketAddr, t: SocketAddr, expire: Option<u64>, rest: seq<u8>): (r: seq<u8>)
    ensures GetPongTail(r) == Ok(((WireSocketAddr(c), WireSocketAddr(t), expire), rest))
  {
    OptionRoundTrip(PutU64, GetU64, expire, rest);
    PutAddrPair(c, t, PutOption(PutU64, expire, rest))
  }

  function GetPongTail(s: seq<u8>): Decoded<(SocketAddr, SocketAddr, Option<u64>)> {
    var addrs :- GetAddrPair(s);
    var expire :- GetOption(GetU64, addrs.1);
    Ok(((addrs.0.0, addrs.0.1, expire.0), expire.1))
  }

  function PutPong(p: Pong, rest: seq<u8>): (r: seq<u8>)
    ensures GetPong(r) == Ok((PongDecoded(p), rest))
  {
    PutU64(p.requestNow, PutU64(p.serverNow, PutU64(p.serverId, PutU32(p.dataCenterId,
      PutPongTail(p.clientAddr, p.tunnelAddr, p.sessionExpireAt, rest)))))
  }

  function GetPong(s: seq<u8>): (r: Decoded<Pong>)
    ensures |s| < 8 ==> r == Err(UnexpectedEof)
  {
    var requestNow :- GetU64(s);
    var serverNow :- GetU64(requestNow.1);
    var serverId :- GetU64(serverNow.1);
    var dc :- GetU32(serverId.1);
    var tail :- GetPongTail(dc.1);
    var (client, tunnel, expire) := tail.0;
    Ok((Pong(requestNow.0, serverNow.0, serverId.0, dc.0, client, tunnel, expire), tail.1))
  }

  datatype AgentRegistered = AgentRegistered(id: AgentSessionId, expiresAt: u64)

  function PutAgentRegistered(a: AgentRegistered, rest: seq<u8>): (r: seq<u8>)
    ensures |r| == 32 + |rest|
    ensures GetAgentRegistered(r) == Ok((a, rest))
  {
    PutAgentSessionId(a.id, PutU64(a.expiresAt, rest))
  }

  function GetAgentRegistered(s: seq<u8>): (r: Decoded<AgentRegistered>)
    ensures r.Err? <==> |s| < 32
  {
    var id :- GetAgentSessionId(s);
    var expires :- GetU64(id.1);
    Ok((AgentRegistered(id.0, expires.0), expires.1))
  }

  /** The only found-mapping variant, tagged with u32 1. */
  datatype AgentPortMappingFound = ToAgent(agent: AgentSessionId)

  function PutAgentPortMappingFound(f: AgentPortMappingFound, rest: seq<u8>): (r: seq<u8>)
    ensures |r| == 28 + |rest|
    ensures GetAgentPortMappingFound(r) == Ok((f, rest))
  {
    PutU32(1, PutAgentSessionId(f.agent, rest))
  }

  /** A tag other than 1 is rejected with `ErrorKind::Other`. */
  function GetAgentPortMappingFound(s: seq<u8>): (r: Decoded<AgentPortMappingFound>)
    ensures GetU32(s).Ok? && GetU32(s).value.0 != 1 ==> r == Err(Other)
  {
    var tag :- GetU32(s);
    if tag.0 == 1 then
      var id :- GetAgentSessionId(tag.1);
      Ok((ToAgent(id.0), id.1))
    else Err(Other)
  }

  datatype AgentPortMapping = AgentPortMapping(range: PortRange, found: Option<AgentPortMappingFound>)

  function PutAgentPortMapping(m: AgentPortMapping, rest: seq<u8>): (r: seq<u8>)
    ensures GetAgentPortMapping(r) == Ok((m, rest))
  {
    OptionRoundTrip(PutAgentPortMappingFound, GetAgentPortMappingFound, m.found, rest);
    PutPortRange(m.range, PutOption(PutAgentPortMappingFound, m.found, rest))
  }

  function GetAgentPortMapping(s: seq<u8>): (r: Decoded<AgentPortMapping>)
    ensures GetPortRange(s).Err? ==> r == Err(GetPortRange(s).error)
  {
    var range :- GetPortRange(s);
    var found :- GetOption(GetAgentPortMappingFound, range.1);
    Ok((AgentPortMapping(range.0, found.0), found.1))
  }

  datatype UdpChannelDetails = UdpChannelDetails(tunnelAddr: SocketAddr, token: ByteVec)

  function PutUdpChannelDetails(d: UdpChannelDetails, rest: seq<u8>): (r: seq<u8>)
    ensures |r| == SocketAddrWriteLen(d.tunnelAddr) + 8 + |d.token| + |rest|
    ensures GetUdpChannelDetails(r) == Ok((d.(tunnelAddr := WireSocketAddr(d.tunnelAddr)), rest))
  {
    PutSocketAddr(d.tunnelAddr, PutBytes(d.token, rest))
  }

  function GetUdpChannelDetails(s: seq<u8>): (r: Decoded<UdpChannelDetails>)
    ensures GetSocketAddr(s).Err? ==> r == Err(GetSocketAddr(s).error)
  {
    var addr :- GetSocketAddr(s);
    var token :- GetBytes(addr.1);
    Ok((UdpChannelDetails(addr.0, token.0), token.1))
  }

  datatype ControlResponse =
    | PongResponse(pong: Pong)
    | InvalidSignature
    | Unauthorized
    | RequestQueued
    | TryAgainLater
    | AgentRegisteredResponse(registered: AgentRegistered)
    | AgentPortMappingResponse(mapping: AgentPortMapping)
    | UdpChannelDetailsResponse(details: UdpChannelDetails)

  /** The u32 tag of each response variant, 1 to 8 in declaration order. */
  function ResponseTag(m: ControlResponse): (t: u32)
    ensures 1 <= t <= 8
  {
    match m
    case PongResponse(_) => 1
    case InvalidSignature => 2
    case Unauthorized => 3
    case RequestQueued => 4
    case TryAgainLater => 5
    case AgentRegisteredResponse(_) => 6
    case AgentPortMappingResponse(_) => 7
    case UdpChannelDetailsResponse(_) => 8
  }

  /** What a written response decodes to: its socket addresses lose their v6 flow label and
      scope id. */
  function ControlResponseDecoded(m: ControlResponse): ControlResponse {
    match m
    case PongResponse(p) => PongResponse(PongDecoded(p))
    case UdpChannelDetailsResponse(d) => UdpChannelDetailsResponse(d.(tunnelAddr := WireSocketAddr(d.tunnelAddr)))
    case _ => m
  }

  function PutResponseBody(m: ControlResponse, rest: seq<u8>): (r: seq<u8>)
    ensures GetResponseBody(ResponseTag(m), r) == Ok((ControlResponseDecoded(m), rest))
  {
    match m
    case PongResponse(p) =>
      assert ResponseTag(m) == 1;
      PongBodyDecodes(p, rest); PutPong(p, rest)
    case AgentRegisteredResponse(a) =>
      assert ResponseTag(m) == 6 && ControlResponseDecoded(m) == m;
      RegisteredBodyDecodes(a, rest); PutAgentRegistered(a, rest)
    case AgentPortMappingResponse(a) =>
      assert ResponseTag(m) == 7 && ControlResponseDecoded(m) == m;
      MappingBodyDecodes(a, rest); PutAgentPortMapping(a, rest)
    case UdpChannelDetailsResponse(d) =>
      assert ResponseTag(m) == 8;
      DetailsBodyDecodes(d, rest); PutUdpChannelDetails(d, rest)
    case _ => EmptyBodyDecodes(m, rest); rest
  }

  lemma PongBodyDecodes(p: Pong, rest: seq<u8>)
    ensures GetResponseBody(1, PutPong(p, rest)) == Ok((PongResponse(PongDecoded(p)), rest))
  {
  }

  lemma RegisteredBodyDecodes(a: AgentRegistered, rest: seq<u8>)
    ensures GetResponseBody(6, PutAgentRegistered(a, rest)) == Ok((AgentRegisteredResponse(a), rest))
  {
  }

  lemma MappingBodyDecodes(a: AgentPortMapping, rest: seq<u8>)
    ensures GetResponseBody(7, PutAgentPortMapping(a, rest)) == Ok((AgentPortMappingResponse(a), rest))
  {
  }

  lemma DetailsBodyDecodes(d: UdpChannelDetails, rest: seq<u8>)
    ensures GetResponseBody(8, PutUdpChannelDetails(d, rest))
      == Ok((UdpChannelDetailsResponse(d.(tunnelAddr := WireSocketAddr(d.tunnelAddr))), rest))
  {
  }

  lemma EmptyBodyDecodes(m: ControlResponse, rest: seq<u8>)
    requires m.InvalidSignature? || m.Unauthorized? || m.RequestQueued? || m.TryAgainLater?
    ensures GetResponseBody(ResponseTag(m), rest) == Ok((m, rest))
  {
  }

  /** `ControlResponse::write_to`: the tag as a big-endian u32, then the variant's fields. */
  function PutControlResponse(m: ControlResponse, rest: seq<u8>): (r: seq<u8>)
    ensures GetU32(r).Ok? && GetU32(r).value.0 == ResponseTag(m)
    ensures GetControlResponse(r) == Ok((ControlResponseDecoded(m), rest))
  {
    PutU32(ResponseTag(m), PutResponseBody(m, rest))
  }

  function GetPongResponse(s: seq<u8>): Decoded<ControlResponse> {
    var p :- GetPong(s);
    Ok((PongResponse(p.0), p.1))
  }

  function GetAgentRegisteredResponse(s: seq<u8>): Decoded<ControlResponse> {
    var a :- GetAgentRegistered(s);
    Ok((AgentRegisteredResponse(a.0), a.1))
  }

  function GetAgentPortMappingResponse(s: seq<u8>): Decoded<ControlResponse> {
    var a :- GetAgentPortMapping(s);
    Ok((AgentPortMappingResponse(a.0), a.1))
  }

  function GetUdpChannelDetailsResponse(s: seq<u8>): Decoded<ControlResponse> {
    var d :- GetUdpChannelDetails(s);
    Ok((UdpChannelDetailsResponse(d.0), d.1))
  }

  /** The fields that follow tag `tag`, which is one of 1 to 8. */
  function GetResponseBody(tag: u32, s: seq<u8>): (r: Decoded<ControlResponse>)
    requires 1 <= tag <= 8
    ensures r.Ok? ==> ResponseTag(r.value.0) == tag
    ensures 2 <= tag <= 5 ==> r.Ok? && r.value.1 == s
  {
    if tag == 1 then GetPongResponse(s)
    else if tag == 2 then Ok((InvalidSignature, s))
    else if tag == 3 then Ok((Unauthorized, s))
    else if tag == 4 then Ok((RequestQueued, s))
    else if tag == 5 then Ok((TryAgainLater, s))
    else if tag == 6 then GetAgentRegisteredResponse(s)
    else if tag == 7 then GetAgentPortMappingResponse(s)
    else GetUdpChannelDetailsResponse(s)
  }

  /** `ControlResponse::read_from`: tags 1 to 8 select the variants; any other tag is
      rejected with `ErrorKind::Other`. */
  function GetControlResponse(s: seq<u8>): (r: Decoded<ControlResponse>)
    ensures |s| < 4 ==> r == Err(UnexpectedEof)
    ensures GetU32(s).Ok? && !(1 <= GetU32(s).value.0 <= 8) ==> r == Err(Other)
  {
    var tag :- GetU32(s);
    if 1 <= tag.0 <= 8 then GetResponseBody(tag.0, tag.1) else Err(Other)
  }

  /** A response round-trips exactly when its socket addresses survive the wire. */
  lemma ControlResponseRoundTrip(m: ControlResponse, rest: seq<u8>)
    ensures GetControlResponse(PutControlResponse(m, rest)) == Ok((m, rest)) <==> ControlResponseDecoded(m) == m
  {
  }
}
