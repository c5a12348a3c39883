/** The control feed: what the control server pushes to the agent, either the response to an
    earlier request (tag 1) or a new client to connect to (tag 2). */
module ControlFeed {
  import opened Ints
  import opened Net
  import opened Wrappers
  import opened Encoding
  import opened Rpc
  import opened ControlMessages

  /** Where and how to claim a new client's connection: an address and a token the agent passes back unread. */
  datatype ClaimInstructions = ClaimInstructions(address: SocketAddr, token: ByteVec)

  datatype NewClient = NewClient(
    connectAddr: SocketAddr, peerAddr: SocketAddr, claimInstructions: ClaimInstructions,
    tunnelServerId: u64, dataCenterId: u32)

  /** `ControlFeed::Response` and `ControlFeed::NewClient`. */
  datatype ControlFeed =
    | ResponseFeed(response: ControlRpcMessage<ControlResponse>)
    | NewClientFeed(client: NewClient)

  // ---------------------------------------------------------------------------
  // ClaimInstructions: address, then the length-prefixed token
  // ---------------------------------------------------------------------------

  function ClaimInstructionsDecoded(c: ClaimInstructions): ClaimInstructions {
    c.(address := WireSocketAddr(c.address))
  }

  function PutClaimInstructions(c: ClaimInstructions, rest: seq<u8>): (r: seq<u8>)
    ensures |r| == SocketAddrWriteLen(c.address) + 8 + |c.token| + |rest|
    ensures r == PutSocketAddr(c.address, PutBytes(c.token, rest))
    ensures GetClaimInstructions(r) == Ok((ClaimInstructionsDecoded(c), rest))
  {
    PutSocketAddr(c.address, PutBytes(c.token, rest))
  }

  function GetClaimInstructions(s: seq<u8>): (r: Decoded<ClaimInstructions>)
    ensures GetSocketAddr(s).Err? ==> r == Err(GetSocketAddr(s).error)
    ensures GetSocketAddr(s).Ok? && GetBytes(GetSocketAddr(s).value.1).Err? ==>
      r == Err(GetBytes(GetSocketAddr(s).value.1).error)
  {
    var address :- GetSocketAddr(s);
    var token :- GetBytes(address.1);
    Ok((ClaimInstructions(address.0, token.0), token.1))
  }

  // ---------------------------------------------------------------------------
  // NewClient: connect addr, peer addr, claim instructions, BE u64 server id, BE u32 dc id
  // ---------------------------------------------------------------------------

  function NewClientDecoded(c: NewClient): NewClient {
    c.(connectAddr := WireSocketAddr(c.connectAddr), peerAddr := WireSocketAddr(c.peerAddr),
       claimInstructions := ClaimInstructionsDecoded(c.claimInstructions))
  }

  /** The two trailing ids. */
  function PutNewClientTail(serverId: u64, dcId: u32, rest: seq<u8>): (r: seq<u8>)
    ensures |r| == 12 + |rest|
    ensures GetNewClientTail(r) == Ok(((serverId, dcId), rest))
  {
    PutU64(serverId, PutU32(dcId, rest))
  }

  function GetNewClientTail(s: seq<u8>): (r: Decoded<(u64, u32)>)
    ensures r.Err? <==> |s| < 12
    ensures r.Err? ==> r.error == UnexpectedEof
  {
    var serverId :- GetU64(s);
    var dcId :- GetU32(serverId.1);
    Ok(((serverId.0, dcId.0), dcId.1))
  }

  function NewClientWriteLen(c: NewClient): nat {
    SocketAddrWriteLen(c.connectAddr) + SocketAddrWriteLen(c.peerAddr)
      + SocketAddrWriteLen(c.claimInstructions.address) + 8 + |c.claimInstructions.token| + 12
  }

  function PutNewClient(c: NewClient, rest: seq<u8>): (r: seq<u8>)
    ensures |r| == NewClientWriteLen(c) + |rest|
    ensures r == PutAddrPair(c.connectAddr, c.peerAddr,
                   PutClaimInstructions(c.claimInstructions,
                     PutNewClientTail(c.tunnelServerId, c.dataCenterId, rest)))
    ensures GetNewClient(r) == Ok((NewClientDecoded(c), rest))
  {
    PutAddrPair(c.connectAddr, c.peerAddr,
      PutClaimInstructions(c.claimInstructions, PutNewClientTail(c.tunnelServerId, c.dataCenterId, rest)))
  }

  function GetNewClient(s: seq<u8>): (r: Decoded<NewClient>)
    ensures GetAddrPair(s).Err? ==> r == Err(GetAddrPair(s).error)
  {
    var addrs :- GetAddrPair(s);
    var claim :- GetClaimInstructions(addrs.1);
    var tail :- GetNewClientTail(claim.1);
    Ok((NewClient(addrs.0.0, addrs.0.1, claim.0, tail.0.0, tail.0.1), tail.1))
  }

  // ---------------------------------------------------------------------------
  // ControlFeed: a BE u32 tag, then the payload
  // ---------------------------------------------------------------------------

  /** The response payload's writer, which cannot fail. */
  function WriteResponse(m: ControlResponse, rest: seq<u8>): (r: Result<seq<u8>, IoError>)
    ensures r.Ok? && GetControlResponse(r.value) == Ok((ControlResponseDecoded(m), rest))
  {
    Ok(PutControlResponse(m, rest))
  }

  function FeedTag(f: ControlFeed): u32 {
    if f.ResponseFeed? then 1 else 2
  }

  function ControlFeedDecoded(f: ControlFeed): ControlFeed {
    match f
    case ResponseFeed(res) => ResponseFeed(res.(content := ControlResponseDecoded(res.content)))
    case NewClientFeed(c) => NewClientFeed(NewClientDecoded(c))
  }

  /** The payload after the tag. */
  function PutFeedPayload(f: ControlFeed, rest: seq<u8>): seq<u8> {
    match f
    case ResponseFeed(res) => PutRpc(WriteResponse, res, rest).value
    case NewClientFeed(c) => PutNewClient(c, rest)
  }

  /** `ControlFeed::write_to`: the tag as a big-endian u32, then the payload; the written
      length is 4 plus the payload's. */
  function PutControlFeed(f: ControlFeed, rest: seq<u8>): (r: seq<u8>)
    ensures |r| == 4 + |PutFeedPayload(f, rest)|
    ensures GetU32(r) == Ok((FeedTag(f), PutFeedPayload(f, rest)))
  {
    Pow256Widths();
    PutU32(FeedTag(f), PutFeedPayload(f, rest))
  }

  /** `ControlFeed::read_from`: tag 1 is a response, tag 2 a new client and any other tag
      `ErrorKind::Other`. */
  function GetControlFeed(s: seq<u8>): (r: Decoded<ControlFeed>)
    ensures |s| < 4 ==> r == Err(UnexpectedEof)
    ensures GetU32(s).Ok? && GetU32(s).value.0 != 1 && GetU32(s).value.0 != 2 ==> r == Err(Other)
    ensures r.Ok? ==> GetU32(s).value.0 == FeedTag(r.value.0)
  {
    var tag :- GetU32(s);
    if tag.0 == 1 then
      var res :- GetRpc(GetControlResponse, tag.1);
      Ok((ResponseFeed(res.0), res.1))
    else if tag.0 == 2 then
      var c :- GetNewClient(tag.1);
      Ok((NewClientFeed(c.0), c.1))
    else Err(Other)
  }

  /** A response frame decodes to the response, a new-client frame to the new client, up to
      the socket address fields a write cannot carry. */
  lemma ControlFeedRoundTrip(f: ControlFeed, rest: seq<u8>)
    ensures GetControlFeed(PutControlFeed(f, rest)) == Ok((ControlFeedDecoded(f), rest))
  {
    match f
    case ResponseFeed(res) => ResponseFeedRoundTrip(res, rest);
    case NewClientFeed(c) => NewClientFeedRoundTrip(c, rest);
  }

  lemma ResponseFeedRoundTrip(res: ControlRpcMessage<ControlResponse>, rest: seq<u8>)
    ensures GetControlFeed(PutControlFeed(ResponseFeed(res), rest))
      == Ok((ResponseFeed(res.(content := ControlResponseDecoded(res.content))), rest))
  {
    RpcRoundTrip(WriteResponse, GetControlResponse, res, rest, ControlResponseDecoded(res.content));
  }

  lemma NewClientFeedRoundTrip(c: NewClient, rest: seq<u8>)
    ensures GetControlFeed(PutControlFeed(NewClientFeed(c), rest)) == Ok((NewClientFeed(NewClientDecoded(c)), rest))
  {
  }
}
