/** An authenticated control session: when it counts as expired, the requests it sends, and
    how a pong from the server updates the measured ping, the clock offset and the session's
    expiry. Times are milliseconds in `u64`; the `u64` and `i64` arithmetic wraps as in a
    release build. */
module EstablishedControls {
  import opened Ints
  import opened Net
  import opened Wrappers
  import opened Encoding
  import opened ProtoLib
  import opened Rpc
  import opened ControlMessages
  import CF = ControlFeed

  const I64_MIN: int := -0x8000_0000_0000_0000

  datatype ExpiredReason = Forced | SessionNotSetup | FlowChanged

  // ---------------------------------------------------------------------------
  // Pong arithmetic
  // ---------------------------------------------------------------------------

  /** `(now.max(request_now) - request_now) as u32`: the round trip, truncated to 32 bits. */
  function Rtt(now: u64, requestNow: u64): (r: u32)
    ensures now <= requestNow ==> r == 0
    ensures now - requestNow < TWO_32 ==> r == Max(now, requestNow) - requestNow
  {
    (Max(now, requestNow) - requestNow) % TWO_32
  }

  /** `x as i64` for a `u64`: the same bits read as two's complement. */
  function AsI64(x: u64): (r: int)
    ensures I64_MIN <= r < TWO_63
    ensures (r + TWO_64) % TWO_64 == x
  {
    if x < TWO_63 then x else x - TWO_64
  }

  /** An `i64` result wrapped into the `i64` range. */
  function WrapI64(x: int): (r: int)
    ensures I64_MIN <= r < TWO_63
    ensures I64_MIN <= x < TWO_63 ==> r == x
  {
    (x + TWO_63) % TWO_64 + I64_MIN
  }

  /** The server's clock at the moment the request was sent: half a round trip before
      `server_now`. */
  function ServerTs(serverNow: u64, rtt: u32): u64 {
    Sub64(serverNow, rtt / 2)
  }

  /** `clock_offset`: local time of the request minus the server's estimate of it. */
  function ClockOffset(p: Pong, rtt: u32): (r: int)
    ensures I64_MIN <= r < TWO_63
  {
    WrapI64(AsI64(p.requestNow) - AsI64(ServerTs(p.serverNow, rtt)))
  }

  /** With both clocks below 2^63 and the server clock past half the round trip, the offset is
      the plain difference. */
  lemma ClockOffsetPlain(p: Pong, rtt: u32)
    requires p.requestNow < TWO_63 && rtt / 2 <= p.serverNow < TWO_63
    ensures ClockOffset(p, rtt) == p.requestNow - (p.serverNow - rtt / 2)
  {
  }

  /** The session expiry moved to the local clock: `request_now + max(expires_at - server_now,
      rtt) - rtt`. */
  function LocalExpiry(requestNow: u64, serverNow: u64, expiresAt: u64, rtt: u32): u64 {
    Sub64(Add64(requestNow, Max(Sub64(expiresAt, serverNow), rtt)), rtt)
  }

  /** When the server's expiry is not before its own clock and no addition wraps, the local
      expiry is the request time plus what remains of the session after the round trip, and
      never earlier than the request time. */
  lemma LocalExpiryMeans(requestNow: u64, serverNow: u64, expiresAt: u64, rtt: u32)
    requires serverNow <= expiresAt
    requires requestNow as int + Max(expiresAt - serverNow, rtt) < TWO_64
    ensures LocalExpiry(requestNow, serverNow, expiresAt, rtt) ==
      requestNow + Max(expiresAt - serverNow - rtt, 0)
    ensures LocalExpiry(requestNow, serverNow, expiresAt, rtt) >= requestNow
  {
  }

  /** A session that expires within one round trip of the server's clock expires at the
      request time. */
  lemma LocalExpiryShortSession(requestNow: u64, serverNow: u64, expiresAt: u64, rtt: u32)
    requires serverNow <= expiresAt && expiresAt - serverNow <= rtt
    requires requestNow as int + rtt < TWO_64
    ensures LocalExpiry(requestNow, serverNow, expiresAt, rtt) == requestNow
  {
  }

  // ---------------------------------------------------------------------------
  // Requests the session sends
  // ---------------------------------------------------------------------------

  /** The three requests the session builds carry no registration, so each one decodes on
      the server as exactly the message that was sent. */
  lemma SessionRequestRoundTrip(m: ControlRpcMessage<ControlRequest>, rest: seq<u8>)
    requires m.content.AgentKeepAlive? || m.content.SetupUdpChannel? || m.content.PingRequest?
    ensures PutRpc(PutControlRequest, m, rest).Ok?
    ensures GetRpc(GetControlRequest, PutRpc(PutControlRequest, m, rest).value) == Ok((m, rest))
  {
    ControlRequestRoundTrip(m.content, rest);
    RpcRoundTrip(PutControlRequest, GetControlRequest, m, rest, m.content);
  }

  class EstablishedControl {
    var pongAtAuth: Pong
    /** The latest pong the connection received. */
    var pongLatest: Pong
    var registered: AgentRegistered
    var currentPing: Option<u32>
    /** An `i64`. */
    var clockOffset: int
    var forceExpired: bool

    /** `into_established`: the pong at authentication is the connection's latest one. */
    constructor(pong: Pong, registered: AgentRegistered)
      ensures pongAtAuth == pong && pongLatest == pong && this.registered == registered
      ensures currentPing == None && clockOffset == 0 && !forceExpired
      ensures IsExpired() == if pong.sessionExpireAt.None? then Some(SessionNotSetup) else None
    {
      pongAtAuth := pong;
      pongLatest := pong;
      this.registered := registered;
      currentPing := None;
      clockOffset := 0;
      forceExpired := false;
    }

    function KeepAliveMessage(requestId: u64): (m: ControlRpcMessage<ControlRequest>)
      reads this
      ensures m.requestId == requestId && m.content.AgentKeepAlive?
    {
      ControlRpcMessage(requestId, AgentKeepAlive(registered.id))
    }

    function SetupUdpChannelMessage(requestId: u64): (m: ControlRpcMessage<ControlRequest>)
      reads this
      ensures m.requestId == requestId && m.content.SetupUdpChannel?
    {
      ControlRpcMessage(requestId, SetupUdpChannel(registered.id))
    }

    /** A ping reports the last measured round trip and the session it belongs to. */
    function PingMessage(requestId: u64, now: u64): (m: ControlRpcMessage<ControlRequest>)
      reads this
      ensures m.requestId == requestId && m.content.PingRequest?
    {
      ControlRpcMessage(requestId, PingRequest(Ping(now, currentPing, Some(registered.id))))
    }

    /** Whether either address the server sees has moved since authentication. */
    predicate FlowChanged()
      reads this
    {
      pongLatest.clientAddr != pongAtAuth.clientAddr || pongLatest.tunnelAddr != pongAtAuth.tunnelAddr
    }

    /** Forced expiry wins, then a pong at authentication without a session expiry, then a
        client or tunnel address that changed since. */
    function IsExpired(): (r: Option<ExpiredReason>)
      reads this
      ensures forceExpired ==> r == Some(Forced)
      ensures !forceExpired && pongAtAuth.sessionExpireAt.None? ==> r == Some(SessionNotSetup)
      ensures r.None? <==> !forceExpired && pongAtAuth.sessionExpireAt.Some? && !FlowChanged()
      ensures r != Some(Forced) ==> !forceExpired
    {
      if forceExpired then Some(Forced)
      else if pongAtAuth.sessionExpireAt.None? then Some(SessionNotSetup)
      else if FlowChanged() then Some(ExpiredReason.FlowChanged)
      else None
    }

    method SetExpired()
      modifies this
      ensures forceExpired && IsExpired() == Some(Forced)
      ensures pongAtAuth == old(pongAtAuth) && pongLatest == old(pongLatest) && registered == old(registered)
      ensures currentPing == old(currentPing) && clockOffset == old(clockOffset)
    {
      forceExpired := true;
    }

    /** `authenticate`. The connection's handshake is I/O; what it leaves behind is its
        answer (`obtained`, `None` when it failed) and the latest pong it read along the way,
        which the connection stores whether or not the handshake succeeds. On success the
        forced expiry clears, the registration is replaced and that pong becomes the pong at
        authentication, so only a missing session expiry keeps the session expired; on failure
        nothing else changes. */
    method Authenticate(obtained: Option<AgentRegistered>, latestPong: Pong) returns (ok: bool)
      modifies this
      ensures ok <==> obtained.Some?
      ensures pongLatest == latestPong && currentPing == old(currentPing) && clockOffset == old(clockOffset)
      ensures ok ==> registered == obtained.value && pongAtAuth == latestPong && !forceExpired
      ensures ok ==> IsExpired() == if latestPong.sessionExpireAt.None? then Some(SessionNotSetup) else None
      ensures !ok ==> registered == old(registered) && pongAtAuth == old(pongAtAuth) && forceExpired == old(forceExpired)
    {
      pongLatest := latestPong;
      if obtained.None? {
        return false;
      }
      forceExpired := false;
      registered := obtained.value;
      pongAtAuth := pongLatest;
      ok := true;
    }

    /** `recv_feed_msg` on the feed the connection read at local time `now`. The connection
        has already stored a pong as its latest; a registration replaces the current one;
        a pong sets the ping and the clock offset, and moves the expiry to the local clock. */
    method RecvFeedMsg(feed: CF.ControlFeed, now: u64) returns (r: CF.ControlFeed)
      modifies this
      ensures r == feed
      ensures pongAtAuth == old(pongAtAuth) && forceExpired == old(forceExpired)
      ensures feed.ResponseFeed? && feed.response.content.AgentRegisteredResponse? ==>
        registered == feed.response.content.registered && pongLatest == old(pongLatest) &&
        currentPing == old(currentPing) && clockOffset == old(clockOffset)
      ensures feed.ResponseFeed? && feed.response.content.PongResponse? ==>
        var pong := feed.response.content.pong;
        var rtt := Rtt(now, pong.requestNow);
        pongLatest == pong && currentPing == Some(rtt) && clockOffset == ClockOffset(pong, rtt) &&
        registered.id == old(registered.id) &&
        registered.expiresAt == (if pong.sessionExpireAt.Some?
          then LocalExpiry(pong.requestNow, pong.serverNow, pong.sessionExpireAt.value, rtt)
          else old(registered.expiresAt))
      ensures !(feed.ResponseFeed? && (feed.response.content.AgentRegisteredResponse? || feed.response.content.PongResponse?)) ==>
        registered == old(registered) && pongLatest == old(pongLatest) &&
        currentPing == old(currentPing) && clockOffset == old(clockOffset)
    {
      if feed.ResponseFeed? && feed.response.content.PongResponse? {
        pongLatest := feed.response.content.pong;
      }
      if feed.ResponseFeed? {
        match feed.response.content {
          case AgentRegisteredResponse(reg) =>
            registered := reg;
          case PongResponse(pong) =>
            var rtt := Rtt(now, pong.requestNow);
            var serverTs := ServerTs(pong.serverNow, rtt);
            clockOffset := WrapI64(AsI64(pong.requestNow) - AsI64(serverTs));
            currentPing := Some(rtt);
            if pong.sessionExpireAt.Some? {
              var expiresAt := pong.sessionExpireAt.value;
              registered := registered.(expiresAt := LocalExpiry(pong.requestNow, pong.serverNow, expiresAt, rtt));
            }
          case _ =>
        }
      }
      return feed;
    }
  }
}
