/** The agent's UDP channel to the tunnel server: when to resend the session token, when the
    session needs re-authenticating, which source addresses are trusted, and how an incoming
    datagram is classified. Times are whole seconds held in `u32` fields. */
module UdpChannels {
  import opened Ints
  import opened Net
  import opened Wrappers
  import opened Encoding
  import opened ControlMessages
  import ControlUdpProto

  /** How many earlier tunnel addresses are remembered. */
  const HISTORY_LEN: nat := 8

  /** A keep-alive goes out once the last confirm is this old ... */
  const CONFIRM_RESEND_SECS: u32 := 10
  /** ... and the last send at least this old. */
  const SEND_RESEND_SECS: u32 := 5
  /** A send left unconfirmed for longer than this asks for a new session. */
  const CONFIRM_TIMEOUT_SECS: u32 := 8

  /** Everything the channel holds, as one value. */
  datatype ChannelState = ChannelState(
    udp: Option<UdpChannelDetails>, history: seq<SocketAddr>, lastConfirm: u32, lastSend: u32)

  datatype UdpTunnelRx =
    | ReceivedPacket(bytes: nat, flow: ControlUdpProto.UdpFlow)
    | ConfirmedConnection
    | UpdatedConnection

  datatype UdpChannelError =
    | InvalidSource(source: SocketAddr)
    | ReceiveBufferTooSmall
    | InvalidFooter
    | UdpTunnelNotConnected

  /** The `std::io::ErrorKind`s a channel error converts to. */
  datatype IoKind = InvalidInputKind | UnexpectedEofKind | InvalidDataKind | NotConnectedKind

  /** A datagram that the socket failed to send. */
  datatype SendFailure = SendFailure

  /** `From<UdpChannelError> for std::io::Error`: each error kind has its own io kind. */
  function ToIoKind(e: UdpChannelError): (k: IoKind)
    ensures e.InvalidSource? <==> k == InvalidInputKind
    ensures e.ReceiveBufferTooSmall? <==> k == UnexpectedEofKind
    ensures e.InvalidFooter? <==> k == InvalidDataKind
    ensures e.UdpTunnelNotConnected? <==> k == NotConnectedKind
  {
    match e
    case InvalidSource(_) => InvalidInputKind
    case ReceiveBufferTooSmall => UnexpectedEofKind
    case InvalidFooter => InvalidDataKind
    case UdpTunnelNotConnected => NotConnectedKind
  }

  // ---------------------------------------------------------------------------
  // Timers
  // ---------------------------------------------------------------------------

  /** `check_resend`'s test, with the `u32` additions wrapping as in a release build. */
  predicate ResendDue(s: ChannelState, now: u32) {
    Max(Add32(s.lastConfirm, CONFIRM_RESEND_SECS), Add32(s.lastSend, SEND_RESEND_SECS)) < now
  }

  /** `requires_auth`'s test: the last send is more than 8 s younger than the last confirm. */
  predicate AuthRequired(s: ChannelState) {
    Add32(s.lastConfirm, CONFIRM_TIMEOUT_SECS) < s.lastSend
  }

  /** Away from the top of the `u32` range, a resend is due exactly when the confirm is more
      than 10 s old and the send more than 5 s old. */
  lemma ResendDueMeans(s: ChannelState, now: u32)
    requires s.lastConfirm as int + 10 < TWO_32 && s.lastSend as int + 5 < TWO_32
    ensures ResendDue(s, now) <==> s.lastConfirm + 10 < now && s.lastSend + 5 < now
  {
  }

  /** Once a resend has stamped `last_send := now`, no other is due for the next 5 seconds
      (unless `now + 5` wraps). */
  lemma NoResendWithinFive(s: ChannelState, now: u32, later: u32)
    requires now <= later <= now + 5 < TWO_32
    ensures !ResendDue(s.(lastSend := now), later)
  {
  }

  /** A fresh or invalidated session needs no authentication and resends after 10 s. */
  lemma InvalidatedSession(s: ChannelState, now: u32)
    ensures var z := s.(lastConfirm := 0, lastSend := 0);
      !AuthRequired(z) && (ResendDue(z, now) <==> now > 10)
  {
  }

  /** A confirm recorded no earlier than the last send clears the need to authenticate, as long
      as the confirm time plus 8 does not wrap. */
  lemma ConfirmClearsAuth(s: ChannelState, now: u32)
    requires s.lastSend <= now && now as int + 8 < TWO_32
    ensures !AuthRequired(s.(lastConfirm := now))
  {
  }

  /** With the send stamped after it, a confirm older than 8 s asks for authentication. */
  lemma SilenceRequiresAuth(s: ChannelState)
    requires s.lastConfirm as int + 8 < s.lastSend
    ensures AuthRequired(s)
  {
  }

  // ---------------------------------------------------------------------------
  // Address history
  // ---------------------------------------------------------------------------

  /** `push_front`, then `pop_back` once the deque holds more than 8. */
  function PushFront(history: seq<SocketAddr>, a: SocketAddr): (r: seq<SocketAddr>)
    ensures |r| == if |history| < HISTORY_LEN then |history| + 1 else |history|
    ensures r[0] == a && r[1..] == history[..|r| - 1]
  {
    var h := [a] + history;
    if HISTORY_LEN < |h| then h[..|h| - 1] else h
  }

  /** The history never grows past 8. */
  lemma PushFrontBounded(history: seq<SocketAddr>, a: SocketAddr)
    requires |history| <= HISTORY_LEN
    ensures |PushFront(history, a)| <= HISTORY_LEN
  {
  }

  /** Replies are accepted from the current tunnel address and from every remembered one. */
  predicate TrustedSource(s: ChannelState, remote: SocketAddr) {
    (s.udp.Some? && s.udp.value.tunnelAddr == remote) || remote in s.history
  }

  /** The history after `send_token`: a tunnel address that is neither current nor remembered
      is pushed to the front. */
  function RememberTarget(s: ChannelState, addr: SocketAddr): (r: seq<SocketAddr>)
    ensures TrustedSource(s, addr) ==> r == s.history
    ensures !TrustedSource(s, addr) ==> r == PushFront(s.history, addr)
  {
    var same := s.udp.Some? && s.udp.value.tunnelAddr == addr;
    if !same && addr !in s.history then PushFront(s.history, addr) else s.history
  }

  /** After sending the token to any address, a reply from that address is trusted. */
  lemma SendTokenTrustsTarget(s: ChannelState, addr: SocketAddr)
    ensures TrustedSource(s.(history := RememberTarget(s, addr)), addr)
  {
  }

  // ---------------------------------------------------------------------------
  // Receiving
  // ---------------------------------------------------------------------------

  /** `parse_packet` on the first `bytes` bytes: the result and the state it leaves. */
  function Parse(s: ChannelState, packet: ByteVec, remote: SocketAddr, now: u32)
    : (r: (Result<UdpTunnelRx, UdpChannelError>, ChannelState))
    ensures !TrustedSource(s, remote) ==> r == (Err(InvalidSource(remote)), s)
    ensures TrustedSource(s, remote) && ControlUdpProto.FromTail(packet).Ok? ==>
      var flow := ControlUdpProto.FromTail(packet).value;
      r == (Ok(ReceivedPacket(|packet| - ControlUdpProto.Len(flow), flow)), s)
    ensures r.0 == Err(InvalidFooter) <==> (TrustedSource(s, remote) && ControlUdpProto.FromTail(packet).Err? &&
      ControlUdpProto.FromTail(packet) != Err(Some(ControlUdpProto.UDP_CHANNEL_ESTABLISH_ID)))
    ensures r.0 == Ok(ConfirmedConnection) <==> (IsEstablish(s, packet, remote) &&
      s.udp.Some? && s.udp.value.token == packet)
    ensures r.0 == Ok(UpdatedConnection) <==> (IsEstablish(s, packet, remote) &&
      !(s.udp.Some? && s.udp.value.token == packet))
    ensures r.0 == Ok(UpdatedConnection) ==> r.1.udp == Some(UdpChannelDetails(remote, packet))
    ensures r.1 != s ==> IsEstablish(s, packet, remote) && r.1.lastConfirm == now && r.1.lastSend == s.lastSend
    ensures |s.history| <= HISTORY_LEN ==> |r.1.history| <= HISTORY_LEN
  {
    if !TrustedSource(s, remote) then (Err(InvalidSource(remote)), s)
    else ParseTrusted(s, packet, ControlUdpProto.FromTail(packet), remote, now)
  }

  /** `Parse` from a trusted source, given what `from_tail` made of the datagram. */
  function ParseTrusted(s: ChannelState, packet: ByteVec, tail: Result<ControlUdpProto.UdpFlow, Option<u64>>,
                        remote: SocketAddr, now: u32): (Result<UdpTunnelRx, UdpChannelError>, ChannelState)
    requires tail.Ok? ==> |packet| >= ControlUdpProto.Len(tail.value)
  {
      match tail
      case Ok(flow) => (Ok(ReceivedPacket(|packet| - ControlUdpProto.Len(flow), flow)), s)
      case Err(footer) =>
        if footer != Some(ControlUdpProto.UDP_CHANNEL_ESTABLISH_ID) then (Err(InvalidFooter), s)
        else
          var confirmed := s.(lastConfirm := now);
          if s.udp.Some? && s.udp.value.token == packet then (Ok(ConfirmedConnection), confirmed)
          else
            var history :=
              if s.udp.Some? && s.udp.value.tunnelAddr != remote then PushFront(s.history, s.udp.value.tunnelAddr)
              else s.history;
            (Ok(UpdatedConnection), confirmed.(udp := Some(UdpChannelDetails(remote, packet)), history := history))
  }

  /** A trusted datagram ending in the channel-establish id rather than a flow footer. */
  predicate IsEstablish(s: ChannelState, packet: seq<u8>, remote: SocketAddr) {
    TrustedSource(s, remote) &&
    ControlUdpProto.FromTail(packet) == Err(Some(ControlUdpProto.UDP_CHANNEL_ESTABLISH_ID))
  }

  /** A datagram the tunnel server built as payload plus flow footer, from a trusted source,
      is delivered as that payload's length and flow, changing nothing. */
  lemma ReceivesFlowDatagram(s: ChannelState, payload: seq<u8>, flow: ControlUdpProto.UdpFlow,
                             remote: SocketAddr, now: u32)
    requires TrustedSource(s, remote) && |payload| + ControlUdpProto.Len(flow) < TWO_64
    ensures Parse(s, payload + ControlUdpProto.FooterBytes(flow), remote, now) ==
      (Ok(ReceivedPacket(|payload|, flow)), s)
  {
    ControlUdpProto.FromTailRoundTrip(payload, flow);
  }

  /** The session token, sent back by the server after an update, confirms the session. */
  lemma UpdatedThenConfirmed(s: ChannelState, packet: ByteVec, remote: SocketAddr, now: u32, later: u32)
    requires Parse(s, packet, remote, now).0 == Ok(UpdatedConnection)
    ensures var s' := Parse(s, packet, remote, now).1;
      Parse(s', packet, remote, later) == (Ok(ConfirmedConnection), s'.(lastConfirm := later))
  {
  }

  /** When an establish packet moves the session to a new address, the old address is
      remembered at the front of the history, so late replies from it are still trusted. */
  lemma UpdateRemembersOldAddress(s: ChannelState, packet: ByteVec, remote: SocketAddr, now: u32)
    requires Parse(s, packet, remote, now).0 == Ok(UpdatedConnection)
    requires s.udp.Some? && s.udp.value.tunnelAddr != remote
    ensures var s' := Parse(s, packet, remote, now).1;
      s'.history[0] == s.udp.value.tunnelAddr && TrustedSource(s', s.udp.value.tunnelAddr) &&
      TrustedSource(s', remote)
  {
  }

  // ---------------------------------------------------------------------------
  // The channel object
  // ---------------------------------------------------------------------------

  class UdpChannel {
    var udp: Option<UdpChannelDetails>
    var addrHistory: seq<SocketAddr>
    var lastConfirm: u32
    var lastSend: u32

    ghost predicate Valid()
      reads this
    {
      |addrHistory| <= HISTORY_LEN
    }

    function State(): ChannelState
      reads this
    {
      ChannelState(udp, addrHistory, lastConfirm, lastSend)
    }

    constructor()
      ensures State() == ChannelState(None, [], 0, 0) && Valid()
    {
      udp := None;
      addrHistory := [];
      lastConfirm := 0;
      lastSend := 0;
    }

    /** Whether details were received and the channel has somewhere to send to. */
    predicate IsSetup()
      reads this
    {
      udp.Some?
    }

    method InvalidateSession()
      modifies this
      ensures State() == old(State()).(lastConfirm := 0, lastSend := 0)
    {
      lastConfirm := 0;
      lastSend := 0;
    }

    /** Stamps `last_send := now` exactly when a resend is due. */
    method CheckResend(now: u32) returns (resend: bool)
      modifies this
      ensures resend == ResendDue(old(State()), now)
      ensures State() == old(State()).(lastSend := if resend then now else old(lastSend))
    {
      resend := Max(Add32(lastConfirm, CONFIRM_RESEND_SECS), Add32(lastSend, SEND_RESEND_SECS)) < now;
      if resend {
        lastSend := now;
      }
    }

    /** Away from the top of the `u32` range: the last send is more than 8 s after the last
        confirm. */
    predicate RequiresAuth()
      reads this
      ensures lastConfirm as int + CONFIRM_TIMEOUT_SECS < TWO_32 ==>
        (RequiresAuth() <==> lastConfirm as int + CONFIRM_TIMEOUT_SECS < lastSend)
    {
      AuthRequired(State())
    }

    /** `send_token`: remembers the tunnel address, then, if the socket delivered the token,
        stamps `last_send := now`. */
    method SendToken(details: UdpChannelDetails, now: u32, delivered: bool) returns (r: Result<(), SendFailure>)
      requires Valid()
      modifies this
      ensures Valid()
      ensures r.Ok? == delivered
      ensures State() == old(State()).(history := RememberTarget(old(State()), details.tunnelAddr),
        lastSend := if delivered then now else old(lastSend))
    {
      var same := udp.Some? && udp.value.tunnelAddr == details.tunnelAddr;
      if !same && details.tunnelAddr !in addrHistory {
        PushFrontBounded(addrHistory, details.tunnelAddr);
        addrHistory := PushFront(addrHistory, details.tunnelAddr);
      }
      if !delivered {
        return Err(SendFailure);
      }
      lastSend := now;
      return Ok(());
    }

    /** `resend_token`: `Ok(false)` without a session, otherwise `send_token` on it. */
    method ResendToken(now: u32, delivered: bool) returns (r: Result<bool, SendFailure>)
      requires Valid()
      modifies this
      ensures Valid()
      ensures old(udp).None? ==> r == Ok(false) && State() == old(State())
      ensures old(udp).Some? ==> (r.Ok? <==> delivered) && (r.Ok? ==> r.value)
      ensures old(udp).Some? ==> State() == old(State()).(
        history := RememberTarget(old(State()), old(udp).value.tunnelAddr),
        lastSend := if delivered then now else old(lastSend))
    {
      if udp.None? {
        return Ok(false);
      }
      var token := udp.value;
      var sent := SendToken(token, now, delivered);
      if sent.Err? {
        return Err(SendFailure);
      }
      return Ok(true);
    }

    /** `send_host_pkt`: appends the flow footer after the first `dataLen` bytes and returns
        the datagram and the tunnel address it goes to; the send itself is left to the caller. */
    method SendHostPacket(data: array<u8>, dataLen: nat, flow: ControlUdpProto.UdpFlow)
      returns (r: Result<(seq<u8>, SocketAddr), IoKind>)
      requires dataLen <= data.Length
      modifies data
      ensures udp.None? ==> r == Err(NotConnectedKind) && data[..] == old(data[..])
      ensures udp.Some? && data.Length - dataLen < ControlUdpProto.Len(flow) ==>
        r == Err(InvalidInputKind) && data[..] == old(data[..])
      ensures r.Ok? ==> udp.Some? && r.value.1 == udp.value.tunnelAddr
      ensures r.Ok? ==> r.value.0 == old(data[..dataLen]) + ControlUdpProto.FooterBytes(flow)
      ensures r.Ok? <==> udp.Some? && data.Length - dataLen >= ControlUdpProto.Len(flow)
    {
      if udp.None? {
        return Err(ToIoKind(UdpTunnelNotConnected));
      }
      var details := udp.value;
      var flowLen := ControlUdpProto.Len(flow);
      var written := ControlUdpProto.WriteTo(flow, data, dataLen);
      if !written {
        return Err(InvalidInputKind);
      }
      assert data[..dataLen + flowLen] == old(data[..dataLen]) + ControlUdpProto.FooterBytes(flow);
      return Ok((data[..dataLen + flowLen], details.tunnelAddr));
    }

    /** `parse_packet` on `buffer[..bytes]`, as `Parse` states it. */
    method ParsePacket(buffer: seq<u8>, bytes: nat, remote: SocketAddr, now: u32)
      returns (r: Result<UdpTunnelRx, UdpChannelError>)
      requires bytes <= |buffer| < TWO_64 && Valid()
      modifies this
      ensures Valid()
      ensures (r, State()) == Parse(old(State()), buffer[..bytes], remote, now)
    {
      var packet: ByteVec := buffer[..bytes];
      ghost var s0 := State();
      if !(udp.Some? && udp.value.tunnelAddr == remote) && remote !in addrHistory {
        return Err(InvalidSource(remote));
      }
      var tail := ControlUdpProto.FromTail(packet);
      assert Parse(s0, packet, remote, now) == ParseTrusted(s0, packet, tail, remote, now);
      match tail {
        case Ok(flow) =>
          return Ok(ReceivedPacket(bytes - ControlUdpProto.Len(flow), flow));
        case Err(footer) =>
          if footer != Some(ControlUdpProto.UDP_CHANNEL_ESTABLISH_ID) {
            return Err(InvalidFooter);
          }
      }
      lastConfirm := now;
      if udp.Some? && udp.value.token == packet {
        return Ok(ConfirmedConnection);
      }
      var previous := udp;
      udp := Some(UdpChannelDetails(remote, packet));
      if previous.Some? && previous.value.tunnelAddr != remote {
        PushFrontBounded(addrHistory, previous.value.tunnelAddr);
        addrHistory := PushFront(addrHistory, previous.value.tunnelAddr);
      }
      return Ok(UpdatedConnection);
    }
  }
}
