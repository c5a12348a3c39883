/** The registry of udp clients the agent relays for: one local socket per (player address,
    tunnel) pair, kept in a slab whose slot is the client's id, with a map from key to slot.
    Packets from the tunnel create or refresh a client; packets from the origin are checked
    against the client's tunnel before they are sent back. */
module UdpClientRegistry {
  import opened Ints
  import opened Net
  import opened Wrappers
  import opened UdpProto
  import OriginLookups

  datatype UdpClientKey = UdpClientKey(sourceAddr: SocketAddr, tunnelId: u64)

  /** A client; its socket and receiver task are not modelled. */
  datatype Client = Client(id: u64, key: UdpClientKey, flow: UdpFlow, fromTunnelTs: u64, fromOriginTs: u64)

  /** What the origin lookup tells about a tunnel: where its origin listens, over how many
      ports, and the PROXY protocol it wants. */
  datatype OriginView = OriginView(localAddr: SocketAddr, portCount: u16, proxyProtocol: Option<OriginLookups.ProxyProtocol>)

  // ---------------------------------------------------------------------------
  // Idle clients
  // ---------------------------------------------------------------------------

  /** `clear_old`'s rule: both sides idle for more than a minute, or either side for more
      than a minute and a half. The elapsed times are `u64` differences. */
  predicate ShouldRemove(nowMs: u64, c: Client)
    ensures ShouldRemove(nowMs, c) ==> 60_000 < Sub64(nowMs, c.fromTunnelTs) || 60_000 < Sub64(nowMs, c.fromOriginTs)
  {
    var sinceOrigin := Sub64(nowMs, c.fromOriginTs);
    var sinceTunnel := Sub64(nowMs, c.fromTunnelTs);
    (60_000 < sinceTunnel && 60_000 < sinceOrigin) || 90_000 < sinceTunnel || 90_000 < sinceOrigin
  }

  /** The rule in terms of the quieter and the busier side. */
  lemma ShouldRemoveMeans(nowMs: u64, c: Client)
    requires c.fromOriginTs <= nowMs && c.fromTunnelTs <= nowMs
    ensures ShouldRemove(nowMs, c) <==>
      Max(nowMs - c.fromOriginTs, nowMs - c.fromTunnelTs) > 90_000 ||
      Min(nowMs - c.fromOriginTs, nowMs - c.fromTunnelTs) > 60_000
  {
  }

  /** A client heard from on either side within the last minute is kept. */
  lemma RecentClientKept(nowMs: u64, c: Client)
    requires c.fromOriginTs <= nowMs && c.fromTunnelTs <= nowMs
    requires nowMs - c.fromOriginTs <= 60_000 || nowMs - c.fromTunnelTs <= 60_000
    requires nowMs - c.fromOriginTs <= 90_000 && nowMs - c.fromTunnelTs <= 90_000
    ensures !ShouldRemove(nowMs, c)
  {
  }

  function ClearedSlot(nowMs: u64, slot: Option<Client>): Option<Client> {
    if slot.Some? && ShouldRemove(nowMs, slot.value) then None else slot
  }

  /** Whether the slot holds a client `clear_old` removes. */
  predicate Expired(nowMs: u64, slots: seq<Option<Client>>, i: nat) {
    i < |slots| && slots[i].Some? && ShouldRemove(nowMs, slots[i].value)
  }

  /** The slab after `clear_old` has visited the slots before `upTo`. */
  function ClearedPrefix(nowMs: u64, slots: seq<Option<Client>>, upTo: nat): (r: seq<Option<Client>>)
    ensures |r| == |slots|
    ensures forall i :: 0 <= i < |r| ==> r[i] == if i < upTo then ClearedSlot(nowMs, slots[i]) else slots[i]
  {
    seq(|slots|, i requires 0 <= i < |slots| => if i < upTo then ClearedSlot(nowMs, slots[i]) else slots[i])
  }

  /** The lookup after `clear_old` has visited the slots before `upTo`. */
  function ClearedLookupPrefix(nowMs: u64, lookup: map<UdpClientKey, nat>, slots: seq<Option<Client>>, upTo: nat)
    : map<UdpClientKey, nat>
  {
    map k | k in lookup && !(lookup[k] < upTo && Expired(nowMs, slots, lookup[k])) :: lookup[k]
  }

  /** The slab after `clear_old`: the clients to remove are vacated, the others kept. */
  function ClearedSlots(nowMs: u64, slots: seq<Option<Client>>): (r: seq<Option<Client>>)
    ensures |r| == |slots|
    ensures forall i :: 0 <= i < |r| ==> r[i] == ClearedSlot(nowMs, slots[i])
  {
    ClearedPrefix(nowMs, slots, |slots|)
  }

  /** The keys whose slot survives `clear_old`. */
  function ClearedLookup(nowMs: u64, lookup: map<UdpClientKey, nat>, slots: seq<Option<Client>>): (r: map<UdpClientKey, nat>)
    ensures forall k :: k in r <==> k in lookup && !Expired(nowMs, slots, lookup[k])
    ensures forall k :: k in r ==> r[k] == lookup[k]
  {
    map k | k in lookup && !Expired(nowMs, slots, lookup[k]) :: lookup[k]
  }

  /** The registry's invariant on the lookup and the slab: each key maps to the slot of a
      client with that key, and each client sits in the slot its id names, is found under its
      own key and has a flow with an extension. */
  ghost predicate Registered(lookup: map<UdpClientKey, nat>, slots: seq<Option<Client>>) {
    (forall k :: k in lookup ==> lookup[k] < |slots| && slots[lookup[k]].Some? && slots[lookup[k]].value.key == k) &&
    (forall i :: 0 <= i < |slots| && slots[i].Some? ==>
      slots[i].value.key in lookup && lookup[slots[i].value.key] == i &&
      slots[i].value.id == i && slots[i].value.flow.extension.Some?)
  }

  /** One step of `clear_old`: vacating an expired slot and dropping its key (the key the
      invariant finds there, which `clear_old` asserts) extends the visited prefix by one. */
  lemma ClearStep(nowMs: u64, lookup: map<UdpClientKey, nat>, slots: seq<Option<Client>>, i: nat)
    requires Registered(lookup, slots) && i < |slots|
    ensures Expired(nowMs, slots, i) ==>
      ClearedPrefix(nowMs, slots, i)[i := None] == ClearedPrefix(nowMs, slots, i + 1) &&
      ClearedLookupPrefix(nowMs, lookup, slots, i) - {slots[i].value.key} == ClearedLookupPrefix(nowMs, lookup, slots, i + 1)
    ensures !Expired(nowMs, slots, i) ==>
      ClearedPrefix(nowMs, slots, i) == ClearedPrefix(nowMs, slots, i + 1) &&
      ClearedLookupPrefix(nowMs, lookup, slots, i) == ClearedLookupPrefix(nowMs, lookup, slots, i + 1)
  {
    var before := ClearedLookupPrefix(nowMs, lookup, slots, i);
    var after := ClearedLookupPrefix(nowMs, lookup, slots, i + 1);
    if Expired(nowMs, slots, i) {
      var key := slots[i].value.key;
      assert forall k :: k in lookup && lookup[k] == i ==> k == key;
      assert before - {key} == after;
    } else {
      assert before == after;
    }
  }

  /** Every prefix of `clear_old` keeps the registry's invariant. */
  lemma ClearedPrefixRegistered(nowMs: u64, lookup: map<UdpClientKey, nat>, slots: seq<Option<Client>>, upTo: nat)
    requires Registered(lookup, slots)
    ensures Registered(ClearedLookupPrefix(nowMs, lookup, slots, upTo), ClearedPrefix(nowMs, slots, upTo))
  {
  }

  /** After the whole slab is visited the prefixes are the cleared slab and lookup. */
  lemma ClearedPrefixDone(nowMs: u64, lookup: map<UdpClientKey, nat>, slots: seq<Option<Client>>)
    requires Registered(lookup, slots)
    ensures ClearedPrefix(nowMs, slots, |slots|) == ClearedSlots(nowMs, slots)
    ensures ClearedLookupPrefix(nowMs, lookup, slots, |slots|) == ClearedLookup(nowMs, lookup, slots)
  {
    assert ClearedLookupPrefix(nowMs, lookup, slots, |slots|) == ClearedLookup(nowMs, lookup, slots);
  }

  /** Replacing a client by one with the same id, key and flow extension (a refreshed
      timestamp) keeps the invariant. */
  lemma RefreshRegistered(lookup: map<UdpClientKey, nat>, slots: seq<Option<Client>>, i: nat, c: Client)
    requires Registered(lookup, slots) && i < |slots| && slots[i].Some?
    requires c.id == slots[i].value.id && c.key == slots[i].value.key && c.flow.extension.Some?
    ensures Registered(lookup, slots[i := Some(c)])
  {
  }

  /** The slab with a client put in a vacant slot or appended at its end. */
  function Inserted(slots: seq<Option<Client>>, slot: nat, c: Client): (r: seq<Option<Client>>)
    requires slot <= |slots|
    ensures |r| == Max(|slots|, slot + 1) && r[slot] == Some(c)
    ensures forall i :: 0 <= i < |slots| && i != slot ==> r[i] == slots[i]
  {
    if slot == |slots| then slots + [Some(c)] else slots[slot := Some(c)]
  }

  /** A client of a new key put in a vacant slot it is named after, and its key mapped to
      that slot, keeps the invariant. */
  lemma InsertRegistered(lookup: map<UdpClientKey, nat>, slots: seq<Option<Client>>, slot: nat, c: Client)
    requires Registered(lookup, slots)
    requires slot <= |slots| && (slot < |slots| ==> slots[slot].None?)
    requires c.key !in lookup && c.id == slot && c.flow.extension.Some?
    ensures Registered(lookup[c.key := slot], Inserted(slots, slot, c))
  {
    var r := Inserted(slots, slot, c);
    assert forall k :: k in lookup ==> lookup[k] != slot;
    forall i | 0 <= i < |r| && r[i].Some?
      ensures r[i].value.key in lookup[c.key := slot] && lookup[c.key := slot][r[i].value.key] == i
    {
      if i != slot {
        assert r[i] == slots[i];
      }
    }
  }

  /** `clear_old` keeps exactly the clients `ShouldRemove` spares, each in its slot and under
      its key. */
  lemma ClearedKeepsSpared(nowMs: u64, lookup: map<UdpClientKey, nat>, slots: seq<Option<Client>>, i: nat)
    requires Registered(lookup, slots) && i < |slots| && slots[i].Some?
    ensures var c := slots[i].value;
      (ClearedSlots(nowMs, slots)[i] == Some(c) <==> !ShouldRemove(nowMs, c)) &&
      (c.key in ClearedLookup(nowMs, lookup, slots) <==> !ShouldRemove(nowMs, c))
  {
  }

  // ---------------------------------------------------------------------------
  // Packets from the origin
  // ---------------------------------------------------------------------------

  /** Why a packet from the origin is dropped; each has its own error counter. */
  datatype DispatchError =
    | OriginClientMissing
    | OriginRejectBadId
    | OriginTunnelNotFound
    | OriginSourceNotIp4
    | OriginRejectAddrDiffer
    | OriginRejectPortTooLow
    | OriginRejectPortTooHigh

  /** The checks on the origin's source address: a v4 address on the origin's ip, at a port
      from the origin's base port up to, not including, the base plus its port count. The
      result is the port offset. */
  function OriginPortOffset(origin: OriginView, from: SocketAddr): (r: Result<u16, DispatchError>)
    ensures r.Ok? <==>
      from.SockV4? && origin.localAddr.Ip() == IpAddr.V4(from.a4.ip) &&
      origin.localAddr.Port() <= from.a4.port && from.a4.port - origin.localAddr.Port() < origin.portCount
    ensures r.Ok? ==> r.value == from.a4.port - origin.localAddr.Port()
    ensures from.SockV6? ==> r == Err(OriginSourceNotIp4)
  {
    match from
    case SockV6(_) => Err(OriginSourceNotIp4)
    case SockV4(source) =>
      if origin.localAddr.Ip() != IpAddr.V4(source.ip) then Err(OriginRejectAddrDiffer)
      else if source.port < origin.localAddr.Port() then Err(OriginRejectPortTooLow)
      else
        var portOffset := source.port - origin.localAddr.Port();
        if origin.portCount <= portOffset then Err(OriginRejectPortTooHigh)
        else Ok(portOffset)
  }

  /** The flow a reply is sent back with: the client's flow with the source port moved up by
      the offset and the offset recorded in the extension. A flow without an extension has no
      rewrite (the source treats it as unreachable). */
  function ReplyFlow(flow: UdpFlow, portOffset: u16): (r: Option<UdpFlow>)
    ensures r.Some? <==> flow.extension.Some?
    ensures r.Some? ==> r.value.extension == Some(flow.extension.value.(portOffset := portOffset))
    ensures r.Some? ==> Dst(r.value) == Dst(flow) && r.value.V4? == flow.V4?
    ensures r.Some? ==> Src(r.value).Ip() == Src(flow).Ip() && Src(r.value).Port() == Add16(Src(flow).Port(), portOffset)
  {
    match flow
    case V4(src, dst, frag, Some(ext)) =>
      Some(UdpFlow.V4(SocketAddrV4(src.ip, Add16(src.port, portOffset)), dst, frag, Some(ext.(portOffset := portOffset))))
    case V6(src, dst, Some(ext)) =>
      Some(UdpFlow.V6((src.0, Add16(src.1, portOffset)), dst, Some(ext.(portOffset := portOffset))))
    case _ => None
  }

  // ---------------------------------------------------------------------------
  // Packets from the tunnel
  // ---------------------------------------------------------------------------

  /** Where a tunneled packet goes: the origin's v4 address, at its port plus the flow's port
      offset (the address as it is when the offset is 0). A v6 origin gets nothing. */
  function TargetAddr(origin: OriginView, portOffset: u16): (r: Option<SocketAddrV4>)
    ensures r.Some? <==> origin.localAddr.Ip().V4?
    ensures r.Some? ==> r.value.ip == origin.localAddr.Ip().v4 && r.value.port == Add16(origin.localAddr.Port(), portOffset)
  {
    if portOffset == 0 then
      match origin.localAddr
      case SockV4(addr) => Some(addr)
      case SockV6(_) => None
    else
      match origin.localAddr.Ip()
      case V4(ip) => Some(SocketAddrV4(ip, Add16(origin.localAddr.Port(), portOffset)))
      case V6(_) => None
  }

  /** The flow a new client keeps: the tunneled flow flipped, its source port (the tunnel
      port the player sent to) moved down by the offset, and the offset cleared. `None` when
      the offset exceeds that port, where the source's assertion fails, or when the flow has
      no extension. */
  function ClientFlow(flow: UdpFlow): (r: Option<UdpFlow>)
    ensures r.Some? <==> flow.extension.Some? && flow.extension.value.portOffset <= Dst(flow).Port()
    ensures r.Some? ==> r.value.extension == Some(flow.extension.value.(portOffset := 0))
    ensures r.Some? ==> Dst(r.value) == Src(flow) && r.value.V4? == flow.V4?
    ensures r.Some? ==> Src(r.value).Ip() == Dst(flow).Ip() && Src(r.value).Port() == Dst(flow).Port() - flow.extension.value.portOffset
  {
    match Flip(flow)
    case V4(src, dst, frag, Some(ext)) =>
      if ext.portOffset <= src.port then
        Some(UdpFlow.V4(SocketAddrV4(src.ip, src.port - ext.portOffset), dst, frag, Some(ext.(portOffset := 0))))
      else None
    case V6(src, dst, Some(ext)) =>
      if ext.portOffset <= src.1 then
        Some(UdpFlow.V6((src.0, src.1 - ext.portOffset), dst, Some(ext.(portOffset := 0))))
      else None
    case _ => None
  }

  /** A reply from the port a tunneled packet was sent to travels back with exactly the
      flipped flow of that packet: the offset taken off when the client was made is put back. */
  lemma ReplyRestoresFlow(flow: UdpFlow)
    requires ClientFlow(flow).Some?
    ensures ReplyFlow(ClientFlow(flow).value, flow.extension.value.portOffset) == Some(Flip(flow))
  {
  }

  /** The origin accepts replies from the address a tunneled packet was sent to exactly when
      the offset is within its port count (and the port did not wrap), and then finds the
      same offset. */
  lemma TargetPassesOriginChecks(origin: OriginView, portOffset: u16)
    requires origin.localAddr.Ip().V4?
    requires origin.localAddr.Port() + portOffset < TWO_16
    ensures var from := SockV4(TargetAddr(origin, portOffset).value);
      var r := OriginPortOffset(origin, from);
      (r.Ok? <==> portOffset < origin.portCount) && (r.Ok? ==> r.value == portOffset)
  {
  }

  /** What `handle_tunneled_packet` did with a packet from the tunnel. */
  datatype TunnelOutcome =
    | NoExtension
    | NoOrigin
    | NoV4Target
    | SentToClient(slot: nat, target: SocketAddrV4)
    | RateLimited
    | SocketFailed
    | OffsetAboveTunnelPort
    | NewClient(slot: nat, target: SocketAddrV4, specialLan: bool, sendsProxyHeader: bool)

  /** The udp side uses the special local address only for a loopback origin without a
      PROXY protocol header. */
  function SpecialLan(origin: OriginView): (r: bool)
    ensures r <==> IsLoopback(origin.localAddr.Ip()) && origin.proxyProtocol.None?
  {
    IsLoopback(origin.localAddr.Ip()) && origin.proxyProtocol.None?
  }

  class UdpClients {
    var lookup: map<UdpClientKey, nat>
    var slots: seq<Option<Client>>

    ghost predicate Valid()
      reads this
    {
      Registered(lookup, slots)
    }

    /** `new`: no clients. */
    constructor ()
      ensures Valid() && lookup == map[] && slots == []
    {
      lookup := map[];
      slots := [];
    }

    /** `clear_old`: the slab is walked in slot order and every client `ShouldRemove` names
        is vacated and its key dropped from the lookup. */
    method ClearOld(nowMs: u64)
      requires Valid()
      modifies this
      ensures slots == ClearedSlots(nowMs, old(slots))
      ensures lookup == ClearedLookup(nowMs, old(lookup), old(slots))
      ensures Valid()
    {
      ghost var slots0 := slots;
      ghost var lookup0 := lookup;
      var i := 0;
      while i < |slots|
        invariant 0 <= i <= |slots| == |slots0|
        invariant slots == ClearedPrefix(nowMs, slots0, i)
        invariant lookup == ClearedLookupPrefix(nowMs, lookup0, slots0, i)
        decreases |slots| - i
      {
        ClearStep(nowMs, lookup0, slots0, i);
        if slots[i].Some? && ShouldRemove(nowMs, slots[i].value) {
          var key := slots[i].value.key;
          lookup := lookup - {key};
          slots := slots[i := None];
        }
        i := i + 1;
      }
      ClearedPrefixDone(nowMs, lookup0, slots0);
      ClearedPrefixRegistered(nowMs, lookup0, slots0, i);
    }

    /** `dispatch_origin_packet`: the client named by the low 32 bits of the receiver id must
        exist and carry that id, its tunnel must be known, and the source must pass
        `OriginPortOffset`; then the client is marked as heard from the origin and the reply
        flow is returned. */
    method DispatchOriginPacket(nowMs: u64, rxId: u64, from: SocketAddr, origins: u64 -> Option<OriginView>)
      returns (r: Result<UdpFlow, DispatchError>)
      requires Valid()
      modifies this
      ensures Valid() && lookup == old(lookup) && |slots| == |old(slots)|
      ensures var slot := rxId % TWO_32;
        r.Ok? <==>
          slot < |old(slots)| && old(slots)[slot].Some? && old(slots)[slot].value.id == rxId &&
          origins(old(slots)[slot].value.key.tunnelId).Some? &&
          OriginPortOffset(origins(old(slots)[slot].value.key.tunnelId).value, from).Ok?
      ensures r.Ok? ==> var slot := rxId % TWO_32; var c := old(slots)[slot].value;
        slots == old(slots)[slot := Some(c.(fromOriginTs := nowMs))] &&
        Some(r.value) == ReplyFlow(c.flow, OriginPortOffset(origins(c.key.tunnelId).value, from).value)
      ensures r.Err? ==> slots == old(slots)
      ensures r == Err(OriginClientMissing) <==> !(rxId % TWO_32 < |old(slots)| && old(slots)[rxId % TWO_32].Some?)
    {
      var slot := rxId % TWO_32;
      if slot >= |slots| || slots[slot].None? {
        return Err(OriginClientMissing);
      }
      var client := slots[slot].value;
      if client.id != rxId {
        return Err(OriginRejectBadId);
      }
      var tunnel := origins(client.key.tunnelId);
      if tunnel.None? {
        return Err(OriginTunnelNotFound);
      }
      var offset := OriginPortOffset(tunnel.value, from);
      if offset.Err? {
        return Err(offset.error);
      }
      RefreshRegistered(lookup, slots, slot, client.(fromOriginTs := nowMs));
      slots := slots[slot := Some(client.(fromOriginTs := nowMs))];
      var flow := ReplyFlow(client.flow, offset.value);
      r := Ok(flow.value);
    }

    /** `handle_tunneled_packet`. A packet of a known key refreshes its client and is sent on.
        For a new key the rate limiter is asked first, then a socket is made, then the
        client is put in the vacant slot the slab offers (`freeSlot`) with the flow of
        `ClientFlow` and both timestamps at `nowMs`. */
    method HandleTunneledPacket(nowMs: u64, flow: UdpFlow, origins: u64 -> Option<OriginView>,
                                limiterAllows: bool, socketCreated: bool, freeSlot: nat)
      returns (outcome: TunnelOutcome)
      requires Valid()
      requires freeSlot <= |slots| && (freeSlot < |slots| ==> slots[freeSlot].None?)
      requires freeSlot < TWO_64
      modifies this
      ensures Valid()
      ensures flow.extension.None? <==> outcome == NoExtension
      ensures outcome.SentToClient? ==>
        var key := UdpClientKey(Src(flow), flow.extension.value.tunnelId);
        key in old(lookup) && outcome.slot == old(lookup)[key] && lookup == old(lookup) &&
        slots == old(slots)[outcome.slot := Some(old(slots)[outcome.slot].value.(fromTunnelTs := nowMs))]
      ensures outcome.NewClient? ==>
        var key := UdpClientKey(Src(flow), flow.extension.value.tunnelId);
        ClientFlow(flow).Some? && key !in old(lookup) && limiterAllows && socketCreated && outcome.slot == freeSlot &&
        lookup == old(lookup)[key := freeSlot] &&
        slots == Inserted(old(slots), freeSlot, Client(freeSlot, key, ClientFlow(flow).value, nowMs, nowMs))
      ensures !outcome.SentToClient? && !outcome.NewClient? ==> lookup == old(lookup) && slots == old(slots)
      ensures outcome == RateLimited ==> !limiterAllows
      ensures outcome == SocketFailed ==> limiterAllows && !socketCreated
      // which outcome each input gets, in the order the source checks
      ensures flow.extension.Some? ==>
        var ext := flow.extension.value;
        var key := UdpClientKey(Src(flow), ext.tunnelId);
        var origin := origins(ext.tunnelId);
        if origin.None? then outcome == NoOrigin
        else if TargetAddr(origin.value, ext.portOffset).None? then outcome == NoV4Target
        else if key in old(lookup) then outcome == SentToClient(old(lookup)[key], TargetAddr(origin.value, ext.portOffset).value)
        else if !limiterAllows then outcome == RateLimited
        else if !socketCreated then outcome == SocketFailed
        else if ClientFlow(flow).None? then outcome == OffsetAboveTunnelPort
        else outcome == NewClient(freeSlot, TargetAddr(origin.value, ext.portOffset).value, SpecialLan(origin.value),
                                  origin.value.proxyProtocol == Some(OriginLookups.ProxyProtocolV2))
    {
      if flow.extension.None? {
        return NoExtension;
      }
      var extension := flow.extension.value;
      var origin := origins(extension.tunnelId);
      if origin.None? {
        return NoOrigin;
      }
      var key := UdpClientKey(Src(flow), extension.tunnelId);
      var target := TargetAddr(origin.value, extension.portOffset);
      if target.None? {
        return NoV4Target;
      }
      if key in lookup {
        var slot := lookup[key];
        RefreshRegistered(lookup, slots, slot, slots[slot].value.(fromTunnelTs := nowMs));
        slots := slots[slot := Some(slots[slot].value.(fromTunnelTs := nowMs))];
        return SentToClient(slot, target.value);
      }
      if !limiterAllows {
        return RateLimited;
      }
      var specialLan := SpecialLan(origin.value);
      if !socketCreated {
        return SocketFailed;
      }
      var clientFlow := ClientFlow(flow);
      if clientFlow.None? {
        return OffsetAboveTunnelPort;
      }
      var client := Client(freeSlot, key, clientFlow.value, nowMs, nowMs);
      var sendsProxyHeader := origin.value.proxyProtocol == Some(OriginLookups.ProxyProtocolV2);
      InsertRegistered(lookup, slots, freeSlot, client);
      lookup := lookup[key := freeSlot];
      slots := Inserted(slots, freeSlot, client);
      outcome := NewClient(freeSlot, target.value, specialLan, sendsProxyHeader);
    }
  }
}
