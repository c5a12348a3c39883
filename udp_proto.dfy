/** The redirect-flow footer of the agent protocol: the addresses of a UDP flow, optionally
    a flow extension (client-server id, tunnel id, port offset) and, for v4, fragment
    information, written at the end of a datagram and identified by a trailing 8-byte id. */
module UdpProto {
  import opened Ints
  import opened Net
  import opened Wrappers
  import opened Encoding
  import opened Footer

  const REDIRECT_FLOW_4_FOOTER_ID_V1: u64 := 0x5cb8_67cf_7881_73b2
  const REDIRECT_FLOW_6_FOOTER_ID_V1: u64 := 0x6668_676f_6861_6366
  const REDIRECT_FLOW_4_FOOTER_ID_V2: u64 := 0x5cb8_67cf_7881_7399
  const REDIRECT_FLOW_6_FOOTER_ID_V2: u64 := 0x6cb6_67cf_7881_7369
  const UDP_CHANNEL_ESTABLISH_ID: u64 := 0xd01f_e683_0ddc_e781

  const EXT_LEN: nat := 18
  const IP4_LEN_V1: nat := 20
  /** The v4 addresses, the extension and a zero packet id. */
  const IP4_LEN_V2_WITHOUT_FRAG: nat := 20 + EXT_LEN + 2
  /** As above, with `has_more` and `frag_offset` in front of a nonzero packet id. */
  const IP4_LEN_V2_WITH_FRAG: nat := IP4_LEN_V2_WITHOUT_FRAG + 3
  const IP6_LEN_V1: nat := 48
  /** The v6 v1 footer without its 4-byte flow label, plus the extension. */
  const IP6_LEN_V2: nat := IP6_LEN_V1 - 4 + EXT_LEN

  type NonZeroU64 = x: u64 | x != 0 witness 1
  type NonZeroU16 = x: u16 | x != 0 witness 1

  datatype UdpFlowExtension = UdpFlowExtension(clientServerId: NonZeroU64, tunnelId: NonZeroU64, portOffset: u16)

  datatype FragmentInfo = FragmentInfo(packetId: NonZeroU16, fragOffset: u16, hasMore: bool)

  datatype UdpFlow =
    | V4(src: SocketAddrV4, dst: SocketAddrV4, frag: Option<FragmentInfo>, extension: Option<UdpFlowExtension>)
    | V6(src6: (Ipv6Addr, u16), dst6: (Ipv6Addr, u16), extension: Option<UdpFlowExtension>)

  function ClientServerId(f: UdpFlow): (r: Option<NonZeroU64>)
    ensures r.Some? <==> f.extension.Some?
    ensures r.Some? ==> r.value == f.extension.value.clientServerId
  {
    match f.extension
    case None => None
    case Some(e) => Some(e.clientServerId)
  }

  /** `UdpFlow::src`: a v6 endpoint gets flow label and scope id 0. */
  function Src(f: UdpFlow): SocketAddr {
    match f
    case V4(src, _, _, _) => SockV4(src)
    case V6(src, _, _) => SockV6(SocketAddrV6(src.0, src.1, 0, 0))
  }

  function Dst(f: UdpFlow): SocketAddr {
    match f
    case V4(_, dst, _, _) => SockV4(dst)
    case V6(_, dst, _) => SockV6(SocketAddrV6(dst.0, dst.1, 0, 0))
  }

  /** `UdpFlow::flip`: the reply direction of the flow; fragment and extension are kept. */
  function Flip(f: UdpFlow): (r: UdpFlow)
    ensures Src(r) == Dst(f) && Dst(r) == Src(f)
    ensures r.V4? == f.V4? && r.extension == f.extension
    ensures r.V4? ==> r.frag == f.frag
  {
    match f
    case V4(src, dst, frag, ext) => UdpFlow.V4(dst, src, frag, ext)
    case V6(src, dst, ext) => UdpFlow.V6(dst, src, ext)
  }

  lemma FlipInvolution(f: UdpFlow)
    ensures Flip(Flip(f)) == f
    ensures FooterLen(Flip(f)) == FooterLen(f)
  {
  }

  /** `UdpFlow::footer_len`. */
  function FooterLen(f: UdpFlow): (n: nat)
    ensures f.V4? && f.extension.None? ==> n == 20
    ensures f.V4? && f.extension.Some? && f.frag.None? ==> n == 40
    ensures f.V4? && f.extension.Some? && f.frag.Some? ==> n == 43
    ensures f.V6? && f.extension.None? ==> n == 48
    ensures f.V6? && f.extension.Some? ==> n == 62
  {
    match f
    case V4(_, _, frag, ext) =>
      if ext.None? then IP4_LEN_V1
      else if frag.Some? then IP4_LEN_V2_WITH_FRAG
      else IP4_LEN_V2_WITHOUT_FRAG
    case V6(_, _, ext) => if ext.None? then IP6_LEN_V1 else IP6_LEN_V2
  }

  /** `m_max_list`: the largest of a non-empty list of lengths. */
  function MaxList(xs: seq<nat>): (r: nat)
    requires |xs| > 0
    ensures forall i :: 0 <= i < |xs| ==> xs[i] <= r
    ensures exists i :: 0 <= i < |xs| && xs[i] == r
  {
    if |xs| == 1 then xs[0]
    else
      var m := MaxList(xs[1..]);
      assert forall i :: 1 <= i < |xs| ==> xs[i] == xs[1..][i - 1];
      if xs[0] >= m then xs[0] else m
  }

  const MAX_IP4_LEN: nat := MaxList([IP4_LEN_V1, IP4_LEN_V2_WITH_FRAG, IP4_LEN_V2_WITHOUT_FRAG])
  const MAX_IP6_LEN: nat := MaxList([IP6_LEN_V1, IP6_LEN_V2])
  const MX_LEN: nat := MaxList([MAX_IP4_LEN, MAX_IP6_LEN])

  /** Every footer fits in `MX_LEN` bytes, and a v4 footer in `MAX_IP4_LEN`. */
  lemma FooterLenBounds(f: UdpFlow)
    ensures f.V4? ==> FooterLen(f) <= MAX_IP4_LEN
    ensures f.V6? ==> FooterLen(f) <= MAX_IP6_LEN
    ensures FooterLen(f) <= MX_LEN
  {
    var l4 := [IP4_LEN_V1, IP4_LEN_V2_WITH_FRAG, IP4_LEN_V2_WITHOUT_FRAG];
    var l6 := [IP6_LEN_V1, IP6_LEN_V2];
    assert l4[0] <= MAX_IP4_LEN && l4[1] <= MAX_IP4_LEN && l4[2] <= MAX_IP4_LEN;
    assert l6[0] <= MAX_IP6_LEN && l6[1] <= MAX_IP6_LEN;
    assert [MAX_IP4_LEN, MAX_IP6_LEN][0] <= MX_LEN && [MAX_IP4_LEN, MAX_IP6_LEN][1] <= MX_LEN;
  }

  // ---------------------------------------------------------------------------
  // Layout
  // ---------------------------------------------------------------------------

  /** The extension: client-server id, tunnel id and port offset, 18 bytes. */
  function PutExt(e: UdpFlowExtension, rest: seq<u8>): (r: seq<u8>)
    ensures |r| == EXT_LEN + |rest|
  {
    PutU64(e.clientServerId, PutU64(e.tunnelId, PutU16(e.portOffset, rest)))
  }

  lemma ExtRoundTrip(e: UdpFlowExtension, rest: seq<u8>)
    ensures GetExt(PutExt(e, rest)) == Ok(((e.clientServerId as u64, e.tunnelId as u64, e.portOffset), rest))
  {
  }

  /** The extension's three numbers, before the zero checks. */
  function GetExt(s: seq<u8>): (r: Decoded<(u64, u64, u16)>)
    ensures r.Ok? <==> |s| >= EXT_LEN
    ensures r.Ok? ==> |r.value.1| == |s| - EXT_LEN
  {
    var clientServerId :- GetU64(s);
    var tunnelId :- GetU64(clientServerId.1);
    var portOffset :- GetU16(tunnelId.1);
    Ok(((clientServerId.0, tunnelId.0, portOffset.0), portOffset.1))
  }

  /** `has_more` as one byte, then the fragment offset; the packet id is written after them,
      just before the footer id. */
  function PutFrag(fr: FragmentInfo, rest: seq<u8>): (r: seq<u8>)
    ensures |r| == 3 + |rest|
  {
    PutU8(if fr.hasMore then 1 else 0, PutU16(fr.fragOffset, rest))
  }

  lemma FragRoundTrip(fr: FragmentInfo, rest: seq<u8>)
    ensures GetFrag(PutFrag(fr, rest)) == Ok(((fr.hasMore, fr.fragOffset), rest))
  {
  }

  /** Any nonzero `has_more` byte means more fragments follow. */
  function GetFrag(s: seq<u8>): (r: Decoded<(bool, u16)>)
    ensures r.Ok? <==> |s| >= 3
    ensures r.Ok? ==> |r.value.1| == |s| - 3 && (r.value.0.0 <==> s[0] != 0)
  {
    var hasMore :- GetU8(s);
    var fragOffset :- GetU16(hasMore.1);
    Ok(((hasMore.0 != 0, fragOffset.0), fragOffset.1))
  }

  /** The id `write_to` ends the footer of `f` with: v1 without an extension, v2 with one. */
  function FooterId(f: UdpFlow): (id: u64)
    ensures KnownFooterId(id)
    ensures id == REDIRECT_FLOW_4_FOOTER_ID_V1 || id == REDIRECT_FLOW_4_FOOTER_ID_V2 <==> f.V4?
    ensures id == REDIRECT_FLOW_4_FOOTER_ID_V2 || id == REDIRECT_FLOW_6_FOOTER_ID_V2 <==> f.extension.Some?
  {
    match f
    case V4(_, _, _, ext) => if ext.None? then REDIRECT_FLOW_4_FOOTER_ID_V1 else REDIRECT_FLOW_4_FOOTER_ID_V2
    case V6(_, _, ext) => if ext.None? then REDIRECT_FLOW_6_FOOTER_ID_V1 else REDIRECT_FLOW_6_FOOTER_ID_V2
  }

  /** The packet id a v4 v2 footer carries just before its id: 0 without fragment
      information. */
  function PacketId(f: UdpFlow): u16
    requires f.V4?
  {
    if f.frag.None? then 0 else f.frag.value.packetId
  }

  /** What `write_to` writes in front of the id. A v4 flow without an extension is written
      in the v1 layout, which has no room for fragment information; a v6 flow without one
      gets a zero flow label. */
  function PutBody(f: UdpFlow, rest: seq<u8>): (r: seq<u8>)
    ensures |r| == FooterLen(f) - 8 + |rest|
  {
    match f
    case V4(src, dst, frag, ext) =>
      if ext.None? then PutV4Addrs(src, dst, rest)
      else PutV4Addrs(src, dst, PutExt(ext.value, PutV4Trailer(frag, rest)))
    case V6(src, dst, ext) =>
      if ext.None? then PutV6Addrs(src, dst, PutU32(0, rest))
      else PutV6Addrs(src, dst, PutExt(ext.value, rest))
  }

  /** After a v4 extension: the fragment information if any, then the packet id (0 for
      none). */
  function PutV4Trailer(frag: Option<FragmentInfo>, rest: seq<u8>): (r: seq<u8>)
    ensures |r| == (if frag.None? then 2 else 5) + |rest|
  {
    if frag.None? then PutU16(0, rest)
    else PutFrag(frag.value, PutU16(frag.value.packetId, rest))
  }

  lemma PutExtAppend(e: UdpFlowExtension, a: seq<u8>, b: seq<u8>)
    ensures PutExt(e, a + b) == PutExt(e, a) + b
  {
    PutU16Append(e.portOffset, a, b);
    PutU64Append(e.tunnelId, PutU16(e.portOffset, a), b);
    PutU64Append(e.clientServerId, PutU64(e.tunnelId, PutU16(e.portOffset, a)), b);
  }

  lemma PutFragAppend(fr: FragmentInfo, a: seq<u8>, b: seq<u8>)
    ensures PutFrag(fr, a + b) == PutFrag(fr, a) + b
  {
    PutU16Append(fr.fragOffset, a, b);
    PutU8Append(if fr.hasMore then 1 else 0, PutU16(fr.fragOffset, a), b);
  }

  /** The body does not depend on what follows it. */
  lemma PutBodyAppend(f: UdpFlow, a: seq<u8>, b: seq<u8>)
    ensures PutBody(f, a + b) == PutBody(f, a) + b
  {
    match f
    case V4(src, dst, frag, ext) =>
      if ext.Some? {
        var tr := PutV4Trailer(frag, a);
        if frag.None? {
          PutU16Append(0, a, b);
        } else {
          PutU16Append(frag.value.packetId, a, b);
          PutFragAppend(frag.value, PutU16(frag.value.packetId, a), b);
        }
        PutExtAppend(ext.value, tr, b);
        PutV4AddrsAppend(src, dst, PutExt(ext.value, tr), b);
      } else {
        PutV4AddrsAppend(src, dst, a, b);
      }
    case V6(src, dst, ext) =>
      if ext.None? {
        PutU32Append(0, a, b);
        PutV6AddrsAppend(src, dst, PutU32(0, a), b);
      } else {
        PutExtAppend(ext.value, a, b);
        PutV6AddrsAppend(src, dst, PutExt(ext.value, a), b);
      }
  }

  /** What a v4 v2 body holds in front of the packet id. */
  function V4V2Head(f: UdpFlow): (h: seq<u8>)
    requires f.V4? && f.extension.Some?
    ensures |h| == FooterLen(f) - 10
  {
    PutV4Addrs(f.src, f.dst, PutExt(f.extension.value, if f.frag.None? then [] else PutFrag(f.frag.value, [])))
  }

  /** A v4 v2 body ends in the packet id. */
  lemma PutBodyPacketId(f: UdpFlow, rest: seq<u8>)
    requires f.V4? && f.extension.Some?
    ensures PutBody(f, rest) == V4V2Head(f) + PutU16(PacketId(f), rest)
  {
    var e := f.extension.value;
    var p := PutU16(PacketId(f), rest);
    var fragPart: seq<u8> := if f.frag.None? then [] else PutFrag(f.frag.value, []);
    if f.frag.Some? {
      PutFragAppend(f.frag.value, [], p);
    }
    assert PutV4Trailer(f.frag, rest) == fragPart + p;
    PutExtAppend(e, fragPart, p);
    PutV4AddrsAppend(f.src, f.dst, PutExt(e, fragPart), p);
  }

  /** The footer's bytes: `footer_len` of them, the last 8 being the id. */
  function FooterBytes(f: UdpFlow): (r: seq<u8>)
    ensures |r| == FooterLen(f)
  {
    PutBody(f, PutU64(FooterId(f), []))
  }

  /** The last 8 bytes of a footer are its id. */
  lemma FooterEndsInId(f: UdpFlow)
    ensures var t := FooterBytes(f); t[|t| - 8..] == PutU64(FooterId(f), [])
  {
    var idBytes := PutU64(FooterId(f), []);
    PutBodyAppend(f, [], idBytes);
    assert [] + idBytes == idBytes;
  }

  /** `UdpFlow::write_to` on the slice of `buf` that starts at `start`: false, with nothing
      written, when fewer than `footer_len` bytes are left; otherwise the footer fills the
      first `footer_len` bytes of the slice, and everything else is unchanged. */
  method WriteTo(f: UdpFlow, buf: array<u8>, start: nat) returns (ok: bool)
    requires start <= buf.Length
    modifies buf
    ensures ok <==> buf.Length - start >= FooterLen(f)
    ensures ok ==> buf[..] == old(buf[..start]) + FooterBytes(f) + old(buf[start + FooterLen(f)..])
    ensures !ok ==> buf[..] == old(buf[..])
  {
    var n := FooterLen(f);
    if buf.Length - start < n {
      return false;
    }
    var bytes := FooterBytes(f);
    assert |bytes| == n;
    WriteAt(buf, start, bytes);
    return true;
  }

  // ---------------------------------------------------------------------------
  // Reading from the tail
  // ---------------------------------------------------------------------------

  predicate KnownFooterId(id: u64) {
    id == REDIRECT_FLOW_4_FOOTER_ID_V1 || id == REDIRECT_FLOW_4_FOOTER_ID_V2
    || id == REDIRECT_FLOW_6_FOOTER_ID_V1 || id == REDIRECT_FLOW_6_FOOTER_ID_V2
  }

  /** A 20-byte v4 v1 footer. Every read is within the slice, so none of the source's
      `unwrap`s can fail. */
  function ReadV4V1(t: seq<u8>): UdpFlow
    requires |t| == IP4_LEN_V1
  {
    var addrs := GetV4Addrs(t).value.0;
    UdpFlow.V4(addrs.0, addrs.1, None, None)
  }

  /** `NonZeroU64::new(..).ok_or(None)?` on both ids: `None` when either is zero. */
  function ToExtension(raw: (u64, u64, u16)): (r: Option<UdpFlowExtension>)
    ensures r.Some? <==> raw.0 != 0 && raw.1 != 0
  {
    if raw.0 == 0 || raw.1 == 0 then None else Some(UdpFlowExtension(raw.0, raw.1, raw.2))
  }

  /** The fragment information after the extension, present exactly when the packet id is
      nonzero. */
  function ReadFrag(s: seq<u8>, packetId: u16): (r: Option<FragmentInfo>)
    requires packetId != 0 ==> |s| >= 3
    ensures r.Some? <==> packetId != 0
  {
    if packetId == 0 then None
    else
      var fr := GetFrag(s).value.0;
      Some(FragmentInfo(packetId, fr.1, fr.0))
  }

  /** A v4 v2 footer of 40 bytes (packet id 0) or 43 bytes (a fragment); a zero
      client-server id or tunnel id is rejected. */
  function ReadV4V2(t: seq<u8>, packetId: u16): Result<UdpFlow, Option<u64>>
    requires |t| == V4V2Len(packetId)
  {
    var addrs := GetV4Addrs(t).value;
    var ext := GetExt(addrs.1).value;
    match ToExtension(ext.0)
    case None => Err(None)
    case Some(e) => Ok(UdpFlow.V4(addrs.0.0, addrs.0.1, ReadFrag(ext.1, packetId), Some(e)))
  }

  /** A 48-byte v6 v1 footer; the flow label after the addresses is dropped. */
  function ReadV6V1(t: seq<u8>): UdpFlow
    requires |t| == IP6_LEN_V1
  {
    var addrs := GetV6Addrs(t).value.0;
    UdpFlow.V6(addrs.0, addrs.1, None)
  }

  /** A 62-byte v6 v2 footer; a zero client-server id or tunnel id is rejected. */
  function ReadV6V2(t: seq<u8>): Result<UdpFlow, Option<u64>>
    requires |t| == IP6_LEN_V2
  {
    var addrs := GetV6Addrs(t).value;
    var ext := GetExt(addrs.1).value;
    match ToExtension(ext.0)
    case None => Err(None)
    case Some(e) => Ok(UdpFlow.V6(addrs.0.0, addrs.0.1, Some(e)))
  }

  /** `UdpFlow::from_tail`: the footer at the end of `s`. `Err(None)` when `s` is too short
      for the footer its id announces or an id in it is zero, `Err(Some(id))` for an unknown
      footer id. */
  function FromTail(s: seq<u8>): (r: Result<UdpFlow, Option<u64>>)
    ensures |s| < 8 ==> r == Err(None)
    ensures |s| >= 8 && !KnownFooterId(TailId(s)) ==> r == Err(Some(TailId(s)))
  {
    if |s| < 8 then Err(None)
    else
      var id := TailId(s);
      if id == REDIRECT_FLOW_4_FOOTER_ID_V1 then
        if |s| < IP4_LEN_V1 then Err(None) else Ok(ReadV4V1(s[|s| - IP4_LEN_V1..]))
      else if id == REDIRECT_FLOW_4_FOOTER_ID_V2 then FromTailV4V2Layout(s)
      else if id == REDIRECT_FLOW_6_FOOTER_ID_V1 then
        if |s| < IP6_LEN_V1 then Err(None) else Ok(ReadV6V1(s[|s| - IP6_LEN_V1..]))
      else if id == REDIRECT_FLOW_6_FOOTER_ID_V2 then
        if |s| < IP6_LEN_V2 then Err(None) else ReadV6V2(s[|s| - IP6_LEN_V2..])
      else Err(Some(id))
  }

  /** The v4 v2 layout, whose length depends on the packet id in front of the footer id. */
  function FromTailV4V2Layout(s: seq<u8>): Result<UdpFlow, Option<u64>> {
    if |s| < 10 then Err(None) else FromTailV4V2Sized(s, TailPacketId(s))
  }

  /** The length of a v4 v2 footer: the fragment information is there when the packet id
      is not 0. */
  function V4V2Len(packetId: u16): nat {
    if packetId == 0 then IP4_LEN_V2_WITHOUT_FRAG else IP4_LEN_V2_WITH_FRAG
  }

  /** The v4 v2 footer at the end of `s` once its packet id is known. */
  function FromTailV4V2Sized(s: seq<u8>, packetId: u16): Result<UdpFlow, Option<u64>> {
    var len := V4V2Len(packetId);
    if |s| < len then Err(None) else ReadV4V2(s[|s| - len..], packetId)
  }

  /** `BigEndian::read_u16(&slice[slice.len() - 10..])`: the packet id in front of the id. */
  function TailPacketId(s: seq<u8>): u16
    requires |s| >= 10
  {
    Pow256Widths();
    FromBE(s[|s| - 10..|s| - 8])
  }

  // ---------------------------------------------------------------------------
  // Round trip
  // ---------------------------------------------------------------------------

  /** What a written footer reads back as: a v4 flow without an extension loses its fragment
      information, which the v1 layout cannot carry. */
  function Written(f: UdpFlow): UdpFlow {
    if f.V4? && f.extension.None? then f.(frag := None) else f
  }

  /** Whatever precedes it, a written footer reads back as the flow it was written from,
      as far as its layout carries it. */
  lemma FromTailRoundTrip(prefix: seq<u8>, f: UdpFlow)
    ensures FromTail(prefix + FooterBytes(f)) == Ok(Written(f))
  {
    var t := FooterBytes(f);
    var s := prefix + t;
    assert s[|s| - |t|..] == t;
    FromTailOfFooter(s, f);
  }

  /** A footer round-trips exactly when it is not a v4 flow with fragment information but no
      extension. */
  lemma FromTailRoundTripIff(prefix: seq<u8>, f: UdpFlow)
    ensures FromTail(prefix + FooterBytes(f)) == Ok(f) <==> !(f.V4? && f.extension.None? && f.frag.Some?)
  {
    FromTailRoundTrip(prefix, f);
  }

  /** A datagram that ends in the footer of `f`. */
  lemma FromTailOfFooter(s: seq<u8>, f: UdpFlow)
    requires |s| >= FooterLen(f) && s[|s| - FooterLen(f)..] == FooterBytes(f)
    ensures FromTail(s) == Ok(Written(f))
  {
    TailIdOfFooter(s, f);
    if f.V4? && f.extension.Some? {
      PacketIdOf(s, f);
      FromTailV4V2(s, f);
    } else if f.V4? {
      FromTailV4V1(s, f);
    } else if f.extension.None? {
      FromTailV6V1(s, f);
    } else {
      ReadV6V2Written(f);
      FromTailOfV6V2(s, FooterBytes(f), FooterLen(f), f);
    }
  }

  /** The id read from the end of such a datagram is the footer's. */
  lemma TailIdOfFooter(s: seq<u8>, f: UdpFlow)
    requires |s| >= FooterLen(f) && s[|s| - FooterLen(f)..] == FooterBytes(f)
    ensures TailId(s) == FooterId(f)
  {
    FooterEndsInId(f);
    TailIdOf(s, FooterBytes(f), FooterId(f));
  }

  lemma FromTailV4V1(s: seq<u8>, f: UdpFlow)
    requires f.V4? && f.extension.None?
    requires |s| >= FooterLen(f) && s[|s| - FooterLen(f)..] == FooterBytes(f)
    requires TailId(s) == FooterId(f)
    ensures FromTail(s) == Ok(Written(f))
  {
    ReadV4V1Written(f);
    FromTailReadsV4V1(s, FooterBytes(f));
  }

  lemma FromTailV4V2(s: seq<u8>, f: UdpFlow)
    requires f.V4? && f.extension.Some?
    requires |s| >= FooterLen(f) && s[|s| - FooterLen(f)..] == FooterBytes(f)
    requires TailId(s) == FooterId(f) && TailPacketId(s) == PacketId(f)
    ensures FromTail(s) == Ok(Written(f))
  {
    V4V2FooterFacts(f);
    ReadV4V2Written(f);
    FromTailOfV4V2(s, FooterBytes(f), FooterLen(f), PacketId(f), f);
  }

  /** The length and id of a v4 v2 footer. */
  lemma V4V2FooterFacts(f: UdpFlow)
    requires f.V4? && f.extension.Some?
    ensures FooterLen(f) == V4V2Len(PacketId(f)) && FooterId(f) == REDIRECT_FLOW_4_FOOTER_ID_V2
    ensures Written(f) == f
  {
  }

  lemma FromTailV6V1(s: seq<u8>, f: UdpFlow)
    requires f.V6? && f.extension.None?
    requires |s| >= FooterLen(f) && s[|s| - FooterLen(f)..] == FooterBytes(f)
    requires TailId(s) == FooterId(f)
    ensures FromTail(s) == Ok(Written(f))
  {
    assert FooterLen(f) == IP6_LEN_V1;
    ReadV6V1Written(f);
    FromTailReadsV6V1(s, FooterBytes(f));
  }

  // Which layout `FromTail` reads from the footer `t` at the end of `s`, given the tail id.

  lemma FromTailReadsV4V1(s: seq<u8>, t: seq<u8>)
    requires |t| == IP4_LEN_V1 <= |s| && s[|s| - |t|..] == t && TailId(s) == REDIRECT_FLOW_4_FOOTER_ID_V1
    ensures FromTail(s) == Ok(ReadV4V1(t))
  {
  }

  lemma FromTailReadsV4V2(s: seq<u8>)
    requires |s| >= 8 && TailId(s) == REDIRECT_FLOW_4_FOOTER_ID_V2
    ensures FromTail(s) == FromTailV4V2Layout(s)
  {
  }

  lemma FromTailOfV4V2(s: seq<u8>, t: seq<u8>, n: nat, packetId: u16, g: UdpFlow)
    requires |s| >= 10 && TailId(s) == REDIRECT_FLOW_4_FOOTER_ID_V2 && TailPacketId(s) == packetId
    requires n == |t| == V4V2Len(packetId)
    requires n <= |s| && s[|s| - n..] == t && ReadV4V2(t, packetId) == Ok(g)
    ensures FromTail(s) == Ok(g)
  {
    V4V2LayoutReads(s, t, packetId);
    FromTailReadsV4V2(s);
  }

  lemma V4V2LayoutReads(s: seq<u8>, t: seq<u8>, packetId: u16)
    requires |s| >= 10 && TailPacketId(s) == packetId
    requires |t| == V4V2Len(packetId)
    requires |t| <= |s| && s[|s| - |t|..] == t
    ensures FromTailV4V2Layout(s) == ReadV4V2(t, packetId)
  {
    assert FromTailV4V2Layout(s) == FromTailV4V2Sized(s, packetId);
    V4V2SizedReads(s, t, packetId);
  }

  lemma V4V2SizedReads(s: seq<u8>, t: seq<u8>, packetId: u16)
    requires |t| == V4V2Len(packetId)
    requires |t| <= |s| && s[|s| - |t|..] == t
    ensures FromTailV4V2Sized(s, packetId) == ReadV4V2(t, packetId)
  {
  }

  lemma FromTailOfV6V2(s: seq<u8>, t: seq<u8>, n: nat, g: UdpFlow)
    requires n == |t| == IP6_LEN_V2 <= |s| && s[|s| - n..] == t && TailId(s) == REDIRECT_FLOW_6_FOOTER_ID_V2
    requires ReadV6V2(t) == Ok(g)
    ensures FromTail(s) == Ok(g)
  {
    FromTailReadsV6V2(s, t);
  }

  lemma FromTailReadsV6V1(s: seq<u8>, t: seq<u8>)
    requires |t| == IP6_LEN_V1 <= |s| && s[|s| - |t|..] == t && TailId(s) == REDIRECT_FLOW_6_FOOTER_ID_V1
    ensures FromTail(s) == Ok(ReadV6V1(t))
  {
  }

  lemma FromTailReadsV6V2(s: seq<u8>, t: seq<u8>)
    requires |t| == IP6_LEN_V2 <= |s| && s[|s| - |t|..] == t && TailId(s) == REDIRECT_FLOW_6_FOOTER_ID_V2
    ensures FromTail(s) == ReadV6V2(t)
  {
  }

  /** The packet id read in front of a v4 v2 footer's id is the one written. */
  lemma PacketIdOf(s: seq<u8>, f: UdpFlow)
    requires f.V4? && f.extension.Some?
    requires |s| >= FooterLen(f) && s[|s| - FooterLen(f)..] == FooterBytes(f)
    ensures TailPacketId(s) == PacketId(f)
  {
    var idBytes := PutU64(FooterId(f), []);
    PutBodyPacketId(f, idBytes);
    Pow256Widths();
    var pid := ToBE(PacketId(f), 2);
    assert PutU16(PacketId(f), idBytes) == pid + idBytes;
    var t := FooterBytes(f);
    var h := V4V2Head(f);
    assert t == h + (pid + idBytes);
    SliceOfConcat(h, pid, idBytes);
    SliceOfSuffix(s, t, |h|, |h| + 2);
    assert |s| - |t| + |h| == |s| - 10;
    assert s[|s| - 10..|s| - 8] == pid;
    FromToBE(PacketId(f), 2);
  }

  lemma ReadV4V1Written(f: UdpFlow)
    requires f.V4? && f.extension.None?
    ensures ReadV4V1(FooterBytes(f)) == Written(f)
  {
  }

  lemma ReadV4V2Written(f: UdpFlow)
    requires f.V4? && f.extension.Some?
    ensures ReadV4V2(FooterBytes(f), PacketId(f)) == Ok(f)
  {
    var e := f.extension.value;
    var idBytes := PutU64(FooterId(f), []);
    var trailer := PutV4Trailer(f.frag, idBytes);
    var x := PutExt(e, trailer);
    var t := FooterBytes(f);
    assert t == PutV4Addrs(f.src, f.dst, x);
    assert GetV4Addrs(t) == Ok(((f.src, f.dst), x));
    assert GetExt(x) == Ok(((e.clientServerId as u64, e.tunnelId as u64, e.portOffset), trailer));
    assert ToExtension((e.clientServerId as u64, e.tunnelId as u64, e.portOffset)) == Some(e);
    FragRead(f.frag, idBytes);
  }

  lemma FragRead(frag: Option<FragmentInfo>, rest: seq<u8>)
    ensures ReadFrag(PutV4Trailer(frag, rest), if frag.None? then 0 else frag.value.packetId) == frag
  {
    if frag.Some? {
      var fr := frag.value;
      assert GetFrag(PutV4Trailer(frag, rest)).value.0 == (fr.hasMore, fr.fragOffset);
    }
  }

  lemma ReadV6V1Written(f: UdpFlow)
    requires f.V6? && f.extension.None?
    ensures ReadV6V1(FooterBytes(f)) == f
  {
  }

  lemma ReadV6V2Written(f: UdpFlow)
    requires f.V6? && f.extension.Some?
    ensures ReadV6V2(FooterBytes(f)) == Ok(f)
    ensures FooterLen(f) == IP6_LEN_V2 && FooterId(f) == REDIRECT_FLOW_6_FOOTER_ID_V2 && Written(f) == f
  {
  }

  /** Writing a flow into a buffer and reading the footer back from the end of what was
      written gives the flow, as far as its layout carries it. */
  lemma WriteThenReadBack(before: seq<u8>, after: seq<u8>, f: UdpFlow, start: nat)
    requires start + FooterLen(f) <= |before| && |after| == |before|
    requires after == before[..start] + FooterBytes(f) + before[start + FooterLen(f)..]
    ensures FromTail(after[..start + FooterLen(f)]) == Ok(Written(f))
  {
    assert after[..start + FooterLen(f)] == before[..start] + FooterBytes(f);
    FromTailRoundTrip(before[..start], f);
  }
}
