/** The shared crate's `RedirectFlowFooter`: v4 and v6 address pairs at the tail of a
    datagram, where the v6 footer also carries a 32-bit flow label that survives the trip. */
module CommonUdp {
  import opened Ints
  import opened Net
  import opened Wrappers
  import opened Encoding
  import opened Footer

  const REDIRECT_FLOW_4_FOOTER_ID_OLD: u64 := 0x5cb8_67cf_7881_73b2
  const REDIRECT_FLOW_4_FOOTER_ID: u64 := 0x4448_474f_4841_4344
  const REDIRECT_FLOW_6_FOOTER_ID: u64 := 0x6668_676f_6861_6366
  const UDP_CHANNEL_ESTABLISH_ID: u64 := 0xd01f_e683_0ddc_e781

  const V4_LEN: nat := 20
  const V6_LEN: nat := 48

  datatype RedirectFlowFooter =
    | V4(src: SocketAddrV4, dst: SocketAddrV4)
    | V6(src6: (Ipv6Addr, u16), dst6: (Ipv6Addr, u16), flow: u32)

  /** `src()`: a v6 endpoint carries the footer's flow label and scope id 0. */
  function Src(f: RedirectFlowFooter): SocketAddr {
    match f
    case V4(src, _) => SockV4(src)
    case V6(src, _, flow) => SockV6(SocketAddrV6(src.0, src.1, flow, 0))
  }

  function Dst(f: RedirectFlowFooter): SocketAddr {
    match f
    case V4(_, dst) => SockV4(dst)
    case V6(_, dst, flow) => SockV6(SocketAddrV6(dst.0, dst.1, flow, 0))
  }

  /** `flip`: source and destination swapped, the flow label kept. */
  function Flip(f: RedirectFlowFooter): (r: RedirectFlowFooter)
    ensures Src(r) == Dst(f) && Dst(r) == Src(f) && r.V4? == f.V4?
    ensures f.V6? ==> r.V6? && r.flow == f.flow
  {
    match f
    case V4(src, dst) => RedirectFlowFooter.V4(dst, src)
    case V6(src, dst, flow) => RedirectFlowFooter.V6(dst, src, flow)
  }

  lemma FlipInvolution(f: RedirectFlowFooter)
    ensures Flip(Flip(f)) == f
  {
  }

  /** `len`. */
  function Len(f: RedirectFlowFooter): (n: nat)
    ensures n == if f.V4? then 20 else 48
  {
    if f.V4? then V4_LEN else V6_LEN
  }

  /** What `write_to` writes: the addresses, then for v6 the flow label, then the id; a v4
      footer is written with the old v4 id. */
  function FooterBytes(f: RedirectFlowFooter): (r: seq<u8>)
    ensures |r| == Len(f)
  {
    match f
    case V4(src, dst) => PutV4Addrs(src, dst, PutU64(REDIRECT_FLOW_4_FOOTER_ID_OLD, []))
    case V6(src, dst, flow) => PutV6Addrs(src, dst, PutU32(flow, PutU64(REDIRECT_FLOW_6_FOOTER_ID, [])))
  }

  function FooterId(f: RedirectFlowFooter): u64 {
    if f.V4? then REDIRECT_FLOW_4_FOOTER_ID_OLD else REDIRECT_FLOW_6_FOOTER_ID
  }

  lemma FooterEndsInId(f: RedirectFlowFooter)
    ensures var t := FooterBytes(f); t[|t| - 8..] == PutU64(FooterId(f), [])
  {
    var idBytes := PutU64(FooterId(f), []);
    match f
    case V4(src, dst) =>
      PutV4AddrsAppend(src, dst, [], idBytes);
      assert [] + idBytes == idBytes;
    case V6(src, dst, flow) =>
      PutU32Append(flow, [], idBytes);
      PutV6AddrsAppend(src, dst, PutU32(flow, []), idBytes);
  }

  /** `write_to` on the slice of `buf` from `start` on: false, writing nothing, when fewer
      than `len` bytes are left; otherwise the footer bytes at `start`. */
  method WriteTo(f: RedirectFlowFooter, buf: array<u8>, start: nat) returns (ok: bool)
    requires start <= buf.Length
    modifies buf
    ensures ok <==> buf.Length - start >= Len(f)
    ensures ok ==> buf[..] == old(buf[..start]) + FooterBytes(f) + old(buf[start + Len(f)..])
    ensures !ok ==> buf[..] == old(buf[..])
  {
    var n := Len(f);
    if buf.Length - start < n {
      return false;
    }
    var bytes := FooterBytes(f);
    assert |bytes| == n;
    WriteAt(buf, start, bytes);
    return true;
  }

  predicate IsV4Id(id: u64) {
    id == REDIRECT_FLOW_4_FOOTER_ID || id == REDIRECT_FLOW_4_FOOTER_ID_OLD
  }

  /** The 20 bytes of a v4 footer; every read is within them, so no `unwrap` fails. */
  function ReadV4(t: seq<u8>): RedirectFlowFooter
    requires |t| == V4_LEN
  {
    var addrs := GetV4Addrs(t).value.0;
    RedirectFlowFooter.V4(addrs.0, addrs.1)
  }

  /** The 48 bytes of a v6 footer: the addresses, then the flow label. */
  function ReadV6(t: seq<u8>): RedirectFlowFooter
    requires |t| == V6_LEN
  {
    var addrs := GetV6Addrs(t).value;
    var flow := GetU32(addrs.1).value.0;
    RedirectFlowFooter.V6(addrs.0.0, addrs.0.1, flow)
  }

  /** `from_tail`: `None` for fewer than 8 bytes, an unknown id, or a datagram too short for
      the layout its id selects. */
  function FromTail(s: seq<u8>): (r: Option<RedirectFlowFooter>)
    ensures |s| < 8 ==> r == None
    ensures |s| >= 8 && !IsV4Id(TailId(s)) && TailId(s) != REDIRECT_FLOW_6_FOOTER_ID ==> r == None
  {
    if |s| < 8 then None
    else
      var footer := TailId(s);
      if IsV4Id(footer) then
        if |s| < V4_LEN then None else Some(ReadV4(s[|s| - V4_LEN..]))
      else if footer == REDIRECT_FLOW_6_FOOTER_ID then
        if |s| < V6_LEN then None else Some(ReadV6(s[|s| - V6_LEN..]))
      else None
  }

  /** Exactly which datagrams yield a footer, and of which family. */
  lemma FromTailSomeIff(s: seq<u8>)
    ensures FromTail(s).Some? <==>
      |s| >= 8 && ((IsV4Id(TailId(s)) && |s| >= V4_LEN) || (TailId(s) == REDIRECT_FLOW_6_FOOTER_ID && |s| >= V6_LEN))
    ensures FromTail(s).Some? ==> (FromTail(s).value.V4? <==> IsV4Id(TailId(s)))
  {
  }

  lemma FromTailReadsV4(s: seq<u8>, t: seq<u8>)
    requires |t| == V4_LEN <= |s| && s[|s| - |t|..] == t && IsV4Id(TailId(s))
    ensures FromTail(s) == Some(ReadV4(t))
  {
  }

  lemma FromTailReadsV6(s: seq<u8>, t: seq<u8>)
    requires |t| == V6_LEN <= |s| && s[|s| - |t|..] == t && TailId(s) == REDIRECT_FLOW_6_FOOTER_ID
    ensures FromTail(s) == Some(ReadV6(t))
  {
  }

  /** A datagram that ends in 12 bytes of v4 addresses and either v4 id reads as that v4
      footer. */
  lemma FromTailV4(s: seq<u8>, src: SocketAddrV4, dst: SocketAddrV4, id: u64)
    requires IsV4Id(id)
    requires |s| >= V4_LEN && s[|s| - V4_LEN..] == PutV4Addrs(src, dst, PutU64(id, []))
    ensures FromTail(s) == Some(RedirectFlowFooter.V4(src, dst))
  {
    var idBytes := PutU64(id, []);
    var t := PutV4Addrs(src, dst, idBytes);
    V4AddrsEndIn(src, dst, idBytes);
    TailIdOf(s, t, id);
    ReadV4Addrs(src, dst, idBytes);
    FromTailReadsV4(s, t);
  }

  lemma ReadV4Addrs(src: SocketAddrV4, dst: SocketAddrV4, idBytes: seq<u8>)
    requires |idBytes| == 8
    ensures ReadV4(PutV4Addrs(src, dst, idBytes)) == RedirectFlowFooter.V4(src, dst)
  {
    V4AddrsRoundTrip(src, dst, idBytes);
  }

  /** The v6 footer reads back with its flow label. */
  lemma FromTailV6(s: seq<u8>, f: RedirectFlowFooter)
    requires f.V6? && |s| >= V6_LEN && s[|s| - V6_LEN..] == FooterBytes(f)
    ensures FromTail(s) == Some(f)
  {
    var t := FooterBytes(f);
    var idBytes := PutU64(REDIRECT_FLOW_6_FOOTER_ID, []);
    FooterEndsInId(f);
    TailIdOf(s, t, REDIRECT_FLOW_6_FOOTER_ID);
    V6AddrsRoundTrip(f.src6, f.dst6, PutU32(f.flow, idBytes));
    assert GetU32(PutU32(f.flow, idBytes)) == Ok((f.flow, idBytes));
    assert ReadV6(t) == f;
    FromTailReadsV6(s, t);
  }

  /** Whatever precedes it, a written footer reads back as the footer it was written
      from, the v6 flow label included. */
  lemma FromTailRoundTrip(prefix: seq<u8>, f: RedirectFlowFooter)
    ensures FromTail(prefix + FooterBytes(f)) == Some(f)
  {
    var t := FooterBytes(f);
    var s := prefix + t;
    assert s[|s| - |t|..] == t;
    match f
    case V4(src, dst) => FromTailV4(s, src, dst, REDIRECT_FLOW_4_FOOTER_ID_OLD);
    case V6(_, _, _) => FromTailV6(s, f);
  }

  /** A footer written by `write_to` at the end of a buffer reads back from the buffer, as
      in the serialisation tests, which write into the last `len` bytes of 100. */
  lemma WriteThenReadBack(before: seq<u8>, after: seq<u8>, f: RedirectFlowFooter)
    requires Len(f) <= |before| && |after| == |before|
    requires after == before[..|before| - Len(f)] + FooterBytes(f) + before[|before|..]
    ensures FromTail(after) == Some(f)
  {
    assert after == before[..|before| - Len(f)] + FooterBytes(f);
    FromTailRoundTrip(before[..|before| - Len(f)], f);
  }

  /** The parse test's datagram yields a footer: 147.185.221.192:1234 to
      192.168.17.179:44451. */
  lemma ParseTestDatagram()
    ensures FromTail(PARSE_TEST_DATAGRAM) == Some(RedirectFlowFooter.V4(
      SocketAddrV4(Ipv4Addr([147, 185, 221, 192]), 1234),
      SocketAddrV4(Ipv4Addr([192, 168, 17, 179]), 44451)))
  {
    var src := SocketAddrV4(Ipv4Addr([147, 185, 221, 192]), 1234);
    var dst := SocketAddrV4(Ipv4Addr([192, 168, 17, 179]), 44451);
    TestFooterBytes(src, dst);
    TestFooterIsSuffix();
    FromTailV4(PARSE_TEST_DATAGRAM, src, dst, REDIRECT_FLOW_4_FOOTER_ID_OLD);
  }
}
