/** The control channel's own UDP flow footer: v4 and v6 address pairs without extension,
    ordered so that flows aimed at a port range sit next to each other. */
module ControlUdpProto {
  import opened Ints
  import opened Net
  import opened Wrappers
  import opened Encoding
  import opened Footer

  const REDIRECT_FLOW_4_FOOTER_ID_OLD: u64 := 0x5cb8_67cf_7881_73b2
  const REDIRECT_FLOW_4_FOOTER_ID: u64 := 0x4448_474f_4841_4344
  const REDIRECT_FLOW_6_FOOTER_ID: u64 := 0x6668_676f_6861_6366
  const UDP_CHANNEL_ESTABLISH_ID: u64 := 0xd01f_e683_0ddc_e781

  const V4_LEN: nat := 20
  const V6_LEN: nat := 48

  datatype UdpFlow =
    | V4(src: SocketAddrV4, dst: SocketAddrV4)
    | V6(src6: (Ipv6Addr, u16), dst6: (Ipv6Addr, u16))

  // ---------------------------------------------------------------------------
  // Ordering
  // ---------------------------------------------------------------------------

  /** The derived order on `SocketAddrV4` and on `(Ipv6Addr, u16)`: ip, then port. */
  function CompareEndpoint(aIp: seq<u8>, aPort: u16, bIp: seq<u8>, bPort: u16): Ordering
    requires |aIp| == |bIp|
  {
    CompareBytes(aIp, bIp).Then(CompareInt(aPort, bPort))
  }

  /** `UdpFlow::partial_cmp`: every v4 flow before every v6 flow; within a family the source
      endpoint, then the destination ip, and the destination port last. */
  function Compare(a: UdpFlow, b: UdpFlow): (r: Ordering)
    ensures a.V4? && b.V6? ==> r == Less
    ensures a.V6? && b.V4? ==> r == Greater
  {
    match (a, b)
    case (V4(aSrc, aDst), V4(bSrc, bDst)) =>
      CompareEndpoint(aSrc.ip.octets, aSrc.port, bSrc.ip.octets, bSrc.port)
        .Then(CompareBytes(aDst.ip.octets, bDst.ip.octets))
        .Then(CompareInt(aDst.port, bDst.port))
    case (V6(aSrc, aDst), V6(bSrc, bDst)) =>
      CompareEndpoint(aSrc.0.octets, aSrc.1, bSrc.0.octets, bSrc.1)
        .Then(CompareBytes(aDst.0.octets, bDst.0.octets))
        .Then(CompareInt(aDst.1, bDst.1))
    case (V4(_, _), V6(_, _)) => Less
    case (V6(_, _), V4(_, _)) => Greater
  }

  /** The fields a comparison looks at, in the order it looks at them, each as a
      length-tagged key: the family, the source ip and port, the destination ip and port. */
  function Key(f: UdpFlow): (k: (nat, seq<u8>, u16, seq<u8>, u16))
    ensures |k.1| == |k.3| == (if f.V4? then 4 else 16)
  {
    match f
    case V4(src, dst) => (0, src.ip.octets, src.port, dst.ip.octets, dst.port)
    case V6(src, dst) => (1, src.0.octets, src.1, dst.0.octets, dst.1)
  }

  lemma KeyInjective(a: UdpFlow, b: UdpFlow)
    ensures Key(a) == Key(b) <==> a == b
  {
    if Key(a) == Key(b) {
      match (a, b) {
        case (V4(aSrc, aDst), V4(bSrc, bDst)) =>
          assert aSrc.ip == Ipv4Addr(Key(a).1) && aDst.ip == Ipv4Addr(Key(a).3);
        case (V6(aSrc, aDst), V6(bSrc, bDst)) =>
          assert aSrc.0 == Ipv6Addr(Key(a).1) && aDst.0 == Ipv6Addr(Key(a).3);
        case _ =>
      }
    }
  }

  /** Comparing two flows of one family is comparing their keys field by field. */
  function CompareKeys(a: UdpFlow, b: UdpFlow): Ordering
    requires a.V4? == b.V4?
  {
    var ka, kb := Key(a), Key(b);
    CompareBytes(ka.1, kb.1).Then(CompareInt(ka.2, kb.2)).Then(CompareBytes(ka.3, kb.3)).Then(CompareInt(ka.4, kb.4))
  }

  lemma CompareIsCompareKeys(a: UdpFlow, b: UdpFlow)
    requires a.V4? == b.V4?
    ensures Compare(a, b) == CompareKeys(a, b)
  {
    var x, y, z, w :=
      CompareBytes(Key(a).1, Key(b).1), CompareInt(Key(a).2, Key(b).2),
      CompareBytes(Key(a).3, Key(b).3), CompareInt(Key(a).4, Key(b).4);
    assert x.Then(y).Then(z).Then(w) == x.Then(y).Then(z).Then(w);
  }

  /** `Ord for UdpFlow` is a total order: equal exactly on equal flows, antisymmetric and
      transitive. */
  lemma CompareTotalOrder(a: UdpFlow, b: UdpFlow, c: UdpFlow)
    ensures Compare(a, b) == Equal <==> a == b
    ensures Compare(b, a) == Compare(a, b).Reverse()
    ensures Compare(a, b) != Greater && Compare(b, c) != Greater ==> Compare(a, c) != Greater
  {
    KeyInjective(a, b);
    if a.V4? == b.V4? {
      CompareIsCompareKeys(a, b);
      CompareIsCompareKeys(b, a);
      CompareBytesEqual(Key(a).1, Key(b).1);
      CompareBytesEqual(Key(a).3, Key(b).3);
      CompareBytesAntisymmetric(Key(a).1, Key(b).1);
      CompareBytesAntisymmetric(Key(a).3, Key(b).3);
    }
    if Compare(a, b) != Greater && Compare(b, c) != Greater && a.V4? == b.V4? == c.V4? {
      CompareIsCompareKeys(b, c);
      CompareIsCompareKeys(a, c);
      CompareKeysTransitive(a, b, c);
    }
  }

  lemma CompareKeysTransitive(a: UdpFlow, b: UdpFlow, c: UdpFlow)
    requires a.V4? == b.V4? == c.V4?
    requires CompareKeys(a, b) != Greater && CompareKeys(b, c) != Greater
    ensures CompareKeys(a, c) != Greater
  {
    var ka, kb, kc := Key(a), Key(b), Key(c);
    CompareBytesEqual(ka.1, kb.1);
    CompareBytesEqual(kb.1, kc.1);
    CompareBytesEqual(ka.1, kc.1);
    CompareBytesEqual(ka.3, kb.3);
    CompareBytesEqual(kb.3, kc.3);
    CompareBytesEqual(ka.3, kc.3);
    CompareBytesTransitive(ka.1, kb.1, kc.1);
    CompareBytesAntisymmetric(ka.1, kc.1);
    CompareBytesAntisymmetric(ka.1, kb.1);
    CompareBytesAntisymmetric(kb.1, kc.1);
    if ka.1 == kb.1 == kc.1 && ka.2 == kb.2 == kc.2 {
      CompareBytesTransitive(ka.3, kb.3, kc.3);
      CompareBytesAntisymmetric(ka.3, kc.3);
      CompareBytesAntisymmetric(ka.3, kb.3);
      CompareBytesAntisymmetric(kb.3, kc.3);
    }
  }

  /** Why the destination port is compared last: between two flows that agree on everything
      but the destination port lie only flows that agree on the same and whose destination
      port lies between theirs, so the flows aimed at one port range are contiguous. */
  lemma SamePrefixContiguous(a: UdpFlow, b: UdpFlow, c: UdpFlow)
    requires a.V4? && c.V4? && a.src == c.src && a.dst.ip == c.dst.ip
    requires Compare(a, b) != Greater && Compare(b, c) != Greater
    ensures b.V4? && b.src == a.src && b.dst.ip == a.dst.ip
    ensures a.dst.port <= b.dst.port <= c.dst.port
  {
    assert b.V4?;
    CompareIsCompareKeys(a, b);
    CompareIsCompareKeys(b, c);
    var ka, kb, kc := Key(a), Key(b), Key(c);
    CompareBytesEqual(ka.1, kb.1);
    CompareBytesEqual(kb.1, kc.1);
    CompareBytesEqual(ka.3, kb.3);
    CompareBytesEqual(kb.3, kc.3);
    CompareBytesAntisymmetric(ka.1, kb.1);
    CompareBytesAntisymmetric(ka.3, kb.3);
    CompareBytesTransitive(ka.1, kb.1, kc.1);
    CompareBytesTransitive(kb.1, kc.1, ka.1);
    CompareBytesTransitive(ka.3, kb.3, kc.3);
    CompareBytesTransitive(kb.3, kc.3, ka.3);
    assert b.src.ip == Ipv4Addr(kb.1) && b.dst.ip == Ipv4Addr(kb.3);
  }

  // ---------------------------------------------------------------------------
  // Endpoints
  // ---------------------------------------------------------------------------

  function Src(f: UdpFlow): SocketAddr {
    match f
    case V4(src, _) => SockV4(src)
    case V6(src, _) => SockV6(SocketAddrV6(src.0, src.1, 0, 0))
  }

  function Dst(f: UdpFlow): SocketAddr {
    match f
    case V4(_, dst) => SockV4(dst)
    case V6(_, dst) => SockV6(SocketAddrV6(dst.0, dst.1, 0, 0))
  }

  /** `UdpFlow::flip`: the reply direction. */
  function Flip(f: UdpFlow): (r: UdpFlow)
    ensures Src(r) == Dst(f) && Dst(r) == Src(f) && r.V4? == f.V4?
  {
    match f
    case V4(src, dst) => UdpFlow.V4(dst, src)
    case V6(src, dst) => UdpFlow.V6(dst, src)
  }

  lemma FlipInvolution(f: UdpFlow)
    ensures Flip(Flip(f)) == f
  {
  }

  /** `UdpFlow::with_src_port`: the source port replaced, nothing else. */
  function WithSrcPort(f: UdpFlow, port: u16): (r: UdpFlow)
    ensures Src(r) == NewSocketAddr(Src(f).Ip(), port)
    ensures Dst(r) == Dst(f) && r.V4? == f.V4?
  {
    match f
    case V4(src, dst) => UdpFlow.V4(SocketAddrV4(src.ip, port), dst)
    case V6(src, dst) => UdpFlow.V6((src.0, port), dst)
  }

  /** Setting the source port back undoes it, and setting it to what it was changes nothing. */
  lemma WithSrcPortInverse(f: UdpFlow, port: u16)
    ensures WithSrcPort(WithSrcPort(f, port), Src(f).Port()) == f
    ensures WithSrcPort(f, Src(f).Port()) == f
  {
  }

  // ---------------------------------------------------------------------------
  // The footer
  // ---------------------------------------------------------------------------

  /** `UdpFlow::len`. */
  function Len(f: UdpFlow): (n: nat)
    ensures n == if f.V4? then 20 else 48
  {
    if f.V4? then V4_LEN else V6_LEN
  }

  /** What `write_to` writes: the addresses, then for v6 a zero flow label, then the id. A v4
      flow is written with the old v4 id. */
  function FooterBytes(f: UdpFlow): (r: seq<u8>)
    ensures |r| == Len(f)
  {
    match f
    case V4(src, dst) => PutV4Addrs(src, dst, PutU64(REDIRECT_FLOW_4_FOOTER_ID_OLD, []))
    case V6(src, dst) => PutV6Addrs(src, dst, PutU32(0, PutU64(REDIRECT_FLOW_6_FOOTER_ID, [])))
  }

  function FooterId(f: UdpFlow): u64 {
    if f.V4? then REDIRECT_FLOW_4_FOOTER_ID_OLD else REDIRECT_FLOW_6_FOOTER_ID
  }

  lemma FooterEndsInId(f: UdpFlow)
    ensures var t := FooterBytes(f); t[|t| - 8..] == PutU64(FooterId(f), [])
  {
    var idBytes := PutU64(FooterId(f), []);
    match f
    case V4(src, dst) =>
      PutV4AddrsAppend(src, dst, [], idBytes);
      assert [] + idBytes == idBytes;
    case V6(src, dst) =>
      PutU32Append(0, [], idBytes);
      PutV6AddrsAppend(src, dst, PutU32(0, []), idBytes);
  }

  /** `UdpFlow::write_to` on the slice of `buf` from `start` on: false, writing nothing, when
      fewer than `len` bytes are left; otherwise the footer bytes at `start`. */
  method WriteTo(f: UdpFlow, buf: array<u8>, start: nat) returns (ok: bool)
    requires start <= buf.Length
    modifies buf
    ensures ok <==> buf.Length - start >= Len(f)
    ensures ok ==> buf[..] == old(buf[..start]) + FooterBytes(f) + old(buf[start + Len(f)..])
    ensures !ok ==> buf[..] == old(buf[..])
  {
    var n := Len(f);
    if buf.Length - start < n {
      return false;
    }
    var bytes := FooterBytes(f);
    assert |bytes| == n;
    WriteAt(buf, start, bytes);
    return true;
  }

  predicate KnownFooterId(id: u64) {
    id == REDIRECT_FLOW_4_FOOTER_ID || id == REDIRECT_FLOW_4_FOOTER_ID_OLD || id == REDIRECT_FLOW_6_FOOTER_ID
  }

  /** The 20 bytes of a v4 footer; every read is within them, so no `unwrap` fails. */
  function ReadV4(t: seq<u8>): UdpFlow
    requires |t| == V4_LEN
  {
    var addrs := GetV4Addrs(t).value.0;
    UdpFlow.V4(addrs.0, addrs.1)
  }

  /** The 48 bytes of a v6 footer; the flow label after the addresses is dropped. */
  function ReadV6(t: seq<u8>): UdpFlow
    requires |t| == V6_LEN
  {
    var addrs := GetV6Addrs(t).value.0;
    UdpFlow.V6(addrs.0, addrs.1)
  }

  /** `UdpFlow::from_tail`. Either v4 id selects the 20-byte layout; the v6 flow label is
      read and dropped. `Err(None)` for a datagram too short for its footer,
      `Err(Some(id))` for an unknown id. */
  function FromTail(s: seq<u8>): (r: Result<UdpFlow, Option<u64>>)
    ensures |s| < 8 ==> r == Err(None)
    ensures |s| >= 8 && !KnownFooterId(TailId(s)) ==> r == Err(Some(TailId(s)))
  {
    if |s| < 8 then Err(None)
    else
      var footer := TailId(s);
      if footer == REDIRECT_FLOW_4_FOOTER_ID || footer == REDIRECT_FLOW_4_FOOTER_ID_OLD then
        if |s| < V4_LEN then Err(None) else Ok(ReadV4(s[|s| - V4_LEN..]))
      else if footer == REDIRECT_FLOW_6_FOOTER_ID then
        if |s| < V6_LEN then Err(None) else Ok(ReadV6(s[|s| - V6_LEN..]))
      else Err(Some(footer))
  }

  /** A datagram that ends in 12 bytes of v4 addresses and either v4 id reads as that v4
      flow. */
  lemma FromTailV4(s: seq<u8>, src: SocketAddrV4, dst: SocketAddrV4, id: u64)
    requires id == REDIRECT_FLOW_4_FOOTER_ID || id == REDIRECT_FLOW_4_FOOTER_ID_OLD
    requires |s| >= V4_LEN && s[|s| - V4_LEN..] == PutV4Addrs(src, dst, PutU64(id, []))
    ensures FromTail(s) == Ok(UdpFlow.V4(src, dst))
  {
    var idBytes := PutU64(id, []);
    var t := PutV4Addrs(src, dst, idBytes);
    V4AddrsEndIn(src, dst, idBytes);
    TailIdOf(s, t, id);
    ReadV4Addrs(src, dst, idBytes);
    FromTailReadsV4(s, t);
  }

  lemma ReadV4Addrs(src: SocketAddrV4, dst: SocketAddrV4, idBytes: seq<u8>)
    requires |idBytes| == 8
    ensures ReadV4(PutV4Addrs(src, dst, idBytes)) == UdpFlow.V4(src, dst)
  {
    V4AddrsRoundTrip(src, dst, idBytes);
  }

  lemma FromTailV6(s: seq<u8>, f: UdpFlow)
    requires f.V6? && |s| >= V6_LEN && s[|s| - V6_LEN..] == FooterBytes(f)
    ensures FromTail(s) == Ok(f)
  {
    var t := FooterBytes(f);
    FooterEndsInId(f);
    TailIdOf(s, t, REDIRECT_FLOW_6_FOOTER_ID);
    V6AddrsRoundTrip(f.src6, f.dst6, PutU32(0, PutU64(REDIRECT_FLOW_6_FOOTER_ID, [])));
    assert ReadV6(t) == f;
    FromTailReadsV6(s, t);
  }

  lemma FromTailReadsV4(s: seq<u8>, t: seq<u8>)
    requires |t| == V4_LEN <= |s| && s[|s| - |t|..] == t
    requires TailId(s) == REDIRECT_FLOW_4_FOOTER_ID || TailId(s) == REDIRECT_FLOW_4_FOOTER_ID_OLD
    ensures FromTail(s) == Ok(ReadV4(t))
  {
  }

  lemma FromTailReadsV6(s: seq<u8>, t: seq<u8>)
    requires |t| == V6_LEN <= |s| && s[|s| - |t|..] == t && TailId(s) == REDIRECT_FLOW_6_FOOTER_ID
    ensures FromTail(s) == Ok(ReadV6(t))
  {
  }

  /** Whatever precedes it, a written footer reads back as the flow it was written from. */
  lemma FromTailRoundTrip(prefix: seq<u8>, f: UdpFlow)
    ensures FromTail(prefix + FooterBytes(f)) == Ok(f)
  {
    var t := FooterBytes(f);
    var s := prefix + t;
    assert s[|s| - |t|..] == t;
    match f
    case V4(src, dst) => FromTailV4(s, src, dst, REDIRECT_FLOW_4_FOOTER_ID_OLD);
    case V6(_, _) => FromTailV6(s, f);
  }

  /** A footer written by `write_to` into the tail of a buffer reads back from the buffer. */
  lemma WriteThenReadBack(before: seq<u8>, after: seq<u8>, f: UdpFlow, start: nat)
    requires start + Len(f) <= |before| && |after| == |before|
    requires after == before[..start] + FooterBytes(f) + before[start + Len(f)..]
    ensures FromTail(after[..start + Len(f)]) == Ok(f)
  {
    assert after[..start + Len(f)] == before[..start] + FooterBytes(f);
    FromTailRoundTrip(before[..start], f);
  }

  /** It parses as 147.185.221.192:1234 to 192.168.17.179:44451. */
  lemma ParseTestDatagram()
    ensures FromTail(PARSE_TEST_DATAGRAM) == Ok(UdpFlow.V4(
      SocketAddrV4(Ipv4Addr([147, 185, 221, 192]), 1234),
      SocketAddrV4(Ipv4Addr([192, 168, 17, 179]), 44451)))
  {
    var src := SocketAddrV4(Ipv4Addr([147, 185, 221, 192]), 1234);
    var dst := SocketAddrV4(Ipv4Addr([192, 168, 17, 179]), 44451);
    TestFooterBytes(src, dst);
    TestFooterIsSuffix();
    FromTailV4(PARSE_TEST_DATAGRAM, src, dst, REDIRECT_FLOW_4_FOOTER_ID_OLD);
  }
}
