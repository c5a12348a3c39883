/** The oldest footer generation: a single v4 layout of exactly 20 bytes with one id. */
module MessagesUdp {
  import opened Ints
  import opened Net
  import opened Wrappers
  import opened Encoding
  import opened Footer

  const REDIRECT_FLOW_FOOTER_ID: u64 := 0x5cb8_67cf_7881_73b2
  const UDP_CHANNEL_ESTABLISH_ID: u64 := 0xd01f_e683_0ddc_e781

  /** `RedirectFlowFooter::len`. */
  const LEN: nat := 20

  datatype RedirectFlowFooter = RedirectFlowFooter(src: SocketAddrV4, dst: SocketAddrV4)

  /** `flip`: the reply direction. */
  function Flip(f: RedirectFlowFooter): (r: RedirectFlowFooter)
    ensures r.src == f.dst && r.dst == f.src
  {
    RedirectFlowFooter(f.dst, f.src)
  }

  lemma FlipInvolution(f: RedirectFlowFooter)
    ensures Flip(Flip(f)) == f
  {
  }

  /** Source ip, destination ip, source port, destination port, id: all big-endian. */
  function FooterBytes(f: RedirectFlowFooter): (r: seq<u8>)
    ensures |r| == LEN
  {
    PutV4Addrs(f.src, f.dst, PutU64(REDIRECT_FLOW_FOOTER_ID, []))
  }

  /** `write_to` on the slice of `buf` from `start` on: false, writing nothing, when fewer
      than 20 bytes are left; otherwise the footer fills the first 20 bytes of the slice. */
  method WriteTo(f: RedirectFlowFooter, buf: array<u8>, start: nat) returns (ok: bool)
    requires start <= buf.Length
    modifies buf
    ensures ok <==> buf.Length - start >= LEN
    ensures ok ==> buf[..] == old(buf[..start]) + FooterBytes(f) + old(buf[start + LEN..])
    ensures !ok ==> buf[..] == old(buf[..])
  {
    if buf.Length - start < LEN {
      return false;
    }
    var bytes := FooterBytes(f);
    WriteAt(buf, start, bytes);
    return true;
  }

  /** The 20 footer bytes; every read is within them. */
  function Read(t: seq<u8>): RedirectFlowFooter
    requires |t| == LEN
  {
    var addrs := GetV4Addrs(t).value.0;
    RedirectFlowFooter(addrs.0, addrs.1)
  }

  /** `from_tail`: `None` for fewer than 20 bytes or when the last 8 are not the id;
      otherwise the fields read from the last 20 bytes. */
  function FromTail(s: seq<u8>): (r: Option<RedirectFlowFooter>)
    ensures r.Some? <==> |s| >= LEN && TailId(s) == REDIRECT_FLOW_FOOTER_ID
  {
    if |s| < LEN then None
    else if TailId(s) != REDIRECT_FLOW_FOOTER_ID then None
    else Some(Read(s[|s| - LEN..]))
  }

  lemma FromTailReads(s: seq<u8>, t: seq<u8>)
    requires |t| == LEN <= |s| && s[|s| - |t|..] == t && TailId(s) == REDIRECT_FLOW_FOOTER_ID
    ensures FromTail(s) == Some(Read(t))
  {
  }

  lemma ReadFooterBytes(f: RedirectFlowFooter)
    ensures Read(FooterBytes(f)) == f
  {
    V4AddrsRoundTrip(f.src, f.dst, PutU64(REDIRECT_FLOW_FOOTER_ID, []));
  }

  /** A datagram that ends in a written footer reads as that footer. */
  lemma FromTailOf(s: seq<u8>, f: RedirectFlowFooter)
    requires |s| >= LEN && s[|s| - LEN..] == FooterBytes(f)
    ensures FromTail(s) == Some(f)
  {
    V4AddrsEndIn(f.src, f.dst, PutU64(REDIRECT_FLOW_FOOTER_ID, []));
    TailIdOf(s, FooterBytes(f), REDIRECT_FLOW_FOOTER_ID);
    ReadFooterBytes(f);
    FromTailReads(s, FooterBytes(f));
  }

  /** Whatever precedes it, a written footer reads back as the footer it was written from. */
  lemma FromTailRoundTrip(prefix: seq<u8>, f: RedirectFlowFooter)
    ensures FromTail(prefix + FooterBytes(f)) == Some(f)
  {
    var s := prefix + FooterBytes(f);
    assert s[|s| - LEN..] == FooterBytes(f);
    FromTailOf(s, f);
  }

  /** A footer written into the last 20 bytes of a buffer reads back from the buffer, as in
      the serialisation test. */
  lemma WriteThenReadBack(before: seq<u8>, after: seq<u8>, f: RedirectFlowFooter)
    requires LEN <= |before| && |after| == |before|
    requires after == before[..|before| - LEN] + FooterBytes(f) + before[|before|..]
    ensures FromTail(after) == Some(f)
  {
    assert after == before[..|before| - LEN] + FooterBytes(f);
    FromTailRoundTrip(before[..|before| - LEN], f);
  }

  /** The parse test's datagram yields 147.185.221.192:1234 to 192.168.17.179:44451. */
  lemma ParseTestDatagram()
    ensures FromTail(PARSE_TEST_DATAGRAM) == Some(RedirectFlowFooter(
      SocketAddrV4(Ipv4Addr([147, 185, 221, 192]), 1234),
      SocketAddrV4(Ipv4Addr([192, 168, 17, 179]), 44451)))
  {
    var f := RedirectFlowFooter(
      SocketAddrV4(Ipv4Addr([147, 185, 221, 192]), 1234),
      SocketAddrV4(Ipv4Addr([192, 168, 17, 179]), 44451));
    TestFooterBytes(f.src, f.dst);
    TestFooterIsSuffix();
    FromTailOf(PARSE_TEST_DATAGRAM, f);
  }
}
