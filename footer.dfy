/** What the UDP flow footers have in common: a footer is a run of big-endian fields at the
    very end of a datagram, closed by an 8-byte id. Writers fill a `&mut [u8]` field after
    field; readers read the id from the last 8 bytes, then the fields from the last
    `footer_len` bytes, front to back. */
module Footer {
  import opened Ints
  import opened Net
  import opened Wrappers
  import opened Encoding

  /** `BigEndian::read_u64(&slice[slice.len() - 8..])`: the footer id. */
  function TailId(s: seq<u8>): (r: u64)
    requires |s| >= 8
  {
    Pow256Widths();
    FromBE(s[|s| - 8..])
  }

  /** A datagram that ends in a footer that ends in the bytes of `id` has `id` as its tail
      id. */
  lemma TailIdOf(s: seq<u8>, t: seq<u8>, id: u64)
    requires 8 <= |t| <= |s| && s[|s| - |t|..] == t && t[|t| - 8..] == PutU64(id, [])
    ensures TailId(s) == id
  {
    assert s[|s| - 8..] == t[|t| - 8..];
    Pow256Widths();
    assert PutU64(id, []) == ToBE(id, 8) + [] == ToBE(id, 8);
    FromToBE(id, 8);
  }

  /** The middle part of a three-part concatenation. */
  lemma SliceOfConcat(h: seq<u8>, m: seq<u8>, tail: seq<u8>)
    ensures (h + (m + tail))[|h|..|h| + |m|] == m
  {
    var c := h + (m + tail);
    forall k | 0 <= k < |m| ensures c[|h|..|h| + |m|][k] == m[k] {
      assert c[|h| + k] == (m + tail)[k];
    }
  }

  /** A slice of a suffix `t` of `s` is the same slice of `s`, shifted. */
  lemma SliceOfSuffix(s: seq<u8>, t: seq<u8>, i: nat, j: nat)
    requires |t| <= |s| && s[|s| - |t|..] == t && i <= j <= |t|
    ensures s[|s| - |t| + i..|s| - |t| + j] == t[i..j]
  {
    var u := s[|s| - |t| + i..|s| - |t| + j];
    forall k | 0 <= k < j - i ensures u[k] == t[i..j][k] {
      assert u[k] == s[|s| - |t|..][i + k];
    }
  }

  // ---------------------------------------------------------------------------
  // The address blocks every footer starts with
  // ---------------------------------------------------------------------------

  /** Source ip, destination ip, source port, destination port: 12 bytes. */
  function PutV4Addrs(src: SocketAddrV4, dst: SocketAddrV4, rest: seq<u8>): (r: seq<u8>)
    ensures |r| == 12 + |rest|
  {
    PutIpv4(src.ip, PutIpv4(dst.ip, PutU16(src.port, PutU16(dst.port, rest))))
  }

  function GetV4Addrs(s: seq<u8>): (r: Decoded<(SocketAddrV4, SocketAddrV4)>)
    ensures r.Ok? <==> |s| >= 12
    ensures r.Ok? ==> |r.value.1| == |s| - 12
  {
    var srcIp :- GetIpv4(s);
    var dstIp :- GetIpv4(srcIp.1);
    var srcPort :- GetU16(dstIp.1);
    var dstPort :- GetU16(srcPort.1);
    Ok(((SocketAddrV4(srcIp.0, srcPort.0), SocketAddrV4(dstIp.0, dstPort.0)), dstPort.1))
  }

  lemma V4AddrsRoundTrip(src: SocketAddrV4, dst: SocketAddrV4, rest: seq<u8>)
    ensures GetV4Addrs(PutV4Addrs(src, dst, rest)) == Ok(((src, dst), rest))
  {
  }

  lemma PutV4AddrsAppend(src: SocketAddrV4, dst: SocketAddrV4, a: seq<u8>, b: seq<u8>)
    ensures PutV4Addrs(src, dst, a + b) == PutV4Addrs(src, dst, a) + b
  {
    PutU16Append(dst.port, a, b);
    PutU16Append(src.port, PutU16(dst.port, a), b);
    PutIpv4Append(dst.ip, PutU16(src.port, PutU16(dst.port, a)), b);
    PutIpv4Append(src.ip, PutIpv4(dst.ip, PutU16(src.port, PutU16(dst.port, a))), b);
  }

  /** What follows the 12 address bytes is the tail of the block. */
  lemma V4AddrsEndIn(src: SocketAddrV4, dst: SocketAddrV4, tail: seq<u8>)
    ensures var t := PutV4Addrs(src, dst, tail); t[|t| - |tail|..] == tail
  {
    PutV4AddrsAppend(src, dst, [], tail);
    assert [] + tail == tail;
  }

  /** The same with 16-byte ips: 36 bytes. */
  function PutV6Addrs(src: (Ipv6Addr, u16), dst: (Ipv6Addr, u16), rest: seq<u8>): (r: seq<u8>)
    ensures |r| == 36 + |rest|
  {
    PutIpv6(src.0, PutIpv6(dst.0, PutU16(src.1, PutU16(dst.1, rest))))
  }

  function GetV6Addrs(s: seq<u8>): (r: Decoded<((Ipv6Addr, u16), (Ipv6Addr, u16))>)
    ensures r.Ok? <==> |s| >= 36
    ensures r.Ok? ==> |r.value.1| == |s| - 36
  {
    var srcIp :- GetIpv6(s);
    var dstIp :- GetIpv6(srcIp.1);
    var srcPort :- GetU16(dstIp.1);
    var dstPort :- GetU16(srcPort.1);
    Ok((((srcIp.0, srcPort.0), (dstIp.0, dstPort.0)), dstPort.1))
  }

  lemma V6AddrsRoundTrip(src: (Ipv6Addr, u16), dst: (Ipv6Addr, u16), rest: seq<u8>)
    ensures GetV6Addrs(PutV6Addrs(src, dst, rest)) == Ok(((src, dst), rest))
  {
  }

  lemma PutV6AddrsAppend(src: (Ipv6Addr, u16), dst: (Ipv6Addr, u16), a: seq<u8>, b: seq<u8>)
    ensures PutV6Addrs(src, dst, a + b) == PutV6Addrs(src, dst, a) + b
  {
    PutU16Append(dst.1, a, b);
    PutU16Append(src.1, PutU16(dst.1, a), b);
    PutIpv6Append(dst.0, PutU16(src.1, PutU16(dst.1, a)), b);
    PutIpv6Append(src.0, PutIpv6(dst.0, PutU16(src.1, PutU16(dst.1, a))), b);
  }

  // ---------------------------------------------------------------------------
  // Writing into a `&mut [u8]`
  // ---------------------------------------------------------------------------

  /** Copies `bytes` into `buf` from index `at` on, as the writer's successive
      `write_*::<BigEndian>` calls do; nothing else in `buf` changes. */
  method WriteAt(buf: array<u8>, at: nat, bytes: seq<u8>)
    requires at + |bytes| <= buf.Length
    modifies buf
    ensures buf[..] == old(buf[..at]) + bytes + old(buf[at + |bytes|..])
  {
    var i := 0;
    while i < |bytes|
      invariant 0 <= i <= |bytes|
      invariant forall k :: 0 <= k < buf.Length ==>
        buf[k] == (if at <= k < at + i then bytes[k - at] else old(buf[k]))
    {
      buf[at + i] := bytes[i];
      i := i + 1;
    }
    assert buf[..] == old(buf[..at]) + bytes + old(buf[at + |bytes|..]);
  }

  // ---------------------------------------------------------------------------
  // The datagram the parse tests of every footer generation read
  // ---------------------------------------------------------------------------

  /** The v4 footer id every generation writes, read by all of them. */
  const OLD_V4_FOOTER_ID: u64 := 0x5cb8_67cf_7881_73b2

  /** "test\n" followed by a v4 footer with the old id: 147.185.221.192:1234 to
      192.168.17.179:44451. */
  const PARSE_TEST_DATAGRAM: seq<u8> := [
    0x74, 0x65, 0x73, 0x74, 0x0a, 0x93, 0xb9, 0xdd, 0xc0, 0xc0, 0xa8, 0x11, 0xb3,
    0x04, 0xd2, 0xad, 0xa3, 0x5c, 0xb8, 0x67, 0xcf, 0x78, 0x81, 0x73, 0xb2]

  lemma OldIdBytes()
    ensures ToBE(OLD_V4_FOOTER_ID, 8) == [0x5c, 0xb8, 0x67, 0xcf, 0x78, 0x81, 0x73, 0xb2]
  {
    assert ToBE(0x5c, 1) == [0x5c];
    assert ToBE(0x5cb8, 2) == [0x5c, 0xb8];
    assert ToBE(0x5cb867, 3) == [0x5c, 0xb8, 0x67];
    assert ToBE(0x5cb867cf, 4) == [0x5c, 0xb8, 0x67, 0xcf];
    assert ToBE(0x5cb867cf78, 5) == [0x5c, 0xb8, 0x67, 0xcf, 0x78];
    assert ToBE(0x5cb867cf7881, 6) == [0x5c, 0xb8, 0x67, 0xcf, 0x78, 0x81];
    assert ToBE(0x5cb867cf788173, 7) == [0x5c, 0xb8, 0x67, 0xcf, 0x78, 0x81, 0x73];
  }

  lemma TestPortBytes()
    ensures ToBE(1234, 2) == [0x04, 0xd2] && ToBE(44451, 2) == [0xad, 0xa3]
  {
  }

  /** The footer part of the datagram above. */
  const PARSE_TEST_FOOTER: seq<u8> := [
    0x93, 0xb9, 0xdd, 0xc0, 0xc0, 0xa8, 0x11, 0xb3,
    0x04, 0xd2, 0xad, 0xa3, 0x5c, 0xb8, 0x67, 0xcf, 0x78, 0x81, 0x73, 0xb2]

  lemma TestFooterIsSuffix()
    ensures PARSE_TEST_DATAGRAM[|PARSE_TEST_DATAGRAM| - 20..] == PARSE_TEST_FOOTER
  {
  }

  lemma TestPortsBytes()
    ensures PutU16(1234, PutU16(44451, PutU64(OLD_V4_FOOTER_ID, []))) ==
      PARSE_TEST_FOOTER[8..]
  {
    OldIdBytes();
    TestPortBytes();
    var idBytes := PutU64(OLD_V4_FOOTER_ID, []);
    assert idBytes == PARSE_TEST_FOOTER[12..];
    PutU16Bytes(44451, idBytes, [0xad, 0xa3]);
    assert [0xad, 0xa3] + PARSE_TEST_FOOTER[12..] == PARSE_TEST_FOOTER[10..];
    PutU16Bytes(1234, PARSE_TEST_FOOTER[10..], [0x04, 0xd2]);
    assert [0x04, 0xd2] + PARSE_TEST_FOOTER[10..] == PARSE_TEST_FOOTER[8..];
  }

  lemma PutU16Bytes(v: u16, rest: seq<u8>, b: seq<u8>)
    requires ToBE(v, 2) == b
    ensures PutU16(v, rest) == b + rest
  {
  }

  lemma TestFooterBytes(src: SocketAddrV4, dst: SocketAddrV4)
    requires src == SocketAddrV4(Ipv4Addr([147, 185, 221, 192]), 1234)
    requires dst == SocketAddrV4(Ipv4Addr([192, 168, 17, 179]), 44451)
    ensures PutV4Addrs(src, dst, PutU64(OLD_V4_FOOTER_ID, [])) == PARSE_TEST_FOOTER
  {
    TestPortsBytes();
    TestIpBytes(src.ip, dst.ip, PARSE_TEST_FOOTER[8..]);
    assert PutV4Addrs(src, dst, PutU64(OLD_V4_FOOTER_ID, [])) ==
      PutIpv4(src.ip, PutIpv4(dst.ip, PARSE_TEST_FOOTER[8..]));
  }

  lemma TestIpBytes(srcIp: Ipv4Addr, dstIp: Ipv4Addr, ports: seq<u8>)
    requires srcIp == Ipv4Addr([147, 185, 221, 192]) && dstIp == Ipv4Addr([192, 168, 17, 179])
    requires ports == PARSE_TEST_FOOTER[8..]
    ensures PutIpv4(srcIp, PutIpv4(dstIp, ports)) == PARSE_TEST_FOOTER
  {
    assert PutIpv4(dstIp, ports) == PARSE_TEST_FOOTER[4..];
  }
}
