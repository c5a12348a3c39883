/** The PROXY protocol header the agent puts in front of a TCP connection it hands to a local
    origin: the text form of version 1 (section 2.1 of the PROXY protocol specification) and
    the binary form of version 2 (section 2.2). Each writer is modelled by the bytes it
    writes to the stream. */
module ProxyProtocol {
  import opened Ints
  import opened Net
  import opened Wrappers
  import opened Encoding

  datatype ProxyProtocolHeader =
    | Tcp4(clientIp: Ipv4Addr, proxyIp: Ipv4Addr, clientPort: u16, proxyPort: u16)
    | Tcp6(clientIp6: Ipv6Addr, proxyIp6: Ipv6Addr, clientPort6: u16, proxyPort6: u16)

  // ---------------------------------------------------------------------------
  // Version 1: one line of text
  // ---------------------------------------------------------------------------

  /** The fields of the v1 line, in order. */
  function V1Fields(h: ProxyProtocolHeader): (r: seq<string>)
    ensures |r| == 6 && |r[0]| == 5 && |r[1]| == 4
    ensures |r[2]| <= 40 && |r[3]| <= 40 && |r[4]| <= 5 && |r[5]| <= 5
  {
    match h
    case Tcp4(c, p, cp, pp) =>
      OctetDecimalLength16(cp);
      OctetDecimalLength16(pp);
      ["PROXY", "TCP4", Ipv4String(c), Ipv4String(p), Decimal(cp), Decimal(pp)]
    case Tcp6(c, p, cp, pp) =>
      OctetDecimalLength16(cp);
      OctetDecimalLength16(pp);
      ["PROXY", "TCP6", Ipv6String(c), Ipv6String(p), Decimal(cp), Decimal(pp)]
  }

  /** `Display`: "PROXY TCP4 <client ip> <proxy ip> <client port> <proxy port>\r\n", or
      TCP6 with the v6 text forms. At most 107 characters, the bound section 2.1 sets. */
  function V1Text(h: ProxyProtocolHeader): (r: string)
    ensures |r| <= 107
  {
    var f := V1Fields(h);
    f[0] + " " + f[1] + " " + f[2] + " " + f[3] + " " + f[4] + " " + f[5] + "\r\n"
  }

  lemma OctetDecimalLength16(n: u16)
    ensures |Decimal(n)| <= 5
  {
    assert Power(10, 5) == 100000;
    DecimalLength(n, 5);
  }

  predicate IsAscii(s: string) {
    forall i :: 0 <= i < |s| ==> s[i] as int < 128
  }

  /** `as_bytes` on text made of ASCII characters: one byte per character. */
  function AsciiBytes(s: string): (r: seq<u8>)
    requires IsAscii(s)
    ensures |r| == |s| && forall i :: 0 <= i < |s| ==> r[i] as int == s[i] as int
  {
    seq(|s|, i requires 0 <= i < |s| => s[i] as int as u8)
  }

  lemma AddrCharsAscii(s: string)
    requires AddrChars(s)
    ensures IsAscii(s)
  {
    forall i | 0 <= i < |s| ensures s[i] as int < 128 {
      assert IsAddrChar(s[i]);
    }
  }

  lemma V1TextAscii(h: ProxyProtocolHeader)
    ensures IsAscii(V1Text(h))
  {
    var f := V1Fields(h);
    FieldChars(h);
    AddrCharsAscii(f[2]);
    AddrCharsAscii(f[3]);
    AddrCharsAscii(f[4]);
    AddrCharsAscii(f[5]);
    assert IsAscii(f[0]) && IsAscii(f[1]);
    LineAscii(f);
  }

  lemma LineAscii(f: seq<string>)
    requires |f| == 6 && forall k :: 0 <= k < 6 ==> IsAscii(f[k])
    ensures IsAscii(f[0] + " " + f[1] + " " + f[2] + " " + f[3] + " " + f[4] + " " + f[5] + "\r\n")
  {
    forall k | 0 <= k < 6 ensures IsAscii(f[k]) {
    }
    AsciiConcat(f[0], " ");
    AsciiConcat(f[0] + " ", f[1]);
    AsciiConcat(f[0] + " " + f[1], " ");
    AsciiConcat(f[0] + " " + f[1] + " ", f[2]);
    AsciiConcat(f[0] + " " + f[1] + " " + f[2], " ");
    AsciiConcat(f[0] + " " + f[1] + " " + f[2] + " ", f[3]);
    AsciiConcat(f[0] + " " + f[1] + " " + f[2] + " " + f[3], " ");
    AsciiConcat(f[0] + " " + f[1] + " " + f[2] + " " + f[3] + " ", f[4]);
    AsciiConcat(f[0] + " " + f[1] + " " + f[2] + " " + f[3] + " " + f[4], " ");
    AsciiConcat(f[0] + " " + f[1] + " " + f[2] + " " + f[3] + " " + f[4] + " ", f[5]);
    AsciiConcat(f[0] + " " + f[1] + " " + f[2] + " " + f[3] + " " + f[4] + " " + f[5], "\r\n");
  }

  lemma AsciiConcat(a: string, b: string)
    requires IsAscii(a) && IsAscii(b)
    ensures IsAscii(a + b)
  {
    forall i | 0 <= i < |a + b| ensures (a + b)[i] as int < 128 {
      if i >= |a| {
        assert (a + b)[i] == b[i - |a|];
      }
    }
  }

  /** `write_v1`: the bytes of the `Display` line. */
  function WriteV1(h: ProxyProtocolHeader): (r: seq<u8>)
    ensures |r| == |V1Text(h)| <= 107
  {
    V1TextAscii(h);
    AsciiBytes(V1Text(h))
  }

  /** The fields other than the keywords are made of address characters, so none holds a
      space. */
  lemma FieldChars(h: ProxyProtocolHeader)
    ensures forall k :: 2 <= k < 6 ==> AddrChars(V1Fields(h)[k])
  {
    match h
    case Tcp4(c, p, cp, pp) =>
      Ipv4StringChars(c);
      Ipv4StringChars(p);
      DecimalChars(cp);
      DecimalChars(pp);
    case Tcp6(c, p, cp, pp) =>
      Ipv6StringChars(c);
      Ipv6StringChars(p);
      DecimalChars(cp);
      DecimalChars(pp);
  }

  function Join(xs: seq<string>, sep: char): string
    requires |xs| >= 1
  {
    if |xs| == 1 then xs[0] else xs[0] + [sep] + Join(xs[1..], sep)
  }

  /** The index of the first `c` in `s`, or `|s|`. */
  function IndexOf(s: string, c: char): (i: nat)
    ensures i <= |s| && (i < |s| ==> s[i] == c)
    ensures forall j :: 0 <= j < i ==> s[j] != c
  {
    if |s| == 0 then 0 else if s[0] == c then 0 else 1 + IndexOf(s[1..], c)
  }

  /** The pieces of `s` between occurrences of `sep`, as a receiver splits the line. */
  function Split(s: string, sep: char): (r: seq<string>)
    ensures |r| >= 1
    decreases |s|
  {
    var i := IndexOf(s, sep);
    if i == |s| then [s] else [s[..i]] + Split(s[i + 1..], sep)
  }

  /** Splitting pieces that hold no separator, joined by it, gives the pieces back. */
  lemma {:induction false} SplitJoin(xs: seq<string>, sep: char)
    requires |xs| >= 1
    requires forall k, j :: 0 <= k < |xs| && 0 <= j < |xs[k]| ==> xs[k][j] != sep
    ensures Split(Join(xs, sep), sep) == xs
    decreases |xs|
  {
    var s := Join(xs, sep);
    IndexOfPrefix(xs[0], if |xs| == 1 then [] else [sep] + Join(xs[1..], sep), sep);
    if |xs| > 1 {
      assert s == xs[0] + ([sep] + Join(xs[1..], sep));
      assert s[..|xs[0]|] == xs[0];
      assert s[|xs[0]| + 1..] == Join(xs[1..], sep);
      SplitJoin(xs[1..], sep);
      assert xs == [xs[0]] + xs[1..];
    } else {
      assert s == xs[0] + [];
    }
  }

  /** The first `sep` of `a + b`, where `a` holds none and `b` is empty or starts with one,
      is right after `a`. */
  lemma {:induction false} IndexOfPrefix(a: string, b: string, sep: char)
    requires forall j :: 0 <= j < |a| ==> a[j] != sep
    requires |b| == 0 || b[0] == sep
    ensures IndexOf(a + b, sep) == |a|
    decreases |a|
  {
    if |a| > 0 {
      assert (a + b)[1..] == a[1..] + b;
      IndexOfPrefix(a[1..], b, sep);
    }
  }

  /** The v1 line is its six fields joined by single spaces, then CRLF; a receiver that
      splits the line at spaces gets the fields back and reads each port back as the
      number that was written. */
  lemma V1TextFields(h: ProxyProtocolHeader)
    ensures V1Text(h) == Join(V1Fields(h), ' ') + "\r\n"
    ensures Split(Join(V1Fields(h), ' '), ' ') == V1Fields(h)
    ensures DecimalValue(V1Fields(h)[4]) == ClientPort(h)
    ensures DecimalValue(V1Fields(h)[5]) == ProxyPort(h)
  {
    var f := V1Fields(h);
    NoSpaceInFields(h);
    SplitJoin(f, ' ');
    DecimalRoundTrip(ClientPort(h));
    DecimalRoundTrip(ProxyPort(h));
    JoinSix(f, ' ');
  }

  lemma NoSpaceInFields(h: ProxyProtocolHeader)
    ensures var f := V1Fields(h); forall k, j :: 0 <= k < |f| && 0 <= j < |f[k]| ==> f[k][j] != ' '
  {
    var f := V1Fields(h);
    FieldChars(h);
    forall k, j | 0 <= k < |f| && 0 <= j < |f[k]| ensures f[k][j] != ' ' {
      if k >= 2 {
        assert IsAddrChar(f[k][j]);
      }
    }
  }

  lemma JoinSix(f: seq<string>, sep: char)
    requires |f| == 6
    ensures Join(f, sep) == f[0] + [sep] + f[1] + [sep] + f[2] + [sep] + f[3] + [sep] + f[4] + [sep] + f[5]
  {
    assert f[5..][1..] == [];
    assert Join(f[5..], sep) == f[5];
    assert Join(f[4..], sep) == f[4] + [sep] + f[5] by { assert f[4..][1..] == f[5..]; }
    assert Join(f[3..], sep) == f[3] + [sep] + Join(f[4..], sep) by { assert f[3..][1..] == f[4..]; }
    assert Join(f[2..], sep) == f[2] + [sep] + Join(f[3..], sep) by { assert f[2..][1..] == f[3..]; }
    assert Join(f[1..], sep) == f[1] + [sep] + Join(f[2..], sep) by { assert f[1..][1..] == f[2..]; }
  }

  function ClientPort(h: ProxyProtocolHeader): u16 {
    if h.Tcp4? then h.clientPort else h.clientPort6
  }

  function ProxyPort(h: ProxyProtocolHeader): u16 {
    if h.Tcp4? then h.proxyPort else h.proxyPort6
  }

  // ---------------------------------------------------------------------------
  // Version 2: binary
  // ---------------------------------------------------------------------------

  /** The 12-byte signature of section 2.2. */
  const V2_SIGNATURE: seq<u8> := [0x0D, 0x0A, 0x0D, 0x0A, 0x00, 0x0D, 0x0A, 0x51, 0x55, 0x49, 0x54, 0x0A]

  /** The signature followed by the version-and-command byte: version 2, PROXY. */
  const PROXY_PROTOCOL_V2_HEADER: seq<u8> := V2_SIGNATURE + [0x21]

  /** The address family and transport byte: AF_INET or AF_INET6, over STREAM. */
  const TCP4_FAMILY: u8 := 0x11
  const TCP6_FAMILY: u8 := 0x21

  /** The number of address bytes after the length field. */
  function V2AddrLen(h: ProxyProtocolHeader): (n: u16)
    ensures n == if h.Tcp4? then 12 else 36
  {
    if h.Tcp4? then 12 else 36
  }

  /** Client ip, proxy ip, client port, proxy port. */
  function V2Addresses(h: ProxyProtocolHeader): (r: seq<u8>)
    ensures |r| == V2AddrLen(h) as int
  {
    match h
    case Tcp4(c, p, cp, pp) => PutIpv4(c, PutIpv4(p, PutU16(cp, PutU16(pp, []))))
    case Tcp6(c, p, cp, pp) => PutIpv6(c, PutIpv6(p, PutU16(cp, PutU16(pp, []))))
  }

  /** `write_v2`: the 13 header bytes, the family byte, the big-endian length, then the
      addresses. */
  function WriteV2(h: ProxyProtocolHeader): (r: seq<u8>)
    ensures |r| == 16 + V2AddrLen(h) as int
    ensures r[..12] == V2_SIGNATURE && r[12] == 0x21
    ensures r[13] == if h.Tcp4? then TCP4_FAMILY else TCP6_FAMILY
  {
    var family: u8 := if h.Tcp4? then TCP4_FAMILY else TCP6_FAMILY;
    PROXY_PROTOCOL_V2_HEADER + [family] + PutU16(V2AddrLen(h), V2Addresses(h))
  }

  /** A receiver's reading of a v2 header (section 2.2), restricted to the two kinds this
      writer produces: the signature, version 2 with the PROXY command, a TCP family, a
      length field that covers exactly the rest, and the addresses. */
  function ReadV2(s: seq<u8>): (r: Option<ProxyProtocolHeader>)
    ensures r.Some? ==> |s| >= 16 && s[..12] == V2_SIGNATURE && s[12] == 0x21
  {
    if |s| < 16 || s[..12] != V2_SIGNATURE || s[12] != 0x21 then None
    else
      var len := GetU16(s[14..]).value;
      if len.0 as int != |len.1| then None
      else if s[13] == TCP4_FAMILY && len.0 == 12 then
        var c := GetIpv4(len.1).value;
        var p := GetIpv4(c.1).value;
        var cp := GetU16(p.1).value;
        var pp := GetU16(cp.1).value;
        Some(Tcp4(c.0, p.0, cp.0, pp.0))
      else if s[13] == TCP6_FAMILY && len.0 == 36 then
        var c := GetIpv6(len.1).value;
        var p := GetIpv6(c.1).value;
        var cp := GetU16(p.1).value;
        var pp := GetU16(cp.1).value;
        Some(Tcp6(c.0, p.0, cp.0, pp.0))
      else None
  }

  /** The length field of a written header is the number of bytes after it, and a receiver
      reads back the header that was written. */
  lemma V2RoundTrip(h: ProxyProtocolHeader)
    ensures var r := WriteV2(h); GetU16(r[14..]).value.0 as int == |r| - 16
    ensures ReadV2(WriteV2(h)) == Some(h)
  {
    var r := WriteV2(h);
    var family: u8 := if h.Tcp4? then TCP4_FAMILY else TCP6_FAMILY;
    assert r == (PROXY_PROTOCOL_V2_HEADER + [family]) + PutU16(V2AddrLen(h), V2Addresses(h));
    assert r[14..] == PutU16(V2AddrLen(h), V2Addresses(h));
    assert r[..12] == V2_SIGNATURE;
  }
}
