/** IP and socket addresses as the Rust standard library defines them: their octets,
    the derived ordering, loopback tests and the `Display` text form. */
module Net {
  import opened Ints

  type Octets4 = s: seq<u8> | |s| == 4 witness [0, 0, 0, 0]
  type Octets16 = s: seq<u8> | |s| == 16 witness [0, 0, 0, 0, 0, 0, 0, 0, 0, 0, 0, 0, 0, 0, 0, 0]

  datatype Ipv4Addr = Ipv4Addr(octets: Octets4)
  datatype Ipv6Addr = Ipv6Addr(octets: Octets16)
  datatype IpAddr = V4(v4: Ipv4Addr) | V6(v6: Ipv6Addr)

  datatype SocketAddrV4 = SocketAddrV4(ip: Ipv4Addr, port: u16)
  datatype SocketAddrV6 = SocketAddrV6(ip: Ipv6Addr, port: u16, flowinfo: u32, scopeId: u32)

  datatype SocketAddr = SockV4(a4: SocketAddrV4) | SockV6(a6: SocketAddrV6) {
    function Ip(): IpAddr {
      match this
      case SockV4(a) => V4(a.ip)
      case SockV6(a) => V6(a.ip)
    }

    function Port(): u16 {
      match this
      case SockV4(a) => a.port
      case SockV6(a) => a.port
    }
  }

  /** `SocketAddr::new(ip, port)`: a v6 address gets flow label and scope id 0. */
  function NewSocketAddr(ip: IpAddr, port: u16): (r: SocketAddr)
    ensures r.Ip() == ip && r.Port() == port
    ensures r.SockV6? ==> r.a6.flowinfo == 0 && r.a6.scopeId == 0
  {
    match ip
    case V4(a) => SockV4(SocketAddrV4(a, port))
    case V6(a) => SockV6(SocketAddrV6(a, port, 0, 0))
  }

  const LOCALHOST_V4: Ipv4Addr := Ipv4Addr([127, 0, 0, 1])
  const UNSPECIFIED_V4: Ipv4Addr := Ipv4Addr([0, 0, 0, 0])
  const LOCALHOST_V6: Ipv6Addr := Ipv6Addr([0, 0, 0, 0, 0, 0, 0, 0, 0, 0, 0, 0, 0, 0, 0, 1])

  /** `Ipv4Addr::from(u32)`: the big-endian octets of a 32-bit number. */
  function Ipv4FromU32(n: u32): Ipv4Addr {
    Ipv4Addr(ToBE(n, 4))
  }

  /** `u32::from(Ipv4Addr)`. */
  function Ipv4ToU32(ip: Ipv4Addr): u32 {
    Pow256Widths();
    FromBE(ip.octets)
  }

  lemma Ipv4U32RoundTrip(ip: Ipv4Addr)
    ensures Ipv4FromU32(Ipv4ToU32(ip)) == ip
  {
    ToFromBE(ip.octets);
  }

  /** `Ipv6Addr::from(u128)`. */
  function Ipv6FromU128(n: nat): Ipv6Addr
    requires n < Pow256(16)
  {
    Ipv6Addr(ToBE(n, 16))
  }

  /** `u128::from(Ipv6Addr)`. */
  function Ipv6ToU128(ip: Ipv6Addr): (r: nat)
    ensures r < Pow256(16)
  {
    FromBE(ip.octets)
  }

  lemma Ipv6U128RoundTrip(ip: Ipv6Addr)
    ensures Ipv6FromU128(Ipv6ToU128(ip)) == ip
  {
    ToFromBE(ip.octets);
  }

  /** `is_loopback`: 127.0.0.0/8 for v4, exactly ::1 for v6. */
  predicate IsLoopback(ip: IpAddr) {
    match ip
    case V4(a) => a.octets[0] == 127
    case V6(a) => a == LOCALHOST_V6
  }

  /** The 16-bit segment `i` of a v6 address. */
  function Segment(ip: Ipv6Addr, i: nat): u16
    requires i < 8
  {
    (ip.octets[2 * i] as int) * 256 + ip.octets[2 * i + 1]
  }

  function Segments(ip: Ipv6Addr): (r: seq<u16>)
    ensures |r| == 8
  {
    seq(8, i requires 0 <= i < 8 => Segment(ip, i))
  }

  // ---------------------------------------------------------------------------
  // Ordering (Rust's derived `Ord`)
  // ---------------------------------------------------------------------------

  datatype Ordering = Less | Equal | Greater {
    /** `Ordering::then`: this ordering, unless it is `Equal`. */
    function Then(other: Ordering): Ordering {
      if this == Equal then other else this
    }

    function Reverse(): Ordering {
      match this
      case Less => Greater
      case Equal => Equal
      case Greater => Less
    }
  }

  function CompareInt(a: int, b: int): (r: Ordering)
    ensures r == Equal <==> a == b
    ensures r == Less <==> a < b
  {
    if a < b then Less else if a == b then Equal else Greater
  }

  /** Lexicographic comparison of two byte strings of the same length. */
  function CompareBytes(a: seq<u8>, b: seq<u8>): (r: Ordering)
    requires |a| == |b|
    decreases |a|
  {
    if |a| == 0 then Equal else CompareInt(a[0], b[0]).Then(CompareBytes(a[1..], b[1..]))
  }

  lemma {:induction false} CompareBytesEqual(a: seq<u8>, b: seq<u8>)
    requires |a| == |b|
    ensures CompareBytes(a, b) == Equal <==> a == b
    decreases |a|
  {
    if |a| > 0 {
      CompareBytesEqual(a[1..], b[1..]);
      if a[0] == b[0] && a[1..] == b[1..] {
        assert a == [a[0]] + a[1..] && b == [b[0]] + b[1..];
      }
    }
  }

  lemma {:induction false} CompareBytesAntisymmetric(a: seq<u8>, b: seq<u8>)
    requires |a| == |b|
    ensures CompareBytes(b, a) == CompareBytes(a, b).Reverse()
    decreases |a|
  {
    if |a| > 0 {
      CompareBytesAntisymmetric(a[1..], b[1..]);
    }
  }

  lemma {:induction false} CompareBytesTransitive(a: seq<u8>, b: seq<u8>, c: seq<u8>)
    requires |a| == |b| == |c|
    requires CompareBytes(a, b) != Greater && CompareBytes(b, c) != Greater
    ensures CompareBytes(a, c) != Greater
    decreases |a|
  {
    if |a| > 0 && a[0] == b[0] == c[0] {
      CompareBytesTransitive(a[1..], b[1..], c[1..]);
    }
  }

  /** The derived order on `IpAddr`: every v4 address before every v6 address, each family
      ordered by its octets. */
  function CompareIp(a: IpAddr, b: IpAddr): (r: Ordering)
    ensures a.V4? && b.V6? ==> r == Less
    ensures a.V6? && b.V4? ==> r == Greater
  {
    match (a, b)
    case (V4(x), V4(y)) => CompareBytes(x.octets, y.octets)
    case (V6(x), V6(y)) => CompareBytes(x.octets, y.octets)
    case (V4(_), V6(_)) => Less
    case (V6(_), V4(_)) => Greater
  }

  lemma CompareIpTotalOrder(a: IpAddr, b: IpAddr, c: IpAddr)
    ensures CompareIp(a, b) == Equal <==> a == b
    ensures CompareIp(b, a) == CompareIp(a, b).Reverse()
    ensures CompareIp(a, b) != Greater && CompareIp(b, c) != Greater ==> CompareIp(a, c) != Greater
  {
    match (a, b) {
      case (V4(x), V4(y)) =>
        CompareBytesEqual(x.octets, y.octets);
        CompareBytesAntisymmetric(x.octets, y.octets);
      case (V6(x), V6(y)) =>
        CompareBytesEqual(x.octets, y.octets);
        CompareBytesAntisymmetric(x.octets, y.octets);
      case _ =>
    }
    if CompareIp(a, b) != Greater && CompareIp(b, c) != Greater {
      match (a, b, c) {
        case (V4(x), V4(y), V4(z)) => CompareBytesTransitive(x.octets, y.octets, z.octets);
        case (V6(x), V6(y), V6(z)) => CompareBytesTransitive(x.octets, y.octets, z.octets);
        case _ =>
      }
    }
  }

  // ---------------------------------------------------------------------------
  // Text form (`Display`)
  // ---------------------------------------------------------------------------

  function DigitChar(d: nat): (c: char)
    requires d < 16
  {
    if d < 10 then '0' + d as char else 'a' + (d - 10) as char
  }

  predicate IsDecimalDigit(c: char) {
    '0' <= c <= '9'
  }

  /** A number in base 10 without leading zeros, as `{}` prints it. */
  function Decimal(n: nat): (r: string)
    ensures |r| >= 1
    ensures forall i :: 0 <= i < |r| ==> IsDecimalDigit(r[i])
    decreases n
  {
    if n < 10 then [DigitChar(n)] else Decimal(n / 10) + [DigitChar(n % 10)]
  }

  /** A number in lower-case base 16 without leading zeros, as Rust's lower-hex formatting prints it. */
  function LowerHex(n: nat): (r: string)
    ensures |r| >= 1
    decreases n
  {
    if n < 16 then [DigitChar(n)] else LowerHex(n / 16) + [DigitChar(n % 16)]
  }

  function Power(base: nat, k: nat): nat {
    if k == 0 then 1 else base * Power(base, k - 1)
  }

  lemma {:induction false} DecimalLength(n: nat, digits: nat)
    requires n < Power(10, digits) && digits >= 1
    ensures |Decimal(n)| <= digits
    decreases digits
  {
    if n >= 10 {
      assert n / 10 < Power(10, digits - 1);
      DecimalLength(n / 10, digits - 1);
    }
  }

  lemma {:induction false} HexLength(n: nat, digits: nat)
    requires n < Power(16, digits) && digits >= 1
    ensures |LowerHex(n)| <= digits
    decreases digits
  {
    if n >= 16 {
      assert n / 16 < Power(16, digits - 1);
      HexLength(n / 16, digits - 1);
    }
  }

  lemma SegmentHexLength(n: u16)
    ensures |LowerHex(n)| <= 4
  {
    assert Power(16, 4) == TWO_16;
    HexLength(n, 4);
  }

  lemma OctetDecimalLength(n: u8)
    ensures |Decimal(n)| <= 3
  {
    assert Power(10, 3) == 1000;
    DecimalLength(n, 3);
  }

  /** Dotted-decimal form `a.b.c.d`. */
  function Ipv4String(ip: Ipv4Addr): (r: string)
    ensures 7 <= |r| <= 15
  {
    var o := ip.octets;
    OctetDecimalLength(o[0]);
    OctetDecimalLength(o[1]);
    OctetDecimalLength(o[2]);
    OctetDecimalLength(o[3]);
    Decimal(o[0]) + "." + Decimal(o[1]) + "." + Decimal(o[2]) + "." + Decimal(o[3])
  }

  /** `to_ipv4_mapped`: ::ffff:a.b.c.d. */
  predicate IsIpv4Mapped(ip: Ipv6Addr) {
    (forall i :: 0 <= i < 10 ==> ip.octets[i] == 0) && ip.octets[10] == 0xff && ip.octets[11] == 0xff
  }

  /** Segments in hex joined by ':' (the standard library's `fmt_subslice`). */
  function JoinHex(segs: seq<u16>): (r: string)
    ensures |r| <= 5 * |segs|
  {
    if |segs| == 0 then []
    else if |segs| == 1 then (SegmentHexLength(segs[0]); LowerHex(segs[0]))
    else (SegmentHexLength(segs[0]); LowerHex(segs[0]) + ":" + JoinHex(segs[1..]))
  }

  /** The first longest run of zero segments, found the way the standard library's loop
      finds it: a run replaces the best one only when strictly longer. */
  function LongestZeroRun(segs: seq<u16>, i: nat, curStart: nat, curLen: nat, bestStart: nat, bestLen: nat): (r: (nat, nat))
    requires i <= |segs|
    requires curLen > 0 ==> curStart + curLen == i
    requires forall j :: curStart <= j < curStart + curLen ==> segs[j] == 0
    requires bestStart + bestLen <= i
    requires forall j :: bestStart <= j < bestStart + bestLen ==> segs[j] == 0
    ensures r.0 + r.1 <= |segs|
    ensures r.1 >= bestLen
    ensures forall j :: r.0 <= j < r.0 + r.1 ==> segs[j] == 0
    decreases |segs| - i
  {
    if i == |segs| then (bestStart, bestLen)
    else if segs[i] == 0 then
      var cs := if curLen == 0 then i else curStart;
      var cl := curLen + 1;
      if cl > bestLen then LongestZeroRun(segs, i + 1, cs, cl, cs, cl)
      else LongestZeroRun(segs, i + 1, cs, cl, bestStart, bestLen)
    else LongestZeroRun(segs, i + 1, 0, 0, bestStart, bestLen)
  }

  /** The standard library's text form of a v6 address: ::ffff:a.b.c.d for a v4-mapped
      address, otherwise lower-case hex segments with the first longest run of two or more
      zero segments written as "::". */
  function Ipv6String(ip: Ipv6Addr): (r: string)
    ensures |r| <= 40
  {
    if IsIpv4Mapped(ip) then "::ffff:" + Ipv4String(Ipv4Addr(ip.octets[12..]))
    else
      var segs := Segments(ip);
      var span := LongestZeroRun(segs, 0, 0, 0, 0, 0);
      if span.1 > 1 then JoinHex(segs[..span.0]) + "::" + JoinHex(segs[span.0 + span.1..])
      else JoinHex(segs)
  }

  function IpString(ip: IpAddr): (r: string)
    ensures |r| <= 40
  {
    match ip
    case V4(a) => Ipv4String(a)
    case V6(a) => Ipv6String(a)
  }

  /** `ip:port`, with a v6 address in brackets and a non-zero scope id after '%'. */
  function SocketAddrString(a: SocketAddr): string {
    match a
    case SockV4(x) => Ipv4String(x.ip) + ":" + Decimal(x.port)
    case SockV6(x) =>
      if x.scopeId == 0 then "[" + Ipv6String(x.ip) + "]:" + Decimal(x.port)
      else "[" + Ipv6String(x.ip) + "%" + Decimal(x.scopeId) + "]:" + Decimal(x.port)
  }

  // ---------------------------------------------------------------------------
  // Reading the text form back
  // ---------------------------------------------------------------------------

  /** The value of a string of decimal digits. */
  function DecimalValue(s: string): nat
    requires forall i :: 0 <= i < |s| ==> IsDecimalDigit(s[i])
  {
    if |s| == 0 then 0
    else
      assert IsDecimalDigit(s[|s| - 1]);
      DecimalValue(s[..|s| - 1]) * 10 + (s[|s| - 1] as int - '0' as int)
  }

  /** `{}` on a number is read back as that number. */
  lemma {:induction false} DecimalRoundTrip(n: nat)
    ensures DecimalValue(Decimal(n)) == n
    decreases n
  {
    if n >= 10 {
      var r := Decimal(n);
      assert r[..|r| - 1] == Decimal(n / 10);
      DecimalRoundTrip(n / 10);
    }
  }

  /** The characters the text form of an address is made of: digits, lower-case hex
      digits, ':' and '.'. */
  predicate IsAddrChar(c: char) {
    '0' <= c <= '9' || 'a' <= c <= 'f' || c == ':' || c == '.'
  }

  predicate AddrChars(s: string) {
    forall i :: 0 <= i < |s| ==> IsAddrChar(s[i])
  }

  lemma {:induction false} DecimalChars(n: nat)
    ensures AddrChars(Decimal(n))
    decreases n
  {
    if n >= 10 {
      DecimalChars(n / 10);
    }
  }

  lemma {:induction false} LowerHexChars(n: nat)
    ensures AddrChars(LowerHex(n))
    decreases n
  {
    if n >= 16 {
      LowerHexChars(n / 16);
    }
  }

  lemma {:induction false} JoinHexChars(segs: seq<u16>)
    ensures AddrChars(JoinHex(segs))
    decreases |segs|
  {
    if |segs| >= 1 {
      LowerHexChars(segs[0]);
    }
    if |segs| > 1 {
      JoinHexChars(segs[1..]);
    }
  }

  lemma Ipv4StringChars(ip: Ipv4Addr)
    ensures AddrChars(Ipv4String(ip))
  {
    DecimalChars(ip.octets[0]);
    DecimalChars(ip.octets[1]);
    DecimalChars(ip.octets[2]);
    DecimalChars(ip.octets[3]);
  }

  lemma Ipv6StringChars(ip: Ipv6Addr)
    ensures AddrChars(Ipv6String(ip))
  {
    if IsIpv4Mapped(ip) {
      Ipv4StringChars(Ipv4Addr(ip.octets[12..]));
    } else {
      var segs := Segments(ip);
      var span := LongestZeroRun(segs, 0, 0, 0, 0, 0);
      JoinHexChars(segs);
      JoinHexChars(segs[..span.0]);
      JoinHexChars(segs[span.0 + span.1..]);
    }
  }
}
