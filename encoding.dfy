/** The agent protocol's `MessageEncoding` primitives: big-endian integers, tagged options,
    IP and socket addresses, length-prefixed byte vectors, fixed arrays and pairs.

    Writers take the bytes that follow (`rest`) and return the message's bytes in front of
    them; `Put(m, rest) == Put(m, []) + rest`. Readers consume a prefix of their input and
    return the value with what is left, or the `std::io::ErrorKind` the Rust reader fails
    with. Every writer's contract states the round trip with its reader. */
module Encoding {
  import opened Ints
  import opened Net
  import opened Wrappers

  /** The `std::io::ErrorKind`s the readers return. */
  datatype IoError = UnexpectedEof | Other | InvalidData | InvalidInput | Unsupported

  /** A decoded value and the input left after it. */
  type Decoded<T> = Result<(T, seq<u8>), IoError>

  // ---------------------------------------------------------------------------
  // Integers (`read_u64::<BigEndian>` and friends)
  // ---------------------------------------------------------------------------

  /** Reads a `width`-byte big-endian number; a short input is `UnexpectedEof`. */
  function GetBE(s: seq<u8>, width: nat): (r: Result<(nat, seq<u8>), IoError>)
    ensures r.Err? <==> |s| < width
    ensures r.Err? ==> r.error == UnexpectedEof
    ensures r.Ok? ==> r.value.0 < Pow256(width) && |r.value.1| == |s| - width
  {
    if |s| < width then Err(UnexpectedEof)
    else
      ToFromBE(s[..width]);
      Ok((FromBE(s[..width]), s[width..]))
  }

  /** What a read consumed, written back, is what it read from. */
  lemma GetBECanonical(s: seq<u8>, width: nat)
    requires |s| >= width
    ensures ToBE(GetBE(s, width).value.0, width) + GetBE(s, width).value.1 == s
  {
    ToFromBE(s[..width]);
    assert s == s[..width] + s[width..];
  }

  /** Writes `v` as `width` big-endian bytes in front of `rest`. */
  function PutBE(v: nat, width: nat, rest: seq<u8>): (r: seq<u8>)
    requires v < Pow256(width)
    ensures |r| == width + |rest|
    ensures GetBE(r, width) == Ok((v, rest))
  {
    FromToBE(v, width);
    assert (ToBE(v, width) + rest)[..width] == ToBE(v, width);
    assert (ToBE(v, width) + rest)[width..] == rest;
    ToBE(v, width) + rest
  }

  /** A big-endian `u8` from the first 1 byte; fewer is `UnexpectedEof`. */
  function GetU8(s: seq<u8>): (r: Decoded<u8>)
    ensures r.Ok? <==> |s| >= 1
    ensures r.Err? ==> r.error == UnexpectedEof
    ensures r.Ok? ==> r.value == (FromBE(s[..1]), s[1..])
  {
    var p :- GetBE(s, 1);
    Pow256Widths();
    Ok((p.0, p.1))
  }

  /** A big-endian `u16` from the first 2 bytes; fewer is `UnexpectedEof`. */
  function GetU16(s: seq<u8>): (r: Decoded<u16>)
    ensures r.Ok? <==> |s| >= 2
    ensures r.Err? ==> r.error == UnexpectedEof
    ensures r.Ok? ==> r.value == (FromBE(s[..2]), s[2..])
  {
    var p :- GetBE(s, 2);
    Pow256Widths();
    Ok((p.0, p.1))
  }

  /** A big-endian `u32` from the first 4 bytes; fewer is `UnexpectedEof`. */
  function GetU32(s: seq<u8>): (r: Decoded<u32>)
    ensures r.Ok? <==> |s| >= 4
    ensures r.Err? ==> r.error == UnexpectedEof
    ensures r.Ok? ==> r.value == (FromBE(s[..4]), s[4..])
  {
    var p :- GetBE(s, 4);
    Pow256Widths();
    Ok((p.0, p.1))
  }

  /** A big-endian `u64` from the first 8 bytes; fewer is `UnexpectedEof`. */
  function GetU64(s: seq<u8>): (r: Decoded<u64>)
    ensures r.Ok? <==> |s| >= 8
    ensures r.Err? ==> r.error == UnexpectedEof
    ensures r.Ok? ==> r.value == (FromBE(s[..8]), s[8..])
  {
    var p :- GetBE(s, 8);
    Pow256Widths();
    Ok((p.0, p.1))
  }

  function PutU8(v: u8, rest: seq<u8>): (r: seq<u8>)
    ensures |r| == 1 + |rest| && r[0] == v && r[1..] == rest
    ensures GetU8(r) == Ok((v, rest))
  {
    Pow256Widths();
    PutBE(v, 1, rest)
  }

  function PutU16(v: u16, rest: seq<u8>): (r: seq<u8>)
    ensures |r| == 2 + |rest|
    ensures GetU16(r) == Ok((v, rest))
  {
    Pow256Widths();
    PutBE(v, 2, rest)
  }

  function PutU32(v: u32, rest: seq<u8>): (r: seq<u8>)
    ensures |r| == 4 + |rest|
    ensures GetU32(r) == Ok((v, rest))
  {
    Pow256Widths();
    PutBE(v, 4, rest)
  }

  function PutU64(v: u64, rest: seq<u8>): (r: seq<u8>)
    ensures |r| == 8 + |rest|
    ensures GetU64(r) == Ok((v, rest))
  {
    Pow256Widths();
    PutBE(v, 8, rest)
  }

  /** Writing in front of `a + b` is writing in front of `a`, then `b`. */
  lemma PutU64Append(v: u64, a: seq<u8>, b: seq<u8>)
    ensures PutU64(v, a + b) == PutU64(v, a) + b
  {
    assert ToBE(v, 8) + (a + b) == (ToBE(v, 8) + a) + b;
  }

  lemma PutU8Append(v: u8, a: seq<u8>, b: seq<u8>)
    ensures PutU8(v, a + b) == PutU8(v, a) + b
  {
    assert ToBE(v, 1) + (a + b) == (ToBE(v, 1) + a) + b;
  }

  lemma PutU16Append(v: u16, a: seq<u8>, b: seq<u8>)
    ensures PutU16(v, a + b) == PutU16(v, a) + b
  {
    assert ToBE(v, 2) + (a + b) == (ToBE(v, 2) + a) + b;
  }

  lemma PutU32Append(v: u32, a: seq<u8>, b: seq<u8>)
    ensures PutU32(v, a + b) == PutU32(v, a) + b
  {
    assert ToBE(v, 4) + (a + b) == (ToBE(v, 4) + a) + b;
  }

  // ---------------------------------------------------------------------------
  // Option<T>: tag byte 0 (None) or 1 (Some) and the payload
  // ---------------------------------------------------------------------------

  function PutOption<T>(put: (T, seq<u8>) -> seq<u8>, o: Option<T>, rest: seq<u8>): (r: seq<u8>)
    ensures |r| > 0 && r[0] == (if o.Some? then 1 else 0)
    ensures r[1..] == if o.Some? then put(o.value, rest) else rest
  {
    match o
    case None => [0] + rest
    case Some(v) => [1] + put(v, rest)
  }

  /** Reads an option: tag 0 is `None`, tag 1 is `Some` and a `T`; any other tag is
      rejected with `ErrorKind::Other`. */
  function GetOption<T>(get: seq<u8> -> Decoded<T>, s: seq<u8>): (r: Decoded<Option<T>>)
    ensures |s| == 0 ==> r == Err(UnexpectedEof)
    ensures |s| > 0 && s[0] > 1 ==> r == Err(Other)
    ensures |s| > 0 && s[0] == 0 ==> r == Ok((None, s[1..]))
    ensures |s| > 0 && s[0] == 1 && get(s[1..]).Err? ==> r == Err(get(s[1..]).error)
  {
    var tag :- GetU8(s);
    if tag.0 == 0 then Ok((None, tag.1))
    else if tag.0 == 1 then
      var v :- get(tag.1);
      Ok((Some(v.0), v.1))
    else Err(Other)
  }

  /** An option round-trips whenever its payload does. */
  lemma OptionRoundTrip<T>(put: (T, seq<u8>) -> seq<u8>, get: seq<u8> -> Decoded<T>, o: Option<T>, rest: seq<u8>)
    requires o.Some? ==> get(put(o.value, rest)) == Ok((o.value, rest))
    ensures GetOption(get, PutOption(put, o, rest)) == Ok((o, rest))
  {
    var r := PutOption(put, o, rest);
    assert r[1..] == if o.Some? then put(o.value, rest) else rest;
  }

  // ---------------------------------------------------------------------------
  // IP and socket addresses
  // ---------------------------------------------------------------------------

  /** Reads 4 octets; fewer than 4 bytes is `UnexpectedEof`. */
  function GetIpv4(s: seq<u8>): (r: Decoded<Ipv4Addr>)
    ensures r.Err? <==> |s| < 4
    ensures r.Err? ==> r.error == UnexpectedEof
    ensures r.Ok? ==> r.value.0.octets + r.value.1 == s
  {
    if |s| < 4 then Err(UnexpectedEof)
    else
      assert s == s[..4] + s[4..];
      Ok((Ipv4Addr(s[..4]), s[4..]))
  }

  /** Reads 16 octets; fewer than 16 bytes is `UnexpectedEof`. */
  function GetIpv6(s: seq<u8>): (r: Decoded<Ipv6Addr>)
    ensures r.Err? <==> |s| < 16
    ensures r.Err? ==> r.error == UnexpectedEof
    ensures r.Ok? ==> r.value.0.octets + r.value.1 == s
  {
    if |s| < 16 then Err(UnexpectedEof)
    else
      assert s == s[..16] + s[16..];
      Ok((Ipv6Addr(s[..16]), s[16..]))
  }

  function PutIpv4(ip: Ipv4Addr, rest: seq<u8>): (r: seq<u8>)
    ensures |r| == 4 + |rest|
    ensures GetIpv4(r) == Ok((ip, rest))
  {
    assert (ip.octets + rest)[..4] == ip.octets;
    ip.octets + rest
  }

  function PutIpv6(ip: Ipv6Addr, rest: seq<u8>): (r: seq<u8>)
    ensures |r| == 16 + |rest|
    ensures GetIpv6(r) == Ok((ip, rest))
  {
    assert (ip.octets + rest)[..16] == ip.octets;
    ip.octets + rest
  }

  /** The byte count `IpAddr::write_to` returns. */
  lemma PutIpv4Append(ip: Ipv4Addr, a: seq<u8>, b: seq<u8>)
    ensures PutIpv4(ip, a + b) == PutIpv4(ip, a) + b
  {
    assert ip.octets + (a + b) == (ip.octets + a) + b;
  }

  lemma PutIpv6Append(ip: Ipv6Addr, a: seq<u8>, b: seq<u8>)
    ensures PutIpv6(ip, a + b) == PutIpv6(ip, a) + b
  {
    assert ip.octets + (a + b) == (ip.octets + a) + b;
  }

  function IpWriteLen(ip: IpAddr): nat {
    match ip
    case V4(_) => 1 + 4
    case V6(_) => 1 + 16
  }

  /** Tag 4 and 4 octets, or tag 6 and 16 octets. */
  function PutIpAddr(ip: IpAddr, rest: seq<u8>): (r: seq<u8>)
    ensures |r| == IpWriteLen(ip) + |rest|
    ensures GetIpAddr(r) == Ok((ip, rest))
  {
    match ip
    case V4(a) => [4] + PutIpv4(a, rest)
    case V6(a) => [6] + PutIpv6(a, rest)
  }

  /** Reads an `IpAddr`; a tag other than 4 or 6 is rejected with `ErrorKind::Other`. */
  function GetIpAddr(s: seq<u8>): (r: Decoded<IpAddr>)
    ensures |s| > 0 && s[0] != 4 && s[0] != 6 ==> r == Err(Other)
    ensures |s| == 0 ==> r == Err(UnexpectedEof)
  {
    var tag :- GetU8(s);
    if tag.0 == 4 then
      var a :- GetIpv4(tag.1);
      Ok((V4(a.0), a.1))
    else if tag.0 == 6 then
      var a :- GetIpv6(tag.1);
      Ok((V6(a.0), a.1))
    else Err(Other)
  }

  /** The byte count `SocketAddr::write_to` returns: `1 + 2` plus what the ip write returned. */
  function SocketAddrWriteLen(a: SocketAddr): nat {
    match a
    case SockV4(_) => 1 + 2 + 4
    case SockV6(_) => 1 + 2 + 16
  }

  /** A socket address takes at most 19 bytes: the tag, 16 address bytes and the port. */
  lemma SocketAddrMaxSize(a: SocketAddr)
    ensures SocketAddrWriteLen(a) <= 19
  {
  }

  /** What survives a write and read of a socket address: a v6 address loses its flow label
      and scope id. */
  function WireSocketAddr(a: SocketAddr): SocketAddr {
    match a
    case SockV4(_) => a
    case SockV6(x) => SockV6(SocketAddrV6(x.ip, x.port, 0, 0))
  }

  /** Tag 4, 4 octets and a big-endian port (7 bytes), or tag 6, 16 octets and the port
      (19 bytes). */
  function PutSocketAddr(a: SocketAddr, rest: seq<u8>): (r: seq<u8>)
    ensures |r| == SocketAddrWriteLen(a) + |rest|
    ensures GetSocketAddr(r) == Ok((WireSocketAddr(a), rest))
  {
    match a
    case SockV4(x) => [4] + PutIpv4(x.ip, PutU16(x.port, rest))
    case SockV6(x) => [6] + PutIpv6(x.ip, PutU16(x.port, rest))
  }

  /** Reads a `SocketAddr`; a v6 address is built with flow label 0 and scope id 0, and a tag
      other than 4 or 6 is rejected with `ErrorKind::Other`. */
  function GetSocketAddr(s: seq<u8>): (r: Decoded<SocketAddr>)
    ensures |s| > 0 && s[0] != 4 && s[0] != 6 ==> r == Err(Other)
    ensures |s| == 0 ==> r == Err(UnexpectedEof)
    ensures r.Ok? && r.value.0.SockV6? ==> r.value.0.a6.flowinfo == 0 && r.value.0.a6.scopeId == 0
  {
    var tag :- GetU8(s);
    if tag.0 == 4 then
      var ip :- GetIpv4(tag.1);
      var port :- GetU16(ip.1);
      Ok((SockV4(SocketAddrV4(ip.0, port.0)), port.1))
    else if tag.0 == 6 then
      var ip :- GetIpv6(tag.1);
      var port :- GetU16(ip.1);
      Ok((SockV6(SocketAddrV6(ip.0, port.0, 0, 0)), port.1))
    else Err(Other)
  }

  lemma PutSocketAddrAppend(x: SocketAddr, a: seq<u8>, b: seq<u8>)
    ensures PutSocketAddr(x, a + b) == PutSocketAddr(x, a) + b
  {
    PutU16Append(x.Port(), a, b);
    match x
    case SockV4(v) =>
      PutIpv4Append(v.ip, PutU16(v.port, a), b);
      assert [4 as u8] + (PutIpv4(v.ip, PutU16(v.port, a)) + b)
        == ([4 as u8] + PutIpv4(v.ip, PutU16(v.port, a))) + b;
    case SockV6(v) =>
      PutIpv6Append(v.ip, PutU16(v.port, a), b);
      assert [6 as u8] + (PutIpv6(v.ip, PutU16(v.port, a)) + b)
        == ([6 as u8] + PutIpv6(v.ip, PutU16(v.port, a))) + b;
  }

  /** A socket address round-trips exactly when it is v4, or v6 with flow label and scope
      id 0. */
  lemma SocketAddrRoundTrip(a: SocketAddr, rest: seq<u8>)
    ensures GetSocketAddr(PutSocketAddr(a, rest)) == Ok((a, rest)) <==>
      (a.SockV6? ==> a.a6.flowinfo == 0 && a.a6.scopeId == 0)
  {
  }

  /** `SocketAddrV4`: the 4 octets, then the big-endian port. */
  function PutSocketAddrV4(a: SocketAddrV4, rest: seq<u8>): (r: seq<u8>)
    ensures |r| == 6 + |rest|
    ensures GetSocketAddrV4(r) == Ok((a, rest))
  {
    PutIpv4(a.ip, PutU16(a.port, rest))
  }

  function GetSocketAddrV4(s: seq<u8>): (r: Decoded<SocketAddrV4>)
    ensures |s| < 6 ==> r == Err(UnexpectedEof)
  {
    var ip :- GetIpv4(s);
    var port :- GetU16(ip.1);
    Ok((SocketAddrV4(ip.0, port.0), port.1))
  }

  // ---------------------------------------------------------------------------
  // Vec<u8>, [u8; N], (A, B), &T and &[u8]
  // ---------------------------------------------------------------------------

  /** A `Vec<u8>`: its length must fit the u64 length prefix. */
  type ByteVec = s: seq<u8> | |s| < TWO_64

  /** A byte vector: its length as a big-endian u64, then the bytes. */
  function PutBytes(data: seq<u8>, rest: seq<u8>): (r: seq<u8>)
    requires |data| < TWO_64
    ensures |r| == |data| + 8 + |rest|
    ensures GetBytes(r) == Ok((data, rest))
  {
    var r := PutU64(|data|, data + rest);
    assert (data + rest)[..|data|] == data && (data + rest)[|data|..] == rest;
    r
  }

  /** Reads a byte vector; fewer bytes than the length announces is `UnexpectedEof`. */
  function GetBytes(s: seq<u8>): (r: Decoded<seq<u8>>)
    ensures |s| < 8 ==> r == Err(UnexpectedEof)
    ensures |s| >= 8 && GetU64(s).Ok? && |s| - 8 < GetU64(s).value.0 ==> r == Err(UnexpectedEof)
    ensures r.Ok? ==> |r.value.0| < TWO_64
  {
    var len :- GetU64(s);
    if |len.1| < len.0 then Err(UnexpectedEof)
    else Ok((len.1[..len.0], len.1[len.0..]))
  }

  /** Decoding a byte vector consumes exactly the bytes that encode the decoded value. */
  lemma BytesDecodeCanonical(s: seq<u8>)
    requires GetBytes(s).Ok?
    ensures PutBytes(GetBytes(s).value.0, GetBytes(s).value.1) == s
  {
    var len := GetBE(s, 8).value;
    Pow256Widths();
    GetBECanonical(s, 8);
    assert s == ToBE(len.0, 8) + len.1;
    assert len.1 == len.1[..len.0] + len.1[len.0..];
  }

  /** A length-`n` array of bytes, written element by element: the bytes themselves. */
  function PutArray(data: seq<u8>, rest: seq<u8>): (r: seq<u8>)
    ensures |r| == |data| + |rest|
    ensures GetArray(r, |data|) == Ok((data, rest))
  {
    assert (data + rest)[..|data|] == data;
    data + rest
  }

  /** Reads `n` bytes one `u8` at a time; running out is `UnexpectedEof`. */
  function GetArray(s: seq<u8>, n: nat): (r: Decoded<seq<u8>>)
    ensures r.Err? <==> |s| < n
    ensures r.Err? ==> r.error == UnexpectedEof
    ensures r.Ok? ==> |r.value.0| == n && r.value.0 + r.value.1 == s
  {
    if |s| < n then Err(UnexpectedEof)
    else
      assert s == s[..n] + s[n..];
      Ok((s[..n], s[n..]))
  }

  /** A pair: the first component's bytes, then the second's. */
  function PutPair<A, B>(putA: (A, seq<u8>) -> seq<u8>, putB: (B, seq<u8>) -> seq<u8>, p: (A, B), rest: seq<u8>): seq<u8> {
    putA(p.0, putB(p.1, rest))
  }

  function GetPair<A, B>(getA: seq<u8> -> Decoded<A>, getB: seq<u8> -> Decoded<B>, s: seq<u8>): (r: Decoded<(A, B)>)
    ensures getA(s).Err? ==> r == Err(getA(s).error)
  {
    var a :- getA(s);
    var b :- getB(a.1);
    Ok(((a.0, b.0), b.1))
  }

  /** A pair round-trips whenever both components do. */
  lemma PairRoundTrip<A, B>(putA: (A, seq<u8>) -> seq<u8>, putB: (B, seq<u8>) -> seq<u8>,
                            getA: seq<u8> -> Decoded<A>, getB: seq<u8> -> Decoded<B>, p: (A, B), rest: seq<u8>)
    requires getB(putB(p.1, rest)) == Ok((p.1, rest))
    requires getA(putA(p.0, putB(p.1, rest))) == Ok((p.0, putB(p.1, rest)))
    ensures GetPair(getA, getB, PutPair(putA, putB, p, rest)) == Ok((p, rest))
  {
  }

  /** Reading into a reference `&T` always fails with `InvalidInput`, whatever the input. */
  function GetBorrowed<T>(s: seq<u8>): (r: Decoded<T>)
    ensures r.Err? && r.error == InvalidInput
  {
    Err(InvalidInput)
  }

  /** A raw slice `&[u8]` is written without a length prefix and cannot be read back: reading
      one always fails with `Unsupported`. */
  function GetRawSlice(s: seq<u8>): (r: Decoded<seq<u8>>)
    ensures r.Err? && r.error == Unsupported
  {
    Err(Unsupported)
  }

  function PutRawSlice(data: seq<u8>, rest: seq<u8>): (r: seq<u8>)
    ensures |r| == |data| + |rest| && r[..|data|] == data
  {
    data + rest
  }
}
