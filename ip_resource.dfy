/** Tunnel addresses and the regions they belong to. A v6 tunnel address is the 2602:fbaf::/32
    prefix, two zero bytes, the region number in bytes 6..8 and the ip number in bytes 8..16;
    a v4 tunnel address is known by its /24. */
module IpResources {
  import opened Ints
  import opened Net
  import opened Wrappers

  datatype PlayitRegion = Anycast | Global | NorthAmerica | Europe | Asia | India | SouthAmerica

  datatype IpResource = IpResource(ipNum: u64, region: PlayitRegion)

  /** The `repr(u16)` discriminant. */
  function RegionNumber(r: PlayitRegion): (n: u16)
    ensures n <= 6
  {
    match r
    case Anycast => 0
    case Global => 1
    case NorthAmerica => 2
    case Europe => 3
    case Asia => 4
    case India => 5
    case SouthAmerica => 6
  }

  /** The region a v6 tunnel address names; numbers above 6 name none. */
  function RegionFromNumber(n: u16): (r: Option<PlayitRegion>)
    ensures r.Some? <==> n <= 6
    ensures r.Some? ==> RegionNumber(r.value) == n
  {
    match n
    case 0 => Some(Anycast)
    case 1 => Some(Global)
    case 2 => Some(NorthAmerica)
    case 3 => Some(Europe)
    case 4 => Some(Asia)
    case 5 => Some(India)
    case 6 => Some(SouthAmerica)
    case _ => None
  }

  lemma RegionNumberRoundTrip(r: PlayitRegion)
    ensures RegionFromNumber(RegionNumber(r)) == Some(r)
  {
  }

  /** `from_ip4`: the region of a known /24 and the last octet as the ip number. */
  function FromIp4(ip: Ipv4Addr): (r: (Option<PlayitRegion>, u64))
    ensures r.1 == ip.octets[3]
    ensures r.0 == Some(Anycast) <==> ip.octets[..3] == [0, 0, 0]
    ensures r.0 == Some(Global) <==> ip.octets[..3] == [147, 185, 221]
    ensures r.0 == Some(SouthAmerica) <==> ip.octets[..3] == [23, 133, 216] || ip.octets[..3] == [198, 22, 204]
    ensures r.0 == Some(NorthAmerica) <==> ip.octets[..3] == [209, 25, 140]
    ensures r.0 == Some(Europe) <==> ip.octets[..3] == [209, 25, 141]
    ensures r.0 == Some(Asia) <==> ip.octets[..3] == [209, 25, 142]
    ensures r.0 == Some(India) <==> ip.octets[..3] == [209, 25, 143]
    ensures r.0.None? <==> ip.octets[..3] !in {[0, 0, 0], [209, 25, 140], [209, 25, 141], [209, 25, 142],
                                              [209, 25, 143], [23, 133, 216], [198, 22, 204], [147, 185, 221]}
  {
    var o := ip.octets;
    assert o[..3] == [o[0], o[1], o[2]];
    var net :=
      match (o[0], o[1], o[2])
      case (0, 0, 0) => Some(Anycast)
      case (209, 25, 140) => Some(NorthAmerica)
      case (209, 25, 141) => Some(Europe)
      case (209, 25, 142) => Some(Asia)
      case (209, 25, 143) => Some(India)
      case (23, 133, 216) => Some(SouthAmerica)
      case (198, 22, 204) => Some(SouthAmerica)
      case (147, 185, 221) => Some(Global)
      case _ => None;
    (net, o[3])
  }

  /** The four regional /24s under 209.25.140.0/22. */
  lemma FromIp4Regional(ip: Ipv4Addr)
    requires ip.octets[0] == 209 && ip.octets[1] == 25 && 140 <= ip.octets[2] <= 143
    ensures FromIp4(ip).0.Some? && RegionNumber(FromIp4(ip).0.value) == ip.octets[2] - 138
  {
  }

  /** `from_ip6`: the region from bytes 6..8 and the ip number from bytes 8..16, both
      big-endian. The prefix is not examined. */
  function FromIp6(ip: Ipv6Addr): (r: (Option<PlayitRegion>, u64))
    ensures r.1 == FromBE(ip.octets[8..])
    ensures r.0.Some? <==> FromBE(ip.octets[6..8]) <= 6
  {
    Pow256Widths();
    (RegionFromNumber(FromBE(ip.octets[6..8])), FromBE(ip.octets[8..]))
  }

  /** `from_ip`: a v4 address by its last octet, a v6 one by its region and ip number. */
  function FromIp(ip: IpAddr): (r: (Option<PlayitRegion>, u64))
    ensures ip.V4? ==> r == FromIp4(ip.v4)
    ensures ip.V6? ==> r.1 == FromBE(ip.v6.octets[8..]) && (r.0.Some? <==> FromBE(ip.v6.octets[6..8]) <= 6)
  {
    match ip
    case V4(a) => FromIp4(a)
    case V6(a) => FromIp6(a)
  }

  const TUNNEL_PREFIX: seq<u8> := [0x26, 0x02, 0xfb, 0xaf, 0, 0]

  /** `tunnel_address`: the prefix, the region number and the ip number. */
  function TunnelAddress(region: PlayitRegion, ipNumber: u64): (r: Ipv6Addr)
    ensures r.octets[..6] == TUNNEL_PREFIX
    ensures r.octets[6..8] == ToBE(RegionNumber(region), 2)
    ensures r.octets[8..] == ToBE(ipNumber, 8)
  {
    var octs := TUNNEL_PREFIX + ToBE(RegionNumber(region), 2) + ToBE(ipNumber, 8);
    assert octs[6..8] == ToBE(RegionNumber(region), 2);
    assert octs[8..] == ToBE(ipNumber, 8);
    Ipv6Addr(octs)
  }

  /** `from_ip6` reads back the region and ip number `tunnel_address` wrote. */
  lemma TunnelAddressRoundTrip(region: PlayitRegion, ipNumber: u64)
    ensures FromIp6(TunnelAddress(region, ipNumber)) == (Some(region), ipNumber)
  {
    var a := TunnelAddress(region, ipNumber);
    Pow256Widths();
    FromToBE(RegionNumber(region), 2);
    FromToBE(ipNumber, 8);
  }

  /** An ip number in [64, 128) is a regional address. */
  predicate IsRegionIp(ipNum: u64) {
    64 <= ipNum < 128
  }

  /** `IpResource::from_ip`: the region is kept only for a recognised region and a regional
      ip number; everything else is anycast. */
  function IpResourceFromIp(ip: IpAddr): (r: IpResource)
    ensures r.ipNum == FromIp(ip).1
    ensures r.region != Anycast ==> IsRegionIp(r.ipNum) && FromIp(ip).0 == Some(r.region)
    ensures IsRegionIp(r.ipNum) && FromIp(ip).0.Some? ==> r.region == FromIp(ip).0.value
  {
    var (region, ipNum) := FromIp(ip);
    var region := if IsRegionIp(ipNum) && region.Some? then region.value else Anycast;
    IpResource(ipNum, region)
  }

  /** `to_tunnel_ip`: the resource's tunnel address, which reads back its region and ip
      number. */
  function ToTunnelIp(res: IpResource): (r: Ipv6Addr)
    ensures r.octets[..6] == TUNNEL_PREFIX
    ensures FromIp6(r) == (Some(res.region), res.ipNum)
  {
    TunnelAddressRoundTrip(res.region, res.ipNum);
    TunnelAddress(res.region, res.ipNum)
  }

  /** A resource survives the trip through its tunnel address exactly when it is anycast or
      has a regional ip number; otherwise it comes back as anycast. */
  lemma ResourceRoundTrip(res: IpResource)
    ensures IpResourceFromIp(V6(ToTunnelIp(res))) == res <==> res.region == Anycast || IsRegionIp(res.ipNum)
    ensures IpResourceFromIp(V6(ToTunnelIp(res))).ipNum == res.ipNum
  {
    TunnelAddressRoundTrip(res.region, res.ipNum);
  }
}
