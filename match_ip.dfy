/** The command line's test of whether an address belongs to a tunnel ip: the same ip number,
    and the same region unless the tunnel's region is 0 (global). */
module MatchIps {
  import opened Ints
  import opened Net
  import IpResources

  datatype MatchIp = MatchIp(ipNumber: u64, regionId: u16)

  /** `MatchIp::new`: the region id from bytes 6..8 and the ip number from bytes 8..16. */
  function New(ip: Ipv6Addr): (r: MatchIp)
    ensures r.regionId == FromBE(ip.octets[6..8]) && r.ipNumber == FromBE(ip.octets[8..])
  {
    Pow256Widths();
    MatchIp(FromBE(ip.octets[8..]), FromBE(ip.octets[6..8]))
  }

  /** `new` reads the same numbers as the region decoding of the API client, and recovers
      those a tunnel address was built from. */
  lemma NewAgreesWithRegions(ip: Ipv6Addr)
    ensures New(ip).ipNumber == IpResources.FromIp6(ip).1
    ensures New(ip).regionId <= 6 <==> IpResources.FromIp6(ip).0.Some?
    ensures IpResources.FromIp6(ip).0.Some? ==> IpResources.RegionNumber(IpResources.FromIp6(ip).0.value) == New(ip).regionId
  {
  }

  lemma NewOfTunnelAddress(region: IpResources.PlayitRegion, ipNumber: u64)
    ensures New(IpResources.TunnelAddress(region, ipNumber)) == MatchIp(ipNumber, IpResources.RegionNumber(region))
  {
    IpResources.TunnelAddressRoundTrip(region, ipNumber);
  }

  /** `region_number_v4`: 147.185.221.0/24 is 1, 209.25.140.0/22 is 1 to 4 by its third
      octet, 23.133.216.0/24 is 5, anything else 0. */
  function RegionNumberV4(ip: Ipv4Addr): (r: u16)
    ensures r <= 5
    ensures r == 0 <==> (
      !(ip.octets[0] == 147 && ip.octets[1] == 185 && ip.octets[2] == 221) &&
      !(ip.octets[0] == 209 && ip.octets[1] == 25 && 140 <= ip.octets[2] <= 143) &&
      !(ip.octets[0] == 23 && ip.octets[1] == 133 && ip.octets[2] == 216))
    ensures ip.octets[0] == 209 && ip.octets[1] == 25 && 140 <= ip.octets[2] <= 143 ==> r == ip.octets[2] - 139
  {
    var o := ip.octets;
    if o[0] == 147 && o[1] == 185 && o[2] == 221 then 1
    else if o[0] == 209 && o[1] == 25 && o[2] >= 140 && o[2] <= 143 then 1 + (o[2] - 140)
    else if o[0] == 23 && o[1] == 133 && o[2] == 216 then 5
    else 0
  }

  /** `matches` as written. A v4 address needs its last octet to be the ip number and its
      region to agree with a non-zero region id; for a v6 address the second test repeats the
      first, so only the ip number is compared. */
  function Matches(self: MatchIp, ip: IpAddr): (r: bool)
    ensures ip.V4? ==> (r <==> ip.v4.octets[3] == self.ipNumber && (self.regionId == 0 || self.regionId == RegionNumberV4(ip.v4)))
    ensures ip.V6? ==> (r <==> self.ipNumber == New(ip.v6).ipNumber)
  {
    match ip
    case V4(a) =>
      if a.octets[3] != self.ipNumber then false
      else self.regionId == 0 || self.regionId == RegionNumberV4(a)
    case V6(a) =>
      var other := New(a);
      if self.ipNumber != other.ipNumber then false
      else self.regionId == 0 || self.ipNumber == other.ipNumber
  }

  /** A tunnel ip of region 2 matches the address with the same ip number in region 3. */
  lemma MatchesIgnoresV6Region()
    ensures var tunnel := New(IpResources.TunnelAddress(IpResources.NorthAmerica, 70));
      tunnel.regionId == 2 &&
      Matches(tunnel, V6(IpResources.TunnelAddress(IpResources.Europe, 70))) &&
      New(IpResources.TunnelAddress(IpResources.Europe, 70)).regionId == 3
  {
    NewOfTunnelAddress(IpResources.NorthAmerica, 70);
    NewOfTunnelAddress(IpResources.Europe, 70);
  }

  /** `matches` with the v6 branch comparing the region ids, as the v4 branch does. */
  function MatchesRegion(self: MatchIp, ip: IpAddr): (r: bool)
    ensures r ==> Matches(self, ip)
    ensures ip.V4? ==> r == Matches(self, ip)
  {
    match ip
    case V4(a) =>
      if a.octets[3] != self.ipNumber then false
      else self.regionId == 0 || self.regionId == RegionNumberV4(a)
    case V6(a) =>
      var other := New(a);
      if self.ipNumber != other.ipNumber then false
      else self.regionId == 0 || self.regionId == other.regionId
  }

  /** The corrected test accepts a v6 address exactly when the ip numbers agree and the region
      is global or the same; on v4 it is the original test, and it never accepts more. */
  lemma MatchesRegionMeans(self: MatchIp, ip: IpAddr)
    ensures ip.V6? ==> (MatchesRegion(self, ip) <==>
      self.ipNumber == New(ip.v6).ipNumber && (self.regionId == 0 || self.regionId == New(ip.v6).regionId))
    ensures ip.V4? ==> MatchesRegion(self, ip) == Matches(self, ip)
    ensures MatchesRegion(self, ip) ==> Matches(self, ip)
  {
  }

  /** A tunnel ip matches its own address, and under the corrected test never one of
      another region unless it is global. */
  lemma MatchesRegionTunnels(r1: IpResources.PlayitRegion, r2: IpResources.PlayitRegion, n: u64)
    ensures MatchesRegion(New(IpResources.TunnelAddress(r1, n)), V6(IpResources.TunnelAddress(r1, n)))
    ensures r1 != r2 && r1 != IpResources.Anycast ==>
      !MatchesRegion(New(IpResources.TunnelAddress(r1, n)), V6(IpResources.TunnelAddress(r2, n)))
  {
    NewOfTunnelAddress(r1, n);
    NewOfTunnelAddress(r2, n);
  }
}
