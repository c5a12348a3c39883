/** The two helpers the API client adds to its generated types: which port types a port type
    accepts, and membership in a port range. */
module ApiTypes {
  import opened Ints

  datatype PortType = Tcp | Udp | Both

  /** A port range, `from` included and `to` excluded. */
  datatype PortRange = PortRange(from: u16, to: u16)

  /** `PortType::matches`: `Both` accepts every port type, the others only themselves. */
  function Matches(self: PortType, port: PortType): (r: bool)
    ensures self == Both ==> r
    ensures self != Both ==> (r <==> port == self)
  {
    match self
    case Both => true
    case other => other == port
  }

  /** `matches` is reflexive, and `Both` is accepted only by `Both`. */
  lemma MatchesOrder(a: PortType, b: PortType)
    ensures Matches(a, a)
    ensures Matches(a, Both) <==> a == Both
    ensures Matches(a, b) && Matches(b, a) ==> a == b
  {
  }

  /** `PortRange::contains`: `from <= port < to`. */
  function Contains(range: PortRange, port: u16): (r: bool)
    ensures r ==> range.from <= port && port < range.to
    ensures range.from <= port && port < range.to ==> r
  {
    range.from <= port && port < range.to
  }

  /** A range whose `from` is not below its `to` contains nothing; otherwise it contains
      `from` and not `to`. */
  lemma ContainsEmpty(range: PortRange, port: u16)
    ensures range.from >= range.to ==> !Contains(range, port)
    ensures range.from < range.to ==> Contains(range, range.from) && !Contains(range, range.to)
  {
  }
}
