/** The UDP packet pool: one buffer cut into `packet_count` packets of 2048 bytes, with a
    queue of the free ones. A packet is identified by its index `i`, the packet at byte
    offset `i * 2048` of the buffer. */
module PacketPool {
  import opened Wrappers
  import opened Encoding

  const PACKET_LEN: nat := 2048

  predicate IsPowerOfTwo(n: nat) {
    n == 1 || (n > 1 && n % 2 == 0 && IsPowerOfTwo(n / 2))
  }

  /** The smallest power of two that is at least `p` times a power of two and at least `n`. */
  function PowerAtLeast(n: nat, p: nat): (r: nat)
    requires IsPowerOfTwo(p)
    ensures IsPowerOfTwo(r) && r >= n && r >= p
    ensures r > p ==> r / 2 < n
    decreases n - p
  {
    if p >= n then p else PowerAtLeast(n, 2 * p)
  }

  /** `usize::next_power_of_two`: the smallest power of two not below `n` (1 for 0). */
  function NextPowerOfTwo(n: nat): (r: nat)
    ensures IsPowerOfTwo(r) && r >= n
    ensures r == 1 || r / 2 < n
  {
    PowerAtLeast(n, 1)
  }

  predicate NoDup(s: seq<nat>) {
    forall i, j :: 0 <= i < j < |s| ==> s[i] != s[j]
  }

  /** A handed-out packet; its length is how much of its 2048 bytes are in use. */
  class Packet {
    const index: nat
    var len: nat

    constructor (index: nat)
      ensures this.index == index && len == PACKET_LEN
    {
      this.index := index;
      len := PACKET_LEN;
    }

    /** `set_len`: `InvalidInput`, changing nothing, for more than 2048 bytes. */
    method SetLen(newLen: nat) returns (r: Result<(), IoError>)
      modifies this
      ensures r.Err? <==> newLen > PACKET_LEN
      ensures r.Err? ==> r.error == InvalidInput && len == old(len)
      ensures r.Ok? ==> len == newLen
    {
      if PACKET_LEN < newLen {
        return Err(InvalidInput);
      }
      len := newLen;
      return Ok(());
    }
  }

  class Packets {
    const packetCount: nat
    var freePackets: seq<nat>
    /** The packets handed out and not yet dropped. */
    ghost var handedOut: set<nat>

    /** Every packet is either free, once, or handed out, never both, so together they
        account for all `packet_count` packets. */
    ghost predicate Valid()
      reads this
    {
      NoDup(freePackets)
      && (forall k :: 0 <= k < |freePackets| ==> freePackets[k] < packetCount)
      && (forall i :: i in handedOut ==> i < packetCount)
      && (forall i :: 0 <= i < packetCount ==> (i in freePackets <==> i !in handedOut))
      && |freePackets| + |handedOut| == packetCount
    }

    /** `new`: the count is rounded up to a power of two and every packet starts free, in
        buffer order. */
    constructor (requested: nat)
      ensures Valid() && packetCount == NextPowerOfTwo(requested) && handedOut == {}
      ensures freePackets == seq(packetCount, i requires 0 <= i < packetCount => i)
    {
      var count := NextPowerOfTwo(requested);
      packetCount := count;
      freePackets := [];
      handedOut := {};
      new;
      var i := 0;
      while i < count
        invariant 0 <= i <= count
        invariant freePackets == seq(i, k requires 0 <= k < i => k)
        invariant handedOut == {}
      {
        freePackets := freePackets + [i];
        i := i + 1;
      }
      forall k | 0 <= k < count ensures k in freePackets {
        assert freePackets[k] == k;
      }
    }

    /** `allocate`: `None` when no packet is free; otherwise the packet at the head of the
        queue, at full length, now handed out. */
    method Allocate() returns (r: Option<Packet>)
      requires Valid()
      modifies this
      ensures Valid()
      ensures r.None? <==> old(|freePackets|) == 0
      ensures r.None? ==> freePackets == old(freePackets) && handedOut == old(handedOut)
      ensures r.Some? ==> (fresh(r.value) && r.value.len == PACKET_LEN
        && r.value.index == old(freePackets[0]) && r.value.index !in old(handedOut)
        && freePackets == old(freePackets[1..]) && handedOut == old(handedOut) + {r.value.index})
    {
      if |freePackets| == 0 {
        return None;
      }
      var index := freePackets[0];
      freePackets := freePackets[1..];
      handedOut := handedOut + {index};
      assert forall i :: 0 <= i < packetCount ==> (i in old(freePackets) <==> i == index || i in freePackets);
      var p := new Packet(index);
      return Some(p);
    }

    /** Dropping a packet queues it again as free. */
    method Drop(p: Packet)
      requires Valid() && p.index in handedOut
      modifies this
      ensures Valid()
      ensures freePackets == old(freePackets) + [p.index] && handedOut == old(handedOut) - {p.index}
    {
      freePackets := freePackets + [p.index];
      handedOut := handedOut - {p.index};
    }
  }
}
