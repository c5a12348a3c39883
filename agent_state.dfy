/** The agent's bookkeeping of what it has asked the tunnel server for: the send and ack
    times of its periodic requests (`KeepFreshTimes`), and the port claims it wants
    (`target`) against the ones the server has acknowledged (`current`). */
module AgentStates {
  import opened Ints
  import opened Net
  import opened Wrappers
  import opened CommonLib

  /** Send and ack instants, in milliseconds, of one periodic request; 0 means never. */
  class KeepFreshTimes {
    var sentAt: u64
    var ackAt: u64

    constructor ()
      ensures sentAt == 0 && ackAt == 0
    {
      sentAt := 0;
      ackAt := 0;
    }

    /** Whether an ack was recorded; 0 stands for never. */
    predicate HasAck()
      reads this
    {
      ackAt != 0
    }

    /** `sent`, with the clock reading as an argument. */
    method Sent(now: u64)
      modifies this
      ensures sentAt == now && ackAt == old(ackAt)
    {
      sentAt := now;
    }

    /** `set_ack`; `ack` is this with the clock reading as the value. */
    method SetAck(value: u64)
      modifies this
      ensures ackAt == value && sentAt == old(sentAt)
      ensures HasAck() <==> value != 0
    {
      ackAt := value;
    }

    method RemoveAck()
      modifies this
      ensures ackAt == 0 && sentAt == old(sentAt) && !HasAck()
    {
      ackAt := 0;
    }

    /** `is_fresh`: the ack lies within `maxAckDelay` of the send, on either side. */
    function IsFresh(maxAckDelay: u64): (r: bool)
      reads this
      ensures r <==> -(maxAckDelay as int) < ackAt - sentAt < maxAckDelay
    {
      AbsDiff(ackAt, sentAt) < maxAckDelay
    }

    /** `try_send`: refused, with the milliseconds still to wait, until both `retryTimeout`
        has passed since the last send and `maxAge` since the last ack; otherwise the send
        is recorded. The two sums are u64 additions, which wrap in a release build. */
    method TrySend(now: u64, retryTimeout: u64, maxAge: u64) returns (r: Result<(), u64>)
      modifies this
      ensures var resendAt := Add64(old(sentAt), retryTimeout);
              var refreshAt := Add64(old(ackAt), maxAge);
              && (r.Ok? <==> resendAt <= now && refreshAt <= now)
              && (r.Err? ==> 0 < r.error && now + r.error == if now < resendAt then resendAt else refreshAt)
      ensures r.Ok? ==> sentAt == now
      ensures r.Err? ==> sentAt == old(sentAt)
      ensures ackAt == old(ackAt)
    {
      var resendAt := Add64(sentAt, retryTimeout);
      if now < resendAt {
        return Err(resendAt - now);
      }
      var refreshAt := Add64(ackAt, maxAge);
      if now < refreshAt {
        return Err(refreshAt - now);
      }
      sentAt := now;
      return Ok(());
    }
  }

  /** The four mapping fields that identify a claim. */
  datatype ClaimKey = ClaimKey(proto: ClaimProto, tunnelIp: IpAddr, fromPort: u16, toPort: u16)

  /** One port claim. Request ids come from a shared counter; they are modelled as
      unbounded naturals. */
  datatype PortClaim = PortClaim(requestId: nat, proto: ClaimProto, tunnelIp: IpAddr,
                                 fromPort: u16, toPort: u16, lastAck: u64, shouldRemove: bool)

  function Key(c: PortClaim): ClaimKey {
    ClaimKey(c.proto, c.tunnelIp, c.fromPort, c.toPort)
  }

  /** `lease`: the claim as the server sees it. */
  function Lease(c: PortClaim): (r: ClaimLease)
    ensures r.ip == c.tunnelIp && r.fromPort == c.fromPort && r.toPort == c.toPort && r.proto == c.proto
  {
    ClaimLease(c.tunnelIp, c.fromPort, c.toPort, c.proto)
  }

  datatype ClaimLeaseAction = ClaimLeaseAction(requestId: nat, add: bool, lease: ClaimLease)

  /** A new, never acknowledged entry for a mapping. */
  function NewClaim(id: nat, k: ClaimKey): PortClaim {
    PortClaim(id, k.proto, k.tunnelIp, k.fromPort, k.toPort, 0, false)
  }

  /** An entry flagged for removal under a fresh request id. */
  function Flagged(c: PortClaim, id: nat): PortClaim {
    c.(shouldRemove := true, requestId := id)
  }

  // ---------------------------------------------------------------------------------
  // Sequences of claims

  function RemoveAt(s: seq<PortClaim>, i: nat): (r: seq<PortClaim>)
    requires i < |s|
    ensures |r| == |s| - 1
    ensures forall j :: 0 <= j < i ==> r[j] == s[j]
    ensures forall j :: i <= j < |r| ==> r[j] == s[j + 1]
  {
    s[..i] + s[i + 1..]
  }

  /** `Vec::insert`. */
  function InsertAt(s: seq<PortClaim>, i: nat, x: PortClaim): (r: seq<PortClaim>)
    requires i <= |s|
    ensures |r| == |s| + 1 && r[i] == x
    ensures forall j :: 0 <= j < i ==> r[j] == s[j]
    ensures forall j :: i < j < |r| ==> r[j] == s[j - 1]
  {
    s[..i] + [x] + s[i..]
  }

  function Swap(s: seq<PortClaim>, i: nat, j: nat): (r: seq<PortClaim>)
    requires i < |s| && j < |s|
    ensures |r| == |s| && r[i] == s[j] && r[j] == s[i]
    ensures forall m :: 0 <= m < |s| && m != i && m != j ==> r[m] == s[m]
  {
    s[i := s[j]][j := s[i]]
  }

  lemma RemoveAtMembers(s: seq<PortClaim>, i: nat)
    requires i < |s|
    ensures forall x :: x in RemoveAt(s, i) ==> x in s
    ensures forall j :: 0 <= j < |s| && j != i ==> s[j] in RemoveAt(s, i)
  {
    var r := RemoveAt(s, i);
    forall j | 0 <= j < |s| && j != i
      ensures s[j] in r
    {
      if j < i {
        assert r[j] == s[j];
      } else {
        assert r[j - 1] == s[j];
      }
    }
  }

  lemma InsertAtMembers(s: seq<PortClaim>, i: nat, x: PortClaim)
    requires i <= |s|
    ensures forall y :: y in InsertAt(s, i, x) <==> y in s || y == x
  {
    assert InsertAt(s, i, x) == s[..i] + [x] + s[i..];
    assert s == s[..i] + s[i..];
  }

  function IdsOf(s: seq<PortClaim>): set<nat> {
    set c | c in s :: c.requestId
  }

  function KeysOf(s: seq<PortClaim>): set<ClaimKey> {
    set c | c in s :: Key(c)
  }

  /** Some entry of `s` is a live (not removing) claim for `k`. */
  ghost predicate HasLive(s: seq<PortClaim>, k: ClaimKey) {
    exists c :: c in s && !c.shouldRemove && Key(c) == k
  }

  ghost predicate IdsBelow(s: seq<PortClaim>, n: nat) {
    forall c :: c in s ==> c.requestId < n
  }

  ghost predicate SortedIds(s: seq<PortClaim>) {
    forall i, j :: 0 <= i < j < |s| ==> s[i].requestId < s[j].requestId
  }

  ghost predicate IdsUnique(s: seq<PortClaim>) {
    forall i, j :: 0 <= i < j < |s| ==> s[i].requestId != s[j].requestId
  }

  ghost predicate KeysUnique(s: seq<PortClaim>) {
    forall i, j :: 0 <= i < j < |s| ==> Key(s[i]) != Key(s[j])
  }

  ghost predicate RemovingKeysUnique(s: seq<PortClaim>) {
    forall i, j :: 0 <= i < j < |s| && s[i].shouldRemove && s[j].shouldRemove ==> Key(s[i]) != Key(s[j])
  }

  // ---------------------------------------------------------------------------------
  // `binary_search_by` on request ids, in the standard library's left/right formulation

  function SearchIn(s: seq<PortClaim>, id: nat, left: nat, right: nat): (r: Result<nat, nat>)
    requires left <= right <= |s|
    ensures r.Ok? ==> left <= r.value < right && s[r.value].requestId == id
    ensures r.Err? ==> left <= r.error <= right
    decreases right - left
  {
    if left >= right then Err(left)
    else
      var mid := left + (right - left) / 2;
      if s[mid].requestId < id then SearchIn(s, id, mid + 1, right)
      else if s[mid].requestId > id then SearchIn(s, id, left, mid)
      else Ok(mid)
  }

  function BinarySearchById(s: seq<PortClaim>, id: nat): (r: Result<nat, nat>)
    ensures r.Ok? ==> r.value < |s| && s[r.value].requestId == id
    ensures r.Err? ==> r.error <= |s|
  {
    SearchIn(s, id, 0, |s|)
  }

  lemma {:induction false} SearchInSorted(s: seq<PortClaim>, id: nat, left: nat, right: nat)
    requires left <= right <= |s| && SortedIds(s)
    requires forall j :: 0 <= j < left ==> s[j].requestId < id
    requires forall j :: right <= j < |s| ==> s[j].requestId > id
    ensures SearchIn(s, id, left, right).Err? ==>
      var p := SearchIn(s, id, left, right).error;
      (forall j :: 0 <= j < p ==> s[j].requestId < id) && (forall j :: p <= j < |s| ==> s[j].requestId > id)
    decreases right - left
  {
    if left < right {
      var mid := left + (right - left) / 2;
      assert left <= mid < right;
      if s[mid].requestId < id {
        forall j | 0 <= j < mid + 1 ensures s[j].requestId < id {
          if j < mid { assert s[j].requestId < s[mid].requestId; }
        }
        SearchInSorted(s, id, mid + 1, right);
      } else if s[mid].requestId > id {
        forall j | mid <= j < |s| ensures s[j].requestId > id {
          if j > mid { assert s[mid].requestId < s[j].requestId; }
        }
        SearchInSorted(s, id, left, mid);
      }
    }
  }

  /** On a list sorted by id the search finds the entry with the id, or else the place
      where it would go, with every smaller id before and every larger one after. */
  lemma BinarySearchSorted(s: seq<PortClaim>, id: nat)
    requires SortedIds(s)
    ensures BinarySearchById(s, id).Err? ==> id !in IdsOf(s)
    ensures BinarySearchById(s, id).Err? ==>
      var p := BinarySearchById(s, id).error;
      (forall j :: 0 <= j < p ==> s[j].requestId < id) && (forall j :: p <= j < |s| ==> s[j].requestId > id)
  {
    SearchInSorted(s, id, 0, |s|);
  }

  // ---------------------------------------------------------------------------------
  // `sort_by` on request ids, as an insertion sort

  function InsertById(x: PortClaim, s: seq<PortClaim>): (r: seq<PortClaim>)
    ensures |r| == |s| + 1
  {
    if |s| == 0 then [x]
    else if x.requestId <= s[0].requestId then [x] + s
    else [s[0]] + InsertById(x, s[1..])
  }

  function SortById(s: seq<PortClaim>): (r: seq<PortClaim>)
    ensures |r| == |s|
  {
    if |s| == 0 then [] else InsertById(s[0], SortById(s[1..]))
  }

  lemma {:induction false} InsertByIdMembers(x: PortClaim, s: seq<PortClaim>)
    ensures multiset(InsertById(x, s)) == multiset(s) + multiset{x}
    ensures forall y :: y in InsertById(x, s) <==> y in s || y == x
  {
    if |s| > 0 && x.requestId > s[0].requestId {
      InsertByIdMembers(x, s[1..]);
      assert s == [s[0]] + s[1..];
    }
  }

  lemma {:induction false} InsertByIdAbove(x: PortClaim, s: seq<PortClaim>, lo: int)
    requires lo < x.requestId && forall j :: 0 <= j < |s| ==> lo < s[j].requestId
    ensures forall j :: 0 <= j < |InsertById(x, s)| ==> lo < InsertById(x, s)[j].requestId
  {
    if |s| > 0 && x.requestId > s[0].requestId {
      InsertByIdAbove(x, s[1..], lo);
    }
  }

  lemma {:induction false} InsertByIdSorted(x: PortClaim, s: seq<PortClaim>)
    requires SortedIds(s) && forall j :: 0 <= j < |s| ==> s[j].requestId != x.requestId
    ensures SortedIds(InsertById(x, s))
  {
    if |s| > 0 && x.requestId > s[0].requestId {
      var t := s[1..];
      InsertByIdSorted(x, t);
      InsertByIdAbove(x, t, s[0].requestId);
      var q := InsertById(x, s);
      var r := InsertById(x, t);
      assert q == [s[0]] + r;
      forall i, j | 0 <= i < j < |q| ensures q[i].requestId < q[j].requestId {
        assert q[j] == r[j - 1];
        if i > 0 { assert q[i] == r[i - 1]; }
      }
    }
  }

  lemma InsertByIdProperties(x: PortClaim, s: seq<PortClaim>)
    requires SortedIds(s) && x.requestId !in IdsOf(s)
    ensures SortedIds(InsertById(x, s))
    ensures multiset(InsertById(x, s)) == multiset(s) + multiset{x}
    ensures forall y :: y in InsertById(x, s) <==> y in s || y == x
  {
    InsertByIdMembers(x, s);
    forall j | 0 <= j < |s| ensures s[j].requestId != x.requestId {
      assert s[j] in s;
    }
    InsertByIdSorted(x, s);
  }

  lemma {:induction false} SortByIdMembers(s: seq<PortClaim>)
    ensures multiset(SortById(s)) == multiset(s)
    ensures forall y :: y in SortById(s) <==> y in s
  {
    if |s| > 0 {
      SortByIdMembers(s[1..]);
      InsertByIdMembers(s[0], SortById(s[1..]));
      assert s == [s[0]] + s[1..];
    }
  }

  lemma {:induction false} SortByIdSortedIds(s: seq<PortClaim>)
    requires IdsUnique(s)
    ensures SortedIds(SortById(s))
  {
    if |s| > 0 {
      var t := s[1..];
      SortByIdSortedIds(t);
      SortByIdMembers(t);
      var r := SortById(t);
      forall j | 0 <= j < |r| ensures r[j].requestId != s[0].requestId {
        assert r[j] in t;
        var m :| 0 <= m < |t| && t[m] == r[j];
        assert s[m + 1] == r[j];
      }
      InsertByIdSorted(s[0], r);
    }
  }

  /** The sort yields the same entries, by strictly increasing id. */
  lemma SortByIdProperties(s: seq<PortClaim>)
    requires IdsUnique(s)
    ensures SortedIds(SortById(s))
    ensures multiset(SortById(s)) == multiset(s)
    ensures forall y :: y in SortById(s) <==> y in s
  {
    SortByIdMembers(s);
    SortByIdSortedIds(s);
  }

  /** Sorting a list already in id order leaves it as it is. */
  lemma {:induction false} SortByIdSorted(s: seq<PortClaim>)
    requires SortedIds(s)
    ensures SortById(s) == s
  {
    if |s| > 0 {
      SortByIdSorted(s[1..]);
      assert s == [s[0]] + s[1..];
    }
  }

  /** Keys stay pairwise distinct under a reordering that keeps the elements. */
  lemma {:induction false} InsertByIdKeys(x: PortClaim, s: seq<PortClaim>)
    requires KeysUnique(s) && Key(x) !in KeysOf(s)
    ensures KeysUnique(InsertById(x, s))
    ensures forall y :: y in InsertById(x, s) <==> y in s || y == x
  {
    if |s| > 0 && x.requestId > s[0].requestId {
      var t := s[1..];
      assert KeysOf(t) <= KeysOf(s) by {
        forall c | c in t ensures c in s { }
      }
      InsertByIdKeys(x, t);
      var r := InsertById(x, t);
      assert s == [s[0]] + t;
      forall j | 0 <= j < |r| ensures Key(s[0]) != Key(r[j]) {
        assert r[j] in t || r[j] == x;
        if r[j] in t {
          var m :| 0 <= m < |t| && t[m] == r[j];
          assert s[m + 1] == r[j];
        }
      }
    }
  }

  lemma {:induction false} SortByIdKeys(s: seq<PortClaim>)
    requires KeysUnique(s)
    ensures KeysUnique(SortById(s))
    ensures forall y :: y in SortById(s) <==> y in s
  {
    if |s| > 0 {
      var t := s[1..];
      SortByIdKeys(t);
      assert Key(s[0]) !in KeysOf(t) by {
        forall c | c in t ensures Key(c) != Key(s[0]) {
          var j :| 0 <= j < |t| && t[j] == c;
          assert s[j + 1] == c;
        }
      }
      assert KeysOf(SortById(t)) == KeysOf(t);
      InsertByIdKeys(s[0], SortById(t));
      assert s == [s[0]] + t;
    }
  }

  // ---------------------------------------------------------------------------------
  // What `set_target` and `ack_request` keep true of the two lists

  /** `current` on its own: ids below the counter's next value, sorted by id (what its
      binary searches need), at most one removal in progress per key. */
  ghost predicate CurrentOk(cur: seq<PortClaim>, n: nat) {
    IdsBelow(cur, n) && SortedIds(cur) && RemovingKeysUnique(cur)
  }

  /** `target` on its own: ids below the counter's next value, one entry per id and per key. */
  ghost predicate TargetOk(tgt: seq<PortClaim>, n: nat) {
    IdsBelow(tgt, n) && IdsUnique(tgt) && KeysUnique(tgt)
  }

  /** An entry of `current` and one of `target` with the same request id are the same
      claim, and neither is being removed. */
  ghost predicate TwinsAgree(cur: seq<PortClaim>, tgt: seq<PortClaim>) {
    forall c, t :: c in cur && t in tgt && c.requestId == t.requestId ==>
      Key(c) == Key(t) && !c.shouldRemove && !t.shouldRemove
  }

  /** A live acknowledged claim is still wanted under the same request id. */
  ghost predicate LiveHaveTwins(cur: seq<PortClaim>, tgt: seq<PortClaim>) {
    forall c :: c in cur && !c.shouldRemove ==> c.requestId in IdsOf(tgt)
  }

  /** A target nobody has acknowledged is not in `current`. */
  ghost predicate UnackedUntwinned(cur: seq<PortClaim>, tgt: seq<PortClaim>) {
    forall t :: t in tgt && t.lastAck == 0 ==> t.requestId !in IdsOf(cur)
  }

  /** A claim being removed from the server is no longer wanted at all. */
  ghost predicate RemovingKeysReleased(cur: seq<PortClaim>, tgt: seq<PortClaim>) {
    forall c :: c in cur && c.shouldRemove ==> Key(c) !in KeysOf(tgt)
  }

  ghost predicate Linked(cur: seq<PortClaim>, tgt: seq<PortClaim>) {
    TwinsAgree(cur, tgt) && LiveHaveTwins(cur, tgt) && UnackedUntwinned(cur, tgt) && RemovingKeysReleased(cur, tgt)
  }

  /** Everything but the order of `target`. */
  ghost predicate Core(cur: seq<PortClaim>, tgt: seq<PortClaim>, n: nat) {
    CurrentOk(cur, n) && TargetOk(tgt, n) && Linked(cur, tgt)
  }

  lemma SortedUnique(s: seq<PortClaim>)
    requires SortedIds(s)
    ensures IdsUnique(s)
  {
  }

  lemma IdsOfRemoveAt(s: seq<PortClaim>, i: nat)
    requires i < |s| && IdsUnique(s)
    ensures IdsOf(RemoveAt(s, i)) == IdsOf(s) - {s[i].requestId}
  {
    RemoveAtMembers(s, i);
    var r := RemoveAt(s, i);
    forall c | c in r ensures c.requestId != s[i].requestId {
      var j :| 0 <= j < |r| && r[j] == c;
      if j < i { assert r[j] == s[j]; } else { assert r[j] == s[j + 1]; }
    }
  }

  lemma KeysOfRemoveAt(s: seq<PortClaim>, i: nat)
    requires i < |s| && KeysUnique(s)
    ensures KeysOf(RemoveAt(s, i)) == KeysOf(s) - {Key(s[i])}
  {
    RemoveAtMembers(s, i);
    var r := RemoveAt(s, i);
    forall c | c in r ensures Key(c) != Key(s[i]) {
      var j :| 0 <= j < |r| && r[j] == c;
      if j < i { assert r[j] == s[j]; } else { assert r[j] == s[j + 1]; }
    }
  }

  lemma UpdateMembers(s: seq<PortClaim>, i: nat, v: PortClaim)
    requires i < |s|
    ensures forall y :: y in s[i := v] ==> y == v || y in RemoveAt(s, i)
    ensures forall y :: y in RemoveAt(s, i) ==> y in s[i := v]
    ensures v in s[i := v]
  {
    var r := s[i := v];
    assert r[i] == v;
    RemoveAtMembers(s, i);
    forall y | y in r ensures y == v || y in RemoveAt(s, i) {
      var j :| 0 <= j < |r| && r[j] == y;
      if j != i { assert s[j] == y; }
    }
    forall y | y in RemoveAt(s, i) ensures y in r {
      var j :| 0 <= j < |s| - 1 && RemoveAt(s, i)[j] == y;
      if j < i { assert r[j] == y; } else { assert r[j + 1] == y; }
    }
  }

  // -- `current` alone

  lemma CurrentRemoveAt(s: seq<PortClaim>, i: nat, n: nat)
    requires i < |s| && CurrentOk(s, n)
    ensures CurrentOk(RemoveAt(s, i), n)
  {
    RemoveAtMembers(s, i);
  }

  /** Replacing an entry by a live one with the same id. */
  lemma CurrentUpdate(s: seq<PortClaim>, i: nat, v: PortClaim, n: nat)
    requires i < |s| && CurrentOk(s, n) && v.requestId == s[i].requestId && !v.shouldRemove
    ensures CurrentOk(s[i := v], n)
    ensures IdsOf(s[i := v]) == IdsOf(s)
  {
    UpdateMembers(s, i, v);
    RemoveAtMembers(s, i);
    assert s[i] in s;
    forall id | id in IdsOf(s) ensures id in IdsOf(s[i := v]) {
      var y :| y in s && y.requestId == id;
      if y.requestId != v.requestId {
        var j :| 0 <= j < |s| && s[j] == y;
        assert j != i && s[j] in RemoveAt(s, i);
      }
    }
  }

  /** Inserting a live entry where the binary search said it goes. */
  lemma CurrentInsert(s: seq<PortClaim>, pos: nat, v: PortClaim, n: nat)
    requires pos <= |s| && CurrentOk(s, n) && v.requestId < n && !v.shouldRemove
    requires forall j :: 0 <= j < pos ==> s[j].requestId < v.requestId
    requires forall j :: pos <= j < |s| ==> s[j].requestId > v.requestId
    ensures CurrentOk(InsertAt(s, pos, v), n)
    ensures IdsOf(InsertAt(s, pos, v)) == IdsOf(s) + {v.requestId}
    ensures forall y :: y in InsertAt(s, pos, v) <==> y in s || y == v
  {
    var c := InsertAt(s, pos, v);
    InsertAtMembers(s, pos, v);
    forall j, k | 0 <= j < k < |c| ensures c[j].requestId < c[k].requestId {
      if j < pos && k > pos { assert c[j] == s[j] && c[k] == s[k - 1]; }
    }
    forall j, k | 0 <= j < k < |c| && c[j].shouldRemove && c[k].shouldRemove ensures Key(c[j]) != Key(c[k]) {
      var j' := if j < pos then j else j - 1;
      var k' := if k < pos then k else k - 1;
      assert c[j] == s[j'] && c[k] == s[k'];
    }
  }

  /** `set_target` on an acknowledged target that left the config, in its corrected form:
      the `current` entry with its id is taken out and put back at the end, flagged under
      the fresh id `n`. */
  function FlagToEnd(cur: seq<PortClaim>, pos: nat, n: nat): (r: seq<PortClaim>)
    requires pos < |cur|
    ensures |r| == |cur| && r[|r| - 1] == Flagged(cur[pos], n)
  {
    RemoveAt(cur, pos) + [Flagged(cur[pos], n)]
  }

  lemma CurrentFlagToEnd(cur: seq<PortClaim>, pos: nat, n: nat)
    requires pos < |cur| && CurrentOk(cur, n)
    requires forall d :: d in cur && d.shouldRemove ==> Key(d) != Key(cur[pos])
    ensures CurrentOk(FlagToEnd(cur, pos, n), n + 1)
    ensures forall y :: y in FlagToEnd(cur, pos, n) <==> y in RemoveAt(cur, pos) || y == Flagged(cur[pos], n)
    ensures IdsOf(FlagToEnd(cur, pos, n)) == IdsOf(cur) - {cur[pos].requestId} + {n}
  {
    var rest := RemoveAt(cur, pos);
    var r := FlagToEnd(cur, pos, n);
    SortedUnique(cur);
    RemoveAtMembers(cur, pos);
    IdsOfRemoveAt(cur, pos);
    assert r == rest + [Flagged(cur[pos], n)];
    assert forall y :: y in r <==> y in rest || y == Flagged(cur[pos], n);
    forall i, j | 0 <= i < j < |r| ensures r[i].requestId < r[j].requestId {
      if j == |r| - 1 {
        assert r[i] in cur;
      } else {
        assert r[i] == rest[i] && r[j] == rest[j];
      }
    }
    forall i, j | 0 <= i < j < |r| && r[i].shouldRemove && r[j].shouldRemove ensures Key(r[i]) != Key(r[j]) {
      if j == |r| - 1 {
        assert r[i] == rest[i] && rest[i] in cur;
      } else {
        assert r[i] == rest[i] && r[j] == rest[j];
      }
    }
  }

  // -- `target` alone

  lemma TargetRemoveAt(s: seq<PortClaim>, j: nat, n: nat)
    requires j < |s| && TargetOk(s, n)
    ensures TargetOk(RemoveAt(s, j), n)
    ensures SortedIds(s) ==> SortedIds(RemoveAt(s, j))
  {
    RemoveAtMembers(s, j);
  }

  /** Replacing an entry by one with the same key and either the same id or a fresh one. */
  lemma TargetUpdate(s: seq<PortClaim>, i: nat, v: PortClaim, n: nat, n': nat)
    requires i < |s| && TargetOk(s, n) && n <= n' && v.requestId < n' && Key(v) == Key(s[i])
    requires v.requestId == s[i].requestId || v.requestId >= n
    ensures TargetOk(s[i := v], n')
    ensures KeysOf(s[i := v]) == KeysOf(s)
    ensures IdsOf(s[i := v]) == IdsOf(s) - {s[i].requestId} + {v.requestId}
    ensures SortedIds(s) && v.requestId == s[i].requestId ==> SortedIds(s[i := v])
  {
    var r := s[i := v];
    UpdateMembers(s, i, v);
    IdsOfRemoveAt(s, i);
    KeysOfRemoveAt(s, i);
    assert s[i] in s;
    assert KeysOf(r) == KeysOf(RemoveAt(s, i)) + {Key(v)} by {
      forall key | key in KeysOf(r) ensures key in KeysOf(RemoveAt(s, i)) + {Key(v)} {
        var c :| c in r && Key(c) == key;
      }
      forall key | key in KeysOf(RemoveAt(s, i)) + {Key(v)} ensures key in KeysOf(r) {
        if key != Key(v) {
          var c :| c in RemoveAt(s, i) && Key(c) == key;
        }
      }
    }
    forall j, k | 0 <= j < k < |r| ensures Key(r[j]) != Key(r[k]) && r[j].requestId != r[k].requestId {
      if j != i && k != i {
        assert r[j] == s[j] && r[k] == s[k];
      } else if j == i {
        assert r[k] == s[k] && s[k] in s;
      } else {
        assert r[j] == s[j] && s[j] in s;
      }
    }
  }

  lemma TargetPush(s: seq<PortClaim>, k: ClaimKey, n: nat)
    requires TargetOk(s, n) && k !in KeysOf(s)
    ensures TargetOk(s + [NewClaim(n, k)], n + 1)
    ensures SortedIds(s) ==> SortedIds(s + [NewClaim(n, k)])
    ensures IdsOf(s + [NewClaim(n, k)]) == IdsOf(s) + {n}
    ensures KeysOf(s + [NewClaim(n, k)]) == KeysOf(s) + {k}
  {
    var x := NewClaim(n, k);
    var r := s + [x];
    assert forall y :: y in r <==> y in s || y == x;
    forall i, j | 0 <= i < j < |r| ensures Key(r[i]) != Key(r[j]) && r[i].requestId != r[j].requestId {
      if j == |s| {
        assert r[i] in s;
      }
    }
  }

  // -- the links between the two

  lemma LinkedRemoveCurrent(cur: seq<PortClaim>, i: nat, tgt: seq<PortClaim>)
    requires i < |cur| && Linked(cur, tgt)
    ensures Linked(RemoveAt(cur, i), tgt)
  {
    RemoveAtMembers(cur, i);
    assert IdsOf(RemoveAt(cur, i)) <= IdsOf(cur);
  }

  lemma LinkedRemoveTarget(cur: seq<PortClaim>, tgt: seq<PortClaim>, j: nat)
    requires j < |tgt| && Linked(cur, tgt) && IdsUnique(tgt) && KeysUnique(tgt)
    requires tgt[j].shouldRemove || tgt[j].requestId !in IdsOf(cur)
    ensures Linked(cur, RemoveAt(tgt, j))
  {
    RemoveAtMembers(tgt, j);
    IdsOfRemoveAt(tgt, j);
    KeysOfRemoveAt(tgt, j);
    assert tgt[j] in tgt;
    forall c | c in cur && !c.shouldRemove ensures c.requestId in IdsOf(RemoveAt(tgt, j)) {
      assert c.requestId != tgt[j].requestId;
    }
  }

  lemma LinkedPushTarget(cur: seq<PortClaim>, tgt: seq<PortClaim>, k: ClaimKey, n: nat)
    requires Linked(cur, tgt) && IdsBelow(cur, n)
    requires forall c :: c in cur && c.shouldRemove ==> Key(c) != k
    requires IdsOf(tgt + [NewClaim(n, k)]) == IdsOf(tgt) + {n}
    requires KeysOf(tgt + [NewClaim(n, k)]) == KeysOf(tgt) + {k}
    ensures Linked(cur, tgt + [NewClaim(n, k)])
  {
    assert forall y :: y in tgt + [NewClaim(n, k)] <==> y in tgt || y == NewClaim(n, k);
    assert n !in IdsOf(cur);
  }

  /** The never-acknowledged target at `i` flagged under the fresh id `n`. */
  lemma LinkedFlagTarget(cur: seq<PortClaim>, tgt: seq<PortClaim>, i: nat, n: nat)
    requires i < |tgt| && Linked(cur, tgt) && tgt[i].lastAck == 0 && IdsBelow(cur, n)
    requires KeysOf(tgt[i := Flagged(tgt[i], n)]) == KeysOf(tgt)
    requires IdsOf(tgt[i := Flagged(tgt[i], n)]) == IdsOf(tgt) - {tgt[i].requestId} + {n}
    ensures Linked(cur, tgt[i := Flagged(tgt[i], n)])
  {
    var x' := Flagged(tgt[i], n);
    UpdateMembers(tgt, i, x');
    RemoveAtMembers(tgt, i);
    assert tgt[i] in tgt;
    assert tgt[i].requestId !in IdsOf(cur);
    assert n !in IdsOf(cur);
  }

  /** The acknowledged target at `j` dropped and its twin at `pos` flagged to the end. */
  lemma LinkedDropTwinned(cur: seq<PortClaim>, pos: nat, tgt: seq<PortClaim>, j: nat, n: nat)
    requires pos < |cur| && j < |tgt| && cur[pos].requestId == tgt[j].requestId
    requires Linked(cur, tgt) && IdsUnique(tgt) && KeysUnique(tgt) && IdsBelow(tgt, n)
    requires forall y :: y in FlagToEnd(cur, pos, n) <==> y in RemoveAt(cur, pos) || y == Flagged(cur[pos], n)
    requires IdsOf(FlagToEnd(cur, pos, n)) == IdsOf(cur) - {cur[pos].requestId} + {n}
    requires IdsOf(RemoveAt(cur, pos)) == IdsOf(cur) - {cur[pos].requestId}
    ensures Linked(FlagToEnd(cur, pos, n), RemoveAt(tgt, j))
  {
    var t := RemoveAt(tgt, j);
    RemoveAtMembers(tgt, j);
    RemoveAtMembers(cur, pos);
    IdsOfRemoveAt(tgt, j);
    KeysOfRemoveAt(tgt, j);
    assert cur[pos] in cur && tgt[j] in tgt;
    assert n !in IdsOf(tgt);
    forall d | d in RemoveAt(cur, pos) && !d.shouldRemove ensures d.requestId in IdsOf(t) {
      assert d.requestId in IdsOf(RemoveAt(cur, pos));
    }
  }

  lemma LinkedUpdateBoth(cur: seq<PortClaim>, pos: nat, tgt: seq<PortClaim>, i: nat, v: PortClaim)
    requires pos < |cur| && i < |tgt| && Linked(cur, tgt) && IdsUnique(tgt)
    requires v == tgt[i].(lastAck := v.lastAck) && v.lastAck != 0 && !v.shouldRemove
    requires cur[pos].requestId == v.requestId
    requires IdsOf(cur[pos := v]) == IdsOf(cur) && KeysOf(tgt[i := v]) == KeysOf(tgt) && IdsOf(tgt[i := v]) == IdsOf(tgt)
    ensures Linked(cur[pos := v], tgt[i := v])
  {
    UpdateMembers(cur, pos, v);
    UpdateMembers(tgt, i, v);
    RemoveAtMembers(cur, pos);
    RemoveAtMembers(tgt, i);
    IdsOfRemoveAt(tgt, i);
    assert tgt[i] in tgt;
  }

  lemma LinkedInsert(cur: seq<PortClaim>, c: seq<PortClaim>, tgt: seq<PortClaim>, i: nat, v: PortClaim)
    requires i < |tgt| && Linked(cur, tgt) && IdsUnique(tgt)
    requires v == tgt[i].(lastAck := v.lastAck) && v.lastAck != 0 && !v.shouldRemove && v.requestId !in IdsOf(cur)
    requires forall y :: y in c <==> y in cur || y == v
    requires IdsOf(c) == IdsOf(cur) + {v.requestId}
    requires KeysOf(tgt[i := v]) == KeysOf(tgt) && IdsOf(tgt[i := v]) == IdsOf(tgt)
    ensures Linked(c, tgt[i := v])
  {
    UpdateMembers(tgt, i, v);
    RemoveAtMembers(tgt, i);
    IdsOfRemoveAt(tgt, i);
    assert tgt[i] in tgt;
  }

  // -- the steps, whole

  lemma CoreRemoveCurrent(cur: seq<PortClaim>, i: nat, tgt: seq<PortClaim>, n: nat)
    requires Core(cur, tgt, n) && i < |cur|
    ensures Core(RemoveAt(cur, i), tgt, n)
  {
    CurrentRemoveAt(cur, i, n);
    LinkedRemoveCurrent(cur, i, tgt);
  }

  /** Dropping a target that is being removed, or one that nobody acknowledged under its id. */
  lemma CoreRemoveTarget(cur: seq<PortClaim>, tgt: seq<PortClaim>, j: nat, n: nat)
    requires Core(cur, tgt, n) && j < |tgt|
    requires tgt[j].shouldRemove || tgt[j].requestId !in IdsOf(cur)
    ensures Core(cur, RemoveAt(tgt, j), n)
    ensures SortedIds(tgt) ==> SortedIds(RemoveAt(tgt, j))
  {
    TargetRemoveAt(tgt, j, n);
    LinkedRemoveTarget(cur, tgt, j);
  }

  /** A new claim for a key with no target and no removal in progress. */
  lemma CorePushTarget(cur: seq<PortClaim>, tgt: seq<PortClaim>, k: ClaimKey, n: nat)
    requires Core(cur, tgt, n) && k !in KeysOf(tgt)
    requires forall c :: c in cur && c.shouldRemove ==> Key(c) != k
    ensures Core(cur, tgt + [NewClaim(n, k)], n + 1)
    ensures SortedIds(tgt) ==> SortedIds(tgt + [NewClaim(n, k)])
  {
    TargetPush(tgt, k, n);
    LinkedPushTarget(cur, tgt, k, n);
  }

  lemma CoreFlagTarget(cur: seq<PortClaim>, tgt: seq<PortClaim>, i: nat, n: nat)
    requires Core(cur, tgt, n) && i < |tgt| && tgt[i].lastAck == 0
    ensures Core(cur, tgt[i := Flagged(tgt[i], n)], n + 1)
  {
    TargetUpdate(tgt, i, Flagged(tgt[i], n), n, n + 1);
    LinkedFlagTarget(cur, tgt, i, n);
  }

  /** Dropping the acknowledged target at `j` flags its twin in `current`, which is live;
      so the source's `assert!` on that entry holds. */
  lemma CoreDropTwinned(cur: seq<PortClaim>, tgt: seq<PortClaim>, j: nat, n: nat, pos: nat)
    requires Core(cur, tgt, n) && j < |tgt| && pos < |cur| && cur[pos].requestId == tgt[j].requestId
    ensures !cur[pos].shouldRemove && Key(cur[pos]) == Key(tgt[j])
    ensures Core(FlagToEnd(cur, pos, n), RemoveAt(tgt, j), n + 1)
    ensures IdsOf(FlagToEnd(cur, pos, n)) == IdsOf(cur) - {tgt[j].requestId} + {n}
  {
    assert cur[pos] in cur && tgt[j] in tgt;
    SortedUnique(cur);
    IdsOfRemoveAt(cur, pos);
    CurrentFlagToEnd(cur, pos, n);
    TargetRemoveAt(tgt, j, n);
    assert TargetOk(RemoveAt(tgt, j), n + 1);
    LinkedDropTwinned(cur, pos, tgt, j, n);
  }

  /** `ack_request` on a live target already in `current`: both copies take the ack time,
      and stay equal. */
  lemma CoreAckRefresh(cur: seq<PortClaim>, tgt: seq<PortClaim>, i: nat, pos: nat, now: u64, n: nat)
    requires Core(cur, tgt, n) && i < |tgt| && pos < |cur| && now != 0
    requires !tgt[i].shouldRemove && cur[pos].requestId == tgt[i].requestId
    ensures cur[pos].(lastAck := now) == tgt[i].(lastAck := now)
    ensures var v := tgt[i].(lastAck := now); Core(cur[pos := v], tgt[i := v], n)
    ensures SortedIds(tgt) ==> SortedIds(tgt[i := tgt[i].(lastAck := now)])
  {
    var v := tgt[i].(lastAck := now);
    assert cur[pos] in cur && tgt[i] in tgt;
    CurrentUpdate(cur, pos, v, n);
    TargetUpdate(tgt, i, v, n, n);
    LinkedUpdateBoth(cur, pos, tgt, i, v);
  }

  /** `ack_request` on a live target not yet in `current`: it goes in at the place the
      binary search reported. */
  lemma CoreAckInsert(cur: seq<PortClaim>, tgt: seq<PortClaim>, i: nat, pos: nat, now: u64, n: nat)
    requires Core(cur, tgt, n) && i < |tgt| && pos <= |cur| && now != 0
    requires !tgt[i].shouldRemove
    requires forall j :: 0 <= j < pos ==> cur[j].requestId < tgt[i].requestId
    requires forall j :: pos <= j < |cur| ==> cur[j].requestId > tgt[i].requestId
    ensures var v := tgt[i].(lastAck := now); Core(InsertAt(cur, pos, v), tgt[i := v], n)
    ensures SortedIds(tgt) ==> SortedIds(tgt[i := tgt[i].(lastAck := now)])
  {
    var v := tgt[i].(lastAck := now);
    assert tgt[i] in tgt;
    assert v.requestId !in IdsOf(cur);
    CurrentInsert(cur, pos, v, n);
    TargetUpdate(tgt, i, v, n, n);
    LinkedInsert(cur, InsertAt(cur, pos, v), tgt, i, v);
  }

  // ---------------------------------------------------------------------------------
  // The scans of `set_target` and `ack_request`

  /** `for i in 0..len`, stopping at the first entry for `k`. */
  method FindKey(s: seq<PortClaim>, k: ClaimKey) returns (r: Option<nat>)
    ensures r.Some? ==> r.value < |s| && Key(s[r.value]) == k && forall j :: 0 <= j < r.value ==> Key(s[j]) != k
    ensures r.None? ==> forall j :: 0 <= j < |s| ==> Key(s[j]) != k
  {
    var i := 0;
    while i < |s|
      invariant i <= |s|
      invariant forall j :: 0 <= j < i ==> Key(s[j]) != k
    {
      if Key(s[i]) == k {
        return Some(i);
      }
      i := i + 1;
    }
    return None;
  }

  /** `for i in 0..len`, stopping at the first entry with request id `id`. */
  method FindId(s: seq<PortClaim>, id: nat) returns (r: Option<nat>)
    ensures r.Some? ==> r.value < |s| && s[r.value].requestId == id && forall j :: 0 <= j < r.value ==> s[j].requestId != id
    ensures r.None? ==> id !in IdsOf(s)
  {
    var i := 0;
    while i < |s|
      invariant i <= |s|
      invariant forall j :: 0 <= j < i ==> s[j].requestId != id
    {
      if s[i].requestId == id {
        return Some(i);
      }
      i := i + 1;
    }
    return None;
  }

  /** The loop over `config.mappings` that looks for an entry's mapping. */
  method IsMapped(mappings: seq<ClaimKey>, k: ClaimKey) returns (found: bool)
    ensures found <==> k in mappings
  {
    found := false;
    var i := 0;
    while i < |mappings|
      invariant i <= |mappings|
      invariant k !in mappings[..i]
    {
      if mappings[i] == k {
        return true;
      }
      i := i + 1;
    }
    assert mappings[..i] == mappings;
  }

  /** With the lists linked, a key with a target has no removal in progress. */
  lemma NoRemovalOfWanted(cur: seq<PortClaim>, tgt: seq<PortClaim>, k: ClaimKey)
    requires RemovingKeysReleased(cur, tgt) && k in KeysOf(tgt)
    ensures forall c :: c in cur && c.shouldRemove ==> Key(c) != k
  {
  }

  /** After the scan of `current` for `k`: the first entry for `k`, when it is a removal in
      progress, is gone, and no removal for `k` is left. */
  lemma ScanCurrent(cur: seq<PortClaim>, tgt: seq<PortClaim>, n: nat, k: ClaimKey, i: Option<nat>)
    requires Core(cur, tgt, n)
    requires i.Some? ==> i.value < |cur| && Key(cur[i.value]) == k
    requires i.None? ==> forall j :: 0 <= j < |cur| ==> Key(cur[j]) != k
    ensures var cur' := if i.Some? && cur[i.value].shouldRemove then RemoveAt(cur, i.value) else cur;
      Core(cur', tgt, n) && forall c :: c in cur' && c.shouldRemove ==> Key(c) != k
  {
    if i.Some? {
      var c := cur[i.value];
      assert c in cur;
      if c.shouldRemove {
        CoreRemoveCurrent(cur, i.value, tgt, n);
        RemoveAtMembers(cur, i.value);
        var r := RemoveAt(cur, i.value);
        forall d | d in r && d.shouldRemove ensures Key(d) != k {
          var j :| 0 <= j < |r| && r[j] == d;
          var j' := if j < i.value then j else j + 1;
          assert cur[j'] == d;
        }
      } else {
        var t :| t in tgt && t.requestId == c.requestId;
        assert Key(t) in KeysOf(tgt);
        NoRemovalOfWanted(cur, tgt, k);
      }
    }
  }

  /** One pass of `'mapping_loop` for the mapping `k`: a removal of `k` in progress in
      `current` is dropped; a live target for `k` is kept; otherwise any removing target for
      `k` is replaced by a new claim under the next request id. */
  method MatchMapping(cur: seq<PortClaim>, tgt: seq<PortClaim>, k: ClaimKey, n: nat)
    returns (cur': seq<PortClaim>, tgt': seq<PortClaim>, n': nat)
    requires Core(cur, tgt, n) && SortedIds(tgt)
    ensures Core(cur', tgt', n') && SortedIds(tgt') && n <= n' <= n + 1
    ensures HasLive(tgt', k)
    ensures forall m :: HasLive(tgt, m) ==> HasLive(tgt', m)
    ensures forall x :: x in tgt && Key(x) != k ==> x in tgt'
    ensures forall x :: x in tgt' ==> x in tgt || Key(x) == k
    ensures HasLive(tgt, k) ==> cur' == cur && tgt' == tgt && n' == n
  {
    cur', tgt', n' := cur, tgt, n;
    var i := FindKey(cur, k);
    ScanCurrent(cur, tgt, n, k, i);
    if i.Some? && cur[i.value].shouldRemove {
      cur' := RemoveAt(cur, i.value);
    }
    if HasLive(tgt, k) {
      HasLiveUnchanged(cur, tgt, n, k, i);
    }
    var j := FindKey(tgt, k);
    if j.Some? {
      assert tgt[j.value] in tgt;
      if !tgt[j.value].shouldRemove {
        return;
      }
      tgt' := RemoveAt(tgt, j.value);
      DropRemovingTwin(cur', tgt, j.value, n, k, tgt');
    } else {
      assert k !in KeysOf(tgt);
    }
    var x := NewClaim(n, k);
    ghost var before := tgt';
    tgt' := tgt' + [x];
    n' := n + 1;
    PushNewTarget(cur', before, k, n, tgt');
  }

  /** Dropping the target of `k` that is being removed keeps the invariant and every other
      target. */
  lemma DropRemovingTwin(cur: seq<PortClaim>, tgt: seq<PortClaim>, j: nat, n: nat, k: ClaimKey, tgt': seq<PortClaim>)
    requires Core(cur, tgt, n) && SortedIds(tgt) && j < |tgt|
    requires Key(tgt[j]) == k && tgt[j].shouldRemove && tgt' == RemoveAt(tgt, j)
    ensures Core(cur, tgt', n) && SortedIds(tgt') && k !in KeysOf(tgt')
    ensures forall m :: HasLive(tgt, m) ==> HasLive(tgt', m)
    ensures forall x :: x in tgt && Key(x) != k ==> x in tgt'
    ensures forall x :: x in tgt' ==> x in tgt
  {
    CoreRemoveTarget(cur, tgt, j, n);
    KeysOfRemoveAt(tgt, j);
    RemoveAtMembers(tgt, j);
    forall m | HasLive(tgt, m) ensures HasLive(tgt', m) {
      var c :| c in tgt && !c.shouldRemove && Key(c) == m;
      var idx :| 0 <= idx < |tgt| && tgt[idx] == c;
      assert c in tgt';
    }
  }

  /** Appending a new claim for a key with no target keeps the invariant under the next id,
      and leaves the key live. */
  lemma PushNewTarget(cur: seq<PortClaim>, tgt: seq<PortClaim>, k: ClaimKey, n: nat, tgt': seq<PortClaim>)
    requires Core(cur, tgt, n) && SortedIds(tgt) && k !in KeysOf(tgt)
    requires forall c :: c in cur && c.shouldRemove ==> Key(c) != k
    requires tgt' == tgt + [NewClaim(n, k)]
    ensures Core(cur, tgt', n + 1) && SortedIds(tgt') && HasLive(tgt', k)
    ensures forall m :: HasLive(tgt, m) ==> HasLive(tgt', m)
    ensures forall y :: y in tgt' <==> y in tgt || y == NewClaim(n, k)
  {
    CorePushTarget(cur, tgt, k, n);
    assert NewClaim(n, k) in tgt';
  }

  /** When `k` already has a live target, the scan of `current` removes nothing. */
  lemma HasLiveUnchanged(cur: seq<PortClaim>, tgt: seq<PortClaim>, n: nat, k: ClaimKey, i: Option<nat>)
    requires Core(cur, tgt, n) && HasLive(tgt, k)
    requires i.Some? ==> i.value < |cur| && Key(cur[i.value]) == k
    ensures i.Some? ==> !cur[i.value].shouldRemove
  {
    var t :| t in tgt && !t.shouldRemove && Key(t) == k;
    assert k in KeysOf(tgt);
    if i.Some? {
      assert cur[i.value] in cur;
    }
  }

  /** What the second half of `set_target` keeps in `target`: entries still in the config,
      and never-acknowledged ones on their way out. */
  ghost predicate Retained(x: PortClaim, mappings: seq<ClaimKey>) {
    Key(x) in mappings || (x.lastAck == 0 && x.shouldRemove)
  }

  /** An entry being dropped from `target`: its claim left the config, it was acknowledged,
      and no `current` entry has its id any more. */
  ghost predicate DroppedEntry(d: PortClaim, mappings: seq<ClaimKey>, cur: seq<PortClaim>, n: nat) {
    Key(d) !in mappings && d.lastAck != 0 && d.requestId !in IdsOf(cur) && d.requestId < n
  }

  /** `s` holds the removal, still unacknowledged, of the never-acknowledged target `t`:
      `t` itself if it was already being removed, else a copy under a request id from `lo` on. */
  ghost predicate RemovalKept(s: seq<PortClaim>, t: PortClaim, lo: nat) {
    exists x :: x in s && Key(x) == Key(t) && x.shouldRemove && x.lastAck == 0 &&
      (if t.shouldRemove then x == t else lo <= x.requestId)
  }

  lemma HasLiveAfterChange(s: seq<PortClaim>, i: nat, v: PortClaim, m: ClaimKey)
    requires i < |s| && HasLive(s, m) && Key(s[i]) != m
    ensures HasLive(s[i := v], m) && HasLive(RemoveAt(s, i), m)
  {
    var c :| c in s && !c.shouldRemove && Key(c) == m;
    var j :| 0 <= j < |s| && s[j] == c;
    RemoveAtMembers(s, i);
    assert s[i := v][j] == c;
    assert c in RemoveAt(s, i);
  }

  lemma RemovalKeptMore(s: seq<PortClaim>, s': seq<PortClaim>, t: PortClaim, lo: nat, lo': nat)
    requires RemovalKept(s, t, lo) && lo' <= lo && forall y :: y in s ==> y in s'
    ensures RemovalKept(s', t, lo')
  {
    var x :| x in s && Key(x) == Key(t) && x.shouldRemove && x.lastAck == 0 &&
      (if t.shouldRemove then x == t else lo <= x.requestId);
    assert x in s';
  }

  // -- the state of the compaction loop: `t[..write]` is kept, `t[write..k]` is being
  //    dropped, `t[k..]` is still unvisited, and `View` is what the rest of the model sees

  function View(t: seq<PortClaim>, write: nat, k: nat): seq<PortClaim>
    requires write <= k <= |t|
  {
    t[..write] + t[k..]
  }

  ghost predicate KeptLive(tgt: seq<PortClaim>, mappings: seq<ClaimKey>, v: seq<PortClaim>) {
    forall m :: m in mappings && HasLive(tgt, m) ==> HasLive(v, m)
  }

  ghost predicate UnackedKept(tgt: seq<PortClaim>, k: nat, mappings: seq<ClaimKey>, kept: seq<PortClaim>, n: nat)
    requires k <= |tgt|
  {
    forall j :: 0 <= j < k && Key(tgt[j]) !in mappings && tgt[j].lastAck == 0 ==> RemovalKept(kept, tgt[j], n)
  }

  ghost predicate AckedGone(tgt: seq<PortClaim>, k: nat, mappings: seq<ClaimKey>, v: seq<PortClaim>)
    requires k <= |tgt|
  {
    forall j :: 0 <= j < k && Key(tgt[j]) !in mappings && tgt[j].lastAck != 0 ==> Key(tgt[j]) !in KeysOf(v)
  }

  ghost predicate Compacting(tgt: seq<PortClaim>, mappings: seq<ClaimKey>, n: nat,
                             cur: seq<PortClaim>, t: seq<PortClaim>, write: nat, k: nat, n': nat) {
    |t| == |tgt| && write <= k <= |t| && t[k..] == tgt[k..] && n <= n' && IdsBelow(tgt, n) &&
    Core(cur, View(t, write, k), n') &&
    (forall j :: write <= j < k ==> DroppedEntry(t[j], mappings, cur, n)) &&
    (forall x :: x in t[..write] ==> Retained(x, mappings)) &&
    KeptLive(tgt, mappings, View(t, write, k)) &&
    UnackedKept(tgt, k, mappings, t[..write], n) &&
    AckedGone(tgt, k, mappings, View(t, write, k))
  }

  /** What keeping the visited entry, already updated in place in `t`, does to the array:
      it is swapped down to `write`. */
  function KeepAt(t: seq<PortClaim>, write: nat, k: nat): (r: seq<PortClaim>)
    requires write <= k < |t|
    ensures |r| == |t| && r[..write] == t[..write] && r[write] == t[k] && r[k + 1..] == t[k + 1..]
    ensures forall j :: write < j < k ==> r[j] == t[j]
    ensures write < k ==> r[k] == t[write]
  {
    if write == k then t else Swap(t, write, k)
  }

  lemma CompactingStart(tgt: seq<PortClaim>, mappings: seq<ClaimKey>, cur: seq<PortClaim>, n: nat)
    requires Core(cur, tgt, n)
    ensures Compacting(tgt, mappings, n, cur, tgt, 0, 0, n)
  {
    assert View(tgt, 0, 0) == tgt;
  }

  lemma KeepLive(tgt: seq<PortClaim>, mappings: seq<ClaimKey>, v: seq<PortClaim>, i: nat, x: PortClaim)
    requires KeptLive(tgt, mappings, v) && i < |v| && (x == v[i] || Key(v[i]) !in mappings)
    ensures KeptLive(tgt, mappings, v[i := x])
  {
    forall m | m in mappings && HasLive(tgt, m) ensures HasLive(v[i := x], m) {
      if x == v[i] {
        assert v[i := x] == v;
      } else {
        HasLiveAfterChange(v, i, x, m);
      }
    }
  }

  lemma KeepKeys(tgt: seq<PortClaim>, k: nat, mappings: seq<ClaimKey>, v: seq<PortClaim>, i: nat, x: PortClaim)
    requires k < |tgt| && i < |v| && KeysUnique(v) && KeysUnique(v[i := x]) && Key(x) == Key(v[i])
    requires AckedGone(tgt, k, mappings, v) && v[i] == tgt[k]
    requires Key(tgt[k]) in mappings || tgt[k].lastAck == 0
    ensures AckedGone(tgt, k + 1, mappings, v[i := x])
  {
    KeysOfRemoveAt(v, i);
    KeysOfRemoveAt(v[i := x], i);
    assert RemoveAt(v, i) == RemoveAt(v[i := x], i);
  }

  lemma KeepUnacked(tgt: seq<PortClaim>, k: nat, mappings: seq<ClaimKey>, kept: seq<PortClaim>,
                    x: PortClaim, n: nat)
    requires k < |tgt| && UnackedKept(tgt, k, mappings, kept, n) && Key(x) == Key(tgt[k])
    requires Key(tgt[k]) !in mappings && tgt[k].lastAck == 0 ==>
      x.shouldRemove && x.lastAck == 0 && if tgt[k].shouldRemove then x == tgt[k] else n <= x.requestId
    ensures UnackedKept(tgt, k + 1, mappings, kept + [x], n)
  {
    forall j | 0 <= j < k + 1 && Key(tgt[j]) !in mappings && tgt[j].lastAck == 0
      ensures RemovalKept(kept + [x], tgt[j], n)
    {
      if j < k {
        RemovalKeptMore(kept, kept + [x], tgt[j], n, n);
      } else {
        assert x in kept + [x];
      }
    }
  }

  lemma KeepRegion(t: seq<PortClaim>, write: nat, k: nat, mappings: seq<ClaimKey>, cur: seq<PortClaim>, n: nat)
    requires write <= k < |t| && forall j :: write <= j < k ==> DroppedEntry(t[j], mappings, cur, n)
    ensures forall j :: write + 1 <= j < k + 1 ==> DroppedEntry(KeepAt(t, write, k)[j], mappings, cur, n)
  {
  }

  lemma ViewAfterKeep(t: seq<PortClaim>, t1: seq<PortClaim>, write: nat, k: nat)
    requires write <= k < |t| == |t1| && t1[..k] == t[..k] && t1[k + 1..] == t[k + 1..]
    ensures KeepAt(t1, write, k)[..write + 1] == t[..write] + [t1[k]]
    ensures View(KeepAt(t1, write, k), write + 1, k + 1) == View(t, write, k)[write := t1[k]]
  {
    var r := KeepAt(t1, write, k);
    var w := t[..write] + [t1[k]] + t[k + 1..];
    assert r[..write + 1] == t[..write] + [t1[k]] by {
      assert r[..write] == t1[..write] == t[..write];
    }
    assert View(r, write + 1, k + 1) == w;
    assert View(t, write, k)[write := t1[k]] == w;
  }

  /** Keeping the visited entry `t[k]` as it is: it is still configured, or already on
      its way out. */
  lemma KeepUnchanged(tgt: seq<PortClaim>, mappings: seq<ClaimKey>, n: nat, cur: seq<PortClaim>,
                      t: seq<PortClaim>, write: nat, k: nat, n': nat, t1: seq<PortClaim>, t': seq<PortClaim>)
    requires Compacting(tgt, mappings, n, cur, t, write, k, n') && k < |t|
    requires t1 == t && Retained(t[k], mappings)
    requires write <= k < |t1| && t' == KeepAt(t1, write, k)
    ensures Compacting(tgt, mappings, n, cur, t', write + 1, k + 1, n')
  {
    var v := View(t, write, k);
    var x := t1[k];
    assert v[write] == t[k] == tgt[k];
    assert t1[..k] == t[..k] && t1[k + 1..] == t[k + 1..];
    assert v[write := x] == v;
    ViewAfterKeep(t, t1, write, k);
    KeepLive(tgt, mappings, v, write, x);
    KeepKeys(tgt, k, mappings, v, write, x);
    KeepUnacked(tgt, k, mappings, t[..write], x, n);
    assert forall j :: write <= j < k ==> t1[j] == t[j];
    KeepRegion(t1, write, k, mappings, cur, n);
  }

  /** Keeping the never-acknowledged entry `t[k]`, which left the config, flagged for removal
      under the fresh id `n'`. */
  lemma KeepFlagged(tgt: seq<PortClaim>, mappings: seq<ClaimKey>, n: nat, cur: seq<PortClaim>,
                    t: seq<PortClaim>, write: nat, k: nat, n': nat, t1: seq<PortClaim>, t': seq<PortClaim>, n'': nat)
    requires Compacting(tgt, mappings, n, cur, t, write, k, n') && k < |t|
    requires Key(t[k]) !in mappings && t[k].lastAck == 0 && !t[k].shouldRemove
    requires t1 == t[k := Flagged(t[k], n')] && n'' == n' + 1
    requires write <= k < |t1| && t' == KeepAt(t1, write, k)
    ensures Compacting(tgt, mappings, n, cur, t', write + 1, k + 1, n'')
  {
    var v := View(t, write, k);
    var x := t1[k];
    assert v[write] == t[k] == tgt[k];
    assert t1[..k] == t[..k] && t1[k + 1..] == t[k + 1..];
    CoreFlagTarget(cur, v, write, n');
    ViewAfterKeep(t, t1, write, k);
    KeepLive(tgt, mappings, v, write, x);
    KeepKeys(tgt, k, mappings, v, write, x);
    KeepUnacked(tgt, k, mappings, t[..write], x, n);
    assert forall j :: write <= j < k ==> t1[j] == t[j];
    KeepRegion(t1, write, k, mappings, cur, n);
  }

  lemma ViewAfterDrop(t: seq<PortClaim>, write: nat, k: nat)
    requires write <= k < |t|
    ensures View(t, write, k)[write] == t[k]
    ensures View(t, write, k + 1) == RemoveAt(View(t, write, k), write)
  {
  }

  lemma DropLive(tgt: seq<PortClaim>, mappings: seq<ClaimKey>, v: seq<PortClaim>, i: nat)
    requires KeptLive(tgt, mappings, v) && i < |v| && Key(v[i]) !in mappings
    ensures KeptLive(tgt, mappings, RemoveAt(v, i))
  {
    forall m | m in mappings && HasLive(tgt, m) ensures HasLive(RemoveAt(v, i), m) {
      HasLiveAfterChange(v, i, v[i], m);
    }
  }

  lemma DropKeys(tgt: seq<PortClaim>, k: nat, mappings: seq<ClaimKey>, v: seq<PortClaim>, i: nat)
    requires k < |tgt| && i < |v| && KeysUnique(v) && v[i] == tgt[k]
    requires AckedGone(tgt, k, mappings, v)
    ensures AckedGone(tgt, k + 1, mappings, RemoveAt(v, i))
  {
    KeysOfRemoveAt(v, i);
  }

  lemma DropUnacked(tgt: seq<PortClaim>, k: nat, mappings: seq<ClaimKey>, kept: seq<PortClaim>, n: nat)
    requires k < |tgt| && UnackedKept(tgt, k, mappings, kept, n) && tgt[k].lastAck != 0
    ensures UnackedKept(tgt, k + 1, mappings, kept, n)
  {
  }

  lemma DropRegion(t: seq<PortClaim>, write: nat, k: nat, mappings: seq<ClaimKey>,
                   cur: seq<PortClaim>, cur': seq<PortClaim>, n: nat, n': nat)
    requires write <= k < |t| && forall j :: write <= j < k ==> DroppedEntry(t[j], mappings, cur, n)
    requires Key(t[k]) !in mappings && t[k].lastAck != 0 && t[k].requestId < n <= n'
    requires IdsOf(cur') <= IdsOf(cur) - {t[k].requestId} + {n'}
    ensures forall j :: write <= j < k + 1 ==> DroppedEntry(t[j], mappings, cur', n)
  {
  }

  /** The source's `assert!`: the `current` twin of an acknowledged target is live. */
  lemma DropTwinLive(tgt: seq<PortClaim>, mappings: seq<ClaimKey>, n: nat, cur: seq<PortClaim>,
                     t: seq<PortClaim>, write: nat, k: nat, n': nat, pos: nat)
    requires Compacting(tgt, mappings, n, cur, t, write, k, n') && k < |t|
    requires pos < |cur| && cur[pos].requestId == t[k].requestId
    ensures !cur[pos].shouldRemove
  {
    var v := View(t, write, k);
    ViewAfterDrop(t, write, k);
    CoreDropTwinned(cur, v, write, n', pos);
  }

  /** Passing over the visited acknowledged entry `t[k]` that left the config: its twin in
      `current`, if the search finds one, is flagged; the entry joins the dropped region. */
  lemma DropStep(tgt: seq<PortClaim>, mappings: seq<ClaimKey>, n: nat, cur: seq<PortClaim>,
                 t: seq<PortClaim>, write: nat, k: nat, n': nat, pos: Result<nat, nat>,
                 cur': seq<PortClaim>, n'': nat)
    requires Compacting(tgt, mappings, n, cur, t, write, k, n') && k < |t|
    requires Key(t[k]) !in mappings && t[k].lastAck != 0
    requires pos == BinarySearchById(cur, t[k].requestId)
    requires pos.Ok? ==> pos.value < |cur| && cur' == FlagToEnd(cur, pos.value, n') && n'' == n' + 1
    requires pos.Err? ==> cur' == cur && n'' == n'
    ensures Compacting(tgt, mappings, n, cur', t, write, k + 1, n'')
  {
    var v := View(t, write, k);
    var id := t[k].requestId;
    assert t[k] == tgt[k] && tgt[k] in tgt;
    ViewAfterDrop(t, write, k);
    DropLive(tgt, mappings, v, write);
    DropKeys(tgt, k, mappings, v, write);
    DropUnacked(tgt, k, mappings, t[..write], n);
    BinarySearchSorted(cur, id);
    if pos.Ok? {
      CoreDropTwinned(cur, v, write, n', pos.value);
      DropRegion(t, write, k, mappings, cur, cur', n, n');
    } else {
      CoreRemoveTarget(cur, v, write, n');
      DropRegion(t, write, k, mappings, cur, cur, n, n');
    }
  }

  /** Revisiting an entry of the dropped region, swapped into place by an earlier keep: the
      search finds no twin, and nothing changes. */
  lemma RevisitStep(tgt: seq<PortClaim>, mappings: seq<ClaimKey>, n: nat, cur: seq<PortClaim>,
                    t: seq<PortClaim>, write: nat, k: nat, n': nat, i: nat)
    requires Compacting(tgt, mappings, n, cur, t, write, k, n') && write <= i < k
    ensures Key(t[i]) !in mappings && t[i].lastAck != 0
    ensures BinarySearchById(cur, t[i].requestId).Err?
  {
    assert DroppedEntry(t[i], mappings, cur, n);
    BinarySearchSorted(cur, t[i].requestId);
  }

  /** One pass of the loop body over an entry it keeps. */
  lemma KeepStep(tgt: seq<PortClaim>, mappings: seq<ClaimKey>, n: nat, cur: seq<PortClaim>,
                 t: seq<PortClaim>, write: nat, k: nat, n': nat, flag: bool, t1: seq<PortClaim>,
                 t': seq<PortClaim>, write': nat, k': nat, n'': nat)
    requires Compacting(tgt, mappings, n, cur, t, write, k, n') && k < |t|
    requires !flag ==> t1 == t && n'' == n' && Retained(t[k], mappings)
    requires flag ==> Key(t[k]) !in mappings && t[k].lastAck == 0 && !t[k].shouldRemove
    requires flag ==> t1 == t[k := Flagged(t[k], n')] && n'' == n' + 1
    requires t' == KeepAt(t1, write, k) && write' == write + 1 && k' == k + 1
    ensures Compacting(tgt, mappings, n, cur, t', write', k', n'')
  {
    if flag {
      KeepFlagged(tgt, mappings, n, cur, t, write, k, n', t1, t', n'');
    } else {
      KeepUnchanged(tgt, mappings, n, cur, t, write, k, n', t1, t');
    }
  }

  /** One pass of the loop body over an acknowledged entry that left the config: the first
      visit drops it, a revisit after a swap changes nothing. */
  lemma DropOrRevisit(tgt: seq<PortClaim>, mappings: seq<ClaimKey>, n: nat, cur: seq<PortClaim>,
                      t: seq<PortClaim>, write: nat, k: nat, n': nat, search: nat, pos: Result<nat, nat>,
                      cur': seq<PortClaim>, n'': nat, k': nat)
    requires Compacting(tgt, mappings, n, cur, t, write, k, n') && write <= search <= k
    requires search < |t| && Key(t[search]) !in mappings && t[search].lastAck != 0
    requires pos == BinarySearchById(cur, t[search].requestId)
    requires pos.Ok? ==> pos.value < |cur| && cur' == FlagToEnd(cur, pos.value, n') && n'' == n' + 1
    requires pos.Err? ==> cur' == cur && n'' == n'
    requires k' == if search == k then k + 1 else k
    ensures Compacting(tgt, mappings, n, cur', t, write, k', n'')
  {
    if search == k {
      DropStep(tgt, mappings, n, cur, t, write, k, n', pos, cur', n'');
    } else {
      RevisitStep(tgt, mappings, n, cur, t, write, k, n', search);
    }
  }

  lemma CompactingEnd(tgt: seq<PortClaim>, mappings: seq<ClaimKey>, n: nat, cur: seq<PortClaim>,
                      t: seq<PortClaim>, write: nat, n': nat)
    requires Compacting(tgt, mappings, n, cur, t, write, |t|, n')
    ensures View(t, write, |t|) == t[..write]
    ensures forall x :: x in tgt && Key(x) !in mappings && x.lastAck == 0 ==> RemovalKept(t[..write], x, n)
    ensures forall x :: x in tgt && Key(x) !in mappings && x.lastAck != 0 ==> Key(x) !in KeysOf(t[..write])
  {
    assert View(t, write, |t|) == t[..write];
    forall x | x in tgt && Key(x) !in mappings
      ensures x.lastAck == 0 ==> RemovalKept(t[..write], x, n)
      ensures x.lastAck != 0 ==> Key(x) !in KeysOf(t[..write])
    {
      var j :| 0 <= j < |tgt| && tgt[j] == x;
    }
  }

  /** The compaction loop of `set_target`: every target is checked against the config; an
      acknowledged one that left it is dropped, its `current` twin flagged for removal; a
      never-acknowledged one is kept, flagged for removal under a fresh id unless it already
      was. Kept entries are swapped down to `write`; after a swap only `write` moves on, so the
      dropped entry swapped into `search` is checked again and its search finds no twin. The
      tail is cut off afterwards. */
  method RetainMapped(cur: seq<PortClaim>, tgt: seq<PortClaim>, mappings: seq<ClaimKey>, n: nat)
    returns (cur': seq<PortClaim>, kept: seq<PortClaim>, n': nat)
    requires Core(cur, tgt, n)
    ensures Core(cur', kept, n') && n <= n'
    ensures forall x :: x in kept ==> Retained(x, mappings)
    ensures forall m :: m in mappings && HasLive(tgt, m) ==> HasLive(kept, m)
    ensures forall x :: x in tgt && Key(x) !in mappings && x.lastAck == 0 ==> RemovalKept(kept, x, n)
    ensures forall x :: x in tgt && Key(x) !in mappings && x.lastAck != 0 ==> Key(x) !in KeysOf(kept)
    ensures (forall x :: x in tgt ==> Retained(x, mappings)) ==> cur' == cur && kept == tgt && n' == n
  {
    var t := tgt;
    cur', n' := cur, n;
    var search, write := 0, 0;
    ghost var k := 0;
    ghost var settled := forall x :: x in tgt ==> Retained(x, mappings);
    CompactingStart(tgt, mappings, cur, n);
    while search < |t|
      invariant write <= search <= k <= |t| && k <= search + 1
      invariant Compacting(tgt, mappings, n, cur', t, write, k, n')
      invariant settled ==> write == search == k && t == tgt && cur' == cur && n' == n
      decreases 2 * |t| - search - k
    {
      var x := t[search];
      ghost var t0, n0 := t, n';
      ghost var flag := false;
      var found := IsMapped(mappings, Key(x));
      if search < k {
        RevisitStep(tgt, mappings, n, cur', t, write, k, n', search);
      } else if settled {
        assert x in tgt;
      }
      if !found {
        if x.lastAck == 0 {
          if !x.shouldRemove {
            t := t[search := Flagged(x, n')];
            n' := n' + 1;
            flag := true;
          }
          found := true;
        } else {
          var pos := BinarySearchById(cur', x.requestId);
          ghost var cur0 := cur';
          if pos.Ok? {
            assert search == k;
            assert !cur'[pos.value].shouldRemove by {
              DropTwinLive(tgt, mappings, n, cur', t, write, k, n', pos.value);
            }
            cur' := FlagToEnd(cur', pos.value, n');
            n' := n' + 1;
          }
          ghost var k' := if search == k then k + 1 else k;
          DropOrRevisit(tgt, mappings, n, cur0, t, write, k, n0, search, pos, cur', n', k');
          k := k';
          search := search + 1;
          continue;
        }
      }
      assert search == k;
      ghost var t1 := t;
      ghost var w0, k0 := write, k;
      if search == write {
        search, write := search + 1, write + 1;
      } else {
        // the dropped entry swapped into `search` is visited again on the next pass
        t := Swap(t, write, search);
        write := write + 1;
      }
      k := k + 1;
      KeepStep(tgt, mappings, n, cur', t0, w0, k0, n0, flag, t1, t, write, k, n');
    }
    CompactingEnd(tgt, mappings, n, cur', t, write, n');
    kept := t[..write];
  }

  // ---------------------------------------------------------------------------------
  // The state object

  /** Every configured claim has a live target, and every target is configured or on its
      way out without ever having been acknowledged. */
  ghost predicate Settled(tgt: seq<PortClaim>, mappings: seq<ClaimKey>) {
    (forall m :: m in mappings ==> HasLive(tgt, m)) && (forall x :: x in tgt ==> Retained(x, mappings))
  }

  /** The final `sort_by` of `set_target` keeps every invariant and the entries themselves. */
  lemma CoreSortTarget(cur: seq<PortClaim>, tgt: seq<PortClaim>, n: nat)
    requires Core(cur, tgt, n)
    ensures Core(cur, SortById(tgt), n) && SortedIds(SortById(tgt))
    ensures forall y :: y in SortById(tgt) <==> y in tgt
    ensures KeysOf(SortById(tgt)) == KeysOf(tgt)
    ensures forall m :: HasLive(SortById(tgt), m) <==> HasLive(tgt, m)
  {
    SortByIdProperties(tgt);
    SortByIdKeys(tgt);
    SortedUnique(SortById(tgt));
    assert IdsOf(SortById(tgt)) == IdsOf(tgt);
  }

  lemma LiveKeysIn(tgt: seq<PortClaim>, mappings: seq<ClaimKey>)
    requires forall m :: m in mappings ==> HasLive(tgt, m)
    ensures forall m :: m in mappings ==> m in KeysOf(tgt)
  {
    forall m | m in mappings ensures m in KeysOf(tgt) {
      var x :| x in tgt && !x.shouldRemove && Key(x) == m;
    }
  }

  /** After `set_target` the two lists agree on what is wanted: an entry of `current` is
      being removed exactly when its claim is not configured. */
  lemma SettledCurrentAgrees(cur: seq<PortClaim>, tgt: seq<PortClaim>, n: nat, mappings: seq<ClaimKey>)
    requires Core(cur, tgt, n) && Settled(tgt, mappings)
    ensures forall c :: c in cur ==> (c.shouldRemove <==> Key(c) !in mappings)
  {
    LiveKeysIn(tgt, mappings);
    forall c | c in cur && !c.shouldRemove ensures Key(c) in mappings {
      var x :| x in tgt && x.requestId == c.requestId;
      assert Key(x) == Key(c) && !x.shouldRemove;
    }
  }

  /** The first half of `set_target`: `MatchMapping` for each configured claim in turn. */
  method MatchAll(cur: seq<PortClaim>, tgt: seq<PortClaim>, mappings: seq<ClaimKey>, n: nat)
    returns (cur': seq<PortClaim>, tgt': seq<PortClaim>, n': nat)
    requires Core(cur, tgt, n) && SortedIds(tgt)
    ensures Core(cur', tgt', n') && SortedIds(tgt') && n <= n'
    ensures forall m :: m in mappings ==> HasLive(tgt', m)
    ensures forall x :: x in tgt && Key(x) !in mappings ==> x in tgt'
    ensures (forall m :: m in mappings ==> HasLive(tgt, m)) ==> cur' == cur && tgt' == tgt && n' == n
  {
    ghost var live := forall m :: m in mappings ==> HasLive(tgt, m);
    cur', tgt', n' := cur, tgt, n;
    for i := 0 to |mappings|
      invariant Matching(cur, tgt, n, mappings, i, live, cur', tgt', n')
    {
      ghost var c0, t0, n0 := cur', tgt', n';
      cur', tgt', n' := MatchMapping(cur', tgt', mappings[i], n');
      MatchingStep(cur, tgt, n, mappings, i, live, c0, t0, n0, cur', tgt', n');
    }
    MatchingEnd(cur, tgt, n, mappings, live, cur', tgt', n');
  }

  /** The state after the first `i` configured claims were matched. */
  ghost predicate Matching(cur: seq<PortClaim>, tgt: seq<PortClaim>, n: nat, mappings: seq<ClaimKey>,
                           i: nat, live: bool, cur': seq<PortClaim>, tgt': seq<PortClaim>, n': nat)
    requires i <= |mappings|
  {
    Core(cur', tgt', n') && SortedIds(tgt') && n <= n' &&
    (forall j :: 0 <= j < i ==> HasLive(tgt', mappings[j])) &&
    (forall x :: x in tgt && Key(x) !in mappings ==> x in tgt') &&
    (live <==> forall m :: m in mappings ==> HasLive(tgt, m)) &&
    (live ==> cur' == cur && tgt' == tgt && n' == n)
  }

  lemma MatchingStep(cur: seq<PortClaim>, tgt: seq<PortClaim>, n: nat, mappings: seq<ClaimKey>, i: nat, live: bool,
                     c0: seq<PortClaim>, t0: seq<PortClaim>, n0: nat, cur': seq<PortClaim>, tgt': seq<PortClaim>, n': nat)
    requires i < |mappings| && Matching(cur, tgt, n, mappings, i, live, c0, t0, n0)
    requires Core(cur', tgt', n') && SortedIds(tgt') && n0 <= n'
    requires HasLive(tgt', mappings[i])
    requires forall m :: HasLive(t0, m) ==> HasLive(tgt', m)
    requires forall x :: x in t0 && Key(x) != mappings[i] ==> x in tgt'
    requires HasLive(t0, mappings[i]) ==> cur' == c0 && tgt' == t0 && n' == n0
    ensures Matching(cur, tgt, n, mappings, i + 1, live, cur', tgt', n')
  {
    if live {
      assert mappings[i] in mappings;
    }
    forall x | x in tgt && Key(x) !in mappings ensures x in tgt' {
      assert x in t0 && Key(x) != mappings[i];
    }
  }

  lemma MatchingEnd(cur: seq<PortClaim>, tgt: seq<PortClaim>, n: nat, mappings: seq<ClaimKey>, live: bool,
                    cur': seq<PortClaim>, tgt': seq<PortClaim>, n': nat)
    requires Matching(cur, tgt, n, mappings, |mappings|, live, cur', tgt', n')
    ensures forall m :: m in mappings ==> HasLive(tgt', m)
  {
    forall m | m in mappings ensures HasLive(tgt', m) {
      var j :| 0 <= j < |mappings| && mappings[j] == m;
    }
  }

  class PortClaimState {
    /** Claims the server has acknowledged, sorted by request id. */
    var current: seq<PortClaim>
    /** Claims the config asks for, plus never-acknowledged ones being withdrawn. */
    var target: seq<PortClaim>

    /** The invariants `set_target` and `ack_request` keep, for a request-id counter whose
        next value is `next`. */
    ghost predicate Valid(next: nat)
      reads this
    {
      Core(current, target, next) && SortedIds(target)
    }

    constructor ()
      ensures current == [] && target == [] && Valid(0)
    {
      current, target := [], [];
    }

    /** `min_ack`: 0 when `current` is empty or holds a never-acknowledged entry, else the
        oldest acknowledgement time. */
    method MinAck() returns (ack: u64)
      ensures ack == 0 <==> |current| == 0 || exists i :: 0 <= i < |current| && current[i].lastAck == 0
      ensures ack != 0 ==> (forall i :: 0 <= i < |current| ==> ack <= current[i].lastAck)
      ensures ack != 0 ==> exists i :: 0 <= i < |current| && current[i].lastAck == ack
    {
      if |current| == 0 {
        return 0;
      }
      ack := current[0].lastAck;
      var i := 0;
      while i < |current|
        invariant i <= |current|
        invariant forall j :: 0 <= j < i ==> current[j].lastAck != 0 && ack <= current[j].lastAck
        invariant exists j :: 0 <= j < |current| && current[j].lastAck == ack
        invariant i == 0 ==> ack == current[0].lastAck
        invariant i > 0 ==> ack != 0
      {
        if current[i].lastAck == 0 {
          return 0;
        }
        ack := Min(ack, current[i].lastAck);
        i := i + 1;
      }
    }

    /** `set_target`: every configured claim gets a live target (a withdrawn one revived, or a
        new one under a fresh id); every target not configured any more is flagged or
        dropped, as `RetainMapped` says; `target` ends sorted by id. On a config the state
        already matches it changes nothing. */
    method SetTarget(mappings: seq<ClaimKey>, next: nat) returns (next': nat)
      requires Valid(next)
      modifies this
      ensures Valid(next') && next <= next'
      ensures Settled(target, mappings)
      ensures forall x :: x in old(target) && Key(x) !in mappings && x.lastAck == 0 ==> RemovalKept(target, x, next)
      ensures forall x :: x in old(target) && Key(x) !in mappings && x.lastAck != 0 ==> Key(x) !in KeysOf(target)
      ensures old(Settled(target, mappings)) ==> current == old(current) && target == old(target) && next' == next
    {
      ghost var settled := Settled(target, mappings);
      var cur, tgt, n := MatchAll(current, target, mappings, next);
      ghost var n1 := n;
      cur, tgt, n := RetainMapped(cur, tgt, mappings, n);
      CoreSortTarget(cur, tgt, n);
      if settled {
        SortByIdSorted(tgt);
      }
      forall x | x in target && Key(x) !in mappings && x.lastAck == 0
        ensures RemovalKept(SortById(tgt), x, next)
      {
        RemovalKeptMore(tgt, SortById(tgt), x, n1, next);
      }
      current, target := cur, SortById(tgt);
      next' := n;
    }

    /** `ack_request`: the server acknowledged request `id` at `now`, with the effect
        `AckEffect` describes. */
    method AckRequest(now: u64, id: nat, ghost next: nat)
      requires Valid(next) && now != 0
      modifies this
      ensures Valid(next)
      ensures AckEffect(old(current), old(target), now, id, current, target)
    {
      ghost var cur, tgt := current, target;
      var pos := BinarySearchById(current, id);
      var found := FindId(target, id);
      if found.Some? {
        var i := found.value;
        var x := target[i].(lastAck := now);
        if x.shouldRemove {
          target := RemoveAt(target, i);
          AckRemovingTarget(cur, tgt, i, now, next, target);
          return;
        }
        match pos {
          case Ok(p) =>
            current := current[p := x];
            target := target[i := x];
            AckLiveRefresh(cur, tgt, i, p, now, next, current, target);
          case Err(p) =>
            BinarySearchSorted(current, id);
            current := InsertAt(current, p, x);
            target := target[i := x];
            AckLiveInsert(cur, tgt, i, p, now, next, current, target);
        }
        return;
      }
      if pos.Ok? {
        var p := pos.value;
        if !current[p].shouldRemove {
          // a live entry of `current` always has its twin in `target`
          assert false;
        }
        current := RemoveAt(current, p);
        AckConfirmedRemoval(cur, tgt, p, now, id, next, current);
      } else {
        BinarySearchSorted(current, id);
        AckUnknown(cur, tgt, now, id);
      }
    }

    /** `build_requests`: the lease requests to send at `now`, as `Requests` lists them. */
    method BuildRequests(now: u64) returns (requests: seq<ClaimLeaseAction>)
      ensures requests == Requests(current, target, now)
    {
      requests := [];
      for i := 0 to |current|
        invariant requests == CurrentRequests(current[..i], now)
      {
        CurrentRequestsSnoc(current[..i], current[i], now);
        assert current[..i + 1] == current[..i] + [current[i]];
        var c := current[i];
        if c.shouldRemove {
          requests := requests + [ClaimLeaseAction(c.requestId, false, Lease(c))];
          continue;
        }
        if Add64(c.lastAck, REFRESH_AFTER_MILLI) < now {
          requests := requests + [ClaimLeaseAction(c.requestId, true, Lease(c))];
        }
      }
      assert current[..|current|] == current;
      ghost var fromCurrent := requests;
      for i := 0 to |target|
        invariant requests == fromCurrent + TargetRequests(target[..i])
      {
        TargetRequestsSnoc(target[..i], target[i]);
        assert target[..i + 1] == target[..i] + [target[i]];
        var t := target[i];
        if t.shouldRemove {
          requests := requests + [ClaimLeaseAction(t.requestId, false, Lease(t))];
          continue;
        }
        if t.lastAck == 0 {
          requests := requests + [ClaimLeaseAction(t.requestId, true, Lease(t))];
        }
      }
      assert target[..|target|] == target;
    }
  }

  // ---------------------------------------------------------------------------------
  // What `ack_request` does

  /** `cur'` is `cur` with the entry for `x`'s id replaced by, or joined by, `x`. */
  ghost predicate StampedIn(cur: seq<PortClaim>, x: PortClaim, cur': seq<PortClaim>) {
    IdsOf(cur') == IdsOf(cur) + {x.requestId} && x in cur' &&
    (forall c :: c in cur' ==> c == x || (c in cur && c.requestId != x.requestId)) &&
    (forall c :: c in cur && c.requestId != x.requestId ==> c in cur')
  }

  /** The acknowledgement of `tgt[i]`: a withdrawn target is dropped; a live one is stamped
      in both lists. */
  ghost predicate AckedTarget(cur: seq<PortClaim>, tgt: seq<PortClaim>, i: nat, now: u64,
                              cur': seq<PortClaim>, tgt': seq<PortClaim>)
    requires i < |tgt|
  {
    var x := tgt[i].(lastAck := now);
    if x.shouldRemove then cur' == cur && tgt' == RemoveAt(tgt, i)
    else tgt' == tgt[i := x] && StampedIn(cur, x, cur')
  }

  /** What an acknowledgement of `id` at `now` does: a target under `id` is acknowledged;
      otherwise an entry of `current` under `id` is a confirmed removal and goes; any other
      id changes nothing. */
  ghost predicate AckEffect(cur: seq<PortClaim>, tgt: seq<PortClaim>, now: u64, id: nat,
                            cur': seq<PortClaim>, tgt': seq<PortClaim>) {
    (id in IdsOf(tgt) ==> exists i :: 0 <= i < |tgt| && tgt[i].requestId == id && AckedTarget(cur, tgt, i, now, cur', tgt')) &&
    (id !in IdsOf(tgt) ==> tgt' == tgt) &&
    (id !in IdsOf(tgt) && id in IdsOf(cur) ==>
      exists i :: 0 <= i < |cur| && cur[i].requestId == id && cur[i].shouldRemove && cur' == RemoveAt(cur, i)) &&
    (id !in IdsOf(tgt) && id !in IdsOf(cur) ==> cur' == cur)
  }

  lemma AckRemovingTarget(cur: seq<PortClaim>, tgt: seq<PortClaim>, i: nat, now: u64, n: nat, tgt': seq<PortClaim>)
    requires Core(cur, tgt, n) && SortedIds(tgt) && i < |tgt| && tgt[i].shouldRemove
    requires tgt' == RemoveAt(tgt, i)
    ensures Core(cur, tgt', n) && SortedIds(tgt')
    ensures AckEffect(cur, tgt, now, tgt[i].requestId, cur, tgt')
  {
    CoreRemoveTarget(cur, tgt, i, n);
    assert tgt[i] in tgt;
    assert AckedTarget(cur, tgt, i, now, cur, tgt');
  }

  lemma AckLiveRefresh(cur: seq<PortClaim>, tgt: seq<PortClaim>, i: nat, p: nat, now: u64, n: nat,
                       cur': seq<PortClaim>, tgt': seq<PortClaim>)
    requires Core(cur, tgt, n) && SortedIds(tgt) && i < |tgt| && !tgt[i].shouldRemove && now != 0
    requires p < |cur| && cur[p].requestId == tgt[i].requestId
    requires cur' == cur[p := tgt[i].(lastAck := now)] && tgt' == tgt[i := tgt[i].(lastAck := now)]
    ensures Core(cur', tgt', n) && SortedIds(tgt')
    ensures AckEffect(cur, tgt, now, tgt[i].requestId, cur', tgt')
  {
    var x := tgt[i].(lastAck := now);
    CoreAckRefresh(cur, tgt, i, p, now, n);
    SortedUnique(cur);
    AckRefreshMembers(cur, p, x);
    assert tgt[i] in tgt;
    assert AckedTarget(cur, tgt, i, now, cur', tgt');
  }

  lemma AckLiveInsert(cur: seq<PortClaim>, tgt: seq<PortClaim>, i: nat, p: nat, now: u64, n: nat,
                      cur': seq<PortClaim>, tgt': seq<PortClaim>)
    requires Core(cur, tgt, n) && SortedIds(tgt) && i < |tgt| && !tgt[i].shouldRemove && now != 0
    requires p <= |cur| && BinarySearchById(cur, tgt[i].requestId) == Err(p)
    requires cur' == InsertAt(cur, p, tgt[i].(lastAck := now)) && tgt' == tgt[i := tgt[i].(lastAck := now)]
    ensures Core(cur', tgt', n) && SortedIds(tgt')
    ensures AckEffect(cur, tgt, now, tgt[i].requestId, cur', tgt')
  {
    var x := tgt[i].(lastAck := now);
    BinarySearchSorted(cur, x.requestId);
    CoreAckInsert(cur, tgt, i, p, now, n);
    InsertAtMembers(cur, p, x);
    assert tgt[i] in tgt;
    assert StampedIn(cur, x, cur');
    assert AckedTarget(cur, tgt, i, now, cur', tgt');
  }

  lemma AckConfirmedRemoval(cur: seq<PortClaim>, tgt: seq<PortClaim>, p: nat, now: u64, id: nat, n: nat,
                            cur': seq<PortClaim>)
    requires Core(cur, tgt, n) && p < |cur| && cur[p].requestId == id && cur[p].shouldRemove
    requires id !in IdsOf(tgt) && cur' == RemoveAt(cur, p)
    ensures Core(cur', tgt, n)
    ensures AckEffect(cur, tgt, now, id, cur', tgt)
  {
    CoreRemoveCurrent(cur, p, tgt, n);
    assert cur[p] in cur;
  }

  lemma AckUnknown(cur: seq<PortClaim>, tgt: seq<PortClaim>, now: u64, id: nat)
    requires id !in IdsOf(cur) && id !in IdsOf(tgt)
    ensures AckEffect(cur, tgt, now, id, cur, tgt)
  {
  }

  lemma AckRefreshMembers(s: seq<PortClaim>, p: nat, x: PortClaim)
    requires p < |s| && IdsUnique(s) && s[p].requestId == x.requestId
    ensures IdsOf(s[p := x]) == IdsOf(s)
    ensures forall c :: c in s[p := x] ==> c == x || (c in s && c.requestId != x.requestId)
    ensures forall c :: c in s && c.requestId != x.requestId ==> c in s[p := x]
    ensures x in s[p := x]
  {
    UpdateMembers(s, p, x);
    IdsOfRemoveAt(s, p);
    RemoveAtMembers(s, p);
    IdsOfRemoveAt(s[p := x], p);
    assert RemoveAt(s, p) == RemoveAt(s[p := x], p);
    forall c | c in s && c.requestId != x.requestId ensures c in s[p := x] {
      assert c in RemoveAt(s, p);
    }
  }

  // ---------------------------------------------------------------------------------
  // `build_requests`

  /** How long an acknowledged claim goes before it is requested again. */
  const REFRESH_AFTER_MILLI: u64 := 15_000

  /** The request for one `current` entry: its removal, or a refresh once its last
      acknowledgement is more than 15 seconds old (the sum wraps like a release build's). */
  function CurrentRequest(c: PortClaim, now: u64): (r: Option<ClaimLeaseAction>)
    ensures r.Some? <==> c.shouldRemove || Add64(c.lastAck, REFRESH_AFTER_MILLI) < now
    ensures r.Some? ==> r.value.requestId == c.requestId && r.value.lease == Lease(c) && r.value.add == !c.shouldRemove
  {
    if c.shouldRemove then Some(ClaimLeaseAction(c.requestId, false, Lease(c)))
    else if Add64(c.lastAck, REFRESH_AFTER_MILLI) < now then Some(ClaimLeaseAction(c.requestId, true, Lease(c)))
    else None
  }

  /** The request for one target: its removal, or its addition while nobody acknowledged it. */
  function TargetRequest(t: PortClaim): (r: Option<ClaimLeaseAction>)
    ensures r.Some? <==> t.shouldRemove || t.lastAck == 0
    ensures r.Some? ==> r.value.requestId == t.requestId && r.value.lease == Lease(t) && r.value.add == !t.shouldRemove
  {
    if t.shouldRemove then Some(ClaimLeaseAction(t.requestId, false, Lease(t)))
    else if t.lastAck == 0 then Some(ClaimLeaseAction(t.requestId, true, Lease(t)))
    else None
  }

  function Requested(r: Option<ClaimLeaseAction>): seq<ClaimLeaseAction> {
    if r.Some? then [r.value] else []
  }

  function CurrentRequests(cur: seq<PortClaim>, now: u64): seq<ClaimLeaseAction> {
    if |cur| == 0 then [] else CurrentRequests(cur[..|cur| - 1], now) + Requested(CurrentRequest(cur[|cur| - 1], now))
  }

  function TargetRequests(tgt: seq<PortClaim>): seq<ClaimLeaseAction> {
    if |tgt| == 0 then [] else TargetRequests(tgt[..|tgt| - 1]) + Requested(TargetRequest(tgt[|tgt| - 1]))
  }

  /** Requests for `current` in order, then for `target`. */
  function Requests(cur: seq<PortClaim>, tgt: seq<PortClaim>, now: u64): seq<ClaimLeaseAction> {
    CurrentRequests(cur, now) + TargetRequests(tgt)
  }

  lemma CurrentRequestsSnoc(cur: seq<PortClaim>, c: PortClaim, now: u64)
    ensures CurrentRequests(cur + [c], now) == CurrentRequests(cur, now) + Requested(CurrentRequest(c, now))
  {
    assert (cur + [c])[..|cur|] == cur;
  }

  lemma TargetRequestsSnoc(tgt: seq<PortClaim>, t: PortClaim)
    ensures TargetRequests(tgt + [t]) == TargetRequests(tgt) + Requested(TargetRequest(t))
  {
    assert (tgt + [t])[..|tgt|] == tgt;
  }

  /** A request is in the list exactly when some `current` entry calls for it. */
  lemma {:induction false} CurrentRequestsMembers(cur: seq<PortClaim>, now: u64)
    ensures forall a :: a in CurrentRequests(cur, now) <==> exists c :: c in cur && CurrentRequest(c, now) == Some(a)
  {
    if |cur| > 0 {
      var init := cur[..|cur| - 1];
      CurrentRequestsMembers(init, now);
      assert cur == init + [cur[|cur| - 1]];
      forall a ensures a in CurrentRequests(cur, now) <==> exists c :: c in cur && CurrentRequest(c, now) == Some(a) {
        if a in CurrentRequests(cur, now) {
          if a in CurrentRequests(init, now) {
            var c :| c in init && CurrentRequest(c, now) == Some(a);
            assert c in cur;
          } else {
            assert CurrentRequest(cur[|cur| - 1], now) == Some(a);
          }
        }
        if exists c :: c in cur && CurrentRequest(c, now) == Some(a) {
          var c :| c in cur && CurrentRequest(c, now) == Some(a);
          if c !in init {
            assert c == cur[|cur| - 1];
          }
        }
      }
    }
  }

  lemma {:induction false} TargetRequestsMembers(tgt: seq<PortClaim>)
    ensures forall a :: a in TargetRequests(tgt) <==> exists t :: t in tgt && TargetRequest(t) == Some(a)
  {
    if |tgt| > 0 {
      var init := tgt[..|tgt| - 1];
      TargetRequestsMembers(init);
      assert tgt == init + [tgt[|tgt| - 1]];
      forall a ensures a in TargetRequests(tgt) <==> exists t :: t in tgt && TargetRequest(t) == Some(a) {
        if a in TargetRequests(tgt) {
          if a in TargetRequests(init) {
            var t :| t in init && TargetRequest(t) == Some(a);
            assert t in tgt;
          } else {
            assert TargetRequest(tgt[|tgt| - 1]) == Some(a);
          }
        }
        if exists t :: t in tgt && TargetRequest(t) == Some(a) {
          var t :| t in tgt && TargetRequest(t) == Some(a);
          if t !in init {
            assert t == tgt[|tgt| - 1];
          }
        }
      }
    }
  }

  /** Every claim waiting for its first acknowledgement is asked for, and every withdrawal
      in progress, on either list, is sent. */
  lemma RequestsCover(cur: seq<PortClaim>, tgt: seq<PortClaim>, now: u64)
    ensures forall t :: t in tgt && t.lastAck == 0 && !t.shouldRemove ==>
      ClaimLeaseAction(t.requestId, true, Lease(t)) in Requests(cur, tgt, now)
    ensures forall x :: (x in tgt || x in cur) && x.shouldRemove ==>
      ClaimLeaseAction(x.requestId, false, Lease(x)) in Requests(cur, tgt, now)
    ensures forall a :: a in Requests(cur, tgt, now) ==>
      exists x :: (x in cur || x in tgt) && a.requestId == x.requestId && a.lease == Lease(x) && a.add == !x.shouldRemove
  {
    CurrentRequestsMembers(cur, now);
    TargetRequestsMembers(tgt);
    forall x | x in cur && x.shouldRemove ensures ClaimLeaseAction(x.requestId, false, Lease(x)) in Requests(cur, tgt, now) {
      assert CurrentRequest(x, now) == Some(ClaimLeaseAction(x.requestId, false, Lease(x)));
    }
    forall x | x in tgt && (x.shouldRemove || x.lastAck == 0)
      ensures TargetRequest(x).value in Requests(cur, tgt, now)
    {
    }
    forall a | a in Requests(cur, tgt, now)
      ensures exists x :: (x in cur || x in tgt) && a.requestId == x.requestId && a.lease == Lease(x) && a.add == !x.shouldRemove
    {
      if a in CurrentRequests(cur, now) {
        var c :| c in cur && CurrentRequest(c, now) == Some(a);
      } else {
        var t :| t in tgt && TargetRequest(t) == Some(a);
      }
    }
  }

  // ---------------------------------------------------------------------------------
  // Flagging a `current` twin in place, as the compaction loop of `set_target` is written

  /** The source marks the twin for removal where it stands, under its new, larger id. */
  function FlagInPlace(cur: seq<PortClaim>, pos: nat, n: nat): (r: seq<PortClaim>)
    requires pos < |cur|
    ensures |r| == |cur| && r[pos] == Flagged(cur[pos], n)
    ensures forall j :: 0 <= j < |cur| && j != pos ==> r[j] == cur[j]
  {
    cur[pos := Flagged(cur[pos], n)]
  }

  /** Unless the twin is the last entry, that breaks the id order `binary_search_by` needs. */
  lemma FlagInPlaceUnsorts(cur: seq<PortClaim>, pos: nat, n: nat)
    requires CurrentOk(cur, n) && pos + 1 < |cur|
    ensures !SortedIds(FlagInPlace(cur, pos, n))
  {
    assert cur[pos + 1] in cur;
    assert FlagInPlace(cur, pos, n)[pos].requestId > FlagInPlace(cur, pos, n)[pos + 1].requestId;
  }

  function Acked(id: u16): PortClaim {
    PortClaim(id, Udp, V4(Ipv4Addr([10, 0, 0, 1])), id, id, 1, false)
  }

  /** Three acknowledged claims with ids 0, 1 and 2 whose mappings have all left the
      config: flagged in place, the first two are found and flagged, but the search for id 2
      in `[3, 4, 2]` fails, so that claim stays live with no target and keeps asking for
      refreshes. The leak lasts until the removal of claim 0 is acknowledged: id 3 is found
      at the head and taken out, and in `[4, 2]` the search for id 2 succeeds, so the next
      acknowledgement of claim 2's refresh reaches the branch of `ack_request` that flags
      it. On a list out of id order `binary_search_by` promises no particular answer; these
      are the answers of the midpoint search `BinarySearchById` models. */
  lemma FlagInPlaceMissesTwin()
    ensures var c0 := [Acked(0), Acked(1), Acked(2)];
      var c1 := FlagInPlace(c0, 0, 3);
      var c2 := FlagInPlace(c1, 1, 4);
      BinarySearchById(c0, 0) == Ok(0) && BinarySearchById(c1, 1) == Ok(1) &&
      BinarySearchById(c2, 2).Err? && c2[2] == Acked(2) &&
      CurrentRequest(c2[2], 20_000) == Some(ClaimLeaseAction(2, true, Lease(Acked(2)))) &&
      BinarySearchById(c2, 3) == Ok(0) &&
      RemoveAt(c2, 0)[1] == Acked(2) && BinarySearchById(RemoveAt(c2, 0), 2) == Ok(1)
  {
    var c0 := [Acked(0), Acked(1), Acked(2)];
    var c1 := FlagInPlace(c0, 0, 3);
    var c2 := FlagInPlace(c1, 1, 4);
    assert c2[0].requestId == 3 && c2[1].requestId == 4 && c2[2] == Acked(2);
    assert BinarySearchById(c2, 2) == SearchIn(c2, 2, 0, 1);
    assert BinarySearchById(c2, 3) == SearchIn(c2, 3, 0, 1);
    var c3 := RemoveAt(c2, 0);
    assert c3[1] == Acked(2);
  }

  /** The same run with the flagged twin moved to the end, as `ack_request` does it: all
      three are found and flagged. */
  lemma FlagToEndFindsEveryTwin()
    ensures var c0 := [Acked(0), Acked(1), Acked(2)];
      var c1 := FlagToEnd(c0, 0, 3);
      var c2 := FlagToEnd(c1, 0, 4);
      var c3 := FlagToEnd(c2, 0, 5);
      BinarySearchById(c0, 0) == Ok(0) && BinarySearchById(c1, 1) == Ok(0) && BinarySearchById(c2, 2) == Ok(0) &&
      c3 == [Flagged(Acked(0), 3), Flagged(Acked(1), 4), Flagged(Acked(2), 5)]
  {
    var c0 := [Acked(0), Acked(1), Acked(2)];
    var c1 := FlagToEnd(c0, 0, 3);
    assert c1 == [Acked(1), Acked(2), Flagged(Acked(0), 3)];
    var c2 := FlagToEnd(c1, 0, 4);
    assert c2 == [Acked(2), Flagged(Acked(0), 3), Flagged(Acked(1), 4)];
    var c3 := FlagToEnd(c2, 0, 5);
    assert c3 == [Flagged(Acked(0), 3), Flagged(Acked(1), 4), Flagged(Acked(2), 5)];
  }
}
