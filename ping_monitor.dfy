/** Ping experiments: the request id a ping carries (experiment id, sample count and sample
    number packed into one `u64`), the sample a pong turns into, and the merging of the
    results of one submission into one entry per experiment and target. */
module PingMonitors {
  import opened Ints
  import opened Net
  import opened Wrappers

  datatype PingTarget = PingTarget(ip: IpAddr, port: u16)

  datatype PingSample = PingSample(
    tunnelServerId: u64, dcId: u64, serverTs: u64, latency: u64, count: u16, num: u16)

  datatype PingExperimentResult = PingExperimentResult(id: u64, target: PingTarget, samples: seq<PingSample>)

  // ---------------------------------------------------------------------------
  // Bitwise or on naturals
  // ---------------------------------------------------------------------------

  function Pow2(k: nat): (r: nat)
    ensures r >= 1
  {
    if k == 0 then 1 else 2 * Pow2(k - 1)
  }

  /** `|` on unsigned integers, bit by bit from the lowest. */
  function BitOr(a: nat, b: nat): (r: nat)
    decreases a + b
  {
    if a == 0 then b
    else if b == 0 then a
    else 2 * BitOr(a / 2, b / 2) + Max(a % 2, b % 2)
  }

  /** Or-ing a multiple of 2^k with a number below 2^k adds them: their bits do not overlap. */
  lemma {:induction false} BitOrDisjoint(q: nat, b: nat, k: nat)
    requires b < Pow2(k)
    ensures BitOr(q * Pow2(k), b) == q * Pow2(k) + b
    decreases k
  {
    var a := q * Pow2(k);
    if a != 0 && b != 0 {
      var h := q * Pow2(k - 1);
      assert a == 2 * h;
      assert a / 2 == h && a % 2 == 0;
      BitOrDisjoint(q, b / 2, k - 1);
      assert BitOr(a, b) == 2 * BitOr(h, b / 2) + b % 2;
    }
  }

  lemma {:induction false} BitOrBound(a: nat, b: nat, k: nat)
    requires a < Pow2(k) && b < Pow2(k)
    ensures BitOr(a, b) < Pow2(k)
    decreases k
  {
    if a != 0 && b != 0 {
      BitOrBound(a / 2, b / 2, k - 1);
    }
  }

  lemma {:induction false} Pow2Add(m: nat, n: nat)
    ensures Pow2(m + n) == Pow2(m) * Pow2(n)
    decreases m
  {
    if m > 0 {
      Pow2Add(m - 1, n);
    }
  }

  lemma Pow2Widths()
    ensures Pow2(8) == 256 && Pow2(9) == 512 && Pow2(64) == TWO_64
  {
    assert Pow2(4) == 16 by {
      assert Pow2(1) == 2 && Pow2(2) == 4 && Pow2(3) == 8;
    }
    Pow2Add(4, 4);
    assert Pow2(8) == 256;
    Pow2Add(8, 8);
    assert Pow2(16) == 0x1_0000;
    Pow2Add(16, 16);
    assert Pow2(32) == 0x1_0000_0000;
    Pow2Add(32, 32);
  }

  /** Division by 16 of a multiple of 16 plus a smaller remainder. */
  lemma Div16(q: nat, rem: nat)
    requires rem < 16
    ensures (q * 16 + rem) / 16 == q && (q * 16 + rem) % 16 == rem
  {
  }

  lemma Div256(q: nat, rem: nat)
    requires rem < 256
    ensures (q * 256 + rem) / 256 == q
  {
  }

  // ---------------------------------------------------------------------------
  // Request ids
  // ---------------------------------------------------------------------------

  /** At most 16 samples are taken of an experiment. */
  function SampleCount(samples: u64): (r: u64)
    ensures r <= 16 && (r == samples || r == 16)
  {
    Min(samples, 16)
  }

  /** `(id << 8) | (sample_count << 4)` in `u64`: the id loses its top 8 bits. */
  function RequestIdBase(expId: u64, sampleCount: u64): (r: u64)
    requires sampleCount <= 16
    ensures expId < TWO_64 / 256 && sampleCount <= 15 ==> r == expId * 256 + sampleCount * 16
  {
    Pow2Widths();
    BitOrBound((expId * 256) % TWO_64, sampleCount * 16, 64);
    if expId < TWO_64 / 256 && sampleCount <= 15 then
      assert (expId * 256) % TWO_64 == expId * 256;
      BitOrDisjoint(expId, sampleCount * 16, 8);
      BitOr((expId * 256) % TWO_64, sampleCount * 16)
    else BitOr((expId * 256) % TWO_64, sampleCount * 16)
  }

  /** The ids of one run of an experiment: the base plus each sample number. */
  function RequestIds(expId: u64, samples: u64): (r: seq<u64>)
    ensures |r| == SampleCount(samples)
  {
    var count := SampleCount(samples);
    var base := RequestIdBase(expId, count);
    seq(count, i requires 0 <= i < count => (base + i) % TWO_64)
  }

  /** What the receiver reads back: `id >> 8`, `(id >> 4) & 0xF` and `id & 0xF`. */
  datatype DecodedId = DecodedId(experimentId: u64, sampleCount: u16, sampleNum: u16)

  function DecodeRequestId(requestId: u64): (r: DecodedId)
    ensures r.sampleCount < 16 && r.sampleNum < 16
  {
    DecodedId(requestId / 256, (requestId / 16) % 16, requestId % 16)
  }

  lemma RequestIdBaseOverlap()
    ensures RequestIdBase(2, 16) == 768
  {
    Pow2Widths();
    BitOrDisjoint(1, 256, 9);
    assert (2 * 256) % TWO_64 == 1 * Pow2(9);
  }

  /** With 16 samples, the count no longer fits its four bits: it carries into the
      experiment id, and every pong of experiment 2 is credited to experiment 3 with a
      sample count of 0. */
  lemma SixteenSamplesCorruptId()
    ensures RequestIds(2, 16)[0] == 768
    ensures DecodeRequestId(RequestIds(2, 16)[0]) == DecodedId(3, 0, 0)
  {
    RequestIdBaseOverlap();
    assert RequestIds(2, 16)[0] == (RequestIdBase(2, 16) + 0) % TWO_64;
  }

  /** The pause a ping sender takes between two runs of its experiment: the test interval,
      at most 30 s, plus a jitter below a third of it drawn from `random`. An interval below
      3 ms makes that third zero, and the remainder by zero panics: `None`. */
  function SenderWait(testInterval: u64, random: u64): (r: Option<u64>)
    ensures r.None? <==> testInterval < 3
    ensures r.Some? ==> Min(testInterval, 30_000) <= r.value < Min(testInterval, 30_000) * 4 / 3 + 1
    ensures r.Some? ==> r.value < 40_000
  {
    var waitMs := Min(testInterval, 30_000);
    if waitMs / 3 == 0 then None else Some(waitMs + random % (waitMs / 3))
  }

  /** The sample count capped at the 15 its four bits can hold. */
  function SampleCountCapped(samples: u64): (r: u64)
    ensures r <= 15 && (r == samples || r == 15)
  {
    Min(samples, 15)
  }

  function RequestIdsCapped(expId: u64, samples: u64): (r: seq<u64>)
    ensures |r| == SampleCountCapped(samples)
  {
    var count := SampleCountCapped(samples);
    var base := RequestIdBase(expId, count);
    seq(count, i requires 0 <= i < count => (base + i) % TWO_64)
  }

  /** Below the cap, the id, count and sample number occupy separate bits. */
  lemma RequestIdBaseDisjoint(expId: u64, count: u64)
    requires expId < TWO_64 / 256 && count <= 15
    ensures RequestIdBase(expId, count) == expId * 256 + count * 16
  {
    Pow2Widths();
    assert (expId * 256) % TWO_64 == expId * 256;
    BitOrDisjoint(expId, count * 16, 8);
  }

  lemma DecodePacked(expId: nat, count: nat, i: nat)
    requires expId < TWO_64 / 256 && count < 16 && i < 16
    ensures DecodeRequestId(expId * 256 + count * 16 + i) == DecodedId(expId, count, i)
  {
    var id := expId * 256 + (count * 16 + i);
    Div256(expId, count * 16 + i);
    assert id == (expId * 16 + count) * 16 + i;
    Div16(expId * 16 + count, i);
    Div16(expId, count);
  }

  /** A packed id below the cap fits in 64 bits. */
  lemma PackedInRange(expId: nat, count: nat, i: nat)
    requires expId < TWO_64 / 256 && count < 16 && i < 16
    ensures expId * 256 + count * 16 + i < TWO_64
  {
  }

  /** With the cap, each id decodes to its experiment (ids below 2^56, which survive the
      shift), the run's sample count and the sample's number. */
  lemma RequestIdsRoundTrip(expId: u64, samples: u64, i: nat)
    requires expId < TWO_64 / 256
    requires i < SampleCountCapped(samples)
    ensures DecodeRequestId(RequestIdsCapped(expId, samples)[i]) == DecodedId(expId, SampleCountCapped(samples), i)
  {
    var count := SampleCountCapped(samples);
    RequestIdsCappedAt(expId, samples, i);
    PackedId(expId, count, i);
  }

  lemma RequestIdsCappedAt(expId: u64, samples: u64, i: nat)
    requires i < SampleCountCapped(samples)
    ensures RequestIdsCapped(expId, samples)[i] == (RequestIdBase(expId, SampleCountCapped(samples)) + i) % TWO_64
  {
  }

  lemma PackedId(expId: u64, count: u64, i: nat)
    requires expId < TWO_64 / 256 && count <= 15 && i < count
    ensures DecodeRequestId((RequestIdBase(expId, count) + i) % TWO_64) == DecodedId(expId, count, i)
  {
    RequestIdBaseDisjoint(expId, count);
    PackedInRange(expId, count, i);
    DecodePacked(expId, count, i);
  }

  // ---------------------------------------------------------------------------
  // A pong becomes a result
  // ---------------------------------------------------------------------------

  /** The latency the receiver records: zero when the local clock is behind the request. */
  function Latency(now: u64, requestNow: u64): (r: u64)
    ensures now >= requestNow ==> r == now - requestNow
    ensures now < requestNow ==> r == 0
  {
    Max(now, requestNow) - requestNow
  }

  /** The result the receiver records for a pong from `source` read at `now`. */
  function PongResult(requestId: u64, requestNow: u64, serverNow: u64, serverId: u64, dataCenterId: u32,
                      source: SocketAddr, now: u64): (r: PingExperimentResult)
    ensures |r.samples| == 1 && r.id == DecodeRequestId(requestId).experimentId
    ensures r.target == PingTarget(source.Ip(), source.Port())
  {
    var d := DecodeRequestId(requestId);
    PingExperimentResult(d.experimentId, PingTarget(source.Ip(), source.Port()),
      [PingSample(serverId, dataCenterId, serverNow, Latency(now, requestNow), d.sampleCount, d.sampleNum)])
  }

  // ---------------------------------------------------------------------------
  // Ordering results
  // ---------------------------------------------------------------------------

  /** `cmp_result`: by experiment id, then target ip, then target port. */
  function CmpResult(a: PingExperimentResult, b: PingExperimentResult): (r: Ordering)
    ensures a.id < b.id ==> r == Less
    ensures a.id > b.id ==> r == Greater
  {
    CompareInt(a.id, b.id).Then(CompareIp(a.target.ip, b.target.ip)).Then(CompareInt(a.target.port, b.target.port))
  }

  /** `cmp_result` is a total order on (id, target). */
  lemma CmpResultOrder(a: PingExperimentResult, b: PingExperimentResult, c: PingExperimentResult)
    ensures CmpResult(a, b) == Equal <==> a.id == b.id && a.target == b.target
    ensures CmpResult(b, a) == CmpResult(a, b).Reverse()
    ensures CmpResult(a, b) != Greater && CmpResult(b, c) != Greater ==> CmpResult(a, c) != Greater
  {
    CompareIpTotalOrder(a.target.ip, b.target.ip, c.target.ip);
    CompareIpTotalOrder(b.target.ip, a.target.ip, c.target.ip);
    CompareIpTotalOrder(a.target.ip, c.target.ip, b.target.ip);
  }

  /** The same experiment and target: what `cmp_result` calls equal. */
  predicate SameKey(a: PingExperimentResult, b: PingExperimentResult) {
    a.id == b.id && a.target == b.target
  }

  predicate Sorted(s: seq<PingExperimentResult>) {
    forall i :: 0 <= i < |s| - 1 ==> CmpResult(s[i], s[i + 1]) != Greater
  }

  /** `x` placed before the first entry greater than it: after every entry equal to it. */
  function InsertSorted(s: seq<PingExperimentResult>, x: PingExperimentResult): (r: seq<PingExperimentResult>)
    ensures multiset(r) == multiset(s) + multiset{x}
    ensures |r| == |s| + 1
  {
    if |s| == 0 then [x]
    else if CmpResult(x, s[0]) == Less then [x] + s
    else
      assert s == [s[0]] + s[1..];
      [s[0]] + InsertSorted(s[1..], x)
  }

  lemma {:induction false} InsertSortedSorted(s: seq<PingExperimentResult>, x: PingExperimentResult)
    requires Sorted(s)
    ensures Sorted(InsertSorted(s, x))
    ensures InsertSorted(s, x)[0] == x || (|s| > 0 && InsertSorted(s, x)[0] == s[0])
  {
    if |s| == 0 {
    } else if CmpResult(x, s[0]) == Less {
      CmpResultOrder(x, s[0], x);
    } else {
      InsertSortedSorted(s[1..], x);
      var r := InsertSorted(s[1..], x);
      CmpResultOrder(x, s[0], x);
      assert CmpResult(s[0], r[0]) != Greater;
    }
  }

  /** The library's stable sort by `cmp_result`: insertion of each entry in turn after the
      entries equal to it. */
  function SortResults(s: seq<PingExperimentResult>): (r: seq<PingExperimentResult>)
    ensures |r| == |s|
  {
    if |s| == 0 then []
    else
      InsertSorted(SortResults(s[..|s| - 1]), s[|s| - 1])
  }

  lemma {:induction false} SortPermutes(s: seq<PingExperimentResult>)
    ensures multiset(SortResults(s)) == multiset(s)
  {
    if |s| > 0 {
      SortPermutes(s[..|s| - 1]);
      assert s == s[..|s| - 1] + [s[|s| - 1]];
    }
  }

  lemma {:induction false} SortResultsSorted(s: seq<PingExperimentResult>)
    ensures Sorted(SortResults(s))
  {
    if |s| > 0 {
      SortResultsSorted(s[..|s| - 1]);
      InsertSortedSorted(SortResults(s[..|s| - 1]), s[|s| - 1]);
    }
  }

  // ---------------------------------------------------------------------------
  // Grouping
  // ---------------------------------------------------------------------------

  function Last<T>(s: seq<T>): T
    requires |s| > 0
  {
    s[|s| - 1]
  }

  lemma SortKeepsSampled(s: seq<PingExperimentResult>)
    requires AllSampled(s)
    ensures AllSampled(SortResults(s))
  {
    var sorted := SortResults(s);
    forall i | 0 <= i < |sorted|
      ensures |sorted[i].samples| > 0
    {
      SortPermutes(s);
      assert sorted[i] in multiset(s);
    }
  }

  /** The group's entry taking over the last sample of another entry. */
  function Absorb(w: PingExperimentResult, r: PingExperimentResult): PingExperimentResult
    requires |r.samples| > 0
  {
    w.(samples := w.samples + [Last(r.samples)])
  }

  /** An entry without its last sample, which `pop` has taken. */
  function Popped(r: PingExperimentResult): PingExperimentResult
    requires |r.samples| > 0
  {
    r.(samples := r.samples[..|r.samples| - 1])
  }

  predicate AllSampled(s: seq<PingExperimentResult>) {
    forall i :: 0 <= i < |s| ==> |s[i].samples| > 0
  }

  /** The grouping of `rest` continued from the groups `acc`: an entry equal to the last
      group is absorbed into it, any other starts a new group. */
  function GroupFrom(acc: seq<PingExperimentResult>, rest: seq<PingExperimentResult>): (r: seq<PingExperimentResult>)
    requires |acc| > 0 && AllSampled(rest)
    ensures |r| > 0 && |r| <= |acc| + |rest|
    decreases |rest|
  {
    if |rest| == 0 then acc
    else if SameKey(Last(acc), rest[0]) then
      GroupFrom(acc[..|acc| - 1] + [Absorb(Last(acc), rest[0])], rest[1..])
    else GroupFrom(acc + [rest[0]], rest[1..])
  }

  /** `combine_experiments` as a value: the sorted results grouped. */
  function Combined(results: seq<PingExperimentResult>): (r: seq<PingExperimentResult>)
    requires AllSampled(results)
    ensures |r| <= |results| && (|r| == 0 <==> |results| == 0)
  {
    var sorted := SortResults(results);
    SortKeepsSampled(results);
    if |sorted| == 0 then [] else GroupFrom([sorted[0]], sorted[1..])
  }

  /** What holds between the steps of `combine_experiments`: the groups so far end at
      `write`, and grouping on from `read` gives the final result. */
  predicate GroupingInv(rs: seq<PingExperimentResult>, write: nat, read: nat, goal: seq<PingExperimentResult>) {
    write < read <= |rs| && AllSampled(rs[read..]) && GroupFrom(rs[..write + 1], rs[read..]) == goal
  }

  lemma CombinedStart(input: seq<PingExperimentResult>)
    requires AllSampled(input) && |input| > 0
    ensures GroupingInv(SortResults(input), 0, 1, Combined(input))
  {
    var sorted := SortResults(input);
    SortKeepsSampled(input);
    assert sorted[..1] == [sorted[0]];
  }

  lemma GroupingDone(rs: seq<PingExperimentResult>, write: nat, goal: seq<PingExperimentResult>)
    requires GroupingInv(rs, write, |rs|, goal)
    ensures rs[..write + 1] == goal
  {
    assert rs[|rs|..] == [];
  }

  /** `combine_experiments`: after the sort, `write` is the group being filled and `read` the
      entry examined; an equal entry gives up its last sample, a different one becomes the
      next group once the entries already absorbed are drained. */
  method CombineExperiments(input: seq<PingExperimentResult>) returns (results: seq<PingExperimentResult>)
    requires AllSampled(input)
    ensures results == Combined(input)
  {
    results := SortResults(input);
    if |results| == 0 {
      return;
    }
    CombinedStart(input);
    var write := 0;
    var read := 1;
    while read < |results|
      invariant GroupingInv(results, write, read, Combined(input))
      decreases |results| - read
    {
      CmpResultOrder(results[write], results[read], results[read]);
      if CmpResult(results[write], results[read]) == Equal {
        AbsorbKeeps(results, write, read, Combined(input));
        results := AbsorbAt(results, write, read);
        read := read + 1;
      } else {
        NextGroupKeeps(results, write, read, Combined(input));
        write := write + 1;
        results := Drain(results, write, read);
        read := write + 1;
      }
    }
    GroupingDone(results, write, Combined(input));
    results := results[..write + 1];
  }

  /** The last sample of the entry at `read` moved to the entry at `write`. */
  function AbsorbAt(rs: seq<PingExperimentResult>, write: nat, read: nat): seq<PingExperimentResult>
    requires write < |rs| && read < |rs| && |rs[read].samples| > 0
  {
    rs[read := Popped(rs[read])][write := Absorb(rs[write], rs[read])]
  }

  /** `drain(from..to)`: the entries from `from` up to `to` removed. */
  function Drain(rs: seq<PingExperimentResult>, from: nat, to: nat): seq<PingExperimentResult>
    requires from <= to <= |rs|
  {
    rs[..from] + rs[to..]
  }

  /** Absorbing the entry at `read` into the group at `write` keeps the grouping to come. */
  lemma AbsorbKeeps(rs: seq<PingExperimentResult>, write: nat, read: nat, goal: seq<PingExperimentResult>)
    requires GroupingInv(rs, write, read, goal) && read < |rs|
    requires SameKey(rs[write], rs[read])
    ensures GroupingInv(AbsorbAt(rs, write, read), write, read + 1, goal)
  {
    var rs' := AbsorbAt(rs, write, read);
    var acc := rs[..write + 1];
    var rest := rs[read..];
    assert rest[0] == rs[read] && rest[1..] == rs[read + 1..];
    assert rs'[..write + 1] == acc[..|acc| - 1] + [Absorb(Last(acc), rest[0])];
    assert rs'[read + 1..] == rest[1..];
  }

  /** Starting the next group at `read`, with the absorbed entries before it dropped, keeps
      the grouping to come. */
  lemma NextGroupKeeps(rs: seq<PingExperimentResult>, write: nat, read: nat, goal: seq<PingExperimentResult>)
    requires GroupingInv(rs, write, read, goal) && read < |rs|
    requires !SameKey(rs[write], rs[read])
    ensures GroupingInv(Drain(rs, write + 1, read), write + 1, write + 2, goal)
  {
    var rs' := Drain(rs, write + 1, read);
    var acc := rs[..write + 1];
    var rest := rs[read..];
    assert rest[0] == rs[read] && rest[1..] == rs[read + 1..];
    assert rs'[..write + 2] == acc + [rest[0]];
    assert rs'[write + 2..] == rest[1..];
  }

  // ---------------------------------------------------------------------------
  // What combining promises
  // ---------------------------------------------------------------------------

  /** The key results are grouped by. */
  function KeyOf(r: PingExperimentResult): (u64, PingTarget) {
    (r.id, r.target)
  }

  function Keys(s: seq<PingExperimentResult>): set<(u64, PingTarget)> {
    set r | r in s :: KeyOf(r)
  }

  /** The entries of `s` under key `k`, in order. */
  function FilterKey(s: seq<PingExperimentResult>, k: (u64, PingTarget)): seq<PingExperimentResult> {
    if |s| == 0 then []
    else (if KeyOf(s[0]) == k then [s[0]] else []) + FilterKey(s[1..], k)
  }

  /** The samples of the entries of `s`, in order. */
  function SamplesOf(s: seq<PingExperimentResult>): seq<PingSample> {
    if |s| == 0 then [] else s[0].samples + SamplesOf(s[1..])
  }

  /** Each entry of `out` holds the samples of all entries of `src` under its key. */
  predicate Gathered(out: seq<PingExperimentResult>, src: seq<PingExperimentResult>) {
    forall i :: 0 <= i < |out| ==> out[i].samples == SamplesOf(FilterKey(src, KeyOf(out[i])))
  }

  /** Every entry holds exactly one sample, as each one the receiver records does. */
  predicate Single(s: seq<PingExperimentResult>) {
    forall i :: 0 <= i < |s| ==> |s[i].samples| == 1
  }

  predicate SortedPairwise(s: seq<PingExperimentResult>) {
    forall i, j :: 0 <= i < j < |s| ==> CmpResult(s[i], s[j]) != Greater
  }

  predicate Increasing(s: seq<PingExperimentResult>) {
    forall i, j :: 0 <= i < j < |s| ==> CmpResult(s[i], s[j]) == Less
  }

  lemma CmpResultKey(a: PingExperimentResult, b: PingExperimentResult, c: PingExperimentResult)
    requires SameKey(a, b)
    ensures CmpResult(a, c) == CmpResult(b, c) && CmpResult(c, a) == CmpResult(c, b)
  {
  }

  /** Strict steps of `cmp_result` chain into strict steps. */
  lemma CmpResultLess(a: PingExperimentResult, b: PingExperimentResult, c: PingExperimentResult)
    ensures CmpResult(a, b) == Less && CmpResult(b, c) != Greater ==> CmpResult(a, c) == Less
    ensures CmpResult(a, b) != Greater && CmpResult(b, c) == Less ==> CmpResult(a, c) == Less
  {
    CmpResultOrder(a, b, c);
    CmpResultOrder(c, a, b);
    CmpResultOrder(b, c, a);
    CmpResultOrder(a, c, b);
    if CmpResult(a, c) == Equal {
      CmpResultKey(a, c, b);
    }
  }

  lemma {:induction false} SortedIsPairwise(s: seq<PingExperimentResult>)
    requires Sorted(s)
    ensures SortedPairwise(s)
  {
    if |s| > 1 {
      var t := s[..|s| - 1];
      assert Sorted(t) by {
        forall i | 0 <= i < |t| - 1
          ensures CmpResult(t[i], t[i + 1]) != Greater
        {
          assert t[i] == s[i] && t[i + 1] == s[i + 1];
        }
      }
      SortedIsPairwise(t);
      forall i, j | 0 <= i < j < |s|
        ensures CmpResult(s[i], s[j]) != Greater
      {
        if j < |s| - 1 {
          assert s[i] == t[i] && s[j] == t[j];
        } else if i < j - 1 {
          assert s[i] == t[i] && s[j - 1] == t[j - 1];
          CmpResultOrder(s[i], s[j - 1], s[j]);
        }
      }
    }
  }

  lemma {:induction false} FilterKeyAppend(a: seq<PingExperimentResult>, b: seq<PingExperimentResult>, k: (u64, PingTarget))
    ensures FilterKey(a + b, k) == FilterKey(a, k) + FilterKey(b, k)
  {
    if |a| > 0 {
      assert (a + b)[1..] == a[1..] + b;
      FilterKeyAppend(a[1..], b, k);
    } else {
      assert a + b == b;
    }
  }

  lemma {:induction false} SamplesOfAppend(a: seq<PingExperimentResult>, b: seq<PingExperimentResult>)
    ensures SamplesOf(a + b) == SamplesOf(a) + SamplesOf(b)
  {
    if |a| > 0 {
      assert (a + b)[1..] == a[1..] + b;
      SamplesOfAppend(a[1..], b);
    } else {
      assert a + b == b;
    }
  }

  lemma {:induction false} FilterKeyAbsent(s: seq<PingExperimentResult>, k: (u64, PingTarget))
    requires k !in Keys(s)
    ensures FilterKey(s, k) == []
  {
    if |s| > 0 {
      assert s[0] in s;
      assert Keys(s[1..]) <= Keys(s) by {
        forall r | r in s[1..]
          ensures r in s
        {
        }
      }
      FilterKeyAbsent(s[1..], k);
    }
  }

  lemma KeysAppend(a: seq<PingExperimentResult>, b: seq<PingExperimentResult>)
    ensures Keys(a + b) == Keys(a) + Keys(b)
  {
    forall r | r in a + b
      ensures r in a || r in b
    {
    }
  }

  /** An entry placed by `InsertSorted` lands after every entry of its key: the sort is
      stable. */
  lemma {:induction false} InsertSortedFilter(s: seq<PingExperimentResult>, x: PingExperimentResult, k: (u64, PingTarget))
    requires SortedPairwise(s)
    ensures FilterKey(InsertSorted(s, x), k) == FilterKey(s, k) + (if KeyOf(x) == k then [x] else [])
  {
    if |s| == 0 {
    } else if CmpResult(x, s[0]) == Less {
      assert ([x] + s)[1..] == s;
      if KeyOf(x) == k {
        assert k !in Keys(s) by {
          forall r | r in s
            ensures KeyOf(r) != k
          {
            var j :| 0 <= j < |s| && s[j] == r;
            CmpResultLess(x, s[0], r);
            CmpResultOrder(x, r, x);
          }
        }
        FilterKeyAbsent(s, k);
      }
    } else {
      var r := InsertSorted(s[1..], x);
      assert SortedPairwise(s[1..]) by {
        forall i, j | 0 <= i < j < |s[1..]|
          ensures CmpResult(s[1..][i], s[1..][j]) != Greater
        {
          assert s[1..][i] == s[i + 1] && s[1..][j] == s[j + 1];
        }
      }
      InsertSortedFilter(s[1..], x, k);
      assert ([s[0]] + r)[1..] == r;
    }
  }

  /** Sorting keeps the entries of each key in their order. */
  lemma FilterKeySingle(x: PingExperimentResult, k: (u64, PingTarget))
    ensures FilterKey([x], k) == if KeyOf(x) == k then [x] else []
  {
    assert [x][1..] == [];
  }

  lemma FilterKeySnoc(s: seq<PingExperimentResult>, k: (u64, PingTarget))
    requires |s| > 0
    ensures FilterKey(s, k) == FilterKey(s[..|s| - 1], k) + (if KeyOf(Last(s)) == k then [Last(s)] else [])
  {
    assert s == s[..|s| - 1] + [Last(s)];
    FilterKeyAppend(s[..|s| - 1], [Last(s)], k);
    FilterKeySingle(Last(s), k);
  }

  lemma SortedInsertFilter(init: seq<PingExperimentResult>, x: PingExperimentResult, k: (u64, PingTarget))
    ensures FilterKey(InsertSorted(SortResults(init), x), k) ==
      FilterKey(SortResults(init), k) + (if KeyOf(x) == k then [x] else [])
  {
    SortResultsSorted(init);
    SortedIsPairwise(SortResults(init));
    InsertSortedFilter(SortResults(init), x, k);
  }

  /** One step of the sort keeps the entries of each key in their order. */
  lemma SortStepStable(s: seq<PingExperimentResult>, k: (u64, PingTarget))
    requires |s| > 0
    requires FilterKey(SortResults(s[..|s| - 1]), k) == FilterKey(s[..|s| - 1], k)
    ensures FilterKey(SortResults(s), k) == FilterKey(s, k)
  {
    var init := s[..|s| - 1];
    var x := s[|s| - 1];
    SortedInsertFilter(init, x, k);
    FilterKeySnoc(s, k);
  }

  /** Sorting keeps the entries of each key in their order. */
  lemma {:induction false} SortResultsStable(s: seq<PingExperimentResult>, k: (u64, PingTarget))
    ensures FilterKey(SortResults(s), k) == FilterKey(s, k)
  {
    if |s| > 0 {
      SortResultsStable(s[..|s| - 1], k);
      SortStepStable(s, k);
    }
  }

  lemma SortResultsKeys(s: seq<PingExperimentResult>)
    ensures Keys(SortResults(s)) == Keys(s)
  {
    SortPermutes(s);
    var t := SortResults(s);
    forall r | r in t
      ensures r in s
    {
      assert r in multiset(t);
    }
    forall r | r in s
      ensures r in t
    {
      assert r in multiset(s);
    }
  }

  lemma KeysSingle(x: PingExperimentResult)
    ensures Keys([x]) == {KeyOf(x)}
  {
    assert forall r :: r in [x] <==> r == x;
  }

  /** Groups in increasing order, with the keys of the entries `done` they were built from,
      each holding the samples of its key in order. */
  predicate GatherInv(done: seq<PingExperimentResult>, acc: seq<PingExperimentResult>) {
    |acc| > 0 && Increasing(acc) && Keys(acc) == Keys(done) && Gathered(acc, done)
  }

  lemma AbsorbOrders(acc: seq<PingExperimentResult>, x: PingExperimentResult)
    requires |acc| > 0 && Increasing(acc) && |x.samples| > 0 && SameKey(Last(acc), x)
    ensures var acc' := acc[..|acc| - 1] + [Absorb(Last(acc), x)];
      Increasing(acc') && Keys(acc') == Keys(acc) && SameKey(Last(acc'), x)
  {
    var n := |acc|;
    var acc' := acc[..n - 1] + [Absorb(Last(acc), x)];
    forall i, j | 0 <= i < j < n
      ensures CmpResult(acc'[i], acc'[j]) == Less
    {
      CmpResultKey(acc'[j], acc[j], acc[i]);
    }
    assert acc == acc[..n - 1] + [Last(acc)];
    KeysAppend(acc[..n - 1], [Last(acc)]);
    KeysAppend(acc[..n - 1], [Absorb(Last(acc), x)]);
    KeysSingle(Last(acc));
    KeysSingle(Absorb(Last(acc), x));
  }

  lemma AbsorbGathers(done: seq<PingExperimentResult>, acc: seq<PingExperimentResult>, x: PingExperimentResult)
    requires GatherInv(done, acc) && |x.samples| == 1 && SameKey(Last(acc), x)
    ensures GatherInv(done + [x], acc[..|acc| - 1] + [Absorb(Last(acc), x)])
  {
    var n := |acc|;
    var acc' := acc[..n - 1] + [Absorb(Last(acc), x)];
    var done' := done + [x];
    AbsorbOrders(acc, x);
    KeysAppend(done, [x]);
    KeysSingle(x);
    assert Last(acc) in acc;
    forall i | 0 <= i < n
      ensures acc'[i].samples == SamplesOf(FilterKey(done', KeyOf(acc'[i])))
    {
      var k := KeyOf(acc'[i]);
      FilterKeyAppend(done, [x], k);
      assert [x][1..] == [];
      if i < n - 1 {
        assert acc'[i] == acc[i];
        CmpResultOrder(acc[i], acc[n - 1], acc[i]);
        assert FilterKey([x], k) == [];
        assert FilterKey(done', k) == FilterKey(done, k) + [] == FilterKey(done, k);
      } else {
        assert FilterKey([x], k) == [x];
        SamplesOfAppend(FilterKey(done, k), [x]);
        assert SamplesOf([x]) == x.samples == [Last(x.samples)];
        assert acc'[i].samples == Last(acc).samples + [Last(x.samples)];
      }
    }
  }

  lemma NewGroupOrders(acc: seq<PingExperimentResult>, x: PingExperimentResult)
    requires |acc| > 0 && Increasing(acc) && CmpResult(Last(acc), x) == Less
    ensures Increasing(acc + [x]) && KeyOf(x) !in Keys(acc)
  {
    var n := |acc|;
    var acc' := acc + [x];
    forall i, j | 0 <= i < j < n + 1
      ensures CmpResult(acc'[i], acc'[j]) == Less
    {
      if j == n && i < n - 1 {
        CmpResultLess(acc[i], acc[n - 1], x);
      }
    }
    forall r | r in acc
      ensures KeyOf(r) != KeyOf(x)
    {
      var i :| 0 <= i < n && acc[i] == r;
      if i < n - 1 {
        CmpResultLess(acc[i], acc[n - 1], x);
      }
      CmpResultOrder(r, x, r);
    }
  }

  lemma NewGroupGathers(done: seq<PingExperimentResult>, acc: seq<PingExperimentResult>, x: PingExperimentResult)
    requires GatherInv(done, acc) && |x.samples| == 1 && CmpResult(Last(acc), x) == Less
    ensures GatherInv(done + [x], acc + [x])
  {
    var n := |acc|;
    var acc' := acc + [x];
    var done' := done + [x];
    NewGroupOrders(acc, x);
    KeysAppend(done, [x]);
    KeysAppend(acc, [x]);
    KeysSingle(x);
    forall i | 0 <= i < n + 1
      ensures acc'[i].samples == SamplesOf(FilterKey(done', KeyOf(acc'[i])))
    {
      var k := KeyOf(acc'[i]);
      FilterKeyAppend(done, [x], k);
      assert [x][1..] == [];
      if i < n {
        assert acc'[i] == acc[i] && acc[i] in acc;
        assert FilterKey([x], k) == [];
        assert FilterKey(done', k) == FilterKey(done, k) + [] == FilterKey(done, k);
      } else {
        FilterKeyAbsent(done, k);
        assert FilterKey([x], k) == [x];
        assert SamplesOf([x]) == x.samples;
        assert FilterKey(done', k) == [] + [x] == [x];
      }
    }
  }

  /** Grouping sorted single-sample entries onto groups that keep `GatherInv` keeps it for
      everything seen. */
  lemma {:induction false} GroupFromGathers(done: seq<PingExperimentResult>, acc: seq<PingExperimentResult>, rest: seq<PingExperimentResult>)
    requires GatherInv(done, acc) && AllSampled(rest) && Single(rest) && SortedPairwise(rest)
    requires forall j :: 0 <= j < |rest| ==> CmpResult(Last(acc), rest[j]) != Greater
    ensures GatherInv(done + rest, GroupFrom(acc, rest))
    decreases |rest|
  {
    if |rest| == 0 {
      assert done + rest == done;
      return;
    }
    var x := rest[0];
    assert done + rest == (done + [x]) + rest[1..];
    assert SortedPairwise(rest[1..]) by {
      forall i, j | 0 <= i < j < |rest[1..]|
        ensures CmpResult(rest[1..][i], rest[1..][j]) != Greater
      {
        assert rest[1..][i] == rest[i + 1] && rest[1..][j] == rest[j + 1];
      }
    }
    if SameKey(Last(acc), x) {
      var acc' := acc[..|acc| - 1] + [Absorb(Last(acc), x)];
      AbsorbGathers(done, acc, x);
      AbsorbOrders(acc, x);
      forall j | 0 <= j < |rest[1..]|
        ensures CmpResult(Last(acc'), rest[1..][j]) != Greater
      {
        assert rest[1..][j] == rest[j + 1];
        CmpResultKey(Last(acc'), x, rest[j + 1]);
      }
      GroupFromGathers(done + [x], acc', rest[1..]);
    } else {
      CmpResultOrder(Last(acc), x, x);
      NewGroupGathers(done, acc, x);
      forall j | 0 <= j < |rest[1..]|
        ensures CmpResult(Last(acc + [x]), rest[1..][j]) != Greater
      {
        assert rest[1..][j] == rest[j + 1];
      }
      GroupFromGathers(done + [x], acc + [x], rest[1..]);
    }
  }

  lemma SortKeepsSingle(s: seq<PingExperimentResult>)
    requires Single(s)
    ensures Single(SortResults(s))
  {
    var sorted := SortResults(s);
    forall i | 0 <= i < |sorted|
      ensures |sorted[i].samples| == 1
    {
      SortPermutes(s);
      assert sorted[i] in multiset(s);
    }
  }

  predicate DistinctKeys(s: seq<PingExperimentResult>) {
    forall i, j :: 0 <= i < j < |s| ==> KeyOf(s[i]) != KeyOf(s[j])
  }

  lemma IncreasingDistinct(s: seq<PingExperimentResult>)
    requires Increasing(s)
    ensures DistinctKeys(s)
  {
    forall i, j | 0 <= i < j < |s|
      ensures KeyOf(s[i]) != KeyOf(s[j])
    {
      CmpResultOrder(s[i], s[j], s[i]);
    }
  }

  /** The last of entries with distinct keys has a key none of the others has. */
  lemma DistinctLast(s: seq<PingExperimentResult>)
    requires |s| > 0 && DistinctKeys(s)
    ensures DistinctKeys(s[..|s| - 1]) && KeyOf(Last(s)) !in Keys(s[..|s| - 1])
  {
    var init := s[..|s| - 1];
    forall i, j | 0 <= i < j < |init|
      ensures KeyOf(init[i]) != KeyOf(init[j])
    {
      assert init[i] == s[i] && init[j] == s[j];
    }
    forall r | r in init
      ensures KeyOf(r) != KeyOf(Last(s))
    {
      var i :| 0 <= i < |init| && init[i] == r;
      assert s[i] == r;
    }
  }

  lemma {:induction false} DistinctKeysCount(s: seq<PingExperimentResult>)
    requires DistinctKeys(s)
    ensures |Keys(s)| == |s|
  {
    if |s| > 0 {
      var init := s[..|s| - 1];
      DistinctLast(s);
      DistinctKeysCount(init);
      assert s == init + [Last(s)];
      KeysAppend(init, [Last(s)]);
      KeysSingle(Last(s));
    }
  }

  lemma StartGroups(x: PingExperimentResult)
    ensures GatherInv([x], [x])
  {
    KeysSingle(x);
    assert FilterKey([x], KeyOf(x)) == [x];
    assert SamplesOf([x]) == x.samples;
  }

  /** Grouping a sorted sequence of single-sample entries keeps `GatherInv` for all of it. */
  lemma GroupSortedGathers(sorted: seq<PingExperimentResult>)
    requires |sorted| > 0 && Single(sorted) && SortedPairwise(sorted)
    ensures AllSampled(sorted[1..]) && GatherInv(sorted, GroupFrom([sorted[0]], sorted[1..]))
  {
    var x := sorted[0];
    var rest := sorted[1..];
    StartGroups(x);
    assert forall j :: 0 <= j < |rest| ==> rest[j] == sorted[j + 1];
    assert SortedPairwise(rest);
    GroupFromGathers([x], [x], rest);
    assert [x] + rest == sorted;
  }

  /** `combine_experiments` on the results the receiver records (one sample each): one entry
      per key, in increasing `cmp_result` order, the keys those of the input, and each entry
      holding the samples of all input entries of its key, in input order. */
  lemma CombinedGathers(input: seq<PingExperimentResult>)
    requires Single(input)
    ensures AllSampled(input)
    ensures var r := Combined(input);
      Increasing(r) && Keys(r) == Keys(input) && Gathered(r, input) &&
      DistinctKeys(r) && |r| == |Keys(input)|
  {
    var sorted := SortResults(input);
    SortKeepsSampled(input);
    SortKeepsSingle(input);
    SortResultsKeys(input);
    var r := Combined(input);
    if |sorted| == 0 {
      assert input == [];
      assert Keys(input) == {};
    } else {
      SortResultsSorted(input);
      SortedIsPairwise(sorted);
      GroupSortedGathers(sorted);
      assert r == GroupFrom([sorted[0]], sorted[1..]);
      forall i | 0 <= i < |r|
        ensures r[i].samples == SamplesOf(FilterKey(input, KeyOf(r[i])))
      {
        SortResultsStable(input, KeyOf(r[i]));
      }
    }
    IncreasingDistinct(r);
    DistinctKeysCount(r);
  }

  lemma {:induction false} SingleSamplesCount(s: seq<PingExperimentResult>)
    requires Single(s)
    ensures |SamplesOf(s)| == |s|
  {
    if |s| > 0 {
      SingleSamplesCount(s[1..]);
    }
  }

  /** Every entry absorbed into a group brings its one sample along. */
  lemma {:induction false} GroupFromCount(acc: seq<PingExperimentResult>, rest: seq<PingExperimentResult>)
    requires |acc| > 0 && AllSampled(rest) && Single(rest)
    ensures |SamplesOf(GroupFrom(acc, rest))| == |SamplesOf(acc)| + |rest|
    decreases |rest|
  {
    if |rest| > 0 {
      var x := rest[0];
      var n := |acc|;
      assert acc == acc[..n - 1] + [Last(acc)];
      SamplesOfAppend(acc[..n - 1], [Last(acc)]);
      assert SamplesOf([x]) == x.samples;
      if SameKey(Last(acc), x) {
        var w := Absorb(Last(acc), x);
        SamplesOfAppend(acc[..n - 1], [w]);
        assert SamplesOf([w]) == w.samples;
        assert SamplesOf([Last(acc)]) == Last(acc).samples;
        GroupFromCount(acc[..n - 1] + [w], rest[1..]);
      } else {
        SamplesOfAppend(acc, [x]);
        GroupFromCount(acc + [x], rest[1..]);
      }
    }
  }

  /** No sample is lost when every input entry holds one. */
  lemma CombinedKeepsSamples(input: seq<PingExperimentResult>)
    requires Single(input)
    ensures AllSampled(input) && |SamplesOf(Combined(input))| == |input|
  {
    var sorted := SortResults(input);
    SortKeepsSingle(input);
    SortKeepsSampled(input);
    if |sorted| > 0 {
      assert SamplesOf([sorted[0]]) == sorted[0].samples;
      assert forall j :: 0 <= j < |sorted[1..]| ==> sorted[1..][j] == sorted[j + 1];
      GroupFromCount([sorted[0]], sorted[1..]);
    }
  }

  // The repository's combining test: three results for one target and one for another, all
  // of one experiment, give two entries, with three samples and one. It is stated for any
  // experiment id, ip, sample and pair of ports; the test's own are 32, 127.0.0.1, one sample
  // and the ports 1234 and 1236.

  function TestItems(id: u64, ip: IpAddr, p1: u16, p2: u16, sample: PingSample): seq<PingExperimentResult> {
    [PingExperimentResult(id, PingTarget(ip, p1), [sample]),
     PingExperimentResult(id, PingTarget(ip, p1), [sample]),
     PingExperimentResult(id, PingTarget(ip, p2), [sample]),
     PingExperimentResult(id, PingTarget(ip, p1), [sample])]
  }

  lemma TestItemsKeys(id: u64, ip: IpAddr, p1: u16, p2: u16, sample: PingSample)
    ensures var items := TestItems(id, ip, p1, p2, sample);
      Single(items) && Keys(items) == {(id, PingTarget(ip, p1)), (id, PingTarget(ip, p2))}
  {
    var items := TestItems(id, ip, p1, p2, sample);
    assert items[0] in items && items[2] in items;
  }

  lemma TestItemsSamples(id: u64, ip: IpAddr, p1: u16, p2: u16, sample: PingSample)
    requires p1 != p2
    ensures var items := TestItems(id, ip, p1, p2, sample);
      |SamplesOf(FilterKey(items, (id, PingTarget(ip, p1))))| == 3 &&
      |SamplesOf(FilterKey(items, (id, PingTarget(ip, p2))))| == 1
  {
    var items := TestItems(id, ip, p1, p2, sample);
    var k1 := (id, PingTarget(ip, p1));
    var k2 := (id, PingTarget(ip, p2));
    var t1 := items[1..];
    var t2 := t1[1..];
    var t3 := t2[1..];
    assert t3[1..] == [];
    assert t3 == [items[3]] && t2 == [items[2]] + t3 && t1 == [items[1]] + t2;
    assert FilterKey(t3[1..], k1) == [] && FilterKey(t3[1..], k2) == [];
    assert KeyOf(t3[0]) == k1 != k2;
    assert FilterKey(t3, k1) == [items[3]] && FilterKey(t3, k2) == [];
    assert FilterKey(t2, k1) == [items[3]] && FilterKey(t2, k2) == [items[2]];
    assert FilterKey(t1, k1) == [items[1], items[3]] && FilterKey(t1, k2) == [items[2]];
    assert FilterKey(items, k1) == [items[0], items[1], items[3]];
    assert FilterKey(items, k2) == [items[2]];
    SingleSamplesCount(FilterKey(items, k1));
    SingleSamplesCount(FilterKey(items, k2));
  }

  /** Two entries in increasing order under two keys come in the order of their ports. */
  lemma TwoTargetsInOrder(r: seq<PingExperimentResult>, id: u64, ip: IpAddr, p1: u16, p2: u16)
    requires p1 < p2 && |r| == 2 && Increasing(r)
    requires Keys(r) == {(id, PingTarget(ip, p1)), (id, PingTarget(ip, p2))}
    ensures KeyOf(r[0]) == (id, PingTarget(ip, p1)) && KeyOf(r[1]) == (id, PingTarget(ip, p2))
  {
    assert r[0] in r && r[1] in r;
    assert KeyOf(r[0]) in Keys(r) && KeyOf(r[1]) in Keys(r);
    assert CmpResult(r[0], r[1]) == Less;
    CompareIpTotalOrder(ip, ip, ip);
    IncreasingDistinct(r);
  }

  lemma TestCombine(id: u64, ip: IpAddr, p1: u16, p2: u16, sample: PingSample)
    requires p1 < p2
    ensures var r := Combined(TestItems(id, ip, p1, p2, sample));
      |r| == 2 &&
      r[0].target == PingTarget(ip, p1) && |r[0].samples| == 3 &&
      r[1].target == PingTarget(ip, p2) && |r[1].samples| == 1
  {
    var items := TestItems(id, ip, p1, p2, sample);
    TestItemsKeys(id, ip, p1, p2, sample);
    TestItemsSamples(id, ip, p1, p2, sample);
    CombinedGathers(items);
    var r := Combined(items);
    assert |Keys(items)| == 2;
    TwoTargetsInOrder(r, id, ip, p1, p2);
  }
}
