/** `IdSlab`: a fixed number of slots handed out as 64-bit ids. The low 32 bits of an id are
    its slot, the bits above count how often the slot has been reused, and bit 63 marks a
    slot as empty. A stack of free slots says which slot the next insert takes. */
module IdSlabs {
  import opened Ints
  import opened Wrappers

  const EMPTY_BIT: nat := TWO_63
  /** One step of the reuse counter: `u32::MAX + 1`. */
  const USE_NUM: nat := TWO_32
  /** The number of reuse-counter values: bits 32 to 62. */
  const TWO_31: nat := 0x8000_0000

  /** `id & EMPTY_BIT == EMPTY_BIT`. */
  predicate IsEmptyId(id: u64) {
    id >= EMPTY_BIT
  }

  /** `EMPTY_BIT | id`. */
  function SetEmpty(id: u64): (r: u64)
    ensures IsEmptyId(r) && r % EMPTY_BIT == id % EMPTY_BIT
  {
    if id >= EMPTY_BIT then id else id + EMPTY_BIT
  }

  /** `EMPTY_BIT_NEG & id`. */
  function ClearEmpty(id: u64): (r: u64)
    ensures !IsEmptyId(r) && r % EMPTY_BIT == id % EMPTY_BIT
  {
    id % EMPTY_BIT
  }

  /** `id & SLOT_MASK`. */
  function SlotOf(id: u64): nat {
    id % USE_NUM
  }

  datatype Entry<T> = Entry(id: u64, value: Option<T>)

  /** The id the next allocation of a slot hands out, given the entry's id after `remove`. */
  function ReusedId(id: u64): (r: u64)
    requires !IsEmptyId(id)
  {
    ClearEmpty(SetEmpty(id + USE_NUM))
  }

  /** Every removal moves the next id of a slot on by one step of the counter, modulo the
      31 counter bits below bit 63, and keeps the slot. */
  lemma ReusedIdStep(id: u64)
    requires !IsEmptyId(id)
    ensures ReusedId(id) == (id + USE_NUM) % EMPTY_BIT
    ensures SlotOf(ReusedId(id)) == SlotOf(id) && ReusedId(id) != id
  {
    var r := (id + USE_NUM) % EMPTY_BIT;
    assert EMPTY_BIT == USE_NUM * TWO_31;
    assert r == id + USE_NUM || r == id + USE_NUM - EMPTY_BIT;
  }

  /** The id a slot hands out after `k` reuses. */
  function IdAfter(id: u64, k: nat): (r: u64)
    requires !IsEmptyId(id)
    ensures !IsEmptyId(r)
    decreases k
  {
    if k == 0 then id else ReusedId(IdAfter(id, k - 1))
  }

  /** Ids of one slot do not repeat until its counter wraps: the first 2^31 ids a slot
      hands out are pairwise distinct. */
  lemma {:induction false} IdAfterDistinct(id: u64, j: nat, k: nat)
    requires !IsEmptyId(id) && j < k < TWO_31
    ensures IdAfter(id, j) != IdAfter(id, k)
  {
    IdAfterValue(id, j);
    IdAfterValue(id, k);
    var a, b := id + j * USE_NUM, id + k * USE_NUM;
    assert b - a == (k - j) * USE_NUM;
    assert 0 < (k - j) * USE_NUM < EMPTY_BIT by {
      assert EMPTY_BIT == USE_NUM * TWO_31;
    }
    ModDiffNonZero(a, b);
  }

  lemma {:induction false} IdAfterValue(id: u64, k: nat)
    requires !IsEmptyId(id)
    ensures IdAfter(id, k) == (id + k * USE_NUM) % EMPTY_BIT
    decreases k
  {
    if k > 0 {
      IdAfterValue(id, k - 1);
      ReusedIdStep(IdAfter(id, k - 1));
      ModAddMod(id + (k - 1) * USE_NUM, USE_NUM);
    }
  }

  lemma ModAddMod(a: nat, b: nat)
    ensures (a % 0x8000_0000_0000_0000 + b) % 0x8000_0000_0000_0000 == (a + b) % 0x8000_0000_0000_0000
  {
  }

  lemma ModDiffNonZero(a: nat, b: nat)
    requires 0 < b - a < 0x8000_0000_0000_0000
    ensures a % 0x8000_0000_0000_0000 != b % 0x8000_0000_0000_0000
  {
  }

  predicate NoDup(s: seq<nat>) {
    forall i, j :: 0 <= i < j < |s| ==> s[i] != s[j]
  }

  /** What a vacant entry holds: the id it will insert under and its slot. */
  datatype IdSlabVacantEntry = IdSlabVacantEntry(id: u64, slot: nat)

  lemma SlotOfKept(a: u64, b: u64)
    requires a % EMPTY_BIT == b % EMPTY_BIT
    ensures SlotOf(a) == SlotOf(b)
  {
    ModOfMod(a);
    ModOfMod(b);
  }

  lemma ModOfMod(x: nat)
    ensures (x % 0x8000_0000_0000_0000) % 0x1_0000_0000 == x % 0x1_0000_0000
  {
  }

  // ---------------------------------------------------------------------------
  // The slab's state as values: entries and the free stack
  // ---------------------------------------------------------------------------

  /** The slab's invariant, with one slot optionally held by a vacant entry: the slot bits
      of every entry's id are its position, an entry holds a value exactly when it is not
      marked empty, and the free stack holds each empty slot but the held one exactly
      once. */
  ghost predicate InvOf<T>(es: seq<Entry<T>>, fs: seq<nat>, held: Option<nat>) {
    |es| <= TWO_32
    && (forall i :: 0 <= i < |es| ==> SlotOf(es[i].id) == i)
    && (forall i :: 0 <= i < |es| ==> (IsEmptyId(es[i].id) <==> es[i].value.None?))
    && (forall k :: 0 <= k < |fs| ==> fs[k] < |es|)
    && NoDup(fs)
    && (forall i :: 0 <= i < |es| ==> (IsEmptyId(es[i].id) <==> (i in fs || held == Some(i))))
    && (held.Some? ==> held.value < |es| && held.value !in fs)
  }

  /** The live ids and the values they hold. */
  ghost function LiveOf<T>(es: seq<Entry<T>>): map<u64, T> {
    map i | 0 <= i < |es| && SlotOf(es[i].id) == i && !IsEmptyId(es[i].id) && es[i].value.Some?
      :: es[i].id := es[i].value.value
  }

  lemma LiveOfMember<T>(es: seq<Entry<T>>, id: u64)
    requires InvOf(es, [], None) || forall i :: 0 <= i < |es| ==> SlotOf(es[i].id) == i
    ensures id in LiveOf(es) <==> SlotOf(id) < |es| && es[SlotOf(id)].id == id && !IsEmptyId(id) && es[SlotOf(id)].value.Some?
  {
    if id in LiveOf(es) {
      var i :| 0 <= i < |es| && SlotOf(es[i].id) == i && !IsEmptyId(es[i].id) && es[i].value.Some? && es[i].id == id;
    }
  }

  /** Popping the top of the free stack hands its slot to a vacant entry. */
  lemma PopHeld<T>(es: seq<Entry<T>>, fs: seq<nat>)
    requires InvOf(es, fs, None) && |fs| > 0
    ensures InvOf(es, fs[..|fs| - 1], Some(fs[|fs| - 1]))
    ensures ClearEmpty(es[fs[|fs| - 1]].id) !in LiveOf(es)
  {
    var n := |fs| - 1;
    var id := ClearEmpty(es[fs[n]].id);
    SlotOfKept(id, es[fs[n]].id);
    LiveOfMember(es, id);
    forall i | 0 <= i < |es| ensures i in fs <==> (i in fs[..n] || i == fs[n]) {
      if i in fs {
        var k :| 0 <= k < |fs| && fs[k] == i;
        if k < n { assert fs[..n][k] == i; }
      }
    }
  }

  /** A held slot that gets a value becomes live under its current reuse count. */
  lemma OccupyHeld<T>(es: seq<Entry<T>>, fs: seq<nat>, slot: nat, value: T)
    requires InvOf(es, fs, Some(slot))
    ensures var id := ClearEmpty(es[slot].id);
      var es' := es[slot := Entry(id, Some(value))];
      InvOf(es', fs, None) && id !in LiveOf(es) && LiveOf(es') == LiveOf(es)[id := value]
      && SlotOf(id) == slot
  {
    var id := ClearEmpty(es[slot].id);
    var es' := es[slot := Entry(id, Some(value))];
    SlotOfKept(id, es[slot].id);
    LiveOfMember(es, id);
    forall k | k in LiveOf(es') ensures k in LiveOf(es)[id := value] && LiveOf(es')[k] == LiveOf(es)[id := value][k] {
      LiveOfMember(es', k);
      LiveOfMember(es, k);
    }
    forall k | k in LiveOf(es)[id := value] ensures k in LiveOf(es') {
      LiveOfMember(es', k);
      LiveOfMember(es, k);
    }
  }

  /** A vacant entry dropped unused gives its slot back to the free stack. */
  lemma ReleaseHeld<T>(es: seq<Entry<T>>, fs: seq<nat>, slot: nat)
    requires InvOf(es, fs, Some(slot))
    ensures InvOf(es, fs + [slot], None)
  {
    forall i, j | 0 <= i < j < |fs + [slot]| ensures (fs + [slot])[i] != (fs + [slot])[j] {
      if j == |fs| { assert (fs + [slot])[i] == fs[i]; }
    }
  }

  /** Emptying a live slot with its reuse count moved on puts it on the free stack and ends
      its id. */
  lemma RemoveLive<T>(es: seq<Entry<T>>, fs: seq<nat>, slot: nat)
    requires InvOf(es, fs, None) && slot < |es| && !IsEmptyId(es[slot].id)
    ensures var es' := es[slot := Entry(SetEmpty(es[slot].id + USE_NUM), None)];
      InvOf(es', fs + [slot], None) && LiveOf(es') == LiveOf(es) - {es[slot].id}
  {
    var old_id := es[slot].id;
    var nid := SetEmpty(old_id + USE_NUM);
    var es' := es[slot := Entry(nid, None)];
    ReusedIdStep(old_id);
    SlotOfKept(nid, ClearEmpty(nid));
    assert SlotOf(nid) == slot;
    forall i, j | 0 <= i < j < |fs + [slot]| ensures (fs + [slot])[i] != (fs + [slot])[j] {
      if j == |fs| { assert (fs + [slot])[i] == fs[i]; }
    }
    forall k | k in LiveOf(es') ensures k in LiveOf(es) - {old_id} && LiveOf(es')[k] == LiveOf(es)[k] {
      LiveOfMember(es', k);
      LiveOfMember(es, k);
    }
    forall k | k in LiveOf(es) - {old_id} ensures k in LiveOf(es') {
      LiveOfMember(es', k);
      LiveOfMember(es, k);
    }
  }

  /** The values of the occupied entries, in slot order: what `iter` yields. */
  function OccupiedValues<T>(es: seq<Entry<T>>): seq<T>
  {
    if |es| == 0 then []
    else
      var last := es[|es| - 1];
      OccupiedValues(es[..|es| - 1]) + (if !IsEmptyId(last.id) && last.value.Some? then [last.value.value] else [])
  }

  lemma {:induction false} OccupiedSplit<T>(es: seq<Entry<T>>, n: nat)
    requires n <= |es|
    ensures OccupiedValues(es) == OccupiedValues(es[..n]) + OccupiedValues(es[n..])
    decreases |es|
  {
    if n < |es| {
      var init := es[..|es| - 1];
      OccupiedSplit(init, n);
      assert init[..n] == es[..n];
      assert es[n..][..|es[n..]| - 1] == init[n..];
    } else {
      assert es[..n] == es;
    }
  }

  /** The loop of `iter`: walk the slots in order, skip the empty ones, and stop once `len`
      values have been yielded. A slot not marked empty holds a value, which the source reads
      without a check. */
  method IterEntries<T>(es: seq<Entry<T>>, len: nat) returns (vs: seq<T>)
    requires forall i :: 0 <= i < |es| && !IsEmptyId(es[i].id) ==> es[i].value.Some?
    requires len == |OccupiedValues(es)|
    ensures vs == OccupiedValues(es)
  {
    vs := [];
    var slot := 0;
    var remaining := len;
    while slot < |es| && remaining > 0
      invariant 0 <= slot <= |es|
      invariant vs == OccupiedValues(es[..slot])
      invariant remaining == len - |vs| >= 0
    {
      var entry := es[slot];
      assert es[..slot + 1][..slot] == es[..slot];
      slot := slot + 1;
      if IsEmptyId(entry.id) {
        continue;
      }
      remaining := remaining - 1;
      vs := vs + [entry.value.value];
    }
    OccupiedSplit(es, slot);
    assert es[..|es|] == es;
  }

  function EmptySlots<T>(es: seq<Entry<T>>): set<nat> {
    set i | 0 <= i < |es| && IsEmptyId(es[i].id)
  }

  /** Occupied and empty entries together make up every entry. */
  lemma {:induction false} CountEntries<T>(es: seq<Entry<T>>)
    requires forall i :: 0 <= i < |es| ==> (IsEmptyId(es[i].id) <==> es[i].value.None?)
    ensures |OccupiedValues(es)| + |EmptySlots(es)| == |es|
    decreases |es|
  {
    if |es| > 0 {
      var init := es[..|es| - 1];
      CountEntries(init);
      var n := |es| - 1;
      if IsEmptyId(es[n].id) {
        assert EmptySlots(es) == EmptySlots(init) + {n};
      } else {
        assert EmptySlots(es) == EmptySlots(init);
      }
    }
  }

  function Elems(s: seq<nat>): set<nat> {
    set x | x in s
  }

  lemma {:induction false} NoDupCard(s: seq<nat>)
    requires NoDup(s)
    ensures |Elems(s)| == |s|
    decreases |s|
  {
    if |s| > 0 {
      var init := s[..|s| - 1];
      var last := s[|s| - 1];
      assert NoDup(init);
      NoDupCard(init);
      assert s == init + [last];
      assert Elems(s) == Elems(init) + {last};
    }
  }

  /** The number of live ids is the number of occupied entries. */
  lemma CountLive<T>(es: seq<Entry<T>>, fs: seq<nat>)
    requires InvOf(es, fs, None)
    ensures |OccupiedValues(es)| == |es| - |fs| == |LiveOf(es)|
  {
    CountEntries(es);
    NoDupCard(fs);
    forall x ensures x in EmptySlots(es) <==> x in fs {
      if x in fs {
        var k :| 0 <= k < |fs| && fs[k] == x;
      }
    }
    assert EmptySlots(es) == Elems(fs);
    LiveCount(es);
  }

  /** One more entry at the end adds its id when it is occupied. */
  lemma LiveOfSnoc<T>(p: seq<Entry<T>>, e: Entry<T>)
    requires forall i :: 0 <= i < |p| ==> SlotOf(p[i].id) == i
    requires SlotOf(e.id) == |p|
    ensures e.id !in LiveOf(p)
    ensures LiveOf(p + [e]) == if !IsEmptyId(e.id) && e.value.Some? then LiveOf(p)[e.id := e.value.value] else LiveOf(p)
  {
    var q := p + [e];
    assert forall i :: 0 <= i < |q| ==> SlotOf(q[i].id) == i;
    LiveOfMember(p, e.id);
    var m := if !IsEmptyId(e.id) && e.value.Some? then LiveOf(p)[e.id := e.value.value] else LiveOf(p);
    forall k | k in LiveOf(q) ensures k in m && LiveOf(q)[k] == m[k] {
      LiveOfMember(p, k);
      LiveOfMember(q, k);
    }
    forall k | k in m ensures k in LiveOf(q) {
      LiveOfMember(p, k);
      LiveOfMember(q, k);
    }
  }

  lemma {:induction false} LiveCount<T>(es: seq<Entry<T>>)
    requires forall i :: 0 <= i < |es| ==> SlotOf(es[i].id) == i
    ensures |LiveOf(es)| == |OccupiedValues(es)|
    decreases |es|
  {
    if |es| > 0 {
      var p := es[..|es| - 1];
      var e := es[|es| - 1];
      LiveCount(p);
      assert es == p + [e];
      LiveOfSnoc(p, e);
    }
  }

  class IdSlab<T> {
    var entries: seq<Entry<T>>
    var freeSlots: seq<nat>

    ghost predicate Inv(held: Option<nat>)
      reads this
    {
      InvOf(entries, freeSlots, held)
    }

    ghost predicate Valid()
      reads this
    {
      Inv(None)
    }

    ghost function Live(): map<u64, T>
      reads this
    {
      LiveOf(entries)
    }

    /** `with_capacity`: every slot empty with reuse count 0, and the free stack
        `capacity - 1, ..., 1, 0`, so the first allocation takes slot 0. */
    constructor WithCapacity(capacity: nat)
      requires capacity <= TWO_32
      ensures Valid() && Capacity() == capacity && Len() == 0 && Live() == map[]
      ensures entries == seq(capacity, i requires 0 <= i < capacity => Entry(EMPTY_BIT + i, None))
      ensures freeSlots == seq(capacity, i requires 0 <= i < capacity => capacity - 1 - i)
      ensures capacity > 0 ==> freeSlots[capacity - 1] == 0
    {
      entries := [];
      freeSlots := [];
      new;
      var pos := 0;
      while pos < capacity
        invariant 0 <= pos <= capacity
        invariant entries == seq(pos, i requires 0 <= i < pos => Entry(EMPTY_BIT + i, None))
        invariant freeSlots == seq(pos, i requires 0 <= i < pos => capacity - 1 - i)
      {
        entries := entries + [Entry(EMPTY_BIT + pos, None)];
        freeSlots := freeSlots + [capacity - (pos + 1)];
        pos := pos + 1;
      }
      forall i | 0 <= i < capacity ensures i in freeSlots {
        assert freeSlots[capacity - 1 - i] == i;
      }
      forall i | 0 <= i < capacity ensures SlotOf(entries[i].id) == i {
        assert entries[i].id == EMPTY_BIT + i;
        assert EMPTY_BIT == USE_NUM * TWO_31;
      }
      assert Live() == map[];
    }

    function Capacity(): nat
      reads this
    {
      |entries|
    }

    /** `len`: capacity minus free slots, which is the number of live ids. */
    function Len(): (n: int)
      reads this
      requires Valid()
      ensures n >= 0 && n == |OccupiedValues(entries)| && n == |Live()|
    {
      CountLive(entries, freeSlots);
      |entries| - |freeSlots|
    }

    /** `available`. */
    function Available(): nat
      reads this
    {
      |freeSlots|
    }

    /** `slot`: `None` when the slot bits are past the last entry. */
    function Slot(id: u64): (r: Option<nat>)
      reads this
      ensures r.Some? <==> SlotOf(id) < |entries|
      ensures r.Some? ==> r.value == SlotOf(id)
    {
      var slot := SlotOf(id);
      if |entries| <= slot then None else Some(slot)
    }

    /** `get`: the value in the id's slot, if that slot is occupied. */
    function Get(id: u64): (r: Option<T>)
      reads this
      ensures r.Some? ==> SlotOf(id) < |entries| && !IsEmptyId(entries[SlotOf(id)].id) && entries[SlotOf(id)].value == r
      ensures Slot(id).None? ==> r.None?
    {
      match Slot(id)
      case None => None
      case Some(slot) => if IsEmptyId(entries[slot].id) then None else entries[slot].value
    }

    /** A live id finds its value. An id finds a value exactly when some live id has its
        slot bits, and then it finds that id's value whatever its own reuse count: a stale
        id reaches the slot's new occupant. */
    lemma GetLive(id: u64)
      requires Valid()
      ensures id in Live() ==> Get(id) == Some(Live()[id])
      ensures Get(id).Some? <==> (SlotOf(id) < |entries| && entries[SlotOf(id)].id in Live())
      ensures Get(id).Some? ==> (SlotOf(entries[SlotOf(id)].id) == SlotOf(id)
        && Get(id) == Some(Live()[entries[SlotOf(id)].id]))
    {
      LiveOfMember(entries, id);
      if SlotOf(id) < |entries| {
        LiveOfMember(entries, entries[SlotOf(id)].id);
      }
    }

    /** `insert`: `Err(value)` with nothing changed when no slot is free; otherwise the top
        free slot is occupied under its current reuse count, which makes a new live id. */
    method Insert(value: T) returns (r: Result<u64, T>)
      requires Valid()
      modifies this
      ensures Valid()
      ensures old(|freeSlots|) == 0 <==> r.Err?
      ensures r.Err? ==> r.error == value && entries == old(entries) && freeSlots == old(freeSlots)
      ensures r.Ok? ==> r.value !in old(Live()) && Live() == old(Live())[r.value := value]
      ensures r.Ok? ==> Len() == old(Len()) + 1
      ensures r.Ok? ==> var slot := old(freeSlots[|freeSlots| - 1]);
        SlotOf(r.value) == slot && r.value == ClearEmpty(old(entries[slot].id))
        && freeSlots == old(freeSlots[..|freeSlots| - 1])
    {
      if |freeSlots| == 0 {
        return Err(value);
      }
      var slot := freeSlots[|freeSlots| - 1];
      PopHeld(entries, freeSlots);
      freeSlots := freeSlots[..|freeSlots| - 1];
      var id := ClearEmpty(entries[slot].id);
      OccupyHeld(entries, freeSlots, slot, value);
      entries := entries[slot := Entry(id, Some(value))];
      r := Ok(id);
    }

    /** `vacant_entry`: `None` with nothing changed when no slot is free; otherwise the top
        free slot is popped and held, and the entry knows the id an insert will get. */
    method VacantEntry() returns (r: Option<IdSlabVacantEntry>)
      requires Valid()
      modifies this
      ensures old(|freeSlots|) == 0 <==> r.None?
      ensures entries == old(entries)
      ensures r.None? ==> freeSlots == old(freeSlots) && Valid()
      ensures r.Some? ==> (Inv(Some(r.value.slot)) && r.value.slot == old(freeSlots[|freeSlots| - 1])
        && freeSlots == old(freeSlots[..|freeSlots| - 1])
        && r.value.id == ClearEmpty(entries[r.value.slot].id) && r.value.id !in Live())
    {
      if |freeSlots| == 0 {
        return None;
      }
      var slot := freeSlots[|freeSlots| - 1];
      PopHeld(entries, freeSlots);
      freeSlots := freeSlots[..|freeSlots| - 1];
      var id := ClearEmpty(entries[slot].id);
      r := Some(IdSlabVacantEntry(id, slot));
    }

    /** `IdSlabVacantEntry::insert`: the held slot is occupied under the entry's id. */
    method VacantInsert(e: IdSlabVacantEntry, value: T) returns (id: u64)
      requires Inv(Some(e.slot)) && e.id == ClearEmpty(entries[e.slot].id)
      modifies this
      ensures Valid() && id == e.id && freeSlots == old(freeSlots)
      ensures Live() == old(Live())[id := value] && Len() == |old(Live())| + 1
    {
      OccupyHeld(entries, freeSlots, e.slot, value);
      id := ClearEmpty(entries[e.slot].id);
      entries := entries[e.slot := Entry(id, Some(value))];
      LiveOfMember(old(entries), id);
    }

    /** Dropping an unused vacant entry pushes its slot back, so a `vacant_entry` followed
        by a drop leaves the slab as it was. */
    method VacantDrop(e: IdSlabVacantEntry)
      requires Inv(Some(e.slot))
      modifies this
      ensures Valid() && entries == old(entries) && freeSlots == old(freeSlots) + [e.slot]
    {
      ReleaseHeld(entries, freeSlots, e.slot);
      freeSlots := freeSlots + [e.slot];
    }

    /** `remove`: what `get` would return; when that is a value, its slot is emptied with the
        reuse count moved on, pushed on the free stack, and the occupant's id is no longer
        live. */
    method Remove(id: u64) returns (r: Option<T>)
      requires Valid()
      modifies this
      ensures Valid() && r == old(Get(id))
      ensures r.None? ==> entries == old(entries) && freeSlots == old(freeSlots)
      ensures r.Some? ==> var slot := SlotOf(id);
        Live() == old(Live()) - {old(entries[slot].id)} && freeSlots == old(freeSlots) + [slot]
        && slot < |entries| && ClearEmpty(entries[slot].id) == ReusedId(old(entries[slot].id))
        && Len() == old(Len()) - 1
      ensures id in old(Live()) ==> r == Some(old(Live())[id]) && Live() == old(Live()) - {id}
    {
      LiveOfMember(entries, id);
      var slot := Slot(id);
      if slot.None? {
        return None;
      }
      var s := slot.value;
      var entry := entries[s];
      if IsEmptyId(entry.id) {
        return None;
      }
      RemoveLive(entries, freeSlots, s);
      entries := entries[s := Entry(SetEmpty(entry.id + USE_NUM), None)];
      freeSlots := freeSlots + [s];
      r := entry.value;
    }

    /** `iter`: the occupied values in slot order, stopping once `len` of them are out. */
    method Iter() returns (vs: seq<T>)
      requires Valid()
      ensures vs == OccupiedValues(entries) && |vs| == Len()
    {
      vs := IterEntries(entries, Len());
    }
  }
}
