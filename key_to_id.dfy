/** `KeyToId`: an `IdSlab` of values together with a map from each key to the id of its
    value. */
module KeyToIds {
  import opened Ints
  import opened Wrappers
  import opened IdSlabs

  /** The capacity of the default slab: 1024 * 1024 entries. */
  const DEFAULT_CAPACITY: nat := 0x10_0000

  /** The ids a lookup map holds. */
  ghost function IdsOf<K>(m: map<K, u64>): set<u64> {
    set k | k in m :: m[k]
  }

  /** No two keys share an id. */
  ghost predicate Injective<K>(m: map<K, u64>) {
    forall k1, k2 :: k1 in m && k2 in m && m[k1] == m[k2] ==> k1 == k2
  }

  lemma IdsAdd<K>(m: map<K, u64>, key: K, id: u64)
    requires key !in m && Injective(m) && id !in IdsOf(m)
    ensures IdsOf(m[key := id]) == IdsOf(m) + {id} && Injective(m[key := id])
  {
    var m' := m[key := id];
    forall x ensures x in IdsOf(m') <==> x in IdsOf(m) + {id} {
      if x == id {
        assert m'[key] == id;
      }
      if x in IdsOf(m') {
        var k :| k in m' && m'[k] == x;
      }
      if x in IdsOf(m) {
        var k :| k in m && m[k] == x;
        assert m'[k] == x;
      }
    }
  }

  lemma IdsRemove<K>(m: map<K, u64>, key: K)
    requires key in m && Injective(m)
    ensures IdsOf(m - {key}) == IdsOf(m) - {m[key]} && Injective(m - {key})
  {
    var m' := m - {key};
    forall x ensures x in IdsOf(m') <==> x in IdsOf(m) - {m[key]} {
      if x in IdsOf(m') {
        var k :| k in m' && m'[k] == x;
      }
      if x in IdsOf(m) - {m[key]} {
        var k :| k in m && m[k] == x;
        assert m'[k] == x;
      }
    }
  }

  class KeyToId<K(==), V> {
    const items: IdSlab<V>
    var lookup: map<K, u64>

    /** The slab is valid, the lookup's ids are exactly the slab's live ids, and no two keys
        share an id. */
    ghost predicate Valid()
      reads this, items
    {
      items.Valid()
      && IdsOf(lookup) == items.Live().Keys
      && Injective(lookup)
    }

    /** The value a key's id holds in the slab. */
    ghost function ValueOf(k: K): V
      reads this, items
      requires Valid() && k in lookup
    {
      assert lookup[k] in IdsOf(lookup);
      items.Live()[lookup[k]]
    }

    /** `default`: an empty lookup over an empty slab of 1024 * 1024 entries. */
    constructor ()
      ensures Valid() && fresh(items) && lookup == map[] && items.Live() == map[]
      ensures items.Capacity() == DEFAULT_CAPACITY
    {
      items := new IdSlab.WithCapacity(DEFAULT_CAPACITY);
      lookup := map[];
    }

    /** `get_or_add`: a key already present gets its id back and nothing changes (the value
        is not used); a new key gets the id of a fresh slab entry holding `value`, or `None`,
        with nothing changed, when the slab is full. */
    method GetOrAdd(key: K, value: V) returns (r: Option<u64>)
      requires Valid()
      modifies this, items
      ensures Valid()
      ensures key in old(lookup) ==> (r == Some(old(lookup)[key]) && lookup == old(lookup)
        && items.entries == old(items.entries) && items.freeSlots == old(items.freeSlots))
      ensures key !in old(lookup) ==> (r.None? <==> old(items.Available()) == 0)
      ensures key !in old(lookup) && r.None? ==> lookup == old(lookup) && items.entries == old(items.entries) && items.freeSlots == old(items.freeSlots)
      ensures key !in old(lookup) && r.Some? ==> (r.value !in old(items.Live())
        && lookup == old(lookup)[key := r.value]
        && items.Live() == old(items.Live())[r.value := value])
    {
      if key in lookup {
        return Some(lookup[key]);
      }
      var entry := items.VacantEntry();
      if entry.None? {
        return None;
      }
      var id := entry.value.id;
      var inserted := items.VacantInsert(entry.value, value);
      IdsAdd(lookup, key, id);
      lookup := lookup[key := id];
      r := Some(id);
    }

    /** `remove`: `None` for an absent key; otherwise the key's mapping and its slab entry
        are deleted and the id and value come back. */
    method Remove(key: K) returns (r: Option<(u64, V)>)
      requires Valid()
      modifies this, items
      ensures Valid()
      ensures key !in old(lookup) ==> r.None? && lookup == old(lookup) && items.entries == old(items.entries) && items.freeSlots == old(items.freeSlots)
      ensures key in old(lookup) ==> (r == Some((old(lookup)[key], old(ValueOf(key))))
        && lookup == old(lookup) - {key}
        && items.Live() == old(items.Live()) - {old(lookup)[key]})
    {
      if key !in lookup {
        return None;
      }
      var id := lookup[key];
      assert id in IdsOf(lookup);
      IdsRemove(lookup, key);
      lookup := lookup - {key};
      var removed := items.Remove(id);
      r := Some((id, removed.value));
    }
  }
}
