/** `InstanceCount`: how many instances of each key are alive, with a key dropped as soon
    as its count returns to zero. */
module InstanceCounts {
  import opened Wrappers

  class InstanceCount<K(==,!new)> {
    var counters: map<K, nat>

    /** Every stored count is at least one. */
    ghost predicate Valid()
      reads this
    {
      forall k :: k in counters ==> counters[k] >= 1
    }

    /** The number of live instances of `key`: zero when it has no entry. */
    function Count(key: K): nat
      reads this
    {
      if key in counters then counters[key] else 0
    }

    /** `default`: no key has an instance. */
    constructor ()
      ensures Valid() && counters == map[]
      ensures forall k :: Count(k) == 0
    {
      counters := map[];
    }

    /** `has_instance`: the key is present exactly when it has a live instance. */
    function HasInstance(key: K): (r: bool)
      reads this
      requires Valid()
      ensures r <==> Count(key) > 0
    {
      key in counters
    }

    /** `is_empty`: no key has an instance. */
    function IsEmpty(): (r: bool)
      reads this
      requires Valid()
      ensures r <==> forall k :: Count(k) == 0
    {
      if counters == map[] then true
      else
        var k :| k in counters;
        assert Count(k) > 0;
        false
    }

    /** `inc`: one more instance of `key`; the result is its new count, 1 for a new key. */
    method Inc(key: K) returns (r: nat)
      requires Valid()
      modifies this
      ensures Valid()
      ensures r == old(Count(key)) + 1 && Count(key) == r
      ensures forall k :: k != key ==> Count(k) == old(Count(k))
      ensures counters.Keys == old(counters.Keys) + {key}
    {
      if key in counters {
        var value := counters[key] + 1;
        counters := counters[key := value];
        return value;
      }
      counters := counters[key := 1];
      return 1;
    }

    /** `dec`: `None`, changing nothing, when the key has no instance; otherwise one fewer,
        the result is the new count, and a key whose count reaches zero is removed. */
    method Dec(key: K) returns (r: Option<nat>)
      requires Valid()
      modifies this
      ensures Valid()
      ensures old(Count(key)) == 0 <==> r.None?
      ensures r.None? ==> counters == old(counters)
      ensures r.Some? ==> r.value == old(Count(key)) - 1 && Count(key) == r.value
      ensures forall k :: k != key ==> Count(k) == old(Count(k))
      ensures r == Some(0) ==> counters.Keys == old(counters.Keys) - {key}
    {
      if key !in counters {
        return None;
      }
      var count := counters[key];
      var value := count - 1;
      if value == 0 {
        counters := counters - {key};
      } else {
        counters := counters[key := value];
      }
      return Some(value);
    }
  }
}
