/** `NonOverlapping`: a list of elements that an overlap check keeps apart, with an identity
    check for lookup and removal. The checker is fixed when the list is made. */
module NonOverlappings {
  import opened Wrappers

  /** The first index whose element `isSame` says is `item`, if any. */
  function Position<T>(s: seq<T>, isSame: (T, T) -> bool, item: T): (r: Option<nat>)
    ensures r.Some? ==> (r.value < |s| && isSame(s[r.value], item)
      && forall i :: 0 <= i < r.value ==> !isSame(s[i], item))
    ensures r.None? <==> forall i :: 0 <= i < |s| ==> !isSame(s[i], item)
    decreases |s|
  {
    if |s| == 0 then None
    else if isSame(s[0], item) then Some(0)
    else
      match Position(s[1..], isSame, item)
      case None =>
        assert forall i :: 1 <= i < |s| ==> s[i] == s[1..][i - 1];
        None
      case Some(p) =>
        assert forall i :: 1 <= i < p + 1 ==> s[i] == s[1..][i - 1];
        Some(p + 1)
  }

  /** `swap_remove`: the last element takes the place of the one at `pos`. */
  function SwapRemove<T>(s: seq<T>, pos: nat): (r: seq<T>)
    requires pos < |s|
    ensures |r| == |s| - 1
    ensures forall i :: 0 <= i < |r| && i != pos ==> r[i] == s[i]
    ensures pos < |r| ==> r[pos] == s[|s| - 1]
  {
    if pos == |s| - 1 then s[..pos] else s[..|s| - 1][pos := s[|s| - 1]]
  }

  /** `swap_remove` takes away exactly the element at `pos`. */
  lemma SwapRemoveMultiset<T>(s: seq<T>, pos: nat)
    requires pos < |s|
    ensures multiset(SwapRemove(s, pos)) == multiset(s) - multiset{s[pos]}
  {
    var last := |s| - 1;
    if pos == last {
      assert s == s[..last] + [s[last]];
      assert SwapRemove(s, pos) == s[..last];
    } else {
      var a, b := s[..pos], s[pos + 1..last];
      var r := SwapRemove(s, pos);
      assert s == a + [s[pos]] + b + [s[last]];
      assert r == a + [s[last]] + b;
      assert multiset(s) == multiset(a) + multiset{s[pos]} + multiset(b) + multiset{s[last]};
      assert multiset(r) == multiset(a) + multiset{s[last]} + multiset(b);
    }
  }

  /** An overlap check that does not care which side is which. */
  ghost predicate Symmetric<T(!new)>(f: (T, T) -> bool) {
    forall a, b :: f(a, b) == f(b, a)
  }

  class NonOverlapping<T(!new)> {
    const isSame: (T, T) -> bool
    const isOverlapping: (T, T) -> bool
    var elements: seq<T>

    /** No two stored elements overlap. */
    ghost predicate Disjoint()
      reads this
    {
      forall i, j :: 0 <= i < |elements| && 0 <= j < |elements| && i != j ==>
        !isOverlapping(elements[i], elements[j])
    }

    /** `new`. */
    constructor (isSame: (T, T) -> bool, isOverlapping: (T, T) -> bool)
      ensures elements == [] && Disjoint()
      ensures this.isSame == isSame && this.isOverlapping == isOverlapping
    {
      this.isSame := isSame;
      this.isOverlapping := isOverlapping;
      elements := [];
    }

    /** `with`: a single element. */
    constructor With(isSame: (T, T) -> bool, isOverlapping: (T, T) -> bool, elem: T)
      ensures elements == [elem] && Disjoint()
      ensures this.isSame == isSame && this.isOverlapping == isOverlapping
    {
      this.isSame := isSame;
      this.isOverlapping := isOverlapping;
      elements := [elem];
    }

    /** `add`: `Err(toAdd)`, changing nothing, when `toAdd` overlaps a stored element;
        otherwise it is appended. With a symmetric check the list stays disjoint. */
    method Add(toAdd: T) returns (r: Result<(), T>)
      modifies this
      ensures r.Err? <==> exists i :: 0 <= i < |old(elements)| && isOverlapping(toAdd, old(elements)[i])
      ensures r.Err? ==> r.error == toAdd && elements == old(elements)
      ensures r.Ok? ==> elements == old(elements) + [toAdd]
      ensures Symmetric(isOverlapping) && old(Disjoint()) ==> Disjoint()
    {
      var i := 0;
      while i < |elements|
        invariant 0 <= i <= |elements|
        invariant forall j :: 0 <= j < i ==> !isOverlapping(toAdd, elements[j])
      {
        if isOverlapping(toAdd, elements[i]) {
          return Err(toAdd);
        }
        i := i + 1;
      }
      elements := elements + [toAdd];
      r := Ok(());
    }

    /** `remove`: false, changing nothing, when no element is the same as `item`;
        otherwise the first such element is swap-removed. */
    method Remove(item: T) returns (removed: bool)
      modifies this
      ensures removed <==> Position(old(elements), isSame, item).Some?
      ensures !removed ==> elements == old(elements)
      ensures removed ==> elements == SwapRemove(old(elements), Position(old(elements), isSame, item).value)
      ensures removed ==> multiset(elements) == multiset(old(elements)) - multiset{old(elements)[Position(old(elements), isSame, item).value]}
      ensures old(Disjoint()) ==> Disjoint()
    {
      var pos := Position(elements, isSame, item);
      if pos.None? {
        return false;
      }
      var before := elements;
      elements := SwapRemove(elements, pos.value);
      SwapRemoveMultiset(before, pos.value);
      assert forall i :: 0 <= i < |elements| ==> elements[i] == before[if i == pos.value then |before| - 1 else i];
      return true;
    }

    /** `contains`: some element is the same as `item`. */
    function Contains(item: T): (r: bool)
      reads this
      ensures r <==> exists i :: 0 <= i < |elements| && isSame(elements[i], item)
    {
      Position(elements, isSame, item).Some?
    }
  }
}
