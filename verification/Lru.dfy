/** LRUKeys: the keys of a shard from most to least recently used. */
module Lru {
  import opened Base

  /** The list without a key. */
  function Without(list: seq<string>, key: string): (rest: seq<string>)
    ensures key !in rest
    ensures forall k :: k in rest <==> k in list && k != key
    ensures Distinct(list) ==> Distinct(rest)
    ensures key !in list ==> rest == list
    ensures Distinct(list) && key in list ==> |rest| == |list| - 1
  {
    if list == [] then []
    else
      var tail := Without(list[1..], key);
      assert Distinct(list) ==> Distinct(list[1..]) && list[0] !in list[1..];
      if list[0] == key then tail else [list[0]] + tail
  }

  predicate Distinct(list: seq<string>) {
    forall i, j | 0 <= i < j < |list| :: list[i] != list[j]
  }

  function Front(list: seq<string>, key: string): seq<string> {
    [key] + Without(list, key)
  }

  /** What stays when the list may hold at most `max` keys. */
  function Kept(list: seq<string>, max: nat): seq<string> {
    if |list| <= max then list else list[..max]
  }

  /** What must go, least recently used last in the list. */
  function Overflow(list: seq<string>, max: nat): seq<string> {
    if |list| <= max then [] else list[max..]
  }

  function Reversed(list: seq<string>): (r: seq<string>)
    ensures |r| == |list|
  {
    if list == [] then [] else [list[|list| - 1]] + Reversed(list[..|list| - 1])
  }

  lemma ReversedNothing()
    ensures Reversed([]) == []
  {
  }

  lemma ReversedSnoc(list: seq<string>, key: string)
    ensures Reversed(list + [key]) == [key] + Reversed(list)
  {
    assert (list + [key])[..|list + [key]| - 1] == list;
  }

  lemma {:induction false} SetSize(list: seq<string>)
    requires Distinct(list)
    ensures |set k | k in list| == |list|
  {
    if list != [] {
      SetSize(list[1..]);
      assert (set k | k in list) == {list[0]} + set k | k in list[1..];
    }
  }

  class LRUKeys {
    const max: nat
    var items: set<string>
    var list: seq<string>

    /** The index and the list hold the same keys, once each. */
    ghost predicate Valid()
      reads this
    {
      Distinct(list) && items == set k | k in list
    }

    constructor (max: int)
      ensures Valid() && list == [] && this.max == Max(0, max)
    {
      this.max := if max < 0 then 0 else max;
      items, list := {}, [];
    }

    method Touch(key: string)
      requires Valid()
      modifies this
      ensures Valid() && list == Front(old(list), key)
    {
      if key in items {
        list := [key] + Without(list, key);
      } else {
        Add(key);
      }
    }

    method Add(key: string)
      requires Valid()
      modifies this
      ensures Valid() && list == Front(old(list), key)
    {
      if key in items {
        list := [key] + Without(list, key);
        return;
      }
      list := [key] + list;
      items := items + {key};
    }

    method Remove(key: string)
      requires Valid()
      modifies this
      ensures Valid() && list == Without(old(list), key)
    {
      if key !in items {
        return;
      }
      list := Without(list, key);
      items := items - {key};
    }

    /** Evicts from the back until at most `max` keys are left. */
    method EvictIfNeeded() returns (evicted: seq<string>)
      requires Valid()
      modifies this
      ensures Valid()
      ensures list == Kept(old(list), max)
      ensures evicted == Reversed(Overflow(old(list), max))
    {
      hide Reversed;
      SetSize(list);
      ReversedNothing();
      assert |list| <= max ==> list[|list|..] == [];
      if |items| <= max {
        return [];
      }
      var count := |items| - max;
      evicted := [];
      ghost var was := list;
      for i := 0 to count
        invariant Valid() && list == was[..|was| - i]
        invariant evicted + Reversed(was[max..|was| - i]) == Reversed(was[max..])
      {
        ghost var n := |was| - i;
        var key := list[|list| - 1];
        assert was[max..n] == was[max..n - 1] + [key];
        ReversedSnoc(was[max..n - 1], key);
        assert evicted + ([key] + Reversed(was[max..n - 1])) == evicted + [key] + Reversed(was[max..n - 1]);
        evicted := evicted + [key];
        list := list[..|list| - 1];
        items := items - {key};
      }
      assert was[max..max] == [];
    }
  }

  // Whole runs

  datatype Use = Used(key: string) | Dropped(key: string) | Shrunk(max: nat)

  function Using(list: seq<string>, use: Use): seq<string> {
    match use
    case Used(k) => Front(list, k)
    case Dropped(k) => Without(list, k)
    case Shrunk(max) => Kept(list, max)
  }

  /** The list after a run of touches and additions, removals and evictions. */
  function ListAfter(uses: seq<Use>): seq<string> {
    if uses == [] then []
    else Using(ListAfter(uses[..|uses| - 1]), uses[|uses| - 1])
  }

  /** When the key was last touched or added. */
  function LastUse(uses: seq<Use>, key: string): int {
    if uses == [] then -1
    else if uses[|uses| - 1] == Used(key) then |uses| - 1
    else LastUse(uses[..|uses| - 1], key)
  }

  /** Most recently used first. */
  ghost predicate ByLastUse(uses: seq<Use>, list: seq<string>) {
    forall i, j | 0 <= i < j < |list| :: LastUse(uses, list[i]) > LastUse(uses, list[j])
  }

  lemma {:induction false} LastUseInRange(uses: seq<Use>, key: string)
    ensures -1 <= LastUse(uses, key) < |uses|
  {
    if uses != [] {
      LastUseInRange(uses[..|uses| - 1], key);
    }
  }

  lemma {:induction false} WithoutByLastUse(uses: seq<Use>, list: seq<string>, key: string)
    requires ByLastUse(uses, list)
    ensures ByLastUse(uses, Without(list, key))
  {
    hide LastUse, Distinct;
    if list != [] {
      var tail := list[1..];
      assert forall i | 0 <= i < |tail| :: tail[i] == list[i + 1];
      WithoutByLastUse(uses, tail, key);
      ConsByLastUse(uses, list[0], tail, Without(tail, key));
    }
  }

  lemma ConsByLastUse(uses: seq<Use>, first: string, tail: seq<string>, rest: seq<string>)
    requires forall i | 0 <= i < |tail| :: LastUse(uses, first) > LastUse(uses, tail[i])
    requires ByLastUse(uses, rest) && forall k | k in rest :: k in tail
    ensures ByLastUse(uses, [first] + rest)
  {
    hide LastUse;
    forall j | 0 <= j < |rest|
      ensures LastUse(uses, first) > LastUse(uses, rest[j])
    {
      assert rest[j] in tail;
    }
  }

  lemma UsedIsLast(uses: seq<Use>, list: seq<string>, key: string)
    requires ByLastUse(uses, list) && key !in list
    ensures ByLastUse(uses + [Used(key)], [key] + list)
  {
    hide LastUse;
    forall k
      ensures LastUse(uses + [Used(key)], k) == if k == key then |uses| else LastUse(uses, k)
      ensures LastUse(uses, k) < |uses|
    {
      LastUseNext(uses, Used(key), k);
    }
    assert forall j | 0 <= j < |list| :: list[j] in list;
  }

  lemma LastUseNext(uses: seq<Use>, use: Use, k: string)
    ensures LastUse(uses + [use], k) == if use == Used(k) then |uses| else LastUse(uses, k)
    ensures LastUse(uses, k) < |uses|
  {
    assert (uses + [use])[..|uses + [use]| - 1] == uses;
    LastUseInRange(uses, k);
  }

  lemma OtherUseKeepsOrder(uses: seq<Use>, use: Use, list: seq<string>)
    requires ByLastUse(uses, list) && !use.Used?
    ensures ByLastUse(uses + [use], list)
  {
    hide LastUse;
    forall k
      ensures LastUse(uses + [use], k) == LastUse(uses, k)
    {
      LastUseNext(uses, use, k);
    }
  }

  lemma KeptByLastUse(uses: seq<Use>, list: seq<string>, max: nat)
    requires ByLastUse(uses, list) && Distinct(list)
    ensures ByLastUse(uses, Kept(list, max)) && Distinct(Kept(list, max))
  {
    hide LastUse;
  }

  /** In every run the list is in the order of the last uses. */
  lemma {:induction false} ListByLastUse(uses: seq<Use>)
    ensures ByLastUse(uses, ListAfter(uses)) && Distinct(ListAfter(uses))
  {
    hide LastUse, ByLastUse, Without, Distinct, Kept;
    if uses == [] {
      NothingInOrder();
    } else {
      var init, use := uses[..|uses| - 1], uses[|uses| - 1];
      ListByLastUse(init);
      var before := ListAfter(init);
      assert uses == init + [use];
      match use
      case Used(k) =>
        WithoutByLastUse(init, before, k);
        UsedIsLast(init, Without(before, k), k);
        FrontDistinct(before, k);
      case Dropped(k) =>
        WithoutByLastUse(init, before, k);
        OtherUseKeepsOrder(init, use, Without(before, k));
      case Shrunk(max) =>
        KeptByLastUse(init, before, max);
        OtherUseKeepsOrder(init, use, Kept(before, max));
    }
  }

  lemma NothingInOrder()
    ensures ByLastUse([], []) && Distinct([])
  {
  }

  lemma FrontDistinct(list: seq<string>, key: string)
    requires Distinct(list)
    ensures Distinct(Front(list, key))
  {
    var rest := Without(list, key);
    assert forall j | 0 <= j < |rest| :: rest[j] in rest;
  }

  lemma SplitKept(list: seq<string>, max: nat)
    ensures list == Kept(list, max) + Overflow(list, max)
    ensures |Kept(list, max)| == if |list| <= max then |list| else max
  {
  }

  lemma KeptUsedLater(uses: seq<Use>, kept: seq<string>, gone: seq<string>)
    requires ByLastUse(uses, kept + gone)
    ensures forall k, g | k in kept && g in gone :: LastUse(uses, k) > LastUse(uses, g)
    ensures ByLastUse(uses, gone)
  {
    hide LastUse;
    var list := kept + gone;
    assert forall j | 0 <= j < |gone| :: gone[j] == list[|kept| + j];
    forall k, g | k in kept && g in gone
      ensures LastUse(uses, k) > LastUse(uses, g)
    {
      var i :| 0 <= i < |kept| && kept[i] == k;
      var j :| 0 <= j < |gone| && gone[j] == g;
      assert list[i] == k && list[|kept| + j] == g;
    }
  }

  /** Least recently used first. */
  ghost predicate ByFirstUse(uses: seq<Use>, list: seq<string>) {
    forall i, j | 0 <= i < j < |list| :: LastUse(uses, list[i]) < LastUse(uses, list[j])
  }

  lemma ReversedByFirstUse(uses: seq<Use>, gone: seq<string>)
    requires ByLastUse(uses, gone)
    ensures ByFirstUse(uses, Reversed(gone))
  {
    hide LastUse, Reversed;
    forall i, j | 0 <= i < j < |gone|
      ensures LastUse(uses, Reversed(gone)[i]) < LastUse(uses, Reversed(gone)[j])
    {
      ReversedAt(gone, i);
      ReversedAt(gone, j);
    }
  }

  /**
   * In every run eviction keeps as many keys as it may, and every key it keeps was used after every key it evicts,
   * which it reports least recently used first.
   */
  lemma EvictsLeastRecent(uses: seq<Use>, max: nat)
    ensures var list := ListAfter(uses);
            var kept, gone := Kept(list, max), Overflow(list, max);
            && |kept| == (if |list| <= max then |list| else max) && list == kept + gone
            && (forall k, g | k in kept && g in gone :: LastUse(uses, k) > LastUse(uses, g))
            && ByFirstUse(uses, Reversed(gone))
  {
    hide LastUse, Reversed, Kept, Overflow, ListAfter, ByFirstUse, ByLastUse;
    var list := ListAfter(uses);
    ListByLastUse(uses);
    SplitKept(list, max);
    KeptUsedLater(uses, Kept(list, max), Overflow(list, max));
    ReversedByFirstUse(uses, Overflow(list, max));
  }

  lemma {:induction false} ReversedAt(list: seq<string>, i: nat)
    requires i < |list|
    ensures Reversed(list)[i] == list[|list| - 1 - i]
  {
    if i > 0 {
      ReversedAt(list[..|list| - 1], i - 1);
    }
  }
}
