/** RendezvousOwnership: which instance owns a key. */
module Ownership {
  import opened Base

  datatype Instance = Instance(id: string, region: string, weight: int)

  /** The settings every instance of one region shares. */
  datatype Config = Config(region: string, enableGlobal: bool, globalFallback: bool)

  /** The FNV hash of an instance ID and a key; any function will do. */
  type Hash = (string, string) -> nat

  const TWO_64: nat := 0x1_0000_0000_0000_0000

  function InRegion(instances: seq<Instance>, region: string): seq<Instance> {
    if instances == [] then []
    else (if instances[0].region == region then [instances[0]] else []) + InRegion(instances[1..], region)
  }

  /** The instances that compete for a key; none when the region is empty and there is no global fallback. */
  function Candidates(cfg: Config, instances: seq<Instance>): seq<Instance> {
    if cfg.enableGlobal || cfg.region == "" then instances
    else
      var local := InRegion(instances, cfg.region);
      if local == [] && cfg.globalFallback then instances else local
  }

  /** The weighted score, in wrapping 64-bit arithmetic. */
  function Score(hash: Hash, instance: Instance, key: string): nat {
    (hash(instance.id, key) % TWO_64 * Max(1, instance.weight)) % TWO_64
  }

  /** The first of the highest-scoring instances. */
  ghost predicate IsBest(hash: Hash, c: seq<Instance>, key: string, i: nat) {
    && i < |c|
    && (forall j | 0 <= j < i :: Score(hash, c[j], key) < Score(hash, c[i], key))
    && (forall j | i < j < |c| :: Score(hash, c[j], key) <= Score(hash, c[i], key))
  }

  function BestIndex(hash: Hash, c: seq<Instance>, key: string): (i: nat)
    requires c != []
    ensures IsBest(hash, c, key, i)
  {
    if |c| == 1 then 0
    else
      var init, last := c[..|c| - 1], |c| - 1;
      var i := BestIndex(hash, init, key);
      assert forall j | 0 <= j < |init| :: init[j] == c[j];
      if Score(hash, c[last], key) > Score(hash, init[i], key) then last else i
  }

  lemma BestIsUnique(hash: Hash, c: seq<Instance>, key: string, i: nat, k: nat)
    requires IsBest(hash, c, key, i) && IsBest(hash, c, key, k)
    ensures i == k
  {
    hide Score;
    var x, y := c[i], c[k];
    assert Score(hash, x, key) <= Score(hash, y, key) <= Score(hash, x, key);
  }

  /** The ID that wins the key. */
  function Owner(hash: Hash, c: seq<Instance>, key: string): string
    requires c != []
  {
    c[BestIndex(hash, c, key)].id
  }

  /** What IsOwner answers to the instance named `self`. */
  predicate Owns(hash: Hash, cfg: Config, instances: seq<Instance>, self: string, key: string) {
    instances == [] || self == "" ||
    var c := Candidates(cfg, instances);
    c == [] || Owner(hash, c, key) == "" || Owner(hash, c, key) == self
  }

  /** The filter loop of IsOwner. */
  method FilterRegion(instances: seq<Instance>, region: string) returns (filtered: seq<Instance>)
    ensures filtered == InRegion(instances, region)
  {
    filtered := [];
    for i := 0 to |instances|
      invariant filtered + InRegion(instances[i..], region) == InRegion(instances, region)
    {
      if instances[i].region == region {
        filtered := filtered + [instances[i]];
      }
    }
  }

  /** The arg-max loop of IsOwner: a later instance must beat the best so far. */
  method PickBest(hash: Hash, filtered: seq<Instance>, key: string) returns (bestID: string)
    requires filtered != []
    ensures bestID == Owner(hash, filtered, key)
  {
    hide Score;
    bestID := "";
    var bestScore := 0;
    ghost var best := 0;
    for i := 0 to |filtered|
      invariant i > 0 ==> IsBest(hash, filtered[..i], key, best)
      invariant i > 0 ==> bestID == filtered[best].id && bestScore == Score(hash, filtered[best], key)
    {
      var score := Score(hash, filtered[i], key);
      if i == 0 || score > bestScore {
        bestScore, bestID, best := score, filtered[i].id, i;
      }
    }
    assert filtered[..|filtered|] == filtered;
    BestIsUnique(hash, filtered, key, best, BestIndex(hash, filtered, key));
  }

  /** IsOwner; a missing or failing membership answers true. */
  method IsOwner(hash: Hash, cfg: Config, membership: Option<seq<Instance>>, self: string, key: string)
    returns (owner: bool)
    ensures owner == (membership.None? || Owns(hash, cfg, membership.value, self, key))
  {
    if membership.None? || |membership.value| == 0 {
      return true;
    }
    var instances := membership.value;
    if self == "" {
      return true;
    }
    var filtered := instances;
    if !cfg.enableGlobal && cfg.region != "" {
      filtered := FilterRegion(instances, cfg.region);
    }
    if |filtered| == 0 {
      if !cfg.globalFallback {
        return true;
      }
      filtered := instances;
    }
    var bestID := PickBest(hash, filtered, key);
    if bestID == "" {
      return true;
    }
    return bestID == self;
  }

  ghost predicate DistinctIds(instances: seq<Instance>) {
    && (forall i, j | 0 <= i < j < |instances| :: instances[i].id != instances[j].id)
    && (forall i | 0 <= i < |instances| :: instances[i].id != "")
  }

  lemma {:induction false} InRegionIsSublist(instances: seq<Instance>, region: string)
    ensures forall x | x in InRegion(instances, region) :: x in instances && x.region == region
    ensures forall x | x in instances && x.region == region :: x in InRegion(instances, region)
    ensures DistinctIds(instances) ==> DistinctIds(InRegion(instances, region))
  {
    hide DistinctIds;
    if instances == [] {
      NoneDistinct();
    } else {
      var rest := InRegion(instances[1..], region);
      InRegionIsSublist(instances[1..], region);
      assert forall x :: x in instances <==> x == instances[0] || x in instances[1..];
      if DistinctIds(instances) {
        TailDistinct(instances);
        DistinctPrepend(instances[0], rest);
        assert [] + rest == rest;
      }
    }
  }

  lemma NoneDistinct()
    ensures DistinctIds([])
  {
  }

  lemma TailDistinct(instances: seq<Instance>)
    requires instances != [] && DistinctIds(instances)
    ensures DistinctIds(instances[1..]) && instances[0].id != ""
    ensures forall x | x in instances[1..] :: x.id != instances[0].id
  {
  }

  lemma DistinctPrepend(x: Instance, rest: seq<Instance>)
    requires DistinctIds(rest) && x.id != "" && forall y | y in rest :: y.id != x.id
    ensures DistinctIds([x] + rest)
  {
  }

  /**
   * For named instances with distinct IDs, exactly one candidate owns each key, and no one else does,
   * exactly when there is a candidate; without one every instance owns every key.
   */
  lemma OwnerIsUnique(hash: Hash, cfg: Config, instances: seq<Instance>, key: string)
    requires DistinctIds(instances)
    ensures Candidates(cfg, instances) != [] ==>
      var owner := Owner(hash, Candidates(cfg, instances), key);
      && (exists x :: x in Candidates(cfg, instances) && x.id == owner)
      && (forall self | self != "" :: Owns(hash, cfg, instances, self, key) <==> self == owner)
    ensures Candidates(cfg, instances) == [] ==> forall self :: Owns(hash, cfg, instances, self, key)
  {
    var c := Candidates(cfg, instances);
    InRegionIsSublist(instances, cfg.region);
    if c != [] {
      assert c[BestIndex(hash, c, key)] in c;
      assert c[BestIndex(hash, c, key)].id != "";
    }
  }

  /** Two differently named instances can both own a key exactly when there is no candidate. */
  lemma TwoOwnersIff(hash: Hash, cfg: Config, instances: seq<Instance>, key: string)
    requires DistinctIds(instances)
    ensures (exists a, b :: a != "" && b != "" && a != b
               && Owns(hash, cfg, instances, a, key) && Owns(hash, cfg, instances, b, key))
            <==> Candidates(cfg, instances) == []
  {
    OwnerIsUnique(hash, cfg, instances, key);
    if Candidates(cfg, instances) == [] {
      assert Owns(hash, cfg, instances, "a", key) && Owns(hash, cfg, instances, "b", key);
    }
  }

  function Without(s: seq<Instance>, j: nat): seq<Instance>
    requires j < |s|
  {
    s[..j] + s[j + 1..]
  }

  /** Dropping a candidate that is not the owner leaves the owner in place. */
  lemma DropKeepsOwner(hash: Hash, c: seq<Instance>, key: string, j: nat)
    requires j < |c| && |c| > 1
    ensures Owner(hash, c, key) == c[j].id || Owner(hash, c, key) == Owner(hash, Without(c, j), key)
  {
    hide Score, IsBest, Without;
    var i := BestIndex(hash, c, key);
    if i != j {
      WithoutAt(c, j);
      var w := Without(c, j);
      var k := if i < j then i else i - 1;
      WithoutKeepsBest(hash, c, key, i, j);
      BestIsUnique(hash, w, key, k, BestIndex(hash, w, key));
      BestInRange(hash, c, key, i);
    }
  }

  lemma WithoutAt(c: seq<Instance>, j: nat)
    requires j < |c|
    ensures |Without(c, j)| == |c| - 1
    ensures forall m: nat | m < |c| - 1 :: Without(c, j)[m] == c[if m < j then m else m + 1]
  {
  }

  lemma BestInRange(hash: Hash, c: seq<Instance>, key: string, i: nat)
    requires IsBest(hash, c, key, i)
    ensures i < |c|
  {
  }

  lemma WithoutKeepsBest(hash: Hash, c: seq<Instance>, key: string, i: nat, j: nat)
    requires IsBest(hash, c, key, i) && j < |c| && i != j
    ensures IsBest(hash, Without(c, j), key, if i < j then i else i - 1)
  {
    hide Score, Without;
    WithoutAt(c, j);
  }

  /** Dropping one instance drops it, or nothing, from its region. */
  lemma {:induction false} InRegionWithout(instances: seq<Instance>, region: string, j: nat) returns (k: nat)
    requires j < |instances|
    ensures instances[j].region != region ==> InRegion(Without(instances, j), region) == InRegion(instances, region)
    ensures instances[j].region == region ==>
              && k < |InRegion(instances, region)|
              && InRegion(instances, region)[k] == instances[j]
              && InRegion(Without(instances, j), region) == Without(InRegion(instances, region), k)
  {
    hide InRegion, Without;
    k := 0;
    var first, tail := [instances[0]], instances[1..];
    var head, rest := if instances[0].region == region then first else [], InRegion(tail, region);
    assert instances == first + tail;
    InRegionAppend(first, tail, region);
    if j == 0 {
      WithoutFirst(instances);
      WithoutFirst(first + rest);
      assert (first + rest)[1..] == rest && [] + rest == rest;
    } else {
      k := InRegionWithout(tail, region, j - 1);
      WithoutBehind(first, tail, j - 1);
      InRegionAppend(first, Without(tail, j - 1), region);
      if instances[j].region == region {
        WithoutBehind(head, rest, k);
        k := |head| + k;
      }
    }
  }

  lemma WithoutFirst(instances: seq<Instance>)
    requires instances != []
    ensures Without(instances, 0) == instances[1..]
  {
  }

  lemma WithoutBehind(head: seq<Instance>, rest: seq<Instance>, k: nat)
    requires k < |rest|
    ensures Without(head + rest, |head| + k) == head + Without(rest, k)
  {
  }

  lemma InRegionAppend(head: seq<Instance>, rest: seq<Instance>, region: string)
    requires |head| == 1
    ensures InRegion(head + rest, region) == (if head[0].region == region then head else []) + InRegion(rest, region)
  {
    assert (head + rest)[1..] == rest;
    assert head == [head[0]];
  }

  /**
   * Minimal disruption, with the global fallback on: taking an instance away moves only the keys it owned,
   * and adding it moves keys only to itself.
   */
  lemma MinimalDisruption(hash: Hash, cfg: Config, instances: seq<Instance>, key: string, j: nat)
    requires cfg.globalFallback && j < |instances| && |instances| > 1
    ensures Candidates(cfg, instances) != [] && Candidates(cfg, Without(instances, j)) != []
    ensures var owner := Owner(hash, Candidates(cfg, instances), key);
            owner == instances[j].id || owner == Owner(hash, Candidates(cfg, Without(instances, j)), key)
  {
    if cfg.enableGlobal || cfg.region == "" {
      DropKeepsOwner(hash, instances, key, j);
    } else {
      var local := InRegion(instances, cfg.region);
      var k := InRegionWithout(instances, cfg.region, j);
      if local == [] {
        InRegionIsSublist(instances, cfg.region);
        assert instances[j] in instances;
        DropKeepsOwner(hash, instances, key, j);
      } else if instances[j].region == cfg.region && |local| > 1 {
        DropKeepsOwner(hash, local, key, k);
      }
    }
  }

  /** The owner comes from the region whenever the region has an instance and ownership is not global. */
  lemma OwnerIsLocal(hash: Hash, cfg: Config, instances: seq<Instance>, key: string)
    requires !cfg.enableGlobal && cfg.region != "" && exists x :: x in instances && x.region == cfg.region
    ensures Candidates(cfg, instances) != []
    ensures exists x :: x in instances && x.region == cfg.region && x.id == Owner(hash, Candidates(cfg, instances), key)
  {
    hide BestIndex, IsBest;
    InRegionIsSublist(instances, cfg.region);
    var c := Candidates(cfg, instances);
    var x :| x in instances && x.region == cfg.region;
    assert x in c;
    BestInRange(hash, c, key, BestIndex(hash, c, key));
    assert c[BestIndex(hash, c, key)] in c;
  }

  /** Otherwise every instance competes, if ownership is global or may fall back to all. */
  lemma EveryoneCompetes(cfg: Config, instances: seq<Instance>)
    ensures cfg.enableGlobal || cfg.region == "" ==> Candidates(cfg, instances) == instances
    ensures !cfg.enableGlobal && cfg.region != "" && (forall x | x in instances :: x.region != cfg.region) ==>
              Candidates(cfg, instances) == if cfg.globalFallback then instances else []
  {
    InRegionIsSublist(instances, cfg.region);
    var local := InRegion(instances, cfg.region);
    if local != [] {
      assert local[0] in local;
    }
  }

  /** The owner is the first instance whose hash times its weight, a weight below one counting as one, is largest. */
  lemma OwnerMaximises(hash: Hash, c: seq<Instance>, key: string)
    requires c != []
    ensures exists i: nat ::
      && i < |c| && c[i].id == Owner(hash, c, key)
      && (forall j: nat | j < |c| :: Weighted(hash, c[j], key) <= Weighted(hash, c[i], key))
      && (forall j: nat | j < i :: Weighted(hash, c[j], key) < Weighted(hash, c[i], key))
  {
    hide Score, Weighted, BestIndex;
    var i := BestIndex(hash, c, key);
    forall x
      ensures Score(hash, x, key) == Weighted(hash, x, key)
    {
      ScoreIsWeighted(hash, x, key);
    }
    assert i < |c| && c[i].id == Owner(hash, c, key);
  }

  lemma ScoreIsWeighted(hash: Hash, x: Instance, key: string)
    ensures Score(hash, x, key) == Weighted(hash, x, key)
  {
  }

  /** The product of a 64-bit hash and a weight, modulo 2 to the power of 64. */
  function Weighted(hash: Hash, x: Instance, key: string): nat {
    var h := hash(x.id, key) % 18446744073709551616;
    (if x.weight < 1 then h else h * x.weight) % 18446744073709551616
  }
}
