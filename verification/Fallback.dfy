/** The local fallback limiter and the bound it gives a whole cluster. */
module Fallback {
  import opened Base
  import opened Limits
  import opened Store
  import opened Ownership
  import opened Mode

  datatype Policy = Policy(
    localCap: int, denyWhenNotOwner: bool, emergencyAllowSmallCap: bool, emergencyCap: int)

  /** NormalizeFallbackPolicy: the two switches end up on whatever was configured. */
  function Normalize(policy: Policy): (n: Policy)
    ensures n.denyWhenNotOwner && n.emergencyAllowSmallCap
    ensures n.localCap != 0 && n.emergencyCap != 0
  {
    if policy == Policy(0, false, false, 0) then Policy(100, true, true, 10)
    else
      Policy(if policy.localCap == 0 then 100 else policy.localCap, true, true,
             if policy.emergencyCap == 0 then 10 else policy.emergencyCap)
  }

  /** What the instances of one region share. */
  datatype Cluster = Cluster(cfg: Config, regionGroup: string, instances: seq<Instance>)

  function Group(cluster: Cluster): string {
    if cluster.regionGroup == "" then cluster.cfg.region else cluster.regionGroup
  }

  predicate Lists(instances: seq<Instance>, id: string) {
    exists i :: 0 <= i < |instances| && instances[i].id == id
  }

  /** Instances of the group as `self` counts them: an unlisted member counts itself. */
  function ShardFactor(cluster: Cluster, self: string, selfRegion: string): (factor: int)
    ensures factor >= 1
  {
    var group := Group(cluster);
    if group == "" then 1
    else
      Max(1, CountIn(cluster.instances, group)
             + if !Lists(cluster.instances, self) && selfRegion == group then 1 else 0)
  }

  /** The factor every listed instance computes. */
  function SharedFactor(cluster: Cluster): int {
    if Group(cluster) == "" then 1 else Max(1, CountIn(cluster.instances, Group(cluster)))
  }

  function Cap(policy: Policy, factor: int, mode: OperatingMode): (cap: int)
    requires factor >= 1
    ensures cap >= 1
  {
    var n := Normalize(policy);
    Max(1, GoDiv(if mode == Emergency then n.emergencyCap else n.localCap, factor))
  }

  type Local = map<string, Counter>

  /** AllowFixedWindow on the local counters. */
  function LocalStep(local: Local, key: string, cap: int, window: int, cost: int, now: int): (Local, Decision) {
    if cost <= 0 || cap <= 0 then (local, Decision(false, 0, cap, 0.0, 0.0))
    else
      var (counter, d) := CounterStep(Lookup(local, key), cap, DefaultWindow(window), now, cost);
      (local[key := counter], d)
  }

  /** One fallback call of one instance. */
  datatype Request = Request(
    self: string, selfRegion: string, policy: Policy, mode: OperatingMode,
    key: string, window: int, cost: int, now: int)

  function AllowStep(hash: Hash, cluster: Cluster, local: Local, r: Request): (Local, Decision) {
    var cap := Cap(r.policy, ShardFactor(cluster, r.self, r.selfRegion), r.mode);
    if !Owns(hash, cluster.cfg, cluster.instances, r.self, r.key)
    then (local, Decision(false, 0, cap, 0.0, 0.0))
    else LocalStep(local, r.key, cap, r.window, r.cost, r.now)
  }

  class LocalLimiterStore {
    var windows: Local

    constructor ()
      ensures windows == map[]
    {
      windows := map[];
    }

    method AllowFixedWindow(key: string, cap: int, window: int, cost: int, now: int) returns (d: Decision)
      modifies this
      ensures (windows, d) == LocalStep(old(windows), key, cap, window, cost, now)
    {
      if cost <= 0 || cap <= 0 {
        return Decision(false, 0, cap, 0.0, 0.0);
      }
      var length := DefaultWindow(window);
      var windowStart := Truncate(now, length);
      var counter := Counter(windowStart, 0);
      if key in windows {
        counter := windows[key];
      }
      if counter.windowStart != windowStart {
        counter := Counter(windowStart, 0);
      }
      var allowed := counter.used + cost <= cap;
      if allowed {
        counter := counter.(used := counter.used + cost);
      }
      windows := windows[key := counter];
      var remaining := Max(0, cap - counter.used);
      var resetAfter := windowStart + length - now;
      d := Decision(allowed, remaining, cap, resetAfter as real, if allowed then 0.0 else resetAfter as real);
    }
  }

  class FallbackLimiter {
    const cluster: Cluster
    const self: string
    const selfRegion: string
    const policy: Policy
    const local: LocalLimiterStore

    constructor (cluster: Cluster, self: string, selfRegion: string, policy: Policy)
      ensures this.cluster == cluster && this.self == self && this.selfRegion == selfRegion && this.policy == policy
      ensures fresh(local) && local.windows == map[]
    {
      this.cluster := cluster;
      this.self := self;
      this.selfRegion := selfRegion;
      this.policy := policy;
      local := new LocalLimiterStore();
    }

    method EffectiveShardFactor() returns (factor: int)
      ensures factor == ShardFactor(cluster, self, selfRegion)
    {
      var group := cluster.regionGroup;
      if group == "" {
        group := cluster.cfg.region;
      }
      if group == "" {
        return 1;
      }
      var count, seenSelf := 0, false;
      var instances := cluster.instances;
      for i := 0 to |instances|
        invariant count + CountIn(instances[i..], group) == CountIn(instances, group)
        invariant seenSelf == exists j :: 0 <= j < i && instances[j].id == self
      {
        if instances[i].id == self {
          seenSelf := true;
        }
        if instances[i].region == group {
          count := count + 1;
        }
      }
      if !seenSelf && selfRegion == group {
        count := count + 1;
      }
      factor := if count <= 0 then 1 else count;
    }

    /** Allow; the normalised policy always denies to non-owners and always keeps an emergency cap. */
    method Allow(hash: Hash, mode: OperatingMode, key: string, window: int, cost: int, now: int) returns (d: Decision)
      modifies local
      ensures (local.windows, d) == AllowStep(hash, cluster, old(local.windows),
                                              Request(self, selfRegion, policy, mode, key, window, cost, now))
    {
      hide Owns, ShardFactor, LocalStep;
      var normal := Normalize(policy);
      var factor := EffectiveShardFactor();
      var cap := GoDiv(normal.localCap, factor);
      if cap < 1 {
        cap := 1;
      }
      if mode == Emergency {
        cap := GoDiv(normal.emergencyCap, factor);
        if cap < 1 {
          cap := 1;
        }
      }
      var owner := IsOwner(hash, cluster.cfg, Some(cluster.instances), self, key);
      if !owner {
        return Decision(false, 0, cap, 0.0, 0.0);
      }
      d := local.AllowFixedWindow(key, cap, window, cost, now);
    }
  }

  // The cluster as a whole

  /** The counters of every instance, by instance ID. */
  type Locals = map<string, Local>

  function LocalOf(all: Locals, id: string): Local {
    if id in all then all[id] else map[]
  }

  function After(hash: Hash, cluster: Cluster, all: Locals, r: Request): Locals {
    all[r.self := AllowStep(hash, cluster, LocalOf(all, r.self), r).0]
  }

  predicate Admits(hash: Hash, cluster: Cluster, all: Locals, r: Request) {
    AllowStep(hash, cluster, LocalOf(all, r.self), r).1.allowed
  }

  /** Cost admitted for a key, by all instances together, in the aligned window that starts at `start`. */
  function ClusterAdmitted(
    hash: Hash, cluster: Cluster, all: Locals, rs: seq<Request>, key: string, window: int, start: int): int
    requires window > 0
    decreases |rs|
  {
    if rs == [] then 0
    else
      (if rs[0].key == key && Truncate(rs[0].now, window) == start && Admits(hash, cluster, all, rs[0])
       then rs[0].cost else 0)
      + ClusterAdmitted(hash, cluster, After(hash, cluster, all, rs[0]), rs[1..], key, window, start)
  }

  /** Each instance's own clock never goes back; clocks of different instances are unrelated. */
  ghost predicate ClocksAdvance(rs: seq<Request>) {
    forall i, j | 0 <= i < j < |rs| && rs[i].self == rs[j].self :: rs[i].now <= rs[j].now
  }

  /** All instances are named, use one window length for the key, and have caps of at most `most`. */
  ghost predicate Uniform(rs: seq<Request>, key: string, window: int, most: int) {
    forall r | r in rs ::
      && r.self != ""
      && (r.key == key ==> DefaultWindow(r.window) == window)
      && Normalize(r.policy).localCap <= most
      && Normalize(r.policy).emergencyCap <= most
  }

  ghost predicate NotBefore(rs: seq<Request>, id: string, clock: int) {
    forall r | r in rs && r.self == id :: r.now >= clock
  }

  function Bound(cluster: Cluster, most: int): int {
    Max(1, GoDiv(most, SharedFactor(cluster)))
  }

  lemma CapWithinBound(cluster: Cluster, r: Request, most: int)
    requires Lists(cluster.instances, r.self)
    requires Normalize(r.policy).localCap <= most && Normalize(r.policy).emergencyCap <= most
    ensures Cap(r.policy, ShardFactor(cluster, r.self, r.selfRegion), r.mode) <= Bound(cluster, most)
  {
    hide GoDiv;
    var n := Normalize(r.policy);
    assert ShardFactor(cluster, r.self, r.selfRegion) == SharedFactor(cluster);
    GoDivMonotone(n.localCap, most, SharedFactor(cluster));
    GoDivMonotone(n.emergencyCap, most, SharedFactor(cluster));
  }

  /** What the owner has already used of the window. */
  ghost function OwnerUsed(all: Locals, owner: string, key: string, start: int): int {
    var local := LocalOf(all, owner);
    if key in local && local[key].windowStart == start then local[key].used else 0
  }

  /** Once the owner's clock is past the window, nothing more is admitted in it. */
  lemma {:induction false} WindowPassed(
    hash: Hash, cluster: Cluster, all: Locals, rs: seq<Request>, owner: string, clock: int,
    key: string, window: int, start: int)
    requires window > 0 && start < Truncate(clock, window) && NotBefore(rs, owner, clock)
    requires forall r | r in rs && r.key == key && r.self != owner ::
               !Owns(hash, cluster.cfg, cluster.instances, r.self, key)
    ensures ClusterAdmitted(hash, cluster, all, rs, key, window, start) == 0
    decreases |rs|
  {
    hide Owns, CounterStep, Cap, Truncate;
    if rs != [] {
      WindowPassed(hash, cluster, After(hash, cluster, all, rs[0]), rs[1..], owner, clock, key, window, start);
      if rs[0].self == owner {
        TruncateMonotone(clock, rs[0].now, window);
      }
    }
  }

  /** One call of the owner stays within the bound. */
  lemma OwnerStep(
    hash: Hash, cluster: Cluster, all: Locals, r: Request, key: string, window: int, start: int, most: int)
    requires window > 0 && r.key == key && DefaultWindow(r.window) == window
    requires Normalize(r.policy).localCap <= most && Normalize(r.policy).emergencyCap <= most
    requires Owns(hash, cluster.cfg, cluster.instances, r.self, key) && Lists(cluster.instances, r.self)
    requires OwnerUsed(all, r.self, key, start) <= Bound(cluster, most)
    requires Truncate(r.now, window) <= start
    requires key in LocalOf(all, r.self) ==> LocalOf(all, r.self)[key].windowStart <= Truncate(r.now, window)
    ensures var all' := After(hash, cluster, all, r);
            && OwnerUsed(all', r.self, key, start) <= Bound(cluster, most)
            && (key in LocalOf(all', r.self) ==> LocalOf(all', r.self)[key].windowStart <= Truncate(r.now, window))
            && OwnerUsed(all', r.self, key, start)
               == OwnerUsed(all, r.self, key, start)
                  + (if Truncate(r.now, window) == start && Admits(hash, cluster, all, r) then r.cost else 0)
  {
    hide Owns, Cap, Bound, Truncate;
    CapWithinBound(cluster, r, most);
  }

  lemma {:induction false} OwnerBound(
    hash: Hash, cluster: Cluster, all: Locals, rs: seq<Request>, owner: string, clock: int,
    key: string, window: int, start: int, most: int)
    requires window > 0 && Uniform(rs, key, window, most) && ClocksAdvance(rs) && NotBefore(rs, owner, clock)
    requires Lists(cluster.instances, owner)
    requires forall id | id != "" :: Owns(hash, cluster.cfg, cluster.instances, id, key) <==> id == owner
    requires Truncate(clock, window) <= start
    requires OwnerUsed(all, owner, key, start) <= Bound(cluster, most)
    requires key in LocalOf(all, owner) ==> LocalOf(all, owner)[key].windowStart <= Truncate(clock, window)
    ensures OwnerUsed(all, owner, key, start)
            + ClusterAdmitted(hash, cluster, all, rs, key, window, start) <= Bound(cluster, most)
    decreases |rs|
  {
    hide Owns, CounterStep, Cap, Bound, Truncate, Normalize;
    if rs != [] {
      var r, rest := rs[0], rs[1..];
      var all' := After(hash, cluster, all, r);
      assert r in rs;
      assert ClocksAdvance(rest) && Uniform(rest, key, window, most) && NotBefore(rest, owner, clock);
      if r.self == owner && r.key == key {
        assert NotBefore(rest, owner, r.now) by {
          forall x | x in rest && x.self == owner
            ensures x.now >= r.now
          {
            var i :| 0 <= i < |rest| && rest[i] == x;
            assert rs[i + 1] == x;
          }
        }
        TruncateMonotone(clock, r.now, window);
        if Truncate(r.now, window) > start {
          WindowPassed(hash, cluster, all', rest, owner, r.now, key, window, start);
        } else {
          OwnerStep(hash, cluster, all, r, key, window, start, most);
          OwnerBound(hash, cluster, all', rest, owner, r.now, key, window, start, most);
        }
      } else {
        OtherCallsKeepOwner(hash, cluster, all, r, owner, key);
        OwnerBound(hash, cluster, all', rest, owner, clock, key, window, start, most);
      }
    }
  }

  /** Calls of other instances or other keys leave the owner's counter alone and admit nothing for the key. */
  lemma OtherCallsKeepOwner(hash: Hash, cluster: Cluster, all: Locals, r: Request, owner: string, key: string)
    requires r.self != owner || r.key != key
    requires r.self != "" && (Owns(hash, cluster.cfg, cluster.instances, r.self, key) <==> r.self == owner)
    ensures var all' := After(hash, cluster, all, r);
            Lookup(LocalOf(all', owner), key) == Lookup(LocalOf(all, owner), key)
    ensures r.key == key ==> !Admits(hash, cluster, all, r)
  {
    hide Owns, CounterStep, Cap;
  }

  /**
   * Whatever the modes, the configured switches and the interleaving, all instances of a region together
   * admit for one key in one aligned window at most the share of a single instance.
   */
  lemma ClusterWideBound(
    hash: Hash, cluster: Cluster, rs: seq<Request>, clock: int, key: string, window: int, start: int, most: int)
    requires DistinctIds(cluster.instances) && Candidates(cluster.cfg, cluster.instances) != []
    requires window > 0 && Uniform(rs, key, window, most) && ClocksAdvance(rs)
    requires forall r | r in rs :: r.now >= clock
    ensures ClusterAdmitted(hash, cluster, map[], rs, key, window, start)
            <= Max(1, GoDiv(most, SharedFactor(cluster)))
  {
    var c := Candidates(cluster.cfg, cluster.instances);
    var owner := Owner(hash, c, key);
    OwnerIsUnique(hash, cluster.cfg, cluster.instances, key);
    InRegionIsSublist(cluster.instances, cluster.cfg.region);
    var x :| x in c && x.id == owner;
    assert x in cluster.instances;
    if Truncate(clock, window) <= start {
      OwnerBound(hash, cluster, map[], rs, owner, clock, key, window, start, most);
    } else {
      assert Uniform(rs, key, window, most);
      WindowPassed(hash, cluster, map[], rs, owner, clock, key, window, start);
    }
  }

  /** Without a candidate two instances are each admitted their own full cap. */
  lemma NoCandidateFullCaps(hash: Hash, cluster: Cluster, r: Request, q: Request, key: string, window: int)
    requires Candidates(cluster.cfg, cluster.instances) == []
    requires r.self != q.self && r.key == q.key == key && r.now == q.now
    requires DefaultWindow(r.window) == DefaultWindow(q.window) == window
    requires r.cost == Cap(r.policy, ShardFactor(cluster, r.self, r.selfRegion), r.mode)
    requires q.cost == Cap(q.policy, ShardFactor(cluster, q.self, q.selfRegion), q.mode)
    ensures ClusterAdmitted(hash, cluster, map[], [r, q], key, window, Truncate(r.now, window)) == r.cost + q.cost
  {
    hide Cap, ShardFactor;
    assert Owns(hash, cluster.cfg, cluster.instances, r.self, key);
    assert Owns(hash, cluster.cfg, cluster.instances, q.self, key);
    var all := After(hash, cluster, map[], r);
    assert [r, q][1..] == [q] && [q][1..] == [];
    assert ClusterAdmitted(hash, cluster, all, [q], key, window, Truncate(r.now, window)) == q.cost;
  }

  /** A full-cap request of an instance of the cluster's own region. */
  function FullCap(cluster: Cluster, self: string, key: string, window: int, most: int): Request {
    Request(self, cluster.cfg.region, Policy(most, true, true, most), Normal, key, window,
            Max(1, GoDiv(most, SharedFactor(cluster))), 0)
  }

  /** Without a candidate it computes the factor of a listed instance, whether it is listed or not. */
  lemma FullCapIsSharedCap(cluster: Cluster, self: string, key: string, window: int, most: int)
    requires Candidates(cluster.cfg, cluster.instances) == [] && most >= 1
    ensures var r := FullCap(cluster, self, key, window, most);
            r.cost == Cap(r.policy, ShardFactor(cluster, r.self, r.selfRegion), r.mode)
  {
  }

  /** Without a candidate the bound fails: two instances together get twice the share of one. */
  lemma NoCandidateNoBound(hash: Hash, cluster: Cluster, key: string, window: int, most: int)
    requires Candidates(cluster.cfg, cluster.instances) == [] && window > 0 && most >= 1
    ensures var rs := [FullCap(cluster, "a", key, window, most), FullCap(cluster, "b", key, window, most)];
            && Uniform(rs, key, window, most) && ClocksAdvance(rs)
            && ClusterAdmitted(hash, cluster, map[], rs, key, window, Truncate(0, window))
               == 2 * Max(1, GoDiv(most, SharedFactor(cluster)))
  {
    hide ClusterAdmitted, Cap, ShardFactor;
    var r, q := FullCap(cluster, "a", key, window, most), FullCap(cluster, "b", key, window, most);
    FullCapIsSharedCap(cluster, "a", key, window, most);
    FullCapIsSharedCap(cluster, "b", key, window, most);
    NoCandidateFullCaps(hash, cluster, r, q, key, window);
  }

  /** However the instances of the cluster call, together they stay within the share of one. */
  ghost predicate Bounded(hash: Hash, cluster: Cluster, key: string, window: int, most: int)
    requires window > 0
  {
    forall rs, start | Uniform(rs, key, window, most) && ClocksAdvance(rs) ::
      ClusterAdmitted(hash, cluster, map[], rs, key, window, start) <= Max(1, GoDiv(most, SharedFactor(cluster)))
  }

  /** An instant before all the calls. */
  lemma {:induction false} Earliest(rs: seq<Request>) returns (clock: int)
    ensures forall r | r in rs :: r.now >= clock
  {
    clock := 0;
    if rs != [] {
      var c := Earliest(rs[1..]);
      clock := if rs[0].now < c then rs[0].now else c;
      assert forall r | r in rs :: r == rs[0] || r in rs[1..];
    }
  }

  /** The cluster-wide bound holds for every run of fallback calls if and only if there is a candidate. */
  lemma BoundIffCandidate(hash: Hash, cluster: Cluster, key: string, window: int, most: int)
    requires DistinctIds(cluster.instances) && window > 0 && most >= 1
    ensures Bounded(hash, cluster, key, window, most) <==> Candidates(cluster.cfg, cluster.instances) != []
  {
    hide ClusterAdmitted, Candidates, Uniform, ClocksAdvance;
    if Candidates(cluster.cfg, cluster.instances) != [] {
      forall rs, start | Uniform(rs, key, window, most) && ClocksAdvance(rs)
        ensures ClusterAdmitted(hash, cluster, map[], rs, key, window, start)
                <= Max(1, GoDiv(most, SharedFactor(cluster)))
      {
        var clock := Earliest(rs);
        ClusterWideBound(hash, cluster, rs, clock, key, window, start, most);
      }
    } else {
      NoCandidateNoBound(hash, cluster, key, window, most);
    }
  }

  // What one instance admits

  /** The cap that is configured for a mode; zero means the default. */
  function Configured(policy: Policy, mode: OperatingMode): int {
    if mode == Emergency then (if policy.emergencyCap == 0 then 10 else policy.emergencyCap)
    else (if policy.localCap == 0 then 100 else policy.localCap)
  }

  /** The cap of a mode is the share of one of `factor` instances in what is configured for it, and at least one. */
  lemma CapIsShare(policy: Policy, factor: int, mode: OperatingMode)
    requires factor >= 1
    ensures var cap, total := Cap(policy, factor, mode), Configured(policy, mode);
            && (total < factor ==> cap == 1)
            && (total >= factor ==> factor * cap <= total < factor * cap + factor)
  {
    hide GoDiv;
    ShareOf(Configured(policy, mode), factor);
  }

  lemma ShareOf(total: int, factor: int)
    requires factor >= 1
    ensures total < factor ==> GoDiv(total, factor) <= 1
    ensures total >= factor ==> GoDiv(total, factor) >= 1
    ensures total >= factor ==> factor * GoDiv(total, factor) <= total < factor * GoDiv(total, factor) + factor
  {
    if total >= factor {
      DivMonotone(factor, total, factor);
    } else {
      GoDivMonotone(total, factor, factor);
    }
  }

  /** A listed instance counts the instances of its group, and no one twice. */
  lemma FactorCounts(cluster: Cluster, self: string, selfRegion: string)
    requires Lists(cluster.instances, self) && Group(cluster) != ""
    ensures var places := Places(cluster.instances, Group(cluster));
            ShardFactor(cluster, self, selfRegion) == if |places| == 0 then 1 else |places|
  {
    CountIsCardinality(cluster.instances, Group(cluster));
  }

  function RunAll(hash: Hash, cluster: Cluster, all: Locals, rs: seq<Request>): Locals
    decreases |rs|
  {
    if rs == [] then all else RunAll(hash, cluster, After(hash, cluster, all, rs[0]), rs[1..])
  }

  /** Cost admitted for a key by one instance in the aligned window that starts at `start`. */
  function SelfAdmitted(
    hash: Hash, cluster: Cluster, all: Locals, rs: seq<Request>, self: string, key: string, window: int, start: int)
    : int
    requires window > 0
    decreases |rs|
  {
    if rs == [] then 0
    else
      (if rs[0].self == self && rs[0].key == key && Truncate(rs[0].now, window) == start
          && Admits(hash, cluster, all, rs[0]) then rs[0].cost else 0)
      + SelfAdmitted(hash, cluster, After(hash, cluster, all, rs[0]), rs[1..], self, key, window, start)
  }

  /** The instance's calls for the key use one window length and fall into no window after this one. */
  ghost predicate UpToWindow(rs: seq<Request>, self: string, key: string, window: int, start: int)
    requires window > 0
  {
    forall r | r in rs && r.self == self && r.key == key ::
      DefaultWindow(r.window) == window && Truncate(r.now, window) <= start
  }

  lemma SelfStep(
    hash: Hash, cluster: Cluster, all: Locals, r: Request, self: string, key: string, window: int, start: int)
    requires window > 0
    requires r.self == self && r.key == key ==> DefaultWindow(r.window) == window && Truncate(r.now, window) <= start
    requires key in LocalOf(all, self) ==> LocalOf(all, self)[key].windowStart <= start
    requires r.self == self && r.key == key && key in LocalOf(all, self) ==>
               LocalOf(all, self)[key].windowStart <= Truncate(r.now, window)
    ensures var all' := After(hash, cluster, all, r);
            && (key in LocalOf(all', self) ==> LocalOf(all', self)[key].windowStart <= start)
            && OwnerUsed(all', self, key, start) == OwnerUsed(all, self, key, start)
               + (if r.self == self && r.key == key && Truncate(r.now, window) == start
                     && Admits(hash, cluster, all, r) then r.cost else 0)
  {
    hide Owns, Cap, Truncate, ShardFactor;
  }

  /** The instance's clock does not go back. */
  ghost predicate ClockOf(rs: seq<Request>, self: string, clock: int)
    decreases |rs|
  {
    rs == [] ||
    if rs[0].self == self then clock <= rs[0].now && ClockOf(rs[1..], self, rs[0].now)
    else ClockOf(rs[1..], self, clock)
  }

  /** The counter does not point past the instance's clock. */
  ghost predicate NotPast(all: Locals, self: string, key: string, window: int, clock: int)
    requires window > 0
  {
    key in LocalOf(all, self) ==> LocalOf(all, self)[key].windowStart <= Truncate(clock, window)
  }

  lemma StepNotPast(
    hash: Hash, cluster: Cluster, all: Locals, r: Request, self: string, key: string, window: int, clock: int)
    requires window > 0 && NotPast(all, self, key, window, clock)
    requires r.self == self ==> clock <= r.now
    requires r.self == self && r.key == key ==> DefaultWindow(r.window) == window
    ensures NotPast(After(hash, cluster, all, r), self, key, window, if r.self == self then r.now else clock)
  {
    hide Owns, Cap, ShardFactor;
    if r.self == self {
      TruncateMonotone(clock, r.now, window);
    }
    hide Truncate;
  }

  lemma {:induction false} UsedIsSelfAdmitted(
    hash: Hash, cluster: Cluster, all: Locals, rs: seq<Request>, self: string, key: string, window: int, start: int,
    clock: int)
    requires window > 0 && UpToWindow(rs, self, key, window, start) && ClockOf(rs, self, clock)
    requires NotPast(all, self, key, window, clock)
    requires key in LocalOf(all, self) ==> LocalOf(all, self)[key].windowStart <= start
    ensures OwnerUsed(RunAll(hash, cluster, all, rs), self, key, start)
            == OwnerUsed(all, self, key, start) + SelfAdmitted(hash, cluster, all, rs, self, key, window, start)
    decreases |rs|
  {
    hide Owns, Cap, ShardFactor, Truncate, AllowStep, OwnerUsed, Admits;
    if rs != [] {
      var r := rs[0];
      assert r in rs && forall x | x in rs[1..] :: x in rs;
      if r.self == self {
        TruncateMonotone(clock, r.now, window);
      }
      SelfStep(hash, cluster, all, r, self, key, window, start);
      StepNotPast(hash, cluster, all, r, self, key, window, clock);
      UsedIsSelfAdmitted(hash, cluster, After(hash, cluster, all, r), rs[1..], self, key, window, start,
                         if r.self == self then r.now else clock);
    }
  }

  /**
   * After any run an instance admits a call if and only if it owns the key, the cost is positive, and the cost and what
   * the instance itself admitted before in the aligned window are at most its cap.
   */
  lemma FallbackAdmitsIff(hash: Hash, cluster: Cluster, rs: seq<Request>, r: Request, clock: int)
    requires var window := DefaultWindow(r.window);
             && ClockOf(rs, r.self, clock)
             && UpToWindow(rs, r.self, r.key, window, Truncate(r.now, window))
    ensures var window := DefaultWindow(r.window);
            Admits(hash, cluster, RunAll(hash, cluster, map[], rs), r) <==>
            && Owns(hash, cluster.cfg, cluster.instances, r.self, r.key) && r.cost > 0
            && SelfAdmitted(hash, cluster, map[], rs, r.self, r.key, window, Truncate(r.now, window)) + r.cost
               <= Cap(r.policy, ShardFactor(cluster, r.self, r.selfRegion), r.mode)
  {
    hide RunAll, SelfAdmitted, Owns, Cap, ShardFactor, ClockOf, UpToWindow;
    var window := DefaultWindow(r.window);
    UsedIsSelfAdmitted(hash, cluster, map[], rs, r.self, r.key, window, Truncate(r.now, window), clock);
    AdmitsByCounter(hash, cluster, RunAll(hash, cluster, map[], rs), r);
  }

  lemma AdmitsByCounter(hash: Hash, cluster: Cluster, all: Locals, r: Request)
    ensures var window := DefaultWindow(r.window);
            Admits(hash, cluster, all, r) <==>
            && Owns(hash, cluster.cfg, cluster.instances, r.self, r.key) && r.cost > 0
            && OwnerUsed(all, r.self, r.key, Truncate(r.now, window)) + r.cost
               <= Cap(r.policy, ShardFactor(cluster, r.self, r.selfRegion), r.mode)
  {
    hide Owns, Cap, ShardFactor, Truncate;
  }
}
