/** DegradeController: the operating mode as a function of sampled health. */
module Mode {
  import opened Base
  import opened Ownership

  datatype OperatingMode = Normal | Degraded | Emergency

  datatype Thresholds = Thresholds(redisUnhealthyFor: int, membershipUnhealthy: int)

  /** Only a zero threshold takes its default. */
  function WithDefaults(th: Thresholds): (t: Thresholds)
    ensures th.redisUnhealthyFor != 0 ==> t.redisUnhealthyFor == th.redisUnhealthyFor
    ensures th.membershipUnhealthy != 0 ==> t.membershipUnhealthy == th.membershipUnhealthy
    ensures th.redisUnhealthyFor == 0 ==> t.redisUnhealthyFor == 500 * (SECOND / 1000)
    ensures th.membershipUnhealthy == 0 ==> t.membershipUnhealthy == 2 * SECOND
  {
    Thresholds(if th.redisUnhealthyFor == 0 then SECOND / 2 else th.redisUnhealthyFor,
               if th.membershipUnhealthy == 0 then 2 * SECOND else th.membershipUnhealthy)
  }

  // Quorum

  function CountIn(instances: seq<Instance>, region: string): nat {
    |InRegion(instances, region)|
  }

  /** The smallest integer that is at least `x`. */
  function Ceil(x: real): int {
    -((-x).Floor)
  }

  function Required(total: nat, fraction: real): int {
    Max(1, Ceil(total as real * fraction))
  }

  predicate HasQuorum(instances: seq<Instance>, region: string, fraction: real) {
    |instances| > 0 && CountIn(instances, region) >= Required(|instances|, fraction)
  }

  /** Where the instances of a region are in the list. */
  function Places(instances: seq<Instance>, region: string): set<int> {
    set i | 0 <= i < |instances| && instances[i].region == region
  }

  lemma PlacesSnoc(init: seq<Instance>, last: Instance, region: string)
    ensures |Places(init + [last], region)| == |Places(init, region)| + if last.region == region then 1 else 0
  {
    var n := |init|;
    var here, there := Places(init + [last], region), Places(init, region);
    assert n !in there;
    if last.region == region {
      assert here == there + {n};
    } else {
      assert here == there;
    }
  }

  lemma CountSnoc(init: seq<Instance>, last: Instance, region: string)
    ensures CountIn(init + [last], region) == CountIn(init, region) + if last.region == region then 1 else 0
  {
    InRegionConcat(init, [last], region);
    assert [last][1..] == [];
  }

  /** The instances of a region, counted one by one. */
  lemma {:induction false} CountIsCardinality(instances: seq<Instance>, region: string)
    ensures CountIn(instances, region) == |Places(instances, region)|
  {
    if instances == [] {
      assert Places([], region) == {};
    } else {
      var n := |instances| - 1;
      CountIsCardinality(instances[..n], region);
      assert instances == instances[..n] + [instances[n]];
      CountSnoc(instances[..n], instances[n], region);
      PlacesSnoc(instances[..n], instances[n], region);
    }
  }

  lemma CeilIsLeast(x: real, n: int)
    ensures n >= Ceil(x) <==> n as real >= x
  {
  }

  /** A region has quorum exactly when it has an instance and at least the fraction of all instances. */
  lemma QuorumIff(instances: seq<Instance>, region: string, fraction: real)
    ensures HasQuorum(instances, region, fraction) <==>
            CountIn(instances, region) > 0 && CountIn(instances, region) as real >= |instances| as real * fraction
  {
    CeilIsLeast(|instances| as real * fraction, CountIn(instances, region));
    InRegionIsSublist(instances, region);
    if CountIn(instances, region) > 0 {
      assert InRegion(instances, region)[0] in InRegion(instances, region);
    }
  }

  lemma {:induction false} RegionsShareInstances(instances: seq<Instance>, r: string, q: string)
    requires r != q
    ensures CountIn(instances, r) + CountIn(instances, q) <= |instances|
  {
    if instances != [] {
      RegionsShareInstances(instances[1..], r, q);
    }
  }

  lemma CeilMajority(x: real, n: int)
    requires x > n as real / 2.0
    ensures 2 * Ceil(x) > n
  {
    var k := Ceil(x);
    assert k as real >= x;
    assert (2 * k) as real > n as real;
  }

  lemma MoreThanHalf(n: real, fraction: real)
    requires n > 0.0 && fraction > 0.5
    ensures n * fraction > n / 2.0
  {
    assert n * (fraction - 0.5) > 0.0;
  }

  /** A fraction above one half requires a majority. */
  lemma MajorityRequired(total: nat, fraction: real)
    requires total > 0 && fraction > 0.5
    ensures 2 * Required(total, fraction) > total
  {
    MoreThanHalf(total as real, fraction);
    CeilMajority(total as real * fraction, total);
  }

  /** With a fraction above one half, at most one region has quorum in any list of instances. */
  lemma QuorumIsExclusive(instances: seq<Instance>, r: string, q: string, fraction: real)
    requires fraction > 0.5 && HasQuorum(instances, r, fraction) && HasQuorum(instances, q, fraction)
    ensures r == q
  {
    hide Required, CountIn;
    MajorityRequired(|instances|, fraction);
    if r != q {
      RegionsShareInstances(instances, r, q);
    }
  }

  /** Two regions can both have quorum among n instances exactly when twice the requirement fits. */
  lemma TwoQuorumsIff(n: nat, fraction: real)
    ensures (exists instances: seq<Instance>, r: string, q: string ::
               |instances| == n && r != q && HasQuorum(instances, r, fraction) && HasQuorum(instances, q, fraction))
            <==> 2 * Required(n, fraction) <= n
  {
    var k := Required(n, fraction);
    forall instances: seq<Instance>, r: string, q: string
      | |instances| == n && r != q && HasQuorum(instances, r, fraction) && HasQuorum(instances, q, fraction)
      ensures 2 * k <= n
    {
      RegionsShareInstances(instances, r, q);
    }
    if 2 * k <= n {
      var split := Copies("r", k) + Copies("q", n - k);
      CopiesCount("r", k, "r");
      CopiesCount("r", k, "q");
      CopiesCount("q", n - k, "r");
      CopiesCount("q", n - k, "q");
      InRegionConcat(Copies("r", k), Copies("q", n - k), "r");
      InRegionConcat(Copies("r", k), Copies("q", n - k), "q");
      assert |split| == n && HasQuorum(split, "r", fraction) && HasQuorum(split, "q", fraction);
    }
  }

  /** The default fraction of one half lets two regions have quorum among any even number of instances from two on. */
  lemma HalfAllowsTwoQuorums(n: nat)
    requires n >= 2 && n % 2 == 0
    ensures exists instances: seq<Instance>, r: string, q: string ::
              |instances| == n && r != q && HasQuorum(instances, r, 0.5) && HasQuorum(instances, q, 0.5)
  {
    assert n as real * 0.5 == (n / 2) as real;
    TwoQuorumsIff(n, 0.5);
  }

  function Copies(region: string, n: nat): (c: seq<Instance>)
    ensures |c| == n
  {
    if n == 0 then [] else [Instance("", region, 1)] + Copies(region, n - 1)
  }

  lemma {:induction false} CopiesCount(region: string, n: nat, r: string)
    ensures CountIn(Copies(region, n), r) == if r == region then n else 0
  {
    if n > 0 {
      CopiesCount(region, n - 1, r);
      assert Copies(region, n)[1..] == Copies(region, n - 1);
    }
  }

  lemma {:induction false} InRegionConcat(a: seq<Instance>, b: seq<Instance>, region: string)
    ensures InRegion(a + b, region) == InRegion(a, region) + InRegion(b, region)
  {
    if a == [] {
      assert a + b == b;
    } else {
      var head := if a[0].region == region then [a[0]] else [];
      assert (a + b)[0] == a[0] && (a + b)[1..] == a[1..] + b;
      InRegionConcat(a[1..], b, region);
      assert InRegion(a, region) == head + InRegion(a[1..], region);
      assert InRegion(a + b, region) == head + (InRegion(a[1..], region) + InRegion(b, region));
    }
  }

  // Mode

  /** What one Update sees: the instant, Redis health, and membership health including quorum. */
  datatype Sample = Sample(now: int, redisHealthy: bool, membershipHealthy: bool)

  function ModeFor(th: Thresholds, redisAge: int, membershipAge: int): OperatingMode {
    if redisAge < th.redisUnhealthyFor then Normal
    else if membershipAge < th.membershipUnhealthy then Degraded
    else Emergency
  }

  datatype Controller = Controller(mode: OperatingMode, lastRedisHealthy: int, lastMembershipHealthy: int)

  function Sampled(c: Controller, th: Thresholds, s: Sample): Controller {
    var redis := if s.redisHealthy then s.now else c.lastRedisHealthy;
    var membership := if s.membershipHealthy then s.now else c.lastMembershipHealthy;
    Controller(ModeFor(th, s.now - redis, s.now - membership), redis, membership)
  }

  function AfterSamples(c: Controller, th: Thresholds, samples: seq<Sample>): Controller
    decreases |samples|
  {
    if samples == [] then c else AfterSamples(Sampled(c, th, samples[0]), th, samples[1..])
  }

  predicate InOrder(samples: seq<Sample>, clock: int) {
    samples == [] || (clock <= samples[0].now && InOrder(samples[1..], samples[0].now))
  }

  /** Redis was seen healthy less than `span` before `now`; construction counts. */
  ghost predicate RedisSeen(start: int, samples: seq<Sample>, now: int, span: int) {
    now - start < span || exists s :: s in samples && s.redisHealthy && now - s.now < span
  }

  ghost predicate MembershipSeen(start: int, samples: seq<Sample>, now: int, span: int) {
    now - start < span || exists s :: s in samples && s.membershipHealthy && now - s.now < span
  }

  /** The stored timestamps are the latest healthy samples. */
  lemma {:induction false} TimestampsAreLatest(
    c: Controller, th: Thresholds, samples: seq<Sample>, clock: int, now: int, span: int)
    requires InOrder(samples, clock) && c.lastRedisHealthy <= clock && c.lastMembershipHealthy <= clock
    ensures now - AfterSamples(c, th, samples).lastRedisHealthy < span
            <==> RedisSeen(c.lastRedisHealthy, samples, now, span)
    ensures now - AfterSamples(c, th, samples).lastMembershipHealthy < span
            <==> MembershipSeen(c.lastMembershipHealthy, samples, now, span)
    decreases |samples|
  {
    if samples != [] {
      var s := samples[0];
      TimestampsAreLatest(Sampled(c, th, s), th, samples[1..], s.now, now, span);
      assert samples == [s] + samples[1..];
      assert forall x :: x in samples <==> x == s || x in samples[1..];
    }
  }

  lemma {:induction false} ModeFollowsAges(c: Controller, th: Thresholds, samples: seq<Sample>)
    requires samples != []
    ensures var after, now := AfterSamples(c, th, samples), samples[|samples| - 1].now;
            after.mode == ModeFor(th, now - after.lastRedisHealthy, now - after.lastMembershipHealthy)
    decreases |samples|
  {
    if |samples| > 1 {
      ModeFollowsAges(Sampled(c, th, samples[0]), th, samples[1..]);
    } else {
      assert samples[1..] == [];
    }
  }

  /** After any series of updates the mode is decided by which healthy samples are recent enough. */
  lemma ModeIsHistory(start: int, th: Thresholds, samples: seq<Sample>)
    requires InOrder(samples, start) && samples != []
    ensures var now := samples[|samples| - 1].now;
            var mode := AfterSamples(Controller(Normal, start, start), th, samples).mode;
            && (mode == Normal <==> RedisSeen(start, samples, now, th.redisUnhealthyFor))
            && (mode == Emergency <==> !RedisSeen(start, samples, now, th.redisUnhealthyFor)
                                       && !MembershipSeen(start, samples, now, th.membershipUnhealthy))
  {
    var c, now := Controller(Normal, start, start), samples[|samples| - 1].now;
    ModeFollowsAges(c, th, samples);
    TimestampsAreLatest(c, th, samples, start, now, th.redisUnhealthyFor);
    TimestampsAreLatest(c, th, samples, start, now, th.membershipUnhealthy);
  }

  class DegradeController {
    const thresholds: Thresholds
    const region: string
    const requireQuorum: bool
    const quorumFraction: real
    var mode: OperatingMode
    var lastRedisHealthy: int
    var lastMembershipHealthy: int

    ghost function State(): Controller
      reads this
    {
      Controller(mode, lastRedisHealthy, lastMembershipHealthy)
    }

    constructor (th: Thresholds, region: string, requireQuorum: bool, quorumFraction: real, now: int)
      ensures State() == Controller(Normal, now, now) && thresholds == WithDefaults(th)
      ensures this.region == region && this.requireQuorum == requireQuorum
      ensures this.quorumFraction == if quorumFraction == 0.0 then 0.5 else quorumFraction
    {
      thresholds := WithDefaults(th);
      this.region := region;
      this.requireQuorum := requireQuorum;
      this.quorumFraction := if quorumFraction == 0.0 then 0.5 else quorumFraction;
      mode, lastRedisHealthy, lastMembershipHealthy := Normal, now, now;
    }

    /** RegionStatus; `membership` is None when there is no membership or it fails. */
    method RegionStatus(membership: Option<seq<Instance>>) returns (inRegion: nat, total: nat, ok: bool)
      ensures membership.None? ==> inRegion == total == 0
      ensures membership.Some? ==> inRegion == CountIn(membership.value, region) && total == |membership.value|
      ensures ok == (!requireQuorum || (membership.Some? && HasQuorum(membership.value, region, quorumFraction)))
    {
      inRegion, total := 0, 0;
      if membership.None? {
        ok := !requireQuorum;
        return;
      }
      var instances := membership.value;
      for i := 0 to |instances|
        invariant inRegion + CountIn(instances[i..], region) == CountIn(instances, region)
      {
        if instances[i].region == region {
          inRegion := inRegion + 1;
        }
      }
      total := |instances|;
      if !requireQuorum {
        ok := true;
      } else if total == 0 {
        ok := false;
      } else {
        var required := Ceil(total as real * quorumFraction);
        if required < 1 {
          required := 1;
        }
        ok := inRegion >= required;
      }
    }

    /** Update; health that is not configured counts as healthy. */
    method Update(redisHealthy: bool, membershipUp: bool, membership: Option<seq<Instance>>, now: int)
      modifies this`mode, this`lastRedisHealthy, this`lastMembershipHealthy
      ensures State() == Sampled(old(State()), thresholds, Sample(now, redisHealthy,
        membershipUp && (!requireQuorum || (membership.Some? && HasQuorum(membership.value, region, quorumFraction)))))
    {
      var membershipHealthy := membershipUp;
      if requireQuorum {
        var _, _, ok := RegionStatus(membership);
        if !ok {
          membershipHealthy := false;
        }
      }
      if redisHealthy {
        lastRedisHealthy := now;
      }
      if membershipHealthy {
        lastMembershipHealthy := now;
      }
      var redisAge := now - lastRedisHealthy;
      var membershipAge := now - lastMembershipHealthy;
      mode := Normal;
      if redisAge >= thresholds.redisUnhealthyFor {
        mode := Degraded;
        if membershipAge >= thresholds.membershipUnhealthy {
          mode := Emergency;
        }
      }
    }
  }
}
