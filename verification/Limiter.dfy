/** redisLimiter: how a check goes through the breaker, the store and the fallback. */
module Limiter {
  import opened Base
  import opened Limits
  import opened Store
  import opened Ownership
  import opened Mode
  import Breaker
  import Fallback

  /** What one call does to the breaker: asked once, and told exactly one outcome if it admits the call. */
  function CallOutcome(c: Breaker.Circuit, o: Breaker.LiveOptions, now: int, ok: bool): Breaker.Circuit {
    var (asked, admitted) := Breaker.AllowStep(c, o, now);
    if !admitted then asked
    else if ok then Breaker.SuccessStep(asked)
    else Breaker.FailureStep(asked, o, now)
  }

  /** A call is a run of the breaker that leaves nothing outstanding. */
  lemma CallIsRun(s: Breaker.System, o: Breaker.LiveOptions, now: int, ok: bool) returns (events: seq<Breaker.Event>)
    requires Breaker.Healthy(s, o)
    ensures Breaker.IsRun(s, o, events)
    ensures Breaker.Run(s, o, events).circuit == CallOutcome(s.circuit, o, now, ok)
    ensures Breaker.Run(s, o, events).outstanding == s.outstanding
  {
    var asked := Breaker.Next(s, o, Breaker.Ask(now));
    if !Breaker.AllowStep(s.circuit, o, now).1 {
      events := [Breaker.Ask(now)];
      assert events[1..] == [];
    } else {
      var outcome := if ok then Breaker.Succeed(now) else Breaker.Fail(now);
      events := [Breaker.Ask(now), outcome];
      assert events[1..] == [outcome] && [outcome][1..] == [];
      assert Breaker.IsRun(Breaker.Next(asked, o, outcome), o, []);
      assert Breaker.IsRun(asked, o, [outcome]);
      assert Breaker.Run(asked, o, [outcome]) == Breaker.Next(asked, o, outcome);
    }
  }

  /**
   * What the outcome does: a call that is not admitted changes nothing; a success closes the breaker and clears its
   * failures; a failure is counted by a closed breaker, which opens at the threshold, and opens any other one anew.
   */
  lemma OutcomeIsReported(s: Breaker.System, o: Breaker.LiveOptions, now: int, ok: bool)
    requires Breaker.Healthy(s, o)
    ensures var c, after := s.circuit, CallOutcome(s.circuit, o, now, ok);
            && (!Breaker.Admits(s, o, now) ==> after == c)
            && (Breaker.Admits(s, o, now) && ok ==> after.state == Breaker.Closed && after.failures == 0)
            && (Breaker.Admits(s, o, now) && !ok && c.state == Breaker.Closed ==>
                  && after.failures == c.failures + 1
                  && (after.state == Breaker.Open <==> c.failures + 1 >= o.failureThreshold))
            && (Breaker.Admits(s, o, now) && !ok && after.state != Breaker.Closed ==>
                  after.state == Breaker.Open && after.openUntil == now + o.openDuration)
            && (Breaker.Admits(s, o, now) && !ok && c.state != Breaker.Closed ==> after.state == Breaker.Open)
  {
  }

  /** The fallback's answers to a list of requests, in order. */
  function FallbackAll(hash: Hash, cluster: Fallback.Cluster, local: Fallback.Local, rs: seq<Fallback.Request>)
    : (Fallback.Local, seq<Decision>)
  {
    if rs == [] then (local, [])
    else
      var (local1, done) := FallbackAll(hash, cluster, local, rs[..|rs| - 1]);
      var (local2, d) := Fallback.AllowStep(hash, cluster, local1, rs[|rs| - 1]);
      (local2, done + [d])
  }

  class RedisLimiter {
    const kind: Kind
    const params: Params
    const hash: Hash
    const redis: InMemoryRedis
    const breaker: Breaker.CircuitBreaker
    const fallback: Fallback.FallbackLimiter

    constructor (kind: Kind, params: Params, hash: Hash, redis: InMemoryRedis, breaker: Breaker.CircuitBreaker,
                 fallback: Fallback.FallbackLimiter)
      ensures this.kind == kind && this.params == params && this.hash == hash
      ensures this.redis == redis && this.breaker == breaker && this.fallback == fallback
    {
      this.kind := kind;
      this.params := params;
      this.hash := hash;
      this.redis := redis;
      this.breaker := breaker;
      this.fallback := fallback;
    }

    function FallbackRequest(mode: OperatingMode, key: string, cost: int, now: int): Fallback.Request {
      Fallback.Request(fallback.self, fallback.selfRegion, fallback.policy, mode, key, params.window, cost, now)
    }

    /** The breaker admits a call in this mode. */
    ghost predicate Admitted(mode: OperatingMode, now: int)
      reads breaker
    {
      mode != Emergency && Breaker.AllowStep(breaker.Contents(), breaker.opts, now).1
    }

    /** The fallback reads the mode again: `later` is what it finds. */
    method Allow(mode: OperatingMode, later: OperatingMode, key: string, cost: int, now: int)
      returns (d: Decision, usedFallback: bool)
      modifies redis, breaker, fallback.local
      ensures mode == Emergency ==> breaker.Contents() == old(breaker.Contents())
      ensures mode != Emergency ==>
        breaker.Contents() == CallOutcome(old(breaker.Contents()), breaker.opts, now, !usedFallback)
      ensures usedFallback <==> !old(Admitted(mode, now)) || !Accepts(old(redis.healthy), Op(kind, key, params, cost))
      ensures !usedFallback ==>
        (redis.Contents(), Ok(d)) == Exec(old(redis.Contents()), true, Op(kind, key, params, cost), now)
      ensures !usedFallback ==> fallback.local.windows == old(fallback.local.windows)
      ensures usedFallback ==> redis.Contents() == old(redis.Contents())
      ensures usedFallback ==>
        (fallback.local.windows, d) == Fallback.AllowStep(
          hash, fallback.cluster, old(fallback.local.windows), FallbackRequest(later, key, cost, now))
    {
      hide BucketStep, CounterStep, LogStep, Fallback.AllowStep;
      usedFallback := true;
      if mode != Emergency {
        var ok := breaker.Allow(now);
        if ok {
          var r: Result<Decision, Error>;
          match kind {
            case TokenBucket => r := redis.ExecTokenBucket(key, params, cost, now);
            case FixedWindow => r := redis.ExecFixedWindow(key, params, cost, now);
            case SlidingWindow => r := redis.ExecSlidingWindow(key, params, cost, now);
          }
          if r.Ok? {
            breaker.OnSuccess();
            return r.value, false;
          }
          breaker.OnFailure(now);
        }
      }
      d := fallback.Allow(hash, later, key, params.window, cost, now);
    }

    function Ops(keys: seq<string>, costs: seq<int>): (ops: seq<Op>)
      ensures |ops| == |keys|
    {
      seq(|keys|, i requires 0 <= i < |keys| => Op(kind, keys[i], params, CostAt(costs, i)))
    }

    /** A missing cost counts as zero. */
    static function CostAt(costs: seq<int>, i: nat): int {
      if i < |costs| then costs[i] else 0
    }

    /** The fallback reads the mode anew for every key. */
    function FallbackRequests(modes: nat -> OperatingMode, keys: seq<string>, costs: seq<int>, now: int)
      : (rs: seq<Fallback.Request>)
      ensures |rs| == |keys|
    {
      seq(|keys|, i requires 0 <= i < |keys| => FallbackRequest(modes(i), keys[i], CostAt(costs, i), now))
    }

    method FallbackDecisions(modes: nat -> OperatingMode, keys: seq<string>, costs: seq<int>, now: int)
      returns (ds: seq<Decision>)
      modifies fallback.local
      ensures (fallback.local.windows, ds) ==
        FallbackAll(hash, fallback.cluster, old(fallback.local.windows), FallbackRequests(modes, keys, costs, now))
    {
      hide Fallback.AllowStep;
      ds := [];
      ghost var rs := FallbackRequests(modes, keys, costs, now);
      for i := 0 to |keys|
        invariant (fallback.local.windows, ds) ==
                  FallbackAll(hash, fallback.cluster, old(fallback.local.windows), rs[..i])
      {
        assert rs[..i + 1][..i] == rs[..i];
        var d := fallback.Allow(hash, modes(i), keys[i], params.window, CostAt(costs, i), now);
        ds := ds + [d];
      }
      assert rs[..|keys|] == rs;
    }

    method AllowBatch(
      mode: OperatingMode, modes: nat -> OperatingMode, keys: seq<string>, costs: seq<int>, now: int)
      returns (ds: seq<Decision>, usedFallback: bool)
      modifies redis, breaker, fallback.local
      ensures mode == Emergency ==> breaker.Contents() == old(breaker.Contents())
      ensures mode != Emergency ==>
        breaker.Contents() == CallOutcome(old(breaker.Contents()), breaker.opts, now, !usedFallback)
      ensures !old(Admitted(mode, now)) ==> usedFallback && redis.Contents() == old(redis.Contents())
      ensures old(Admitted(mode, now)) ==>
        var (s, r) := ExecAll(old(redis.Contents()), old(redis.healthy), Ops(keys, costs), now);
        redis.Contents() == s && (usedFallback <==> r.Err?) && (r.Ok? ==> ds == r.value)
      ensures !usedFallback ==> fallback.local.windows == old(fallback.local.windows)
      ensures usedFallback ==>
        (fallback.local.windows, ds) == FallbackAll(
          hash, fallback.cluster, old(fallback.local.windows), FallbackRequests(modes, keys, costs, now))
    {
      hide Exec, Fallback.AllowStep;
      usedFallback := true;
      if mode != Emergency {
        var ok := breaker.Allow(now);
        if ok {
          var r := redis.ExecPipeline(Ops(keys, costs), now);
          PipelineLength(old(redis.Contents()), old(redis.healthy), Ops(keys, costs), now);
          if r.Ok? {
            breaker.OnSuccess();
            return r.value, false;
          }
          breaker.OnFailure(now);
        }
      }
      ds := FallbackDecisions(modes, keys, costs, now);
    }
  }

  /** A pipeline that succeeds answers every operation. */
  lemma {:induction false} PipelineLength(s: Store, healthy: bool, ops: seq<Op>, now: int)
    ensures var r := ExecAll(s, healthy, ops, now).1; r.Ok? ==> |r.value| == |ops|
  {
    hide Exec;
    if ops != [] {
      PipelineLength(s, healthy, ops[..|ops| - 1], now);
    }
  }
}
