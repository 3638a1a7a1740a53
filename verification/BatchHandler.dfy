/** RateLimitHandler.CheckLimitBatch with a healthy store. */
module BatchHandler {
  import opened Base
  import opened Keys
  import opened Limits
  import opened Store
  import opened Batch
  import opened BatchRun

  /** The valid requests at their original indexes. */
  function Validated(reqs: seq<Option<Request>>): (valid: seq<Option<Request>>)
    ensures |valid| == |reqs|
    ensures forall i | 0 <= i < |reqs| :: valid[i] == if IsValid(reqs[i]) then reqs[i] else None
  {
    seq(|reqs|, i requires 0 <= i < |reqs| => if IsValid(reqs[i]) then reqs[i] else None)
  }

  /** The requests checked one at a time, in order. */
  function Sequential(s: Store, routes: Routes, reqs: seq<Option<Request>>, now: int): (Store, seq<Response>) {
    if reqs == [] then (s, [])
    else
      var (s1, before) := Sequential(s, routes, reqs[..|reqs| - 1], now);
      var req := reqs[|reqs| - 1];
      if !IsValid(req) then (s1, before + [Failed(FailureCode(req))])
      else
        match routes(req.value.tenant, req.value.resource)
        case NoRule => (s1, before + [Failed("RULE_NOT_FOUND")])
        case Unavailable => (s1, before + [Failed("LIMITER_UNAVAILABLE")])
        case Limiter(kind, params) =>
          var key := BuildKey(req.value.tenant, req.value.user, req.value.resource);
          var (s2, r) := Exec(s1, true, Op(kind, key, params, req.value.cost), now);
          (s2, before + [if r.Ok? then Decided(r.value) else Failed("LIMITER_ERROR")])
  }

  /** The response to request `i` once its decision is known. */
  function ResponseFor(ctx: Context, done: map<nat, Decision>, i: nat): Response
    requires i < |ctx.valid| && ctx.valid[i].Some?
  {
    match RouteOf(ctx, i)
    case NoRule => Failed("RULE_NOT_FOUND")
    case Unavailable => Failed("LIMITER_UNAVAILABLE")
    case Limiter(_, _) => if i in done then Decided(done[i]) else Failed("LIMITER_ERROR")
  }

  /** The response to a request when the store has answered its call. */
  function Answer(route: Route, r: Result<Decision, Error>): Response {
    match route
    case NoRule => Failed("RULE_NOT_FOUND")
    case Unavailable => Failed("LIMITER_UNAVAILABLE")
    case Limiter(_, _) => if r.Ok? then Decided(r.value) else Failed("LIMITER_ERROR")
  }

  /** One more request, checked on its own. */
  lemma SequentialSnoc(s: Store, routes: Routes, reqs: seq<Option<Request>>, n: nat, now: int)
    requires n < |reqs|
    ensures var ctx := Context(Validated(reqs), routes, now);
            var (s1, before) := Sequential(s, routes, reqs[..n], now);
            var (s2, after) := Sequential(s, routes, reqs[..n + 1], now);
            && (!IsValid(reqs[n]) ==> s2 == s1 && after == before + [Failed(FailureCode(reqs[n]))] && !Live(ctx, n))
            && (IsValid(reqs[n]) ==>
                  && (Live(ctx, n) <==> RouteOf(ctx, n).Limiter?)
                  && (!Live(ctx, n) ==> s2 == s1 && after == before + [Answer(RouteOf(ctx, n), Err(RedisUnhealthy))])
                  && (Live(ctx, n) ==>
                        var (t, r) := Exec(s1, true, OpFor(ctx, n), now);
                        s2 == t && after == before + [Answer(RouteOf(ctx, n), r)]))
  {
    hide Exec, BuildKey;
    assert reqs[..n + 1][..n] == reqs[..n];
  }

  lemma SequentialOfNothing(s: Store, routes: Routes, now: int)
    ensures Sequential(s, routes, [], now) == (s, [])
  {
  }

  lemma ResponseIsAnswer(ctx: Context, done: map<nat, Decision>, i: nat, r: Result<Decision, Error>)
    requires i < |ctx.valid| && ctx.valid[i].Some?
    requires RouteOf(ctx, i).Limiter? ==> r.Ok? && i in done && done[i] == r.value
    ensures ResponseFor(ctx, done, i) == Answer(RouteOf(ctx, i), r)
  {
    hide RouteOf;
  }

  /** A response depends on the decision at its own index only. */
  lemma SameResponse(ctx: Context, before: map<nat, Decision>, after: map<nat, Decision>, i: nat)
    requires i < |ctx.valid| && ctx.valid[i].Some?
    requires (i in before <==> i in after) && (i in before ==> before[i] == after[i])
    ensures ResponseFor(ctx, before, i) == ResponseFor(ctx, after, i)
  {
    hide RouteOf;
  }

  /** Checking one by one is running the original order. */
  lemma {:induction false} SequentialIsOriginalRun(
    s: Store, routes: Routes, reqs: seq<Option<Request>>, n: nat, now: int)
    requires n <= |reqs|
    ensures var ctx := Context(Validated(reqs), routes, now);
            var (s', responses) := Sequential(s, routes, reqs[..n], now);
            && s' == RunOrder(ctx, s, Upto(n)).0
            && |responses| == n
            && forall i | 0 <= i < n ::
                 responses[i] == if IsValid(reqs[i]) then ResponseFor(ctx, RunOrder(ctx, s, Upto(n)).1, i)
                                 else Failed(FailureCode(reqs[i]))
  {
    hide Exec, RunOrder, Sequential, Live, OpFor, RouteOf, ResponseFor, Answer, FailureCode;
    var ctx := Context(Validated(reqs), routes, now);
    if n == 0 {
      assert reqs[..0] == [];
      SequentialOfNothing(s, routes, now);
      RunOfNothing(ctx, s, None);
    } else {
      var m := n - 1;
      SequentialIsOriginalRun(s, routes, reqs, m, now);
      SequentialSnoc(s, routes, reqs, m, now);
      RunSnoc(ctx, s, Upto(m), m);
      RunAppend(ctx, s, Upto(m), [m]);
      var (s1, before) := RunOrder(ctx, s, Upto(m));
      var done := RunOrder(ctx, s, Upto(n)).1;
      forall i | 0 <= i < m && IsValid(reqs[i])
        ensures ResponseFor(ctx, before, i) == ResponseFor(ctx, done, i)
      {
        SameResponse(ctx, before, done, i);
      }
      if IsValid(reqs[m]) {
        var r := if Live(ctx, m) then Exec(s1, true, OpFor(ctx, m), now).1 else Err(RedisUnhealthy);
        ResponseIsAnswer(ctx, done, m, r);
      }
    }
  }

  /** A group's pipeline, in which every operation is accepted, runs the group's part of the planned order. */
  lemma {:induction false} PipelineIsRun(ctx: Context, s0: Store, order: seq<nat>, indexes: seq<nat>, ops: seq<Op>)
    requires |ops| == |indexes|
    requires forall k | 0 <= k < |indexes| :: Live(ctx, indexes[k]) && ops[k] == OpFor(ctx, indexes[k])
    requires forall j, k | 0 <= j < k < |indexes| :: indexes[j] < indexes[k]
    ensures var (s, done) := RunOrder(ctx, s0, order + indexes);
            var (s', r) := ExecAll(RunOrder(ctx, s0, order).0, true, ops, ctx.now);
            && s' == s && r.Ok? && |r.value| == |indexes|
            && forall k | 0 <= k < |indexes| :: indexes[k] in done && r.value[k] == done[indexes[k]]
  {
    hide Exec, Live, OpFor, RunOrder;
    if indexes == [] {
      assert order + indexes == order;
    } else {
      var init, last := indexes[..|indexes| - 1], indexes[|indexes| - 1];
      PipelineIsRun(ctx, s0, order, init, ops[..|ops| - 1]);
      RunSnoc(ctx, s0, order + init, last);
      assert order + indexes == order + init + [last];
    }
  }

  /** Every response of the groups run so far is the one its index deserves. */
  ghost predicate Answered(ctx: Context, s0: Store, order: seq<nat>, responses: seq<Response>) {
    && |responses| == |ctx.valid|
    && forall i | i in order :: i < |ctx.valid| && ctx.valid[i].Some?
                               && responses[i] == ResponseFor(ctx, RunOrder(ctx, s0, order).1, i)
  }

  ghost predicate Untouched(reqs: seq<Option<Request>>, responses: seq<Response>) {
    && |responses| == |reqs|
    && forall i | 0 <= i < |reqs| && !IsValid(reqs[i]) :: responses[i] == Failed(FailureCode(reqs[i]))
  }

  /** Scatters the responses of one group back to their indexes. */
  method Scatter(responses: seq<Response>, indexes: seq<nat>, answers: seq<Response>) returns (after: seq<Response>)
    requires |answers| == |indexes|
    requires forall k | 0 <= k < |indexes| :: indexes[k] < |responses|
    requires forall j, k | 0 <= j < k < |indexes| :: indexes[j] < indexes[k]
    ensures |after| == |responses|
    ensures forall k | 0 <= k < |indexes| :: after[indexes[k]] == answers[k]
    ensures forall i | 0 <= i < |responses| && i !in indexes :: after[i] == responses[i]
  {
    after := responses;
    for k := 0 to |indexes|
      invariant |after| == |responses|
      invariant forall j | 0 <= j < k :: after[indexes[j]] == answers[j]
      invariant forall i | 0 <= i < |responses| && i !in indexes :: after[i] == responses[i]
    {
      after := after[indexes[k] := answers[k]];
    }
  }

  /** Adding a freshly answered group keeps everything answered. */
  lemma GroupAnswered(
    ctx: Context, s0: Store, order: seq<nat>, indexes: seq<nat>, before: seq<Response>, after: seq<Response>)
    requires Answered(ctx, s0, order, before) && |after| == |before|
    requires forall i | i in indexes :: i !in order && i < |ctx.valid| && ctx.valid[i].Some?
                                       && after[i] == ResponseFor(ctx, RunOrder(ctx, s0, order + indexes).1, i)
    requires forall i | 0 <= i < |before| && i !in indexes :: after[i] == before[i]
    ensures Answered(ctx, s0, order + indexes, after)
  {
    hide RunOrder;
    RunAppend(ctx, s0, order, indexes);
    assert forall i :: i in order + indexes <==> i in order || i in indexes;
  }

  /** The operations a group queues on its limiter's pipeline. */
  function GroupOps(valid: seq<Option<Request>>, g: Group, kind: Kind, params: LiveParams): (ops: seq<Op>)
    requires IsGroup(valid, |valid|, g)
    ensures |ops| == |g.indexes|
  {
    seq(|g.indexes|, k requires 0 <= k < |g.indexes| =>
      var req := valid[g.indexes[k]].value;
      Op(kind, BuildKey(req.tenant, req.user, req.resource), params, g.costs[k]))
  }

  /** What a group's limiter call does to the store, and the answers it gives, in group order. */
  ghost predicate GroupOutcome(
    valid: seq<Option<Request>>, routes: Routes, g: Group, now: int, s: Store, s': Store, answers: seq<Response>)
    requires IsGroup(valid, |valid|, g)
  {
    && |answers| == |g.indexes|
    && match routes(g.tenant, g.resource)
       case NoRule => s' == s && forall k | 0 <= k < |answers| :: answers[k] == Failed("RULE_NOT_FOUND")
       case Unavailable => s' == s && forall k | 0 <= k < |answers| :: answers[k] == Failed("LIMITER_UNAVAILABLE")
       case Limiter(kind, params) =>
         var (t, r) := ExecAll(s, true, GroupOps(valid, g, kind, params), now);
         && s' == t
         && forall k | 0 <= k < |answers| ::
              answers[k] == if r.Ok? && |r.value| == |answers| then Decided(r.value[k]) else Failed("LIMITER_ERROR")
  }

  method CheckGroup(redis: InMemoryRedis, routes: Routes, valid: seq<Option<Request>>, g: Group, now: int)
    returns (answers: seq<Response>)
    requires redis.healthy && IsGroup(valid, |valid|, g)
    modifies redis`tokenBuckets, redis`fixedWindows, redis`slidingWindows
    ensures GroupOutcome(valid, routes, g, now, old(redis.Contents()), redis.Contents(), answers)
  {
    var size := |g.indexes|;
    match routes(g.tenant, g.resource) {
      case NoRule =>
        answers := seq(size, _ => Failed("RULE_NOT_FOUND"));
      case Unavailable =>
        answers := seq(size, _ => Failed("LIMITER_UNAVAILABLE"));
      case Limiter(kind, params) =>
        var ops := GroupOps(valid, g, kind, params);
        var r := redis.ExecPipeline(ops, now);
        if r.Ok? && |r.value| == size {
          answers := seq(size, k requires 0 <= k < size => Decided(r.value[k]));
        } else {
          answers := seq(size, _ => Failed("LIMITER_ERROR"));
        }
    }
  }

  /** Requests that reach no limiter leave no trace. */
  lemma {:induction false} DeadRun(ctx: Context, s: Store, order: seq<nat>, dead: seq<nat>)
    requires forall i | i in dead :: !Live(ctx, i)
    ensures RunOrder(ctx, s, order + dead) == RunOrder(ctx, s, order)
  {
    hide Live, RunOrder;
    if dead == [] {
      assert order + dead == order;
    } else {
      var init, last := dead[..|dead| - 1], dead[|dead| - 1];
      DeadRun(ctx, s, order, init);
      RunSnoc(ctx, s, order + init, last);
      assert order + dead == order + init + [last];
    }
  }

  /** The route of a request in a batch: that of the tenant and resource under which its group was opened. */
  function RouteVia(groups: seq<Group>, routes: Routes, tenant: string, resource: string): Route {
    if groups == [] then routes(tenant, resource)
    else if KeyOf(groups[0]) == PairKey(tenant, resource) then routes(groups[0].tenant, groups[0].resource)
    else RouteVia(groups[1..], routes, tenant, resource)
  }

  function GroupRoutes(groups: seq<Group>, routes: Routes): Routes {
    (tenant, resource) => RouteVia(groups, routes, tenant, resource)
  }

  lemma {:induction false} RouteViaGroup(groups: seq<Group>, routes: Routes, k: nat, tenant: string, resource: string)
    requires k < |groups| && KeyOf(groups[k]) == PairKey(tenant, resource)
    requires forall i, j | 0 <= i < j < |groups| :: KeyOf(groups[i]) != KeyOf(groups[j])
    ensures RouteVia(groups, routes, tenant, resource) == routes(groups[k].tenant, groups[k].resource)
  {
    hide KeyOf, PairKey;
    if k > 0 {
      assert KeyOf(groups[0]) != KeyOf(groups[k]);
      assert forall i | 0 <= i < |groups| - 1 :: groups[1..][i] == groups[i + 1];
      RouteViaGroup(groups[1..], routes, k - 1, tenant, resource);
    }
  }

  /** A group's outcome is that of running its indexes next, on the route of the group. */
  lemma GroupIsRun(
    ctx: Context, routes: Routes, s0: Store, order: seq<nat>, g: Group, s': Store, answers: seq<Response>)
    requires IsGroup(ctx.valid, |ctx.valid|, g)
    requires forall i | 0 <= i < |ctx.valid| && ctx.valid[i].Some? :: ctx.valid[i].value.cost > 0
    requires forall k | 0 <= k < |g.indexes| :: RouteOf(ctx, g.indexes[k]) == routes(g.tenant, g.resource)
    requires GroupOutcome(ctx.valid, routes, g, ctx.now, RunOrder(ctx, s0, order).0, s', answers)
    ensures s' == RunOrder(ctx, s0, order + g.indexes).0
    ensures forall k | 0 <= k < |g.indexes| ::
      answers[k] == ResponseFor(ctx, RunOrder(ctx, s0, order + g.indexes).1, g.indexes[k])
  {
    hide RunOrder, PairKey, BuildKey;
    IndexesIncrease(ctx.valid, |ctx.valid|, KeyOf(g));
    if routes(g.tenant, g.resource).Limiter? {
      var kind, params := routes(g.tenant, g.resource).kind, routes(g.tenant, g.resource).params;
      PipelineIsRun(ctx, s0, order, g.indexes, GroupOps(ctx.valid, g, kind, params));
    } else {
      DeadRun(ctx, s0, order, g.indexes);
    }
  }

  /** The members of a group take the route of the group. */
  lemma MembersTakeGroupRoute(valid: seq<Option<Request>>, routes: Routes, groups: seq<Group>, now: int, k: nat, i: nat)
    requires IsPlan(valid, |valid|, groups) && k < |groups| && i < |groups[k].indexes|
    ensures var g := groups[k];
            && g.indexes[i] < |valid| && valid[g.indexes[i]].Some?
            && RouteOf(Context(valid, GroupRoutes(groups, routes), now), g.indexes[i]) == routes(g.tenant, g.resource)
  {
    hide PairKey, IndexesOf, RouteVia;
    var g := groups[k];
    assert IsGroup(valid, |valid|, g);
    GroupStartsAtFirst(valid, g, g.indexes[i]);
    var req := valid[g.indexes[i]].value;
    RouteViaGroup(groups, routes, k, req.tenant, req.resource);
  }

  /** Group `k` has no index in common with the groups before it. */
  lemma GroupIsNew(valid: seq<Option<Request>>, groups: seq<Group>, k: nat)
    requires IsPlan(valid, |valid|, groups) && k < |groups|
    ensures forall i | i in groups[k].indexes :: i !in PlannedOrder(groups[..k]) && i < |valid| && valid[i].Some?
  {
    hide KeyOf, PlannedOrder;
    PlannedMembers(valid, groups, k);
    IndexesMembers(valid, |valid|, KeyOf(groups[k]));
    assert IsGroup(valid, |valid|, groups[k]);
  }

  /** The validation loop. */
  method Validate(reqs: seq<Option<Request>>) returns (valid: seq<Option<Request>>, responses: seq<Response>)
    ensures valid == Validated(reqs) && Untouched(reqs, responses)
  {
    valid, responses := [], [];
    for i := 0 to |reqs|
      invariant |valid| == |responses| == i
      invariant forall j | 0 <= j < i :: valid[j] == Validated(reqs)[j]
      invariant forall j | 0 <= j < i && !IsValid(reqs[j]) :: responses[j] == Failed(FailureCode(reqs[j]))
    {
      if reqs[i].None? {
        valid, responses := valid + [None], responses + [Failed("INVALID_REQUEST")];
      } else {
        var req := reqs[i].value;
        if req.tenant == "" || req.resource == "" || req.user == "" {
          valid, responses := valid + [None], responses + [Failed("INVALID_REQUEST")];
        } else if req.cost <= 0 {
          valid, responses := valid + [None], responses + [Failed("INVALID_COST")];
        } else {
          valid, responses := valid + [reqs[i]], responses + [Failed("")];
        }
      }
    }
  }

  /** The response at every index of a batch, given the decisions. */
  ghost function Responses(ctx: Context, reqs: seq<Option<Request>>, done: map<nat, Decision>): (r: seq<Response>)
    requires ctx.valid == Validated(reqs)
    ensures |r| == |reqs|
  {
    seq(|reqs|, i requires 0 <= i < |reqs| =>
      if IsValid(reqs[i]) then ResponseFor(ctx, done, i) else Failed(FailureCode(reqs[i])))
  }

  /** The outcome of a batch: the requests run in the planned order, each on the route of its group. */
  ghost function Grouped(s: Store, routes: Routes, reqs: seq<Option<Request>>, groups: seq<Group>, now: int)
    : (Store, seq<Response>)
  {
    var ctx := Context(Validated(reqs), GroupRoutes(groups, routes), now);
    var (s', done) := RunOrder(ctx, s, PlannedOrder(groups));
    (s', Responses(ctx, reqs, done))
  }

  /** Checking one by one is the run in the original order, each request on its own route. */
  lemma SequentialResponses(s: Store, routes: Routes, reqs: seq<Option<Request>>, now: int)
    ensures var ctx := Context(Validated(reqs), routes, now);
            var (s', done) := RunOrder(ctx, s, Upto(|reqs|));
            Sequential(s, routes, reqs, now) == (s', Responses(ctx, reqs, done))
  {
    hide RunOrder, Sequential, ResponseFor, IsValid;
    assert reqs[..|reqs|] == reqs;
    SequentialIsOriginalRun(s, routes, reqs, |reqs|, now);
    var ctx := Context(Validated(reqs), routes, now);
    assert Sequential(s, routes, reqs, now).1 == Responses(ctx, reqs, RunOrder(ctx, s, Upto(|reqs|)).1);
  }

  /** Once every group has run, the responses are those of the batch. */
  lemma AllAnswered(ctx: Context, s0: Store, reqs: seq<Option<Request>>, groups: seq<Group>, responses: seq<Response>)
    requires ctx.valid == Validated(reqs) && IsPlan(ctx.valid, |ctx.valid|, groups)
    requires Answered(ctx, s0, PlannedOrder(groups), responses) && Untouched(reqs, responses)
    ensures responses == Responses(ctx, reqs, RunOrder(ctx, s0, PlannedOrder(groups)).1)
  {
    hide RunOrder, PlannedOrder, ResponseFor, IsPlan;
    PlanRunsAll(ctx.valid, groups);
    var done := RunOrder(ctx, s0, PlannedOrder(groups)).1;
    forall i | 0 <= i < |reqs|
      ensures responses[i] == Responses(ctx, reqs, done)[i]
    {
      if IsValid(reqs[i]) {
        assert i in PlannedOrder(groups);
      }
    }
    assert responses == Responses(ctx, reqs, done);
  }

  /** Without mixed groups the route of the group is the route of the request. */
  lemma UnmixedRoutes(valid: seq<Option<Request>>, routes: Routes, groups: seq<Group>, now: int, i: nat)
    requires IsPlan(valid, |valid|, groups) && Unmixed(valid) && i < |valid| && valid[i].Some?
    ensures RouteOf(Context(valid, GroupRoutes(groups, routes), now), i) == RouteOf(Context(valid, routes, now), i)
  {
    hide PairKey, IndexesOf, RouteVia;
    var req := valid[i].value;
    var k :| 0 <= k < |groups| && HasKey(valid[i], KeyOf(groups[k]));
    assert IsGroup(valid, |valid|, groups[k]);
    GroupNames(valid, groups[k], i);
    RouteViaGroup(groups, routes, k, req.tenant, req.resource);
  }

  lemma GroupNames(valid: seq<Option<Request>>, g: Group, i: nat)
    requires IsGroup(valid, |valid|, g) && Unmixed(valid) && i < |valid| && HasKey(valid[i], KeyOf(g))
    ensures valid[i].value.tenant == g.tenant && valid[i].value.resource == g.resource
  {
    hide PairKey;
    assert HasKey(valid[g.indexes[0]], KeyOf(g));
  }

  /** An orderly batch gives what checking its requests one by one gives. */
  lemma OrderlyBatchIsSequential(s: Store, routes: Routes, reqs: seq<Option<Request>>, groups: seq<Group>, now: int)
    requires IsPlan(Validated(reqs), |reqs|, groups) && Orderly(Validated(reqs))
    ensures Grouped(s, routes, reqs, groups, now) == Sequential(s, routes, reqs, now)
  {
    hide RunOrder, PlannedOrder, Sequential, IsPlan, Unmixed, KeepsOrder, RouteOf;
    var valid := Validated(reqs);
    var ctx, own := Context(valid, GroupRoutes(groups, routes), now), Context(valid, routes, now);
    forall i: nat | i < |valid| && valid[i].Some?
      ensures RouteOf(ctx, i) == RouteOf(own, i)
    {
      UnmixedRoutes(valid, routes, groups, now, i);
    }
    SameRoutesSameRun(ctx, own, s, PlannedOrder(groups));
    PlannedRunIsOriginalRun(own, s, groups);
    SequentialResponses(s, routes, reqs, now);
    var done := RunOrder(own, s, Upto(|reqs|)).1;
    forall i | 0 <= i < |reqs|
      ensures Responses(ctx, reqs, done)[i] == Responses(own, reqs, done)[i]
    {
      if IsValid(reqs[i]) {
        assert RouteOf(ctx, i) == RouteOf(own, i);
      }
    }
    assert Responses(ctx, reqs, done) == Responses(own, reqs, done);
  }

  /**
   * CheckLimitBatch: the requests are run in the planned order, each on the route of its group; for an orderly batch
   * that is what checking them one by one in their original order gives, at every index and in the store.
   */
  method CheckLimitBatch(redis: InMemoryRedis, routes: Routes, reqs: seq<Option<Request>>, now: int)
    returns (responses: seq<Response>)
    requires redis.healthy
    modifies redis`tokenBuckets, redis`fixedWindows, redis`slidingWindows
    ensures exists groups ::
      && IsPlan(Validated(reqs), |reqs|, groups)
      && (redis.Contents(), responses) == Grouped(old(redis.Contents()), routes, reqs, groups, now)
    ensures Orderly(Validated(reqs)) ==>
              (redis.Contents(), responses) == Sequential(old(redis.Contents()), routes, reqs, now)
  {
    hide RunOrder, PlannedOrder, Sequential, Orderly, GroupOutcome, Answered, ResponseFor, GroupRoutes, RouteOf;
    hide IsGroup, Responses, IsValid, KeyOf;
    var valid;
    valid, responses := Validate(reqs);
    var groups := Plan(valid);
    ghost var ctx, s0 := Context(valid, GroupRoutes(groups, routes), now), redis.Contents();
    NothingAnswered(ctx, s0, responses);
    for k := 0 to |groups|
      invariant Untouched(reqs, responses) && redis.healthy
      invariant redis.Contents() == RunOrder(ctx, s0, PlannedOrder(groups[..k])).0
      invariant Answered(ctx, s0, PlannedOrder(groups[..k]), responses)
    {
      var g := groups[k];
      ghost var before := responses;
      GroupFacts(valid, groups, k);
      label L:
      var answers := CheckGroup(redis, routes, valid, g, now);
      AnswersFit(valid, routes, g, now, old@L(redis.Contents()), redis.Contents(), answers);
      responses := Scatter(responses, g.indexes, answers);
      NextGroup(groups, k);
      GroupAnswers(ctx, routes, s0, reqs, groups, k, redis.Contents(), answers, before, responses);
    }
    assert groups[..|groups|] == groups;
    AllAnswered(ctx, s0, reqs, groups, responses);
    if Orderly(valid) {
      OrderlyBatchIsSequential(s0, routes, reqs, groups, now);
    }
  }

  lemma GroupFacts(valid: seq<Option<Request>>, groups: seq<Group>, k: nat)
    requires IsPlan(valid, |valid|, groups) && k < |groups|
    ensures var g := groups[k];
            && IsGroup(valid, |valid|, g)
            && (forall i | 0 <= i < |g.indexes| :: g.indexes[i] < |valid| && valid[g.indexes[i]].Some?)
            && (forall i, j | 0 <= i < j < |g.indexes| :: g.indexes[i] < g.indexes[j])
  {
    hide PairKey;
    IndexesIncrease(valid, |valid|, KeyOf(groups[k]));
  }

  /** One more group is answered as its indexes deserve, and the invalid requests keep their error. */
  lemma GroupAnswers(
    ctx: Context, routes: Routes, s0: Store, reqs: seq<Option<Request>>, groups: seq<Group>, k: nat, s': Store,
    answers: seq<Response>, before: seq<Response>, after: seq<Response>)
    requires ctx.valid == Validated(reqs) && IsPlan(ctx.valid, |ctx.valid|, groups) && k < |groups|
    requires ctx.routes == GroupRoutes(groups, routes) && IsGroup(ctx.valid, |ctx.valid|, groups[k])
    requires Answered(ctx, s0, PlannedOrder(groups[..k]), before) && Untouched(reqs, before) && |after| == |before|
    requires GroupOutcome(ctx.valid, routes, groups[k], ctx.now,
                          RunOrder(ctx, s0, PlannedOrder(groups[..k])).0, s', answers)
    requires |answers| == |groups[k].indexes|
    requires forall j | 0 <= j < |groups[k].indexes| ::
               groups[k].indexes[j] < |after| && after[groups[k].indexes[j]] == answers[j]
    requires forall i | 0 <= i < |before| && i !in groups[k].indexes :: after[i] == before[i]
    ensures s' == RunOrder(ctx, s0, PlannedOrder(groups[..k]) + groups[k].indexes).0
    ensures Answered(ctx, s0, PlannedOrder(groups[..k]) + groups[k].indexes, after) && Untouched(reqs, after)
  {
    hide RunOrder, PlannedOrder, ResponseFor, GroupOutcome, GroupRoutes, RouteOf, IsGroup, Answered, KeyOf, IsPlan;
    var g, order := groups[k], PlannedOrder(groups[..k]);
    GroupIsNew(ctx.valid, groups, k);
    forall i | 0 <= i < |g.indexes|
      ensures g.indexes[i] < |ctx.valid| && ctx.valid[g.indexes[i]].Some?
      ensures RouteOf(ctx, g.indexes[i]) == routes(g.tenant, g.resource)
    {
      MembersTakeGroupRoute(ctx.valid, routes, groups, ctx.now, k, i);
    }
    GroupIsRun(ctx, routes, s0, order, g, s', answers);
    AnsweredLength(ctx, s0, order, before);
    forall i | i in g.indexes
      ensures i < |ctx.valid| && ctx.valid[i].Some?
      ensures after[i] == ResponseFor(ctx, RunOrder(ctx, s0, order + g.indexes).1, i)
    {
      var j :| 0 <= j < |g.indexes| && g.indexes[j] == i;
    }
    GroupAnswered(ctx, s0, order, g.indexes, before, after);
  }

  lemma AnsweredLength(ctx: Context, s0: Store, order: seq<nat>, responses: seq<Response>)
    requires Answered(ctx, s0, order, responses)
    ensures |responses| == |ctx.valid|
  {
  }

  lemma NothingAnswered(ctx: Context, s0: Store, responses: seq<Response>)
    requires |responses| == |ctx.valid|
    ensures PlannedOrder([]) == [] && Answered(ctx, s0, [], responses) && RunOrder(ctx, s0, []).0 == s0
  {
  }

  lemma AnswersFit(
    valid: seq<Option<Request>>, routes: Routes, g: Group, now: int, s: Store, s': Store, answers: seq<Response>)
    requires IsGroup(valid, |valid|, g) && GroupOutcome(valid, routes, g, now, s, s', answers)
    ensures |answers| == |g.indexes|
  {
  }

  // Error codes

  predicate Named(req: Option<Request>) {
    req.Some? && req.value.tenant != "" && req.value.user != "" && req.value.resource != ""
  }

  /**
   * The response at an index, in the one-by-one check and in the batch: a request without a tenant, a user or a
   * resource is invalid, one without a positive cost has an invalid cost, and nothing else is answered so.
   */
  lemma InvalidIff(s: Store, routes: Routes, reqs: seq<Option<Request>>, groups: seq<Group>, now: int, i: nat)
    requires i < |reqs|
    ensures var single, batch := Sequential(s, routes, reqs, now).1, Grouped(s, routes, reqs, groups, now).1;
            && |single| == |batch| == |reqs|
            && (single[i] == Failed("INVALID_REQUEST") <==> !Named(reqs[i]))
            && (batch[i] == Failed("INVALID_REQUEST") <==> !Named(reqs[i]))
            && (single[i] == Failed("INVALID_COST") <==> Named(reqs[i]) && reqs[i].value.cost <= 0)
            && (batch[i] == Failed("INVALID_COST") <==> Named(reqs[i]) && reqs[i].value.cost <= 0)
  {
    hide RunOrder, PlannedOrder, Sequential, RouteOf, GroupRoutes;
    SequentialResponses(s, routes, reqs, now);
  }

  /** On its own a valid request without a rule, or without a limiter, is answered so, and any other is decided. */
  lemma RouteDecides(s: Store, routes: Routes, reqs: seq<Option<Request>>, now: int, i: nat)
    requires i < |reqs| && IsValid(reqs[i])
    ensures var single := Sequential(s, routes, reqs, now).1;
            var route := routes(reqs[i].value.tenant, reqs[i].value.resource);
            && |single| == |reqs|
            && (single[i] == Failed("RULE_NOT_FOUND") <==> route == NoRule)
            && (single[i] == Failed("LIMITER_UNAVAILABLE") <==> route == Unavailable)
            && (single[i].Decided? <==> route.Limiter?)
  {
    hide RunOrder, Sequential, Exec;
    SequentialResponses(s, routes, reqs, now);
    var ctx := Context(Validated(reqs), routes, now);
    RunCoversOrder(ctx, s, Upto(|reqs|));
    assert Upto(|reqs|)[i] == i;
  }
}
