/** Exactly when a batch can be told from checking its requests one by one. */
module BatchExact {
  import opened Base
  import opened Keys
  import opened Limits
  import opened Store
  import opened Batch
  import opened BatchRun
  import opened BatchHandler

  /** Whatever the store, the routes and the time, the batch and the one-by-one check give the same. */
  ghost predicate AlwaysAgrees(reqs: seq<Option<Request>>, groups: seq<Group>) {
    forall s, routes, now :: Grouped(s, routes, reqs, groups, now) == Sequential(s, routes, reqs, now)
  }

  // A mixed group

  /** Only one tenant and resource has no rule; all others have a rule and no limiter. */
  function OnlyRule(tenant: string, resource: string): Routes {
    (t, r) => if t == tenant && r == resource then NoRule else Unavailable
  }

  lemma ResponseAt(ctx: Context, reqs: seq<Option<Request>>, done: map<nat, Decision>, i: nat)
    requires ctx.valid == Validated(reqs) && i < |reqs| && IsValid(reqs[i])
    ensures Responses(ctx, reqs, done)[i] == ResponseFor(ctx, done, i)
  {
  }

  predicate Says(responses: seq<Response>, i: nat, r: Response) {
    i < |responses| && responses[i] == r
  }

  /** A member of a group is answered for the names of the group. */
  lemma GroupedMember(s: Store, routes: Routes, reqs: seq<Option<Request>>, groups: seq<Group>, k: nat, i: nat)
    requires IsPlan(Validated(reqs), |reqs|, groups) && k < |groups| && i in groups[k].indexes
    requires i < |reqs| && IsValid(reqs[i]) && routes(groups[k].tenant, groups[k].resource) == NoRule
    ensures Says(Grouped(s, routes, reqs, groups, 0).1, i, Failed("RULE_NOT_FOUND"))
  {
    hide RunOrder, PlannedOrder, IsPlan, GroupRoutes, KeyOf, Responses, RouteOf;
    var g, valid := groups[k], Validated(reqs);
    var ctx := Context(valid, GroupRoutes(groups, routes), 0);
    var j :| 0 <= j < |g.indexes| && g.indexes[j] == i;
    MembersTakeGroupRoute(valid, routes, groups, 0, k, j);
    ResponseAt(ctx, reqs, RunOrder(ctx, s, PlannedOrder(groups)).1, i);
  }

  /** On its own a request is answered for its own names. */
  lemma OwnMember(s: Store, routes: Routes, reqs: seq<Option<Request>>, i: nat)
    requires i < |reqs| && IsValid(reqs[i]) && routes(reqs[i].value.tenant, reqs[i].value.resource) == Unavailable
    ensures Says(Sequential(s, routes, reqs, 0).1, i, Failed("LIMITER_UNAVAILABLE"))
  {
    hide RunOrder, Sequential, Responses;
    var own := Context(Validated(reqs), routes, 0);
    SequentialResponses(s, routes, reqs, 0);
    ResponseAt(own, reqs, RunOrder(own, s, Upto(|reqs|)).1, i);
  }

  /** The batch answers a member with other names than its group's wrongly, for some routes in any store. */
  lemma MisroutedMember(s: Store, reqs: seq<Option<Request>>, groups: seq<Group>, k: nat, i: nat)
    requires IsPlan(Validated(reqs), |reqs|, groups) && k < |groups| && i in groups[k].indexes
    requires i < |reqs| && IsValid(reqs[i])
    requires reqs[i].value.tenant != groups[k].tenant || reqs[i].value.resource != groups[k].resource
    ensures var routes := OnlyRule(groups[k].tenant, groups[k].resource);
            && Says(Grouped(s, routes, reqs, groups, 0).1, i, Failed("RULE_NOT_FOUND"))
            && Says(Sequential(s, routes, reqs, 0).1, i, Failed("LIMITER_UNAVAILABLE"))
  {
    hide Grouped, Sequential, IsPlan, Says;
    var routes := OnlyRule(groups[k].tenant, groups[k].resource);
    GroupedMember(s, routes, reqs, groups, k, i);
    OwnMember(s, routes, reqs, i);
  }

  lemma KeyMember(valid: seq<Option<Request>>, groups: seq<Group>, k: nat, i: nat)
    requires IsPlan(valid, |valid|, groups) && k < |groups| && i < |valid| && HasKey(valid[i], KeyOf(groups[k]))
    ensures i in groups[k].indexes
  {
    hide KeyOf, PairKey;
    assert IsGroup(valid, |valid|, groups[k]);
    IndexesMembers(valid, |valid|, KeyOf(groups[k]));
  }

  lemma GroupOf(valid: seq<Option<Request>>, groups: seq<Group>, i: nat) returns (k: nat)
    requires IsPlan(valid, |valid|, groups) && i < |valid| && valid[i].Some?
    ensures k < |groups| && KeyOf(groups[k]) == PairKey(valid[i].value.tenant, valid[i].value.resource)
  {
    hide KeyOf, PairKey, IsGroup;
    k :| 0 <= k < |groups| && HasKey(valid[i], KeyOf(groups[k]));
  }

  /** A mixed batch has a member with other names than its group's. */
  lemma MixedMember(reqs: seq<Option<Request>>, groups: seq<Group>) returns (k: nat, i: nat)
    requires IsPlan(Validated(reqs), |reqs|, groups) && !Unmixed(Validated(reqs))
    ensures k < |groups| && i in groups[k].indexes && i < |reqs| && IsValid(reqs[i])
    ensures reqs[i].value.tenant != groups[k].tenant || reqs[i].value.resource != groups[k].resource
  {
    hide PairKey, KeyOf, IsPlan;
    var valid := Validated(reqs);
    var x, y :| 0 <= x < |valid| && 0 <= y < |valid| && valid[x].Some? && valid[y].Some?
      && PairKey(valid[x].value.tenant, valid[x].value.resource)
         == PairKey(valid[y].value.tenant, valid[y].value.resource)
      && !(valid[x].value.tenant == valid[y].value.tenant && valid[x].value.resource == valid[y].value.resource);
    k := GroupOf(valid, groups, x);
    var g := groups[k];
    i := if valid[x].value.tenant != g.tenant || valid[x].value.resource != g.resource then x else y;
    KeyMember(valid, groups, k, i);
  }

  lemma MixedGroupDiffers(reqs: seq<Option<Request>>, groups: seq<Group>)
    requires IsPlan(Validated(reqs), |reqs|, groups) && !Unmixed(Validated(reqs))
    ensures !AlwaysAgrees(reqs, groups)
  {
    hide Grouped, Sequential, IsPlan, Unmixed;
    var k, i := MixedMember(reqs, groups);
    MisroutedMember(EMPTY, reqs, groups, k, i);
    var routes := OnlyRule(groups[k].tenant, groups[k].resource);
    assert Grouped(EMPTY, routes, reqs, groups, 0) != Sequential(EMPTY, routes, reqs, 0);
  }

  // An order that is not kept

  /** One fixed window for everybody. */
  function OneWindow(limit: int): Routes
    requires limit > 0
  {
    (t, r) => Limiter(FixedWindow, Params(limit, 1, 0))
  }

  function CostAt(valid: seq<Option<Request>>, i: nat): int {
    if i < |valid| && valid[i].Some? then valid[i].value.cost else 0
  }

  function Sum(valid: seq<Option<Request>>, order: seq<nat>): int {
    if order == [] then 0 else Sum(valid, order[..|order| - 1]) + CostAt(valid, order[|order| - 1])
  }

  ghost predicate PositiveCosts(valid: seq<Option<Request>>) {
    forall i | 0 <= i < |valid| && valid[i].Some? :: valid[i].value.cost > 0
  }

  lemma {:induction false} SumOfPrefix(valid: seq<Option<Request>>, order: seq<nat>, k: nat)
    requires PositiveCosts(valid) && k <= |order|
    ensures 0 <= Sum(valid, order[..k]) <= Sum(valid, order)
    decreases |order|
  {
    if order == [] {
      assert order[..k] == order;
    } else if k == |order| {
      assert order[..k] == order;
      SumOfPrefix(valid, order[..|order| - 1], |order| - 1);
      assert order[..|order| - 1][..|order| - 1] == order[..|order| - 1];
    } else {
      SumOfPrefix(valid, order[..|order| - 1], k);
      assert order[..|order| - 1][..k] == order[..k];
    }
  }

  /** Every valid request goes to the fixed window of its counter key. */
  ghost predicate AllInWindow(ctx: Context, limit: int)
    requires limit > 0
  {
    forall i: nat | i < |ctx.valid| && ctx.valid[i].Some? ::
      RouteOf(ctx, i) == Limiter(FixedWindow, Params(limit, 1, 0))
  }

  function Used(s: Store, key: string, now: int): int {
    UsedAt(Lookup(s.counters, key), 1, now)
  }

  /** With room for everything, the counter is within the sum of the costs, and no one found less remaining than now. */
  ghost predicate Falling(ctx: Context, order: seq<nat>, key: string, limit: int) {
    var (s, done) := RunOrder(ctx, EMPTY, order);
    && 0 <= Used(s, key, ctx.now) <= Sum(ctx.valid, order)
    && forall i | i in done && i < |ctx.valid| && ctx.valid[i].Some? && CounterKey(ctx.valid[i].value) == key ::
         done[i].remaining >= limit - Used(s, key, ctx.now)
  }

  /** One call on a fixed window with room for it. */
  lemma WindowCall(s: Store, op: Op, now: int, key: string)
    requires op.kind == FixedWindow && op.params.window == 1 && op.cost > 0 && op.params.limit > 0
    requires 0 <= Used(s, op.key, now) && Used(s, op.key, now) + op.cost <= op.params.limit
    ensures var (t, r) := Exec(s, true, op, now);
            && r.Ok? && r.value.remaining == op.params.limit - Used(s, op.key, now) - op.cost
            && Used(t, key, now) == Used(s, key, now) + if key == op.key then op.cost else 0
  {
  }

  lemma WindowOp(ctx: Context, i: nat, limit: int)
    requires limit > 0 && AllInWindow(ctx, limit) && PositiveCosts(ctx.valid) && i < |ctx.valid| && ctx.valid[i].Some?
    ensures Live(ctx, i)
    ensures OpFor(ctx, i) == Op(FixedWindow, CounterKey(ctx.valid[i].value), Params(limit, 1, 0), CostAt(ctx.valid, i))
  {
    hide BuildKey;
  }

  lemma SumSnoc(valid: seq<Option<Request>>, order: seq<nat>, i: nat)
    ensures Sum(valid, order + [i]) == Sum(valid, order) + CostAt(valid, i)
  {
    assert (order + [i])[..|order + [i]| - 1] == order;
  }

  /** One more request finds strictly less remaining than every earlier one with its counter key. */
  lemma OneMoreFalls(ctx: Context, order: seq<nat>, i: nat, key: string, limit: int)
    requires limit > 0 && AllInWindow(ctx, limit) && PositiveCosts(ctx.valid) && i < |ctx.valid| && ctx.valid[i].Some?
    requires Falling(ctx, order, key, limit) && Falling(ctx, order, CounterKey(ctx.valid[i].value), limit)
    requires i !in order && Sum(ctx.valid, order + [i]) <= limit
    ensures Falling(ctx, order + [i], key, limit)
    ensures var done := RunOrder(ctx, EMPTY, order + [i]).1;
            && i in done
            && forall j | j in RunOrder(ctx, EMPTY, order).1 && j < |ctx.valid| && ctx.valid[j].Some?
                          && CounterKey(ctx.valid[j].value) == CounterKey(ctx.valid[i].value) ::
                 j in done && done[j].remaining > done[i].remaining
  {
    hide Exec, RunOrder, Live, OpFor, Used, Sum, CounterKey, AllInWindow;
    SumSnoc(ctx.valid, order, i);
    WindowOp(ctx, i, limit);
    RunSnoc(ctx, EMPTY, order, i);
    RunCoversOrder(ctx, EMPTY, order);
    WindowCall(RunOrder(ctx, EMPTY, order).0, OpFor(ctx, i), ctx.now, key);
  }

  lemma NothingFalls(ctx: Context, key: string, limit: int)
    ensures Falling(ctx, [], key, limit)
  {
  }

  /** No index twice, and only valid requests. */
  ghost predicate Proper(valid: seq<Option<Request>>, order: seq<nat>) {
    && (forall a | 0 <= a < |order| :: order[a] < |valid| && valid[order[a]].Some?)
    && (forall a, b | 0 <= a < b < |order| :: order[a] != order[b])
  }

  lemma {:induction false} RunFalls(ctx: Context, order: seq<nat>, key: string, limit: int)
    requires limit > 0 && AllInWindow(ctx, limit) && PositiveCosts(ctx.valid) && Proper(ctx.valid, order)
    requires Sum(ctx.valid, order) <= limit
    ensures Falling(ctx, order, key, limit)
    decreases |order|
  {
    hide AllInWindow, Falling, Sum, CounterKey;
    if order == [] {
      NothingFalls(ctx, key, limit);
    } else {
      var init, i := order[..|order| - 1], order[|order| - 1];
      assert order == init + [i];
      SumOfPrefix(ctx.valid, order, |order| - 1);
      RunFalls(ctx, init, key, limit);
      RunFalls(ctx, init, CounterKey(ctx.valid[i].value), limit);
      OneMoreFalls(ctx, init, i, key, limit);
    }
  }

  /** Of two requests with one counter key, the one that runs later is told that less remains. */
  lemma LaterFindsLess(ctx: Context, order: seq<nat>, a: nat, b: nat, limit: int)
    requires limit > 0 && AllInWindow(ctx, limit) && PositiveCosts(ctx.valid) && Proper(ctx.valid, order)
    requires Sum(ctx.valid, order) <= limit && a < b < |order|
    requires CounterKey(ctx.valid[order[a]].value) == CounterKey(ctx.valid[order[b]].value)
    ensures var done := RunOrder(ctx, EMPTY, order).1;
            order[a] in done && order[b] in done && done[order[a]].remaining > done[order[b]].remaining
  {
    hide AllInWindow, Falling, Sum, CounterKey, RunOrder, Live;
    var x, y, key := order[a], order[b], CounterKey(ctx.valid[order[b]].value);
    var init, rest := order[..b], order[b + 1..];
    assert order == init + [y] + rest;
    assert order[..b + 1] == init + [y];
    SumOfPrefix(ctx.valid, order, b);
    SumOfPrefix(ctx.valid, order, b + 1);
    RunFalls(ctx, init, key, limit);
    OneMoreFalls(ctx, init, y, key, limit);
    RunCoversOrder(ctx, EMPTY, init);
    WindowOp(ctx, x, limit);
    assert init[a] == x;
    RunAppend(ctx, EMPTY, init + [y], rest);
    assert x !in rest && y !in rest by {
      forall c | 0 <= c < |rest|
        ensures rest[c] != x && rest[c] != y
      {
        assert rest[c] == order[b + 1 + c];
      }
    }
  }

  lemma PlanIsProper(valid: seq<Option<Request>>, groups: seq<Group>)
    requires IsPlan(valid, |valid|, groups)
    ensures Proper(valid, PlannedOrder(groups))
  {
    hide PlannedOrder, IsPlan, First;
    var p := PlannedOrder(groups);
    PlanRunsAll(valid, groups);
    forall a | 0 <= a < |p|
      ensures p[a] < |valid| && valid[p[a]].Some?
    {
      assert p[a] in p;
    }
    forall a, b | 0 <= a < b < |p|
      ensures p[a] != p[b]
    {
      PlannedPair(valid, groups, a, b);
    }
  }

  /** The valid requests in their original order. */
  function Originals(valid: seq<Option<Request>>, n: nat): (order: seq<nat>)
    requires n <= |valid|
    ensures forall a | 0 <= a < |order| :: order[a] < n && valid[order[a]].Some?
    ensures forall a, b | 0 <= a < b < |order| :: order[a] < order[b]
    ensures forall i | 0 <= i < n && valid[i].Some? :: i in order
  {
    if n == 0 then []
    else Originals(valid, n - 1) + if valid[n - 1].Some? then [n - 1] else []
  }

  /** Requests that are not valid leave no trace in the run. */
  lemma {:induction false} OriginalsSuffice(ctx: Context, s: Store, n: nat)
    requires n <= |ctx.valid|
    ensures RunOrder(ctx, s, Upto(n)) == RunOrder(ctx, s, Originals(ctx.valid, n))
  {
    hide RunOrder, Exec, OpFor;
    if n > 0 {
      OriginalsSuffice(ctx, s, n - 1);
      RunSnoc(ctx, s, Upto(n - 1), n - 1);
      RunSnoc(ctx, s, Originals(ctx.valid, n - 1), n - 1);
      assert Originals(ctx.valid, n - 1) + [] == Originals(ctx.valid, n - 1);
    }
  }

  lemma WindowRoutes(valid: seq<Option<Request>>, groups: seq<Group>, limit: int)
    requires limit > 0
    ensures AllInWindow(Context(valid, OneWindow(limit), 0), limit)
    ensures AllInWindow(Context(valid, GroupRoutes(groups, OneWindow(limit)), 0), limit)
  {
    forall t, r
      ensures RouteVia(groups, OneWindow(limit), t, r) == Limiter(FixedWindow, Params(limit, 1, 0))
    {
      WindowRoute(groups, limit, t, r);
    }
  }

  lemma {:induction false} WindowRoute(groups: seq<Group>, limit: int, tenant: string, resource: string)
    requires limit > 0
    ensures RouteVia(groups, OneWindow(limit), tenant, resource) == Limiter(FixedWindow, Params(limit, 1, 0))
  {
    hide KeyOf, PairKey;
    if groups != [] {
      WindowRoute(groups[1..], limit, tenant, resource);
    }
  }

  /** Where an index is in an order. */
  lemma PlaceOf(order: seq<nat>, i: nat) returns (a: nat)
    requires i in order
    ensures a < |order| && order[a] == i
  {
    a :| 0 <= a < |order| && order[a] == i;
  }

  lemma DecidedAt(ctx: Context, reqs: seq<Option<Request>>, done: map<nat, Decision>, i: nat, limit: int)
    requires limit > 0 && AllInWindow(ctx, limit) && ctx.valid == Validated(reqs)
    requires i < |reqs| && IsValid(reqs[i]) && i in done
    ensures Responses(ctx, reqs, done)[i] == Decided(done[i])
  {
  }

  /** In the batch the later of the two requests runs first. */
  lemma PlannedFindsLess(
    ctx: Context, groups: seq<Group>, i: nat, j: nat, limit: int)
    requires limit > 0 && AllInWindow(ctx, limit) && PositiveCosts(ctx.valid) && IsPlan(ctx.valid, |ctx.valid|, groups)
    requires Sum(ctx.valid, PlannedOrder(groups)) <= limit
    requires i < j < |ctx.valid| && ctx.valid[i].Some? && ctx.valid[j].Some?
    requires CounterKey(ctx.valid[i].value) == CounterKey(ctx.valid[j].value)
    requires First(ctx.valid, j) < First(ctx.valid, i)
    ensures var done := RunOrder(ctx, EMPTY, PlannedOrder(groups)).1;
            i in done && j in done && done[j].remaining > done[i].remaining
  {
    hide AllInWindow, Sum, CounterKey, RunOrder, PlannedOrder, IsPlan, First;
    var p := PlannedOrder(groups);
    PlanIsProper(ctx.valid, groups);
    PlanRunsAll(ctx.valid, groups);
    var a := PlaceOf(p, i);
    var b := PlaceOf(p, j);
    if a < b {
      PlannedPair(ctx.valid, groups, a, b);
    }
    LaterFindsLess(ctx, p, b, a, limit);
  }

  lemma OriginalFindsLess(ctx: Context, i: nat, j: nat, limit: int)
    requires limit > 0 && AllInWindow(ctx, limit) && PositiveCosts(ctx.valid)
    requires Sum(ctx.valid, Originals(ctx.valid, |ctx.valid|)) <= limit
    requires i < j < |ctx.valid| && ctx.valid[i].Some? && ctx.valid[j].Some?
    requires CounterKey(ctx.valid[i].value) == CounterKey(ctx.valid[j].value)
    ensures var done := RunOrder(ctx, EMPTY, Upto(|ctx.valid|)).1;
            i in done && j in done && done[i].remaining > done[j].remaining
  {
    hide AllInWindow, Sum, CounterKey, RunOrder, Originals;
    var o := Originals(ctx.valid, |ctx.valid|);
    OriginalsSuffice(ctx, EMPTY, |ctx.valid|);
    var a := PlaceOf(o, i);
    var b := PlaceOf(o, j);
    LaterFindsLess(ctx, o, a, b, limit);
  }

  lemma ValidatedCosts(reqs: seq<Option<Request>>)
    ensures PositiveCosts(Validated(reqs))
  {
  }

  /** Both are decided, and `y` is told that less remains than `x` is told. */
  predicate ToldLess(responses: seq<Response>, x: nat, y: nat) {
    && x < |responses| && y < |responses| && responses[x].Decided? && responses[y].Decided?
    && responses[x].decision.remaining > responses[y].decision.remaining
  }

  lemma ToldBothWays(p: seq<Response>, q: seq<Response>, x: nat, y: nat)
    requires ToldLess(p, x, y) && ToldLess(q, y, x)
    ensures p != q
  {
  }

  lemma ValidAt(reqs: seq<Option<Request>>, i: nat)
    requires i < |reqs| && IsValid(reqs[i])
    ensures reqs[i].Some? && Validated(reqs)[i] == reqs[i]
  {
  }

  /** In the batch the earlier request is told that less remains. */
  lemma BatchTells(reqs: seq<Option<Request>>, groups: seq<Group>, i: nat, j: nat, limit: int)
    requires limit > 0 && IsPlan(Validated(reqs), |reqs|, groups)
    requires Sum(Validated(reqs), PlannedOrder(groups)) <= limit
    requires i < j < |reqs| && IsValid(reqs[i]) && IsValid(reqs[j])
    requires CounterKey(reqs[i].value) == CounterKey(reqs[j].value)
    requires First(Validated(reqs), j) < First(Validated(reqs), i)
    ensures ToldLess(Grouped(EMPTY, OneWindow(limit), reqs, groups, 0).1, j, i)
  {
    hide AllInWindow, Sum, CounterKey, RunOrder, PlannedOrder, IsPlan, First, Responses, OneWindow;
    hide GroupRoutes, PositiveCosts;
    var valid := Validated(reqs);
    var ctx := Context(valid, GroupRoutes(groups, OneWindow(limit)), 0);
    ValidatedCosts(reqs);
    WindowRoutes(valid, groups, limit);
    PlannedFindsLess(ctx, groups, i, j, limit);
    ResponsesTell(ctx, reqs, RunOrder(ctx, EMPTY, PlannedOrder(groups)).1, j, i, limit);
  }

  lemma ResponsesTell(ctx: Context, reqs: seq<Option<Request>>, done: map<nat, Decision>, x: nat, y: nat, limit: int)
    requires limit > 0 && AllInWindow(ctx, limit) && ctx.valid == Validated(reqs)
    requires x < |reqs| && y < |reqs| && IsValid(reqs[x]) && IsValid(reqs[y])
    requires x in done && y in done && done[x].remaining > done[y].remaining
    ensures ToldLess(Responses(ctx, reqs, done), x, y)
  {
    hide AllInWindow, Responses, IsValid;
    DecidedAt(ctx, reqs, done, x, limit);
    DecidedAt(ctx, reqs, done, y, limit);
  }

  lemma OwnWindow(valid: seq<Option<Request>>, limit: int)
    requires limit > 0
    ensures AllInWindow(Context(valid, OneWindow(limit), 0), limit)
  {
  }

  /** One by one the later request is told that less remains. */
  lemma SingleTells(reqs: seq<Option<Request>>, i: nat, j: nat, limit: int)
    requires limit > 0 && Sum(Validated(reqs), Originals(Validated(reqs), |reqs|)) <= limit
    requires i < j < |reqs| && IsValid(reqs[i]) && IsValid(reqs[j])
    requires CounterKey(reqs[i].value) == CounterKey(reqs[j].value)
    ensures ToldLess(Sequential(EMPTY, OneWindow(limit), reqs, 0).1, i, j)
  {
    hide AllInWindow, Sum, CounterKey, RunOrder, Originals, Responses, OneWindow, Sequential, PositiveCosts, Upto;
    hide Validated, IsValid, ToldLess;
    var routes := OneWindow(limit);
    var own := Context(Validated(reqs), routes, 0);
    ValidAt(reqs, i);
    ValidAt(reqs, j);
    ValidatedCosts(reqs);
    OwnWindow(Validated(reqs), limit);
    OriginalFindsLess(own, i, j, limit);
    ResponsesTell(own, reqs, RunOrder(own, EMPTY, Upto(|reqs|)).1, i, j, limit);
    SequentialResponses(EMPTY, routes, reqs, 0);
  }

  /** Swapping two requests with one counter key shows in what they are told remains. */
  lemma SwappedOrderDiffers(reqs: seq<Option<Request>>, groups: seq<Group>, i: nat, j: nat)
    requires IsPlan(Validated(reqs), |reqs|, groups)
    requires i < j < |reqs| && IsValid(reqs[i]) && IsValid(reqs[j])
    requires CounterKey(reqs[i].value) == CounterKey(reqs[j].value)
    requires First(Validated(reqs), j) < First(Validated(reqs), i)
    ensures exists routes: Routes ::
      && ToldLess(Grouped(EMPTY, routes, reqs, groups, 0).1, j, i)
      && ToldLess(Sequential(EMPTY, routes, reqs, 0).1, i, j)
    ensures !AlwaysAgrees(reqs, groups)
  {
    hide Sum, CounterKey, PlannedOrder, IsPlan, First, Originals, OneWindow, Sequential, Grouped, ToldLess, Validated;
    hide IsValid, PositiveCosts;
    var valid := Validated(reqs);
    var p, o := PlannedOrder(groups), Originals(valid, |valid|);
    ValidatedCosts(reqs);
    SumOfPrefix(valid, p, 0);
    SumOfPrefix(valid, o, 0);
    var limit := Sum(valid, p) + Sum(valid, o) + 1;
    BatchTells(reqs, groups, i, j, limit);
    SingleTells(reqs, i, j, limit);
    var routes := OneWindow(limit);
    ToldBothWays(Grouped(EMPTY, routes, reqs, groups, 0).1, Sequential(EMPTY, routes, reqs, 0).1, j, i);
    assert Grouped(EMPTY, routes, reqs, groups, 0) != Sequential(EMPTY, routes, reqs, 0);
  }

  lemma DisorderDiffers(reqs: seq<Option<Request>>, groups: seq<Group>)
    requires IsPlan(Validated(reqs), |reqs|, groups) && !KeepsOrder(Validated(reqs))
    ensures !AlwaysAgrees(reqs, groups)
  {
    hide AlwaysAgrees, CounterKey, First, IsPlan;
    var valid := Validated(reqs);
    var i, j :| 0 <= i < j < |valid| && valid[i].Some? && valid[j].Some?
      && CounterKey(valid[i].value) == CounterKey(valid[j].value) && First(valid, j) < First(valid, i);
    SwappedOrderDiffers(reqs, groups, i, j);
  }

  /**
   * A batch gives, for every store, all routes and every time, what checking its requests one by one gives, if and only
   * if no group mixes names and every two requests with one counter key run in their original order.
   */
  lemma AgreesIffOrderly(reqs: seq<Option<Request>>, groups: seq<Group>)
    requires IsPlan(Validated(reqs), |reqs|, groups)
    ensures AlwaysAgrees(reqs, groups) <==> Orderly(Validated(reqs))
  {
    hide Grouped, Sequential, IsPlan, Unmixed, KeepsOrder;
    if Orderly(Validated(reqs)) {
      forall s, routes, now
        ensures Grouped(s, routes, reqs, groups, now) == Sequential(s, routes, reqs, now)
      {
        OrderlyBatchIsSequential(s, routes, reqs, groups, now);
      }
    } else if !Unmixed(Validated(reqs)) {
      MixedGroupDiffers(reqs, groups);
    } else {
      DisorderDiffers(reqs, groups);
    }
  }

  // Names that collide

  function Req(tenant: string, user: string, resource: string): Option<Request> {
    Some(Request(tenant, user, resource, 1))
  }

  const SEPARATOR: string := [SEP]

  /** Tenant "a" with resource "b/c" and tenant "a/b" with resource "c", where / is the separator, form one group. */
  lemma MixedBatch()
    ensures var reqs := [Req("a", "u", "b" + SEPARATOR + "c"), Req("a" + SEPARATOR + "b", "u", "c")];
            (forall i | 0 <= i < |reqs| :: IsValid(reqs[i])) && !Unmixed(reqs)
  {
    var reqs := [Req("a", "u", "b" + SEPARATOR + "c"), Req("a" + SEPARATOR + "b", "u", "c")];
    assert PairKey("a", "b" + SEPARATOR + "c") == PairKey("a" + SEPARATOR + "b", "c");
    assert |"a"| != |"a" + SEPARATOR + "b"|;
    var p, q := reqs[0].value, reqs[1].value;
    assert PairKey(p.tenant, p.resource) == PairKey(q.tenant, q.resource) && p.tenant != q.tenant;
  }

  /** Sharing a counter key is harmless by itself: two groups of one request each run in their original order. */
  lemma SharedCounterBatch()
    ensures var reqs := [Req("a", "b" + SEPARATOR + "c", "d"), Req("a" + SEPARATOR + "b", "c", "d")];
            CounterKey(reqs[0].value) == CounterKey(reqs[1].value) && Orderly(reqs)
  {
    var reqs := [Req("a", "b" + SEPARATOR + "c", "d"), Req("a" + SEPARATOR + "b", "c", "d")];
    assert CounterKey(reqs[0].value) == CounterKey(reqs[1].value);
    assert |PairKey("a", "d")| != |PairKey("a" + SEPARATOR + "b", "d")|;
    assert HasKey(reqs[0], PairKey("a", "d"));
    assert First(reqs, 0) == 0;
  }

  /** It does harm when the later request joins a group that was opened earlier. */
  lemma SwappedBatch()
    ensures var tenant := "a" + SEPARATOR + "b";
            var reqs := [Req(tenant, "u", "d"), Req("a", "b" + SEPARATOR + "c", "d"), Req(tenant, "c", "d")];
            Unmixed(reqs) && !KeepsOrder(reqs)
  {
    var tenant := "a" + SEPARATOR + "b";
    var reqs := [Req(tenant, "u", "d"), Req("a", "b" + SEPARATOR + "c", "d"), Req(tenant, "c", "d")];
    assert |PairKey("a", "d")| != |PairKey(tenant, "d")|;
    assert HasKey(reqs[0], PairKey(tenant, "d")) && !HasKey(reqs[0], PairKey("a", "d"));
    assert First(reqs, 2) == 0 && First(reqs, 1) > 0;
    assert CounterKey(reqs[1].value) == CounterKey(reqs[2].value);
    assert reqs[1].Some? && reqs[2].Some?;
  }
}
