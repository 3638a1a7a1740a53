/** Running a batch group by group gives what running its requests one by one gives. */
module BatchRun {
  import opened Base
  import opened Keys
  import opened Limits
  import opened Store
  import opened Batch

  /** The valid requests of a batch, at their original indexes, with the routes and the clock they meet. */
  datatype Context = Context(valid: seq<Option<Request>>, routes: Routes, now: int)

  function RouteOf(ctx: Context, i: nat): Route
    requires i < |ctx.valid| && ctx.valid[i].Some?
  {
    ctx.routes(ctx.valid[i].value.tenant, ctx.valid[i].value.resource)
  }

  /** Request `i` reaches a limiter. */
  predicate Live(ctx: Context, i: nat) {
    i < |ctx.valid| && ctx.valid[i].Some? && ctx.valid[i].value.cost > 0 && RouteOf(ctx, i).Limiter?
  }

  function OpFor(ctx: Context, i: nat): (op: Op)
    requires Live(ctx, i)
    ensures Accepts(true, op)
  {
    var req, route := ctx.valid[i].value, RouteOf(ctx, i);
    Op(route.kind, BuildKey(req.tenant, req.user, req.resource), route.params, req.cost)
  }

  /** Runs the live requests in the given order: the final store, and the decision at each index. */
  function RunOrder(ctx: Context, s: Store, order: seq<nat>): (Store, map<nat, Decision>) {
    if order == [] then (s, map[])
    else
      var (s1, done) := RunOrder(ctx, s, order[..|order| - 1]);
      var i := order[|order| - 1];
      if !Live(ctx, i) then (s1, done)
      else
        var (s2, r) := Exec(s1, true, OpFor(ctx, i), ctx.now);
        (s2, if r.Ok? then done[i := r.value] else done)
  }

  // A run is decided cell by cell

  predicate Touches(ctx: Context, i: nat, c: CellId) {
    Live(ctx, i) && CellOf(OpFor(ctx, i)) == c
  }

  /** The part of an order that touches a cell. */
  function Filter(ctx: Context, order: seq<nat>, c: CellId): seq<nat> {
    if order == [] then []
    else
      var i := order[|order| - 1];
      Filter(ctx, order[..|order| - 1], c) + if Touches(ctx, i, c) then [i] else []
  }

  /** Runs requests of one cell on that cell alone. */
  function CellRun(ctx: Context, cell: Option<Cell>, order: seq<nat>): (Option<Cell>, map<nat, Decision>) {
    if order == [] then (cell, map[])
    else
      var (cell1, done) := CellRun(ctx, cell, order[..|order| - 1]);
      var i := order[|order| - 1];
      if !Live(ctx, i) then (cell1, done)
      else
        var (cell2, d) := CellStep(cell1, OpFor(ctx, i), ctx.now);
        (Some(cell2), done[i := d])
  }

  lemma {:induction false} FilterMembers(ctx: Context, order: seq<nat>, c: CellId)
    ensures forall i :: i in Filter(ctx, order, c) <==> i in order && Touches(ctx, i, c)
    ensures (forall i | i in order :: !Touches(ctx, i, c)) ==> Filter(ctx, order, c) == []
  {
    hide Touches;
    if order != [] {
      var init, last := order[..|order| - 1], order[|order| - 1];
      FilterMembers(ctx, init, c);
      assert order == init + [last];
    }
  }

  lemma {:induction false} FilterAppend(ctx: Context, a: seq<nat>, b: seq<nat>, c: CellId)
    ensures Filter(ctx, a + b, c) == Filter(ctx, a, c) + Filter(ctx, b, c)
  {
    hide Touches;
    if b == [] {
      assert a + b == a;
    } else {
      assert (a + b)[..|a + b| - 1] == a + b[..|b| - 1];
      FilterAppend(ctx, a, b[..|b| - 1], c);
    }
  }

  lemma RunSnoc(ctx: Context, s: Store, order: seq<nat>, i: nat)
    ensures var (s1, done) := RunOrder(ctx, s, order);
            !Live(ctx, i) ==> RunOrder(ctx, s, order + [i]) == (s1, done)
    ensures var (s1, done) := RunOrder(ctx, s, order);
            Live(ctx, i) ==>
              var (s2, r) := Exec(s1, true, OpFor(ctx, i), ctx.now);
              r.Ok? && RunOrder(ctx, s, order + [i]) == (s2, done[i := r.value])
  {
    hide Exec, Live, OpFor;
    assert (order + [i])[..|order + [i]| - 1] == order;
    if Live(ctx, i) {
      ExecIsLocal(RunOrder(ctx, s, order).0, true, OpFor(ctx, i), ctx.now, CellId(TokenBucket, ""));
    }
  }

  lemma RunOfNothing(ctx: Context, s: Store, cell: Option<Cell>)
    ensures RunOrder(ctx, s, []) == (s, map[]) && CellRun(ctx, cell, []) == (cell, map[])
  {
  }

  lemma FilterOne(ctx: Context, i: nat, c: CellId)
    ensures Filter(ctx, [i], c) == if Touches(ctx, i, c) then [i] else []
    ensures Filter(ctx, [], c) == []
  {
    hide Touches;
    assert [i][..0] == [];
  }

  /** The requests of one cell see only each other, whatever else runs in between. */
  lemma {:induction false} RunIsCellwise(ctx: Context, s: Store, order: seq<nat>, c: CellId)
    ensures var (s', done) := RunOrder(ctx, s, order);
            var (cell, own) := CellRun(ctx, Get(s, c), Filter(ctx, order, c));
            && Get(s', c) == cell
            && (forall i | i in Filter(ctx, order, c) :: i in done && i in own && done[i] == own[i])
            && (forall i | i in done :: i in order && Live(ctx, i))
  {
    hide Exec, CellStep, Get, Live, OpFor, RunOrder, CellRun, Filter;
    if order == [] {
      RunOfNothing(ctx, s, Get(s, c));
      FilterOne(ctx, 0, c);
    } else {
      var init, i := order[..|order| - 1], order[|order| - 1];
      var kept := Filter(ctx, init, c);
      assert order == init + [i];
      RunIsCellwise(ctx, s, init, c);
      FilterMembers(ctx, init, c);
      FilterAppend(ctx, init, [i], c);
      FilterOne(ctx, i, c);
      assert kept + [] == kept;
      RunSnoc(ctx, s, init, i);
      if Live(ctx, i) {
        ExecIsLocal(RunOrder(ctx, s, init).0, true, OpFor(ctx, i), ctx.now, c);
        if Touches(ctx, i, c) {
          CellRunSnoc(ctx, Get(s, c), kept, i);
        }
      }
    }
  }

  lemma CellRunSnoc(ctx: Context, cell: Option<Cell>, kept: seq<nat>, i: nat)
    requires Live(ctx, i)
    ensures var (cell1, done) := CellRun(ctx, cell, kept);
            var (cell2, d) := CellStep(cell1, OpFor(ctx, i), ctx.now);
            CellRun(ctx, cell, kept + [i]) == (Some(cell2), done[i := d])
  {
    hide CellStep, Live, OpFor;
    assert (kept + [i])[..|kept + [i]| - 1] == kept;
  }

  /** Orders that agree on every cell, and on which requests they run, have the same outcome. */
  lemma SameCellOrdersSameRun(ctx: Context, s: Store, a: seq<nat>, b: seq<nat>)
    requires forall c :: Filter(ctx, a, c) == Filter(ctx, b, c)
    ensures RunOrder(ctx, s, a) == RunOrder(ctx, s, b)
  {
    hide Live, OpFor, RunOrder, CellRun, Filter, Get;
    var (sa, da) := RunOrder(ctx, s, a);
    var (sb, db) := RunOrder(ctx, s, b);
    forall c
      ensures Get(sa, c) == Get(sb, c)
    {
      RunIsCellwise(ctx, s, a, c);
      RunIsCellwise(ctx, s, b, c);
    }
    SameCells(sa, sb);
    forall i: nat
      ensures i in da ==> i in db && da[i] == db[i]
    {
      if i in da {
        SameDecision(ctx, s, a, b, i);
      }
    }
    forall i: nat
      ensures i in db ==> i in da
    {
      if i in db {
        SameDecision(ctx, s, b, a, i);
      }
    }
    assert da == db;
  }

  lemma SameDecision(ctx: Context, s: Store, a: seq<nat>, b: seq<nat>, i: nat)
    requires forall c :: Filter(ctx, a, c) == Filter(ctx, b, c)
    requires i in RunOrder(ctx, s, a).1
    ensures i in RunOrder(ctx, s, b).1 && RunOrder(ctx, s, a).1[i] == RunOrder(ctx, s, b).1[i]
  {
    hide RunOrder, CellRun, Filter, OpFor, Live;
    RunIsCellwise(ctx, s, a, CellId(TokenBucket, ""));
    var c := CellOf(OpFor(ctx, i));
    FilterMembers(ctx, a, c);
    RunIsCellwise(ctx, s, a, c);
    RunIsCellwise(ctx, s, b, c);
  }

  // Running more

  lemma {:induction false} RunCoversOrder(ctx: Context, s: Store, order: seq<nat>)
    ensures forall i :: i in RunOrder(ctx, s, order).1 <==> i in order && Live(ctx, i)
  {
    hide Exec, Live, OpFor;
    if order != [] {
      var init, last := order[..|order| - 1], order[|order| - 1];
      RunCoversOrder(ctx, s, init);
      assert order == init + [last];
      if Live(ctx, last) {
        ExecIsLocal(RunOrder(ctx, s, init).0, true, OpFor(ctx, last), ctx.now, CellId(TokenBucket, ""));
      }
    }
  }

  /** Running more requests changes no decision of an index that is not among them. */
  lemma {:induction false} RunAppend(ctx: Context, s: Store, order: seq<nat>, more: seq<nat>)
    ensures forall i | i !in more ::
      && (i in RunOrder(ctx, s, order + more).1 <==> i in RunOrder(ctx, s, order).1)
      && (i in RunOrder(ctx, s, order).1 ==> RunOrder(ctx, s, order + more).1[i] == RunOrder(ctx, s, order).1[i])
  {
    hide Exec, Live, OpFor, RunOrder;
    if more == [] {
      assert order + more == order;
    } else {
      var init, last := more[..|more| - 1], more[|more| - 1];
      assert order + more == order + init + [last];
      assert more == init + [last];
      RunAppend(ctx, s, order, init);
      RunSnoc(ctx, s, order + init, last);
    }
  }

  /** Contexts that give every request the same route run the same. */
  lemma {:induction false} SameRoutesSameRun(a: Context, b: Context, s: Store, order: seq<nat>)
    requires a.valid == b.valid && a.now == b.now
    requires forall i: nat | i < |a.valid| && a.valid[i].Some? :: RouteOf(a, i) == RouteOf(b, i)
    ensures RunOrder(a, s, order) == RunOrder(b, s, order)
  {
    hide Exec, RouteOf, BuildKey;
    if order != [] {
      SameRoutesSameRun(a, b, s, order[..|order| - 1]);
    }
  }

  // The planned order

  function Upto(n: nat): (order: seq<nat>)
    ensures |order| == n && forall i | 0 <= i < n :: order[i] == i
  {
    if n == 0 then [] else Upto(n - 1) + [n - 1]
  }

  /** The order in which a plan runs the requests. */
  function PlannedOrder(groups: seq<Group>): seq<nat> {
    if groups == [] then []
    else PlannedOrder(groups[..|groups| - 1]) + groups[|groups| - 1].indexes
  }

  lemma NextGroup(groups: seq<Group>, k: nat)
    requires k < |groups|
    ensures PlannedOrder(groups[..k + 1]) == PlannedOrder(groups[..k]) + groups[k].indexes
  {
    assert groups[..k + 1][..k] == groups[..k];
  }

  /** Index `i` belongs to one of the first `k` groups. */
  ghost predicate Planned(valid: seq<Option<Request>>, groups: seq<Group>, k: nat, i: nat)
    requires k <= |groups|
  {
    i < |valid| && exists j :: 0 <= j < k && HasKey(valid[i], KeyOf(groups[j]))
  }

  lemma GroupMembers(valid: seq<Option<Request>>, groups: seq<Group>, k: nat)
    requires IsPlan(valid, |valid|, groups) && k < |groups|
    ensures forall i: nat :: i in groups[k].indexes <==> i < |valid| && HasKey(valid[i], KeyOf(groups[k]))
  {
    hide HasKey, KeyOf, IndexesOf;
    assert IsGroup(valid, |valid|, groups[k]);
    IndexesMembers(valid, |valid|, KeyOf(groups[k]));
  }

  lemma {:induction false} PlannedMembers(valid: seq<Option<Request>>, groups: seq<Group>, k: nat)
    requires IsPlan(valid, |valid|, groups) && k <= |groups|
    ensures forall i: nat :: i in PlannedOrder(groups[..k]) <==> Planned(valid, groups, k, i)
  {
    hide HasKey, KeyOf, IndexesOf, PlannedOrder, IsPlan, IsGroup;
    if k == 0 {
      NothingPlanned();
      assert groups[..0] == [];
    } else {
      PlannedMembers(valid, groups, k - 1);
      NextGroup(groups, k - 1);
      var g := groups[k - 1];
      GroupMembers(valid, groups, k - 1);
      forall i: nat
        ensures i in PlannedOrder(groups[..k]) <==> Planned(valid, groups, k, i)
      {
        assert i in PlannedOrder(groups[..k]) <==> i in PlannedOrder(groups[..k - 1]) || i in g.indexes;
      }
    }
  }

  /** The whole plan runs exactly the valid requests. */
  lemma PlanRunsAll(valid: seq<Option<Request>>, groups: seq<Group>)
    requires IsPlan(valid, |valid|, groups)
    ensures forall i: nat :: i in PlannedOrder(groups) <==> i < |valid| && valid[i].Some?
  {
    hide PlannedOrder, KeyOf, IsGroup, PairKey;
    assert groups[..|groups|] == groups;
    PlannedMembers(valid, groups, |groups|);
    forall i: nat
      ensures i in PlannedOrder(groups) <==> i < |valid| && valid[i].Some?
    {
      assert i in PlannedOrder(groups) <==> Planned(valid, groups, |groups|, i);
    }
  }

  /** `x` comes before `y` in the plan: its group appears earlier, or it is earlier in the same group. */
  predicate Earlier(valid: seq<Option<Request>>, x: nat, y: nat) {
    && x < |valid| && valid[x].Some? && y < |valid| && valid[y].Some?
    && (First(valid, x) < First(valid, y) || (First(valid, x) == First(valid, y) && x < y))
  }

  /** The planned order is the order of first appearance of the groups, and the original order in each of them. */
  lemma {:induction false} PlannedPairs(valid: seq<Option<Request>>, groups: seq<Group>, k: nat)
    requires IsPlan(valid, |valid|, groups) && k <= |groups|
    ensures var p := PlannedOrder(groups[..k]);
            && (forall a, b | 0 <= a < b < |p| :: Earlier(valid, p[a], p[b]))
            && (forall a | 0 <= a < |p| ::
                  && p[a] < |valid| && valid[p[a]].Some?
                  && (k < |groups| ==> First(valid, p[a]) < groups[k].indexes[0]))
  {
    hide IndexesOf, PairKey, KeyOf, HasKey, First, PlannedOrder;
    if k > 0 {
      PlannedPairs(valid, groups, k - 1);
      NextGroup(groups, k - 1);
      var before, g := PlannedOrder(groups[..k - 1]), groups[k - 1];
      assert IsGroup(valid, |valid|, g);
      IndexesIncrease(valid, |valid|, KeyOf(g));
      forall a | 0 <= a < |g.indexes|
        ensures && g.indexes[a] < |valid| && valid[g.indexes[a]].Some?
                && First(valid, g.indexes[a]) == g.indexes[0]
      {
        GroupStartsAtFirst(valid, g, g.indexes[a]);
      }
    } else {
      assert groups[..0] == [];
      NothingPlanned();
    }
  }

  lemma PlannedPair(valid: seq<Option<Request>>, groups: seq<Group>, a: nat, b: nat)
    requires IsPlan(valid, |valid|, groups) && a < b < |PlannedOrder(groups)|
    ensures Earlier(valid, PlannedOrder(groups)[a], PlannedOrder(groups)[b])
  {
    hide PlannedOrder, IsPlan, First;
    assert groups[..|groups|] == groups;
    PlannedPairs(valid, groups, |groups|);
  }

  lemma NothingPlanned()
    ensures PlannedOrder([]) == []
  {
  }

  // When the planned order agrees with the original order

  /** Requests of one tenant and resource key have one tenant and one resource. */
  ghost predicate Unmixed(valid: seq<Option<Request>>) {
    forall i, j | 0 <= i < |valid| && 0 <= j < |valid| && valid[i].Some? && valid[j].Some? ::
      PairKey(valid[i].value.tenant, valid[i].value.resource) == PairKey(valid[j].value.tenant, valid[j].value.resource)
      ==> valid[i].value.tenant == valid[j].value.tenant && valid[i].value.resource == valid[j].value.resource
  }

  function CounterKey(req: Request): string {
    BuildKey(req.tenant, req.user, req.resource)
  }

  /** Of two requests with one counter key, the earlier one belongs to the group that appears earlier. */
  ghost predicate KeepsOrder(valid: seq<Option<Request>>) {
    forall i, j | 0 <= i < j < |valid| && valid[i].Some? && valid[j].Some? ::
      CounterKey(valid[i].value) == CounterKey(valid[j].value) ==> First(valid, i) <= First(valid, j)
  }

  /** The order in which planning runs the requests cannot be told from the original one. */
  ghost predicate Orderly(valid: seq<Option<Request>>) {
    Unmixed(valid) && KeepsOrder(valid)
  }

  ghost predicate Increasing(order: seq<nat>) {
    forall a, b | 0 <= a < b < |order| :: order[a] < order[b]
  }

  lemma InitMembers(p: seq<nat>)
    requires Increasing(p) && p != []
    ensures var init, last := p[..|p| - 1], p[|p| - 1];
            && Increasing(init) && last in p
            && (forall i: nat :: i in init <==> i in p && i != last) && (forall i: nat | i in p :: i <= last)
  {
    var init, last := p[..|p| - 1], p[|p| - 1];
    assert p == init + [last];
  }

  lemma {:induction false} IncreasingUnique(p: seq<nat>, q: seq<nat>)
    requires Increasing(p) && Increasing(q) && forall i: nat :: i in p <==> i in q
    ensures p == q
  {
    hide Increasing;
    if p == [] {
      if q != [] {
        InitMembers(q);
      }
    } else {
      assert p[0] in q;
      InitMembers(p);
      InitMembers(q);
      IncreasingUnique(p[..|p| - 1], q[..|q| - 1]);
      assert p == p[..|p| - 1] + [p[|p| - 1]] && q == q[..|q| - 1] + [q[|q| - 1]];
    }
  }

  lemma {:induction false} FilterIncreases(ctx: Context, order: seq<nat>, c: CellId)
    requires forall a, b | 0 <= a < b < |order| && Touches(ctx, order[a], c) && Touches(ctx, order[b], c) ::
               order[a] < order[b]
    ensures Increasing(Filter(ctx, order, c))
  {
    hide Touches;
    if order != [] {
      var init := order[..|order| - 1];
      FilterIncreases(ctx, init, c);
      FilterMembers(ctx, init, c);
      var kept := Filter(ctx, init, c);
      forall a | 0 <= a < |kept|
        ensures kept[a] in init && Touches(ctx, kept[a], c)
      {
        assert kept[a] in kept;
      }
    }
  }

  lemma TouchesSameCounter(ctx: Context, i: nat, j: nat, c: CellId)
    requires Touches(ctx, i, c) && Touches(ctx, j, c)
    ensures i < |ctx.valid| && ctx.valid[i].Some? && j < |ctx.valid| && ctx.valid[j].Some?
    ensures CounterKey(ctx.valid[i].value) == CounterKey(ctx.valid[j].value)
  {
    hide BuildKey;
  }

  lemma OriginalIncreases(ctx: Context, c: CellId)
    ensures Increasing(Filter(ctx, Upto(|ctx.valid|), c))
  {
    hide Touches, Filter;
    FilterIncreases(ctx, Upto(|ctx.valid|), c);
  }

  lemma PlannedIncreases(ctx: Context, groups: seq<Group>, c: CellId)
    requires IsPlan(ctx.valid, |ctx.valid|, groups) && KeepsOrder(ctx.valid)
    ensures Increasing(Filter(ctx, PlannedOrder(groups), c))
  {
    hide Touches, Filter, First, CounterKey, PlannedOrder, IsPlan;
    var p := PlannedOrder(groups);
    forall a, b | 0 <= a < b < |p| && Touches(ctx, p[a], c) && Touches(ctx, p[b], c)
      ensures p[a] < p[b]
    {
      PlannedPair(ctx.valid, groups, a, b);
      TouchesSameCounter(ctx, p[a], p[b], c);
    }
    FilterIncreases(ctx, p, c);
  }

  /** Regrouping changes neither the decisions nor the store if it keeps the order of every counter key. */
  lemma PlannedRunIsOriginalRun(ctx: Context, s: Store, groups: seq<Group>)
    requires IsPlan(ctx.valid, |ctx.valid|, groups) && KeepsOrder(ctx.valid)
    ensures RunOrder(ctx, s, PlannedOrder(groups)) == RunOrder(ctx, s, Upto(|ctx.valid|))
  {
    hide Filter, PlannedOrder, RunOrder, IsPlan, KeepsOrder, Live, OpFor;
    var p, u := PlannedOrder(groups), Upto(|ctx.valid|);
    PlanRunsAll(ctx.valid, groups);
    forall c
      ensures Filter(ctx, p, c) == Filter(ctx, u, c)
    {
      PlannedIncreases(ctx, groups, c);
      OriginalIncreases(ctx, c);
      FilterMembers(ctx, p, c);
      FilterMembers(ctx, u, c);
      forall i: nat
        ensures i in Filter(ctx, p, c) <==> i in Filter(ctx, u, c)
      {
        if Touches(ctx, i, c) {
          TouchesSameCounter(ctx, i, i, c);
          assert u[i] == i;
        }
      }
      IncreasingUnique(Filter(ctx, p, c), Filter(ctx, u, c));
    }
    SameCellOrdersSameRun(ctx, s, p, u);
  }

  /** Tenants and users free of the separator are orderly. */
  lemma PlainNamesAreOrderly(valid: seq<Option<Request>>)
    requires forall i | 0 <= i < |valid| && valid[i].Some? ::
               SEP !in valid[i].value.tenant && SEP !in valid[i].value.user
    ensures Orderly(valid)
  {
    hide PairKey, BuildKey;
    forall i, j | 0 <= i < |valid| && 0 <= j < |valid| && valid[i].Some? && valid[j].Some?
      ensures var p, q := valid[i].value, valid[j].value;
        && (PairKey(p.tenant, p.resource) == PairKey(q.tenant, q.resource)
            ==> p.tenant == q.tenant && p.resource == q.resource)
        && (CounterKey(p) == CounterKey(q) ==> PairKey(p.tenant, p.resource) == PairKey(q.tenant, q.resource))
    {
      var p, q := valid[i].value, valid[j].value;
      PlainTenantsSeparated({p.tenant, q.tenant});
      if PairKey(p.tenant, p.resource) == PairKey(q.tenant, q.resource) {
        PairKeyInjective({p.tenant, q.tenant}, p.tenant, p.resource, q.tenant, q.resource);
      }
      if CounterKey(p) == CounterKey(q) {
        BuildKeyInjective(p.tenant, p.user, p.resource, q.tenant, q.user, q.resource);
      }
    }
  }
}
