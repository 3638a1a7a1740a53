/** Batch checks: planning regroups the requests, and the outcome is that of checking them one by one. */
module Batch {
  import opened Base
  import opened Keys
  import opened Limits
  import opened Store

  datatype Request = Request(tenant: string, user: string, resource: string, cost: int)

  /** The limiter factory only builds limiters with a positive limit. */
  type LiveParams = p: Params | p.limit > 0 witness Params(1, 0, 0)

  /** What a tenant and resource resolve to while a batch runs. */
  datatype Route = NoRule | Unavailable | Limiter(kind: Kind, params: LiveParams)

  type Routes = (string, string) -> Route

  datatype Response = Failed(code: string) | Decided(decision: Decision)

  // Validation and planning

  predicate IsValid(req: Option<Request>) {
    req.Some? && req.value.tenant != "" && req.value.resource != "" && req.value.user != "" && req.value.cost > 0
  }

  function FailureCode(req: Option<Request>): string {
    if req.Some? && req.value.tenant != "" && req.value.resource != "" && req.value.user != ""
    then "INVALID_COST" else "INVALID_REQUEST"
  }

  predicate HasKey(req: Option<Request>, key: string) {
    req.Some? && PairKey(req.value.tenant, req.value.resource) == key
  }

  /** The indexes below `n` whose request belongs to the tenant and resource of `key`, in order. */
  function IndexesOf(valid: seq<Option<Request>>, n: nat, key: string): (ix: seq<nat>)
    requires n <= |valid|
    ensures forall j | 0 <= j < |ix| :: ix[j] < n && HasKey(valid[ix[j]], key)
  {
    if n == 0 then []
    else IndexesOf(valid, n - 1, key) + if HasKey(valid[n - 1], key) then [n - 1] else []
  }

  datatype Group = Group(tenant: string, resource: string, indexes: seq<nat>, costs: seq<int>)

  function KeyOf(g: Group): string {
    PairKey(g.tenant, g.resource)
  }

  /** A group holds, in order, every index of its key, under the names used by the first of them. */
  ghost predicate IsGroup(valid: seq<Option<Request>>, n: nat, g: Group)
    requires n <= |valid|
  {
    && g.indexes == IndexesOf(valid, n, KeyOf(g))
    && g.indexes != []
    && g.tenant == valid[g.indexes[0]].value.tenant
    && g.resource == valid[g.indexes[0]].value.resource
    && |g.costs| == |g.indexes|
    && forall i | 0 <= i < |g.indexes| :: g.costs[i] == valid[g.indexes[i]].value.cost
  }

  /** The groups are an order-preserving partition of the requests below `n`, in order of first appearance. */
  ghost predicate IsPlan(valid: seq<Option<Request>>, n: nat, groups: seq<Group>)
    requires n <= |valid|
  {
    && (forall j | 0 <= j < |groups| :: IsGroup(valid, n, groups[j]))
    && (forall j, k | 0 <= j < k < |groups| :: groups[j].indexes[0] < groups[k].indexes[0])
    && (forall j, k | 0 <= j < k < |groups| :: KeyOf(groups[j]) != KeyOf(groups[k]))
    && (forall i | 0 <= i < n && valid[i].Some? ::
          exists j :: 0 <= j < |groups| && HasKey(valid[i], KeyOf(groups[j])))
  }

  /** The positions recorded for the groups built so far. */
  ghost predicate IsIndex(groups: seq<Group>, index: map<string, nat>) {
    && (forall k | k in index :: index[k] < |groups| && KeyOf(groups[index[k]]) == k)
    && (forall j | 0 <= j < |groups| :: KeyOf(groups[j]) in index && index[KeyOf(groups[j])] == j)
  }

  lemma {:induction false} IndexesMembers(valid: seq<Option<Request>>, n: nat, key: string)
    requires n <= |valid|
    ensures forall i: nat :: i in IndexesOf(valid, n, key) <==> i < n && HasKey(valid[i], key)
  {
    hide HasKey;
    if n > 0 {
      IndexesMembers(valid, n - 1, key);
    }
  }

  lemma {:induction false} IndexesIncrease(valid: seq<Option<Request>>, n: nat, key: string)
    requires n <= |valid|
    ensures forall j, k | 0 <= j < k < |IndexesOf(valid, n, key)| ::
      IndexesOf(valid, n, key)[j] < IndexesOf(valid, n, key)[k]
  {
    hide HasKey;
    if n > 0 {
      IndexesIncrease(valid, n - 1, key);
    }
  }

  /** The first index, from `k` on, whose request belongs to the tenant and resource of `key`. */
  function FirstFrom(valid: seq<Option<Request>>, key: string, k: nat): (i: nat)
    requires k <= |valid|
    ensures k <= i <= |valid| && (i < |valid| ==> HasKey(valid[i], key))
    ensures forall j | k <= j < i :: !HasKey(valid[j], key)
    decreases |valid| - k
  {
    if k == |valid| || HasKey(valid[k], key) then k else FirstFrom(valid, key, k + 1)
  }

  /** Where the group of request `i` first appears. */
  function First(valid: seq<Option<Request>>, i: nat): nat
    requires i < |valid| && valid[i].Some?
  {
    FirstFrom(valid, PairKey(valid[i].value.tenant, valid[i].value.resource), 0)
  }

  /** A group starts where its key first appears. */
  lemma GroupStartsAtFirst(valid: seq<Option<Request>>, g: Group, i: nat)
    requires IsGroup(valid, |valid|, g) && i in g.indexes
    ensures i < |valid| && valid[i].Some? && HasKey(valid[i], KeyOf(g)) && First(valid, i) == g.indexes[0]
  {
    hide PairKey;
    IndexesMembers(valid, |valid|, KeyOf(g));
    IndexesIncrease(valid, |valid|, KeyOf(g));
    var first := First(valid, i);
    assert HasKey(valid[g.indexes[0]], KeyOf(g));
    assert first in g.indexes;
  }

  /** A request of another key leaves a group as it is. */
  lemma OtherKeysKeepGroup(valid: seq<Option<Request>>, n: nat, g: Group)
    requires n < |valid| && IsGroup(valid, n, g) && !HasKey(valid[n], KeyOf(g))
    ensures IsGroup(valid, n + 1, g)
  {
    hide HasKey, PairKey, KeyOf;
  }

  /** The first request of a key starts its group. */
  lemma NewGroup(valid: seq<Option<Request>>, n: nat, g: Group)
    requires n < |valid| && valid[n].Some?
    requires g == Group(valid[n].value.tenant, valid[n].value.resource, [n], [valid[n].value.cost])
    requires forall i | 0 <= i < n :: !HasKey(valid[i], KeyOf(g))
    ensures IsGroup(valid, n + 1, g)
  {
    NoIndexYet(valid, n, KeyOf(g));
  }

  lemma {:induction false} NoIndexYet(valid: seq<Option<Request>>, n: nat, key: string)
    requires n <= |valid| && forall i | 0 <= i < n :: !HasKey(valid[i], key)
    ensures IndexesOf(valid, n, key) == []
  {
    hide HasKey;
    if n > 0 {
      NoIndexYet(valid, n - 1, key);
    }
  }

  /** The next request of a key goes to the end of its group. */
  lemma GrownGroup(valid: seq<Option<Request>>, n: nat, g: Group, g': Group)
    requires n < |valid| && IsGroup(valid, n, g) && HasKey(valid[n], KeyOf(g))
    requires g' == g.(indexes := g.indexes + [n], costs := g.costs + [valid[n].value.cost])
    ensures IsGroup(valid, n + 1, g') && KeyOf(g') == KeyOf(g)
  {
    hide PairKey;
    assert g'.indexes[0] == g.indexes[0];
  }

  /** BatchPlanner.Plan. */
  method Plan(valid: seq<Option<Request>>) returns (groups: seq<Group>)
    ensures IsPlan(valid, |valid|, groups)
  {
    hide IsGroup, IsPlan, PairKey;
    groups := [];
    var groupIndex: map<string, nat> := map[];
    EmptyPlan(valid);
    for n := 0 to |valid|
      invariant IsPlan(valid, n, groups) && IsIndex(groups, groupIndex)
    {
      if valid[n].Some? {
        var req := valid[n].value;
        var key := PairKey(req.tenant, req.resource);
        if key !in groupIndex {
          var g := Group(req.tenant, req.resource, [n], [req.cost]);
          PlanAppended(valid, n, groups, g);
          groupIndex := groupIndex[key := |groups|];
          groups := groups + [g];
        } else {
          var at := groupIndex[key];
          var g := groups[at].(indexes := groups[at].indexes + [n], costs := groups[at].costs + [req.cost]);
          PlanGrown(valid, n, groups, at, g);
          groups := groups[at := g];
        }
      } else {
        PlanSkipped(valid, n, groups);
      }
    }
  }

  lemma EmptyPlan(valid: seq<Option<Request>>)
    ensures IsPlan(valid, 0, [])
  {
  }

  lemma PlanSkipped(valid: seq<Option<Request>>, n: nat, groups: seq<Group>)
    requires n < |valid| && valid[n].None? && IsPlan(valid, n, groups)
    ensures IsPlan(valid, n + 1, groups)
  {
    forall j | 0 <= j < |groups|
      ensures IsGroup(valid, n + 1, groups[j])
    {
      OtherKeysKeepGroup(valid, n, groups[j]);
    }
  }

  lemma StartsBefore(valid: seq<Option<Request>>, n: nat, g: Group)
    requires n <= |valid| && IsGroup(valid, n, g)
    ensures g.indexes != [] && g.indexes[0] < n
  {
    hide HasKey;
  }

  lemma PlanAppended(valid: seq<Option<Request>>, n: nat, groups: seq<Group>, g: Group)
    requires n < |valid| && valid[n].Some? && IsPlan(valid, n, groups)
    requires g == Group(valid[n].value.tenant, valid[n].value.resource, [n], [valid[n].value.cost])
    requires forall j | 0 <= j < |groups| :: KeyOf(groups[j]) != KeyOf(g)
    ensures IsPlan(valid, n + 1, groups + [g])
  {
    hide IsGroup, PairKey;
    var after := groups + [g];
    NewGroup(valid, n, g);
    forall j | 0 <= j < |groups|
      ensures IsGroup(valid, n + 1, groups[j])
    {
      OtherKeysKeepGroup(valid, n, groups[j]);
    }
    assert HasKey(valid[n], KeyOf(after[|groups|]));
    forall j | 0 <= j < |groups|
      ensures groups[j].indexes != [] && groups[j].indexes[0] < n
    {
      StartsBefore(valid, n, groups[j]);
    }
    forall i | 0 <= i < n + 1 && valid[i].Some?
      ensures exists j :: 0 <= j < |after| && HasKey(valid[i], KeyOf(after[j]))
    {
      if i < n {
        var j :| 0 <= j < |groups| && HasKey(valid[i], KeyOf(groups[j]));
        assert after[j] == groups[j];
      }
    }
  }

  lemma PlanGrown(valid: seq<Option<Request>>, n: nat, groups: seq<Group>, at: nat, g: Group)
    requires n < |valid| && IsPlan(valid, n, groups) && at < |groups| && HasKey(valid[n], KeyOf(groups[at]))
    requires g == groups[at].(indexes := groups[at].indexes + [n], costs := groups[at].costs + [valid[n].value.cost])
    ensures IsPlan(valid, n + 1, groups[at := g])
  {
    hide IsGroup, PairKey;
    var after := groups[at := g];
    GrownGroup(valid, n, groups[at], g);
    assert forall j | 0 <= j < |groups| :: KeyOf(after[j]) == KeyOf(groups[j]);
    StartsBefore(valid, n, groups[at]);
    assert g.indexes[0] == groups[at].indexes[0];
    forall j | 0 <= j < |groups|
      ensures IsGroup(valid, n + 1, after[j])
    {
      if j != at {
        assert KeyOf(groups[j]) != KeyOf(groups[at]);
        OtherKeysKeepGroup(valid, n, groups[j]);
      }
    }
    forall i | 0 <= i < n + 1 && valid[i].Some?
      ensures exists j :: 0 <= j < |after| && HasKey(valid[i], KeyOf(after[j]))
    {
      if i < n {
        var j :| 0 <= j < |groups| && HasKey(valid[i], KeyOf(groups[j]));
        assert KeyOf(after[j]) == KeyOf(groups[j]);
      } else {
        assert KeyOf(after[at]) == KeyOf(groups[at]);
      }
    }
  }
}
