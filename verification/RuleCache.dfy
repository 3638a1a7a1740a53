/** RuleCache: nested copy-on-write snapshots, seen as one set of rules. */
module RuleCache {
  import opened Base
  import opened Keys
  import opened Rules
  import RuleDb

  /** byTenant, and in it byResource. */
  type Snapshot = map<string, map<string, Rule>>

  ghost function Flat(snap: Snapshot): RuleSet {
    map id | id in (set t, r | t in snap && r in snap[t] :: RuleId(t, r)) :: snap[id.tenant][id.resource]
  }

  /** No tenant is kept without rules, and every rule sits under its own names. */
  ghost predicate Tidy(snap: Snapshot) {
    && (forall t | t in snap :: snap[t] != map[])
    && (forall t, r | t in snap && r in snap[t] :: IdOf(snap[t][r]) == RuleId(t, r))
  }

  lemma FlatLookup(snap: Snapshot, id: RuleId)
    ensures id in Flat(snap) <==> id.tenant in snap && id.resource in snap[id.tenant]
    ensures id in Flat(snap) ==> Flat(snap)[id] == snap[id.tenant][id.resource]
  {
  }

  /** Replacing one tenant's map replaces that tenant's part of the view. */
  lemma FlatStore(snap: Snapshot, rule: Rule, byResource: map<string, Rule>)
    requires byResource == (if rule.tenant in snap then snap[rule.tenant] else map[])[rule.resource := rule]
    ensures Flat(snap[rule.tenant := byResource]) == Flat(snap)[IdOf(rule) := rule]
    ensures Tidy(snap) ==> Tidy(snap[rule.tenant := byResource])
  {
    hide Flat;
    var after := snap[rule.tenant := byResource];
    forall id
      ensures id in Flat(after) <==> id in Flat(snap) || id == IdOf(rule)
      ensures id in Flat(after) ==> Flat(after)[id] == if id == IdOf(rule) then rule else Flat(snap)[id]
    {
      FlatLookup(snap, id);
      FlatLookup(after, id);
    }
    assert Flat(after) == Flat(snap)[IdOf(rule) := rule];
    assert rule.resource in byResource;
  }

  /** Removing a resource, and its tenant when nothing is left of it, removes one rule from the view. */
  lemma FlatRemove(snap: Snapshot, target: RuleId, after: Snapshot)
    requires Tidy(snap) && target.tenant in snap && target.resource in snap[target.tenant]
    requires var rest := snap[target.tenant] - {target.resource};
             after == if rest == map[] then snap - {target.tenant} else snap[target.tenant := rest]
    ensures Tidy(after) && Flat(after) == Flat(snap) - {target}
  {
    hide Flat, Tidy;
    TidyRemoved(snap, target, after);
    forall id
      ensures id in Flat(after) <==> id in Flat(snap) && id != target
      ensures id in Flat(after) ==> Flat(after)[id] == Flat(snap)[id]
    {
      FlatLookup(snap, id);
      FlatLookup(after, id);
      LookupRemoved(snap, target, after, id);
    }
    assert Flat(after) == Flat(snap) - {target};
  }

  lemma TidyRemoved(snap: Snapshot, target: RuleId, after: Snapshot)
    requires Tidy(snap) && target.tenant in snap && target.resource in snap[target.tenant]
    requires var rest := snap[target.tenant] - {target.resource};
             after == if rest == map[] then snap - {target.tenant} else snap[target.tenant := rest]
    ensures Tidy(after)
  {
  }

  lemma LookupRemoved(snap: Snapshot, target: RuleId, after: Snapshot, id: RuleId)
    requires target.tenant in snap && target.resource in snap[target.tenant]
    requires var rest := snap[target.tenant] - {target.resource};
             after == if rest == map[] then snap - {target.tenant} else snap[target.tenant := rest]
    ensures id.tenant in after && id.resource in after[id.tenant] <==>
            id.tenant in snap && id.resource in snap[id.tenant] && id != target
    ensures id.tenant in after && id.resource in after[id.tenant] ==>
            after[id.tenant][id.resource] == snap[id.tenant][id.resource]
  {
    if id.tenant == target.tenant && id != target && id.resource in snap[id.tenant] {
      assert id.resource in snap[target.tenant] - {target.resource};
    }
  }

  /** The rules of a list by their names; of two with the same names the later one stands. */
  function LastWins(rules: seq<Option<Rule>>): RuleSet {
    if rules == [] then map[]
    else
      var before := LastWins(rules[..|rules| - 1]);
      match rules[|rules| - 1]
      case None => before
      case Some(rule) => before[IdOf(rule) := rule]
  }

  class Cache {
    var snap: Snapshot

    ghost predicate Valid()
      reads this
    {
      Tidy(snap)
    }

    ghost function View(): RuleSet
      reads this
    {
      Flat(snap)
    }

    constructor ()
      ensures Valid() && View() == map[]
    {
      snap := map[];
    }

    method Get(tenant: string, resource: string) returns (r: Option<Rule>)
      ensures r == if RuleId(tenant, resource) in View() then Some(View()[RuleId(tenant, resource)]) else None
    {
      FlatLookup(snap, RuleId(tenant, resource));
      if tenant !in snap {
        return None;
      }
      r := if resource in snap[tenant] then Some(snap[tenant][resource]) else None;
    }

    /** ReplaceAll: count the rules of each tenant, make a map per tenant, then fill the maps. */
    method ReplaceAll(rules: seq<Option<Rule>>)
      modifies this
      ensures Valid() && View() == LastWins(rules)
    {
      hide Flat, LastWins;
      var tenantCounts := CountTenants(rules);
      var byTenant := EmptyMaps(tenantCounts.Keys);
      snap := Fill(byTenant, rules);
    }

    method UpsertIfNewer(rule: Option<Rule>)
      requires Valid()
      modifies this
      ensures Valid() && View() == if rule.None? then old(View()) else Upsert(old(View()), rule.value)
    {
      if rule.None? {
        return;
      }
      var r := rule.value;
      FlatLookup(snap, IdOf(r));
      if r.tenant in snap && r.resource in snap[r.tenant] && r.version <= snap[r.tenant][r.resource].version {
        return;
      }
      var byResource := if r.tenant in snap then snap[r.tenant] else map[];
      byResource := byResource[r.resource := r];
      FlatStore(snap, r, byResource);
      snap := snap[r.tenant := byResource];
    }

    method DeleteIfOlderOrEqual(tenant: string, resource: string, version: int)
      requires Valid()
      modifies this
      ensures Valid() && View() == DropIfOlder(old(View()), RuleId(tenant, resource), version)
    {
      var id := RuleId(tenant, resource);
      FlatLookup(snap, id);
      if tenant !in snap || resource !in snap[tenant] || snap[tenant][resource].version > version {
        return;
      }
      var byResource := snap[tenant] - {resource};
      FlatRemove(snap, id, if byResource == map[] then snap - {tenant} else snap[tenant := byResource]);
      if |byResource| == 0 {
        snap := snap - {tenant};
      } else {
        snap := snap[tenant := byResource];
      }
    }
  }

  /** Some rule of the list belongs to the tenant. */
  ghost predicate HasTenant(rules: seq<Option<Rule>>, t: string) {
    exists j :: 0 <= j < |rules| && rules[j].Some? && rules[j].value.tenant == t
  }

  method CountTenants(rules: seq<Option<Rule>>) returns (counts: map<string, nat>)
    ensures forall t :: t in counts <==> HasTenant(rules, t)
  {
    counts := map[];
    for i := 0 to |rules|
      invariant forall t :: t in counts <==> HasTenant(rules[..i], t)
    {
      forall t
        ensures HasTenant(rules[..i + 1], t) <==>
                HasTenant(rules[..i], t) || (rules[i].Some? && rules[i].value.tenant == t)
      {
        TenantOfMore(rules, i, t);
      }
      if rules[i].Some? {
        var t := rules[i].value.tenant;
        counts := counts[t := if t in counts then counts[t] + 1 else 1];
      }
    }
    assert rules[..|rules|] == rules;
  }

  lemma TenantOfMore(rules: seq<Option<Rule>>, i: nat, t: string)
    requires i < |rules|
    ensures HasTenant(rules[..i + 1], t) <==> HasTenant(rules[..i], t) || (rules[i].Some? && rules[i].value.tenant == t)
  {
    assert forall j | 0 <= j < i :: rules[..i][j] == rules[..i + 1][j] == rules[j];
    assert rules[..i + 1][i] == rules[i];
  }

  /** Puts every rule into the map of its tenant. */
  method Fill(empty: Snapshot, rules: seq<Option<Rule>>) returns (byTenant: Snapshot)
    requires forall t | t in empty :: empty[t] == map[]
    requires forall t :: t in empty <==> HasTenant(rules, t)
    ensures Tidy(byTenant) && Flat(byTenant) == LastWins(rules)
  {
    hide Flat;
    byTenant := empty;
    NothingFlat(byTenant);
    for i := 0 to |rules|
      invariant byTenant.Keys == empty.Keys && Flat(byTenant) == LastWins(rules[..i])
      invariant forall t, r | t in byTenant && r in byTenant[t] :: IdOf(byTenant[t][r]) == RuleId(t, r)
      invariant forall t | t in byTenant && HasTenant(rules[..i], t) :: byTenant[t] != map[]
    {
      assert rules[..i + 1][..i] == rules[..i];
      ghost var before := byTenant;
      if rules[i].Some? {
        var clone := rules[i].value;
        assert HasTenant(rules, clone.tenant);
        var byResource := byTenant[clone.tenant][clone.resource := clone];
        FlatStore(byTenant, clone, byResource);
        assert clone.resource in byResource;
        byTenant := byTenant[clone.tenant := byResource];
      }
      forall t | t in byTenant && HasTenant(rules[..i + 1], t)
        ensures byTenant[t] != map[]
      {
        TenantOfMore(rules, i, t);
      }
    }
    assert rules[..|rules|] == rules;
  }

  function EmptyMaps(tenants: set<string>): Snapshot {
    map t | t in tenants :: map[]
  }

  lemma NothingFlat(snap: Snapshot)
    requires forall t | t in snap :: snap[t] == map[]
    ensures Flat(snap) == map[]
  {
    assert (set t, r | t in snap && r in snap[t] :: RuleId(t, r)) == {};
  }

  // Full synchronisation

  lemma {:induction false} LastWinsHolds(rules: seq<Option<Rule>>, id: RuleId)
    ensures id in LastWins(rules) <==> exists rule :: Some(rule) in rules && IdOf(rule) == id
    ensures id in LastWins(rules) ==> Some(LastWins(rules)[id]) in rules && IdOf(LastWins(rules)[id]) == id
  {
    if rules != [] {
      var init, last := rules[..|rules| - 1], rules[|rules| - 1];
      LastWinsHolds(init, id);
      assert rules == init + [last];
      assert forall x :: x in rules <==> x in init || x == last;
      if last.Some? && IdOf(last.value) == id {
        assert last == Some(last.value);
      }
    }
  }

  /** What LoadAll returns, put in a fresh snapshot, is the view of the database. */
  lemma LoadedIsView(db: RuleDb.Db, tenants: set<string>, all: seq<Option<Rule>>)
    requires Separated(tenants) && RuleDb.Consistent(db, tenants)
    requires forall o :: o in all <==> o.Some? && exists k :: k in db.rules && db.rules[k] == o.value
    ensures LastWins(all) == RuleDb.View(db)
  {
    hide RuleDb.View, PairKey, LastWins, Separated;
    RuleDb.ViewTenants(db, tenants);
    forall id
      ensures id in LastWins(all) <==> id in RuleDb.View(db)
      ensures id in LastWins(all) ==> LastWins(all)[id] == RuleDb.View(db)[id]
    {
      LastWinsHolds(all, id);
      if id in LastWins(all) {
        var rule := LastWins(all)[id];
        assert Some(rule) in all;
        var k :| k in db.rules && db.rules[k] == rule;
        RuleDb.ViewLookup(db, tenants, id);
      }
      if id in RuleDb.View(db) {
        RuleDb.ViewLookup(db, tenants, id);
        var rule := db.rules[PairKey(id.tenant, id.resource)];
        assert Some(rule) in all && IdOf(rule) == id;
      }
    }
    assert LastWins(all) == RuleDb.View(db);
  }

  /** One round of CacheSyncWorker with nothing in between: whatever the cache held, it now equals the database. */
  method SyncRound(db: RuleDb.InMemoryRuleDB, cache: Cache, ghost tenants: set<string>)
    requires Separated(tenants) && RuleDb.Consistent(db.Contents(), tenants)
    modifies cache
    ensures cache.Valid() && cache.View() == RuleDb.View(db.Contents())
  {
    var rules := db.LoadAll();
    var some := seq(|rules|, i requires 0 <= i < |rules| => Some(rules[i]));
    forall o: Option<Rule>
      ensures o in some <==> o.Some? && o.value in rules
    {
      if o.Some? && o.value in rules {
        var i :| 0 <= i < |rules| && rules[i] == o.value;
        assert some[i] == o;
      }
    }
    cache.ReplaceAll(some);
    LoadedIsView(db.Contents(), tenants, some);
  }
}
