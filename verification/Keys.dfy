/** The separator-joined strings under which rules, limiters and counters are stored. */
module Keys {

  const SEP: char := '\U{1F}'

  /** ruleKey and limiterPoolKey: a tenant and a resource as one string. */
  function PairKey(tenant: string, resource: string): string {
    tenant + [SEP] + resource
  }

  /** KeyBuilder.BuildKey: the counter key of one user of one resource. */
  function BuildKey(tenant: string, user: string, resource: string): string {
    tenant + [SEP] + user + [SEP] + resource
  }

  /** `longer` starts with `tenant` and a separator. */
  predicate Extends(tenant: string, longer: string) {
    tenant + [SEP] <= longer
  }

  /** No tenant of the set extends another one. */
  ghost predicate Separated(tenants: set<string>) {
    forall t, u | t in tenants && u in tenants :: !Extends(t, u)
  }

  /** Two different tenants share some pair key exactly when one of them extends the other. */
  lemma PairKeysCollideIff(t: string, u: string)
    requires t != u
    ensures (exists r, q :: PairKey(t, r) == PairKey(u, q)) <==> Extends(t, u) || Extends(u, t)
  {
    if Extends(t, u) {
      ExtensionCollides(t, u);
    } else if Extends(u, t) {
      ExtensionCollides(u, t);
    } else if r, q :| PairKey(t, r) == PairKey(u, q) {
      SharedPairKeyExtends(t, r, u, q);
    }
  }

  lemma ExtensionCollides(t: string, u: string)
    requires Extends(t, u)
    ensures PairKey(t, PairKey(u[|t| + 1..], "")) == PairKey(u, "")
  {
    assert u == t + [SEP] + u[|t| + 1..];
  }

  /** Equal pair keys of different tenants come from an extension. */
  lemma SharedPairKeyExtends(t: string, r: string, u: string, q: string)
    requires PairKey(t, r) == PairKey(u, q)
    ensures (t == u && r == q) || Extends(t, u) || Extends(u, t)
  {
    var k := PairKey(t, r);
    assert k[..|t|] == t && k[|t|] == SEP && k[..|u|] == u && k[|u|] == SEP;
    if |t| < |u| {
      assert u[..|t| + 1] == k[..|t| + 1] == t + [SEP];
    } else if |u| < |t| {
      assert t[..|u| + 1] == k[..|u| + 1] == u + [SEP];
    } else {
      assert r == k[|t| + 1..] == q;
    }
  }

  /** Among separated tenants a pair key names one tenant and one resource. */
  lemma PairKeyInjective(tenants: set<string>, t: string, r: string, u: string, q: string)
    requires Separated(tenants) && t in tenants && u in tenants
    requires PairKey(t, r) == PairKey(u, q)
    ensures t == u && r == q
  {
    SharedPairKeyExtends(t, r, u, q);
  }

  lemma ExtensionHoldsSeparator(t: string, u: string)
    ensures Extends(t, u) ==> SEP in u
  {
    if Extends(t, u) {
      assert u[|t|] == SEP;
    }
  }

  /** Tenants that never contain the separator are separated. */
  lemma PlainTenantsSeparated(tenants: set<string>)
    requires forall t | t in tenants :: SEP !in t
    ensures Separated(tenants)
  {
    forall t, u | t in tenants && u in tenants
      ensures !Extends(t, u)
    {
      ExtensionHoldsSeparator(t, u);
    }
  }

  /** With tenant and user free of the separator, a counter key names its three parts. */
  lemma BuildKeyInjective(t: string, x: string, r: string, u: string, y: string, q: string)
    requires SEP !in t && SEP !in x && SEP !in u && SEP !in y
    requires BuildKey(t, x, r) == BuildKey(u, y, q)
    ensures t == u && x == y && r == q
  {
    PlainTenantsSeparated({t, u});
    PlainTenantsSeparated({x, y});
    assert BuildKey(t, x, r) == PairKey(t, PairKey(x, r));
    assert BuildKey(u, y, q) == PairKey(u, PairKey(y, q));
    PairKeyInjective({t, u}, t, PairKey(x, r), u, PairKey(y, q));
    PairKeyInjective({x, y}, x, r, y, q);
  }
}
