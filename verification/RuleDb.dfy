/** InMemoryRuleDB: versioned rules with optimistic concurrency and idempotent creation. */
module RuleDb {
  import opened Base
  import opened Keys
  import opened Rules

  datatype CreateRequest = CreateRequest(
    tenant: string, resource: string, algorithm: string, limit: int, window: int, burst: int, idempotencyKey: string)

  datatype UpdateRequest = UpdateRequest(
    tenant: string, resource: string, algorithm: string, limit: int, window: int, burst: int, expectedVersion: int)

  datatype Error = InvalidInput | Conflict | NotFound

  /** What the payload hash covers; the hash is taken to be injective. */
  datatype Payload = Payload(
    tenant: string, resource: string, algorithm: string, limit: int, window: int, burst: int)

  datatype Record = Record(ruleKey: string, payload: Payload)

  datatype Db = Db(rules: map<string, Rule>, idempotency: map<string, Record>)

  const EMPTY: Db := Db(map[], map[])

  function PayloadOf(req: CreateRequest): Payload {
    Payload(req.tenant, req.resource, req.algorithm, req.limit, req.window, req.burst)
  }

  predicate ValidNames(tenant: string, resource: string) {
    tenant != "" && resource != ""
  }

  function Create(db: Db, req: CreateRequest, now: int): (Db, Result<Rule, Error>) {
    if !ValidNames(req.tenant, req.resource) || req.limit <= 0 then (db, Err(InvalidInput))
    else
      var key := PairKey(req.tenant, req.resource);
      if req.idempotencyKey != "" && req.idempotencyKey in db.idempotency then
        var record := db.idempotency[req.idempotencyKey];
        if record.payload != PayloadOf(req) || record.ruleKey !in db.rules then (db, Err(Conflict))
        else (db, Ok(db.rules[record.ruleKey]))
      else if key in db.rules then (db, Err(Conflict))
      else
        var rule := Rule(req.tenant, req.resource, req.algorithm, req.limit, req.window, req.burst, 1, now);
        (Db(db.rules[key := rule],
            if req.idempotencyKey == "" then db.idempotency
            else db.idempotency[req.idempotencyKey := Record(key, PayloadOf(req))]),
         Ok(rule))
  }

  function Update(db: Db, req: UpdateRequest, now: int): (Db, Result<Rule, Error>) {
    if !ValidNames(req.tenant, req.resource) || req.limit <= 0 then (db, Err(InvalidInput))
    else
      var key := PairKey(req.tenant, req.resource);
      if key !in db.rules then (db, Err(NotFound))
      else if db.rules[key].version != req.expectedVersion then (db, Err(Conflict))
      else
        var rule := Rule(req.tenant, req.resource, req.algorithm, req.limit, req.window, req.burst,
                         db.rules[key].version + 1, now);
        (db.(rules := db.rules[key := rule]), Ok(rule))
  }

  function Delete(db: Db, tenant: string, resource: string, expectedVersion: int): (Db, Result<(), Error>) {
    if !ValidNames(tenant, resource) then (db, Err(InvalidInput))
    else
      var key := PairKey(tenant, resource);
      if key !in db.rules then (db, Err(NotFound))
      else if db.rules[key].version != expectedVersion then (db, Err(Conflict))
      else (db.(rules := db.rules - {key}), Ok(()))
  }

  function Get(db: Db, tenant: string, resource: string): Result<Rule, Error> {
    if !ValidNames(tenant, resource) then Err(InvalidInput)
    else if PairKey(tenant, resource) !in db.rules then Err(NotFound)
    else Ok(db.rules[PairKey(tenant, resource)])
  }

  class InMemoryRuleDB {
    var rules: map<string, Rule>
    var idempotency: map<string, Record>

    function Contents(): Db
      reads this
    {
      Db(rules, idempotency)
    }

    constructor ()
      ensures Contents() == EMPTY
    {
      rules, idempotency := map[], map[];
    }

    method CreateRule(req: CreateRequest, now: int) returns (r: Result<Rule, Error>)
      modifies this
      ensures (Contents(), r) == Create(old(Contents()), req, now)
    {
      if req.tenant == "" || req.resource == "" || req.limit <= 0 {
        return Err(InvalidInput);
      }
      var key := PairKey(req.tenant, req.resource);
      if req.idempotencyKey != "" && req.idempotencyKey in idempotency {
        var record := idempotency[req.idempotencyKey];
        if record.payload != PayloadOf(req) || record.ruleKey !in rules {
          return Err(Conflict);
        }
        return Ok(rules[record.ruleKey]);
      }
      if key in rules {
        return Err(Conflict);
      }
      var rule := Rule(req.tenant, req.resource, req.algorithm, req.limit, req.window, req.burst, 1, now);
      rules := rules[key := rule];
      if req.idempotencyKey != "" {
        idempotency := idempotency[req.idempotencyKey := Record(key, PayloadOf(req))];
      }
      r := Ok(rule);
    }

    method UpdateRule(req: UpdateRequest, now: int) returns (r: Result<Rule, Error>)
      modifies this`rules
      ensures (Contents(), r) == Update(old(Contents()), req, now)
    {
      if req.tenant == "" || req.resource == "" || req.limit <= 0 {
        return Err(InvalidInput);
      }
      var key := PairKey(req.tenant, req.resource);
      if key !in rules {
        return Err(NotFound);
      }
      if rules[key].version != req.expectedVersion {
        return Err(Conflict);
      }
      var next := rules[key].version + 1;
      var rule := Rule(req.tenant, req.resource, req.algorithm, req.limit, req.window, req.burst, next, now);
      rules := rules[key := rule];
      r := Ok(rule);
    }

    method DeleteRule(tenant: string, resource: string, expectedVersion: int) returns (r: Result<(), Error>)
      modifies this`rules
      ensures (Contents(), r) == Delete(old(Contents()), tenant, resource, expectedVersion)
    {
      if tenant == "" || resource == "" {
        return Err(InvalidInput);
      }
      var key := PairKey(tenant, resource);
      if key !in rules {
        return Err(NotFound);
      }
      if rules[key].version != expectedVersion {
        return Err(Conflict);
      }
      rules := rules - {key};
      r := Ok(());
    }

    method GetRule(tenant: string, resource: string) returns (r: Result<Rule, Error>)
      ensures r == Get(Contents(), tenant, resource)
    {
      if tenant == "" || resource == "" {
        return Err(InvalidInput);
      }
      var key := PairKey(tenant, resource);
      r := if key in rules then Ok(rules[key]) else Err(NotFound);
    }

    /** LoadAll: every stored rule once, in some order. */
    method LoadAll() returns (all: seq<Rule>)
      ensures forall rule :: rule in all <==> exists k :: k in rules && rules[k] == rule
      ensures |all| == |rules|
    {
      all := [];
      var left := rules.Keys;
      while left != {}
        invariant left <= rules.Keys
        invariant forall rule :: rule in all <==> exists k :: k in rules && k !in left && rules[k] == rule
        invariant |all| + |left| == |rules.Keys|
        decreases |left|
      {
        var k :| k in left;
        left := left - {k};
        all := all + [rules[k]];
      }
    }
  }

  // Whole runs

  datatype Op =
    | CreateOp(create: CreateRequest, now: int)
    | UpdateOp(update: UpdateRequest, now: int)
    | DeleteOp(tenant: string, resource: string, expectedVersion: int)

  function Apply(db: Db, op: Op): Db {
    match op
    case CreateOp(req, now) => Create(db, req, now).0
    case UpdateOp(req, now) => Update(db, req, now).0
    case DeleteOp(t, r, v) => Delete(db, t, r, v).0
  }

  function Run(db: Db, ops: seq<Op>): Db
    decreases |ops|
  {
    if ops == [] then db else Run(Apply(db, ops[0]), ops[1..])
  }

  ghost predicate PositiveVersions(db: Db) {
    forall k | k in db.rules :: db.rules[k].version >= 1
  }

  function VersionAt(db: Db, key: string): int {
    if key in db.rules then db.rules[key].version else 0
  }

  /** The changes of one key over a run, read off the states: new versions, and 0 for a deletion. */
  function History(db: Db, ops: seq<Op>, key: string): seq<int>
    decreases |ops|
  {
    if ops == [] then []
    else
      var next := Apply(db, ops[0]);
      (if VersionAt(next, key) != VersionAt(db, key) then [VersionAt(next, key)] else []) + History(next, ops[1..], key)
  }

  /** Each change is the next version, or a deletion after which versions start again at 1. */
  predicate Consecutive(history: seq<int>, version: int) {
    history == [] ||
    ((history[0] == version + 1 || (history[0] == 0 && version > 0)) && Consecutive(history[1..], history[0]))
  }

  lemma ApplyKeepsVersions(db: Db, op: Op, key: string)
    requires PositiveVersions(db)
    ensures PositiveVersions(Apply(db, op))
    ensures var v, w := VersionAt(db, key), VersionAt(Apply(db, op), key);
            w == v || w == v + 1 || (w == 0 && v > 0)
  {
    hide PairKey;
  }

  /** In every run the versions of a key are 1, 2, 3 and so on without gaps, from its creation to its deletion. */
  lemma {:induction false} VersionsHaveNoGaps(db: Db, ops: seq<Op>, key: string)
    requires PositiveVersions(db)
    ensures Consecutive(History(db, ops, key), VersionAt(db, key))
    decreases |ops|
  {
    if ops != [] {
      hide Apply;
      ApplyKeepsVersions(db, ops[0], key);
      var next := Apply(db, ops[0]);
      VersionsHaveNoGaps(next, ops[1..], key);
      var rest := History(next, ops[1..], key);
      assert ([VersionAt(next, key)] + rest)[1..] == rest && [] + rest == rest;
    }
  }

  predicate Wins(db: Db, op: Op, key: string, version: int) {
    op.UpdateOp? && PairKey(op.update.tenant, op.update.resource) == key && op.update.expectedVersion == version
    && Update(db, op.update, op.now).1.Ok?
  }

  /** How many updates of the key succeed against a version. */
  function Winners(db: Db, ops: seq<Op>, key: string, version: int): nat
    decreases |ops|
  {
    if ops == [] then 0
    else (if Wins(db, ops[0], key, version) then 1 else 0) + Winners(Apply(db, ops[0]), ops[1..], key, version)
  }

  /** The key is not deleted in the run. */
  predicate Lives(db: Db, ops: seq<Op>, key: string)
    decreases |ops|
  {
    ops == [] ||
    ((VersionAt(db, key) > 0 ==> VersionAt(Apply(db, ops[0]), key) > 0) && Lives(Apply(db, ops[0]), ops[1..], key))
  }

  /** Within one lifetime of a key at most one update succeeds against each version. */
  lemma {:induction false} OneWinnerPerVersion(db: Db, ops: seq<Op>, key: string, version: int)
    requires PositiveVersions(db) && Lives(db, ops, key)
    ensures Winners(db, ops, key, version) <= 1
    ensures 0 <= version < VersionAt(db, key) ==> Winners(db, ops, key, version) == 0
    decreases |ops|
  {
    if ops != [] {
      hide PairKey;
      ApplyKeepsVersions(db, ops[0], key);
      OneWinnerPerVersion(Apply(db, ops[0]), ops[1..], key, version);
    }
  }

  /** The operation inserts a rule under the idempotency key. */
  predicate Inserts(db: Db, op: Op, ik: string) {
    op.CreateOp? && op.create.idempotencyKey == ik && Apply(db, op) != db
  }

  function Insertions(db: Db, ops: seq<Op>, ik: string): nat
    decreases |ops|
  {
    if ops == [] then 0
    else (if Inserts(db, ops[0], ik) then 1 else 0) + Insertions(Apply(db, ops[0]), ops[1..], ik)
  }

  /** An idempotency key creates at most one rule in any run, deletions and re-creations included. */
  lemma {:induction false} IdempotencyKeyInsertsOnce(db: Db, ops: seq<Op>, ik: string)
    requires ik != ""
    ensures Insertions(db, ops, ik) <= if ik in db.idempotency then 0 else 1
    decreases |ops|
  {
    if ops != [] {
      hide PairKey;
      IdempotencyKeyInsertsOnce(Apply(db, ops[0]), ops[1..], ik);
    }
  }

  /** Records point at the rule their payload names. */
  ghost predicate RecordsNameRules(db: Db) {
    forall ik | ik in db.idempotency ::
      db.idempotency[ik].ruleKey == PairKey(db.idempotency[ik].payload.tenant, db.idempotency[ik].payload.resource)
  }

  /** A replay changes nothing, and succeeds exactly when the payload is the original one and its rule still exists. */
  lemma ReplayChangesNothing(db: Db, req: CreateRequest, now: int)
    requires req.idempotencyKey != "" && req.idempotencyKey in db.idempotency && RecordsNameRules(db)
    requires ValidNames(req.tenant, req.resource) && req.limit > 0
    ensures var (db', r) := Create(db, req, now);
            && db' == db
            && (r.Ok? <==> db.idempotency[req.idempotencyKey].payload == PayloadOf(req)
                           && PairKey(req.tenant, req.resource) in db.rules)
            && (r.Ok? ==> r.value == db.rules[PairKey(req.tenant, req.resource)])
  {
    hide PairKey;
  }

  lemma {:induction false} RunsKeepRecords(db: Db, ops: seq<Op>)
    requires RecordsNameRules(db)
    ensures RecordsNameRules(Run(db, ops))
    decreases |ops|
  {
    hide PairKey;
    if ops != [] {
      RunsKeepRecords(Apply(db, ops[0]), ops[1..]);
    }
  }

  // The string-keyed database as a set of rules

  /** Every rule is stored under its own key, and its tenant is one of a known set. */
  ghost predicate Consistent(db: Db, tenants: set<string>) {
    forall k | k in db.rules :: k == PairKey(db.rules[k].tenant, db.rules[k].resource) && db.rules[k].tenant in tenants
  }

  ghost function View(db: Db): RuleSet {
    map id | id in (set k | k in db.rules :: IdOf(db.rules[k])) && PairKey(id.tenant, id.resource) in db.rules
      :: db.rules[PairKey(id.tenant, id.resource)]
  }

  /** With separated tenants, looking up a string key is looking up the tenant and the resource. */
  lemma ViewLookup(db: Db, tenants: set<string>, id: RuleId)
    requires Separated(tenants) && Consistent(db, tenants) && id.tenant in tenants
    ensures id in View(db) <==> PairKey(id.tenant, id.resource) in db.rules
    ensures id in View(db) ==> View(db)[id] == db.rules[PairKey(id.tenant, id.resource)] && IdOf(View(db)[id]) == id
  {
    hide PairKey;
    var key := PairKey(id.tenant, id.resource);
    if key in db.rules {
      var rule := db.rules[key];
      PairKeyInjective(tenants, id.tenant, id.resource, rule.tenant, rule.resource);
      assert IdOf(db.rules[key]) == id;
    }
  }

  lemma ViewTenants(db: Db, tenants: set<string>)
    requires Consistent(db, tenants)
    ensures forall id | id in View(db) :: id.tenant in tenants
  {
  }

  /** Storing a rule under its key adds it to the view. */
  lemma ViewStore(db: Db, tenants: set<string>, rule: Rule, db': Db)
    requires Separated(tenants) && Consistent(db, tenants) && rule.tenant in tenants
    requires db'.rules == db.rules[PairKey(rule.tenant, rule.resource) := rule]
    ensures Consistent(db', tenants) && View(db') == View(db)[IdOf(rule) := rule]
  {
    hide PairKey, View, Separated;
    ViewTenants(db, tenants);
    ViewTenants(db', tenants);
    forall id: RuleId
      ensures id in View(db') <==> id in View(db) || id == IdOf(rule)
      ensures id in View(db') ==> View(db')[id] == if id == IdOf(rule) then rule else View(db)[id]
    {
      if id.tenant in tenants {
        ViewLookup(db, tenants, id);
        ViewLookup(db', tenants, id);
        if PairKey(id.tenant, id.resource) == PairKey(rule.tenant, rule.resource) {
          PairKeyInjective(tenants, id.tenant, id.resource, rule.tenant, rule.resource);
        }
      }
    }
    assert View(db') == View(db)[IdOf(rule) := rule];
  }

  /** Removing a key removes its rule from the view. */
  lemma ViewRemove(db: Db, tenants: set<string>, target: RuleId, db': Db)
    requires Separated(tenants) && Consistent(db, tenants) && target.tenant in tenants
    requires db'.rules == db.rules - {PairKey(target.tenant, target.resource)}
    ensures Consistent(db', tenants) && View(db') == View(db) - {target}
  {
    hide PairKey, View, Separated;
    ViewTenants(db, tenants);
    ViewTenants(db', tenants);
    forall id: RuleId
      ensures id in View(db') <==> id in View(db) && id != target
      ensures id in View(db') ==> View(db')[id] == View(db)[id]
    {
      if id.tenant in tenants {
        ViewLookup(db, tenants, id);
        ViewLookup(db', tenants, id);
        if PairKey(id.tenant, id.resource) == PairKey(target.tenant, target.resource) {
          PairKeyInjective(tenants, id.tenant, id.resource, target.tenant, target.resource);
        }
      }
    }
    assert View(db') == View(db) - {target};
  }

  /** The rule a creation asks for. */
  predicate AsRequested(rule: Rule, req: CreateRequest) {
    && rule.tenant == req.tenant && rule.resource == req.resource && rule.algorithm == req.algorithm
    && rule.limit == req.limit && rule.window == req.window && rule.burst == req.burst
  }

  /** The key of an earlier creation is used again. */
  predicate Replays(db: Db, req: CreateRequest) {
    req.idempotencyKey != "" && req.idempotencyKey in db.idempotency
  }

  /**
   * A creation is invalid exactly without names or a positive limit; otherwise, unless it replays an earlier one, it
   * succeeds exactly when there is no such rule, and then stores version 1 of the rule as requested, at this instant.
   */
  lemma CreateInView(db: Db, tenants: set<string>, req: CreateRequest, now: int)
    requires Separated(tenants) && Consistent(db, tenants) && req.tenant in tenants
    ensures var (db', r) := Create(db, req, now);
            var valid := req.tenant != "" && req.resource != "" && req.limit > 0;
            && Consistent(db', tenants)
            && (r.Err? ==> db' == db)
            && (r == Err(InvalidInput) <==> !valid)
            && (valid && !Replays(db, req) ==> (r.Ok? <==> RuleId(req.tenant, req.resource) !in View(db)))
            && (r.Ok? ==>
                  var rule, id := r.value, IdOf(r.value);
                  || (Replays(db, req) && db' == db && id in View(db) && View(db)[id] == rule)
                  || (&& !Replays(db, req) && AsRequested(rule, req) && rule.version == 1 && rule.updatedAt == now
                      && id !in View(db) && View(db') == View(db)[id := rule]))
  {
    hide PairKey, View, Separated;
    var (db', r) := Create(db, req, now);
    ViewLookup(db, tenants, RuleId(req.tenant, req.resource));
    if r.Ok? {
      if db' == db {
        var rule := r.value;
        assert rule.tenant in tenants;
        ViewLookup(db, tenants, IdOf(rule));
      } else {
        ViewStore(db, tenants, r.value, db');
      }
    }
  }

  /**
   * An update succeeds exactly when it is valid and the rule is stored at the expected version; it then stores and
   * returns the next version with the settings of the request, at this instant.
   */
  lemma UpdateInView(db: Db, tenants: set<string>, req: UpdateRequest, now: int)
    requires Separated(tenants) && Consistent(db, tenants) && req.tenant in tenants
    ensures var (db', r) := Update(db, req, now);
            var id, valid := RuleId(req.tenant, req.resource), req.tenant != "" && req.resource != "" && req.limit > 0;
            && Consistent(db', tenants)
            && (r.Err? ==> db' == db)
            && (r == Err(InvalidInput) <==> !valid)
            && (r == Err(NotFound) <==> valid && id !in View(db))
            && (r.Ok? <==> valid && id in View(db) && View(db)[id].version == req.expectedVersion)
            && (r.Ok? ==>
                  && View(db') == View(db)[id := r.value]
                  && r.value == Rule(req.tenant, req.resource, req.algorithm, req.limit, req.window, req.burst,
                                     req.expectedVersion + 1, now))
  {
    hide PairKey, View, Separated;
    var (db', r) := Update(db, req, now);
    ViewLookup(db, tenants, RuleId(req.tenant, req.resource));
    if r.Ok? {
      ViewStore(db, tenants, r.value, db');
    }
  }

  /** A deletion succeeds exactly when the rule is stored at the expected version, and removes that rule. */
  lemma DeleteInView(db: Db, tenants: set<string>, tenant: string, resource: string, expectedVersion: int)
    requires Separated(tenants) && Consistent(db, tenants) && tenant in tenants
    ensures var (db', r) := Delete(db, tenant, resource, expectedVersion);
            var id, valid := RuleId(tenant, resource), tenant != "" && resource != "";
            && Consistent(db', tenants)
            && (r.Err? ==> db' == db)
            && (r == Err(InvalidInput) <==> !valid)
            && (r == Err(NotFound) <==> valid && id !in View(db))
            && (r.Ok? <==> valid && id in View(db) && View(db)[id].version == expectedVersion)
            && (r.Ok? ==> View(db') == View(db) - {id})
  {
    hide PairKey, View, Separated;
    var (db', r) := Delete(db, tenant, resource, expectedVersion);
    ViewLookup(db, tenants, RuleId(tenant, resource));
    if r.Ok? {
      ViewRemove(db, tenants, RuleId(tenant, resource), db');
    }
  }

  /** A read finds exactly the stored rules. */
  lemma GetInView(db: Db, tenants: set<string>, id: RuleId)
    requires Separated(tenants) && Consistent(db, tenants) && id.tenant in tenants
    ensures var r, valid := Get(db, id.tenant, id.resource), id.tenant != "" && id.resource != "";
            && (r == Err(InvalidInput) <==> !valid)
            && (r.Ok? <==> valid && id in View(db)) && (r.Ok? ==> r.value == View(db)[id])
  {
    hide PairKey, View, Separated;
    ViewLookup(db, tenants, id);
  }

  // The last write stands

  /** What a write sets. */
  datatype Settings = Settings(algorithm: string, limit: int, window: int, burst: int, at: int)

  /** What the operation sets for the key, if it is a write of the key that succeeds. */
  function Sets(db: Db, op: Op, key: string): Option<Settings> {
    match op
    case CreateOp(req, now) =>
      if PairKey(req.tenant, req.resource) == key && Create(db, req, now).1.Ok? && !Replays(db, req)
      then Some(Settings(req.algorithm, req.limit, req.window, req.burst, now)) else None
    case UpdateOp(req, now) =>
      if PairKey(req.tenant, req.resource) == key && Update(db, req, now).1.Ok?
      then Some(Settings(req.algorithm, req.limit, req.window, req.burst, now)) else None
    case DeleteOp(_, _, _) => None
  }

  /** The settings of the last successful write of the key in a run. */
  function LastSet(db: Db, ops: seq<Op>, key: string, before: Option<Settings>): Option<Settings>
    decreases |ops|
  {
    if ops == [] then before
    else
      var latest := Sets(db, ops[0], key);
      LastSet(Apply(db, ops[0]), ops[1..], key, if latest.Some? then latest else before)
  }

  function SettingsOf(rule: Rule): Settings {
    Settings(rule.algorithm, rule.limit, rule.window, rule.burst, rule.updatedAt)
  }

  lemma ApplySets(db: Db, op: Op, key: string)
    ensures var after := Apply(db, op);
            key in after.rules ==>
              if Sets(db, op, key).Some? then Some(SettingsOf(after.rules[key])) == Sets(db, op, key)
              else key in db.rules && after.rules[key] == db.rules[key]
  {
    hide PairKey;
  }

  /** In every run a stored rule has the settings of the last successful write of its key. */
  lemma {:induction false} LastWriteStands(db: Db, ops: seq<Op>, key: string, before: Option<Settings>)
    requires key in db.rules ==> before == Some(SettingsOf(db.rules[key]))
    ensures key in Run(db, ops).rules ==>
              LastSet(db, ops, key, before) == Some(SettingsOf(Run(db, ops).rules[key]))
    decreases |ops|
  {
    hide Apply, Sets;
    if ops != [] {
      ApplySets(db, ops[0], key);
      var now := Sets(db, ops[0], key);
      LastWriteStands(Apply(db, ops[0]), ops[1..], key, if now.Some? then now else before);
    }
  }
}
