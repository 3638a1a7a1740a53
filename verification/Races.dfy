/** Two ways in which delivery can go wrong: a deleted rule comes back, and a rule created again is lost. */
module Races {
  import opened Rules
  import opened Propagation
  import opened PropagationSteps
  import opened PropagationCoverage
  import opened Convergence
  import opened Sync
  import opened Drain
  import opened SafeWrites

  /**
   * Whenever an announcement of a stored rule is on its way to a node, its handler can read the rule, the rule can be
   * deleted, and some continuation ends with nothing under way and the node wrong about the rule.
   */
  lemma AnnouncementCanRace(nodes: set<string>, before: seq<Action>, d: Delivery, m: string)
    requires IsRun(Start(nodes), before) && CleanRun(Start(nodes), before) && m in nodes
    requires var s := Run(Start(nodes), before); d in s.inbox && d.event.Upserted? && d.event.id in s.db
    ensures var s := Run(Start(nodes), before);
            && Enabled(s, Handle(d)) && Enabled(Next(s, Handle(d)), WriteDelete(m, d.event.id))
            && CanEndWrong(Next(Next(s, Handle(d)), WriteDelete(m, d.event.id)), d.node, d.event.id)
  {
    hide IsRun, Run, CleanRun, Inv, Addressed, CanEndWrong, Start, AfterDelete, IdOf, FetchOut;
    ReachedInv(nodes, before);
    ReachedAddressed(nodes, before);
    var s := Run(Start(nodes), before);
    StepKeepsAddressedMail(s, d);
    var t := Next(s, Handle(d));
    RacingDeletionEndsWrong(t, m, d.node, d.event.id);
  }

  lemma StepKeepsAddressedMail(s: State, d: Delivery)
    requires Inv(s) && Addressed(s) && d in s.inbox && d.event.Upserted? && d.event.id in s.db
    ensures Enabled(s, Handle(d)) && Addressed(Next(s, Handle(d))) && Next(s, Handle(d)).db == s.db
    ensures Next(s, Handle(d)).nodes == s.nodes && Outstanding(Next(s, Handle(d)), d.node, d.event.id)
  {
    hide Tracked, DeletionsTrue, Addressed, Sound;
    ByAddress(s);
    StepKeepsAddressed(s, Handle(d));
    StoredIsAlive(s, d.event.id);
    var f := Fetch(d.node, s.db[d.event.id]);
    assert f in Next(s, Handle(d)).fetched;
    assert FetchOut(Next(s, Handle(d)).fetched, d.node, d.event.id);
  }

  // A rule that is created again and lost

  ghost predicate FetchesUpTo(fetched: multiset<Fetch>, n: string, id: RuleId, version: int) {
    forall f | f in fetched && f.node == n && IdOf(f.rule) == id :: f.rule.version <= version
  }

  ghost predicate WritesUpTo(ops: multiset<AdminOp>, n: string, id: RuleId, version: int) {
    forall op | op in ops && WritesAt(op, n, id) :: op.rule.version <= version
  }

  predicate RulesUpTo(rules: RuleSet, id: RuleId, version: int) {
    id in rules ==> rules[id].version <= version
  }

  /** Whatever the node has of the rule, or will get of it, is of this version or older. */
  ghost predicate UpTo(s: State, n: string, id: RuleId, version: int) {
    && n in s.caches && RulesUpTo(s.caches[n], id, version) && RulesUpTo(s.db, id, version)
    && (n in s.loaded ==> RulesUpTo(s.loaded[n], id, version))
    && FetchesUpTo(s.fetched, n, id, version) && WritesUpTo(s.ops, n, id, version)
    && (id in s.db ==> IdOf(s.db[id]) == id)
  }

  lemma FetchesChange(fetched: multiset<Fetch>, f: Fetch, n: string, id: RuleId, version: int)
    requires FetchesUpTo(fetched, n, id, version)
    ensures FetchesUpTo(fetched - multiset{f}, n, id, version)
    ensures (f.node == n && IdOf(f.rule) == id ==> f.rule.version <= version)
            ==> FetchesUpTo(fetched + multiset{f}, n, id, version)
  {
    assert forall x | x in fetched - multiset{f} :: x in fetched;
    assert forall x | x in fetched + multiset{f} :: x in fetched || x == f;
  }

  lemma WritesChange(ops: multiset<AdminOp>, op: AdminOp, n: string, id: RuleId, version: int)
    requires WritesUpTo(ops, n, id, version)
    ensures WritesUpTo(ops - multiset{op}, n, id, version)
    ensures (WritesAt(op, n, id) ==> op.rule.version <= version) ==> WritesUpTo(ops + multiset{op}, n, id, version)
  {
    assert forall x | x in ops - multiset{op} :: x in ops;
    assert forall x | x in ops + multiset{op} :: x in ops || x == op;
  }

  lemma UpsertUpTo(rules: RuleSet, rule: Rule, id: RuleId, version: int)
    requires RulesUpTo(rules, id, version) && (IdOf(rule) == id ==> rule.version <= version)
    ensures RulesUpTo(Upsert(rules, rule), id, version)
  {
  }

  lemma DropUpTo(rules: RuleSet, other: RuleId, v: int, id: RuleId, version: int)
    requires RulesUpTo(rules, id, version)
    ensures RulesUpTo(DropIfOlder(rules, other, v), id, version)
  {
  }

  lemma WrittenUpTo(ops: multiset<AdminOp>, op: AdminOp, n: string, id: RuleId, version: int)
    requires WritesUpTo(ops, n, id, version) && op in ops && op.PutWritten? && op.node == n && IdOf(op.rule) == id
    ensures op.rule.version <= version
  {
  }

  lemma PutCachedUpTo(s: State, op: AdminOp, n: string, id: RuleId, version: int)
    requires UpTo(s, n, id, version) && Enabled(s, AdminCache(op)) && op.PutWritten?
    ensures UpTo(AfterPutCached(s, op), n, id, version)
  {
    hide FetchesUpTo, WritesUpTo, Upsert, RulesUpTo;
    WritesChange(s.ops, op, n, id, version);
    WritesChange(s.ops - multiset{op}, PutCached(op.rule), n, id, version);
    if op.node == n {
      if IdOf(op.rule) == id {
        WrittenUpTo(s.ops, op, n, id, version);
      }
      UpsertUpTo(s.caches[n], op.rule, id, version);
    }
  }

  lemma DropCachedUpTo(s: State, op: AdminOp, n: string, id: RuleId, version: int)
    requires UpTo(s, n, id, version) && Enabled(s, AdminCache(op)) && op.DropWritten?
    ensures UpTo(AfterDropCached(s, op), n, id, version)
  {
    hide FetchesUpTo, WritesUpTo, DropIfOlder, RulesUpTo, Settled;
    WritesChange(s.ops, op, n, id, version);
    WritesChange(s.ops - multiset{op}, DropCached(op.id, op.version), n, id, version);
    if op.node == n {
      DropUpTo(s.caches[n], op.id, op.version, id, version);
    }
  }

  lemma HandleUpTo(s: State, d: Delivery, n: string, id: RuleId, version: int)
    requires UpTo(s, n, id, version) && Enabled(s, Handle(d))
    requires d.event.id in s.db ==> IdOf(s.db[d.event.id]) == d.event.id
    ensures UpTo(Next(s, Handle(d)), n, id, version)
  {
    hide FetchesUpTo, WritesUpTo, DropIfOlder, Settled;
    if d.event.Deleted? {
      if d.node == n {
        DropUpTo(s.caches[n], d.event.id, d.event.version, id, version);
      }
    } else if d.event.id in s.db {
      FetchesChange(s.fetched, Fetch(d.node, s.db[d.event.id]), n, id, version);
    }
  }

  lemma FetchedUpTo(fetched: multiset<Fetch>, f: Fetch, n: string, id: RuleId, version: int)
    requires FetchesUpTo(fetched, n, id, version) && f in fetched && f.node == n && IdOf(f.rule) == id
    ensures f.rule.version <= version
  {
  }

  lemma ApplyUpTo(s: State, f: Fetch, n: string, id: RuleId, version: int)
    requires UpTo(s, n, id, version) && Enabled(s, Apply(f))
    ensures UpTo(AfterApply(s, f), n, id, version)
  {
    hide FetchesUpTo, WritesUpTo, Upsert, RulesUpTo;
    FetchesChange(s.fetched, f, n, id, version);
    if f.node == n {
      if IdOf(f.rule) == id {
        FetchedUpTo(s.fetched, f, n, id, version);
      }
      UpsertUpTo(s.caches[n], f.rule, id, version);
    }
  }

  lemma InsertUpTo(s: State, op: AdminOp, n: string, id: RuleId, version: int)
    requires UpTo(s, n, id, version) && Enabled(s, AdminInsert(op))
    ensures UpTo(AfterInsert(s, op), n, id, version)
  {
    hide FetchesUpTo, WritesUpTo, RulesUpTo;
    WritesChange(s.ops, op, n, id, version);
  }

  lemma StoreUpTo(s: State, m: string, n: string, id: RuleId, version: int)
    requires UpTo(s, n, id, version) && Enabled(s, SyncStore(m))
    ensures UpTo(AfterStore(s, m), n, id, version)
  {
    hide FetchesUpTo, WritesUpTo, RulesUpTo, RacedAfterStore, LaggingAfterStore;
  }

  lemma StepUpTo(s: State, a: Action, n: string, id: RuleId, version: int)
    requires UpTo(s, n, id, version) && Enabled(s, a) && Delivers(a) && Keyed(s.db)
    ensures UpTo(Next(s, a), n, id, version)
  {
    hide AfterPutCached, AfterDropCached, AfterInsert, AfterPublish, AfterFetch, AfterDrop, AfterApply, AfterStore;
    hide FetchesUpTo, WritesUpTo, RulesUpTo;
    match a
    case AdminCache(op) =>
      if op.PutWritten? {
        PutCachedUpTo(s, op, n, id, version);
      } else {
        DropCachedUpTo(s, op, n, id, version);
      }
    case AdminInsert(op) => InsertUpTo(s, op, n, id, version);
    case Publish(e) =>
    case Handle(d) => HandleUpTo(s, d, n, id, version);
    case Apply(f) => ApplyUpTo(s, f, n, id, version);
    case SyncStore(m) => StoreUpTo(s, m, n, id, version);
  }

  lemma {:induction false} RunsUpTo(s: State, actions: seq<Action>, held: Held, n: string, id: RuleId, version: int)
    requires UpTo(s, n, id, version) && IsRun(s, actions) && Waits(s, actions, held) && Keyed(s.db)
    ensures UpTo(Run(s, actions), n, id, version)
    decreases |actions|
  {
    hide UpTo, Next, Enabled, Delivers, Holds, Keyed;
    if actions != [] {
      StepUpTo(s, actions[0], n, id, version);
      DeliverySettles(s, actions[0]);
      RunsUpTo(Next(s, actions[0]), actions[1..], held, n, id, version);
    }
  }

  lemma KnownUpTo(s: State, n: string, id: RuleId)
    requires Sound(s) && n in s.caches && id in s.dead && id !in s.db
    ensures UpTo(s, n, id, s.dead[id])
  {
    assert CacheSound(s.db, s.dead, s.caches[n]);
    if n in s.loaded {
      assert CacheSound(s.db, s.dead, s.loaded[n]);
    }
  }

  lemma PutUpTo(s: State, m: string, rule: Rule, n: string, version: int)
    requires UpTo(s, n, IdOf(rule), version) && rule.version <= version
    ensures UpTo(AfterPut(s, m, rule), n, IdOf(rule), version)
  {
    hide FetchesUpTo, Others;
    WritesChange(s.ops, PutWritten(m, rule), n, IdOf(rule), version);
    hide WritesUpTo;
  }

  /** Handled last, the deletion leaves nothing of the rule in the cache. */
  lemma LastDropLoses(s: State, d: Delivery)
    requires Addressed(s) && Finished(s, HeldMail(d)) && d.event.Deleted? && d.event.id in s.db
    requires UpTo(s, d.node, d.event.id, d.event.version)
    ensures Enabled(s, Handle(d))
    ensures var t := Next(s, Handle(d));
            Quiescent(t) && t.db == s.db && d.node in t.caches && d.event.id !in t.caches[d.node]
  {
    hide Settled, Addressed, FetchesUpTo, WritesUpTo;
    assert d in s.inbox && s.inbox - multiset{d} == NO_MAIL;
    assert s.loaded.Keys == {} ==> s.loaded == map[];
  }

  lemma DropLoses(s: State, d: Delivery) returns (more: seq<Action>)
    requires Addressed(s) && d in s.inbox && d.event.Deleted? && d.event.id in s.db && Keyed(s.db)
    requires UpTo(s, d.node, d.event.id, d.event.version)
    ensures IsRun(s, more) && WriteFree(more) && Quiescent(Run(s, more))
    ensures var t := Run(s, more); d.event.id in t.db && d.node in t.caches && d.event.id !in t.caches[d.node]
  {
    hide IsRun, Run, Addressed, Finished, Waits, UpTo, Keyed, Quiescent, Next, Enabled;
    var actions := Drains(s, HeldMail(d));
    RunsKeepAddressed(s, actions);
    WaitingKeeps(s, actions, HeldMail(d));
    RunsUpTo(s, actions, HeldMail(d), d.node, d.event.id, d.event.version);
    var t := Run(s, actions);
    LastDropLoses(t, d);
    OneStep(t, Handle(d));
    RunAppend(s, actions, [Handle(d)]);
    more := actions + [Handle(d)];
  }

  lemma PutIsKeyed(s: State, m: string, rule: Rule)
    requires Sound(s)
    ensures Keyed(AfterPut(s, m, rule).db)
  {
    hide CachesSound, FetchedSound, OpsSound, Others;
  }

  /**
   * Whenever a deletion is on its way to a node and its rule is created again, some continuation ends with nothing
   * under way, the rule stored, and the node without it.
   */
  lemma RecreatedRuleCanBeLost(nodes: set<string>, before: seq<Action>, d: Delivery, m: string, rule: Rule)
    returns (more: seq<Action>)
    requires IsRun(Start(nodes), before) && CleanRun(Start(nodes), before)
    requires var s := Run(Start(nodes), before);
             d in s.inbox && d.event == Deleted(IdOf(rule), d.event.version) && Enabled(s, WriteCreate(m, rule))
    ensures var s := Next(Run(Start(nodes), before), WriteCreate(m, rule));
            && IsRun(s, more) && WriteFree(more) && Quiescent(Run(s, more))
            && var t := Run(s, more);
               IdOf(rule) in t.db && d.node in t.caches && IdOf(rule) !in t.caches[d.node]
  {
    hide IsRun, Run, CleanRun, Inv, Addressed, Start, UpTo, Keyed, Quiescent;
    ReachedInv(nodes, before);
    ReachedAddressed(nodes, before);
    var s := Run(Start(nodes), before);
    DeadUpTo(s, d);
    PutUpTo(s, m, rule, d.node, d.event.version);
    StepKeepsAddressed(s, WriteCreate(m, rule));
    more := DropLoses(AfterPut(s, m, rule), d);
  }

  lemma DeadUpTo(s: State, d: Delivery)
    requires Inv(s) && Addressed(s) && d in s.inbox && d.event.Deleted?
    ensures d.event.version >= 1 && d.event.id !in s.db && UpTo(s, d.node, d.event.id, d.event.version)
    ensures forall m, rule :: Keyed(AfterPut(s, m, rule).db)
  {
    hide Tracked, Known, UpTo, Keyed, Addressed, CachesSound, FetchedSound, OpsSound;
    ByAddress(s);
    KnownUpTo(s, d.node, d.event.id);
    forall m, rule
      ensures Keyed(AfterPut(s, m, rule).db)
    {
      PutIsKeyed(s, m, rule);
    }
  }
}
