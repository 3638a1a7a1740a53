/** What one full synchronisation repairs, and for how long. */
module Sync {
  import opened Rules
  import opened Propagation
  import opened PropagationCoverage
  import opened Convergence

  predicate Writes(a: Action) {
    a.WriteCreate? || a.WriteUpdate? || a.WriteDelete?
  }

  ghost predicate WriteFree(actions: seq<Action>) {
    forall a | a in actions :: !Writes(a)
  }

  /** The cache of the node equals the database, no race is open there, and a list still to be stored is fresh. */
  ghost predicate Synced(s: State, n: string) {
    && n in s.caches && s.caches[n] == s.db && (forall id :: (n, id) !in s.raced)
    && (n in s.loaded ==> s.loaded[n] == s.db)
  }

  lemma UpsertKnown(s: State, n: string, rule: Rule)
    requires Inv(s) && Synced(s, n) && n in s.nodes && Known(s.db, s.dead, rule) && Outstanding(s, n, IdOf(rule))
    ensures Upsert(s.caches[n], rule) == s.caches[n]
  {
    hide Sound, DeletionsTrue, Outstanding, DropComing, PutComing;
    assert Tracked(s, n, IdOf(rule));
  }

  lemma DropAbsent(rules: RuleSet, id: RuleId, version: int)
    requires id !in rules
    ensures DropIfOlder(rules, id, version) == rules
  {
  }

  lemma WrittenIsKnown(s: State, op: AdminOp)
    requires Inv(s) && op in s.ops && op.PutWritten?
    ensures Known(s.db, s.dead, op.rule) && Outstanding(s, op.node, IdOf(op.rule))
  {
    hide Known, DbSound, CachesSound, FetchedSound, DeletionsTrue, Tracked;
    assert WriteOut(s.ops, op.node, IdOf(op.rule));
  }

  lemma FetchedIsKnown(s: State, f: Fetch)
    requires Inv(s) && f in s.fetched
    ensures Known(s.db, s.dead, f.rule) && Outstanding(s, f.node, IdOf(f.rule))
  {
    hide Known, DbSound, CachesSound, OpsSound, DeletionsTrue, Tracked;
    assert FetchOut(s.fetched, f.node, IdOf(f.rule));
  }

  lemma AdminKeepsSynced(s: State, op: AdminOp, n: string)
    requires Inv(s) && Synced(s, n) && n in s.nodes && Enabled(s, AdminCache(op))
    ensures Synced(Next(s, AdminCache(op)), n)
  {
    hide Inv, DropIfOlder, Upsert, Known, Outstanding;
    if op.node == n {
      if op.PutWritten? {
        WrittenIsKnown(s, op);
        UpsertKnown(s, n, op.rule);
      } else {
        TrueDrop(s, op);
        DroppedIsGone(s, op.id, op.version, n);
      }
    }
  }

  lemma TrueDrop(s: State, op: AdminOp)
    requires Inv(s) && op in s.ops && (op.DropWritten? || op.DropCached?)
    ensures op.id in s.dead && op.version == s.dead[op.id]
  {
    hide Sound, Tracked, EventsTrue, MailTrue;
  }

  lemma TrueMail(s: State, d: Delivery)
    requires Inv(s) && d in s.inbox && d.event.Deleted?
    ensures d.event.id in s.dead && d.event.version == s.dead[d.event.id]
  {
    hide Sound, Tracked, EventsTrue, DropsTrue;
  }

  lemma DroppedIsGone(s: State, id: RuleId, version: int, n: string)
    requires Inv(s) && Synced(s, n) && id in s.dead && version == s.dead[id]
    ensures DropIfOlder(s.caches[n], id, version) == s.caches[n]
  {
    hide DropIfOlder, Sound, Tracked, DeletionsTrue;
    DeletionApplies(s, n, id, version);
    DropAbsent(s.caches[n], id, version);
  }

  lemma DropKeepsSynced(s: State, d: Delivery, n: string)
    requires Inv(s) && Synced(s, n) && n in s.nodes && Enabled(s, Handle(d)) && d.event.Deleted?
    ensures Synced(Next(s, Handle(d)), n)
  {
    hide Inv, DropIfOlder, Outstanding;
    if d.node == n {
      TrueMail(s, d);
      DroppedIsGone(s, d.event.id, d.event.version, n);
    }
  }

  lemma ApplyKeepsSynced(s: State, f: Fetch, n: string)
    requires Inv(s) && Synced(s, n) && n in s.nodes && Enabled(s, Apply(f))
    ensures Synced(Next(s, Apply(f)), n)
  {
    hide Inv, Upsert, Known, Outstanding;
    if f.node == n {
      FetchedIsKnown(s, f);
      UpsertKnown(s, n, f.rule);
    }
  }

  lemma StepKeepsDb(s: State, a: Action)
    requires Enabled(s, a) && !Writes(a)
    ensures Next(s, a).db == s.db
  {
    hide AfterReplay, AfterPutCached, AfterDropCached, AfterInsert, AfterPublish, AfterRepublish, AfterMarkSent;
    hide AfterDuplicate, AfterFetch, AfterDrop, AfterApply, AfterLoad, AfterStore;
  }

  lemma StepKeepsSynced(s: State, a: Action, n: string)
    requires Inv(s) && Synced(s, n) && n in s.nodes && Enabled(s, a) && !Writes(a)
    ensures Synced(Next(s, a), n)
  {
    hide Inv, AfterReplay, AfterPutCached, AfterDropCached, AfterInsert, AfterPublish, AfterRepublish, AfterMarkSent;
    hide AfterDuplicate, AfterFetch, AfterDrop, AfterApply, LaggingAfterStore;
    if a.AdminCache? {
      AdminKeepsSynced(s, a.op, n);
    } else if a.Handle? && a.delivery.event.Deleted? {
      DropKeepsSynced(s, a.delivery, n);
    } else if a.Apply? {
      ApplyKeepsSynced(s, a.fetch, n);
    }
  }

  /** Once a cache equals the quiescent database, no stale or duplicate event, repeated call or list changes it. */
  lemma {:induction false} SyncedIsStable(s: State, actions: seq<Action>, n: string)
    requires Inv(s) && Synced(s, n) && n in s.nodes && IsRun(s, actions) && WriteFree(actions)
    ensures Synced(Run(s, actions), n) && Run(s, actions).db == s.db
    decreases |actions|
  {
    hide Inv, Synced, Next, Enabled, Writes;
    if actions != [] {
      assert actions[0] in actions && forall a | a in actions[1..] :: a in actions;
      NotCreating(s, actions[0]);
      StepKeepsInv(s, actions[0]);
      StepKeepsNodes(s, actions[0]);
      StepKeepsSynced(s, actions[0], n);
      StepKeepsDb(s, actions[0]);
      SyncedIsStable(Next(s, actions[0]), actions[1..], n);
    }
  }

  lemma NotCreating(s: State, a: Action)
    requires !Writes(a)
    ensures CleanlyCreates(s, a)
  {
  }

  /** Whatever happens without a write, the cache of the node stays as it is given. */
  ghost predicate StaysEqual(s: State, n: string, rules: RuleSet) {
    forall after | IsRun(s, after) && WriteFree(after) :: n in Run(s, after).caches && Run(s, after).caches[n] == rules
  }

  /** No cache write that raced with a deletion is still outstanding at the node. */
  ghost predicate NoRacedWrite(s: State, n: string) {
    forall id | (n, id) in s.raced :: !FetchOut(s.fetched, n, id) && !WriteOut(s.ops, n, id)
  }

  lemma StoreMakesSynced(s: State, n: string)
    requires Inv(s) && n in s.nodes && n in s.loaded && n in s.caches && s.loaded[n] == s.db && NoRacedWrite(s, n)
    ensures Synced(AfterStore(s, n), n)
  {
    hide DeletionsTrue, FetchOut, WriteOut, CachesSound, FetchedSound, OpsSound, LaggingAfterStore;
    forall id | (n, id) in s.raced
      ensures (n, id) !in RacedAfterStore(s, n)
    {
      assert Tracked(s, n, id);
    }
  }

  lemma OneStep(s: State, a: Action)
    requires Enabled(s, a)
    ensures IsRun(s, [a]) && Run(s, [a]) == Next(s, a)
    ensures !Writes(a) ==> WriteFree([a])
  {
    hide Enabled, Next;
    assert [a][1..] == [];
    assert IsRun(Next(s, a), []);
    assert Run(Next(s, a), []) == Next(s, a);
  }

  lemma RacedWriteBreaks(s: State, n: string, id: RuleId)
    requires n in s.caches && n in s.loaded && s.loaded[n] == s.db && id !in s.db
    requires FetchOut(s.fetched, n, id) || WriteOut(s.ops, n, id)
    ensures !StaysEqual(AfterStore(s, n), n, s.db)
  {
    hide IsRun, Run, RacedAfterStore, LaggingAfterStore;
    var t := AfterStore(s, n);
    if FetchOut(s.fetched, n, id) {
      var f :| f in s.fetched && f.node == n && IdOf(f.rule) == id;
      OneStep(t, Apply(f));
    } else {
      var op :| op in s.ops && op.PutWritten? && op.node == n && IdOf(op.rule) == id;
      OneStep(t, AdminCache(op));
    }
  }

  /**
   * A list loaded after the last write, stored after any run, makes the cache equal to the database; it stays so until
   * the next write exactly when no cache write that raced with a deletion is still outstanding at the node.
   */
  lemma SyncRepairs(nodes: set<string>, before: seq<Action>, n: string)
    requires n in nodes && IsRun(Start(nodes), before) && CleanRun(Start(nodes), before)
    requires var s := Run(Start(nodes), before); n in s.loaded && s.loaded[n] == s.db
    ensures var s := Run(Start(nodes), before);
            && Enabled(s, SyncStore(n)) && Next(s, SyncStore(n)).caches[n] == s.db
            && (StaysEqual(Next(s, SyncStore(n)), n, s.db) <==> NoRacedWrite(s, n))
  {
    hide IsRun, Run, CleanRun, Inv, StaysEqual, NoRacedWrite, RacedAfterStore, LaggingAfterStore;
    ReachedInv(nodes, before);
    var s := Run(Start(nodes), before);
    HasCache(s, n);
    SyncRepairsAt(s, n);
  }

  lemma HasCache(s: State, n: string)
    requires Inv(s) && n in s.nodes
    ensures n in s.caches
  {
  }

  lemma SyncRepairsAt(s: State, n: string)
    requires Inv(s) && n in s.nodes && n in s.caches && n in s.loaded && s.loaded[n] == s.db
    ensures StaysEqual(AfterStore(s, n), n, s.db) <==> NoRacedWrite(s, n)
  {
    hide IsRun, Run, Inv, RacedAfterStore, LaggingAfterStore, Synced, FetchOut, WriteOut, WriteFree;
    if NoRacedWrite(s, n) {
      StoreMakesSynced(s, n);
      NotCreating(s, SyncStore(n));
      StepKeepsInv(s, SyncStore(n));
      var t := AfterStore(s, n);
      forall after | IsRun(t, after) && WriteFree(after)
        ensures n in Run(t, after).caches && Run(t, after).caches[n] == s.db
      {
        SyncedIsStable(t, after, n);
        SyncedEquals(Run(t, after), n);
      }
    } else {
      var id :| (n, id) in s.raced && (FetchOut(s.fetched, n, id) || WriteOut(s.ops, n, id));
      RacedIsDead(s, n, id);
      RacedWriteBreaks(s, n, id);
    }
  }

  lemma SyncedEquals(s: State, n: string)
    requires Synced(s, n)
    ensures n in s.caches && s.caches[n] == s.db
  {
  }

  lemma RacedIsDead(s: State, n: string, id: RuleId)
    requires Inv(s) && n in s.nodes && (n, id) in s.raced
    ensures id !in s.db
  {
    assert Tracked(s, n, id);
  }
}
