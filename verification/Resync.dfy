/** Synchronisation over all runs, whatever was created again and whatever is left of earlier lives. */
module Resync {
  import opened Rules
  import opened Propagation
  import opened PropagationSteps
  import opened Convergence
  import opened Sync
  import opened Drain

  // Every run keeps the database in order

  lemma StepKeepsKeyed(s: State, a: Action)
    requires Keyed(s.db) && Enabled(s, a)
    ensures Keyed(Next(s, a).db)
  {
    hide AfterPut, AfterDelete, Keyed;
    if a.WriteCreate? || a.WriteUpdate? {
      PutStaysKeyed(s, a.node, a.rule);
    } else if a.WriteDelete? {
      DeleteStaysKeyed(s, a.node, a.id);
    } else {
      StepKeepsDb(s, a);
    }
  }

  lemma PutStaysKeyed(s: State, n: string, rule: Rule)
    requires Keyed(s.db)
    ensures Keyed(AfterPut(s, n, rule).db)
  {
    hide Others;
  }

  lemma DeleteStaysKeyed(s: State, n: string, id: RuleId)
    requires Keyed(s.db) && id in s.db
    ensures Keyed(AfterDelete(s, n, id).db)
  {
    hide Others, Outstanding;
  }

  lemma {:induction false} RunsKeepKeyed(s: State, actions: seq<Action>)
    requires Keyed(s.db) && IsRun(s, actions)
    ensures Keyed(Run(s, actions).db)
    decreases |actions|
  {
    hide Keyed, Next, Enabled;
    if actions != [] {
      StepKeepsKeyed(s, actions[0]);
      RunsKeepKeyed(Next(s, actions[0]), actions[1..]);
    }
  }

  lemma ReachedKeyed(nodes: set<string>, actions: seq<Action>)
    requires IsRun(Start(nodes), actions)
    ensures Keyed(Run(Start(nodes), actions).db)
  {
    hide IsRun, Run;
    RunsKeepKeyed(Start(nodes), actions);
  }

  // What would change a cache that equals the database

  /** Writing the rule to a cache that equals the database changes nothing. */
  predicate NoNews(db: RuleSet, rule: Rule) {
    IdOf(rule) in db && rule.version <= db[IdOf(rule)].version
  }

  /** The deletion does not reach the stored version. */
  predicate Misses(db: RuleSet, id: RuleId, version: int) {
    id in db ==> db[id].version > version
  }

  ghost predicate FetchesIdle(db: RuleSet, fetched: multiset<Fetch>, n: string) {
    forall f | f in fetched && f.node == n :: NoNews(db, f.rule)
  }

  ghost predicate WritesIdle(db: RuleSet, ops: multiset<AdminOp>, n: string) {
    && (forall op | op in ops && op.PutWritten? && op.node == n :: NoNews(db, op.rule))
    && (forall op | op in ops && (op.DropWritten? || op.DropCached?) :: Misses(db, op.id, op.version))
  }

  ghost predicate EventsIdle(db: RuleSet, events: multiset<Event>) {
    forall e | e in events && e.Deleted? :: Misses(db, e.id, e.version)
  }

  ghost predicate MailIdle(db: RuleSet, inbox: multiset<Delivery>, n: string) {
    forall d | d in inbox && d.node == n && d.event.Deleted? :: Misses(db, d.event.id, d.event.version)
  }

  /**
   * No outstanding cache write at the node would change a cache that equals the database, and no deletion that is under
   * way, or published and not marked, reaches the stored version.
   */
  ghost predicate Undisturbed(s: State, n: string) {
    && FetchesIdle(s.db, s.fetched, n) && WritesIdle(s.db, s.ops, n)
    && EventsIdle(s.db, s.rows) && EventsIdle(s.db, s.published) && MailIdle(s.db, s.inbox, n)
  }

  ghost predicate Steady(s: State, n: string) {
    && n in s.caches && s.caches[n] == s.db && (n in s.loaded ==> s.loaded[n] == s.db)
    && Keyed(s.db) && Undisturbed(s, n)
  }

  lemma IdleFetches(db: RuleSet, fetched: multiset<Fetch>, f: Fetch, n: string)
    requires FetchesIdle(db, fetched, n)
    ensures FetchesIdle(db, fetched - multiset{f}, n)
    ensures (f.node == n ==> NoNews(db, f.rule)) ==> FetchesIdle(db, fetched + multiset{f}, n)
  {
    assert forall x | x in fetched - multiset{f} :: x in fetched;
    assert forall x | x in fetched + multiset{f} :: x in fetched || x == f;
  }

  /** The call does nothing to a cache of the node that equals the database. */
  predicate OpIdle(db: RuleSet, op: AdminOp, n: string) {
    && (op.PutWritten? && op.node == n ==> NoNews(db, op.rule))
    && (op.DropWritten? || op.DropCached? ==> Misses(db, op.id, op.version))
  }

  lemma IdleWrites(db: RuleSet, ops: multiset<AdminOp>, op: AdminOp, n: string)
    requires WritesIdle(db, ops, n)
    ensures WritesIdle(db, ops - multiset{op}, n)
    ensures op in ops ==> OpIdle(db, op, n)
    ensures OpIdle(db, op, n) ==> WritesIdle(db, ops + multiset{op}, n)
  {
    hide NoNews, Misses;
    assert forall x | x in ops - multiset{op} :: x in ops;
    assert forall x | x in ops + multiset{op} :: x in ops || x == op;
  }

  lemma IdleEvents(db: RuleSet, events: multiset<Event>, e: Event)
    requires EventsIdle(db, events)
    ensures EventsIdle(db, events - multiset{e})
    ensures e in events && e.Deleted? ==> Misses(db, e.id, e.version)
    ensures (e.Deleted? ==> Misses(db, e.id, e.version)) ==> EventsIdle(db, events + multiset{e})
  {
    hide Misses;
    assert forall x | x in events - multiset{e} :: x in events;
    assert forall x | x in events + multiset{e} :: x in events || x == e;
  }

  lemma IdleMail(db: RuleSet, inbox: multiset<Delivery>, d: Delivery, n: string)
    requires MailIdle(db, inbox, n)
    ensures MailIdle(db, inbox - multiset{d}, n)
    ensures d in inbox ==> MailIdle(db, inbox + multiset{d}, n)
    ensures d in inbox && d.node == n && d.event.Deleted? ==> Misses(db, d.event.id, d.event.version)
  {
    hide Misses;
    assert forall x | x in inbox - multiset{d} :: x in inbox;
    assert forall x | x in inbox + multiset{d} :: x in inbox || x == d;
  }

  lemma MailToAllIdle(db: RuleSet, inbox: multiset<Delivery>, nodes: set<string>, e: Event, n: string)
    requires MailIdle(db, inbox, n) && (e.Deleted? ==> Misses(db, e.id, e.version))
    ensures MailIdle(db, inbox + ToAll(nodes, e), n)
  {
    hide Misses;
    ToAllHolds(nodes, e);
    assert forall x | x in inbox + ToAll(nodes, e) :: x in inbox || x.event == e;
  }

  lemma IdleUpsert(db: RuleSet, rule: Rule)
    ensures Upsert(db, rule) == db <==> NoNews(db, rule) || (IdOf(rule) in db && db[IdOf(rule)] == rule)
    ensures NoNews(db, rule) ==> Upsert(db, rule) == db
    ensures Keyed(db) && IdOf(rule) in db && db[IdOf(rule)] == rule ==> NoNews(db, rule)
  {
  }

  lemma IdleDrop(db: RuleSet, id: RuleId, version: int)
    ensures DropIfOlder(db, id, version) == db <==> Misses(db, id, version)
  {
  }

  lemma PutCachedSteady(s: State, op: AdminOp, n: string)
    requires Steady(s, n) && Enabled(s, AdminCache(op)) && op.PutWritten?
    ensures Steady(AfterPutCached(s, op), n)
  {
    hide FetchesIdle, WritesIdle, EventsIdle, MailIdle, Upsert, NoNews, Misses, Keyed;
    IdleWrites(s.db, s.ops, op, n);
    IdleWrites(s.db, s.ops - multiset{op}, PutCached(op.rule), n);
    IdleUpsert(s.db, op.rule);
  }

  lemma DropCachedSteady(s: State, op: AdminOp, n: string)
    requires Steady(s, n) && Enabled(s, AdminCache(op)) && op.DropWritten?
    ensures Steady(AfterDropCached(s, op), n)
  {
    hide FetchesIdle, WritesIdle, EventsIdle, MailIdle, DropIfOlder, NoNews, Misses, Keyed, Settled;
    IdleWrites(s.db, s.ops, op, n);
    IdleWrites(s.db, s.ops - multiset{op}, DropCached(op.id, op.version), n);
    IdleDrop(s.db, op.id, op.version);
  }

  lemma InsertSteady(s: State, op: AdminOp, n: string)
    requires Steady(s, n) && Enabled(s, AdminInsert(op))
    ensures Steady(AfterInsert(s, op), n)
  {
    hide FetchesIdle, WritesIdle, EventsIdle, MailIdle, NoNews, Misses, Keyed;
    IdleWrites(s.db, s.ops, op, n);
    IdleEvents(s.db, s.rows, EventOf(op));
  }

  lemma ReplaySteady(s: State, m: string, id: RuleId, n: string)
    requires Steady(s, n) && id in s.db
    ensures Steady(AfterReplay(s, m, id), n)
  {
    hide FetchesIdle, WritesIdle, EventsIdle, MailIdle, Misses, Others;
    IdleWrites(s.db, s.ops, PutWritten(m, s.db[id]), n);
  }

  lemma PublishSteady(s: State, e: Event, n: string)
    requires Steady(s, n) && (e in s.rows || e in s.published)
    ensures Steady(AfterPublish(s, e), n) && Steady(AfterRepublish(s, e), n)
  {
    hide FetchesIdle, WritesIdle, EventsIdle, MailIdle, Misses, Keyed, ToAll, Others;
    IdleEvents(s.db, s.rows, e);
    IdleEvents(s.db, s.published, e);
    MailToAllIdle(s.db, s.inbox, s.nodes, e, n);
  }

  lemma MarkSentSteady(s: State, e: Event, n: string)
    requires Steady(s, n)
    ensures Steady(AfterMarkSent(s, e), n)
  {
    hide FetchesIdle, WritesIdle, EventsIdle, MailIdle, Keyed;
    IdleEvents(s.db, s.published, e);
  }

  lemma DuplicateSteady(s: State, d: Delivery, n: string)
    requires Steady(s, n) && d in s.inbox
    ensures Steady(AfterDuplicate(s, d), n)
  {
    hide FetchesIdle, WritesIdle, EventsIdle, MailIdle, Keyed;
    IdleMail(s.db, s.inbox, d, n);
  }

  lemma FetchSteady(s: State, d: Delivery, n: string)
    requires Steady(s, n) && d in s.inbox
    ensures Steady(AfterFetch(s, d), n)
  {
    hide FetchesIdle, WritesIdle, EventsIdle, MailIdle, Misses;
    IdleMail(s.db, s.inbox, d, n);
    if d.event.id in s.db {
      IdleFetches(s.db, s.fetched, Fetch(d.node, s.db[d.event.id]), n);
    }
  }

  lemma DropSteady(s: State, d: Delivery, n: string)
    requires Steady(s, n) && d in s.inbox && d.node in s.caches && d.event.Deleted?
    ensures Steady(AfterDrop(s, d), n)
  {
    hide FetchesIdle, WritesIdle, EventsIdle, MailIdle, Misses, Keyed, DropIfOlder, Settled;
    IdleMail(s.db, s.inbox, d, n);
    IdleDrop(s.db, d.event.id, d.event.version);
  }

  lemma ApplySteady(s: State, f: Fetch, n: string)
    requires Steady(s, n) && f in s.fetched && f.node in s.caches
    ensures Steady(AfterApply(s, f), n)
  {
    hide WritesIdle, EventsIdle, MailIdle, Keyed, Upsert, NoNews;
    assert f.node == n ==> NoNews(s.db, f.rule);
    IdleFetches(s.db, s.fetched, f, n);
    IdleUpsert(s.db, f.rule);
  }

  lemma SyncSteady(s: State, m: string, n: string)
    requires Steady(s, n)
    ensures Steady(AfterLoad(s, m), n)
    ensures m in s.loaded && m in s.caches ==> Steady(AfterStore(s, m), n)
  {
    hide FetchesIdle, WritesIdle, EventsIdle, MailIdle, Keyed, RacedAfterStore, LaggingAfterStore;
  }

  lemma StepKeepsSteady(s: State, a: Action, n: string)
    requires Steady(s, n) && Enabled(s, a) && !Writes(a)
    ensures Steady(Next(s, a), n)
  {
    hide AfterReplay, AfterPutCached, AfterDropCached, AfterInsert, AfterPublish, AfterRepublish, AfterMarkSent;
    hide AfterDuplicate, AfterFetch, AfterDrop, AfterApply, AfterLoad, AfterStore, Steady;
    match a
    case Replay(m, id) => ReplaySteady(s, m, id, n);
    case AdminCache(op) => if op.PutWritten? { PutCachedSteady(s, op, n); } else { DropCachedSteady(s, op, n); }
    case AdminInsert(op) => InsertSteady(s, op, n);
    case Publish(e) => PublishSteady(s, e, n);
    case Republish(e) => PublishSteady(s, e, n);
    case MarkSent(e) => MarkSentSteady(s, e, n);
    case Duplicate(d) => DuplicateSteady(s, d, n);
    case Handle(d) => if d.event.Deleted? { DropSteady(s, d, n); } else { FetchSteady(s, d, n); }
    case Apply(f) => ApplySteady(s, f, n);
    case SyncLoad(m) => SyncSteady(s, m, n);
    case SyncStore(m) => SyncSteady(s, m, n);
  }

  lemma {:induction false} RunsKeepSteady(s: State, actions: seq<Action>, n: string)
    requires Steady(s, n) && IsRun(s, actions) && WriteFree(actions)
    ensures Steady(Run(s, actions), n) && Run(s, actions).db == s.db
    decreases |actions|
  {
    hide Steady, Next, Enabled, Writes;
    if actions != [] {
      assert actions[0] in actions && forall a | a in actions[1..] :: a in actions;
      StepKeepsSteady(s, actions[0], n);
      StepKeepsDb(s, actions[0]);
      RunsKeepSteady(Next(s, actions[0]), actions[1..], n);
    }
  }

  // What is not idle does change it

  lemma NowUpset(s: State, n: string, rules: RuleSet)
    requires n in s.caches && s.caches[n] != rules
    ensures !StaysEqual(s, n, rules)
  {
    assert IsRun(s, []) && WriteFree([]) && Run(s, []) == s;
  }

  lemma StepUpsets(s: State, a: Action, n: string, rules: RuleSet)
    requires Enabled(s, a) && !Writes(a) && !StaysEqual(Next(s, a), n, rules)
    ensures !StaysEqual(s, n, rules)
  {
    hide Enabled, Next, IsRun, Run;
    var t := Next(s, a);
    var after :| IsRun(t, after) && WriteFree(after)
      && !(n in Run(t, after).caches && Run(t, after).caches[n] == rules);
    Prepend(s, a, after);
    assert WriteFree([a] + after);
  }

  lemma MailUpsets(s: State, d: Delivery)
    requires Addressed(s) && d in s.inbox && d.event.Deleted? && !Misses(s.db, d.event.id, d.event.version)
    ensures !StaysEqual(s, d.node, s.db)
  {
    hide StaysEqual, Settled, Addressed;
    ByAddress(s);
    var t := Next(s, Handle(d));
    NowUpset(t, d.node, s.db);
    StepUpsets(s, Handle(d), d.node, s.db);
  }

  lemma RowUpsets(s: State, e: Event, n: string)
    requires Addressed(s) && n in s.nodes && (e in s.rows || e in s.published)
    requires e.Deleted? && !Misses(s.db, e.id, e.version)
    ensures !StaysEqual(s, n, s.db)
  {
    hide StaysEqual, Addressed, Misses, Others, ToAll;
    var a := if e in s.rows then Publish(e) else Republish(e);
    ToAllHolds(s.nodes, e);
    assert Delivery(n, e) in Next(s, a).inbox;
    StepKeepsAddressed(s, a);
    MailUpsets(Next(s, a), Delivery(n, e));
    StepUpsets(s, a, n, s.db);
  }

  lemma CachedDropUpsets(s: State, op: AdminOp, n: string)
    requires Addressed(s) && n in s.nodes && op in s.ops && op.DropCached? && !Misses(s.db, op.id, op.version)
    ensures !StaysEqual(s, n, s.db)
  {
    hide StaysEqual, Addressed, Misses;
    var a := AdminInsert(op);
    assert Deleted(op.id, op.version) in Next(s, a).rows;
    StepKeepsAddressed(s, a);
    RowUpsets(Next(s, a), Deleted(op.id, op.version), n);
    StepUpsets(s, a, n, s.db);
  }

  lemma WrittenDropUpsets(s: State, op: AdminOp, n: string)
    requires Addressed(s) && n in s.nodes && op in s.ops && op.DropWritten? && !Misses(s.db, op.id, op.version)
    ensures !StaysEqual(s, n, s.db)
  {
    hide StaysEqual, Addressed, Misses, DropIfOlder, Settled;
    ByAddress(s);
    var a := AdminCache(op);
    assert DropCached(op.id, op.version) in Next(s, a).ops;
    StepKeepsAddressed(s, a);
    CachedDropUpsets(Next(s, a), DropCached(op.id, op.version), n);
    StepUpsets(s, a, n, s.db);
  }

  lemma NewsUpsets(db: RuleSet, rule: Rule)
    requires Keyed(db) && !NoNews(db, rule)
    ensures Upsert(db, rule) != db
  {
    IdleUpsert(db, rule);
  }

  lemma FetchUpsets(s: State, f: Fetch)
    requires f in s.fetched && f.node in s.caches && s.caches[f.node] == s.db && Keyed(s.db) && !NoNews(s.db, f.rule)
    ensures !StaysEqual(s, f.node, s.db)
  {
    hide StaysEqual, Keyed, NoNews, Upsert;
    NewsUpsets(s.db, f.rule);
    NowUpset(Next(s, Apply(f)), f.node, s.db);
    StepUpsets(s, Apply(f), f.node, s.db);
  }

  lemma WriteUpsets(s: State, op: AdminOp)
    requires op in s.ops && op.PutWritten? && op.node in s.caches && s.caches[op.node] == s.db
    requires Keyed(s.db) && !NoNews(s.db, op.rule)
    ensures !StaysEqual(s, op.node, s.db)
  {
    hide StaysEqual, Keyed, NoNews, Upsert;
    NewsUpsets(s.db, op.rule);
    NowUpset(Next(s, AdminCache(op)), op.node, s.db);
    StepUpsets(s, AdminCache(op), op.node, s.db);
  }

  lemma DisturbedUpsets(s: State, n: string)
    requires Addressed(s) && Keyed(s.db) && n in s.nodes && n in s.caches && s.caches[n] == s.db && !Undisturbed(s, n)
    ensures !StaysEqual(s, n, s.db)
  {
    hide StaysEqual, Addressed, Keyed, NoNews, Misses;
    if !FetchesIdle(s.db, s.fetched, n) {
      var f :| f in s.fetched && f.node == n && !NoNews(s.db, f.rule);
      FetchUpsets(s, f);
    } else if !WritesIdle(s.db, s.ops, n) {
      if op :| op in s.ops && op.PutWritten? && op.node == n && !NoNews(s.db, op.rule) {
        WriteUpsets(s, op);
      } else {
        var op :| op in s.ops && (op.DropWritten? || op.DropCached?) && !Misses(s.db, op.id, op.version);
        if op.DropWritten? {
          WrittenDropUpsets(s, op, n);
        } else {
          CachedDropUpsets(s, op, n);
        }
      }
    } else if !EventsIdle(s.db, s.rows) {
      var e :| e in s.rows && e.Deleted? && !Misses(s.db, e.id, e.version);
      RowUpsets(s, e, n);
    } else if !EventsIdle(s.db, s.published) {
      var e :| e in s.published && e.Deleted? && !Misses(s.db, e.id, e.version);
      RowUpsets(s, e, n);
    } else {
      var d :| d in s.inbox && d.node == n && d.event.Deleted? && !Misses(s.db, d.event.id, d.event.version);
      MailUpsets(s, d);
    }
  }

  lemma SteadyIff(s: State, n: string)
    requires Addressed(s) && Keyed(s.db) && n in s.nodes && n in s.caches && s.caches[n] == s.db && n !in s.loaded
    ensures StaysEqual(s, n, s.db) <==> Undisturbed(s, n)
  {
    hide Addressed, Keyed, Undisturbed, IsRun, Run, WriteFree;
    if Undisturbed(s, n) {
      forall after | IsRun(s, after) && WriteFree(after)
        ensures n in Run(s, after).caches && Run(s, after).caches[n] == s.db
      {
        RunsKeepSteady(s, after, n);
      }
    } else {
      DisturbedUpsets(s, n);
    }
  }

  lemma StoreKeepsUnderWay(s: State, n: string)
    requires n in s.loaded && n in s.caches && s.loaded[n] == s.db
    ensures var t := AfterStore(s, n);
            && t.caches == s.caches[n := s.db] && n !in t.loaded && t.db == s.db && t.nodes == s.nodes
            && (Undisturbed(t, n) <==> Undisturbed(s, n))
  {
    hide FetchesIdle, WritesIdle, EventsIdle, MailIdle, RacedAfterStore, LaggingAfterStore;
  }

  /**
   * After any run at all, a stored list that was loaded after the last write stays in the cache until the next write if
   * and only if no outstanding cache write at the node would change it, and no deletion under way, or published and not
   * marked, reaches a stored version.
   */
  lemma StoredListStaysIff(nodes: set<string>, before: seq<Action>, n: string)
    requires n in nodes && IsRun(Start(nodes), before)
    requires var s := Run(Start(nodes), before); n in s.loaded && s.loaded[n] == s.db
    ensures var s := Run(Start(nodes), before);
            && Enabled(s, SyncStore(n)) && Next(s, SyncStore(n)).caches[n] == s.db
            && (StaysEqual(Next(s, SyncStore(n)), n, s.db) <==> Undisturbed(s, n))
  {
    hide IsRun, Run, Start, Addressed, Keyed, StaysEqual, Undisturbed, AfterStore;
    ReachedAddressed(nodes, before);
    ReachedKeyed(nodes, before);
    var s := Run(Start(nodes), before);
    ByAddress(s);
    StoreKeepsUnderWay(s, n);
    StepKeepsAddressed(s, SyncStore(n));
    SteadyIff(Next(s, SyncStore(n)), n);
  }

  // Repair

  lemma SyncOne(s: State, n: string)
    requires Quiescent(s) && n in s.nodes && n in s.caches
    ensures var actions := [SyncLoad(n), SyncStore(n)];
            && IsRun(s, actions) && WriteFree(actions)
            && var t := Run(s, actions);
               Quiescent(t) && t.db == s.db && t.nodes == s.nodes && t.caches == s.caches[n := s.db]
  {
    hide IsRun, Run, RacedAfterStore, LaggingAfterStore;
    var t := Next(s, SyncLoad(n));
    var u := Next(t, SyncStore(n));
    assert s.loaded[n := s.db] - {n} == s.loaded;
    OneStep(t, SyncStore(n));
    Prepend(s, SyncLoad(n), [SyncStore(n)]);
    assert [SyncLoad(n)] + [SyncStore(n)] == [SyncLoad(n), SyncStore(n)];
  }

  lemma {:induction false} SyncAll(s: State, todo: set<string>) returns (actions: seq<Action>)
    requires Quiescent(s) && todo <= s.nodes && s.caches.Keys == s.nodes
    ensures IsRun(s, actions) && WriteFree(actions)
    ensures var t := Run(s, actions);
            && Quiescent(t) && t.db == s.db && t.nodes == s.nodes && t.caches.Keys == s.nodes
            && forall n | n in s.nodes :: t.caches[n] == if n in todo then s.db else s.caches[n]
    decreases todo
  {
    hide IsRun, Run, Quiescent;
    if todo == {} {
      Idle(s);
      return [];
    }
    var n :| n in todo;
    SyncOne(s, n);
    var first := [SyncLoad(n), SyncStore(n)];
    var rest := SyncAll(Run(s, first), todo - {n});
    RunAppend(s, first, rest);
    actions := first + rest;
  }

  lemma Idle(s: State)
    ensures IsRun(s, []) && WriteFree([]) && Run(s, []) == s
  {
  }

  /**
   * After any run at all there is a continuation without writes that ends with nothing under way and every cache equal
   * to the database as it is now.
   */
  lemma EveryRunCanBeRepaired(nodes: set<string>, before: seq<Action>) returns (more: seq<Action>)
    requires IsRun(Start(nodes), before)
    ensures var s := Run(Start(nodes), before);
            && IsRun(s, more) && WriteFree(more)
            && var t := Run(s, more);
               Quiescent(t) && t.db == s.db && forall n | n in nodes :: n in t.caches && t.caches[n] == s.db
  {
    hide IsRun, Run, Start, Addressed, Holds, Waits, Finished, Quiescent;
    ReachedAddressed(nodes, before);
    var s := Run(Start(nodes), before);
    NothingHeld(s);
    var drain := Drains(s, NOTHING);
    var t := Run(s, drain);
    NothingHeld(t);
    RunsKeepAddressed(s, drain);
    WaitingKeeps(s, drain, NOTHING);
    CachesEverywhere(t);
    var sync := SyncAll(t, nodes);
    RunAppend(s, drain, sync);
    more := drain + sync;
  }

  lemma CachesEverywhere(s: State)
    requires Addressed(s)
    ensures s.caches.Keys == s.nodes
  {
  }
}
