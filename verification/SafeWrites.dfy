/** Exactly when a write can be made without the risk that some cache ends up wrong. */
module SafeWrites {
  import opened Rules
  import opened Propagation
  import opened PropagationSteps
  import opened PropagationCoverage
  import opened Convergence
  import opened Sync
  import opened Drain

  /** Some continuation without writes ends with nothing under way and the cache of the node wrong about the rule. */
  ghost predicate CanEndWrong(s: State, n: string, id: RuleId) {
    exists more :: IsRun(s, more) && WriteFree(more) && Quiescent(Run(s, more)) && !Agrees(Run(s, more), n, id)
  }

  lemma WrongEnd(s: State, more: seq<Action>, n: string, id: RuleId)
    requires IsRun(s, more) && WriteFree(more) && Quiescent(Run(s, more)) && !Agrees(Run(s, more), n, id)
    ensures CanEndWrong(s, n, id)
  {
  }

  lemma StepFirst(s: State, a: Action, n: string, id: RuleId)
    requires Enabled(s, a) && !Writes(a) && CanEndWrong(Next(s, a), n, id)
    ensures CanEndWrong(s, n, id)
  {
    hide Enabled, Next, IsRun, Run, Quiescent, Agrees;
    var t := Next(s, a);
    var more :| IsRun(t, more) && WriteFree(more) && Quiescent(Run(t, more)) && !Agrees(Run(t, more), n, id);
    Prepend(s, a, more);
    WrongEnd(s, [a] + more, n, id);
  }

  lemma RunFirst(s: State, actions: seq<Action>, n: string, id: RuleId)
    requires IsRun(s, actions) && WriteFree(actions) && CanEndWrong(Run(s, actions), n, id)
    ensures CanEndWrong(s, n, id)
  {
    hide IsRun, Run, Quiescent, Agrees;
    var t := Run(s, actions);
    var more :| IsRun(t, more) && WriteFree(more) && Quiescent(Run(t, more)) && !Agrees(Run(t, more), n, id);
    RunAppend(s, actions, more);
    WrongEnd(s, actions + more, n, id);
  }

  lemma EndsNow(s: State, n: string, id: RuleId)
    requires Quiescent(s) && !Agrees(s, n, id)
    ensures CanEndWrong(s, n, id)
  {
    WrongEnd(s, [], n, id);
  }

  // What comes last decides

  const NO_OPS: multiset<AdminOp> := multiset{}
  const NO_MAIL: multiset<Delivery> := multiset{}
  const NO_FETCH: multiset<Fetch> := multiset{}

  function HeldMail(d: Delivery): Held { Held(NO_OPS, multiset{d}, NO_FETCH, {}) }
  function HeldFetch(f: Fetch): Held { Held(NO_OPS, NO_MAIL, multiset{f}, {}) }
  function HeldList(n: string): Held { Held(NO_OPS, NO_MAIL, NO_FETCH, {n}) }
  function HeldOp(op: AdminOp): Held { Held(multiset{op}, NO_MAIL, NO_FETCH, {}) }

  lemma DrainFirst(s: State, held: Held) returns (t: State)
    requires Addressed(s) && Holds(s, held)
    ensures Addressed(t) && Finished(t, held) && t.db == s.db && t.nodes == s.nodes
    ensures forall n | n in held.lists :: n in s.loaded && n in t.loaded && t.loaded[n] == s.loaded[n]
    ensures forall n, id :: CanEndWrong(t, n, id) ==> CanEndWrong(s, n, id)
  {
    hide IsRun, Run, Addressed, Holds, Finished, Waits, CanEndWrong, WriteFree;
    var actions := Drains(s, held);
    RunsKeepAddressed(s, actions);
    WaitingKeeps(s, actions, held);
    t := Run(s, actions);
    forall n, id | CanEndWrong(t, n, id)
      ensures CanEndWrong(s, n, id)
    {
      RunFirst(s, actions, n, id);
    }
  }

  lemma LastMail(s: State, d: Delivery)
    requires Addressed(s) && Finished(s, HeldMail(d)) && d.event.Deleted?
    requires d.event.id in s.db && s.db[d.event.id].version <= d.event.version
    ensures CanEndWrong(s, d.node, d.event.id)
  {
    hide CanEndWrong, IsRun, Run, Settled, Addressed;
    assert d in s.inbox && s.inbox - multiset{d} == NO_MAIL;
    ByAddress(s);
    var t := Next(s, Handle(d));
    assert s.loaded.Keys == {} ==> s.loaded == map[];
    EndsNow(t, d.node, d.event.id);
    StepFirst(s, Handle(d), d.node, d.event.id);
  }

  /** A deletion that is handled last takes the stored rule out of the cache. */
  lemma MailLast(s: State, d: Delivery)
    requires Addressed(s) && d in s.inbox && d.event.Deleted?
    requires d.event.id in s.db && s.db[d.event.id].version <= d.event.version
    ensures CanEndWrong(s, d.node, d.event.id)
  {
    hide Addressed, Finished, CanEndWrong;
    var t := DrainFirst(s, HeldMail(d));
    LastMail(t, d);
  }

  lemma LastFetch(s: State, f: Fetch)
    requires Addressed(s) && Finished(s, HeldFetch(f)) && IdOf(f.rule) !in s.db
    ensures CanEndWrong(s, f.node, IdOf(f.rule))
  {
    hide CanEndWrong, IsRun, Run, Addressed;
    assert f in s.fetched && s.fetched - multiset{f} == NO_FETCH;
    ByAddress(s);
    assert s.loaded.Keys == {} ==> s.loaded == map[];
    EndsNow(Next(s, Apply(f)), f.node, IdOf(f.rule));
    StepFirst(s, Apply(f), f.node, IdOf(f.rule));
  }

  /** A handler that writes last brings a deleted rule back. */
  lemma FetchLast(s: State, f: Fetch)
    requires Addressed(s) && f in s.fetched && IdOf(f.rule) !in s.db
    ensures CanEndWrong(s, f.node, IdOf(f.rule))
  {
    hide Addressed, Finished, CanEndWrong;
    var t := DrainFirst(s, HeldFetch(f));
    LastFetch(t, f);
  }

  /** The list of the node and the database agree on the rule. */
  predicate ListAgrees(s: State, n: string, id: RuleId)
    requires n in s.loaded
  {
    (id in s.loaded[n] <==> id in s.db) && (id in s.db ==> s.loaded[n][id] == s.db[id])
  }

  lemma LastList(s: State, n: string, id: RuleId)
    requires Addressed(s) && Finished(s, HeldList(n)) && n in s.loaded && !ListAgrees(s, n, id)
    ensures CanEndWrong(s, n, id)
  {
    hide CanEndWrong, IsRun, Run, Addressed, RacedAfterStore, LaggingAfterStore;
    ByAddress(s);
    assert s.loaded - {n} == map[];
    EndsNow(Next(s, SyncStore(n)), n, id);
    StepFirst(s, SyncStore(n), n, id);
  }

  /** A list that is stored last leaves whatever it is wrong about. */
  lemma ListLast(s: State, n: string, id: RuleId)
    requires Addressed(s) && n in s.loaded && !ListAgrees(s, n, id)
    ensures CanEndWrong(s, n, id)
  {
    hide Addressed, Finished, CanEndWrong;
    var t := DrainFirst(s, HeldList(n));
    LastList(t, n, id);
  }

  // A cache that no delivery corrects

  /** The cache is wrong about the rule, and nothing under way will correct it. */
  ghost predicate Stuck(s: State, n: string, id: RuleId) {
    && n in s.nodes && n in s.caches && id in s.caches[n] && n !in s.loaded && !DropComing(s, n, id)
    && (id in s.db ==> s.caches[n][id] != s.db[id] && s.caches[n][id].version >= s.db[id].version)
  }

  /** The cache keeps a copy at least as new as this one. */
  predicate AtLeast(was: RuleSet, now: RuleSet, id: RuleId) {
    id in was ==> id in now && (now[id] == was[id] || now[id].version > was[id].version)
  }

  lemma StuckStays(s: State, t: State, n: string, id: RuleId)
    requires Stuck(s, n, id) && t.nodes == s.nodes && t.db == s.db && n in t.caches && n !in t.loaded
    requires !DropComing(t, n, id) && AtLeast(s.caches[n], t.caches[n], id)
    ensures Stuck(t, n, id)
  {
    hide DropComing;
  }

  lemma UpsertAtLeast(rules: RuleSet, rule: Rule, id: RuleId)
    ensures AtLeast(rules, Upsert(rules, rule), id)
  {
  }

  lemma PutCachedStuck(s: State, op: AdminOp, n: string, id: RuleId)
    requires Stuck(s, n, id) && Enabled(s, AdminCache(op)) && op.PutWritten?
    ensures Stuck(AfterPutCached(s, op), n, id)
  {
    hide AfterPutCached, DropOpFor, DropRowFor, DropMailFor, Upsert, AtLeast, PutOpFor, WriteOut;
    PutCachedMoves(s, op, n, id);
    UpsertAtLeast(s.caches[op.node], op.rule, id);
    SameAtLeast(s.caches[n], id);
    StuckStays(s, AfterPutCached(s, op), n, id);
  }

  lemma SameAtLeast(rules: RuleSet, id: RuleId)
    ensures AtLeast(rules, rules, id)
  {
  }

  lemma OtherDropAtLeast(rules: RuleSet, other: RuleId, version: int, id: RuleId)
    requires other != id
    ensures AtLeast(rules, DropIfOlder(rules, other, version), id)
  {
  }

  lemma DropCachedStuck(s: State, op: AdminOp, n: string, id: RuleId)
    requires Stuck(s, n, id) && Enabled(s, AdminCache(op)) && op.DropWritten?
    ensures Stuck(AfterDropCached(s, op), n, id)
  {
    hide AfterDropCached, DropOpFor, DropRowFor, DropMailFor, DropIfOlder, AtLeast, PutOpFor, WriteOut, Settled;
    OpTaken(s.ops, op, n, id);
    DropCachedMoves(s, op, n, id);
    OtherDropAtLeast(s.caches[op.node], op.id, op.version, id);
    SameAtLeast(s.caches[n], id);
    StuckStays(s, AfterDropCached(s, op), n, id);
  }

  lemma InsertStuck(s: State, op: AdminOp, n: string, id: RuleId)
    requires Stuck(s, n, id) && Enabled(s, AdminInsert(op))
    ensures Stuck(AfterInsert(s, op), n, id)
  {
    hide AfterInsert, DropOpFor, DropRowFor, DropMailFor, PutOpFor, PutRowFor, WriteOut;
    InsertMoves(s, op, n, id);
  }

  lemma PublishStuck(s: State, e: Event, n: string, id: RuleId)
    requires Stuck(s, n, id) && Enabled(s, Publish(e))
    ensures Stuck(AfterPublish(s, e), n, id)
  {
    hide DropOpFor, DropRowFor, DropMailFor, PutRowFor, PutMailFor, ToAll;
    MailToAll(s.inbox, s.nodes, e, n, id);
    RowTaken(s.rows, e, id);
  }

  lemma HandleStuck(s: State, d: Delivery, n: string, id: RuleId)
    requires Stuck(s, n, id) && Enabled(s, Handle(d))
    ensures Stuck(Next(s, Handle(d)), n, id)
  {
    hide DropOpFor, DropRowFor, DropMailFor, PutMailFor, DropIfOlder, Settled, AtLeast;
    MailTaken(s.inbox, d, n, id);
    SameAtLeast(s.caches[n], id);
    if d.event.Deleted? && d.event.id != id {
      OtherDropAtLeast(s.caches[d.node], d.event.id, d.event.version, id);
    }
    StuckStays(s, Next(s, Handle(d)), n, id);
  }

  lemma ApplyStuck(s: State, f: Fetch, n: string, id: RuleId)
    requires Stuck(s, n, id) && Enabled(s, Apply(f))
    ensures Stuck(AfterApply(s, f), n, id)
  {
    hide DropOpFor, DropRowFor, DropMailFor, Upsert, AtLeast;
    SameAtLeast(s.caches[n], id);
    UpsertAtLeast(s.caches[f.node], f.rule, id);
    StuckStays(s, AfterApply(s, f), n, id);
  }

  lemma StoreStuck(s: State, m: string, n: string, id: RuleId)
    requires Stuck(s, n, id) && Enabled(s, SyncStore(m))
    ensures Stuck(AfterStore(s, m), n, id)
  {
    hide DropOpFor, DropRowFor, DropMailFor, RacedAfterStore, LaggingAfterStore;
  }

  lemma StepStuck(s: State, a: Action, n: string, id: RuleId)
    requires Stuck(s, n, id) && Enabled(s, a) && Delivers(a)
    ensures Stuck(Next(s, a), n, id)
  {
    hide AfterPutCached, AfterDropCached, AfterInsert, AfterPublish, AfterFetch, AfterDrop, AfterApply, AfterStore;
    hide Stuck;
    match a
    case AdminCache(op) => if op.PutWritten? { PutCachedStuck(s, op, n, id); } else { DropCachedStuck(s, op, n, id); }
    case AdminInsert(op) => InsertStuck(s, op, n, id);
    case Publish(e) => PublishStuck(s, e, n, id);
    case Handle(d) => HandleStuck(s, d, n, id);
    case Apply(f) => ApplyStuck(s, f, n, id);
    case SyncStore(m) => StoreStuck(s, m, n, id);
  }

  lemma {:induction false} RunsStuck(s: State, actions: seq<Action>, held: Held, n: string, id: RuleId)
    requires Stuck(s, n, id) && IsRun(s, actions) && Waits(s, actions, held)
    ensures Stuck(Run(s, actions), n, id)
    decreases |actions|
  {
    hide Stuck, Next, Enabled, Delivers, Holds;
    if actions != [] {
      StepStuck(s, actions[0], n, id);
      RunsStuck(Next(s, actions[0]), actions[1..], held, n, id);
    }
  }

  lemma StuckEndsWrong(s: State, n: string, id: RuleId)
    requires Addressed(s) && Stuck(s, n, id)
    ensures CanEndWrong(s, n, id)
  {
    hide IsRun, Run, Addressed, Finished, Waits, CanEndWrong, Holds, Quiescent;
    NothingHeld(s);
    var actions := Drains(s, NOTHING);
    var t := Run(s, actions);
    NothingHeld(t);
    RunsStuck(s, actions, NOTHING, n, id);
    WaitingKeeps(s, actions, NOTHING);
    assert !Agrees(t, n, id);
    EndsNow(t, n, id);
    RunFirst(s, actions, n, id);
  }

  lemma LastOp(s: State, op: AdminOp)
    requires Addressed(s) && Finished(s, HeldOp(op)) && op.PutWritten? && IdOf(op.rule) !in s.db
    ensures CanEndWrong(s, op.node, IdOf(op.rule))
  {
    hide CanEndWrong, IsRun, Run;
    assert op in s.ops && s.ops - multiset{op} == NO_OPS;
    var t := Next(s, AdminCache(op));
    assert t.ops == multiset{PutCached(op.rule)};
    assert s.loaded.Keys == {} ==> s.loaded == map[];
    StepKeepsAddressed(s, AdminCache(op));
    assert Stuck(t, op.node, IdOf(op.rule));
    StuckEndsWrong(t, op.node, IdOf(op.rule));
    StepFirst(s, AdminCache(op), op.node, IdOf(op.rule));
  }

  /** An admin call that writes its cache last brings a deleted rule back. */
  lemma OpLast(s: State, op: AdminOp)
    requires Addressed(s) && op in s.ops && op.PutWritten? && IdOf(op.rule) !in s.db
    ensures CanEndWrong(s, op.node, IdOf(op.rule))
  {
    hide Addressed, Finished, CanEndWrong;
    var t := DrainFirst(s, HeldOp(op));
    LastOp(t, op);
  }

  // A deletion of an earlier life, wherever it is

  lemma RowLast(s: State, e: Event, n: string)
    requires Addressed(s) && n in s.nodes && (e in s.rows || e in s.published) && e.Deleted?
    requires e.id in s.db && s.db[e.id].version <= e.version
    ensures CanEndWrong(s, n, e.id)
  {
    hide Addressed, CanEndWrong, IsRun, Run, Others;
    var a := if e in s.rows then Publish(e) else Republish(e);
    ToAllHolds(s.nodes, e);
    hide ToAll;
    assert Delivery(n, e) in Next(s, a).inbox;
    StepKeepsAddressed(s, a);
    MailLast(Next(s, a), Delivery(n, e));
    StepFirst(s, a, n, e.id);
  }

  lemma CachedDropLast(s: State, op: AdminOp, n: string)
    requires Addressed(s) && n in s.nodes && op in s.ops && op.DropCached?
    requires op.id in s.db && s.db[op.id].version <= op.version
    ensures CanEndWrong(s, n, op.id)
  {
    hide Addressed, CanEndWrong, IsRun, Run;
    var a := AdminInsert(op);
    assert Deleted(op.id, op.version) in Next(s, a).rows;
    StepKeepsAddressed(s, a);
    RowLast(Next(s, a), Deleted(op.id, op.version), n);
    StepFirst(s, a, n, op.id);
  }

  lemma WrittenDropLast(s: State, op: AdminOp, n: string)
    requires Addressed(s) && n in s.nodes && op in s.ops && op.DropWritten?
    requires op.id in s.db && s.db[op.id].version <= op.version
    ensures CanEndWrong(s, n, op.id)
  {
    hide Addressed, CanEndWrong, IsRun, Run, DropIfOlder, Settled;
    ByAddress(s);
    var a := AdminCache(op);
    assert DropCached(op.id, op.version) in Next(s, a).ops;
    StepKeepsAddressed(s, a);
    CachedDropLast(Next(s, a), DropCached(op.id, op.version), n);
    StepFirst(s, a, n, op.id);
  }

  /** Some deletion of the rule is under way. */
  ghost predicate DropPending(s: State, id: RuleId) {
    DropOpFor(s.ops, id) || DropRowFor(s.rows, id) || DropRowFor(s.published, id)
    || exists n: string :: DropMailFor(s.inbox, n, id)
  }

  /** Every deletion of the rule under way names this version or a newer one. */
  ghost predicate DropsFrom(s: State, id: RuleId, version: int) {
    && (forall op | op in s.ops && DropsFor(op, id) :: op.version >= version)
    && (forall e | (e in s.rows || e in s.published) && e.Deleted? && e.id == id :: e.version >= version)
    && (forall d | d in s.inbox && d.event.Deleted? && d.event.id == id :: d.event.version >= version)
  }

  lemma DropPendingEndsWrong(s: State, id: RuleId, m: string)
    requires Addressed(s) && m in s.nodes && id in s.db && DropPending(s, id) && DropsFrom(s, id, s.db[id].version)
    ensures exists n :: n in s.nodes && CanEndWrong(s, n, id)
  {
    hide CanEndWrong, Addressed;
    if DropOpFor(s.ops, id) {
      var op :| op in s.ops && (op.DropWritten? || op.DropCached?) && op.id == id;
      assert DropsFor(op, id);
      if op.DropWritten? {
        WrittenDropLast(s, op, m);
      } else {
        CachedDropLast(s, op, m);
      }
    } else if DropRowFor(s.rows, id) {
      var e :| e in s.rows && e.Deleted? && e.id == id;
      RowLast(s, e, m);
    } else if DropRowFor(s.published, id) {
      var e :| e in s.published && e.Deleted? && e.id == id;
      RowLast(s, e, m);
    } else {
      var n: string :| DropMailFor(s.inbox, n, id);
      var d :| d in s.inbox && d.node == n && d.event.Deleted? && d.event.id == id;
      MailIsAddressed(s, d);
      MailLast(s, d);
    }
  }

  lemma MailIsAddressed(s: State, d: Delivery)
    requires Addressed(s) && d in s.inbox
    ensures d.node in s.nodes
  {
  }

  // Deletions

  lemma OutstandingIsAddressed(s: State, n: string, id: RuleId)
    requires Addressed(s) && Outstanding(s, n, id)
    ensures n in s.nodes
  {
  }

  /** A deletion while a cache write is outstanding: the write can come last. */
  lemma RacingDeletionEndsWrong(s: State, m: string, n: string, id: RuleId)
    requires Addressed(s) && Enabled(s, WriteDelete(m, id)) && Outstanding(s, n, id)
    ensures CanEndWrong(Next(s, WriteDelete(m, id)), n, id)
  {
    hide Addressed, CanEndWrong, Others;
    var t := Next(s, WriteDelete(m, id));
    StepKeepsAddressed(s, WriteDelete(m, id));
    if FetchOut(s.fetched, n, id) {
      var f :| f in s.fetched && f.node == n && IdOf(f.rule) == id;
      FetchLast(t, f);
    } else if WriteOut(s.ops, n, id) {
      var op :| op in s.ops && op.PutWritten? && op.node == n && IdOf(op.rule) == id;
      assert op in t.ops;
      OpLast(t, op);
    } else {
      ListLast(t, n, id);
    }
  }

  // Creations and updates

  /** No copy that is cached, listed or on its way is the very rule that is written. */
  ghost predicate Novel(s: State, rule: Rule) {
    var id := IdOf(rule);
    && (forall n | n in s.caches && id in s.caches[n] :: s.caches[n][id] != rule)
    && (forall n | n in s.loaded && id in s.loaded[n] :: s.loaded[n][id] != rule)
    && (forall f | f in s.fetched :: f.rule != rule)
    && (forall op | op in s.ops && op.PutWritten? :: op.rule != rule)
  }

  /** Only the stored rule is missing from what is known. */
  lemma NextVersionIsNovel(s: State, rule: Rule)
    requires Sound(s) && IdOf(rule) !in s.dead
    requires IdOf(rule) in s.db ==> rule.version == s.db[IdOf(rule)].version + 1
    ensures Novel(s, rule)
  {
    assert !Known(s.db, s.dead, rule);
    hide Known;
    forall n | n in s.caches
      ensures CacheSound(s.db, s.dead, s.caches[n])
    {
    }
    forall n | n in s.loaded
      ensures CacheSound(s.db, s.dead, s.loaded[n])
    {
    }
  }

  lemma StaleListEndsWrong(s: State, n: string, rule: Rule, m: string)
    requires Addressed(s) && m in s.nodes && n in s.loaded && Novel(s, rule)
    requires Addressed(AfterPut(s, m, rule))
    ensures CanEndWrong(AfterPut(s, m, rule), n, IdOf(rule))
  {
    hide Addressed, CanEndWrong, Others;
    ListLast(AfterPut(s, m, rule), n, IdOf(rule));
  }

  /** A copy of an earlier life is in a cache, or its cache write is outstanding, and no deletion is under way. */
  lemma LeftoverEndsWrong(s: State, n: string, rule: Rule, m: string)
    requires Inv(s) && Addressed(s) && m in s.nodes && rule.version == 1 && Novel(s, rule) && n !in s.loaded
    requires IdOf(rule) !in s.db && !DropPending(s, IdOf(rule))
    requires Outstanding(s, n, IdOf(rule)) || (n in s.caches && IdOf(rule) in s.caches[n])
    requires Addressed(AfterPut(s, m, rule))
    ensures n in s.nodes && CanEndWrong(AfterPut(s, m, rule), n, IdOf(rule))
  {
    hide CanEndWrong, Inv, Addressed, Upsert, PutOpFor, DropRowFor, DropMailFor;
    var id := IdOf(rule);
    var t := AfterPut(s, m, rule);
    LeftoverIsHere(s, n, id);
    OpAdded(s.ops, PutWritten(m, rule), n, id);
    if id in s.caches[n] {
      KnownCopy(s, n, id);
      StuckEndsWrong(t, n, id);
    } else if FetchOut(s.fetched, n, id) {
      var f :| f in s.fetched && f.node == n && IdOf(f.rule) == id;
      FetchedIsKnown(s, f);
      AppliedIsStuck(t, f);
    } else {
      var op :| op in s.ops && op.PutWritten? && op.node == n && IdOf(op.rule) == id;
      WrittenIsKnown(s, op);
      assert op in t.ops;
      CachedIsStuck(t, op);
    }
  }

  lemma LeftoverIsHere(s: State, n: string, id: RuleId)
    requires Inv(s) && Addressed(s) && (Outstanding(s, n, id) || (n in s.caches && id in s.caches[n]))
    ensures n in s.nodes && n in s.caches
  {
    hide Tracked, DeletionsTrue, Outstanding, CachesSound, FetchedSound, OpsSound;
    if Outstanding(s, n, id) {
      OutstandingIsAddressed(s, n, id);
    }
  }

  lemma KnownCopy(s: State, n: string, id: RuleId)
    requires Inv(s) && n in s.caches && id in s.caches[n]
    ensures s.caches[n][id].version >= 1
  {
    hide Tracked, DeletionsTrue, Sound;
    CacheKnows(s, n, id);
  }

  lemma AppliedIsStuck(t: State, f: Fetch)
    requires Addressed(t) && f in t.fetched && f.node in t.nodes && f.node in t.caches && f.node !in t.loaded
    requires !DropComing(t, f.node, IdOf(f.rule)) && IdOf(f.rule) !in t.caches[f.node]
    requires IdOf(f.rule) in t.db && f.rule != t.db[IdOf(f.rule)] && f.rule.version >= t.db[IdOf(f.rule)].version
    ensures CanEndWrong(t, f.node, IdOf(f.rule))
  {
    hide CanEndWrong, Addressed, DropOpFor, DropRowFor, DropMailFor;
    StepKeepsAddressed(t, Apply(f));
    StuckEndsWrong(Next(t, Apply(f)), f.node, IdOf(f.rule));
    StepFirst(t, Apply(f), f.node, IdOf(f.rule));
  }

  lemma CachedIsStuck(t: State, op: AdminOp)
    requires Addressed(t) && op in t.ops && op.PutWritten?
    requires op.node in t.nodes && op.node in t.caches && op.node !in t.loaded
    requires !DropComing(t, op.node, IdOf(op.rule)) && IdOf(op.rule) !in t.caches[op.node]
    requires IdOf(op.rule) in t.db && op.rule != t.db[IdOf(op.rule)] && op.rule.version >= t.db[IdOf(op.rule)].version
    ensures CanEndWrong(t, op.node, IdOf(op.rule))
  {
    hide CanEndWrong, Addressed, DropOpFor, DropRowFor, DropMailFor, PutOpFor, WriteOut, AfterPutCached;
    StepKeepsAddressed(t, AdminCache(op));
    PutCachedMoves(t, op, op.node, IdOf(op.rule));
    StuckEndsWrong(Next(t, AdminCache(op)), op.node, IdOf(op.rule));
    StepFirst(t, AdminCache(op), op.node, IdOf(op.rule));
  }

  // When nothing can go wrong

  /** The spot is settled everywhere, and every list still to be stored is right about the rule. */
  ghost predicate OnPace(s: State, id: RuleId) {
    && (forall n | n in s.nodes :: Settles(s, n, id))
    && (forall n | n in s.loaded :: ListAgrees(s, n, id))
  }

  lemma StepKeepsPace(s: State, a: Action, id: RuleId)
    requires Enabled(s, a) && !Writes(a) && OnPace(s, id)
    ensures OnPace(Next(s, a), id)
  {
    hide AfterPutCached, AfterInsert, AfterPublish, AfterMarkSent, AfterDuplicate, AfterFetch, AfterApply;
    hide AfterDropCached, AfterDrop, Outstanding, PutComing, FetchOut, WriteOut, ToAll;
    if a.AdminCache? && a.op.DropWritten? {
      DropCachedEffects(s, a.op);
    } else if a.Handle? && a.delivery.event.Deleted? {
      DropEffects(s, a.delivery);
    }
  }

  lemma {:induction false} RunsKeepPace(s: State, actions: seq<Action>, id: RuleId)
    requires IsRun(s, actions) && WriteFree(actions) && OnPace(s, id)
    ensures OnPace(Run(s, actions), id) && CleanRun(s, actions)
    decreases |actions|
  {
    hide Next, Enabled, OnPace, Writes;
    if actions != [] {
      assert actions[0] in actions && forall a | a in actions[1..] :: a in actions;
      StepKeepsPace(s, actions[0], id);
      NotCreating(s, actions[0]);
      RunsKeepPace(Next(s, actions[0]), actions[1..], id);
    }
  }

  lemma OnPaceEndsRight(s: State, n: string, id: RuleId)
    requires Inv(s) && OnPace(s, id) && n in s.nodes
    ensures !CanEndWrong(s, n, id)
  {
    hide Inv, IsRun, Run, CleanRun, Quiescent, Agrees, WriteFree;
    forall more | IsRun(s, more) && WriteFree(more) && Quiescent(Run(s, more))
      ensures Agrees(Run(s, more), n, id)
    {
      RunsKeepPace(s, more, id);
      RunsKeepInv(s, more);
      QuiescentAgrees(Run(s, more), n, id);
    }
  }

  // The exact condition

  function Target(a: Action): RuleId
    requires Writes(a)
  {
    if a.WriteDelete? then a.id else IdOf(a.rule)
  }

  /**
   * A deletion finds no cache write of its rule outstanding; a creation or update finds no list still to be stored; and
   * a creation of a rule that was deleted before finds nothing of its earlier life.
   */
  ghost predicate Calm(s: State, a: Action)
    requires Writes(a)
  {
    && (a.WriteDelete? ==> forall n: string :: !Outstanding(s, n, a.id))
    && (!a.WriteDelete? ==> s.loaded == map[])
    && CleanlyCreates(s, a)
  }

  lemma DeleteSettles(s: State, m: string, id: RuleId)
    requires Inv(s) && Enabled(s, WriteDelete(m, id)) && forall n: string :: !Outstanding(s, n, id)
    ensures OnPace(Next(s, WriteDelete(m, id)), id)
  {
    hide DeletionsTrue, PutComing, DropComing, FetchOut, WriteOut, CachesSound, FetchedSound, OpsSound;
    forall n | n in s.nodes
      ensures (n, id) !in s.raced
    {
      assert Tracked(s, n, id);
    }
    forall n | n in s.loaded
      ensures id !in s.loaded[n]
    {
      assert !Outstanding(s, n, id);
    }
  }

  lemma PutSettles(t: State, id: RuleId)
    requires Inv(t) && id in t.db && t.loaded == map[] && forall n | n in t.nodes :: (n, id) !in t.lagging
    ensures OnPace(t, id)
  {
    hide DeletionsTrue, PutComing, DropComing, Outstanding, CachesSound, FetchedSound, OpsSound;
    forall n | n in t.nodes
      ensures Settles(t, n, id)
    {
      assert Tracked(t, n, id);
    }
  }

  lemma PutPaces(s: State, n: string, rule: Rule)
    ensures var t := AfterPut(s, n, rule);
            IdOf(rule) in t.db && t.loaded == s.loaded && forall m :: (m, IdOf(rule)) !in t.lagging
  {
  }

  lemma CalmIsSafe(s: State, a: Action)
    requires Inv(s) && Writes(a) && Enabled(s, a) && Calm(s, a)
    ensures Inv(Next(s, a)) && OnPace(Next(s, a), Target(a))
  {
    hide Inv, Outstanding, CleanAt, AfterPut, AfterDelete, OnPace;
    StepKeepsInv(s, a);
    if a.WriteDelete? {
      DeleteSettles(s, a.node, a.id);
    } else {
      PutPaces(s, a.node, a.rule);
      PutSettles(Next(s, a), IdOf(a.rule));
    }
  }

  lemma UncleanLeaves(s: State, id: RuleId)
    requires !CleanAt(s, id) && !DropPending(s, id)
    ensures exists n: string :: Outstanding(s, n, id) || (n in s.caches && id in s.caches[n])
  {
    hide Outstanding, DropOpFor, DropRowFor, DropMailFor;
  }

  lemma TrueDropsFrom(s: State, id: RuleId)
    requires DeletionsTrue(s)
    ensures DropsFrom(s, id, 1)
  {
  }

  lemma PutKeepsDrops(s: State, m: string, rule: Rule)
    requires rule.version == 1 && DropPending(s, IdOf(rule)) && DropsFrom(s, IdOf(rule), 1)
    ensures var t := AfterPut(s, m, rule);
            DropPending(t, IdOf(rule)) && DropsFrom(t, IdOf(rule), 1) && IdOf(rule) in t.db && t.db[IdOf(rule)] == rule
  {
    hide DropRowFor, DropMailFor, PutOpFor, WriteOut, Others;
    OpAdded(s.ops, PutWritten(m, rule), m, IdOf(rule));
    assert forall op | op in s.ops + multiset{PutWritten(m, rule)} :: op in s.ops || op == PutWritten(m, rule);
    hide DropOpFor;
  }

  lemma UncleanEndsWrong(s: State, m: string, rule: Rule)
    requires Inv(s) && Addressed(s) && Enabled(s, WriteCreate(m, rule)) && s.loaded == map[]
    requires !CleanAt(s, IdOf(rule)) && Novel(s, rule)
    ensures exists n :: n in s.nodes && CanEndWrong(Next(s, WriteCreate(m, rule)), n, IdOf(rule))
  {
    hide Inv, Addressed, CanEndWrong, CleanAt, Novel, DropPending, DropsFrom, AfterPut, Outstanding;
    var id := IdOf(rule);
    var t := AfterPut(s, m, rule);
    StepKeepsAddressed(s, WriteCreate(m, rule));
    if DropPending(s, id) {
      InvDrops(s, id);
      PutKeepsDrops(s, m, rule);
      DropPendingEndsWrong(t, id, m);
    } else {
      UncleanLeaves(s, id);
      var n: string :| Outstanding(s, n, id) || (n in s.caches && id in s.caches[n]);
      LeftoverEndsWrong(s, n, rule, m);
    }
  }

  lemma InvDrops(s: State, id: RuleId)
    requires Inv(s)
    ensures DropsFrom(s, id, 1)
  {
    hide Sound, Tracked, DeletionsTrue, DropsFrom;
    TrueDropsFrom(s, id);
  }

  lemma PutIsNovel(s: State, a: Action)
    requires Inv(s) && Enabled(s, a) && (a.WriteCreate? || a.WriteUpdate?)
    requires a.WriteCreate? && IdOf(a.rule) in s.dead ==> Novel(s, a.rule)
    ensures Novel(s, a.rule)
  {
    hide Novel, Tracked, DeletionsTrue, Sound;
    if a.WriteUpdate? {
      StoredIsAlive(s, IdOf(a.rule));
    }
    if IdOf(a.rule) !in s.dead {
      NextVersionIsNovel(s, a.rule);
    }
  }

  lemma RestlessIsUnsafe(s: State, a: Action)
    requires Inv(s) && Addressed(s) && Writes(a) && Enabled(s, a) && !Calm(s, a)
    requires a.WriteCreate? && IdOf(a.rule) in s.dead ==> Novel(s, a.rule)
    ensures exists n :: n in s.nodes && CanEndWrong(Next(s, a), n, Target(a))
  {
    hide Inv, Addressed, CanEndWrong, CleanAt, Novel, Outstanding, AfterPut, AfterDelete;
    if a.WriteDelete? {
      var n: string :| Outstanding(s, n, a.id);
      OutstandingIsAddressed(s, n, a.id);
      RacingDeletionEndsWrong(s, a.node, n, a.id);
    } else {
      PutIsNovel(s, a);
      if s.loaded != map[] {
        var n :| n in s.loaded;
        LoadedIsAddressed(s, n);
        StepKeepsAddressed(s, a);
        StaleListEndsWrong(s, n, a.rule, a.node);
      } else {
        UncleanEndsWrong(s, a.node, a.rule);
      }
    }
  }

  lemma LoadedIsAddressed(s: State, n: string)
    requires Addressed(s) && n in s.loaded
    ensures n in s.nodes
  {
  }

  /**
   * After any run in which whatever was created again was clean, a write is safe - however the rest is delivered, every
   * cache ends up right about its rule - if and only if it is calm. A rule that is created again is taken to differ, at
   * least in its time stamp, from every copy of its earlier life that is left.
   */
  lemma SafeWriteIff(nodes: set<string>, before: seq<Action>, a: Action)
    requires IsRun(Start(nodes), before) && CleanRun(Start(nodes), before)
    requires var s := Run(Start(nodes), before);
             Writes(a) && Enabled(s, a) && (a.WriteCreate? && IdOf(a.rule) in s.dead ==> Novel(s, a.rule))
    ensures var s := Run(Start(nodes), before);
            Calm(s, a) <==> forall n | n in nodes :: !CanEndWrong(Next(s, a), n, Target(a))
  {
    hide IsRun, Run, CleanRun, Inv, Addressed, Enabled, Next, CanEndWrong, Calm, Novel, OnPace, Start, Writes, Target;
    ReachedInv(nodes, before);
    ReachedAddressed(nodes, before);
    var s := Run(Start(nodes), before);
    if Calm(s, a) {
      CalmIsSafe(s, a);
      StepKeepsNodes(s, a);
      forall n | n in nodes
        ensures !CanEndWrong(Next(s, a), n, Target(a))
      {
        OnPaceEndsRight(Next(s, a), n, Target(a));
      }
    } else {
      RestlessIsUnsafe(s, a);
    }
  }

  /** A synchronisation and an update: the update can be lost to the cache although nothing is under way any more. */
  lemma SyncCanLag(nodes: set<string>, before: seq<Action>, n: string, m: string, rule: Rule)
    requires IsRun(Start(nodes), before) && CleanRun(Start(nodes), before)
    requires var s := Run(Start(nodes), before);
             && n in nodes && n !in s.loaded && m in nodes
             && IdOf(rule) in s.db && rule.version == s.db[IdOf(rule)].version + 1
    ensures var s := Run(Start(nodes), before);
            && Enabled(s, SyncLoad(n)) && Enabled(Next(s, SyncLoad(n)), WriteUpdate(m, rule))
            && CanEndWrong(Next(Next(s, SyncLoad(n)), WriteUpdate(m, rule)), n, IdOf(rule))
  {
    hide IsRun, Run, CleanRun, Inv, Addressed, CanEndWrong, Start, Novel, AfterPut, IdOf;
    ReachedInv(nodes, before);
    ReachedAddressed(nodes, before);
    var s := Run(Start(nodes), before);
    var t := Next(s, SyncLoad(n));
    var a := WriteUpdate(m, rule);
    NotCreating(s, SyncLoad(n));
    StepKeepsInv(s, SyncLoad(n));
    StepKeepsAddressed(s, SyncLoad(n));
    StepKeepsAddressed(t, a);
    PutIsNovel(t, a);
    StaleListEndsWrong(t, n, rule, m);
  }
}
