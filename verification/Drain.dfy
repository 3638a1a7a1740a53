/** Delivery alone finishes whatever is under way, and can hold back whatever it likes until the end. */
module Drain {
  import opened Rules
  import opened Propagation
  import opened PropagationSteps
  import opened PropagationCoverage
  import opened Convergence
  import opened Sync

  // Everything under way is addressed to a node of the cluster

  ghost predicate OpsAddressed(nodes: set<string>, ops: multiset<AdminOp>) {
    forall op | op in ops && (op.PutWritten? || op.DropWritten?) :: op.node in nodes
  }

  ghost predicate MailAddressed(nodes: set<string>, inbox: multiset<Delivery>) {
    forall d | d in inbox :: d.node in nodes
  }

  ghost predicate FetchesAddressed(nodes: set<string>, fetched: multiset<Fetch>) {
    forall f | f in fetched :: f.node in nodes
  }

  ghost predicate Addressed(s: State) {
    && s.caches.Keys == s.nodes && s.loaded.Keys <= s.nodes
    && OpsAddressed(s.nodes, s.ops) && MailAddressed(s.nodes, s.inbox) && FetchesAddressed(s.nodes, s.fetched)
  }

  lemma OpsStayAddressed(nodes: set<string>, ops: multiset<AdminOp>, op: AdminOp)
    requires OpsAddressed(nodes, ops)
    ensures OpsAddressed(nodes, ops - multiset{op})
    ensures (op.PutWritten? || op.DropWritten? ==> op.node in nodes) ==> OpsAddressed(nodes, ops + multiset{op})
  {
    assert forall x | x in ops - multiset{op} :: x in ops;
    assert forall x | x in ops + multiset{op} :: x in ops || x == op;
  }

  lemma MailStaysAddressed(nodes: set<string>, inbox: multiset<Delivery>, d: Delivery)
    requires MailAddressed(nodes, inbox)
    ensures MailAddressed(nodes, inbox - multiset{d})
    ensures d in inbox ==> d.node in nodes && MailAddressed(nodes, inbox + multiset{d})
  {
    assert forall x | x in inbox - multiset{d} :: x in inbox;
    assert forall x | x in inbox + multiset{d} :: x in inbox || x == d;
  }

  lemma MailToAllAddressed(nodes: set<string>, inbox: multiset<Delivery>, e: Event)
    requires MailAddressed(nodes, inbox)
    ensures MailAddressed(nodes, inbox + ToAll(nodes, e))
  {
    ToAllHolds(nodes, e);
  }

  lemma FetchesStayAddressed(nodes: set<string>, fetched: multiset<Fetch>, f: Fetch)
    requires FetchesAddressed(nodes, fetched)
    ensures FetchesAddressed(nodes, fetched - multiset{f})
    ensures f.node in nodes ==> FetchesAddressed(nodes, fetched + multiset{f})
  {
    assert forall x | x in fetched - multiset{f} :: x in fetched;
    assert forall x | x in fetched + multiset{f} :: x in fetched || x == f;
  }

  lemma AdminKeepsAddressed(s: State, op: AdminOp)
    requires Addressed(s) && Enabled(s, AdminCache(op))
    ensures Addressed(Next(s, AdminCache(op)))
  {
    hide OpsAddressed, MailAddressed, FetchesAddressed, Outstanding, Settled, Upsert, DropIfOlder;
    OpsStayAddressed(s.nodes, s.ops, op);
    var next := if op.PutWritten? then PutCached(op.rule) else DropCached(op.id, op.version);
    OpsStayAddressed(s.nodes, s.ops - multiset{op}, next);
  }

  lemma HandleKeepsAddressed(s: State, d: Delivery)
    requires Addressed(s) && Enabled(s, Handle(d))
    ensures Addressed(Next(s, Handle(d)))
  {
    hide OpsAddressed, MailAddressed, FetchesAddressed, Outstanding, Settled, DropIfOlder;
    MailStaysAddressed(s.nodes, s.inbox, d);
    if d.event.id in s.db {
      FetchesStayAddressed(s.nodes, s.fetched, Fetch(d.node, s.db[d.event.id]));
    }
  }

  lemma CallKeepsAddressed(s: State, a: Action)
    requires Addressed(s) && Enabled(s, a)
    requires a.WriteCreate? || a.WriteUpdate? || a.WriteDelete? || a.Replay? || a.AdminInsert?
    ensures Addressed(Next(s, a))
  {
    hide OpsAddressed, MailAddressed, FetchesAddressed, Outstanding, Others;
    match a
    case WriteCreate(n, rule) => OpsStayAddressed(s.nodes, s.ops, PutWritten(n, rule));
    case WriteUpdate(n, rule) => OpsStayAddressed(s.nodes, s.ops, PutWritten(n, rule));
    case WriteDelete(n, id) => OpsStayAddressed(s.nodes, s.ops, DropWritten(n, id, s.db[id].version));
    case Replay(n, id) => OpsStayAddressed(s.nodes, s.ops, PutWritten(n, s.db[id]));
    case AdminInsert(op) => OpsStayAddressed(s.nodes, s.ops, op);
  }

  lemma StepKeepsAddressed(s: State, a: Action)
    requires Addressed(s) && Enabled(s, a)
    ensures Addressed(Next(s, a))
  {
    hide OpsAddressed, MailAddressed, FetchesAddressed, AfterPut, AfterDelete, AfterReplay, AfterPutCached;
    hide AfterDropCached, AfterInsert, AfterFetch, AfterDrop, ToAll, Upsert, Others;
    hide RacedAfterStore, LaggingAfterStore;
    match a
    case WriteCreate(n, rule) => CallKeepsAddressed(s, a);
    case WriteUpdate(n, rule) => CallKeepsAddressed(s, a);
    case WriteDelete(n, id) => CallKeepsAddressed(s, a);
    case Replay(n, id) => CallKeepsAddressed(s, a);
    case AdminCache(op) => AdminKeepsAddressed(s, op);
    case AdminInsert(op) => CallKeepsAddressed(s, a);
    case Publish(e) => MailToAllAddressed(s.nodes, s.inbox, e);
    case Republish(e) => MailToAllAddressed(s.nodes, s.inbox, e);
    case MarkSent(e) =>
    case Duplicate(d) => MailStaysAddressed(s.nodes, s.inbox, d);
    case Handle(d) => HandleKeepsAddressed(s, d);
    case Apply(f) => FetchesStayAddressed(s.nodes, s.fetched, f);
    case SyncLoad(n) =>
    case SyncStore(n) =>
  }

  lemma {:induction false} RunsKeepAddressed(s: State, actions: seq<Action>)
    requires Addressed(s) && IsRun(s, actions)
    ensures Addressed(Run(s, actions)) && Run(s, actions).nodes == s.nodes
    decreases |actions|
  {
    hide Addressed, Next, Enabled;
    if actions != [] {
      StepKeepsAddressed(s, actions[0]);
      StepKeepsNodes(s, actions[0]);
      RunsKeepAddressed(Next(s, actions[0]), actions[1..]);
    }
  }

  lemma ReachedAddressed(nodes: set<string>, actions: seq<Action>)
    requires IsRun(Start(nodes), actions)
    ensures Addressed(Run(Start(nodes), actions)) && Run(Start(nodes), actions).nodes == nodes
  {
    hide IsRun, Run;
    assert Addressed(Start(nodes));
    RunsKeepAddressed(Start(nodes), actions);
  }

  // Putting runs together

  lemma Prepend(s: State, a: Action, rest: seq<Action>)
    requires Enabled(s, a) && IsRun(Next(s, a), rest)
    ensures IsRun(s, [a] + rest) && Run(s, [a] + rest) == Run(Next(s, a), rest)
  {
    hide Enabled, Next;
    assert ([a] + rest)[1..] == rest;
  }

  lemma {:induction false} RunAppend(s: State, xs: seq<Action>, ys: seq<Action>)
    requires IsRun(s, xs) && IsRun(Run(s, xs), ys)
    ensures IsRun(s, xs + ys) && Run(s, xs + ys) == Run(Run(s, xs), ys)
    decreases |xs|
  {
    hide Next, Enabled;
    if xs == [] {
      assert xs + ys == ys;
    } else {
      RunAppend(Next(s, xs[0]), xs[1..], ys);
      assert (xs + ys)[1..] == xs[1..] + ys;
    }
  }

  // Draining

  predicate Delivers(a: Action) {
    a.AdminCache? || a.AdminInsert? || a.Publish? || a.Handle? || a.Apply? || a.SyncStore?
  }

  /** What is to be kept waiting: calls, deliveries, handlers, and the lists of some nodes. */
  datatype Held = Held(
    ops: multiset<AdminOp>, mail: multiset<Delivery>, fetched: multiset<Fetch>, lists: set<string>)

  const NOTHING: Held := Held(multiset{}, multiset{}, multiset{}, {})

  predicate Holds(s: State, held: Held) {
    held.ops <= s.ops && held.mail <= s.inbox && held.fetched <= s.fetched && held.lists <= s.loaded.Keys
  }

  /** Only what is held is under way. */
  predicate Finished(s: State, held: Held) {
    && s.ops == held.ops && s.rows == multiset{} && s.inbox == held.mail && s.fetched == held.fetched
    && s.loaded.Keys == held.lists
  }

  /** Deliveries only, with everything held in place at every moment. */
  ghost predicate Waits(s: State, actions: seq<Action>, held: Held)
    requires IsRun(s, actions)
    decreases |actions|
  {
    && Holds(s, held)
    && (actions == [] || (Delivers(actions[0]) && Waits(Next(s, actions[0]), actions[1..], held)))
  }

  /** The step leaves what is held alone. */
  predicate Spares(s: State, a: Action, held: Held) {
    && Delivers(a)
    && (a.AdminCache? || a.AdminInsert? ==> held.ops[a.op] < s.ops[a.op])
    && (a.Handle? ==> held.mail[a.delivery] < s.inbox[a.delivery])
    && (a.Apply? ==> held.fetched[a.fetch] < s.fetched[a.fetch])
    && (a.SyncStore? ==> a.node !in held.lists)
  }

  lemma Surplus<T>(m: multiset<T>, keep: multiset<T>) returns (x: T)
    requires keep <= m && m != keep
    ensures x in m && keep[x] < m[x]
  {
    x :| x in m && keep[x] < m[x];
  }

  lemma SurplusNode(nodes: set<string>, keep: set<string>) returns (n: string)
    requires keep <= nodes && nodes != keep
    ensures n in nodes && n !in keep
  {
    n :| n in nodes && n !in keep;
  }

  lemma ByAddress(s: State)
    requires Addressed(s)
    ensures forall op | op in s.ops && (op.PutWritten? || op.DropWritten?) :: op.node in s.caches
    ensures forall d | d in s.inbox :: d.node in s.caches
    ensures forall f | f in s.fetched :: f.node in s.caches
    ensures forall n | n in s.loaded :: n in s.caches
  {
  }

  lemma AdminStep(s: State, held: Held) returns (a: Action)
    requires Addressed(s) && held.ops <= s.ops && s.ops != held.ops
    ensures Enabled(s, a) && Spares(s, a, held)
  {
    hide Addressed;
    ByAddress(s);
    var op := Surplus(s.ops, held.ops);
    if op.PutWritten? || op.DropWritten? {
      a := AdminCache(op);
    } else {
      a := AdminInsert(op);
    }
  }

  lemma MailStep(s: State, held: Held) returns (a: Action)
    requires Addressed(s) && held.mail <= s.inbox && s.inbox != held.mail
    ensures Enabled(s, a) && Spares(s, a, held)
  {
    hide Addressed;
    ByAddress(s);
    var d := Surplus(s.inbox, held.mail);
    a := Handle(d);
  }

  lemma FetchStep(s: State, held: Held) returns (a: Action)
    requires Addressed(s) && held.fetched <= s.fetched && s.fetched != held.fetched
    ensures Enabled(s, a) && Spares(s, a, held)
  {
    hide Addressed;
    ByAddress(s);
    var f := Surplus(s.fetched, held.fetched);
    a := Apply(f);
  }

  lemma ListStep(s: State, held: Held) returns (a: Action)
    requires Addressed(s) && held.lists <= s.loaded.Keys && s.loaded.Keys != held.lists
    ensures Enabled(s, a) && Spares(s, a, held)
  {
    hide Addressed;
    ByAddress(s);
    var n := SurplusNode(s.loaded.Keys, held.lists);
    a := SyncStore(n);
  }

  /** The step that brings the first thing under way nearer to its end. */
  lemma NextStep(s: State, held: Held) returns (a: Action)
    requires Addressed(s) && Holds(s, held) && !Finished(s, held)
    ensures Enabled(s, a) && Spares(s, a, held)
  {
    hide Addressed;
    if s.rows != multiset{} {
      var e :| e in s.rows;
      return Publish(e);
    }
    hide Enabled, Spares;
    if s.ops != held.ops {
      a := AdminStep(s, held);
    } else if s.inbox != held.mail {
      a := MailStep(s, held);
    } else if s.fetched != held.fetched {
      a := FetchStep(s, held);
    } else {
      a := ListStep(s, held);
    }
  }

  lemma TakeSpares<T>(m: multiset<T>, x: T, keep: multiset<T>)
    requires keep <= m && keep[x] < m[x]
    ensures keep <= m - multiset{x} && |m - multiset{x}| == |m| - 1
  {
  }

  lemma MoreHolds<T>(m: multiset<T>, more: multiset<T>, keep: multiset<T>)
    requires keep <= m
    ensures keep <= m + more
  {
  }

  lemma AdminSpares(s: State, op: AdminOp, held: Held)
    requires Holds(s, held) && Enabled(s, AdminCache(op)) && Spares(s, AdminCache(op), held)
    ensures Holds(Next(s, AdminCache(op)), held)
  {
    hide Outstanding, Settled, Upsert, DropIfOlder;
    TakeSpares(s.ops, op, held.ops);
    var next := if op.PutWritten? then PutCached(op.rule) else DropCached(op.id, op.version);
    MoreHolds(s.ops - multiset{op}, multiset{next}, held.ops);
  }

  lemma HandleSpares(s: State, d: Delivery, held: Held)
    requires Holds(s, held) && Enabled(s, Handle(d)) && Spares(s, Handle(d), held)
    ensures Holds(Next(s, Handle(d)), held)
  {
    hide Outstanding, Settled, DropIfOlder;
    TakeSpares(s.inbox, d, held.mail);
    if d.event.id in s.db {
      MoreHolds(s.fetched, multiset{Fetch(d.node, s.db[d.event.id])}, held.fetched);
    }
  }

  lemma StepSpares(s: State, a: Action, held: Held)
    requires Holds(s, held) && Enabled(s, a) && Spares(s, a, held)
    ensures Holds(Next(s, a), held)
  {
    hide AfterPutCached, AfterDropCached, AfterFetch, AfterDrop, ToAll, Upsert, RacedAfterStore, LaggingAfterStore;
    match a
    case AdminCache(op) => AdminSpares(s, op, held);
    case AdminInsert(op) => TakeSpares(s.ops, op, held.ops);
    case Publish(e) => MoreHolds(s.inbox, ToAll(s.nodes, e), held.mail);
    case Handle(d) => HandleSpares(s, d, held);
    case Apply(f) => TakeSpares(s.fetched, f, held.fetched);
    case SyncStore(n) =>
  }

  lemma Takes<T>(m: multiset<T>, x: T)
    requires x in m
    ensures |m - multiset{x}| == |m| - 1
  {
  }

  function NextOp(op: AdminOp): AdminOp
    requires op.PutWritten? || op.DropWritten?
  {
    if op.PutWritten? then PutCached(op.rule) else DropCached(op.id, op.version)
  }

  lemma AdminTakes(s: State, op: AdminOp)
    requires Enabled(s, AdminCache(op))
    ensures Next(s, AdminCache(op)).ops == s.ops - multiset{op} + multiset{NextOp(op)}
    ensures Next(s, AdminCache(op)).rows == s.rows
  {
    hide Settled, Upsert, DropIfOlder;
  }

  lemma InsertTakes(s: State, op: AdminOp)
    requires op in s.ops && (op.PutCached? || op.DropCached?)
    ensures Enabled(s, AdminInsert(op)) && Next(s, AdminInsert(op)).ops == s.ops - multiset{op}
  {
  }

  /** The cache first, then the outbox: an admin call ends in two steps. */
  lemma FinishAdmin(s: State, op: AdminOp, held: Held)
    requires op.PutWritten? || op.DropWritten?
    requires Enabled(s, AdminCache(op)) && held.ops <= s.ops && held.ops[op] < s.ops[op]
    ensures var t, last := Next(s, AdminCache(op)), AdminInsert(NextOp(op));
            Enabled(t, last) && Spares(t, last, held) && |Next(t, last).ops| < |s.ops|
  {
    hide Enabled, Next;
    TakeSpares(s.ops, op, held.ops);
    var rest, next := s.ops - multiset{op}, NextOp(op);
    AdminTakes(s, op);
    assert rest + multiset{next} - multiset{next} == rest;
    InsertTakes(Next(s, AdminCache(op)), next);
  }

  /** The step takes something away, and leaves what comes before it in the drain as it is. */
  predicate Shrinks(s: State, t: State, a: Action) {
    && (a.AdminInsert? ==> |t.ops| < |s.ops|)
    && (a.Publish? ==> t.ops == s.ops && |t.rows| < |s.rows|)
    && (a.Handle? ==> t.ops == s.ops && t.rows == s.rows && |t.inbox| < |s.inbox|)
    && (a.Apply? ==> t.ops == s.ops && t.rows == s.rows && t.inbox == s.inbox && |t.fetched| < |s.fetched|)
    && (a.SyncStore? ==> && t.ops == s.ops && t.rows == s.rows && t.inbox == s.inbox && t.fetched == s.fetched
                         && |t.loaded| < |s.loaded|)
  }

  lemma StepShrinks(s: State, a: Action)
    requires Enabled(s, a) && Delivers(a) && !a.AdminCache?
    ensures Shrinks(s, Next(s, a), a)
  {
    hide AfterDrop, AfterFetch, AfterInsert, AfterPublish, AfterApply, AfterStore, Shrinks;
    match a
    case AdminInsert(op) => InsertShrinks(s, op);
    case Publish(e) => PublishShrinks(s, e);
    case Handle(d) => HandleShrinks(s, d);
    case Apply(f) => ApplyShrinks(s, f);
    case SyncStore(n) => StoreShrinks(s, n);
  }

  lemma StoreShrinks(s: State, n: string)
    requires n in s.loaded
    ensures Shrinks(s, AfterStore(s, n), SyncStore(n))
  {
    hide AfterStore;
    StoreEffects(s, n);
    LoadedShrinks(s.loaded, n);
  }

  lemma LoadedShrinks(loaded: map<string, RuleSet>, n: string)
    requires n in loaded
    ensures |loaded - {n}| < |loaded|
  {
    assert loaded == (loaded - {n})[n := loaded[n]];
  }

  lemma InsertShrinks(s: State, op: AdminOp)
    requires op in s.ops && (op.PutCached? || op.DropCached?)
    ensures Shrinks(s, AfterInsert(s, op), AdminInsert(op))
  {
    Takes(s.ops, op);
  }

  lemma PublishShrinks(s: State, e: Event)
    requires e in s.rows
    ensures Shrinks(s, AfterPublish(s, e), Publish(e))
  {
    hide ToAll;
    Takes(s.rows, e);
  }

  lemma ApplyShrinks(s: State, f: Fetch)
    requires f in s.fetched && f.node in s.caches
    ensures Shrinks(s, AfterApply(s, f), Apply(f))
  {
    hide Upsert;
    Takes(s.fetched, f);
  }

  lemma HandleShrinks(s: State, d: Delivery)
    requires d in s.inbox && d.node in s.caches
    ensures Shrinks(s, AfterFetch(s, d), Handle(d)) && Shrinks(s, AfterDrop(s, d), Handle(d))
  {
    hide Settled, DropIfOlder;
    Takes(s.inbox, d);
  }

  lemma WaitsLonger(s: State, a: Action, rest: seq<Action>, held: Held)
    requires Enabled(s, a) && Delivers(a) && Holds(s, held) && IsRun(Next(s, a), rest) && Waits(Next(s, a), rest, held)
    ensures IsRun(s, [a] + rest) && Run(s, [a] + rest) == Run(Next(s, a), rest) && Waits(s, [a] + rest, held)
  {
    hide Enabled, Next, Holds, Delivers;
    assert ([a] + rest)[1..] == rest;
  }

  lemma EnabledOp(s: State, op: AdminOp)
    requires Enabled(s, AdminCache(op))
    ensures op.PutWritten? || op.DropWritten?
  {
  }

  /** Delivery, without any further write, can always finish everything but what it keeps waiting. */
  lemma {:induction false} Drains(s: State, held: Held) returns (actions: seq<Action>)
    requires Addressed(s) && Holds(s, held)
    ensures IsRun(s, actions) && Waits(s, actions, held) && Finished(Run(s, actions), held)
    decreases |s.ops|, |s.rows|, |s.inbox|, |s.fetched|, |s.loaded|
  {
    hide Addressed, Next, Enabled, Finished;
    if Finished(s, held) {
      return [];
    }
    var a := NextStep(s, held);
    StepKeepsAddressed(s, a);
    StepSpares(s, a, held);
    var t := Next(s, a);
    if a.AdminCache? {
      EnabledOp(s, a.op);
      var op := NextOp(a.op);
      FinishAdmin(s, a.op, held);
      StepKeepsAddressed(t, AdminInsert(op));
      StepSpares(t, AdminInsert(op), held);
      var rest := Drains(Next(t, AdminInsert(op)), held);
      WaitsLonger(t, AdminInsert(op), rest, held);
      WaitsLonger(s, a, [AdminInsert(op)] + rest, held);
      return [a] + ([AdminInsert(op)] + rest);
    }
    StepShrinks(s, a);
    var rest := Drains(t, held);
    WaitsLonger(s, a, rest, held);
    return [a] + rest;
  }

  // What waiting leaves alone

  lemma DeliverySettles(s: State, a: Action)
    requires Enabled(s, a) && Delivers(a)
    ensures Next(s, a).db == s.db && Next(s, a).raced <= s.raced && !Writes(a)
  {
    hide AfterPutCached, AfterDropCached, AfterInsert, AfterPublish, AfterFetch, AfterDrop, AfterApply, AfterStore;
    if a.AdminCache? && a.op.DropWritten? {
      DropCachedEffects(s, a.op);
    } else if a.Handle? {
      DropEffects(s, a.delivery);
    } else if a.SyncStore? {
      StoreEffects(s, a.node);
    }
  }

  lemma DeliveryKeepsLists(s: State, a: Action)
    requires Enabled(s, a) && Delivers(a)
    ensures forall n | n in Next(s, a).loaded :: n in s.loaded && Next(s, a).loaded[n] == s.loaded[n]
  {
    hide AfterPutCached, AfterDropCached, AfterInsert, AfterPublish, AfterFetch, AfterDrop, AfterApply, AfterStore;
    if a.SyncStore? {
      StoreEffects(s, a.node);
    } else {
      assert Next(s, a).loaded == s.loaded;
    }
  }

  lemma {:induction false} WaitingKeeps(s: State, actions: seq<Action>, held: Held)
    requires IsRun(s, actions) && Waits(s, actions, held)
    ensures var t := Run(s, actions);
            && t.db == s.db && t.raced <= s.raced && WriteFree(actions)
            && forall n | n in held.lists :: n in s.loaded && n in t.loaded && t.loaded[n] == s.loaded[n]
    decreases |actions|
  {
    hide Next, Enabled, Delivers, Writes;
    if actions != [] {
      DeliverySettles(s, actions[0]);
      DeliveryKeepsLists(s, actions[0]);
      WaitingKeeps(Next(s, actions[0]), actions[1..], held);
      assert actions == [actions[0]] + actions[1..];
    }
  }

  /** Without a list to store, a delivery makes nothing lag. */
  lemma DeliveryKeepsPace(s: State, a: Action, n: string)
    requires Enabled(s, a) && Delivers(a) && n !in s.loaded
    ensures n !in Next(s, a).loaded
    ensures forall id | (n, id) in Next(s, a).lagging :: (n, id) in s.lagging
  {
    hide AfterPutCached, AfterDropCached, AfterInsert, AfterPublish, AfterFetch, AfterDrop, AfterApply, AfterStore;
    if a.SyncStore? {
      StoreEffects(s, a.node);
    } else {
      assert Next(s, a).loaded == s.loaded && Next(s, a).lagging == s.lagging;
    }
  }

  lemma {:induction false} WaitingKeepsPace(s: State, actions: seq<Action>, held: Held, n: string)
    requires IsRun(s, actions) && Waits(s, actions, held) && n !in s.loaded
    ensures forall id | (n, id) in Run(s, actions).lagging :: (n, id) in s.lagging
    decreases |actions|
  {
    hide Next, Enabled, Delivers, Holds;
    if actions != [] {
      DeliveryKeepsPace(s, actions[0], n);
      WaitingKeepsPace(Next(s, actions[0]), actions[1..], held, n);
    }
  }

  lemma {:induction false} WaitingIsClean(s: State, actions: seq<Action>, held: Held)
    requires IsRun(s, actions) && Waits(s, actions, held)
    ensures CleanRun(s, actions)
    decreases |actions|
  {
    hide Next, Enabled, Holds;
    if actions != [] {
      NotCreating(s, actions[0]);
      WaitingIsClean(Next(s, actions[0]), actions[1..], held);
    }
  }

  lemma NothingHeld(s: State)
    ensures Holds(s, NOTHING) && (Finished(s, NOTHING) ==> Quiescent(s))
  {
    assert s.loaded.Keys == {} ==> s.loaded == map[];
  }

  /**
   * After any run there is a continuation of deliveries that ends with nothing under way, and with the database as it
   * is now in the cache of every node without an open race, a stale list stored, or a list still to be stored.
   */
  lemma CatchUp(nodes: set<string>, actions: seq<Action>) returns (more: seq<Action>)
    requires IsRun(Start(nodes), actions) && CleanRun(Start(nodes), actions)
    ensures var s := Run(Start(nodes), actions);
            && IsRun(s, more) && WriteFree(more) && Quiescent(Run(s, more)) && Run(s, more).db == s.db
            && forall n | n in nodes && n !in s.loaded && (forall id :: Settles(s, n, id)) ::
                 n in Run(s, more).caches && Run(s, more).caches[n] == s.db
  {
    hide IsRun, Run, CleanRun, Inv, Addressed, Holds, Waits, Finished, Quiescent, WriteFree;
    ReachedInv(nodes, actions);
    ReachedAddressed(nodes, actions);
    var s := Run(Start(nodes), actions);
    NothingHeld(s);
    more := Drains(s, NOTHING);
    var t := Run(s, more);
    NothingHeld(t);
    WaitingIsClean(s, more, NOTHING);
    RunsKeepInv(s, more);
    WaitingKeeps(s, more, NOTHING);
    forall n | n in nodes && n !in s.loaded && (forall id :: Settles(s, n, id))
      ensures n in t.caches && t.caches[n] == s.db
    {
      WaitingKeepsPace(s, more, NOTHING, n);
      QuiescentEqual(t, n);
      forall id
        ensures Settles(t, n, id)
      {
        assert Settles(s, n, id);
      }
    }
  }
}
