/** What the propagation protocol guarantees over whole runs. */
module Convergence {
  import opened Rules
  import opened Propagation
  import opened PropagationCoverage

  lemma StartInv(nodes: set<string>)
    ensures Inv(Start(nodes))
  {
    assert Start(nodes).caches.Keys == nodes;
  }

  lemma {:induction false} RunsKeepInv(s: State, actions: seq<Action>)
    requires Inv(s) && IsRun(s, actions) && CleanRun(s, actions)
    ensures Inv(Run(s, actions)) && Run(s, actions).nodes == s.nodes
    decreases |actions|
  {
    hide Inv, Next, Enabled, CleanlyCreates;
    if actions != [] {
      StepKeepsInv(s, actions[0]);
      StepKeepsNodes(s, actions[0]);
      RunsKeepInv(Next(s, actions[0]), actions[1..]);
    }
  }

  lemma ReachedInv(nodes: set<string>, actions: seq<Action>)
    requires IsRun(Start(nodes), actions) && CleanRun(Start(nodes), actions)
    ensures Inv(Run(Start(nodes), actions)) && Run(Start(nodes), actions).nodes == nodes
  {
    hide Inv, IsRun, CleanRun, Run;
    StartInv(nodes);
    RunsKeepInv(Start(nodes), actions);
  }

  /** The outbox is empty, and no admin call, delivery, handler or synchronisation is under way. */
  predicate Quiescent(s: State) {
    && s.ops == multiset{} && s.rows == multiset{} && s.inbox == multiset{} && s.fetched == multiset{}
    && s.loaded == map[]
  }

  /** The cache of the node and the database agree on the rule. */
  predicate Agrees(s: State, n: string, id: RuleId) {
    n in s.caches && (id in s.caches[n] <==> id in s.db) && (id in s.db ==> s.caches[n][id] == s.db[id])
  }

  /** Neither a race nor a stale list is left open. */
  predicate Settles(s: State, n: string, id: RuleId) {
    (n, id) !in s.raced && (n, id) !in s.lagging
  }

  lemma NothingUnderWay(s: State, n: string, id: RuleId)
    requires Quiescent(s)
    ensures !Outstanding(s, n, id) && !PutComing(s, n, id) && !DropComing(s, n, id)
  {
  }

  lemma QuiescentAgrees(s: State, n: string, id: RuleId)
    requires Inv(s) && Quiescent(s) && n in s.nodes
    ensures n in s.caches && (Agrees(s, n, id) <==> Settles(s, n, id))
  {
    hide Outstanding, PutComing, DropComing, CachesSound, FetchedSound, OpsSound, DeletionsTrue;
    assert Tracked(s, n, id);
    NothingUnderWay(s, n, id);
    if id in s.caches[n] {
      CacheKnows(s, n, id);
    }
  }

  lemma QuiescentEqual(s: State, n: string)
    requires Inv(s) && Quiescent(s) && n in s.nodes
    ensures n in s.caches && (s.caches[n] == s.db <==> forall id :: Settles(s, n, id))
  {
    hide Inv, Quiescent, Settles;
    QuiescentAgrees(s, n, RuleId("", ""));
    if forall id :: Settles(s, n, id) {
      forall id
        ensures id in s.caches[n] <==> id in s.db
        ensures id in s.db ==> s.caches[n][id] == s.db[id]
      {
        QuiescentAgrees(s, n, id);
      }
      assert s.caches[n] == s.db;
    } else {
      var id :| !Settles(s, n, id);
      QuiescentAgrees(s, n, id);
    }
  }

  /**
   * Convergence, over every run of any number of nodes in which whatever is created again finds nothing of its
   * earlier life: once nothing is under way, a node's cache equals the database exactly when neither a race of a
   * deletion with a cache write nor a stale list is left unsettled at that node; and so for every single rule.
   */
  lemma Convergence(nodes: set<string>, actions: seq<Action>, n: string)
    requires IsRun(Start(nodes), actions) && CleanRun(Start(nodes), actions)
    requires Quiescent(Run(Start(nodes), actions)) && n in nodes
    ensures var s := Run(Start(nodes), actions);
            && n in s.caches
            && (s.caches[n] == s.db <==> forall id :: Settles(s, n, id))
            && (forall id :: Agrees(s, n, id) <==> Settles(s, n, id))
  {
    hide Inv, IsRun, CleanRun, Run, Quiescent, Agrees, Settles;
    ReachedInv(nodes, actions);
    var s := Run(Start(nodes), actions);
    QuiescentEqual(s, n);
    forall id
      ensures Agrees(s, n, id) <==> Settles(s, n, id)
    {
      QuiescentAgrees(s, n, id);
    }
  }

  /** In every such run no cache is ahead of the database, or of the last version before the deletion. */
  lemma NeverAhead(nodes: set<string>, actions: seq<Action>, n: string, id: RuleId)
    requires IsRun(Start(nodes), actions) && CleanRun(Start(nodes), actions)
    requires var s := Run(Start(nodes), actions); n in s.caches && id in s.caches[n]
    ensures var s := Run(Start(nodes), actions);
            var version := s.caches[n][id].version;
            if id in s.db then version <= s.db[id].version else id in s.dead && version <= s.dead[id]
  {
    hide IsRun, CleanRun, Run, Start, Tracked, DeletionsTrue, Sound;
    ReachedInv(nodes, actions);
    var s := Run(Start(nodes), actions);
    CacheKnows(s, n, id);
    if id in s.db {
      StoredIsAlive(s, id);
    }
  }

  // When nothing races or lags

  /**
   * A deletion finds no cache write of its rule outstanding, a stored list has every rule as it is stored or its
   * announcement is still coming, and a rule is created again only when nothing of its earlier life is left.
   */
  ghost predicate CleanStep(s: State, a: Action) {
    && CleanlyCreates(s, a)
    && (a.WriteDelete? ==> forall n | n in s.nodes :: !Outstanding(s, n, a.id))
    && (a.SyncStore? ==> forall id | id in s.db :: Listed(s, a.node, id) || PutComing(s, a.node, id))
  }

  ghost predicate CleanSteps(s: State, actions: seq<Action>)
    requires IsRun(s, actions)
    decreases |actions|
  {
    actions == [] || (CleanStep(s, actions[0]) && CleanSteps(Next(s, actions[0]), actions[1..]))
  }

  lemma CleanStepSettles(s: State, a: Action)
    requires Enabled(s, a) && CleanStep(s, a)
    ensures Next(s, a).raced <= s.raced && Next(s, a).lagging <= s.lagging
  {
    hide AfterPut, AfterDelete, AfterReplay, AfterPutCached, AfterDropCached, AfterInsert, AfterPublish;
    hide AfterRepublish, AfterMarkSent, AfterDuplicate, AfterFetch, AfterDrop, AfterApply, AfterLoad, AfterStore;
    hide Outstanding, PutComing, Listed, CleanlyCreates;
    if a.WriteCreate? || a.WriteUpdate? {
      PutEffects(s, a.node, a.rule);
    } else if a.WriteDelete? {
      CleanDeleteEffects(s, a.node, a.id);
    } else if a.Replay? {
      ReplayEffects(s, a.node, a.id);
    } else if a.AdminCache? && a.op.DropWritten? {
      DropCachedEffects(s, a.op);
    } else if a.Republish? {
      RepublishEffects(s, a.event);
    } else if a.Handle? {
      DropEffects(s, a.delivery);
    } else if a.SyncStore? {
      CleanStoreEffects(s, a.node);
    }
  }

  lemma CleanDeleteEffects(s: State, m: string, id: RuleId)
    requires id in s.db && forall n | n in s.nodes :: !Outstanding(s, n, id)
    ensures AfterDelete(s, m, id).raced <= s.raced && AfterDelete(s, m, id).lagging <= s.lagging
  {
    hide Outstanding;
  }

  lemma CleanStoreEffects(s: State, n: string)
    requires n in s.loaded && forall id | id in s.db :: Listed(s, n, id) || PutComing(s, n, id)
    ensures AfterStore(s, n).raced <= s.raced && AfterStore(s, n).lagging <= s.lagging
  {
    hide FetchOut, WriteOut, PutComing, Listed;
  }

  lemma {:induction false} CleanStepsSettle(s: State, actions: seq<Action>)
    requires IsRun(s, actions) && CleanSteps(s, actions)
    ensures CleanRun(s, actions)
    ensures Run(s, actions).raced <= s.raced && Run(s, actions).lagging <= s.lagging
    decreases |actions|
  {
    hide Next, Enabled, Outstanding, Listed, PutComing, CleanlyCreates;
    if actions != [] {
      CleanStepSettles(s, actions[0]);
      CleanStepsSettle(Next(s, actions[0]), actions[1..]);
    }
  }

  /** Every cache equals the database once nothing is under way, if every step is clean. */
  lemma CleanConvergence(nodes: set<string>, actions: seq<Action>)
    requires IsRun(Start(nodes), actions) && CleanSteps(Start(nodes), actions)
    requires Quiescent(Run(Start(nodes), actions))
    ensures var s := Run(Start(nodes), actions); forall n | n in nodes :: n in s.caches && s.caches[n] == s.db
  {
    hide IsRun, Run, CleanSteps, CleanRun, Quiescent;
    CleanStepsSettle(Start(nodes), actions);
    var s := Run(Start(nodes), actions);
    forall n | n in nodes
      ensures n in s.caches && s.caches[n] == s.db
    {
      Convergence(nodes, actions, n);
      assert forall id :: Settles(s, n, id);
    }
  }

  // Creations and updates only

  predicate PutsOnly(actions: seq<Action>) {
    forall a | a in actions :: !a.WriteDelete? && !a.SyncLoad?
  }

  lemma StepKeepsNoDead(s: State, a: Action)
    requires Enabled(s, a) && !a.WriteDelete? && !a.SyncLoad? && s.dead == map[] && s.loaded == map[]
    ensures Next(s, a).dead == map[] && Next(s, a).loaded == map[] && CleanStep(s, a)
  {
    hide AfterReplay, AfterPutCached, AfterDropCached, AfterInsert, AfterPublish, AfterRepublish, AfterMarkSent;
    hide AfterDuplicate, AfterFetch, AfterDrop, AfterApply, Outstanding, PutComing, CleanAt, Others;
  }

  lemma {:induction false} PutsOnlyClean(s: State, actions: seq<Action>)
    requires IsRun(s, actions) && PutsOnly(actions) && s.dead == map[] && s.loaded == map[]
    ensures CleanSteps(s, actions)
    decreases |actions|
  {
    hide Next, Enabled, CleanStep;
    if actions != [] {
      assert actions[0] in actions && forall a | a in actions[1..] :: a in actions;
      StepKeepsNoDead(s, actions[0]);
      PutsOnlyClean(Next(s, actions[0]), actions[1..]);
    }
  }

  // Each call, handler and synchronisation as one step

  /** Whatever is under way at a node runs to its end before any other step. */
  ghost predicate Atomic(s: State, actions: seq<Action>)
    requires IsRun(s, actions)
    decreases |actions|
  {
    actions == [] ||
    (&& ((s.ops == multiset{} && s.fetched == multiset{} && s.loaded == map[])
         || actions[0].AdminCache? || actions[0].AdminInsert? || actions[0].Apply? || actions[0].SyncStore?)
     && Atomic(Next(s, actions[0]), actions[1..]))
  }

  predicate FreshLists(s: State) {
    forall n | n in s.loaded :: s.loaded[n] == s.db
  }

  lemma AtomicStepClean(s: State, a: Action)
    requires Enabled(s, a) && CleanlyCreates(s, a) && FreshLists(s)
    requires || (s.ops == multiset{} && s.fetched == multiset{} && s.loaded == map[])
             || a.AdminCache? || a.AdminInsert? || a.Apply? || a.SyncStore?
    ensures CleanStep(s, a) && FreshLists(Next(s, a))
  {
    hide Next, PutComing, CleanlyCreates;
    AtomicKeepsLists(s, a);
  }

  lemma AtomicKeepsLists(s: State, a: Action)
    requires Enabled(s, a) && FreshLists(s)
    requires || (s.ops == multiset{} && s.fetched == multiset{} && s.loaded == map[])
             || a.AdminCache? || a.AdminInsert? || a.Apply? || a.SyncStore?
    ensures FreshLists(Next(s, a))
  {
    hide AfterReplay, AfterPutCached, AfterDropCached, AfterInsert, AfterPublish, AfterRepublish, AfterMarkSent;
    hide AfterDuplicate, AfterFetch, AfterDrop, AfterApply, AfterPut, AfterDelete, AfterLoad, AfterStore, FreshLists;
    if a.SyncLoad? || a.SyncStore? {
      SyncKeepsLists(s, a.node);
    } else if s.loaded == map[] {
      NoLists(Next(s, a));
    } else {
      SameLists(s, Next(s, a));
    }
  }

  lemma SyncKeepsLists(s: State, n: string)
    requires FreshLists(s)
    ensures FreshLists(AfterLoad(s, n)) && (n in s.loaded ==> FreshLists(AfterStore(s, n)))
  {
    hide RacedAfterStore, LaggingAfterStore;
  }

  lemma NoLists(t: State)
    requires t.loaded == map[]
    ensures FreshLists(t)
  {
  }

  lemma SameLists(s: State, t: State)
    requires FreshLists(s) && t.loaded == s.loaded && t.db == s.db
    ensures FreshLists(t)
  {
  }

  lemma {:induction false} AtomicClean(s: State, actions: seq<Action>)
    requires IsRun(s, actions) && Atomic(s, actions) && CleanRun(s, actions) && FreshLists(s)
    ensures CleanSteps(s, actions)
    decreases |actions|
  {
    hide Next, Enabled, CleanStep, CleanlyCreates, FreshLists;
    if actions != [] {
      AtomicStepClean(s, actions[0]);
      AtomicClean(Next(s, actions[0]), actions[1..]);
    }
  }

  /**
   * With creations and updates only, or with each admin call, handler and synchronisation as one step and whatever is
   * created again clean, every cache equals the database once nothing is under way.
   */
  lemma SimpleConvergence(nodes: set<string>, actions: seq<Action>)
    requires IsRun(Start(nodes), actions) && Quiescent(Run(Start(nodes), actions))
    requires PutsOnly(actions) || (Atomic(Start(nodes), actions) && CleanRun(Start(nodes), actions))
    ensures var s := Run(Start(nodes), actions); forall n | n in nodes :: n in s.caches && s.caches[n] == s.db
  {
    hide IsRun, Run, CleanSteps, CleanRun, Quiescent, Atomic;
    if PutsOnly(actions) {
      PutsOnlyClean(Start(nodes), actions);
    } else {
      AtomicClean(Start(nodes), actions);
    }
    CleanConvergence(nodes, actions);
  }
}
