/** Versions over all runs: when a cache can get ahead of the database. */
module Versions {
  import opened Rules
  import opened Propagation
  import opened PropagationSteps
  import opened Sync
  import opened Drain
  import opened Races
  import opened Resync

  /** Some continuation without writes puts a version into the cache that is above the stored one. */
  ghost predicate CanGetAhead(s: State, n: string, id: RuleId) {
    exists after :: IsRun(s, after) && WriteFree(after) && Ahead(Run(s, after), n, id)
  }

  predicate Ahead(s: State, n: string, id: RuleId) {
    n in s.caches && id in s.caches[n] && id in s.db && s.caches[n][id].version > s.db[id].version
  }

  lemma OtherStepUpTo(s: State, a: Action, n: string, id: RuleId, version: int)
    requires UpTo(s, n, id, version) && Keyed(s.db) && Enabled(s, a)
    requires a.Replay? || a.Republish? || a.MarkSent? || a.Duplicate? || a.SyncLoad?
    ensures UpTo(Next(s, a), n, id, version)
  {
    hide FetchesUpTo, WritesUpTo, AfterRepublish, AfterMarkSent, AfterDuplicate, Others;
    if a.Replay? {
      WritesChange(s.ops, PutWritten(a.node, s.db[a.id]), n, id, version);
    }
  }

  lemma WriteFreeStepUpTo(s: State, a: Action, n: string, id: RuleId, version: int)
    requires UpTo(s, n, id, version) && Keyed(s.db) && Enabled(s, a) && !Writes(a)
    ensures UpTo(Next(s, a), n, id, version)
  {
    hide UpTo, Next, Enabled, Keyed;
    if Delivers(a) {
      StepUpTo(s, a, n, id, version);
    } else {
      OtherStepUpTo(s, a, n, id, version);
    }
  }

  lemma {:induction false} WriteFreeRunsUpTo(s: State, actions: seq<Action>, n: string, id: RuleId, version: int)
    requires UpTo(s, n, id, version) && Keyed(s.db) && IsRun(s, actions) && WriteFree(actions)
    ensures UpTo(Run(s, actions), n, id, version) && Run(s, actions).db == s.db
    decreases |actions|
  {
    hide UpTo, Next, Enabled, Keyed, Writes;
    if actions != [] {
      assert actions[0] in actions && forall a | a in actions[1..] :: a in actions;
      WriteFreeStepUpTo(s, actions[0], n, id, version);
      StepKeepsDb(s, actions[0]);
      WriteFreeRunsUpTo(Next(s, actions[0]), actions[1..], n, id, version);
    }
  }

  lemma AheadNow(s: State, n: string, id: RuleId)
    requires Ahead(s, n, id)
    ensures CanGetAhead(s, n, id)
  {
    Idle(s);
  }

  lemma AheadNext(s: State, a: Action, n: string, id: RuleId)
    requires Enabled(s, a) && !Writes(a) && Ahead(Next(s, a), n, id)
    ensures CanGetAhead(s, n, id)
  {
    hide IsRun, Run, Ahead;
    OneStep(s, a);
  }

  lemma FetchGetsAhead(s: State, f: Fetch)
    requires f in s.fetched && f.node in s.caches && IdOf(f.rule) in s.db
    requires f.rule.version > s.db[IdOf(f.rule)].version
    ensures CanGetAhead(s, f.node, IdOf(f.rule))
  {
    hide CanGetAhead;
    AheadNext(s, Apply(f), f.node, IdOf(f.rule));
  }

  lemma WriteGetsAhead(s: State, op: AdminOp)
    requires op in s.ops && op.PutWritten? && op.node in s.caches && IdOf(op.rule) in s.db
    requires op.rule.version > s.db[IdOf(op.rule)].version
    ensures CanGetAhead(s, op.node, IdOf(op.rule))
  {
    hide CanGetAhead;
    AheadNext(s, AdminCache(op), op.node, IdOf(op.rule));
  }

  lemma ListGetsAhead(s: State, n: string, id: RuleId)
    requires n in s.loaded && n in s.caches && id in s.db && !RulesUpTo(s.loaded[n], id, s.db[id].version)
    ensures CanGetAhead(s, n, id)
  {
    hide CanGetAhead, RacedAfterStore, LaggingAfterStore;
    AheadNext(s, SyncStore(n), n, id);
  }

  lemma NotUpToGetsAhead(s: State, n: string, id: RuleId)
    requires Keyed(s.db) && n in s.caches && id in s.db && !UpTo(s, n, id, s.db[id].version)
    ensures CanGetAhead(s, n, id)
  {
    hide CanGetAhead;
    var version := s.db[id].version;
    if !RulesUpTo(s.caches[n], id, version) {
      AheadNow(s, n, id);
    } else if n in s.loaded && !RulesUpTo(s.loaded[n], id, version) {
      ListGetsAhead(s, n, id);
    } else if !FetchesUpTo(s.fetched, n, id, version) {
      var f :| f in s.fetched && f.node == n && IdOf(f.rule) == id && f.rule.version > version;
      FetchGetsAhead(s, f);
    } else {
      var op :| op in s.ops && WritesAt(op, n, id) && op.rule.version > version;
      WriteGetsAhead(s, op);
    }
  }

  lemma UpToNeverAhead(s: State, n: string, id: RuleId)
    requires Keyed(s.db) && id in s.db && UpTo(s, n, id, s.db[id].version)
    ensures !CanGetAhead(s, n, id)
  {
    hide IsRun, Run, WriteFree, Keyed, FetchesUpTo, WritesUpTo;
    forall after | IsRun(s, after) && WriteFree(after)
      ensures !Ahead(Run(s, after), n, id)
    {
      WriteFreeRunsUpTo(s, after, n, id, s.db[id].version);
    }
  }

  /**
   * After any run at all, no continuation without writes puts the cache of a node ahead of a stored rule if and only if
   * no copy that is cached, listed, fetched or about to be written there is above the stored version.
   */
  lemma NeverAheadIff(nodes: set<string>, before: seq<Action>, n: string, id: RuleId)
    requires n in nodes && IsRun(Start(nodes), before) && id in Run(Start(nodes), before).db
    ensures var s := Run(Start(nodes), before); !CanGetAhead(s, n, id) <==> UpTo(s, n, id, s.db[id].version)
  {
    hide IsRun, Run, Start, Addressed, Keyed, CanGetAhead, UpTo;
    ReachedAddressed(nodes, before);
    ReachedKeyed(nodes, before);
    var s := Run(Start(nodes), before);
    CachesEverywhere(s);
    if UpTo(s, n, id, s.db[id].version) {
      UpToNeverAhead(s, n, id);
    } else {
      NotUpToGetsAhead(s, n, id);
    }
  }

  /** A rule that is deleted and created again while a cache has a version above the first leaves that cache ahead. */
  lemma EarlierLifeCanBeAhead(s: State, n: string, m: string, rule: Rule)
    requires m in s.nodes && rule.version == 1 && Current(s, n, IdOf(rule)) && s.db[IdOf(rule)].version > 1
    ensures var id := IdOf(rule);
            && Enabled(s, WriteDelete(m, id)) && Enabled(Next(s, WriteDelete(m, id)), WriteCreate(m, rule))
            && Ahead(Next(Next(s, WriteDelete(m, id)), WriteCreate(m, rule)), n, id)
  {
    hide Outstanding, Others;
  }
}
