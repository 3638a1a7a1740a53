/** Coalescer.Do as interleaved steps of concurrent callers. */
module Coalescer {
  import opened Base

  /** A coalesced entry; `result` is set when its done channel is closed. */
  datatype Entry<R> = Entry(key: string, created: int, result: Option<R>)

  /** Where a caller of Do is. */
  datatype Caller<R> =
    | Running(entry: nat)                  // leader, executing fn
    | Published(entry: nat, result: R)     // leader, done closed, entry not yet removed
    | Waiting(entry: nat)                  // follower, blocked on done
    | Returned(entry: nat, result: R)
    | Cancelled(entry: nat)                // follower whose context ended

  datatype State<R> = State(
    clock: int, current: map<string, nat>, entries: seq<Entry<R>>, callers: map<nat, Caller<R>>)

  /** `Enter` is the locked section, which reads the clock to check an entry's age and again to create one. */
  datatype Action<R> =
    | Enter(caller: nat, key: string, checkedAt: int, createdAt: int)
    | Finish(caller: nat, result: R)
    | Remove(caller: nat)
    | Deliver(caller: nat)
    | Cancel(caller: nat)

  predicate Fresh<R>(s: State<R>, key: string, now: int, ttl: int) {
    key in s.current && s.current[key] < |s.entries| && now - s.entries[s.current[key]].created <= ttl
  }

  predicate Enabled<R>(s: State<R>, a: Action<R>) {
    match a
    case Enter(c, _, checkedAt, createdAt) => c !in s.callers && s.clock <= checkedAt <= createdAt
    case Finish(c, _) => c in s.callers && s.callers[c].Running? && s.callers[c].entry < |s.entries|
    case Remove(c) => c in s.callers && s.callers[c].Published? && s.callers[c].entry < |s.entries|
    case Deliver(c) =>
      c in s.callers && s.callers[c].Waiting? && s.callers[c].entry < |s.entries|
      && s.entries[s.callers[c].entry].result.Some?
    case Cancel(c) => c in s.callers && s.callers[c].Waiting?
  }

  function Next<R>(s: State<R>, a: Action<R>, ttl: int): State<R>
    requires Enabled(s, a)
  {
    match a
    case Enter(c, key, checkedAt, createdAt) =>
      if Fresh(s, key, checkedAt, ttl) then
        s.(clock := checkedAt, callers := s.callers[c := Waiting(s.current[key])])
      else
        State(createdAt, s.current[key := |s.entries|], s.entries + [Entry(key, createdAt, None)],
              s.callers[c := Running(|s.entries|)])
    case Finish(c, result) =>
      var e := s.callers[c].entry;
      s.(entries := s.entries[e := s.entries[e].(result := Some(result))],
         callers := s.callers[c := Published(e, result)])
    case Remove(c) =>
      var e, result := s.callers[c].entry, s.callers[c].result;
      var key := s.entries[e].key;
      s.(current := if key in s.current && s.current[key] == e then s.current - {key} else s.current,
         callers := s.callers[c := Returned(e, result)])
    case Deliver(c) =>
      var e := s.callers[c].entry;
      s.(callers := s.callers[c := Returned(e, s.entries[e].result.value)])
    case Cancel(c) =>
      s.(callers := s.callers[c := Cancelled(s.callers[c].entry)])
  }

  predicate Executes<R>(s: State<R>, c: nat, e: nat) {
    c in s.callers && s.callers[c] == Running(e)
  }

  ghost predicate WellFormed<R>(s: State<R>) {
    && (forall k | k in s.current :: s.current[k] < |s.entries| && s.entries[s.current[k]].key == k)
    && (forall c | c in s.callers :: s.callers[c].entry < |s.entries|)
    && (forall e | 0 <= e < |s.entries| :: s.entries[e].created <= s.clock)
  }

  /** An entry has no result exactly while one leader executes it. */
  ghost predicate OneLeader<R>(s: State<R>) {
    && (forall c, d, e | Executes(s, c, e) && Executes(s, d, e) :: c == d)
    && (forall c, e: nat | Executes(s, c, e) && e < |s.entries| :: s.entries[e].result.None?)
    && (forall e: nat | e < |s.entries| && s.entries[e].result.None? :: exists c :: Executes(s, c, e))
  }

  /** An execution that is no longer registered is older than the time to live. */
  ghost predicate OldOnesExpired<R>(s: State<R>, ttl: int) {
    forall c, e: nat | Executes(s, c, e) && e < |s.entries| ::
      (s.entries[e].key in s.current && s.current[s.entries[e].key] == e) || s.clock - s.entries[e].created > ttl
  }

  /** Any two executions in flight for one key were created more than the time to live apart. */
  ghost predicate OverlapBounded<R>(s: State<R>, ttl: int) {
    forall c, d, e: nat, f: nat
      | Executes(s, c, e) && Executes(s, d, f) && e < f < |s.entries| && s.entries[e].key == s.entries[f].key ::
      s.entries[f].created - s.entries[e].created > ttl
  }

  /** Whoever returned, returned the result of the entry it led or joined. */
  ghost predicate ResultsAgree<R>(s: State<R>) {
    forall c | c in s.callers && (s.callers[c].Published? || s.callers[c].Returned?)
               && s.callers[c].entry < |s.entries| ::
      s.entries[s.callers[c].entry].result == Some(s.callers[c].result)
  }

  ghost predicate Inv<R>(s: State<R>, ttl: int) {
    WellFormed(s) && OneLeader(s) && OldOnesExpired(s, ttl) && OverlapBounded(s, ttl) && ResultsAgree(s)
  }

  lemma JoinKeepsInv<R>(s: State<R>, a: Action<R>, ttl: int)
    requires Inv(s, ttl) && Enabled(s, a) && a.Enter? && Fresh(s, a.key, a.checkedAt, ttl)
    ensures Inv(Next(s, a, ttl), ttl)
  {
    var t := Next(s, a, ttl);
    assert forall d | d in s.callers :: t.callers[d] == s.callers[d];
    assert forall d, e :: Executes(t, d, e) <==> Executes(s, d, e);
  }

  /** A new leader adds its entry and its execution, and changes no other. */
  lemma LeadEffect<R>(s: State<R>, a: Action<R>, ttl: int)
    requires Enabled(s, a) && a.Enter? && !Fresh(s, a.key, a.checkedAt, ttl)
    ensures var t, n := Next(s, a, ttl), |s.entries|;
            && t.clock == a.createdAt >= a.checkedAt >= s.clock && t.current == s.current[a.key := n]
            && |t.entries| == n + 1 && t.entries[n].key == a.key && t.entries[n].created == a.createdAt
            && t.entries[n].result.None? && (forall e | 0 <= e < n :: t.entries[e] == s.entries[e])
            && t.callers == s.callers[a.caller := Running(n)] && a.caller !in s.callers
            && (forall d, e :: Executes(t, d, e) <==> Executes(s, d, e) || (d == a.caller && e == n))
  {
  }

  lemma LeadKeepsLeaders<R>(s: State<R>, a: Action<R>, ttl: int)
    requires Inv(s, ttl) && Enabled(s, a) && a.Enter? && !Fresh(s, a.key, a.checkedAt, ttl)
    ensures WellFormed(Next(s, a, ttl)) && OneLeader(Next(s, a, ttl)) && ResultsAgree(Next(s, a, ttl))
  {
    hide Next, Enabled, Fresh, OldOnesExpired, OverlapBounded;
    LeadEffect(s, a, ttl);
    var t, n := Next(s, a, ttl), |s.entries|;
    assert forall d: nat, e: nat | Executes(s, d, e) :: e < n;
    assert Executes(t, a.caller, n);
  }

  /** A registered execution of the key that is not fresh is older than the time to live. */
  lemma StaleIsExpired<R>(s: State<R>, a: Action<R>, ttl: int)
    requires Enabled(s, a) && a.Enter? && !Fresh(s, a.key, a.checkedAt, ttl)
    ensures a.key in s.current && s.current[a.key] < |s.entries| ==>
              a.checkedAt - s.entries[s.current[a.key]].created > ttl
  {
  }

  lemma LeadKeepsAges<R>(s: State<R>, a: Action<R>, ttl: int)
    requires Inv(s, ttl) && Enabled(s, a) && a.Enter? && !Fresh(s, a.key, a.checkedAt, ttl)
    ensures OldOnesExpired(Next(s, a, ttl), ttl) && OverlapBounded(Next(s, a, ttl), ttl)
  {
    hide Next, Enabled, Fresh, OneLeader, ResultsAgree;
    LeadEffect(s, a, ttl);
    StaleIsExpired(s, a, ttl);
    assert forall d: nat, e: nat | Executes(s, d, e) :: e < |s.entries|;
  }

  lemma EnterKeepsInv<R>(s: State<R>, a: Action<R>, ttl: int)
    requires Inv(s, ttl) && Enabled(s, a) && a.Enter?
    ensures Inv(Next(s, a, ttl), ttl)
  {
    hide Next, Enabled, WellFormed, OneLeader, OldOnesExpired, OverlapBounded, ResultsAgree;
    if Fresh(s, a.key, a.checkedAt, ttl) {
      JoinKeepsInv(s, a, ttl);
    } else {
      LeadKeepsLeaders(s, a, ttl);
      LeadKeepsAges(s, a, ttl);
    }
  }

  lemma FinishKeepsInv<R>(s: State<R>, a: Action<R>, ttl: int)
    requires Inv(s, ttl) && Enabled(s, a) && a.Finish?
    ensures Inv(Next(s, a, ttl), ttl)
  {
    var t := Next(s, a, ttl);
    var done := s.callers[a.caller].entry;
    assert Executes(s, a.caller, done);
    assert forall c, e :: Executes(t, c, e) <==> Executes(s, c, e) && c != a.caller;
    assert forall e | 0 <= e < |s.entries| ::
        t.entries[e].key == s.entries[e].key && t.entries[e].created == s.entries[e].created;
    forall c | c in t.callers && (t.callers[c].Published? || t.callers[c].Returned?)
      ensures t.entries[t.callers[c].entry].result == Some(t.callers[c].result)
    {
    }
    forall e: nat | e < |t.entries| && t.entries[e].result.None?
      ensures exists c :: Executes(t, c, e)
    {
      var c :| Executes(s, c, e);
      assert Executes(t, c, e);
    }
  }

  lemma OthersKeepInv<R>(s: State<R>, a: Action<R>, ttl: int)
    requires Inv(s, ttl) && Enabled(s, a) && (a.Remove? || a.Deliver? || a.Cancel?)
    ensures Inv(Next(s, a, ttl), ttl)
  {
    var t := Next(s, a, ttl);
    assert forall c, e :: Executes(t, c, e) <==> Executes(s, c, e);
    forall e: nat | e < |t.entries| && t.entries[e].result.None?
      ensures exists c :: Executes(t, c, e)
    {
      var c :| Executes(s, c, e);
      assert Executes(t, c, e);
    }
  }

  lemma StepKeepsInv<R>(s: State<R>, a: Action<R>, ttl: int)
    requires Inv(s, ttl) && Enabled(s, a)
    ensures Inv(Next(s, a, ttl), ttl)
  {
    hide Inv, Next, Enabled;
    if a.Enter? {
      EnterKeepsInv(s, a, ttl);
    } else if a.Finish? {
      FinishKeepsInv(s, a, ttl);
    } else {
      OthersKeepInv(s, a, ttl);
    }
  }

  /** The actions of a run, each enabled where it happens. */
  ghost predicate IsRun<R>(s: State<R>, actions: seq<Action<R>>, ttl: int)
    decreases |actions|
  {
    actions == [] || (Enabled(s, actions[0]) && IsRun(Next(s, actions[0], ttl), actions[1..], ttl))
  }

  function Run<R>(s: State<R>, actions: seq<Action<R>>, ttl: int): State<R>
    requires IsRun(s, actions, ttl)
    decreases |actions|
  {
    if actions == [] then s else Run(Next(s, actions[0], ttl), actions[1..], ttl)
  }

  lemma {:induction false} RunsKeepInv<R>(s: State<R>, actions: seq<Action<R>>, ttl: int)
    requires Inv(s, ttl) && IsRun(s, actions, ttl)
    ensures Inv(Run(s, actions, ttl), ttl)
    decreases |actions|
  {
    hide Inv, Next, Enabled;
    if actions != [] {
      StepKeepsInv(s, actions[0], ttl);
      RunsKeepInv(Next(s, actions[0], ttl), actions[1..], ttl);
    }
  }

  /**
   * In every interleaving from a coalescer nobody uses: executions in flight for one key were created more than
   * the time to live apart, every follower still waiting on an unfinished entry has a leader executing it, and
   * every caller that returned has the result of its entry.
   */
  lemma EveryInterleaving<R>(clock: int, actions: seq<Action<R>>, ttl: int)
    requires IsRun(State(clock, map[], [], map[]), actions, ttl)
    ensures var s := Run(State(clock, map[], [], map[]), actions, ttl);
            && OverlapBounded(s, ttl)
            && (forall c | c in s.callers && s.callers[c].Waiting? ::
                  s.callers[c].entry < |s.entries|
                  && (s.entries[s.callers[c].entry].result.Some? || exists d :: Executes(s, d, s.callers[c].entry)))
            && (forall c | c in s.callers && s.callers[c].Returned? ::
                  s.callers[c].entry < |s.entries|
                  && s.entries[s.callers[c].entry].result == Some(s.callers[c].result))
  {
    RunsKeepInv(State(clock, map[], [], map[]), actions, ttl);
  }

  /**
   * A registered entry stays registered until its own leader removes it, or until a caller finds it older than the
   * time to live and replaces it; no leader ever removes another leader's entry. Results, once set, are final.
   */
  lemma EntriesAreOwned<R>(s: State<R>, a: Action<R>, ttl: int, key: string)
    requires Inv(s, ttl) && Enabled(s, a) && key in s.current
    ensures var e, t := s.current[key], Next(s, a, ttl);
            || (key in t.current && t.current[key] == e)
            || (a.Remove? && s.callers[a.caller] == Published(e, s.callers[a.caller].result) && key !in t.current)
            || (a.Enter? && a.key == key && a.checkedAt - s.entries[e].created > ttl && key in t.current
                && t.current[key] == |s.entries|)
    ensures forall e | 0 <= e < |s.entries| && s.entries[e].result.Some? ::
              Next(s, a, ttl).entries[e].result == s.entries[e].result
  {
    if a.Finish? {
      assert Executes(s, a.caller, s.callers[a.caller].entry);
    }
  }

  /** A caller keeps the entry it led or joined in every step. */
  lemma StepKeepsEntry<R>(s: State<R>, a: Action<R>, ttl: int, c: nat)
    requires Enabled(s, a) && c in s.callers
    ensures c in Next(s, a, ttl).callers && Next(s, a, ttl).callers[c].entry == s.callers[c].entry
  {
  }

  lemma {:induction false} RunKeepsEntry<R>(s: State<R>, actions: seq<Action<R>>, ttl: int, c: nat)
    requires IsRun(s, actions, ttl) && c in s.callers
    ensures c in Run(s, actions, ttl).callers && Run(s, actions, ttl).callers[c].entry == s.callers[c].entry
    decreases |actions|
  {
    hide Next, Enabled;
    if actions != [] {
      StepKeepsEntry(s, actions[0], ttl, c);
      RunKeepsEntry(Next(s, actions[0], ttl), actions[1..], ttl, c);
    }
  }

  /** A result, once set, is final over the rest of the run. */
  lemma {:induction false} RunKeepsResults<R>(s: State<R>, actions: seq<Action<R>>, ttl: int, e: nat)
    requires Inv(s, ttl) && IsRun(s, actions, ttl) && e < |s.entries| && s.entries[e].result.Some?
    ensures var t := Run(s, actions, ttl); e < |t.entries| && t.entries[e].result == s.entries[e].result
    decreases |actions|
  {
    hide Next, Enabled, Inv;
    if actions != [] {
      StepKeepsResult(s, actions[0], ttl, e);
      StepKeepsInv(s, actions[0], ttl);
      RunKeepsResults(Next(s, actions[0], ttl), actions[1..], ttl, e);
    }
  }

  lemma StepKeepsResult<R>(s: State<R>, a: Action<R>, ttl: int, e: nat)
    requires Inv(s, ttl) && Enabled(s, a) && e < |s.entries| && s.entries[e].result.Some?
    ensures var t := Next(s, a, ttl); e < |t.entries| && t.entries[e].result == s.entries[e].result
  {
    if a.Finish? {
      assert Executes(s, a.caller, s.callers[a.caller].entry);
    }
  }

  /**
   * Whoever has entered by the end of a run and has returned by the end of any longer run has the result of the very
   * entry it led or joined, and that result is final.
   */
  lemma ReturnsResultOfItsEntry<R>(
    clock: int, before: seq<Action<R>>, after: seq<Action<R>>, later: seq<Action<R>>, ttl: int, c: nat)
    requires IsRun(State(clock, map[], [], map[]), before, ttl)
    requires var s := Run(State(clock, map[], [], map[]), before, ttl); c in s.callers && IsRun(s, after, ttl)
    requires var t := Run(Run(State(clock, map[], [], map[]), before, ttl), after, ttl);
             c in t.callers && t.callers[c].Returned? && IsRun(t, later, ttl)
    ensures var s := Run(State(clock, map[], [], map[]), before, ttl);
            var t := Run(s, after, ttl);
            var u := Run(t, later, ttl);
            var e := s.callers[c].entry;
            && e < |u.entries| && u.entries[e].result == Some(t.callers[c].result)
            && c in u.callers && u.callers[c].entry == e
  {
    hide IsRun, Run, Next, Enabled;
    var start: State<R> := State(clock, map[], [], map[]);
    var s := Run(start, before, ttl);
    RunsKeepInv(start, before, ttl);
    RunKeepsEntry(s, after, ttl, c);
    RunsKeepInv(s, after, ttl);
    var t := Run(s, after, ttl);
    RunKeepsEntry(t, later, ttl, c);
    RunKeepsResults(t, later, ttl, s.callers[c].entry);
  }

  // Who leads and who joins

  /** A leader is executing the entry, or has finished it and not yet removed it. */
  predicate Works<R>(s: State<R>, c: nat, e: nat) {
    c in s.callers && (s.callers[c].Running? || s.callers[c].Published?) && s.callers[c].entry == e
  }

  /** Every registered entry has a leader at work on it. */
  ghost predicate RegisteredIsWorked<R>(s: State<R>) {
    forall k | k in s.current :: exists c :: Works(s, c, s.current[k])
  }

  /** An entry at work has one leader, and is registered or older than the time to live. */
  ghost predicate WorkIsRegistered<R>(s: State<R>, ttl: int) {
    && (forall c: nat, e: nat | Works(s, c, e) && e < |s.entries| ::
          || (s.entries[e].key in s.current && s.current[s.entries[e].key] == e)
          || s.clock - s.entries[e].created > ttl)
    && (forall c: nat, d: nat, e: nat | Works(s, c, e) && Works(s, d, e) :: c == d)
  }

  lemma StepKeepsWorked<R>(s: State<R>, a: Action<R>, ttl: int)
    requires Inv(s, ttl) && RegisteredIsWorked(s) && Enabled(s, a)
    ensures RegisteredIsWorked(Next(s, a, ttl))
  {
    hide OneLeader, OldOnesExpired, OverlapBounded, ResultsAgree;
    var t := Next(s, a, ttl);
    forall k | k in t.current
      ensures exists c :: Works(t, c, t.current[k])
    {
      if a.Enter? && !Fresh(s, a.key, a.checkedAt, ttl) && k == a.key {
        assert Works(t, a.caller, t.current[k]);
      } else {
        var c :| Works(s, c, s.current[k]);
        assert Works(t, c, t.current[k]);
      }
    }
  }

  lemma StepKeepsWork<R>(s: State<R>, a: Action<R>, ttl: int)
    requires Inv(s, ttl) && WorkIsRegistered(s, ttl) && Enabled(s, a)
    ensures WorkIsRegistered(Next(s, a, ttl), ttl)
  {
    hide OneLeader, OldOnesExpired, OverlapBounded, ResultsAgree;
    var t := Next(s, a, ttl);
    forall c: nat, e: nat | Works(t, c, e)
      ensures Works(s, c, e) || (a.Enter? && c == a.caller && e == |s.entries|)
      ensures a.Remove? ==> c != a.caller
    {
    }
    forall c: nat, e: nat | Works(t, c, e) && e < |t.entries|
      ensures || (t.entries[e].key in t.current && t.current[t.entries[e].key] == e)
              || t.clock - t.entries[e].created > ttl
    {
      if a.Remove? {
        assert Works(s, a.caller, s.callers[a.caller].entry);
      }
    }
  }

  lemma {:induction false} RunsKeepWork<R>(s: State<R>, actions: seq<Action<R>>, ttl: int)
    requires Inv(s, ttl) && RegisteredIsWorked(s) && WorkIsRegistered(s, ttl) && IsRun(s, actions, ttl)
    ensures RegisteredIsWorked(Run(s, actions, ttl)) && WorkIsRegistered(Run(s, actions, ttl), ttl)
    decreases |actions|
  {
    hide Inv, Next, Enabled, RegisteredIsWorked, WorkIsRegistered;
    if actions != [] {
      StepKeepsWorked(s, actions[0], ttl);
      StepKeepsWork(s, actions[0], ttl);
      StepKeepsInv(s, actions[0], ttl);
      RunsKeepWork(Next(s, actions[0], ttl), actions[1..], ttl);
    }
  }

  /** Some leader is at work on an entry of the key that is no older than the time to live. */
  ghost predicate YoungWork<R>(s: State<R>, key: string, now: int, ttl: int) {
    exists c: nat, e: nat ::
      Works(s, c, e) && e < |s.entries| && s.entries[e].key == key && now - s.entries[e].created <= ttl
  }

  lemma FreshIffWorked<R>(s: State<R>, key: string, now: int, ttl: int)
    requires Inv(s, ttl) && RegisteredIsWorked(s) && WorkIsRegistered(s, ttl) && s.clock <= now
    ensures Fresh(s, key, now, ttl) <==> YoungWork(s, key, now, ttl)
  {
    hide OneLeader, OldOnesExpired, OverlapBounded, ResultsAgree;
    if Fresh(s, key, now, ttl) {
      var c :| Works(s, c, s.current[key]);
    }
    if YoungWork(s, key, now, ttl) {
      var c: nat, e: nat :|
        Works(s, c, e) && e < |s.entries| && s.entries[e].key == key && now - s.entries[e].created <= ttl;
    }
  }

  /**
   * After any run a caller that enters joins an entry of its key if and only if some leader is at work on one no older
   * than the time to live; otherwise, and so whenever nobody is at work on its key, it leads a new one.
   */
  lemma JoinsIff<R>(clock: int, actions: seq<Action<R>>, ttl: int, a: Action<R>)
    requires IsRun(State(clock, map[], [], map[]), actions, ttl) && a.Enter?
    requires Enabled(Run(State(clock, map[], [], map[]), actions, ttl), a)
    ensures var s := Run(State(clock, map[], [], map[]), actions, ttl);
            var caller := Next(s, a, ttl).callers[a.caller];
            && (caller.Waiting? <==> YoungWork(s, a.key, a.checkedAt, ttl))
            && (caller.Waiting? ==> caller.entry < |s.entries| && s.entries[caller.entry].key == a.key)
            && (!caller.Waiting? ==> caller == Running(|s.entries|))
  {
    hide IsRun, Run, YoungWork;
    var start: State<R> := State(clock, map[], [], map[]);
    RunsKeepInv(start, actions, ttl);
    RunsKeepWork(start, actions, ttl);
    FreshIffWorked(Run(start, actions, ttl), a.key, a.checkedAt, ttl);
  }
}
