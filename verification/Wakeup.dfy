/** The life of one limiter entry at the granularity of its atomic operations. */
module Wakeup {
  import opened Base
  import opened Entries

  /** Where the holder of a handle is; every handle is released at most once. */
  datatype Releaser =
    | Holding
    | Decremented(seen: int)   // refs.Add(-1) returned `seen`
    | WantsLock                // saw refs 0 and EntryQuiescing
    | HasLock
    | Broadcasted              // still holds the lock
    | Released

  /** Where the one goroutine that takes the entry out of the map is. */
  datatype Closer =
    | Absent
    | Evicting      // eviction unmapped the entry, about to load refs
    | MustQuiesce   // eviction saw refs above 0, about to store EntryQuiescing
    | Starting      // about to lock in waitForEntry
    | Checking      // holds the lock, about to load refs
    | GoingToSleep  // holds the lock, saw refs above 0
    | Asleep        // in cond.Wait, lock released
    | Woken         // about to lock again
    | Leaving       // loop left, holds the lock
    | Closing       // about to swap in EntryClosed
    | Done

  datatype Holder = CloserHolds | ReleaserHolds(id: nat)

  datatype State = State(
    refs: int, state: EntryState, mapped: bool, mutex: Option<Holder>,
    closer: Closer, releasers: map<nat, Releaser>, expired: bool, timer: Timer)

  /** The timer of waitForEntry: it fires once, after the deadline. */
  datatype Timer = Unset | Armed | Fired

  datatype Action =
    | Acquire(r: nat) | Decrement(r: nat) | LoadState(r: nat) | Lock(r: nat) | Broadcast(r: nat) | Unlock(r: nat)
    | Cutover | Evict | EvictLoad | EvictStore
    | CloserLock | CloserCheck | CloserWait | CloserUnlock | Close
    | Deadline | Fire

  const INITIAL: State := State(1, Active, true, None, Absent, map[0 := Holding], false, Unset)

  predicate At(s: State, r: nat, where: Releaser) {
    r in s.releasers && s.releasers[r] == where
  }

  predicate Enabled(s: State, a: Action) {
    match a
    case Acquire(r) => s.mapped && r !in s.releasers
    case Decrement(r) => At(s, r, Holding)
    case LoadState(r) => r in s.releasers && s.releasers[r].Decremented?
    case Lock(r) => At(s, r, WantsLock) && s.mutex.None?
    case Broadcast(r) => At(s, r, HasLock)
    case Unlock(r) => At(s, r, Broadcasted)
    case Cutover => s.mapped
    case Evict => s.mapped
    case EvictLoad => s.closer == Evicting
    case EvictStore => s.closer == MustQuiesce
    case CloserLock => (s.closer == Starting || s.closer == Woken) && s.mutex.None?
    case CloserCheck => s.closer == Checking
    case CloserWait => s.closer == GoingToSleep
    case CloserUnlock => s.closer == Leaving
    case Close => s.closer == Closing
    case Deadline => true
    case Fire => s.timer == Armed && s.expired && s.mutex.None?
  }

  function Move(s: State, r: nat, where: Releaser): (t: State)
    ensures t == s.(releasers := t.releasers)
  {
    s.(releasers := s.releasers[r := where])
  }

  function Next(s: State, a: Action): State
    requires Enabled(s, a)
  {
    match a
    case Acquire(r) => Move(s, r, Holding).(refs := s.refs + 1)
    case Decrement(r) => Move(s, r, Decremented(Max(0, s.refs - 1))).(refs := Max(0, s.refs - 1))
    case LoadState(r) =>
      Move(s, r, if s.releasers[r].seen == 0 && s.state == Quiescing then WantsLock else Released)
    case Lock(r) => Move(s, r, HasLock).(mutex := Some(ReleaserHolds(r)))
    case Broadcast(r) => Move(s, r, Broadcasted).(closer := if s.closer == Asleep then Woken else s.closer)
    case Unlock(r) => Move(s, r, Released).(mutex := None)
    case Cutover => s.(mapped := false, state := Quiescing, closer := Starting)
    case Evict => s.(mapped := false, closer := Evicting)
    case EvictLoad => s.(closer := if s.refs == 0 then Closing else MustQuiesce)
    case EvictStore => s.(state := Quiescing, closer := Starting)
    case CloserLock =>
      s.(mutex := Some(CloserHolds), closer := Checking, timer := if s.closer == Starting then Armed else s.timer)
    case CloserCheck => s.(closer := if s.refs > 0 && !s.expired then GoingToSleep else Leaving)
    case CloserWait => s.(mutex := None, closer := Asleep)
    case CloserUnlock => s.(mutex := None, closer := Closing)
    case Close => s.(state := Closed, closer := Done)
    case Deadline => s.(expired := true)
    case Fire => s.(closer := if s.closer == Asleep then Woken else s.closer, timer := Fired)
  }

  /** The unreleased handles. */
  ghost function Holders(s: State): set<nat> {
    set r | r in s.releasers && s.releasers[r] == Holding
  }

  /** A releaser that saw no references left and has still to broadcast. */
  predicate WillBroadcast(s: State, r: nat) {
    At(s, r, Decremented(0)) || At(s, r, WantsLock) || At(s, r, HasLock)
  }

  predicate Waits(c: Closer) {
    c == Starting || c == Checking || c == GoingToSleep || c == Asleep || c == Woken || c == Leaving
  }

  /** The entry's state, the map and the closer agree. */
  ghost predicate Lifecycle(s: State) {
    && (s.mapped <==> s.closer == Absent)
    && (s.mapped || s.closer == Evicting || s.closer == MustQuiesce ==> s.state == Active)
    && (Waits(s.closer) ==> s.state == Quiescing)
    && (s.state == Closed <==> s.closer == Done)
    && (s.closer == Closing ==> s.state != Closed)
  }

  ghost predicate MutexHeld(s: State) {
    && (s.mutex == Some(CloserHolds) <==> s.closer == Checking || s.closer == GoingToSleep || s.closer == Leaving)
    && (forall r: nat :: s.mutex == Some(ReleaserHolds(r)) <==> At(s, r, HasLock) || At(s, r, Broadcasted))
  }

  ghost predicate NoLostWakeup(s: State) {
    (s.closer == GoingToSleep || s.closer == Asleep) && s.refs == 0 ==> exists r :: WillBroadcast(s, r)
  }

  /** The timer is still to come whenever the closer sleeps or is about to; once it has fired the deadline is over. */
  ghost predicate TimerToCome(s: State) {
    && (s.closer == GoingToSleep || s.closer == Asleep ==> s.timer == Armed)
    && (s.closer == Checking || s.closer == Woken ==> s.timer != Unset)
    && (s.timer == Fired ==> s.expired)
  }

  /** The closer leaves its loop, and closes, only without references or past the deadline. */
  ghost predicate LeavesRightly(s: State) {
    s.closer == Leaving || s.closer == Closing || s.closer == Done ==> s.refs == 0 || s.expired
  }

  ghost predicate Inv(s: State) {
    && Lifecycle(s) && MutexHeld(s) && NoLostWakeup(s) && TimerToCome(s) && LeavesRightly(s)
    && s.refs == |Holders(s)|
  }

  /** The steps of a handle holder, which move it and leave everybody else where they are. */
  predicate Releases(a: Action) {
    a.Acquire? || a.Decrement? || a.LoadState? || a.Lock? || a.Broadcast? || a.Unlock?
  }

  lemma OthersStay(s: State, a: Action)
    requires Enabled(s, a)
    ensures !Releases(a) ==> Next(s, a).releasers == s.releasers && Next(s, a).refs == s.refs
    ensures Releases(a) ==> forall r: nat | r != a.r ::
              && (r in Next(s, a).releasers <==> r in s.releasers)
              && (r in s.releasers ==> Next(s, a).releasers[r] == s.releasers[r])
  {
  }

  lemma CountsHandles(s: State, a: Action)
    requires s.refs == |Holders(s)| && Enabled(s, a)
    ensures Next(s, a).refs == |Holders(Next(s, a))|
  {
    if a.Acquire? {
      assert Holders(Next(s, a)) == Holders(s) + {a.r};
    } else if a.Decrement? {
      assert a.r in Holders(s);
      assert Holders(Next(s, a)) == Holders(s) - {a.r};
    } else {
      SameHolders(s, a);
    }
  }

  lemma SameHolders(s: State, a: Action)
    requires Enabled(s, a) && !a.Acquire? && !a.Decrement?
    ensures Next(s, a).refs == s.refs && Holders(Next(s, a)) == Holders(s)
  {
    OthersStay(s, a);
    if Releases(a) {
      HolderKeepsPlace(s, a);
    }
  }

  lemma HolderKeepsPlace(s: State, a: Action)
    requires Enabled(s, a) && (a.LoadState? || a.Lock? || a.Broadcast? || a.Unlock?)
    ensures Next(s, a).refs == s.refs && a.r in s.releasers && a.r in Next(s, a).releasers
    ensures s.releasers[a.r] != Holding && Next(s, a).releasers[a.r] != Holding
  {
  }

  /** The obligation to wake the closer is handed on by every step. */
  lemma KeepsWakeup(s: State, a: Action)
    requires Inv(s) && Enabled(s, a)
    ensures NoLostWakeup(Next(s, a))
  {
    hide Holders;
    var t := Next(s, a);
    if (t.closer == GoingToSleep || t.closer == Asleep) && t.refs == 0 {
      if a.Decrement? {
        assert WillBroadcast(t, a.r);
      } else {
        assert s.refs == 0 && (s.closer == GoingToSleep || s.closer == Asleep);
        var r :| WillBroadcast(s, r);
        assert WillBroadcast(t, r);
      }
    }
  }

  lemma ReleaserKeepsMutex(s: State, a: Action)
    requires MutexHeld(s) && Enabled(s, a) && Releases(a)
    ensures MutexHeld(Next(s, a))
  {
    OthersStay(s, a);
    var t := Next(s, a);
    forall r: nat
      ensures t.mutex == Some(ReleaserHolds(r)) <==> At(t, r, HasLock) || At(t, r, Broadcasted)
    {
      assert s.mutex == Some(ReleaserHolds(r)) <==> At(s, r, HasLock) || At(s, r, Broadcasted);
      assert s.mutex == Some(ReleaserHolds(a.r)) <==> At(s, a.r, HasLock) || At(s, a.r, Broadcasted);
    }
  }

  lemma CloserKeepsMutex(s: State, a: Action)
    requires MutexHeld(s) && Lifecycle(s) && Enabled(s, a) && !Releases(a)
    ensures MutexHeld(Next(s, a))
  {
    hide Move;
    OthersStay(s, a);
    var t := Next(s, a);
    forall r: nat
      ensures t.mutex == Some(ReleaserHolds(r)) <==> At(t, r, HasLock) || At(t, r, Broadcasted)
    {
      assert s.mutex == Some(ReleaserHolds(r)) <==> At(s, r, HasLock) || At(s, r, Broadcasted);
    }
  }

  lemma KeepsMutex(s: State, a: Action)
    requires MutexHeld(s) && Lifecycle(s) && Enabled(s, a)
    ensures MutexHeld(Next(s, a))
  {
    hide MutexHeld, Lifecycle, Next, Enabled;
    if Releases(a) {
      ReleaserKeepsMutex(s, a);
    } else {
      CloserKeepsMutex(s, a);
    }
  }

  lemma KeepsTimer(s: State, a: Action)
    requires Inv(s) && Enabled(s, a)
    ensures TimerToCome(Next(s, a)) && Lifecycle(Next(s, a))
  {
    hide NoLostWakeup, Holders, Move;
  }

  lemma KeepsLeaving(s: State, a: Action)
    requires Inv(s) && Enabled(s, a)
    ensures LeavesRightly(Next(s, a))
  {
    hide NoLostWakeup, MutexHeld, TimerToCome, Move, Holders;
  }

  lemma StepKeepsInv(s: State, a: Action)
    requires Inv(s) && Enabled(s, a)
    ensures Inv(Next(s, a))
  {
    hide Next, Enabled, Lifecycle, MutexHeld, NoLostWakeup, TimerToCome, LeavesRightly, Holders;
    KeepsLeaving(s, a);
    KeepsTimer(s, a);
    CountsHandles(s, a);
    KeepsWakeup(s, a);
    KeepsMutex(s, a);
  }

  ghost predicate IsRun(s: State, actions: seq<Action>)
    decreases |actions|
  {
    actions == [] || (Enabled(s, actions[0]) && IsRun(Next(s, actions[0]), actions[1..]))
  }

  function Run(s: State, actions: seq<Action>): State
    requires IsRun(s, actions)
    decreases |actions|
  {
    if actions == [] then s else Run(Next(s, actions[0]), actions[1..])
  }

  lemma {:induction false} RunsKeepInv(s: State, actions: seq<Action>)
    requires Inv(s) && IsRun(s, actions)
    ensures Inv(Run(s, actions))
    decreases |actions|
  {
    hide Inv, Next;
    if actions != [] {
      StepKeepsInv(s, actions[0]);
      RunsKeepInv(Next(s, actions[0]), actions[1..]);
    }
  }

  /**
   * No lost wakeup: in every interleaving, when the closer sleeps and no handle is left, some releaser that
   * brought the count to zero has still to broadcast, and the state it loads is EntryQuiescing. Whatever the count,
   * a closer asleep still has its timer to come. The count is always the number of unreleased handles.
   */
  lemma NeverSleepsForever(actions: seq<Action>)
    requires IsRun(INITIAL, actions)
    ensures var s := Run(INITIAL, actions);
            && s.refs == |Holders(s)|
            && (s.closer == Asleep && s.refs == 0 ==> s.state == Quiescing && exists r :: WillBroadcast(s, r))
            && (s.closer == Asleep ==> s.timer == Armed)
  {
    assert Holders(INITIAL) == {0};
    RunsKeepInv(INITIAL, actions);
  }

  /**
   * In every interleaving the closer has left its loop, or closed the limiter, only when no handle was left or the
   * deadline had passed.
   */
  lemma WaitsForHandles(actions: seq<Action>)
    requires IsRun(INITIAL, actions)
    ensures var s := Run(INITIAL, actions);
            s.closer == Leaving || s.closer == Closing || s.closer == Done ==> Holders(s) == {} || s.expired
  {
    assert Holders(INITIAL) == {0};
    RunsKeepInv(INITIAL, actions);
  }

  /** Two runs in a row are a run. */
  lemma {:induction false} RunsCompose(s: State, a: seq<Action>, b: seq<Action>)
    requires IsRun(s, a) && IsRun(Run(s, a), b)
    ensures IsRun(s, a + b) && Run(s, a + b) == Run(Run(s, a), b)
    decreases |a|
  {
    hide Next;
    if a == [] {
      assert a + b == b;
    } else {
      assert (a + b)[1..] == a[1..] + b;
      RunsCompose(Next(s, a[0]), a[1..], b);
    }
  }

  lemma OneStep(s: State, a: Action)
    requires Enabled(s, a)
    ensures IsRun(s, [a]) && Run(s, [a]) == Next(s, a)
  {
    hide Next;
    assert [a][1..] == [];
    assert IsRun(Next(s, a), []);
  }

  /** And that releaser, with whoever holds the lock, can always carry the wakeup through without the timer. */
  lemma WakeupGoesThrough(s: State) returns (actions: seq<Action>)
    requires Inv(s) && s.closer == Asleep && s.refs == 0
    ensures IsRun(s, actions) && Run(s, actions).closer == Woken
    ensures forall a | a in actions :: a.LoadState? || a.Lock? || a.Broadcast? || a.Unlock?
  {
    var r :| WillBroadcast(s, r);
    if s.mutex.Some? {
      var q := s.mutex.value.id;
      if At(s, q, HasLock) {
        OneStep(s, Broadcast(q));
        return [Broadcast(q)];
      }
      OneStep(s, Unlock(q));
      var s1 := Next(s, Unlock(q));
      StepKeepsInv(s, Unlock(q));
      assert WillBroadcast(s1, r);
      var rest := WakeFree(s1, r);
      RunsCompose(s, [Unlock(q)], rest);
      return [Unlock(q)] + rest;
    }
    actions := WakeFree(s, r);
  }

  lemma WakeFree(s: State, r: nat) returns (actions: seq<Action>)
    requires Inv(s) && s.closer == Asleep && s.mutex.None? && WillBroadcast(s, r)
    ensures IsRun(s, actions) && Run(s, actions).closer == Woken
    ensures forall a | a in actions :: a.LoadState? || a.Lock? || a.Broadcast? || a.Unlock?
  {
    actions := [];
    var t := s;
    assert IsRun(s, []) && Run(s, []) == s;
    if At(s, r, Decremented(0)) {
      OneStep(s, LoadState(r));
      actions, t := [LoadState(r)], Next(s, LoadState(r));
    }
    OneStep(t, Lock(r));
    RunsCompose(s, actions, [Lock(r)]);
    actions, t := actions + [Lock(r)], Next(t, Lock(r));
    OneStep(t, Broadcast(r));
    RunsCompose(s, actions, [Broadcast(r)]);
    actions := actions + [Broadcast(r)];
  }

  /** Past the deadline the timer and whoever holds the lock wake the closer, and it leaves without sleeping again. */
  lemma TimeoutGoesThrough(s: State) returns (actions: seq<Action>)
    requires Inv(s) && s.closer == Asleep && s.expired
    ensures IsRun(s, actions) && Run(s, actions).closer == Leaving
    ensures forall a | a in actions :: a.Broadcast? || a.Unlock? || a.Fire? || a.CloserLock? || a.CloserCheck?
  {
    hide IsRun, Run, Inv, Holders;
    var t := s;
    actions := [];
    Nothing(s);
    if s.mutex.Some? {
      var q := SleeperLock(s);
      if At(s, q, HasLock) {
        OneStep(s, Broadcast(q));
        actions, t := [Broadcast(q)], Next(s, Broadcast(q));
      }
      OneStep(t, Unlock(q));
      RunsCompose(s, actions, [Unlock(q)]);
      actions, t := actions + [Unlock(q)], Next(t, Unlock(q));
    }
    if t.closer == Asleep {
      SleeperTimer(s);
      OneStep(t, Fire);
      RunsCompose(s, actions, [Fire]);
      actions, t := actions + [Fire], Next(t, Fire);
    }
    OneStep(t, CloserLock);
    RunsCompose(s, actions, [CloserLock]);
    actions, t := actions + [CloserLock], Next(t, CloserLock);
    OneStep(t, CloserCheck);
    RunsCompose(s, actions, [CloserCheck]);
    actions := actions + [CloserCheck];
  }

  lemma Nothing(s: State)
    ensures IsRun(s, []) && Run(s, []) == s
  {
  }

  /** While the closer sleeps only a releaser can hold the lock. */
  lemma SleeperLock(s: State) returns (q: nat)
    requires Inv(s) && s.closer == Asleep && s.mutex.Some?
    ensures At(s, q, HasLock) || At(s, q, Broadcasted)
  {
    q := s.mutex.value.id;
  }

  lemma SleeperTimer(s: State)
    requires Inv(s) && s.closer == Asleep
    ensures s.timer == Armed
  {
  }
}
