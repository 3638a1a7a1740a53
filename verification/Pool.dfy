/** A shard of the limiter pool: entries, handles, eviction, cutover and close, as interleaved steps. */
module Pool {
  import opened Base
  import opened Lru
  import opened Entries

  /** How far an entry is on its way out. */
  datatype Stage =
    | Mapped
    | Evicting                      // out of the map, the evictor has still to load refs
    | MustQuiesce                   // the evictor saw references
    | Quiesced                      // quiescing, waitForEntry not yet entered
    | Waiting(since: int)           // in waitForEntry
    | MayClose(gaveUp: Option<int>) // about to call closeLimiter; since when it waited, if references are left
    | Finished(late: Option<Late>)

  /** A limiter closed after a wait that was given up: when the wait began, and when the limiter was closed. */
  datatype Late = Late(since: int, closed: int)

  datatype Entry = Entry(key: string, state: EntryState, refs: int, closes: nat, stage: Stage)

  /** `handles` maps each unreleased handle to its entry. */
  datatype Shard = Shard(
    m: map<string, nat>, lru: seq<string>, entries: seq<Entry>, handles: map<nat, nat>,
    clock: int, closeTimeout: int)

  function Empty(clock: int, closeTimeout: int): Shard {
    Shard(map[], [], [], map[], clock, closeTimeout)
  }

  datatype Action =
    | Acquire(key: string, handle: nat, created: bool)  // `created`: the factory could build a limiter
    | Release(handle: nat)
    | Cutover(key: string)
    | EvictLoad(entry: nat)
    | EvictStore(entry: nat)
    | StartWaiting(entry: nat)
    | StopWaiting(entry: nat)                           // refs are gone, or CloseTimeout has passed
    | CloseLimiter(entry: nat)
    | Tick(now: int)

  predicate InStage(s: Shard, e: nat, stage: Stage) {
    e < |s.entries| && s.entries[e].stage == stage
  }

  predicate Enabled(s: Shard, a: Action) {
    match a
    case Acquire(_, h, _) => h !in s.handles
    case Release(h) => h in s.handles && s.handles[h] < |s.entries|
    case Cutover(_) => true
    case EvictLoad(e) => InStage(s, e, Evicting)
    case EvictStore(e) => InStage(s, e, MustQuiesce)
    case StartWaiting(e) => InStage(s, e, Quiesced)
    case StopWaiting(e) =>
      && e < |s.entries| && s.entries[e].stage.Waiting?
      && (s.entries[e].refs == 0 || s.clock > s.entries[e].stage.since + s.closeTimeout)
    case CloseLimiter(e) => e < |s.entries| && s.entries[e].stage.MayClose?
    case Tick(now) => s.clock <= now
  }

  function Put(s: Shard, e: nat, entry: Entry): Shard
    requires e < |s.entries|
  {
    s.(entries := s.entries[e := entry])
  }

  predicate Hit(s: Shard, key: string) {
    key in s.m && s.m[key] < |s.entries| && s.entries[s.m[key]].state == Active
  }

  /** The entry that `key` maps to is index `i`. */
  predicate MapsTo(s: Shard, key: string, i: nat) {
    key in s.m && s.m[key] == i
  }

  /** Takes the overflowing keys out of the list and the map. */
  function EvictOverflow(s: Shard, max: nat): (t: Shard)
    ensures t == s.(m := t.m, lru := t.lru, entries := t.entries)
  {
    var gone := Overflow(s.lru, max);
    s.(m := map k | k in s.m && k !in gone :: s.m[k],
       lru := Kept(s.lru, max),
       entries :=
          seq(|s.entries|, i requires 0 <= i < |s.entries| =>
            if s.entries[i].key in gone && MapsTo(s, s.entries[i].key, i) then s.entries[i].(stage := Evicting)
            else s.entries[i]))
  }

  /** A new entry with one reference, mapped and most recently used. */
  function Insert(s: Shard, key: string, handle: nat): Shard {
    s.(m := s.m[key := |s.entries|], lru := Front(s.lru, key),
       entries := s.entries + [Entry(key, Active, 1, 0, Mapped)], handles := s.handles[handle := |s.entries|])
  }

  function CloseEntry(entry: Entry, late: Option<Late>): Entry {
    Entry(entry.key, Closed, entry.refs, entry.closes + (if entry.state == Closed then 0 else 1),
          Finished(late))
  }

  function Next(s: Shard, a: Action, max: nat): Shard
    requires Enabled(s, a)
  {
    match a
    case Acquire(key, h, created) =>
      if Hit(s, key) then
        var e := s.m[key];
        Put(s, e, s.entries[e].(refs := s.entries[e].refs + 1)).(lru := Front(s.lru, key), handles := s.handles[h := e])
      else if !created then s
      else EvictOverflow(Insert(s, key, h), max)
    case Release(h) =>
      var e := s.handles[h];
      Put(s, e, s.entries[e].(refs := Max(0, s.entries[e].refs - 1))).(handles := s.handles - {h})
    case Cutover(key) =>
      if key !in s.m || s.m[key] >= |s.entries| then s
      else
        var e := s.m[key];
        Put(s, e, s.entries[e].(state := Quiescing, stage := Quiesced)).(m := s.m - {key}, lru := Without(s.lru, key))
    case EvictLoad(e) =>
      Put(s, e, s.entries[e].(stage := if s.entries[e].refs == 0 then MayClose(None) else MustQuiesce))
    case EvictStore(e) => Put(s, e, s.entries[e].(state := Quiescing, stage := Quiesced))
    case StartWaiting(e) => Put(s, e, s.entries[e].(stage := Waiting(s.clock)))
    case StopWaiting(e) =>
      var since := if s.entries[e].refs == 0 then None else Some(s.entries[e].stage.since);
      Put(s, e, s.entries[e].(stage := MayClose(since)))
    case CloseLimiter(e) =>
      var since := s.entries[e].stage.gaveUp;
      Put(s, e, CloseEntry(s.entries[e], if since.None? then None else Some(Late(since.value, s.clock))))
    case Tick(now) => s.(clock := now)
  }

  ghost function HandlesOf(s: Shard, e: nat): set<nat> {
    set h | h in s.handles && s.handles[h] == e
  }

  /** The map and the LRU hold the same keys, once each and not too many. */
  ghost predicate KeysAgree(s: Shard, max: nat) {
    Distinct(s.lru) && (forall k :: k in s.m <==> k in s.lru) && |s.lru| <= max
  }

  /** Mapped entries are exactly those the map points to, and are active. */
  ghost predicate MapAgrees(s: Shard) {
    && (forall k | k in s.m :: s.m[k] < |s.entries| && s.entries[s.m[k]].key == k)
    && (forall e: nat | e < |s.entries| :: s.entries[e].stage == Mapped <==> MapsTo(s, s.entries[e].key, e))
  }

  ghost predicate EntryOk(entry: Entry) {
    && (entry.stage == Mapped || entry.stage == Evicting || entry.stage == MustQuiesce ==> entry.state == Active)
    && (entry.stage == Quiesced || entry.stage.Waiting? ==> entry.state == Quiescing)
    && (entry.stage.Finished? <==> entry.state == Closed)
    && entry.closes == (if entry.stage.Finished? then 1 else 0)
    && (entry.stage == MayClose(None) || entry.stage == Finished(None) ==> entry.refs == 0)
  }

  ghost predicate EntriesOk(s: Shard) {
    forall e: nat | e < |s.entries| :: EntryOk(s.entries[e])
  }

  /** References are the unreleased handles. */
  ghost predicate RefsAgree(s: Shard) {
    && (forall h | h in s.handles :: s.handles[h] < |s.entries|)
    && (forall e: nat | e < |s.entries| :: s.entries[e].refs == |HandlesOf(s, e)|)
  }

  /** A wait is given up, and its limiter closed, only more than the timeout after it began. */
  predicate OnTime(entry: Entry, clock: int, closeTimeout: int) {
    && (entry.stage.MayClose? && entry.stage.gaveUp.Some? ==> clock > entry.stage.gaveUp.value + closeTimeout)
    && (entry.stage.Finished? && entry.stage.late.Some? ==>
          entry.stage.late.value.closed > entry.stage.late.value.since + closeTimeout)
  }

  ghost predicate AllOnTime(entries: seq<Entry>, clock: int, closeTimeout: int) {
    forall e: nat | e < |entries| :: OnTime(entries[e], clock, closeTimeout)
  }

  ghost predicate Inv(s: Shard, max: nat) {
    KeysAgree(s, max) && MapAgrees(s) && EntriesOk(s) && RefsAgree(s) && AllOnTime(s.entries, s.clock, s.closeTimeout)
  }

  // Each kind of change keeps the references right

  lemma HandleAdded(s: Shard, t: Shard, h: nat, e: nat)
    requires RefsAgree(s) && h !in s.handles && t.handles == s.handles[h := e] && e < |t.entries|
    requires |s.entries| <= |t.entries| && (|s.entries| < |t.entries| ==> e == |s.entries| == |t.entries| - 1)
    requires forall i: nat | i < |t.entries| ::
      t.entries[i].refs == (if i < |s.entries| then s.entries[i].refs else 0) + (if i == e then 1 else 0)
    ensures RefsAgree(t)
  {
    forall i: nat | i < |t.entries|
      ensures t.entries[i].refs == |HandlesOf(t, i)|
    {
      HandleSets(s, t, h, e, i);
      if i >= |s.entries| {
        assert HandlesOf(s, i) == {};
      }
    }
  }

  lemma HandleSets(s: Shard, t: Shard, h: nat, e: nat, i: nat)
    requires h !in s.handles && t.handles == s.handles[h := e]
    ensures HandlesOf(t, i) == if i == e then HandlesOf(s, i) + {h} else HandlesOf(s, i)
    ensures h !in HandlesOf(s, i)
  {
  }

  lemma HandleDropped(s: Shard, t: Shard, h: nat)
    requires RefsAgree(s) && h in s.handles && t.handles == s.handles - {h} && |s.entries| == |t.entries|
    requires forall i: nat | i < |t.entries| ::
      t.entries[i].refs == if i == s.handles[h] then Max(0, s.entries[i].refs - 1) else s.entries[i].refs
    ensures RefsAgree(t) && s.entries[s.handles[h]].refs > 0
  {
    var e := s.handles[h];
    assert h in HandlesOf(s, e);
    forall i: nat | i < |t.entries|
      ensures t.entries[i].refs == |HandlesOf(t, i)|
    {
      if i == e {
        assert HandlesOf(t, i) == HandlesOf(s, i) - {h};
      } else {
        assert HandlesOf(t, i) == HandlesOf(s, i);
      }
    }
  }

  lemma HandlesKept(s: Shard, t: Shard)
    requires RefsAgree(s) && t.handles == s.handles && |s.entries| == |t.entries|
    requires forall i: nat | i < |t.entries| :: t.entries[i].refs == s.entries[i].refs
    ensures RefsAgree(t)
  {
    forall i: nat | i < |t.entries|
      ensures t.entries[i].refs == |HandlesOf(t, i)|
    {
      assert HandlesOf(t, i) == HandlesOf(s, i);
    }
  }

  // Each kind of change keeps the map and the entries right

  /** Changing an entry without moving it in or out of the map. */
  lemma EntryChanged(s: Shard, e: nat, entry: Entry)
    requires MapAgrees(s) && EntriesOk(s) && e < |s.entries|
    requires entry.key == s.entries[e].key && EntryOk(entry)
    requires entry.stage == Mapped <==> s.entries[e].stage == Mapped
    ensures MapAgrees(Put(s, e, entry)) && EntriesOk(Put(s, e, entry))
  {
  }

  /** Taking an entry out of the map. */
  lemma EntryUnmapped(s: Shard, t: Shard, key: string, entry: Entry)
    requires MapAgrees(s) && EntriesOk(s) && key in s.m && entry.key == key && entry.stage != Mapped && EntryOk(entry)
    requires t.entries == s.entries[s.m[key] := entry] && t.m == s.m - {key}
    ensures MapAgrees(t) && EntriesOk(t)
  {
    forall i: nat | i < |t.entries|
      ensures t.entries[i].stage == Mapped <==> MapsTo(t, t.entries[i].key, i)
    {
    }
  }

  lemma InsertKeepsMap(s: Shard, key: string, handle: nat)
    requires MapAgrees(s) && EntriesOk(s) && key !in s.m
    ensures MapAgrees(Insert(s, key, handle)) && EntriesOk(Insert(s, key, handle))
  {
    var t := Insert(s, key, handle);
    forall i: nat | i < |t.entries|
      ensures t.entries[i].stage == Mapped <==> MapsTo(t, t.entries[i].key, i)
    {
    }
  }

  lemma EvictKeepsMap(s: Shard, max: nat)
    requires MapAgrees(s) && EntriesOk(s)
    ensures MapAgrees(EvictOverflow(s, max)) && EntriesOk(EvictOverflow(s, max))
  {
    hide Overflow, Kept;
    var t := EvictOverflow(s, max);
    forall i: nat | i < |t.entries|
      ensures t.entries[i].stage == Mapped <==> MapsTo(t, t.entries[i].key, i)
      ensures EntryOk(t.entries[i])
    {
      assert EntryOk(s.entries[i]);
    }
  }

  /** Evicting the overflow leaves the same keys in the map and the list, and at most `max`. */
  lemma EvictKeepsKeys(s: Shard, max: nat)
    requires Distinct(s.lru) && forall k :: k in s.m <==> k in s.lru
    ensures KeysAgree(EvictOverflow(s, max), max)
  {
    var t := EvictOverflow(s, max);
    forall k
      ensures k in t.m <==> k in t.lru
    {
      SplitMembers(s.lru, max, k);
    }
  }

  lemma SplitMembers(list: seq<string>, max: nat, k: string)
    requires Distinct(list)
    ensures k in Kept(list, max) <==> k in list && k !in Overflow(list, max)
  {
    if |list| > max {
      assert list == list[..max] + list[max..];
    }
  }

  lemma InsertOnTime(s: Shard, key: string, handle: nat, max: nat)
    requires AllOnTime(s.entries, s.clock, s.closeTimeout)
    ensures AllOnTime(EvictOverflow(Insert(s, key, handle), max).entries, s.clock, s.closeTimeout)
  {
    hide Overflow, Kept;
  }

  lemma PutOnTime(entries: seq<Entry>, e: nat, entry: Entry, clock: int, closeTimeout: int)
    requires AllOnTime(entries, clock, closeTimeout) && e < |entries| && OnTime(entry, clock, closeTimeout)
    ensures AllOnTime(entries[e := entry], clock, closeTimeout)
  {
    hide OnTime;
  }

  lemma EntryOnTime(s: Shard, e: nat, max: nat)
    requires Inv(s, max) && e < |s.entries|
    ensures OnTime(s.entries[e], s.clock, s.closeTimeout) && EntryOk(s.entries[e]) && s.entries[e].refs >= 0
  {
    hide KeysAgree, MapAgrees, HandlesOf, EntryOk;
  }

  lemma HitKeepsInv(s: Shard, key: string, handle: nat, max: nat)
    requires Inv(s, max) && Hit(s, key) && handle !in s.handles
    ensures Inv(Next(s, Acquire(key, handle, true), max), max)
    ensures Next(s, Acquire(key, handle, false), max) == Next(s, Acquire(key, handle, true), max)
  {
    hide RefsAgree, MapAgrees, EntriesOk, EntryOk, AllOnTime, OnTime, KeysAgree, Front, Insert, EvictOverflow;
    var t := Next(s, Acquire(key, handle, true), max);
    var e := s.m[key];
    var entry := s.entries[e].(refs := s.entries[e].refs + 1);
    FrontKeepsKeys(s, t, key, max);
    HitIsMapped(s, key);
    EntryChanged(s, e, entry);
    MappedOnTime(s, e, entry, max);
    PutOnTime(s.entries, e, entry, s.clock, s.closeTimeout);
    SameMap(Put(s, e, entry), t);
    HandleAdded(s, t, handle, e);
  }

  lemma FrontKeepsKeys(s: Shard, t: Shard, key: string, max: nat)
    requires KeysAgree(s, max) && key in s.m && t.m == s.m && t.lru == Front(s.lru, key)
    ensures KeysAgree(t, max)
  {
  }

  lemma MappedOnTime(s: Shard, e: nat, entry: Entry, max: nat)
    requires Inv(s, max) && e < |s.entries| && entry.stage == s.entries[e].stage
    ensures OnTime(entry, s.clock, s.closeTimeout)
  {
    hide Inv;
    EntryOnTime(s, e, max);
  }

  lemma MissKeepsInv(s: Shard, key: string, handle: nat, max: nat)
    requires Inv(s, max) && !Hit(s, key) && handle !in s.handles
    ensures Inv(EvictOverflow(Insert(s, key, handle), max), max)
  {
    hide RefsAgree, MapAgrees, EntriesOk, EntryOk, EvictOverflow, AllOnTime;
    var mid := Insert(s, key, handle);
    MissIsUnmapped(s, key);
    InsertKeepsMap(s, key, handle);
    InsertOnTime(s, key, handle, max);
    EvictKeepsMap(mid, max);
    EvictKeepsKeys(mid, max);
    HandleAdded(s, mid, handle, |s.entries|);
    EvictKeepsRefs(mid, max);
  }

  lemma AcquireKeepsInv(s: Shard, a: Action, max: nat)
    requires Inv(s, max) && Enabled(s, a) && a.Acquire?
    ensures Inv(Next(s, a, max), max)
  {
    hide Inv, EvictOverflow, Insert;
    if Hit(s, a.key) {
      HitKeepsInv(s, a.key, a.handle, max);
    } else if a.created {
      MissKeepsInv(s, a.key, a.handle, max);
    }
  }

  lemma HitIsMapped(s: Shard, key: string)
    requires MapAgrees(s) && EntriesOk(s) && key in s.m
    ensures s.m[key] < |s.entries| && s.entries[s.m[key]].stage == Mapped && s.entries[s.m[key]].state == Active
    ensures EntryOk(s.entries[s.m[key]].(refs := s.entries[s.m[key]].refs + 1))
  {
    assert MapsTo(s, key, s.m[key]) && EntryOk(s.entries[s.m[key]]);
  }

  /** Mapped entries are active, so a miss means the key is not mapped. */
  lemma MissIsUnmapped(s: Shard, key: string)
    requires MapAgrees(s) && EntriesOk(s) && !Hit(s, key)
    ensures key !in s.m
  {
    if key in s.m {
      HitIsMapped(s, key);
    }
  }

  lemma SameMap(s: Shard, t: Shard)
    requires MapAgrees(s) && EntriesOk(s) && t.m == s.m && t.entries == s.entries
    ensures MapAgrees(t) && EntriesOk(t)
  {
    assert forall k, i: nat :: MapsTo(t, k, i) <==> MapsTo(s, k, i);
  }

  lemma EvictKeepsRefs(s: Shard, max: nat)
    requires RefsAgree(s)
    ensures RefsAgree(EvictOverflow(s, max))
  {
    hide RefsAgree, HandlesOf;
    HandlesKept(s, EvictOverflow(s, max));
  }

  lemma CutoverKeepsInv(s: Shard, key: string, max: nat)
    requires Inv(s, max)
    ensures Inv(Next(s, Cutover(key), max), max)
  {
    hide RefsAgree, HandlesOf, MapAgrees, EntriesOk, AllOnTime;
    if key in s.m {
      var t := Next(s, Cutover(key), max);
      HitIsMapped(s, key);
      var e := s.m[key];
      var entry := s.entries[e].(state := Quiescing, stage := Quiesced);
      EntryOnTime(s, e, max);
      MappedKey(s, key);
      EntryUnmapped(s, t, key, entry);
      PutOnTime(s.entries, e, entry, s.clock, s.closeTimeout);
      HandlesKept(s, t);
    }
  }

  lemma MappedKey(s: Shard, key: string)
    requires MapAgrees(s) && key in s.m
    ensures s.m[key] < |s.entries| && s.entries[s.m[key]].key == key
  {
  }

  lemma ReleaseKeepsInv(s: Shard, h: nat, max: nat)
    requires Inv(s, max) && h in s.handles
    ensures Enabled(s, Release(h)) && Inv(Next(s, Release(h), max), max)
  {
    hide HandlesOf, MapAgrees, EntriesOk, AllOnTime;
    var e := s.handles[h];
    var entry := s.entries[e].(refs := Max(0, s.entries[e].refs - 1));
    var t := Next(s, Release(h), max);
    HandleDropped(s, t, h);
    EntryOnTime(s, e, max);
    EntryChanged(s, e, entry);
    PutOnTime(s.entries, e, entry, s.clock, s.closeTimeout);
    SameMap(Put(s, e, entry), t);
  }

  /** The steps of an evictor or closer on its own entry. */
  lemma CloserKeepsInv(s: Shard, a: Action, max: nat)
    requires Inv(s, max) && Enabled(s, a)
    requires a.EvictLoad? || a.EvictStore? || a.StartWaiting? || a.StopWaiting? || a.CloseLimiter?
    ensures Inv(Next(s, a, max), max)
  {
    hide MapAgrees, EntriesOk, RefsAgree, AllOnTime, EntryOk, OnTime;
    var t := Next(s, a, max);
    var entry := t.entries[a.entry];
    CloserChanges(s, a, max);
    assert t == Put(s, a.entry, entry);
    EntryChanged(s, a.entry, entry);
    PutOnTime(s.entries, a.entry, entry, s.clock, s.closeTimeout);
    HandlesKept(s, t);
  }

  /** What such a step makes of the entry. */
  lemma CloserChanges(s: Shard, a: Action, max: nat)
    requires Inv(s, max) && Enabled(s, a)
    requires a.EvictLoad? || a.EvictStore? || a.StartWaiting? || a.StopWaiting? || a.CloseLimiter?
    ensures var before, after := s.entries[a.entry], Next(s, a, max).entries[a.entry];
            && after.key == before.key && after.refs == before.refs && before.stage != Mapped && after.stage != Mapped
            && EntryOk(after) && OnTime(after, s.clock, s.closeTimeout)
  {
    hide Inv;
    EntryOnTime(s, a.entry, max);
  }

  lemma TickKeepsInv(s: Shard, now: int, max: nat)
    requires Inv(s, max) && s.clock <= now
    ensures Inv(s.(clock := now), max)
  {
    hide RefsAgree, EntryOk;
    HandlesKept(s, s.(clock := now));
  }

  lemma StepKeepsInv(s: Shard, a: Action, max: nat)
    requires Inv(s, max) && Enabled(s, a)
    ensures Inv(Next(s, a, max), max)
  {
    hide Inv, EvictOverflow, Insert;
    if a.Acquire? {
      AcquireKeepsInv(s, a, max);
    } else if a.Release? {
      ReleaseKeepsInv(s, a.handle, max);
    } else if a.Cutover? {
      CutoverKeepsInv(s, a.key, max);
    } else if a.Tick? {
      TickKeepsInv(s, a.now, max);
    } else {
      CloserKeepsInv(s, a, max);
    }
  }

  ghost predicate IsRun(s: Shard, actions: seq<Action>, max: nat)
    decreases |actions|
  {
    actions == [] || (Enabled(s, actions[0]) && IsRun(Next(s, actions[0], max), actions[1..], max))
  }

  function Run(s: Shard, actions: seq<Action>, max: nat): Shard
    requires IsRun(s, actions, max)
    decreases |actions|
  {
    if actions == [] then s else Run(Next(s, actions[0], max), actions[1..], max)
  }

  lemma {:induction false} RunsKeepInv(s: Shard, actions: seq<Action>, max: nat)
    requires Inv(s, max) && IsRun(s, actions, max)
    ensures Inv(Run(s, actions, max), max)
    decreases |actions|
  {
    hide Inv, Next;
    if actions != [] {
      StepKeepsInv(s, actions[0], max);
      RunsKeepInv(Next(s, actions[0], max), actions[1..], max);
    }
  }

  /** The limiter was closed more than the timeout after the wait for its references began. */
  predicate ClosedLate(entry: Entry, closeTimeout: int) {
    entry.stage.Finished? && entry.stage.late.Some?
    && entry.stage.late.value.closed > entry.stage.late.value.since + closeTimeout
  }

  lemma {:induction false} RunsKeepTimeout(s: Shard, actions: seq<Action>, max: nat)
    requires IsRun(s, actions, max)
    ensures Run(s, actions, max).closeTimeout == s.closeTimeout
    decreases |actions|
  {
    if actions != [] {
      RunsKeepTimeout(Next(s, actions[0], max), actions[1..], max);
    }
  }

  /**
   * In every interleaving: the map and the LRU hold the same keys, once each and at most `max` of them; every mapped
   * entry is active; references are the unreleased handles; every limiter is closed at most once; and a limiter that
   * is closed with references left is closed more than CloseTimeout after the wait for them began.
   */
  lemma Lifecycle(actions: seq<Action>, max: nat, clock: int, closeTimeout: int)
    requires IsRun(Empty(clock, closeTimeout), actions, max)
    ensures var s := Run(Empty(clock, closeTimeout), actions, max);
            && (forall k :: k in s.m <==> k in s.lru) && Distinct(s.lru) && |s.lru| <= max
            && (forall k | k in s.m :: s.m[k] < |s.entries| && s.entries[s.m[k]].state == Active)
            && (forall e: nat | e < |s.entries| ::
                  && s.entries[e].refs == |HandlesOf(s, e)|
                  && s.entries[e].closes <= 1
                  && (s.entries[e].closes == 1 ==> s.entries[e].refs == 0 || ClosedLate(s.entries[e], closeTimeout)))
  {
    hide IsRun, Run;
    EmptyInv(clock, closeTimeout, max);
    RunsKeepInv(Empty(clock, closeTimeout), actions, max);
    RunsKeepTimeout(Empty(clock, closeTimeout), actions, max);
    var s := Run(Empty(clock, closeTimeout), actions, max);
    forall k | k in s.m
      ensures s.m[k] < |s.entries| && s.entries[s.m[k]].state == Active
    {
      assert EntryOk(s.entries[s.m[k]]) && MapsTo(s, k, s.m[k]);
    }
    forall e: nat | e < |s.entries|
      ensures s.entries[e].closes <= 1
      ensures s.entries[e].closes == 1 ==> s.entries[e].refs == 0 || ClosedLate(s.entries[e], closeTimeout)
    {
      assert EntryOk(s.entries[e]) && OnTime(s.entries[e], s.clock, s.closeTimeout);
    }
  }

  lemma EmptyInv(clock: int, closeTimeout: int, max: nat)
    ensures Inv(Empty(clock, closeTimeout), max)
  {
  }

  // Which entry a key gets

  lemma StepKeepsEntry(s: Shard, a: Action, max: nat, e: nat)
    requires Enabled(s, a) && e < |s.entries|
    ensures var t := Next(s, a, max);
            && e < |t.entries| && t.entries[e].key == s.entries[e].key
            && (t.entries[e].stage == Mapped ==> s.entries[e].stage == Mapped)
  {
    hide Overflow, Kept, Front, Without;
  }

  lemma {:induction false} RunKeepsEntry(s: Shard, actions: seq<Action>, max: nat, e: nat)
    requires IsRun(s, actions, max) && e < |s.entries|
    ensures var t := Run(s, actions, max);
            && e < |t.entries| && t.entries[e].key == s.entries[e].key
            && (t.entries[e].stage == Mapped ==> s.entries[e].stage == Mapped)
    decreases |actions|
  {
    hide Next, Enabled;
    if actions != [] {
      StepKeepsEntry(s, actions[0], max, e);
      RunKeepsEntry(Next(s, actions[0], max), actions[1..], max, e);
    }
  }

  /** A cutover takes the entry of the key out of the map and makes it quiescing. */
  lemma CutoverUnmaps(s: Shard, key: string, max: nat)
    requires Inv(s, max)
    ensures var t := Next(s, Cutover(key), max);
            && key !in t.m && (forall k | k != key :: k in t.m <==> k in s.m)
            && (key in s.m ==> s.m[key] < |t.entries| && t.entries[s.m[key]].state == Quiescing)
  {
    hide RefsAgree, AllOnTime, KeysAgree, Without;
  }

  /** The entry of the handle an acquirer gets. */
  function Gets(s: Shard, key: string, handle: nat, max: nat): int
    requires handle !in s.handles
  {
    var t := Next(s, Acquire(key, handle, true), max);
    if handle in t.handles then t.handles[handle] else -1
  }

  /** An acquirer gets the mapped entry of its key, or a new one. */
  lemma AcquireGets(s: Shard, key: string, handle: nat, max: nat)
    requires Inv(s, max) && handle !in s.handles
    ensures Gets(s, key, handle, max) == if key in s.m then s.m[key] else |s.entries|
  {
    hide RefsAgree, AllOnTime, KeysAgree, EvictOverflow, Front;
    if key in s.m {
      HitIsMapped(s, key);
    }
  }

  /** Over any run, whoever acquires the key of a mapped entry gets that very entry as long as it is still mapped. */
  lemma MappedIsShared(s: Shard, key: string, actions: seq<Action>, handle: nat, max: nat)
    requires Inv(s, max) && key in s.m
    requires IsRun(s, actions, max) && handle !in Run(s, actions, max).handles
    ensures var t := Run(s, actions, max);
            s.m[key] < |t.entries| && (t.entries[s.m[key]].stage == Mapped ==> Gets(t, key, handle, max) == s.m[key])
  {
    hide IsRun, Run, Next, Inv;
    var e, t := s.m[key], Run(s, actions, max);
    MappedEntry(s, key, max);
    RunKeepsEntry(s, actions, max, e);
    RunsKeepInv(s, actions, max);
    AcquireGets(t, key, handle, max);
    if t.entries[e].stage == Mapped {
      MappedStays(t, e, max);
    }
  }

  /** After a cutover nobody gets the entry of the key again, whatever key is acquired and whatever was done since. */
  lemma CutoverIsFinal(s: Shard, key: string, actions: seq<Action>, k: string, handle: nat, max: nat)
    requires Inv(s, max) && key in s.m
    requires IsRun(Next(s, Cutover(key), max), actions, max)
    requires handle !in Run(Next(s, Cutover(key), max), actions, max).handles
    ensures Gets(Run(Next(s, Cutover(key), max), actions, max), k, handle, max) != s.m[key]
  {
    hide IsRun, Run, Next, Inv;
    var cut := Next(s, Cutover(key), max);
    var t := Run(cut, actions, max);
    CutoverKeepsInv(s, key, max);
    CutoverStage(s, key, max);
    RunKeepsEntry(cut, actions, max, s.m[key]);
    RunsKeepInv(cut, actions, max);
    AcquireGets(t, k, handle, max);
    if k in t.m {
      MappedEntry(t, k, max);
    }
  }

  lemma MappedEntry(s: Shard, key: string, max: nat)
    requires Inv(s, max) && key in s.m
    ensures s.m[key] < |s.entries| && s.entries[s.m[key]].stage == Mapped && s.entries[s.m[key]].key == key
  {
    hide RefsAgree, AllOnTime, KeysAgree;
    HitIsMapped(s, key);
  }

  lemma MappedStays(s: Shard, e: nat, max: nat)
    requires Inv(s, max) && e < |s.entries| && s.entries[e].stage == Mapped
    ensures s.entries[e].key in s.m && s.m[s.entries[e].key] == e
  {
    hide RefsAgree, AllOnTime, KeysAgree;
    assert MapsTo(s, s.entries[e].key, e);
  }

  lemma CutoverStage(s: Shard, key: string, max: nat)
    requires Inv(s, max) && key in s.m
    ensures var t := Next(s, Cutover(key), max); s.m[key] < |t.entries| && t.entries[s.m[key]].stage == Quiesced
  {
    hide RefsAgree, AllOnTime, KeysAgree, Without;
  }

  // Which key an acquirer evicts

  /** How an action uses the keys: an acquirer that gets a limiter uses its key, a cutover drops it. */
  function UsesOf(s: Shard, a: Action, max: nat): seq<Use> {
    match a
    case Acquire(k, _, created) => if k in s.m || created then [Used(k), Shrunk(max)] else []
    case Cutover(k) => [Dropped(k)]
    case _ => []
  }

  ghost function Uses(s: Shard, actions: seq<Action>, max: nat): seq<Use>
    requires IsRun(s, actions, max)
    decreases |actions|
  {
    if actions == [] then [] else UsesOf(s, actions[0], max) + Uses(Next(s, actions[0], max), actions[1..], max)
  }

  lemma ListAfterOne(uses: seq<Use>, use: Use)
    ensures ListAfter(uses + [use]) == Using(ListAfter(uses), use)
  {
    assert (uses + [use])[..|uses + [use]| - 1] == uses;
  }

  lemma NoUses()
    ensures ListAfter([]) == []
  {
  }

  lemma StepUses(s: Shard, a: Action, max: nat, uses: seq<Use>)
    requires Inv(s, max) && Enabled(s, a) && s.lru == ListAfter(uses)
    ensures Next(s, a, max).lru == ListAfter(uses + UsesOf(s, a, max))
  {
    hide RefsAgree, AllOnTime, Without, Overflow, ListAfter;
    match a
    case Acquire(k, h, created) =>
      ListAfterOne(uses, Used(k));
      ListAfterOne(uses + [Used(k)], Shrunk(max));
      assert uses + [Used(k), Shrunk(max)] == uses + [Used(k)] + [Shrunk(max)];
      assert uses + [] == uses;
      if k in s.m {
        HitIsMapped(s, k);
      }
    case Cutover(k) =>
      ListAfterOne(uses, Dropped(k));
    case _ =>
      assert uses + [] == uses;
  }

  lemma {:induction false} RunUses(s: Shard, actions: seq<Action>, max: nat, uses: seq<Use>)
    requires Inv(s, max) && IsRun(s, actions, max) && s.lru == ListAfter(uses)
    ensures Run(s, actions, max).lru == ListAfter(uses + Uses(s, actions, max))
    decreases |actions|
  {
    hide Inv, Enabled, Next, UsesOf, ListAfter;
    if actions == [] {
      assert uses + [] == uses;
    } else {
      var used, s' := UsesOf(s, actions[0], max), Next(s, actions[0], max);
      StepKeepsInv(s, actions[0], max);
      StepUses(s, actions[0], max, uses);
      RunUses(s', actions[1..], max, uses + used);
      assert uses + (used + Uses(s', actions[1..], max)) == uses + used + Uses(s', actions[1..], max);
    }
  }

  lemma AcquireEvicts(s: Shard, key: string, handle: nat, max: nat)
    requires Inv(s, max) && handle !in s.handles
    ensures var t, list := Next(s, Acquire(key, handle, true), max), Front(s.lru, key);
            && (forall k :: k in t.m <==> k in Kept(list, max))
            && (forall k :: k in s.m && k !in t.m ==> k in Overflow(list, max))
            && (|list| <= max ==> forall k | k in s.m :: k in t.m)
  {
    hide RefsAgree, AllOnTime;
    var a, list := Acquire(key, handle, true), Front(s.lru, key);
    var t := Next(s, a, max);
    AcquireKeepsInv(s, a, max);
    if key in s.m {
      HitIsMapped(s, key);
    }
    forall k: string
      ensures k in list <==> k in Kept(list, max) || k in Overflow(list, max)
    {
      SplitMembers(list, max, k);
    }
    assert t.lru == Kept(list, max);
  }

  /**
   * In every run, an acquirer takes another key out of the map only if the shard is full, and every other key that
   * stays was acquired after every key that goes.
   */
  lemma EvictsLeastAcquired(
    actions: seq<Action>, key: string, handle: nat, max: nat, clock: int, closeTimeout: int, k: string, g: string)
    requires IsRun(Empty(clock, closeTimeout), actions, max)
    requires handle !in Run(Empty(clock, closeTimeout), actions, max).handles
    ensures var s := Run(Empty(clock, closeTimeout), actions, max);
            var t := Next(s, Acquire(key, handle, true), max);
            var uses := Uses(Empty(clock, closeTimeout), actions, max) + [Used(key)];
            g in s.m && g !in t.m ==>
              && |s.m| == max && key !in s.m
              && (k in t.m ==> LastUse(uses, k) > LastUse(uses, g))
  {
    hide IsRun, Run, Next, Inv, ListAfter, LastUse, Kept, Overflow, Uses, Front;
    var empty := Empty(clock, closeTimeout);
    var s, uses := Run(empty, actions, max), Uses(empty, actions, max);
    EmptyInv(clock, closeTimeout, max);
    RunsKeepInv(empty, actions, max);
    NoUses();
    RunUses(empty, actions, max, []);
    assert [] + uses == uses;
    ListAfterOne(uses, Used(key));
    AcquireEvicts(s, key, handle, max);
    FullWhenOver(s, key, max);
    EvictsLeastRecent(uses + [Used(key)], max);
  }

  /** The list with the key at its front is longer than allowed only if the map is full and the key is new. */
  lemma FullWhenOver(s: Shard, key: string, max: nat)
    requires Inv(s, max)
    ensures |Front(s.lru, key)| > max ==> |s.m| == max && key !in s.m
  {
    hide RefsAgree, AllOnTime, MapAgrees;
    SetSize(s.lru);
    assert s.m.Keys == set k | k in s.lru;
    assert |s.m| == |s.m.Keys|;
  }
}
