/** LimiterPoolShard: the locked sections of the pool, run as the steps of module Pool. */
module PoolShard {
  import opened Base
  import opened Lru
  import opened Entries
  import opened Pool

  /** The body of the eviction loop: unmap the key, then close its entry or leave it to a waiting closer. */
  function EvictKey(s: Shard, key: string): Shard {
    if key !in s.m || s.m[key] >= |s.entries| then s
    else
      var e := s.m[key];
      var entry := s.entries[e];
      Put(s, e, if entry.refs == 0 then CloseEntry(entry, None) else entry.(state := Quiescing, stage := Quiesced))
        .(m := s.m - {key})
  }

  function EvictKeys(s: Shard, keys: seq<string>): Shard {
    if keys == [] then s else EvictKey(EvictKeys(s, keys[..|keys| - 1]), keys[|keys| - 1])
  }

  /** Acquire with nothing happening in between. */
  function AcquireNow(s: Shard, key: string, handle: nat, created: bool, max: nat): Shard
    requires handle !in s.handles
  {
    if Hit(s, key) || !created then Next(s, Acquire(key, handle, created), max)
    else
      var mid := Insert(s, key, handle);
      EvictKeys(mid.(lru := Kept(mid.lru, max)), Reversed(Overflow(mid.lru, max)))
  }

  class LimiterPoolShard {
    const max: nat
    const lru: LRUKeys
    var m: map<string, nat>
    var entries: seq<Entry>
    var handles: map<nat, nat>
    const closeTimeout: int
    ghost var clock: int

    ghost function State(): Shard
      reads this, lru
    {
      Shard(m, lru.list, entries, handles, clock, closeTimeout)
    }

    ghost predicate Valid()
      reads this, lru
    {
      lru.Valid() && lru.max == max && Inv(State(), max)
    }

    constructor (maxEntries: int, closeTimeout: int, ghost now: int)
      ensures Valid() && fresh(lru) && max == if maxEntries <= 0 then 1024 else maxEntries
      ensures State() == Empty(now, if closeTimeout <= 0 then 2 * SECOND else closeTimeout)
    {
      this.closeTimeout := if closeTimeout <= 0 then 2 * SECOND else closeTimeout;
      clock := now;
      max := if maxEntries <= 0 then 1024 else maxEntries;
      lru := new LRUKeys(if maxEntries <= 0 then 1024 else maxEntries);
      m, entries, handles := map[], [], map[];
    }

    /** Acquire: `entry` is the entry the handle pins, or None when no limiter could be built. */
    method AcquireHandle(key: string, handle: nat, created: bool) returns (entry: Option<nat>)
      requires Valid() && handle !in handles
      modifies this, lru
      ensures Valid() && State() == AcquireNow(old(State()), key, handle, created, max)
      ensures entry.Some? ==> handle in handles && handles[handle] == entry.value
      ensures entry.None? <==> !created && key !in old(m)
    {
      hide KeysAgree, MapAgrees, EntriesOk, RefsAgree, AllOnTime, EvictKeys, Kept, Overflow, Reversed;
      ghost var s := State();
      AcquireStaysValid(s, key, handle, created, max);
      if key in m {
        HitIsMapped(s, key);
        var e := m[key];
        if entries[e].state == Active {
          entries := entries[e := entries[e].(refs := entries[e].refs + 1)];
          handles := handles[handle := e];
          lru.Touch(key);
          return Some(e);
        }
      }
      if !created {
        return None;
      }
      var e := |entries|;
      entries := entries + [Entry(key, Active, 1, 0, Mapped)];
      handles := handles[handle := e];
      m := m[key := e];
      lru.Add(key);
      assert State() == Insert(s, key, handle);
      EvictIfNeededLocked();
      EvictKeepsHandles(Insert(s, key, handle), max);
      entry := Some(e);
    }

    method EvictIfNeededLocked()
      requires lru.Valid() && lru.max == max
      modifies this, lru
      ensures lru.Valid()
      ensures State() == EvictKeys(old(State()).(lru := Kept(old(lru.list), max)),
                                   Reversed(Overflow(old(lru.list), max)))
    {
      ghost var start := State().(lru := Kept(lru.list, max));
      var evicted := lru.EvictIfNeeded();
      for i := 0 to |evicted|
        invariant State() == EvictKeys(start, evicted[..i]) && lru.Valid()
      {
        assert evicted[..i + 1][..i] == evicted[..i];
        var key := evicted[i];
        if key in m && m[key] < |entries| {
          var e := m[key];
          m := m - {key};
          if entries[e].refs == 0 {
            entries := entries[e := CloseEntry(entries[e], None)];
          } else {
            entries := entries[e := entries[e].(state := Quiescing, stage := Quiesced)];
          }
        }
      }
      assert evicted[..|evicted|] == evicted;
    }

    /** The locked section of Cutover. */
    method CutoverKey(key: string)
      requires Valid()
      modifies this, lru
      ensures Valid() && State() == Next(old(State()), Cutover(key), max)
    {
      CutoverKeepsInv(State(), key, max);
      if key !in m {
        return;
      }
      var e := m[key];
      entries := entries[e := entries[e].(state := Quiescing, stage := Quiesced)];
      m := m - {key};
      lru.Remove(key);
    }

    method ReleaseHandle(handle: nat)
      requires Valid() && handle in handles
      modifies this
      ensures Valid() && State() == Next(old(State()), Release(handle), max)
    {
      ReleaseKeepsInv(State(), handle, max);
      var e := handles[handle];
      var refs := entries[e].refs - 1;
      if refs < 0 {
        refs := 0;
      }
      entries := entries[e := entries[e].(refs := refs)];
      handles := handles - {handle};
    }
  }

  /** Insertion brings at most one key too many. */
  lemma AtMostOneOver(s: Shard, key: string, handle: nat, max: nat)
    requires KeysAgree(s, max)
    ensures |Overflow(Insert(s, key, handle).lru, max)| <= 1
  {
  }

  lemma {:induction false} EvictKeepsHandles(s: Shard, max: nat)
    ensures forall keys :: EvictKeys(s.(lru := Kept(s.lru, max)), keys).handles == s.handles
  {
    forall keys
      ensures EvictKeys(s.(lru := Kept(s.lru, max)), keys).handles == s.handles
    {
      KeysKeepHandles(s.(lru := Kept(s.lru, max)), keys);
    }
  }

  lemma {:induction false} KeysKeepHandles(s: Shard, keys: seq<string>)
    ensures EvictKeys(s, keys).handles == s.handles
  {
    if keys != [] {
      KeysKeepHandles(s, keys[..|keys| - 1]);
    }
  }

  /** An undisturbed Acquire is a run of at most three steps, so it keeps the invariant. */
  lemma AcquireIsRun(s: Shard, key: string, handle: nat, created: bool, max: nat) returns (actions: seq<Action>)
    requires Inv(s, max) && handle !in s.handles
    ensures IsRun(s, actions, max) && Run(s, actions, max) == AcquireNow(s, key, handle, created, max)
  {
    var first := Acquire(key, handle, created);
    var s1 := Next(s, first, max);
    if Hit(s, key) || !created {
      Steps1(s, first, max);
      return [first];
    }
    hide Inv, Insert, EvictOverflow, EvictKey, Kept, Overflow, Reversed;
    var mid := Insert(s, key, handle);
    OverflowCases(s, key, handle, max);
    var over := Overflow(mid.lru, max);
    if over == [] {
      NothingEvicted(mid, max);
      Steps1(s, first, max);
      return [first];
    }
    var gone := over[0];
    var e := OverflowIsMapped(s, key, handle, max, gone);
    OneEvicted(mid, gone, e, max);
    EvictedThenClosed(mid, gone, e, max);
    var last := if mid.entries[e].refs == 0 then CloseLimiter(e) else EvictStore(e);
    Steps3(s, first, EvictLoad(e), last, max);
    return [first, EvictLoad(e), last];
  }

  lemma OverflowCases(s: Shard, key: string, handle: nat, max: nat)
    requires Inv(s, max)
    ensures var over := Overflow(Insert(s, key, handle).lru, max);
            over == [] || (over == [over[0]] && Reversed(over) == over)
  {
    hide HandlesOf, EntryOk;
    AtMostOneOver(s, key, handle, max);
    var over := Overflow(Insert(s, key, handle).lru, max);
    if over != [] {
      assert over[..0] == [];
    }
  }

  lemma NothingEvicted(s: Shard, max: nat)
    requires Overflow(s.lru, max) == []
    ensures Kept(s.lru, max) == s.lru && EvictOverflow(s, max) == s
    ensures EvictKeys(s.(lru := Kept(s.lru, max)), Reversed(Overflow(s.lru, max))) == s
  {
    var t := EvictOverflow(s, max);
    assert t.m == s.m && t.entries == s.entries;
  }

  /** The evictor's two remaining steps do what the loop body does. */
  lemma EvictedThenClosed(s: Shard, gone: string, e: nat, max: nat)
    requires MapsTo(s, gone, e) && e < |s.entries| && s.entries[e].stage == Mapped
    requires EvictOverflow(s, max)
             == s.(m := s.m - {gone}, lru := Kept(s.lru, max),
                   entries := s.entries[e := s.entries[e].(stage := Evicting)])
    requires Overflow(s.lru, max) == [gone] == Reversed([gone])
    ensures var t := EvictOverflow(s, max);
            var last := if s.entries[e].refs == 0 then CloseLimiter(e) else EvictStore(e);
            && Enabled(t, EvictLoad(e)) && Enabled(Next(t, EvictLoad(e), max), last)
            && Next(Next(t, EvictLoad(e), max), last, max)
               == EvictKeys(s.(lru := Kept(s.lru, max)), Reversed(Overflow(s.lru, max)))
  {
    hide Kept, Overflow, Reversed, EvictOverflow;
    var start := s.(lru := Kept(s.lru, max));
    assert [gone][..0] == [];
    assert EvictKeys(start, []) == start;
    assert EvictKeys(start, [gone]) == EvictKey(start, gone);
  }

  lemma OverflowIsMapped(s: Shard, key: string, handle: nat, max: nat, gone: string) returns (e: nat)
    requires Inv(s, max) && !Hit(s, key)
    requires Overflow(Insert(s, key, handle).lru, max) == [gone]
    ensures var mid := Insert(s, key, handle);
            && MapAgrees(mid) && MapsTo(mid, gone, e) && e < |mid.entries|
            && EntryOk(mid.entries[e]) && mid.entries[e].stage == Mapped
  {
    var mid := Insert(s, key, handle);
    MissIsUnmapped(s, key);
    InsertKeepsMap(s, key, handle);
    assert gone in mid.lru by {
      assert mid.lru[max..][0] == mid.lru[max];
    }
    e := mid.m[gone];
    HitIsMapped(mid, gone);
    assert EntryOk(mid.entries[e]);
  }

  /** Evicting one key changes one entry. */
  lemma OneEvicted(s: Shard, gone: string, e: nat, max: nat)
    requires MapAgrees(s) && Overflow(s.lru, max) == [gone] && MapsTo(s, gone, e) && e < |s.entries|
    ensures var t := EvictOverflow(s, max);
            t == s.(m := s.m - {gone}, lru := Kept(s.lru, max),
                    entries := s.entries[e := s.entries[e].(stage := Evicting)])
  {
    var t := EvictOverflow(s, max);
    assert t.m == s.m - {gone};
    assert t.entries == s.entries[e := s.entries[e].(stage := Evicting)];
  }

  lemma Steps1(s: Shard, a: Action, max: nat)
    requires Enabled(s, a)
    ensures IsRun(s, [a], max) && Run(s, [a], max) == Next(s, a, max)
  {
    hide Next;
    assert [a][1..] == [];
    assert IsRun(Next(s, a, max), [], max);
  }

  lemma Steps3(s: Shard, a: Action, b: Action, c: Action, max: nat)
    requires Enabled(s, a) && Enabled(Next(s, a, max), b) && Enabled(Next(Next(s, a, max), b, max), c)
    ensures IsRun(s, [a, b, c], max)
    ensures Run(s, [a, b, c], max) == Next(Next(Next(s, a, max), b, max), c, max)
  {
    hide Next, Enabled;
    var s1 := Next(s, a, max);
    var s2 := Next(s1, b, max);
    Steps1(s2, c, max);
    assert [a, b, c][1..] == [b, c] && [b, c][1..] == [c];
    assert IsRun(s1, [b, c], max) && Run(s1, [b, c], max) == Run(s2, [c], max);
  }

  lemma AcquireStaysValid(s: Shard, key: string, handle: nat, created: bool, max: nat)
    requires Inv(s, max) && handle !in s.handles
    ensures Inv(AcquireNow(s, key, handle, created, max), max)
  {
    hide Inv, AcquireNow, Next;
    var actions := AcquireIsRun(s, key, handle, created, max);
    RunsKeepInv(s, actions, max);
  }
}
