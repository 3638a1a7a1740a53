/** AdminHandler and CacheInvalidator, and how their calls are runs of the propagation protocol. */
module Admin {
  import opened Base
  import opened Keys
  import opened Rules
  import RuleDb
  import RuleCache
  import Outbox
  import Pool
  import PoolShard
  import opened Propagation
  import opened Sync
  import opened Drain

  class AdminHandler {
    const db: RuleDb.InMemoryRuleDB
    const cache: RuleCache.Cache
    const outbox: Outbox.InMemoryOutbox

    ghost predicate Valid()
      reads cache, outbox
    {
      cache.Valid() && outbox.Valid()
    }

    constructor (db: RuleDb.InMemoryRuleDB, cache: RuleCache.Cache, outbox: Outbox.InMemoryOutbox)
      ensures this.db == db && this.cache == cache && this.outbox == outbox
    {
      this.db, this.cache, this.outbox := db, cache, outbox;
    }

    /** A successful call, replays included, leaves the rule in the cache and one more announcement in the outbox. */
    method CreateRule(req: RuleDb.CreateRequest, now: int) returns (r: Result<Rule, RuleDb.Error>)
      requires Valid()
      modifies db, cache, outbox
      ensures Valid() && (db.Contents(), r) == RuleDb.Create(old(db.Contents()), req, now)
      ensures r.Err? ==> cache.View() == old(cache.View()) && outbox.entries == old(outbox.entries)
      ensures r.Ok? ==> cache.View() == Upsert(old(cache.View()), r.value)
                        && Announced(old(outbox.entries), outbox.entries, Upserted(IdOf(r.value), r.value.version))
    {
      r := db.CreateRule(req, now);
      if r.Err? {
        return;
      }
      cache.UpsertIfNewer(Some(r.value));
      Emit(Upserted(IdOf(r.value), r.value.version));
    }

    method UpdateRule(req: RuleDb.UpdateRequest, now: int) returns (r: Result<Rule, RuleDb.Error>)
      requires Valid()
      modifies db, cache, outbox
      ensures Valid() && (db.Contents(), r) == RuleDb.Update(old(db.Contents()), req, now)
      ensures r.Err? ==> cache.View() == old(cache.View()) && outbox.entries == old(outbox.entries)
      ensures r.Ok? ==> cache.View() == Upsert(old(cache.View()), r.value)
                        && Announced(old(outbox.entries), outbox.entries, Upserted(IdOf(r.value), r.value.version))
    {
      r := db.UpdateRule(req, now);
      if r.Err? {
        return;
      }
      cache.UpsertIfNewer(Some(r.value));
      Emit(Upserted(IdOf(r.value), r.value.version));
    }

    method DeleteRule(tenant: string, resource: string, expectedVersion: int) returns (r: Result<(), RuleDb.Error>)
      requires Valid()
      modifies db, cache, outbox
      ensures Valid() && (db.Contents(), r) == RuleDb.Delete(old(db.Contents()), tenant, resource, expectedVersion)
      ensures r.Err? ==> cache.View() == old(cache.View()) && outbox.entries == old(outbox.entries)
      ensures r.Ok? ==> cache.View() == DropIfOlder(old(cache.View()), RuleId(tenant, resource), expectedVersion)
                        && Announced(old(outbox.entries), outbox.entries,
                                     Deleted(RuleId(tenant, resource), expectedVersion))
    {
      r := db.DeleteRule(tenant, resource, expectedVersion);
      if r.Err? {
        return;
      }
      cache.DeleteIfOlderOrEqual(tenant, resource, expectedVersion);
      Emit(Deleted(RuleId(tenant, resource), expectedVersion));
    }

    method Emit(event: Event)
      requires outbox.Valid()
      modifies outbox
      ensures outbox.Valid() && Announced(old(outbox.entries), outbox.entries, event)
    {
      var _ := outbox.Insert(event);
    }
  }

  /** The outbox gained one unsent row with the event, and nothing else changed. */
  ghost predicate Announced(before: seq<Outbox.Entry>, after: seq<Outbox.Entry>, event: Event) {
    && after != [] && after[..|after| - 1] == before
    && !after[|after| - 1].sent && after[|after| - 1].row.event == event
  }

  class CacheInvalidator {
    const db: RuleDb.InMemoryRuleDB
    const cache: RuleCache.Cache

    constructor (db: RuleDb.InMemoryRuleDB, cache: RuleCache.Cache)
      ensures this.db == db && this.cache == cache
    {
      this.db, this.cache := db, cache;
    }

    /** `shard` is the shard of the limiter pool that the tenant and the resource belong to. */
    method Handle(event: Event, shard: PoolShard.LimiterPoolShard)
      requires cache.Valid() && shard.Valid()
      modifies cache, shard, shard.lru
      ensures cache.Valid() && cache.View() == Handled(old(cache.View()), db.Contents(), event)
      ensures shard.Valid()
      ensures CutOver(old(shard.State()), shard.State(), event.id, shard.max)
    {
      hide PairKey, Pool.Next, RuleCache.Flat, RuleCache.Tidy, Upsert, DropIfOlder;
      match event {
        case Deleted(id, version) => cache.DeleteIfOlderOrEqual(id.tenant, id.resource, version);
        case Upserted(id, _) =>
          var r := db.GetRule(id.tenant, id.resource);
          if r.Ok? {
            cache.UpsertIfNewer(Some(r.value));
          }
      }
      shard.CutoverKey(PairKey(event.id.tenant, event.id.resource));
    }
  }

  /** The limiter of the rule left the shard. */
  ghost predicate CutOver(before: Pool.Shard, after: Pool.Shard, id: RuleId, max: nat) {
    after == Pool.Next(before, Pool.Cutover(PairKey(id.tenant, id.resource)), max)
  }

  /** A deletion is applied as announced; an upsert takes whatever the database holds now. */
  function Handled(cache: RuleSet, db: RuleDb.Db, event: Event): RuleSet {
    match event
    case Deleted(id, version) => DropIfOlder(cache, id, version)
    case Upserted(id, _) =>
      var r := RuleDb.Get(db, id.tenant, id.resource);
      if r.Ok? then Upsert(cache, r.value) else cache
  }

  // The calls as runs of the protocol

  function Events(rows: seq<Outbox.Row>): multiset<Event> {
    multiset(seq(|rows|, i requires 0 <= i < |rows| => rows[i].event))
  }

  lemma EventsAppend(rows: seq<Outbox.Row>, row: Outbox.Row)
    ensures Events(rows + [row]) == Events(rows) + multiset{row.event}
  {
    var more := rows + [row];
    assert seq(|more|, i requires 0 <= i < |more| => more[i].event) ==
      seq(|rows|, i requires 0 <= i < |rows| => rows[i].event) + [row.event];
  }

  /** The protocol state shows this database, this cache of the node, and these pending rows. */
  ghost predicate Shows(s: State, n: string, db: RuleSet, cache: RuleSet, pending: seq<Outbox.Row>) {
    s.db == db && n in s.nodes && n in s.caches && s.caches[n] == cache && s.rows == Events(pending)
  }

  function PutCall(write: Action, n: string, rule: Rule): seq<Action> {
    [write, AdminCache(PutWritten(n, rule)), AdminInsert(PutCached(rule))]
  }

  lemma ThreeSteps(s: State, a: Action, b: Action, c: Action)
    requires Enabled(s, a) && Enabled(Next(s, a), b) && Enabled(Next(Next(s, a), b), c)
    ensures IsRun(s, [a, b, c]) && Run(s, [a, b, c]) == Next(Next(Next(s, a), b), c)
  {
    hide Enabled, Next;
    var s1 := Next(s, a);
    var s2 := Next(s1, b);
    Prepend(s2, c, []);
    Prepend(s1, b, [c]);
    Prepend(s, a, [b, c]);
    assert [c] + [] == [c] && [b] + [c] == [b, c] && [a] + [b, c] == [a, b, c];
  }

  lemma CacheStep(s: State, n: string, rule: Rule)
    requires n in s.caches && PutWritten(n, rule) in s.ops
    ensures Enabled(s, AdminCache(PutWritten(n, rule)))
    ensures Next(s, AdminCache(PutWritten(n, rule))) ==
            s.(caches := s.caches[n := Upsert(s.caches[n], rule)],
               ops := s.ops - multiset{PutWritten(n, rule)} + multiset{PutCached(rule)})
  {
    hide Upsert;
    assert Next(s, AdminCache(PutWritten(n, rule))) == AfterPutCached(s, PutWritten(n, rule));
  }

  lemma InsertStep(s: State, rule: Rule)
    requires PutCached(rule) in s.ops
    ensures Enabled(s, AdminInsert(PutCached(rule)))
    ensures Next(s, AdminInsert(PutCached(rule))) ==
            s.(ops := s.ops - multiset{PutCached(rule)}, rows := s.rows + multiset{Upserted(IdOf(rule), rule.version)})
  {
    assert Next(s, AdminInsert(PutCached(rule))) == AfterInsert(s, PutCached(rule));
  }

  /** The rest of a call after its database write. */
  lemma FinishPut(s: State, n: string, rule: Rule)
    requires n in s.caches && PutWritten(n, rule) in s.ops
    ensures var put, cached := PutWritten(n, rule), PutCached(rule);
            && Enabled(s, AdminCache(put)) && Enabled(Next(s, AdminCache(put)), AdminInsert(cached))
            && Next(Next(s, AdminCache(put)), AdminInsert(cached)) ==
               s.(caches := s.caches[n := Upsert(s.caches[n], rule)], ops := s.ops - multiset{put},
                  rows := s.rows + multiset{Upserted(IdOf(rule), rule.version)})
  {
    hide Upsert, Next, Enabled, IdOf;
    var put, cached := PutWritten(n, rule), PutCached(rule);
    var rest := s.ops - multiset{put};
    assert rest + multiset{cached} - multiset{cached} == rest;
    CacheStep(s, n, rule);
    InsertStep(Next(s, AdminCache(put)), rule);
  }

  /** Nothing but the database, its history, the cache of one node and the outbox is different. */
  ghost predicate OnlyCallEffects(s: State, t: State, n: string) {
    && t.nodes == s.nodes && t.ops == s.ops && t.published == s.published && t.inbox == s.inbox
    && t.fetched == s.fetched && t.loaded == s.loaded
    && t.caches.Keys == s.caches.Keys && forall m | m in s.caches && m != n :: t.caches[m] == s.caches[m]
  }

  lemma WriteStep(s: State, n: string, rule: Rule, write: Action)
    requires Enabled(s, write)
    requires || write == WriteCreate(n, rule) || write == WriteUpdate(n, rule)
             || (write == Replay(n, IdOf(rule)) && IdOf(rule) in s.db && s.db[IdOf(rule)] == rule)
    ensures var t := Next(s, write);
            && t == s.(db := t.db, dead := t.dead, ops := t.ops, lagging := t.lagging)
            && t.ops == s.ops + multiset{PutWritten(n, rule)} && t.db == s.db[IdOf(rule) := rule]
  {
    hide Others;
    if write.Replay? {
      assert s.db[IdOf(rule) := rule] == s.db;
    }
  }

  /** An undisturbed creation, update or replay: database, own cache, outbox, and nothing else. */
  lemma PutCallIsRun(s: State, n: string, rule: Rule, write: Action)
    requires Enabled(s, write) && n in s.caches
    requires || write == WriteCreate(n, rule) || write == WriteUpdate(n, rule)
             || (write == Replay(n, IdOf(rule)) && IdOf(rule) in s.db && s.db[IdOf(rule)] == rule)
    ensures IsRun(s, PutCall(write, n, rule))
    ensures var t := Run(s, PutCall(write, n, rule));
            && OnlyCallEffects(s, t, n) && t.db == s.db[IdOf(rule) := rule]
            && t.caches[n] == Upsert(s.caches[n], rule)
            && t.rows == s.rows + multiset{Upserted(IdOf(rule), rule.version)}
  {
    hide IsRun, Run, Upsert, Next, Enabled;
    var put := PutWritten(n, rule);
    WriteStep(s, n, rule, write);
    assert s.ops + multiset{put} - multiset{put} == s.ops;
    FinishPut(Next(s, write), n, rule);
    ThreeSteps(s, write, AdminCache(put), AdminInsert(PutCached(rule)));
  }

  function DeleteCall(n: string, id: RuleId, version: int): seq<Action> {
    [WriteDelete(n, id), AdminCache(DropWritten(n, id, version)), AdminInsert(DropCached(id, version))]
  }

  lemma DeleteStep(s: State, n: string, id: RuleId)
    requires Enabled(s, WriteDelete(n, id))
    ensures var t := Next(s, WriteDelete(n, id));
            && t == s.(db := t.db, dead := t.dead, ops := t.ops, raced := t.raced, lagging := t.lagging)
            && t.ops == s.ops + multiset{DropWritten(n, id, s.db[id].version)} && t.db == s.db - {id}
  {
    hide Others, Outstanding;
  }

  lemma DropStep(s: State, n: string, id: RuleId, version: int)
    requires n in s.caches && DropWritten(n, id, version) in s.ops
    ensures Enabled(s, AdminCache(DropWritten(n, id, version)))
    ensures var t := Next(s, AdminCache(DropWritten(n, id, version)));
            t == s.(caches := s.caches[n := DropIfOlder(s.caches[n], id, version)], raced := t.raced,
                    ops := s.ops - multiset{DropWritten(n, id, version)} + multiset{DropCached(id, version)})
  {
    hide DropIfOlder, Settled;
  }

  lemma InsertDropStep(s: State, id: RuleId, version: int)
    requires DropCached(id, version) in s.ops
    ensures Enabled(s, AdminInsert(DropCached(id, version)))
    ensures Next(s, AdminInsert(DropCached(id, version))) ==
            s.(ops := s.ops - multiset{DropCached(id, version)}, rows := s.rows + multiset{Deleted(id, version)})
  {
  }

  /** The rest of a deletion after its database write. */
  lemma FinishDrop(s: State, n: string, id: RuleId, version: int)
    requires n in s.caches && DropWritten(n, id, version) in s.ops
    ensures var drop, cached := DropWritten(n, id, version), DropCached(id, version);
            && Enabled(s, AdminCache(drop)) && Enabled(Next(s, AdminCache(drop)), AdminInsert(cached))
            && var t := Next(Next(s, AdminCache(drop)), AdminInsert(cached));
               t == s.(caches := s.caches[n := DropIfOlder(s.caches[n], id, version)], ops := s.ops - multiset{drop},
                       rows := s.rows + multiset{Deleted(id, version)}, raced := t.raced)
  {
    hide DropIfOlder, Next, Enabled;
    var drop, cached := DropWritten(n, id, version), DropCached(id, version);
    var rest := s.ops - multiset{drop};
    assert rest + multiset{cached} - multiset{cached} == rest;
    DropStep(s, n, id, version);
    InsertDropStep(Next(s, AdminCache(drop)), id, version);
  }

  /** An undisturbed deletion: database, own cache, outbox, and nothing else. */
  lemma DeleteCallIsRun(s: State, n: string, id: RuleId)
    requires id in s.db && Enabled(s, WriteDelete(n, id)) && n in s.caches
    ensures var version := s.db[id].version;
            && IsRun(s, DeleteCall(n, id, version))
            && var t := Run(s, DeleteCall(n, id, version));
               && OnlyCallEffects(s, t, n) && t.db == s.db - {id}
               && t.caches[n] == DropIfOlder(s.caches[n], id, version)
               && t.rows == s.rows + multiset{Deleted(id, version)}
  {
    hide IsRun, Run, DropIfOlder, Next, Enabled;
    var version := s.db[id].version;
    var drop := DropWritten(n, id, version);
    DeleteStep(s, n, id);
    assert s.ops + multiset{drop} - multiset{drop} == s.ops;
    FinishDrop(Next(s, WriteDelete(n, id)), n, id, version);
    ThreeSteps(s, WriteDelete(n, id), AdminCache(drop), AdminInsert(DropCached(id, version)));
  }

  /**
   * What CreateRule does to the database, the cache and the outbox is the run of a creation, also of a rule that was
   * deleted before, or of a replay.
   */
  lemma CreateCallIsProtocolRun(
    s: State, n: string, db: RuleDb.Db, cache: RuleSet, pending: seq<Outbox.Row>, tenants: set<string>,
    req: RuleDb.CreateRequest, now: int, row: int)
    returns (write: Action)
    requires Separated(tenants) && RuleDb.Consistent(db, tenants) && req.tenant in tenants
    requires Shows(s, n, RuleDb.View(db), cache, pending) && RuleDb.Create(db, req, now).1.Ok?
    ensures var rule := RuleDb.Create(db, req, now).1.value;
            && IsRun(s, PutCall(write, n, rule))
            && Shows(Run(s, PutCall(write, n, rule)), n, RuleDb.View(RuleDb.Create(db, req, now).0),
                     Upsert(cache, rule), pending + [Outbox.Row(row, Upserted(IdOf(rule), rule.version))])
  {
    hide RuleDb.View, PairKey, Separated, Upsert, RuleDb.Consistent, RuleDb.Create, Events;
    RuleDb.CreateInView(db, tenants, req, now);
    var rule := RuleDb.Create(db, req, now).1.value;
    EventsAppend(pending, Outbox.Row(row, Upserted(IdOf(rule), rule.version)));
    write := if IdOf(rule) in s.db then Replay(n, IdOf(rule)) else WriteCreate(n, rule);
    PutCallIsRun(s, n, rule, write);
    hide IsRun, Run;
    if IdOf(rule) in s.db {
      assert s.db[IdOf(rule) := rule] == s.db;
    }
  }

  lemma UpdateCallIsProtocolRun(
    s: State, n: string, db: RuleDb.Db, cache: RuleSet, pending: seq<Outbox.Row>, tenants: set<string>,
    req: RuleDb.UpdateRequest, now: int, row: int)
    requires Separated(tenants) && RuleDb.Consistent(db, tenants) && req.tenant in tenants
    requires Shows(s, n, RuleDb.View(db), cache, pending) && RuleDb.Update(db, req, now).1.Ok?
    ensures var rule := RuleDb.Update(db, req, now).1.value;
            var call := PutCall(WriteUpdate(n, rule), n, rule);
            && IsRun(s, call)
            && Shows(Run(s, call), n, RuleDb.View(RuleDb.Update(db, req, now).0), Upsert(cache, rule),
                     pending + [Outbox.Row(row, Upserted(IdOf(rule), rule.version))])
  {
    hide RuleDb.View, PairKey, Separated, Upsert, RuleDb.Consistent, RuleDb.Update, Events;
    RuleDb.UpdateInView(db, tenants, req, now);
    var rule := RuleDb.Update(db, req, now).1.value;
    EventsAppend(pending, Outbox.Row(row, Upserted(IdOf(rule), rule.version)));
    PutCallIsRun(s, n, rule, WriteUpdate(n, rule));
    hide IsRun, Run;
  }

  lemma DeleteCallIsProtocolRun(
    s: State, n: string, db: RuleDb.Db, cache: RuleSet, pending: seq<Outbox.Row>, tenants: set<string>,
    id: RuleId, expectedVersion: int, row: int)
    requires Separated(tenants) && RuleDb.Consistent(db, tenants) && id.tenant in tenants
    requires Shows(s, n, RuleDb.View(db), cache, pending)
    requires RuleDb.Delete(db, id.tenant, id.resource, expectedVersion).1.Ok?
    ensures var call := DeleteCall(n, id, expectedVersion);
            && IsRun(s, call)
            && Shows(Run(s, call), n, RuleDb.View(RuleDb.Delete(db, id.tenant, id.resource, expectedVersion).0),
                     DropIfOlder(cache, id, expectedVersion), pending + [Outbox.Row(row, Deleted(id, expectedVersion))])
  {
    hide RuleDb.View, PairKey, Separated, DropIfOlder, RuleDb.Consistent, RuleDb.Delete, Events;
    RuleDb.DeleteInView(db, tenants, id.tenant, id.resource, expectedVersion);
    EventsAppend(pending, Outbox.Row(row, Deleted(id, expectedVersion)));
    DeleteCallIsRun(s, n, id);
    hide IsRun, Run;
  }

  /** An undisturbed event handler: a deletion, or a database read and the cache write that follows it. */
  function HandlerCall(s: State, d: Delivery): seq<Action> {
    if d.event.Upserted? && d.event.id in s.db then [Handle(d), Apply(Fetch(d.node, s.db[d.event.id]))] else [Handle(d)]
  }

  lemma TwoSteps(s: State, a: Action, b: Action)
    requires Enabled(s, a) && Enabled(Next(s, a), b)
    ensures IsRun(s, [a, b]) && Run(s, [a, b]) == Next(Next(s, a), b)
  {
    hide Enabled, Next;
    OneStep(Next(s, a), b);
    Prepend(s, a, [b]);
    assert [a] + [b] == [a, b];
  }

  /** What an undisturbed handler leaves in its cache. */
  function HandledHere(s: State, d: Delivery): RuleSet
    requires d.node in s.caches
  {
    match d.event
    case Deleted(id, version) => DropIfOlder(s.caches[d.node], id, version)
    case Upserted(id, _) => if id in s.db then Upsert(s.caches[d.node], s.db[id]) else s.caches[d.node]
  }

  lemma HandlerCallIsRun(s: State, d: Delivery)
    requires d in s.inbox && d.node in s.caches
    ensures IsRun(s, HandlerCall(s, d))
    ensures var t := Run(s, HandlerCall(s, d));
            && t.db == s.db && t.nodes == s.nodes && t.rows == s.rows && t.ops == s.ops && t.fetched == s.fetched
            && t.inbox == s.inbox - multiset{d} && d.node in t.caches && t.caches[d.node] == HandledHere(s, d)
  {
    hide IsRun, Run, HandledHere, HandlerCall;
    HandlerCases(s, d);
    if d.event.Upserted? && d.event.id in s.db {
      FetchAndApply(s, d);
    } else {
      OneStep(s, Handle(d));
      JustHandle(s, d);
    }
  }

  lemma HandlerCases(s: State, d: Delivery)
    requires d.node in s.caches
    ensures d.event.Upserted? && d.event.id in s.db ==>
              && HandlerCall(s, d) == [Handle(d), Apply(Fetch(d.node, s.db[d.event.id]))]
              && HandledHere(s, d) == Upsert(s.caches[d.node], s.db[d.event.id])
    ensures !(d.event.Upserted? && d.event.id in s.db) ==> HandlerCall(s, d) == [Handle(d)]
  {
    hide Upsert, DropIfOlder;
  }

  lemma JustHandle(s: State, d: Delivery)
    requires d in s.inbox && d.node in s.caches && !(d.event.Upserted? && d.event.id in s.db)
    ensures var t := Next(s, Handle(d));
            && t == s.(inbox := t.inbox, caches := t.caches, raced := t.raced)
            && t.inbox == s.inbox - multiset{d} && t.caches == s.caches[d.node := HandledHere(s, d)]
  {
    hide Settled, DropIfOlder;
    assert s.caches[d.node := s.caches[d.node]] == s.caches;
  }

  lemma FetchStepEffect(s: State, d: Delivery)
    requires d in s.inbox && d.node in s.caches && d.event.Upserted? && d.event.id in s.db
    ensures Enabled(s, Handle(d))
    ensures Next(s, Handle(d)) ==
            s.(inbox := s.inbox - multiset{d}, fetched := s.fetched + multiset{Fetch(d.node, s.db[d.event.id])})
  {
  }

  lemma ApplyStepEffect(s: State, f: Fetch)
    requires f in s.fetched && f.node in s.caches
    ensures Enabled(s, Apply(f))
    ensures Next(s, Apply(f)) ==
            s.(caches := s.caches[f.node := Upsert(s.caches[f.node], f.rule)], fetched := s.fetched - multiset{f})
  {
    hide Upsert;
  }

  lemma FetchAndApply(s: State, d: Delivery)
    requires d in s.inbox && d.node in s.caches && d.event.Upserted? && d.event.id in s.db
    ensures var rule := s.db[d.event.id];
            var call := [Handle(d), Apply(Fetch(d.node, rule))];
            && IsRun(s, call)
            && Run(s, call) ==
               s.(inbox := s.inbox - multiset{d}, caches := s.caches[d.node := Upsert(s.caches[d.node], rule)])
  {
    hide Upsert, Next, Enabled, IsRun, Run;
    var f := Fetch(d.node, s.db[d.event.id]);
    FetchStepEffect(s, d);
    assert s.fetched + multiset{f} - multiset{f} == s.fetched;
    ApplyStepEffect(Next(s, Handle(d)), f);
    TwoSteps(s, Handle(d), Apply(f));
  }

  /** What the invalidator does to its cache is the run of a delivery and, if the rule is stored, of its cache write. */
  lemma HandlerCallIsProtocolRun(
    s: State, d: Delivery, db: RuleDb.Db, cache: RuleSet, pending: seq<Outbox.Row>, tenants: set<string>)
    requires Separated(tenants) && RuleDb.Consistent(db, tenants)
    requires d.event.id.tenant in tenants && RuleDb.ValidNames(d.event.id.tenant, d.event.id.resource)
    requires Shows(s, d.node, RuleDb.View(db), cache, pending) && d in s.inbox
    ensures IsRun(s, HandlerCall(s, d))
    ensures var t := Run(s, HandlerCall(s, d));
            && Shows(t, d.node, RuleDb.View(db), Handled(cache, db, d.event), pending)
            && t.inbox == s.inbox - multiset{d} && t.ops == s.ops && t.fetched == s.fetched
  {
    hide RuleDb.View, PairKey, Separated, DropIfOlder, Upsert, RuleDb.Consistent, Events, IsRun, Run;
    RuleDb.ViewLookup(db, tenants, d.event.id);
    HandlerCallIsRun(s, d);
    assert HandledHere(s, d) == Handled(cache, db, d.event);
    hide HandlerCall, Handled, HandledHere;
  }
}
