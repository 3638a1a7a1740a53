/** Every step of the propagation protocol keeps the invariant. */
module PropagationSteps {
  import opened Rules
  import opened Propagation

  // How each component changes

  lemma ToAllHolds(nodes: set<string>, e: Event)
    ensures forall d :: d in ToAll(nodes, e) <==> d.node in nodes && d.event == e
  {
  }

  predicate PutsFor(op: AdminOp, id: RuleId) {
    (op.PutWritten? || op.PutCached?) && IdOf(op.rule) == id
  }

  predicate DropsFor(op: AdminOp, id: RuleId) {
    (op.DropWritten? || op.DropCached?) && op.id == id
  }

  predicate WritesAt(op: AdminOp, n: string, id: RuleId) {
    op.PutWritten? && op.node == n && IdOf(op.rule) == id
  }

  lemma OpAdded(ops: multiset<AdminOp>, op: AdminOp, n: string, id: RuleId)
    ensures PutOpFor(ops + multiset{op}, id) <==> PutOpFor(ops, id) || PutsFor(op, id)
    ensures DropOpFor(ops + multiset{op}, id) <==> DropOpFor(ops, id) || DropsFor(op, id)
    ensures WriteOut(ops + multiset{op}, n, id) <==> WriteOut(ops, n, id) || WritesAt(op, n, id)
  {
    var more := ops + multiset{op};
    assert op in more;
    assert forall x :: x in more <==> x in ops || x == op;
  }

  lemma OpTaken(ops: multiset<AdminOp>, op: AdminOp, n: string, id: RuleId)
    requires op in ops
    ensures PutOpFor(ops, id) <==> PutOpFor(ops - multiset{op}, id) || PutsFor(op, id)
    ensures DropOpFor(ops, id) <==> DropOpFor(ops - multiset{op}, id) || DropsFor(op, id)
    ensures WriteOut(ops, n, id) <==> WriteOut(ops - multiset{op}, n, id) || WritesAt(op, n, id)
  {
    OpAdded(ops - multiset{op}, op, n, id);
    assert ops - multiset{op} + multiset{op} == ops;
  }

  lemma RowAdded(rows: multiset<Event>, e: Event, id: RuleId)
    ensures PutRowFor(rows + multiset{e}, id) <==> PutRowFor(rows, id) || (e.Upserted? && e.id == id)
    ensures DropRowFor(rows + multiset{e}, id) <==> DropRowFor(rows, id) || (e.Deleted? && e.id == id)
  {
    var more := rows + multiset{e};
    assert e in more;
    assert forall x :: x in more <==> x in rows || x == e;
  }

  lemma RowTaken(rows: multiset<Event>, e: Event, id: RuleId)
    requires e in rows
    ensures PutRowFor(rows, id) <==> PutRowFor(rows - multiset{e}, id) || (e.Upserted? && e.id == id)
    ensures DropRowFor(rows, id) <==> DropRowFor(rows - multiset{e}, id) || (e.Deleted? && e.id == id)
  {
    RowAdded(rows - multiset{e}, e, id);
    assert rows - multiset{e} + multiset{e} == rows;
  }

  predicate PutMail(d: Delivery, n: string, id: RuleId) {
    d.node == n && d.event.Upserted? && d.event.id == id
  }

  predicate DropMail(d: Delivery, n: string, id: RuleId) {
    d.node == n && d.event.Deleted? && d.event.id == id
  }

  lemma MailAdded(inbox: multiset<Delivery>, d: Delivery, n: string, id: RuleId)
    ensures PutMailFor(inbox + multiset{d}, n, id) <==> PutMailFor(inbox, n, id) || PutMail(d, n, id)
    ensures DropMailFor(inbox + multiset{d}, n, id) <==> DropMailFor(inbox, n, id) || DropMail(d, n, id)
  {
    var more := inbox + multiset{d};
    assert d in more;
    assert forall x :: x in more <==> x in inbox || x == d;
  }

  lemma MailTaken(inbox: multiset<Delivery>, d: Delivery, n: string, id: RuleId)
    requires d in inbox
    ensures PutMailFor(inbox, n, id) <==> PutMailFor(inbox - multiset{d}, n, id) || PutMail(d, n, id)
    ensures DropMailFor(inbox, n, id) <==> DropMailFor(inbox - multiset{d}, n, id) || DropMail(d, n, id)
  {
    MailAdded(inbox - multiset{d}, d, n, id);
    assert inbox - multiset{d} + multiset{d} == inbox;
  }

  lemma MailToAll(inbox: multiset<Delivery>, nodes: set<string>, e: Event, n: string, id: RuleId)
    requires n in nodes
    ensures PutMailFor(inbox + ToAll(nodes, e), n, id) <==> PutMailFor(inbox, n, id) || (e.Upserted? && e.id == id)
    ensures DropMailFor(inbox + ToAll(nodes, e), n, id) <==> DropMailFor(inbox, n, id) || (e.Deleted? && e.id == id)
  {
    ToAllHolds(nodes, e);
    var more := inbox + ToAll(nodes, e);
    assert Delivery(n, e) in more;
    assert forall x :: x in more <==> x in inbox || (x.node in nodes && x.event == e);
  }

  lemma FetchAdded(fetched: multiset<Fetch>, f: Fetch, n: string, id: RuleId)
    ensures FetchOut(fetched + multiset{f}, n, id) <==> FetchOut(fetched, n, id) || (f.node == n && IdOf(f.rule) == id)
    ensures forall x :: x in fetched + multiset{f} <==> x in fetched || x == f
  {
    assert f in fetched + multiset{f};
  }

  lemma FetchTaken(fetched: multiset<Fetch>, f: Fetch, n: string, id: RuleId)
    requires f in fetched
    ensures FetchOut(fetched, n, id) <==>
            FetchOut(fetched - multiset{f}, n, id) || (f.node == n && IdOf(f.rule) == id)
    ensures forall x :: x in fetched <==> x in fetched - multiset{f} || x == f
  {
    FetchAdded(fetched - multiset{f}, f, n, id);
    assert fetched - multiset{f} + multiset{f} == fetched;
  }

  /** Writing a known rule keeps a cache sound. */
  lemma UpsertSound(db: RuleSet, dead: map<RuleId, int>, cache: RuleSet, rule: Rule)
    requires CacheSound(db, dead, cache) && Known(db, dead, rule)
    ensures CacheSound(db, dead, Upsert(cache, rule))
  {
    hide Known;
  }

  lemma DropSound(db: RuleSet, dead: map<RuleId, int>, cache: RuleSet, id: RuleId, version: int)
    requires CacheSound(db, dead, cache)
    ensures CacheSound(db, dead, DropIfOlder(cache, id, version))
  {
    hide Known;
  }

  /** What is known stays known when a rule gets its next version, is created, or is deleted. */
  lemma KnownGrows(db: RuleSet, dead: map<RuleId, int>, db': RuleSet, dead': map<RuleId, int>)
    requires forall rule | Known(db, dead, rule) :: Known(db', dead', rule)
    ensures forall caches | CachesSound(db, dead, caches) :: CachesSound(db', dead', caches)
    ensures forall fetched | FetchedSound(db, dead, fetched) :: FetchedSound(db', dead', fetched)
    ensures forall ops | OpsSound(db, dead, ops) :: OpsSound(db', dead', ops)
  {
    hide Known;
    forall cache | CacheSound(db, dead, cache)
      ensures CacheSound(db', dead', cache)
    {
    }
  }

  // Soundness

  lemma OpsAdded(db: RuleSet, dead: map<RuleId, int>, ops: multiset<AdminOp>, op: AdminOp)
    requires OpsSound(db, dead, ops) && DropsTrue(dead, ops)
    ensures (op.PutWritten? ==> Known(db, dead, op.rule)) ==> OpsSound(db, dead, ops + multiset{op})
    ensures (op.DropWritten? || op.DropCached? ==> op.id in dead && op.version == dead[op.id] && op.version >= 1)
            ==> DropsTrue(dead, ops + multiset{op})
  {
    hide Known;
    assert forall x :: x in ops + multiset{op} <==> x in ops || x == op;
  }

  lemma OpsTaken(db: RuleSet, dead: map<RuleId, int>, ops: multiset<AdminOp>, op: AdminOp)
    requires OpsSound(db, dead, ops) && DropsTrue(dead, ops)
    ensures OpsSound(db, dead, ops - multiset{op}) && DropsTrue(dead, ops - multiset{op})
  {
    hide Known;
    assert forall x | x in ops - multiset{op} :: x in ops;
  }

  lemma CachesStored(db: RuleSet, dead: map<RuleId, int>, caches: map<string, RuleSet>, n: string, cache: RuleSet)
    requires CachesSound(db, dead, caches) && CacheSound(db, dead, cache)
    ensures CachesSound(db, dead, caches[n := cache])
  {
    hide CacheSound;
  }

  lemma PutKnown(db: RuleSet, dead: map<RuleId, int>, rule: Rule)
    requires IdOf(rule) !in dead && rule.version >= 1
    requires IdOf(rule) in db ==> rule.version == db[IdOf(rule)].version + 1
    ensures Known(db[IdOf(rule) := rule], dead, rule)
    ensures forall r | Known(db, dead, r) :: Known(db[IdOf(rule) := rule], dead, r)
  {
  }

  lemma PutKeepsSound(s: State, n: string, rule: Rule)
    requires Sound(s) && DeletionsTrue(s) && IdOf(rule) !in s.dead && rule.version >= 1
    requires IdOf(rule) in s.db ==> rule.version == s.db[IdOf(rule)].version + 1
    ensures Sound(AfterPut(s, n, rule)) && DeletionsTrue(AfterPut(s, n, rule))
  {
    var t := AfterPut(s, n, rule);
    assert t.dead == s.dead;
    hide Known, Others;
    PutKnown(s.db, s.dead, rule);
    KnownGrows(s.db, s.dead, t.db, t.dead);
    assert DbSound(t.db, t.dead);
    hide CachesSound, FetchedSound, OpsSound, EventsTrue, MailTrue, DropsTrue, DbSound;
    OpsAdded(t.db, t.dead, s.ops, PutWritten(n, rule));
  }

  lemma DeleteKnown(db: RuleSet, dead: map<RuleId, int>, id: RuleId)
    requires DbSound(db, dead) && id in db
    ensures forall r | Known(db, dead, r) :: Known(db - {id}, dead[id := db[id].version], r)
    ensures DbSound(db - {id}, dead[id := db[id].version])
  {
  }

  lemma DeleteKeepsSound(s: State, n: string, id: RuleId)
    requires Sound(s) && DeletionsTrue(s) && id in s.db
    ensures Sound(AfterDelete(s, n, id)) && DeletionsTrue(AfterDelete(s, n, id))
  {
    var t := AfterDelete(s, n, id);
    assert id !in s.dead;
    assert DropsTrue(t.dead, s.ops) && EventsTrue(t.dead, s.rows);
    assert EventsTrue(t.dead, s.published) && MailTrue(t.dead, s.inbox);
    assert s.db[id].version >= 1;
    hide Known, Outstanding, Others;
    DeleteKnown(s.db, s.dead, id);
    KnownGrows(s.db, s.dead, t.db, t.dead);
    hide CachesSound, FetchedSound, OpsSound, EventsTrue, MailTrue, DropsTrue, DbSound;
    OpsAdded(t.db, t.dead, s.ops, DropWritten(n, id, s.db[id].version));
  }

  lemma ReplayKeepsSound(s: State, n: string, id: RuleId)
    requires Sound(s) && DeletionsTrue(s) && id in s.db
    ensures Sound(AfterReplay(s, n, id)) && DeletionsTrue(AfterReplay(s, n, id))
  {
    assert IdOf(s.db[id]) == id && Known(s.db, s.dead, s.db[id]);
    hide Known, CachesSound, FetchedSound, OpsSound, EventsTrue, MailTrue, DropsTrue, DbSound, Others;
    OpsAdded(s.db, s.dead, s.ops, PutWritten(n, s.db[id]));
  }

  lemma PutCachedKeepsSound(s: State, op: AdminOp)
    requires Sound(s) && DeletionsTrue(s) && op in s.ops && op.PutWritten? && op.node in s.caches
    ensures Sound(AfterPutCached(s, op)) && DeletionsTrue(AfterPutCached(s, op))
  {
    assert Known(s.db, s.dead, op.rule) && CacheSound(s.db, s.dead, s.caches[op.node]);
    hide Known, CacheSound, CachesSound, FetchedSound, OpsSound, EventsTrue, MailTrue, DropsTrue, DbSound, Upsert;
    UpsertSound(s.db, s.dead, s.caches[op.node], op.rule);
    CachesStored(s.db, s.dead, s.caches, op.node, Upsert(s.caches[op.node], op.rule));
    OpsTaken(s.db, s.dead, s.ops, op);
    OpsAdded(s.db, s.dead, s.ops - multiset{op}, PutCached(op.rule));
  }

  lemma DropCachedKeepsSound(s: State, op: AdminOp)
    requires Sound(s) && DeletionsTrue(s) && op in s.ops && op.DropWritten? && op.node in s.caches
    ensures Sound(AfterDropCached(s, op)) && DeletionsTrue(AfterDropCached(s, op))
  {
    assert op.id in s.dead && op.version == s.dead[op.id] && op.version >= 1;
    assert CacheSound(s.db, s.dead, s.caches[op.node]);
    hide Known, CacheSound, CachesSound, FetchedSound, OpsSound, EventsTrue, MailTrue, DropsTrue, DbSound;
    hide DropIfOlder, Settled;
    DropSound(s.db, s.dead, s.caches[op.node], op.id, op.version);
    CachesStored(s.db, s.dead, s.caches, op.node, DropIfOlder(s.caches[op.node], op.id, op.version));
    OpsTaken(s.db, s.dead, s.ops, op);
    OpsAdded(s.db, s.dead, s.ops - multiset{op}, DropCached(op.id, op.version));
  }

  lemma EventsAdded(dead: map<RuleId, int>, events: multiset<Event>, e: Event)
    requires EventsTrue(dead, events)
    ensures EventsTrue(dead, events - multiset{e})
    ensures (e.Deleted? ==> e.id in dead && e.version == dead[e.id] && e.version >= 1)
            ==> EventsTrue(dead, events + multiset{e})
  {
    assert forall x | x in events - multiset{e} :: x in events;
    assert forall x | x in events + multiset{e} :: x in events || x == e;
  }

  lemma InsertKeepsSound(s: State, op: AdminOp)
    requires Sound(s) && DeletionsTrue(s) && op in s.ops && (op.PutCached? || op.DropCached?)
    ensures Sound(AfterInsert(s, op)) && DeletionsTrue(AfterInsert(s, op))
  {
    assert op.DropCached? ==> op.id in s.dead && op.version == s.dead[op.id] && op.version >= 1;
    hide Known, CachesSound, FetchedSound, OpsSound, EventsTrue, MailTrue, DropsTrue, DbSound;
    OpsTaken(s.db, s.dead, s.ops, op);
    EventsAdded(s.dead, s.rows, EventOf(op));
  }

  lemma MailsAdded(dead: map<RuleId, int>, inbox: multiset<Delivery>, d: Delivery)
    requires MailTrue(dead, inbox)
    ensures MailTrue(dead, inbox - multiset{d})
    ensures d in inbox ==> MailTrue(dead, inbox + multiset{d})
  {
    assert forall x | x in inbox - multiset{d} :: x in inbox;
    assert forall x | x in inbox + multiset{d} :: x in inbox || x == d;
  }

  lemma MailsToAll(dead: map<RuleId, int>, inbox: multiset<Delivery>, nodes: set<string>, e: Event)
    requires MailTrue(dead, inbox)
    requires e.Deleted? ==> e.id in dead && e.version == dead[e.id] && e.version >= 1
    ensures MailTrue(dead, inbox + ToAll(nodes, e))
  {
    ToAllHolds(nodes, e);
    assert forall x | x in inbox + ToAll(nodes, e) :: x in inbox || x.event == e;
  }

  lemma PublishKeepsSound(s: State, e: Event)
    requires Sound(s) && DeletionsTrue(s) && e in s.rows
    ensures Sound(AfterPublish(s, e)) && DeletionsTrue(AfterPublish(s, e))
  {
    assert e.Deleted? ==> e.id in s.dead && e.version == s.dead[e.id] && e.version >= 1;
    hide Known, CachesSound, FetchedSound, OpsSound, EventsTrue, MailTrue, DropsTrue, DbSound, ToAll;
    EventsAdded(s.dead, s.rows, e);
    EventsAdded(s.dead, s.published, e);
    MailsToAll(s.dead, s.inbox, s.nodes, e);
  }

  lemma RepublishKeepsSound(s: State, e: Event)
    requires Sound(s) && DeletionsTrue(s) && e in s.published
    ensures Sound(AfterRepublish(s, e)) && DeletionsTrue(AfterRepublish(s, e))
  {
    assert e.Deleted? ==> e.id in s.dead && e.version == s.dead[e.id] && e.version >= 1;
    hide Known, CachesSound, FetchedSound, OpsSound, EventsTrue, MailTrue, DropsTrue, DbSound, ToAll, Others;
    MailsToAll(s.dead, s.inbox, s.nodes, e);
  }

  lemma FetchesAdded(db: RuleSet, dead: map<RuleId, int>, fetched: multiset<Fetch>, f: Fetch)
    requires FetchedSound(db, dead, fetched)
    ensures FetchedSound(db, dead, fetched - multiset{f})
    ensures Known(db, dead, f.rule) ==> FetchedSound(db, dead, fetched + multiset{f})
  {
    hide Known;
    assert forall x | x in fetched - multiset{f} :: x in fetched;
    assert forall x | x in fetched + multiset{f} :: x in fetched || x == f;
  }

  lemma FetchKeepsSound(s: State, d: Delivery)
    requires Sound(s) && DeletionsTrue(s) && d in s.inbox
    ensures Sound(AfterFetch(s, d)) && DeletionsTrue(AfterFetch(s, d))
  {
    var id := d.event.id;
    assert id in s.db ==> IdOf(s.db[id]) == id && Known(s.db, s.dead, s.db[id]);
    hide Known, CachesSound, FetchedSound, OpsSound, EventsTrue, MailTrue, DropsTrue, DbSound;
    MailsAdded(s.dead, s.inbox, d);
    if id in s.db {
      FetchesAdded(s.db, s.dead, s.fetched, Fetch(d.node, s.db[id]));
    }
  }

  lemma DropKeepsSound(s: State, d: Delivery)
    requires Sound(s) && DeletionsTrue(s) && d in s.inbox && d.node in s.caches
    ensures Sound(AfterDrop(s, d)) && DeletionsTrue(AfterDrop(s, d))
  {
    assert CacheSound(s.db, s.dead, s.caches[d.node]);
    hide Known, CacheSound, CachesSound, FetchedSound, OpsSound, EventsTrue, MailTrue, DropsTrue, DbSound;
    hide DropIfOlder, Settled;
    DropSound(s.db, s.dead, s.caches[d.node], d.event.id, d.event.version);
    CachesStored(s.db, s.dead, s.caches, d.node, DropIfOlder(s.caches[d.node], d.event.id, d.event.version));
    MailsAdded(s.dead, s.inbox, d);
  }

  lemma ApplyKeepsSound(s: State, f: Fetch)
    requires Sound(s) && DeletionsTrue(s) && f in s.fetched && f.node in s.caches
    ensures Sound(AfterApply(s, f)) && DeletionsTrue(AfterApply(s, f))
  {
    assert Known(s.db, s.dead, f.rule) && CacheSound(s.db, s.dead, s.caches[f.node]);
    hide Known, CacheSound, CachesSound, FetchedSound, OpsSound, EventsTrue, MailTrue, DropsTrue, DbSound, Upsert;
    UpsertSound(s.db, s.dead, s.caches[f.node], f.rule);
    CachesStored(s.db, s.dead, s.caches, f.node, Upsert(s.caches[f.node], f.rule));
    FetchesAdded(s.db, s.dead, s.fetched, f);
  }

  lemma LoadKeepsSound(s: State, n: string)
    requires Sound(s) && DeletionsTrue(s)
    ensures Sound(AfterLoad(s, n)) && DeletionsTrue(AfterLoad(s, n))
  {
    assert CacheSound(s.db, s.dead, s.db);
    hide Known, CacheSound, CachesSound, FetchedSound, OpsSound, EventsTrue, MailTrue, DropsTrue, DbSound;
    CachesStored(s.db, s.dead, s.loaded, n, s.db);
  }

  lemma StoreKeepsSound(s: State, n: string)
    requires Sound(s) && DeletionsTrue(s) && n in s.loaded && n in s.caches
    ensures Sound(AfterStore(s, n)) && DeletionsTrue(AfterStore(s, n))
  {
    assert CacheSound(s.db, s.dead, s.loaded[n]);
    hide Known, CacheSound, FetchedSound, OpsSound, EventsTrue, MailTrue, DropsTrue, DbSound;
    hide RacedAfterStore, LaggingAfterStore;
    CachesStored(s.db, s.dead, s.caches, n, s.loaded[n]);
    assert CachesSound(s.db, s.dead, s.loaded - {n});
    hide CachesSound;
  }
}
