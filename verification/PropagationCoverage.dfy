/** Every step accounts for every rule at every node, one spot at a time. */
module PropagationCoverage {
  import opened Rules
  import opened Propagation
  import opened PropagationSteps

  lemma PutTracks(s: State, n: string, rule: Rule, m: string, i: RuleId)
    requires Tracked(s, m, i) && IdOf(rule) !in s.dead
    ensures Tracked(AfterPut(s, n, rule), m, i)
  {
    hide PutOpFor, DropOpFor, WriteOut, FetchOut, PutRowFor, PutMailFor, DropRowFor, DropMailFor;
    OpAdded(s.ops, PutWritten(n, rule), m, i);
  }

  lemma DeleteTracks(s: State, n: string, id: RuleId, m: string, i: RuleId)
    requires Tracked(s, m, i) && id in s.db && m in s.nodes && m in s.caches
    ensures Tracked(AfterDelete(s, n, id), m, i)
  {
    hide PutOpFor, DropOpFor, WriteOut, FetchOut, PutRowFor, PutMailFor, DropRowFor, DropMailFor;
    OpAdded(s.ops, DropWritten(n, id, s.db[id].version), m, i);
  }

  lemma ReplayTracks(s: State, n: string, id: RuleId, m: string, i: RuleId)
    requires Tracked(s, m, i) && id in s.db && IdOf(s.db[id]) == id && id !in s.dead
    ensures Tracked(AfterReplay(s, n, id), m, i)
  {
    hide PutOpFor, DropOpFor, WriteOut, FetchOut, PutRowFor, PutMailFor, DropRowFor, DropMailFor;
    OpAdded(s.ops, PutWritten(n, s.db[id]), m, i);
  }

  /** The call goes on: only its own outstanding cache write is done. */
  lemma PutCachedMoves(s: State, op: AdminOp, m: string, i: RuleId)
    requires op in s.ops && op.PutWritten? && op.node in s.caches
    ensures var t := AfterPutCached(s, op);
            && (PutOpFor(t.ops, i) <==> PutOpFor(s.ops, i)) && (DropOpFor(t.ops, i) <==> DropOpFor(s.ops, i))
            && (WriteOut(s.ops, m, i) <==> WriteOut(t.ops, m, i) || WritesAt(op, m, i))
            && (PutsFor(op, i) ==> PutOpFor(s.ops, i))
            && t.caches == s.caches[op.node := Upsert(s.caches[op.node], op.rule)]
  {
    hide PutOpFor, DropOpFor, WriteOut, Upsert;
    OpTaken(s.ops, op, m, i);
    OpAdded(s.ops - multiset{op}, PutCached(op.rule), m, i);
  }

  lemma PutCachedTracks(s: State, op: AdminOp, m: string, i: RuleId)
    requires Tracked(s, m, i) && op in s.ops && op.PutWritten? && op.node in s.caches
    requires Known(s.db, s.dead, op.rule) && (i in s.db ==> i !in s.dead)
    ensures Tracked(AfterPutCached(s, op), m, i)
  {
    hide PutOpFor, DropOpFor, WriteOut, FetchOut, PutRowFor, PutMailFor, DropRowFor, DropMailFor, AfterPutCached;
    PutCachedMoves(s, op, m, i);
  }

  lemma DropCachedMoves(s: State, op: AdminOp, m: string, i: RuleId)
    requires op in s.ops && op.DropWritten? && op.node in s.caches
    ensures var t := AfterDropCached(s, op);
            && (PutOpFor(t.ops, i) <==> PutOpFor(s.ops, i)) && (DropOpFor(t.ops, i) <==> DropOpFor(s.ops, i))
            && (WriteOut(t.ops, m, i) <==> WriteOut(s.ops, m, i))
            && t.caches == s.caches[op.node := DropIfOlder(s.caches[op.node], op.id, op.version)]
            && t.raced == Settled(s, op.node, op.id)
  {
    hide PutOpFor, DropOpFor, WriteOut, DropIfOlder, Settled;
    OpTaken(s.ops, op, m, i);
    OpAdded(s.ops - multiset{op}, DropCached(op.id, op.version), m, i);
  }

  lemma DropCachedTracks(s: State, op: AdminOp, m: string, i: RuleId)
    requires Tracked(s, m, i) && op in s.ops && op.DropWritten? && op.node in s.caches && op.id !in s.db
    requires op.id !in DropIfOlder(s.caches[op.node], op.id, op.version)
    ensures Tracked(AfterDropCached(s, op), m, i)
  {
    hide PutOpFor, DropOpFor, WriteOut, FetchOut, PutRowFor, PutMailFor, DropRowFor, DropMailFor, AfterDropCached;
    DropCachedMoves(s, op, m, i);
  }

  /** The event takes the place of the call. */
  lemma InsertMoves(s: State, op: AdminOp, m: string, i: RuleId)
    requires op in s.ops && (op.PutCached? || op.DropCached?)
    ensures var t := AfterInsert(s, op);
            && (PutOpFor(t.ops, i) || PutRowFor(t.rows, i) <==> PutOpFor(s.ops, i) || PutRowFor(s.rows, i))
            && (DropOpFor(t.ops, i) || DropRowFor(t.rows, i) <==> DropOpFor(s.ops, i) || DropRowFor(s.rows, i))
            && (WriteOut(t.ops, m, i) <==> WriteOut(s.ops, m, i))
  {
    hide PutOpFor, DropOpFor, WriteOut, PutRowFor, DropRowFor;
    OpTaken(s.ops, op, m, i);
    RowAdded(s.rows, EventOf(op), i);
  }

  lemma InsertTracks(s: State, op: AdminOp, m: string, i: RuleId)
    requires Tracked(s, m, i) && op in s.ops && (op.PutCached? || op.DropCached?)
    ensures Tracked(AfterInsert(s, op), m, i)
  {
    hide PutOpFor, DropOpFor, WriteOut, FetchOut, PutRowFor, PutMailFor, DropRowFor, DropMailFor, AfterInsert;
    InsertMoves(s, op, m, i);
  }

  /** A row leaves the outbox once every node has it in its mail. */
  lemma PublishTracks(s: State, e: Event, m: string, i: RuleId)
    requires Tracked(s, m, i) && e in s.rows && m in s.nodes
    ensures Tracked(AfterPublish(s, e), m, i)
  {
    hide PutOpFor, DropOpFor, WriteOut, FetchOut, PutRowFor, PutMailFor, DropRowFor, DropMailFor, ToAll;
    MailToAll(s.inbox, s.nodes, e, m, i);
    RowTaken(s.rows, e, i);
  }

  lemma RepublishTracks(s: State, e: Event, m: string, i: RuleId)
    requires Tracked(s, m, i) && m in s.nodes
    ensures Tracked(AfterRepublish(s, e), m, i)
  {
    hide PutOpFor, DropOpFor, WriteOut, FetchOut, PutRowFor, PutMailFor, DropRowFor, DropMailFor, ToAll;
    MailToAll(s.inbox, s.nodes, e, m, i);
  }

  lemma MarkSentTracks(s: State, e: Event, m: string, i: RuleId)
    requires Tracked(s, m, i)
    ensures Tracked(AfterMarkSent(s, e), m, i)
  {
    hide PutOpFor, DropOpFor, WriteOut, FetchOut, PutRowFor, PutMailFor, DropRowFor, DropMailFor;
  }

  lemma DuplicateTracks(s: State, d: Delivery, m: string, i: RuleId)
    requires Tracked(s, m, i) && d in s.inbox
    ensures Tracked(AfterDuplicate(s, d), m, i)
  {
    hide PutOpFor, DropOpFor, WriteOut, FetchOut, PutRowFor, PutMailFor, DropRowFor, DropMailFor;
    MailAdded(s.inbox, d, m, i);
    MailTaken(s.inbox, d, m, i);
  }

  lemma FetchTracks(s: State, d: Delivery, m: string, i: RuleId)
    requires Tracked(s, m, i) && d in s.inbox && d.event.Upserted?
    requires d.event.id in s.db ==> IdOf(s.db[d.event.id]) == d.event.id && d.event.id !in s.dead
    requires i in s.db ==> IdOf(s.db[i]) == i
    ensures Tracked(AfterFetch(s, d), m, i)
  {
    hide PutOpFor, DropOpFor, WriteOut, FetchOut, PutRowFor, PutMailFor, DropRowFor, DropMailFor;
    var id := d.event.id;
    MailTaken(s.inbox, d, m, i);
    if id in s.db {
      FetchAdded(s.fetched, Fetch(d.node, s.db[id]), m, i);
    }
  }

  lemma DropTracks(s: State, d: Delivery, m: string, i: RuleId)
    requires Tracked(s, m, i) && d in s.inbox && d.event.Deleted? && d.node in s.caches && d.event.id !in s.db
    requires d.event.id !in DropIfOlder(s.caches[d.node], d.event.id, d.event.version)
    ensures Tracked(AfterDrop(s, d), m, i)
  {
    hide PutOpFor, DropOpFor, WriteOut, FetchOut, PutRowFor, PutMailFor, DropRowFor, DropMailFor;
    MailTaken(s.inbox, d, m, i);
  }

  lemma ApplyTracks(s: State, f: Fetch, m: string, i: RuleId)
    requires Tracked(s, m, i) && f in s.fetched && f.node in s.caches
    requires Known(s.db, s.dead, f.rule) && (i in s.db ==> i !in s.dead && IdOf(s.db[i]) == i)
    requires i in s.caches[f.node] ==>
               IdOf(s.caches[f.node][i]) == i && Known(s.db, s.dead, s.caches[f.node][i])
    ensures Tracked(AfterApply(s, f), m, i)
  {
    hide PutOpFor, DropOpFor, WriteOut, FetchOut, PutRowFor, PutMailFor, DropRowFor, DropMailFor;
    FetchTaken(s.fetched, f, m, i);
  }

  lemma LoadTracks(s: State, n: string, m: string, i: RuleId)
    requires Tracked(s, m, i) && n !in s.loaded && (i in s.db ==> i !in s.dead)
    ensures Tracked(AfterLoad(s, n), m, i)
  {
    hide PutOpFor, DropOpFor, WriteOut, FetchOut, PutRowFor, PutMailFor, DropRowFor, DropMailFor;
  }

  lemma StoreTracks(s: State, n: string, m: string, i: RuleId)
    requires Tracked(s, m, i) && n in s.loaded && n in s.caches && (i in s.db ==> i !in s.dead)
    ensures Tracked(AfterStore(s, n), m, i)
  {
    hide PutOpFor, DropOpFor, WriteOut, FetchOut, PutRowFor, PutMailFor, DropRowFor, DropMailFor;
  }

  // The invariant

  lemma CacheKnows(s: State, n: string, id: RuleId)
    requires Sound(s) && n in s.caches && id in s.caches[n]
    ensures IdOf(s.caches[n][id]) == id && Known(s.db, s.dead, s.caches[n][id])
  {
    assert CacheSound(s.db, s.dead, s.caches[n]);
  }

  /** A deletion that tells the truth removes whatever the cache has of the rule. */
  lemma DeletionApplies(s: State, n: string, id: RuleId, version: int)
    requires Sound(s) && n in s.caches && id in s.dead && version == s.dead[id]
    ensures id !in s.db && id !in DropIfOlder(s.caches[n], id, version)
  {
    if id in s.caches[n] {
      CacheKnows(s, n, id);
    }
  }

  /** What is left of a rule that is created again cleanly: nothing, so its deletion can be forgotten. */
  ghost function Forgotten(s: State, id: RuleId): State {
    s.(dead := s.dead - {id})
  }

  lemma ForgetKnown(db: RuleSet, dead: map<RuleId, int>, id: RuleId)
    ensures forall r | IdOf(r) != id && Known(db, dead, r) :: Known(db, dead - {id}, r)
  {
  }

  lemma ForgetSoundCaches(db: RuleSet, dead: map<RuleId, int>, caches: map<string, RuleSet>, id: RuleId)
    requires CachesSound(db, dead, caches) && forall n | n in caches :: id !in caches[n]
    ensures CachesSound(db, dead - {id}, caches)
  {
    hide Known;
    ForgetKnown(db, dead, id);
    forall n | n in caches
      ensures CacheSound(db, dead - {id}, caches[n])
    {
      assert CacheSound(db, dead, caches[n]);
    }
  }

  lemma ForgetSoundWrites(s: State, id: RuleId)
    requires Sound(s) && forall n: string :: !Outstanding(s, n, id)
    ensures FetchedSound(s.db, s.dead - {id}, s.fetched) && OpsSound(s.db, s.dead - {id}, s.ops)
    ensures forall n | n in s.loaded :: id !in s.loaded[n]
  {
    hide Known, DbSound, CachesSound;
    ForgetKnown(s.db, s.dead, id);
    forall f | f in s.fetched
      ensures IdOf(f.rule) != id
    {
      assert !Outstanding(s, f.node, id);
    }
    forall op | op in s.ops && op.PutWritten?
      ensures IdOf(op.rule) != id
    {
      assert !Outstanding(s, op.node, id);
    }
    forall n | n in s.loaded
      ensures id !in s.loaded[n]
    {
      assert !Outstanding(s, n, id);
    }
  }

  lemma ForgetTrueDeletions(s: State, id: RuleId)
    requires DeletionsTrue(s) && CleanAt(s, id)
    ensures DeletionsTrue(Forgotten(s, id))
  {
    hide Outstanding;
    forall d | d in s.inbox && d.event.Deleted?
      ensures d.event.id != id
    {
      assert !DropMailFor(s.inbox, d.node, id);
    }
  }

  lemma ForgetKeepsSound(s: State, id: RuleId)
    requires Sound(s) && DeletionsTrue(s) && CleanAt(s, id) && id !in s.db
    ensures Sound(Forgotten(s, id)) && DeletionsTrue(Forgotten(s, id))
  {
    ForgetTrueDeletions(s, id);
    ForgetSoundWrites(s, id);
    hide Known, FetchedSound, OpsSound, DeletionsTrue, Outstanding, DropOpFor, DropRowFor, DropMailFor;
    assert DbSound(s.db, s.dead - {id});
    hide DbSound, CachesSound;
    ForgetSoundCaches(s.db, s.dead, s.caches, id);
    ForgetSoundCaches(s.db, s.dead, s.loaded, id);
  }

  lemma ForgetTracks(s: State, id: RuleId, m: string, i: RuleId)
    requires Tracked(s, m, i) && CleanAt(s, id) && id !in s.db
    ensures Tracked(Forgotten(s, id), m, i)
  {
    hide PutOpFor, DropOpFor, WriteOut, FetchOut, PutRowFor, PutMailFor, DropRowFor, DropMailFor;
    assert !Outstanding(s, m, id);
  }

  lemma DuplicateKeepsSound(s: State, d: Delivery)
    requires Sound(s) && DeletionsTrue(s) && d in s.inbox
    ensures Sound(AfterDuplicate(s, d)) && DeletionsTrue(AfterDuplicate(s, d))
  {
    hide DbSound, CachesSound, FetchedSound, OpsSound, DropsTrue, EventsTrue, MailTrue;
    MailsAdded(s.dead, s.inbox, d);
  }

  lemma MarkSentKeepsSound(s: State, e: Event)
    requires Sound(s) && DeletionsTrue(s)
    ensures Sound(AfterMarkSent(s, e)) && DeletionsTrue(AfterMarkSent(s, e))
  {
    hide DbSound, CachesSound, FetchedSound, OpsSound, DropsTrue, EventsTrue, MailTrue;
    EventsAdded(s.dead, s.published, e);
  }

  lemma StoredIsAlive(s: State, id: RuleId)
    requires Sound(s) && id in s.db
    ensures IdOf(s.db[id]) == id && id !in s.dead && s.db[id].version >= 1
  {
  }

  lemma StepKeepsSound(s: State, a: Action)
    requires Sound(s) && DeletionsTrue(s) && Enabled(s, a) && (a.WriteCreate? ==> IdOf(a.rule) !in s.dead)
    ensures Sound(Next(s, a)) && DeletionsTrue(Next(s, a))
  {
    hide AfterPut, AfterDelete, AfterReplay, AfterPutCached, AfterDropCached, AfterInsert, AfterPublish, AfterRepublish;
    hide AfterMarkSent, AfterDuplicate, AfterFetch, AfterDrop, AfterApply, AfterLoad, AfterStore;
    hide Sound, DeletionsTrue;
    match a
    case WriteCreate(n, rule) => PutKeepsSound(s, n, rule);
    case WriteUpdate(n, rule) =>
      StoredIsAlive(s, IdOf(rule));
      PutKeepsSound(s, n, rule);
    case WriteDelete(n, id) => DeleteKeepsSound(s, n, id);
    case Replay(n, id) => ReplayKeepsSound(s, n, id);
    case AdminCache(op) => if op.PutWritten? { PutCachedKeepsSound(s, op); } else { DropCachedKeepsSound(s, op); }
    case AdminInsert(op) => InsertKeepsSound(s, op);
    case Publish(e) => PublishKeepsSound(s, e);
    case Republish(e) => RepublishKeepsSound(s, e);
    case MarkSent(e) => MarkSentKeepsSound(s, e);
    case Duplicate(d) => DuplicateKeepsSound(s, d);
    case Handle(d) => if d.event.Deleted? { DropKeepsSound(s, d); } else { FetchKeepsSound(s, d); }
    case Apply(f) => ApplyKeepsSound(s, f);
    case SyncLoad(n) => LoadKeepsSound(s, n);
    case SyncStore(n) => StoreKeepsSound(s, n);
  }

  lemma CallTracks(s: State, a: Action, m: string, i: RuleId)
    requires Sound(s) && DeletionsTrue(s) && Enabled(s, a) && m in s.nodes && Tracked(s, m, i)
    requires a.WriteCreate? || a.WriteUpdate? || a.WriteDelete? || a.Replay? || a.AdminCache? || a.AdminInsert?
    requires a.WriteCreate? ==> IdOf(a.rule) !in s.dead
    ensures Tracked(Next(s, a), m, i)
  {
    hide Tracked, AfterPut, AfterDelete, AfterReplay, AfterPutCached, AfterDropCached, AfterInsert, DropIfOlder, Known;
    hide CachesSound, FetchedSound, EventsTrue, MailTrue;
    match a
    case WriteCreate(n, rule) => PutTracks(s, n, rule, m, i);
    case WriteUpdate(n, rule) => PutTracks(s, n, rule, m, i);
    case WriteDelete(n, id) => DeleteTracks(s, n, id, m, i);
    case Replay(n, id) => ReplayTracks(s, n, id, m, i);
    case AdminCache(op) =>
      if op.PutWritten? {
        PutCachedTracks(s, op, m, i);
      } else {
        DeletionApplies(s, op.node, op.id, op.version);
        DropCachedTracks(s, op, m, i);
      }
    case AdminInsert(op) => InsertTracks(s, op, m, i);
  }

  lemma DeliveryTracks(s: State, a: Action, m: string, i: RuleId)
    requires Sound(s) && DeletionsTrue(s) && Enabled(s, a) && m in s.nodes && Tracked(s, m, i)
    requires !a.WriteCreate? && !a.WriteUpdate? && !a.WriteDelete? && !a.Replay? && !a.AdminCache? && !a.AdminInsert?
    ensures Tracked(Next(s, a), m, i)
  {
    hide Tracked, AfterPublish, AfterRepublish, AfterMarkSent, AfterDuplicate, AfterFetch, AfterDrop, AfterApply;
    hide AfterLoad, AfterStore, DropIfOlder, Known, CachesSound, OpsSound, DropsTrue, EventsTrue;
    match a
    case Publish(e) => PublishTracks(s, e, m, i);
    case Republish(e) => RepublishTracks(s, e, m, i);
    case MarkSent(e) => MarkSentTracks(s, e, m, i);
    case Duplicate(d) => DuplicateTracks(s, d, m, i);
    case Handle(d) =>
      if d.event.Deleted? {
        DeletionApplies(s, d.node, d.event.id, d.event.version);
        DropTracks(s, d, m, i);
      } else {
        FetchTracks(s, d, m, i);
      }
    case Apply(f) =>
      if i in s.caches[f.node] {
        CacheKnows(s, f.node, i);
      }
      ApplyTracks(s, f, m, i);
    case SyncLoad(n) => LoadTracks(s, n, m, i);
    case SyncStore(n) => StoreTracks(s, n, m, i);
  }

  lemma StepKeepsNodes(s: State, a: Action)
    requires Enabled(s, a)
    ensures Next(s, a).nodes == s.nodes
  {
    hide AfterPut, AfterDelete, AfterReplay, AfterPutCached, AfterDropCached, AfterInsert, AfterPublish, AfterRepublish;
    hide AfterMarkSent, AfterDuplicate, AfterFetch, AfterDrop, AfterApply, AfterLoad, AfterStore;
  }

  /** A step from a state in which a rule to be created is not one that was deleted before. */
  lemma FreshStepKeepsInv(s: State, a: Action)
    requires Inv(s) && Enabled(s, a) && (a.WriteCreate? ==> IdOf(a.rule) !in s.dead)
    ensures Inv(Next(s, a))
  {
    hide Sound, DeletionsTrue, Tracked, Enabled, Next;
    StepKeepsSound(s, a);
    StepKeepsNodes(s, a);
    forall m, i | m in s.nodes
      ensures Tracked(Next(s, a), m, i)
    {
      if a.WriteCreate? || a.WriteUpdate? || a.WriteDelete? || a.Replay? || a.AdminCache? || a.AdminInsert? {
        CallTracks(s, a, m, i);
      } else {
        DeliveryTracks(s, a, m, i);
      }
    }
  }

  lemma ForgetKeepsInv(s: State, id: RuleId)
    requires Inv(s) && CleanAt(s, id) && id !in s.db
    ensures Inv(Forgotten(s, id))
  {
    hide Sound, DeletionsTrue, Tracked, CleanAt;
    ForgetKeepsSound(s, id);
    forall m, i | m in s.nodes
      ensures Tracked(Forgotten(s, id), m, i)
    {
      ForgetTracks(s, id, m, i);
    }
  }

  /** A creation forgets the deletion itself. */
  lemma CreateForgets(s: State, n: string, rule: Rule)
    ensures AfterPut(Forgotten(s, IdOf(rule)), n, rule) == AfterPut(s, n, rule)
  {
    var id := IdOf(rule);
    assert s.dead - {id} - {id} == s.dead - {id};
  }

  lemma RecreateKeepsInv(s: State, n: string, rule: Rule)
    requires Inv(s) && Enabled(s, WriteCreate(n, rule)) && CleanAt(s, IdOf(rule))
    ensures Inv(AfterPut(s, n, rule))
  {
    hide Inv, CleanAt, AfterPut;
    var id := IdOf(rule);
    ForgetKeepsInv(s, id);
    FreshStepKeepsInv(Forgotten(s, id), WriteCreate(n, rule));
    CreateForgets(s, n, rule);
  }

  /** Every step keeps the invariant; a rule that is created again must find nothing of its earlier life. */
  lemma StepKeepsInv(s: State, a: Action)
    requires Inv(s) && Enabled(s, a) && CleanlyCreates(s, a)
    ensures Inv(Next(s, a))
  {
    hide Inv, CleanAt, AfterPut;
    if a.WriteCreate? && IdOf(a.rule) in s.dead {
      RecreateKeepsInv(s, a.node, a.rule);
    } else {
      FreshStepKeepsInv(s, a);
    }
  }

  // What a step does to the records of history

  lemma PutEffects(s: State, n: string, rule: Rule)
    ensures AfterPut(s, n, rule).lagging <= s.lagging
  {
  }

  lemma ReplayEffects(s: State, n: string, id: RuleId)
    requires id in s.db
    ensures AfterReplay(s, n, id).lagging <= s.lagging
  {
  }

  lemma RepublishEffects(s: State, e: Event)
    ensures AfterRepublish(s, e).lagging <= s.lagging
  {
    hide ToAll;
  }

  lemma StoreEffects(s: State, n: string)
    requires n in s.loaded
    ensures var t := AfterStore(s, n);
            && t.loaded == s.loaded - {n} && t.raced <= s.raced
            && forall p | p in t.lagging && p.0 != n :: p in s.lagging
  {
    hide FetchOut, WriteOut, PutComing, Listed;
  }

  lemma DropEffects(s: State, d: Delivery)
    requires d.node in s.caches
    ensures AfterDrop(s, d).raced <= s.raced
  {
    hide Outstanding, DropIfOlder;
  }

  lemma DropCachedEffects(s: State, op: AdminOp)
    requires op.DropWritten? && op.node in s.caches
    ensures AfterDropCached(s, op).raced <= s.raced
  {
    hide Outstanding, DropIfOlder;
  }
}
