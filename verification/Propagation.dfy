/**
 * Rule propagation: admin writes, the outbox, unordered and duplicated delivery, full synchronisation, and the cache of
 * every node, as interleaved steps. A database read and the cache write that follows it are separate steps.
 */
module Propagation {
  import opened Rules

  /** An admin call after its database write: first its own node's cache, then the outbox. */
  datatype AdminOp =
    | PutWritten(node: string, rule: Rule)
    | PutCached(rule: Rule)
    | DropWritten(node: string, id: RuleId, version: int)
    | DropCached(id: RuleId, version: int)

  /** An event on its way to the handler of a node. */
  datatype Delivery = Delivery(node: string, event: Event)

  /** A handler that has read a rule from the database and has still to write it to its cache. */
  datatype Fetch = Fetch(node: string, rule: Rule)

  /** A rule at a node. */
  type Spot = (string, RuleId)

  /**
   * `loaded` holds the list of every node whose synchronisation has read the database and not yet stored the list, and
   * `dead` the last version of every rule that was deleted and not created again. Two sets record history: `raced` the
   * spots at which a cache write was outstanding at the deletion and, since then, whenever a deletion or a list reached
   * the node; `lagging` the spots at which a list without the stored version was stored when no announcement of it was
   * coming any more, and the rule has been neither written, announced nor listed since.
   */
  datatype State = State(
    nodes: set<string>, db: RuleSet, dead: map<RuleId, int>, caches: map<string, RuleSet>,
    ops: multiset<AdminOp>, rows: multiset<Event>, published: multiset<Event>,
    inbox: multiset<Delivery>, fetched: multiset<Fetch>, loaded: map<string, RuleSet>,
    raced: set<Spot>, lagging: set<Spot>)

  function Start(nodes: set<string>): State {
    State(nodes, map[], map[], map n | n in nodes :: map[], multiset{}, multiset{}, multiset{}, multiset{}, multiset{},
          map[], {}, {})
  }

  datatype Action =
    | WriteCreate(node: string, rule: Rule)  // also of a rule that was deleted before
    | WriteUpdate(node: string, rule: Rule)
    | WriteDelete(node: string, id: RuleId)
    | Replay(node: string, id: RuleId)       // an idempotent creation that returns the stored rule
    | AdminCache(op: AdminOp)
    | AdminInsert(op: AdminOp)
    | Publish(event: Event)
    | Republish(event: Event)                // a row that was published and not marked
    | MarkSent(event: Event)
    | Duplicate(delivery: Delivery)
    | Handle(delivery: Delivery)             // a deletion, or the database read of an upsert
    | Apply(fetch: Fetch)                    // the cache write of an upsert
    | SyncLoad(node: string)                 // LoadAll; a node has one synchronisation worker
    | SyncStore(node: string)                // ReplaceAll

  predicate Enabled(s: State, a: Action) {
    match a
    case WriteCreate(n, rule) => n in s.nodes && IdOf(rule) !in s.db && rule.version == 1
    case WriteUpdate(n, rule) => n in s.nodes && IdOf(rule) in s.db && rule.version == s.db[IdOf(rule)].version + 1
    case WriteDelete(n, id) => n in s.nodes && id in s.db
    case Replay(n, id) => n in s.nodes && id in s.db
    case AdminCache(op) => op in s.ops && (op.PutWritten? || op.DropWritten?) && op.node in s.caches
    case AdminInsert(op) => op in s.ops && (op.PutCached? || op.DropCached?)
    case Publish(e) => e in s.rows
    case Republish(e) => e in s.published
    case MarkSent(e) => e in s.published
    case Duplicate(d) => d in s.inbox
    case Handle(d) => d in s.inbox && d.node in s.caches
    case Apply(f) => f in s.fetched && f.node in s.caches
    case SyncLoad(n) => n in s.nodes && n !in s.loaded
    case SyncStore(n) => n in s.loaded && n in s.caches
  }

  /** One delivery to every node. */
  function ToAll(nodes: set<string>, e: Event): multiset<Delivery> {
    multiset(set n | n in nodes :: Delivery(n, e))
  }

  // What is under way for a rule

  ghost predicate FetchOut(fetched: multiset<Fetch>, n: string, id: RuleId) {
    exists f :: f in fetched && f.node == n && IdOf(f.rule) == id
  }

  ghost predicate WriteOut(ops: multiset<AdminOp>, n: string, id: RuleId) {
    exists op :: op in ops && op.PutWritten? && op.node == n && IdOf(op.rule) == id
  }

  predicate ListOut(loaded: map<string, RuleSet>, n: string, id: RuleId) {
    n in loaded && id in loaded[n]
  }

  /** A cache write of the rule is outstanding at the node. */
  ghost predicate Outstanding(s: State, n: string, id: RuleId) {
    FetchOut(s.fetched, n, id) || WriteOut(s.ops, n, id) || ListOut(s.loaded, n, id)
  }

  ghost predicate PutOpFor(ops: multiset<AdminOp>, id: RuleId) {
    exists op :: op in ops && (op.PutWritten? || op.PutCached?) && IdOf(op.rule) == id
  }

  ghost predicate PutRowFor(rows: multiset<Event>, id: RuleId) {
    exists e :: e in rows && e.Upserted? && e.id == id
  }

  ghost predicate PutMailFor(inbox: multiset<Delivery>, n: string, id: RuleId) {
    exists d :: d in inbox && d.node == n && d.event.Upserted? && d.event.id == id
  }

  /** The stored version, or an announcement that will fetch it, is on its way to the node. */
  ghost predicate PutComing(s: State, n: string, id: RuleId) {
    PutOpFor(s.ops, id) || PutRowFor(s.rows, id) || PutMailFor(s.inbox, n, id)
    || (id in s.db && Fetch(n, s.db[id]) in s.fetched)
  }

  ghost predicate DropOpFor(ops: multiset<AdminOp>, id: RuleId) {
    exists op :: op in ops && (op.DropWritten? || op.DropCached?) && op.id == id
  }

  ghost predicate DropRowFor(rows: multiset<Event>, id: RuleId) {
    exists e :: e in rows && e.Deleted? && e.id == id
  }

  ghost predicate DropMailFor(inbox: multiset<Delivery>, n: string, id: RuleId) {
    exists d :: d in inbox && d.node == n && d.event.Deleted? && d.event.id == id
  }

  /** A deletion of the rule is on its way to the node. */
  ghost predicate DropComing(s: State, n: string, id: RuleId) {
    DropOpFor(s.ops, id) || DropRowFor(s.rows, id) || DropMailFor(s.inbox, n, id)
  }

  /** The list of the node holds the stored version of the rule. */
  predicate Listed(s: State, n: string, id: RuleId) {
    n in s.loaded && id in s.loaded[n] && id in s.db && s.loaded[n][id] == s.db[id]
  }

  // The steps; each says which components it changes

  function Others(spots: set<Spot>, id: RuleId): set<Spot> {
    set p | p in spots && p.1 != id
  }

  /** A creation or update: the new rule is stored. */
  function AfterPut(s: State, n: string, rule: Rule): (t: State)
    ensures t == s.(db := t.db, dead := t.dead, ops := t.ops, lagging := t.lagging)
  {
    var id := IdOf(rule);
    s.(db := s.db[id := rule], dead := s.dead - {id}, ops := s.ops + multiset{PutWritten(n, rule)},
       lagging := Others(s.lagging, id))
  }

  ghost function AfterDelete(s: State, n: string, id: RuleId): (t: State)
    requires id in s.db
    ensures t == s.(db := t.db, dead := t.dead, ops := t.ops, raced := t.raced, lagging := t.lagging)
  {
    s.(db := s.db - {id}, dead := s.dead[id := s.db[id].version],
       ops := s.ops + multiset{DropWritten(n, id, s.db[id].version)},
       raced := s.raced + set m | m in s.nodes && Outstanding(s, m, id) :: (m, id),
       lagging := Others(s.lagging, id))
  }

  function AfterReplay(s: State, n: string, id: RuleId): (t: State)
    requires id in s.db
    ensures t == s.(ops := t.ops, lagging := t.lagging)
  {
    s.(ops := s.ops + multiset{PutWritten(n, s.db[id])}, lagging := Others(s.lagging, id))
  }

  function AfterPutCached(s: State, op: AdminOp): (t: State)
    requires op.PutWritten? && op.node in s.caches
    ensures t == s.(caches := t.caches, ops := t.ops)
  {
    s.(caches := s.caches[op.node := Upsert(s.caches[op.node], op.rule)],
       ops := s.ops - multiset{op} + multiset{PutCached(op.rule)})
  }

  /** A deletion that finds no cache write outstanding ends the race. */
  ghost function Settled(s: State, n: string, id: RuleId): set<Spot> {
    if Outstanding(s, n, id) then s.raced else s.raced - {(n, id)}
  }

  ghost function AfterDropCached(s: State, op: AdminOp): (t: State)
    requires op.DropWritten? && op.node in s.caches
    ensures t == s.(caches := t.caches, ops := t.ops, raced := t.raced)
  {
    s.(caches := s.caches[op.node := DropIfOlder(s.caches[op.node], op.id, op.version)],
       ops := s.ops - multiset{op} + multiset{DropCached(op.id, op.version)},
       raced := Settled(s, op.node, op.id))
  }

  function EventOf(op: AdminOp): Event
    requires op.PutCached? || op.DropCached?
  {
    if op.PutCached? then Upserted(IdOf(op.rule), op.rule.version) else Deleted(op.id, op.version)
  }

  function AfterInsert(s: State, op: AdminOp): (t: State)
    requires op.PutCached? || op.DropCached?
    ensures t == s.(ops := t.ops, rows := t.rows)
  {
    s.(ops := s.ops - multiset{op}, rows := s.rows + multiset{EventOf(op)})
  }

  function AfterPublish(s: State, e: Event): (t: State)
    ensures t == s.(rows := t.rows, published := t.published, inbox := t.inbox)
  {
    s.(rows := s.rows - multiset{e}, published := s.published + multiset{e}, inbox := s.inbox + ToAll(s.nodes, e))
  }

  function AfterRepublish(s: State, e: Event): (t: State)
    ensures t == s.(inbox := t.inbox, lagging := t.lagging)
  {
    s.(inbox := s.inbox + ToAll(s.nodes, e), lagging := if e.Upserted? then Others(s.lagging, e.id) else s.lagging)
  }

  function AfterMarkSent(s: State, e: Event): (t: State)
    ensures t == s.(published := t.published)
  {
    s.(published := s.published - multiset{e})
  }

  function AfterDuplicate(s: State, d: Delivery): (t: State)
    ensures t == s.(inbox := t.inbox)
  {
    s.(inbox := s.inbox + multiset{d})
  }

  /** The handler of an upsert reads the database; a rule that is not there needs no cache write. */
  function AfterFetch(s: State, d: Delivery): (t: State)
    ensures t == s.(inbox := t.inbox, fetched := t.fetched)
  {
    var taken := s.(inbox := s.inbox - multiset{d});
    if d.event.id in s.db then taken.(fetched := s.fetched + multiset{Fetch(d.node, s.db[d.event.id])}) else taken
  }

  ghost function AfterDrop(s: State, d: Delivery): (t: State)
    requires d.node in s.caches
    ensures t == s.(inbox := t.inbox, caches := t.caches, raced := t.raced)
  {
    s.(inbox := s.inbox - multiset{d},
       caches := s.caches[d.node := DropIfOlder(s.caches[d.node], d.event.id, d.event.version)],
       raced := Settled(s, d.node, d.event.id))
  }

  function AfterApply(s: State, f: Fetch): (t: State)
    requires f.node in s.caches
    ensures t == s.(caches := t.caches, fetched := t.fetched)
  {
    s.(caches := s.caches[f.node := Upsert(s.caches[f.node], f.rule)], fetched := s.fetched - multiset{f})
  }

  function AfterLoad(s: State, n: string): (t: State)
    ensures t == s.(loaded := t.loaded)
  {
    s.(loaded := s.loaded[n := s.db])
  }

  /** The races that storing its list leaves open at a node. */
  ghost function RacedAfterStore(s: State, n: string): set<Spot>
    requires n in s.loaded
  {
    set p | p in s.raced
            && (p.0 != n || p.1 in s.loaded[n] || FetchOut(s.fetched, n, p.1) || WriteOut(s.ops, n, p.1))
  }

  /** What storing its list leaves behind at a node. */
  ghost function LaggingAfterStore(s: State, n: string): set<Spot> {
    (set p | p in s.lagging && p.0 != n) +
    (set id | id in s.db && !Listed(s, n, id) && !PutComing(s, n, id) :: (n, id))
  }

  ghost function AfterStore(s: State, n: string): (t: State)
    requires n in s.loaded
    ensures t == s.(caches := t.caches, loaded := t.loaded, raced := t.raced, lagging := t.lagging)
  {
    s.(caches := s.caches[n := s.loaded[n]], loaded := s.loaded - {n},
       raced := RacedAfterStore(s, n), lagging := LaggingAfterStore(s, n))
  }

  ghost function Next(s: State, a: Action): State
    requires Enabled(s, a)
  {
    match a
    case WriteCreate(n, rule) => AfterPut(s, n, rule)
    case WriteUpdate(n, rule) => AfterPut(s, n, rule)
    case WriteDelete(n, id) => AfterDelete(s, n, id)
    case Replay(n, id) => AfterReplay(s, n, id)
    case AdminCache(op) => if op.PutWritten? then AfterPutCached(s, op) else AfterDropCached(s, op)
    case AdminInsert(op) => AfterInsert(s, op)
    case Publish(e) => AfterPublish(s, e)
    case Republish(e) => AfterRepublish(s, e)
    case MarkSent(e) => AfterMarkSent(s, e)
    case Duplicate(d) => AfterDuplicate(s, d)
    case Handle(d) => if d.event.Deleted? then AfterDrop(s, d) else AfterFetch(s, d)
    case Apply(f) => AfterApply(s, f)
    case SyncLoad(n) => AfterLoad(s, n)
    case SyncStore(n) => AfterStore(s, n)
  }

  // Re-creation

  /** Nothing of an earlier life of the rule is left: no deletion under way, no cache write, no copy in a cache. */
  ghost predicate CleanAt(s: State, id: RuleId) {
    && !DropOpFor(s.ops, id) && !DropRowFor(s.rows, id) && !DropRowFor(s.published, id)
    && (forall n: string :: !DropMailFor(s.inbox, n, id))
    && (forall n: string :: !Outstanding(s, n, id))
    && (forall n | n in s.caches :: id !in s.caches[n])
  }

  /** A step that creates a deleted rule again finds nothing of its earlier life. */
  ghost predicate CleanlyCreates(s: State, a: Action) {
    a.WriteCreate? && IdOf(a.rule) in s.dead ==> CleanAt(s, IdOf(a.rule))
  }

  // Soundness: nothing anywhere is ahead of the database

  /** A copy of a rule is the stored rule, an older version of it, or a version the rule had before its deletion. */
  predicate Known(db: RuleSet, dead: map<RuleId, int>, rule: Rule) {
    var id := IdOf(rule);
    && rule.version >= 1
    && (|| (id in db && (rule == db[id] || rule.version < db[id].version))
        || (id in dead && rule.version <= dead[id]))
  }

  ghost predicate DbSound(db: RuleSet, dead: map<RuleId, int>) {
    forall id | id in db :: IdOf(db[id]) == id && id !in dead && db[id].version >= 1
  }

  ghost predicate CacheSound(db: RuleSet, dead: map<RuleId, int>, cache: RuleSet) {
    forall id | id in cache :: IdOf(cache[id]) == id && Known(db, dead, cache[id])
  }

  ghost predicate CachesSound(db: RuleSet, dead: map<RuleId, int>, caches: map<string, RuleSet>) {
    forall n | n in caches :: CacheSound(db, dead, caches[n])
  }

  ghost predicate FetchedSound(db: RuleSet, dead: map<RuleId, int>, fetched: multiset<Fetch>) {
    forall f | f in fetched :: Known(db, dead, f.rule)
  }

  ghost predicate OpsSound(db: RuleSet, dead: map<RuleId, int>, ops: multiset<AdminOp>) {
    forall op | op in ops && op.PutWritten? :: Known(db, dead, op.rule)
  }

  ghost predicate Sound(s: State) {
    && DbSound(s.db, s.dead)
    && s.caches.Keys == s.nodes
    && CachesSound(s.db, s.dead, s.caches)
    && CachesSound(s.db, s.dead, s.loaded)
    && FetchedSound(s.db, s.dead, s.fetched)
    && OpsSound(s.db, s.dead, s.ops)
  }

  // Announced deletions name the version at which the rule died

  ghost predicate DropsTrue(dead: map<RuleId, int>, ops: multiset<AdminOp>) {
    forall op | op in ops && (op.DropWritten? || op.DropCached?) ::
      op.id in dead && op.version == dead[op.id] && op.version >= 1
  }

  ghost predicate EventsTrue(dead: map<RuleId, int>, events: multiset<Event>) {
    forall e | e in events && e.Deleted? :: e.id in dead && e.version == dead[e.id] && e.version >= 1
  }

  ghost predicate MailTrue(dead: map<RuleId, int>, inbox: multiset<Delivery>) {
    forall d | d in inbox && d.event.Deleted? ::
      d.event.id in dead && d.event.version == dead[d.event.id] && d.event.version >= 1
  }

  ghost predicate DeletionsTrue(s: State) {
    && DropsTrue(s.dead, s.ops) && EventsTrue(s.dead, s.rows) && EventsTrue(s.dead, s.published)
    && MailTrue(s.dead, s.inbox)
  }

  // Every spot is accounted for: whatever a cache is missing is on its way to it, or history says why not

  predicate Current(s: State, n: string, id: RuleId) {
    n in s.caches && id in s.caches[n] && id in s.db && s.caches[n][id] == s.db[id]
  }

  predicate Gone(s: State, n: string, id: RuleId) {
    n in s.caches && id !in s.caches[n]
  }

  /** No cache write of the rule is outstanding, and the rule is gone from the cache or its deletion is coming. */
  ghost predicate Quiet(s: State, n: string, id: RuleId) {
    !Outstanding(s, n, id) && (Gone(s, n, id) || DropComing(s, n, id))
  }

  /** A stored rule is in the cache or coming, unless it lags; a deleted one has left or will leave, unless raced. */
  ghost predicate Covered(s: State, n: string, id: RuleId) {
    && (id in s.db && (n, id) !in s.lagging ==> Current(s, n, id) || PutComing(s, n, id))
    && (id in s.dead && (n, id) !in s.raced ==> Quiet(s, n, id))
  }

  /** A raced rule is dead, and is in the cache or about to be written to it. */
  ghost predicate Lingers(s: State, n: string, id: RuleId) {
    id in s.dead && n in s.caches && (id in s.caches[n] || Outstanding(s, n, id))
  }

  /** A lagging rule is stored, and the cache neither has the stored version nor will get it. */
  ghost predicate Lags(s: State, n: string, id: RuleId) {
    id in s.db && !Current(s, n, id) && !PutComing(s, n, id)
  }

  ghost predicate Tracked(s: State, n: string, id: RuleId) {
    && Covered(s, n, id)
    && ((n, id) in s.raced ==> Lingers(s, n, id))
    && ((n, id) in s.lagging ==> Lags(s, n, id))
  }

  ghost predicate Inv(s: State) {
    Sound(s) && DeletionsTrue(s) && forall n, id | n in s.nodes :: Tracked(s, n, id)
  }

  // Whole runs

  ghost predicate IsRun(s: State, actions: seq<Action>)
    decreases |actions|
  {
    actions == [] || (Enabled(s, actions[0]) && IsRun(Next(s, actions[0]), actions[1..]))
  }

  ghost function Run(s: State, actions: seq<Action>): State
    requires IsRun(s, actions)
    decreases |actions|
  {
    if actions == [] then s else Run(Next(s, actions[0]), actions[1..])
  }

  /** Every rule that is created again finds nothing of its earlier life. */
  ghost predicate CleanRun(s: State, actions: seq<Action>)
    requires IsRun(s, actions)
    decreases |actions|
  {
    actions == [] || (CleanlyCreates(s, actions[0]) && CleanRun(Next(s, actions[0]), actions[1..]))
  }
}
