# Verified model of the rate limiter

This project models the rate limiter and its control plane in Dafny and proves what they promise over every run.
`dafny verify dfyconfig.toml` checks all of it.

- **Rule propagation.** An admin call writes the versioned database, its own node's cache and the outbox; the publisher
  hands rows to an unordered publish/subscribe channel; every node's invalidator reads the database and writes its
  copy-on-write cache; a full synchronisation repairs a cache. `Propagation` is the transition system (any number of
  nodes, with admin calls, handlers and synchronisations under way, duplicated and reordered deliveries, and re-creation
  of deleted rules); `PropagationSteps` and `PropagationCoverage` prove its invariant, and `Convergence`, `Sync`,
  `Drain`, `SafeWrites`, `Races`, `Resync` and `Versions` what follows for whole runs. `RuleDb`, `RuleCache`, `Outbox`
  and `Admin` are the classes, and `Admin` shows that their undisturbed calls are runs of the transition system.
- **Limiting algorithms and the batch path.** `Limits` and `Store` are the token bucket, fixed window and sliding window
  of the in-memory store; `Bounds` bounds what a key is admitted over any interval of any run, `Admission` says exactly
  which calls are admitted, and `Retry` and `Decisions` what the numbers of a decision mean. `Batch`, `BatchRun` and
  `BatchHandler` plan a batch and run it group by group, and `BatchExact` says exactly when that cannot be told from
  checking its requests one by one.
- **Limiter pool.** `Pool` interleaves acquirers, releasers, evictors and closers of a shard, `PoolShard` and `Lru` are
  its classes, and `Wakeup` follows one entry through its atomic operations and its condition variable.
- **Failure handling.** `Breaker` and `Limiter` combine the circuit breaker with the limiter that reports to it, `Mode`
  is the mode controller, `Ownership` rendezvous hashing, and `Fallback` the local limiter with its cluster-wide bound.
- **Coalescer.** `Coalescer` interleaves the callers of `Do`, expired leaders included.

Time is integer nanoseconds and never goes back within a run (in `Fallback` each instance has its own clock). Tokens and
durations are exact reals. Clock readings, hash values, health and the membership list are parameters.

Where code and documentation differ, the code is followed:

- Losing quorum alone does not lead to Emergency mode: Redis must have been unhealthy for its threshold as well
  (`Mode.ModeIsHistory`).
- The default quorum fraction of one half lets two regions have quorum at once (`Mode.HalfAllowsTwoQuorums`).
- `DenyWhenNotOwner` and `EmergencyAllowSmallCap` cannot be switched off (`Fallback.Normalize`).
- RetryAfter of a request above the bucket's capacity is never long enough (`Retry.OverCapacityNeverSucceeds`), and a
  sliding-window request is still denied at the very instant RetryAfter names (`Retry.SlidingWindowRetryDenied`).
- A deletion between a handler's database read and its cache write can leave the deleted rule in that cache until the
  next synchronisation (`Races.AnnouncementCanRace`); a deletion still on its way can take a rule that was created again
  out of a cache (`Races.RecreatedRuleCanBeLost`); and a list loaded before a write and stored after it can undo the
  write in a cache until the next synchronisation (`SafeWrites.SyncCanLag`). `SafeWrites.SafeWriteIff` says exactly
  which writes are free of these risks.
- The version of a rule that is created again starts at 1, below copies of its earlier life
  (`Versions.EarlierLifeCanBeAhead`).
- A tenant ID that contains byte 0x1f can share a key with another tenant (`Keys.PairKeysCollideIff`), and a batch that
  mixes the two can answer for the wrong rule (`BatchExact.MisroutedMember`, `BatchExact.MixedBatch`).
- Without a candidate for ownership the fallback has no cluster-wide bound (`Fallback.BoundIffCandidate`).

## Model

| member | source | states |
|---|---|---|
| `Convergence.Convergence` | internal/ratelimit/core/cache_invalidator.go:48-80 | In every run of any number of nodes, with delivery unordered and duplicated and every database read separate from the cache write that follows it (handlers, admin calls and synchronisations), once nothing is under way a node's cache equals the database if and only if no race of a deletion with a cache write and no stale list is left unsettled at that node; the same per rule. A deleted rule may be created again once nothing of its earlier life is left |
| `Convergence.CleanConvergence` | internal/ratelimit/core/admin_handler.go:38-85 | Every cache equals the database at quiescence when every deletion finds no cache write of its rule outstanding, every stored list has each rule as stored or its announcement still coming, and every re-creation finds nothing of the earlier life |
| `Convergence.SimpleConvergence` | internal/ratelimit/core/cache_invalidator.go:48-80 | So it is with creations and updates only and no synchronisation, and with each admin call, handler and synchronisation as one step and clean re-creations |
| `Convergence.NeverAhead` | internal/ratelimit/core/rulecache.go:91-120 | In every such run no cache holds a version above the stored one, or above the last one of a deleted rule |
| `Convergence.RunsKeepInv` | internal/ratelimit/core/cache_invalidator.go:59-79 | The protocol invariant (soundness of every copy, truth of every announced deletion, everything missing is on its way, every open race and every lagging rule stands for a real disagreement) holds after every such run |
| `PropagationCoverage.StepKeepsInv` | internal/ratelimit/core/admin_handler.go:38-85 | Each of the fourteen protocol steps keeps the invariant from any state that satisfies it, where a re-creation must find nothing of the earlier life |
| `SafeWrites.SafeWriteIff` | internal/ratelimit/core/rulecache.go:91-150 | After any such run a write is safe - however the rest is delivered, every cache ends up right about its rule - if and only if: a deletion finds no cache write of the rule outstanding; a creation or update finds no loaded list still to be stored; a re-creation finds no deletion under way, no cache write outstanding and no copy left of the earlier life |
| `SafeWrites.SyncCanLag` | internal/ratelimit/core/cache_sync_worker.go:46-50 | From every reached state, a list loaded before an update can be stored last, so that nothing is under way any more and the cache is wrong about the updated rule |
| `Races.AnnouncementCanRace` | internal/ratelimit/core/cache_invalidator.go:67-75 | Whenever an announcement of a stored rule is on its way to a node, its handler can read the rule before a deletion and write it last, so that nothing is under way and the node is wrong about the deleted rule |
| `Races.RecreatedRuleCanBeLost` | internal/ratelimit/core/rulecache.go:123-150 | Whenever a deletion is on its way to a node and its rule is created again, some continuation ends with nothing under way, the rule stored, and the node without it |
| `Sync.SyncedIsStable` | internal/ratelimit/core/cache_invalidator.go:59-79 | A cache equal to the database, with no race open at its node and any list still to be stored fresh, stays equal through any stale or duplicate delivery, replay, late handler or synchronisation, as long as nothing is written |
| `Sync.SyncRepairs` | internal/ratelimit/core/cache_sync_worker.go:45-50 | After any such run, storing a list loaded after the last write makes the cache equal to the database; it stays so until the next write if and only if no cache write that raced with a deletion is still outstanding at the node |
| `Resync.StoredListStaysIff` | internal/ratelimit/core/cache_sync_worker.go:45-50 | After any run at all, re-creations of every kind included, a stored list that was loaded after the last write stays in the cache until the next write if and only if no outstanding cache write at the node would change it and no deletion under way, or published and not marked, reaches a stored version |
| `Resync.EveryRunCanBeRepaired` | internal/ratelimit/core/cache_sync_worker.go:43-52 | After any run at all some continuation without writes ends with nothing under way and every cache equal to the database as it is now |
| `Versions.NeverAheadIff` | internal/ratelimit/core/rulecache.go:91-120 | After any run at all, no continuation without writes puts a cache ahead of a stored rule if and only if no copy cached, listed, fetched or about to be written at the node is above the stored version |
| `Versions.EarlierLifeCanBeAhead` | internal/ratelimit/store/inmemory/db_inmemory.go:74-83 | Deleting a rule above version 1 and creating it again leaves every cache that had it ahead of the database |
| `Drain.CatchUp` | internal/ratelimit/core/outbox_publisher.go:43-59 | After any such run some continuation without writes empties the outbox, finishes every call, handler and synchronisation, and leaves every node without an unsettled race, a stale list or a list to store with the database as it is now |
| `Drain.Drains` | internal/ratelimit/core/outbox_publisher.go:43-59 | From any state publishing and delivery alone can finish everything, and can do so while holding back any chosen calls, deliveries, handlers and lists to the end |
| `Admin.AdminHandler.CreateRule` | internal/ratelimit/core/admin_handler.go:38-53 | On success the database, the cache and the outbox change as a creation or a replay demands, with exactly one announcement; on failure nothing changes |
| `Admin.AdminHandler.UpdateRule` | internal/ratelimit/core/admin_handler.go:56-71 | On success the next version is stored, cached unless the cache is newer, and announced once; on failure nothing changes |
| `Admin.AdminHandler.DeleteRule` | internal/ratelimit/core/admin_handler.go:74-85 | On success the expected version is removed, dropped from the cache if not newer there, and announced once; on failure nothing changes |
| `Admin.CacheInvalidator.Handle` | internal/ratelimit/core/cache_invalidator.go:48-80 | A deletion drops the announced or an older version; an upsert takes whatever the database holds now; both take the limiter of the rule out of its shard |
| `Admin.CreateCallIsProtocolRun` | internal/ratelimit/core/admin_handler.go:38-53 | An undisturbed CreateRule is the run "write or replay, cache, outbox" of the protocol, and the protocol state goes on showing the database, the cache and the outbox |
| `Admin.UpdateCallIsProtocolRun` | internal/ratelimit/core/admin_handler.go:56-71 | The same for UpdateRule |
| `Admin.DeleteCallIsProtocolRun` | internal/ratelimit/core/admin_handler.go:74-85 | The same for DeleteRule |
| `Admin.HandlerCallIsProtocolRun` | internal/ratelimit/core/cache_invalidator.go:48-80 | An undisturbed handler is one delivery step, followed by the cache write if the rule is stored |
| `RuleDb.InMemoryRuleDB.CreateRule` | internal/ratelimit/store/inmemory/db_inmemory.go:41-91 | The new contents and the result are those of Create, error cases and idempotency records included |
| `RuleDb.InMemoryRuleDB.UpdateRule` | internal/ratelimit/store/inmemory/db_inmemory.go:94-130 | The new contents and the result are those of Update, version check included |
| `RuleDb.InMemoryRuleDB.DeleteRule` | internal/ratelimit/store/inmemory/db_inmemory.go:133-151 | The new contents and the result are those of Delete, version check included |
| `RuleDb.InMemoryRuleDB.LoadAll` | internal/ratelimit/store/inmemory/db_inmemory.go:193-205 | Every stored rule, and nothing else, is returned, as many as there are keys |
| `RuleDb.VersionsHaveNoGaps` | internal/ratelimit/store/inmemory/db_inmemory.go:70-130 | In every run the versions of a key are 1, 2, 3 and so on without gaps from each creation to the next deletion |
| `RuleDb.OneWinnerPerVersion` | internal/ratelimit/store/inmemory/db_inmemory.go:109-129 | Within one lifetime of a key at most one update succeeds against each version, and none against a version already passed |
| `RuleDb.IdempotencyKeyInsertsOnce` | internal/ratelimit/store/inmemory/db_inmemory.go:57-88 | In every run an idempotency key inserts at most one rule |
| `RuleDb.ReplayChangesNothing` | internal/ratelimit/store/inmemory/db_inmemory.go:57-68 | A replay leaves the database unchanged and succeeds exactly when the payload is the original one and its rule still exists |
| `RuleDb.RunsKeepRecords` | internal/ratelimit/store/inmemory/db_inmemory.go:85-88 | In every run each idempotency record names the rule of its own payload |
| `RuleDb.CreateInView` | internal/ratelimit/store/inmemory/db_inmemory.go:41-91 | Seen by tenant and resource, a creation is invalid exactly without names or a positive limit; otherwise, unless it replays an earlier one, it succeeds exactly when there is no such rule, and then adds version 1 with the settings of the request at this instant and nothing else |
| `RuleDb.UpdateInView` | internal/ratelimit/store/inmemory/db_inmemory.go:94-130 | Seen by tenant and resource, an update succeeds exactly when it is valid and the rule is stored at the expected version; it then stores and returns the next version with the algorithm, limit, window and burst of the request at this instant, and changes nothing else |
| `RuleDb.DeleteInView` | internal/ratelimit/store/inmemory/db_inmemory.go:133-151 | Seen by tenant and resource, a deletion succeeds exactly when the rule is stored at the expected version, and removes that rule and nothing else |
| `RuleDb.GetInView` | internal/ratelimit/store/inmemory/db_inmemory.go:154-168 | Seen by tenant and resource, a read finds exactly the stored rules |
| `RuleDb.LastWriteStands` | internal/ratelimit/store/inmemory/db_inmemory.go:74-126 | In every run a stored rule has the settings and the time of the last successful creation or update of its key |
| `RuleDb.ViewLookup` | internal/ratelimit/store/inmemory/db_inmemory.go:154-168 | With separated tenants, a lookup by string key is a lookup by tenant and resource |
| `RuleCache.Cache.Get` | internal/ratelimit/core/rulecache.go:33-41 | The nested lookup finds exactly the rules of the flat view |
| `RuleCache.Cache.ReplaceAll` | internal/ratelimit/core/rulecache.go:61-88 | The nested snapshot, built through per-tenant counts, holds for each tenant and resource the last rule of the list and leaves no empty tenant |
| `RuleCache.Cache.UpsertIfNewer` | internal/ratelimit/core/rulecache.go:91-120 | Only an older version is replaced; every other rule of every tenant stays |
| `RuleCache.Cache.DeleteIfOlderOrEqual` | internal/ratelimit/core/rulecache.go:123-150 | Only that version or an older one is removed, an emptied tenant goes too; every other rule stays |
| `RuleCache.LoadedIsView` | internal/ratelimit/core/cache_sync_worker.go:45-50 | A list of the stored rules in any order, put into a fresh snapshot, is the database seen by tenant and resource |
| `RuleCache.SyncRound` | internal/ratelimit/core/cache_sync_worker.go:45-50 | Whatever the cache held, one undisturbed round leaves it equal to the database |
| `Outbox.InMemoryOutbox.Insert` | internal/ratelimit/store/inmemory/outbox_inmemory.go:32-44 | One pending row with a new ID is added behind the others |
| `Outbox.InMemoryOutbox.FetchPending` | internal/ratelimit/store/inmemory/outbox_inmemory.go:47-69 | The oldest unsent rows, at most the limit, in order |
| `Outbox.InMemoryOutbox.MarkSent` | internal/ratelimit/store/inmemory/outbox_inmemory.go:72-89 | Exactly the row with the ID is marked; the result says whether there is one |
| `Outbox.InMemoryOutbox.PublishRound` | internal/ratelimit/core/outbox_publisher.go:48-57 | Exactly the published rows leave the pending rows; a row whose publication fails stays pending, in place |
| `Outbox.SentLeavesRemaining` | internal/ratelimit/store/inmemory/outbox_inmemory.go:72-89 | Marking rows sent takes exactly those out of the pending rows and keeps the order of the rest |
| `Outbox.MarkedArePublished` | internal/ratelimit/core/outbox_publisher.go:48-57 | The rows marked as sent are exactly the fetched ones whose publication did not fail, and the published events are theirs |
| `Outbox.RoundPublishes` | internal/ratelimit/core/outbox_publisher.go:43-59 | A row with fewer than limit pending rows before it is published in one round and is pending no more, unless its publication fails; every other row stays pending |
| `Bounds.TokenBucketInterval` | internal/ratelimit/store/inmemory/redis_inmemory.go:181-204 | In every run with fixed parameters the cost admitted for a key in any interval [t1, t2] is at most max(Limit, Burst) + Limit * (t2 - t1) / window |
| `Bounds.TokensStayInRange` | internal/ratelimit/store/inmemory/redis_inmemory.go:181-204 | In every reachable store tokens lie between zero and the capacity |
| `Bounds.FixedWindowInterval` | internal/ratelimit/store/inmemory/redis_inmemory.go:238-252 | In every run the cost admitted for a key in each aligned window is at most the largest limit in use |
| `Bounds.SlidingWindowInterval` | internal/ratelimit/store/inmemory/redis_inmemory.go:285-309 | In every run the cost admitted for a key in any closed interval of the window length is at most the limit |
| `Bounds.LogIsAdmittedTail` | internal/ratelimit/store/inmemory/redis_inmemory.go:295-309 | The stored log is exactly the admitted calls at or after the last cutoff, in call order |
| `Bounds.PastIsClosed` | internal/ratelimit/store/inmemory/redis_inmemory.go:144-172 | A run admits nothing into an interval before its first call |
| `Admission.TokenBucketAdmitsIff` | internal/ratelimit/store/inmemory/redis_inmemory.go:181-204 | After any run from the empty store with fixed parameters an accepted call is admitted if and only if, for every earlier instant t, its cost and what was admitted from t on are at most max(Limit, Burst) + Limit * (now - t) / window |
| `Admission.FixedWindowAdmitsIff` | internal/ratelimit/store/inmemory/redis_inmemory.go:238-252 | After any run with one window length an accepted call is admitted if and only if its cost and what was admitted before in its aligned window are at most its limit |
| `Admission.SlidingWindowAdmitsIff` | internal/ratelimit/store/inmemory/redis_inmemory.go:285-309 | After any run with fixed parameters an accepted call is admitted if and only if its cost and what was admitted in the last window, both ends included, are at most the limit |
| `Admission.ChangedWindowStartsAnew` | internal/ratelimit/store/inmemory/redis_inmemory.go:291-294 | A call with another window length counts no earlier event, and the log then holds at most its own |
| `Decisions.RefusedIff` | internal/ratelimit/store/inmemory/redis_inmemory.go:174-180 | A call fails exactly when the store is unhealthy or the cost or limit is not positive, with the error of that case and without effect |
| `Decisions.DecisionIsReturned` | internal/ratelimit/store/inmemory/redis_inmemory.go:174-328 | An accepted call returns a decision that allows it exactly when it is admitted, and then without RetryAfter |
| `Decisions.RemainingIsWhatFits` | internal/ratelimit/store/inmemory/redis_inmemory.go:174-328 | In all three algorithms, after any call, Remaining is exactly the largest cost that one more call at the same instant could have, and Limit is the configured one |
| `Decisions.BucketResetIsExact` | internal/ratelimit/store/inmemory/redis_inmemory.go:206-224 | A token bucket left alone admits its whole capacity again exactly from ResetAfter on |
| `Decisions.CounterResetIsExact` | internal/ratelimit/store/inmemory/redis_inmemory.go:254-271 | A fixed window in which something was admitted has room for its whole limit exactly from ResetAfter on |
| `Decisions.LogResetIsExact` | internal/ratelimit/store/inmemory/redis_inmemory.go:295-327 | A sliding window left alone has room for its whole limit after ResetAfter, and no earlier if it has just admitted something |
| `Limits.Compact` | internal/ratelimit/store/inmemory/redis_inmemory.go:295-304 | The in-place compaction leaves exactly the events at or after the cutoff, in order, and their total cost |
| `Limits.KeepTwice` | internal/ratelimit/store/inmemory/redis_inmemory.go:295-304 | Expiring twice is expiring once at the later cutoff |
| `Retry.TokenBucketRetryIsExact` | internal/ratelimit/store/inmemory/redis_inmemory.go:196-213 | A denied request no larger than the capacity, with only denied calls since, is admitted from RetryAfter on and at no earlier time |
| `Retry.OverCapacityNeverSucceeds` | internal/ratelimit/store/inmemory/redis_inmemory.go:196-213 | A request larger than the capacity is denied in every reachable bucket, so its RetryAfter is never long enough |
| `Retry.RefillsCompose` | internal/ratelimit/store/inmemory/redis_inmemory.go:196-200 | Refilling in two steps is refilling in one, the cap included |
| `Retry.FixedWindowRetryIsExact` | internal/ratelimit/store/inmemory/redis_inmemory.go:238-264 | A denied request, retried with nothing in between, is admitted exactly if it fits the limit and RetryAfter has passed |
| `Retry.SlidingWindowRetryDenied` | internal/ratelimit/store/inmemory/redis_inmemory.go:295-320 | A denied request of the same or a larger cost stays denied up to and including RetryAfter, whatever else is admitted meanwhile |
| `Retry.RunsReachLogs` | internal/ratelimit/store/inmemory/redis_inmemory.go:285-309 | Every run leads to logs in time order with positive costs, the states the previous row speaks about |
| `Store.InMemoryRedis.ExecTokenBucket` | internal/ratelimit/store/inmemory/redis_inmemory.go:174-225 | Refuses when unhealthy or for a cost or limit that is not positive, without effect; otherwise steps the bucket of the key and nothing else |
| `Store.InMemoryRedis.ExecFixedWindow` | internal/ratelimit/store/inmemory/redis_inmemory.go:227-272 | The same for the counter of the key |
| `Store.InMemoryRedis.ExecSlidingWindow` | internal/ratelimit/store/inmemory/redis_inmemory.go:274-328 | The same for the log of the key, through the in-place compaction |
| `Store.InMemoryRedis.ExecPipeline` | internal/ratelimit/store/inmemory/redis_inmemory.go:144-172 | The queued operations in order, up to the first error, keeping what was done before it |
| `Store.ExecIsLocal` | internal/ratelimit/store/inmemory/redis_inmemory.go:174-328 | A call reads and writes its own cell and no other; it succeeds exactly when accepted |
| `Store.ExecAllStopsAtError` | internal/ratelimit/store/inmemory/redis_inmemory.go:144-172 | What follows the first failing operation of a pipeline has no effect |
| `Keys.PairKeysCollideIff` | internal/ratelimit/core/util.go:5-7 | Two different tenants share some rule or limiter key exactly when one extends the other by a separator |
| `Keys.PairKeyInjective` | internal/ratelimit/core/util.go:5-7 | Among separated tenants a key names one tenant and one resource |
| `Keys.PlainTenantsSeparated` | internal/ratelimit/store/inmemory/db_inmemory.go:207-209 | Tenants free of byte 0x1f are separated |
| `Keys.BuildKeyInjective` | internal/ratelimit/core/keybuilder.go:15-26 | With tenant and user free of the separator, a counter key names its tenant, user and resource |
| `Batch.Plan` | internal/ratelimit/core/batchplanner.go:133-171 | The groups are an order-preserving partition of the valid requests by tenant and resource key, in order of first appearance |
| `BatchRun.PlannedPairs` | internal/ratelimit/core/batchplanner.go:148-169 | The planned order is the order of first appearance of the groups, and the original order within each |
| `BatchRun.RunIsCellwise` | internal/ratelimit/store/inmemory/redis_inmemory.go:144-172 | In any order of requests, those of one cell see only each other |
| `BatchRun.SameCellOrdersSameRun` | internal/ratelimit/store/inmemory/redis_inmemory.go:144-172 | Two orders that agree on every cell give the same store and the same decision at every index |
| `BatchRun.PlannedRunIsOriginalRun` | internal/ratelimit/core/handler.go:245-320 | Regrouping by plan changes neither the decisions nor the store when requests with one counter key keep their order |
| `BatchRun.PlainNamesAreOrderly` | internal/ratelimit/core/keybuilder.go:15-26 | Tenants and users free of the separator meet the condition of the batch theorem |
| `BatchHandler.CheckLimitBatch` | internal/ratelimit/core/handler.go:174-338 | With a healthy store, for all names: the requests run in the planned order, each on the route of the tenant and resource under which its group was opened, and each answer lands at its index; for orderly names that is the response at every index, and the store, of checking the requests one at a time in their original order |
| `BatchHandler.OrderlyBatchIsSequential` | internal/ratelimit/core/handler.go:245-320 | For orderly names the outcome of the batch is that of the one-by-one check |
| `BatchExact.AgreesIffOrderly` | internal/ratelimit/core/handler.go:245-320 | A batch agrees with the one-by-one check for every store, all routes and every time if and only if no group mixes tenants or resources and, of any two requests with one counter key, the earlier one belongs to the group that appears first |
| `BatchExact.MisroutedMember` | internal/ratelimit/core/handler.go:254-286 | A member with another tenant or resource than its group is answered RULE_NOT_FOUND where on its own it would be answered LIMITER_UNAVAILABLE, for suitable rules and any store |
| `BatchExact.SwappedOrderDiffers` | internal/ratelimit/core/batchplanner.go:152-168 | For suitable routes, from the empty store: of two requests with one counter key that planning swaps, the batch tells the earlier one, and the one-by-one check the later one, that less remains |
| `BatchExact.MixedBatch` | internal/ratelimit/core/util.go:5-7 | Tenant "a" with resource "b\x1fc" and tenant "a\x1fb" with resource "c" form such a mixed group |
| `BatchExact.SwappedBatch` | internal/ratelimit/core/keybuilder.go:15-26 | Three requests of two tenants, none mixed, whose counter keys collide and whose order planning does not keep |
| `BatchExact.SharedCounterBatch` | internal/ratelimit/core/keybuilder.go:15-26 | Two requests of two tenants with one counter key that are orderly all the same |
| `BatchHandler.SequentialIsOriginalRun` | internal/ratelimit/core/handler.go:63-170 | Checking one request at a time is running the original order |
| `BatchHandler.PipelineIsRun` | internal/ratelimit/store/inmemory/redis_inmemory.go:144-172 | The pipeline of a group answers each of its indexes as running them one by one does |
| `BatchHandler.Scatter` | internal/ratelimit/core/handler.go:302-319 | Each answer of a group lands at its own index, and no other index changes |
| `BatchHandler.InvalidIff` | internal/ratelimit/core/handler.go:206-225 | In the batch and one by one, a request is answered INVALID_REQUEST exactly without a tenant, a user or a resource, and INVALID_COST exactly when it has them and no positive cost |
| `BatchHandler.RouteDecides` | internal/ratelimit/core/handler.go:254-276 | On its own a valid request is answered RULE_NOT_FOUND exactly without a rule, LIMITER_UNAVAILABLE exactly without a limiter, and decided otherwise |
| `Pool.Lifecycle` | internal/ratelimit/core/limiterpool.go:111-289 | In every reachable state map and LRU hold the same keys once each and at most the maximum, mapped entries are active, references are the unreleased handles, each limiter is closed at most once, and with references left only more than CloseTimeout after the wait for them began |
| `Pool.StepKeepsInv` | internal/ratelimit/core/limiterpool.go:111-289 | Each interleaved step of acquirers, releasers, evictors and closers keeps that invariant |
| `Pool.MappedIsShared` | internal/ratelimit/core/limiterpool.go:126-134 | Over any run, whoever acquires the key of a mapped entry gets that very entry as long as it is still mapped |
| `Pool.CutoverUnmaps` | internal/ratelimit/core/limiterpool.go:154-172 | A cutover takes exactly the key out of the map and makes its entry quiescing |
| `Pool.CutoverIsFinal` | internal/ratelimit/core/limiterpool.go:111-172 | After a cutover nobody ever gets the entry of the key again, whatever is done in between |
| `Pool.EvictsLeastAcquired` | internal/ratelimit/core/limiterpool.go:126-150 | In every run an acquirer takes another key out of the map only if the shard is full and its own key is new, and every key that stays was acquired after every key that goes |
| `PoolShard.LimiterPoolShard.AcquireHandle` | internal/ratelimit/core/limiterpool.go:111-151 | A hit pins the mapped entry and makes it most recent; a miss maps a new entry with one reference and evicts; nothing happens when no limiter can be built |
| `PoolShard.LimiterPoolShard.EvictIfNeededLocked` | internal/ratelimit/core/limiterpool.go:206-227 | Exactly the overflowing keys leave the map; their entries are closed if unreferenced and left to a closer otherwise |
| `PoolShard.LimiterPoolShard.CutoverKey` | internal/ratelimit/core/limiterpool.go:154-172 | The locked section is the cutover step of the lifecycle |
| `PoolShard.LimiterPoolShard.ReleaseHandle` | internal/ratelimit/core/limiterpool.go:263-271 | The release step of the lifecycle |
| `PoolShard.AcquireIsRun` | internal/ratelimit/core/limiterpool.go:111-151 | An undisturbed Acquire is a run of at most three steps of the lifecycle |
| `Wakeup.NeverSleepsForever` | internal/ratelimit/core/limiterpool.go:237-279 | At the granularity of atomic operations, whenever a closer sleeps with no references left, the entry is quiescing and some releaser has still to broadcast; a closer asleep always has its timer still to come |
| `Wakeup.WaitsForHandles` | internal/ratelimit/core/limiterpool.go:251-256 | In every interleaving the closer has left its loop, or closed the limiter, only if no handle was left or the deadline had passed |
| `Wakeup.WakeupGoesThrough` | internal/ratelimit/core/limiterpool.go:263-279 | From every such state releasers and lock holders alone can carry the wakeup through, without the timer |
| `Wakeup.TimeoutGoesThrough` | internal/ratelimit/core/limiterpool.go:241-257 | Past the deadline the timer, which fires once, and whoever holds the lock wake the closer, and it leaves without sleeping again |
| `Wakeup.RunsKeepInv` | internal/ratelimit/core/limiterpool.go:237-279 | References are the unreleased handles and the obligation to wake the closer is handed on in every run |
| `Lru.LRUKeys.Touch` | internal/ratelimit/core/lru.go:26-35 | The key becomes the most recent, added if it was unknown; index and list stay in agreement |
| `Lru.LRUKeys.Add` | internal/ratelimit/core/lru.go:38-48 | A key becomes the most recent, once; index and list stay in agreement |
| `Lru.LRUKeys.Remove` | internal/ratelimit/core/lru.go:51-61 | Exactly the key leaves, the order of the others stays |
| `Lru.LRUKeys.EvictIfNeeded` | internal/ratelimit/core/lru.go:64-85 | The least recent keys beyond the maximum leave, reported least recent first; the others stay in order |
| `Lru.EvictsLeastRecent` | internal/ratelimit/core/lru.go:26-85 | In every run of touches, additions, removals and evictions, eviction keeps as many keys as it may, every key kept was used after every key evicted, and the evicted ones are reported least recently used first |
| `Breaker.CircuitBreaker.Allow` | internal/ratelimit/core/circuit.go:52-77 | Admission and the new state in each of the three states |
| `Breaker.CircuitBreaker.OnSuccess` | internal/ratelimit/core/circuit.go:80-94 | The new state after a success in each of the three states |
| `Breaker.CircuitBreaker.OnFailure` | internal/ratelimit/core/circuit.go:97-116 | The new state after a failure in each of the three states |
| `Breaker.NeverWedges` | internal/ratelimit/core/circuit.go:52-116 | In every run half-open means at least 1 + halfOpenInFlight calls outstanding and at most HalfOpenMaxCalls + 1 admitted in the episode, and any report leaves half-open |
| `Breaker.EpisodeCountsProbes` | internal/ratelimit/core/circuit.go:60-77 | The calls admitted since the breaker went half-open, read off the history, are what the episode counts, and at most HalfOpenMaxCalls + 1 |
| `Breaker.AdmitsIff` | internal/ratelimit/core/circuit.go:52-77 | After any run, from its history: a closed breaker admits every call; an open one admits a call exactly from OpenDuration after the last reported failure on, and goes half-open with it; a half-open one admits calls exactly while fewer than HalfOpenMaxCalls + 1 were admitted in the episode |
| `Breaker.OpensAtThreshold` | internal/ratelimit/core/circuit.go:97-116 | A closed breaker opens exactly at the FailureThreshold-th failure reported since the last success |
| `Breaker.StaysOpen` | internal/ratelimit/core/circuit.go:60-66 | An open breaker admits nothing for OpenDuration, whatever late outcomes arrive |
| `Breaker.OpeningBlocks` | internal/ratelimit/core/circuit.go:80-116 | Every opening of a reachable breaker starts such a period |
| `Limiter.CallIsRun` | internal/ratelimit/core/limiter.go:111-131 | A call asks the breaker once, reports exactly one outcome if admitted, and leaves nothing outstanding |
| `Limiter.OutcomeIsReported` | internal/ratelimit/core/limiter.go:118-131 | A call that is not admitted leaves the breaker alone; a success closes it and clears its failures; a store error is counted by a closed breaker, which opens at the threshold, and opens a half-open one anew |
| `Limiter.RedisLimiter.Allow` | internal/ratelimit/core/limiter.go:111-131 | The fallback, which reads the mode again, answers exactly when the mode was emergency, the breaker refuses or the store fails; only one of store and fallback changes; the breaker hears one outcome |
| `Limiter.RedisLimiter.AllowBatch` | internal/ratelimit/core/limiter.go:134-166 | The same for a pipeline, which may leave a partial effect in the store when it fails |
| `Limiter.RedisLimiter.FallbackDecisions` | internal/ratelimit/core/limiter.go:204-217 | The fallback answers every key in order, reading the mode anew for each, a missing cost counting as zero |
| `Mode.ModeIsHistory` | internal/ratelimit/core/mode.go:144-192 | After any series of updates the mode is Normal iff Redis was seen healthy less than its threshold ago, and Emergency iff neither Redis nor membership with quorum was |
| `Mode.TimestampsAreLatest` | internal/ratelimit/core/mode.go:163-171 | The stored timestamps are those of the latest healthy samples |
| `Mode.QuorumIsExclusive` | internal/ratelimit/core/mode.go:104-141 | With a quorum fraction above one half at most one region has quorum in any list of instances |
| `Mode.TwoQuorumsIff` | internal/ratelimit/core/mode.go:104-141 | Two regions can both have quorum among n instances exactly when twice the required number fits |
| `Mode.HalfAllowsTwoQuorums` | internal/ratelimit/core/mode.go:60-85 | The default fraction of one half lets two regions have quorum among any even number of instances from two on |
| `Mode.QuorumIff` | internal/ratelimit/core/mode.go:123-140 | A region has quorum exactly when it has an instance and at least the fraction of all instances |
| `Mode.DegradeController.constructor` | internal/ratelimit/core/mode.go:60-85 | Starts Normal with construction counting as healthy; zero settings take their defaults |
| `Mode.DegradeController.RegionStatus` | internal/ratelimit/core/mode.go:104-141 | Counts the region and the whole list, and reports quorum by the rounded-up fraction; a missing membership has none |
| `Mode.DegradeController.Update` | internal/ratelimit/core/mode.go:144-192 | Samples health with quorum and moves to the mode of the new ages |
| `Fallback.ClusterWideBound` | internal/ratelimit/core/fallback.go:134-210 | All instances together admit for one key in one aligned window at most max(1, largest cap / shard factor), whatever the mode changes, clocks and configured switches |
| `Fallback.BoundIffCandidate` | internal/ratelimit/core/ownership.go:51-60 | The bound holds for every run of fallback calls of the cluster if and only if there is a candidate |
| `Fallback.NoCandidateNoBound` | internal/ratelimit/core/ownership.go:51-60 | Without a candidate two instances of the region of any such cluster together get twice the bound |
| `Fallback.Normalize` | internal/ratelimit/core/fallback.go:188-210 | After normalisation both switches are on and neither cap is zero, whatever was configured |
| `Fallback.CapIsShare` | internal/ratelimit/core/fallback.go:144-161 | In Emergency the emergency cap (10 if unset), otherwise the local cap (100 if unset), divided among the shard factor and rounded down, and at least one |
| `Fallback.FactorCounts` | internal/ratelimit/core/fallback.go:98-131 | The shard factor of a listed instance is the number of listed instances of its group, and at least one |
| `Fallback.FallbackAdmitsIff` | internal/ratelimit/core/fallback.go:134-185 | After any run an instance admits a call if and only if it owns the key, the cost is positive, and the cost and what the instance admitted before in the aligned window are at most its cap |
| `Fallback.LocalLimiterStore.AllowFixedWindow` | internal/ratelimit/core/fallback.go:30-69 | The counter of the key in the aligned window grows by the cost exactly when it fits the cap |
| `Fallback.FallbackLimiter.EffectiveShardFactor` | internal/ratelimit/core/fallback.go:98-131 | The number of instances of the group, counting itself when unlisted, and at least one |
| `Fallback.FallbackLimiter.Allow` | internal/ratelimit/core/fallback.go:134-185 | Denies to non-owners; otherwise the local counter decides against the cap of the mode divided by the shard factor |
| `Ownership.OwnerIsUnique` | internal/ratelimit/core/ownership.go:40-83 | With distinct non-empty IDs exactly one candidate owns each key; without a candidate everyone does |
| `Ownership.TwoOwnersIff` | internal/ratelimit/core/ownership.go:51-60 | Two instances can both own a key exactly when there is no candidate |
| `Ownership.MinimalDisruption` | internal/ratelimit/core/ownership.go:40-83 | With global fallback, removing an instance changes the owner only if it was the owner, and adding one leaves the owner or makes it the added one, ties and the empty region included |
| `Ownership.IsOwner` | internal/ratelimit/core/ownership.go:28-84 | The loops answer exactly the ownership relation; a missing membership answers true |
| `Ownership.FilterRegion` | internal/ratelimit/core/ownership.go:41-50 | The instances of the region, in order |
| `Ownership.PickBest` | internal/ratelimit/core/ownership.go:62-79 | The first of the highest-scoring candidates |
| `Ownership.OwnerIsLocal` | internal/ratelimit/core/ownership.go:40-60 | Without global ownership the owner is an instance of the region whenever the region has one |
| `Ownership.EveryoneCompetes` | internal/ratelimit/core/ownership.go:40-60 | With global ownership or without a region all instances compete; with an empty region all compete if the fallback is global, and none otherwise |
| `Ownership.OwnerMaximises` | internal/ratelimit/core/ownership.go:62-79 | The owner is the first candidate whose hash times its weight, modulo 2 to the power of 64 and with a weight below one counting as one, is largest |
| `Coalescer.EveryInterleaving` | internal/ratelimit/core/coalescer.go:45-85 | In every interleaving, executions in flight for one key were created more than ttl apart, a waiting follower has a leader or a result, and every returned caller has the result of its entry |
| `Coalescer.EntriesAreOwned` | internal/ratelimit/core/coalescer.go:53-84 | An entry is removed only by its own leader or replaced when older than ttl, and a result once set is final |
| `Coalescer.JoinsIff` | internal/ratelimit/core/coalescer.go:53-84 | After any run a caller that enters joins an entry of its key if and only if some leader is still at work on one no older than ttl; otherwise, so whenever nobody is at work on its key, it leads a new one |
| `Coalescer.ReturnsResultOfItsEntry` | internal/ratelimit/core/coalescer.go:53-84 | Over whole runs: whoever entered and later returned has the result of the very entry it led or joined, and that result is final |

## Left out

- HTTP and gRPC transports, `cmd/`, configuration, logging, metrics, tracing and the chaos runner: no logic of their own beyond field copying.
- JSON encoding of events, FNV and SHA-256: events are values, hashes any functions, and the payload hash is injective.
- `sync.Pool` reuse of buffers, keys, indexes and responses: the model allocates instead.
- `InFlight` draining, `HealthLoop`, tickers and start-up: every tick is a step of the model.
- `StaticMembership`: the instance list is a parameter.
- 64-bit overflow of `used + cost` and `total + cost`; only the weighted score of `Ownership` wraps.
- Float rounding of tokens and truncation of durations to nanoseconds.
- Clocks that go backwards.
- `CheckLimit` for a single request, apart from its limiter call in `Limiter` and its coalescing in `Coalescer`; `ListRules` and `RuleCache.List`.
- Nil receivers and missing dependencies; the nil-Redis branch of `AllowBatch`, which would leave a half-open call unreported.
- Copy loops of the copy-on-write maps and `cloneRule`: maps and rules are values, so sharing between snapshots is not modelled.
- Outbox row IDs are integers, not their decimal strings, so the empty ID that `MarkSent` refuses does not arise.
- Several shards of the pool and of the coalescer: each shard is modelled by itself, as no operation crosses shards.
- Two synchronisation workers on one node: a node has one, so at most one list of it is waiting to be stored.
- A timer of `waitForEntry` that fires in the very nanosecond of the deadline: in Wakeup it fires after the deadline.
- An admin call that crashes, or whose outbox insert fails, between its database write and the outbox: every admin call under way in `Propagation` can go on.
- Convergence.Convergence: speaks of runs in which every re-creation is clean; SafeWrites.SafeWriteIff shows that after an unclean one some continuation ends in disagreement, so that no such claim holds for all runs.
- Convergence.NeverAhead: speaks of the same runs, because a copy of an earlier life can be ahead of a rule created again; Versions.NeverAheadIff has the exact condition for all runs.
- Sync.SyncRepairs: speaks of the same runs, in the terms of raced writes; Resync.StoredListStaysIff has the exact condition for all runs.
- Drain.CatchUp: speaks of the same runs, and of delivery alone; Resync.EveryRunCanBeRepaired speaks of all runs.
- SafeWrites.SafeWriteIff: takes a re-created rule to differ, at least in its time stamp, from the copies left of its earlier life.
- BatchHandler.CheckLimitBatch: covers a healthy store without breaker or emergency mode, and one route per tenant and resource for the whole batch; the fallback of a failing group is in Limiter.RedisLimiter.AllowBatch.
- Breaker.NeverWedges: each breaker method is one atomic step.
- Admin.CacheInvalidator.Handle: covers the locked section of Cutover; the quiesce window and the close that follow are steps of Pool and Wakeup.
- Pool.Lifecycle: does not claim that an acquired limiter has the newest rule version, because Acquire reads the rule before it takes the lock.
