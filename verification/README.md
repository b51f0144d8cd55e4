# Verified model of a payment backend's protocols

This project models the parts of a Stellar payment backend that are hardest to
get right and proves what they are meant to guarantee. Each component has a
module with its data, its steps and, where the program keeps state in objects,
the classes and methods; a second module, named `...Runs`, interleaves the steps
of any number of callers and proves properties of every reachable state and of
whole runs; a third, named `...Answers` or `...Outcomes`, proves what every caller is
given and what is stored in the end, from the inputs on and over any run.

- **Idempotency keys** (`Idempotency`, `IdempotencyRuns`, `IdempotencyAnswers`):
  requests claim a key in Redis with a token and a lease, complete or release it with two scripts,
  and replay completed records.
- **Exchange-rate coordinator** (`Coordinator`, `CoordinatorRuns`,
  `CoordinatorAnswers`): one leader per key holds a leased lock, publishes a quote, the others poll the shared store.
- **Exchange-rate cache** (`LruCache`, `RateCache`, `RateCacheRuns`,
  `RateCacheAnswers`): a Map used as an LRU, one load in flight per key, invalidation that detaches it.
- **Ledger claims** (`LedgerClaims`, `LedgerRuns`, `LedgerOutcomes`): pollers and the
  verify-payment route claim transactions for payments by conditional updates under a unique index.
  The payment service's `verifyPayment`, which no route calls, is modelled beside them.
- **Audit write queue** (`AuditQueue`, `AuditQueueRuns`, `AuditQueueOutcomes`,
  `AuditRecoveryRuns`, `DeadLetters`): FIFO queue, resizable semaphore, retries, bounded dead-letter queue,
  its recovery and what becomes of every entry that recovery takes.
- **Account ids, amounts, quotes** (`Bits`, `Crc16`, `CrcPolynomial`, `AccountId`,
  `AccountIdCodec`, `Amounts`, `Quotes`): Strkey decoding (SEP-0023, base32 of RFC 4648 section 6,
  CRC16-XModem as division by its polynomial over GF(2)), stroops, and the allow-list rebuild of quotes.
- **Canonical JSON** (`CanonicalJson`, `CanonicalTexts`, `CanonicalEquality`,
  `CanonicalLimits`): the text audit hashes are computed from, a parser that inverts it, and exactly which
  payloads it fails.
- **Health monitors** (`HealthRing`, `HealthMonitors`): the ring of time buckets
  against exact counting over a full log.
- **Body validator** (`BodyValidator`): the explicit-stack traversal against a
  recursive predicate.
- **Circuit breaker** (`CircuitBreaker`, `CircuitBreakerRuns`,
  `CircuitBreakerAnswers`) and **token bucket**
  (`TokenBucket`).

How to read it: code between two awaits is one atomic step, and so is each Redis
script, Redis command and SQL statement. A step is a function from the shared
store and one caller's local state to new ones; the class method that stands for
the program's code is proved equal to it, and the invariants and theorems speak
about the functions. `Inv` of a `...Runs` module holds initially (`InitInv`), is
kept by every step (`NextInv`) and so holds in every state a run can reach
(`RunInv`, `Reachable`); theorems that require `Inv` hold wherever a run can get.
Tokens are fresh, hashes are opaque, times and random choices are parameters of
the steps.

Results that differ from what one might expect:

- Pollers and the route claim a payment at most once and never overwrite a
  transaction. `verifyPayment` of the payment service is guarded by the status it read
  and not by a missing transaction, so it would replace the transaction of a failed
  payment: `LedgerRuns.TransactionReplaced` says exactly when, and
  `LedgerRuns.ServiceReplacesTransaction` shows it.
- The route tells nobody but its own caller about a wrong amount, and no poller tells
  of it later: `LedgerRuns.AnnouncedIff`.
- A dead-letter recovery reports every entry it took as recovered, and yet can lose
  some. An entry without a cache key is lost on the spot if those before it leave no
  room (`AuditQueue.RecoveryDropsAtOnce`). One with a key is looked up first and is lost
  later, if its lookup misses while the queue is full (`AuditRecoveryRuns.KeyedEntryLost`
  is an example). `AuditRecoveryRuns.EntryLostIff` says so of every entry and every run.
  `AuditRecoveryRuns.RecoveryCanLose` says when it can come to that although nothing else
  enters the queue: with no other lookup pending, exactly if the queue cannot hold
  everything that was taken. Lost means that no job, lookup or dead letter is left of the
  entry and that it was not answered from the cache; an accepted one whose single attempt
  fails is a dead letter again.
- An aborted request gives up its lock while its handler goes on, so a retry may run the
  handler a second time beside it. Within the leases this is the only way two handlers of
  one key overlap (`IdempotencyRuns.OverlapNeedsAbort`, `IdempotencyRuns.AbortAllowsOverlap`).
- The canonical text of a payload is also that of an unequal one if and only if the
  payload has a node below depth 10 (`CanonicalLimits.CollidesIffDeep`, for any order of
  keys), and it depends on the order of keys if and only if the key order ties two
  different keys of a printed object (`CanonicalLimits.ReorderingShowsIffTied`). Unequal
  means more than another order of keys, with scalars as JSON prints them: undefined and
  NaN count as null, a date as its ISO text, and a circular reference as the string
  "[Circular]". Payloads that differ only in these print alike at any depth.
- The health ring stays exact even for a clock that steps back, as long as no
  event comes a whole window late; `HealthRing.LateEventLoses` says what happens then.
- With thresholds of zero, which their configuration admits, idle health monitors report
  trouble (`HealthMonitors.RlsIdleIsHealthy`, `HealthMonitors.OracleIdleIsHealthy`).
- A cache with `maxEntries` 0 and a dead-letter queue with `maxDlqSize` 0 exceed
  their bounds (`LruCache.ZeroCapacityIsExceeded`, `DeadLetters.AddIsBounded`).

## Model

| member | source | states |
|---|---|---|
| Idempotency.Redis.AcquireLock | backend/src/lib/idempotency.js:89-92 | SET NX with a TTL: succeeds only if no live record is stored, and then stores it with its expiry |
| Idempotency.Redis.CompareAndSwap | backend/src/lib/idempotency.js:33-40 | the complete script: replaces the record only while it carries the caller's token |
| Idempotency.Redis.ReleaseLock | backend/src/lib/idempotency.js:46-53 | the release script: deletes the record only while it carries the caller's token |
| Idempotency.Redis.GetRaw | backend/src/lib/idempotency.js:209 | a GET sees a record until its TTL ends |
| Idempotency.Redis.Remove | backend/src/lib/idempotency.js:213 | the unguarded DEL of an unreadable record |
| Idempotency.Middleware.constructor | backend/src/lib/idempotency.js:191-198 | a request starts without token or lock, unanswered and unsettled |
| Idempotency.Middleware.ResolveExisting | backend/src/lib/idempotency.js:134-152 | other payload: refused; in flight: conflict; otherwise the record's status and body are replayed |
| Idempotency.Middleware.Lookup | backend/src/lib/idempotency.js:206-217 | the first GET decides between answering, deleting and claiming |
| Idempotency.Middleware.DeleteUnreadable | backend/src/lib/idempotency.js:211-214 | an unreadable record is deleted and the request goes on to claim |
| Idempotency.Middleware.Claim | backend/src/lib/idempotency.js:219-229 | the claim stores an in-flight record with a fresh token and the lock TTL |
| Idempotency.Middleware.ReadWinner | backend/src/lib/idempotency.js:229-238 | a lost race is resolved against the winner's record, or proceeds unprotected if that vanished |
| Idempotency.Middleware.Json | backend/src/lib/idempotency.js:245-287 | the first answer settles: 2xx goes to the completion, any other to the release; later ones change nothing |
| Idempotency.Middleware.OnClose | backend/src/lib/idempotency.js:289-301 | an aborted request that is not settled releases its lock |
| Idempotency.Middleware.SendComplete | backend/src/lib/idempotency.js:251-257 | the completion runs the script with the request's token and the long TTL |
| Idempotency.Middleware.SendRelease | backend/src/lib/idempotency.js:276-292 | the release runs the script with the request's token |
| Idempotency.KeysOfMerchantsAreDisjoint | backend/src/lib/idempotency.js:66-68 | merchants whose ids hold no colon never share a store key |
| IdempotencyRuns.NextInv | backend/src/lib/idempotency.js:162-314 | every step of every request, failure, abort and clock tick keeps the store well-formed, tokens unique and claims intact |
| IdempotencyRuns.NeverDeletes | backend/src/lib/idempotency.js:211-214 | the unguarded DEL is never reached from a well-formed store |
| IdempotencyRuns.CompletedRecordIsStable | backend/src/lib/idempotency.js:28-41 | over any run, a completed record stays as it is until its own TTL ends |
| IdempotencyRuns.NoSecondRun | backend/src/lib/idempotency.js:154-161 | while a completed record lives, no request of its key gets to run the handler under the lock |
| IdempotencyRuns.ExclusiveLease | backend/src/lib/idempotency.js:154-161 | two requests hold one key only if the lease of one has run out |
| IdempotencyRuns.OverlapNeedsAbort | backend/src/lib/idempotency.js:289-301 | within their leases, two requests of one key run their handlers at once only if one was aborted and its release is over |
| IdempotencyRuns.AbortAllowsOverlap | backend/src/lib/idempotency.js:289-301 | for every key and payload a reachable state in which a retry runs beside the handler of an aborted request |
| IdempotencyRuns.ScriptsActWithinLease | backend/src/lib/idempotency.js:27-53 | the scripts act if and only if the request's lease lasts; one that lost it changes nothing |
| IdempotencyRuns.CompletedByOwner | backend/src/lib/idempotency.js:245-257 | a new completed record is written by the request whose token was stored, and holds its own answer |
| IdempotencyRuns.ReplayIsTheOriginalAnswer | backend/src/lib/idempotency.js:123-152 | a replay is exactly the status and body another request of the same key and payload answered with |
| IdempotencyRuns.ReadOfCompleted | backend/src/lib/idempotency.js:206-235 | a request that reads a completed record, first or after a lost race, gets its answer if the payload matches, and is refused otherwise |
| IdempotencyAnswers.ReadAnswers | backend/src/lib/idempotency.js:72-152 | a request that reads its key is answered if and only if it finds a live record: refused for another payload, in conflict with one in flight, otherwise given the stored status and body, 201 for an old record; an unreadable value is deleted, no value leads to the claim |
| IdempotencyAnswers.DeletionFrees | backend/src/lib/idempotency.js:211-217 | deleting an unreadable value frees the key and leads to the claim |
| IdempotencyAnswers.ClaimTakesKey | backend/src/lib/idempotency.js:219-229 | a claim succeeds if and only if the key is free, and stores the payload hash and the token for exactly the lock time |
| IdempotencyAnswers.DuplicatesConflict | backend/src/lib/idempotency.js:154-161 | over any run, while a claim lasts and its script is not sent, every other request of the key is told of the conflict, or of its other payload, and none gets to run |
| IdempotencyAnswers.CompletionIsStored | backend/src/lib/idempotency.js:248-257 | a completion within the lease stores the own status and body for exactly the long TTL |
| IdempotencyAnswers.AnswerIsReplayed | backend/src/lib/idempotency.js:154-161 | from such a completion on, over any run and for the whole long TTL, every request of the key gets exactly that answer for the same payload, is refused for another, and none gets to run |
| IdempotencyAnswers.AnswerIsSettled | backend/src/lib/idempotency.js:245-301 | over any run, a 2xx answer goes to the completion and to no release, any other answer and an abort to the release and to no completion, and the first answer counts |
| IdempotencyAnswers.ReleaseFreesKey | backend/src/lib/idempotency.js:276-301 | a release within the lease deletes the record, and the next claim of the key runs |
| Coordinator.RedisClient.SetLockNx | backend/src/lib/exchange-rate-coordinator.js:94-100 | the lock is set only if none lives, with the caller's token and lease |
| Coordinator.RedisClient.CompareAndDelete | backend/src/lib/exchange-rate-coordinator.js:103-108 | the lock is deleted only if it carries the caller's token |
| Coordinator.RedisClient.GetShared | backend/src/lib/exchange-rate-coordinator.js:159-180 | a shared quote is used only if it lives, parses, validates and survives the rebuild |
| Coordinator.RedisClient.SetShared | backend/src/lib/exchange-rate-coordinator.js:182-187 | a published quote is stored with the shared TTL |
| Coordinator.RedisClient.Invalidate | backend/src/lib/exchange-rate-coordinator.js:190-194 | invalidation removes the quote and says whether there was one |
| Coordinator.LoadCall.constructor | backend/src/lib/exchange-rate-coordinator.js:205-217 | a call without Redis falls back at once; otherwise it has its deadline and no token |
| Coordinator.LoadCall.Read | backend/src/lib/exchange-rate-coordinator.js:219-224 | a shared hit ends the call, a miss goes on to the lock |
| Coordinator.LoadCall.TryAcquire | backend/src/lib/exchange-rate-coordinator.js:226-251 | acquired: double check; contended: wait, or fall back after the deadline |
| Coordinator.LoadCall.DoubleCheck | backend/src/lib/exchange-rate-coordinator.js:229-238 | a quote written meanwhile is used and the lock released; otherwise the call leads |
| Coordinator.LoadCall.OnRedisError | backend/src/lib/exchange-rate-coordinator.js:253-264 | a Redis failure makes the call run its loader without the lock |
| Coordinator.LoadCall.OnLoaded | backend/src/lib/exchange-rate-coordinator.js:263-276 | the loader's data is published by a leader and returned as it is by a fallback |
| Coordinator.LoadCall.OnLoaderError | backend/src/lib/exchange-rate-coordinator.js:267-279 | a loader error still releases the leader's lock |
| Coordinator.LoadCall.Publish | backend/src/lib/exchange-rate-coordinator.js:271-276 | the leader stores its data, then releases |
| Coordinator.LoadCall.ReleaseLock | backend/src/lib/exchange-rate-coordinator.js:282-295 | the release deletes only the call's own lock |
| CoordinatorRuns.NextInv | backend/src/lib/exchange-rate-coordinator.js:205-295 | every step keeps leases, tokens and shared results as the invariant says |
| CoordinatorRuns.OneLeader | backend/src/lib/exchange-rate-coordinator.js:196-198 | two leaders hold one key only if the lease of one has run out |
| CoordinatorRuns.ReleaseIsOwn | backend/src/lib/exchange-rate-coordinator.js:102-108 | a release removes a lock if and only if it is the caller's own and its lease lasts; other locks stay |
| CoordinatorRuns.PublishMakesFresh | backend/src/lib/exchange-rate-coordinator.js:182-187 | publishing an acceptable quote makes it readable for its whole TTL |
| CoordinatorRuns.SecondLeaderNeedsSpoiling | backend/src/lib/exchange-rate-coordinator.js:219-240 | before a fresh quote's time is up, a second leader needs an invalidation, a foreign write or a publication that fails validation |
| CoordinatorRuns.SecondLeaderAfterPublish | backend/src/lib/exchange-rate-coordinator.js:196-198 | after a leader published an acceptable quote, a second leader within its TTL needs one of these in between |
| CoordinatorRuns.SecondLeaderHasReason | backend/src/lib/exchange-rate-coordinator.js:196-280 | in any run without an expired lease, between two leaders of a key the first one ended its lead, and it failed to load, crashed or failed to publish, or what it published was unacceptable, expired or spoiled in between |
| CoordinatorRuns.SharedResultIsGood | backend/src/lib/exchange-rate-coordinator.js:166-173 | whatever is in the store, a result taken from it is a good quote |
| CoordinatorAnswers.ReadDecides | backend/src/lib/exchange-rate-coordinator.js:159-238 | before and after it has the lock, a call ends with the shared quote if and only if a live, valid and rebuildable one of version 1 is stored |
| CoordinatorAnswers.AcquireDecides | backend/src/lib/exchange-rate-coordinator.js:226-251 | the lock is taken for its lease if and only if none lives; otherwise the call sleeps until its deadline and then falls back |
| CoordinatorAnswers.ErrorFallsBack | backend/src/lib/exchange-rate-coordinator.js:253-264 | after a Redis error the loader runs without the lock, and a lock taken before is given back |
| CoordinatorAnswers.ReleaseEnds | backend/src/lib/exchange-rate-coordinator.js:277-295 | a leader is done after its release, whether that worked or not |
| CoordinatorAnswers.LoadReturns | backend/src/lib/exchange-rate-coordinator.js:263-280 | over any run in which a call does not crash, it ends with the very data its loader gave, as leader or fallback, or with the usable quote it found, or fails as its loader did; what it publishes is that data, for the whole shared TTL |
| CoordinatorAnswers.HoldsUntilRelease | backend/src/lib/exchange-rate-coordinator.js:266-279 | over any run, a call that took the lock neither ends nor falls back before it tries to release it |
| CoordinatorAnswers.FallbackHasReason | backend/src/lib/exchange-rate-coordinator.js:240-264 | a call that found Redis available loads without the lock only after a Redis error or after meeting a lock when its waiting time was over |
| CoordinatorAnswers.WaitsUntilDeadline | backend/src/lib/exchange-rate-coordinator.js:204-251 | over any run, a call that meets a lock goes on waiting if and only if the waiting time since its start is not over |
| LruCache.ApplyKeepsOrder | backend/src/lib/exchange-rate-cache.js:146-188 | every operation keeps Map order equal to order of last touch and the size within maxEntries |
| LruCache.LruInvariant | backend/src/lib/exchange-rate-cache.js:146-188 | so does every run of operations |
| LruCache.EvictionNeedsManyTouches | backend/src/lib/exchange-rate-cache.js:177-188 | a key is evicted only after at least maxEntries distinct other keys were touched since its own last touch |
| LruCache.ZeroCapacityIsExceeded | backend/src/lib/exchange-rate-cache.js:177-188 | a first write stays within the capacity if and only if that is at least one |
| RateCache.ExchangeRateCache.Lookup | backend/src/lib/exchange-rate-cache.js:146-172 | miss, expired, stale or fresh; a hit moves the entry to the end |
| RateCache.ExchangeRateCache.Store | backend/src/lib/exchange-rate-cache.js:177-188 | a write replaces or evicts the oldest, and ends up last |
| RateCache.ExchangeRateCache.BeginGetOrLoad | backend/src/lib/exchange-rate-cache.js:201-244 | fresh hit, join of the load in flight, or a new registered load |
| RateCache.ExchangeRateCache.FinishLoad | backend/src/lib/exchange-rate-cache.js:220-241 | a settled load writes only if not invalidated, and removes only its own entry |
| RateCache.ExchangeRateCache.InvalidateLoad | backend/src/lib/exchange-rate-cache.js:128-134 | the load in flight is marked and detached |
| RateCache.ExchangeRateCache.DeleteKey | backend/src/lib/exchange-rate-cache.js:259-264 | delete detaches the load and drops the entry |
| RateCache.ExchangeRateCache.ClearAll | backend/src/lib/exchange-rate-cache.js:288-294 | clear detaches every load in flight and empties the cache |
| RateCache.ExchangeRateCache.PruneExpired | backend/src/lib/exchange-rate-cache.js:267-281 | prune keeps exactly the entries within the stale tolerance, and counts the others |
| RateCacheRuns.NextInv | backend/src/lib/exchange-rate-cache.js:201-294 | every interleaved step keeps cached data, loads in flight and waiting callers newer than the invalidations they must respect |
| RateCacheRuns.CachedIsCurrent | backend/src/lib/exchange-rate-cache.js:223-228 | cached data comes from a successful load of its key registered after the key's latest invalidation |
| RateCacheRuns.ReceivedIsCurrent | backend/src/lib/exchange-rate-cache.js:254-258 | what a caller receives was loaded after the latest invalidation before its call |
| RateCacheRuns.SingleFlight | backend/src/lib/exchange-rate-cache.js:190-192 | at most one load of a key is in flight and not invalidated |
| RateCacheRuns.DetachedLoadIsHarmless | backend/src/lib/exchange-rate-cache.js:235-240 | settling a detached load changes neither cache nor table |
| RateCacheRuns.SettleRemovesOwnEntry | backend/src/lib/exchange-rate-cache.js:235-240 | settling a load removes its own entry and no other |
| RateCacheRuns.BurstSharesOneLoad | backend/src/lib/exchange-rate-cache.js:190-211 | over any run in which the load does not settle and its key is neither written nor invalidated, every caller of the key waits for that load and starts none |
| RateCacheRuns.WaitingOpensBurst | backend/src/lib/exchange-rate-cache.js:201-246 | a caller that has to wait leaves a load in flight and no fresh entry |
| RateCacheAnswers.GetDecides | backend/src/lib/exchange-rate-cache.js:146-172 | get() hits if and only if there is an entry within the tolerance, and calls it stale if and only if it is older than the TTL |
| RateCacheAnswers.CallDecides | backend/src/lib/exchange-rate-cache.js:201-246 | in every reachable state a caller is answered at once if and only if the cache holds a fresh entry of its key, with its data; otherwise it waits for the load in flight, and starts one only if there is none |
| RateCacheAnswers.CacheAfter | backend/src/lib/exchange-rate-cache.js:146-294 | exactly which entries each step leaves: a write the new entry with its data and time and all others but the front of a full cache, an invalidation all but its keys, a prune those within the tolerance |
| RateCacheAnswers.InvalidationDetaches | backend/src/lib/exchange-rate-cache.js:128-134 | an invalidation detaches exactly the loads of its keys |
| RateCacheAnswers.WaiterGetsOutcome | backend/src/lib/exchange-rate-cache.js:201-246 | whatever happens after its load settled, a waiting caller gets what the loader gave, or is rejected, also if the load was invalidated |
| LedgerClaims.PaymentsTable.ClaimPending | backend/src/lib/horizon-poller.js:654-668 | the update writes only a pending row without transaction, and is refused if another payment carries the transaction |
| LedgerClaims.PaymentsTable.UpdateIfStatus | backend/src/routes/payments.js:688-704 | the same with a guard on the status alone |
| LedgerClaims.PaymentCheck.LookUp | backend/src/routes/payments.js:628-644 | the route ends on a missing or confirmed payment and goes on with any other |
| LedgerClaims.PaymentCheck.OnMatch | backend/src/lib/horizon-poller.js:623-631 | the poller pursues only a valid hash, the route any |
| LedgerClaims.PaymentCheck.OnOtherPayment | backend/src/routes/payments.js:675-749 | underpaid or overpaid by more than the tolerance, or left alone, from the computed difference |
| LedgerClaims.PaymentCheck.SelectOtherOwner | backend/src/routes/payments.js:779-789 | a transaction seen on another payment ends the check; a failed query does not |
| LedgerClaims.PaymentCheck.RunStatement | backend/src/routes/payments.js:732-749 | pollers claim by tx_id for any kind of payment, the route only for a match and by status for a wrong amount |
| LedgerClaims.PaymentCheck.RunUpdate | backend/src/lib/horizon-poller.js:654-693 | only an acknowledged update goes on to tell subscribers, and the route only for a match |
| LedgerClaims.PaymentCheck.OnUpdateError | backend/src/lib/horizon-poller.js:873-904 | a poller tries again after a transient error, three times in all, whether the statement was applied or not; any other error, and any of the route, ends the check |
| LedgerClaims.PaymentCheck.RunServiceUpdate | backend/src/services/paymentService.js:726-757 | verifyPayment announces only an update it saw applied |
| LedgerRuns.NextInv | backend/src/routes/payments.js:592-856 | every step of every poller, route and service call keeps transactions unique and claims, rows and notices in agreement |
| LedgerRuns.NoSharedTransaction | backend/migrations/20260401000003_unique_tx_id_on_payments.js:6-12 | after any run, no two payments carry the same transaction |
| LedgerRuns.ConfirmedIsFinal | backend/src/lib/horizon-poller.js:652-668 | over any run, a confirmed row never changes |
| LedgerRuns.GuardMeansUnclaimed | backend/src/routes/payments.js:696-704 | in every reachable state the guards of pollers and route say the same: pending and without transaction |
| LedgerRuns.RowChange | backend/src/routes/payments.js:796-807 | a row changes only from pending without transaction, or by a service call that read its current unconfirmed status |
| LedgerRuns.LeavesPendingOnce | backend/src/lib/horizon-poller.js:660-664 | of two claims of one payment the later did not find it pending |
| LedgerRuns.AtMostOneClaim | backend/src/routes/payments.js:774-807 | among any pollers and route calls a payment is claimed at most once, from pending without transaction |
| LedgerRuns.SettledIsFinal | backend/src/routes/payments.js:774-807 | over any run of pollers and route calls a row that left pending or carries a transaction never changes, so no transaction is overwritten |
| LedgerRuns.NotifiedOnce | backend/src/routes/payments.js:818-856 | among any pollers and route calls a payment is announced at most once, and the announcement says what the stored row says |
| LedgerRuns.AnnouncedIff | backend/src/routes/payments.js:706-771 | a claim whose check ended with its acknowledgement is announced if and only if it is not one of the route for a wrong amount |
| LedgerRuns.TransactionReplaced | backend/src/services/paymentService.js:726-737 | a row with a transaction changes if and only if a call of verifyPayment that read its status brings a free transaction |
| LedgerRuns.ServiceReplacesTransaction | backend/src/services/paymentService.js:635-737 | a reachable state in which verifyPayment replaces the transaction of a failed payment |
| LedgerRuns.AtMostTwoClaims | backend/src/services/paymentService.js:717-737 | with verifyPayment a payment is claimed at most twice, the second time by verifyPayment for a failed one |
| LedgerRuns.NotificationsAgree | backend/src/services/paymentService.js:739-757 | two announcements of one payment are a failure and its later confirmation by verifyPayment |
| LedgerOutcomes.FoundDecides | backend/src/lib/horizon-poller.js:517-631 | a difference of at most 0.0000001 ends the check, as does a malformed hash for a poller; anything else is pursued |
| LedgerOutcomes.FoundIsStored | backend/src/routes/payments.js:675-807 | over any run, what a check claims is what it found: an exact match confirms the payment with that transaction, another payment fails it if and only if it is too little and confirms it if and only if it is too much |
| LedgerOutcomes.StatementDecides | backend/src/routes/payments.js:774-856 | at any later time, the statement writes the row if and only if the payment is unclaimed and the transaction free, and is then announced unless it is the route's for a wrong amount |
| LedgerOutcomes.SelectDecides | backend/src/routes/payments.js:779-789 | the look for another owner ends the check if and only if it succeeds and finds one |
| LedgerOutcomes.ErrorDecides | backend/src/lib/horizon-poller.js:873-904 | an update that came back with an error changed the row if and only if it ran and the payment was free, and is not announced |
| LedgerOutcomes.EndHasReason | backend/src/lib/horizon-poller.js:623-693 | a check that pursued what it found ends without a claim only for one of five reasons: crash, another owner, a payment no longer free, an error that is not transient or not a poller's, or the third error |
| LedgerOutcomes.TriesAreBounded | backend/src/lib/horizon-poller.js:873-888 | over any run a poller sends its statement at most three times, the route once |
| LedgerOutcomes.RouteLooks | backend/src/routes/payments.js:628-644 | the route looks for a transaction if and only if the payment exists and is not confirmed |
| LedgerOutcomes.ServiceConfirms | backend/src/services/paymentService.js:646-757 | however long verifyPayment takes, its update confirms the payment with its transaction if and only if the status is the one it read and the transaction is free |
| AuditQueue.DrainServes | backend/src/lib/audit-writer-queue.js:869-878 | draining serves waiters until none is left or the limit is reached, and loses nobody |
| AuditQueue.SubmitAllFills | backend/src/lib/audit-writer-queue.js:446-466 | of a list of entries those with a cache key await the cache, of the others as many as fit are queued in order, and the rest is dropped and counted |
| AuditQueue.RecoveryDropsAtOnce | backend/src/lib/audit-writer-queue.js:418-472 | recovery reports min(maxBatch, eligible) entries; some are dropped on the spot if and only if those without a cache key do not all fit |
| AuditQueue.AuditWriterQueue.constructor | backend/src/lib/audit-writer-queue.js:111-170 | an empty queue with an idle loop and no slot held |
| AuditQueue.AuditWriterQueue.DrainSemaphoreWaiters | backend/src/lib/audit-writer-queue.js:869-878 | the loop grants slots exactly as the specification drains |
| AuditQueue.AuditWriterQueue.ReleaseHeldSlot | backend/src/lib/audit-writer-queue.js:861-864 | one slot fewer, clamped at zero, then waiters are served |
| AuditQueue.AuditWriterQueue.SetLimit | backend/src/lib/audit-writer-queue.js:661-668 | a limit below one is refused; otherwise waiters are served under the new one |
| AuditQueue.AuditWriterQueue.RunLoopHead | backend/src/lib/audit-writer-queue.js:766-772 | the loop ends on an empty queue, otherwise claims or awaits a slot |
| AuditQueue.AuditWriterQueue.Accept | backend/src/lib/audit-writer-queue.js:699-730 | past the cache: a full queue rejects and counts; otherwise the write is queued last and an idle loop is started |
| AuditQueue.AuditWriterQueue.EnqueueWrite | backend/src/lib/audit-writer-queue.js:684-691 | a write with a cache key that is not to be skipped awaits the cache, any other is accepted or rejected at once |
| AuditQueue.AuditWriterQueue.OnLookup | backend/src/lib/audit-writer-queue.js:691-697 | a hit is counted and answered, a miss goes on to the queue |
| AuditQueue.AuditWriterQueue.ResumeLoop | backend/src/lib/audit-writer-queue.js:773-836 | the oldest write is dispatched; the loop awaits it exactly when the limit is one |
| AuditQueue.AuditWriterQueue.AddToDlq | backend/src/lib/audit-writer-queue.js:378-408 | the entry is added last, the oldest makes room |
| AuditQueue.AuditWriterQueue.OnFinalFailure | backend/src/lib/audit-writer-queue.js:813-826 | a write that failed for good is counted and goes to the dead-letter queue |
| AuditQueue.AuditWriterQueue.TryAgain | backend/src/lib/audit-writer-queue.js:738-746 | another call while attempts are within the limit, final failure otherwise |
| AuditQueue.AuditWriterQueue.OnCallError | backend/src/lib/audit-writer-queue.js:751-763 | backoff while attempts are within the limit, final failure otherwise |
| AuditQueue.AuditWriterQueue.OnCallResult | backend/src/lib/audit-writer-queue.js:796-801 | a successful write is counted and its result stored |
| AuditQueue.AuditWriterQueue.OnStored | backend/src/lib/audit-writer-queue.js:802-811 | once stored, the caller is answered |
| AuditQueue.AuditWriterQueue.OnSettled | backend/src/lib/audit-writer-queue.js:827-830 | a settled write gives back its slot |
| AuditQueue.AuditWriterQueue.RecoverDeadLetterQueue | backend/src/lib/audit-writer-queue.js:418-472 | the taken entries are enqueued last first with no retries, and all counted as recovered |
| AuditQueueRuns.NextInv | backend/src/lib/audit-writer-queue.js:661-878 | every interleaved step keeps the accounting of writes, slots and the loop |
| AuditQueueRuns.RecoverIs | backend/src/lib/audit-writer-queue.js:418-472 | what a recovery run does in an interleaving is what the recovery method does |
| AuditQueueRuns.Conservation | backend/src/lib/audit-writer-queue.js:684-839 | after any run each accepted write is in exactly one of queue, flight, success and failure, nothing else is; each enqueue call awaits the cache, was answered from it, was dropped or accepted; the counters add up |
| AuditQueueRuns.StartOrder | backend/src/lib/audit-writer-queue.js:766-790 | writes start in acceptance order; the queue is the rest |
| AuditQueueRuns.CallsAreBounded | backend/src/lib/audit-writer-queue.js:738-763 | a write function is called at most maxRetries + 1 times, and exactly that often before it fails for good |
| AuditQueueRuns.OutcomeIsFinal | backend/src/lib/audit-writer-queue.js:794-826 | a write with an outcome is not called again and keeps its one outcome |
| AuditQueueRuns.SlotsAreCounted | backend/src/lib/audit-writer-queue.js:847-864 | the active count is the number of slots held, the clamp at zero never acts, and a waiter exists only at or above the limit |
| AuditQueueRuns.GrantsStayWithinLimit | backend/src/lib/audit-writer-queue.js:847-878 | no step raises the active count above the current limit |
| AuditQueueRuns.HeldWithinLimit | backend/src/lib/audit-writer-queue.js:661-668 | a limit that never exceeds n keeps the slots held at n or fewer over any run |
| AuditQueueRuns.OneAtATime | backend/src/lib/audit-writer-queue.js:829-835 | while the limit stays 1, a write starts only when every earlier one has its outcome and gave back its slot |
| AuditQueueRuns.WorkCanStep | backend/src/lib/audit-writer-queue.js:766-839 | a queue with work never gets stuck: its loop or a write that holds a slot can step |
| AuditQueueRuns.QuietMeansDone | backend/src/lib/audit-writer-queue.js:766-839 | when no step of its own is possible, the queue is empty, all slots are free and every accepted write has its outcome |
| AuditQueueRuns.InternalStepUsesWork | backend/src/lib/audit-writer-queue.js:738-839 | every step of the queue's own lowers the work left |
| AuditQueueRuns.QueueFinishes | backend/src/lib/audit-writer-queue.js:738-839 | under any schedule the queue's own steps end, after at most Work(s) of them |
| AuditQueueRuns.QueuesAreBounded | backend/src/lib/audit-writer-queue.js:378-383 | over any run neither queue outgrows its limit, for a dead-letter limit of at least one |
| AuditQueueOutcomes.EnqueueDecides | backend/src/lib/audit-writer-queue.js:684-730 | a call awaits the cache if it has a key to look up; any other is accepted last with its number and retry limit, or dropped if the queue is full |
| AuditQueueOutcomes.FailureIsDeadLettered | backend/src/lib/audit-writer-queue.js:378-408 | a write that fails for good becomes the last dead letter, due one recovery interval later; the oldest makes room |
| AuditQueueOutcomes.OnlyFailuresAreDeadLettered | backend/src/lib/audit-writer-queue.js:813-826 | nothing else but a recovery changes the dead letters |
| AuditQueueOutcomes.DeadLetterStays | backend/src/lib/audit-writer-queue.js:378-408 | over any run without recovery a dead letter stays as long as those from it on and the failures since do not exceed the limit |
| AuditQueueOutcomes.NoEarlyRecovery | backend/src/lib/audit-writer-queue.js:425-429 | after any run, a recovery that is not forced takes no write before one interval after its failure |
| AuditQueueOutcomes.ResumeDecides | backend/src/lib/audit-writer-queue.js:773-836 | the oldest write is dispatched; at limit one the loop awaits it, otherwise it asks for the next slot at once |
| AuditQueueOutcomes.DispatchIsAwaited | backend/src/lib/audit-writer-queue.js:829-836 | over any run, a write dispatched at limit one ends before another starts, even if the limit is raised meanwhile |
| AuditQueueOutcomes.ResizeDecides | backend/src/lib/audit-writer-queue.js:661-668 | a limit below one is refused; any other holds at once and lets a waiting loop go on if and only if it leaves a slot |
| AuditQueueOutcomes.CloseDecides | backend/src/lib/audit-writer-queue.js:861-878 | an ended write passes its slot to a waiting loop if and only if the limit leaves one |
| AuditRecoveryRuns.CallWaits | backend/src/lib/audit-writer-queue.js:690-691 | whatever happens meanwhile, a call that awaits the cache waits until its own lookup answers |
| AuditRecoveryRuns.CallLostIff | backend/src/lib/audit-writer-queue.js:690-703 | over any run, a call that awaits the cache ends neither accepted nor answered if and only if its lookup misses while the queue is full |
| AuditRecoveryRuns.CallIsKept | backend/src/lib/audit-writer-queue.js:690-732 | over any run, a call that is not lost still waits, was answered from the cache, or is an accepted write that is in exactly one place |
| AuditRecoveryRuns.EntryLostIff | backend/src/lib/audit-writer-queue.js:446-461 | over any run after a recovery, an entry it took is lost if and only if it has no key and those before it leave no room, or has one and its lookup misses while the queue is full |
| AuditRecoveryRuns.EntryIsKept | backend/src/lib/audit-writer-queue.js:446-466 | over any run, an entry that is not lost still awaits the cache, was answered from it, or is accepted with a single attempt and in exactly one place |
| AuditRecoveryRuns.RecoveryCanLose | backend/src/lib/audit-writer-queue.js:418-472 | some run in which no further call enters loses an entry if and only if those without a key do not fit, or there are others and the queue cannot hold all entries and pending lookups; with none pending: if and only if it cannot hold all entries |
| AuditRecoveryRuns.WorstLoss | backend/src/lib/audit-writer-queue.js:446-472 | while no further call enters, at most as many calls are dropped as entries and pending lookups exceed the room, and exactly so many if no lookup finds a record before the queue moves |
| AuditRecoveryRuns.KeyedEntryLost | backend/src/lib/audit-writer-queue.js:446-466 | an example: a full queue of one job, one entry with a key; recovery reports it, its lookup misses, and only the count of dropped writes tells of it |
| DeadLetters.AddIsBounded | backend/src/lib/audit-writer-queue.js:378-383 | adding stays within the limit if and only if that is at least one, and drops only the oldest |
| DeadLetters.TakenAndKept | backend/src/lib/audit-writer-queue.js:424-441 | min(n, eligible) eligible entries are taken, and taken and kept together are the old queue as a multiset |
| DeadLetters.ReversedAt | backend/src/lib/audit-writer-queue.js:436-440 | what was taken is submitted last first |
| DeadLetters.KeptEligibleIsLate | backend/src/lib/audit-writer-queue.js:426-430 | an eligible entry stays only if the batch was full |
| DeadLetters.ScanIsTaken | backend/src/lib/audit-writer-queue.js:424-441 | the positions the upward scan collects are those of the taken entries, and what is left without them is the kept ones in order |
| DeadLetters.CollectEligible | backend/src/lib/audit-writer-queue.js:424-430 | the upward scan collects the eligible positions up to the batch size |
| DeadLetters.SpliceOut | backend/src/lib/audit-writer-queue.js:436-441 | the downward splices remove exactly the given positions and hand out their entries last first |
| DeadLetters.Extract | backend/src/lib/audit-writer-queue.js:418-441 | the two loops together take out the first eligible entries, last first, and leave the others in order |
| Crc16.Crc16XModem | backend/src/lib/exchange-rate-oracle-sanitizer.js:70-79 | the byte-wise loop computes the bit-serial CRC of the message |
| Crc16.ByteAtOnce | backend/src/lib/exchange-rate-oracle-sanitizer.js:72-77 | folding in a byte and shifting eight times is eight bit-serial steps |
| Crc16.ShiftsInjective | backend/src/lib/exchange-rate-oracle-sanitizer.js:74-76 | different words stay different under any number of shift rounds, so damage is never shifted away |
| Crc16.BurstDetected | backend/src/lib/exchange-rate-oracle-sanitizer.js:70-79 | a burst of at most 16 bits with CRC zero has no bit set |
| CrcPolynomial.CrcDivides | backend/src/lib/exchange-rate-oracle-sanitizer.js:70-79 | a message followed by its CRC is a multiple of x^16 + x^12 + x^5 + 1 over GF(2) |
| CrcPolynomial.CrcIsRemainder | backend/src/lib/exchange-rate-oracle-sanitizer.js:70-79 | 16 bits are the CRC of a message if and only if they make it such a multiple |
| AccountId.AlphabetInOrder | backend/src/lib/exchange-rate-oracle-sanitizer.js:67 | the alphabet's i-th character is letter i, or digit i - 24 from 26 on |
| AccountId.WrapShift | backend/src/lib/exchange-rate-oracle-sanitizer.js:93 | the wrapped accumulator shifted by five keeps the residue of the unbounded one |
| AccountId.WrapByte | backend/src/lib/exchange-rate-oracle-sanitizer.js:97 | the byte cut from the wrapped accumulator is the byte of the unbounded one |
| AccountId.DecodeBytes | backend/src/lib/exchange-rate-oracle-sanitizer.js:89-101 | the loop yields 35 bytes whose bits are those of the 56 symbols, and no bits are left |
| AccountId.IsValidAccountId | backend/src/lib/exchange-rate-oracle-sanitizer.js:86-107 | true exactly for accepted texts: shape, version byte and checksum |
| AccountIdCodec.AcceptedIsEncoded | backend/src/lib/exchange-rate-oracle-sanitizer.js:86-107 | an accepted id is the encoding of some 32-byte key |
| AccountIdCodec.EncodedIsAccepted | backend/src/lib/exchange-rate-oracle-sanitizer.js:86-107 | the encoding of any 32-byte key is accepted |
| AccountIdCodec.AcceptedIffEncoded | backend/src/lib/exchange-rate-oracle-sanitizer.js:86-107 | accepted exactly if it is the encoding of some key |
| AccountIdCodec.AcceptedIffStrkey | backend/src/lib/exchange-rate-oracle-sanitizer.js:86-107 | accepted if and only if 56 symbols of the alphabet write 280 bits that start with the byte 48 and whose last two bytes, low first, make the rest a multiple of x^16 + x^12 + x^5 + 1 |
| AccountIdCodec.KeyIsUnique | backend/src/lib/exchange-rate-oracle-sanitizer.js:100-106 | two keys with one encoding are the same key |
| AccountIdCodec.AdjacentDamageRejected | backend/src/lib/exchange-rate-oracle-sanitizer.js:104-106 | an accepted id changed on at most two neighbouring characters is accepted only if nothing changed |
| AccountIdCodec.SingleCharacterDamageRejected | backend/src/lib/exchange-rate-oracle-sanitizer.js:104-106 | changing any one character of an accepted id gives a rejected one |
| AccountIdCodec.TranspositionRejected | backend/src/lib/exchange-rate-oracle-sanitizer.js:104-106 | swapping two different neighbours gives a rejected id |
| Amounts.DropPaddingIsExact | backend/src/lib/exchange-rate-oracle-sanitizer.js:137-142 | padding is dropped exactly if no value is lost, and the value stays the same |
| Amounts.NormalizeIsExact | backend/src/lib/exchange-rate-oracle-sanitizer.js:126-148 | accepts exactly the texts that denote a whole number of stroops in range, and keeps the number |
| Amounts.NormalizeIsIdempotent | backend/src/lib/exchange-rate-oracle-sanitizer.js:114-148 | what it returns it returns again, within 1 to 2^63-1 stroops |
| Amounts.MatchesMeans | backend/src/lib/exchange-rate-oracle-sanitizer.js:29-32 | the shape of an amount: one to 19 digits, alone or with a dot and one to so many decimals |
| Amounts.TrimMeans | backend/src/lib/exchange-rate-oracle-sanitizer.js:131-132 | trimming takes away all white space at both ends and nothing else |
| Amounts.SpaceMeans | backend/src/lib/exchange-rate-oracle-sanitizer.js:131-132 | the characters that count as white space |
| Quotes.SanitizeAssetExact | backend/src/lib/exchange-rate-oracle-sanitizer.js:229-236 | an asset passes unchanged exactly if it is good: native without issuer, or a code with a valid account id |
| Quotes.RebuildPath | backend/src/lib/exchange-rate-oracle-sanitizer.js:273-280 | the loop returns every hop sanitised, or nothing if one fails |
| Quotes.SanitizedQuoteIsGood | backend/src/lib/exchange-rate-oracle-sanitizer.js:250-294 | whatever the input, a rebuilt quote is good |
| Quotes.GoodQuoteComesBack | backend/src/lib/exchange-rate-oracle-sanitizer.js:238-249 | a quote passes the rebuild unchanged if and only if it is good |
| Quotes.RebuildIsExact | backend/src/lib/exchange-rate-oracle-sanitizer.js:250-294 | the rebuild of any JSON gives a quote if and only if the quote is good and the JSON says it, field by field and hop by hop |
| Quotes.SanitizeQuoteIsIdempotent | backend/src/lib/exchange-rate-oracle-sanitizer.js:250-294 | rebuilding a rebuilt quote changes nothing |
| Quotes.ExtraFieldsVanish | backend/src/lib/exchange-rate-oracle-sanitizer.js:243-245 | fields outside the allow-list have no effect |
| Quotes.SendMaxCoversSource | backend/src/lib/exchange-rate-oracle-sanitizer.js:262-280 | a rebuilt quote has sendMax at least sourceAmount, both in range, and at most six hops |
| Quotes.GoodQuotePassesShapeCheck | backend/src/lib/exchange-rate-coordinator.js:71-82 | every rebuilt quote passes the coordinator's own shape check |
| CanonicalJson.PrintsCanon | backend/src/lib/audit-security.js:46-79 | the printer writes the plain text of the value with keys sorted, dates, undefined and non-finite values as JSON has them, circular references marked and deep nodes replaced |
| CanonicalJson.ParseText | backend/src/lib/audit-security.js:46-79 | the parser recovers any value from its text and leaves what follows |
| CanonicalTexts.ScalarTexts | backend/src/lib/audit-security.js:46-66 | the texts of null, undefined, non-finite numbers, booleans, numbers, strings, dates and circular references |
| CanonicalTexts.EscapeMeans | backend/src/lib/audit-security.js:51-51 | the escapes in strings: short ones for seven characters, four hexadecimal digits for the other controls, none else |
| CanonicalTexts.NestedText | backend/src/lib/audit-security.js:47-49 | a value in n arrays is printed in n brackets down to depth 10; below that eleven brackets hold the mark [Too Deep] |
| CanonicalEquality.ParsePrinted | backend/src/lib/audit-security.js:46-79 | parsing the printed text gives the canonical value |
| CanonicalEquality.PrintedAlikeIsSame | backend/src/lib/audit-security.js:46-79 | payloads that print alike are equal up to key order and to what lies too deep, for any order of keys |
| CanonicalEquality.PrintsAlikeIffSame | backend/src/lib/audit-security.js:46-79 | if the order tells keys apart, payloads print alike if and only if they are so equal |
| CanonicalEquality.PrintsAlikeIffEqual | backend/src/lib/audit-security.js:46-79 | a payload with all nodes within depth 10 prints like another if and only if they are equal up to key order |
| CanonicalEquality.SameKeysSortAlike | backend/src/lib/audit-security.js:74-75 | objects with the same keys list them in the same order |
| CanonicalEquality.PrintsAlikeIffCanon | backend/src/lib/audit-security.js:46-79 | for any order of keys, payloads print alike if and only if their canonical values are the same |
| CanonicalLimits.CollidesIffDeep | backend/src/lib/audit-security.js:47-49 | for every payload and any order of keys, another unequal one has its text if and only if it has a node below the depth limit |
| CanonicalLimits.SortKeepsBefore | backend/src/lib/audit-security.js:74-75 | the sort is stable: a key that need not move behind another stays before it |
| CanonicalLimits.ReorderingShowsIffTied | backend/src/lib/audit-security.js:74-75 | for every payload, some reordering prints differently if and only if a printed object of it has two different keys that the order ties |
| CanonicalLimits.DeepNodesCollide | backend/src/lib/audit-security.js:47-49 | an example: null and true inside n arrays print alike if and only if n exceeds the depth limit |
| CanonicalLimits.TiedKeysKeepOrder | backend/src/lib/audit-security.js:75 | an example: an object of two keys and its reordering print alike if and only if the order does not tie the keys |
| HealthRing.RingIsExact | backend/src/lib/db-rls-telemetry.js:132-149 | after any log without events a whole window late, each bucket of the window holds exactly its slot's events |
| HealthRing.SnapshotIsExact | backend/src/lib/db-rls-telemetry.js:151-177 | the snapshot's sum is the exact number of events of the last n slots |
| HealthRing.SteadyClockIsInTime | backend/src/lib/db-rls-telemetry.js:132-139 | a clock that never runs backwards never delivers an event late |
| HealthRing.LateEventLoses | backend/src/lib/db-rls-telemetry.js:135-138 | an event a whole window late keeps the ring exact if and only if the bucket it takes had counted nothing |
| HealthMonitors.BucketsCoverWindow | backend/src/lib/db-rls-telemetry.js:120-123 | the buckets cover the configured window with less than one bucket to spare |
| HealthMonitors.WindowInTime | backend/src/lib/db-rls-telemetry.js:151-154 | which ages are inside the window: all up to n - 1 buckets, none from n buckets on |
| HealthMonitors.BucketRing.constructor | backend/src/lib/db-rls-telemetry.js:117-130 | the right number of empty buckets |
| HealthMonitors.BucketRing.BucketFor | backend/src/lib/db-rls-telemetry.js:132-139 | the slot's bucket, emptied if it held another slot, and no other bucket touched |
| HealthMonitors.BucketRing.Count | backend/src/lib/db-rls-telemetry.js:141-148 | the buckets stay those of the log with the event added |
| HealthMonitors.BucketRing.Totals | backend/src/lib/db-rls-telemetry.js:151-170 | the sums are the exact counts of the window |
| HealthMonitors.RatioReached | backend/src/lib/db-rls-telemetry.js:173-175 | a positive ratio is reached if and only if there was traffic and the part is at least that share of it |
| HealthMonitors.RoundedIsNear | backend/src/lib/db-rls-telemetry.js:201-202 | a reported ratio is within half a unit of the fourth digit and stays between 0 and 1 |
| HealthMonitors.RlsUnhealthyMeans | backend/src/lib/db-rls-telemetry.js:172-184 | unhealthy if and only if there was enough traffic with at least the error share in it |
| HealthMonitors.RlsVerdict | backend/src/lib/db-rls-telemetry.js:172-224 | status, reasons in order, totals and ratios in terms of the five counts, without dividing |
| HealthMonitors.RlsCountsByName | backend/src/lib/db-rls-telemetry.js:141-148 | committed, rolled back, invalid input, connection and transaction errors are each counted in their own place, and no other outcome is |
| HealthMonitors.OracleUnhealthyMeans | backend/src/lib/exchange-rate-oracle-telemetry.js:187-211 | the same for loads of the oracle cache |
| HealthMonitors.OracleVerdict | backend/src/lib/exchange-rate-oracle-telemetry.js:187-241 | the same for the seven counts of the oracle cache |
| HealthMonitors.OracleCountsByName | backend/src/lib/exchange-rate-oracle-telemetry.js:142-158 | lookups count as hit, stale or else miss, loads as success, timeout, not found or else error |
| HealthMonitors.RlsIdleIsHealthy | backend/src/lib/db-rls-telemetry.js:87-99 | without traffic the monitor is healthy if and only if its thresholds ask for some: zero thresholds, which the configuration admits, report trouble |
| HealthMonitors.OracleIdleIsHealthy | backend/src/lib/exchange-rate-oracle-telemetry.js:187-211 | the same for the oracle cache: healthy if and only if samples are asked for or all three ratios are positive |
| HealthMonitors.DatabaseRlsHealthMonitor.Record | backend/src/lib/db-rls-telemetry.js:141-149 | the outcome is logged under its kind, unknown ones uncounted, and the time kept |
| HealthMonitors.DatabaseRlsHealthMonitor.Snapshot | backend/src/lib/db-rls-telemetry.js:151-224 | status, reasons, window, counts, totals and rounded ratios are those of the exact counts; last time and thresholds are those stored |
| HealthMonitors.ExchangeRateOracleHealthMonitor.RecordLookup | backend/src/lib/exchange-rate-oracle-telemetry.js:142-147 | lookups are logged as hit, stale or otherwise miss |
| HealthMonitors.ExchangeRateOracleHealthMonitor.RecordLoad | backend/src/lib/exchange-rate-oracle-telemetry.js:150-158 | loads are logged as success, timeout, not found or otherwise error, and the time kept |
| HealthMonitors.ExchangeRateOracleHealthMonitor.Snapshot | backend/src/lib/exchange-rate-oracle-telemetry.js:160-241 | the same for the oracle cache, with lookups and loads sharing buckets |
| BodyValidator.ValidateSignatureBody | backend/src/lib/api-gateway-payload-validation.js:167-219 | accepts exactly absent bodies and those that are JSON-safe, shallow, without forbidden keys and of at most 10000 nodes; otherwise gives the recursive check's verdict |
| BodyValidator.Traverse | backend/src/lib/api-gateway-payload-validation.js:173-218 | the explicit stack reaches the verdict of the recursive check |
| BodyValidator.PushItems | backend/src/lib/api-gateway-payload-validation.js:200-205 | the items are pushed in order with depth and place |
| BodyValidator.PushEntries | backend/src/lib/api-gateway-payload-validation.js:207-213 | the entries are pushed in order up to the first forbidden key |
| BodyValidator.CheckDecides | backend/src/lib/api-gateway-payload-validation.js:173-218 | the recursive check goes through if and only if the value is good and within the budget, having counted each node |
| BodyValidator.RejectionIsJustified | backend/src/lib/api-gateway-payload-validation.js:177-212 | a rejection names a fault that is really there, at the place it names |
| BodyValidator.OwnFaultFirst | backend/src/lib/api-gateway-payload-validation.js:196-213 | a container's depth, or the first forbidden key of an object, is reported before anything below it |
| BodyValidator.LastFaultFirst | backend/src/lib/api-gateway-payload-validation.js:173-213 | of several children at fault the last is reported |
| CircuitBreaker.AuditCircuitBreaker.CheckOpen | backend/src/lib/audit-circuit-breaker.js:159-185 | an open breaker blocks until its timeout, then turns half-open; any other lets pass |
| CircuitBreaker.AuditCircuitBreaker.OnSuccess | backend/src/lib/audit-circuit-breaker.js:191-222 | half-open: counts up to closing; otherwise resets the failures |
| CircuitBreaker.AuditCircuitBreaker.OnFailure | backend/src/lib/audit-circuit-breaker.js:230-252 | a failure opens from half-open or at the threshold |
| CircuitBreaker.AuditCircuitBreaker.Reset | backend/src/lib/audit-circuit-breaker.js:257-264 | back to closed with nothing counted |
| CircuitBreaker.Execution.constructor | backend/src/lib/audit-circuit-breaker.js:283-296 | execute up to its first await: refused, failed without a call, or running |
| CircuitBreaker.Execution.OnResult | backend/src/lib/audit-circuit-breaker.js:296-300 | a result is recorded once and returned |
| CircuitBreaker.Execution.OnError | backend/src/lib/audit-circuit-breaker.js:301-317 | not retryable or out of retries: recorded and thrown; otherwise it sleeps |
| CircuitBreaker.Execution.OnWake | backend/src/lib/audit-circuit-breaker.js:318-325 | after the sleep the breaker is checked again |
| CircuitBreakerRuns.NextInv | backend/src/lib/audit-circuit-breaker.js:159-330 | every interleaved step keeps breaker, history and calls in agreement |
| CircuitBreakerRuns.StatesAreSound | backend/src/lib/audit-circuit-breaker.js:191-252 | closed is below the threshold; half-open is short of its successes and knows its open time |
| CircuitBreakerRuns.NoEarlyStart | backend/src/lib/audit-circuit-breaker.js:159-175 | no function starts within resetTimeoutMs of any opening since the last reset |
| CircuitBreakerRuns.OneOutcomePerCall | backend/src/lib/audit-circuit-breaker.js:283-330 | returned: one success; thrown: one failure; anything else: nothing; at most maxRetries + 1 starts |
| CircuitBreakerRuns.OpensOnConsecutiveFailures | backend/src/lib/audit-circuit-breaker.js:230-238 | a closed breaker opens if and only if the record ends in threshold failures |
| CircuitBreakerRuns.ClosesOnTrials | backend/src/lib/audit-circuit-breaker.js:194-207 | a half-open breaker closes if and only if all outcomes since are successes, as many as required |
| CircuitBreakerAnswers.ExecuteDecides | backend/src/lib/audit-circuit-breaker.js:283-296 | execute() refuses if and only if the breaker is open and its last opening is less than the reset timeout ago; otherwise the function starts |
| CircuitBreakerAnswers.WakeDecides | backend/src/lib/audit-circuit-breaker.js:317-323 | the same after a backoff: refused, or started once more |
| CircuitBreakerAnswers.ErrorDecides | backend/src/lib/audit-circuit-breaker.js:300-317 | an error ends the call with one recorded failure if and only if it must not be retried or the function was started maxRetries + 1 times |
| CircuitBreakerAnswers.ResultDecides | backend/src/lib/audit-circuit-breaker.js:295-298 | a result ends the call with one recorded success |
| CircuitBreakerAnswers.OpenLeaves | backend/src/lib/audit-circuit-breaker.js:159-185 | an open breaker turns half-open if and only if a call comes by after the timeout, and closes only by a reset |
| CircuitBreakerAnswers.HalfOpenReopens | backend/src/lib/audit-circuit-breaker.js:236-252 | a half-open breaker opens again, from that moment on, if and only if a failure is recorded |
| CircuitBreakerAnswers.ClosedLeaves | backend/src/lib/audit-circuit-breaker.js:230-252 | a closed breaker never turns half-open, and opens at the moment of the failure |
| CircuitBreakerAnswers.FailuresAreCounted | backend/src/lib/audit-circuit-breaker.js:191-252 | every failure is counted, and a success forgets them unless it is one of several trials; late failures of an open breaker renew its opening at the threshold |
| TokenBucket.RateLimiter.constructor | backend/src/lib/horizon-poller.js:259-268 | a full bucket, with rate and burst of at least one |
| TokenBucket.RateLimiter.RefillAt | backend/src/lib/horizon-poller.js:273-278 | refill earns the elapsed time, capped at the burst |
| TokenBucket.RateLimiter.RequestSlot | backend/src/lib/horizon-poller.js:282-292 | a token is taken at once or a delay asked for |
| TokenBucket.RateLimiter.SlotAfterSleep | backend/src/lib/horizon-poller.js:299-302 | after the sleep a token is taken, clamped at zero |
| TokenBucket.TokensStayInRange | backend/src/lib/horizon-poller.js:273-302 | tokens stay between zero and the burst over any run of calls |
| TokenBucket.ClampNeverActs | backend/src/lib/horizon-poller.js:299-301 | a call that slept as asked finds a whole token |
| TokenBucket.SpanIsBounded | backend/src/lib/horizon-poller.js:259-302 | any span of time admits at most the burst plus what the rate yields in it |
| TokenBucket.CallCost | backend/src/lib/horizon-poller.js:273-302 | a call costs exactly one token of what the bucket, capped at the burst, holds when it is admitted |
| TokenBucket.DelayIsLeast | backend/src/lib/horizon-poller.js:282-293 | a call is admitted at once if and only if it finds a token, and otherwise sleeps the least number of milliseconds that earns one |
| TokenBucket.ConfigureDecides | backend/src/lib/horizon-poller.js:259-266 | rate and burst are at least one; without a burst, or with zero, it is the rate |

## Left out

- Redis clients without scripting (`idempotency.js:102-106, 117-120`): the GET-then-SET and GET-then-DEL fallbacks are not atomic; only the `eval` path is modelled.
- Requests and calls that proceed after a Redis failure: they are steps of their own (`Unprotected`, fallback) and no exclusion claim covers them.
- Redis, Postgres, Supabase, Horizon, timers, metrics, logs, webhooks, mail and sockets: each call the protocols depend on is one atomic, possibly failing step; the others have no counterpart.
- SHA-256 and HMAC, random tokens, jitter and clocks: opaque values and parameters; tokens are assumed never to repeat.
- RateCacheRuns.CachedIsCurrent: says where cached data comes from, not that the loader's answer is right; `generateRateCacheKey` is not modelled.
- Objects of the source that are Maps or arrays (`cache`, `queue`, `dlq`, the validator's `stack`): fields and variables of type `seq` and `map` that the methods reassign; in-place sharing of one array by two holders does not occur in the source and is not expressed.
- A write's dispatch and the first test of its retry loop: several microtasks in the source, one step boundary in `AuditQueue`; nothing else can observe the difference.
- AuditQueue.AuditWriterQueue.OnLookup: whether the result cache holds a key is a parameter of the step; the cache's own entries, expiry and second tier are not modelled.
- Limits of `setMaxConcurrency` that are not whole numbers: 1.5 would let two writes run, and NaN passes the check and stops the queue.
- Throwing metric, cache and transition callbacks: they are assumed not to throw, as are `setCachedRecord` and the circuit breaker's `onOpen`, `onClose` and `onHalfOpen`.
- `_resetForTests`, `purgeDlq`, `startAutoRecovery` and the throughput telemetry of the audit queue.
- DeadLetters.AddIsBounded: an entry is its write and its two times; error text, payload and attempts are carried along in the source and change nothing.
- LedgerClaims.PaymentCheck.OnOtherPayment: the difference is the number the program computed, as a parameter; that floating-point subtraction may be off by a rounding error is not modelled.
- LedgerRuns.AnnouncedIff: a route check that throws between its acknowledged update and its notification, at `connectRedisClient` (`routes/payments.js:825`), counts as crashed there.
- Payment rows that are deleted, or changed by anything but pollers, the verify-payment route and `verifyPayment`; payments are inserted pending and without transaction (`routes/payments.js:364-365`), and the initial table is assumed to hold no others that are pending.
- Quotes: the upper case of a string and JavaScript's `Number(...)` are parameters (`Env`); idempotency assumes that `Number` of a number is that number.
- Number inputs of `normalizeAmount`, and `sanitizeAsset` and `sanitizeQuoteRequest`, which throw where `sanitizeQuoteAsset` and `sanitizeQuote` return null.
- CanonicalJson.PrintsCanon: strings are Unicode scalar values, so lone surrogates do not occur; numbers are given by their text and dates by their ISO text; a circular reference is a leaf where the printer meets it; functions, symbols, big integers and invalid dates are not modelled; `localeCompare` is an arbitrary order parameter.
- The consumers of canonical text: truncation, redaction, signatures and row verification in `audit-security.js`; the rebuilt login row carries other fields than the hashed one.
- HealthMonitors.DatabaseRlsHealthMonitor.Snapshot: ratios are real numbers before they are rounded; window and bucket lengths are whole milliseconds, and the last time is given in milliseconds and not as text.
- BodyValidator.RejectionIsJustified: places are paths of steps; their text, truncation and cleaning for logs are not modelled, nor are `validateSignatureRequestParts` and `resolveSignatureToleranceSeconds`, which are sequences of simple tests.
- CircuitBreakerRuns.NoEarlyStart: for a clock that does not run backwards, and counting openings since the last `reset()`.
- TokenBucket.SpanIsBounded: for calls that do not overlap; overlapping callers compute their delays from the same tokens, so the bound does not hold for them.
- The query cache (`db-query-cache.js`), log retention, and the other locks, breakers, caches and retry helpers, which repeat shapes treated here.
- Express routing, other migrations, the frontend and configuration.
