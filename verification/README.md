# A verified model of the control plane

This project models the stateful parts of the hosting control plane: its in-memory limiters and caches, the
protocols that tie database rows to Docker resources, the admission of builds and deploys, the life cycle of
services and builds, and the migration runner. It proves laws of them over whole runs and all interleavings.
`dafny verify dfyconfig.toml` checks everything.

How the model is built:

- Code that works on fields under a mutex is a class whose methods are proved equal to a specification function
  (`Limiter`, `Authenticator`, `Tracker`, `Recorder`, `Store`, `Reconciler`, `Docker`, the two `Manager`s). The
  laws are lemmas about runs of those functions.
- Code that races with other requests is a state machine. Each database or Docker call is one step, any call may
  fail, and a theorem quantifies over all sequences of steps.
- Time is a non-decreasing natural number: nanoseconds in the in-memory stores, seconds where the code stores
  seconds. Go's unspecified map order is an input, `order`, which may be any listing of the keys.

Files: `Common` (shared definitions), `RegistrationLimiter`, `AuthCache` and `AuthRace`, `LastUsed`,
`ResponseRecorder` and `IdempotencyStore`, `Services`, `ServiceManager`, `CircuitBreaker` and `CircuitRace`,
`GarbageCollector`, `DatabaseLifecycle`, `Ports`, `DatabaseQuota` and `DatabaseManager`, `Admission`, `BuildStatus`, `Migrations`.

Where the code and its comments, or the obvious reading, differ, the model follows the code:

- internal/api/auth.go:173 says revocation takes effect immediately. With each request and each handler taken as
  one step it does (`RevocationIsImmediate`). With their steps interleaved it does exactly when no request still
  holds an earlier read or entry (`AcceptableAfterEvictionIff`); otherwise requests can still get hold of the key
  for 30 seconds after that read is stored.
- internal/middleware/auth.go:215 tests `now > expires`, the query at line 232 `expires > now`. The cache and the
  query differ in that one second and nowhere else (`CacheAgreesWithQuery`).
- The loops that look for the oldest entry use the empty string for "none yet". They fail exactly when the empty key
  is strictly older than all others (`ScanWorksIff`). Only the registration limiter can see one: trustedRealIP at
  internal/api/server.go:267-280 returns the empty string for an address it cannot parse, and
  internal/api/tenants.go:144 does not check. Key IDs and store keys are never empty.
- `last_used_at` can lag by more than the five minutes of internal/middleware/auth.go:151, because the column is
  written after the lock is released (`PendingWriteLags`, `OvertakenWriteLags`, `OrderlyWritesLand`).
- Start, Restart and Deploy refuse an open circuit, but read it before they write; a circuit that opens in between is
  overlooked (`OpenRunIsLateWrite`, `RunsOpenLaterIff`).
- A cancelled build whose builder nevertheless succeeds is deployed (`CancelledBuildCanDeploy`), and a build reads
  succeeded although its deploy failed (`SucceededNeedNotDeploy`); `RowTellsTruthIff` says exactly when.
- internal/services/services.go:46 limits deploys to five "globally". cmd/ah/main.go:126 and
  internal/api/server.go:56 make a service manager each, so the limit is ten (`AtMostTenDeploy`, `TenCanDeploy`).
- internal/databases/databases.go:126 counts a tenant's databases in a transaction that commits before the row is
  inserted, so the quota of three can be exceeded, by one for each further overlapping creation (`QuotaHoldsIff`).
- internal/reconciler/reconciler.go:323 announces that a recovered service is restarted by a later tick; no code
  does that (`OnlyStartsRun`).
- A database row whose container was never recorded can neither be deleted nor cleared at start-up, because reading
  it fails on the NULL; all other rows can (`DeletableIff`, `RestartClearsIff`). A restart at such a point, or just
  after a row was marked failed, leaves container and volume behind (`RestartStrandsIff`).
- A store key of the idempotency store fixes tenant and method, but not where the URI ends and the client's key
  begins (`KeysCanCollide`).

Assumptions: a key's hash check is an uninterpreted predicate; equal body hashes stand for equal bodies; random
IDs are fresh. A failing SQL statement has no effect, and one on an expired context fails.

internal/reconciler/reconciler.go:207 and :276 pass eight arguments for seven placeholders. The circuit laws are
about the seven the statement names (`NamedBindingIsEvaluation`), with the retry delay of 30 minutes that the
constant argument gives. As written, with arguments bound in order and the last one dropped, the statement compares
the service ID with the time and finds no row (`WrittenBindingFindsNoRow`); crashes are then counted but no circuit
ever opens (`NeverOpensAsWritten`). How a driver treats the surplus argument is not part of this model.

## Model

| member | source | states |
|---|---|---|
| Common.OldestKey | internal/api/tenants.go:106-113 | the oldest-entry loop, also used at auth.go:75-82 and idempotency.go:234-241, ends on the key its specification picks for that visiting order |
| Common.ScanFindsOldest | internal/api/tenants.go:106-113 | whatever the order, without an empty key the loop finds an entry no other is older than |
| Common.ScanWorksIff | internal/api/tenants.go:106-116 | on any non-empty table and in any order the loop ends on a real key no other is older than, if and only if the empty key is not strictly older than all others |
| Common.EmptyKeyDefeatsScan | internal/api/tenants.go:109 | an order on which it does not: the key visited right after the empty one is picked, however recent |
| Common.EvictionRemovesOldest | internal/middleware/auth.go:74-86 | unless the empty key is strictly the oldest, a full table loses one key, and no other is older |
| Common.UnixIsFloor | internal/middleware/auth.go:224 | a time in seconds is the whole seconds of the time in nanoseconds |
| RegistrationLimiter.Limiter.Allow | internal/api/tenants.go:91-131 | new state and answer are those of the bounded limiter: window reset, global cap, eviction, per-IP decision |
| RegistrationLimiter.Limiter.AdmitIp | internal/api/tenants.go:119-130 | the per-IP part of the decision |
| RegistrationLimiter.Limiter.MakeRoom | internal/api/tenants.go:105-117 | a full table loses its scanned entry, any other stays |
| RegistrationLimiter.Limiter.Cleanup | internal/api/tenants.go:77-86 | exactly the windows that have run out are removed |
| RegistrationLimiter.BoundsAreInvisible | internal/api/tenants.go:73-131 | for every run with cleanups anywhere, each answer, wait included, is the one of a limiter with an unbounded, never cleaned table, provided no full table is scanned while its empty key is strictly its oldest |
| RegistrationLimiter.NonEmptyIpsSuffice | internal/api/tenants.go:144-145 | which holds for every run of calls from non-empty IPs |
| RegistrationLimiter.EvictionDropsExpired | internal/api/tenants.go:105-117 | eviction from a full table only drops a window that has run out |
| RegistrationLimiter.LiveWindowsAreFew | internal/api/tenants.go:98-103 | at most 40 windows are live at any time, whatever the number of IPs |
| RegistrationLimiter.WindowsAreAdmissions | internal/api/tenants.go:119-124 | the windows opened in an interval number at most the admissions in it |
| RegistrationLimiter.GlobalBound | internal/api/tenants.go:98-103 | how many admissions of a closed hour the current global window leaves room for |
| RegistrationLimiter.IpBound | internal/api/tenants.go:119-130 | the same for one IP, whose window starts with an admission |
| RegistrationLimiter.HourlyBounds | internal/api/tenants.go:91-131 | any closed hour of any run admits at most 40 registrations, at most 9 of one IP |
| RegistrationLimiter.NineInOneHour | internal/api/tenants.go:119-130 | a run that reaches nine, so the bound is tight |
| RegistrationLimiter.RefusedUntilReset | internal/api/tenants.go:102-127 | a refused IP is refused at every later call up to the advertised moment |
| RegistrationLimiter.AnswerFromHistory | internal/api/tenants.go:91-131 | every answer of a run follows from the calls before it alone: refused exactly when 20 admissions fall into the running global hour, or 5 of the IP into its own, with the wait until the end of that hour |
| RegistrationLimiter.RefusalEndsAnHourLater | internal/api/tenants.go:102-127 | a refused call is told to come back exactly one hour after an earlier admission of its IP, or after the call that opened the global hour |
| RegistrationLimiter.FirstCallAfterReset | internal/api/tenants.go:118-130 | the first call of an IP after that moment is admitted unless the other limit refuses it |
| RegistrationLimiter.TableIsBounded | internal/api/tenants.go:105-117 | the table never exceeds 10000 windows |
| RegistrationLimiter.CleanupLeavesFew | internal/api/tenants.go:77-86 | after any cleanup at most 40 are left |
| AuthCache.Authenticator.Get | internal/middleware/auth.go:61-69 | an entry is returned if and only if it is there and at most 30 seconds old |
| AuthCache.Authenticator.Set | internal/middleware/auth.go:71-89 | stores the entry, first evicting the scanned one from a full cache |
| AuthCache.Authenticator.Invalidate | internal/middleware/auth.go:91-95 | removes that key only |
| AuthCache.Authenticator.InvalidateTenant | internal/middleware/auth.go:109-117 | removes exactly the tenant's keys |
| AuthCache.Authenticator.Cleanup | internal/middleware/auth.go:45-57 | removes exactly the entries older than the TTL |
| AuthCache.Authenticator.Authenticate | internal/middleware/auth.go:210-261 | new cache and decision of a whole request, on hit, expired hit, miss and database failure |
| AuthCache.CacheAgreesWithQuery | internal/middleware/auth.go:210-261 | after any run an answered request gets the SQL query's decision on the current rows, if and only if it is not a hit in the second of expiry; there the cache accepts and the query rejects |
| AuthCache.ExpiringHitIsReachable | internal/middleware/auth.go:215 | a run that ends in such a hit |
| AuthCache.RevocationIsImmediate | internal/api/auth.go:154-176 | revoked keys and keys of suspended tenants are refused from the next request on |
| AuthCache.AcceptedIff | internal/middleware/auth.go:210-265 | after any run a request is accepted as tenant t if and only if its key is an unrevoked, unexpired key of the active tenant t with a fitting hash (the second of expiry counts if it is remembered), and the database is up or the key was read at most 30 seconds before |
| AuthCache.RevokedKeyIsNeverAccepted | internal/api/auth.go:158-176 | once its tenant has revoked a key no later request of any run is accepted with it |
| AuthCache.DeletedTenantIsNeverAccepted | internal/api/tenants.go:340-371 | once a tenant is deleted no later request is accepted as that tenant |
| AuthCache.OnlyOwnersRevoke | internal/api/auth.go:158-171 | revoking a key of another tenant changes nothing |
| AuthCache.AnsweredFromMemory | internal/middleware/auth.go:61-69 | a request answered while the database is down repeats one that reached it at most 30 seconds before |
| AuthCache.RepeatIsAnswered | internal/middleware/auth.go:244-250 | and such a repetition is answered |
| AuthCache.SweepsAreExact | internal/middleware/auth.go:45-57 | what a cleanup, a deletion and a revocation leave in the cache, entry by entry |
| AuthCache.ExpiredHitEvicts | internal/middleware/auth.go:215-218 | a hit past its expiry is evicted |
| AuthCache.CacheIsBounded | internal/middleware/auth.go:73-87 | the cache never exceeds 5000 entries |
| AuthCache.NextMirrors | internal/api/tenants.go:340-371 | every operation keeps each cached entry a copy of an unrevoked row and its tenant's status |
| AuthRace.AcceptanceRestsOnRead | internal/middleware/auth.go:213-250 | in every interleaving each acceptance rests on a read that found the key valid before its revocation, stored at most 30 seconds before the request got hold of it |
| AuthRace.AcceptancesEnd | internal/api/auth.go:158-176 | once no older read is still to be stored at time u, every later acceptance is of a request that got hold of the key by u + 30s |
| AuthRace.AcceptableAfterEvictionIff | internal/api/auth.go:173-176 | after revocation and eviction the key can be accepted again if and only if some request still holds an active read or a fetched entry of it |
| AuthRace.EvictionCanComeTooEarly | internal/middleware/auth.go:226-250 | that state is reachable |
| LastUsed.Tracker.TakeSample | internal/middleware/auth.go:148-169 | what the critical section does to the table, and whether a write is due |
| LastUsed.Tracker.WriteColumn | internal/middleware/auth.go:171-173 | what the statement after it does, working or not |
| LastUsed.Tracker.MaybeUpdate | internal/middleware/auth.go:147-174 | a whole call with nothing in between |
| LastUsed.Tracker.Cleanup | internal/middleware/auth.go:131-143 | exactly the day-old entries are forgotten |
| LastUsed.SampleIsRecent | internal/middleware/auth.go:131-169 | in every interleaving the last sample of a key is less than five minutes older than any request of it; the table never exceeds 10000 keys |
| LastUsed.SamplesAreApart | internal/middleware/auth.go:147-168 | unless the table overflows, two samples of a key are at least five minutes apart, whatever cleanups there are |
| LastUsed.CleanupForgetsDayOld | internal/middleware/auth.go:131-143 | a cleanup forgets exactly what is more than a day old |
| LastUsed.StoredTimeIsRecent | internal/middleware/auth.go:147-174 | once the write of that sample is the last that landed, the stored time is at most 300 whole seconds behind any request so far |
| LastUsed.OrderlyWritesLand | internal/middleware/auth.go:168-173 | so it is whenever no write of the key is pending, if its writes work and never overlap |
| LastUsed.PendingWriteLags | internal/middleware/auth.go:151-154 | a request let through while the first write of its key is pending |
| LastUsed.OvertakenWriteLags | internal/middleware/auth.go:169-171 | two writes out of order leave the column 599 seconds behind |
| ResponseRecorder.Recorder.WriteHeader | internal/middleware/idempotency.go:67-74 | only the first header counts and is sent |
| ResponseRecorder.Recorder.Write | internal/middleware/idempotency.go:76-94 | the chunk is passed on; the copy is everything written or, once over 8192 bytes, nothing |
| ResponseRecorder.Recorder.Serve | internal/middleware/idempotency.go:211-221 | for any handler, what was sent, the status and whether the reply may be kept are those of its action list |
| ResponseRecorder.ClientSeesRecord | internal/middleware/idempotency.go:76-94 | the client receives the recorded status first and exactly the recorded bytes |
| ResponseRecorder.StatusIsFirstHeader | internal/middleware/idempotency.go:67-82 | the recorded status is the first header written before any chunk, or 200 |
| ResponseRecorder.PayloadConcatenates | internal/middleware/idempotency.go:85-88 | the recorded body is the concatenation of the chunks, in order |
| ResponseRecorder.KeptIff | internal/middleware/idempotency.go:219-221 | a reply is kept exactly when its status is from 200 to 299 and it has at most 8192 bytes |
| IdempotencyKeys.KeyEqualityIff | internal/middleware/idempotency.go:170 | store keys are equal if and only if tenant, method and the rest as one string are |
| IdempotencyKeys.KeysCanCollide | internal/middleware/idempotency.go:170 | different URIs with different client keys can give one store key |
| IdempotencyKeys.OwnershipIsTenant | internal/middleware/idempotency.go:224-230 | the prefix test finds exactly the tenant's own entries |
| IdempotencyKeys.FullStoreHasTenOthers | internal/middleware/idempotency.go:231-233 | a full store in which one tenant is below its cap has ten other tenants |
| IdempotencyStore.Store.Find | internal/middleware/idempotency.go:184-209 | replay, conflict or handler, for every store content |
| IdempotencyStore.Store.CountOwned | internal/middleware/idempotency.go:224-230 | the loop counts the entries with the tenant's prefix |
| IdempotencyStore.Store.Save | internal/middleware/idempotency.go:211-257 | runs the handler behind the recorder and stores, evicts or skips as specified |
| IdempotencyStore.Store.MakeRoomFor | internal/middleware/idempotency.go:233-245 | a full store loses its scanned entry |
| IdempotencyStore.Store.Cleanup | internal/middleware/idempotency.go:45-57 | exactly the expired entries go |
| IdempotencyStore.CapacityHolds | internal/middleware/idempotency.go:221-256 | at most 500 entries, at most 50 of one tenant, in every run with overlapping requests |
| IdempotencyStore.ReplayIsFaithful | internal/middleware/idempotency.go:188-257 | the handler runs if and only if there is no live entry; otherwise the answer is that of a handler that finished less than ten minutes ago for the same store key: its status, exact bytes and content type (JSON when it had none), 2xx and at most 8192 bytes, or a conflict when its request body was another |
| IdempotencyStore.OnlySmallSuccesses | internal/middleware/idempotency.go:219-221 | in every run whatever is stored or replayed has a status from 200 to 299 and at most 8192 bytes |
| IdempotencyStore.FinishStoresIff | internal/middleware/idempotency.go:221-256 | a finished handler leaves its status, bytes, type and hash under its key for ten minutes exactly when its reply is such a one and its tenant holds fewer than 50; otherwise the store stays as it was |
| IdempotencyStore.FinishKeepsOthers | internal/middleware/idempotency.go:231-245 | it changes no other entry, and removes none while there are fewer than 500 |
| IdempotencyStore.CleanupKeepsTenMinutes | internal/middleware/idempotency.go:45-57 | a cleanup keeps exactly the entries whose ten minutes are not over |
| IdempotencyStore.EvictionNeedsTenOthers | internal/middleware/idempotency.go:231-245 | evicting means ten other tenants hold entries |
| IdempotencyStore.ExpiredGoFirst | internal/middleware/idempotency.go:233-245 | a live entry is evicted only if all entries are live |
| IdempotencyStore.RepliesSurvive | internal/middleware/idempotency.go:231-256 | with at most ten tenants a stored reply answers until it expires, unchanged unless another first request for its key was still running |
| Services.Reconciler.ReconcileOnce | internal/reconciler/reconciler.go:105-340 | one pass changes every row as one tick of that row, whatever the order and whatever fails |
| Services.Reconciler.CrashPass | internal/reconciler/reconciler.go:124-222 | step 1 counts a crash for exactly the services whose container is gone or has exited |
| Services.Reconciler.HealthPass | internal/reconciler/reconciler.go:226-287 | step 1a does so for unhealthy containers, over the same snapshot |
| Services.Reconciler.RecoveryPass | internal/reconciler/reconciler.go:308-326 | step 1b resets exactly the overdue circuits |
| Services.Reconciler.Snapshot | internal/reconciler/reconciler.go:106-122 | the running services with a container, each once |
| Services.Reconciler.Overdue | internal/reconciler/reconciler.go:290-306 | the open circuits whose retry time has come, each once |
| CircuitBreaker.StaysRunningIff | internal/reconciler/reconciler.go:124-164 | a tick leaves a running service alone exactly when it has no container or nothing definite speaks against that; Docker errors never do |
| CircuitBreaker.StaleDeployIff | internal/reconciler/reconciler.go:329-340 | a tick touches no other service with a closed circuit, except one deploying for more than ten minutes, which it fails |
| CircuitBreaker.FifthCrashOpens | internal/reconciler/reconciler.go:191-207 | the fifth crash in a window opens the circuit for half an hour, no earlier one does |
| CircuitBreaker.FirstCrashStartsWindow | internal/reconciler/reconciler.go:170-185 | a crash outside any ten-minute window starts one, at one |
| CircuitBreaker.EarlyTickKeepsOpen | internal/reconciler/reconciler.go:291-293 | before its time an open circuit is left alone |
| CircuitBreaker.RequestsWrite | internal/services/services.go:403-463 | what start, restart, stop and reset write; reset keeps the retry time |
| ServiceManager.Manager.Deploy | internal/services/services.go:263-379 | queue place and slot are given back on every path; the row ends as specified for that way of ending, whichever statements fail; success only on a closed circuit |
| ServiceManager.Manager.DeployHoldingSlot | internal/services/services.go:289-378 | the part behind the slot |
| ServiceManager.Manager.DeployImage | internal/services/deploy_image.go:16-116 | the same for built images, with no look at the circuit |
| ServiceManager.Manager.DeployImageHoldingSlot | internal/services/deploy_image.go:46-115 | the part behind the slot |
| ServiceManager.OnlyDeployImageIgnoresCircuit | internal/services/deploy_image.go:16-113 | on an open circuit Deploy fails the row or leaves it alone, DeployImage sets it running exactly when its calls work |
| ServiceManager.DeployOutcome | internal/services/services.go:263-379 | with working statements, the row at the end of a deploy on a closed circuit, for every combination of calls that work or fail |
| ServiceManager.DeployImageOutcome | internal/services/deploy_image.go:16-116 | the same for built images on any circuit |
| CircuitBreaker.CountIsRecent | internal/reconciler/reconciler.go:170-185 | a count of n means the last n crashes lie within 600 seconds |
| CircuitBreaker.EightReachFive | internal/reconciler/reconciler.go:170-185 | eight crashes within 600 seconds reach five, whatever window they meet |
| CircuitBreaker.EightReachFiveInRuns | internal/reconciler/reconciler.go:240-255 | the same from every reachable state |
| CircuitBreaker.SevenNeedNot | internal/reconciler/reconciler.go:170-185 | seven crashes that stay below five |
| CircuitBreaker.OpenNeedsFiveFreshCrashes | internal/reconciler/reconciler.go:191-207 | an open circuit has a retry time and five counted crashes within 600 seconds since it was last closed |
| CircuitBreaker.NeverOpensAsWritten | internal/reconciler/reconciler.go:191-207 | for a service whose ID is not its tenant's, no run whose ticks bind the circuit statement as written ever has an open circuit |
| CircuitBreaker.WrittenTickIsUnwritten | internal/reconciler/reconciler.go:260-276 | each such tick is a tick whose circuit statements fail |
| CircuitBreaker.OnlyStartsRun | internal/reconciler/reconciler.go:308-326 | only starting or deploying sets a service to running; a tick that leaves it running found it running and counted no crash |
| Services.NamedBindingIsEvaluation | internal/reconciler/reconciler.go:191-206 | with the seven arguments the statement names, in order, it is the evaluation the model uses |
| Services.WrittenBindingFindsNoRow | internal/reconciler/reconciler.go:207 | with the eight arguments as written, in order, it leaves every row alone unless the service ID spells the time and is the tenant ID |
| CircuitBreaker.QuietOverdueTickCloses | internal/reconciler/reconciler.go:290-319 | in every run the first overdue tick that counts no crash closes the circuit, clears window, count and retry time, and stops the service |
| CircuitBreaker.RunsOpenOnlyThroughDeployImage | internal/services/deploy_image.go:16-113 | in runs of atomic operations, without DeployImage on an open circuit no service runs on an open circuit |
| CircuitRace.OpenRunIsLateWrite | internal/services/services.go:428-438 | with check and write apart, a service running on an open circuit without DeployImage was set running by an operation that read the circuit closed before |
| CircuitRace.RunsOpenLaterIff | internal/services/services.go:294-364 | while a circuit is open and stays open, the service can come to run if and only if such an operation is pending |
| CircuitRace.LateWriteIsReachable | internal/services/services.go:448-461 | a run with such a write |
| CircuitBreaker.AtMostTwoCrashesPerStart | internal/reconciler/reconciler.go:226-255 | counted crashes number at most twice the times the service was set to running |
| GarbageCollector.FindOrphanedContainers | internal/gc/gc.go:133-195 | both loops select as specified, in order |
| GarbageCollector.SelectionIsExact | internal/gc/gc.go:147-192 | selected if and only if listed, inspected, old enough and named by no row; an error skips |
| GarbageCollector.FindOrphanedVolumes | internal/gc/gc.go:197-224 | exactly the prefixed volumes counted in no row |
| GarbageCollector.Docker.CollectOnce | internal/gc/gc.go:79-111 | a pass removes exactly the condemned containers and volumes, nothing when listing fails |
| GarbageCollector.CondemnedIff | internal/gc/gc.go:133-195 | a pass removes a container if and only if both listings worked, one has it, it is 600 seconds old, no row names it and Docker removes it |
| GarbageCollector.CondemnedVolumeIff | internal/gc/gc.go:197-224 | and a volume if and only if it is listed, starts with "ah-db-", belongs to no row and can be removed |
| GarbageCollector.PassRemovesNeverTracked | internal/gc/gc.go:133-195 | if its report is true of the state it is made in, a container the pass removes is in no row then or ever after, in every interleaving |
| GarbageCollector.PassRemovesNoNeededVolume | internal/gc/gc.go:197-224 | the same for volumes |
| GarbageCollector.CollectedIsNeverTracked | internal/gc/gc.go:133-195 | in every interleaving with deploys, creations and deletions, a container about to be removed is in no row, then or ever after |
| GarbageCollector.CollectedVolumeIsNeverNeeded | internal/gc/gc.go:197-224 | the same for volumes, which have no age gate |
| GarbageCollector.DeadStays | internal/api/services.go:84-91 | past the age gate an untracked container stays untracked at every step |
| GarbageCollector.AgeGateIsTight | internal/gc/gc.go:24-26 | one second below the gate an untracked container can still be registered |
| DatabaseLifecycle.DeletedLeavesNothing | internal/databases/databases.go:361-401 | in every interleaving with deletions and restarts, whenever there is no row neither container nor volume exists |
| DatabaseLifecycle.ReadyHasBoth | internal/databases/databases.go:207-276 | a ready row belongs to a successful creation and lacks a resource only if a deletion is half done |
| DatabaseLifecycle.FailedCreateLeavesNothing | internal/databases/databases.go:207-276 | a failed creation leaves something only if a call left it or failed to clean it up, or a restart stranded it |
| DatabaseLifecycle.RestartStrandsIff | internal/databases/databases.go:69-105 | a restart whose calls work strands what a creation made only at certain points and with a row not both provisioning and recorded; there always, unless a deletion has begun removing |
| DatabaseLifecycle.RestartCanStrandFailedRow | internal/databases/databases.go:257-262 | a restart between writing failed and cleaning up leaves container and volume |
| DatabaseLifecycle.DeletableIff | internal/databases/databases.go:361-401 | in every reachable state some continuation deletes the row if and only if its container is recorded or the creation can still record it |
| DatabaseLifecycle.UnrecordedIsPermanent | internal/databases/databases.go:361-366 | otherwise no run deletes it, nor changes it or removes its volume once its creation has ended |
| DatabaseLifecycle.UnrecordedIsReachable | internal/databases/databases.go:207-211 | a failing volume leaves such a row |
| DatabaseLifecycle.RestartCanStrandRow | internal/databases/databases.go:82-87 | so does a restart before the container is recorded, with container and volume left behind |
| DatabaseLifecycle.RestartClearsIff | internal/databases/databases.go:69-105 | after a restart whose clean-up calls work a row is provisioning if and only if it was, unrecorded, and then it stays so in every run; other provisioning rows are failed and have nothing left |
| DatabaseLifecycle.RestartWrites | internal/databases/databases.go:69-105 | what a restart does to the row, the container and the volume, for every outcome of its calls |
| DatabaseQuota.RowsAreBounded | internal/databases/databases.go:126-205 | in every interleaving, with at most k creations between count and insert a tenant has at most 2 + k non-failed databases |
| DatabaseQuota.BoundIsReached | internal/databases/databases.go:126-205 | that many are reached for every k; two overlapping creations give four |
| DatabaseQuota.QuotaHoldsIff | internal/databases/databases.go:141-145 | the quota of three holds in all runs if and only if no two creations overlap there |
| DatabaseManager.ReservePort | internal/databases/databases.go:166-205 | at most five attempts; all before the last clashed; a reserved port was free at its scan and is held by nobody at its insert |
| DatabaseManager.ClashIsNew | internal/databases/databases.go:196-199 | a clash is due to a row that did not hold the port at the scan |
| DatabaseManager.Manager.Create | internal/databases/databases.go:190-276 | with the methods it calls, does what the machine's creation does alone, for all outcomes of its calls |
| DatabaseManager.Manager.Record | internal/databases/databases.go:228-246 | recording the container, with cleanup when the statement fails or the row is gone |
| DatabaseManager.Manager.AwaitReady | internal/databases/databases.go:249-276 | probe and final status, with cleanup on failure |
| DatabaseManager.Manager.Delete | internal/databases/databases.go:361-401 | does what the machine's deletion does alone |
| DatabaseManager.Manager.UpdateStatus | internal/databases/databases.go:403-422 | updates a row that is there and says whether it did |
| DatabaseManager.AloneIsRun | internal/databases/databases.go:207-401 | from any state, creation and deletion back to back are a run of the interleaved machine |
| DatabaseManager.CreatedIff | internal/databases/databases.go:207-276 | a creation from a given point succeeds if and only if its remaining calls do |
| DatabaseManager.DeleteUndoesCreate | internal/databases/databases.go:361-401 | in every reachable state, after a working creation the row goes if and only if the deletion's calls work, the stop aside, and both resources go with it |
| DatabaseManager.CreateOutcome | internal/databases/databases.go:190-276 | every way a creation alone can end, by the first call that fails: the row, the container and the volume it leaves |
| DatabaseManager.DeleteOutcome | internal/databases/databases.go:361-401 | every way a deletion alone can end |
| Ports.FindFreePort | internal/databases/databases.go:424-464 | the smallest port of the type's range that no row and no listener holds, or none exists |
| Ports.ScanIsSmallest | internal/databases/databases.go:436-463 | a scan takes the smallest port from 5432 to 6000, or 6379 to 7000, that no listener and no non-failed row holds |
| Ports.InsertRefusedIff | internal/db/migrations/state_006_databases_port_unique.sql:1 | an insert is refused exactly when a non-failed row holds the port |
| Ports.PortsAreDistinct | internal/db/migrations/state_006_databases_port_unique.sql:1 | in every interleaving non-failed rows hold distinct ports, from 5432 to 6000 for postgres and from 6379 to 7000 for redis |
| Ports.ExhaustionNeedsFiveRivals | internal/databases/databases.go:166-205 | each refusal is charged to a different other creation's insert between the scan and the refusal of that attempt; exhaustion takes five |
| Admission.TenantLock.Acquire | internal/builder/builder.go:138-146 | succeeds if and only if the tenant was free |
| Admission.TenantLock.Release | internal/builder/builder.go:148-152 | frees that tenant only |
| Admission.CountersAreExact | internal/builder/builder.go:67-80 | in every interleaving queues and semaphores hold exactly the jobs inside: at most 10 live builds, 3 building, and for each of the two service managers 20 queued and 5 deploying; the locked tenants are those of builds between acquire and release, one each |
| Admission.LimitsHold | internal/builder/builder.go:60-80 | in every interleaving at most 10 builds live, 3 building, and for builds and for requests 20 queued for deploying and 5 deploying |
| Admission.AdmittedIff | internal/builds/builds.go:187-197 | those limits, and one build per tenant, are the only reasons to refuse or to wait |
| Admission.OutcomesDecide | internal/builds/builds.go:231-259 | only a build that passed its guard is built, only one that worked deploys, and the lock is given back either way |
| Admission.AtMostTenDeploy | internal/services/services.go:46-51 | at most ten jobs deploy at once, builds and requests together |
| Admission.TenCanDeploy | cmd/ah/main.go:126-127 | ten is reached: builds and requests have a manager each |
| Admission.BuildsNeverMeetFullQueue | internal/services/deploy_image.go:24-30 | a build that comes to deploy always finds a place in its queue |
| Admission.NoDeadlock | internal/builds/builds.go:187-213 | while a job is alive some job can step, even if nothing times out |
| Admission.EverythingIsReturned | internal/services/services.go:272-287 | after the last submission runs are bounded, and when they stop all jobs are gone and every slot and lock is returned |
| BuildStatus.StatusOnlyAdvances | internal/builds/builds.go:223-267 | in every interleaving of run, cancellations and restart the status never moves back; failed is final |
| BuildStatus.TerminalRowsAreStamped | internal/builds/builds.go:78-91 | finished rows have finished_at, and a build starts at most once |
| BuildStatus.FailedEarlyIsNeverBuilt | internal/builds/builds.go:223-234 | a build that failed before the pending guard never reaches the builder |
| BuildStatus.RestartFailsInProgress | internal/builds/builds.go:78-91 | a restart fails and stamps exactly the builds in progress |
| BuildStatus.RestartEndsBuild | internal/builds/builds.go:78-91 | after it no build is ever in progress or deployed again, in any run |
| BuildStatus.StatementsWrite | internal/builds/builds.go:223-267 | what guard, final statement, full queue and cancellation write |
| BuildStatus.AttemptedIffBuilt | internal/builds/builds.go:242-273 | without a restart a deploy is attempted if and only if the builder succeeded and there is a deploy function |
| BuildStatus.DeployedIffAttemptWorks | internal/builds/builds.go:242-279 | without a restart the image is deployed if and only if it was built, there is a deploy function and its call worked |
| BuildStatus.StatusIsBuiltUnlessCancelled | internal/builds/builds.go:242-267 | with working statements and no restart a finished build reads succeeded if and only if it was built and no cancellation was written |
| BuildStatus.RowTellsTruthIff | internal/builds/builds.go:262-281 | then succeeded and deployed agree unless a built image's cancellation and deploy both worked, or neither did |
| BuildStatus.SucceededNeedNotDeploy | internal/builds/builds.go:273-275 | a run whose deploy fails and whose row reads succeeded |
| BuildStatus.CancelledBuildCanDeploy | internal/builds/builds.go:442-445 | a run that deploys a cancelled build |
| Migrations.Store.RunMigrations | internal/db/db.go:61-145 | for every listing order and every failure, of the preparation too, the databases and the result are those of the specification |
| Migrations.SortedIsCanonical | internal/db/db.go:76-78 | the order of the directory listing does not matter |
| Migrations.BeforeIff | internal/db/db.go:76-78 | the order is that of the first character that differs, a shorter name first |
| Migrations.RecordedWhereNamed | internal/db/db.go:84-98 | after any history over any files, the state database has recorded only .sql files starting with "state_", the metering database only those starting with "metering_" |
| Migrations.CompleteRunRecordsAll | internal/db/db.go:84-98 | a complete run from any databases has recorded every .sql file in the database its prefix names, so there is no other |
| Migrations.FileRunsOnItsDatabase | internal/db/db.go:111-140 | a file recorded has run its own script on that database, and touched no other; a failure changes nothing |
| Migrations.HistoryIsPrefix | internal/db/db.go:80-142 | after any runs each cut short anywhere, the recorded files are exactly a prefix of the sorted list, each schema is the replay of its own recorded files, and nothing behind a misnamed file is reached |
| Migrations.Converges | internal/db/db.go:80-142 | a run that completes after any history leaves exactly what one clean complete run leaves, each file applied once |
| Migrations.CompleteIsFinal | internal/db/db.go:101-109 | afterwards no run changes anything, whatever fails in it |
| Migrations.FaultlessRunCompletesIff | internal/db/db.go:89-142 | after any history a run without failures completes if and only if all .sql files name their database and both replays are accepted |
| Migrations.UpgradesConverge | internal/db/db.go:80-142 | across releases whose new files sort last in their database, the same convergence holds |
| Migrations.UpgradeIsInOrderIff | internal/db/db.go:76-109 | after two complete releases the files were applied in sorted order if and only if the old ones are a prefix of the new ones |

## Left out

- HTTP routing, JSON, headers, logging and request validation: plumbing.
- The Docker Engine and SQLite themselves: containers, volumes and rows are sets and maps whose operations may fail; inspection results are inputs.
- HMAC, bcrypt, AES-GCM, SHA-256 and random IDs: uninterpreted, with the assumptions above.
- Clocks: read once per operation, and within the deadline of its context; a reconciler tick reads up to three times.
- IdempotencyStore.Store.Find: the bypass for other methods, missing keys and the two excluded paths, the length and body-hash errors, and 1xx statuses are not modelled.
- CircuitBreaker.RunsOpenOnlyThroughDeployImage: operations are atomic here; CircuitRace has them interleaved.
- CircuitBreaker.AtMostTwoCrashesPerStart: a tick and a service operation each happen as one step, not interleaved with each other; containers are not part of these rows.
- ServiceManager.Manager.Deploy: the queue and semaphore are counters seen by one deploy; contention is the subject of Admission.
- DatabaseManager.Manager.Create: encryption and connection strings are left out, and other requests do not interfere here; interference is the subject of DatabaseLifecycle, Ports and DatabaseQuota.
- Start, Restart, Stop, ResetCircuitBreaker and tenant suspension are functions on the row, because each is one statement behind calls that may fail.
- Builds.runBuild and Builder.Build: modelled as state machines on values (Admission, BuildStatus), since what matters is how concurrent runs interleave; the class form shows the tenant lock only.
- The reconciler's database step, which marks a ready database unavailable when its container is gone: a simple status update.
- Service deletion's cleanup of containers by name, and build directory and image pruning.
- Build logs and their streaming: the code permits lost and repeated lines.
- The token-bucket rate limiter: the bucket belongs to golang.org/x/time/rate and is not part of this model.
