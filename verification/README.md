# Verified models of the platform layer

These Dafny modules model the parts of the backend whose behaviour cannot be read off one function body:
the concurrency and metering layer in `app/platform`, the consumer-contract walker in
`scripts/verify_consumer_contracts.py`, and a handful of list and map algorithms. For each of them they
prove what holds over every input, every run or every interleaving.

`dafny verify dfyconfig.toml` checks everything.

| module | models |
|---|---|
| `RedisClient` | the in-process Redis stand-in: a TTL map that purges lazily |
| `RedisConnect` | `get_redis` and `close_redis`: one client for concurrent callers, without a lock |
| `ApiBudget` | the monthly request meter, and workers racing between `can_spend` and `spend` |
| `CacheL2` | the durable key-value tier with its random purge |
| `CacheSwr` | the stale-while-revalidate cache: a single-flight protocol over two tiers |
| `CacheTiers` | the link between that protocol and the two stores |
| `CircuitBreaker` | the three-state breaker, with stragglers and probes |
| `RateLimit` | the sliding-window limiter with bulk eviction |
| `ContractVerifier`, `Json` | the path walk over a graph of JSON schemas |
| `CatalogWalk` | the page walk of the catalog indexer |
| `TcgCsv`, `Text` | the price index and its lookup |
| `DbTypes` | NUL stripping over JSON trees |
| `GradeTags` | tag cleaning |
| `BackupCodes` | one-time backup codes |
| `Wrappers` | `Option`, and time as a real number of seconds |

Where the source mutates an object, the model is a class or a method with a loop, proved against a function
of the old state; the laws are then lemmas about that function and about runs of it. Time is a real number
passed into every step. Each `await` is one step, so any other task, the clock or the environment can come
between two of them.

Outside calls are parameters of a step: whether a Redis or database call worked, whether a probe answered,
what a refresher returned, what a page of the catalog held, which purge ran, whether a hash matches.

## Where the code and its comments differ

The model follows the code.

- `app/platform/cache_swr.py:7-12`, `242-246` promise that only one worker refreshes at a time, that concurrent cold
  callers share one refresh, and that users never block on the upstream. Each fails, and exactly when is proved.
  Two holders: `CacheSwr.OverrunBreaksSingleFlight` and, exactly, `CacheSwr.TwoHoldersIff` and
  `CacheSwr.SecondHolderIff`; while every lock lasts there is one (`CacheSwr.AtMostOneHolder`). Two refreshes with every
  lock in time: `CacheSwr.ColdCallersMayRefreshTwice` at the first try, `CacheSwr.WaiterMayRefreshToo` after a wait, and,
  exactly, `CacheSwr.CallerRefreshesIff`. A caller that arrives and blocks while L2 holds a good row throughout:
  `CacheSwr.NullRefreshHidesL2` and, exactly, `CacheSwr.CallersBlockIff` and `CacheSwr.CoveredCallersBlockIff`.
- `app/integrations/tcgcsv.py:163-167` announces a five-minute back-off after an empty load. `fresh()` needs a
  non-empty map, so it takes effect only while an older index is there (`TcgCsv.Cache.FinishLoad`).
- `app/platform/rate_limit.py:17-19` caps the table at 10k keys; the test is made before an insertion, so it
  reaches 10,001 (`RateLimit.TableReachesItsBound`) and no more (`RateLimit.RefusalsAreDeserved`).
- `app/platform/redis_client.py:81-119`: `incrby`, `expire` and `ttl` see an expired row nobody has purged, and
  `delete` counts it. `RedisClient.CommandAgreesIff` says exactly when a command differs from a store whose keys
  vanish at expiry.
- `app/platform/circuit_breaker.py:120-138`: a threshold below 1 behaves as 1.
- `scripts/verify_consumer_contracts.py:103-117`: the bound of `_deref` does not bound `_branches`, so a schema
  that composes itself ends in RecursionError (`ContractVerifier.LoopNeverFinishes`).
- `scripts/verify_consumer_contracts.py:120-133` sees a field through any branch only while no earlier branch has
  the same name (`ContractVerifier.GreedyStepMissesADeclaredField`); `ContractVerifier.MissingVerdictIsWrongIff`
  says exactly when a "missing" is wrong.
- `app/platform/api_budget.py:34-36`: the counter lives 35 days from its first increment, wherever in the month
  that falls.

## Model

| member | source | states |
|---|---|---|
| `CacheSwr.ResultsAreGenuine` | `app/platform/cache_swr.py:204-227` | in every interleaving a delivered value was produced by a completed refresh of the key; one served from a tier was written there at most its stale TTL earlier; the first read starts a background refresh exactly when what it serves is past its fresh window |
| `CacheSwr.CallersGetWhatTheyMade` | `app/platform/cache_swr.py:132-270` | in every run a foreground call that returns None has waited and run its last resort, and none of its refreshes produced a value; one that ends uncancelled and whose refresh produced a value returns just that value |
| `CacheSwr.ReadersTakeWhatTheyFind` | `app/platform/cache_swr.py:204-227` | a read of a tier, first or in the wait loop, ends the call if and only if it works and finds a live envelope that is not null, and then with that value |
| `CacheSwr.AbortedIffCancelled` | `app/platform/cache_swr.py:132-141` | in every run a task ends aborted, releasing first when it holds the lock, if and only if it was cancelled before it was done |
| `CacheSwr.VetoedRunnersNeverRefresh` | `app/platform/cache_swr.py:153-165` | in every run a background runner ever tries the lock or refreshes if and only if its gate let it through |
| `CacheSwr.NobodyLeavesALock` | `app/platform/cache_swr.py:139-141` | where releases work, however refreshes end, a lock row is there only while the task that set it is at work |
| `CacheSwr.CallsAreBounded` | `app/platform/cache_swr.py:204-270` | a foreground call refreshes at most twice and starts at most one background refresh; a wait round begins only before the hard deadline, each at least 0.2 s after the last, so at most 75 rounds and 312 awaits with the default cap |
| `CacheSwr.UnlockedRefreshIsLastResort` | `app/platform/cache_swr.py:129-141` | a refresh without the lock is always the last resort of a caller that has waited |
| `CacheSwr.AtMostOneHolder` | `app/platform/cache_swr.py:82-141` | while holders finish before their lock runs out, at most one lock-holding refresh is in flight, and of any two refreshes one is a last resort |
| `CacheSwr.RunKeepsLockClaimed` | `app/platform/cache_swr.py:82-102` | along such a run the lock row is always its holder's own, although the release deletes unconditionally |
| `CacheSwr.RunKeepsInv` | `app/platform/cache_swr.py:45-270` | every step by any task, the clock or the environment keeps the protocol invariant: task histories, entries' provenance, and L2 serving its last unexpired write |
| `CacheSwr.OverrunBreaksSingleFlight` | `app/platform/cache_swr.py:90-94` | for every positive lock TTL, a holder that outlives it lets a second holder in |
| `CacheSwr.TwoHoldersIff` | `app/platform/cache_swr.py:82-102` | in every run two tasks ever hold the lock if and only if a working attempt at it finds no live row while another holds it |
| `CacheSwr.SecondHolderIff` | `app/platform/cache_swr.py:82-141` | in every run in which L1 does not lose the lock row under a holder, two tasks ever hold the lock if and only if a working attempt at it comes while a holder is still at work past its own lock's expiry |
| `CacheSwr.ColdCallersMayRefreshTwice` | `app/platform/cache_swr.py:229-240` | for every positive stale TTL and lock TTL from 0 on, a run in which every lock lasts and two cold callers both refresh under the lock |
| `CacheSwr.WaiterMayRefreshToo` | `app/platform/cache_swr.py:247-270` | for every positive stale TTL and lock TTL from 0 on, a run in which every lock lasts and a caller that has waited refreshes as a last resort while both tiers hold the live value another caller has just stored |
| `CacheSwr.CallerRefreshesIff` | `app/platform/cache_swr.py:229-270` | in every run a task comes to a refresh of its own if and only if in one of its uncancelled steps its first try at the lock works and finds no live row, or a poll of the lock fails, finds no live row, or comes at or after the deadline |
| `CacheSwr.ColdCallerRefreshesIff` | `app/platform/cache_swr.py:229-245` | the first try: with locks in time, a working one starts a refresh if and only if no live lock row is there, else the caller sleeps; so it sleeps whenever anybody holds the lock |
| `CacheSwr.CallersBlockIff` | `app/platform/cache_swr.py:204-231` | in every run a task comes to lock, wait or refresh in the foreground if and only if its own first read of L1 finds a live null envelope, or its own first read of L2 fails or finds nothing live and non-null |
| `CacheSwr.CoveredReaderBlocksIff` | `app/platform/cache_swr.py:45-61` | one step: while L2 holds an unexpired non-null row, a reader turns cold if and only if its L1 read finds a live null envelope |
| `CacheSwr.CoveredCallersBlockIff` | `app/platform/cache_swr.py:204-227` | whole runs: through a stretch covered by L2, whatever L1 losses, purges, competing stores and null refreshes happen, a task not blocked at its start ever locks, waits or refreshes in the foreground if and only if its own first L1 read finds a live null envelope |
| `CacheSwr.CoveredCallersNeverBlock` | `app/platform/cache_swr.py:204-227` | so nobody blocks in such a stretch when no null envelope is in L1 or about to be written there at its start and no refresh in it returns None, whatever refreshers returned before |
| `CacheSwr.L1ServedCallersBlockIff` | `app/platform/cache_swr.py:204-227` | through a stretch in which L1 holds a live non-null envelope and answers, nobody blocks but a task that was past L1 at its start, and it if and only if its read of L2 comes back empty |
| `CacheSwr.NullRefreshHidesL2` | `app/platform/cache_swr.py:64-79` | after a run without null refreshes there is a covered stretch in which a caller arrives, finds the null envelope of a background refresh, and ends up blocked |
| `CacheTiers.L1StepIsCommand` | `app/platform/cache_swr.py:45-102` | every await on L1 is one command of the modelled Redis store, on the key or its lock row; a task misses when the reply is None and holds the lock if and only if NX succeeded |
| `CacheTiers.L2StepIsOperation` | `app/platform/cache_swr.py:52-79` | every await on L2 is one operation of the modelled table, and a read that finds nothing sends the task down the cold path |
| `CacheTiers.EnvironmentIsOperations` | `app/platform/cache_l2.py:91-94` | losing an L1 row and purging L2 are what they are in the stores |
| `CircuitBreaker.EveryRunReadsOffTheLog` | `app/platform/circuit_breaker.py:114-140` | in every interleaving `failures` is the trailing run of failures in the outcome log, and `opened_at` the time of the latest failure exactly when that run reached the threshold; at most one probe is in flight, and the lock is held exactly then |
| `CircuitBreaker.AdmissionReadsOffTheLog` | `app/platform/circuit_breaker.py:155-182` | at the end of every run a caller is let in as an ordinary call if and only if the failures that end the log are none or below the threshold; as the probe if and only if they reach it, the latest is a cooldown old and no probe is inside; else refused, with the time the cooldown still lasts or 0 |
| `CircuitBreaker.StateIsReadOffTheLog` | `app/platform/circuit_breaker.py:155-181` | the same from any state that reads off its log, step by step |
| `CircuitBreaker.ProbesAreSpaced` | `app/platform/circuit_breaker.py:144-181` | while no success comes out, an open breaker stays open and admits only probes; with c of them cancelled, the k-th starts at least k - c cooldowns after it opened, so at most floor(D / cooldown) + c start in D seconds |
| `CircuitBreaker.CancelledProbesAreNotSpaced` | `app/platform/circuit_breaker.py:162-175` | the c is needed: a cancelled probe records nothing, so the next probe may follow at the same instant |
| `CircuitBreaker.RetryAfterIsExact` | `app/platform/circuit_breaker.py:103-109` | the retry time a refused caller is told is exactly when the cooldown ends |
| `CircuitBreaker.CircuitBreaker.RecordFailure` | `app/platform/circuit_breaker.py:120-138` | the method as it runs: count, open or restart the clock |
| `CircuitBreaker.CircuitBreaker.Enter` | `app/platform/circuit_breaker.py:155-167` | who is admitted, as an ordinary call or as the probe, and who is refused with what retry time |
| `CircuitBreaker.CircuitBreaker.Leave` | `app/platform/circuit_breaker.py:166-182` | what each way of leaving records, and that a probe frees the lock, cancelled or not |
| `CircuitBreaker.Registry.GetBreaker` | `app/platform/circuit_breaker.py:190-208` | a name has one breaker for ever; its first caller configures it |
| `RateLimit.SlidingWindow.Hit` | `app/platform/rate_limit.py:46-73` | the method refines the specification: evict, prune the key's deque, accept and append or refuse |
| `RateLimit.SlidingWindow.Evict` | `app/platform/rate_limit.py:53-61` | the eviction loop is the trimmed table |
| `RateLimit.SlidingWindow.Reset` | `app/platform/rate_limit.py:107-111` | a reset forgets every key |
| `RateLimit.SortSorts` | `app/platform/rate_limit.py:56-59` | the eviction order is a permutation of the keys, ascending by newest hit |
| `RateLimit.EvictsTheOldest` | `app/platform/rate_limit.py:53-61` | an eviction removes exactly 1,000 keys, none with a newer last hit than a key kept, and the kept keys lose nothing |
| `RateLimit.HitRefinesFullLog` | `app/platform/rate_limit.py:48-73` | for a key no eviction or reset took out of the table, a hit is accepted if and only if fewer than `limit` of all its accepted hits lie in the closed window ending now |
| `RateLimit.RefusalsAreDeserved` | `app/platform/rate_limit.py:50-73` | with any evictions and resets a refused hit has at least `limit` truly accepted hits in its window; the table never exceeds 10,001 keys |
| `RateLimit.TableReachesItsBound` | `app/platform/rate_limit.py:53-66` | one hit on each of 10,001 keys leaves 10,001 keys in the table |
| `RateLimit.WindowsAreLimited` | `app/platform/rate_limit.py:46-73` | every closed window of every run holds at most `limit` accepted hits of a key not forgotten |
| `RateLimit.OutOfOrderReadingsOverfill` | `app/platform/rate_limit.py:48-50` | a what-if, since all callers run on one event loop: were `hit` called from several threads, readings that reach the lock out of order would overfill a window |
| `ApiBudget.OvershootIsBounded` | `app/platform/api_budget.py:85-110` | with at most k workers between the start of the check and the spend, each asking at most m, no interleaving over any number of months, also with rollovers between reading a key and the command on it, passes `soft_ceiling + (k-1)*m`, nor the hard limit when that fits in the headroom |
| `ApiBudget.SpendsWithinTheRatio` | `app/platform/api_budget.py:68-70` | under a positive limit a request is let through if and only if the count with it stays within `limit * ratio`; without a limit every request is |
| `ApiBudget.CeilingIsWholePart` | `app/platform/api_budget.py:68-70` | the soft ceiling is the whole part of `limit * ratio` |
| `ApiBudget.AnswerIsCanSpend` | `app/platform/api_budget.py:85-96` | the answering step of the race is `can_spend` |
| `ApiBudget.CountAndArmAreSpend` | `app/platform/api_budget.py:98-107` | the counting step and the arming step it calls for are `spend` |
| `ApiBudget.OvershootIsReached` | `app/platform/api_budget.py:85-110` | the bound is attained |
| `ApiBudget.CurrentRowIsLive` | `app/platform/api_budget.py:98-107` | a month's counter cannot expire inside its month, between INCRBY and EXPIRE included |
| `ApiBudget.CountKeepsRows` | `app/platform/api_budget.py:98-103` | a spend on the current month's key adds exactly n to its count, one on an earlier key adds nothing to it, and every counter stays alive through its month |
| `ApiBudget.GrantBooked` | `app/platform/api_budget.py:85-94` | what `can_spend` lets through was reserved (a key read before a rollover) or fits under the ceiling beside all the others in flight |
| `ApiBudget.TickCounts` | `app/platform/api_budget.py:39-40` | a new month starts from zero; within a month time does not change the count |
| `ApiBudget.FirstSpendRestartsTheCount` | `app/platform/api_budget.py:98-110` | a spend on an absent or expired counter leaves exactly n with a live TTL, although the increment kept the dead expiry |
| `ApiBudget.ApiBudget.Used` | `app/platform/api_budget.py:72-80` | what the meter reads |
| `ApiBudget.ApiBudget.CanSpend` | `app/platform/api_budget.py:85-96` | when a spend is let through |
| `ApiBudget.ApiBudget.Spend` | `app/platform/api_budget.py:98-110` | the store after an increment and, on a first write, the expiry |
| `RedisClient.CommandAgreesIff` | `app/platform/redis_client.py:48-128` | a command answers and ends up like a store whose keys vanish at expiry if and only if it does not meet an expired row that is still there |
| `RedisClient.IncrByAgreesIff` | `app/platform/redis_client.py:81-97` | `incrby` always returns the ideal total, and leaves the ideal store if and only if the row is not dead |
| `RedisClient.IncrementsGoOn` | `app/platform/redis_client.py:84-96` | an increment goes on from a live number, and from 0 when the live text is no number or no live row is there |
| `RedisClient.DeleteCount` | `app/platform/redis_client.py:121-128` | `delete` returns the ideal count if and only if it removes no dead row |
| `RedisClient.RunRefinesIdeal` | `app/platform/redis_client.py:48-128` | over whole runs in which no counter command meets a dead row, under a clock that never goes back, the lazy store and the ideal one give the same answers but for the counts of deletes, and those too if and only if no delete removes a dead row |
| `RedisClient.KeyValueRunRefinesIdeal` | `app/platform/redis_client.py:48-79` | runs of get, set, setex, NX and delete need no such hypothesis; the counts of deletes agree under the same condition |
| `RedisClient.InMemoryRedis.Get` | `app/platform/redis_client.py:48-57` | reads, and purges an expired row |
| `RedisClient.InMemoryRedis.Set` | `app/platform/redis_client.py:59-75` | NX succeeds exactly when a get would have returned None |
| `RedisClient.InMemoryRedis.SetEx` | `app/platform/redis_client.py:77-79` | a set with an expiry that always succeeds |
| `RedisClient.InMemoryRedis.IncrBy` | `app/platform/redis_client.py:81-97` | restarts a dead row from zero and keeps its expiry |
| `RedisClient.InMemoryRedis.Expire` | `app/platform/redis_client.py:102-109` | sets the expiry of any row, dead ones included |
| `RedisClient.InMemoryRedis.Ttl` | `app/platform/redis_client.py:111-119` | -2, -1 or the whole seconds left |
| `RedisClient.InMemoryRedis.Delete` | `app/platform/redis_client.py:121-128` | removes exactly the named keys and counts each once, duplicates in the call included |
| `RedisConnect.CallersConverge` | `app/platform/redis_client.py:147-175` | in any stretch in which no close ends, all calls that return get one client, whatever their own probes said |
| `RedisConnect.ClientsAreDeserved` | `app/platform/redis_client.py:160-174` | every real client handed out was made by a caller whose probe Redis answered, every stand-in by one whose probe failed or that found no Redis package |
| `RedisConnect.Connection.Begin` | `app/platform/redis_client.py:156-164` | up to its probe a caller takes the client there is, or installs the stand-in when there is no Redis package |
| `RedisConnect.Connection.Finish` | `app/platform/redis_client.py:165-175` | a caller installs its candidate only if nobody else has, and never returns without a client |
| `RedisConnect.Connection.Forget` | `app/platform/redis_client.py:178-187` | a close that ends forgets whatever client is there |
| `CacheL2.GetAnswersLastWriteIff` | `app/platform/cache_l2.py:39-99` | for every run, with clock readings in any order, a get answers the last write of its key that reached the database while that is unexpired, if and only if it is not the case that the write is live now and a purge at or after it read at least its expiry |
| `CacheL2.GetAnswersLastWrite` | `app/platform/cache_l2.py:39-99` | so it always does when no purge has read a clock ahead of the get |
| `CacheL2.TableHoldsLastWrites` | `app/platform/cache_l2.py:68-112` | the table holds the last write of a key exactly until a purge sweeps it |
| `CacheL2.TableShowsLastWrites` | `app/platform/cache_l2.py:68-112` | seen from a clock no purge is ahead of, the unexpired rows are exactly the last accepted writes |
| `CacheL2.PurgesAreInvisibleIff` | `app/platform/cache_l2.py:91-94` | two runs that differ only in purges answer a get alike if and only if, where the last write is live, both swept it or neither did |
| `CacheL2.PurgesAreInvisible` | `app/platform/cache_l2.py:91-94` | so they do when no purge has read a clock ahead of the get |
| `CacheL2.PurgesShowWhenTheClockStepsBack` | `app/platform/cache_l2.py:91-94` | an instance where they do not: a purge that read 20 shows in a get that reads 5 |
| `CacheL2.KvCache.Set` | `app/platform/cache_l2.py:68-99` | an accepted write upserts its row, then purges; a refused or failed one changes nothing |
| `CacheL2.StoredThenRead` | `app/platform/cache_l2.py:70-77` | a value of at most 24 MiB under a key and a positive TTL is read back until it expires; anything else is refused and changes nothing |
| `ContractVerifier.VerdictsAreRight` | `scripts/verify_consumer_contracts.py:162-200` | "present" implies the field is declared through some branch; "unverifiable" implies an opaque or unresolvable schema on the walk; an undeclared field with none is "missing" |
| `ContractVerifier.VerdictIsUnverifiableIff` | `scripts/verify_consumer_contracts.py:165-192` | the verdict is "unverifiable" if and only if the root is opaque or the walk looks a name up in a schema that is |
| `ContractVerifier.PathDenotes` | `scripts/verify_consumer_contracts.py:171-199` | a dotted path denotes its segments in order, each name and then its arrays, for any names; exactly one leading `data` is dropped |
| `ContractVerifier.PartDenotes` | `scripts/verify_consumer_contracts.py:178-199` | a part that is a name with n pairs of brackets denotes that field and then n elements; brackets alone n elements, and the empty part nothing |
| `ContractVerifier.EveryPartIsASegment` | `scripts/verify_consumer_contracts.py:178-182` | every part is a name followed by pairs of brackets |
| `ContractVerifier.OneWayVerdictsDecide` | `scripts/verify_consumer_contracts.py:162-200` | where branches agree on the path and nothing opaque is met, "present" if and only if declared |
| `ContractVerifier.MissingVerdictIsWrongIff` | `scripts/verify_consumer_contracts.py:162-200` | a field reported "missing" is declared after all if and only if at some schema on the walk the definition taken hides another that declares the rest of the path |
| `ContractVerifier.MissingIsWrongIff` | `scripts/verify_consumer_contracts.py:120-144` | the same for any walk of hops |
| `ContractVerifier.MissingIsUndeclared` | `scripts/verify_consumer_contracts.py:120-144` | in particular, where branches agree on every hop, "missing" implies that no choice of branches declares the path |
| `ContractVerifier.PresentIsDeclared` | `scripts/verify_consumer_contracts.py:175-200` | a walk that ends "present" followed declared hops |
| `ContractVerifier.UnverifiableMeetsOpaque` | `scripts/verify_consumer_contracts.py:147-192` | a walk that ends "unverifiable" met an opaque schema |
| `ContractVerifier.GreedyStepMissesADeclaredField` | `scripts/verify_consumer_contracts.py:125-133` | a union whose second model declares `a.b` and whose first has an `a`: the verdict is "missing" |
| `ContractVerifier.BranchesAreAllCompositions` | `scripts/verify_consumer_contracts.py:103-117` | `_branches`, when it returns, lists exactly the schemas any number of compositions away |
| `ContractVerifier.BranchesInOrder` | `scripts/verify_consumer_contracts.py:111-117` | the schema itself comes first, then what is under `anyOf`, `oneOf` and `allOf` |
| `ContractVerifier.ComposesIff` | `scripts/verify_consumer_contracts.py:112-116` | the compositions of a schema are what the elements of its three lists resolve to |
| `ContractVerifier.DefinesIs` | `scripts/verify_consumer_contracts.py:125-143` | a field is defined by the property of that name, or, when none has it, by an object under `additionalProperties`; an element by non-null `items`; nothing else defines either |
| `ContractVerifier.OpaqueIs` | `scripts/verify_consumer_contracts.py:147-159` | opaque is what is no object, and an object type none of whose six structural members holds anything |
| `ContractVerifier.RaisesFor` | `scripts/verify_consumer_contracts.py:91-113` | a reference that is no text raises AttributeError, a composition list that is a true or non-zero scalar TypeError, and nothing else raises |
| `ContractVerifier.BranchesFinishIff` | `scripts/verify_consumer_contracts.py:103-117` | on well-formed schemas it returns if and only if no composition chain is as long as the frames left |
| `ContractVerifier.BranchesFailDeep` | `scripts/verify_consumer_contracts.py:103-117` | on well-formed schemas it returns or raises RecursionError, nothing else |
| `ContractVerifier.SelfCompositionNeverFinishes` | `scripts/verify_consumer_contracts.py:103-117` | a well-formed schema that composes itself raises RecursionError under every recursion limit |
| `ContractVerifier.LoopNeverFinishes` | `scripts/verify_consumer_contracts.py:103-117` | the document `{"a": {"anyOf": [{"$ref": "#/a"}]}}` is such a case |
| `ContractVerifier.ResolveField` | `scripts/verify_consumer_contracts.py:162-200` | the loops over parts, brackets and arrays compute the walk of the path |
| `ContractVerifier.TakePart` | `scripts/verify_consumer_contracts.py:175-199` | one dotted part advances the walk by its name and its brackets |
| `ContractVerifier.DerefLoop` | `scripts/verify_consumer_contracts.py:80-100` | the bounded `$ref` loop |
| `ContractVerifier.DerefIs` | `scripts/verify_consumer_contracts.py:80-100` | `_deref` finds the object that at most 20 references lead to, each `#/` and a path of keys into the document, and stops early only at what is no reference |
| `ContractVerifier.SplitJoins` | `scripts/verify_consumer_contracts.py:94` | the parts contain no separator and join back to the text |
| `ContractVerifier.JoinSplits` | `scripts/verify_consumer_contracts.py:94` | parts without the separator are read back from their joined text |
| `CatalogWalk.IndexGame` | `scripts/index_catalog_hashes.py:174-230` | the loop stops after the least number of pages at which the declarative stop condition holds, with the counts of exactly those pages |
| `CatalogWalk.FetchPage` | `scripts/index_catalog_hashes.py:190-203` | up to three attempts: the cards of the first non-empty one, the last page from the first total |
| `CatalogWalk.PageYields` | `scripts/index_catalog_hashes.py:192-203` | of three attempts, each made only while the earlier ones found no cards, a page yields the cards of the one that found some and the first total reported |
| `CatalogWalk.TerminatesIff` | `scripts/index_catalog_hashes.py:180-212` | it terminates if and only if `max_pages` is set, or some page reports a total, or three pages in a row stay empty |
| `CatalogWalk.FinitelyManyPagesTerminate` | `scripts/index_catalog_hashes.py:205-211` | finitely many non-empty pages are enough |
| `CatalogWalk.CoversTheCatalog` | `scripts/index_catalog_hashes.py:182-199` | without `max_pages`, every page through one past ceil(total / page_size) is tried, unless three in a row stayed empty |
| `CatalogWalk.TriesNoFurther` | `scripts/index_catalog_hashes.py:182-199` | once a total is known no page further than two past total // page_size is tried |
| `CatalogWalk.CountsConserve` | `scripts/index_catalog_hashes.py:214-217` | indexed + skipped + failed is the number of cards on the pages tried |
| `CatalogWalk.ProcessCards` | `scripts/index_catalog_hashes.py:256-281` | the comprehensions over one page compute its counts, which add up to its cards |
| `CatalogWalk.CountsArePositions` | `scripts/index_catalog_hashes.py:267-281` | skipped is the number of positions whose id is already indexed, indexed of the others that yield a hash, failed of the others that do not |
| `CatalogWalk.RunCounts` | `scripts/index_catalog_hashes.py:214-217` | the counts of a run are those numbers over all the pages tried |
| `TcgCsv.NameIndex.MergeGroup` | `app/integrations/tcgcsv.py:175-211` | the merge adds the group's qualifying price rows in order, first write winning |
| `TcgCsv.LoadIsScan` | `app/integrations/tcgcsv.py:175-211` | after any groups each key holds the first qualifying row in download order, keys in the order of those rows |
| `TcgCsv.LookupIsScan` | `app/integrations/tcgcsv.py:52-68` | a lookup answers what scanning every downloaded row would |
| `TcgCsv.LookupFindsTokens` | `app/integrations/tcgcsv.py:52-68` | None exactly when the query is blank or no key contains every token; otherwise the row of such a key, exact hits included |
| `TcgCsv.LookupPrefersExactThenEarliest` | `app/integrations/tcgcsv.py:57-67` | an exact hit wins, and without one the earliest key containing every token |
| `TcgCsv.QueryIs` | `app/integrations/tcgcsv.py:55-62` | a query is looked up by the tidy inner part of its lower-case form, cut into the words of that |
| `TcgCsv.ProductsAre` | `app/integrations/tcgcsv.py:180-188` | a product is known by the last row of its id, under its trimmed name |
| `TcgCsv.EntriesFollowRows` | `app/integrations/tcgcsv.py:192-211` | price rows give entries in order: one for a known product with a name, keyed by it in lower case, none otherwise |
| `TcgCsv.Cache.Lookup` | `app/integrations/tcgcsv.py:52-68` | the method is the lookup function of the index |
| `TcgCsv.Cache.FinishLoad` | `app/integrations/tcgcsv.py:156-171` | the swap; after an empty load the old index stays, fresh for five minutes only if there is one |
| `Text.StripIs` | `app/integrations/tcgcsv.py:55` | `strip` leaves one contiguous part of the text, tidy at both ends, with only white space around it |
| `Text.WordsAre` | `app/integrations/tcgcsv.py:62` | `split` cuts the text into its maximal runs without white space, in order |
| `DbTypes.StripLeavesNoNul` | `app/db/types.py:46-65` | no NUL is left in any key or string, and every object is a dict |
| `DbTypes.StripIsIdentityIff` | `app/db/types.py:46-65` | a document is unchanged if and only if it holds no NUL |
| `DbTypes.StripIsIdempotent` | `app/db/types.py:46-65` | stripping twice is stripping once |
| `DbTypes.StripKeepsShape` | `app/db/types.py:54-65` | scalars and list lengths stay and texts stay texts; an object's keys are exactly the stripped keys, the last colliding member winning |
| `DbTypes.StripTextIs` | `app/db/types.py:54-55` | every NUL goes and every other character stays as often as it was |
| `DbTypes.StripTextParts` | `app/db/types.py:54-55` | stripping a concatenation concatenates the stripped parts, so what is left keeps its order |
| `GradeTags.CleanTagsLoop` | `app/schemas/grade.py:35-56` | the loop with its `seen` set and early break returns the first 12 case-insensitively distinct candidates |
| `GradeTags.CleanTagsAreClean` | `app/schemas/grade.py:35-56` | at most 12 tags, trimmed, at most 24 characters, no control characters, distinct ignoring case; cleaning again changes nothing |
| `GradeTags.CleanTagsCover` | `app/schemas/grade.py:49-56` | unless 12 tags are kept, every non-empty cleaned input is represented, ignoring case, by a kept tag |
| `GradeTags.FirstsKeepKeys` | `app/schemas/grade.py:49-53` | before the cap of 12, dropping duplicates loses no tag, ignoring case |
| `GradeTags.CleanIs` | `app/schemas/grade.py:46` | cleaning one text gives a clean tag or nothing, and leaves a clean tag alone |
| `GradeTags.LongTagsAreCut` | `app/schemas/grade.py:46` | a cleaned text of at most 24 characters is kept whole, of a longer one its first 24, trimmed again |
| `GradeTags.ControlsAre` | `app/schemas/grade.py:20` | the characters removed, by code point |
| `BackupCodes.ConsumeRemovesEarliest` | `app/auth/mfa.py:136-150` | a code is accepted if and only if some hash matches; then the earliest match, and only it, is removed and the order kept |
| `BackupCodes.CleanedIs` | `app/auth/mfa.py:146` | a code is trimmed and lower-cased, and exactly its spaces are dropped |
| `BackupCodes.NothingToConsume` | `app/auth/mfa.py:144-145` | no hashes, or no code, accept nothing and change nothing |
| `BackupCodes.CodesAreUsedUp` | `app/auth/mfa.py:136-150` | over any run of attempts a code, in all spellings that come down to the same cleaned code, is accepted at most as often as hashes matched it, and successes plus remaining hashes equal the original count |

## Hypotheses

- `CacheSwr.AtMostOneHolder`: a holder finishes within its lock TTL, and L1 does not lose the lock row under it.
- `CacheSwr.SecondHolderIff`: L1 does not lose the lock row under a holder; `CacheSwr.TwoHoldersIff` needs nothing.
- `CacheSwr.CoveredCallersBlockIff`, `CacheSwr.L1ServedCallersBlockIff`: the tier in question answers its reads
  throughout the stretch; `CacheSwr.CallersBlockIff` needs nothing.
- `RateLimit`: clock readings reach the lock in order. `hit` never awaits and is called from one event loop.
- `ApiBudget`: a positive limit, a ratio that is not negative, months of at most 31 days, a reachable store.
- `RedisClient`: each command reads the clock once, and the clock does not go back between commands.
- `TcgCsv.LookupFindsTokens`: `str.lower` gives the empty text for the empty text and for no other.

## Left out

- ContractVerifier.BranchesFinishIff: assumes well-formed schemas; on malformed ones the model still follows the errors Python raises, but the lemma does not say which comes first.
- CacheSwr.AtMostOneHolder: a `SET` that reaches the server but whose reply is lost leaves a lock without an owner; the model treats a raising call as not done.
- CacheSwr.ResultsAreGenuine: encoding and decoding the envelope is taken to round-trip, so malformed envelopes do not occur; L1 is one shared store, as it is with a Redis server, not one dict per instance.
- ApiBudget.OvershootIsBounded: a Redis error lets a request through uncounted; the bound is about a reachable store.
- CatalogWalk.IndexGame: takes a walk that ends, which `CatalogWalk.TerminatesIff` characterises; a fetch or database call that raises ends the run and is not modelled, nor is a page size below 1.
- TcgCsv.LookupFindsTokens: `lower` is a parameter, not the Unicode table.
- Arithmetic on time and on `soft_ratio` is over the reals; float rounding is not modelled.
- `verify`, `_success_schema` and `_required_request_fields`: report assembly around `resolve_field`.
- JSON Pointer escapes, which `_deref` does not decode, and query-string cleaning.
- `build_pagination`: clamping and one ceiling division.
- `_ensure_loaded`'s fetch loop, row cap and CSV parsing; `_f` rounding of prices.
- `index_game_by_set`, `_hash_one`, `_db_with_retry` and the upsert statement.
- `_client_key`, the FastAPI dependency around `hit`, and `threading.Lock` itself.
- Password hashing: a deterministic predicate on a code and a hash.
- ORM models, routers, providers, configuration and observability.
