# LruCache: a verified model

This project models the `LruCache` class of `lru-cache.mjs`. Each instance is a named in-memory cache. It wraps one store from the `lru-cache` package, which is bounded by `max`, evicts least recently used entries and expires entries by time-to-live. It counts hits and misses, and it holds two optional handles for periodic maintenance: clearing the store and pruning stale entries. A process-wide registry (`static caches`) maps each name to its instance and refuses a name that is already taken.

Structure, one module per concern:

- `Wrappers` (wrappers.dfy): `Option` for a null/undefined JavaScript value, `Result` for a thrown error.
- `Options` (options.dfy): the three option sections, the defaults, and the field-wise merge of a caller's overrides onto the defaults.
- `NativeStore` (native_store.dfy): the `lru-cache` store as an abstract value. It has a map from key to entry (value, start time, time-to-live), a recency order with the least recently used key first, and the bound `max`. Its operations `Set`, `Get`, `PurgeStale` and `Clear` are pure functions, and time `now` (milliseconds) is an explicit parameter. An entry is stale when its time-to-live is non-zero and more than that many milliseconds have passed since its start. A `get` that finds a stale entry deletes it, and returns its value only when `allowStale` is set.
- `Cache` (lru_cache.dfy): class `LruCache` with the mutable fields `cache`, `stats`, `periodicClearingId` and `periodicPruningId`, and class `Registry`, which owns the name → slot map. A slot is `Reserved` from line 93 until the instance is attached at line 101. If the package refuses the merged store options at line 98, construction throws and the name stays reserved without an instance. After that, `getOptions` and `getStatus` fail on that slot, because reading `.lruCache.options` of `{}` is a TypeError.
- `Scenarios` (scenarios.dfy): the scenarios of `__tests__/lru-cache-tests.mjs`, each as a method whose postcondition is what the test asserts.

A scheduler handle is an opaque `Task(token, schedule)`. What `scheduleTask` does is passed in as a parameter, a `SchedulerReply`: either a token or a throw, since it throws on a schedule it cannot parse. A handle being present is the task's "scheduled" state. When an `autoStart` task is refused during construction, the constructor throws after line 101 attached the instance: the name stays taken, the instance stays listed, and the pruning task is not started if clearing already threw.

Where the design description and the code differ, the model follows the code:

- `get` takes `(key, value, options)` and ignores `value`. So the tests' `get('p1', { allowStale: true })` reads with default options (`Scenarios.PeriodicPruning`, `Scenarios.PeriodicClearing`).
- The miss in the "multiple caches" test is `get('a1')` before the first put.
- A failed store construction leaves the name reserved.
- `put` and `get` do not check keys or values for null.

## Model

| member | source | states |
|---|---|---|
| `Options.MergeFieldwise` | lru-cache.mjs:95-96 | overriding nothing keeps the base options; for each of the nine fields (schedule, autoStart, running of both periodic sections; max, ttl, updateAgeOnGet) a given value replaces the base's and an undefined one is inherited |
| `Options.AsOverrides` | lru-cache.mjs:89-96 | a complete options object given as overrides yields itself, whatever the base |
| `Options.OmittedOverridesGiveDefaults` | lru-cache.mjs:89-96 | constructing without overrides (the default argument is the defaults themselves) yields exactly the default options |
| `NativeStore.Empty` | lru-cache.mjs:98 | a store built from accepted options is empty, satisfies the store invariant and carries `max`, `ttl`, `updateAgeOnGet` from the options |
| `NativeStore.Set` | lru-cache.mjs:118-120 | the key maps to the new value with start `now` and the per-call or default ttl and becomes most recently used; every other key keeps its value and its place relative to the others; the only entry ever lost is the least recently used one, when a new key meets a full store; the size grows by one exactly when a new key meets a non-full store; `max` is never exceeded |
| `NativeStore.Get` | lru-cache.mjs:122-142 | a value is returned iff the key is present and live (or stale with `allowStale`), and it is the stored value; an unknown key leaves the store unchanged; a stale entry is deleted; a live read changes only that entry's start, and only under `updateAgeOnGet`, and makes the key most recently used while every other key keeps its place relative to the others |
| `NativeStore.PurgeStale` | lru-cache.mjs:151-157 | exactly the entries stale at `now` are removed, live ones keep their values and their relative recency order, and the size drops by the number of stale keys |
| `NativeStore.Clear` | lru-cache.mjs:160-166 | no entry remains and the size is 0, stale or not |
| `NativeStore.PutThenGet` | __tests__/lru-cache-tests.mjs:28-29 | a value just put is returned by a get at the same instant |
| `NativeStore.PurgeStaleIdempotent` | lru-cache.mjs:151-157 | pruning twice at the same instant equals pruning once |
| `NativeStore.PrunedStaleUnreachable` | __tests__/lru-cache-tests.mjs:102-111 | after a prune, no read at that instant, even with `allowStale`, returns an entry that was stale |
| `NativeStore.ClearThenGetMisses` | __tests__/lru-cache-tests.mjs:68-70 | after a clear every read is absent |
| `NativeStore.ReadsKeepEntries` | lru-cache.mjs:36-37 | with `updateAgeOnGet` off, any sequence of default reads leaves every surviving entry exactly as it was |
| `NativeStore.ReadsDoNotExtendTtl` | lru-cache.mjs:36-37 | with `updateAgeOnGet` off, an entry set with ttl T at t is absent to a read after t + T, whatever sequence of default reads, of any keys at any instants, came in between |
| `NativeStore.ReadsExtendTtlWhenConfigured` | lru-cache.mjs:38 | with `updateAgeOnGet` on, a live read restarts the ttl, so a read within T of it still finds the entry |
| `NativeStore.EvictedIsLeastRecent` | lru-cache.mjs:30 | the entry a `Set` evicts was used less recently than every other entry of the store |
| `NativeStore.ReadThenInsertEvictsLeastRecent` | lru-cache.mjs:30 | in a full store of at least two entries, after a live read of one key the insertion of a new key keeps the key read and evicts exactly the key used longest ago among the others |
| `Cache.LruCache.constructor` | lru-cache.mjs:92-99 | name and merged options recorded, the store empty and valid, counters zero, no handle |
| `Cache.LruCache.Put` | lru-cache.mjs:118-120 | the store becomes `Set` of the old store; counters and handles unchanged |
| `Cache.LruCache.Get` | lru-cache.mjs:141-149 | returns the store's answer and keeps its new store; `misses` goes up by one when the answer is absent, `hits` otherwise, the other counter stays; handles unchanged |
| `Cache.LruCache.Prune` | lru-cache.mjs:154-158 | the store becomes `PurgeStale` of the old one; counters and handles unchanged |
| `Cache.LruCache.ClearCache` | lru-cache.mjs:163-166 | the store becomes empty; counters and handles unchanged |
| `Cache.LruCache.GetStats` | lru-cache.mjs:180-186 | the snapshot carries the stored counters, the live entry count, and each periodic flag true exactly when its handle is present |
| `Cache.LruCache.ResetStats` | lru-cache.mjs:192-194 | both counters become zero; the snapshot is otherwise what it was, so `entryCount` still equals the live store size |
| `Cache.LruCache.StartPeriodicClearing` | lru-cache.mjs:201-219 | with no handle, the scheduler is asked with the given or configured schedule and its handle kept, or it throws and no handle is kept; with one present nothing changes and nothing throws; afterwards the clearing flag is true exactly when nothing threw; store, counters and the other handle untouched |
| `Cache.LruCache.StopPeriodicClearing` | lru-cache.mjs:224-230 | the clearing handle is absent afterwards whether or not it was present (idempotent); store, counters and the other handle untouched |
| `Cache.LruCache.StartPeriodicPruning` | lru-cache.mjs:237-255 | as for clearing, on the pruning handle, including the throw |
| `Cache.LruCache.StopPeriodicPruning` | lru-cache.mjs:260-266 | as for clearing, on the pruning handle |
| `Cache.LruCache.Shutdown` | lru-cache.mjs:271-274 | both handles absent and both flags false; store and counters untouched |
| `Cache.LruCache.ClearingFired` | lru-cache.mjs:207-214 | a firing of the clearing task empties the store and touches nothing else |
| `Cache.LruCache.PruningFired` | lru-cache.mjs:243-250 | a firing of the pruning task purges stale entries and touches nothing else |
| `Cache.PrototypeNameRefused` | lru-cache.mjs:90 | as written, the guard refuses the name "toString" on an empty registry; the intended guard does not |
| `Cache.Registry.constructor` | lru-cache.mjs:62 | the registry starts empty |
| `Cache.Registry.Create` | lru-cache.mjs:89-105 | a taken name fails with `NameConflict` and leaves the registry unchanged; otherwise the name is reserved; refused store options fail and leave it reserved; accepted ones attach a fresh instance under that name with merged options, an empty store and zero counters, then start clearing and then pruning when their `autoStart` is set; a start the scheduler refuses fails with `ScheduleRefused`, leaving the instance attached, no handle for the refused task, and pruning not started if clearing was refused; success exactly when no start was refused |
| `Cache.Registry.GetOptions` | lru-cache.mjs:290-297 | succeeds iff every slot has its instance, and then maps exactly the registered names to their options; a failure names a reserved slot |
| `Cache.Registry.GetStatus` | lru-cache.mjs:313-320 | succeeds iff every slot has its instance, and then maps exactly the registered names to their `getStats()`; a failure names a reserved slot |
| `Scenarios.MultipleCaches` | __tests__/lru-cache-tests.mjs:25-74 | aCache reports hits 1, misses 1, entryCount 1 and bCache hits 0, misses 0, entryCount 1, both with default options and no periodic task; after clearing aCache both keys miss |
| `Scenarios.DuplicateName` | __tests__/lru-cache-tests.mjs:76-86 | a second cache named xCache fails with `NameConflict`, a distinct name succeeds |
| `Scenarios.PeriodicPruning` | __tests__/lru-cache-tests.mjs:88-114 | two starts leave the first handle; after the entry's ttl a scheduled prune removes it; after shutdown both flags are false |
| `Scenarios.PeriodicClearing` | __tests__/lru-cache-tests.mjs:116-144 | two starts leave the first handle; after a scheduled clear the read (the `allowStale` object in the ignored argument) misses; after shutdown both flags are false |
| `Scenarios.AutoStart` | __tests__/lru-cache-tests.mjs:146-157 | with `autoStart` set, both flags are true right after construction |
| `Scenarios.RefusedStoreLeavesReservation` | lru-cache.mjs:90-101 | a construction whose store is refused leaves the name reserved: retrying it is a `NameConflict` and `getOptions` fails on it |
| `Scenarios.RefusedScheduleKeepsInstance` | lru-cache.mjs:101-104 | an `autoStart` clearing schedule the scheduler refuses makes construction fail with `ScheduleRefused`, yet the name stays taken, `getOptions` lists the instance with that schedule, and neither task runs |

## Left out

- Console logging is not modelled.
- The cronosjs scheduler is not modelled: cron-expression parsing, the UTC time zone, the `missingHour: 'offset'` policy and when a task fires. Its reply to a start (a token or a throw) is passed in by the caller. A firing is the method `ClearingFired` or `PruningFired`, which a caller may invoke at any time.
- `clearInterval` on the scheduler's task object (lines 227 and 263) is a foreign call whose effect is not visible here. Only the clearing of the handle field is modelled.
- The `try`/`catch` around each scheduled firing is not modelled, because the store operations of the model cannot fail.
- `lodash.merge` and the JSON deep copy are modelled as a typed field-wise override of the three known sections. Unrecognised fields (such as the tests' top-level `ttl`) and `null` or ill-typed override values are not modelled.
- Only `max`, `ttl` and `updateAgeOnGet` of the package's options are modelled. The package's other options, its linked-list layout, `status`, the `!!start` check on a start time of 0, and the chunked timing of `purgeStale` are out. The wall-clock test "under 1 s for 100K entries" cannot be expressed.
- When the package accepts options is stated from its documented behaviour (`Accepts`): `max` and `ttl` non-negative and not both 0. The package's source is not part of this model.
- Keys are strings and values are never null or undefined, as the comment at line 110 demands. A `put` of `undefined` (a delete in the package) is not modelled.
- The return value of `put` (the package's store object) is not modelled.
- `getOptions` and `getStatus` return maps, because the order of names does not matter. When several slots are reserved, which one the failure names is left open.
- The two flags kept in `this.stats` by `defaultStats` are not modelled: `getStats` always overwrites them. `Counters` holds only `hits` and `misses`.
- `Cache.Registry.Create` refuses names with `NameTaken`, not with the as-written guard; see Findings.
- The express middleware (cache-express-middleware.mjs) is not part of this model, and neither is a `remove` method, which the tests call but lru-cache.mjs does not define.

## Findings

| source | as written | input that shows it | evidently intended | confidence | as-written member | corrected member |
|---|---|---|---|---|---|---|
| lru-cache.mjs:90 | `LruCache.caches[name] != null` on a plain object also sees properties inherited from `Object.prototype` | `new LruCache('toString')` (or `'constructor'`, `'__proto__'`) on an empty registry throws "cache already exists" | only a name already registered is refused | high (JavaScript property lookup), not executed | `Cache.PrototypeNameRefused` (guard `Cache.NameTakenAsWritten`) | `Cache.Registry.Create` (guard `Cache.NameTaken`) |
