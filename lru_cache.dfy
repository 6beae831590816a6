/**
 * The `LruCache` class of lru-cache.mjs: a named cache wrapping one native store, with
 * hit/miss counters and two periodic-maintenance handles, and the process-wide registry
 * of caches by name (the static `caches` map), held here by an explicit `Registry` object.
 */
module Cache {
  import opened Wrappers
  import opened Options
  import NativeStore

  type Key = NativeStore.Key

  /** The stored counters (`this.stats`); reset to zero by `resetStats`. */
  datatype Counters = Counters(hits: nat, misses: nat)
  const DefaultStats := Counters(0, 0)

  /** What `getStats` returns. */
  datatype StatsSnapshot = StatsSnapshot(hits: nat, misses: nat, entryCount: nat, periodicClearing: bool, periodicPruning: bool)

  /**
   * The handle returned by the cron scheduler: an opaque token and the schedule it was
   * started with.  Its presence in a field is the "Scheduled" state of that task.
   */
  datatype Task = Task(token: nat, schedule: string)

  /**
   * What `scheduleTask` does with a schedule: hand back a token, or throw (it throws on a
   * schedule it cannot parse).  The scheduler itself is not modelled; its reply is a parameter.
   */
  datatype SchedulerReply = Scheduled(token: nat) | Rejected

  /** The handle a start leaves in a free slot: none when the scheduler threw. */
  function Started(reply: SchedulerReply, schedule: string): (t: Option<Task>)
    ensures t.Some? <==> reply.Scheduled?
    ensures t.Some? ==> t.value.token == reply.token && t.value.schedule == schedule
  {
    match reply
    case Scheduled(token) => Some(Task(token, schedule))
    case Rejected => None
  }

  class LruCache<V> {
    const name: string
    const options: CacheOptions
    var cache: NativeStore.Store<V>
    var stats: Counters
    var periodicClearingId: Option<Task>
    var periodicPruningId: Option<Task>

    ghost predicate Valid()
      reads this
    {
      NativeStore.Invariant(cache) && NativeStore.ConfiguredBy(cache, options.nativeCacheOptions)
    }

    /** Lines 92 and 95-99: an empty store built from the merged options, zeroed counters. */
    constructor (name: string, options: CacheOptions)
      requires NativeStore.Accepts(options.nativeCacheOptions)
      ensures Valid()
      ensures this.name == name && this.options == options
      ensures cache == NativeStore.Empty(options.nativeCacheOptions) && stats == DefaultStats
      ensures periodicClearingId == None && periodicPruningId == None
    {
      this.name := name;
      this.options := options;
      cache := NativeStore.Empty(options.nativeCacheOptions);
      stats := DefaultStats;
      periodicClearingId := None;
      periodicPruningId := None;
    }

    /** `put(key, value, options)`: the store's `set`; counters and handles are untouched. */
    method Put(key: Key, value: V, opts: NativeStore.SetOptions, now: int)
      requires Valid()
      modifies this
      ensures Valid()
      ensures cache == NativeStore.Set(old(cache), key, value, opts, now)
      ensures stats == old(stats)
      ensures periodicClearingId == old(periodicClearingId) && periodicPruningId == old(periodicPruningId)
    {
      cache := NativeStore.Set(cache, key, value, opts, now);
    }

    /**
     * `get(key, value, options)`: the middle argument is ignored; the store's answer is
     * returned, and exactly one counter goes up: `misses` when it is absent, `hits` otherwise.
     */
    method Get<U>(key: Key, value: U, opts: NativeStore.GetOptions, now: int) returns (r: Option<V>)
      requires Valid()
      modifies this
      ensures Valid()
      ensures var read := NativeStore.Get(old(cache), key, opts, now);
        r == read.value && cache == read.store
      ensures r.None? ==> stats == Counters(old(stats).hits, old(stats).misses + 1)
      ensures r.Some? ==> stats == Counters(old(stats).hits + 1, old(stats).misses)
      ensures stats.hits + stats.misses == old(stats.hits + stats.misses) + 1
      ensures periodicClearingId == old(periodicClearingId) && periodicPruningId == old(periodicPruningId)
    {
      var read := NativeStore.Get(cache, key, opts, now);
      cache := read.store;
      if read.value.None? {
        stats := stats.(misses := stats.misses + 1);
      } else {
        stats := stats.(hits := stats.hits + 1);
      }
      r := read.value;
    }

    /** `prune()`: the store's `purgeStale`. */
    method Prune(now: int)
      requires Valid()
      modifies this
      ensures Valid()
      ensures cache == NativeStore.PurgeStale(old(cache), now)
      ensures stats == old(stats)
      ensures periodicClearingId == old(periodicClearingId) && periodicPruningId == old(periodicPruningId)
    {
      cache := NativeStore.PurgeStale(cache, now);
    }

    /** `clearCache()`: the store's `clear`. */
    method ClearCache()
      requires Valid()
      modifies this
      ensures Valid()
      ensures cache == NativeStore.Clear(old(cache))
      ensures stats == old(stats)
      ensures periodicClearingId == old(periodicClearingId) && periodicPruningId == old(periodicPruningId)
    {
      cache := NativeStore.Clear(cache);
    }

    /**
     * `getStats()`: the stored counters, the live entry count, and each periodic flag
     * true exactly when its handle is present.
     */
    function GetStats(): (s: StatsSnapshot)
      reads this
      ensures s.hits == stats.hits && s.misses == stats.misses
      ensures s.entryCount == NativeStore.Size(cache)
      ensures s.periodicClearing <==> periodicClearingId.Some?
      ensures s.periodicPruning <==> periodicPruningId.Some?
    {
      StatsSnapshot(stats.hits, stats.misses, |cache.entries|, periodicClearingId != None, periodicPruningId != None)
    }

    /** `resetStats()`: both counters to zero; the entry count still reflects the store. */
    method ResetStats()
      modifies this
      ensures stats == DefaultStats
      ensures cache == old(cache)
      ensures periodicClearingId == old(periodicClearingId) && periodicPruningId == old(periodicPruningId)
      ensures GetStats() == old(GetStats()).(hits := 0, misses := 0)
    {
      stats := DefaultStats;
    }

    /**
     * `startPeriodicClearing(schedule)`: when no handle is present, schedule the task with the
     * given schedule or the configured one, keeping the handle the scheduler hands back, or
     * `thrown` with no handle when the scheduler throws; when one is present, do nothing.
     */
    method StartPeriodicClearing(schedule: Option<string>, reply: SchedulerReply) returns (thrown: bool)
      modifies this
      ensures thrown <==> old(periodicClearingId).None? && reply.Rejected?
      ensures old(periodicClearingId).Some? ==> periodicClearingId == old(periodicClearingId)
      ensures old(periodicClearingId).None? ==>
                periodicClearingId == Started(reply, schedule.GetOr(options.periodicClearing.schedule))
      ensures GetStats().periodicClearing <==> !thrown
      ensures cache == old(cache) && stats == old(stats) && periodicPruningId == old(periodicPruningId)
    {
      if periodicClearingId.Some? {
        return false;
      }
      periodicClearingId := Started(reply, schedule.GetOr(options.periodicClearing.schedule));
      thrown := reply.Rejected?;
    }

    /** `stopPeriodicClearing()`: drop the handle if present. */
    method StopPeriodicClearing()
      modifies this
      ensures periodicClearingId == None && !GetStats().periodicClearing
      ensures cache == old(cache) && stats == old(stats) && periodicPruningId == old(periodicPruningId)
    {
      if periodicClearingId.Some? {
        periodicClearingId := None;
      }
    }

    /** `startPeriodicPruning(schedule)`: as `StartPeriodicClearing`, for the pruning handle. */
    method StartPeriodicPruning(schedule: Option<string>, reply: SchedulerReply) returns (thrown: bool)
      modifies this
      ensures thrown <==> old(periodicPruningId).None? && reply.Rejected?
      ensures old(periodicPruningId).Some? ==> periodicPruningId == old(periodicPruningId)
      ensures old(periodicPruningId).None? ==>
                periodicPruningId == Started(reply, schedule.GetOr(options.periodicPruning.schedule))
      ensures GetStats().periodicPruning <==> !thrown
      ensures cache == old(cache) && stats == old(stats) && periodicClearingId == old(periodicClearingId)
    {
      if periodicPruningId.Some? {
        return false;
      }
      periodicPruningId := Started(reply, schedule.GetOr(options.periodicPruning.schedule));
      thrown := reply.Rejected?;
    }

    /** `stopPeriodicPruning()`: drop the handle if present. */
    method StopPeriodicPruning()
      modifies this
      ensures periodicPruningId == None && !GetStats().periodicPruning
      ensures cache == old(cache) && stats == old(stats) && periodicClearingId == old(periodicClearingId)
    {
      if periodicPruningId.Some? {
        periodicPruningId := None;
      }
    }

    /** `shutdown()`: both handles dropped; store and counters untouched. */
    method Shutdown()
      modifies this
      ensures periodicClearingId == None && periodicPruningId == None
      ensures !GetStats().periodicClearing && !GetStats().periodicPruning
      ensures cache == old(cache) && stats == old(stats)
    {
      StopPeriodicClearing();
      StopPeriodicPruning();
    }

    /** The body of the scheduled clearing task: clear the store. */
    method ClearingFired()
      requires Valid()
      modifies this
      ensures Valid()
      ensures cache == NativeStore.Clear(old(cache))
      ensures stats == old(stats)
      ensures periodicClearingId == old(periodicClearingId) && periodicPruningId == old(periodicPruningId)
    {
      cache := NativeStore.Clear(cache);
    }

    /** The body of the scheduled pruning task: purge the stale entries. */
    method PruningFired(now: int)
      requires Valid()
      modifies this
      ensures Valid()
      ensures cache == NativeStore.PurgeStale(old(cache), now)
      ensures stats == old(stats)
      ensures periodicClearingId == old(periodicClearingId) && periodicPruningId == old(periodicPruningId)
    {
      cache := NativeStore.PurgeStale(cache, now);
    }
  }

  /** An entry of the registry: the name is reserved first, the instance attached later. */
  datatype Slot<V> = Reserved | Attached(cache: LruCache<V>)

  /**
   * Why construction threw: the name was taken, the native store refused its options, or
   * the scheduler threw while an `autoStart` task was started.
   */
  datatype CreateError = NameConflict | StoreRefused | ScheduleRefused

  /** Reading `.lruCache` of a reserved slot that never got its instance (a TypeError). */
  datatype RegistryError = MissingInstance(name: string)

  /**
   * Property names every plain JavaScript object inherits from `Object.prototype`; for
   * each of them `caches[name]` is a function (or the prototype), never null.
   */
  const ObjectPrototypeMembers: set<string> := {
    "constructor", "toString", "toLocaleString", "valueOf", "hasOwnProperty",
    "isPrototypeOf", "propertyIsEnumerable", "__proto__", "__defineGetter__",
    "__defineSetter__", "__lookupGetter__", "__lookupSetter__"
  }

  /** The guard of line 90 as written: `caches[name] != null` on a plain object. */
  predicate NameTakenAsWritten<V>(caches: map<string, Slot<V>>, name: string) {
    name in caches || name in ObjectPrototypeMembers
  }

  /** The intended guard: the name has a registry entry. */
  predicate NameTaken<V>(caches: map<string, Slot<V>>, name: string) {
    name in caches
  }

  /** As written, a fresh registry already refuses the name "toString"; the intended guard does not. */
  lemma PrototypeNameRefused<V>()
    ensures NameTakenAsWritten<V>(map[], "toString")
    ensures !NameTaken<V>(map[], "toString")
  {
  }

  predicate AllAttached<V>(caches: map<string, Slot<V>>) {
    forall n :: n in caches ==> caches[n].Attached?
  }

  class Registry<V> {
    var caches: map<string, Slot<V>>

    /** Every attached instance is registered under its own name. */
    ghost predicate Valid()
      reads this
    {
      forall n :: n in caches && caches[n].Attached? ==> caches[n].cache.name == n
    }

    constructor ()
      ensures Valid() && caches == map[]
    {
      caches := map[];
    }

    /**
     * `new LruCache(name, overrides)`: refuse a taken name without touching the registry;
     * otherwise reserve the name, merge the overrides onto the defaults, build the store
     * (which the package may refuse, leaving the name reserved), attach the instance, and
     * start each periodic task whose `autoStart` is set, clearing first.  When the scheduler
     * throws, construction throws with the instance already attached and no later task started.
     */
    method Create(name: string, overrides: OptionOverrides, clearingReply: SchedulerReply, pruningReply: SchedulerReply)
      returns (r: Result<LruCache<V>, CreateError>)
      requires Valid()
      modifies this
      ensures Valid()
      ensures NameTaken(old(caches), name) ==> r == Failure(NameConflict) && caches == old(caches)
      ensures !NameTaken(old(caches), name) && !NativeStore.Accepts(Merge(DefaultCacheOptions, overrides).nativeCacheOptions) ==>
                r == Failure(StoreRefused) && caches == old(caches)[name := Reserved]
      ensures !NameTaken(old(caches), name) && NativeStore.Accepts(Merge(DefaultCacheOptions, overrides).nativeCacheOptions) ==>
                && name in caches && caches[name].Attached?
                && var c := caches[name].cache;
                && var o := Merge(DefaultCacheOptions, overrides);
                && var clearingThrew := o.periodicClearing.autoStart && clearingReply.Rejected?;
                && var pruningThrew := !clearingThrew && o.periodicPruning.autoStart && pruningReply.Rejected?;
                && fresh(c)
                && caches == old(caches)[name := Attached(c)]
                && c.Valid()
                && c.name == name
                && c.options == o
                && c.cache == NativeStore.Empty(o.nativeCacheOptions)
                && c.stats == DefaultStats
                && c.periodicClearingId ==
                     (if o.periodicClearing.autoStart then Started(clearingReply, o.periodicClearing.schedule) else None)
                && c.periodicPruningId ==
                     (if o.periodicPruning.autoStart && !clearingThrew
                      then Started(pruningReply, o.periodicPruning.schedule) else None)
                && (r.Success? <==> !clearingThrew && !pruningThrew)
                && (r.Success? ==> r.value == c)
                && (r.Failure? ==> r.error == ScheduleRefused)
    {
      if NameTaken(caches, name) {
        return Failure(NameConflict);
      }
      caches := caches[name := Reserved];
      var options := Merge(DefaultCacheOptions, overrides);
      if !NativeStore.Accepts(options.nativeCacheOptions) {
        return Failure(StoreRefused);
      }
      var c := new LruCache(name, options);
      caches := caches[name := Attached(c)];
      if options.periodicClearing.autoStart {
        var thrown := c.StartPeriodicClearing(None, clearingReply);
        if thrown {
          return Failure(ScheduleRefused);
        }
      }
      if options.periodicPruning.autoStart {
        var thrown := c.StartPeriodicPruning(None, pruningReply);
        if thrown {
          return Failure(ScheduleRefused);
        }
      }
      return Success(c);
    }

    /** Static `getOptions()`: each registered name mapped to its instance's options. */
    method GetOptions() returns (r: Result<map<string, CacheOptions>, RegistryError>)
      ensures r.Success? <==> AllAttached(caches)
      ensures r.Failure? ==> r.error.name in caches && caches[r.error.name].Reserved?
      ensures r.Success? ==> r.value.Keys == caches.Keys
      ensures r.Success? ==> forall n :: n in r.value ==> caches[n].Attached? && r.value[n] == caches[n].cache.options
    {
      var options: map<string, CacheOptions> := map[];
      var pending := caches.Keys;
      while pending != {}
        invariant pending <= caches.Keys
        invariant options.Keys == caches.Keys - pending
        invariant forall n :: n in options ==> caches[n].Attached? && options[n] == caches[n].cache.options
        decreases pending
      {
        var n :| n in pending;
        match caches[n]
        case Reserved =>
          return Failure(MissingInstance(n));
        case Attached(c) =>
          options := options[n := c.options];
        pending := pending - {n};
      }
      return Success(options);
    }

    /** Static `getStatus()`: each registered name mapped to its instance's `getStats()`. */
    method GetStatus() returns (r: Result<map<string, StatsSnapshot>, RegistryError>)
      ensures r.Success? <==> AllAttached(caches)
      ensures r.Failure? ==> r.error.name in caches && caches[r.error.name].Reserved?
      ensures r.Success? ==> r.value.Keys == caches.Keys
      ensures r.Success? ==> forall n :: n in r.value ==> caches[n].Attached? && r.value[n] == caches[n].cache.GetStats()
    {
      var status: map<string, StatsSnapshot> := map[];
      var pending := caches.Keys;
      while pending != {}
        invariant pending <= caches.Keys
        invariant status.Keys == caches.Keys - pending
        invariant forall n :: n in status ==> caches[n].Attached? && status[n] == caches[n].cache.GetStats()
        decreases pending
      {
        var n :| n in pending;
        match caches[n]
        case Reserved =>
          return Failure(MissingInstance(n));
        case Attached(c) =>
          status := status[n := c.GetStats()];
        pending := pending - {n};
      }
      return Success(status);
    }
  }
}
