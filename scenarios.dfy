/**
 * The scenarios of __tests__/lru-cache-tests.mjs, replayed against the model with time
 * as a parameter; each method's postcondition is what the test asserts.
 */
module Scenarios {
  import opened Wrappers
  import opened Options
  import NativeStore
  import opened Cache

  /** An omitted middle argument of `get`. */
  const Undefined: Option<int> := None

  /** A cache fresh from construction with the default options. */
  ghost predicate NewDefaultCache(c: LruCache<int>)
    reads c
  {
    && c.Valid() && c.options == DefaultCacheOptions && NativeStore.Size(c.cache) == 0
    && c.stats == DefaultStats && c.periodicClearingId == None && c.periodicPruningId == None
  }

  /** Lines 27-30 of the test: a miss, a put, a hit, an overwrite. */
  method UseA(a: LruCache<int>, now: int) returns (missBeforePut: Option<int>, hitAfterPut: Option<int>)
    requires NewDefaultCache(a)
    modifies a
    ensures a.Valid()
    ensures missBeforePut == None && hitAfterPut == Some(1)
    ensures a.GetStats() == StatsSnapshot(1, 1, 1, false, false)
  {
    missBeforePut := a.Get("a1", Undefined, NativeStore.DefaultGetOptions, now);
    a.Put("a1", 1, NativeStore.DefaultSetOptions, now);
    hitAfterPut := a.Get("a1", Undefined, NativeStore.DefaultGetOptions, now);
    a.Put("a1", 2, NativeStore.DefaultSetOptions, now);
  }

  /** Lines 32-33 of the test: a put and an overwrite, no read. */
  method UseB(b: LruCache<int>, now: int)
    requires NewDefaultCache(b)
    modifies b
    ensures b.GetStats() == StatsSnapshot(0, 0, 1, false, false)
  {
    b.Put("b1", 1, NativeStore.DefaultSetOptions, now);
    b.Put("b1", 2, NativeStore.DefaultSetOptions, now);
  }

  /** Lines 68-73 of the test: after clearing, both keys miss and no periodic task runs. */
  method ClearA(a: LruCache<int>, now: int) returns (a1AfterClear: Option<int>, a2AfterClear: Option<int>, aFinal: StatsSnapshot)
    requires a.Valid() && a.periodicClearingId == None && a.periodicPruningId == None
    modifies a
    ensures a1AfterClear == None && a2AfterClear == None
    ensures !aFinal.periodicPruning && !aFinal.periodicClearing
  {
    a.ClearCache();
    a1AfterClear := a.Get("a1", Undefined, NativeStore.DefaultGetOptions, now);
    a2AfterClear := a.Get("a2", Undefined, NativeStore.DefaultGetOptions, now);
    aFinal := a.GetStats();
  }

  /** "multiple caches": two caches with default options keep separate stores and counters. */
  method MultipleCaches(now: int)
    returns (missBeforePut: Option<int>, hitAfterPut: Option<int>,
             aOptions: CacheOptions, bOptions: CacheOptions,
             aStatus: StatsSnapshot, bStatus: StatsSnapshot,
             a1AfterClear: Option<int>, a2AfterClear: Option<int>, aFinal: StatsSnapshot)
    ensures missBeforePut == None && hitAfterPut == Some(1)
    ensures aOptions == DefaultCacheOptions && bOptions == DefaultCacheOptions
    ensures aStatus == StatsSnapshot(1, 1, 1, false, false)
    ensures bStatus == StatsSnapshot(0, 0, 1, false, false)
    ensures a1AfterClear == None && a2AfterClear == None
    ensures !aFinal.periodicPruning && !aFinal.periodicClearing
  {
    OmittedOverridesGiveDefaults();
    var registry := new Registry<int>();
    var created := registry.Create("aCache", OmittedOverrides, Scheduled(0), Scheduled(0));
    var a := created.value;
    missBeforePut, hitAfterPut := UseA(a, now);
    created := registry.Create("bCache", OmittedOverrides, Scheduled(0), Scheduled(0));
    var b := created.value;
    UseB(b, now);
    assert registry.caches == map["aCache" := Attached(a), "bCache" := Attached(b)];

    var options := registry.GetOptions();
    aOptions, bOptions := options.value["aCache"], options.value["bCache"];
    var status := registry.GetStatus();
    aStatus, bStatus := status.value["aCache"], status.value["bCache"];
    a1AfterClear, a2AfterClear, aFinal := ClearA(a, now);
  }

  /** "dupe cache name throws error": a second cache of the same name is refused; another name is not. */
  method DuplicateName()
    returns (first: Result<LruCache<int>, CreateError>, second: Result<LruCache<int>, CreateError>,
             other: Result<LruCache<int>, CreateError>)
    ensures first.Success? && second == Failure(NameConflict) && other.Success?
  {
    var registry := new Registry<int>();
    first := registry.Create("xCache", OmittedOverrides, Scheduled(0), Scheduled(0));
    second := registry.Create("xCache", OmittedOverrides, Scheduled(0), Scheduled(0));
    other := registry.Create("yCache", OmittedOverrides, Scheduled(0), Scheduled(0));
  }

  /** "autostart pruning/clearing": with `autoStart` set, both flags hold right after construction. */
  method AutoStart() returns (stats: StatsSnapshot)
    ensures stats.periodicPruning && stats.periodicClearing
    ensures stats == StatsSnapshot(0, 0, 0, true, true)
  {
    var registry := new Registry<int>();
    var autoStart := PeriodicOverrides(None, Some(true), None);
    var created := registry.Create("zCache", OptionOverrides(autoStart, autoStart, NoOverrides.nativeCacheOptions), Scheduled(7), Scheduled(8));
    stats := created.value.GetStats();
  }

  /**
   * "periodic pruning": an entry set with a 1000 ms time-to-live, two starts leaving the first
   * handle in place, a scheduled prune after the entry went stale, then shutdown.  The test's
   * `get('p1', { allowStale: true })` passes the object as the ignored middle argument.
   */
  method PeriodicPruning(start: int, later: int)
    returns (beforeStale: Option<int>, handle: Option<Task>, afterPrune: Option<int>, final: StatsSnapshot)
    requires later > start + 1000
    ensures beforeStale == Some(1)
    ensures handle == Some(Task(1, "* * * * * * *"))
    ensures afterPrune == None
    ensures !final.periodicPruning && !final.periodicClearing
  {
    var registry := new Registry<int>();
    var pruning := PeriodicOverrides(Some("* * * * * * *"), None, None);
    var created := registry.Create("pCache", NoOverrides.(periodicPruning := pruning), Scheduled(0), Scheduled(0));
    var p := created.value;
    p.Put("p1", 1, NativeStore.SetOptions(Some(1000)), start);
    beforeStale := p.Get("p1", Undefined, NativeStore.DefaultGetOptions, start);
    var thrown := p.StartPeriodicPruning(None, Scheduled(1));
    thrown := p.StartPeriodicPruning(None, Scheduled(2));
    handle := p.periodicPruningId;
    p.PruningFired(later);
    afterPrune := p.Get("p1", NativeStore.GetOptions(true, None), NativeStore.DefaultGetOptions, later);
    p.Shutdown();
    final := p.GetStats();
  }

  /**
   * "periodic clearing": the same with the clearing task; once it has fired the entry is gone,
   * and after shutdown both flags are false.  As in the pruning test, the `{ allowStale: true }`
   * object lands in the ignored middle argument, so the read uses the default options.
   */
  method PeriodicClearing(start: int, later: int)
    returns (beforeStale: Option<int>, handle: Option<Task>, afterClear: Option<int>, final: StatsSnapshot)
    requires later >= start
    ensures beforeStale == Some(1)
    ensures handle == Some(Task(1, "* * * * * * *"))
    ensures afterClear == None
    ensures !final.periodicPruning && !final.periodicClearing
  {
    var registry := new Registry<int>();
    var clearing := PeriodicOverrides(Some("* * * * * * *"), None, None);
    var created := registry.Create("cCache", NoOverrides.(periodicClearing := clearing), Scheduled(0), Scheduled(0));
    var c := created.value;
    c.Put("p1", 1, NativeStore.SetOptions(Some(1000)), start);
    beforeStale := c.Get("p1", Undefined, NativeStore.DefaultGetOptions, start);
    var thrown := c.StartPeriodicClearing(None, Scheduled(1));
    thrown := c.StartPeriodicClearing(None, Scheduled(2));
    handle := c.periodicClearingId;
    c.ClearingFired();
    afterClear := c.Get("p1", NativeStore.GetOptions(true, None), NativeStore.DefaultGetOptions, later);
    c.Shutdown();
    final := c.GetStats();
  }

  /**
   * A name reserved by a construction the store refused stays in the registry without an
   * instance, so a later `getOptions`/`getStatus` fails while that name stays taken.
   */
  method RefusedStoreLeavesReservation()
    returns (refused: Result<LruCache<int>, CreateError>, retry: Result<LruCache<int>, CreateError>,
             options: Result<map<string, CacheOptions>, RegistryError>)
    ensures refused == Failure(StoreRefused)
    ensures retry == Failure(NameConflict)
    ensures options == Failure(MissingInstance("qCache"))
  {
    var registry := new Registry<int>();
    var badMax := NoOverrides.(nativeCacheOptions := NativeOverrides(Some(-1), None, None));
    refused := registry.Create("qCache", badMax, Scheduled(0), Scheduled(0));
    retry := registry.Create("qCache", OmittedOverrides, Scheduled(0), Scheduled(0));
    options := registry.GetOptions();
  }

  /**
   * A clearing schedule the scheduler cannot parse, with `autoStart` set: construction throws
   * after the instance was attached, so the name stays taken, the instance is listed by
   * `getOptions`, and neither periodic task runs.
   */
  method RefusedScheduleKeepsInstance()
    returns (refused: Result<LruCache<int>, CreateError>, retry: Result<LruCache<int>, CreateError>,
             options: Result<map<string, CacheOptions>, RegistryError>, stats: StatsSnapshot)
    ensures refused == Failure(ScheduleRefused)
    ensures retry == Failure(NameConflict)
    ensures options.Success? && options.value.Keys == {"sCache"}
    ensures options.value["sCache"].periodicClearing.schedule == "not a schedule"
    ensures !stats.periodicClearing && !stats.periodicPruning
  {
    var registry := new Registry<int>();
    var badClearing := PeriodicOverrides(Some("not a schedule"), Some(true), None);
    var autoPruning := PeriodicOverrides(None, Some(true), None);
    refused := registry.Create("sCache", OptionOverrides(badClearing, autoPruning, NoOverrides.nativeCacheOptions), Rejected, Scheduled(3));
    var s := registry.caches["sCache"].cache;
    retry := registry.Create("sCache", OmittedOverrides, Scheduled(0), Scheduled(0));
    options := registry.GetOptions();
    stats := s.GetStats();
  }
}
