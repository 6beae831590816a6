/**
 * The configuration of one cache (lru-cache.mjs:16-32) and the field-wise override
 * of the defaults performed at construction (lru-cache.mjs:95-96).
 */
module Options {
  import opened Wrappers

  datatype PeriodicOptions = PeriodicOptions(schedule: string, autoStart: bool, running: bool)

  /** Options handed to the lru-cache package; `max` and `ttl` are whatever the caller gave. */
  datatype NativeCacheOptions = NativeCacheOptions(max: int, ttl: int, updateAgeOnGet: bool)

  datatype CacheOptions = CacheOptions(
    periodicClearing: PeriodicOptions,
    periodicPruning: PeriodicOptions,
    nativeCacheOptions: NativeCacheOptions)

  const MidnightUtc: string := "0 0 0 * * * *"
  const EveryHour: string := "0 0 * * * * *"

  const DefaultCacheOptions: CacheOptions := CacheOptions(
    PeriodicOptions(MidnightUtc, false, false),
    PeriodicOptions(EveryHour, false, false),
    NativeCacheOptions(10000, 86400000, false))

  /** A caller's overrides: `None` is a field the caller left undefined. */
  datatype PeriodicOverrides = PeriodicOverrides(schedule: Option<string>, autoStart: Option<bool>, running: Option<bool>)
  datatype NativeOverrides = NativeOverrides(max: Option<int>, ttl: Option<int>, updateAgeOnGet: Option<bool>)
  datatype OptionOverrides = OptionOverrides(
    periodicClearing: PeriodicOverrides,
    periodicPruning: PeriodicOverrides,
    nativeCacheOptions: NativeOverrides)

  const NoPeriodicOverrides := PeriodicOverrides(None, None, None)
  const NoOverrides := OptionOverrides(NoPeriodicOverrides, NoPeriodicOverrides, NativeOverrides(None, None, None))

  /**
   * Every field of `full` given: what a complete options object looks like as overrides.
   * Merged onto any base it yields `full` itself.
   */
  function AsOverrides(full: CacheOptions): (o: OptionOverrides)
    ensures forall base :: Merge(base, o) == full
  {
    OptionOverrides(
      PeriodicOverrides(Some(full.periodicClearing.schedule), Some(full.periodicClearing.autoStart), Some(full.periodicClearing.running)),
      PeriodicOverrides(Some(full.periodicPruning.schedule), Some(full.periodicPruning.autoStart), Some(full.periodicPruning.running)),
      NativeOverrides(Some(full.nativeCacheOptions.max), Some(full.nativeCacheOptions.ttl), Some(full.nativeCacheOptions.updateAgeOnGet)))
  }

  /** The constructor's default argument (lru-cache.mjs:89): the defaults themselves. */
  const OmittedOverrides := AsOverrides(DefaultCacheOptions)

  function MergePeriodic(base: PeriodicOptions, o: PeriodicOverrides): (r: PeriodicOptions) {
    PeriodicOptions(o.schedule.GetOr(base.schedule), o.autoStart.GetOr(base.autoStart), o.running.GetOr(base.running))
  }

  function MergeNative(base: NativeCacheOptions, o: NativeOverrides): (r: NativeCacheOptions) {
    NativeCacheOptions(o.max.GetOr(base.max), o.ttl.GetOr(base.ttl), o.updateAgeOnGet.GetOr(base.updateAgeOnGet))
  }

  /** Deep merge of `o` onto `base`: a given field replaces, an undefined one keeps the base's. */
  function Merge(base: CacheOptions, o: OptionOverrides): (r: CacheOptions) {
    CacheOptions(
      MergePeriodic(base.periodicClearing, o.periodicClearing),
      MergePeriodic(base.periodicPruning, o.periodicPruning),
      MergeNative(base.nativeCacheOptions, o.nativeCacheOptions))
  }

  /** Overriding nothing keeps every default; a field given is taken, one left out is inherited. */
  lemma MergeFieldwise(base: CacheOptions, o: OptionOverrides)
    ensures Merge(base, NoOverrides) == base
    ensures var m := Merge(base, o).nativeCacheOptions; var b := base.nativeCacheOptions; var n := o.nativeCacheOptions;
      && (n.max.Some? ==> m.max == n.max.value) && (n.max.None? ==> m.max == b.max)
      && (n.ttl.Some? ==> m.ttl == n.ttl.value) && (n.ttl.None? ==> m.ttl == b.ttl)
      && (n.updateAgeOnGet.Some? ==> m.updateAgeOnGet == n.updateAgeOnGet.value)
      && (n.updateAgeOnGet.None? ==> m.updateAgeOnGet == b.updateAgeOnGet)
    ensures var m := Merge(base, o).periodicClearing; var b := base.periodicClearing; var p := o.periodicClearing;
      && (p.schedule.Some? ==> m.schedule == p.schedule.value) && (p.schedule.None? ==> m.schedule == b.schedule)
      && (p.autoStart.Some? ==> m.autoStart == p.autoStart.value) && (p.autoStart.None? ==> m.autoStart == b.autoStart)
      && (p.running.Some? ==> m.running == p.running.value) && (p.running.None? ==> m.running == b.running)
    ensures var m := Merge(base, o).periodicPruning; var b := base.periodicPruning; var p := o.periodicPruning;
      && (p.schedule.Some? ==> m.schedule == p.schedule.value) && (p.schedule.None? ==> m.schedule == b.schedule)
      && (p.autoStart.Some? ==> m.autoStart == p.autoStart.value) && (p.autoStart.None? ==> m.autoStart == b.autoStart)
      && (p.running.Some? ==> m.running == p.running.value) && (p.running.None? ==> m.running == b.running)
  {
  }

  /** Omitting the overrides (the default argument) yields exactly the defaults. */
  lemma OmittedOverridesGiveDefaults()
    ensures Merge(DefaultCacheOptions, OmittedOverrides) == DefaultCacheOptions
    ensures Merge(DefaultCacheOptions, NoOverrides) == DefaultCacheOptions
  {
  }
}
