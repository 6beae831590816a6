/**
 * An abstract view of the `lru-cache` package store that every cache wraps
 * (lru-cache.mjs:98): entries with a value, a start time and a time-to-live, a
 * recency order (least recently used first), and the bound `max`.  Time is an
 * explicit parameter `now` in milliseconds.
 */
module NativeStore {
  import opened Wrappers
  import Options

  type Key = string

  /** One entry; `ttl == 0` means it never goes stale. */
  datatype Entry<V> = Entry(value: V, start: int, ttl: nat)

  /** `max == 0` is a store bounded only by time (the package allows it when `ttl > 0`). */
  datatype Store<V> = Store(
    max: nat,
    ttl: nat,
    updateAgeOnGet: bool,
    entries: map<Key, Entry<V>>,
    recency: seq<Key>)

  /** Per-call options of `set`: an optional time-to-live replacing the store's default. */
  datatype SetOptions = SetOptions(ttl: Option<nat>)
  const DefaultSetOptions := SetOptions(None)

  /** Per-call options of `get`. */
  datatype GetOptions = GetOptions(allowStale: bool, updateAgeOnGet: Option<bool>)
  const DefaultGetOptions := GetOptions(false, None)

  /** What `get` returns, together with the store it leaves behind. */
  datatype Read<V> = Read(value: Option<V>, store: Store<V>)

  /** An entry is stale once more than its time-to-live has elapsed since its start. */
  predicate Stale<V>(e: Entry<V>, now: int) {
    e.ttl > 0 && now - e.start > e.ttl
  }

  predicate Distinct(ks: seq<Key>) {
    forall i, j :: 0 <= i < j < |ks| ==> ks[i] != ks[j]
  }

  /** The store invariant: the recency order lists each key once, and the size respects `max`. */
  ghost predicate Invariant<V>(s: Store<V>) {
    && Distinct(s.recency)
    && (forall k :: k in s.recency <==> k in s.entries)
    && (s.max == 0 || |s.entries| <= s.max)
  }

  function Size<V>(s: Store<V>): (n: nat) {
    |s.entries|
  }

  /** The keys whose entries are stale at `now`. */
  ghost function StaleKeys<V>(s: Store<V>, now: int): set<Key> {
    set k | k in s.entries && Stale(s.entries[k], now)
  }

  /** The package's constructor refuses a negative `max` or `ttl` and a store with neither bound. */
  predicate Accepts(o: Options.NativeCacheOptions) {
    o.max >= 0 && o.ttl >= 0 && (o.max > 0 || o.ttl > 0)
  }

  /** The store configured by `o`, holding nothing. */
  function Empty<V>(o: Options.NativeCacheOptions): (s: Store<V>)
    requires Accepts(o)
    ensures Invariant(s) && Size(s) == 0 && ConfiguredBy(s, o)
  {
    Store(o.max, o.ttl, o.updateAgeOnGet, map[], [])
  }

  ghost predicate ConfiguredBy<V>(s: Store<V>, o: Options.NativeCacheOptions) {
    s.max == o.max && s.ttl == o.ttl && s.updateAgeOnGet == o.updateAgeOnGet
  }

  /** The keys of `ks` that are in `keep`, in their original order. */
  function Retain(ks: seq<Key>, keep: set<Key>): (r: seq<Key>)
    ensures forall k :: k in r <==> k in ks && k in keep
    ensures |r| <= |ks|
    ensures Distinct(ks) ==> Distinct(r)
  {
    if ks == [] then []
    else if ks[0] in keep then [ks[0]] + Retain(ks[1..], keep)
    else Retain(ks[1..], keep)
  }

  /**
   * In a recency order, `x` was used less recently than `y`: `x` comes first and `y` after it.
   */
  predicate Before(ks: seq<Key>, x: Key, y: Key) {
    ks != [] && if ks[0] == x then y in ks[1..] else Before(ks[1..], x, y)
  }

  /** Both keys of a `Before` pair are in the order. */
  lemma {:induction false} BeforeMembers(ks: seq<Key>, x: Key, y: Key)
    requires Before(ks, x, y)
    ensures x in ks && y in ks
  {
    if ks[0] != x {
      BeforeMembers(ks[1..], x, y);
    }
  }

  /** In an order listing each key once, two keys are never before each other both ways. */
  lemma {:induction false} BeforeAsymmetric(ks: seq<Key>, x: Key, y: Key)
    requires Distinct(ks)
    ensures !(Before(ks, x, y) && Before(ks, y, x))
  {
    if ks != [] && ks[0] != x && ks[0] != y {
      BeforeAsymmetric(ks[1..], x, y);
    } else if ks != [] && ks[0] == x && Before(ks, y, x) {
      assert x != y ==> Before(ks[1..], y, x);
      if x != y {
        BeforeMembers(ks[1..], y, x);
      }
    } else if ks != [] && ks[0] == y && Before(ks, x, y) {
      assert x != y ==> Before(ks[1..], x, y);
      if x != y {
        BeforeMembers(ks[1..], x, y);
      }
    }
  }

  /** The head of an order was used less recently than every other key in it. */
  lemma FirstIsBefore(ks: seq<Key>, y: Key)
    requires y in ks && y != ks[0]
    ensures Before(ks, ks[0], y)
  {
  }

  /** Appending a key keeps the order among the others and puts it after every one of them. */
  lemma {:induction false} BeforeAppend(ks: seq<Key>, k: Key)
    requires k !in ks
    ensures forall x, y :: x != k && y != k ==> (Before(ks + [k], x, y) <==> Before(ks, x, y))
    ensures forall x :: x in ks ==> Before(ks + [k], x, k)
    ensures forall y :: !Before(ks + [k], k, y)
  {
    if ks != [] {
      BeforeAppend(ks[1..], k);
      assert (ks + [k])[1..] == ks[1..] + [k];
    } else {
      forall y ensures !Before(ks + [k], k, y) {
        assert (ks + [k])[1..] == [];
      }
    }
  }

  /** Retaining some keys keeps the order of the retained ones. */
  lemma {:induction false} RetainKeepsOrder(ks: seq<Key>, keep: set<Key>)
    ensures forall x, y :: x in keep && y in keep ==> (Before(Retain(ks, keep), x, y) <==> Before(ks, x, y))
  {
    if ks != [] {
      RetainKeepsOrder(ks[1..], keep);
      if ks[0] in keep {
        assert Retain(ks, keep) == [ks[0]] + Retain(ks[1..], keep);
        assert ([ks[0]] + Retain(ks[1..], keep))[1..] == Retain(ks[1..], keep);
      }
    }
  }

  /** Retaining every key of a sequence leaves it as it is. */
  lemma {:induction false} RetainAll(ks: seq<Key>, keep: set<Key>)
    requires forall k :: k in ks ==> k in keep
    ensures Retain(ks, keep) == ks
  {
    if ks != [] {
      RetainAll(ks[1..], keep);
    }
  }

  /** A sequence listing each key once is as long as the set of its keys. */
  lemma {:induction false} DistinctLength(ks: seq<Key>)
    requires Distinct(ks)
    ensures |set k | k in ks| == |ks|
  {
    if ks != [] {
      var rest := ks[1..];
      assert Distinct(rest);
      DistinctLength(rest);
      assert (set k | k in ks) == {ks[0]} + (set k | k in rest);
      assert ks[0] !in rest;
    }
  }

  /** Under the invariant the store holds exactly as many entries as the recency order lists. */
  lemma SizeIsRecencyLength<V>(s: Store<V>)
    requires Invariant(s)
    ensures Size(s) == |s.recency|
  {
    DistinctLength(s.recency);
    assert s.entries.Keys == set k | k in s.recency;
  }

  /** Every key of `r` other than `key` stands, relative to the others, where it stood in `s`. */
  ghost predicate KeepsOrderExcept<V>(s: Store<V>, r: Store<V>, key: Key) {
    forall x, y :: x in r.entries && y in r.entries && x != key && y != key ==>
      (Before(r.recency, x, y) <==> Before(s.recency, x, y))
  }

  /** `key` is the most recently used key of `r`. */
  ghost predicate MostRecent<V>(r: Store<V>, key: Key) {
    && key in r.entries
    && |r.recency| > 0 && r.recency[|r.recency| - 1] == key
    && forall x :: x in r.entries && x != key ==> Before(r.recency, x, key)
  }

  /** `s` with `key` removed (the package's `delete`). */
  function Delete<V>(s: Store<V>, key: Key): (r: Store<V>)
    requires Invariant(s)
    ensures Invariant(r)
    ensures r.entries.Keys == s.entries.Keys - {key}
    ensures forall k :: k in r.entries ==> r.entries[k] == s.entries[k]
    ensures KeepsOrderExcept(s, r, key)
    ensures Size(r) == if key in s.entries then Size(s) - 1 else Size(s)
    ensures r.max == s.max && r.ttl == s.ttl && r.updateAgeOnGet == s.updateAgeOnGet
  {
    var entries := s.entries - {key};
    RetainKeepsOrder(s.recency, entries.Keys);
    s.(entries := entries, recency := Retain(s.recency, entries.Keys))
  }

  /** `s` with a new key added as the most recently used, when there is room for it. */
  function Insert<V>(s: Store<V>, key: Key, e: Entry<V>): (r: Store<V>)
    requires Invariant(s) && key !in s.entries && (s.max == 0 || |s.entries| < s.max)
    ensures Invariant(r)
    ensures r.entries == s.entries[key := e] && r.recency == s.recency + [key]
    ensures r.entries.Keys == s.entries.Keys + {key} && Size(r) == Size(s) + 1
    ensures KeepsOrderExcept(s, r, key) && MostRecent(r, key)
    ensures r.max == s.max && r.ttl == s.ttl && r.updateAgeOnGet == s.updateAgeOnGet
  {
    BeforeAppend(s.recency, key);
    s.(entries := s.entries[key := e], recency := s.recency + [key])
  }

  /** The recency order of `s` with `key` moved to the most recent end. */
  function MoveToEnd<V>(s: Store<V>, key: Key): (ks: seq<Key>)
    requires Invariant(s) && key in s.entries
    ensures Distinct(ks) && (forall k :: k in ks <==> k in s.entries)
    ensures |ks| > 0 && ks[|ks| - 1] == key
    ensures forall x, y :: x != key && y != key ==> (Before(ks, x, y) <==> Before(s.recency, x, y))
    ensures forall x :: x in s.entries && x != key ==> Before(ks, x, key)
  {
    var kept := Retain(s.recency, s.entries.Keys - {key});
    RetainKeepsOrder(s.recency, s.entries.Keys - {key});
    BeforeAppend(kept, key);
    forall x, y | x != key && y != key && Before(s.recency, x, y)
      ensures x in s.entries.Keys - {key} && y in s.entries.Keys - {key}
    {
      BeforeMembers(s.recency, x, y);
    }
    forall x, y | x != key && y != key && Before(kept + [key], x, y)
      ensures x in s.entries.Keys - {key} && y in s.entries.Keys - {key}
    {
      BeforeMembers(kept + [key], x, y);
    }
    kept + [key]
  }

  /** `s` with the entry of a present key replaced and made the most recently used. */
  function Replace<V>(s: Store<V>, key: Key, e: Entry<V>): (r: Store<V>)
    requires Invariant(s) && key in s.entries
    ensures Invariant(r)
    ensures r.entries == s.entries[key := e] && r.entries.Keys == s.entries.Keys && Size(r) == Size(s)
    ensures KeepsOrderExcept(s, r, key) && MostRecent(r, key)
    ensures r.max == s.max && r.ttl == s.ttl && r.updateAgeOnGet == s.updateAgeOnGet
  {
    s.(entries := s.entries[key := e], recency := MoveToEnd(s, key))
  }

  /** Removing one key and then adding another keeps the order among the keys both kept. */
  lemma KeepsOrderAcrossEviction<V>(s: Store<V>, d: Store<V>, r: Store<V>, victim: Key, key: Key)
    requires KeepsOrderExcept(s, d, victim) && KeepsOrderExcept(d, r, key)
    requires victim !in d.entries && r.entries.Keys == d.entries.Keys + {key}
    ensures KeepsOrderExcept(s, r, key)
  {
  }

  /** `s` with its least recently used entry evicted to make room for a new key. */
  function EvictAndInsert<V>(s: Store<V>, key: Key, e: Entry<V>): (r: Store<V>)
    requires Invariant(s) && key !in s.entries && s.max > 0 && |s.entries| == s.max
    ensures |s.recency| > 0
    ensures Invariant(r)
    ensures r.entries == (s.entries - {s.recency[0]})[key := e] && Size(r) == Size(s)
    ensures KeepsOrderExcept(s, r, key) && MostRecent(r, key)
    ensures r.max == s.max && r.ttl == s.ttl && r.updateAgeOnGet == s.updateAgeOnGet
  {
    SizeIsRecencyLength(s);
    var d := Delete(s, s.recency[0]);
    var r := Insert(d, key, e);
    KeepsOrderAcrossEviction(s, d, r, s.recency[0], key);
    r
  }

  /**
   * `set(key, value, options)`: the entry gets `now` as its start and the per-call or the
   * store's default time-to-live, and becomes the most recently used, the other keys keeping
   * their relative order; inserting a new key into a full store first evicts the least
   * recently used entry.
   */
  function Set<V>(s: Store<V>, key: Key, value: V, o: SetOptions, now: int): (r: Store<V>)
    requires Invariant(s)
    ensures Invariant(r)
    ensures r.max == s.max && r.ttl == s.ttl && r.updateAgeOnGet == s.updateAgeOnGet
    ensures key in r.entries && r.entries[key] == Entry(value, now, o.ttl.GetOr(s.ttl))
    ensures MostRecent(r, key) && KeepsOrderExcept(s, r, key)
    ensures forall k :: k in r.entries && k != key ==> k in s.entries && r.entries[k] == s.entries[k]
    // the only entry ever lost is the least recently used one, when a new key meets a full store
    ensures forall k :: k in s.entries && k !in r.entries ==>
              k != key && key !in s.entries && |s.entries| == s.max && k == s.recency[0]
    ensures key !in s.entries && s.max > 0 && |s.entries| == s.max ==>
              |s.recency| > 0 && s.recency[0] !in r.entries
    ensures key in s.entries ==> r.entries.Keys == s.entries.Keys
    ensures key !in s.entries && (s.max == 0 || |s.entries| < s.max) ==> r.entries.Keys == s.entries.Keys + {key}
    ensures Size(r) == if key in s.entries || (s.max > 0 && Size(s) == s.max) then Size(s) else Size(s) + 1
  {
    var e := Entry(value, now, o.ttl.GetOr(s.ttl));
    if key in s.entries then Replace(s, key, e)
    else if s.max > 0 && |s.entries| == s.max then EvictAndInsert(s, key, e)
    else Insert(s, key, e)
  }

  /** The entry evicted by `Set` was used less recently than every other entry of the store. */
  lemma EvictedIsLeastRecent<V>(s: Store<V>, key: Key, value: V, o: SetOptions, now: int, k: Key)
    requires Invariant(s) && k in s.entries && k !in Set(s, key, value, o, now).entries
    ensures forall y :: y in s.entries && y != k ==> Before(s.recency, k, y)
  {
  }

  /** `s` with `key` made the most recently used and, if `refresh`, its start moved to `now`. */
  function Touch<V>(s: Store<V>, key: Key, refresh: bool, now: int): (r: Store<V>)
    requires Invariant(s) && key in s.entries
    ensures Invariant(r) && r.entries.Keys == s.entries.Keys
    ensures r.entries == s.entries[key := s.entries[key].(start := if refresh then now else s.entries[key].start)]
    ensures KeepsOrderExcept(s, r, key) && MostRecent(r, key)
    ensures r.max == s.max && r.ttl == s.ttl && r.updateAgeOnGet == s.updateAgeOnGet
  {
    var e := s.entries[key];
    var entries := s.entries[key := e.(start := if refresh then now else e.start)];
    s.(entries := entries, recency := MoveToEnd(s, key))
  }

  /**
   * `get(key, options)`: a live entry is returned and becomes the most recently used, the
   * other keys keeping their relative order (its start refreshed when `updateAgeOnGet`
   * holds); a stale one is deleted and returned only when `allowStale` is set; an unknown
   * key is absent.
   */
  function Get<V>(s: Store<V>, key: Key, o: GetOptions, now: int): (r: Read<V>)
    requires Invariant(s)
    ensures Invariant(r.store)
    ensures r.store.max == s.max && r.store.ttl == s.ttl && r.store.updateAgeOnGet == s.updateAgeOnGet
    ensures r.value.Some? <==> key in s.entries && (o.allowStale || !Stale(s.entries[key], now))
    ensures r.value.Some? ==> r.value.value == s.entries[key].value
    ensures key !in s.entries ==> r.store == s
    ensures key in s.entries && Stale(s.entries[key], now) ==> r.store == Delete(s, key)
    // a live read changes only the start of the entry read, and only under `updateAgeOnGet`
    ensures key in s.entries && !Stale(s.entries[key], now) ==>
              r.store.entries == s.entries[key := s.entries[key].(start := if o.updateAgeOnGet.GetOr(s.updateAgeOnGet) then now else s.entries[key].start)]
    ensures key in s.entries && !Stale(s.entries[key], now) ==>
              MostRecent(r.store, key) && KeepsOrderExcept(s, r.store, key)
  {
    if key !in s.entries then Read(None, s)
    else
      var e := s.entries[key];
      if Stale(e, now) then Read(if o.allowStale then Some(e.value) else None, Delete(s, key))
      else Read(Some(e.value), Touch(s, key, o.updateAgeOnGet.GetOr(s.updateAgeOnGet), now))
  }

  /** `purgeStale()`: exactly the stale entries go; the live ones keep their values and order. */
  function PurgeStale<V>(s: Store<V>, now: int): (r: Store<V>)
    requires Invariant(s)
    ensures Invariant(r)
    ensures r.max == s.max && r.ttl == s.ttl && r.updateAgeOnGet == s.updateAgeOnGet
    ensures forall k :: k in r.entries <==> k in s.entries && !Stale(s.entries[k], now)
    ensures forall k :: k in r.entries ==> r.entries[k] == s.entries[k]
    ensures Size(r) == Size(s) - |StaleKeys(s, now)|
    ensures forall x, y :: x in r.entries && y in r.entries ==> (Before(r.recency, x, y) <==> Before(s.recency, x, y))
  {
    var live := map k | k in s.entries && !Stale(s.entries[k], now) :: s.entries[k];
    assert live.Keys == s.entries.Keys - StaleKeys(s, now);
    RetainKeepsOrder(s.recency, live.Keys);
    s.(entries := live, recency := Retain(s.recency, live.Keys))
  }

  /** `clear()`: every entry goes, stale or not. */
  function Clear<V>(s: Store<V>): (r: Store<V>)
    ensures Invariant(r) && Size(r) == 0
    ensures forall k :: k !in r.entries
    ensures r.max == s.max && r.ttl == s.ttl && r.updateAgeOnGet == s.updateAgeOnGet
  {
    s.(entries := map[], recency := [])
  }

  /** A value just set is returned by a `get` at the same instant, as a hit. */
  lemma PutThenGet<V>(s: Store<V>, key: Key, value: V, o: SetOptions, now: int)
    requires Invariant(s)
    ensures Get(Set(s, key, value, o, now), key, DefaultGetOptions, now).value == Some(value)
  {
  }

  /** Pruning twice at the same instant removes nothing more. */
  lemma PurgeStaleIdempotent<V>(s: Store<V>, now: int)
    requires Invariant(s)
    ensures PurgeStale(PurgeStale(s, now), now) == PurgeStale(s, now)
  {
    var p := PurgeStale(s, now);
    var q := PurgeStale(p, now);
    assert q.entries == p.entries;
    RetainAll(p.recency, q.entries.Keys);
  }

  /** After a prune at `now`, no read at `now` finds a stale entry, even with `allowStale`. */
  lemma PrunedStaleUnreachable<V>(s: Store<V>, key: Key, o: GetOptions, now: int)
    requires Invariant(s)
    ensures var r := Get(PurgeStale(s, now), key, o, now);
      r.value.Some? ==> key in s.entries && !Stale(s.entries[key], now) && r.value.value == s.entries[key].value
  {
  }

  /** After a clear every read misses. */
  lemma ClearThenGetMisses<V>(s: Store<V>, key: Key, o: GetOptions, now: int)
    ensures Get(Clear(s), key, o, now).value == None
  {
  }

  /** A run of default lookups, each a key and the instant it is read at, applied in order. */
  function ReadAll<V>(s: Store<V>, lookups: seq<(Key, int)>): (r: Store<V>)
    requires Invariant(s)
    ensures Invariant(r)
    ensures r.max == s.max && r.ttl == s.ttl && r.updateAgeOnGet == s.updateAgeOnGet
    ensures forall k :: k in r.entries ==> k in s.entries
    decreases |lookups|
  {
    if lookups == [] then s
    else ReadAll(Get(s, lookups[0].0, DefaultGetOptions, lookups[0].1).store, lookups[1..])
  }

  /** With `updateAgeOnGet` off, default reads never change an entry: they only drop stale ones. */
  lemma {:induction false} ReadsKeepEntries<V>(s: Store<V>, lookups: seq<(Key, int)>, key: Key)
    requires Invariant(s) && !s.updateAgeOnGet
    ensures key in ReadAll(s, lookups).entries ==> ReadAll(s, lookups).entries[key] == s.entries[key]
    decreases |lookups|
  {
    if lookups != [] {
      var t := Get(s, lookups[0].0, DefaultGetOptions, lookups[0].1).store;
      ReadsKeepEntries(t, lookups[1..], key);
      if key in ReadAll(s, lookups).entries {
        assert key in t.entries;
      }
    }
  }

  /**
   * With `updateAgeOnGet` off, reading an entry does not extend its life: an entry set with
   * time-to-live `ttl` at `t` is absent to any read after `t + ttl`, whatever was read between.
   */
  lemma ReadsDoNotExtendTtl<V>(s: Store<V>, key: Key, value: V, ttl: nat, t: int, lookups: seq<(Key, int)>, t2: int)
    requires Invariant(s) && !s.updateAgeOnGet && ttl > 0 && t2 > t + ttl
    ensures var s1 := Set(s, key, value, SetOptions(Some(ttl)), t);
      Get(ReadAll(s1, lookups), key, DefaultGetOptions, t2).value == None
  {
    var s1 := Set(s, key, value, SetOptions(Some(ttl)), t);
    ReadsKeepEntries(s1, lookups, key);
  }

  /**
   * With `updateAgeOnGet` on, a live read restarts the entry's time-to-live: a read within
   * `ttl` of the previous one still finds it, even past `t + ttl`.
   */
  lemma ReadsExtendTtlWhenConfigured<V>(s: Store<V>, key: Key, value: V, ttl: nat, t: int, t1: int, t2: int)
    requires Invariant(s) && s.updateAgeOnGet
    requires t <= t1 <= t + ttl && t1 <= t2 <= t1 + ttl
    ensures var s1 := Set(s, key, value, SetOptions(Some(ttl)), t);
      var s2 := Get(s1, key, DefaultGetOptions, t1).store;
      Get(s2, key, DefaultGetOptions, t2).value == Some(value)
  {
    var s1 := Set(s, key, value, SetOptions(Some(ttl)), t);
    var s2 := Get(s1, key, DefaultGetOptions, t1).store;
    assert s2.entries[key] == Entry(value, t1, ttl);
  }

  /**
   * The LRU policy in action: in a full store holding at least two entries, after a read of
   * the live key `c` the insertion of a new key `d` keeps `c` and evicts exactly the key used
   * longest ago among the others.
   */
  lemma {:induction false} ReadThenInsertEvictsLeastRecent<V>(s: Store<V>, c: Key, d: Key, value: V, o: SetOptions, now: int)
    requires Invariant(s) && s.max >= 2 && Size(s) == s.max
    requires c in s.entries && !Stale(s.entries[c], now) && d !in s.entries
    ensures var u := Set(Get(s, c, DefaultGetOptions, now).store, d, value, o, now);
      && c in u.entries && d in u.entries
      && forall k :: k in s.entries ==>
           (k !in u.entries <==> k != c && forall y :: y in s.entries && y != c && y != k ==> Before(s.recency, k, y))
  {
    var t := Get(s, c, DefaultGetOptions, now).store;
    var u := Set(t, d, value, o, now);
    SizeIsRecencyLength(t);
    var k0 := t.recency[0];
    assert k0 in t.entries;
    assert k0 != c by {
      assert t.recency[|t.recency| - 1] == c;
    }
    assert k0 !in u.entries;
    forall k | k in s.entries
      ensures k !in u.entries <==> k != c && forall y :: y in s.entries && y != c && y != k ==> Before(s.recency, k, y)
    {
      if k !in u.entries {
        assert k == k0;
        forall y | y in s.entries && y != c && y != k
          ensures Before(s.recency, k, y)
        {
          FirstIsBefore(t.recency, y);
        }
      } else if k != c && forall y :: y in s.entries && y != c && y != k ==> Before(s.recency, k, y) {
        assert k != k0;
        assert Before(s.recency, k, k0);
        FirstIsBefore(t.recency, k);
        assert Before(s.recency, k0, k);
        BeforeAsymmetric(s.recency, k, k0);
        assert false;
      }
    }
  }
}
