/**
 * The normalisation memo (`dataCache`), its observability counters
 * (`cacheStats`), the generic memo lookup `getCachedValue`, and the
 * expiry rule `shouldInvalidateCache`.
 */
module Cache {
  import opened Wrappers
  import opened Tertiles

  /** `CACHE_DURATION`: one hour in milliseconds. */
  const CACHE_DURATION := 3_600_000

  /** Hit and miss counters, and when the data cache was last cleared. */
  datatype CacheStats = CacheStats(hits: nat, misses: nat, lastCleared: Option<int>) {
    function Requests(): nat { hits + misses }
  }

  /**
   * Derived timestamps and prices keyed by the raw `time_start` string, the
   * epoch-millisecond time of the last population, and the region it was for.
   */
  datatype DataCache = DataCache(
    timestamps: map<string, int>,
    prices: map<string, int>,
    lastUpdate: Option<int>,
    region: Option<string>)

  /**
   * The process-wide memo state: `dataCache`, the map held by the closure of
   * `memoizedGetPriceCategory` (keyed by price, lowest and highest), and
   * `cacheStats`, which every lookup in either of them moves.
   */
  datatype CacheState = CacheState(data: DataCache, categories: map<(int, int, int), Category>, stats: CacheStats)

  const InitialState := CacheState(DataCache(map[], map[], None, None), map[], CacheStats(0, 0, None))

  /** What a lookup returns: the value, the map after the lookup, and the counters after it. */
  datatype Lookup<K, V> = Lookup(value: V, entries: map<K, V>, stats: CacheStats)

  /**
   * `getCachedValue`: a stored value is returned as is; otherwise the
   * generator's value (`generated`, only consulted on a miss) is stored
   * under `key` and returned. Exactly one counter moves.
   */
  function GetCachedValue<K, V>(m: map<K, V>, key: K, generated: V, stats: CacheStats): (r: Lookup<K, V>)
    ensures key in r.entries && r.entries[key] == r.value
    ensures r.entries.Keys == m.Keys + {key}
    ensures forall k :: k in m ==> r.entries[k] == m[k]
    ensures key in m ==> r.value == m[key] && r.entries == m
    ensures key !in m ==> r.value == generated
    ensures r.stats.Requests() == stats.Requests() + 1
    ensures key in m <==> r.stats.hits == stats.hits + 1
    ensures key !in m <==> r.stats.misses == stats.misses + 1
    ensures r.stats.lastCleared == stats.lastCleared
  {
    if key in m then Lookup(m[key], m, stats.(hits := stats.hits + 1))
    else Lookup(generated, m[key := generated], stats.(misses := stats.misses + 1))
  }

  /** Every entry of `m` is what the generator `f` gives for its key. */
  ghost predicate Sound<K, V>(m: map<K, V>, f: K -> V) {
    forall k :: k in m ==> m[k] == f(k)
  }

  /** A lookup through a sound memo answers exactly what the generator would, and keeps the memo sound. */
  lemma SoundLookup<K, V>(m: map<K, V>, key: K, f: K -> V, stats: CacheStats)
    requires Sound(m, f)
    ensures GetCachedValue(m, key, f(key), stats).value == f(key)
    ensures Sound(GetCachedValue(m, key, f(key), stats).entries, f)
  {
  }

  /**
   * `shouldInvalidateCache`: no usable `lastUpdate` (unset, or the falsy
   * value 0), more than an hour since it, or a different region.
   */
  function ShouldInvalidate(c: DataCache, region: string, now: int): (b: bool)
    ensures c.region != Some(region) ==> b
    ensures c.lastUpdate.None? || c.lastUpdate == Some(0) ==> b
    ensures !b <==> exists t :: t != 0 && c.lastUpdate == Some(t) && now <= t + CACHE_DURATION && c.region == Some(region)
  {
    || c.lastUpdate == None
    || c.lastUpdate == Some(0)
    || now - c.lastUpdate.value > CACHE_DURATION
    || c.region != Some(region)
  }

  /** Once the cache has expired for a region it stays expired as time moves on, until a refresh. */
  lemma ExpiryPersists(c: DataCache, region: string, now: int, later: int)
    requires now <= later
    ensures ShouldInvalidate(c, region, now) ==> ShouldInvalidate(c, region, later)
  {
  }

  /**
   * `dataCache.clear()`: empties both maps and forgets `lastUpdate`, but
   * keeps the region; the price-class memo is a different map and survives.
   */
  function Clear(st: CacheState, now: int): (r: CacheState)
    ensures r.data.timestamps == map[] && r.data.prices == map[]
    ensures r.data.lastUpdate == None
    ensures r.data.region == st.data.region
    ensures r.categories == st.categories
    ensures r.stats.hits == st.stats.hits && r.stats.misses == st.stats.misses
    ensures r.stats.lastCleared == Some(now)
  {
    st.(data := st.data.(timestamps := map[], prices := map[], lastUpdate := None),
        stats := st.stats.(lastCleared := Some(now)))
  }

  /** Invalidates if needed and adopts `region` (script.js 612-619). */
  function Revalidate(st: CacheState, region: string, now: int): (r: CacheState)
    ensures r.data.region == Some(region)
    ensures ShouldInvalidate(st.data, region, now) ==> r == Clear(st, now).(data := Clear(st, now).data.(region := Some(region)))
    ensures !ShouldInvalidate(st.data, region, now) ==> r == st
  {
    if ShouldInvalidate(st.data, region, now) then
      var cleared := Clear(st, now);
      cleared.(data := cleared.data.(region := Some(region)))
    else st
  }

  /** Records the time of this population in `lastUpdate`. */
  function Stamp(st: CacheState, now: int): CacheState {
    st.(data := st.data.(lastUpdate := Some(now)))
  }

  /**
   * Right after a refresh for `region` at a non-zero time, re-checking the
   * same region at the same time does not invalidate; an hour and one
   * millisecond later it does, and so does any other region.
   */
  lemma FreshAfterRefresh(st: CacheState, region: string, other: string, now: int)
    requires now != 0
    requires other != region
    ensures !ShouldInvalidate(Stamp(Revalidate(st, region, now), now).data, region, now)
    ensures !ShouldInvalidate(Stamp(Revalidate(st, region, now), now).data, region, now + CACHE_DURATION)
    ensures ShouldInvalidate(Stamp(Revalidate(st, region, now), now).data, region, now + CACHE_DURATION + 1)
    ensures ShouldInvalidate(Stamp(Revalidate(st, region, now), now).data, other, now)
  {
  }

  /** A refresh stamped at time 0 leaves the cache looking unset, since 0 is falsy. */
  lemma ZeroStampLooksUnset(st: CacheState, region: string)
    ensures ShouldInvalidate(Stamp(Revalidate(st, region, 0), 0).data, region, 0)
  {
  }

  /** Invalidation clears every derived entry, so nothing computed for another region survives. */
  lemma InvalidationForgetsEntries(st: CacheState, region: string, now: int)
    requires st.data.region != Some(region)
    ensures Revalidate(st, region, now).data.timestamps == map[]
    ensures Revalidate(st, region, now).data.prices == map[]
  {
  }
}
