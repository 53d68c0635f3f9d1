/**
 * `processData` (script.js 600-746) end to end: validation, cache
 * revalidation, per-record normalisation through the data cache, the
 * `lastUpdate` stamp, sorting, window selection and `processHourlyData`.
 */
module Pipeline {
  import opened Wrappers
  import opened Cache
  import opened Fetch
  import opened Window
  import opened Statistics
  import opened Tertiles

  /** The normalised price: the derived value, or 0 when it is NaN. */
  function DerivedPrice(item: RawRecord): int {
    item.price.GetOr(0)
  }

  /** The timestamp generator: the epoch milliseconds the key parses to. */
  function EpochOf(parse: string -> Instant): string -> int {
    (key: string) => parse(key).epochMs
  }

  /** `b` keeps every entry of `a` and the same `lastUpdate` and region. */
  predicate Extends(a: DataCache, b: DataCache) {
    && (forall k :: k in a.timestamps ==> k in b.timestamps && b.timestamps[k] == a.timestamps[k])
    && (forall k :: k in a.prices ==> k in b.prices && b.prices[k] == a.prices[k])
    && b.lastUpdate == a.lastUpdate
    && b.region == a.region
  }

  /**
   * One record through the two memo lookups keyed by its `time_start`: the
   * timestamp, then the price. A key seen before keeps the value it was
   * first given.
   */
  function Normalize(item: RawRecord, st: CacheState, parse: string -> Instant): (r: (Record, CacheState))
    ensures r.0.timeStart == item.timeStart
    ensures item.timeStart in r.1.data.timestamps && r.0.timestamp == r.1.data.timestamps[item.timeStart]
    ensures item.timeStart in r.1.data.prices && r.0.price == r.1.data.prices[item.timeStart]
    ensures item.timeStart in st.data.timestamps ==> r.0.timestamp == st.data.timestamps[item.timeStart]
    ensures item.timeStart !in st.data.timestamps ==> r.0.timestamp == parse(item.timeStart).epochMs
    ensures item.timeStart in st.data.prices ==> r.0.price == st.data.prices[item.timeStart]
    ensures item.timeStart !in st.data.prices ==> r.0.price == DerivedPrice(item)
    ensures r.1.data.timestamps.Keys == st.data.timestamps.Keys + {item.timeStart}
    ensures r.1.data.prices.Keys == st.data.prices.Keys + {item.timeStart}
    ensures Extends(st.data, r.1.data)
    ensures r.1.stats.Requests() == st.stats.Requests() + 2
    ensures r.1.stats.lastCleared == st.stats.lastCleared
    ensures r.1.categories == st.categories
  {
    var key := item.timeStart;
    var ts := GetCachedValue(st.data.timestamps, key, parse(key).epochMs, st.stats);
    var pr := GetCachedValue(st.data.prices, key, DerivedPrice(item), ts.stats);
    (Record(key, ts.value, pr.value), st.(data := st.data.(timestamps := ts.entries, prices := pr.entries), stats := pr.stats))
  }

  /**
   * `data.map(...)` over all records: one normalised record per input
   * record, in input order; earlier cache entries survive; two lookups per
   * record.
   */
  function NormalizeAll(items: seq<RawRecord>, st: CacheState, parse: string -> Instant): (r: (seq<Record>, CacheState))
    ensures |r.0| == |items|
    ensures forall k :: 0 <= k < |items| ==> r.0[k].timeStart == items[k].timeStart
    ensures forall k :: 0 <= k < |items| ==> items[k].timeStart in r.1.data.timestamps && items[k].timeStart in r.1.data.prices
    ensures Extends(st.data, r.1.data)
    ensures r.1.stats.Requests() == st.stats.Requests() + 2 * |items|
    ensures r.1.stats.lastCleared == st.stats.lastCleared
    ensures r.1.categories == st.categories
    decreases |items|
  {
    if |items| == 0 then ([], st)
    else
      var first := Normalize(items[0], st, parse);
      var rest := NormalizeAll(items[1..], first.1, parse);
      assert forall k :: 1 <= k < |items| ==> items[k] == items[1..][k - 1];
      ([first.0] + rest.0, rest.1)
  }

  /**
   * Each normalised record carries what its key holds in the cache after the
   * whole pass: a key's first value sticks for the rest of the pass.
   */
  lemma {:induction false} RecordsMatchCache(items: seq<RawRecord>, st: CacheState, parse: string -> Instant)
    ensures var r := NormalizeAll(items, st, parse);
      forall k :: 0 <= k < |items| ==>
        && r.0[k].timestamp == r.1.data.timestamps[items[k].timeStart]
        && r.0[k].price == r.1.data.prices[items[k].timeStart]
    decreases |items|
  {
    if |items| > 0 {
      var first := Normalize(items[0], st, parse);
      RecordsMatchCache(items[1..], first.1, parse);
      var r := NormalizeAll(items, st, parse);
      forall k | 1 <= k < |items|
        ensures r.0[k].timestamp == r.1.data.timestamps[items[k].timeStart]
        ensures r.0[k].price == r.1.data.prices[items[k].timeStart]
      {
        assert items[1..][k - 1] == items[k];
      }
    }
  }

  /**
   * A timestamp map that only ever held parsed times stays that way, so
   * every normalised record carries the parse of its own `time_start`.
   */
  lemma {:induction false} NormalizedTimestampsParsed(items: seq<RawRecord>, st: CacheState, parse: string -> Instant)
    requires Sound(st.data.timestamps, EpochOf(parse))
    ensures Sound(NormalizeAll(items, st, parse).1.data.timestamps, EpochOf(parse))
    ensures forall k :: 0 <= k < |items| ==>
      NormalizeAll(items, st, parse).0[k].timestamp == parse(items[k].timeStart).epochMs
    decreases |items|
  {
    RecordsMatchCache(items, st, parse);
    if |items| > 0 {
      var first := Normalize(items[0], st, parse);
      assert Sound(first.1.data.timestamps, EpochOf(parse));
      NormalizedTimestampsParsed(items[1..], first.1, parse);
    }
  }

  /** Keys not yet cached and all different: every record gets its own derived price. */
  lemma {:induction false} FreshPrices(items: seq<RawRecord>, st: CacheState, parse: string -> Instant)
    requires forall i, j :: 0 <= i < j < |items| ==> items[i].timeStart != items[j].timeStart
    requires forall k :: 0 <= k < |items| ==> items[k].timeStart !in st.data.prices
    ensures forall k :: 0 <= k < |items| ==> NormalizeAll(items, st, parse).0[k].price == DerivedPrice(items[k])
    decreases |items|
  {
    if |items| > 0 {
      var first := Normalize(items[0], st, parse);
      forall k | 0 <= k < |items[1..]|
        ensures items[1..][k].timeStart !in first.1.data.prices
      {
        assert items[1..][k] == items[k + 1];
      }
      FreshPrices(items[1..], first.1, parse);
      var r := NormalizeAll(items, st, parse);
      forall k | 1 <= k < |items|
        ensures r.0[k].price == DerivedPrice(items[k])
      {
        assert items[1..][k - 1] == items[k];
      }
    }
  }

  /** A key already cached keeps its cached price, whatever the new record says. */
  lemma CachedPriceWins(items: seq<RawRecord>, st: CacheState, parse: string -> Instant, k: nat)
    requires k < |items| && items[k].timeStart in st.data.prices
    ensures NormalizeAll(items, st, parse).0[k].price == st.data.prices[items[k].timeStart]
  {
    RecordsMatchCache(items, st, parse);
  }

  /** What `processData` reads from outside: the selected region, the time, the local clock and `Date` parsing. */
  datatype Env = Env(region: string, now: int, clock: Clock, parse: string -> Instant)

  /** The summary `processHourlyData([], [])` gives. */
  const NoDataSummary := Summary([], [], Stats(PosInfinity, NegInfinity, Mean(0, 0)), [])

  /**
   * `processData(data)`. Invalid data leaves the cache alone and yields the
   * summary of no hours. Valid data revalidates the cache for the region,
   * normalises every record through it, stamps `lastUpdate`, sorts, selects
   * the windows and summarises them; the integrity check always passes,
   * since every normalised record has a numeric price and timestamp. Every
   * memo lookup is counted: two per downloaded record, one per chart hour.
   */
  function ProcessData(data: Json, st: CacheState, env: Env): (r: (Summary, CacheState))
    ensures !ValidatePriceData(data) ==> r == (NoDataSummary, st)
    ensures ValidatePriceData(data) ==> r.1.data.region == Some(env.region) && r.1.data.lastUpdate == Some(env.now)
    ensures ValidatePriceData(data) ==> r.1.stats.Requests() == st.stats.Requests() + 2 * |data.items| + |r.0.prices|
    ensures ValidatePriceData(data) && ShouldInvalidate(st.data, env.region, env.now) ==> r.1.stats.lastCleared == Some(env.now)
    ensures ValidatePriceData(data) && !ShouldInvalidate(st.data, env.region, env.now) ==> r.1.stats.lastCleared == st.stats.lastCleared
    ensures ValidatePriceData(data) ==> |r.0.prices| <= 2 * CHART_SIZE - 2 && |r.0.times| == |r.0.prices| && |r.0.colors| == |r.0.prices|
    ensures ValidatePriceData(data) && !env.clock.NearMidnight() ==> |r.0.prices| <= CHART_SIZE
  {
    if !ValidatePriceData(data) then ProcessHourlyData([], [], st, env.now)
    else
      var revalidated := Revalidate(st, env.region, env.now);
      var normalized := NormalizeAll(data.items, revalidated, env.parse);
      var stamped := Stamp(normalized.1, env.now);
      var w := SelectWindows(SortByTime(normalized.0), env.clock);
      var hours := seq(|w.box|, k requires 0 <= k < |w.box| => AsItem(w.box[k]));
      assert HasValidCache(hours);
      ProcessHourlyData(hours, w.chart, stamped, env.now)
  }

  /**
   * Starting from a price-class memo that only holds `getPriceCategory`'s
   * answers (as the empty one at start-up does), every shown hour gets the
   * tertile class of its price within the shown lowest and highest, and the
   * memo stays that way for the next run.
   */
  lemma ShownClassesAreTertiles(data: Json, st: CacheState, env: Env)
    requires Sound(st.categories, CategoryOfKey)
    ensures Sound(ProcessData(data, st, env).1.categories, CategoryOfKey)
    ensures var s := ProcessData(data, st, env).0;
      |s.prices| > 0 ==> forall k :: 0 <= k < |s.prices| ==>
        s.colors[k] == PriceCategory(s.prices[k], s.stats.lowest.v, s.stats.highest.v)
  {
    if ValidatePriceData(data) {
      var revalidated := Revalidate(st, env.region, env.now);
      var normalized := NormalizeAll(data.items, revalidated, env.parse);
      var stamped := Stamp(normalized.1, env.now);
      var w := SelectWindows(SortByTime(normalized.0), env.clock);
      var hours := seq(|w.box|, k requires 0 <= k < |w.box| => AsItem(w.box[k]));
      assert HasValidCache(hours);
      ProcessHourlyClasses(hours, w.chart, stamped, env.now);
    }
  }

  /** After a run on valid data at a non-zero time, asking again for the same region at once does not invalidate. */
  lemma ImmediateRecheckIsFresh(data: Json, st: CacheState, env: Env)
    requires ValidatePriceData(data) && env.now != 0
    ensures !ShouldInvalidate(ProcessData(data, st, env).1.data, env.region, env.now)
  {
  }

  /**
   * From a cache that must be invalidated and with distinct `time_start`
   * keys, every price shown is the derived price of some downloaded record.
   */
  lemma FreshRunPricesFromData(data: Json, st: CacheState, env: Env)
    requires ValidatePriceData(data)
    requires ShouldInvalidate(st.data, env.region, env.now)
    requires forall i, j :: 0 <= i < j < |data.items| ==> data.items[i].timeStart != data.items[j].timeStart
    ensures var prices := ProcessData(data, st, env).0.prices;
      forall k :: 0 <= k < |prices| ==> exists j :: 0 <= j < |data.items| && Some(prices[k]) == data.items[j].price
  {
    var revalidated := Revalidate(st, env.region, env.now);
    var normalized := NormalizeAll(data.items, revalidated, env.parse);
    FreshPrices(data.items, revalidated, env.parse);
    var sorted := SortByTime(normalized.0);
    var w := SelectWindows(sorted, env.clock);
    var prices := ProcessData(data, st, env).0.prices;
    forall k | 0 <= k < |prices|
      ensures exists j :: 0 <= j < |data.items| && Some(prices[k]) == data.items[j].price
    {
      assert prices[k] == w.chart[k].price;
      assert w.chart[k] in sorted;
      assert w.chart[k] in multiset(normalized.0);
      var j :| 0 <= j < |normalized.0| && normalized.0[j] == w.chart[k];
      assert ValidRecord(data.items[j]);
    }
  }
}
