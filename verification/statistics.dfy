/**
 * `processHourlyData` (script.js 748-792): the integrity check on the box
 * window, then statistics and price classes over the chart window; and the
 * memo `memoizedGetPriceCategory` the classes go through.
 */
module Statistics {
  import opened Wrappers
  import opened Tertiles
  import opened Cache
  import opened Window

  /** A box-window entry as the integrity check sees it: either field may be missing or not a number (`None`). */
  datatype Item = Item(timeStart: string, timestamp: Option<int>, price: Option<int>)

  function AsItem(r: Record): Item {
    Item(r.timeStart, Some(r.timestamp), Some(r.price))
  }

  /** What `Math.min(...xs)` / `Math.max(...xs)` give: a number, or +Infinity / -Infinity for no arguments. */
  datatype Extremum = Value(v: int) | PosInfinity | NegInfinity

  /** The average before `toFixed(2)`: `sum / count`, which is NaN when `count` is 0. */
  datatype Mean = Mean(sum: int, count: nat)

  datatype Stats = Stats(lowest: Extremum, highest: Extremum, average: Mean)

  /** `{ lowest: 0, highest: 0, average: '0.00' }`. */
  const ZeroStats := Stats(Value(0), Value(0), Mean(0, 1))

  /** The object `processHourlyData` returns. `times` holds the raw start strings; their formatting is display work. */
  datatype Summary = Summary(prices: seq<int>, times: seq<string>, stats: Stats, colors: seq<Category>)

  /** What the integrity check returns when it fails. */
  const IntegrityFailureSummary := Summary([], [], ZeroStats, [])

  function Prices(chart: seq<Record>): (ps: seq<int>)
    ensures |ps| == |chart|
    ensures forall k :: 0 <= k < |chart| ==> ps[k] == chart[k].price
  {
    seq(|chart|, k requires 0 <= k < |chart| => chart[k].price)
  }

  function Lowest(ps: seq<int>): (m: int)
    requires |ps| > 0
    ensures forall k :: 0 <= k < |ps| ==> m <= ps[k]
    ensures exists k :: 0 <= k < |ps| && ps[k] == m
  {
    if |ps| == 1 then ps[0]
    else
      var rest := Lowest(ps[1..]);
      assert forall k :: 1 <= k < |ps| ==> ps[k] == ps[1..][k - 1];
      if ps[0] <= rest then ps[0] else rest
  }

  function Highest(ps: seq<int>): (m: int)
    requires |ps| > 0
    ensures forall k :: 0 <= k < |ps| ==> ps[k] <= m
    ensures exists k :: 0 <= k < |ps| && ps[k] == m
  {
    if |ps| == 1 then ps[0]
    else
      var rest := Highest(ps[1..]);
      assert forall k :: 1 <= k < |ps| ==> ps[k] == ps[1..][k - 1];
      if ps[0] >= rest then ps[0] else rest
  }

  /** The total of the prices, 0 for none. */
  function Sum(ps: seq<int>): int {
    if |ps| == 0 then 0 else ps[0] + Sum(ps[1..])
  }

  /** A sum of `n` values within [lo, hi] lies within [n * lo, n * hi]. */
  lemma {:induction false} SumBounds(ps: seq<int>, lo: int, hi: int)
    requires forall k :: 0 <= k < |ps| ==> lo <= ps[k] <= hi
    ensures lo * |ps| <= Sum(ps) <= hi * |ps|
  {
    if |ps| > 0 {
      SumBounds(ps[1..], lo, hi);
      assert lo * |ps| == lo * (|ps| - 1) + lo;
      assert hi * |ps| == hi * (|ps| - 1) + hi;
    }
  }

  /**
   * The statistics object over the chart prices: minimum, maximum and mean,
   * which for no prices are +Infinity, -Infinity and NaN.
   */
  function Aggregate(ps: seq<int>): (s: Stats)
    ensures |ps| == 0 ==> s == Stats(PosInfinity, NegInfinity, Mean(0, 0))
    ensures |ps| > 0 ==> s.lowest.Value? && s.highest.Value? && s.average == Mean(Sum(ps), |ps|)
    ensures |ps| > 0 ==> forall k :: 0 <= k < |ps| ==> s.lowest.v <= ps[k] <= s.highest.v
    ensures |ps| > 0 ==> exists k :: 0 <= k < |ps| && ps[k] == s.lowest.v
    ensures |ps| > 0 ==> exists k :: 0 <= k < |ps| && ps[k] == s.highest.v
    ensures |ps| > 0 ==> s.lowest.v * |ps| <= Sum(ps) <= s.highest.v * |ps|
  {
    if |ps| == 0 then Stats(PosInfinity, NegInfinity, Mean(0, 0))
    else
      SumBounds(ps, Lowest(ps), Highest(ps));
      Stats(Value(Lowest(ps)), Value(Highest(ps)), Mean(Sum(ps), |ps|))
  }

  /** Every box entry carries a numeric price and timestamp. */
  predicate HasValidCache(hours: seq<Item>) {
    forall k :: 0 <= k < |hours| ==> hours[k].price.Some? && hours[k].timestamp.Some?
  }

  /** Each price's class within [lowest, highest]. */
  function Classify(ps: seq<int>, lowest: int, highest: int): (cs: seq<Category>)
    ensures |cs| == |ps|
    ensures forall k :: 0 <= k < |ps| ==> cs[k] == PriceCategory(ps[k], lowest, highest)
  {
    seq(|ps|, k requires 0 <= k < |ps| => PriceCategory(ps[k], lowest, highest))
  }

  /**
   * `processHourlyData(hours, chartHours)`. A box entry without numeric
   * fields clears the data cache and yields the integrity-failure summary;
   * otherwise the prices, times and statistics come from the chart window,
   * and each chart hour is classed through `memoizedGetPriceCategory`, one
   * memo lookup per hour. Classes are looked up by each record's price (see
   * `ColorsAsWritten` for what the source's colour list computes).
   */
  function ProcessHourlyData(hours: seq<Item>, chart: seq<Record>, st: CacheState, now: int): (r: (Summary, CacheState))
    ensures !HasValidCache(hours) ==> r.0 == IntegrityFailureSummary && r.1 == Clear(st, now)
    ensures HasValidCache(hours) ==> r.1.data == st.data && r.1.stats.lastCleared == st.stats.lastCleared
    ensures HasValidCache(hours) ==> r.1.stats.Requests() == st.stats.Requests() + |chart|
    ensures HasValidCache(hours) ==> st.categories.Keys <= r.1.categories.Keys
    ensures HasValidCache(hours) ==> r.0.prices == Prices(chart) && r.0.stats == Aggregate(Prices(chart))
    ensures HasValidCache(hours) ==> |r.0.times| == |chart| && forall k :: 0 <= k < |chart| ==> r.0.times[k] == chart[k].timeStart
    ensures HasValidCache(hours) ==> |r.0.colors| == |chart|
  {
    if !HasValidCache(hours) then (IntegrityFailureSummary, Clear(st, now))
    else
      var prices := Prices(chart);
      var stats := Aggregate(prices);
      var times := seq(|chart|, k requires 0 <= k < |chart| => chart[k].timeStart);
      if |chart| == 0 then (Summary(prices, times, stats, []), st)
      else
        var run := MemoClassifyAll(st.categories, prices, stats.lowest.v, stats.highest.v, st.stats);
        (Summary(prices, times, stats, run.classes), st.(categories := run.memo, stats := run.stats))
  }

  /**
   * With a price-class memo that only ever stored `getPriceCategory`'s
   * answers, every chart hour gets the tertile class of its price within
   * the chart's lowest and highest, and the memo keeps that property.
   */
  lemma ProcessHourlyClasses(hours: seq<Item>, chart: seq<Record>, st: CacheState, now: int)
    requires Sound(st.categories, CategoryOfKey)
    ensures Sound(ProcessHourlyData(hours, chart, st, now).1.categories, CategoryOfKey)
    ensures var s := ProcessHourlyData(hours, chart, st, now).0;
      HasValidCache(hours) && |chart| > 0 ==> forall k :: 0 <= k < |chart| ==>
        s.colors[k] == PriceCategory(chart[k].price, s.stats.lowest.v, s.stats.highest.v)
  {
    if HasValidCache(hours) && |chart| > 0 {
      var stats := Aggregate(Prices(chart));
      MemoClassifyAgrees(st.categories, Prices(chart), stats.lowest.v, stats.highest.v, st.stats);
    }
  }

  /** Statistics and classes depend on the chart window only, never on which valid box entries were passed. */
  lemma StatsFromChartOnly(h1: seq<Item>, h2: seq<Item>, chart: seq<Record>, st: CacheState, now: int)
    requires HasValidCache(h1) && HasValidCache(h2)
    ensures ProcessHourlyData(h1, chart, st, now) == ProcessHourlyData(h2, chart, st, now)
  {
  }

  /**
   * For a non-empty chart the lowest and highest statistics are prices of
   * the chart that bound all others, and the average lies between them;
   * the cheapest hour is classed low, and when prices differ the dearest is
   * classed high.
   */
  lemma ChartStatistics(hours: seq<Item>, chart: seq<Record>, st: CacheState, now: int)
    requires Sound(st.categories, CategoryOfKey)
    requires HasValidCache(hours) && |chart| > 0
    ensures var s := ProcessHourlyData(hours, chart, st, now).0;
      && s.stats.lowest.Value? && s.stats.highest.Value?
      && (exists k :: 0 <= k < |chart| && chart[k].price == s.stats.lowest.v && s.colors[k] == Low)
      && (s.stats.lowest.v < s.stats.highest.v ==>
            exists k :: 0 <= k < |chart| && chart[k].price == s.stats.highest.v && s.colors[k] == High)
      && s.stats.lowest.v * |chart| <= s.stats.average.sum <= s.stats.highest.v * |chart|
      && s.stats.average.count == |chart|
  {
    var s := ProcessHourlyData(hours, chart, st, now).0;
    var lo := s.stats.lowest.v;
    var hi := s.stats.highest.v;
    var ps := Prices(chart);
    var i :| 0 <= i < |ps| && ps[i] == lo;
    ProcessHourlyClasses(hours, chart, st, now);
    ExtremesClassified(lo, hi);
    assert s.colors[i] == Low;
    var j :| 0 <= j < |ps| && ps[j] == hi;
    assert lo < hi ==> s.colors[j] == High;
  }

  /** With no chart records the statistics are +Infinity, -Infinity and NaN, not zeros. */
  lemma EmptyChartStatistics(hours: seq<Item>, st: CacheState, now: int)
    requires HasValidCache(hours)
    ensures ProcessHourlyData(hours, [], st, now).0 == Summary([], [], Stats(PosInfinity, NegInfinity, Mean(0, 0)), [])
  {
  }

  /**
   * The colour list as script.js 782-784 writes it: the callback parameter
   * named `price` is the whole record, which every `<=` treats as NaN, so
   * every hour is classed high whatever its price.
   */
  function ColorsAsWritten(chart: seq<Record>, lowest: int, highest: int): (cs: seq<Category>)
    ensures |cs| == |chart|
    ensures forall k :: 0 <= k < |cs| ==> cs[k] == High
  {
    var c := CategoryOfOperand(Object, lowest, highest);
    seq(|chart|, _ => c)
  }

  /** A two-hour chart at 0 and 100 öre: as written both are high; classified by price, low then high. */
  lemma ColorDefectWitness(st: CacheState)
    requires Sound(st.categories, CategoryOfKey)
    ensures var chart := [Record("00:00", 0, 0), Record("01:00", HOUR_MS, 10000)];
      var s := ProcessHourlyData([AsItem(chart[0])], chart, st, 0).0;
      && s.stats == Stats(Value(0), Value(10000), Mean(10000, 2))
      && s.colors == [Low, High]
      && ColorsAsWritten(chart, 0, 10000) == [High, High]
  {
    var chart := [Record("00:00", 0, 0), Record("01:00", HOUR_MS, 10000)];
    var ps := Prices(chart);
    assert ps == [0, 10000];
    assert Sum(ps) == 10000 by {
      assert ps[1..] == [10000];
      assert [10000][1..] == [];
      assert Sum([10000]) == 10000 + Sum([]);
    }
    assert Lowest(ps) == 0;
    assert Highest(ps) == 10000;
    var s := ProcessHourlyData([AsItem(chart[0])], chart, st, 0).0;
    assert s.colors[0] == Low && s.colors[1] == High by {
      ProcessHourlyClasses([AsItem(chart[0])], chart, st, 0);
      ExtremesClassified(0, 10000);
    }
    var asWritten := ColorsAsWritten(chart, 0, 10000);
    assert asWritten == [asWritten[0], asWritten[1]];
  }

  /** Memo keys: (price, lowest, highest). */
  type CategoryKey = (int, int, int)

  function CategoryOfKey(key: CategoryKey): Category {
    PriceCategory(key.0, key.1, key.2)
  }

  /** `memoizedGetPriceCategory`: `getPriceCategory` behind a memo keyed by its three arguments. */
  function MemoCategory(memo: map<CategoryKey, Category>, price: int, lowest: int, highest: int, stats: CacheStats): (r: Lookup<CategoryKey, Category>)
    ensures (price, lowest, highest) in memo ==> r.value == memo[(price, lowest, highest)] && r.entries == memo
    ensures (price, lowest, highest) !in memo ==>
      r.value == PriceCategory(price, lowest, highest) && r.entries == memo[(price, lowest, highest) := r.value]
    ensures r.stats.Requests() == stats.Requests() + 1 && r.stats.lastCleared == stats.lastCleared
  {
    GetCachedValue(memo, (price, lowest, highest), PriceCategory(price, lowest, highest), stats)
  }

  /** Classifying a list of prices one memo lookup at a time: classes, memo and counters after. */
  datatype MemoRun = MemoRun(classes: seq<Category>, memo: map<CategoryKey, Category>, stats: CacheStats)

  function MemoClassifyAll(memo: map<CategoryKey, Category>, ps: seq<int>, lowest: int, highest: int, stats: CacheStats): (r: MemoRun)
    ensures |r.classes| == |ps|
    ensures memo.Keys <= r.memo.Keys
    ensures forall k :: 0 <= k < |ps| ==> (ps[k], lowest, highest) in r.memo
    ensures r.stats.Requests() == stats.Requests() + |ps|
    ensures r.stats.lastCleared == stats.lastCleared
    decreases |ps|
  {
    if |ps| == 0 then MemoRun([], memo, stats)
    else
      var first := MemoCategory(memo, ps[0], lowest, highest, stats);
      var rest := MemoClassifyAll(first.entries, ps[1..], lowest, highest, first.stats);
      assert forall k :: 1 <= k < |ps| ==> ps[k] == ps[1..][k - 1];
      MemoRun([first.value] + rest.classes, rest.memo, rest.stats)
  }

  /**
   * Going through a memo that only ever stored `getPriceCategory`'s answers
   * gives exactly the direct classes and keeps the memo that way.
   */
  lemma {:induction false} MemoClassifyAgrees(memo: map<CategoryKey, Category>, ps: seq<int>, lowest: int, highest: int, stats: CacheStats)
    requires Sound(memo, CategoryOfKey)
    ensures forall k :: 0 <= k < |ps| ==>
      MemoClassifyAll(memo, ps, lowest, highest, stats).classes[k] == PriceCategory(ps[k], lowest, highest)
    ensures Sound(MemoClassifyAll(memo, ps, lowest, highest, stats).memo, CategoryOfKey)
    decreases |ps|
  {
    if |ps| > 0 {
      SoundLookup(memo, (ps[0], lowest, highest), CategoryOfKey, stats);
      var first := MemoCategory(memo, ps[0], lowest, highest, stats);
      MemoClassifyAgrees(first.entries, ps[1..], lowest, highest, first.stats);
      var r := MemoClassifyAll(memo, ps, lowest, highest, stats);
      forall k | 1 <= k < |ps|
        ensures r.classes[k] == PriceCategory(ps[k], lowest, highest)
      {
        assert ps[1..][k - 1] == ps[k];
      }
    }
  }
}
