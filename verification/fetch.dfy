/**
 * What arrives from the price API, the check `validatePriceData` applies to
 * it, and the pure tail of `fetchPrices`: combining the settled "today" and
 * "tomorrow" downloads and keeping only the records that start an hour.
 * The downloads themselves (direct fetch, then CORS proxies) are inputs.
 */
module Fetch {
  import opened Wrappers
  import opened Seqs

  /**
   * What the script's `Date` makes of a `time_start` string: epoch
   * milliseconds, and the local minute and second.
   */
  datatype Instant = Instant(epochMs: int, minutes: int, seconds: int)

  /**
   * One API record. `price` is the value the script derives from
   * `SEK_per_kWh` (times 100, rounded to two decimals) in hundredths of an
   * öre; `None` when the field is missing, not a number, or NaN. A missing
   * `time_start` is the empty string.
   */
  datatype RawRecord = RawRecord(timeStart: string, price: Option<int>)

  /** A parsed response body: an array of records, or any other JSON value. */
  datatype Json = JsonArray(items: seq<RawRecord>) | JsonOther

  /** A `Promise.allSettled` outcome of one download. */
  datatype Settled = Fulfilled(body: Json) | Rejected

  const NO_DATA_ERROR := "Kunde inte hämta prisdata för varken idag eller imorgon"

  /** A record `validatePriceData` accepts: a truthy `time_start` and a numeric, non-NaN price. */
  predicate ValidRecord(r: RawRecord) {
    r.timeStart != "" && r.price.Some?
  }

  /** `validatePriceData`: a non-empty array of valid records. */
  function ValidatePriceData(data: Json): (ok: bool)
    ensures ok ==> data.JsonArray? && |data.items| > 0
    ensures ok <==> data.JsonArray? && data.items != [] && forall x :: x in data.items ==> ValidRecord(x)
  {
    data.JsonArray? && |data.items| > 0 && forall k :: 0 <= k < |data.items| ==> ValidRecord(data.items[k])
  }

  /** The records a settled download contributes: its array, or nothing. */
  function Contribution(s: Settled): seq<RawRecord> {
    if s.Fulfilled? && s.body.JsonArray? then s.body.items else []
  }

  /** Starts exactly on the hour, by the local minute and second of its parsed time. */
  predicate StartsHour(parse: string -> Instant, r: RawRecord) {
    parse(r.timeStart).minutes == 0 && parse(r.timeStart).seconds == 0
  }

  /** `filterHourlyPrices`. */
  function FilterHourly(data: seq<RawRecord>, parse: string -> Instant): (r: seq<RawRecord>)
    ensures forall x :: x in r <==> x in data && StartsHour(parse, x)
    ensures forall x :: multiset(r)[x] == if StartsHour(parse, x) then multiset(data)[x] else 0
  {
    var p := (x: RawRecord) => StartsHour(parse, x);
    forall x {
      FilterMultiplicity(data, p, x);
    }
    Filter(data, p)
  }

  /**
   * `filter` keeps download order: the hourly records of the first `k + 1`
   * records are those of the first `k`, followed by record `k` when it
   * starts an hour. With `FilterHourly([]) == []` this fixes the result.
   */
  lemma FilterHourlyInOrder(data: seq<RawRecord>, parse: string -> Instant, k: nat)
    requires k < |data|
    ensures FilterHourly(data[..k + 1], parse)
      == FilterHourly(data[..k], parse) + (if StartsHour(parse, data[k]) then [data[k]] else [])
  {
    FilterStep(data, (x: RawRecord) => StartsHour(parse, x), k);
  }

  /**
   * The tail of `fetchPrices`: today's records then tomorrow's, an error
   * when neither download produced an array with records, and otherwise the
   * hourly records, or all of them when none starts an hour.
   */
  function CombineAndFilter(today: Settled, tomorrow: Settled, parse: string -> Instant): (r: Result<seq<RawRecord>, string>)
    ensures r.Failure? <==> |Contribution(today)| + |Contribution(tomorrow)| == 0
    ensures r.Failure? ==> r.error == NO_DATA_ERROR
    ensures r.Success? ==> |r.value| > 0
    ensures r.Success? ==> forall x :: x in r.value ==> x in Contribution(today) || x in Contribution(tomorrow)
  {
    var combined := Contribution(today) + Contribution(tomorrow);
    if |combined| == 0 then Failure(NO_DATA_ERROR)
    else
      var hourly := FilterHourly(combined, parse);
      if |hourly| > 0 then Success(hourly) else Success(combined)
  }

  /**
   * When some downloaded record starts an hour, the combine step passes on
   * exactly the hourly records, today's before tomorrow's, each download's
   * in its own order.
   */
  lemma CombineKeepsHourlyInOrder(today: Settled, tomorrow: Settled, parse: string -> Instant)
    requires exists x :: x in Contribution(today) + Contribution(tomorrow) && StartsHour(parse, x)
    ensures CombineAndFilter(today, tomorrow, parse)
      == Success(FilterHourly(Contribution(today), parse) + FilterHourly(Contribution(tomorrow), parse))
  {
    var combined := Contribution(today) + Contribution(tomorrow);
    FilterConcat(Contribution(today), Contribution(tomorrow), (x: RawRecord) => StartsHour(parse, x));
    var x :| x in combined && StartsHour(parse, x);
    assert x in FilterHourly(combined, parse);
  }

  /** When no downloaded record starts an hour, everything downloaded is passed on unfiltered. */
  lemma CombineFallsBackToAll(today: Settled, tomorrow: Settled, parse: string -> Instant)
    requires |Contribution(today)| + |Contribution(tomorrow)| > 0
    requires forall x :: x in Contribution(today) + Contribution(tomorrow) ==> !StartsHour(parse, x)
    ensures CombineAndFilter(today, tomorrow, parse) == Success(Contribution(today) + Contribution(tomorrow))
  {
    FilterNone(Contribution(today) + Contribution(tomorrow), (x: RawRecord) => StartsHour(parse, x));
  }

  /** A failed "tomorrow" download degrades to today's data only; a failed "today" one to tomorrow's. */
  lemma OneFailedDownload(good: Json, parse: string -> Instant)
    ensures CombineAndFilter(Fulfilled(good), Rejected, parse) == CombineAndFilter(Fulfilled(good), Fulfilled(JsonOther), parse)
    ensures CombineAndFilter(Rejected, Fulfilled(good), parse) == CombineAndFilter(Fulfilled(JsonOther), Fulfilled(good), parse)
    ensures good.JsonArray? && |good.items| > 0 ==> CombineAndFilter(Fulfilled(good), Rejected, parse).Success?
  {
    assert Contribution(Rejected) == Contribution(Fulfilled(JsonOther)) == [];
    assert Contribution(Fulfilled(good)) + [] == Contribution(Fulfilled(good));
  }

  /** Everything the combine step passes on from valid downloads is itself valid. */
  lemma CombinedDataValid(today: Settled, tomorrow: Settled, parse: string -> Instant)
    requires forall x :: x in Contribution(today) ==> ValidRecord(x)
    requires forall x :: x in Contribution(tomorrow) ==> ValidRecord(x)
    requires CombineAndFilter(today, tomorrow, parse).Success?
    ensures ValidatePriceData(JsonArray(CombineAndFilter(today, tomorrow, parse).value))
  {
    var r := CombineAndFilter(today, tomorrow, parse).value;
    forall k | 0 <= k < |r|
      ensures ValidRecord(r[k])
    {
      assert r[k] in r;
    }
  }
}
