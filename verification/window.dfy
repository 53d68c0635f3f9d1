/**
 * The window selector of `processData` (script.js 647-745): sort the
 * normalised records by timestamp, then pick where the 8-record box window
 * and the 16-record chart window start, with the splice of tomorrow's
 * records from 22:00 on. "Now" is injected as a `Clock`.
 */
module Window {
  import opened Wrappers
  import opened Seqs

  const HOUR_MS := 3_600_000
  const DAY_MS := 86_400_000
  /** `MIDNIGHT_PREP_HOUR`: from this local hour on, tomorrow's records are spliced in. */
  const MIDNIGHT_PREP_HOUR := 22
  const BOX_SIZE := 8
  const CHART_SIZE := 16

  /** A normalised record: raw `time_start`, derived epoch-ms `timestamp`, derived price (hundredths of an öre). */
  datatype Record = Record(timeStart: string, timestamp: int, price: int)

  /** `Date.prototype.getHours()`. */
  type Hour = h: int | 0 <= h < 24

  /** The local wall clock: start of the current hour, start of the current day, and the hour of day. */
  datatype Clock = Clock(hourStart: int, dayStart: int, hour: Hour) {
    /** `nextHourTimestamp`: one hour after the current hour starts (days are taken to be 24 hours). */
    function NextHourStart(): int { hourStart + HOUR_MS }
    /** `tomorrowStart`: the current day's start plus 24 hours. */
    function TomorrowStart(): int { dayStart + DAY_MS }
    predicate NearMidnight() { hour >= MIDNIGHT_PREP_HOUR }
    /** The hour start lies `hour` whole hours into the day. */
    predicate Consistent() { hourStart == dayStart + hour * HOUR_MS }
  }

  /** The box window (price tiles) and the chart window (chart and statistics). */
  datatype Windows = Windows(box: seq<Record>, chart: seq<Record>)

  predicate SortedByTime(s: seq<Record>) {
    forall i, j :: 0 <= i < j < |s| ==> s[i].timestamp <= s[j].timestamp
  }

  /** Inserts `r` before the first element that is not earlier than it. */
  function Insert(r: Record, s: seq<Record>): (t: seq<Record>)
    requires SortedByTime(s)
    ensures SortedByTime(t)
    ensures multiset(t) == multiset(s) + multiset{r}
    ensures |t| == |s| + 1
    ensures t[0] == r || (|s| > 0 && t[0] == s[0])
  {
    if |s| == 0 then [r]
    else if r.timestamp <= s[0].timestamp then [r] + s
    else
      var rest := Insert(r, s[1..]);
      assert s == [s[0]] + s[1..];
      SortedCons(s[0], rest);
      [s[0]] + rest
  }

  /** Putting a record no later than the head of a sorted sequence in front keeps it sorted. */
  lemma SortedCons(x: Record, s: seq<Record>)
    requires SortedByTime(s)
    requires |s| > 0 ==> x.timestamp <= s[0].timestamp
    ensures SortedByTime([x] + s)
  {
    var t := [x] + s;
    forall i, j | 0 <= i < j < |t|
      ensures t[i].timestamp <= t[j].timestamp
    {
      if i > 0 {
        assert t[i] == s[i - 1] && t[j] == s[j - 1];
      } else {
        assert t[j] == s[j - 1];
        assert s[0].timestamp <= s[j - 1].timestamp;
      }
    }
  }

  /**
   * The sort by ascending timestamp. An element is inserted before the
   * elements equal to it that followed it, so records with equal timestamps
   * keep their input order, as the stable `Array.prototype.sort` keeps them.
   */
  function SortByTime(s: seq<Record>): (t: seq<Record>)
    ensures SortedByTime(t)
    ensures multiset(t) == multiset(s)
    ensures |t| == |s|
  {
    if |s| == 0 then []
    else
      assert s == [s[0]] + s[1..];
      Insert(s[0], SortByTime(s[1..]))
  }

  function IsAt(t: int): Record -> bool {
    (r: Record) => r.timestamp == t
  }

  function IsAtOrAfter(t: int): Record -> bool {
    (r: Record) => r.timestamp >= t
  }

  function IsBefore(t: int): Record -> bool {
    (r: Record) => r.timestamp < t
  }

  /** The box window of up to 8 records and the chart window of up to 16, both from `start`. */
  function WindowsFrom(s: seq<Record>, start: nat): (w: Windows)
    requires start <= |s|
    ensures w.box <= w.chart
    ensures start < |s| ==> |w.box| > 0
    ensures |w.box| <= BOX_SIZE && |w.chart| <= CHART_SIZE
    ensures forall x :: x in w.chart ==> x in s
  {
    Windows(Slice(s, start, BOX_SIZE), Slice(s, start, CHART_SIZE))
  }

  /** Tomorrow's records: those at or after the start of the next day, in order. */
  function Tomorrow(sorted: seq<Record>, c: Clock): seq<Record> {
    Filter(sorted, IsAtOrAfter(c.TomorrowStart()))
  }

  /**
   * The splice at script.js 675-707, applied when the current hour was found
   * near midnight. A short window is topped up from the start of tomorrow's
   * records; a full one keeps its first `24 - hour` records and continues
   * with tomorrow's. The chart top-up takes `16 - (24 - hour)` records, not
   * the shortfall, so the chart may exceed 16: a 15-record chart grows to 30
   * at 23:00.
   */
  function Rollover(w: Windows, tomorrow: seq<Record>, hour: Hour): (r: Windows)
    ensures |w.box| <= BOX_SIZE ==> |r.box| <= BOX_SIZE
    ensures |w.chart| <= CHART_SIZE ==> |r.chart| <= CHART_SIZE || |r.chart| <= (CHART_SIZE - 1) + (CHART_SIZE - (24 - hour))
    ensures |w.box| > 0 ==> |r.box| > 0
    ensures |w.chart| > 0 ==> |r.chart| > 0
    ensures forall x :: x in r.box ==> x in w.box || x in tomorrow
    ensures forall x :: x in r.chart ==> x in w.chart || x in tomorrow
  {
    var untilMidnight := 24 - hour;
    var needed := BOX_SIZE - untilMidnight;
    var neededChart := CHART_SIZE - untilMidnight;
    if needed > 0 && |tomorrow| > 0 then
      var box :=
        if |w.box| < BOX_SIZE then w.box + Prefix(tomorrow, BOX_SIZE - |w.box|)
        else Prefix(w.box, untilMidnight) + Prefix(tomorrow, needed);
      var chart :=
        if |w.chart| < CHART_SIZE then w.chart + Prefix(tomorrow, neededChart)
        else Prefix(w.chart, untilMidnight) + Prefix(tomorrow, neededChart);
      Windows(box, chart)
    else w
  }

  /**
   * The windows `processData` hands to `processHourlyData`, from the sorted
   * records: the current hour's record if present (with the midnight splice
   * from 22:00), else the first record from the next hour on, else the first
   * record before the current hour, else nothing.
   */
  function SelectWindows(sorted: seq<Record>, c: Clock): (w: Windows)
    ensures |w.box| <= BOX_SIZE
    ensures |w.chart| <= 2 * CHART_SIZE - 2
    ensures !c.NearMidnight() ==> |w.chart| <= CHART_SIZE
    ensures forall x :: x in w.box ==> x in sorted
    ensures forall x :: x in w.chart ==> x in sorted
  {
    match FindIndex(sorted, IsAt(c.hourStart))
    case Some(i) =>
      var w := WindowsFrom(sorted, i);
      if c.NearMidnight() then Rollover(w, Tomorrow(sorted, c), c.hour) else w
    case None =>
      match FindIndex(sorted, IsAtOrAfter(c.NextHourStart()))
      case Some(j) => WindowsFrom(sorted, j)
      case None =>
        match FindIndex(sorted, IsBefore(c.hourStart))
        case Some(k) => WindowsFrom(sorted, k)
        case None => Windows([], [])
  }

  /** On sorted records, tomorrow's records are the suffix from the first one at or after `t`. */
  lemma FilterFromIsSuffix(s: seq<Record>, t: int)
    requires SortedByTime(s)
    ensures FindIndex(s, IsAtOrAfter(t)).Some? ==> Filter(s, IsAtOrAfter(t)) == s[FindIndex(s, IsAtOrAfter(t)).value..]
    ensures FindIndex(s, IsAtOrAfter(t)).None? ==> Filter(s, IsAtOrAfter(t)) == []
  {
    var p := IsAtOrAfter(t);
    match FindIndex(s, p)
    case Some(i) =>
      forall j | i <= j < |s|
        ensures p(s[j])
      {
        assert s[i].timestamp <= s[j].timestamp;
      }
      FilterSuffix(s, p, i);
    case None =>
      FilterNone(s, p);
  }

  /**
   * Before 22:00, with the current hour's record first found at `i`, the box
   * is the 8 records from `i` and the chart the 16 from `i` (fewer at the
   * end of the data); the box is a prefix of the chart.
   */
  lemma ExactMatchWindows(sorted: seq<Record>, c: Clock, i: nat)
    requires i < |sorted| && sorted[i].timestamp == c.hourStart
    requires forall j :: 0 <= j < i ==> sorted[j].timestamp != c.hourStart
    requires !c.NearMidnight()
    ensures SelectWindows(sorted, c).box == sorted[i..Min(i + BOX_SIZE, |sorted|)]
    ensures SelectWindows(sorted, c).chart == sorted[i..Min(i + CHART_SIZE, |sorted|)]
    ensures SelectWindows(sorted, c).box <= SelectWindows(sorted, c).chart
  {
    FindIndexIsFirst(sorted, IsAt(c.hourStart), i);
  }

  /**
   * From 22:00, with the current hour found at `i`, a full 8-record slice and
   * some of tomorrow's records, the box keeps the `24 - hour` records up to
   * midnight and continues with the first of tomorrow's.
   */
  lemma RolloverBoxSplice(sorted: seq<Record>, c: Clock, i: nat)
    requires i + BOX_SIZE <= |sorted| && sorted[i].timestamp == c.hourStart
    requires forall j :: 0 <= j < i ==> sorted[j].timestamp != c.hourStart
    requires c.NearMidnight()
    requires |Tomorrow(sorted, c)| > 0
    ensures SelectWindows(sorted, c).box
      == sorted[i..i + (24 - c.hour)] + Prefix(Tomorrow(sorted, c), BOX_SIZE - (24 - c.hour))
  {
    FindIndexIsFirst(sorted, IsAt(c.hourStart), i);
    var w := WindowsFrom(sorted, i);
    assert SelectWindows(sorted, c) == Rollover(w, Tomorrow(sorted, c), c.hour);
    assert w.box == sorted[i..i + BOX_SIZE];
    RolloverFullBox(w, Tomorrow(sorted, c), c.hour);
    assert Prefix(w.box, 24 - c.hour) == sorted[i..i + (24 - c.hour)];
  }

  /** A full box window at 22:00 or later keeps its records up to midnight and continues with tomorrow's. */
  lemma RolloverFullBox(w: Windows, tomorrow: seq<Record>, hour: Hour)
    requires |w.box| == BOX_SIZE && hour >= MIDNIGHT_PREP_HOUR && |tomorrow| > 0
    ensures Rollover(w, tomorrow, hour).box == Prefix(w.box, 24 - hour) + Prefix(tomorrow, BOX_SIZE - (24 - hour))
  {
  }

  /**
   * At 23:00, on sorted data holding the 23:00 record, the seven records
   * after it and at least seven of tomorrow's, the box holds exactly one
   * record of today followed by seven of tomorrow.
   */
  lemma ElevenPmBox(sorted: seq<Record>, c: Clock, i: nat)
    requires SortedByTime(sorted) && c.Consistent() && c.hour == 23
    requires i + BOX_SIZE <= |sorted| && sorted[i].timestamp == c.hourStart
    requires forall j :: 0 <= j < i ==> sorted[j].timestamp != c.hourStart
    requires |Tomorrow(sorted, c)| >= BOX_SIZE - 1
    ensures |SelectWindows(sorted, c).box| == BOX_SIZE
    ensures SelectWindows(sorted, c).box[0] == sorted[i]
    ensures SelectWindows(sorted, c).box[0].timestamp < c.TomorrowStart()
    ensures forall k :: 1 <= k < BOX_SIZE ==> SelectWindows(sorted, c).box[k].timestamp >= c.TomorrowStart()
  {
    RolloverBoxSplice(sorted, c, i);
    var tomorrow := Tomorrow(sorted, c);
    var box := SelectWindows(sorted, c).box;
    assert box == [sorted[i]] + tomorrow[..BOX_SIZE - 1];
    forall k | 1 <= k < BOX_SIZE
      ensures box[k].timestamp >= c.TomorrowStart()
    {
      assert box[k] == tomorrow[k - 1];
      assert box[k] in tomorrow;
    }
  }

  /**
   * Without a record for the current hour, the windows start at the first
   * record from the next hour on, and nothing is spliced, even near midnight.
   */
  lemma NextHourFallback(sorted: seq<Record>, c: Clock, j: nat)
    requires forall k :: 0 <= k < |sorted| ==> sorted[k].timestamp != c.hourStart
    requires j < |sorted| && sorted[j].timestamp >= c.NextHourStart()
    requires forall k :: 0 <= k < j ==> sorted[k].timestamp < c.NextHourStart()
    ensures SelectWindows(sorted, c).box == sorted[j..Min(j + BOX_SIZE, |sorted|)]
    ensures SelectWindows(sorted, c).chart == sorted[j..Min(j + CHART_SIZE, |sorted|)]
  {
    FindIndexIsFirst(sorted, IsAtOrAfter(c.NextHourStart()), j);
  }

  /**
   * With neither the current hour nor a later one in sorted data, but some
   * earlier record, the windows start at index 0: the earliest records, not
   * the most recent ones.
   */
  lemma PastFallbackIsEarliest(sorted: seq<Record>, c: Clock)
    requires SortedByTime(sorted)
    requires forall k :: 0 <= k < |sorted| ==> sorted[k].timestamp != c.hourStart
    requires forall k :: 0 <= k < |sorted| ==> sorted[k].timestamp < c.NextHourStart()
    requires exists k :: 0 <= k < |sorted| && sorted[k].timestamp < c.hourStart
    ensures SelectWindows(sorted, c).box == sorted[..Min(BOX_SIZE, |sorted|)]
    ensures SelectWindows(sorted, c).chart == sorted[..Min(CHART_SIZE, |sorted|)]
  {
    var k :| 0 <= k < |sorted| && sorted[k].timestamp < c.hourStart;
    assert sorted[0].timestamp <= sorted[k].timestamp;
    FindIndexIsFirst(sorted, IsBefore(c.hourStart), 0);
  }

  /**
   * Both windows are empty together, and exactly when every record lies
   * strictly inside the current hour (no record at its start, none from the
   * next hour on, none before it).
   */
  lemma EmptyWindowsIff(sorted: seq<Record>, c: Clock)
    ensures SelectWindows(sorted, c).box == [] <==> SelectWindows(sorted, c).chart == []
    ensures SelectWindows(sorted, c).box == []
      <==> forall k :: 0 <= k < |sorted| ==> c.hourStart < sorted[k].timestamp < c.NextHourStart()
  {
    var w := SelectWindows(sorted, c);
    if FindIndex(sorted, IsAt(c.hourStart)).Some? {
      var i := FindIndex(sorted, IsAt(c.hourStart)).value;
      assert |WindowsFrom(sorted, i).box| > 0;
      assert |w.box| > 0 && |w.chart| > 0;
    } else if FindIndex(sorted, IsAtOrAfter(c.NextHourStart())).Some? {
      var j := FindIndex(sorted, IsAtOrAfter(c.NextHourStart())).value;
      assert |w.box| > 0 && |w.chart| > 0;
    } else if FindIndex(sorted, IsBefore(c.hourStart)).Some? {
      var k := FindIndex(sorted, IsBefore(c.hourStart)).value;
      assert |w.box| > 0 && |w.chart| > 0;
    } else {
      assert forall k :: 0 <= k < |sorted| ==> !IsAt(c.hourStart)(sorted[k]) && !IsAtOrAfter(c.NextHourStart())(sorted[k]) && !IsBefore(c.hourStart)(sorted[k]);
    }
  }

  /** Today's 23:00 record followed by tomorrow's first `n` hours, with the day starting at 0. */
  function LateEvening(n: nat): seq<Record> {
    [Record("23:00", 23 * HOUR_MS, 0)] + seq(n, k => Record("tomorrow", DAY_MS + k * HOUR_MS, k))
  }

  const ElevenPm := Clock(23 * HOUR_MS, 0, 23)

  lemma LateEveningFacts(n: nat)
    ensures SortedByTime(LateEvening(n))
    ensures FindIndex(LateEvening(n), IsAt(ElevenPm.hourStart)) == Some(0)
    ensures Tomorrow(LateEvening(n), ElevenPm) == LateEvening(n)[1..]
  {
    var s := LateEvening(n);
    FindIndexIsFirst(s, IsAt(ElevenPm.hourStart), 0);
    if n > 0 {
      FindIndexIsFirst(s, IsAtOrAfter(ElevenPm.TomorrowStart()), 1);
    }
    FilterFromIsSuffix(s, ElevenPm.TomorrowStart());
  }

  /** At 23:00 on these records the current hour is found at index 0 and the midnight splice applies. */
  lemma ElevenPmSelection(n: nat)
    ensures SelectWindows(LateEvening(n), ElevenPm)
      == Rollover(WindowsFrom(LateEvening(n), 0), LateEvening(n)[1..], 23)
  {
    LateEveningFacts(n);
  }

  /**
   * At 23:00 with the 23:00 record and eight of tomorrow's hours, the chart
   * comes out with 17 records and holds tomorrow's first hour twice: the
   * short slice already contains tomorrow's records and the top-up appends
   * them again.
   */
  lemma ChartOverflowAtElevenPm()
    ensures |SelectWindows(LateEvening(8), ElevenPm).chart| == CHART_SIZE + 1
    ensures SelectWindows(LateEvening(8), ElevenPm).chart[1] == SelectWindows(LateEvening(8), ElevenPm).chart[9]
  {
    var s := LateEvening(8);
    ElevenPmSelection(8);
    var tomorrow := s[1..];
    var w := WindowsFrom(s, 0);
    assert w.chart == s;
    assert Prefix(tomorrow, CHART_SIZE - 1) == tomorrow;
    assert Rollover(w, tomorrow, 23).chart == s + tomorrow;
  }

  /** At 23:00 with the 23:00 record and one of tomorrow's, the box lists tomorrow's record twice. */
  lemma BoxDuplicateAtElevenPm()
    ensures SelectWindows(LateEvening(1), ElevenPm).box
      == [LateEvening(1)[0], LateEvening(1)[1], LateEvening(1)[1]]
  {
    var s := LateEvening(1);
    ElevenPmSelection(1);
    var tomorrow := s[1..];
    var w := WindowsFrom(s, 0);
    assert w.box == s;
    assert Prefix(tomorrow, BOX_SIZE - 2) == tomorrow;
    assert Rollover(w, tomorrow, 23).box == s + tomorrow;
  }
}
