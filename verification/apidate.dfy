/**
 * `formatDateForApi`: the `YYYY/MM-DD` path fragment of the price API's
 * URL, with month and day zero-padded to two digits. `ParseApiDate` reads
 * such a fragment back and is the partner the round trip is proved against.
 */
module ApiDate {
  import opened Wrappers

  /** `date.getMonth()`: 0 for January. */
  type MonthIndex = m: int | 0 <= m < 12
  /** `date.getDate()`. */
  type DayOfMonth = d: int | 1 <= d <= 31 witness 1

  function DigitChar(d: nat): char
    requires d < 10
  {
    "0123456789"[d]
  }

  function DigitValue(c: char): Option<nat> {
    if '0' <= c <= '9' then Some(c as int - '0' as int) else None
  }

  lemma DigitRoundTrip(d: nat)
    requires d < 10
    ensures DigitValue(DigitChar(d)) == Some(d)
  {
  }

  /** `String(n)` for a non-negative integer. */
  function NatToString(n: nat): (s: string)
    ensures |s| >= 1
    ensures n < 10 <==> |s| == 1
    ensures n < 100 ==> |s| <= 2
  {
    if n < 10 then [DigitChar(n)] else NatToString(n / 10) + [DigitChar(n % 10)]
  }

  /** `String(n)`: a minus sign before negative numbers. */
  function IntToString(n: int): string {
    if n < 0 then "-" + NatToString(-n) else NatToString(n)
  }

  /** `s.padStart(width, fill)`. */
  function PadStart(s: string, width: nat, fill: char): (r: string)
    ensures |r| == if |s| >= width then |s| else width
    ensures r[|r| - |s|..] == s
    ensures forall k :: 0 <= k < |r| - |s| ==> r[k] == fill
    decreases width - |s|
  {
    if |s| >= width then s else PadStart([fill] + s, width, fill)
  }

  function FormatDateForApi(year: int, month: MonthIndex, day: DayOfMonth): (s: string)
    ensures |s| == |IntToString(year)| + 6
  {
    var mm := PadStart(NatToString(month + 1), 2, '0');
    var dd := PadStart(NatToString(day), 2, '0');
    assert |mm| == 2 && |dd| == 2;
    IntToString(year) + "/" + mm + "-" + dd
  }

  /** Reads a non-empty run of decimal digits; leading zeros allowed. */
  function ParseNat(s: string): Option<nat> {
    if |s| == 0 then None
    else if |s| == 1 then DigitValue(s[0])
    else
      match (ParseNat(s[..|s| - 1]), DigitValue(s[|s| - 1]))
      case (Some(high), Some(low)) => Some(high * 10 + low)
      case _ => None
  }

  /** Reads an optionally negative decimal integer. */
  function ParseInt(s: string): Option<int> {
    var negative := |s| > 0 && s[0] == '-';
    match ParseNat(if negative then s[1..] else s)
    case Some(n) =>
      var v: int := if negative then -(n as int) else n;
      Some(v)
    case None => None
  }

  /** Reads `Y/MM-DD` back into (year, month number 1–12, day). */
  function ParseApiDate(s: string): Option<(int, nat, nat)> {
    if |s| < 7 || s[|s| - 6] != '/' || s[|s| - 3] != '-' then None
    else
      match (ParseInt(s[..|s| - 6]), ParseNat(s[|s| - 5..|s| - 3]), ParseNat(s[|s| - 2..]))
      case (Some(y), Some(m), Some(d)) => Some((y, m, d))
      case _ => None
  }

  lemma {:induction false} NatRoundTrip(n: nat)
    ensures ParseNat(NatToString(n)) == Some(n)
    ensures NatToString(n)[0] != '-'
    decreases n
  {
    if n < 10 {
      DigitRoundTrip(n);
    } else {
      var s := NatToString(n);
      assert s[..|s| - 1] == NatToString(n / 10);
      NatRoundTrip(n / 10);
      DigitRoundTrip(n % 10);
      assert s[0] == NatToString(n / 10)[0];
    }
  }

  lemma IntRoundTrip(n: int)
    ensures ParseInt(IntToString(n)) == Some(n)
  {
    if n < 0 {
      NatRoundTrip(-n);
      SignedDigits(NatToString(-n), -n);
    } else {
      NatRoundTrip(n);
      UnsignedDigits(NatToString(n), n);
    }
  }

  /** A minus sign before digits that read as `v` reads as `-v`. */
  lemma SignedDigits(digits: string, v: nat)
    requires ParseNat(digits) == Some(v)
    ensures ParseInt("-" + digits) == Some(-(v as int))
  {
    assert ("-" + digits)[1..] == digits;
  }

  /** Digits without a sign read the same as an integer. */
  lemma UnsignedDigits(digits: string, v: nat)
    requires ParseNat(digits) == Some(v) && digits[0] != '-'
    ensures ParseInt(digits) == Some(v)
  {
  }

  /** Padding a number below 100 to two digits does not change what it reads as. */
  lemma PaddedRoundTrip(n: nat)
    requires n < 100
    ensures ParseNat(PadStart(NatToString(n), 2, '0')) == Some(n)
  {
    if n < 10 {
      assert NatToString(n) == [DigitChar(n)];
      assert PadStart([DigitChar(n)], 2, '0') == ['0', DigitChar(n)];
      DigitRoundTrip(n);
      LeadingZero(DigitChar(n), n);
    } else {
      NatRoundTrip(n);
      assert |NatToString(n)| == 2;
    }
  }

  /** `0d` reads as the digit `d`. */
  lemma LeadingZero(c: char, d: nat)
    requires DigitValue(c) == Some(d)
    ensures ParseNat(['0', c]) == Some(d)
  {
    assert ['0', c][..1] == ['0'];
  }

  /** The three fields of `y/mm-dd` sit at fixed offsets from the end. */
  lemma FieldsAtFixedOffsets(y: string, mm: string, dd: string)
    requires |y| >= 1 && |mm| == 2 && |dd| == 2
    ensures var s := y + "/" + mm + "-" + dd;
      |s| >= 7 && s[|s| - 6] == '/' && s[|s| - 3] == '-'
      && s[..|s| - 6] == y && s[|s| - 5..|s| - 3] == mm && s[|s| - 2..] == dd
  {
  }

  /** A fragment assembled from fields that each read back reads back as those fields. */
  lemma ParseJoined(y: string, mm: string, dd: string, year: int, m: nat, d: nat)
    requires |y| >= 1 && |mm| == 2 && |dd| == 2
    requires ParseInt(y) == Some(year) && ParseNat(mm) == Some(m) && ParseNat(dd) == Some(d)
    ensures ParseApiDate(y + "/" + mm + "-" + dd) == Some((year, m, d))
  {
    FieldsAtFixedOffsets(y, mm, dd);
  }

  /** The formatted fragment reads back as the year, the 1-based month and the day. */
  lemma FormatRoundTrip(year: int, month: MonthIndex, day: DayOfMonth)
    ensures ParseApiDate(FormatDateForApi(year, month, day)) == Some((year, month + 1, day))
  {
    IntRoundTrip(year);
    PaddedRoundTrip(month + 1);
    PaddedRoundTrip(day);
    ParseJoined(IntToString(year), PadStart(NatToString(month + 1), 2, '0'), PadStart(NatToString(day), 2, '0'), year, month + 1, day);
  }
}
