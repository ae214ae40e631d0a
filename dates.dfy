/**
 * Calendar dates as whole days since 1970-01-01 (pandas' nanosecond count
 * is `Nanoseconds` of that number), spreadsheet serial numbers, and the integer text that `pd.to_numeric`
 * reads and `str()` writes.
 */
module Dates {
  import opened Wrappers

  /** A calendar day, as the number of days since 1970-01-01. */
  datatype Date = Date(day: int)

  /** Days from 1970-01-01 to the proleptic Gregorian date y-m-d (floor division throughout). */
  function DaysFromCivil(y: int, m: int, d: int): int
  {
    var y' := if m <= 2 then y - 1 else y;
    var era := y' / 400;
    var yoe := y' - era * 400;
    var mp := if m > 2 then m - 3 else m + 9;
    var doy := (153 * mp + 2) / 5 + d - 1;
    var doe := yoe * 365 + yoe / 4 - yoe / 100 + doy;
    era * 146097 + doe - 719468
  }

  /** The civil date (year, month, day) of a day count; the inverse of DaysFromCivil. */
  function CivilFromDays(days: int): (int, int, int)
  {
    var z := days + 719468;
    var era := z / 146097;
    var doe := z - era * 146097;
    var yoe := (doe - doe / 1460 + doe / 36524 - doe / 146096) / 365;
    var doy := doe - (365 * yoe + yoe / 4 - yoe / 100);
    var mp := (5 * doy + 2) / 153;
    var d := doy - (153 * mp + 2) / 5 + 1;
    var m := if mp < 10 then mp + 3 else mp - 9;
    (if m <= 2 then yoe + era * 400 + 1 else yoe + era * 400, m, d)
  }

  /** Day 0 of the spreadsheet serial calendar: 1899-12-30. */
  const SerialEpoch: int := DaysFromCivil(1899, 12, 30)

  /** `pd.to_datetime(n, unit='D', origin='1899-12-30')` for a whole day count n. */
  function SerialToDate(n: int): (r: Date)
    ensures r.day - n == DaysFromCivil(1899, 12, 30)
  {
    Date(SerialEpoch + n)
  }

  /** Serial n+1 is the day after serial n. */
  lemma SerialSuccessor(n: int)
    ensures SerialToDate(n + 1).day == SerialToDate(n).day + 1
  {
  }

  /** The serial calendar's day 0 lies 25569 days before 1970-01-01. */
  lemma SerialEpochValue()
    ensures SerialEpoch == -25569
    ensures SerialToDate(25569) == Date(0)
  {
    assert (153 * 9 + 2) / 5 == 275;
    assert 1899 / 400 == 4;
    assert 299 / 4 == 74 && 299 / 100 == 2;
  }

  /** Serial 45200 is 2023-10-01. */
  lemma Serial45200()
    ensures CivilFromDays(SerialToDate(45200).day) == (2023, 10, 1)
  {
    SerialEpochValue();
    assert SerialToDate(45200).day == 19631;
    assert 739099 / 146097 == 5;
    assert 8614 / 1460 == 5 && 8614 / 36524 == 0 && 8614 / 146096 == 0;
    assert 8609 / 365 == 23;
    assert 23 / 4 == 5 && 23 / 100 == 0;
    assert (5 * 214 + 2) / 153 == 7;
    assert (153 * 7 + 2) / 5 == 214;
  }

  /**
   * The midnights a pandas Timestamp can hold: 1677-09-22 to 2262-04-11
   * (nanoseconds since 1970 in a signed 64-bit integer). `errors='coerce'`
   * turns a date outside this range into NaT.
   */
  const MinTimestampDay := -106751
  const MaxTimestampDay := 106751

  predicate InTimestampRange(d: Date)
  {
    MinTimestampDay <= d.day <= MaxTimestampDay
  }

  /** `pandas.Timestamp.value`: nanoseconds since 1970-01-01, what `pd.to_numeric` gives for a date. */
  function Nanoseconds(d: Date): int
  {
    d.day * 86_400_000_000_000
  }

  predicate IsDigit(c: char)
  {
    '0' <= c <= '9'
  }

  predicate AllDigits(s: string)
  {
    forall i | 0 <= i < |s| :: IsDigit(s[i])
  }

  /** The value of a string of decimal digits. */
  function DigitsValue(s: string): nat
    requires AllDigits(s)
    decreases |s|
  {
    if s == [] then 0
    else DigitsValue(s[..|s| - 1]) * 10 + (s[|s| - 1] as int - '0' as int)
  }

  /**
   * The integer tokens `pd.to_numeric` accepts: an optional sign followed by
   * one or more decimal digits. Anything else (`'None'`, `''`, `'N/A'`) is
   * missing, which is what `errors='coerce'` makes of it.
   */
  function ParseInt(s: string): Option<int>
  {
    if |s| > 1 && (s[0] == '-' || s[0] == '+') && AllDigits(s[1..]) then
      var v: int := DigitsValue(s[1..]);
      Some(if s[0] == '-' then -v else v)
    else if |s| > 0 && AllDigits(s) then Some(DigitsValue(s))
    else None
  }

  function DigitChar(n: nat): char
    requires n < 10
  {
    ('0' as int + n) as char
  }

  /** Python's `str(n)` for a natural number. */
  function NatText(n: nat): (r: string)
    ensures |r| > 0
    decreases n
  {
    if n < 10 then [DigitChar(n)] else NatText(n / 10) + [DigitChar(n % 10)]
  }

  /** Python's `str(i)` for an integer. */
  function IntText(i: int): string
  {
    if i < 0 then "-" + NatText(-i) else NatText(i)
  }

  /** Reading back what `str` wrote gives the same natural number. */
  lemma {:induction false} NatTextValue(n: nat)
    ensures AllDigits(NatText(n)) && DigitsValue(NatText(n)) == n
    decreases n
  {
    if n >= 10 {
      NatTextValue(n / 10);
      var s := NatText(n);
      assert s[..|s| - 1] == NatText(n / 10);
    }
  }

  /** `to_numeric(str(i)) == i`: the integer text round trip. */
  lemma ParseIntText(i: int)
    ensures ParseInt(IntText(i)) == Some(i)
  {
    if i < 0 {
      NatTextValue(-i);
      assert IntText(i)[1..] == NatText(-i);
    } else {
      NatTextValue(i);
    }
  }

  /** Textual nulls and empty cells are not numbers. */
  lemma ParseIntRejects()
    ensures ParseInt("None") == None && ParseInt("") == None && ParseInt("N/A") == None
    ensures ParseInt("-") == None && ParseInt("nan") == None
  {
    assert !IsDigit('N');
    assert !IsDigit('n');
  }

  /** `n` written with at least `width` digits, padded with zeros. */
  function Padded(n: int, width: nat): string
    decreases width
  {
    var s := IntText(n);
    if |s| >= width || width == 0 then s else "0" + Padded(n, width - 1)
  }

  /** `str(pd.Timestamp)` of a midnight timestamp: `YYYY-MM-DD 00:00:00`. */
  function DateText(d: Date): (r: string)
    ensures r != []
  {
    var (y, m, dd) := CivilFromDays(d.day);
    Padded(y, 4) + "-" + Padded(m, 2) + "-" + Padded(dd, 2) + " 00:00:00"
  }
}
