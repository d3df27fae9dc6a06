/** The date-window helpers of lib/utils/helpers.ts: shifting a date by calendar months the way
    JavaScript's `Date.prototype.setMonth` does, and rendering it as `MM/DD/YYYY`.
    Dates are pure calendar dates; time of day, time zones and daylight saving are not modelled. */
module Helpers {
  import opened Nullish
  import opened JsText

  /** A date as a JavaScript `Date` exposes it: `getFullYear()`, the 0-based `getMonth()` and
      `getDate()`. Years follow the proleptic Gregorian calendar, as JavaScript's do. */
  datatype Date = Date(year: int, monthIndex: int, day: int)

  predicate IsLeapYear(year: int)
  {
    year % 4 == 0 && (year % 100 != 0 || year % 400 == 0)
  }

  function DaysInMonth(year: int, monthIndex: int): (n: nat)
    requires 0 <= monthIndex < 12
    ensures 28 <= n <= 31
  {
    if monthIndex == 1 then (if IsLeapYear(year) then 29 else 28)
    else if monthIndex in {3, 5, 8, 10} then 30
    else 31
  }

  /** A date that exists in the calendar; every JavaScript `Date` (other than the invalid one) is one. */
  predicate Valid(d: Date)
  {
    0 <= d.monthIndex < 12 && 1 <= d.day <= DaysInMonth(d.year, d.monthIndex)
  }

  /** Months since the start of year 0: the position of a date's month on one line. */
  function MonthNumber(d: Date): int
  {
    d.year * 12 + d.monthIndex
  }

  /** Days in the month at position `t` of the month line. */
  function DaysInMonthNumber(t: int): nat
  {
    DaysInMonth(t / 12, t % 12)
  }

  /** What `Date` makes of a year, an out-of-range month index and a day of at most 31: the month
      index carries into the year (floor division, so negative indices borrow), and a day past the
      end of the month rolls forward into the next one. */
  function Normalize(year: int, monthIndex: int, day: int): (d: Date)
    requires 1 <= day <= 31
    ensures Valid(d)
    ensures var target := year * 12 + monthIndex;
      if day <= DaysInMonthNumber(target) then
        MonthNumber(d) == target && d.day == day
      else
        MonthNumber(d) == target + 1 && d.day == day - DaysInMonthNumber(target)
  {
    MonthNumberSplit(year, monthIndex);
    var y := year + monthIndex / 12;
    var m := monthIndex % 12;
    if day <= DaysInMonth(y, m) then Date(y, m, day)
    else
      var next := y * 12 + m + 1;
      Date(next / 12, next % 12, day - DaysInMonth(y, m))
  }

  lemma MonthNumberSplit(year: int, k: int)
    ensures (year * 12 + k) / 12 == year + k / 12 && (year * 12 + k) % 12 == k % 12
  {
  }

  /** `addMonths(base, months)`: a copy of `base` whose month is moved by `months`. The year
      carries; the day is kept when the target month has it and otherwise rolls forward into the
      following month by the number of missing days. (`base` itself is a value and stays as it is.) */
  function AddMonths(base: Date, months: int): (r: Date)
    requires Valid(base)
    ensures Valid(r)
    ensures var target := MonthNumber(base) + months;
      if base.day <= DaysInMonthNumber(target) then
        MonthNumber(r) == target && r.day == base.day
      else
        MonthNumber(r) == target + 1 && r.day == base.day - DaysInMonthNumber(target)
  {
    Normalize(base.year, base.monthIndex + months, base.day)
  }

  /** Dates are determined by their month position and day. */
  lemma SameMonthNumberAndDay(a: Date, b: Date)
    requires Valid(a) && Valid(b)
    requires MonthNumber(a) == MonthNumber(b) && a.day == b.day
    ensures a == b
  {
    MonthNumberSplit(a.year, a.monthIndex);
    MonthNumberSplit(b.year, b.monthIndex);
  }

  /** Shifting by zero months gives the same calendar date. */
  lemma AddZeroMonths(d: Date)
    requires Valid(d)
    ensures AddMonths(d, 0) == d
  {
    SameMonthNumberAndDay(AddMonths(d, 0), d);
  }

  /** For days every month has (1 to 28) shifts compose: no rollover can happen. */
  lemma AddMonthsCompose(d: Date, a: int, b: int)
    requires Valid(d) && d.day <= 28
    ensures AddMonths(AddMonths(d, a), b) == AddMonths(d, a + b)
  {
    SameMonthNumberAndDay(AddMonths(AddMonths(d, a), b), AddMonths(d, a + b));
  }

  /** For days every month has, shifting forward and back returns the starting date. */
  lemma AddMonthsUndo(d: Date, months: int)
    requires Valid(d) && d.day <= 28
    ensures AddMonths(AddMonths(d, months), -months) == d
  {
    AddMonthsCompose(d, months, -months);
    AddZeroMonths(d);
  }

  /** The rollover cases, as native `setMonth` produces them: 31 January plus one month is
      2 March in a leap year and 3 March otherwise; 31 January minus one month is 31 December. */
  lemma AddMonthsRollover()
    ensures AddMonths(Date(2024, 0, 31), 1) == Date(2024, 2, 2)
    ensures AddMonths(Date(2023, 0, 31), 1) == Date(2023, 2, 3)
    ensures AddMonths(Date(2024, 0, 31), -1) == Date(2023, 11, 31)
    ensures AddMonths(Date(2024, 4, 31), -3) == Date(2024, 2, 2)
  {
  }

  /** `String(n).padStart(2, '0')`: the decimal digits of `n`, with a leading zero below 10, so a
      month or day is always two digits. */
  function TwoDigits(n: nat): (s: string)
    ensures AllDigits(s) && DigitsValue(s) == n
    ensures |s| == if n < 10 then 2 else NumDigits(n)
    ensures n <= 99 ==> |s| == 2
  {
    var t := NatToString(n);
    NatToStringValue(n);
    if |t| < 2 then
      assert PadStart(t, 2, '0') == "0" + t;
      LeadingZeroValue(t);
      PadStart(t, 2, '0')
    else
      PadStart(t, 2, '0')
  }

  /** `formatMMDDYYYY(date)`: month (1-based) and day as two zero-padded digits and the year as
      `String(year)` (not padded), separated by `/`. */
  function FormatMMDDYYYY(d: Date): (r: string)
    requires Valid(d)
    ensures |r| >= 7 && r[2] == '/' && r[5] == '/'
    ensures AllDigits(r[..2]) && DigitsValue(r[..2]) == d.monthIndex + 1
    ensures AllDigits(r[3..5]) && DigitsValue(r[3..5]) == d.day
    ensures ParseInt(r[6..]) == Some(d.year)
  {
    var mm := TwoDigits(d.monthIndex + 1);
    var dd := TwoDigits(d.day);
    var yyyy := IntToString(d.year);
    SlashFields(mm, dd, yyyy);
    IntToStringParses(d.year);
    mm + "/" + dd + "/" + yyyy
  }

  /** The reading of an `MM/DD/YYYY` string that a consumer of the format performs: split on `/`
      and parse the three numbers. */
  function ParseMMDDYYYY(s: string): Option<Date>
  {
    var parts := Split(s, '/');
    if |parts| != 3 then None
    else
      match (ParseInt(parts[0]), ParseInt(parts[1]), ParseInt(parts[2]))
      case (Some(mm), Some(dd), Some(yyyy)) => Some(Date(yyyy, mm - 1, dd))
      case _ => None
  }

  /** A year from 1000 to 9999 is written with four digits. */
  lemma FourDigitYear(y: int)
    requires 1000 <= y <= 9999
    ensures var s := IntToString(y); |s| == 4 && AllDigits(s) && DigitsValue(s) == y
  {
    NatToStringValue(y);
    assert NumDigits(y / 10 / 10) == 2;
  }

  /** For four-digit years the rendering is `MM/DD/YYYY` exactly: ten characters, `/` at
      indices 2 and 5, digits elsewhere, and the three fields read back as month + 1, day and year. */
  lemma FormatShape(d: Date)
    requires Valid(d) && 1000 <= d.year <= 9999
    ensures var r := FormatMMDDYYYY(d);
      && |r| == 10 && r[2] == '/' && r[5] == '/'
      && AllDigits(r[..2]) && AllDigits(r[3..5]) && AllDigits(r[6..])
      && DigitsValue(r[..2]) == d.monthIndex + 1
      && DigitsValue(r[3..5]) == d.day
      && DigitsValue(r[6..]) == d.year
  {
    FourDigitYear(d.year);
    SlashFields(TwoDigits(d.monthIndex + 1), TwoDigits(d.day), IntToString(d.year));
  }

  /** Where the three fields of `mm/dd/yyyy` sit when the first two have two characters each. */
  lemma SlashFields(mm: string, dd: string, yyyy: string)
    requires |mm| == 2 && |dd| == 2
    ensures var r := mm + "/" + dd + "/" + yyyy;
      && |r| == 6 + |yyyy| && r[2] == '/' && r[5] == '/'
      && r[..2] == mm && r[3..5] == dd && r[6..] == yyyy
  {
  }

  lemma NoSlashInDigits(s: string)
    requires AllDigits(s)
    ensures '/' !in s
  {
  }

  lemma SplitThree(a: string, b: string, c: string, sep: char)
    requires sep !in a && sep !in b && sep !in c
    ensures Split(a + [sep] + b + [sep] + c, sep) == [a, b, c]
  {
    assert a + [sep] + b + [sep] + c == a + [sep] + (b + [sep] + c);
    SplitAtSeparator(a, b + [sep] + c, sep);
    SplitAtSeparator(b, c, sep);
    SplitWithoutSeparator(c, sep);
  }

  /** Reading three slash-separated numbers. */
  lemma ParseThree(a: string, b: string, c: string, mm: int, dd: int, yyyy: int)
    requires '/' !in a && '/' !in b && '/' !in c
    requires ParseInt(a) == Some(mm) && ParseInt(b) == Some(dd) && ParseInt(c) == Some(yyyy)
    ensures ParseMMDDYYYY(a + "/" + b + "/" + c) == Some(Date(yyyy, mm - 1, dd))
  {
    SplitThree(a, b, c, '/');
  }

  /** The year field has no `/` and reads back as the year. */
  lemma YearField(year: int)
    ensures '/' !in IntToString(year) && ParseInt(IntToString(year)) == Some(year)
  {
    IntToStringParses(year);
    if year < 0 {
      NoSlashInDigits(NatToString(-year));
      assert IntToString(year) == "-" + NatToString(-year);
    } else {
      NoSlashInDigits(NatToString(year));
    }
  }

  /** A two-digit field has no `/` and reads back as its number. */
  lemma TwoDigitsField(n: nat)
    requires 1 <= n <= 99
    ensures '/' !in TwoDigits(n) && ParseInt(TwoDigits(n)) == Some(n)
  {
    NoSlashInDigits(TwoDigits(n));
    ParseDigits(TwoDigits(n));
  }

  /** Splitting the rendering on `/` and parsing the pieces gives back month, day and year, for
      every date (negative and short years included). */
  lemma FormatParses(d: Date)
    requires Valid(d)
    ensures ParseMMDDYYYY(FormatMMDDYYYY(d)) == Some(d)
  {
    FieldsParse(d.monthIndex + 1, d.day, d.year);
    assert Date(d.year, d.monthIndex + 1 - 1, d.day) == d;
  }

  /** The three fields `formatMMDDYYYY` writes, joined by `/`, read back as the numbers written. */
  lemma FieldsParse(month: nat, day: nat, year: int)
    requires 1 <= month <= 12 && 1 <= day <= 31
    ensures ParseMMDDYYYY(TwoDigits(month) + "/" + TwoDigits(day) + "/" + IntToString(year))
            == Some(Date(year, month - 1, day))
  {
    TwoDigitsField(month);
    TwoDigitsField(day);
    YearField(year);
    ParseThree(TwoDigits(month), TwoDigits(day), IntToString(year), month, day, year);
  }
}
