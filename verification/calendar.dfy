/** Proleptic Gregorian dates as Python's `datetime.date` holds them (years 1 to 9999),
    the day after a date, and the two textual forms the service writes: `YYYY-MM-DD`
    (`strftime('%Y-%m-%d')` and `isoformat()`) and `YYYYMMDD` (`strftime('%Y%m%d')`). */
module Calendar {
  import opened Nullable
  import Text

  datatype Date = Date(year: int, month: int, day: int)

  const MinYear := 1
  const MaxYear := 9999

  predicate IsLeapYear(y: int) {
    y % 4 == 0 && (y % 100 != 0 || y % 400 == 0)
  }

  function DaysInMonth(y: int, m: int): int
    requires 1 <= m <= 12
  {
    if m == 2 then (if IsLeapYear(y) then 29 else 28)
    else if m == 4 || m == 6 || m == 9 || m == 11 then 30
    else 31
  }

  predicate IsValid(d: Date) {
    && MinYear <= d.year <= MaxYear
    && 1 <= d.month <= 12
    && 1 <= d.day <= DaysInMonth(d.year, d.month)
  }

  type ValidDate = d: Date | IsValid(d) witness Date(1, 1, 1)

  /** `date.max`. */
  const LastDate: ValidDate := Date(9999, 12, 31)

  /** Calendar order. */
  predicate Before(a: Date, b: Date) {
    || a.year < b.year
    || (a.year == b.year && a.month < b.month)
    || (a.year == b.year && a.month == b.month && a.day < b.day)
  }

  /** `d + timedelta(days=1)`; None where Python raises OverflowError. The result is the
      immediate successor of d: later than d, and no valid date lies strictly between. */
  function NextDay(d: ValidDate): (r: Option<ValidDate>)
    ensures r.None? <==> d == LastDate
    ensures r.Some? ==> Before(d, r.value)
    ensures r.Some? ==> forall e: ValidDate :: Before(d, e) ==> !Before(e, r.value)
  {
    if d.day < DaysInMonth(d.year, d.month) then Some(d.(day := d.day + 1))
    else if d.month < 12 then Some(Date(d.year, d.month + 1, 1))
    else if d.year < MaxYear then Some(Date(d.year + 1, 1, 1))
    else None
  }

  /** `d + timedelta(days=n)` for n >= 0; None where Python raises OverflowError. */
  function AddDays(d: ValidDate, n: nat): (r: Option<ValidDate>)
    ensures r.Some? && n > 0 ==> Before(d, r.value)
    ensures r.Some? && n == 0 ==> r.value == d
    decreases n
  {
    if n == 0 then Some(d)
    else match NextDay(d)
      case None => None
      case Some(e) => AddDays(e, n - 1)
  }

  function YearLength(y: int): int {
    if IsLeapYear(y) then 366 else 365
  }

  /** Python's `_days_before_year`: the days in the years before year y. */
  function DaysBeforeYear(y: int): int
    requires y >= 1
  {
    var p := y - 1;
    p * 365 + p / 4 - p / 100 + p / 400
  }

  /** Python's `_DAYS_BEFORE_MONTH` table for a common year. */
  const CommonDaysBeforeMonth := [0, 31, 59, 90, 120, 151, 181, 212, 243, 273, 304, 334]

  /** Python's `_days_before_month`: the days in the months of year y before month m. */
  function DaysBeforeMonth(y: int, m: int): int
    requires 1 <= m <= 12
  {
    CommonDaysBeforeMonth[m - 1] + (if m > 2 && IsLeapYear(y) then 1 else 0)
  }

  /** `date.toordinal()`: 1 for 0001-01-01, counting days from there. An independent
      reference for the day arithmetic, built from Python's tables rather than from
      `NextDay`. */
  function Ordinal(d: ValidDate): int
  {
    DaysBeforeYear(d.year) + DaysBeforeMonth(d.year, d.month) + d.day
  }

  /** A year holds `YearLength` days. */
  lemma YearStep(y: int)
    requires y >= 1
    ensures DaysBeforeYear(y + 1) == DaysBeforeYear(y) + YearLength(y)
  {
    var p := y - 1;
    assert y / 4 == p / 4 + (if y % 4 == 0 then 1 else 0);
    assert y / 100 == p / 100 + (if y % 100 == 0 then 1 else 0);
    assert y / 400 == p / 400 + (if y % 400 == 0 then 1 else 0);
  }

  /** The day after d is one ordinal later. */
  lemma OrdinalNext(d: ValidDate)
    requires NextDay(d).Some?
    ensures Ordinal(NextDay(d).value) == Ordinal(d) + 1
  {
    if d.day == DaysInMonth(d.year, d.month) && d.month == 12 {
      YearStep(d.year);
    }
  }

  /** No valid date lies after `date.max`, whose ordinal is 3652059. */
  lemma OrdinalBound(d: ValidDate)
    ensures Ordinal(d) <= Ordinal(LastDate) == 3652059
  {
    YearStep(d.year);
    assert DaysBeforeMonth(d.year, d.month) + DaysInMonth(d.year, d.month) <= YearLength(d.year);
    var p := d.year;
    assert p / 4 <= 9999 / 4 && p / 400 <= 9999 / 400;
    assert 9999 / 100 - p / 100 <= (9999 - p) / 100 + 1;
  }

  /** `d + timedelta(days=n)` is the date n ordinals later, and it overflows exactly when
      that would pass `date.max`. */
  lemma {:induction false} AddDaysOrdinal(d: ValidDate, n: nat)
    ensures AddDays(d, n).Some? <==> Ordinal(d) + n <= Ordinal(LastDate)
    ensures AddDays(d, n).Some? ==> Ordinal(AddDays(d, n).value) == Ordinal(d) + n
    decreases n
  {
    OrdinalBound(d);
    if n > 0 {
      match NextDay(d)
      case None =>
      case Some(e) =>
        OrdinalNext(d);
        AddDaysOrdinal(e, n - 1);
    }
  }

  /** A `date`, or a `datetime` (its date and the second of the day). */
  datatype Moment = OnDay(date: ValidDate) | AtTime(date: ValidDate, secondOfDay: nat)

  /** A due-date value as the service passes it around: a date or datetime, or some other
      value (a string) that has neither `strftime` nor `isoformat`. */
  datatype DueValue = When(moment: Moment) | Plain(text: string)

  /** Python truthiness: dates and datetimes are always true, a string when non-empty. */
  predicate Truthy(v: DueValue) {
    v.When? || v.text != ""
  }

  /** `YYYY-MM-DD`, four-digit year. */
  function FormatIso(d: ValidDate): (s: string)
    ensures |s| == 10 && s[4] == '-' && s[7] == '-'
  {
    Text.PadDigits(d.year, 4) + "-" + Text.PadDigits(d.month, 2) + "-" + Text.PadDigits(d.day, 2)
  }

  /** `YYYYMMDD`, the DATE value form of iCalendar. */
  function FormatCompact(d: ValidDate): (s: string)
    ensures |s| == 8 && Text.AllDigits(s)
  {
    Text.PadDigits(d.year, 4) + Text.PadDigits(d.month, 2) + Text.PadDigits(d.day, 2)
  }

  function DateOf(y: string, m: string, d: string): Option<ValidDate>
    requires Text.AllDigits(y) && Text.AllDigits(m) && Text.AllDigits(d)
  {
    var date := Date(Text.DecimalValue(y), Text.DecimalValue(m), Text.DecimalValue(d));
    if IsValid(date) then Some(date) else None
  }

  /** Reads `YYYY-MM-DD` back. */
  function ParseIso(s: string): Option<ValidDate>
  {
    if |s| == 10 && s[4] == '-' && s[7] == '-'
       && Text.AllDigits(s[..4]) && Text.AllDigits(s[5..7]) && Text.AllDigits(s[8..])
    then DateOf(s[..4], s[5..7], s[8..])
    else None
  }

  /** Reads `YYYYMMDD` back. */
  function ParseCompact(s: string): Option<ValidDate>
  {
    if |s| == 8 && Text.AllDigits(s) then DateOf(s[..4], s[4..6], s[6..]) else None
  }

  lemma FieldsRoundTrip(d: ValidDate)
    ensures Text.DecimalValue(Text.PadDigits(d.year, 4)) == d.year
    ensures Text.DecimalValue(Text.PadDigits(d.month, 2)) == d.month
    ensures Text.DecimalValue(Text.PadDigits(d.day, 2)) == d.day
  {
    assert Text.Pow10(2) == 100;
    assert Text.Pow10(4) == 10000;
    Text.PadDigitsRoundTrip(d.year, 4);
    Text.PadDigitsRoundTrip(d.month, 2);
    Text.PadDigitsRoundTrip(d.day, 2);
  }

  /** The `YYYY-MM-DD` form determines the date. */
  lemma IsoRoundTrip(d: ValidDate)
    ensures ParseIso(FormatIso(d)) == Some(d)
  {
    var y, m, dd := Text.PadDigits(d.year, 4), Text.PadDigits(d.month, 2), Text.PadDigits(d.day, 2);
    var s := FormatIso(d);
    assert s[..4] == y && s[5..7] == m && s[8..] == dd;
    FieldsRoundTrip(d);
  }

  /** The `YYYYMMDD` form determines the date. */
  lemma CompactRoundTrip(d: ValidDate)
    ensures ParseCompact(FormatCompact(d)) == Some(d)
  {
    var y, m, dd := Text.PadDigits(d.year, 4), Text.PadDigits(d.month, 2), Text.PadDigits(d.day, 2);
    var s := FormatCompact(d);
    assert s[..4] == y && s[4..6] == m && s[6..] == dd;
    FieldsRoundTrip(d);
  }
}
