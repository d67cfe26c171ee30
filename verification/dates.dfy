/**
 * The part of JavaScript's `Date` that the parser uses: a local calendar
 * moment, and the setters `setFullYear`, `setMonth`, `setDate` and
 * `setHours`, which accept out-of-range values and roll them over into the
 * neighbouring months and years. Each setter is specified by ECMAScript's own
 * arithmetic on time values (MakeDay / MakeDate): the new moment is the one
 * whose time value is the day number of the requested (possibly out-of-range)
 * day times the length of a day plus the requested time within the day.
 * Time zones and daylight saving are not modelled: every moment is local time.
 */
module Dates {
  import opened Text

  const MsPerMinute: int := 60000
  const MsPerHour: int := 3600000
  const MsPerDay: int := 86400000

  predicate IsLeapYear(y: int) {
    y % 4 == 0 && (y % 100 != 0 || y % 400 == 0)
  }

  /** Length of month `m` (0 = January, as in JavaScript) of year `y`. */
  function DaysInMonth(y: int, m: int): (r: int)
    requires 0 <= m < 12
    ensures 28 <= r <= 31
  {
    if m == 1 then (if IsLeapYear(y) then 29 else 28)
    else if m == 3 || m == 5 || m == 8 || m == 10 then 30
    else 31
  }

  /** Day number (days since 1 January 1970) of 1 January of year `y` (ECMAScript's DayFromYear). */
  function DayFromYear(y: int): int {
    365 * (y - 1970) + (y - 1969) / 4 - (y - 1901) / 100 + (y - 1601) / 400
  }

  function DaysBeforeMonth(y: int, m: int): int
    requires 0 <= m <= 12
  {
    if m == 0 then 0 else DaysBeforeMonth(y, m - 1) + DaysInMonth(y, m - 1)
  }

  /**
   * Day number of day `d` of month `m` of year `y`. Like ECMAScript's MakeDay,
   * it counts on past the end of the month (or back before its start) when
   * `d` is out of range.
   */
  function DayNumber(y: int, m: int, d: int): int
    requires 0 <= m < 12
  {
    DayFromYear(y) + DaysBeforeMonth(y, m) + d - 1
  }

  lemma StepDiv4(a: int)
    ensures (a + 1) / 4 - a / 4 == (if (a + 1) % 4 == 0 then 1 else 0)
  {
  }

  lemma StepDiv100(a: int)
    ensures (a + 1) / 100 - a / 100 == (if (a + 1) % 100 == 0 then 1 else 0)
  {
  }

  lemma StepDiv400(a: int)
    ensures (a + 1) / 400 - a / 400 == (if (a + 1) % 400 == 0 then 1 else 0)
  {
  }

  lemma LeapShift(y: int)
    ensures (y - 1968) % 4 == 0 <==> y % 4 == 0
    ensures (y - 1900) % 100 == 0 <==> y % 100 == 0
    ensures (y - 1600) % 400 == 0 <==> y % 400 == 0
  {
  }

  lemma LeapNested(y: int)
    ensures y % 400 == 0 ==> y % 100 == 0
    ensures y % 100 == 0 ==> y % 4 == 0
  {
  }

  lemma {:induction false} MonthsOfYear(y: int)
    ensures DaysBeforeMonth(y, 12) == 337 + DaysInMonth(y, 1)
  {
    var feb := DaysInMonth(y, 1);
    assert DaysBeforeMonth(y, 1) == 31;
    assert DaysBeforeMonth(y, 2) == 31 + feb;
    assert DaysBeforeMonth(y, 3) == 62 + feb;
    assert DaysBeforeMonth(y, 4) == 92 + feb;
    assert DaysBeforeMonth(y, 5) == 123 + feb;
    assert DaysBeforeMonth(y, 6) == 153 + feb;
    assert DaysBeforeMonth(y, 7) == 184 + feb;
    assert DaysBeforeMonth(y, 8) == 215 + feb;
    assert DaysBeforeMonth(y, 9) == 245 + feb;
    assert DaysBeforeMonth(y, 10) == 276 + feb;
    assert DaysBeforeMonth(y, 11) == 306 + feb;
  }

  /** Consecutive values of DayFromYear differ by the length of the earlier year. */
  lemma YearStep(y: int)
    ensures DayFromYear(y + 1) - DayFromYear(y) == if IsLeapYear(y) then 366 else 365
  {
    var q4 := (y - 1968) / 4 - (y - 1969) / 4;
    var q100 := (y - 1900) / 100 - (y - 1901) / 100;
    var q400 := (y - 1600) / 400 - (y - 1601) / 400;
    assert DayFromYear(y + 1) - DayFromYear(y) == 365 + q4 - q100 + q400;
    StepDiv4(y - 1969);
    StepDiv100(y - 1901);
    StepDiv400(y - 1601);
    LeapShift(y);
    LeapNested(y);
    assert q4 == if y % 4 == 0 then 1 else 0;
    assert q100 == if y % 100 == 0 then 1 else 0;
    assert q400 == if y % 400 == 0 then 1 else 0;
  }

  /** A year has 365 days, 366 in a leap year, and its months add up to it. */
  lemma YearLength(y: int)
    ensures DaysBeforeMonth(y, 12) == if IsLeapYear(y) then 366 else 365
    ensures DayFromYear(y + 1) == DayFromYear(y) + DaysBeforeMonth(y, 12)
  {
    MonthsOfYear(y);
    YearStep(y);
  }

  predicate ValidDay(y: int, m: int, d: int) {
    0 <= m < 12 && 1 <= d <= DaysInMonth(y, m)
  }

  datatype CalendarDay = CalendarDay(year: int, month: int, day: int)

  /** Counting day `d` from the start of the previous month names the same day. */
  lemma PreviousMonth(y: int, m: int, d: int)
    requires 0 <= m < 12
    ensures var py := if m == 0 then y - 1 else y;
            var pm := if m == 0 then 11 else m - 1;
            DayNumber(py, pm, d + DaysInMonth(py, pm)) == DayNumber(y, m, d)
  {
    if m == 0 {
      YearLength(y - 1);
    }
  }

  /** Counting day `d` on past the end of month `m` names the same day. */
  lemma NextMonth(y: int, m: int, d: int)
    requires 0 <= m < 12
    ensures var ny := if m == 11 then y + 1 else y;
            var nm := if m == 11 then 0 else m + 1;
            DayNumber(ny, nm, d - DaysInMonth(y, m)) == DayNumber(y, m, d)
  {
    if m == 11 {
      YearLength(y);
    }
  }

  /**
   * The calendar day that day `d` of month `m` of year `y` denotes once an
   * out-of-range `d` is rolled over into the following or preceding months.
   */
  function Roll(y: int, m: int, d: int): (r: CalendarDay)
    requires 0 <= m < 12
    ensures ValidDay(r.year, r.month, r.day)
    ensures DayNumber(r.year, r.month, r.day) == DayNumber(y, m, d)
    ensures ValidDay(y, m, d) ==> r == CalendarDay(y, m, d)
    decreases (if d < 1 then 1 - d else 0), (if d < 1 then 0 else d)
  {
    if d < 1 then
      var py := if m == 0 then y - 1 else y;
      var pm := if m == 0 then 11 else m - 1;
      PreviousMonth(y, m, d);
      Roll(py, pm, d + DaysInMonth(py, pm))
    else if d > DaysInMonth(y, m) then
      var ny := if m == 11 then y + 1 else y;
      var nm := if m == 11 then 0 else m + 1;
      NextMonth(y, m, d);
      Roll(ny, nm, d - DaysInMonth(y, m))
    else
      CalendarDay(y, m, d)
  }

  // ---------------------------------------------------------------------------
  // Moments and Date objects

  /** A broken-down local time, as the getters of a `Date` report it (months from 0). */
  datatype Moment = Moment(year: int, month: int, day: int, hour: int, minute: int, second: int, ms: int)

  predicate ValidMoment(t: Moment) {
    && ValidDay(t.year, t.month, t.day)
    && 0 <= t.hour < 24 && 0 <= t.minute < 60 && 0 <= t.second < 60 && 0 <= t.ms < 1000
  }

  function TimeWithinDay(t: Moment): int {
    t.hour * MsPerHour + t.minute * MsPerMinute + t.second * 1000 + t.ms
  }

  /** What `getTime()` returns, up to the constant offset of the local time zone. */
  function TimeValue(t: Moment): int
    requires 0 <= t.month < 12
  {
    DayNumber(t.year, t.month, t.day) * MsPerDay + TimeWithinDay(t)
  }

  /** A `Date` object: a moment, or the invalid date whose time value is `NaN`. */
  datatype Date = ValidDate(at: Moment) | InvalidDate

  predicate WellFormed(d: Date) {
    d.ValidDate? ==> ValidMoment(d.at)
  }

  /** `t.setFullYear(year)`: same month, day and time in another year (29 February may roll to 1 March). */
  function SetFullYear(t: Moment, year: int): (r: Moment)
    requires ValidMoment(t)
    ensures ValidMoment(r)
    ensures TimeValue(r) == DayNumber(year, t.month, t.day) * MsPerDay + TimeWithinDay(t)
    ensures ValidDay(year, t.month, t.day) ==> r == t.(year := year)
  {
    var c := Roll(year, t.month, t.day);
    t.(year := c.year, month := c.month, day := c.day)
  }

  /** `d.setMonth(month)`: months outside 0..11 move into other years; a `NaN` month invalidates the date. */
  function SetMonth(d: Date, month: Number): (r: Date)
    requires WellFormed(d)
    ensures WellFormed(r)
    ensures r.InvalidDate? <==> d.InvalidDate? || month.NaN?
    ensures r.ValidDate? ==>
              TimeValue(r.at) == DayNumber(d.at.year + month.n / 12, month.n % 12, d.at.day) * MsPerDay
                                 + TimeWithinDay(d.at)
    ensures r.ValidDate? && ValidDay(d.at.year + month.n / 12, month.n % 12, d.at.day) ==>
              r.at == d.at.(year := d.at.year + month.n / 12, month := month.n % 12)
  {
    match (d, month)
    case (ValidDate(t), Finite(k)) =>
      var c := Roll(t.year + k / 12, k % 12, t.day);
      ValidDate(t.(year := c.year, month := c.month, day := c.day))
    case _ => InvalidDate
  }

  /** `d.setDate(date)`: day `date` of the current month, rolled over; a `NaN` day invalidates the date. */
  function SetDate(d: Date, date: Number): (r: Date)
    requires WellFormed(d)
    ensures WellFormed(r)
    ensures r.InvalidDate? <==> d.InvalidDate? || date.NaN?
    ensures r.ValidDate? ==>
              TimeValue(r.at) == DayNumber(d.at.year, d.at.month, date.n) * MsPerDay + TimeWithinDay(d.at)
    ensures r.ValidDate? && ValidDay(d.at.year, d.at.month, date.n) ==> r.at == d.at.(day := date.n)
  {
    match (d, date)
    case (ValidDate(t), Finite(k)) =>
      var c := Roll(t.year, t.month, k);
      ValidDate(t.(year := c.year, month := c.month, day := c.day))
    case _ => InvalidDate
  }

  /**
   * `d.setHours(h, mi, 0, 0)`: the given time on the current day, carrying
   * whole days over when `h` or `mi` is out of range.
   */
  function SetHours(d: Date, h: int, mi: int): (r: Date)
    requires WellFormed(d)
    ensures WellFormed(r)
    ensures r.ValidDate? <==> d.ValidDate?
    ensures r.ValidDate? ==>
              TimeValue(r.at) == DayNumber(d.at.year, d.at.month, d.at.day) * MsPerDay
                                 + h * MsPerHour + mi * MsPerMinute
    ensures r.ValidDate? && 0 <= h < 24 && 0 <= mi < 60 ==>
              r.at == d.at.(hour := h, minute := mi, second := 0, ms := 0)
  {
    match d
    case InvalidDate => InvalidDate
    case ValidDate(t) =>
      var total := h * 60 + mi;
      var c := Roll(t.year, t.month, t.day + total / 1440);
      var rem := total % 1440;
      ValidDate(Moment(c.year, c.month, c.day, rem / 60, rem % 60, 0, 0))
  }
}
