/**
 * The rule-based task parser: `parseTaskInput` reads a free-form line such as
 * "Call Rajeev tomorrow at 5pm P1" into a task draft (name, assignee, due
 * date, priority), and `matchesToDate` turns the match of a date pattern into
 * a date. The current time is a parameter.
 *
 * Each operation has a specification function (`Parse`, `DateOf`) and a method
 * that follows the source step by step (`ParseTaskInput`, `MatchesToDate`),
 * proved equal to it; the lemmas state what the specification functions do.
 */
module TaskParser {
  import opened Wrappers
  import opened Text
  import opened Dates
  import opened Regex

  datatype Priority = P1 | P2 | P3 | P4

  function PriorityLabel(p: Priority): string {
    match p
    case P1 => "P1"
    case P2 => "P2"
    case P3 => "P3"
    case P4 => "P4"
  }

  /** What `parseTaskInput` returns: a task without its id, completion flag and creation time. */
  datatype TaskDraft = TaskDraft(name: string, assignee: Option<string>, dueDate: Option<Date>, priority: Priority)

  // ---------------------------------------------------------------------------
  // Reading a clock: hours, minutes and am/pm

  /**
   * `if (period === 'pm' && hours < 12) hours += 12; if (period === 'am' && hours === 12) hours = 0;`
   * with `period` already in lower case.
   */
  function To24Hour(hours: int, period: Option<string>): (r: int)
    ensures period == Some("pm") && hours < 12 ==> r == hours + 12
    ensures period == Some("am") && hours == 12 ==> r == 0
    ensures !(period == Some("pm") && hours < 12) && !(period == Some("am") && hours == 12) ==> r == hours
  {
    if period == Some("pm") && hours < 12 then hours + 12
    else if period == Some("am") && hours == 12 then 0
    else hours
  }

  /** The 12-hour reading of an hour of the day: the inverse of `To24Hour` on 1..12 with am/pm. */
  function To12Hour(h: int): (int, string)
    requires 0 <= h < 24
  {
    (if h % 12 == 0 then 12 else h % 12, if h < 12 then "am" else "pm")
  }

  /** On a 12-hour clock reading, `To24Hour` is a bijection onto the hours of a day. */
  lemma ClockConversion(hours: int, period: string)
    requires 1 <= hours <= 12 && (period == "am" || period == "pm")
    ensures 0 <= To24Hour(hours, Some(period)) < 24
    ensures To12Hour(To24Hour(hours, Some(period))) == (hours, period)
    ensures period == "am" <==> To24Hour(hours, Some(period)) < 12
  {
  }

  lemma ClockConversionOnto(h: int)
    requires 0 <= h < 24
    ensures var (hours, period) := To12Hour(h);
            1 <= hours <= 12 && To24Hour(hours, Some(period)) == h
  {
  }

  /** The fields of a clock match: hour digits, optional minute digits and an optional am/pm. */
  datatype Reading = Reading(hour: nat, minute: nat, period: Option<string>)

  /**
   * `parseInt(timeMatch[1])`, `timeMatch[2] ? parseInt(timeMatch[2]) : 0` and
   * `timeMatch[3]?.toLowerCase()`.
   */
  function ReadClock(g: Groups): (r: Reading)
    requires ClockGroups(g)
    ensures r.hour == DecimalValue(g.g1.value) && r.hour < 100
    ensures g.g2.None? ==> r.minute == 0
    ensures g.g2.Some? ==> r.minute == DecimalValue(g.g2.value) && r.minute < 100
    ensures g.g3.None? <==> r.period.None?
    ensures g.g3.Some? ==> r.period == Some(LowerAscii(g.g3.value))
    ensures r.period.Some? ==> r.period.value == "am" || r.period.value == "pm"
  {
    ClockDigits(g);
    var hour := ParseInt(g.g1.value).n;
    var minute := if Truthy(g.g2) then ParseInt(g.g2.value).n else 0;
    var period := if g.g3.Some? then Some(LowerAscii(g.g3.value)) else None;
    Reading(hour, minute, period)
  }

  lemma ClockDigits(g: Groups)
    requires ClockGroups(g)
    ensures DecimalValue(g.g1.value) < 100
    ensures g.g2.Some? ==> DecimalValue(g.g2.value) < 100
  {
    DecimalValueBound(g.g1.value);
    if g.g2.Some? {
      DecimalValueBound(g.g2.value);
    }
  }

  /** `result.setHours(hours, minutes, 0, 0)` with the clock's hours converted to 24-hour time. */
  function ApplyClock(d: Date, g: Groups): (r: Date)
    requires WellFormed(d) && ClockGroups(g)
    ensures WellFormed(r) && (r.ValidDate? <==> d.ValidDate?)
    ensures var c := ReadClock(g);
            r.ValidDate? ==> TimeValue(r.at) == DayNumber(d.at.year, d.at.month, d.at.day) * MsPerDay
                                                + To24Hour(c.hour, c.period) * MsPerHour + c.minute * MsPerMinute
  {
    var c := ReadClock(g);
    SetHours(d, To24Hour(c.hour, c.period), c.minute)
  }

  /** `text.match(clock)`: the groups of the first clock in `text`, the am/pm being required or optional. */
  function FindClock(text: string, periodRequired: bool): (r: Option<Groups>)
    ensures r.Some? ==> ClockGroups(r.value) && (periodRequired ==> r.value.g3.Some?)
  {
    match Exec(ClockTime(periodRequired), text)
    case None => None
    case Some(m) => ClockMatch(text, periodRequired); Some(m.groups)
  }

  lemma ClockMatch(text: string, periodRequired: bool)
    requires Exec(ClockTime(periodRequired), text).Some?
    ensures var g := Exec(ClockTime(periodRequired), text).value.groups;
            ClockGroups(g) && (periodRequired ==> g.g3.Some?)
  {
    var m := Exec(ClockTime(periodRequired), text).value;
    var h := ClockTimeAt(text, m.index, periodRequired);
    assert ClockTime(periodRequired).attempt(text, m.index) == h;
  }

  /** The time given by `time` (when it is truthy and holds a clock) on the date `d`; otherwise `d`. */
  function WithTime(d: Date, time: Option<string>, periodRequired: bool): (r: Date)
    requires WellFormed(d)
    ensures WellFormed(r) && (r.ValidDate? <==> d.ValidDate?)
    ensures !Truthy(time) ==> r == d
  {
    if Truthy(time) then
      match FindClock(time.value, periodRequired)
      case Some(g) => ApplyClock(d, g)
      case None => d
    else d
  }

  // ---------------------------------------------------------------------------
  // Years

  /**
   * `year = g ? parseInt(g) : now.getFullYear(); if (year && year < 100) year += 2000;`
   * and then `year || now.getFullYear()`, the value handed to `setFullYear`.
   */
  function ResolveYear(g: Option<string>, nowYear: int): (r: int)
  {
    var year := if Truthy(g) then ParseInt(g.value) else Finite(nowYear);
    var fixed := if TruthyNumber(year) && year.n < 100 then Finite(year.n + 2000) else year;
    if TruthyNumber(fixed) then fixed.n else nowYear
  }

  /** A year from 1 to 99 is read as 2001 to 2099, a year of 100 or more as written, no year as now's year. */
  lemma YearRules(g: Option<string>, nowYear: int)
    requires nowYear >= 100
    ensures Truthy(g) && AllDigits(g.value) && 0 < DecimalValue(g.value) < 100 ==>
              ResolveYear(g, nowYear) == DecimalValue(g.value) + 2000
    ensures Truthy(g) && AllDigits(g.value) && DecimalValue(g.value) >= 100 ==>
              ResolveYear(g, nowYear) == DecimalValue(g.value)
    ensures !Truthy(g) ==> ResolveYear(g, nowYear) == nowYear
    ensures Truthy(g) && AllDigits(g.value) && DecimalValue(g.value) == 0 ==> ResolveYear(g, nowYear) == nowYear
  {
  }

  // ---------------------------------------------------------------------------
  // matchesToDate

  /** `parseInt(matches[k])`, where an absent group is `undefined` and reads as NaN. */
  function ParseGroup(g: Option<string>): (r: Number)
    ensures g.None? ==> r.NaN?
    ensures g.Some? ==> r == ParseInt(g.value)
  {
    if g.None? then NaN else ParseInt(g.value)
  }

  /** The branches of `matchesToDate`, in the order it tries them. */
  datatype Branch = Tomorrow | Today | MonthName(month: nat) | Numeric | TimeOnly(clock: Groups) | Unchanged

  /** The month index is one of the twelve, and the clock of the time-only branch has the clock's shape. */
  predicate BranchFits(b: Branch) {
    (b.MonthName? ==> b.month < 12) && (b.TimeOnly? ==> ClockGroups(b.clock))
  }

  /** The first month abbreviation from index `i` on that `text` contains (the `for` loop over `monthNames`). */
  function FirstMonthIn(text: string, i: nat): (r: Option<nat>)
    requires i <= |MonthNames|
    ensures r.Some? ==> i <= r.value < |MonthNames| && Includes(text, MonthNames[r.value])
                        && forall j :: i <= j < r.value ==> !Includes(text, MonthNames[j])
    ensures r.None? ==> forall j :: i <= j < |MonthNames| ==> !Includes(text, MonthNames[j])
    decreases |MonthNames| - i
  {
    if i == |MonthNames| then None
    else if Includes(text, MonthNames[i]) then Some(i)
    else FirstMonthIn(text, i + 1)
  }

  /** Which branch of `matchesToDate` handles the match `m`. */
  function BranchOf(m: Match): (b: Branch)
    ensures BranchFits(b)
  {
    var text := LowerAscii(m.text);
    if Includes(text, "tomorrow") then Tomorrow
    else if Includes(text, "today") then Today
    else match FirstMonthIn(text, 0)
      case Some(i) => MonthName(i)
      case None =>
        if Truthy(Group(m, 1)) && Truthy(Group(m, 2)) then Numeric
        else match FindClock(m.text, true)
          case Some(g) => TimeOnly(g)
          case None => Unchanged
  }

  /** `setFullYear(year)`, `setMonth(month)`, `setDate(day)` on a copy of now, then the time or 23:59. */
  function CalendarDate(now: Moment, year: int, month: Number, day: Number, time: Option<string>): (r: Date)
    requires ValidMoment(now)
    ensures WellFormed(r)
  {
    var d := SetDate(SetMonth(ValidDate(SetFullYear(now, year)), month), day);
    if Truthy(time) then WithTime(d, time, false) else SetHours(d, 23, 59)
  }

  /**
   * The month-name branch for month `i`: "12 jan" (day first) or "jan 12"
   * (month first), told apart by looking for a day number before the month.
   */
  function MonthNameDate(m: Match, i: nat, now: Moment): (r: Date)
    requires i < 12 && ValidMoment(now)
    ensures WellFormed(r)
  {
    var dayFirst := Exec(DayBeforeMonth(MonthNames[i]), m.text).Some?;
    var day := ParseGroup(if dayFirst then Group(m, 1) else Group(m, 2));
    var year := if dayFirst then Group(m, 4) else Group(m, 3);
    var time := if dayFirst then Group(m, 3) else Group(m, 4);
    CalendarDate(now, ResolveYear(year, now.year), Finite(i), day, time)
  }

  /** `parseInt(g) - 1`: a month counted from 1 turned into a month counted from 0 (`NaN` stays `NaN`). */
  function MonthFromOne(g: Option<string>): (r: Number)
    ensures r.NaN? <==> ParseGroup(g).NaN?
    ensures r.Finite? ==> r.n + 1 == ParseGroup(g).n
  {
    match ParseGroup(g)
    case Finite(k) => Finite(k - 1)
    case NaN => NaN
  }

  /** The numeric branch: month/day/year, the month counted from 1. */
  function NumericBranchDate(m: Match, now: Moment): (r: Date)
    requires ValidMoment(now)
    ensures WellFormed(r)
  {
    CalendarDate(now, ResolveYear(Group(m, 3), now.year), MonthFromOne(Group(m, 1)), ParseGroup(Group(m, 2)), Group(m, 4))
  }

  /** `matchesToDate(matches)`, with `now` the current moment. */
  function DateOf(m: Match, now: Moment): (r: Date)
    requires ValidMoment(now)
    ensures WellFormed(r)
  {
    DateIn(BranchOf(m), m, now)
  }

  /** The date that branch `b` of `matchesToDate` computes from the match `m`. */
  function DateIn(b: Branch, m: Match, now: Moment): (r: Date)
    requires ValidMoment(now) && BranchFits(b)
    ensures WellFormed(r)
  {
    match b
    case Tomorrow => WithTime(SetDate(ValidDate(now), Finite(now.day + 1)), Group(m, 1), true)
    case Today => WithTime(ValidDate(now), Group(m, 1), true)
    case MonthName(i) => MonthNameDate(m, i, now)
    case Numeric => NumericBranchDate(m, now)
    case TimeOnly(g) => ApplyClock(ValidDate(now), g)
    case Unchanged => ValidDate(now)
  }

  /** Sets the clock's time on `result`, as each branch of `matchesToDate` does. */
  method SetClock(result: Date, g: Groups) returns (r: Date)
    requires WellFormed(result) && ClockGroups(g)
    ensures r == ApplyClock(result, g)
  {
    var c := ReadClock(g);
    var hours := c.hour;
    if c.period == Some("pm") && hours < 12 {
      hours := hours + 12;
    }
    if c.period == Some("am") && hours == 12 {
      hours := 0;
    }
    r := SetHours(result, hours, c.minute);
  }

  /** Sets the time from `time` when it holds a clock, as `if (time) { ... time.match(...) ... }` does. */
  method SetTimeFrom(result: Date, time: Option<string>, periodRequired: bool) returns (r: Date)
    requires WellFormed(result)
    ensures r == WithTime(result, time, periodRequired)
  {
    r := result;
    if Truthy(time) {
      var timeMatch := FindClock(time.value, periodRequired);
      if timeMatch.Some? {
        r := SetClock(result, timeMatch.value);
      }
    }
  }

  /**
   * The setters of the month-name and numeric branches, in the source's order:
   * year, month, day, and then the time or the end of the day.
   */
  method SetCalendar(now: Moment, year: int, month: Number, day: Number, time: Option<string>) returns (result: Date)
    requires ValidMoment(now)
    ensures result == CalendarDate(now, year, month, day, time)
  {
    result := ValidDate(SetFullYear(now, year));
    result := SetMonth(result, month);
    result := SetDate(result, day);
    if Truthy(time) {
      result := SetTimeFrom(result, time, false);
    } else {
      result := SetHours(result, 23, 59);
    }
  }

  /** "tomorrow" anywhere in the matched text (in any case) decides the branch before anything else. */
  lemma TomorrowBranch(m: Match, now: Moment)
    requires ValidMoment(now) && Includes(LowerAscii(m.text), "tomorrow")
    ensures DateOf(m, now) == WithTime(SetDate(ValidDate(now), Finite(now.day + 1)), Group(m, 1), true)
  {
  }

  /** "today" decides the branch when "tomorrow" does not occur. */
  lemma TodayBranch(m: Match, now: Moment)
    requires ValidMoment(now)
    requires !Includes(LowerAscii(m.text), "tomorrow") && Includes(LowerAscii(m.text), "today")
    ensures DateOf(m, now) == WithTime(ValidDate(now), Group(m, 1), true)
  {
  }

  /** Otherwise the first month abbreviation the text contains decides it. */
  lemma MonthBranch(m: Match, now: Moment, i: nat)
    requires ValidMoment(now)
    requires !Includes(LowerAscii(m.text), "tomorrow") && !Includes(LowerAscii(m.text), "today")
    requires FirstMonthIn(LowerAscii(m.text), 0) == Some(i)
    ensures i < 12 && DateOf(m, now) == MonthNameDate(m, i, now)
  {
  }

  /** Otherwise two truthy leading groups make it a numeric date. */
  lemma NumericBranch(m: Match, now: Moment)
    requires ValidMoment(now)
    requires !Includes(LowerAscii(m.text), "tomorrow") && !Includes(LowerAscii(m.text), "today")
    requires FirstMonthIn(LowerAscii(m.text), 0).None?
    requires Truthy(Group(m, 1)) && Truthy(Group(m, 2))
    ensures DateOf(m, now) == NumericBranchDate(m, now)
  {
  }

  /** Otherwise only a clock with am/pm in the matched text can change now. */
  lemma ClockBranch(m: Match, now: Moment)
    requires ValidMoment(now)
    requires !Includes(LowerAscii(m.text), "tomorrow") && !Includes(LowerAscii(m.text), "today")
    requires FirstMonthIn(LowerAscii(m.text), 0).None?
    requires !(Truthy(Group(m, 1)) && Truthy(Group(m, 2)))
    ensures FindClock(m.text, true).Some? ==> DateOf(m, now) == ApplyClock(ValidDate(now), FindClock(m.text, true).value)
    ensures FindClock(m.text, true).None? ==> DateOf(m, now) == ValidDate(now)
  {
    match FindClock(m.text, true)
    case Some(g) =>
      assert BranchOf(m) == TimeOnly(g);
    case None =>
      assert BranchOf(m) == Unchanged;
  }

  /** "tomorrow": one day after now, at the clock that follows the word. */
  method TomorrowCase(m: Match, now: Moment) returns (result: Date)
    requires ValidMoment(now)
    ensures result == WithTime(SetDate(ValidDate(now), Finite(now.day + 1)), Group(m, 1), true)
  {
    result := ValidDate(now);
    result := SetDate(result, Finite(now.day + 1));
    result := SetTimeFrom(result, Group(m, 1), true);
  }

  /** "today": now, at the clock that follows the word. */
  method TodayCase(m: Match, now: Moment) returns (result: Date)
    requires ValidMoment(now)
    ensures result == WithTime(ValidDate(now), Group(m, 1), true)
  {
    result := ValidDate(now);
    result := SetTimeFrom(result, Group(m, 1), true);
  }

  /** The month-name branch for the month at index `i` of the month abbreviations. */
  method MonthNameCase(m: Match, i: nat, now: Moment) returns (result: Date)
    requires i < 12 && ValidMoment(now)
    ensures result == MonthNameDate(m, i, now)
  {
    var dayFirst := Exec(DayBeforeMonth(MonthNames[i]), m.text).Some?;
    var day, year, time;
    if dayFirst {
      day, year, time := ParseGroup(Group(m, 1)), Group(m, 4), Group(m, 3);
    } else {
      day, year, time := ParseGroup(Group(m, 2)), Group(m, 3), Group(m, 4);
    }
    result := SetCalendar(now, ResolveYear(year, now.year), Finite(i), day, time);
  }

  /** The numeric branch: `parseInt(matches[1]) - 1` as the month, `parseInt(matches[2])` as the day. */
  method NumericCase(m: Match, now: Moment) returns (result: Date)
    requires ValidMoment(now)
    ensures result == NumericBranchDate(m, now)
  {
    var month := MonthFromOne(Group(m, 1));
    result := SetCalendar(now, ResolveYear(Group(m, 3), now.year), month, ParseGroup(Group(m, 2)), Group(m, 4));
  }

  /** The `for` loop over the month abbreviations: the first one that `text` contains. */
  method MonthIndex(text: string) returns (month: Option<nat>)
    ensures month == FirstMonthIn(text, 0)
  {
    var i := 0;
    while i < |MonthNames|
      invariant 0 <= i <= |MonthNames|
      invariant FirstMonthIn(text, 0) == FirstMonthIn(text, i)
    {
      if Includes(text, MonthNames[i]) {
        return Some(i);
      }
      i := i + 1;
    }
    return None;
  }

  method MatchesToDate(m: Match, now: Moment) returns (result: Date)
    requires ValidMoment(now)
    ensures result == DateOf(m, now)
  {
    var text := LowerAscii(m.text);
    if Includes(text, "tomorrow") {
      result := TomorrowCase(m, now);
      TomorrowBranch(m, now);
      return;
    }
    if Includes(text, "today") {
      result := TodayCase(m, now);
      TodayBranch(m, now);
      return;
    }
    var month := MonthIndex(text);
    if month.Some? {
      MonthBranch(m, now, month.value);
      result := MonthNameCase(m, month.value, now);
      return;
    }
    if Truthy(Group(m, 1)) && Truthy(Group(m, 2)) {
      result := NumericCase(m, now);
      NumericBranch(m, now);
      return;
    }
    ClockBranch(m, now);
    result := ValidDate(now);
    var timeOnlyMatch := FindClock(m.text, true);
    if timeOnlyMatch.Some? {
      result := SetClock(result, timeOnlyMatch.value);
    }
  }

  // ---------------------------------------------------------------------------
  // parseTaskInput

  /** `priorityMatch[1].toUpperCase()`, for a token of "p" or "P" and a digit from 1 to 4. */
  function PriorityOfToken(token: string): (p: Priority)
    requires |token| == 2 && (token[0] == 'p' || token[0] == 'P') && '1' <= token[1] <= '4'
    ensures PriorityLabel(p) == ['P', token[1]]
  {
    if token[1] == '1' then P1 else if token[1] == '2' then P2 else if token[1] == '3' then P3 else P4
  }

  lemma PriorityTokenShape(s: string)
    requires Exec(PriorityToken, s).Some?
    ensures var m := Exec(PriorityToken, s).value;
            && m.groups.g1 == Some(m.text) && |m.text| == 2
            && (m.text[0] == 'p' || m.text[0] == 'P') && '1' <= m.text[1] <= '4'
  {
    var m := Exec(PriorityToken, s).value;
    assert PriorityToken.attempt(s, m.index) == PriorityTokenAt(s, m.index);
  }

  /** `input.replace(match[0], '').trim()`. */
  function Remove(input: string, m: Match): (r: string)
    ensures |r| <= |input|
  {
    Trim(ReplaceFirst(input, m.text))
  }

  /** The first pass: the priority token, and the text left once it is removed. */
  function PriorityPass(input: string): (r: (string, Priority))
    ensures |r.0| <= |input|
  {
    match Exec(PriorityToken, input)
    case None => (input, P3)
    case Some(m) => PriorityTokenShape(input); (Remove(input, m), PriorityOfToken(m.text))
  }

  /** The second pass: "to/for/by Name", or else the first capitalised word. */
  function AssigneePass(input: string): (r: (string, Option<string>))
    ensures |r.0| <= |input|
  {
    match Exec(PrepositionName, input)
    case Some(m) => (Remove(input, m), Group(m, 1))
    case None =>
      match Exec(CapitalizedWord, input)
      case Some(m) => (Remove(input, m), Group(m, 1))
      case None => (input, None)
  }

  /** The date patterns, in the order they are tried. */
  const DatePatterns: seq<Pattern> := [TomorrowAt, TodayAt, DayMonth, MonthDay, NumericDate]

  /** The index of the first date pattern from index `k` on that matches `input`. */
  function FirstDatePattern(input: string, k: nat): (r: Option<nat>)
    requires k <= |DatePatterns|
    ensures r.Some? ==> k <= r.value < |DatePatterns| && Exec(DatePatterns[r.value], input).Some?
    ensures r.Some? ==> forall j :: k <= j < r.value ==> Exec(DatePatterns[j], input).None?
    ensures r.None? ==> forall j :: k <= j < |DatePatterns| ==> Exec(DatePatterns[j], input).None?
    decreases |DatePatterns| - k
  {
    if k == |DatePatterns| then None
    else if Exec(DatePatterns[k], input).Some? then Some(k)
    else FirstDatePattern(input, k + 1)
  }

  /** The third pass: the first date pattern that matches, read by `matchesToDate`. */
  function DatePass(input: string, now: Moment): (r: (string, Option<Date>))
    requires ValidMoment(now)
    ensures |r.0| <= |input|
  {
    match FirstDatePattern(input, 0)
    case None => (input, None)
    case Some(k) =>
      var m := Exec(DatePatterns[k], input).value;
      (Remove(input, m), Some(DateOf(m, now)))
  }

  /** `parseTaskInput(input)`, with `now` the current moment. */
  function Parse(input: string, now: Moment): (r: TaskDraft)
    requires ValidMoment(now)
  {
    var trimmed := Trim(input);
    if trimmed == [] then TaskDraft(trimmed, None, None, P3)
    else
      var (afterPriority, priority) := PriorityPass(input);
      var (afterAssignee, assignee) := AssigneePass(afterPriority);
      var (rest, dueDate) := DatePass(afterAssignee, now);
      TaskDraft(if Trim(rest) != [] then Trim(rest) else trimmed, assignee, dueDate, priority)
  }

  /** Looks for the priority token and removes it. */
  method TakePriority(input: string) returns (rest: string, priority: Priority)
    ensures (rest, priority) == PriorityPass(input)
  {
    rest, priority := input, P3;
    var priorityMatch := Exec(PriorityToken, input);
    if priorityMatch.Some? {
      PriorityTokenShape(input);
      priority := PriorityOfToken(priorityMatch.value.text);
      rest := Remove(input, priorityMatch.value);
    }
  }

  /** Looks for "to/for/by Name", then for a capitalised word, and removes what it found. */
  method TakeAssignee(input: string) returns (rest: string, assignee: Option<string>)
    ensures (rest, assignee) == AssigneePass(input)
  {
    rest, assignee := input, None;
    var assigneeMatch := Exec(PrepositionName, input);
    if assigneeMatch.None? {
      var nameMatch := Exec(CapitalizedWord, input);
      if nameMatch.Some? {
        assignee := Group(nameMatch.value, 1);
        rest := Remove(input, nameMatch.value);
      }
    } else {
      assignee := Group(assigneeMatch.value, 1);
      rest := Remove(input, assigneeMatch.value);
    }
  }

  /** Tries the date patterns in order; the first that matches gives the due date and is removed. */
  method TakeDueDate(input: string, now: Moment) returns (rest: string, dueDate: Option<Date>)
    requires ValidMoment(now)
    ensures (rest, dueDate) == DatePass(input, now)
  {
    rest, dueDate := input, None;
    var k := 0;
    while k < |DatePatterns|
      invariant 0 <= k <= |DatePatterns|
      invariant FirstDatePattern(input, 0) == FirstDatePattern(input, k)
    {
      var m := Exec(DatePatterns[k], input);
      if m.Some? {
        var due := MatchesToDate(m.value, now);
        dueDate := Some(due);
        rest := Remove(input, m.value);
        return;
      }
      k := k + 1;
    }
  }

  method ParseTaskInput(input: string, now: Moment) returns (task: TaskDraft)
    requires ValidMoment(now)
    ensures task == Parse(input, now)
  {
    task := TaskDraft(Trim(input), None, None, P3);
    if Trim(input) == [] {
      return;
    }
    var rest, priority := TakePriority(input);
    var assignee;
    rest, assignee := TakeAssignee(rest);
    var dueDate;
    rest, dueDate := TakeDueDate(rest, now);
    task := task.(assignee := assignee, dueDate := dueDate, priority := priority);
    if Trim(rest) != [] {
      task := task.(name := Trim(rest));
    }
  }

  // ---------------------------------------------------------------------------
  // Properties of parseTaskInput

  /**
   * The text a match removes is the first occurrence of the matched text,
   * which may lie before the match itself; exactly that many characters go.
   */
  lemma RemovesFirstOccurrence(p: Pattern, s: string)
    requires Exec(p, s).Some?
    ensures var m := Exec(p, s).value;
            && IndexOf(s, m.text).Some? && IndexOf(s, m.text).value <= m.index
            && |ReplaceFirst(s, m.text)| == |s| - |m.text|
  {
    var m := Exec(p, s).value;
    assert OccursAt(s, m.text, m.index);
  }

  /** Blank input gives a task whose name is empty, with no assignee, no due date and priority P3. */
  lemma BlankInput(input: string, now: Moment)
    requires ValidMoment(now) && Blank(input)
    ensures Parse(input, now) == TaskDraft([], None, None, P3)
  {
  }

  /**
   * Any other input gives a non-empty name without surrounding whitespace: the
   * text left after the three passes, trimmed, or the trimmed input when
   * nothing is left.
   */
  lemma NameIsTrimmedAndNonEmpty(input: string, now: Moment)
    requires ValidMoment(now) && !Blank(input)
    ensures var name := Parse(input, now).name;
            name != [] && Trim(name) == name && |name| <= |input|
    ensures var rest := DatePass(AssigneePass(PriorityPass(input).0).0, now).0;
            Parse(input, now).name == if Trim(rest) != [] then Trim(rest) else Trim(input)
  {
    var rest := DatePass(AssigneePass(PriorityPass(input).0).0, now).0;
    assert |rest| <= |input|;
    assert Parse(input, now).name == if Trim(rest) != [] then Trim(rest) else Trim(input);
    TrimIdempotent(rest);
    TrimIdempotent(input);
  }

  /** The priority is the digit of the first "p1".."p4" token, in either case; P3 when there is none. */
  lemma PriorityRule(input: string, now: Moment)
    requires ValidMoment(now) && !Blank(input)
    ensures Exec(PriorityToken, input).None? ==> Parse(input, now).priority == P3
    ensures Exec(PriorityToken, input).Some? ==>
              var m := Exec(PriorityToken, input).value;
              && |m.text| == 2 && (m.text[0] == 'p' || m.text[0] == 'P')
              && PriorityLabel(Parse(input, now).priority) == ['P', m.text[1]]
  {
    if Exec(PriorityToken, input).Some? {
      PriorityTokenShape(input);
    }
  }

  /** An assignee is always a name: two or more ASCII letters. */
  lemma AssigneeIsName(input: string, now: Moment)
    requires ValidMoment(now)
    ensures Parse(input, now).assignee.Some? ==> IsName(Parse(input, now).assignee.value, true)
  {
    if !Blank(input) {
      var (afterPriority, _) := PriorityPass(input);
      var e := Exec(PrepositionName, afterPriority);
      if e.Some? {
        assert PrepositionName.attempt(afterPriority, e.value.index) == PrepositionNameAt(afterPriority, e.value.index);
      } else {
        var c := Exec(CapitalizedWord, afterPriority);
        if c.Some? {
          assert CapitalizedWord.attempt(afterPriority, c.value.index) == CapitalizedWordAt(afterPriority, c.value.index);
        }
      }
    }
  }

  /**
   * Without "to/for/by Name", a capitalised word at the start of the text is the
   * assignee, whatever capitalised words follow it.
   */
  lemma {:induction false} FirstCapitalisedWordWins(input: string, now: Moment, e: int)
    requires ValidMoment(now) && !Blank(input)
    requires var t := PriorityPass(input).0;
             && Exec(PrepositionName, t).None?
             && 2 <= e <= |t| && IsName(t[..e], false) && Boundary(t, e)
    ensures Parse(input, now).assignee == Some(PriorityPass(input).0[..e])
  {
    var t := PriorityPass(input).0;
    assert t[0..e] == t[..e];
    CapitalizedWordFound(t, 0, e);
    assert CapitalizedWord.attempt(t, 0) == CapitalizedWordAt(t, 0);
    var c := Exec(CapitalizedWord, t);
    assert c.Some? && c.value.index == 0;
  }

  /**
   * "to", "for" or "by" before a name takes precedence over a bare capitalised
   * word, and without either there is no assignee.
   */
  lemma AssigneeRule(input: string, now: Moment)
    requires ValidMoment(now) && !Blank(input)
    ensures var t := PriorityPass(input).0;
            && (Exec(PrepositionName, t).Some? ==> Parse(input, now).assignee == Exec(PrepositionName, t).value.groups.g1)
            && (Exec(PrepositionName, t).None? && Exec(CapitalizedWord, t).Some? ==>
                  Parse(input, now).assignee == Exec(CapitalizedWord, t).value.groups.g1)
            && (Exec(PrepositionName, t).None? && Exec(CapitalizedWord, t).None? ==> Parse(input, now).assignee.None?)
  {
  }

  // ---------------------------------------------------------------------------
  // The time-only branch of matchesToDate is never reached

  /** A word found (in any case) inside a slice of `s` is included in the lower-cased slice. */
  lemma WordInSlice(s: string, lo: int, hi: int, at: int, word: string)
    requires 0 <= lo <= at && LiteralAt(s, at, word) && at + |word| <= hi <= |s|
    ensures Includes(LowerAscii(s[lo..hi]), word)
  {
    var t := s[lo..hi];
    var j := at - lo;
    assert t[j..j + |word|] == s[at..at + |word|];
    assert LowerAscii(t)[j..j + |word|] == LowerAscii(t[j..j + |word|]);
    IncludesAt(LowerAscii(t), word, j);
  }

  /** A month abbreviation inside a slice of `s` makes the month loop stop. */
  lemma MonthInSlice(s: string, lo: int, hi: int, w: int)
    requires 0 <= lo <= w && w + 3 <= hi <= |s| && MonthNameAt(s, w)
    ensures FirstMonthIn(LowerAscii(s[lo..hi]), 0).Some?
  {
    var name := LowerAscii(s[w..w + 3]);
    WordInSlice(s, lo, hi, w, name);
    var j :| 0 <= j < |MonthNames| && MonthNames[j] == name;
  }

  /** "tomorrow", "today", a month name or two numbers in the matched text select a date branch. */
  lemma DateBranchSelected(m: Match)
    requires || Includes(LowerAscii(m.text), "tomorrow") || Includes(LowerAscii(m.text), "today")
             || FirstMonthIn(LowerAscii(m.text), 0).Some? || (Truthy(Group(m, 1)) && Truthy(Group(m, 2)))
    ensures !BranchOf(m).TimeOnly? && !BranchOf(m).Unchanged?
  {
  }

  lemma RelativeDayMatch(s: string, p: Pattern, word: string)
    requires (p == TomorrowAt && word == "tomorrow") || (p == TodayAt && word == "today")
    requires Exec(p, s).Some?
    ensures Includes(LowerAscii(Exec(p, s).value.text), word)
  {
    var m := Exec(p, s).value;
    assert p.attempt(s, m.index) == RelativeDayAt(s, m.index, word);
    var h := RelativeDayAt(s, m.index, word).value;
    WordInSlice(s, m.index, h.end, m.index, word);
  }

  lemma DayMonthMatch(s: string)
    requires Exec(DayMonth, s).Some?
    ensures FirstMonthIn(LowerAscii(Exec(DayMonth, s).value.text), 0).Some?
  {
    var m := Exec(DayMonth, s).value;
    var w, e := DayMonthMonth(s);
    MonthInSlice(s, m.index, e, w);
  }

  /** The match of the day-first pattern contains a month name after its start. */
  lemma DayMonthMonth(s: string) returns (w: int, e: int)
    requires Exec(DayMonth, s).Some?
    ensures var m := Exec(DayMonth, s).value;
            m.index < w && w + 3 <= e <= |s| && m.text == s[m.index..e] && MonthNameAt(s, w)
  {
    var m := Exec(DayMonth, s).value;
    var h := DayMonthAt(s, m.index);
    assert DayMonth.attempt(s, m.index) == h;
    e := h.value.end;
    w :| m.index < w && w + 3 <= e && MonthCapture(s, w, h.value.groups.g2);
  }

  lemma MonthDayMatch(s: string)
    requires Exec(MonthDay, s).Some?
    ensures FirstMonthIn(LowerAscii(Exec(MonthDay, s).value.text), 0).Some?
  {
    var m := Exec(MonthDay, s).value;
    var e := MonthDayStart(s);
    MonthInSlice(s, m.index, e, m.index);
  }

  /** The match of the month-first pattern starts with a month name. */
  lemma MonthDayStart(s: string) returns (e: int)
    requires Exec(MonthDay, s).Some?
    ensures var m := Exec(MonthDay, s).value;
            m.index + 3 <= e <= |s| && m.text == s[m.index..e] && MonthNameAt(s, m.index)
  {
    var m := Exec(MonthDay, s).value;
    var h := MonthDayAt(s, m.index);
    assert MonthDay.attempt(s, m.index) == h;
    e := h.value.end;
  }

  lemma NumericDateMatch(s: string)
    requires Exec(NumericDate, s).Some?
    ensures var m := Exec(NumericDate, s).value;
            NumberCapture(m.groups.g1) && NumberCapture(m.groups.g2)
  {
    var m := Exec(NumericDate, s).value;
    var h := NumericDateAt(s, m.index);
    assert NumericDate.attempt(s, m.index) == h;
    assert m.groups == h.value.groups;
  }

  /**
   * The match of every date pattern is handled by one of the date branches of
   * `matchesToDate`: "tomorrow" or "today" occurs in it, or a month name, or
   * it has two numbers. The final time-only branch is never taken for it.
   */
  lemma DatePatternsDecideBranch(s: string, k: nat)
    requires k < |DatePatterns| && Exec(DatePatterns[k], s).Some?
    ensures var b := BranchOf(Exec(DatePatterns[k], s).value);
            !b.TimeOnly? && !b.Unchanged?
  {
    var m := Exec(DatePatterns[k], s).value;
    if k == 0 {
      RelativeDayMatch(s, TomorrowAt, "tomorrow");
    } else if k == 1 {
      RelativeDayMatch(s, TodayAt, "today");
    } else if k == 2 {
      DayMonthMatch(s);
    } else if k == 3 {
      MonthDayMatch(s);
    } else {
      NumericDateMatch(s);
    }
    DateBranchSelected(m);
  }

  /**
   * The date pass finds a due date exactly when some date pattern matches; it
   * comes from the first pattern that matches, and never from the time-only
   * branch.
   */
  lemma DatePassRule(t: string, now: Moment)
    requires ValidMoment(now)
    ensures DatePass(t, now).1.None? <==> forall k :: 0 <= k < |DatePatterns| ==> Exec(DatePatterns[k], t).None?
    ensures DatePass(t, now).1.Some? ==>
              exists k :: 0 <= k < |DatePatterns| && Exec(DatePatterns[k], t).Some?
                          && (forall j :: 0 <= j < k ==> Exec(DatePatterns[j], t).None?)
                          && var m := Exec(DatePatterns[k], t).value;
                             && DatePass(t, now).1 == Some(DateOf(m, now))
                             && !BranchOf(m).TimeOnly? && !BranchOf(m).Unchanged?
  {
    match FirstDatePattern(t, 0)
    case None =>
    case Some(k) =>
      DatePatternsDecideBranch(t, k);
      assert DatePass(t, now).1 == Some(DateOf(Exec(DatePatterns[k], t).value, now));
  }

  /** The due date is what the date pass finds in the text left after the priority and the assignee are removed. */
  lemma DueDateRule(input: string, now: Moment)
    requires ValidMoment(now) && !Blank(input)
    ensures var t := AssigneePass(PriorityPass(input).0).0;
            && (Parse(input, now).dueDate.None? <==> forall k :: 0 <= k < |DatePatterns| ==> Exec(DatePatterns[k], t).None?)
            && (Parse(input, now).dueDate.Some? ==>
                  exists k :: 0 <= k < |DatePatterns| && Exec(DatePatterns[k], t).Some?
                              && (forall j :: 0 <= j < k ==> Exec(DatePatterns[j], t).None?)
                              && var m := Exec(DatePatterns[k], t).value;
                                 && Parse(input, now).dueDate == Some(DateOf(m, now))
                                 && !BranchOf(m).TimeOnly? && !BranchOf(m).Unchanged?)
  {
    var t := AssigneePass(PriorityPass(input).0).0;
    assert Parse(input, now).dueDate == DatePass(t, now).1;
    DatePassRule(t, now);
  }

  // ---------------------------------------------------------------------------
  // Properties of matchesToDate

  /**
   * "tomorrow at 5pm": the day after now at the given time; without a clock
   * in the capture, the same time tomorrow.
   */
  lemma TomorrowRule(m: Match, now: Moment)
    requires ValidMoment(now) && Includes(LowerAscii(m.text), "tomorrow")
    ensures DateOf(m, now).ValidDate?
    ensures Truthy(Group(m, 1)) && FindClock(Group(m, 1).value, true).Some? ==>
              var c := ReadClock(FindClock(Group(m, 1).value, true).value);
              TimeValue(DateOf(m, now).at) == (DayNumber(now.year, now.month, now.day) + 1) * MsPerDay
                                              + To24Hour(c.hour, c.period) * MsPerHour + c.minute * MsPerMinute
    ensures !(Truthy(Group(m, 1)) && FindClock(Group(m, 1).value, true).Some?) ==>
              TimeValue(DateOf(m, now).at) == TimeValue(now) + MsPerDay
  {
    TomorrowBranch(m, now);
  }

  /** "today at 5pm": today at the given time; without a clock in the capture, now. */
  lemma TodayRule(m: Match, now: Moment)
    requires ValidMoment(now)
    requires !Includes(LowerAscii(m.text), "tomorrow") && Includes(LowerAscii(m.text), "today")
    ensures DateOf(m, now).ValidDate?
    ensures Truthy(Group(m, 1)) && FindClock(Group(m, 1).value, true).Some? ==>
              var c := ReadClock(FindClock(Group(m, 1).value, true).value);
              TimeValue(DateOf(m, now).at) == DayNumber(now.year, now.month, now.day) * MsPerDay
                                              + To24Hour(c.hour, c.period) * MsPerHour + c.minute * MsPerMinute
    ensures !(Truthy(Group(m, 1)) && FindClock(Group(m, 1).value, true).Some?) ==> DateOf(m, now) == ValidDate(now)
  {
    TodayBranch(m, now);
  }

  /** Without a time, a calendar date is due at 23:59:00.000 of its day. */
  lemma EndOfDayDefault(now: Moment, year: int, month: Number, day: Number, time: Option<string>)
    requires ValidMoment(now) && !Truthy(time)
    ensures var r := CalendarDate(now, year, month, day, time);
            r.ValidDate? ==> r.at.hour == 23 && r.at.minute == 59 && r.at.second == 0 && r.at.ms == 0
  {
  }

  /** A calendar date is invalid exactly when its month or its day is `NaN`. */
  lemma CalendarDateValidity(now: Moment, year: int, month: Number, day: Number, time: Option<string>)
    requires ValidMoment(now)
    ensures CalendarDate(now, year, month, day, time).InvalidDate? <==> month.NaN? || day.NaN?
  {
  }

  /**
   * When no setter has to roll over (now's day exists in the target year and
   * month, and the requested day exists in the target month), a calendar date
   * lands on exactly the requested year, month and day.
   */
  lemma CalendarDateLands(now: Moment, year: int, month: int, day: int, time: Option<string>)
    requires ValidMoment(now) && 0 <= month < 12
    requires ValidDay(year, now.month, now.day) && ValidDay(year, month, now.day) && ValidDay(year, month, day)
    ensures CalendarDate(now, year, Finite(month), Finite(day), time).ValidDate?
    ensures !Truthy(time) ==>
              CalendarDate(now, year, Finite(month), Finite(day), time).at == Moment(year, month, day, 23, 59, 0, 0)
    ensures Truthy(time) && FindClock(time.value, false).Some? ==>
              var c := ReadClock(FindClock(time.value, false).value);
              TimeValue(CalendarDate(now, year, Finite(month), Finite(day), time).at)
              == DayNumber(year, month, day) * MsPerDay + To24Hour(c.hour, c.period) * MsPerHour + c.minute * MsPerMinute
  {
    SettersLand(now, year, month, day);
  }

  /** Year, month and day set one after the other, none of them rolling over. */
  lemma SettersLand(now: Moment, year: int, month: int, day: int)
    requires ValidMoment(now) && 0 <= month < 12
    requires ValidDay(year, now.month, now.day) && ValidDay(year, month, now.day) && ValidDay(year, month, day)
    ensures SetDate(SetMonth(ValidDate(SetFullYear(now, year)), Finite(month)), Finite(day))
            == ValidDate(now.(year := year, month := month, day := day))
  {
    var d0 := SetFullYear(now, year);
    assert d0 == now.(year := year);
    assert month / 12 == 0 && month % 12 == month;
    var d1 := SetMonth(ValidDate(d0), Finite(month));
    assert d1.at == d0.(month := month);
  }

  /**
   * The setters run on a copy of now in the order year, month, day, so the
   * month is first set with now's day: on 31 January 2025, "2/15" is read as
   * 15 March 2025, because 31 February rolls over into March before the day is set.
   */
  lemma MonthSetBeforeDay()
    ensures var now := Moment(2025, 0, 31, 9, 0, 0, 0);
            var r := CalendarDate(now, 2025, Finite(1), Finite(15), None);
            r == ValidDate(Moment(2025, 2, 15, 23, 59, 0, 0))
  {
    var now := Moment(2025, 0, 31, 9, 0, 0, 0);
    var d0 := SetFullYear(now, 2025);
    assert d0 == now;
    ThirtyFirstOfFebruary();
    assert 1 / 12 == 0 && 1 % 12 == 1;
    var d1 := SetMonth(ValidDate(d0), Finite(1));
    assert d1 == ValidDate(Moment(2025, 2, 3, 9, 0, 0, 0));
    var d2 := SetDate(d1, Finite(15));
    assert ValidDay(2025, 2, 15);
    assert d2 == ValidDate(Moment(2025, 2, 15, 9, 0, 0, 0));
    assert CalendarDate(now, 2025, Finite(1), Finite(15), None) == SetHours(d2, 23, 59);
  }

  /** 31 February 2025 is 3 March 2025. */
  lemma ThirtyFirstOfFebruary()
    ensures Roll(2025, 1, 31) == CalendarDay(2025, 2, 3)
  {
    assert DaysInMonth(2025, 1) == 28;
    assert Roll(2025, 2, 3) == CalendarDay(2025, 2, 3);
  }
}
