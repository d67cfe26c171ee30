/**
 * The regular expressions of the rule-based parser, each written out as its own
 * matcher over `seq<char>`.
 *
 * A JavaScript regular expression is a backtracking matcher: at every choice
 * point (a greedy quantifier, an optional group, an alternation) it tries the
 * alternatives in a fixed order and keeps the first one with which the rest of
 * the pattern succeeds. Here every choice point is a sequence of candidates in
 * that order (the longest run first for a greedy quantifier, "taken" before
 * "skipped" for an optional group, left to right for an alternation) and
 * `FirstSome` keeps the first candidate whose continuation succeeds, so each
 * matcher returns the match the engine returns, captures included.
 * `String.prototype.match` without the `g` flag tries the start positions from
 * left to right (`Exec`).
 *
 * Under the `i` flag without the `u` flag, `\w`, `\b`, `[A-Z]` and `[a-z]` are
 * ASCII-only and letters compare case-insensitively; `\s` is the whitespace
 * set of `Text.IsSpace`.
 */
module Regex {
  import opened Wrappers
  import opened Text

  // ---------------------------------------------------------------------------
  // Choice points

  /** `hi, hi - 1, ..., lo`: the backtracking order of a greedy quantifier. */
  function Backoff(lo: int, hi: int): (r: seq<int>)
    ensures |r| == if hi < lo then 0 else hi - lo + 1
    ensures forall k :: 0 <= k < |r| ==> r[k] == hi - k
    ensures forall x :: x in r ==> lo <= x <= hi
    decreases hi - lo
  {
    if hi < lo then [] else [hi] + Backoff(lo, hi - 1)
  }

  /** The result of the first candidate for which `f` succeeds. */
  function FirstSome<T, U>(xs: seq<T>, f: T --> Option<U>): (r: Option<U>)
    requires forall x :: x in xs ==> f.requires(x)
    ensures r.Some? ==> exists x :: x in xs && f(x) == r
    ensures r.None? <==> forall x :: x in xs ==> f(x).None?
  {
    if xs == [] then None
    else if f(xs[0]).Some? then f(xs[0])
    else FirstSome(xs[1..], f)
  }

  /** The candidates of `f(x)` for each candidate `x` in turn. */
  function Concat<T, U>(xs: seq<T>, f: T --> seq<U>): (r: seq<U>)
    requires forall x :: x in xs ==> f.requires(x)
    ensures forall y :: y in r ==> exists x :: x in xs && y in f(x)
  {
    if xs == [] then [] else f(xs[0]) + Concat(xs[1..], f)
  }

  /**
   * Candidate ends of `c{lo,hi}` for character class `k` starting at `i`,
   * longest first (`hi` may be `|s|` for an unbounded quantifier).
   */
  function Rep(s: string, i: int, k: CharClass, lo: nat, hi: nat): (r: seq<int>)
    ensures forall x :: x in r ==> 0 <= i && i + lo <= x <= i + hi && x <= |s|
    ensures forall x :: x in r ==> forall j :: i <= j < x ==> InClass(s[j], k)
  {
    if 0 <= i <= |s| then
      var m := RunEnd(s, i, k);
      Backoff(i + lo, if m < i + hi then m else i + hi)
    else []
  }

  /** `w` (written in lower case) occurs at `i` when case is ignored. */
  predicate LiteralAt(s: string, i: int, w: string) {
    0 <= i && i + |w| <= |s| && LowerAscii(s[i..i + |w|]) == w
  }

  /** Ends of the alternatives `w1|w2|...` that occur at `i`, in the order they are tried. */
  function Alternatives(s: string, i: int, ws: seq<string>): (r: seq<int>)
    ensures forall x :: x in r ==> exists w :: w in ws && LiteralAt(s, i, w) && x == i + |w|
  {
    if ws == [] then []
    else (if LiteralAt(s, i, ws[0]) then [i + |ws[0]|] else []) + Alternatives(s, i, ws[1..])
  }

  /** `(?:w1|w2|...)?`: an alternative that occurs, and then the empty match. */
  function Optional(s: string, i: int, ws: seq<string>): (r: seq<int>)
    ensures r != [] && r[|r| - 1] == i
    ensures forall x :: x in r ==> x == i || exists w :: w in ws && LiteralAt(s, i, w) && x == i + |w|
  {
    Alternatives(s, i, ws) + [i]
  }

  predicate WordAt(s: string, j: int) {
    0 <= j < |s| && IsWordChar(s[j])
  }

  /** `\b`: a word character on exactly one side of position `i`. */
  predicate Boundary(s: string, i: int) {
    WordAt(s, i - 1) != WordAt(s, i)
  }

  const MonthNames: seq<string> :=
    ["jan", "feb", "mar", "apr", "may", "jun", "jul", "aug", "sep", "oct", "nov", "dec"]

  /** A capture: where it ends and what it captured (`None` for a group that did not take part). */
  datatype Piece = Piece(end: int, text: Option<string>)

  /**
   * Capture groups 1 to 4 (`None` for a group that did not take part, and for
   * the numbers past a pattern's last group, which JavaScript reads as `undefined`).
   */
  datatype Groups = Groups(g1: Option<string>, g2: Option<string>, g3: Option<string>, g4: Option<string>)

  const NoGroups := Groups(None, None, None, None)

  /** A successful match attempt at some position: where it ends, and its groups. */
  datatype Hit = Hit(end: int, groups: Groups)

  // ---------------------------------------------------------------------------
  // The clock `\d{1,2}(?::\d{2})?\s*(?:am|pm)` (or `(?:am|pm)?`)

  /** One way the clock sub-pattern can match: its end, hour digits, minute digits and am/pm text. */
  datatype Clock = Clock(end: int, hour: string, minute: Option<string>, period: Option<string>)

  predicate IsPeriod(p: string) {
    |p| == 2 && (LowerAscii(p) == "am" || LowerAscii(p) == "pm")
  }

  /** Every way the clock can match at `t`, in the order the engine tries them. */
  function Clocks(s: string, t: int, periodRequired: bool): (r: seq<Clock>)
    ensures forall c :: c in r ==> 0 <= t < c.end <= |s| && ClockShape(s, t, c)
    ensures periodRequired ==> forall c :: c in r ==> c.period.Some?
  {
    var hours := Rep(s, t, Digit, 1, 2);
    Concat(hours, (h: int) requires h in hours => ClocksAfterHour(s, t, h, periodRequired))
  }

  /** What every clock candidate looks like. */
  predicate ClockShape(s: string, t: int, c: Clock) {
    && 0 <= t <= c.end <= |s|
    && 1 <= |c.hour| <= 2 && AllDigits(c.hour) && t + |c.hour| <= c.end && c.hour == s[t..t + |c.hour|]
    && (c.minute.Some? ==> && |c.minute.value| == 2 && AllDigits(c.minute.value) && t + |c.hour| + 3 <= c.end
                           && s[t + |c.hour|] == ':' && c.minute.value == s[t + |c.hour| + 1..t + |c.hour| + 3])
    && (c.period.Some? ==> IsPeriod(c.period.value) && t + 2 <= c.end && c.period.value == s[c.end - 2..c.end])
  }

  function ClocksAfterHour(s: string, t: int, h: int, periodRequired: bool): (r: seq<Clock>)
    requires 0 <= t && t + 1 <= h <= t + 2 && h <= |s|
    requires forall j :: t <= j < h ==> IsDigit(s[j])
    ensures forall c :: c in r ==> t < c.end <= |s| && ClockShape(s, t, c)
    ensures periodRequired ==> forall c :: c in r ==> c.period.Some?
  {
    var minutes := Minutes(s, h);
    Concat(minutes, (m: Piece) requires m in minutes => ClocksAfterMinutes(s, t, h, m, periodRequired))
  }

  function ClocksAfterMinutes(s: string, t: int, h: int, m: Piece, periodRequired: bool): (r: seq<Clock>)
    requires 0 <= t && t + 1 <= h <= t + 2 && h <= m.end <= |s|
    requires forall j :: t <= j < h ==> IsDigit(s[j])
    requires m.text.Some? ==> |m.text.value| == 2 && AllDigits(m.text.value) && MinuteText(s, h, m)
    ensures forall c :: c in r ==> t < c.end <= |s| && ClockShape(s, t, c)
    ensures periodRequired ==> forall c :: c in r ==> c.period.Some?
  {
    var spaces := Rep(s, m.end, Space, 0, |s|);
    Concat(spaces, (w: int) requires w in spaces => ClocksAfterSpaces(s, t, h, m, w, periodRequired))
  }

  function ClocksAfterSpaces(s: string, t: int, h: int, m: Piece, w: int, periodRequired: bool): (r: seq<Clock>)
    requires 0 <= t && t + 1 <= h <= t + 2 && h <= m.end <= w <= |s|
    requires forall j :: t <= j < h ==> IsDigit(s[j])
    requires m.text.Some? ==> |m.text.value| == 2 && AllDigits(m.text.value) && MinuteText(s, h, m)
    ensures forall c :: c in r ==> t < c.end <= |s| && ClockShape(s, t, c)
    ensures periodRequired ==> forall c :: c in r ==> c.period.Some?
  {
    var periods := Periods(s, w, periodRequired);
    Concat(periods, (p: Piece) requires p in periods => [ClockOf(s, t, h, m, w, p)])
  }

  function ClockOf(s: string, t: int, h: int, m: Piece, w: int, p: Piece): (c: Clock)
    requires 0 <= t && t + 1 <= h <= t + 2 && h <= m.end <= w <= p.end <= |s|
    requires forall j :: t <= j < h ==> IsDigit(s[j])
    requires m.text.Some? ==> |m.text.value| == 2 && AllDigits(m.text.value) && MinuteText(s, h, m)
    requires p.text.Some? ==> IsPeriod(p.text.value) && p.end == w + 2 && p.text.value == s[w..w + 2]
    ensures t < c.end <= |s| && ClockShape(s, t, c) && c.period == p.text
  {
    Clock(p.end, s[t..h], m.text, p.text)
  }

  /** The minute capture is the two characters after a colon at `h`. */
  predicate MinuteText(s: string, h: int, m: Piece)
    requires m.text.Some?
  {
    0 <= h && m.end == h + 3 <= |s| && s[h] == ':' && m.text.value == s[h + 1..h + 3]
  }

  /** `(?::(\d{2}))?` at `h`. */
  function Minutes(s: string, h: int): (r: seq<Piece>)
    requires 0 <= h <= |s|
    ensures forall m :: m in r ==> && h <= m.end <= |s|
                                   && (m.text.Some? ==> |m.text.value| == 2 && AllDigits(m.text.value) && MinuteText(s, h, m))
  {
    if h + 3 <= |s| && s[h] == ':' && IsDigit(s[h + 1]) && IsDigit(s[h + 2]) then
      [Piece(h + 3, Some(s[h + 1..h + 3])), Piece(h, None)]
    else [Piece(h, None)]
  }

  /** `(am|pm)` at `w`, followed by the empty alternative when the period is optional. */
  function Periods(s: string, w: int, periodRequired: bool): (r: seq<Piece>)
    requires 0 <= w <= |s|
    ensures forall p :: p in r ==> w <= p.end <= |s|
    ensures forall p :: p in r ==> p.text.Some? ==> IsPeriod(p.text.value) && p.end == w + 2 && p.text.value == s[w..w + 2]
    ensures periodRequired ==> forall p :: p in r ==> p.text.Some?
  {
    (if LiteralAt(s, w, "am") then [Piece(w + 2, Some(s[w..w + 2]))] else [])
    + (if LiteralAt(s, w, "pm") then [Piece(w + 2, Some(s[w..w + 2]))] else [])
    + (if periodRequired then [] else [Piece(w, None)])
  }

  /** `(clock)?` at `q`: each clock that matches, as a capture, then the skipped group. */
  function OptionalClock(s: string, q: int): (r: seq<Piece>)
    requires 0 <= q <= |s|
    ensures forall c :: c in r ==> q <= c.end <= |s| && (c.text.Some? ==> c.text.value == s[q..c.end] && q < c.end)
  {
    var clocks := Clocks(s, q, false);
    Concat(clocks, (c: Clock) requires c in clocks => [Piece(c.end, Some(s[q..c.end]))]) + [Piece(q, None)]
  }

  /** `(?:at\s+)?` at `p`: the positions after "at" and one or more spaces, longest first, then `p` itself. */
  function OptionalAt(s: string, p: int): (r: seq<int>)
    requires 0 <= p <= |s|
    ensures forall q :: q in r ==> p <= q <= |s|
  {
    var ats := Alternatives(s, p, ["at"]);
    Concat(ats, (a: int) requires a in ats => Rep(s, a, Space, 1, |s|)) + [p]
  }

  /** `(?:at\s+)?(clock)?` at `p`. */
  function OptionalAtClock(s: string, p: int): (r: seq<Piece>)
    requires 0 <= p <= |s|
    ensures forall c :: c in r ==> p <= c.end <= |s| && (c.text.Some? ==> c.text.value != [])
  {
    var starts := OptionalAt(s, p);
    Concat(starts, (q: int) requires q in starts => OptionalClock(s, q))
  }

  /** `(?:\s+(?:at\s+)?(clock)?)?` at `b`. */
  function OptionalTimeClause(s: string, b: int): (r: seq<Piece>)
    requires 0 <= b <= |s|
    ensures forall c :: c in r ==> b <= c.end <= |s| && (c.text.Some? ==> c.text.value != [])
  {
    var spaces := Rep(s, b, Space, 1, |s|);
    Concat(spaces, (p: int) requires p in spaces => OptionalAtClock(s, p)) + [Piece(b, None)]
  }

  /** `(\d{lo,hi})` at `w`, each length as a capture, longest first. */
  function DigitCaptures(s: string, w: int, lo: nat, hi: nat): (r: seq<Piece>)
    requires 0 < lo
    ensures forall d :: d in r ==> 0 <= w && w + lo <= d.end <= w + hi && d.end <= |s| && NumberCapture(d.text)
  {
    var ends := Rep(s, w, Digit, lo, hi);
    Concat(ends, (e: int) requires e in ends => [Piece(e, Some(s[w..e]))])
  }

  /** `(?:\s+(\d{4}))?` at `e`. */
  function OptionalYear(s: string, e: int): (r: seq<Piece>)
    requires 0 <= e <= |s|
    ensures forall y :: y in r ==> e <= y.end <= |s|
  {
    var spaces := Rep(s, e, Space, 1, |s|);
    Concat(spaces, (w: int) requires w in spaces => DigitCaptures(s, w, 4, 4)) + [Piece(e, None)]
  }

  /** `(?:st|nd|rd|th)?` */
  const Suffixes: seq<string> := ["st", "nd", "rd", "th"]

  /** `(\d{1,2})(?:st|nd|rd|th)?` at `i`: the day digits as a capture, ending after the suffix. */
  function Days(s: string, i: int): (r: seq<Piece>)
    ensures forall d :: d in r ==> && 0 <= i < d.end <= |s| && d.text.Some? && d.text.value != []
                                   && AllDigits(d.text.value)
  {
    var digits := DigitCaptures(s, i, 1, 2);
    Concat(digits, (d: Piece) requires d in digits =>
      var suffixed := Optional(s, d.end, Suffixes);
      Concat(suffixed, (a: int) requires a in suffixed => [Piece(a, d.text)]))
  }

  /** A month name at `w`, captured as `g`. */
  predicate MonthCapture(s: string, w: int, g: Option<string>) {
    MonthNameAt(s, w) && g == Some(s[w..w + 3])
  }

  /** One of the twelve month abbreviations, in any case, at `w`. */
  predicate MonthNameAt(s: string, w: int) {
    0 <= w && w + 3 <= |s| && LowerAscii(s[w..w + 3]) in MonthNames
  }

  /**
   * `(month)(?:\w*)\.?` at `w`: the month name as a capture, ending after the
   * rest of the word and an optional dot. The twelve alternatives are distinct
   * words of three letters, so at most one of them matches at `w` and the
   * alternation is a test.
   */
  function MonthWords(s: string, w: int): (r: seq<Piece>)
    ensures forall c :: c in r ==> MonthWordAt(s, w, c)
  {
    if MonthNameAt(s, w) then MonthWordsAfterName(s, w) else []
  }

  /** A month name at `w`, captured, and then only word characters and dots up to `c.end`. */
  predicate MonthWordAt(s: string, w: int, c: Piece) {
    && MonthNameAt(s, w) && w + 3 <= c.end <= |s| && c.text == Some(s[w..w + 3])
    && forall j :: w + 3 <= j < c.end ==> IsWordChar(s[j]) || s[j] == '.'
  }

  function MonthWordsAfterName(s: string, w: int): (r: seq<Piece>)
    requires MonthNameAt(s, w)
    ensures forall c :: c in r ==> MonthWordAt(s, w, c)
  {
    var word := Rep(s, w + 3, Word, 0, |s|);
    Concat(word, (x: int) requires x in word => MonthWordEnd(s, w, x))
  }

  /** `\.?` after the month word that ends at `x`. */
  function MonthWordEnd(s: string, w: int, x: int): (r: seq<Piece>)
    requires MonthNameAt(s, w) && w + 3 <= x <= |s|
    requires forall j :: w + 3 <= j < x ==> IsWordChar(s[j])
    ensures forall c :: c in r ==> MonthWordAt(s, w, c)
  {
    var dotted := Optional(s, x, ["."]);
    Concat(dotted, (y: int) requires y in dotted => [Piece(y, Some(s[w..w + 3]))])
  }

  // ---------------------------------------------------------------------------
  // The patterns

  /** An attempt of the engine at one position either fails or ends a match between that position and the end of the text. */
  predicate Within(h: Option<Hit>, s: string, i: int) {
    h.Some? ==> 0 <= i <= h.value.end <= |s|
  }

  /**
   * A compiled regular expression: the match its engine makes when it starts
   * at a given position of a given text.
   */
  type Matcher = f: (string, int) -> Option<Hit> | forall s, i :: Within(f(s, i), s, i)
    witness (s: string, i: int) => None

  datatype Pattern = Pattern(attempt: Matcher)

  /** `/\b(P[1-4])\b/i` */
  const PriorityToken := Pattern((s, i) => PriorityTokenAt(s, i))

  /** `/\b(?:to|for|by)\s+([A-Z][a-z]+)\b/i` */
  const PrepositionName := Pattern((s, i) => PrepositionNameAt(s, i))

  /** `/\b([A-Z][a-z]+)\b/` */
  const CapitalizedWord := Pattern((s, i) => CapitalizedWordAt(s, i))

  /** `/\btomorrow\s+(?:at\s+)?(clock with am|pm)/i` */
  const TomorrowAt := Pattern((s, i) => RelativeDayAt(s, i, "tomorrow"))

  /** `/\btoday\s+(?:at\s+)?(clock with am|pm)/i` */
  const TodayAt := Pattern((s, i) => RelativeDayAt(s, i, "today"))

  /** `/\b(\d{1,2})(?:st|nd|rd|th)?\s+(month)(?:\w*)\.?\s+(?:at\s+)?(clock)?(?:\s+(\d{4}))?\b/i` */
  const DayMonth := Pattern((s, i) => DayMonthAt(s, i))

  /** `/\b(month)(?:\w*)\.?\s+(\d{1,2})(?:st|nd|rd|th)?(?:\s+(\d{4}))?(?:\s+(?:at\s+)?(clock)?)?\b/i` */
  const MonthDay := Pattern((s, i) => MonthDayAt(s, i))

  /** `/\b(\d{1,2})[\/\-](\d{1,2})(?:[\/\-](\d{2,4}))?(?:\s+(?:at\s+)?(clock)?)?\b/i` */
  const NumericDate := Pattern((s, i) => NumericDateAt(s, i))

  /** `/\b(\d{1,2})(?:st|nd|rd|th)?\s+(name)/i` */
  function DayBeforeMonth(name: string): Pattern {
    Pattern((s, i) => DayBeforeMonthAt(s, i, name))
  }

  /** `/(\d{1,2})(?::(\d{2}))?\s*(am|pm)/i`, or with `(am|pm)?` when the period is optional. */
  function ClockTime(periodRequired: bool): Pattern {
    Pattern((s, i) => ClockTimeAt(s, i, periodRequired))
  }

  /** `\b(P[1-4])\b` under the `i` flag, at `i`. */
  function PriorityTokenAt(s: string, i: int): (r: Option<Hit>)
    ensures r.Some? <==> && 0 <= i && i + 2 <= |s| && Boundary(s, i) && Boundary(s, i + 2)
                         && (s[i] == 'p' || s[i] == 'P') && '1' <= s[i + 1] <= '4'
    ensures r.Some? ==> r.value == Hit(i + 2, NoGroups.(g1 := Some(s[i..i + 2])))
  {
    if 0 <= i && i + 2 <= |s| && Boundary(s, i) && (s[i] == 'p' || s[i] == 'P') && '1' <= s[i + 1] <= '4'
       && Boundary(s, i + 2)
    then Some(Hit(i + 2, NoGroups.(g1 := Some(s[i..i + 2]))))
    else None
  }

  /** A name: a letter (an upper-case one unless `caseless`) and then one or more letters (lower-case ones unless `caseless`). */
  predicate IsName(n: string, caseless: bool) {
    && |n| >= 2
    && (if caseless then IsLetter(n[0]) else IsUpper(n[0]))
    && forall k :: 1 <= k < |n| ==> if caseless then IsLetter(n[k]) else IsLower(n[k])
  }

  /** `([A-Z][a-z]+)\b` at `w`, with or without the `i` flag. */
  function NameAt(s: string, w: int, caseless: bool): (r: Option<Hit>)
    requires 0 <= w <= |s|
    ensures r.Some? ==> && w + 2 <= r.value.end <= |s| && r.value.groups == NoGroups.(g1 := Some(s[w..r.value.end]))
                        && IsName(s[w..r.value.end], caseless) && Boundary(s, r.value.end)
  {
    if w < |s| && (if caseless then IsLetter(s[w]) else IsUpper(s[w])) then
      var rest := Rep(s, w + 1, if caseless then Letter else Lower, 1, |s|);
      FirstSome(rest, (e: int) requires e in rest => NameEnd(s, w, e, caseless))
    else None
  }

  /** The name from `w` to `e`, when `\b` holds at `e`. */
  function NameEnd(s: string, w: int, e: int, caseless: bool): (r: Option<Hit>)
    requires 0 <= w < e <= |s| && w + 2 <= e
    requires if caseless then IsLetter(s[w]) else IsUpper(s[w])
    requires forall j :: w + 1 <= j < e ==> InClass(s[j], if caseless then Letter else Lower)
    ensures r.Some? <==> Boundary(s, e)
    ensures r.Some? ==> && r.value.end == e && r.value.groups == NoGroups.(g1 := Some(s[w..e])) && IsName(s[w..e], caseless)
  {
    if Boundary(s, e) then
      NameShape(s, w, e, caseless);
      Some(Hit(e, NoGroups.(g1 := Some(s[w..e]))))
    else None
  }

  lemma NameShape(s: string, w: int, e: int, caseless: bool)
    requires 0 <= w < e <= |s| && w + 2 <= e
    requires if caseless then IsLetter(s[w]) else IsUpper(s[w])
    requires forall j :: w + 1 <= j < e ==> InClass(s[j], if caseless then Letter else Lower)
    ensures IsName(s[w..e], caseless)
  {
    var n := s[w..e];
    forall k | 1 <= k < |n| ensures if caseless then IsLetter(n[k]) else IsLower(n[k]) {
      assert n[k] == s[w + k];
    }
  }

  /** `\b(?:to|for|by)\s+([A-Z][a-z]+)\b` under the `i` flag, at `i`. */
  function PrepositionNameAt(s: string, i: int): (r: Option<Hit>)
    ensures r.Some? ==> && 0 <= i <= r.value.end <= |s| && Boundary(s, i)
                        && exists p :: p in Prepositions && LiteralAt(s, i, p)
                                       && SpacedName(s, i + |p|, r.value.end, r.value.groups)
  {
    if 0 <= i <= |s| && Boundary(s, i) then
      var preps := Alternatives(s, i, Prepositions);
      FirstSome(preps, (a: int) requires a in preps => NameAfterSpaces(s, a))
    else None
  }

  const Prepositions: seq<string> := ["to", "for", "by"]

  /**
   * One or more spaces from `a`, then a name in either case captured as group 1
   * and ending at `e`, where `\b` holds.
   */
  predicate SpacedName(s: string, a: int, e: int, g: Groups) {
    exists w :: && 0 <= a < w < e <= |s| && (forall j :: a <= j < w ==> IsSpace(s[j]))
                && g == NoGroups.(g1 := Some(s[w..e])) && IsName(s[w..e], true) && Boundary(s, e)
  }

  /** `\s+([A-Z][a-z]+)\b` at `a`, under the `i` flag. */
  function NameAfterSpaces(s: string, a: int): (r: Option<Hit>)
    requires 0 <= a <= |s|
    ensures r.Some? ==> a <= r.value.end <= |s| && SpacedName(s, a, r.value.end, r.value.groups)
  {
    var spaces := Rep(s, a, Space, 1, |s|);
    FirstSome(spaces, (w: int) requires w in spaces => NameAt(s, w, true))
  }

  /** `\b([A-Z][a-z]+)\b` at `i`. */
  function CapitalizedWordAt(s: string, i: int): (r: Option<Hit>)
    ensures r.Some? ==> && 0 <= i <= r.value.end <= |s| && Boundary(s, i) && Boundary(s, r.value.end)
                        && r.value.groups == NoGroups.(g1 := Some(s[i..r.value.end])) && IsName(s[i..r.value.end], false)
  {
    if 0 <= i <= |s| && Boundary(s, i) then NameAt(s, i, false) else None
  }

  /** Conversely, a capitalised word between two boundaries is what `CapitalizedWordAt` matches there. */
  lemma {:induction false} CapitalizedWordFound(s: string, i: int, e: int)
    requires 0 <= i && i + 2 <= e <= |s| && Boundary(s, i) && IsName(s[i..e], false) && Boundary(s, e)
    ensures CapitalizedWordAt(s, i) == Some(Hit(e, NoGroups.(g1 := Some(s[i..e]))))
  {
    assert IsUpper(s[i]) by { assert s[i..e][0] == s[i]; }
    forall j | i + 1 <= j < e ensures IsLower(s[j]) {
      assert s[i..e][j - i] == s[j];
    }
    var m := RunEnd(s, i + 1, Lower);
    assert WordAt(s, e - 1) && !WordAt(s, e);
    assert m == e;
    var rest := Rep(s, i + 1, Lower, 1, |s|);
    assert rest[0] == e;
    var f := (x: int) requires x in rest => NameEnd(s, i, x, false);
    assert f(rest[0]) == Some(Hit(e, NoGroups.(g1 := Some(s[i..e]))));
    assert NameAt(s, i, false) == FirstSome(rest, f);
  }

  /** `(clock with am|pm)` at `q`, captured as group 1; nothing follows it in the pattern. */
  function RequiredClockAt(s: string, q: int): (r: Option<Hit>)
    requires 0 <= q <= |s|
    ensures r.Some? ==> && q < r.value.end <= |s| && r.value.groups == NoGroups.(g1 := Some(s[q..r.value.end]))
                        && EndsInPeriod(s[q..r.value.end])
  {
    var clocks := Clocks(s, q, true);
    if clocks == [] then None
    else
      var c := clocks[0];
      assert c in clocks;
      ClockEndsInPeriod(s, q, c);
      Some(Hit(c.end, NoGroups.(g1 := Some(s[q..c.end]))))
  }

  /** Text whose last two characters are "am" or "pm" in any case. */
  predicate EndsInPeriod(t: string) {
    |t| >= 2 && IsPeriod(t[|t| - 2..])
  }

  lemma ClockEndsInPeriod(s: string, t: int, c: Clock)
    requires ClockShape(s, t, c) && c.period.Some?
    ensures t < c.end <= |s| && EndsInPeriod(s[t..c.end])
  {
    assert s[t..c.end][c.end - t - 2..] == s[c.end - 2..c.end];
  }

  /** `\b<word>\s+(?:at\s+)?(clock with am|pm)`: the "tomorrow" and "today" patterns. */
  function RelativeDayAt(s: string, i: int, word: string): (r: Option<Hit>)
    ensures r.Some? ==> && Boundary(s, i) && LiteralAt(s, i, word) && i + |word| < r.value.end <= |s|
                        && IsSpace(s[i + |word|]) && ClockCapture(s, i + |word| + 1, r.value)
  {
    if Boundary(s, i) && LiteralAt(s, i, word) then
      var spaces := Rep(s, i + |word|, Space, 1, |s|);
      FirstSome(spaces, (w: int) requires w in spaces => RelativeDayClock(s, w))
    else None
  }

  /**
   * Group 1, the only group, is a clock with am/pm that starts at or after `a`
   * and ends the match.
   */
  predicate ClockCapture(s: string, a: int, h: Hit) {
    exists q :: && 0 <= a <= q < h.end <= |s| && h.groups == NoGroups.(g1 := Some(s[q..h.end]))
                && EndsInPeriod(s[q..h.end])
  }

  function RelativeDayClock(s: string, w: int): (r: Option<Hit>)
    requires 0 <= w <= |s|
    ensures r.Some? ==> w <= r.value.end <= |s| && ClockCapture(s, w, r.value)
  {
    var starts := OptionalAt(s, w);
    FirstSome(starts, (q: int) requires q in starts => RequiredClockAt(s, q))
  }

  /** `(?:\s+(\d{4}))?\b` at `e`: the year becomes group 4 of the captures `acc`. */
  function YearThenBoundary(s: string, e: int, acc: Groups): (r: Option<Hit>)
    requires 0 <= e <= |s|
    ensures r.Some? ==> e <= r.value.end <= |s| && r.value.groups.(g4 := acc.g4) == acc && Boundary(s, r.value.end)
  {
    var years := OptionalYear(s, e);
    FirstSome(years, (y: Piece) requires y in years =>
      if Boundary(s, y.end) then Some(Hit(y.end, acc.(g4 := y.text))) else None)
  }

  /** `(?:\s+(?:at\s+)?(clock)?)?\b` at `b`: the time becomes group 4 of the captures `acc`. */
  function TimeClauseThenBoundary(s: string, b: int, acc: Groups): (r: Option<Hit>)
    requires 0 <= b <= |s|
    ensures r.Some? ==> b <= r.value.end <= |s| && r.value.groups.(g4 := acc.g4) == acc && Boundary(s, r.value.end)
  {
    var clauses := OptionalTimeClause(s, b);
    FirstSome(clauses, (c: Piece) requires c in clauses =>
      if Boundary(s, c.end) then Some(Hit(c.end, acc.(g4 := c.text))) else None)
  }

  /** Groups: day, month, time, year. */
  function DayMonthAt(s: string, i: int): (r: Option<Hit>)
    ensures r.Some? ==> && 0 <= i <= r.value.end <= |s| && NumberCapture(r.value.groups.g1)
                        && exists w :: i < w && w + 3 <= r.value.end && MonthCapture(s, w, r.value.groups.g2)
  {
    if 0 <= i <= |s| && Boundary(s, i) then
      var days := Days(s, i);
      FirstSome(days, (d: Piece) requires d in days => DayMonthAfterDay(s, d.end, NoGroups.(g1 := d.text)))
    else None
  }

  /** A match of the day-first pattern starts and ends at a word boundary. */
  lemma DayMonthBoundaries(s: string, i: int)
    requires DayMonthAt(s, i).Some?
    ensures Boundary(s, i) && Boundary(s, DayMonthAt(s, i).value.end)
  {
  }

  function DayMonthAfterDay(s: string, e: int, acc: Groups): (r: Option<Hit>)
    requires 0 <= e <= |s|
    ensures r.Some? ==> && e <= r.value.end <= |s| && Boundary(s, r.value.end) && r.value.groups.g1 == acc.g1
                        && exists w :: e < w && w + 3 <= r.value.end && MonthCapture(s, w, r.value.groups.g2)
  {
    var spaces := Rep(s, e, Space, 1, |s|);
    FirstSome(spaces, (w: int) requires w in spaces => DayMonthFromMonth(s, w, acc))
  }

  function DayMonthFromMonth(s: string, w: int, acc: Groups): (r: Option<Hit>)
    requires 0 <= w <= |s|
    ensures r.Some? ==> && w + 3 <= r.value.end <= |s| && MonthNameAt(s, w) && Boundary(s, r.value.end)
                        && r.value.groups.g1 == acc.g1 && MonthCapture(s, w, r.value.groups.g2)
  {
    var words := MonthWords(s, w);
    FirstSome(words, (c: Piece) requires c in words => DayMonthAfterMonth(s, c.end, acc.(g2 := c.text)))
  }

  /** `\s+(?:at\s+)?(clock)?(?:\s+(\d{4}))?\b` at `y`, the end of the month word. */
  function DayMonthAfterMonth(s: string, y: int, acc: Groups): (r: Option<Hit>)
    requires 0 <= y <= |s|
    ensures r.Some? ==> && y < r.value.end <= |s| && IsSpace(s[y]) && Boundary(s, r.value.end)
                        && r.value.groups.g1 == acc.g1 && r.value.groups.g2 == acc.g2
  {
    var spaces := Rep(s, y, Space, 1, |s|);
    FirstSome(spaces, (p: int) requires p in spaces => DayMonthTail(s, p, acc))
  }

  /** `(?:at\s+)?(clock)?(?:\s+(\d{4}))?\b` at `p`. */
  function DayMonthTail(s: string, p: int, acc: Groups): (r: Option<Hit>)
    requires 0 <= p <= |s|
    ensures r.Some? ==> && p <= r.value.end <= |s| && Boundary(s, r.value.end)
                        && r.value.groups.g1 == acc.g1 && r.value.groups.g2 == acc.g2
  {
    var times := OptionalAtClock(s, p);
    FirstSome(times, (t: Piece) requires t in times => YearThenBoundary(s, t.end, acc.(g3 := t.text)))
  }

  /** Groups: month, day, year, time. */
  function MonthDayAt(s: string, i: int): (r: Option<Hit>)
    ensures r.Some? ==> && 0 <= i && i + 3 <= r.value.end <= |s| && Boundary(s, i) && Boundary(s, r.value.end)
                        && MonthNameAt(s, i) && r.value.groups.g1 == Some(s[i..i + 3])
                        && NumberCapture(r.value.groups.g2)
  {
    if 0 <= i <= |s| && Boundary(s, i) then
      var words := MonthWords(s, i);
      FirstSome(words, (c: Piece) requires c in words => MonthDayAfterMonth(s, c.end, NoGroups.(g1 := c.text)))
    else None
  }

  function MonthDayAfterMonth(s: string, y: int, acc: Groups): (r: Option<Hit>)
    requires 0 <= y <= |s|
    ensures r.Some? ==> && y <= r.value.end <= |s| && Boundary(s, r.value.end)
                        && r.value.groups.g1 == acc.g1 && NumberCapture(r.value.groups.g2)
  {
    var spaces := Rep(s, y, Space, 1, |s|);
    FirstSome(spaces, (w: int) requires w in spaces => MonthDayFromDay(s, w, acc))
  }

  function MonthDayFromDay(s: string, w: int, acc: Groups): (r: Option<Hit>)
    requires 0 <= w <= |s|
    ensures r.Some? ==> && w <= r.value.end <= |s| && Boundary(s, r.value.end)
                        && r.value.groups.g1 == acc.g1 && NumberCapture(r.value.groups.g2)
  {
    var days := Days(s, w);
    FirstSome(days, (d: Piece) requires d in days => MonthDayAfterDay(s, d.end, acc.(g2 := d.text)))
  }

  function MonthDayAfterDay(s: string, a: int, acc: Groups): (r: Option<Hit>)
    requires 0 <= a <= |s|
    ensures r.Some? ==> && a <= r.value.end <= |s| && Boundary(s, r.value.end)
                        && r.value.groups.g1 == acc.g1 && r.value.groups.g2 == acc.g2
  {
    var years := OptionalYear(s, a);
    FirstSome(years, (y: Piece) requires y in years => TimeClauseThenBoundary(s, y.end, acc.(g3 := y.text)))
  }

  /** A capture of one or more digits. */
  predicate NumberCapture(g: Option<string>) {
    g.Some? && g.value != [] && AllDigits(g.value)
  }

  /** Groups: first number, second number, year, time. */
  function NumericDateAt(s: string, i: int): (r: Option<Hit>)
    ensures r.Some? ==> && 0 <= i <= r.value.end <= |s| && Boundary(s, i) && Boundary(s, r.value.end)
                        && NumberCapture(r.value.groups.g1) && NumberCapture(r.value.groups.g2)
  {
    if 0 <= i <= |s| && Boundary(s, i) then
      var firsts := DigitCaptures(s, i, 1, 2);
      FirstSome(firsts, (d: Piece) requires d in firsts => NumericDateAfterFirst(s, d.end, NoGroups.(g1 := d.text)))
    else None
  }

  function NumericDateAfterFirst(s: string, e: int, acc: Groups): (r: Option<Hit>)
    requires 0 <= e <= |s|
    ensures r.Some? ==> && e <= r.value.end <= |s| && Boundary(s, r.value.end)
                        && r.value.groups.g1 == acc.g1 && NumberCapture(r.value.groups.g2)
  {
    var separators := Alternatives(s, e, ["/", "-"]);
    FirstSome(separators, (x: int) requires x in separators => NumericDateSecond(s, x, acc))
  }

  function NumericDateSecond(s: string, x: int, acc: Groups): (r: Option<Hit>)
    requires 0 <= x <= |s|
    ensures r.Some? ==> && x <= r.value.end <= |s| && Boundary(s, r.value.end)
                        && r.value.groups.g1 == acc.g1 && NumberCapture(r.value.groups.g2)
  {
    var seconds := DigitCaptures(s, x, 1, 2);
    FirstSome(seconds, (d: Piece) requires d in seconds => NumericDateAfterSecond(s, d.end, acc.(g2 := d.text)))
  }

  function NumericDateAfterSecond(s: string, d2: int, acc: Groups): (r: Option<Hit>)
    requires 0 <= d2 <= |s|
    ensures r.Some? ==> && d2 <= r.value.end <= |s| && Boundary(s, r.value.end)
                        && r.value.groups.g1 == acc.g1 && r.value.groups.g2 == acc.g2
  {
    var years := NumericYear(s, d2);
    FirstSome(years, (y: Piece) requires y in years => TimeClauseThenBoundary(s, y.end, acc.(g3 := y.text)))
  }

  /** `(?:[\/\-](\d{2,4}))?` at `d2`. */
  function NumericYear(s: string, d2: int): (r: seq<Piece>)
    requires 0 <= d2 <= |s|
    ensures forall y :: y in r ==> d2 <= y.end <= |s|
  {
    var separators := Alternatives(s, d2, ["/", "-"]);
    Concat(separators, (z: int) requires z in separators => DigitCaptures(s, z, 2, 4)) + [Piece(d2, None)]
  }

  /** `\b(\d{1,2})(?:st|nd|rd|th)?\s+(name)` under the `i` flag, at `i`. */
  function DayBeforeMonthAt(s: string, i: int, name: string): (r: Option<Hit>)
    ensures r.Some? ==> && 0 <= i < r.value.end <= |s| && Boundary(s, i) && NumberCapture(r.value.groups.g1)
                        && NameCapture(r.value.groups.g2, name)
  {
    if 0 <= i <= |s| && Boundary(s, i) then
      var days := Days(s, i);
      FirstSome(days, (d: Piece) requires d in days => NameAfterDay(s, d, name))
    else None
  }

  /** Group 2 is `name` (written in lower case) in any case. */
  predicate NameCapture(g: Option<string>, name: string) {
    g.Some? && LowerAscii(g.value) == name
  }

  /** `\s+(name)` after the day `d`. */
  function NameAfterDay(s: string, d: Piece, name: string): (r: Option<Hit>)
    requires 0 <= d.end <= |s|
    ensures r.Some? ==> && d.end <= r.value.end <= |s| && r.value.groups.g1 == d.text
                        && NameCapture(r.value.groups.g2, name)
  {
    var spaces := Rep(s, d.end, Space, 1, |s|);
    FirstSome(spaces, (w: int) requires w in spaces => MonthNameAfterDay(s, d, w, name))
  }

  /** `(name)` at `w`, after the day `d`. */
  function MonthNameAfterDay(s: string, d: Piece, w: int, name: string): (r: Option<Hit>)
    requires d.end <= w
    ensures r.Some? <==> LiteralAt(s, w, name)
    ensures r.Some? ==> && r.value.end == w + |name| && r.value.groups.g1 == d.text
                        && r.value.groups.g2 == Some(s[w..w + |name|]) && NameCapture(r.value.groups.g2, name)
  {
    if LiteralAt(s, w, name) then Some(Hit(w + |name|, NoGroups.(g1 := d.text, g2 := Some(s[w..w + |name|]))))
    else None
  }

  /** The hour, minute and period captures of the clock regular expression, which has nothing after the clock. */
  function ClockTimeAt(s: string, i: int, periodRequired: bool): (r: Option<Hit>)
    ensures r.Some? ==> && 0 <= i < r.value.end <= |s|
                        && ClockGroups(r.value.groups) && ClockText(s, i, r.value.end, r.value.groups)
                        && (periodRequired ==> r.value.groups.g3.Some?)
  {
    var clocks := Clocks(s, i, periodRequired);
    if clocks == [] then None
    else
      var c := clocks[0];
      assert c in clocks;
      ClockCaptures(s, i, c);
      Some(Hit(c.end, Groups(Some(c.hour), c.minute, c.period, None)))
  }

  lemma ClockCaptures(s: string, t: int, c: Clock)
    requires ClockShape(s, t, c)
    ensures ClockGroups(Groups(Some(c.hour), c.minute, c.period, None))
    ensures ClockText(s, t, c.end, Groups(Some(c.hour), c.minute, c.period, None))
  {
  }

  /**
   * The clock's captures are the text they stand for: the hour digits at `t`,
   * the minute digits after a colon that follows them, and an am/pm that ends
   * the match at `e`.
   */
  predicate ClockText(s: string, t: int, e: int, g: Groups) {
    && g.g1.Some? && 0 <= t && t + |g.g1.value| <= e <= |s| && g.g1.value == s[t..t + |g.g1.value|]
    && (g.g2.Some? ==> && t + |g.g1.value| + 3 <= e && s[t + |g.g1.value|] == ':'
                       && g.g2.value == s[t + |g.g1.value| + 1..t + |g.g1.value| + 3])
    && (g.g3.Some? ==> t + 2 <= e && g.g3.value == s[e - 2..e])
    && g.g4.None?
  }

  /** Hour digits (one or two), optional minute digits (two) and an optional am/pm. */
  predicate ClockGroups(g: Groups) {
    && g.g1.Some? && 1 <= |g.g1.value| <= 2 && AllDigits(g.g1.value)
    && (g.g2.Some? ==> |g.g2.value| == 2 && AllDigits(g.g2.value))
    && (g.g3.Some? ==> IsPeriod(g.g3.value))
  }

  // ---------------------------------------------------------------------------
  // Searching

  /** What `String.prototype.match` returns: the match's index, its text (`match[0]`) and its groups. */
  datatype Match = Match(index: nat, text: string, groups: Groups)

  /** `match[k]` for `k` from 1 to 4. */
  function Group(m: Match, k: nat): Option<string> {
    if k == 1 then m.groups.g1
    else if k == 2 then m.groups.g2
    else if k == 3 then m.groups.g3
    else if k == 4 then m.groups.g4
    else None
  }

  /**
   * The first position from `i` on at which `attempt` succeeds, with the text
   * from there to where the attempt ends.
   */
  function Leftmost(s: string, attempt: int -> Option<Hit>, i: nat): (r: Option<Match>)
    requires i <= |s| + 1
    requires forall j :: i <= j <= |s| && attempt(j).Some? ==> j <= attempt(j).value.end <= |s|
    ensures r.Some? ==> && i <= r.value.index <= |s| && attempt(r.value.index).Some?
                        && var h := attempt(r.value.index).value;
                           r.value.text == s[r.value.index..h.end] && r.value.groups == h.groups
    ensures r.Some? ==> forall j :: i <= j < r.value.index ==> attempt(j).None?
    ensures r.None? <==> forall j :: i <= j <= |s| ==> attempt(j).None?
    decreases |s| + 1 - i
  {
    if i > |s| then None
    else match attempt(i)
      case Some(h) => Some(Match(i, s[i..h.end], h.groups))
      case None => Leftmost(s, attempt, i + 1)
  }

  /** `s.match(p)`: the match at the leftmost position where the pattern matches, if any. */
  function Exec(p: Pattern, s: string): (r: Option<Match>)
    ensures r.Some? ==> && r.value.index <= |s| && p.attempt(s, r.value.index).Some?
                        && var h := p.attempt(s, r.value.index).value;
                           r.value.text == s[r.value.index..h.end] && r.value.groups == h.groups
    ensures r.Some? ==> forall j :: 0 <= j < r.value.index ==> p.attempt(s, j).None?
    ensures r.None? <==> forall j :: 0 <= j <= |s| ==> p.attempt(s, j).None?
  {
    var attempt := j => p.attempt(s, j);
    assert forall j :: attempt(j) == p.attempt(s, j);
    Leftmost(s, attempt, 0)
  }
}
