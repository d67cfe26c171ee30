/**
 * The pieces of JavaScript's string library that the parser relies on:
 * the character classes of its regular expressions (`\s`, `\d`, `\w`),
 * `trim`, `indexOf` / `includes`, `replace` with a string pattern,
 * `toLowerCase` on ASCII text and `parseInt`.
 */
module Text {
  import opened Wrappers

  /** `\s` in a JavaScript regular expression; also exactly what `String.prototype.trim` strips. */
  predicate IsSpace(c: char) {
    || c == ' ' || c == '\t' || c == '\n' || c == '\U{000B}' || c == '\U{000C}' || c == '\r'
    || c == '\U{00A0}' || c == '\U{1680}' || ('\U{2000}' <= c <= '\U{200A}')
    || c == '\U{2028}' || c == '\U{2029}' || c == '\U{202F}' || c == '\U{205F}'
    || c == '\U{3000}' || c == '\U{FEFF}'
  }

  /** `\d` (ASCII digits only). */
  predicate IsDigit(c: char) { '0' <= c <= '9' }

  predicate IsUpper(c: char) { 'A' <= c <= 'Z' }

  predicate IsLower(c: char) { 'a' <= c <= 'z' }

  /** `[A-Z]` or `[a-z]` under the `i` flag: without the `u` flag only ASCII letters fold onto them. */
  predicate IsLetter(c: char) { IsUpper(c) || IsLower(c) }

  /** `\w`. */
  predicate IsWordChar(c: char) { IsLetter(c) || IsDigit(c) || c == '_' }

  function ToLower(c: char): (r: char)
    ensures IsUpper(c) ==> IsLower(r) && r as int == c as int + 32
    ensures !IsUpper(c) ==> r == c
  {
    if IsUpper(c) then (c as int + 32) as char else c
  }

  /** `toLowerCase` on text whose letters are ASCII, which is all the parser ever lowers. */
  function LowerAscii(s: string): (r: string)
    ensures |r| == |s|
    ensures forall k :: 0 <= k < |s| ==> r[k] == ToLower(s[k])
  {
    seq(|s|, k requires 0 <= k < |s| => ToLower(s[k]))
  }

  // ---------------------------------------------------------------------------
  // Runs of one character class (the greedy `\s+`, `\d+`, `\w*`, `[a-z]+`)

  datatype CharClass = Space | Digit | Letter | Lower | Word

  predicate InClass(c: char, k: CharClass) {
    match k
    case Space => IsSpace(c)
    case Digit => IsDigit(c)
    case Letter => IsLetter(c)
    case Lower => IsLower(c)
    case Word => IsWordChar(c)
  }

  /** The end of the longest run of class `k` that starts at `i`. */
  function RunEnd(s: string, i: nat, k: CharClass): (r: nat)
    requires i <= |s|
    ensures i <= r <= |s|
    ensures forall j :: i <= j < r ==> InClass(s[j], k)
    ensures r == |s| || !InClass(s[r], k)
    decreases |s| - i
  {
    if i < |s| && InClass(s[i], k) then RunEnd(s, i + 1, k) else i
  }

  // ---------------------------------------------------------------------------
  // trim

  predicate Blank(s: string) {
    forall k :: 0 <= k < |s| ==> IsSpace(s[k])
  }

  /** The end of the text once the whitespace before `hi` (but not before `lo`) is dropped. */
  function TrimmedEnd(s: string, lo: nat, hi: nat): (r: nat)
    requires lo <= hi <= |s|
    ensures lo <= r <= hi
    ensures forall k :: r <= k < hi ==> IsSpace(s[k])
    ensures r == lo || !IsSpace(s[r - 1])
    decreases hi
  {
    if hi > lo && IsSpace(s[hi - 1]) then TrimmedEnd(s, lo, hi - 1) else hi
  }

  /**
   * `String.prototype.trim`: the input without its leading and trailing
   * whitespace. The result is the slice of the input that starts after the
   * leading run of whitespace, everything cut off is whitespace, and it
   * neither starts nor ends with whitespace.
   */
  function Trim(s: string): (r: string)
    ensures |r| <= |s|
    ensures var lo := RunEnd(s, 0, Space);
            && lo + |r| <= |s| && r == s[lo..lo + |r|]
            && (forall k :: 0 <= k < lo ==> IsSpace(s[k]))
            && (forall k :: lo + |r| <= k < |s| ==> IsSpace(s[k]))
    ensures r == [] || (!IsSpace(r[0]) && !IsSpace(r[|r| - 1]))
    ensures r == [] <==> Blank(s)
  {
    var lo := RunEnd(s, 0, Space);
    var hi := TrimmedEnd(s, lo, |s|);
    assert lo < hi ==> !IsSpace(s[lo]);
    s[lo..hi]
  }

  lemma TrimIdempotent(s: string)
    ensures Trim(Trim(s)) == Trim(s)
  {
    var t := Trim(s);
    if t != [] {
      assert RunEnd(t, 0, Space) == 0;
      assert TrimmedEnd(t, 0, |t|) == |t|;
    }
  }

  // ---------------------------------------------------------------------------
  // indexOf, includes and replace

  predicate OccursAt(s: string, t: string, k: int) {
    0 <= k && k + |t| <= |s| && s[k..k + |t|] == t
  }

  /** The first index at or after `k` where `t` occurs in `s`. */
  function IndexFrom(s: string, t: string, k: nat): (r: Option<nat>)
    ensures r.Some? ==> k <= r.value && OccursAt(s, t, r.value)
                        && forall j :: k <= j < r.value ==> !OccursAt(s, t, j)
    ensures r.None? ==> forall j :: k <= j ==> !OccursAt(s, t, j)
    decreases |s| - k
  {
    if k + |t| > |s| then None
    else if s[k..k + |t|] == t then Some(k)
    else IndexFrom(s, t, k + 1)
  }

  /** `s.indexOf(t)`: the least index where `t` occurs, or none when it does not occur at all. */
  function IndexOf(s: string, t: string): (r: Option<nat>)
    ensures r.Some? ==> OccursAt(s, t, r.value) && forall j :: 0 <= j < r.value ==> !OccursAt(s, t, j)
    ensures r.None? <==> forall j :: !OccursAt(s, t, j)
  {
    IndexFrom(s, t, 0)
  }

  /** `s.includes(t)`. */
  predicate Includes(s: string, t: string) {
    IndexOf(s, t).Some?
  }

  lemma IncludesAt(s: string, t: string, k: int)
    requires OccursAt(s, t, k)
    ensures Includes(s, t)
  {
  }

  /**
   * `s.replace(t, '')` with a string pattern: deletes the FIRST occurrence of
   * `t`, wherever a regular expression found the text, and leaves `s` alone
   * when `t` does not occur.
   */
  function ReplaceFirst(s: string, t: string): (r: string)
    ensures IndexOf(s, t).None? ==> r == s
    ensures IndexOf(s, t).Some? ==>
              var k := IndexOf(s, t).value;
              |r| == |s| - |t| && r == s[..k] + s[k + |t|..]
  {
    match IndexOf(s, t)
    case None => s
    case Some(k) => s[..k] + s[k + |t|..]
  }

  // ---------------------------------------------------------------------------
  // Numbers

  /** A JavaScript number as this code produces them: an integer, or `NaN`. */
  datatype Number = Finite(n: int) | NaN

  /** JavaScript truthiness of a number: `NaN` and `0` are falsy. */
  predicate TruthyNumber(x: Number) {
    x.Finite? && x.n != 0
  }

  /** JavaScript truthiness of an optional string: `undefined` and `''` are falsy. */
  predicate Truthy(g: Option<string>) {
    g.Some? && g.value != []
  }

  predicate AllDigits(s: string) {
    forall k :: 0 <= k < |s| ==> IsDigit(s[k])
  }

  function DigitValue(c: char): (r: nat)
    requires IsDigit(c)
    ensures r < 10
  {
    c as int - '0' as int
  }

  /** The value of a string of decimal digits, most significant first. */
  function DecimalValue(ds: string): nat
    requires AllDigits(ds)
  {
    if ds == [] then 0 else DecimalValue(ds[..|ds| - 1]) * 10 + DigitValue(ds[|ds| - 1])
  }

  lemma DecimalValueBound(ds: string)
    requires AllDigits(ds) && 1 <= |ds| <= 2
    ensures DecimalValue(ds) < 100
    ensures |ds| == 1 ==> DecimalValue(ds) < 10
  {
  }

  /**
   * `parseInt(s)` (no radix) on the strings the parser hands it: the value of
   * the leading run of decimal digits, `NaN` when there is none.
   */
  function ParseInt(s: string): (r: Number)
    ensures r.NaN? <==> (s == [] || !IsDigit(s[0]))
    ensures AllDigits(s) && s != [] ==> r == Finite(DecimalValue(s))
    ensures r.Finite? ==> r.n >= 0
  {
    var n := RunEnd(s, 0, Digit);
    assert AllDigits(s) ==> n == |s| && s[..n] == s;
    if n == 0 then NaN else Finite(DecimalValue(s[..n]))
  }
}
