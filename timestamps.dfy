/**
 * The timestamps the sensor compares: naive date-times read with the format
 * "%Y-%m-%dT%H:%M:%S.%fZ" the way Python's datetime.strptime reads them, and
 * compared the way Python compares naive datetimes.
 */
module Timestamps {
  import opened Wrappers

  /** A naive date-time (no time zone, no fold), as Python's datetime holds it. */
  datatype DateTime = DateTime(year: nat, month: nat, day: nat,
                               hour: nat, minute: nat, second: nat, microsecond: nat)

  predicate IsLeapYear(y: nat) {
    y % 4 == 0 && (y % 100 != 0 || y % 400 == 0)
  }

  function DaysInMonth(y: nat, m: nat): (n: nat)
    requires 1 <= m <= 12
    ensures 28 <= n <= 31
    ensures n == 29 <==> m == 2 && IsLeapYear(y)
  {
    if m == 2 then (if IsLeapYear(y) then 29 else 28)
    else if m == 4 || m == 6 || m == 9 || m == 11 then 30
    else 31
  }

  /** The field values that datetime's constructor accepts. */
  predicate Valid(t: DateTime) {
    && 1 <= t.year <= 9999
    && 1 <= t.month <= 12
    && 1 <= t.day <= DaysInMonth(t.year, t.month)
    && t.hour < 24 && t.minute < 60 && t.second < 60
    && t.microsecond < 1000000
  }

  /** datetime(1970, 1, 1): the last run time assumed for a document the cursor does not know. */
  const Epoch := DateTime(1970, 1, 1, 0, 0, 0, 0)

  /** Python's `<` on naive datetimes: field by field, most significant first. */
  predicate Before(a: DateTime, b: DateTime) {
    if a.year != b.year then a.year < b.year
    else if a.month != b.month then a.month < b.month
    else if a.day != b.day then a.day < b.day
    else if a.hour != b.hour then a.hour < b.hour
    else if a.minute != b.minute then a.minute < b.minute
    else if a.second != b.second then a.second < b.second
    else a.microsecond < b.microsecond
  }

  lemma BeforeIsStrictTotalOrder(a: DateTime, b: DateTime, c: DateTime)
    ensures !Before(a, a)
    ensures Before(a, b) && Before(b, c) ==> Before(a, c)
    ensures a == b || Before(a, b) || Before(b, a)
    ensures !(Before(a, b) && Before(b, a))
  {
  }

  // ---------------------------------------------------------------------------
  // Decimal digits

  predicate IsDigit(c: char) {
    '0' <= c <= '9'
  }

  predicate AllDigits(s: string) {
    forall k :: 0 <= k < |s| ==> IsDigit(s[k])
  }

  function Pow10(n: nat): (p: nat)
    ensures p >= 1
  {
    if n == 0 then 1 else 10 * Pow10(n - 1)
  }

  /** The length of the run of ASCII digits at the front of s. */
  function DigitRun(s: string): (n: nat)
    ensures n <= |s|
  {
    if s == [] || !IsDigit(s[0]) then 0 else 1 + DigitRun(s[1..])
  }

  function DigitValue(c: char): nat {
    if IsDigit(c) then c as int - '0' as int else 0
  }

  /** The number a string of decimal digits denotes. */
  function DecimalValue(d: string): nat {
    if d == [] then 0 else 10 * DecimalValue(d[..|d| - 1]) + DigitValue(d[|d| - 1])
  }

  /** n written with exactly w decimal digits, zero-padded on the left. */
  function Pad(n: nat, w: nat): (d: string)
    ensures |d| == w && AllDigits(d)
  {
    if w == 0 then [] else Pad(n / 10, w - 1) + [('0' as int + n % 10) as char]
  }

  // ---------------------------------------------------------------------------
  // The parser

  /**
   * One item of a strptime format: a numeric directive (%Y, %m, %d, %H, %M, %S)
   * that reads minWidth to maxWidth digits denoting a value in lo..hi, the %f
   * directive, or a literal character.
   */
  datatype Directive =
    | Number(minWidth: nat, maxWidth: nat, lo: nat, hi: nat)
    | Fraction
    | Literal(c: char)

  /**
   * "%Y-%m-%dT%H:%M:%S.%fZ". The widths and ranges are those of the patterns strptime
   * gives each directive: %Y is exactly four digits; %m is 1-12, %d 1-31, %H 0-23,
   * %M 0-59 and %S 0-61, each in one or two digits.
   */
  const Pattern: seq<Directive> := [
    Number(4, 4, 0, 9999), Literal('-'), Number(1, 2, 1, 12), Literal('-'), Number(1, 2, 1, 31),
    Literal('T'), Number(1, 2, 0, 23), Literal(':'), Number(1, 2, 0, 59), Literal(':'),
    Number(1, 2, 0, 61), Literal('.'), Fraction, Literal('Z')]

  /** The number of values a format yields. */
  function Arity(pattern: seq<Directive>): nat {
    if pattern == [] then 0
    else (if pattern[0].Literal? then 0 else 1) + Arity(pattern[1..])
  }

  /** ASCII lower-casing. strptime matches a format ignoring case, so "t" stands for "T" and "z" for "Z". */
  function Lower(c: char): char {
    if 'A' <= c <= 'Z' then (c as int + 32) as char else c
  }

  /**
   * The values the directives of `pattern` read from `s`, or None when `s` does not
   * match the whole of `pattern`. A digit directive reads the whole run of digits
   * in front of it. That is what strptime's pattern for it does in a `Delimited`
   * format, such as the sensor's, where every digit directive is followed by a
   * literal that is not a digit (PatternDelimited). %f reads one to six digits as
   * a fraction of a second, so it pads them on the right to microseconds.
   */
  function Match(pattern: seq<Directive>, s: string): (r: Option<seq<nat>>)
    ensures r.Some? ==> |r.value| == Arity(pattern)
  {
    if pattern == [] then
      if s == [] then Some([]) else None
    else
      match pattern[0]
      case Literal(c) =>
        if s != [] && Lower(s[0]) == Lower(c) then Match(pattern[1..], s[1..]) else None
      case Number(minWidth, maxWidth, lo, hi) =>
        var n := DigitRun(s);
        if 0 < n && minWidth <= n <= maxWidth && lo <= DecimalValue(s[..n]) <= hi then
          var rest :- Match(pattern[1..], s[n..]);
          Some([DecimalValue(s[..n])] + rest)
        else None
      case Fraction =>
        var n := DigitRun(s);
        if 1 <= n <= 6 then
          var rest :- Match(pattern[1..], s[n..]);
          Some([DecimalValue(s[..n]) * Pow10(6 - n)] + rest)
        else None
  }

  /**
   * datetime.strptime(s, "%Y-%m-%dT%H:%M:%S.%fZ"). None stands for the ValueError
   * Python raises: `s` does not match the format, text remains after it, or the
   * fields do not form a date-time (day 31 of a 30-day month, second 60 or 61,
   * year 0).
   */
  function Parse(s: string): (r: Option<DateTime>)
    ensures r.Some? ==> Valid(r.value)
  {
    var v :- Match(Pattern, s);
    // Match yields one value per directive, seven here (PatternShape).
    if |v| != 7 then None
    else
      var t := DateTime(v[0], v[1], v[2], v[3], v[4], v[5], v[6]);
      if Valid(t) then Some(t) else None
  }

  /** The text of `values` laid out by `pattern`, every number at its directive's greatest width. */
  function Render(pattern: seq<Directive>, values: seq<nat>): string
    requires |values| == Arity(pattern)
  {
    if pattern == [] then []
    else
      match pattern[0]
      case Literal(c) => [c] + Render(pattern[1..], values)
      case _ => Pad(values[0], Width(pattern[0])) + Render(pattern[1..], values[1..])
  }

  /** The width a digit directive is rendered at: a number's greatest width, six for %f. */
  function Width(dir: Directive): nat {
    match dir
    case Number(_, maxWidth, _, _) => maxWidth
    case Fraction => 6
    case Literal(_) => 1
  }

  /** Every directive that reads digits is followed by a literal that is not a digit. */
  predicate Delimited(pattern: seq<Directive>) {
    forall i :: 0 <= i < |pattern| && !pattern[i].Literal? ==>
      i + 1 < |pattern| && pattern[i + 1].Literal? && !IsDigit(pattern[i + 1].c)
  }

  /** `values` are, one per directive, values the directives of `pattern` read back from their rendering. */
  predicate Fits(pattern: seq<Directive>, values: seq<nat>)
    ensures Fits(pattern, values) ==> |values| == Arity(pattern)
  {
    if pattern == [] then values == []
    else
      match pattern[0]
      case Literal(_) => Fits(pattern[1..], values)
      case Number(minWidth, maxWidth, lo, hi) =>
        && values != [] && 0 < minWidth <= maxWidth && lo <= values[0] <= hi && values[0] < Pow10(maxWidth)
        && Fits(pattern[1..], values[1..])
      case Fraction => values != [] && values[0] < 1000000 && Fits(pattern[1..], values[1..])
  }

  /** The seven fields of a date-time, most significant first. */
  function Fields(t: DateTime): seq<nat> {
    [t.year, t.month, t.day, t.hour, t.minute, t.second, t.microsecond]
  }

  /** The text "YYYY-MM-DDTHH:MM:SS.ffffffZ" of t, every field at full width. */
  function Format(t: DateTime): string {
    PatternShape();
    Render(Pattern, Fields(t))
  }

  lemma {:induction false} DecimalValueOfPad(n: nat, w: nat)
    requires n < Pow10(w)
    ensures DecimalValue(Pad(n, w)) == n
  {
    if w > 0 {
      DecimalValueOfPad(n / 10, w - 1);
      var d := Pad(n, w);
      assert d[..w - 1] == Pad(n / 10, w - 1);
    }
  }

  lemma {:induction false} DigitRunOfDigitsThen(d: string, rest: string)
    requires AllDigits(d)
    requires rest == [] || !IsDigit(rest[0])
    ensures DigitRun(d + rest) == |d|
  {
    if d != [] {
      assert (d + rest)[1..] == d[1..] + rest;
      DigitRunOfDigitsThen(d[1..], rest);
    }
  }

  lemma ArityStep(pattern: seq<Directive>, k: nat)
    requires k < |pattern|
    ensures Arity(pattern[k..]) == (if pattern[k].Literal? then 0 else 1) + Arity(pattern[k + 1..])
  {
    assert pattern[k..][1..] == pattern[k + 1..];
  }

  /** The time-of-day half of the format, from the first colon on, reads three values. */
  lemma ClockShape()
    ensures Arity(Pattern[7..]) == 3
  {
    assert Pattern[14..] == [];
    ArityStep(Pattern, 13); ArityStep(Pattern, 12); ArityStep(Pattern, 11); ArityStep(Pattern, 10);
    ArityStep(Pattern, 9); ArityStep(Pattern, 8); ArityStep(Pattern, 7);
  }

  /** The format reads seven values. */
  lemma PatternShape()
    ensures Arity(Pattern) == 7
  {
    ClockShape();
    ArityStep(Pattern, 6); ArityStep(Pattern, 5); ArityStep(Pattern, 4); ArityStep(Pattern, 3);
    ArityStep(Pattern, 2); ArityStep(Pattern, 1); ArityStep(Pattern, 0);
    assert Pattern[0..] == Pattern;
  }

  /** A digit directive accepts the whole digit run `d`: its width and, for a number, its range. */
  predicate Accepts(dir: Directive, d: string)
    requires !dir.Literal?
  {
    match dir
    case Number(minWidth, maxWidth, lo, hi) => 0 < |d| && minWidth <= |d| <= maxWidth && lo <= DecimalValue(d) <= hi
    case Fraction => 1 <= |d| <= 6
  }

  /** The value a digit directive reads from `d`: the number, or for %f the digits padded on the right to six. */
  function DirectiveValue(dir: Directive, d: string): nat
    requires !dir.Literal? && (dir.Fraction? ==> |d| <= 6)
  {
    if dir.Number? then DecimalValue(d) else DecimalValue(d) * Pow10(6 - |d|)
  }

  /**
   * A digit directive in front of a whole run of digits `d`: the format matches
   * exactly when the directive accepts `d` and the rest of the format matches what
   * follows, and then it reads the directive's value of `d` first.
   */
  lemma MatchDigits(pattern: seq<Directive>, d: string, rest: string)
    requires pattern != [] && !pattern[0].Literal?
    requires AllDigits(d) && (rest == [] || !IsDigit(rest[0]))
    ensures Match(pattern, d + rest) ==
      if Accepts(pattern[0], d) then
        match Match(pattern[1..], rest)
        case None => None
        case Some(values) => Some([DirectiveValue(pattern[0], d)] + values)
      else None
  {
    var s := d + rest;
    DigitRunOfDigitsThen(d, rest);
    assert s[..|d|] == d && s[|d|..] == rest;
  }

  /** A digit directive reads back a value padded to the directive's rendering width in front of a non-digit. */
  lemma MatchPadded(pattern: seq<Directive>, v: nat, rest: string, values: seq<nat>)
    requires pattern != [] && !pattern[0].Literal?
    requires pattern[0].Number? ==> 0 < pattern[0].minWidth <= pattern[0].maxWidth && pattern[0].lo <= v <= pattern[0].hi
    requires v < Pow10(Width(pattern[0]))
    requires rest != [] && !IsDigit(rest[0])
    requires Match(pattern[1..], rest) == Some(values)
    ensures Match(pattern, Pad(v, Width(pattern[0])) + rest) == Some([v] + values)
  {
    var w := Width(pattern[0]);
    MatchDigits(pattern, Pad(v, w), rest);
    DecimalValueOfPad(v, w);
    if pattern[0].Fraction? {
      assert Pow10(6 - 6) == 1;
    }
  }

  /**
   * A literal directive consumes one character equal to it ignoring case ("t" for
   * "T", "z" for "Z"), and rejects any other character.
   */
  lemma MatchLiteral(pattern: seq<Directive>, x: char, rest: string)
    requires pattern != [] && pattern[0].Literal?
    ensures Match(pattern, [x] + rest) ==
      if Lower(x) == Lower(pattern[0].c) then Match(pattern[1..], rest) else None
  {
    assert ([x] + rest)[1..] == rest;
  }

  lemma Suffix(pattern: seq<Directive>, k: nat)
    requires k < |pattern|
    ensures pattern[k..] != [] && pattern[k..][0] == pattern[k] && pattern[k..][1..] == pattern[k + 1..]
  {
  }

  /** A delimited format reads back every fitting list of values from its rendering. */
  lemma {:induction false} MatchRender(pattern: seq<Directive>, values: seq<nat>)
    requires Delimited(pattern) && Fits(pattern, values)
    ensures Match(pattern, Render(pattern, values)) == Some(values)
  {
    if pattern != [] {
      var tail := pattern[1..];
      assert Delimited(tail) by {
        forall i | 0 <= i < |tail| && !tail[i].Literal?
          ensures i + 1 < |tail| && tail[i + 1].Literal? && !IsDigit(tail[i + 1].c)
        {
          assert tail[i] == pattern[i + 1];
        }
      }
      if pattern[0].Literal? {
        MatchRender(tail, values);
        MatchLiteral(pattern, pattern[0].c, Render(tail, values));
      } else {
        var rest := Render(tail, values[1..]);
        MatchRender(tail, values[1..]);
        assert rest != [] && rest[0] == tail[0].c;
        if pattern[0].Fraction? {
          assert Pow10(6) == 1000000 by {
            assert Pow10(3) == 1000;
          }
        }
        MatchPadded(pattern, values[0], rest, values[1..]);
        assert [values[0]] + values[1..] == values;
      }
    }
  }

  /** The seconds and microseconds of a valid date-time fit the end of the format. */
  lemma SecondsFit(t: DateTime)
    requires Valid(t)
    ensures Fits(Pattern[10..], Fields(t)[5..])
  {
    assert Pow10(2) == 100;
    var v := Fields(t);
    assert Pattern[14..] == [] && v[7..] == [];
    Suffix(Pattern, 13);
    assert Fits(Pattern[13..], v[7..]);
    Suffix(Pattern, 12);
    assert v[6..][1..] == v[7..];
    assert Fits(Pattern[12..], v[6..]);
    Suffix(Pattern, 11);
    assert Fits(Pattern[11..], v[6..]);
    Suffix(Pattern, 10);
    assert v[5..][1..] == v[6..];
  }

  /** The time of day of a valid date-time fits the format from its hour on. */
  lemma ClockFits(t: DateTime)
    requires Valid(t)
    ensures Fits(Pattern[6..], Fields(t)[3..])
  {
    assert Pow10(2) == 100;
    var v := Fields(t);
    SecondsFit(t);
    Suffix(Pattern, 9);
    assert Fits(Pattern[9..], v[5..]);
    Suffix(Pattern, 8);
    assert v[4..][1..] == v[5..];
    assert Fits(Pattern[8..], v[4..]);
    Suffix(Pattern, 7);
    assert Fits(Pattern[7..], v[4..]);
    Suffix(Pattern, 6);
    assert v[3..][1..] == v[4..];
  }

  /** The month, day and time of day of a valid date-time fit the format from its month on. */
  lemma MonthOnFits(t: DateTime)
    requires Valid(t)
    ensures Fits(Pattern[2..], Fields(t)[1..])
  {
    assert Pow10(2) == 100;
    var v := Fields(t);
    ClockFits(t);
    Suffix(Pattern, 5);
    assert Fits(Pattern[5..], v[3..]);
    Suffix(Pattern, 4);
    assert v[2..][1..] == v[3..];
    assert Fits(Pattern[4..], v[2..]);
    Suffix(Pattern, 3);
    assert Fits(Pattern[3..], v[2..]);
    Suffix(Pattern, 2);
    assert v[1..][1..] == v[2..];
  }

  /** The seven fields of a valid date-time fit the format. */
  lemma FieldsFit(t: DateTime)
    requires Valid(t)
    ensures Fits(Pattern, Fields(t))
  {
    assert Pow10(4) == 10000;
    var v := Fields(t);
    MonthOnFits(t);
    Suffix(Pattern, 1);
    assert Fits(Pattern[1..], v[1..]);
    Suffix(Pattern, 0);
    assert v[0..][1..] == v[1..];
    assert Fits(Pattern[0..], v[0..]);
    assert Pattern[0..] == Pattern && v[0..] == v;
  }

  lemma PatternDelimited()
    ensures Delimited(Pattern)
  {
  }

  /** Every valid date-time is read back from its canonical text. */
  lemma ParseFormat(t: DateTime)
    requires Valid(t)
    ensures Parse(Format(t)) == Some(t)
  {
    FieldsFit(t);
    PatternDelimited();
    MatchRender(Pattern, Fields(t));
    PatternShape();
  }
}
