/**
 * LayoutUnit: a length with its unit, and its parser. The text must be a
 * decimal number (digits, optionally a point and one more digit) followed
 * by "px", "%" or "fr", matched by the regular expression
 * ^(\d+(?:\.\d)?)(px|%|fr)$.
 */
module LayoutUnits {
  import opened HostTypes
  import opened LayoutUnitTypes

  datatype LayoutUnit = LayoutUnit(unitType: LayoutUnitType, value: real)

  /** LayoutUnit.Zero. */
  const Zero: LayoutUnit := LayoutUnit(Pixels, 0.0)

  /**
   * The regular expression's \d: the blocks of ten decimal digits (Unicode
   * category Nd) in the Basic Multilingual Plane, the UTF-16 units .NET matches.
   */
  predicate IsDigit(c: char)
  {
    '0' <= c <= '9' || '\U{0660}' <= c <= '\U{0669}' || '\U{06F0}' <= c <= '\U{06F9}'
    || '\U{07C0}' <= c <= '\U{07C9}' || '\U{0966}' <= c <= '\U{096F}' || '\U{09E6}' <= c <= '\U{09EF}'
    || '\U{0A66}' <= c <= '\U{0A6F}' || '\U{0AE6}' <= c <= '\U{0AEF}' || '\U{0B66}' <= c <= '\U{0B6F}'
    || '\U{0BE6}' <= c <= '\U{0BEF}' || '\U{0C66}' <= c <= '\U{0C6F}' || '\U{0CE6}' <= c <= '\U{0CEF}'
    || '\U{0D66}' <= c <= '\U{0D6F}' || '\U{0DE6}' <= c <= '\U{0DEF}' || '\U{0E50}' <= c <= '\U{0E59}'
    || '\U{0ED0}' <= c <= '\U{0ED9}' || '\U{0F20}' <= c <= '\U{0F29}' || '\U{1040}' <= c <= '\U{1049}'
    || '\U{1090}' <= c <= '\U{1099}' || '\U{17E0}' <= c <= '\U{17E9}' || '\U{1810}' <= c <= '\U{1819}'
    || '\U{1946}' <= c <= '\U{194F}' || '\U{19D0}' <= c <= '\U{19D9}' || '\U{1A80}' <= c <= '\U{1A89}'
    || '\U{1A90}' <= c <= '\U{1A99}' || '\U{1B50}' <= c <= '\U{1B59}' || '\U{1BB0}' <= c <= '\U{1BB9}'
    || '\U{1C40}' <= c <= '\U{1C49}' || '\U{1C50}' <= c <= '\U{1C59}' || '\U{A620}' <= c <= '\U{A629}'
    || '\U{A8D0}' <= c <= '\U{A8D9}' || '\U{A900}' <= c <= '\U{A909}' || '\U{A9D0}' <= c <= '\U{A9D9}'
    || '\U{A9F0}' <= c <= '\U{A9F9}' || '\U{AA50}' <= c <= '\U{AA59}' || '\U{ABF0}' <= c <= '\U{ABF9}'
    || '\U{FF10}' <= c <= '\U{FF19}'
  }

  predicate IsAsciiDigit(c: char)
  {
    '0' <= c <= '9'
  }

  predicate AllDigits(s: string)
  {
    forall i :: 0 <= i < |s| ==> IsDigit(s[i])
  }

  /** What the first group \d+(?:\.\d)? matches: digits, optionally followed by a point and one digit. */
  predicate NumberText(s: string)
  {
    (|s| > 0 && AllDigits(s))
    || (|s| > 2 && AllDigits(s[..|s| - 2]) && s[|s| - 2] == '.' && IsDigit(s[|s| - 1]))
  }

  /** The second group: one of the three unit suffixes, in lower case. */
  predicate UnitSuffix(s: string)
  {
    s == "px" || s == "%" || s == "fr"
  }

  /** The text the regular expression is matched against: `$` also matches just before a final line feed. */
  function Body(s: string): string
  {
    if s != [] && s[|s| - 1] == '\n' then s[..|s| - 1] else s
  }

  /** The two groups of a match of the regular expression, or None when it does not match. */
  function UnitMatch(s: string): (r: Option<(string, string)>)
    ensures r.Some? ==> NumberText(r.value.0) && UnitSuffix(r.value.1) && Body(s) == r.value.0 + r.value.1
  {
    var b := Body(s);
    var n := |b|;
    if n >= 2 && (b[n - 2..] == "px" || b[n - 2..] == "fr") && NumberText(b[..n - 2]) then
      Some((b[..n - 2], b[n - 2..]))
    else if n >= 1 && b[n - 1] == '%' && NumberText(b[..n - 1]) then
      Some((b[..n - 1], b[n - 1..]))
    else
      None
  }

  /** The value of a string of ASCII digits. */
  function DigitsValue(s: string): (r: nat)
    requires forall i :: 0 <= i < |s| ==> IsAsciiDigit(s[i])
  {
    if s == [] then 0
    else
      assert IsAsciiDigit(s[|s| - 1]);
      DigitsValue(s[..|s| - 1]) * 10 + (s[|s| - 1] as int - '0' as int)
  }

  /**
   * float.TryParse on the text of the first group, with '.' as the decimal
   * separator: it accepts only ASCII digits and otherwise gives (false, 0).
   */
  function FloatTryParse(s: string): (r: (bool, real))
    requires NumberText(s)
    ensures r.0 <==> AsciiNumber(s)
    ensures !r.0 ==> r.1 == 0.0
  {
    if !AsciiNumber(s) then
      (false, 0.0)
    else if AllAsciiDigits(s) then
      (true, DigitsValue(s) as real)
    else
      (true, DigitsValue(s[..|s| - 2]) as real + (s[|s| - 1] as int - '0' as int) as real / 10.0)
  }

  predicate AsciiNumber(s: string)
  {
    forall i :: 0 <= i < |s| ==> IsAsciiDigit(s[i]) || s[i] == '.'
  }

  predicate AllAsciiDigits(s: string)
  {
    forall i :: 0 <= i < |s| ==> IsAsciiDigit(s[i])
  }

  /**
   * LayoutUnit.Parse as written: the float test is not negated, so a number
   * that parses makes the result null, and a match survives only when its
   * number does not parse, with the value float.TryParse left behind.
   */
  function Parse(unit: string): (r: Option<LayoutUnit>)
    ensures r.Some? <==> UnitMatch(unit).Some? && !AsciiNumber(UnitMatch(unit).value.0)
    ensures r.Some? ==>
      r.value == LayoutUnit(UnitOf(UnitMatch(unit).value.1), 0.0)
  {
    match UnitMatch(unit)
    case None => None
    case Some((number, suffix)) =>
      SuffixUnit(suffix);
      var (typed, unitType) := LayoutUnitTypes.TryParse(suffix);
      var (parsed, value) := FloatTryParse(number);
      if !typed || parsed then None else Some(LayoutUnit(unitType, value))
  }

  /** LayoutUnit.Parse as evidently intended: null only when the number does not parse. */
  function ParseIntended(unit: string): (r: Option<LayoutUnit>)
    ensures r.Some? <==> UnitMatch(unit).Some? && AsciiNumber(UnitMatch(unit).value.0)
    ensures r.Some? ==>
      r.value == LayoutUnit(UnitOf(UnitMatch(unit).value.1), FloatTryParse(UnitMatch(unit).value.0).1)
  {
    match UnitMatch(unit)
    case None => None
    case Some((number, suffix)) =>
      SuffixUnit(suffix);
      var (typed, unitType) := LayoutUnitTypes.TryParse(suffix);
      var (parsed, value) := FloatTryParse(number);
      if !typed || !parsed then None else Some(LayoutUnit(unitType, value))
  }

  /** LayoutUnit.TryParse as written, over Parse: the success flag and the out parameter, Zero on failure. */
  function TryParse(unit: string): (r: (bool, LayoutUnit))
    ensures r.0 <==> Parse(unit).Some?
    ensures r.1 == if r.0 then Parse(unit).value else Zero
  {
    match Parse(unit)
    case Some(parsed) => (true, parsed)
    case None => (false, Zero)
  }

  /** The implicit conversion from a string as written, over Parse: the parsed unit, or Zero. */
  function FromString(unit: string): (r: LayoutUnit)
    ensures Parse(unit).None? ==> r == Zero
    ensures Parse(unit).Some? ==> r == Parse(unit).value
  {
    var layoutUnit := Parse(unit);
    if layoutUnit.Some? then layoutUnit.value else Zero
  }

  /** LayoutUnit.TryParse over the corrected ParseIntended. */
  function TryParseIntended(unit: string): (r: (bool, LayoutUnit))
    ensures r.0 <==> ParseIntended(unit).Some?
    ensures r.1 == if r.0 then ParseIntended(unit).value else Zero
  {
    match ParseIntended(unit)
    case Some(parsed) => (true, parsed)
    case None => (false, Zero)
  }

  /** The implicit conversion over the corrected ParseIntended. */
  function FromStringIntended(unit: string): (r: LayoutUnit)
    ensures ParseIntended(unit).None? ==> r == Zero
    ensures ParseIntended(unit).Some? ==> r == ParseIntended(unit).value
  {
    var layoutUnit := ParseIntended(unit);
    if layoutUnit.Some? then layoutUnit.value else Zero
  }

  /** A number followed by a unit suffix, with or without a final line feed, matches with exactly those groups. */
  lemma UnitMatchComplete(number: string, suffix: string)
    requires NumberText(number) && UnitSuffix(suffix)
    ensures UnitMatch(number + suffix) == Some((number, suffix))
    ensures UnitMatch(number + suffix + "\n") == Some((number, suffix))
  {
    var b := number + suffix;
    assert (b + "\n")[..|b|] == b;
    assert b[..|number|] == number && b[|number|..] == suffix;
    if suffix == "%" {
      assert b[|b| - 1] == '%';
    }
  }

  /** The suffix of a match names its unit. */
  lemma SuffixUnit(suffix: string)
    requires UnitSuffix(suffix)
    ensures LayoutUnitTypes.TryParse(suffix) == (true, UnitOf(suffix))
  {
    PlainSuffix(suffix);
    if suffix == "px" {
      SafeParseNamed(suffix, Pixels, Some(Pixels));
    } else if suffix == "%" {
      SafeParseNamed(suffix, Percent, Some(Pixels));
    } else {
      SafeParseNamed(suffix, Fraction, Some(Pixels));
    }
  }

  lemma PlainSuffix(suffix: string)
    requires UnitSuffix(suffix)
    ensures ToLower(Trim(suffix)) == suffix
  {
    if suffix == "px" {
      PlainText(suffix);
    } else if suffix == "%" {
      PlainText(suffix);
    } else {
      PlainText(suffix);
    }
  }

  lemma PlainText(s: string)
    requires s != [] && !IsWhiteSpace(s[0]) && !IsWhiteSpace(s[|s| - 1])
    requires forall i :: 0 <= i < |s| ==> !('A' <= s[i] <= 'Z')
    ensures ToLower(Trim(s)) == s
  {
    assert TrimEnd(s) == s;
    assert TrimStart(s) == s;
    assert ToLower(s) == s;
  }

  /** The unit a lower-case suffix names. */
  function UnitOf(suffix: string): (t: LayoutUnitType)
    requires UnitSuffix(suffix)
    ensures UnitText(t) == suffix
  {
    if suffix == "px" then Pixels else if suffix == "%" then Percent else Fraction
  }

  /** A number made of ASCII digits always parses as a float: the case the inverted test throws away. */
  lemma AsciiNumberParses(number: string)
    requires NumberText(number) && AsciiNumber(number)
    ensures FloatTryParse(number).0
  {
  }

  /** As written, Parse rejects every number of ASCII digits with every unit. */
  lemma {:induction false} ParseRejectsAsciiNumbers(number: string, suffix: string)
    requires NumberText(number) && UnitSuffix(suffix)
    requires AsciiNumber(number)
    ensures Parse(number + suffix) == None
    ensures ParseIntended(number + suffix).Some?
  {
    UnitMatchComplete(number, suffix);
    SuffixUnit(suffix);
  }

  /** As written, whatever Parse returns has value 0 and came from a number with a digit outside ASCII. */
  lemma ParseAsWrittenResult(unit: string)
    requires Parse(unit).Some?
    ensures Parse(unit).value.value == 0.0
    ensures UnitMatch(unit).Some? && exists i :: 0 <= i < |UnitMatch(unit).value.0| && !IsAsciiDigit(UnitMatch(unit).value.0[i]) && UnitMatch(unit).value.0[i] != '.'
  {
  }

  /** "10px": as written it gives null. */
  lemma TenPixelsAsWritten(text: string)
    requires text == "10px"
    ensures Parse(text) == None
  {
    TenPixelsText();
    NumberOfParses(10, None);
    ParseRejectsAsciiNumbers(NumberOf(10, None), UnitText(Pixels));
  }

  /** "10px": as intended it gives ten pixels. */
  lemma TenPixelsIntended(text: string)
    requires text == "10px"
    ensures ParseIntended(text) == Some(LayoutUnit(Pixels, 10.0))
  {
    TenPixelsText();
    ParseIntendedRender(10, None, Pixels);
  }

  lemma TenPixelsText()
    ensures Render(10, None, Pixels) == "10px"
  {
    assert NatText(1) == "1";
    assert NatText(10) == "10";
  }

  /** "١px" (ARABIC-INDIC DIGIT ONE): as written it gives zero pixels; as intended, null. */
  lemma ArabicIndicOne()
    ensures Parse("\U{0661}px") == Some(LayoutUnit(Pixels, 0.0))
    ensures ParseIntended("\U{0661}px") == None
  {
    assert NumberText("\U{0661}");
    UnitMatchComplete("\U{0661}", "px");
    assert "\U{0661}" + "px" == "\U{0661}px";
    SuffixUnit("px");
    assert !IsAsciiDigit("\U{0661}"[0]);
  }

  /** The ASCII decimal text of a natural number. */
  function NatText(n: nat): (s: string)
    ensures |s| > 0 && forall i :: 0 <= i < |s| ==> IsAsciiDigit(s[i])
  {
    var d := ('0' as int + n % 10) as char;
    if n < 10 then [d] else NatText(n / 10) + [d]
  }

  lemma {:induction false} NatTextValue(n: nat)
    ensures DigitsValue(NatText(n)) == n
  {
    var s := NatText(n);
    if n >= 10 {
      assert s[..|s| - 1] == NatText(n / 10);
      NatTextValue(n / 10);
    }
  }

  /** The number of a length with at most one decimal place: whole units, optionally a point and a tenth digit. */
  function NumberOf(whole: nat, tenth: Option<nat>): string
    requires tenth.Some? ==> tenth.value < 10
  {
    NatText(whole) + (if tenth.Some? then ['.', ('0' as int + tenth.value) as char] else [])
  }

  /** The value that text stands for. */
  function ValueOf(whole: nat, tenth: Option<nat>): real
  {
    whole as real + (if tenth.Some? then tenth.value as real / 10.0 else 0.0)
  }

  /** The text of a length: its number, then its unit's suffix. */
  function Render(whole: nat, tenth: Option<nat>, t: LayoutUnitType): string
    requires tenth.Some? ==> tenth.value < 10
  {
    NumberOf(whole, tenth) + UnitText(t)
  }

  /** float.TryParse reads that number back. */
  lemma NumberOfParses(whole: nat, tenth: Option<nat>)
    requires tenth.Some? ==> tenth.value < 10
    ensures NumberText(NumberOf(whole, tenth))
    ensures FloatTryParse(NumberOf(whole, tenth)) == (true, ValueOf(whole, tenth))
  {
    var w := NatText(whole);
    var number := NumberOf(whole, tenth);
    NatTextValue(whole);
    if tenth.Some? {
      assert number[..|number| - 2] == w;
      assert !AllAsciiDigits(number) by { assert number[|number| - 2] == '.'; }
    } else {
      assert number == w;
    }
  }

  /** The intended parser reads a rendered length back exactly. */
  lemma ParseIntendedRender(whole: nat, tenth: Option<nat>, t: LayoutUnitType)
    requires tenth.Some? ==> tenth.value < 10
    ensures ParseIntended(Render(whole, tenth, t)) == Some(LayoutUnit(t, ValueOf(whole, tenth)))
  {
    NumberOfParses(whole, tenth);
    UnitMatchComplete(NumberOf(whole, tenth), UnitText(t));
    SuffixUnit(UnitText(t));
  }

  /**
   * As written, every rendered length converts to Zero and TryParse fails
   * on it; with the corrected parse both give the length back.
   */
  lemma RenderedLengthConversions(whole: nat, tenth: Option<nat>, t: LayoutUnitType)
    requires tenth.Some? ==> tenth.value < 10
    ensures FromString(Render(whole, tenth, t)) == Zero
    ensures TryParse(Render(whole, tenth, t)) == (false, Zero)
    ensures FromStringIntended(Render(whole, tenth, t)) == LayoutUnit(t, ValueOf(whole, tenth))
    ensures TryParseIntended(Render(whole, tenth, t)) == (true, LayoutUnit(t, ValueOf(whole, tenth)))
  {
    NumberOfParses(whole, tenth);
    NumberOfAscii(whole, tenth);
    ParseRejectsAsciiNumbers(NumberOf(whole, tenth), UnitText(t));
    ParseIntendedRender(whole, tenth, t);
  }

  lemma NumberOfAscii(whole: nat, tenth: Option<nat>)
    requires tenth.Some? ==> tenth.value < 10
    ensures AsciiNumber(NumberOf(whole, tenth))
  {
    var w := NatText(whole);
    var number := NumberOf(whole, tenth);
    assert number[..|w|] == w;
    assert forall i :: 0 <= i < |w| ==> number[i] == w[i];
  }
}
