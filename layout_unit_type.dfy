/**
 * LayoutUnitType and LayoutUnitTypeHelper: the unit of a layout length and
 * the parser of its textual suffix ("px", "%", "fr"), which ignores
 * surrounding white space and letter case.
 */
module LayoutUnitTypes {
  import opened HostTypes

  datatype LayoutUnitType = Pixels | Percent | Fraction

  /** char.IsWhiteSpace: the Unicode separators plus the control characters U+0009-U+000D and U+0085. */
  predicate IsWhiteSpace(c: char)
  {
    c == ' ' || '\t' <= c <= '\r' || c == '\U{0085}' || c == '\U{00A0}' || c == '\U{1680}'
    || '\U{2000}' <= c <= '\U{200A}' || c == '\U{2028}' || c == '\U{2029}' || c == '\U{202F}'
    || c == '\U{205F}' || c == '\U{3000}'
  }

  predicate AllWhiteSpace(s: string)
  {
    forall i :: 0 <= i < |s| ==> IsWhiteSpace(s[i])
  }

  /** string.TrimStart(): drops the leading white space. */
  function TrimStart(s: string): (r: string)
    ensures |r| <= |s| && r == s[|s| - |r|..]
    ensures forall i :: 0 <= i < |s| - |r| ==> IsWhiteSpace(s[i])
    ensures r == [] || !IsWhiteSpace(r[0])
  {
    if s != [] && IsWhiteSpace(s[0]) then TrimStart(s[1..]) else s
  }

  /** string.TrimEnd(): drops the trailing white space. */
  function TrimEnd(s: string): (r: string)
    ensures |r| <= |s| && r == s[..|r|]
    ensures forall i :: |r| <= i < |s| ==> IsWhiteSpace(s[i])
    ensures r == [] || !IsWhiteSpace(r[|r| - 1])
  {
    if s != [] && IsWhiteSpace(s[|s| - 1]) then TrimEnd(s[..|s| - 1]) else s
  }

  /** string.Trim(): white space removed from both ends. */
  function Trim(s: string): string
  {
    TrimStart(TrimEnd(s))
  }

  /** char.ToLower on the Latin capitals; every other character is its own lower case here. */
  function LowerChar(c: char): (r: char)
    ensures 'A' <= c <= 'Z' ==> r as int == c as int + 32
    ensures !('A' <= c <= 'Z') ==> r == c
  {
    if 'A' <= c <= 'Z' then (c as int + 32) as char else c
  }

  /** string.ToLower(), character by character. */
  function ToLower(s: string): (r: string)
    ensures |r| == |s| && forall i :: 0 <= i < |s| ==> r[i] == LowerChar(s[i])
  {
    if s == [] then [] else [LowerChar(s[0])] + ToLower(s[1..])
  }

  /** The suffix that names each unit. */
  function UnitText(t: LayoutUnitType): string
  {
    match t
    case Pixels => "px"
    case Percent => "%"
    case Fraction => "fr"
  }

  /** LayoutUnitTypeHelper.SafeParse: the unit named by the trimmed, lower-cased text, else def. */
  function SafeParse(unit: string, def: Option<LayoutUnitType> := Some(Pixels)): (r: Option<LayoutUnitType>)
    ensures def.Some? ==> r.Some?
    ensures r != def ==> ToLower(Trim(unit)) in {"px", "%", "fr"}
  {
    match ToLower(Trim(unit))
    case "px" => Some(Pixels)
    case "%" => Some(Percent)
    case "fr" => Some(Fraction)
    case _ => def
  }

  /**
   * LayoutUnitTypeHelper.TryParse: the success flag and the out parameter.
   * SafeParse is called with its non-null default, so TryParse always
   * succeeds and an unknown unit comes back as Pixels.
   */
  function TryParse(unit: string): (r: (bool, LayoutUnitType))
    ensures r.0 && Some(r.1) == SafeParse(unit)
    ensures ToLower(Trim(unit)) !in {"px", "%", "fr"} ==> r.1 == Pixels
  {
    match SafeParse(unit)
    case Some(t) => (true, t)
    case None => (false, Pixels)
  }

  /** Trimming a string padded with white space gives back the string, when it is not padded itself. */
  lemma {:induction false} TrimPadded(w1: string, s: string, w2: string)
    requires AllWhiteSpace(w1) && AllWhiteSpace(w2)
    requires s != [] && !IsWhiteSpace(s[0]) && !IsWhiteSpace(s[|s| - 1])
    ensures Trim(w1 + s + w2) == s
  {
    TrimEndPadded(w1 + s, w2);
    TrimStartPadded(w1, s);
  }

  lemma {:induction false} TrimEndPadded(s: string, w: string)
    requires AllWhiteSpace(w) && s != [] && !IsWhiteSpace(s[|s| - 1])
    ensures TrimEnd(s + w) == s
  {
    if w != [] {
      var w' := w[..|w| - 1];
      assert (s + w)[..|s + w| - 1] == s + w';
      TrimEndPadded(s, w');
    }
  }

  lemma {:induction false} TrimStartPadded(w: string, s: string)
    requires AllWhiteSpace(w) && s != [] && !IsWhiteSpace(s[0])
    ensures TrimStart(w + s) == s
  {
    if w != [] {
      assert (w + s)[1..] == w[1..] + s;
      TrimStartPadded(w[1..], s);
    }
  }

  /** Each unit's suffix, in any letter case and padded with white space, parses to that unit whatever the default. */
  lemma SafeParseUnitText(t: LayoutUnitType, w1: string, text: string, w2: string, def: Option<LayoutUnitType>)
    requires AllWhiteSpace(w1) && AllWhiteSpace(w2)
    requires ToLower(text) == UnitText(t)
    ensures SafeParse(w1 + text + w2, def) == Some(t)
  {
    assert LowerChar(text[0]) == UnitText(t)[0] && LowerChar(text[|text| - 1]) == UnitText(t)[|text| - 1];
    TrimPadded(w1, text, w2);
    SafeParseNamed(w1 + text + w2, t, def);
  }

  lemma SafeParseNamed(unit: string, t: LayoutUnitType, def: Option<LayoutUnitType>)
    requires ToLower(Trim(unit)) == UnitText(t)
    ensures SafeParse(unit, def) == Some(t)
  {
  }
}
