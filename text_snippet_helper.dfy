/**
 * TextSnippetHelper: the chat-tag parser that splits a message into text
 * snippets, the conversion of plain TextSnippets into PlainSnippets, and the
 * word wrapper that lays snippets out into lines of a maximum width,
 * inserting line-break snippets and optionally cutting the text after a
 * number of lines.
 *
 * The engine's regular expression for `[tag/options:text]`, its registry of
 * tag handlers and the font's glyph metrics are inputs of the model.
 */
module TextSnippetHelpers {
  import opened HostTypes
  import SilkyUserInterfaces

  /** The runtime class of a snippet, as far as these helpers test it. */
  datatype SnippetKind =
    | Text             // exactly TextSnippet
    | Plain            // PlainTagHandler.PlainSnippet, or any subclass of it a tag handler returns
    | Other(name: string)  // any other TextSnippet subclass a tag handler returns

  /** A TextSnippet: its displayed text, the markup it came from, its colour and scale. */
  datatype Snippet = Snippet(kind: SnippetKind, text: string, textOriginal: string, color: Color, scale: real)

  /** The default snippet colour, Color.White. */
  const White: Color := Color(255, 255, 255, 255)

  /** `new TextSnippet(text, color)`. */
  function TextSnippet(text: string, color: Color): Snippet
  {
    Snippet(Text, text, text, color, 1.0)
  }

  /** `new PlainSnippet(text, color)`: scale 1. */
  function PlainPiece(text: string, color: Color): Snippet
  {
    Snippet(Plain, text, text, color, 1.0)
  }

  /** CreateLineBreakSnippet: a white PlainSnippet holding "\n". */
  const LineBreak: Snippet := Snippet(Plain, "\n", "\n", White, 1.0)

  /** The list object that ConvertNormalSnippets and WordwrapString fill. */
  class SnippetList {
    var items: seq<Snippet>

    constructor()
      ensures items == []
    {
      items := [];
    }
  }

  // ---------------------------------------------------------------------
  // Character classes
  // ---------------------------------------------------------------------

  /** CJK Unified Ideographs (U+4E00..U+9FFF) or CJK Symbols and Punctuation (U+3000..U+303F). */
  predicate IsCjk(a: char)
    ensures IsCjk(a) ==> 0x3000 <= a as int <= 0x9FFF
    ensures (a as int) < 0x80 ==> !IsCjk(a)
  {
    (0x4E00 <= a as int <= 0x9FFF) || (0x3000 <= a as int <= 0x303F)
  }

  /**
   * A line may break between two characters when either is CJK: a CJK
   * character allows a break on either side, two ASCII characters never do.
   */
  predicate CanBreakBetween(previous: char, next: char)
    ensures IsCjk(previous) || IsCjk(next) ==> CanBreakBetween(previous, next)
    ensures (previous as int) < 0x80 && (next as int) < 0x80 ==> !CanBreakBetween(previous, next)
  {
    IsCjk(previous) || IsCjk(next)
  }

  /** .NET's char.IsWhiteSpace: the Unicode White_Space characters. */
  predicate IsWhiteSpace(c: char)
  {
    var n := c as int;
    (0x09 <= n <= 0x0D) || n == 0x20 || n == 0x85 || n == 0xA0 || n == 0x1680 ||
    (0x2000 <= n <= 0x200A) || n == 0x2028 || n == 0x2029 || n == 0x202F || n == 0x205F || n == 0x3000
  }

  // ---------------------------------------------------------------------
  // ConvertNormalSnippets
  // ---------------------------------------------------------------------

  /** A snippet of exactly type TextSnippet becomes a PlainSnippet with its text, colour and scale; any other is kept. */
  function Convert(s: Snippet): (r: Snippet)
    ensures r.kind != Text
    ensures r.text == s.text && r.color == s.color && r.scale == s.scale
    ensures s.kind != Text ==> r == s
  {
    if s.kind == Text then Snippet(Plain, s.text, s.text, s.color, s.scale) else s
  }

  /** Converting twice is converting once. */
  lemma ConvertIdempotent(s: Snippet)
    ensures Convert(Convert(s)) == Convert(s)
  {
  }

  /** ConvertNormalSnippets into a new list: one converted snippet per original, in order. */
  method ConvertNormalSnippets(original: seq<Snippet>) returns (final: seq<Snippet>)
    ensures |final| == |original|
    ensures forall i :: 0 <= i < |original| ==> final[i] == Convert(original[i])
  {
    final := [];
    for i := 0 to |original|
      invariant |final| == i
      invariant forall j :: 0 <= j < i ==> final[j] == Convert(original[j])
    {
      var snippet := original[i];
      if snippet.kind == Text {
        final := final + [Snippet(Plain, snippet.text, snippet.text, snippet.color, snippet.scale)];
        continue;
      }
      final := final + [snippet];
    }
  }

  /** The overload that clears and refills a given list, which it also returns. */
  method ConvertNormalSnippetsInto(original: seq<Snippet>, final: SnippetList) returns (r: SnippetList)
    modifies final
    ensures r == final
    ensures |final.items| == |original|
    ensures forall i :: 0 <= i < |original| ==> final.items[i] == Convert(original[i])
  {
    final.items := [];
    for i := 0 to |original|
      invariant |final.items| == i
      invariant forall j :: 0 <= j < i ==> final.items[j] == Convert(original[j])
    {
      var snippet := original[i];
      if snippet.kind == Text {
        final.items := final.items + [Snippet(Plain, snippet.text, snippet.text, snippet.color, snippet.scale)];
        continue;
      }
      final.items := final.items + [snippet];
    }
    r := final;
  }

  // ---------------------------------------------------------------------
  // ParseMessage
  // ---------------------------------------------------------------------

  /** The message with every carriage return removed. */
  function RemoveReturns(s: string): (r: string)
    ensures '\r' !in r
    ensures |r| <= |s|
    ensures '\r' !in s ==> r == s
    ensures forall c :: c != '\r' ==> (c in r <==> c in s)
  {
    if s == [] then []
    else if s[|s| - 1] == '\r' then RemoveReturns(s[..|s| - 1])
    else RemoveReturns(s[..|s| - 1]) + [s[|s| - 1]]
  }

  /** Removing carriage returns twice is removing them once. */
  lemma RemoveReturnsIdempotent(s: string)
    ensures RemoveReturns(RemoveReturns(s)) == RemoveReturns(s)
  {
  }

  /** One match of the chat format `[tag/options:text]`: where it is and its named groups. */
  datatype Match = Match(index: int, length: int, tag: string, text: string, options: string)

  function End(m: Match): int { m.index + m.length }

  /** What Regex.Matches returns: matches inside the input, in order and not overlapping. */
  predicate WellPlaced(ms: seq<Match>, n: int)
    decreases |ms|
  {
    ms == [] ||
    (var m := ms[|ms| - 1];
     var init := ms[..|ms| - 1];
     WellPlaced(init, n) && 0 <= m.index && 0 <= m.length && End(m) <= n &&
     (init != [] ==> End(init[|init| - 1]) <= m.index))
  }

  /** Every prefix of well-placed matches is well placed. */
  lemma {:induction false} WellPlacedPrefix(ms: seq<Match>, n: int, i: nat)
    requires WellPlaced(ms, n) && i <= |ms|
    ensures WellPlaced(ms[..i], n)
    decreases |ms|
  {
    if i < |ms| {
      assert ms[..|ms| - 1][..i] == ms[..i];
      WellPlacedPrefix(ms[..|ms| - 1], n, i);
    } else {
      assert ms[..i] == ms;
    }
  }

  /** The engine's tag handlers: whether a tag has one, and what its Parse(text, baseColor, options) returns. */
  datatype ChatTags = ChatTags(hasHandler: string -> bool, parse: (string, string, Color, string) -> Snippet)

  /** The text between two positions as a base-colour snippet, or nothing when the range is empty. */
  function Gap(s: string, from: int, to: int, baseColor: Color): seq<Snippet>
    requires 0 <= from && to <= |s|
  {
    if to > from then [TextSnippet(s[from..to], baseColor)] else []
  }

  /** The snippet for one match: its handler's snippet recording the match's markup, or its text in the base colour. */
  function MatchSnippet(s: string, m: Match, baseColor: Color, tags: ChatTags): Snippet
    requires 0 <= m.index && 0 <= m.length && End(m) <= |s|
  {
    if !tags.hasHandler(m.tag) then TextSnippet(m.text, baseColor)
    else tags.parse(m.tag, m.text, baseColor, m.options).(textOriginal := s[m.index..End(m)])
  }

  /** The snippets for a run of matches, and the position just after the last of them. */
  function Scan(s: string, ms: seq<Match>, baseColor: Color, tags: ChatTags): (r: (seq<Snippet>, int))
    requires WellPlaced(ms, |s|)
    ensures 0 <= r.1 <= |s|
    ensures ms != [] ==> r.1 == End(ms[|ms| - 1])
    ensures ms == [] ==> r.1 == 0
  {
    if ms == [] then ([], 0)
    else ScanStep(Scan(s, ms[..|ms| - 1], baseColor, tags), s, ms[|ms| - 1], baseColor, tags)
  }

  /** One match: the text since the previous match, then the match's own snippet; the index moves past the match. */
  function ScanStep(previous: (seq<Snippet>, int), s: string, m: Match, baseColor: Color, tags: ChatTags): (seq<Snippet>, int)
    requires 0 <= previous.1 && 0 <= m.index && 0 <= m.length && End(m) <= |s|
  {
    (previous.0 + Gap(s, previous.1, m.index, baseColor) + [MatchSnippet(s, m, baseColor, tags)], End(m))
  }

  /** Scanning one more match is one more step. */
  lemma ScanExtends(s: string, ms: seq<Match>, i: nat, baseColor: Color, tags: ChatTags)
    requires WellPlaced(ms, |s|) && i < |ms|
    ensures WellPlaced(ms[..i], |s|) && WellPlaced(ms[..i + 1], |s|)
    ensures 0 <= ms[i].index && 0 <= ms[i].length && End(ms[i]) <= |s|
    ensures Scan(s, ms[..i + 1], baseColor, tags) == ScanStep(Scan(s, ms[..i], baseColor, tags), s, ms[i], baseColor, tags)
  {
    WellPlacedPrefix(ms, |s|, i + 1);
    WellPlacedPrefix(ms, |s|, i);
    SilkyUserInterfaces.PrefixStep(ms, i);
  }

  /** The snippets ParseMessage returns: the scan of the matches, then the text after the last one. */
  function Parsed(input: string, baseColor: Color, format: string -> seq<Match>, tags: ChatTags): seq<Snippet>
    requires WellPlaced(format(RemoveReturns(input)), |RemoveReturns(input)|)
  {
    var s := RemoveReturns(input);
    var scanned := Scan(s, format(s), baseColor, tags);
    scanned.0 + Gap(s, scanned.1, |s|, baseColor)
  }

  /** ParseMessage: walk the matches with a moving input index, emitting the text between them and a snippet per match. */
  method ParseMessage(input: string, baseColor: Color, format: string -> seq<Match>, tags: ChatTags)
    returns (snippets: seq<Snippet>)
    requires WellPlaced(format(RemoveReturns(input)), |RemoveReturns(input)|)
    ensures snippets == Parsed(input, baseColor, format, tags)
  {
    var s := RemoveReturns(input);
    var matches := format(s);
    WellPlacedPrefix(matches, |s|, 0);
    snippets := [];
    var inputIndex := 0;
    var i := 0;
    while i < |matches|
      invariant 0 <= i <= |matches|
      invariant WellPlaced(matches[..i], |s|)
      invariant (snippets, inputIndex) == Scan(s, matches[..i], baseColor, tags)
    {
      ScanExtends(s, matches, i, baseColor, tags);
      snippets, inputIndex := ParseMatch(s, matches[i], snippets, inputIndex, baseColor, tags);
      i := i + 1;
    }
    assert matches[..i] == matches;
    ghost var scanned := snippets;
    if |s| > inputIndex {
      snippets := snippets + [TextSnippet(s[inputIndex..], baseColor)];
      assert s[inputIndex..] == s[inputIndex..|s|];
    } else {
      assert scanned + [] == scanned;
    }
    assert snippets == scanned + Gap(s, inputIndex, |s|, baseColor);
  }

  /** The body of ParseMessage's loop for one match. */
  method ParseMatch(s: string, m: Match, snippets: seq<Snippet>, inputIndex: int, baseColor: Color, tags: ChatTags)
    returns (next: seq<Snippet>, nextIndex: int)
    requires 0 <= inputIndex && 0 <= m.index && 0 <= m.length && End(m) <= |s|
    ensures (next, nextIndex) == ScanStep((snippets, inputIndex), s, m, baseColor, tags)
  {
    next := snippets;
    if m.index > inputIndex {
      next := next + [TextSnippet(s[inputIndex..m.index], baseColor)];
    }
    assert next == snippets + Gap(s, inputIndex, m.index, baseColor);
    ghost var withGap := next;
    nextIndex := m.index + m.length;
    if !tags.hasHandler(m.tag) {
      next := next + [TextSnippet(m.text, baseColor)];
    } else {
      var snippet := tags.parse(m.tag, m.text, baseColor, m.options);
      next := next + [snippet.(textOriginal := s[m.index..m.index + m.length])];
    }
    assert next == withGap + [MatchSnippet(s, m, baseColor, tags)];
  }

  /** The markup the snippets were parsed from, joined. */
  function Originals(ss: seq<Snippet>): string
  {
    if ss == [] then "" else Originals(ss[..|ss| - 1]) + ss[|ss| - 1].textOriginal
  }

  lemma OriginalsAppend(a: seq<Snippet>, b: seq<Snippet>)
    ensures Originals(a + b) == Originals(a) + Originals(b)
  {
    if b == [] {
      assert a + b == a;
    } else {
      assert (a + b)[..|a + b| - 1] == a + b[..|b| - 1];
      OriginalsAppend(a, b[..|b| - 1]);
    }
  }

  /** When every tag has a handler, the scanned snippets' markup is the input up to the end of the last match. */
  lemma SliceJoin(s: string, a: int, b: int, c: int)
    requires 0 <= a <= b <= c <= |s|
    ensures s[..a] + s[a..b] + s[b..c] == s[..c]
  {
    assert s[..c] == s[..a] + s[a..c] && s[a..c] == s[a..b] + s[b..c];
  }

  /** The markup of a gap is the text it covers. */
  lemma GapOriginals(s: string, from: int, to: int, baseColor: Color)
    requires 0 <= from <= to <= |s|
    ensures Originals(Gap(s, from, to, baseColor)) == s[from..to]
  {
    if to > from {
      assert Originals([TextSnippet(s[from..to], baseColor)]) == Originals([]) + s[from..to];
    }
  }

  lemma {:induction false} ScanCoversPrefix(s: string, ms: seq<Match>, baseColor: Color, tags: ChatTags)
    requires WellPlaced(ms, |s|)
    requires forall m <- ms :: tags.hasHandler(m.tag)
    ensures var r := Scan(s, ms, baseColor, tags); Originals(r.0) == s[..r.1]
  {
    if ms != [] {
      var init := ms[..|ms| - 1];
      var m := ms[|ms| - 1];
      assert forall x <- init :: x in ms;
      ScanCoversPrefix(s, init, baseColor, tags);
      var previous := Scan(s, init, baseColor, tags);
      assert previous.1 <= m.index;
      var gap := Gap(s, previous.1, m.index, baseColor);
      GapOriginals(s, previous.1, m.index, baseColor);
      var last := MatchSnippet(s, m, baseColor, tags);
      assert last.textOriginal == s[m.index..End(m)];
      OriginalsAppend(previous.0 + gap, [last]);
      OriginalsAppend(previous.0, gap);
      assert Originals([last]) == Originals([]) + last.textOriginal;
      SliceJoin(s, previous.1, m.index, End(m));
    }
  }

  /**
   * Parsing round-trips: when every tag in the message has a handler, the
   * markup recorded in the snippets, joined, is the message without its
   * carriage returns.
   */
  lemma ParseRoundTrip(input: string, baseColor: Color, format: string -> seq<Match>, tags: ChatTags)
    requires WellPlaced(format(RemoveReturns(input)), |RemoveReturns(input)|)
    requires forall m <- format(RemoveReturns(input)) :: tags.hasHandler(m.tag)
    ensures Originals(Parsed(input, baseColor, format, tags)) == RemoveReturns(input)
  {
    var s := RemoveReturns(input);
    var scanned := Scan(s, format(s), baseColor, tags);
    ScanCoversPrefix(s, format(s), baseColor, tags);
    var tail := Gap(s, scanned.1, |s|, baseColor);
    OriginalsAppend(scanned.0, tail);
    GapOriginals(s, scanned.1, |s|, baseColor);
    SliceJoin(s, 0, scanned.1, |s|);
    assert s[..0] == [] && s[..|s|] == s;
  }

  /** A message without markup is one base-colour snippet, or none when it is empty. */
  lemma ParseWithoutMarkup(input: string, baseColor: Color, format: string -> seq<Match>, tags: ChatTags)
    requires WellPlaced(format(RemoveReturns(input)), |RemoveReturns(input)|)
    requires format(RemoveReturns(input)) == []
    ensures var s := RemoveReturns(input);
      Parsed(input, baseColor, format, tags) == if s == "" then [] else [TextSnippet(s, baseColor)]
  {
    var s := RemoveReturns(input);
    assert s[0..|s|] == s;
  }

  // ---------------------------------------------------------------------
  // WordwrapString
  // ---------------------------------------------------------------------

  /** The font metrics the wrapper asks for. */
  datatype Font = Font(
    characterSpacing: real,
    kernedWidth: char -> real,            // GetCharacterMetrics(c).KernedWidth
    kernedWidthOnNewLine: char -> real,   // GetCharacterMetrics(c).KernedWidthOnNewLine
    measureWidth: string -> real,         // MeasureString(s).X
    snippetWidth: Snippet -> real)        // snippet.GetStringLength(font)

  /** The wrapping parameters: font, maximum line width and the longest word that may move to a new line. */
  datatype Limits = Limits(font: Font, maxWidth: int, maxCharacterCount: int)

  /** The wrapper's running state: snippets emitted, lines begun, current line length and the pending word. */
  datatype Wrapping = Wrapping(out: seq<Snippet>, lineCount: int, lineLength: real, cache: string)

  const Start: Wrapping := Wrapping([], 1, 0.0, "")

  /** The line break an overflowing character causes, if any. */
  function Overflow(w: Wrapping, t: string, i: nat, color: Color, limits: Limits): Wrapping
    requires i < |t|
  {
    var c := t[i];
    var length := w.lineLength + limits.font.characterSpacing + limits.font.kernedWidth(c);
    if length > limits.maxWidth as real && !IsWhiteSpace(c) then
      var canWrapWord := 1 < |w.cache| < limits.maxCharacterCount;
      if !canWrapWord || (i > 0 && CanBreakBetween(t[i - 1], c)) then
        // forced break: the pending word stays on this line
        Wrapping(w.out + [PlainPiece(w.cache, color), LineBreak], w.lineCount + 1, limits.font.kernedWidthOnNewLine(c), "")
      else
        // space break: the pending word, less its leading space, ends this line
        var word := if w.cache[0] != ' ' then " " + w.cache else w.cache;
        Wrapping(w.out + [PlainPiece(word[1..], color), LineBreak], w.lineCount + 1, limits.font.measureWidth(word), "")
    else
      w.(lineLength := length)
  }

  /** The pending word is emitted before whitespace and where CJK and non-CJK text meet. */
  function SplitWord(w: Wrapping, c: char, color: Color): Wrapping
  {
    if w.cache != "" && (IsWhiteSpace(c) || IsCjk(w.cache[|w.cache| - 1]) != IsCjk(c)) then
      w.(out := w.out + [PlainPiece(w.cache, color)], cache := "")
    else w
  }

  /** One character of a plain snippet. */
  function CharStep(w: Wrapping, t: string, i: nat, color: Color, limits: Limits): Wrapping
    requires i < |t|
  {
    var c := t[i];
    var split := SplitWord(Overflow(w, t, i, color, limits), c, color);
    var reset := if c == '\n' then split.(lineLength := 0.0, lineCount := split.lineCount + 1) else split;
    reset.(cache := reset.cache + [c])
  }

  /** The characters of t from position i on. */
  function CharsFrom(w: Wrapping, t: string, i: nat, color: Color, limits: Limits): Wrapping
    requires i <= |t|
    decreases |t| - i
  {
    if i == |t| then w else CharsFrom(CharStep(w, t, i, color, limits), t, i + 1, color, limits)
  }

  /** A plain snippet: its characters with an empty pending word, then whatever word is left. */
  function PlainPass(w: Wrapping, s: Snippet, limits: Limits): Wrapping
  {
    var e := CharsFrom(w.(cache := ""), s.text, 0, s.color, limits);
    Wrapping(e.out + [PlainPiece(e.cache, s.color)], e.lineCount, e.lineLength, "")
  }

  /** A rich snippet moves whole to a new line of its own width when it would overflow. */
  function RichPass(w: Wrapping, s: Snippet, limits: Limits): Wrapping
  {
    var width := limits.font.snippetWidth(s);
    if w.lineLength + width > limits.maxWidth as real then
      Wrapping(w.out + [LineBreak, s], w.lineCount + 1, width, w.cache)
    else
      Wrapping(w.out + [s], w.lineCount, w.lineLength + width, w.cache)
  }

  function SnippetStep(w: Wrapping, s: Snippet, limits: Limits): Wrapping
  {
    if s.kind.Plain? then PlainPass(w, s, limits) else RichPass(w, s, limits)
  }

  /** Removes snippets from the end down to the last "\n" snippet (or to one snippet). */
  function DropToBreak(out: seq<Snippet>): (r: seq<Snippet>)
    ensures |r| <= |out| && r == out[..|r|]
    ensures |out| > 0 ==> |r| > 0
  {
    if |out| > 1 && out[|out| - 1].text != "\n" then DropToBreak(out[..|out| - 1]) else out
  }

  /** Removes k lines from the end; the flag is set where RemoveAt would find the list empty. */
  function RemoveLines(out: seq<Snippet>, k: int): (r: (seq<Snippet>, bool))
    decreases k
  {
    if k <= 0 then (out, false)
    else
      var kept := DropToBreak(out);
      if kept == [] then (kept, true) else RemoveLines(kept[..|kept| - 1], k - 1)
  }

  /** How WordwrapString ends: normally, cut at the line limit, or with an exception from an empty list. */
  datatype Outcome =
    | Finished(snippets: seq<Snippet>, lastLineLength: real)
    | Truncated(snippets: seq<Snippet>, lastLineLength: real)
    | Thrown(snippets: seq<Snippet>, lastLineLength: real)

  /** The snippets still to wrap, from state w. */
  function Run(w: Wrapping, ss: seq<Snippet>, limits: Limits, maxLines: int): Outcome
    decreases |ss|
  {
    if ss == [] then Finished(w.out, w.lineLength)
    else
      var next := SnippetStep(w, ss[0], limits);
      if maxLines != -1 && next.lineCount >= maxLines + 1 then
        var removed := RemoveLines(next.out, next.lineCount - maxLines);
        if removed.1 then Thrown(removed.0, 0.0) else Truncated(removed.0, 0.0)
      else Run(next, ss[1..], limits, maxLines)
  }

  /**
   * WordwrapString: without a line limit (maxLines == -1) it never cuts and
   * never throws; with maxLines at least 1, a result that is not cut has at
   * most maxLines lines.
   */
  function Wordwrap(original: seq<Snippet>, limits: Limits, maxLines: int): (o: Outcome)
    ensures maxLines == -1 ==> o.Finished?
    ensures maxLines >= 1 && o.Finished? ==> 1 + PlainNewlines(o.snippets) <= maxLines
  {
    if maxLines == -1 then
      UnlimitedRunFinishes(Start, original, limits);
      Run(Start, original, limits, maxLines)
    else if maxLines >= 1 then
      assert Counted(Start);
      RunWithinMaxLines(Start, original, limits, maxLines);
      Run(Start, original, limits, maxLines)
    else
      Run(Start, original, limits, maxLines)
  }

  // ---------------------------------------------------------------------
  // Properties of the wrapper
  // ---------------------------------------------------------------------

  /** A line feed in a plain snippet starts a new line: the line length restarts at zero and one more line is counted. */
  lemma NewlineStartsLine(w: Wrapping, t: string, i: nat, color: Color, limits: Limits)
    requires i < |t| && t[i] == '\n'
    ensures var r := CharStep(w, t, i, color, limits);
      r.lineLength == 0.0 && r.lineCount == w.lineCount + 1 && r.cache == "\n" &&
      r.out == w.out + (if w.cache != "" then [PlainPiece(w.cache, color)] else [])
  {
  }

  /** The line feeds in a string. */
  function Newlines(s: string): nat
  {
    if s == [] then 0 else Newlines(s[..|s| - 1]) + (if s[|s| - 1] == '\n' then 1 else 0)
  }

  /** The line feeds in the PlainSnippets of a list; the wrapper emits every text it splits as a PlainSnippet. */
  function PlainNewlines(ss: seq<Snippet>): nat
  {
    if ss == [] then 0
    else PlainNewlines(ss[..|ss| - 1]) + (if ss[|ss| - 1].kind.Plain? then Newlines(ss[|ss| - 1].text) else 0)
  }

  lemma {:induction false} NewlinesAppend(a: string, b: string)
    ensures Newlines(a + b) == Newlines(a) + Newlines(b)
    decreases |b|
  {
    if b == [] {
      assert a + b == a;
    } else {
      assert (a + b)[..|a + b| - 1] == a + b[..|b| - 1];
      NewlinesAppend(a, b[..|b| - 1]);
    }
  }

  lemma {:induction false} PlainNewlinesAppend(a: seq<Snippet>, b: seq<Snippet>)
    ensures PlainNewlines(a + b) == PlainNewlines(a) + PlainNewlines(b)
    decreases |b|
  {
    if b == [] {
      assert a + b == a;
    } else {
      assert (a + b)[..|a + b| - 1] == a + b[..|b| - 1];
      PlainNewlinesAppend(a, b[..|b| - 1]);
    }
  }

  lemma PieceNewlines(text: string, color: Color)
    ensures PlainNewlines([PlainPiece(text, color)]) == Newlines(text)
    ensures PlainNewlines([LineBreak]) == 1
  {
    assert [PlainPiece(text, color)][..0] == [];
    assert [LineBreak][..0] == [];
    assert "\n"[..0] == [];
  }

  /** The line count is one more than the line feeds emitted and pending. */
  predicate Counted(w: Wrapping)
  {
    w.lineCount == 1 + PlainNewlines(w.out) + Newlines(w.cache)
  }

  /** A piece followed by a line break adds the piece's line feeds and one. */
  lemma BreakCounts(out: seq<Snippet>, text: string, color: Color)
    ensures PlainNewlines(out + [PlainPiece(text, color), LineBreak]) == PlainNewlines(out) + Newlines(text) + 1
  {
    PieceNewlines(text, color);
    assert out + [PlainPiece(text, color), LineBreak] == (out + [PlainPiece(text, color)]) + [LineBreak];
    PlainNewlinesAppend(out + [PlainPiece(text, color)], [LineBreak]);
    PlainNewlinesAppend(out, [PlainPiece(text, color)]);
  }

  /** The word a space break emits has the pending word's line feeds. */
  lemma WordNewlines(cache: string)
    requires |cache| > 1
    ensures var word := if cache[0] != ' ' then " " + cache else cache; Newlines(word[1..]) == Newlines(cache)
  {
    if cache[0] == ' ' {
      assert cache == [cache[0]] + cache[1..];
      NewlinesAppend([cache[0]], cache[1..]);
      assert [cache[0]][..0] == [];
    } else {
      assert (" " + cache)[1..] == cache;
    }
  }

  lemma OverflowCounts(w: Wrapping, t: string, i: nat, color: Color, limits: Limits)
    requires i < |t| && Counted(w)
    ensures Counted(Overflow(w, t, i, color, limits))
  {
    var r := Overflow(w, t, i, color, limits);
    if r.lineCount != w.lineCount {
      var c := t[i];
      if !(1 < |w.cache| < limits.maxCharacterCount) || (i > 0 && CanBreakBetween(t[i - 1], c)) {
        BreakCounts(w.out, w.cache, color);
      } else {
        var word := if w.cache[0] != ' ' then " " + w.cache else w.cache;
        BreakCounts(w.out, word[1..], color);
        WordNewlines(w.cache);
      }
    }
  }

  /** Each character keeps the count: line breaks inserted, line feeds read and the pending word all add up. */
  lemma CharStepCounts(w: Wrapping, t: string, i: nat, color: Color, limits: Limits)
    requires i < |t| && Counted(w)
    ensures Counted(CharStep(w, t, i, color, limits))
  {
    var o := Overflow(w, t, i, color, limits);
    OverflowCounts(w, t, i, color, limits);
    var split := SplitWord(o, t[i], color);
    if split != o {
      PieceNewlines(o.cache, color);
      PlainNewlinesAppend(o.out, [PlainPiece(o.cache, color)]);
    }
    NewlinesAppend(split.cache, [t[i]]);
    assert [t[i]][..0] == [];
  }

  lemma {:induction false} CharsFromCounts(w: Wrapping, t: string, i: nat, color: Color, limits: Limits)
    requires i <= |t| && Counted(w)
    ensures Counted(CharsFrom(w, t, i, color, limits))
    decreases |t| - i
  {
    if i < |t| {
      CharStepCounts(w, t, i, color, limits);
      CharsFromCounts(CharStep(w, t, i, color, limits), t, i + 1, color, limits);
    }
  }

  /** Between snippets nothing is pending, and the line count is one more than the line feeds emitted. */
  lemma SnippetStepCounts(w: Wrapping, s: Snippet, limits: Limits)
    requires Counted(w) && w.cache == ""
    ensures var r := SnippetStep(w, s, limits); Counted(r) && r.cache == ""
  {
    if s.kind.Plain? {
      assert w.(cache := "") == w;
      CharsFromCounts(w, s.text, 0, s.color, limits);
      var e := CharsFrom(w, s.text, 0, s.color, limits);
      PieceNewlines(e.cache, s.color);
      PlainNewlinesAppend(e.out, [PlainPiece(e.cache, s.color)]);
    } else {
      PieceNewlines("", s.color);
      assert PlainNewlines([s]) == PlainNewlines([]) by {
        assert [s][..0] == [];
      }
      PlainNewlinesAppend(w.out, [LineBreak, s]);
      PlainNewlinesAppend([LineBreak], [s]);
      PlainNewlinesAppend(w.out, [s]);
    }
  }

  /**
   * Under a line limit, a run that finishes without cutting emits at most
   * that many lines (counting the line feeds in its PlainSnippets), and its
   * last-line length is the running length.
   */
  lemma {:induction false} RunWithinMaxLines(w: Wrapping, ss: seq<Snippet>, limits: Limits, maxLines: int)
    requires Counted(w) && w.cache == "" && 1 <= w.lineCount <= maxLines
    ensures var o := Run(w, ss, limits, maxLines); o.Finished? ==> 1 + PlainNewlines(o.snippets) <= maxLines
    decreases |ss|
  {
    if ss != [] {
      var next := SnippetStep(w, ss[0], limits);
      SnippetStepCounts(w, ss[0], limits);
      if next.lineCount < maxLines + 1 {
        assert 1 <= next.lineCount by {
          assert next.lineCount == 1 + PlainNewlines(next.out);
        }
        RunWithinMaxLines(next, ss[1..], limits, maxLines);
      }
    }
  }

  /** Without a line limit (maxLines == -1) the wrapper never cuts and never throws. */
  lemma {:induction false} UnlimitedRunFinishes(w: Wrapping, ss: seq<Snippet>, limits: Limits)
    ensures Run(w, ss, limits, -1).Finished?
    decreases |ss|
  {
    if ss != [] {
      UnlimitedRunFinishes(SnippetStep(w, ss[0], limits), ss[1..], limits);
    }
  }

  /** Cutting one line removes everything after the last line-break snippet, and that snippet. */
  lemma {:induction false} RemoveOneLine(a: seq<Snippet>, b: seq<Snippet>)
    requires forall x <- b :: x.text != "\n"
    ensures RemoveLines(a + [LineBreak] + b, 1) == (a, false)
    decreases |b|
  {
    var out := a + [LineBreak] + b;
    if b == [] {
      assert DropToBreak(out) == out;
      assert out[..|out| - 1] == a;
    } else {
      assert out[..|out| - 1] == a + [LineBreak] + b[..|b| - 1];
      assert DropToBreak(out) == DropToBreak(a + [LineBreak] + b[..|b| - 1]);
      assert forall x <- b[..|b| - 1] :: x in b;
      RemoveOneLine(a, b[..|b| - 1]);
    }
  }

  /** Cutting two or more lines from a list with no line-break snippet empties it and then throws. */
  lemma CuttingWithoutBreaksThrows(out: seq<Snippet>, k: int)
    requires forall x <- out :: x.text != "\n"
    requires k >= 2
    ensures RemoveLines(out, k).1
  {
    if out != [] {
      DropsToFirst(out);
      assert RemoveLines(out, k) == RemoveLines([], k - 1);
    }
  }

  lemma {:induction false} DropsToFirst(out: seq<Snippet>)
    requires out != [] && forall x <- out :: x.text != "\n"
    ensures DropToBreak(out) == out[..1]
    decreases |out|
  {
    if |out| > 1 {
      assert forall x <- out[..|out| - 1] :: x in out;
      DropsToFirst(out[..|out| - 1]);
      assert out[..|out| - 1][..1] == out[..1];
    }
  }

  /** The character loop of a plain snippet, with the pending word in a local string. */
  method WrapPlain(snippet: Snippet, final: SnippetList, lineCount: int, lineLength: real, limits: Limits)
    returns (count: int, length: real)
    modifies final
    ensures Wrapping(final.items, count, length, "") ==
      PlainPass(Wrapping(old(final.items), lineCount, lineLength, ""), snippet, limits)
  {
    var t := snippet.text;
    var font := limits.font;
    ghost var start := Wrapping(final.items, lineCount, lineLength, "");
    count, length := lineCount, lineLength;
    var cacheString := "";
    var i := 0;
    while i < |t|
      invariant 0 <= i <= |t|
      invariant CharsFrom(start, t, 0, snippet.color, limits) ==
        CharsFrom(Wrapping(final.items, count, length, cacheString), t, i, snippet.color, limits)
    {
      ghost var before := Wrapping(final.items, count, length, cacheString);
      length := length + font.characterSpacing + font.kernedWidth(t[i]);
      if length > limits.maxWidth as real && !IsWhiteSpace(t[i]) {
        var canWrapWord := |cacheString| > 1 && |cacheString| < limits.maxCharacterCount;
        if !canWrapWord || (i > 0 && CanBreakBetween(t[i - 1], t[i])) {
          final.items := final.items + [PlainPiece(cacheString, snippet.color)];
          final.items := final.items + [LineBreak];
          length := font.kernedWidthOnNewLine(t[i]);
          cacheString := "";
          count := count + 1;
        } else {
          if cacheString[0] != ' ' {
            cacheString := " " + cacheString;
          }
          final.items := final.items + [PlainPiece(cacheString[1..], snippet.color)];
          final.items := final.items + [LineBreak];
          length := font.measureWidth(cacheString);
          cacheString := "";
          count := count + 1;
        }
      }
      assert Wrapping(final.items, count, length, cacheString) == Overflow(before, t, i, snippet.color, limits);
      if cacheString != "" && (IsWhiteSpace(t[i]) || IsCjk(cacheString[|cacheString| - 1]) != IsCjk(t[i])) {
        final.items := final.items + [PlainPiece(cacheString, snippet.color)];
        cacheString := "";
      }
      if t[i] == '\n' {
        length := 0.0;
        count := count + 1;
      }
      cacheString := cacheString + [t[i]];
      assert Wrapping(final.items, count, length, cacheString) == CharStep(before, t, i, snippet.color, limits);
      i := i + 1;
    }
    final.items := final.items + [PlainPiece(cacheString, snippet.color)];
  }

  /** The removal loop: k times, drop back to the last line break and then drop it too. */
  method RemoveLinesFrom(final: SnippetList, k: int) returns (thrown: bool)
    modifies final
    ensures (final.items, thrown) == RemoveLines(old(final.items), k)
  {
    var i := 0;
    while i < k
      invariant i <= k || k <= 0
      invariant RemoveLines(old(final.items), k) == RemoveLines(final.items, k - i)
    {
      ghost var before := final.items;
      while |final.items| > 1 && final.items[|final.items| - 1].text != "\n"
        invariant DropToBreak(before) == DropToBreak(final.items)
        decreases |final.items|
      {
        final.items := final.items[..|final.items| - 1];
      }
      if final.items == [] {
        return true;
      }
      final.items := final.items[..|final.items| - 1];
      i := i + 1;
    }
    return false;
  }

  /**
   * WordwrapString (the overload over a snippet list): clears the given
   * list, fills it with the wrapped snippets and returns them with the
   * length of the last line. `thrown` marks the run that ends in the
   * exception List.RemoveAt raises on an empty list.
   */
  method WordwrapString(original: seq<Snippet>, final: SnippetList, limits: Limits, maxLines: int)
    returns (result: seq<Snippet>, lastLineLength: real, thrown: bool)
    modifies final
    ensures var o := Wordwrap(original, limits, maxLines);
      final.items == o.snippets && result == o.snippets && lastLineLength == o.lastLineLength && thrown == o.Thrown?
  {
    final.items := [];
    var lineCount := 1;
    var currentLineLength := 0.0;
    var k := 0;
    while k < |original|
      invariant 0 <= k <= |original|
      invariant Wordwrap(original, limits, maxLines) ==
        Run(Wrapping(final.items, lineCount, currentLineLength, ""), original[k..], limits, maxLines)
    {
      var snippet := original[k];
      ghost var before := Wrapping(final.items, lineCount, currentLineLength, "");
      if snippet.kind.Plain? {
        lineCount, currentLineLength := WrapPlain(snippet, final, lineCount, currentLineLength, limits);
      } else {
        var length := limits.font.snippetWidth(snippet);
        currentLineLength := currentLineLength + length;
        if currentLineLength > limits.maxWidth as real {
          final.items := final.items + [LineBreak];
          lineCount := lineCount + 1;
          currentLineLength := length;
        }
        final.items := final.items + [snippet];
      }
      assert Wrapping(final.items, lineCount, currentLineLength, "") == SnippetStep(before, snippet, limits);
      assert original[k..][1..] == original[k + 1..];
      if maxLines != -1 && lineCount >= maxLines + 1 {
        var linesToBeRemoved := lineCount - maxLines;
        thrown := RemoveLinesFrom(final, linesToBeRemoved);
        lastLineLength := 0.0;
        result := final.items;
        return;
      }
      k := k + 1;
    }
    lastLineLength := currentLineLength;
    result := final.items;
    thrown := false;
  }
}
