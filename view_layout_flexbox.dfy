/**
 * View.Layout.Flexbox.cs: a flex container splits its flow elements into
 * lines (FlexItems) along the main axis, wrapping when a line would overflow
 * the inner size, then places every line: along the main axis by the main
 * axis alignment, across it by the cross axis alignment, the lines stacked
 * one after the other on the cross axis.
 *
 * The Row and Column code paths of the source are mirror images; the model
 * writes each once over the direction, with `MainOf`/`CrossOf` picking the
 * axis and `Along` building the vector.
 */
module ViewLayoutFlexbox {
  import opened HostTypes
  import opened ViewNode
  import opened ViewLayoutFlow

  // ------------------------------------------------------------------ axes

  /** The size of a rectangle along the main axis: its width for Row. */
  function MainOf(r: Rect, dir: FlexDirection): real
  {
    if dir == Row then r.width else r.height
  }

  /** The size of a rectangle across the main axis: its height for Row. */
  function CrossOf(r: Rect, dir: FlexDirection): real
  {
    if dir == Row then r.height else r.width
  }

  /** The vector with the given main and cross components. */
  function Along(dir: FlexDirection, main: real, cross: real): (r: Vec2)
    ensures dir == Row ==> r.x == main && r.y == cross
    ensures dir == Column ==> r.x == cross && r.y == main
  {
    if dir == Row then Vec2(main, cross) else Vec2(cross, main)
  }

  /** The gap between neighbours on the main axis: Gap.X for Row, Gap.Y for Column. */
  function MainGap(gap: Vec2, dir: FlexDirection): real
  {
    if dir == Row then gap.x else gap.y
  }

  /** The gap between lines: Gap.Y for Row, Gap.X for Column. */
  function CrossGap(gap: Vec2, dir: FlexDirection): real
  {
    if dir == Row then gap.y else gap.x
  }

  // ---------------------------------------------------------------- entries

  /** A flow element with its outer size along and across the main axis. */
  datatype Entry = Entry(view: View, main: real, cross: real)

  /** The entries of a run of views for a direction. */
  function Entries(s: seq<View>, dir: FlexDirection): (r: seq<Entry>)
    reads s`outer
    ensures |r| == |s|
    ensures forall i :: 0 <= i < |s| ==> r[i] == Entry(s[i], MainOf(s[i].outer, dir), CrossOf(s[i].outer, dir))
  {
    if s == [] then [] else [Entry(s[0], MainOf(s[0].outer, dir), CrossOf(s[0].outer, dir))] + Entries(s[1..], dir)
  }

  /** The views of a run of entries. */
  function Views(es: seq<Entry>): (r: seq<View>)
    ensures |r| == |es| && forall i :: 0 <= i < |es| ==> r[i] == es[i].view
  {
    if es == [] then [] else [es[0].view] + Views(es[1..])
  }

  /** The main sizes of a run of entries. */
  function Mains(es: seq<Entry>): (r: seq<real>)
    ensures |r| == |es| && forall i :: 0 <= i < |es| ==> r[i] == es[i].main
  {
    if es == [] then [] else [es[0].main] + Mains(es[1..])
  }

  /**
   * The main-axis extent of a run laid out with `gap` between neighbours:
   * the sum of the main sizes plus one gap less than there are entries.
   */
  function Extent(es: seq<Entry>, gap: real): real
    requires es != []
  {
    if |es| == 1 then es[0].main else Extent(es[..|es| - 1], gap) + gap + es[|es| - 1].main
  }

  /** The cross sizes of a run of entries. */
  function Crosses(es: seq<Entry>): (r: seq<real>)
    ensures |r| == |es| && forall i :: 0 <= i < |es| ==> r[i] == es[i].cross
  {
    if es == [] then [] else [es[0].cross] + Crosses(es[1..])
  }

  /** The largest of a non-empty sequence of sizes (Enumerable.Max). */
  function MaxOf(s: seq<real>): (r: real)
    requires s != []
    ensures forall i :: 0 <= i < |s| ==> s[i] <= r
  {
    if |s| == 1 then s[0]
    else
      assert forall i :: 0 <= i < |s| - 1 ==> s[..|s| - 1][i] == s[i];
      Max(MaxOf(s[..|s| - 1]), s[|s| - 1])
  }

  /** The maximum is one of the sizes. */
  lemma {:induction false} MaxOfAttained(s: seq<real>)
    requires s != []
    ensures exists i :: 0 <= i < |s| && s[i] == MaxOf(s)
  {
    if |s| == 1 {
      assert s[0] == MaxOf(s);
    } else if MaxOf(s) == s[|s| - 1] {
      assert s[|s| - 1] == MaxOf(s);
    } else {
      var p := s[..|s| - 1];
      MaxOfAttained(p);
      var j :| 0 <= j < |p| && p[j] == MaxOf(p);
      assert s[j] == MaxOf(s);
    }
  }

  /** The largest cross size of a non-empty run. */
  function CrossMax(es: seq<Entry>): real
    requires es != []
  {
    MaxOf(Crosses(es))
  }

  /** The extent of a run is where the last box ends when the boxes are stacked from 0. */
  lemma {:induction false} ExtentIsStackEnd(es: seq<Entry>, gap: real)
    requires es != []
    ensures Extent(es, gap) == StackOffset(Mains(es), gap, |es| - 1) + es[|es| - 1].main
  {
    if |es| > 1 {
      var p := es[..|es| - 1];
      ExtentIsStackEnd(p, gap);
      StackOffsetPrefix(Mains(p), Mains(es), gap, |p| - 1);
    }
  }

  /** StackOffset at i only looks at the first i sizes. */
  lemma {:induction false} StackOffsetPrefix(a: seq<real>, b: seq<real>, gap: real, i: nat)
    requires i <= |a| && i <= |b|
    requires forall k :: 0 <= k < i ==> a[k] == b[k]
    ensures StackOffset(a, gap, i) == StackOffset(b, gap, i)
  {
    if i > 0 {
      StackOffsetPrefix(a, b, gap, i - 1);
    }
  }

  // ------------------------------------------------------------------ lines

  /** A line under construction: its entries and its running main and cross sizes. */
  datatype Line = Line(entries: seq<Entry>, main: real, cross: real)

  /**
   * One element e added to the lines built so far. With no lines yet it
   * opens the first line with its own sizes. Otherwise it opens a new line
   * (main = e.main, cross = max(0, e.cross)) when there is a limit and the
   * last line's main + e.main + gap exceeds it, and else it joins the last
   * line, whose main grows by e.main + gap and whose cross becomes the
   * larger of the two.
   */
  function Step(ls: seq<Line>, e: Entry, gap: real, limit: Option<real>): (r: seq<Line>)
    ensures |ls| <= |r| <= |ls| + 1 && r != []
  {
    if ls == [] then [Line([e], e.main, e.cross)]
    else
      var last := ls[|ls| - 1];
      if limit.Some? && last.main + e.main + gap > limit.value then
        ls + [Line([e], e.main, Max(0.0, e.cross))]
      else
        ls[..|ls| - 1] + [Line(last.entries + [e], last.main + e.main + gap, Max(last.cross, e.cross))]
  }

  /** The lines ProcessFlexItems builds from a run of entries; no limit means no wrapping. */
  function Wrap(es: seq<Entry>, gap: real, limit: Option<real>): (r: seq<Line>)
    ensures |r| <= |es| && (r == [] <==> es == [])
  {
    if es == [] then [] else Step(Wrap(es[..|es| - 1], gap, limit), es[|es| - 1], gap, limit)
  }

  /** The entries of all lines, line after line. */
  function Flatten(ls: seq<Line>): seq<Entry>
  {
    if ls == [] then [] else Flatten(ls[..|ls| - 1]) + ls[|ls| - 1].entries
  }

  /**
   * What a line of Wrap is: not empty, its main size is the extent of its
   * entries, its cross size their largest cross size (floored at 0 on every
   * line but the first), and with a limit every prefix of two or more of its
   * entries fits it: no element joined a line it overflowed.
   */
  ghost predicate LineShape(l: Line, first: bool, gap: real, limit: Option<real>)
  {
    l.entries != [] &&
    l.main == Extent(l.entries, gap) &&
    l.cross == (if first then CrossMax(l.entries) else Max(0.0, CrossMax(l.entries))) &&
    (limit.Some? ==> forall m :: 2 <= m <= |l.entries| ==> Extent(l.entries[..m], gap) <= limit.value)
  }

  /** Line l is full: the first entry of the line after it would have overflowed the limit. */
  ghost predicate Full(l: Line, next: Line, gap: real, limit: Option<real>)
  {
    next.entries != [] && limit.Some? && l.main + gap + next.entries[0].main > limit.value
  }

  /**
   * Every line has its shape, and every line but the last is full (so
   * without a limit there is at most one line).
   */
  ghost predicate WellWrapped(ls: seq<Line>, gap: real, limit: Option<real>)
  {
    (forall i :: 0 <= i < |ls| ==> LineShape(ls[i], i == 0, gap, limit)) &&
    (forall i, j :: 0 <= i && j == i + 1 && j < |ls| ==> Full(ls[i], ls[j], gap, limit)) &&
    (limit.None? ==> |ls| <= 1)
  }

  /** Opening a new line keeps the lines well wrapped and appends the entry. */
  lemma {:induction false} StepOpens(ls: seq<Line>, e: Entry, gap: real, limit: Option<real>)
    requires ls != [] && WellWrapped(ls, gap, limit)
    requires limit.Some? && ls[|ls| - 1].main + e.main + gap > limit.value
    ensures WellWrapped(Step(ls, e, gap, limit), gap, limit)
    ensures Flatten(Step(ls, e, gap, limit)) == Flatten(ls) + [e]
  {
    var r := Step(ls, e, gap, limit);
    assert r[..|r| - 1] == ls;
    SingleLine(e, false, gap, limit);
    assert LineShape(r[|ls|], false, gap, limit);
    assert Full(r[|ls| - 1], r[|ls|], gap, limit);
  }

  /** A line opened by e alone has its shape. */
  lemma SingleLine(e: Entry, first: bool, gap: real, limit: Option<real>)
    ensures LineShape(Line([e], e.main, if first then e.cross else Max(0.0, e.cross)), first, gap, limit)
  {
    assert Crosses([e]) == [e.cross];
  }

  /** A line that e joins keeps its shape. */
  lemma {:induction false} JoinedLine(last: Line, e: Entry, first: bool, gap: real, limit: Option<real>)
    requires LineShape(last, first, gap, limit)
    requires !(limit.Some? && last.main + e.main + gap > limit.value)
    ensures LineShape(Line(last.entries + [e], last.main + e.main + gap, Max(last.cross, e.cross)), first, gap, limit)
  {
    var es := last.entries + [e];
    assert es[..|es| - 1] == last.entries;
    assert Crosses(es)[..|es| - 1] == Crosses(last.entries);
    if limit.Some? {
      JoinedPrefixes(last.entries, e, gap, limit.value);
    }
  }

  /** Every prefix of a line that e joined without overflowing fits the limit. */
  lemma JoinedPrefixes(entries: seq<Entry>, e: Entry, gap: real, limit: real)
    requires entries != []
    requires forall m :: 2 <= m <= |entries| ==> Extent(entries[..m], gap) <= limit
    requires Extent(entries, gap) + e.main + gap <= limit
    ensures forall m :: 2 <= m <= |entries| + 1 ==> Extent((entries + [e])[..m], gap) <= limit
  {
    var es := entries + [e];
    forall m | 2 <= m <= |es|
      ensures Extent(es[..m], gap) <= limit
    {
      if m == |es| {
        assert es[..m] == es;
        assert es[..|es| - 1] == entries;
      } else {
        assert es[..m] == entries[..m];
      }
    }
  }


  /** Joining the last line keeps the lines well wrapped and appends the entry. */
  lemma {:induction false} StepJoins(ls: seq<Line>, e: Entry, gap: real, limit: Option<real>)
    requires ls != [] && WellWrapped(ls, gap, limit)
    requires !(limit.Some? && ls[|ls| - 1].main + e.main + gap > limit.value)
    ensures WellWrapped(Step(ls, e, gap, limit), gap, limit)
    ensures Flatten(Step(ls, e, gap, limit)) == Flatten(ls) + [e]
  {
    var m := |ls| - 1;
    var last := ls[m];
    var l := Line(last.entries + [e], last.main + e.main + gap, Max(last.cross, e.cross));
    var r := Step(ls, e, gap, limit);
    assert r == ls[..m] + [l];
    assert r[..m] == ls[..m];
    assert Flatten(ls) == Flatten(ls[..m]) + last.entries;
    assert Flatten(r) == Flatten(ls[..m]) + l.entries;
    JoinedLine(last, e, m == 0, gap, limit);
    assert forall i :: 0 <= i < m ==> r[i] == ls[i];
    forall i, j | 0 <= i && j == i + 1 && j < |r|
      ensures Full(r[i], r[j], gap, limit)
    {
      assert Full(ls[i], ls[j], gap, limit);
    }
  }

  /** Wrap splits the entries, in order, into well-wrapped lines. */
  lemma {:induction false} WrapCorrect(es: seq<Entry>, gap: real, limit: Option<real>)
    ensures Flatten(Wrap(es, gap, limit)) == es
    ensures WellWrapped(Wrap(es, gap, limit), gap, limit)
    decreases |es|
  {
    if es != [] {
      var e := es[|es| - 1];
      var p := es[..|es| - 1];
      assert es == p + [e];
      WrapCorrect(p, gap, limit);
      var ls := Wrap(p, gap, limit);
      if ls == [] {
        SingleLine(e, true, gap, limit);
        assert Flatten([Line([e], e.main, e.cross)]) == Flatten([]) + [e];
      } else if limit.Some? && ls[|ls| - 1].main + e.main + gap > limit.value {
        StepOpens(ls, e, gap, limit);
      } else {
        StepJoins(ls, e, gap, limit);
      }
    }
  }

  /** Without a limit, all entries go on a single line. */
  lemma WrapWithoutLimit(es: seq<Entry>, gap: real)
    requires es != []
    ensures Wrap(es, gap, None) == [Line(es, Extent(es, gap), CrossMax(es))]
  {
    WrapCorrect(es, gap, None);
    var ls := Wrap(es, gap, None);
    assert ls[..0] == [];
    assert Flatten(ls) == Flatten([]) + ls[0].entries;
    assert LineShape(ls[0], true, gap, None);
    assert |ls| == 1;
    assert ls[0].entries == es;
    assert ls == [ls[0]];
  }

  // -------------------------------------------------------------- FlexItems

  /** The FlexItem of a line: Width and Height are the main and cross sizes for Row, swapped for Column. */
  function ItemOf(l: Line, dir: FlexDirection): (r: FlexItem)
    ensures r.elements == Views(l.entries)
    ensures MainOf(Rect(0.0, 0.0, r.width, r.height), dir) == l.main
    ensures CrossOf(Rect(0.0, 0.0, r.width, r.height), dir) == l.cross
  {
    if dir == Row then FlexItem(Views(l.entries), l.main, l.cross)
    else FlexItem(Views(l.entries), l.cross, l.main)
  }

  /** The FlexItems of a sequence of lines. */
  function Items(ls: seq<Line>, dir: FlexDirection): (r: seq<FlexItem>)
    ensures |r| == |ls| && forall i :: 0 <= i < |ls| ==> r[i] == ItemOf(ls[i], dir)
  {
    seq(|ls|, i requires 0 <= i < |ls| => ItemOf(ls[i], dir))
  }

  /** The elements of all FlexItems, item after item. */
  function AllElements(items: seq<FlexItem>): seq<View>
  {
    if items == [] then [] else AllElements(items[..|items| - 1]) + items[|items| - 1].elements
  }

  /** The FlexItems of Wrap's lines hold exactly the views of the entries, in order. */
  lemma {:induction false} ItemsElements(ls: seq<Line>, dir: FlexDirection)
    ensures AllElements(Items(ls, dir)) == Views(Flatten(ls))
  {
    if ls != [] {
      var p := ls[..|ls| - 1];
      ItemsElements(p, dir);
      assert Items(ls, dir)[..|ls| - 1] == Items(p, dir);
      ViewsAppend(Flatten(p), ls[|ls| - 1].entries);
    }
  }

  lemma ViewsAppend(a: seq<Entry>, b: seq<Entry>)
    ensures Views(a + b) == Views(a) + Views(b)
  {
  }

  /** The main-axis limit ProcessFlexItems wraps at: the inner size, or none when not wrapping. */
  function WrapLimit(v: View): (r: Option<real>)
    reads v`flexDirection, v`flexWrap, v`specifyWidth, v`specifyHeight, v`inner
  {
    var specified := if v.flexDirection == Row then v.specifyWidth else v.specifyHeight;
    if v.flexWrap && specified then Some(MainOf(v.inner, v.flexDirection)) else None
  }

  /**
   * The loop of ProcessFlexItems over the flow elements (given with their
   * sizes): the first element opens the first line, and every further one
   * opens a new line or joins the last one as Step says.
   */
  method WrapElements(es: seq<Entry>, gap: real, limit: Option<real>) returns (lines: seq<Line>)
    requires es != []
    ensures lines == Wrap(es, gap, limit)
  {
    lines := [Line([es[0]], es[0].main, es[0].cross)];
    assert es[..1][..0] == [];
    var i := 1;
    while i < |es|
      invariant 1 <= i <= |es|
      invariant lines == Wrap(es[..i], gap, limit) && lines != []
    {
      var e := es[i];
      assert es[..i + 1][..i] == es[..i];
      ghost var next := Step(lines, e, gap, limit);
      var current := lines[|lines| - 1];
      if limit.Some? && current.main + e.main + gap > limit.value {
        lines := lines + [Line([e], e.main, Max(0.0, e.cross))];
      } else {
        lines := lines[..|lines| - 1] + [Line(current.entries + [e], current.main + e.main + gap, Max(current.cross, e.cross))];
      }
      assert lines == next;
      i := i + 1;
    }
    assert es[..i] == es;
  }

  /**
   * ProcessFlexItems. Unless the view is a flex container with at least one
   * flow element it returns at once, leaving FlexItems as they were (not even
   * cleared). Otherwise FlexItems becomes the lines of the flow elements,
   * wrapped at the inner main size when FlexWrap is set and the main axis is
   * specified, on a single line otherwise; the items hold every flow element
   * once, in order.
   */
  method ProcessFlexItems(v: View)
    modifies v`flexItems
    ensures v.display != Flexbox || v.flowElements == [] ==> v.flexItems == old(v.flexItems)
    ensures v.display == Flexbox && v.flowElements != [] ==>
      v.flexItems == Items(Wrap(old(Entries(v.flowElements, v.flexDirection)), MainGap(v.gap, v.flexDirection), old(WrapLimit(v))), v.flexDirection)
    ensures v.display == Flexbox && v.flowElements != [] ==> AllElements(v.flexItems) == v.flowElements
  {
    if v.display != Flexbox || |v.flowElements| == 0 {
      return;
    }
    var es := Entries(v.flowElements, v.flexDirection);
    var gap := MainGap(v.gap, v.flexDirection);
    var lines := WrapElements(es, gap, WrapLimit(v));
    WrapCorrect(es, gap, WrapLimit(v));
    ItemsElements(lines, v.flexDirection);
    assert Views(es) == v.flowElements;
    v.flexItems := Items(lines, v.flexDirection);
  }

  // -------------------------------------------------------------- placement

  /** The outer main sizes of a run of views. */
  function MainSizes(s: seq<View>, dir: FlexDirection): (r: seq<real>)
    reads s`outer
    ensures |r| == |s| && forall i :: 0 <= i < |s| ==> r[i] == MainOf(s[i].outer, dir)
  {
    if s == [] then [] else [MainOf(s[0].outer, dir)] + MainSizes(s[1..], dir)
  }

  /** The outer cross sizes of a run of views. */
  function CrossSizes(s: seq<View>, dir: FlexDirection): (r: seq<real>)
    reads s`outer
    ensures |r| == |s| && forall i :: 0 <= i < |s| ==> r[i] == CrossOf(s[i].outer, dir)
  {
    if s == [] then [] else [CrossOf(s[0].outer, dir)] + CrossSizes(s[1..], dir)
  }

  /**
   * How far an element of cross size `size` moves across a line whose
   * largest cross size is `max`: not at all for Start, half the difference
   * for Center, the whole difference for End.
   */
  function AlignOffset(align: CrossAxisAlignment, max: real, size: real): real
  {
    match align
    case Start => 0.0
    case Center => (max - size) / 2.0
    case End => max - size
  }

  /**
   * The shift FlexboxHPlacement (Row) and FlexboxVPlacement (Column) give
   * element k of a run whose outer main and cross sizes are `mains` and
   * `crosses`: along the main axis start plus the main sizes of the elements
   * before it, one gap after each; across it `cross` plus its alignment
   * offset within the run's largest cross size.
   */
  function Placement(mains: seq<real>, crosses: seq<real>, start: real, gap: real, cross: real,
                     align: CrossAxisAlignment, dir: FlexDirection, k: nat): Vec2
    requires k < |mains| && |crosses| == |mains|
  {
    Along(dir, start + StackOffset(mains, gap, k), cross + AlignOffset(align, MaxOf(crosses), crosses[k]))
  }

  /** The shifts of all elements of a run. */
  function Placements(mains: seq<real>, crosses: seq<real>, start: real, gap: real, cross: real,
                      align: CrossAxisAlignment, dir: FlexDirection): (r: seq<Vec2>)
    requires |crosses| == |mains|
    ensures |r| == |mains|
  {
    seq(|mains|, k requires 0 <= k < |mains| => Placement(mains, crosses, start, gap, cross, align, dir, k))
  }

  lemma PlacementsAt(mains: seq<real>, crosses: seq<real>, start: real, gap: real, cross: real,
                     align: CrossAxisAlignment, dir: FlexDirection, k: nat)
    requires k < |mains| && |crosses| == |mains|
    ensures Placements(mains, crosses, start, gap, cross, align, dir)[k] == Placement(mains, crosses, start, gap, cross, align, dir, k)
  {
  }

  /** The main-axis component of a vector: X for Row. */
  function MainPart(d: Vec2, dir: FlexDirection): real
  {
    if dir == Row then d.x else d.y
  }

  /** The cross-axis component of a vector: Y for Row. */
  function CrossPart(d: Vec2, dir: FlexDirection): real
  {
    if dir == Row then d.y else d.x
  }

  /**
   * Within a run, the first element moves to `start` along the main axis
   * and each next one follows the previous one's main size plus the gap.
   */
  lemma PlacementStacks(mains: seq<real>, crosses: seq<real>, start: real, gap: real, cross: real,
                        align: CrossAxisAlignment, dir: FlexDirection, k: nat)
    requires k < |mains| && |crosses| == |mains|
    ensures k == 0 ==> MainPart(Placement(mains, crosses, start, gap, cross, align, dir, 0), dir) == start
    ensures k + 1 < |mains| ==>
      MainPart(Placement(mains, crosses, start, gap, cross, align, dir, k + 1), dir) ==
      MainPart(Placement(mains, crosses, start, gap, cross, align, dir, k), dir) + mains[k] + gap
  {
  }

  /**
   * Across the main axis every element of a run stays inside the band from
   * `cross` to `cross` plus the run's largest cross size; Start puts it on
   * the near edge, End on the far edge, Center in the middle.
   */
  lemma PlacementWithinBand(mains: seq<real>, crosses: seq<real>, start: real, gap: real, cross: real,
                            align: CrossAxisAlignment, dir: FlexDirection, k: nat)
    requires k < |mains| && |crosses| == |mains|
    ensures
      var c := CrossPart(Placement(mains, crosses, start, gap, cross, align, dir, k), dir);
      cross <= c && c + crosses[k] <= cross + MaxOf(crosses) &&
      (align == CrossAxisAlignment.Start ==> c == cross) &&
      (align == CrossAxisAlignment.End ==> c + crosses[k] == cross + MaxOf(crosses)) &&
      (align == CrossAxisAlignment.Center ==> c - cross == cross + MaxOf(crosses) - (c + crosses[k]))
  {
  }

  /** The main-axis end of the last element of a run placed from `start`. */
  function RunEnd(mains: seq<real>, start: real, gap: real): real
    requires mains != []
  {
    start + StackOffset(mains, gap, |mains| - 1) + mains[|mains| - 1]
  }

  /**
   * Where ReflowFlexLayout starts a line along the main axis: at 0 for Start
   * and SpaceBetween, at the free space for End, at half of it for Center,
   * and at one even share of the space left by the elements for SpaceEvenly.
   */
  function LineStart(align: MainAxisAlignment, inner: real, lineMain: real, mains: seq<real>): real
  {
    match align
    case Start => 0.0
    case End => inner - lineMain
    case Center => (inner - lineMain) / 2.0
    case SpaceEvenly => (inner - Sum(mains)) / (|mains| as real + 1.0)
    case SpaceBetween => 0.0
  }

  /**
   * The gap ReflowFlexLayout places a line with: the container's main gap for
   * Start, End and Center; the space left by the elements shared out over
   * n + 1 gaps for SpaceEvenly and over n - 1 gaps for SpaceBetween. With a
   * single element the SpaceBetween division is by zero, but the one gap it
   * would give is never used, so it is taken to be 0.
   */
  function LineGap(align: MainAxisAlignment, inner: real, mains: seq<real>, gap: real): real
  {
    match align
    case Start => gap
    case End => gap
    case Center => gap
    case SpaceEvenly => (inner - Sum(mains)) / (|mains| as real + 1.0)
    case SpaceBetween => if |mains| <= 1 then 0.0 else (inner - Sum(mains)) / (|mains| as real - 1.0)
  }

  /** End: a line whose size is the extent of its elements ends flush with the inner edge. */
  lemma {:induction false} EndIsFlush(es: seq<Entry>, inner: real, gap: real)
    requires es != []
    ensures RunEnd(Mains(es), LineStart(MainAxisAlignment.End, inner, Extent(es, gap), Mains(es)), gap) == inner
  {
    ExtentIsStackEnd(es, gap);
  }

  /** Center: such a line leaves as much room after it as before it. */
  lemma {:induction false} CenterIsBalanced(es: seq<Entry>, inner: real, gap: real)
    requires es != []
    ensures
      var start := LineStart(MainAxisAlignment.Center, inner, Extent(es, gap), Mains(es));
      inner - RunEnd(Mains(es), start, gap) == start
  {
    ExtentIsStackEnd(es, gap);
  }

  /** SpaceEvenly: the first element starts one gap in, and the last ends one gap before the inner edge. */
  lemma {:induction false} SpaceEvenlyIsBalanced(mains: seq<real>, inner: real, lineMain: real, gap: real)
    requires mains != []
    ensures
      var g := LineGap(MainAxisAlignment.SpaceEvenly, inner, mains, gap);
      LineStart(MainAxisAlignment.SpaceEvenly, inner, lineMain, mains) == g &&
      RunEnd(mains, g, g) + g == inner
  {
    var n := |mains|;
    var g := LineGap(MainAxisAlignment.SpaceEvenly, inner, mains, gap);
    StackOffsetIsSum(mains, g, n - 1);
    SumSplitLast(mains);
    assert (n as real + 1.0) * g == inner - Sum(mains);
  }

  /** SpaceBetween: with two or more elements, the first starts at 0 and the last ends flush with the inner edge. */
  lemma {:induction false} SpaceBetweenIsFlush(mains: seq<real>, inner: real, lineMain: real, gap: real)
    requires |mains| >= 2
    ensures
      var g := LineGap(MainAxisAlignment.SpaceBetween, inner, mains, gap);
      RunEnd(mains, LineStart(MainAxisAlignment.SpaceBetween, inner, lineMain, mains), g) == inner
  {
    var n := |mains|;
    var g := LineGap(MainAxisAlignment.SpaceBetween, inner, mains, gap);
    StackOffsetIsSum(mains, g, n - 1);
    SumSplitLast(mains);
    assert (n as real - 1.0) * g == inner - Sum(mains);
  }

  /** The sum of a non-empty sequence is the sum of all but its last element plus the last. */
  lemma SumSplitLast(s: seq<real>)
    requires s != []
    ensures Sum(s) == Sum(s[..|s| - 1]) + s[|s| - 1]
  {
  }

  /** A line's main size is the sum of its elements' main sizes plus one gap fewer than there are elements. */
  lemma {:induction false} ExtentIsSum(es: seq<Entry>, gap: real)
    requires es != []
    ensures Extent(es, gap) == Sum(Mains(es)) + (|es| as real - 1.0) * gap
  {
    var n := |es|;
    ExtentIsStackEnd(es, gap);
    StackOffsetIsSum(Mains(es), gap, n - 1);
    SumSplitLast(Mains(es));
  }

  /**
   * The placement loop shared by FlexboxHPlacement and FlexboxVPlacement,
   * over a run whose outer sizes were read beforehand: each element is
   * moved through the Position setter by its shift of Placement.
   */
  method PlaceSizes(elements: seq<View>, mains: seq<real>, crosses: seq<real>, start: real, gap: real,
                    cross: real, align: CrossAxisAlignment, dir: FlexDirection)
    requires Distinct(elements) && |mains| == |elements| && |crosses| == |elements|
    modifies elements`position, elements`positionChanged
    ensures forall k :: 0 <= k < |elements| ==>
      Shifted(elements[k].position, elements[k].positionChanged,
        old(elements[k].position), old(elements[k].positionChanged),
        Placement(mains, crosses, start, gap, cross, align, dir, k))
  {
    if |elements| == 0 {
      return;
    }
    ghost var shifts := Placements(mains, crosses, start, gap, cross, align, dir);
    var maxCross := MaxOf(crosses);
    var current := start;
    var i := 0;
    while i < |elements|
      invariant 0 <= i <= |elements|
      invariant current == start + StackOffset(mains, gap, i)
      invariant forall k :: 0 <= k < i ==>
        Shifted(elements[k].position, elements[k].positionChanged,
          old(elements[k].position), old(elements[k].positionChanged), shifts[k])
      invariant forall k :: i <= k < |elements| ==>
        elements[k].position == old(elements[k].position) &&
        elements[k].positionChanged == old(elements[k].positionChanged)
    {
      var element := elements[i];
      PlacementsAt(mains, crosses, start, gap, cross, align, dir, i);
      Shift(element, Along(dir, current, cross + AlignOffset(align, maxCross, crosses[i])));
      current := current + mains[i] + gap;
      i := i + 1;
    }
    forall k | 0 <= k < |elements|
      ensures shifts[k] == Placement(mains, crosses, start, gap, cross, align, dir, k)
    {
      PlacementsAt(mains, crosses, start, gap, cross, align, dir, k);
    }
  }

  /** A run placed along `dir` from its current outer sizes. */
  method PlaceRun(elements: seq<View>, start: real, gap: real, cross: real,
                  align: CrossAxisAlignment, dir: FlexDirection)
    requires Distinct(elements)
    modifies elements`position, elements`positionChanged
    ensures forall k :: 0 <= k < |elements| ==>
      Shifted(elements[k].position, elements[k].positionChanged,
        old(elements[k].position), old(elements[k].positionChanged),
        Placement(old(MainSizes(elements, dir)), old(CrossSizes(elements, dir)), start, gap, cross, align, dir, k))
  {
    var mains := MainSizes(elements, dir);
    var crosses := CrossSizes(elements, dir);
    PlaceSizes(elements, mains, crosses, start, gap, cross, align, dir);
  }

  /** FlexboxHPlacement: a Row run placed with the view's cross axis alignment. */
  method FlexboxHPlacement(v: View, elements: seq<View>, start: real, gap: real, cross: real)
    requires Distinct(elements)
    modifies elements`position, elements`positionChanged
    ensures forall k :: 0 <= k < |elements| ==>
      Shifted(elements[k].position, elements[k].positionChanged,
        old(elements[k].position), old(elements[k].positionChanged),
        Placement(old(MainSizes(elements, Row)), old(CrossSizes(elements, Row)), start, gap, cross,
          old(v.crossAxisAlignment), Row, k))
  {
    PlaceRun(elements, start, gap, cross, v.crossAxisAlignment, Row);
  }

  /** FlexboxVPlacement: a Column run placed with the view's cross axis alignment. */
  method FlexboxVPlacement(v: View, elements: seq<View>, start: real, gap: real, cross: real)
    requires Distinct(elements)
    modifies elements`position, elements`positionChanged
    ensures forall k :: 0 <= k < |elements| ==>
      Shifted(elements[k].position, elements[k].positionChanged,
        old(elements[k].position), old(elements[k].positionChanged),
        Placement(old(MainSizes(elements, Column)), old(CrossSizes(elements, Column)), start, gap, cross,
          old(v.crossAxisAlignment), Column, k))
  {
    PlaceRun(elements, start, gap, cross, v.crossAxisAlignment, Column);
  }

  // ------------------------------------------------------- ReflowFlexLayout

  /** Whether the container's size along its main axis is specified. */
  function MainSpecified(v: View): bool
    reads v`flexDirection, v`specifyWidth, v`specifyHeight
  {
    if v.flexDirection == Row then v.specifyWidth else v.specifyHeight
  }

  /** The main size of a FlexItem: its Width for Row, its Height for Column. */
  function ItemMain(item: FlexItem, dir: FlexDirection): real
  {
    if dir == Row then item.width else item.height
  }

  /** The cross size of a FlexItem: its Height for Row, its Width for Column. */
  function ItemCross(item: FlexItem, dir: FlexDirection): real
  {
    if dir == Row then item.height else item.width
  }

  /** The main sizes of a sequence of FlexItems. */
  function ItemMains(items: seq<FlexItem>, dir: FlexDirection): (r: seq<real>)
    ensures |r| == |items| && forall i :: 0 <= i < |items| ==> r[i] == ItemMain(items[i], dir)
  {
    seq(|items|, i requires 0 <= i < |items| => ItemMain(items[i], dir))
  }

  /** The cross sizes of a sequence of FlexItems. */
  function ItemCrosses(items: seq<FlexItem>, dir: FlexDirection): (r: seq<real>)
    ensures |r| == |items| && forall i :: 0 <= i < |items| ==> r[i] == ItemCross(items[i], dir)
  {
    seq(|items|, i requires 0 <= i < |items| => ItemCross(items[i], dir))
  }

  /** The views held by a sequence of FlexItems. */
  ghost function Members(items: seq<FlexItem>): set<View>
  {
    set i, k | 0 <= i < |items| && 0 <= k < |items[i].elements| :: items[i].elements[k]
  }

  /** Every view of a FlexItem is in AllElements. */
  lemma MembersInAllElements(items: seq<FlexItem>)
    ensures forall x <- Members(items) :: x in AllElements(items)
  {
    forall x | x in Members(items)
      ensures x in AllElements(items)
    {
      var i, k :| 0 <= i < |items| && 0 <= k < |items[i].elements| && items[i].elements[k] == x;
      InAllElements(items, i, k);
    }
  }

  /** The outer main sizes of the elements of every FlexItem. */
  function LineMains(items: seq<FlexItem>, dir: FlexDirection): (r: seq<seq<real>>)
    reads Members(items)`outer
    ensures |r| == |items| && forall i :: 0 <= i < |items| ==> r[i] == MainSizes(items[i].elements, dir)
  {
    if items == [] then []
    else
      assert forall i, k :: 0 <= i < |items| - 1 && 0 <= k < |items[1..][i].elements| ==>
        items[1..][i].elements[k] == items[i + 1].elements[k];
      [MainSizes(items[0].elements, dir)] + LineMains(items[1..], dir)
  }

  /** The outer cross sizes of the elements of every FlexItem. */
  function LineCrosses(items: seq<FlexItem>, dir: FlexDirection): (r: seq<seq<real>>)
    reads Members(items)`outer
    ensures |r| == |items| && forall i :: 0 <= i < |items| ==> r[i] == CrossSizes(items[i].elements, dir)
  {
    if items == [] then []
    else
      assert forall i, k :: 0 <= i < |items| - 1 && 0 <= k < |items[1..][i].elements| ==>
        items[1..][i].elements[k] == items[i + 1].elements[k];
      [CrossSizes(items[0].elements, dir)] + LineCrosses(items[1..], dir)
  }

  /** Every element is held by one FlexItem only, and once. */
  ghost predicate Separate(items: seq<FlexItem>)
  {
    (forall i :: 0 <= i < |items| ==> Distinct(items[i].elements)) &&
    (forall i, j, k :: 0 <= i < |items| && 0 <= j < |items| && i != j && 0 <= k < |items[i].elements| ==>
       items[i].elements[k] !in items[j].elements)
  }

  /** Every element of a FlexItem is among AllElements. */
  lemma {:induction false} InAllElements(items: seq<FlexItem>, i: nat, k: nat)
    requires i < |items| && k < |items[i].elements|
    ensures items[i].elements[k] in AllElements(items)
    decreases |items|
  {
    if i < |items| - 1 {
      var p := items[..|items| - 1];
      assert p[i] == items[i];
      InAllElements(p, i, k);
    }
  }

  /** When AllElements lists no view twice, the FlexItems are separate. */
  lemma {:induction false} DistinctSeparate(items: seq<FlexItem>)
    requires Distinct(AllElements(items))
    ensures Separate(items)
    decreases |items|
  {
    if items != [] {
      var n := |items| - 1;
      var p := items[..n];
      var a := AllElements(p);
      var b := items[n].elements;
      assert AllElements(items) == a + b;
      assert forall x :: 0 <= x < |a| ==> (a + b)[x] == a[x];
      assert forall y :: 0 <= y < |b| ==> (a + b)[|a| + y] == b[y];
      DistinctSeparate(p);
      forall i, k, l | 0 <= i < n && 0 <= k < |items[i].elements| && 0 <= l < |b|
        ensures items[i].elements[k] != b[l]
      {
        assert p[i] == items[i];
        InAllElements(p, i, k);
        var x :| 0 <= x < |a| && a[x] == items[i].elements[k];
        assert (a + b)[x] != (a + b)[|a| + l];
      }
      assert forall i :: 0 <= i < n ==> p[i] == items[i];
    }
  }

  /**
   * Where ReflowFlexLayout moves element k of FlexItem i when the main size
   * is specified: the line is placed along the main axis from LineStart with
   * LineGap, and across it from the cross sizes of the lines before it, one
   * cross gap after each.
   */
  function LinePlacement(items: seq<FlexItem>, mains: seq<seq<real>>, crosses: seq<seq<real>>,
                         inner: real, gap: real, crossGap: real,
                         mainAlign: MainAxisAlignment, crossAlign: CrossAxisAlignment,
                         dir: FlexDirection, i: nat, k: nat): Vec2
    requires i < |items| && |mains| == |items| && |crosses| == |items|
    requires k < |mains[i]| && |crosses[i]| == |mains[i]|
  {
    Placement(mains[i], crosses[i],
      LineStart(mainAlign, inner, ItemMain(items[i], dir), mains[i]),
      LineGap(mainAlign, inner, mains[i], gap),
      StackOffset(ItemCrosses(items, dir), crossGap, i), crossAlign, dir, k)
  }

  /** The sizes given for the FlexItems fit their elements. */
  predicate SizesFit(items: seq<FlexItem>, mains: seq<seq<real>>, crosses: seq<seq<real>>)
  {
    |mains| == |items| && |crosses| == |items| &&
    forall i :: 0 <= i < |items| ==> |mains[i]| == |items[i].elements| && |crosses[i]| == |items[i].elements|
  }

  /**
   * One pass of ReflowFlexLayout's loop: FlexItem i placed as a run from its
   * LineStart with its LineGap at the cross offset `cross` the loop has
   * reached; the elements of the other FlexItems do not move.
   */
  method PlaceLine(items: seq<FlexItem>, mains: seq<seq<real>>, crosses: seq<seq<real>>,
                   inner: real, gap: real, crossGap: real,
                   mainAlign: MainAxisAlignment, crossAlign: CrossAxisAlignment, dir: FlexDirection,
                   i: nat, cross: real)
    requires Separate(items) && SizesFit(items, mains, crosses) && i < |items|
    requires cross == StackOffset(ItemCrosses(items, dir), crossGap, i)
    modifies items[i].elements`position, items[i].elements`positionChanged
    ensures forall k :: 0 <= k < |items[i].elements| ==>
      Shifted(items[i].elements[k].position, items[i].elements[k].positionChanged,
        old(items[i].elements[k].position), old(items[i].elements[k].positionChanged),
        LinePlacement(items, mains, crosses, inner, gap, crossGap, mainAlign, crossAlign, dir, i, k))
    ensures forall j, k :: 0 <= j < |items| && j != i && 0 <= k < |items[j].elements| ==>
      items[j].elements[k].position == old(items[j].elements[k].position) &&
      items[j].elements[k].positionChanged == old(items[j].elements[k].positionChanged)
  {
    var item := items[i];
    PlaceSizes(item.elements, mains[i], crosses[i],
      LineStart(mainAlign, inner, ItemMain(item, dir), mains[i]),
      LineGap(mainAlign, inner, mains[i], gap), cross, crossAlign, dir);
  }

  /**
   * The loop of ReflowFlexLayout over the FlexItems when the main size is
   * specified, with the outer sizes of their elements read beforehand.
   */
  method PlaceLines(items: seq<FlexItem>, mains: seq<seq<real>>, crosses: seq<seq<real>>,
                    inner: real, gap: real, crossGap: real,
                    mainAlign: MainAxisAlignment, crossAlign: CrossAxisAlignment, dir: FlexDirection)
    requires Separate(items) && SizesFit(items, mains, crosses)
    modifies Members(items)`position, Members(items)`positionChanged
    ensures forall i, k :: 0 <= i < |items| && 0 <= k < |items[i].elements| ==>
      Shifted(items[i].elements[k].position, items[i].elements[k].positionChanged,
        old(items[i].elements[k].position), old(items[i].elements[k].positionChanged),
        LinePlacement(items, mains, crosses, inner, gap, crossGap, mainAlign, crossAlign, dir, i, k))
  {
    var currentCross := 0.0;
    var i := 0;
    while i < |items|
      invariant 0 <= i <= |items|
      invariant currentCross == StackOffset(ItemCrosses(items, dir), crossGap, i)
      invariant forall j, k :: 0 <= j < i && 0 <= k < |items[j].elements| ==>
        Shifted(items[j].elements[k].position, items[j].elements[k].positionChanged,
          old(items[j].elements[k].position), old(items[j].elements[k].positionChanged),
          LinePlacement(items, mains, crosses, inner, gap, crossGap, mainAlign, crossAlign, dir, j, k))
      invariant forall j, k :: i <= j < |items| && 0 <= k < |items[j].elements| ==>
        items[j].elements[k].position == old(items[j].elements[k].position) &&
        items[j].elements[k].positionChanged == old(items[j].elements[k].positionChanged)
    {
      assert forall k :: 0 <= k < |items[i].elements| ==> items[i].elements[k] in Members(items);
      PlaceLine(items, mains, crosses, inner, gap, crossGap, mainAlign, crossAlign, dir, i, currentCross);
      currentCross := currentCross + ItemCross(items[i], dir) + crossGap;
      i := i + 1;
    }
  }

  /**
   * ReflowFlexLayout. When the container's main size is not specified, all
   * flow elements are placed as one run from 0 with the main gap and the
   * view's cross axis alignment. Otherwise each FlexItem is placed as a run
   * by the main axis alignment (LineStart, LineGap), the lines stacked
   * across the main axis one cross gap apart. Only positions change, and
   * only those of the elements placed.
   */
  method ReflowFlexLayout(v: View)
    requires Distinct(v.flowElements) && Distinct(AllElements(v.flexItems))
    modifies v.flowElements`position, v.flowElements`positionChanged
    modifies Members(v.flexItems)`position, Members(v.flexItems)`positionChanged
    ensures
      var elements, dir := old(v.flowElements), old(v.flexDirection);
      !old(MainSpecified(v)) ==> forall k :: 0 <= k < |elements| ==>
        Shifted(elements[k].position, elements[k].positionChanged,
          old(elements[k].position), old(elements[k].positionChanged),
          Placement(old(MainSizes(elements, dir)), old(CrossSizes(elements, dir)),
            0.0, MainGap(old(v.gap), dir), 0.0, old(v.crossAxisAlignment), dir, k))
    ensures !old(MainSpecified(v)) ==> forall x :: x in old(Members(v.flexItems)) && x !in old(v.flowElements) ==>
      x.position == old(x.position) && x.positionChanged == old(x.positionChanged)
    ensures
      var items, dir := old(v.flexItems), old(v.flexDirection);
      old(MainSpecified(v)) ==> forall i, k :: 0 <= i < |items| && 0 <= k < |items[i].elements| ==>
        Shifted(items[i].elements[k].position, items[i].elements[k].positionChanged,
          old(items[i].elements[k].position), old(items[i].elements[k].positionChanged),
          LinePlacement(items, old(LineMains(items, dir)), old(LineCrosses(items, dir)),
            MainOf(old(v.inner), dir), MainGap(old(v.gap), dir), CrossGap(old(v.gap), dir),
            old(v.mainAxisAlignment), old(v.crossAxisAlignment), dir, i, k))
    ensures old(MainSpecified(v)) ==> forall x :: x in old(v.flowElements) && x !in old(Members(v.flexItems)) ==>
      x.position == old(x.position) && x.positionChanged == old(x.positionChanged)
  {
    var dir := v.flexDirection;
    if !MainSpecified(v) {
      PlaceRun(v.flowElements, 0.0, MainGap(v.gap, dir), 0.0, v.crossAxisAlignment, dir);
    } else {
      DistinctSeparate(v.flexItems);
      var mains := LineMains(v.flexItems, dir);
      var crosses := LineCrosses(v.flexItems, dir);
      PlaceLines(v.flexItems, mains, crosses, MainOf(v.inner, dir), MainGap(v.gap, dir), CrossGap(v.gap, dir),
        v.mainAxisAlignment, v.crossAxisAlignment, dir);
    }
  }

  /**
   * With non-negative cross gap and line cross sizes, and each line at
   * least as thick as its thickest element (as ProcessFlexItems makes
   * them), an element of an earlier line ends across the main axis before
   * any element of a later line begins: the lines do not overlap.
   */
  lemma LinesDoNotOverlap(items: seq<FlexItem>, mains: seq<seq<real>>, crosses: seq<seq<real>>,
                          inner: real, gap: real, crossGap: real,
                          mainAlign: MainAxisAlignment, crossAlign: CrossAxisAlignment,
                          dir: FlexDirection, i: nat, k: nat, j: nat, l: nat)
    requires SizesFit(items, mains, crosses) && crossGap >= 0.0
    requires forall m :: 0 <= m < |items| ==> ItemCross(items[m], dir) >= 0.0
    requires forall m :: 0 <= m < |items| && crosses[m] != [] ==> MaxOf(crosses[m]) <= ItemCross(items[m], dir)
    requires i < j < |items| && k < |items[i].elements| && l < |items[j].elements|
    ensures
      CrossPart(LinePlacement(items, mains, crosses, inner, gap, crossGap, mainAlign, crossAlign, dir, i, k), dir) + crosses[i][k] <=
      CrossPart(LinePlacement(items, mains, crosses, inner, gap, crossGap, mainAlign, crossAlign, dir, j, l), dir)
  {
    var cs := ItemCrosses(items, dir);
    StackedBoxesDoNotOverlap(cs, crossGap, i, j);
    PlacementWithinBand(mains[i], crosses[i], LineStart(mainAlign, inner, ItemMain(items[i], dir), mains[i]),
      LineGap(mainAlign, inner, mains[i], gap), StackOffset(cs, crossGap, i), crossAlign, dir, k);
    PlacementWithinBand(mains[j], crosses[j], LineStart(mainAlign, inner, ItemMain(items[j], dir), mains[j]),
      LineGap(mainAlign, inner, mains[j], gap), StackOffset(cs, crossGap, j), crossAlign, dir, l);
  }

  // --------------------------------------------------------- GetFlexboxSize

  /**
   * GetFlexboxSize: zero without FlexItems; otherwise the largest item main
   * size along the main axis and, across it, the items' cross sizes each
   * followed by the cross gap, less one gap.
   */
  function GetFlexboxSize(v: View): (r: Vec2)
    reads v`flexItems, v`flexDirection, v`gap
    ensures v.flexItems == [] ==> r == Zero
  {
    if v.flexItems == [] then Zero
    else
      var dir := v.flexDirection;
      var g := CrossGap(v.gap, dir);
      Along(dir, MaxOf(ItemMains(v.flexItems, dir)), StackOffset(ItemCrosses(v.flexItems, dir), g, |v.flexItems|) - g)
  }

  /**
   * The size GetFlexboxSize reports spans the lines as ReflowFlexLayout
   * stacks them: across the main axis it reaches exactly the far edge of
   * the last line, and along it it is the main size of the longest line.
   */
  lemma FlexboxSizeSpansLines(v: View)
    requires v.flexItems != []
    ensures
      var dir := v.flexDirection;
      var n := |v.flexItems|;
      var cs := ItemCrosses(v.flexItems, dir);
      CrossPart(GetFlexboxSize(v), dir) == StackOffset(cs, CrossGap(v.gap, dir), n - 1) + cs[n - 1] &&
      (forall i :: 0 <= i < n ==> ItemMain(v.flexItems[i], dir) <= MainPart(GetFlexboxSize(v), dir)) &&
      (exists i :: 0 <= i < n && ItemMain(v.flexItems[i], dir) == MainPart(GetFlexboxSize(v), dir))
  {
    MaxOfAttained(ItemMains(v.flexItems, v.flexDirection));
  }
}
