/**
 * View.Flex.cs: the older flex layout. After the elements are classified,
 * CalculateFlexLayout moves the relative elements along the main axis as one
 * run without wrapping: each one by a first offset plus the outer sizes of
 * the elements before it and one step each. The main-axis alignment picks
 * the first offset and the step; every alignment but Start leaves the run
 * where it is when the view does not specify its main-axis size.
 */
module ViewFlex {
  import opened HostTypes
  import opened ViewNode
  import opened UIElementExtensions
  import opened ViewNonVirtualMethods
  import opened ViewLayoutFlow
  import L = ViewFlexTypes

  /** Where a run starts and how far apart its boxes are. */
  datatype Spacing = Spacing(first: real, step: real)

  /**
   * The spacing CalculateFlexLayout uses for a run of boxes of the given
   * main-axis sizes in an inner extent, or None when it moves nothing.
   * End and Center place the run of sizes joined by `gap`; SpaceEvenly
   * shares the free space into n + 1 equal gaps; SpaceBetween shares it
   * into n - 1, starting at 0. With one element or none SpaceBetween's step
   * is never used to place a box, so it is written 0 here.
   */
  function RunSpacing(align: L.MainAxisAlign, specified: bool, inner: real, sizes: seq<real>, gap: real): Option<Spacing>
  {
    var n := |sizes| as real;
    if align == L.MainAxisAlign.Start then Some(Spacing(0.0, gap))
    else if !specified then None
    else match align
      case End => Some(Spacing(inner - (StackOffset(sizes, gap, |sizes|) - gap), gap))
      case Center => Some(Spacing((inner - (StackOffset(sizes, gap, |sizes|) - gap)) / 2.0, gap))
      case SpaceEvenly =>
        var step := (inner - Sum(sizes)) / (n + 1.0);
        Some(Spacing(step, step))
      case SpaceBetween => Some(Spacing(0.0, if |sizes| > 1 then (inner - Sum(sizes)) / (n - 1.0) else 0.0))
  }

  /** Where box i of a run starts along the main axis, relative to where it was. */
  function BoxOffset(s: Spacing, sizes: seq<real>, i: nat): real
    requires i <= |sizes|
  {
    s.first + StackOffset(sizes, s.step, i)
  }

  /** Where the last box of a non-empty run ends, relative to the run's origin. */
  function RunEnd(s: Spacing, sizes: seq<real>): real
    requires |sizes| > 0
  {
    BoxOffset(s, sizes, |sizes| - 1) + sizes[|sizes| - 1]
  }

  /** The sizes of a run, split before its last box. */
  lemma {:induction false} RunEndIsSum(s: Spacing, sizes: seq<real>)
    requires |sizes| > 0
    ensures RunEnd(s, sizes) == s.first + Sum(sizes) + (|sizes| as real - 1.0) * s.step
  {
    var n := |sizes|;
    StackOffsetIsSum(sizes, s.step, n - 1);
    assert sizes[..n - 1] == sizes[..|sizes| - 1];
  }

  /** Start lays the boxes one after the other from offset 0, specified axis or not. */
  lemma StartRunStacks(specified: bool, inner: real, sizes: seq<real>, gap: real)
    ensures RunSpacing(L.MainAxisAlign.Start, specified, inner, sizes, gap) == Some(Spacing(0.0, gap))
    ensures forall i :: 0 <= i <= |sizes| ==> BoxOffset(Spacing(0.0, gap), sizes, i) == StackOffset(sizes, gap, i)
  {
  }

  /** Every other alignment moves nothing when the main-axis size is not specified. */
  lemma UnspecifiedRunStays(align: L.MainAxisAlign, inner: real, sizes: seq<real>, gap: real)
    requires align != L.MainAxisAlign.Start
    ensures RunSpacing(align, false, inner, sizes, gap) == None
  {
  }

  /** End: the last box ends exactly at the inner edge. */
  lemma EndRunEndsAtInnerEdge(inner: real, sizes: seq<real>, gap: real)
    requires |sizes| > 0
    ensures RunSpacing(L.MainAxisAlign.End, true, inner, sizes, gap).Some?
    ensures RunEnd(RunSpacing(L.MainAxisAlign.End, true, inner, sizes, gap).value, sizes) == inner
  {
    var s := RunSpacing(L.MainAxisAlign.End, true, inner, sizes, gap).value;
    RunEndIsSum(s, sizes);
    StackOffsetIsSum(sizes, gap, |sizes|);
    assert sizes[..|sizes|] == sizes;
  }

  /** Center: the space before the first box equals the space after the last. */
  lemma CenterRunIsCentred(inner: real, sizes: seq<real>, gap: real)
    requires |sizes| > 0
    ensures RunSpacing(L.MainAxisAlign.Center, true, inner, sizes, gap).Some?
    ensures var s := RunSpacing(L.MainAxisAlign.Center, true, inner, sizes, gap).value;
      s.first == inner - RunEnd(s, sizes)
  {
    var s := RunSpacing(L.MainAxisAlign.Center, true, inner, sizes, gap).value;
    RunEndIsSum(s, sizes);
    StackOffsetIsSum(sizes, gap, |sizes|);
    assert sizes[..|sizes|] == sizes;
  }

  /** SpaceEvenly: the space before the first box, between boxes and after the last is the same. */
  lemma SpaceEvenlyRunHasEqualGaps(inner: real, sizes: seq<real>, gap: real)
    requires |sizes| > 0
    ensures RunSpacing(L.MainAxisAlign.SpaceEvenly, true, inner, sizes, gap).Some?
    ensures var s := RunSpacing(L.MainAxisAlign.SpaceEvenly, true, inner, sizes, gap).value;
      s.first == s.step && inner - RunEnd(s, sizes) == s.step &&
      s.step == (inner - Sum(sizes)) / (|sizes| as real + 1.0)
  {
    var s := RunSpacing(L.MainAxisAlign.SpaceEvenly, true, inner, sizes, gap).value;
    RunEndIsSum(s, sizes);
  }

  /** SpaceBetween: with two boxes or more the first starts at 0 and the last ends at the inner edge. */
  lemma SpaceBetweenRunIsFlush(inner: real, sizes: seq<real>, gap: real)
    requires |sizes| > 1
    ensures RunSpacing(L.MainAxisAlign.SpaceBetween, true, inner, sizes, gap).Some?
    ensures var s := RunSpacing(L.MainAxisAlign.SpaceBetween, true, inner, sizes, gap).value;
      s.first == 0.0 && RunEnd(s, sizes) == inner
  {
    var s := RunSpacing(L.MainAxisAlign.SpaceBetween, true, inner, sizes, gap).value;
    RunEndIsSum(s, sizes);
  }

  /** A rectangle moved along the main axis: X for a row, Y for a column. */
  function MovedOn(r: Rect, row: bool, d: real): Rect
  {
    if row then MovedX(r, d) else MovedY(r, d)
  }

  /** The main-axis outer sizes of a run. */
  function MainSizes(es: seq<View>, row: bool): (r: seq<real>)
    reads es`outer
    ensures |r| == |es| && forall i :: 0 <= i < |es| ==> r[i] == if row then es[i].outer.width else es[i].outer.height
  {
    if row then OuterWidths(es) else OuterHeights(es)
  }

  /** The three rectangles of a node. */
  datatype Frames = Frames(outer: Rect, dims: Rect, inner: Rect)

  function FramesOf(m: View): Frames
    reads m`outer, m`dims, m`inner
  {
    Frames(m.outer, m.dims, m.inner)
  }

  /** The three rectangles of f moved along the main axis by d. */
  function FramesMoved(f: Frames, row: bool, d: real): Frames
  {
    Frames(MovedOn(f.outer, row, d), MovedOn(f.dims, row, d), MovedOn(f.inner, row, d))
  }

  /**
   * The foreach loop of CalculateFlexLayout: the subtree of box i moves along
   * the main axis by `first` plus the sizes of the boxes before it and one
   * step each (OffsetX or OffsetY); nothing else moves.
   */
  method ShiftRun(es: seq<View>, sizes: seq<real>, s: Spacing, row: bool)
    requires forall e <- es :: e.Valid()
    requires Disjoint(es) && |sizes| == |es|
    modifies Union(es)`outer, Union(es)`dims, Union(es)`inner
    ensures forall i :: 0 <= i < |es| ==> forall m <- es[i].Repr ::
      FramesOf(m) == FramesMoved(old(FramesOf(m)), row, BoxOffset(s, sizes, i))
  {
    ghost var offsets := seq(|es| + 1, k requires 0 <= k <= |es| => BoxOffset(s, sizes, k));
    ghost var before := map m | m in Union(es) :: FramesOf(m);
    forall k | 0 <= k < |es| ensures es[k].Repr <= before.Keys {
      UnionContains(es, k);
    }
    var current := s.first;
    var i := 0;
    while i < |es|
      invariant 0 <= i <= |es|
      invariant current == offsets[i]
      invariant forall k :: 0 <= k < i ==> forall m <- es[k].Repr :: FramesOf(m) == FramesMoved(before[m], row, offsets[k])
      invariant forall k :: i <= k < |es| ==> forall m <- es[k].Repr :: FramesOf(m) == before[m]
    {
      ShiftAt(es, i, current, row, before, offsets);
      assert offsets[i + 1] == current + sizes[i] + s.step;
      current := current + sizes[i] + s.step;
      i := i + 1;
    }
  }

  /** One pass of that loop: box i moves by offsets[i], the boxes before it stay moved, those after it stay put. */
  method ShiftAt(es: seq<View>, i: nat, current: real, row: bool, ghost before: map<View, Frames>, ghost offsets: seq<real>)
    requires forall e <- es :: e.Valid()
    requires Disjoint(es) && i < |es| < |offsets| && current == offsets[i]
    requires forall k :: 0 <= k < |es| ==> es[k].Repr <= before.Keys
    requires forall k :: 0 <= k < i ==> forall m <- es[k].Repr :: FramesOf(m) == FramesMoved(before[m], row, offsets[k])
    requires forall k :: i <= k < |es| ==> forall m <- es[k].Repr :: FramesOf(m) == before[m]
    modifies Union(es)`outer, Union(es)`dims, Union(es)`inner
    ensures forall k :: 0 <= k < i + 1 ==> forall m <- es[k].Repr :: FramesOf(m) == FramesMoved(before[m], row, offsets[k])
    ensures forall k :: i + 1 <= k < |es| ==> forall m <- es[k].Repr :: FramesOf(m) == before[m]
  {
    forall k | 0 <= k < |es| && k != i ensures es[i].Repr !! es[k].Repr {
      if k < i { DisjointAt(es, k, i); } else { DisjointAt(es, i, k); }
    }
    UnionContains(es, i);
    ShiftBox(es[i], current, row);
  }

  /** One box of the run: OffsetX on a row, OffsetY on a column. */
  method ShiftBox(e: View, d: real, row: bool)
    requires e.Valid()
    modifies e.Repr`outer, e.Repr`dims, e.Repr`inner
    ensures forall m <- e.Repr :: FramesOf(m) == FramesMoved(old(FramesOf(m)), row, d)
  {
    if row {
      OffsetX(e, d);
    } else {
      OffsetY(e, d);
    }
  }

  /** The relative elements after classification are disjoint subtrees below the view. */
  lemma {:induction false} FlowOfDisjoint(ks: seq<View>)
    requires forall c <- ks :: c.Valid()
    requires Disjoint(ks)
    ensures forall e <- FlowOf(ks) :: e in ks
    ensures Disjoint(FlowOf(ks)) && Union(FlowOf(ks)) <= Union(ks)
  {
    if ks != [] {
      var front := ks[..|ks| - 1];
      FlowOfDisjoint(front);
      var f, last := FlowOf(ks), ks[|ks| - 1];
      assert Union(front) !! last.Repr && Union(ks) == Union(front) + last.Repr;
      if InFlow(last) {
        assert f[..|f| - 1] == FlowOf(front) && f[|f| - 1] == last;
        assert Union(f) == Union(FlowOf(front)) + last.Repr;
      } else {
        assert f == FlowOf(front);
      }
    }
  }

  /** The spacing of a view's run. */
  function ViewSpacing(v: View): Option<Spacing>
    reads v`legacyFlexDirection, v`mainAxisAlign, v`specifyWidth, v`specifyHeight, v`inner, v`gap
    reads v`flowElements, v.flowElements`outer
  {
    var row := v.legacyFlexDirection == L.FlexDirection.Row;
    RunSpacing(v.mainAxisAlign, if row then v.specifyWidth else v.specifyHeight,
               if row then v.inner.width else v.inner.height, MainSizes(v.flowElements, row),
               if row then v.gap.x else v.gap.y)
  }

  /**
   * CalculateFlexLayout, once ClassifyElements has filled the relative
   * elements: with the view's spacing, the subtree of relative element i
   * moves along the main axis by BoxOffset i of the run of their outer
   * sizes; without one, nothing moves.
   */
  method CalculateFlexLayout(v: View)
    requires v.Valid() && v.flowElements == FlowOf(v.elements)
    modifies Union(v.flowElements)`outer, Union(v.flowElements)`dims, Union(v.flowElements)`inner
    ensures old(ViewSpacing(v)).None? ==>
      forall i :: 0 <= i < |v.flowElements| ==> forall m <- v.flowElements[i].Repr :: FramesOf(m) == old(FramesOf(m))
    ensures old(ViewSpacing(v)).Some? ==>
      var row := v.legacyFlexDirection == L.FlexDirection.Row;
      forall i :: 0 <= i < |v.flowElements| ==> forall m <- v.flowElements[i].Repr ::
        FramesOf(m) == FramesMoved(old(FramesOf(m)), row, BoxOffset(old(ViewSpacing(v)).value, old(MainSizes(v.flowElements, row)), i))
  {
    FlowOfDisjoint(v.elements);
    ParentOutsideChildren(v);
    var es := v.flowElements;
    var row := v.legacyFlexDirection == L.FlexDirection.Row;
    var spacing := ViewSpacing(v);
    if spacing.Some? {
      var sizes := MainSizes(es, row);
      ShiftRun(es, sizes, spacing.value, row);
    }
  }
}
