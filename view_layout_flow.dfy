/**
 * View.Layout.Flow.cs: the flow layout stacks the flow elements vertically,
 * each one the previous one's outer height plus the vertical gap lower.
 */
module ViewLayoutFlow {
  import opened HostTypes
  import opened ViewNode

  /** No view occurs twice in the sequence. */
  predicate Distinct(s: seq<View>)
  {
    forall i, j :: 0 <= i < j < |s| ==> s[i] != s[j]
  }

  /** The outer heights of a sequence of views. */
  function OuterHeights(s: seq<View>): (r: seq<real>)
    reads s`outer
    ensures |r| == |s| && forall i :: 0 <= i < |s| ==> r[i] == s[i].outer.height
  {
    if s == [] then [] else [s[0].outer.height] + OuterHeights(s[1..])
  }

  /** The outer widths of a sequence of views. */
  function OuterWidths(s: seq<View>): (r: seq<real>)
    reads s`outer
    ensures |r| == |s| && forall i :: 0 <= i < |s| ==> r[i] == s[i].outer.width
  {
    if s == [] then [] else [s[0].outer.width] + OuterWidths(s[1..])
  }

  /**
   * The offset of the i-th of a run of boxes of the given sizes laid one
   * after the other with `gap` between them: the sum over j < i of
   * sizes[j] + gap.
   */
  function StackOffset(sizes: seq<real>, gap: real, i: nat): real
    requires i <= |sizes|
  {
    if i == 0 then 0.0 else StackOffset(sizes, gap, i - 1) + sizes[i - 1] + gap
  }

  /** The sum of a sequence of sizes. */
  function Sum(sizes: seq<real>): real
  {
    if sizes == [] then 0.0 else Sum(sizes[..|sizes| - 1]) + sizes[|sizes| - 1]
  }

  /** The offset of box i is the sum of the sizes before it plus i gaps. */
  lemma {:induction false} StackOffsetIsSum(sizes: seq<real>, gap: real, i: nat)
    requires i <= |sizes|
    ensures StackOffset(sizes, gap, i) == Sum(sizes[..i]) + (i as real) * gap
  {
    if i > 0 {
      StackOffsetIsSum(sizes, gap, i - 1);
      assert sizes[..i][..i - 1] == sizes[..i - 1];
    }
  }

  /** With a non-negative gap and sizes, each box starts at or after the end of the one before. */
  lemma {:induction false} StackedBoxesDoNotOverlap(sizes: seq<real>, gap: real, i: nat, j: nat)
    requires i < j <= |sizes| && gap >= 0.0
    requires forall k :: 0 <= k < |sizes| ==> sizes[k] >= 0.0
    ensures StackOffset(sizes, gap, j) >= StackOffset(sizes, gap, i) + sizes[i]
    decreases j
  {
    if j > i + 1 {
      StackedBoxesDoNotOverlap(sizes, gap, i, j - 1);
    }
  }

  /** The offsets of all boxes of a run: StackOffset at every index. */
  function Offsets(sizes: seq<real>, gap: real): (r: seq<real>)
    ensures |r| == |sizes| && forall k :: 0 <= k < |sizes| ==> r[k] == StackOffset(sizes, gap, k)
  {
    seq(|sizes|, k requires 0 <= k < |sizes| => StackOffset(sizes, gap, k))
  }

  /**
   * Position p with change flag c is what the Position setter leaves after
   * `Position += d` from position p0 with flag c0: the flag is raised exactly
   * when d is not zero.
   */
  predicate Shifted(p: Vec2, c: bool, p0: Vec2, c0: bool, d: Vec2)
  {
    p == p0.Plus(d) && c == (c0 || d != Zero)
  }

  /** `Position += d` through the change-detecting setter. */
  method Shift(e: View, d: Vec2)
    modifies e`position, e`positionChanged
    ensures Shifted(e.position, e.positionChanged, old(e.position), old(e.positionChanged), d)
  {
    var value := e.position.Plus(d);
    assert value == e.position <==> d == Zero;
    e.SetPosition(value);
  }

  /**
   * The loop of ReflowFlowLayout over a given run of views: the i-th flow element moves down by the outer heights
   * of the elements before it plus one vertical gap each (the first does not
   * move); X never changes, and the Position setter's change flag is raised
   * exactly for the elements that actually move. Nothing else is written.
   */
  method StackVertically(elements: seq<View>, gap: real)
    requires Distinct(elements)
    modifies elements`position, elements`positionChanged
    ensures forall k :: 0 <= k < |elements| ==>
      Shifted(elements[k].position, elements[k].positionChanged,
        old(elements[k].position), old(elements[k].positionChanged),
        Vec2(0.0, StackOffset(old(OuterHeights(elements)), gap, k)))
  {
    ghost var heights := OuterHeights(elements);
    ghost var tops := Offsets(heights, gap);
    var currentTop := 0.0;
    var i := 0;
    while i < |elements|
      invariant 0 <= i <= |elements|
      invariant forall k :: 0 <= k < |elements| ==> elements[k].outer.height == heights[k]
      invariant currentTop == StackOffset(heights, gap, i)
      invariant forall k :: 0 <= k < i ==>
        Shifted(elements[k].position, elements[k].positionChanged,
          old(elements[k].position), old(elements[k].positionChanged), Vec2(0.0, tops[k]))
      invariant forall k :: i <= k < |elements| ==>
        elements[k].position == old(elements[k].position) &&
        elements[k].positionChanged == old(elements[k].positionChanged)
    {
      var element := elements[i];
      var height := element.outer.height;
      Shift(element, Vec2(0.0, currentTop));
      assert elements[i] == element;
      currentTop := currentTop + height + gap;
      i := i + 1;
    }
  }

  /** ReflowFlowLayout: stacks the view's flow elements with its vertical gap. */
  method ReflowFlowLayout(v: View)
    requires Distinct(v.flowElements)
    modifies v.flowElements`position, v.flowElements`positionChanged
    ensures forall k :: 0 <= k < |v.flowElements| ==>
      Shifted(v.flowElements[k].position, v.flowElements[k].positionChanged,
        old(v.flowElements[k].position), old(v.flowElements[k].positionChanged),
        Vec2(0.0, StackOffset(old(OuterHeights(v.flowElements)), v.gap.y, k)))
  {
    StackVertically(v.flowElements, v.gap.y);
  }
}
