/**
 * View.cs: the older revision of the View box model. A view places its
 * outer rectangle from its container bounds in one step (left/top, the
 * resolved size and the alignment offset together), derives dimensions and
 * inner rectangle from it, grows an auto axis to its flow content
 * afterwards (FinalCalculate), and carries a pending LayoutOffset down its
 * View subtree (ApplyLayoutOffset). RecalculateSize computes nullable inner
 * and outer sizes top-down; GetElementAtFromView hit-tests the children in
 * descending ZIndex order.
 *
 * Where a formula of this revision is the same as in View.Layout.cs
 * (GetContainerSize, CalculateWidth/CalculateHeight, CalculateOuterDimensions,
 * the content-based outer sizes), the ViewLayout definition is used.
 */
module ViewLegacy {
  import opened HostTypes
  import opened ViewNode
  import opened ViewProperties
  import opened UIElementExtensions
  import opened CalculatedStyleExtensions
  import opened ViewNonVirtualMethods
  import Layout = ViewLayout

  // ------------------------------------------------------- container bounds

  /** GetStartingPosition: the origin for a root, else the parent's inner position. */
  function StartingPosition(v: View): Vec2
    reads v`parent, (if v.parent == null then {} else {v.parent})`inner
  {
    if v.parent == null then Zero else v.parent.inner.Position()
  }

  /**
   * GetContainerBounds: the starting position with the container size
   * (View.cs:24-38 is the same rule as ViewLayout.GetContainerSize).
   */
  function ContainerBounds(v: View, screen: Vec2): Rect
    reads v`parent, v`positioning, v.parent
  {
    var start, size := StartingPosition(v), Layout.GetContainerSize(v, screen);
    Rect(start.x, start.y, size.x, size.y)
  }

  // ------------------------------------------------------ outer dimensions

  /**
   * CalculateOuterDimensionsByParentDimensions: Left and Top against the
   * parent bounds, the size GetOuterSizeByContainer resolves in them, and
   * the alignment share of the free space, on both axes for an absolute
   * view and on the axes a View parent specifies for a relative one.
   */
  function OuterDimensionsByParent(v: View, parent: Rect): Rect
    reads v`left, v`top, v`specifyWidth, v`width, v`minWidth, v`maxWidth
    reads v`specifyHeight, v`height, v`minHeight, v`maxHeight
    reads v`boxSizing, v`marginLeft, v`marginRight, v`marginTop, v`marginBottom
    reads v`paddingLeft, v`paddingRight, v`paddingTop, v`paddingBottom, v.rounded`border
    reads v`positioning, v`parent, v`hAlign, v`vAlign, v.parent
  {
    var left := v.left.GetValue(parent.width) + parent.x;
    var top := v.top.GetValue(parent.height) + parent.y;
    var size := Layout.GetOuterSizeByContainer(v, Size(parent));
    var outer := Rect(left, top, size.x, size.y);
    if IsAbsolute(v) then
      outer.(x := outer.x + (parent.width - outer.width) * v.hAlign,
             y := outer.y + (parent.height - outer.height) * v.vAlign)
    else if IsRelative(v) && v.parent != null && v.parent.isView then
      outer.(x := if v.parent.specifyWidth then outer.x + (parent.width - outer.width) * v.hAlign else outer.x,
             y := if v.parent.specifyHeight then outer.y + (parent.height - outer.height) * v.vAlign else outer.y)
    else outer
  }

  /**
   * The one-step placement of this revision is the two-step placement of
   * View.Layout.cs done at once: the outer rectangle has the size
   * GetOuterSizeByContainer gives and sits at Left/Top moved by the same
   * alignment offset (AlignIn on the axes AlignsX/AlignsY select) that
   * Recalculate adds to Position there.
   */
  lemma OuterDimensionsAgreeWithLayout(v: View, parent: Rect)
    ensures var r := OuterDimensionsByParent(v, parent);
      var size := Layout.GetOuterSizeByContainer(v, Size(parent));
      var shift := Layout.AlignIn(Size(parent), Rect(0.0, 0.0, size.x, size.y), v.hAlign, v.vAlign,
                                  Layout.AlignsX(v), Layout.AlignsY(v));
      r == Rect(v.left.GetValue(parent.width) + parent.x + shift.x,
                v.top.GetValue(parent.height) + parent.y + shift.y, size.x, size.y)
  {
  }

  // ------------------------------------------------ dimensions and inner box

  /** The rectangle r lies `l`, `t`, `rt`, `b` inside the rectangle s on its four sides. */
  predicate Inset(r: Rect, s: Rect, l: real, t: real, rt: real, b: real)
  {
    r.x == s.x + l && r.y == s.y + t && Right(r) == Right(s) - rt && Bottom(r) == Bottom(s) - b
  }

  /** The rectangle r lies within the rectangle s. */
  predicate Within(r: Rect, s: Rect)
  {
    s.x <= r.x && s.y <= r.y && Right(r) <= Right(s) && Bottom(r) <= Bottom(s)
  }

  /** CalculateDimensions: the outer rectangle less the four margins. */
  function CalculateDimensions(v: View, outer: Rect): (r: Rect)
    reads v`marginLeft, v`marginRight, v`marginTop, v`marginBottom
    ensures Inset(r, outer, v.marginLeft, v.marginTop, v.marginRight, v.marginBottom)
  {
    Rect(outer.x + v.marginLeft, outer.y + v.marginTop,
         outer.width - (v.marginLeft + v.marginRight), outer.height - (v.marginTop + v.marginBottom))
  }

  /** CalculateInnerDimensions: the dimensions less the four paddings and the border on each side. */
  function CalculateInnerDimensions(v: View, dims: Rect): (r: Rect)
    reads v`paddingLeft, v`paddingRight, v`paddingTop, v`paddingBottom, v.rounded`border
    ensures Inset(r, dims, v.paddingLeft + Border(v), v.paddingTop + Border(v),
                  v.paddingRight + Border(v), v.paddingBottom + Border(v))
  {
    Rect(dims.x + v.paddingLeft + Border(v), dims.y + v.paddingTop + Border(v),
         dims.width - (HPadding(v) + Border(v) * 2.0), dims.height - (VPadding(v) + Border(v) * 2.0))
  }

  /**
   * With non-negative margins, paddings and border the three rectangles
   * nest: the inner rectangle lies within the dimensions, which lie within
   * the outer rectangle.
   */
  lemma BoxesNest(v: View, outer: Rect)
    requires v.marginLeft >= 0.0 && v.marginRight >= 0.0 && v.marginTop >= 0.0 && v.marginBottom >= 0.0
    requires v.paddingLeft >= 0.0 && v.paddingRight >= 0.0 && v.paddingTop >= 0.0 && v.paddingBottom >= 0.0
    requires Border(v) >= 0.0
    ensures var dims := CalculateDimensions(v, outer);
      Within(dims, outer) && Within(CalculateInnerDimensions(v, dims), dims)
  {
  }

  // ------------------------------------------------------------ content size

  /**
   * The Aggregate of CalculateContentSize: `start` raised componentwise to
   * the bottom-right corner of each view's outer rectangle, in order.
   */
  function FarCorner(start: Vec2, es: seq<View>): (r: Vec2)
    reads es`outer
    ensures r.x >= start.x && r.y >= start.y
    ensures forall e <- es :: Right(e.outer) <= r.x && Bottom(e.outer) <= r.y
  {
    if es == [] then start else VecMax(FarCorner(start, es[..|es| - 1]), RightBottom(es[|es| - 1].outer))
  }

  /** The far corner is attained: each component is the start's or some view's edge. */
  lemma {:induction false} FarCornerAttained(start: Vec2, es: seq<View>)
    ensures var r := FarCorner(start, es);
      (r.x == start.x || exists e <- es :: Right(e.outer) == r.x) &&
      (r.y == start.y || exists e <- es :: Bottom(e.outer) == r.y)
  {
    if es != [] {
      var p := es[..|es| - 1];
      FarCornerAttained(start, p);
      assert forall e <- p :: e in es;
      assert es[|es| - 1] in es;
    }
  }

  /**
   * CalculateContentSize: the far corner of the flow elements measured from
   * the inner position, and whether it is non-empty on some axis. Both
   * components are non-negative, every flow element's outer rectangle ends
   * within it, and the flag is true exactly when some component is positive.
   */
  function CalculateContentSize(v: View): (r: (bool, Vec2))
    reads v`inner, v`flowElements, v.flowElements`outer
    ensures r.1.x >= 0.0 && r.1.y >= 0.0
    ensures r.0 <==> r.1.x > 0.0 || r.1.y > 0.0
    ensures forall e <- v.flowElements ::
      Right(e.outer) <= v.inner.x + r.1.x && Bottom(e.outer) <= v.inner.y + r.1.y
  {
    var start := v.inner.Position();
    var content := FarCorner(start, v.flowElements).Minus(start);
    (content.x > 0.0 || content.y > 0.0, content)
  }

  /**
   * The content size is tight: on each axis it is zero or it reaches exactly
   * to the right (bottom) edge of some flow element.
   */
  lemma ContentSizeTight(v: View)
    ensures var c := CalculateContentSize(v).1;
      (c.x == 0.0 || exists e <- v.flowElements :: Right(e.outer) == v.inner.x + c.x) &&
      (c.y == 0.0 || exists e <- v.flowElements :: Bottom(e.outer) == v.inner.y + c.y)
  {
    FarCornerAttained(v.inner.Position(), v.flowElements);
  }

  // ------------------------------------------------------ placing one node

  /**
   * The first step of Recalculate in this revision: the outer rectangle is
   * placed in the container bounds, and the dimensions and inner rectangle
   * are derived from it.
   */
  method PlaceByParent(v: View, screen: Vec2)
    modifies v`outer, v`dims, v`inner
    ensures v.outer == old(OuterDimensionsByParent(v, ContainerBounds(v, screen)))
    ensures v.dims == CalculateDimensions(v, v.outer) && v.inner == CalculateInnerDimensions(v, v.dims)
  {
    var parentDimensions := ContainerBounds(v, screen);
    v.outer := OuterDimensionsByParent(v, parentDimensions);
    v.dims := CalculateDimensions(v, v.outer);
    v.inner := CalculateInnerDimensions(v, v.dims);
  }

  // --------------------------------------------------------- final calculate

  /** The outer rectangle with each unspecified axis grown to the content plus margins, padding and border. */
  function ContentOuter(v: View, content: Vec2): Rect
    reads v`outer, v`specifyWidth, v`specifyHeight
    reads v`marginLeft, v`marginRight, v`marginTop, v`marginBottom
    reads v`paddingLeft, v`paddingRight, v`paddingTop, v`paddingBottom, v.rounded`border
  {
    v.outer.(width := if v.specifyWidth then v.outer.width else Layout.OuterWidthByContent(v, content.x),
             height := if v.specifyHeight then v.outer.height else Layout.OuterHeightByContent(v, content.y))
  }

  /**
   * The offset FinalCalculate moves the subtree by: on an auto axis of an
   * absolute view, or of a relative view whose parent specifies that axis,
   * minus the grown outer size times the alignment fraction; 0 otherwise.
   */
  function ContentOffset(v: View, parent: View, outer: Rect): Vec2
    reads v`specifyWidth, v`specifyHeight, v`positioning, v`hAlign, v`vAlign
    reads parent`specifyWidth, parent`specifyHeight
  {
    Vec2(if !v.specifyWidth && (IsAbsolute(v) || (IsRelative(v) && parent.specifyWidth)) then -outer.width * v.hAlign else 0.0,
         if !v.specifyHeight && (IsAbsolute(v) || (IsRelative(v) && parent.specifyHeight)) then -outer.height * v.vAlign else 0.0)
  }

  /**
   * FinalCalculate: with no content nothing changes. Otherwise each auto
   * axis of the outer rectangle grows to the content, the whole subtree is
   * moved back by the grown size's alignment share (OffsetX, OffsetY or
   * Offset, whichever components are non-zero), and the dimensions and inner
   * rectangle are derived again from the outer one.
   */
  method FinalCalculate(v: View, parent: View)
    requires v.Valid()
    modifies v.Repr`outer, v.Repr`dims, v.Repr`inner
    ensures !old(CalculateContentSize(v)).0 ==>
      forall m <- v.Repr :: m.outer == old(m.outer) && m.dims == old(m.dims) && m.inner == old(m.inner)
    ensures old(CalculateContentSize(v)).0 ==>
      var grown := old(ContentOuter(v, CalculateContentSize(v).1));
      var d := old(ContentOffset(v, parent, grown));
      v.outer == Moved(grown, d) &&
      v.dims == CalculateDimensions(v, v.outer) && v.inner == CalculateInnerDimensions(v, v.dims) &&
      forall m <- v.Repr - {v} ::
        m.outer == Moved(old(m.outer), d) && m.dims == Moved(old(m.dims), d) && m.inner == Moved(old(m.inner), d)
  {
    var (nonEmpty, content) := CalculateContentSize(v);
    if !nonEmpty {
      return;
    }
    var offset := GrowToContent(v, parent, content);
    MoveBy(v, offset);
    v.dims := CalculateDimensions(v, v.outer);
    v.inner := CalculateInnerDimensions(v, v.dims);
  }

  /** The auto axes of FinalCalculate: the outer rectangle grows and the offset is computed. */
  method GrowToContent(v: View, parent: View, content: Vec2) returns (offset: Vec2)
    modifies v`outer
    ensures v.outer == old(ContentOuter(v, content))
    ensures offset == old(ContentOffset(v, parent, ContentOuter(v, content)))
  {
    ghost var grown := ContentOuter(v, content);
    ghost var d := ContentOffset(v, parent, grown);
    offset := Zero;
    if !v.specifyWidth {
      var width := Layout.OuterWidthByContent(v, content.x);
      v.outer := v.outer.(width := width);
      if v.positioning == Absolute || (v.positioning == Relative && parent.specifyWidth) {
        offset := offset.(x := -width * v.hAlign);
      }
    }
    assert offset.x == d.x;
    if !v.specifyHeight {
      var height := Layout.OuterHeightByContent(v, content.y);
      v.outer := v.outer.(height := height);
      if v.positioning == Absolute || (v.positioning == Relative && parent.specifyHeight) {
        offset := offset.(y := -height * v.vAlign);
      }
    }
    assert v.outer == grown;
  }

  /**
   * The DimensionsOffset step of FinalCalculate: Offset when both components
   * are non-zero, OffsetX or OffsetY when only one is, nothing otherwise;
   * in every case the subtree moves by the offset.
   */
  method MoveBy(v: View, offset: Vec2)
    requires v.Valid()
    modifies v.Repr`outer, v.Repr`dims, v.Repr`inner
    ensures forall m <- v.Repr ::
      m.outer == Moved(old(m.outer), offset) && m.dims == Moved(old(m.dims), offset) &&
      m.inner == Moved(old(m.inner), offset)
  {
    if offset.x != 0.0 {
      if offset.y != 0.0 {
        Offset(v, offset);
      } else {
        OffsetX(v, offset.x);
      }
    } else if offset.y != 0.0 {
      OffsetY(v, offset.y);
    }
  }

  /**
   * Where an auto width ends up after PlaceByParent and FinalCalculate: the
   * placement aligned the zero-width outer size (margins, plus padding and
   * border under ContentBox), and FinalCalculate takes back the grown
   * width's share, so the final X is the View.Layout.cs alignment of the
   * grown width less the zero-width outer size's share.
   */
  lemma AutoWidthAlignment(v: View, parent: Rect, content: real)
    requires !v.specifyWidth && Layout.AlignsX(v)
    ensures var placed := OuterDimensionsByParent(v, parent);
      var grown := Layout.OuterWidthByContent(v, content);
      placed.x - grown * v.hAlign ==
        v.left.GetValue(parent.width) + parent.x
        + Layout.AlignIn(Size(parent), Rect(0.0, 0.0, grown, 0.0), v.hAlign, v.vAlign, true, false).x
        - placed.width * v.hAlign
  {
    var placed := OuterDimensionsByParent(v, parent);
    var grown := Layout.OuterWidthByContent(v, content);
    assert placed.x == v.left.GetValue(parent.width) + parent.x + (parent.width - placed.width) * v.hAlign;
    assert Layout.AlignIn(Size(parent), Rect(0.0, 0.0, grown, 0.0), v.hAlign, v.vAlign, true, false).x
      == (parent.width - grown) * v.hAlign;
  }

  // ------------------------------------------------------ layout offset

  /** The three rectangles and the pending layout offset of one node. */
  datatype Boxes = Boxes(outer: Rect, dims: Rect, inner: Rect, layoutOffset: Vec2)

  function BoxesOf(m: View): Boxes
    reads m`outer, m`dims, m`inner, m`layoutOffset
  {
    Boxes(m.outer, m.dims, m.inner, m.layoutOffset)
  }

  /** The boxes of every node of a set, keyed by node. */
  ghost function Snapshot(s: set<View>): (r: map<View, Boxes>)
    reads s`outer, s`dims, s`inner, s`layoutOffset
    ensures r.Keys == s && forall m <- s :: r[m] == BoxesOf(m)
  {
    map m | m in s :: BoxesOf(m)
  }

  /**
   * The nodes ApplyLayoutOffset visits below v, compared with their boxes
   * `before`: v's rectangles moved by its own pending offset plus what its
   * ancestors `carried` down, its pending offset cleared, and every View
   * child likewise with v's total offset carried down.
   */
  ghost predicate OffsetApplied(v: View, carried: Vec2, before: map<View, Boxes>)
    requires v.Valid() && v.Reach <= before.Keys
    reads v.Reach`outer, v.Reach`dims, v.Reach`inner, v.Reach`layoutOffset
    decreases v.Repr
  {
    var d := before[v].layoutOffset.Plus(carried);
    v.outer == Moved(before[v].outer, d) && v.dims == Moved(before[v].dims, d) &&
    v.inner == Moved(before[v].inner, d) && v.layoutOffset == Zero &&
    forall c <- v.elements :: c.isView ==> OffsetApplied(c, d, before)
  }

  /** OffsetApplied looks at the boxes `before` of the visited nodes only. */
  lemma {:induction false} OffsetAppliedFramed(v: View, carried: Vec2, b0: map<View, Boxes>, b1: map<View, Boxes>)
    requires v.Valid() && v.Reach <= b0.Keys && v.Reach <= b1.Keys
    requires forall m <- v.Reach :: b0[m] == b1[m]
    ensures OffsetApplied(v, carried, b0) == OffsetApplied(v, carried, b1)
    decreases v.Repr
  {
    var d := b0[v].layoutOffset.Plus(carried);
    forall c | c in v.elements && c.isView
      ensures OffsetApplied(c, d, b0) == OffsetApplied(c, d, b1)
    {
      OffsetAppliedFramed(c, d, b0, b1);
    }
  }

  /**
   * ApplyLayoutOffset: every node of the View subtree has its outer,
   * dimensions and inner rectangles moved by the sum of its own and its
   * View ancestors' (up to v) pending LayoutOffsets, and every pending
   * offset is cleared. Only the visited nodes change, and only these fields.
   */
  method ApplyLayoutOffset(v: View)
    requires v.Valid()
    modifies v.Reach`outer, v.Reach`dims, v.Reach`inner, v.Reach`layoutOffset
    ensures OffsetApplied(v, Zero, old(Snapshot(v.Reach)))
    decreases v.Repr, 2
  {
    ghost var before := Snapshot(v.Reach);
    v.outer := Moved(v.outer, v.layoutOffset);
    v.dims := Moved(v.dims, v.layoutOffset);
    v.inner := Moved(v.inner, v.layoutOffset);
    ParentOutsideChildren(v);
    OffsetChildren(v, v.layoutOffset, before);
    ClearLayoutOffset(v, before);
  }

  /** The last step of ApplyLayoutOffset: with v moved and its children done, clearing v's offset completes it. */
  method ClearLayoutOffset(v: View, ghost before: map<View, Boxes>)
    requires v.Valid() && v.Reach <= before.Keys
    requires var d := before[v].layoutOffset;
      v.outer == Moved(before[v].outer, d) && v.dims == Moved(before[v].dims, d) &&
      v.inner == Moved(before[v].inner, d) && v.layoutOffset == d
    requires forall c <- v.elements :: c.isView ==> OffsetApplied(c, v.layoutOffset, before)
    modifies v`layoutOffset
    ensures OffsetApplied(v, Zero, before)
  {
    assert forall c <- v.elements :: c.Valid() && v !in c.Repr;
    ghost var d := v.layoutOffset;
    v.layoutOffset := Zero;
    assert forall c <- v.elements :: c.isView ==> OffsetApplied(c, d, before);
    assert before[v].layoutOffset.Plus(Zero) == d;
  }

  /** The loop of ApplyLayoutOffset over the View children, carrying `offset` down. */
  method OffsetChildren(v: View, offset: Vec2, ghost before: map<View, Boxes>)
    requires v.Valid() && v.Reach <= before.Keys
    requires forall m <- ViewUnion(v.elements) :: BoxesOf(m) == before[m]
    modifies ViewUnion(v.elements)`outer, ViewUnion(v.elements)`dims, ViewUnion(v.elements)`inner
    modifies ViewUnion(v.elements)`layoutOffset
    ensures forall c <- v.elements :: c.isView ==> OffsetApplied(c, offset, before)
    decreases v.Repr, 1
  {
    ViewUnionCovers(v.elements);
    var i := 0;
    while i < |v.elements|
      invariant 0 <= i <= |v.elements|
      invariant forall k :: 0 <= k < i && v.elements[k].isView ==> OffsetApplied(v.elements[k], offset, before)
      invariant forall k :: i <= k < |v.elements| && v.elements[k].isView ==>
        forall m <- v.elements[k].Reach :: BoxesOf(m) == before[m]
    {
      OffsetChild(v, i, offset, before);
      i := i + 1;
    }
    forall c | c in v.elements && c.isView
      ensures OffsetApplied(c, offset, before)
    {
      var k :| 0 <= k < |v.elements| && v.elements[k] == c;
    }
  }

  /**
   * One pass of the loop: a View child gets the offset added to its own and
   * applies it to its subtree; the children before and after it, whose
   * subtrees are disjoint from its own, are untouched.
   */
  method OffsetChild(v: View, i: nat, offset: Vec2, ghost before: map<View, Boxes>)
    requires v.Valid() && v.Reach <= before.Keys && i < |v.elements|
    requires forall k :: 0 <= k < i && v.elements[k].isView ==> OffsetApplied(v.elements[k], offset, before)
    requires forall k :: i <= k < |v.elements| && v.elements[k].isView ==>
      forall m <- v.elements[k].Reach :: BoxesOf(m) == before[m]
    modifies ViewUnion(v.elements)`outer, ViewUnion(v.elements)`dims, ViewUnion(v.elements)`inner
    modifies ViewUnion(v.elements)`layoutOffset
    ensures forall k :: 0 <= k <= i && v.elements[k].isView ==> OffsetApplied(v.elements[k], offset, before)
    ensures forall k :: i < k < |v.elements| && v.elements[k].isView ==>
      forall m <- v.elements[k].Reach :: BoxesOf(m) == before[m]
    decreases v.Repr, 0
  {
    var c := v.elements[i];
    if c.isView {
      ViewUnionContains(v.elements, i);
      forall k | 0 <= k < |v.elements| && k != i
        ensures v.elements[k].Reach !! c.Reach
      {
        if k < i { DisjointAt(v.elements, k, i); } else { DisjointAt(v.elements, i, k); }
      }
      assert forall m <- c.Reach :: BoxesOf(m) == before[m];
      ghost var start := Snapshot(c.Reach);
      OffsetSubtree(c, offset);
      OffsetAppliedFramed(c, offset, start, before);
    }
  }

  /** `child.LayoutOffset += LayoutOffset; child.ApplyLayoutOffset();` */
  method OffsetSubtree(c: View, offset: Vec2)
    requires c.Valid()
    modifies c.Reach`outer, c.Reach`dims, c.Reach`inner, c.Reach`layoutOffset
    ensures OffsetApplied(c, offset, old(Snapshot(c.Reach)))
    decreases c.Repr, 3
  {
    ghost var before := Snapshot(c.Reach);
    c.layoutOffset := c.layoutOffset.Plus(offset);
    ghost var mid := Snapshot(c.Reach);
    ApplyLayoutOffset(c);
    CarriedIntoChild(c, offset, mid, before);
  }

  /**
   * The child's own view of the offsets (its pending offset already raised
   * by `offset`, nothing carried) is the parent's (its old pending offset,
   * `offset` carried).
   */
  lemma CarriedIntoChild(c: View, offset: Vec2, mid: map<View, Boxes>, before: map<View, Boxes>)
    requires c.Valid() && c.Reach <= mid.Keys && c.Reach <= before.Keys
    requires mid[c] == before[c].(layoutOffset := before[c].layoutOffset.Plus(offset))
    requires forall m <- c.Reach - {c} :: mid[m] == before[m]
    requires OffsetApplied(c, Zero, mid)
    ensures OffsetApplied(c, offset, before)
  {
    var d := before[c].layoutOffset.Plus(offset);
    assert mid[c].layoutOffset.Plus(Zero) == d;
    ParentOutsideChildren(c);
    forall g | g in c.elements && g.isView
      ensures OffsetApplied(g, d, before)
    {
      var k :| 0 <= k < |c.elements| && c.elements[k] == g;
      ViewUnionContains(c.elements, k);
      OffsetAppliedFramed(g, d, mid, before);
    }
  }

  // ------------------------------------------------------- nullable sizes

  /**
   * What RecalculateSize measures a view against: a View parent's nullable
   * inner sizes, or a plain size (the basic body's size for a root, the
   * inner size of a plain UIElement parent).
   */
  datatype Above = ViewParent(innerWidth: Option<real>, innerHeight: Option<real>) | HostParent(size: Vec2)

  /** The Above of a view; `body` stands for SilkyUIHelper.GetBasicBodyDimensions().Size(). */
  function ParentAbove(v: View, body: Vec2): Above
    reads v`parent, v.parent
  {
    if v.parent != null && v.parent.isView then ViewParent(v.parent.innerWidth, v.parent.innerHeight)
    else HostParent(if v.parent == null then body else Size(v.parent.inner))
  }

  /** `x ?? 0`. */
  function OrZero(o: Option<real>): real
  {
    if o.Some? then o.value else 0.0
  }

  /** A lifted `x + d` on a nullable float: null stays null. */
  function PlusLifted(a: Option<real>, d: real): Option<real>
  {
    if a.Some? then Some(a.value + d) else None
  }

  /** The style values RecalculateSize reads from a view. */
  datatype SizeRules = SizeRules(
    specifyWidth: bool, width: StyleDimension, minWidth: StyleDimension, maxWidth: StyleDimension,
    specifyHeight: bool, height: StyleDimension, minHeight: StyleDimension, maxHeight: StyleDimension,
    boxSizing: BoxSizing, hMargin: real, vMargin: real, hPadding: real, vPadding: real, border: real)
  {
    /** What the outer width adds to the inner width: margins, twice the border, padding. */
    function HExtra(): real { hMargin + border * 2.0 + hPadding }
    /** What the outer height adds to the inner height. */
    function VExtra(): real { vMargin + border * 2.0 + vPadding }
  }

  function RulesOf(v: View): SizeRules
    reads v`specifyWidth, v`width, v`minWidth, v`maxWidth
    reads v`specifyHeight, v`height, v`minHeight, v`maxHeight, v`boxSizing
    reads v`marginLeft, v`marginRight, v`marginTop, v`marginBottom
    reads v`paddingLeft, v`paddingRight, v`paddingTop, v`paddingBottom, v.rounded`border
  {
    SizeRules(v.specifyWidth, v.width, v.minWidth, v.maxWidth, v.specifyHeight, v.height, v.minHeight, v.maxHeight,
              v.boxSizing, HMargin(v), VMargin(v), HPadding(v), VPadding(v), Border(v))
  }

  /**
   * The inner size of a specified axis under a View parent: under any
   * BoxSizing but ContentBox the clamped size less twice the border and the
   * padding, never below 0; under ContentBox the clamped size itself.
   */
  function FitInner(r: SizeRules, clamped: real, padding: real): (inner: real)
    ensures r.boxSizing != ContentBox ==> inner >= 0.0 && inner >= clamped - r.border * 2.0 - padding
    ensures r.boxSizing != ContentBox && clamped - r.border * 2.0 - padding >= 0.0 ==>
      inner + r.border * 2.0 + padding == clamped
    ensures r.boxSizing == ContentBox ==> inner == clamped
  {
    if r.boxSizing != ContentBox then Max(0.0, clamped - r.border * 2.0 - padding) else clamped
  }

  /**
   * InnerWidth after RecalculateSize. Under a View parent a specified width
   * is Width clamped into [MinWidth, MaxWidth] against the parent's
   * InnerWidth (0 when null) and fitted by FitInner, and an unspecified one
   * keeps its `previous` value; under any other parent it is the clamped
   * Width against the parent size, with no box-sizing adjustment.
   */
  function InnerWidthUnder(r: SizeRules, above: Above, previous: Option<real>): Option<real>
  {
    match above
    case ViewParent(w, _) =>
      var c := OrZero(w);
      if r.specifyWidth then Some(FitInner(r, Clamp(r.width.GetValue(c), r.minWidth.GetValue(c), r.maxWidth.GetValue(c)), r.hPadding))
      else previous
    case HostParent(size) => Some(Clamp(r.width.GetValue(size.x), r.minWidth.GetValue(size.x), r.maxWidth.GetValue(size.x)))
  }

  /**
   * InnerHeight after RecalculateSize, the height analogue of
   * InnerWidthUnder as View.cs writes it: under a View parent the clamped
   * Height, under a plain parent InnerHeightUnderHostAsWritten.
   */
  function InnerHeightUnder(r: SizeRules, above: Above, previous: Option<real>): Option<real>
  {
    match above
    case ViewParent(_, h) =>
      var c := OrZero(h);
      if r.specifyHeight then Some(FitInner(r, Clamp(r.height.GetValue(c), r.minHeight.GetValue(c), r.maxHeight.GetValue(c)), r.vPadding))
      else previous
    case HostParent(size) => Some(InnerHeightUnderHostAsWritten(r, size))
  }

  /**
   * InnerHeight under a plain parent as View.cs writes it: Width, MinWidth
   * and MaxWidth measured against the parent's height.
   */
  function InnerHeightUnderHostAsWritten(r: SizeRules, size: Vec2): real
  {
    Clamp(r.width.GetValue(size.y), r.minWidth.GetValue(size.y), r.maxWidth.GetValue(size.y))
  }

  /**
   * The evidently intended InnerHeight: under a plain parent, Height
   * clamped into [MinHeight, MaxHeight] against the parent's height, as
   * the width is clamped on its own axis.
   */
  function InnerHeightUnderIntended(r: SizeRules, above: Above, previous: Option<real>): (h: Option<real>)
    ensures above.ViewParent? ==> h == InnerHeightUnder(r, above, previous)
  {
    match above
    case ViewParent(_, _) => InnerHeightUnder(r, above, previous)
    case HostParent(size) => Some(Clamp(r.height.GetValue(size.y), r.minHeight.GetValue(size.y), r.maxHeight.GetValue(size.y)))
  }

  /**
   * The as-written InnerHeight ignores Height: a 100 px wide, 50 px high
   * root in an 800 x 600 body gets an inner height of 100, where the
   * height rule gives 50.
   */
  lemma InnerHeightAsWrittenIgnoresHeight(r: SizeRules)
    requires r.width == StyleDimension(100.0, 0.0) && r.height == StyleDimension(50.0, 0.0)
    requires r.minWidth == EmptyDimension && r.minHeight == EmptyDimension
    requires r.maxWidth == StyleDimension(114514.0, 0.0) && r.maxHeight == StyleDimension(114514.0, 0.0)
    ensures InnerHeightUnder(r, HostParent(Vec2(800.0, 600.0)), None) == Some(100.0)
    ensures InnerHeightUnderIntended(r, HostParent(Vec2(800.0, 600.0)), None) == Some(50.0)
  {
  }

  /**
   * Under a plain parent the corrected InnerHeight is the height rule of
   * View.Layout.cs (GetHeightValue against the parent's height), as the
   * InnerWidth is the width rule.
   */
  lemma HostInnerSizesFollowLayout(v: View, size: Vec2, pw: Option<real>, ph: Option<real>)
    ensures InnerWidthUnder(RulesOf(v), HostParent(size), pw) == Some(Layout.GetWidthValue(v, size.x))
    ensures InnerHeightUnderIntended(RulesOf(v), HostParent(size), ph) == Some(Layout.GetHeightValue(v, size.y))
  {
  }

  /**
   * Under a View parent, the legacy outer width of a specified axis is the
   * View.Layout.cs outer width (CalculateOuterSize of the clamped width)
   * whenever the clamped width holds twice the border and the padding, and
   * always under ContentBox.
   */
  lemma LegacyOuterWidthAgrees(v: View, parentWidth: real, h: Option<real>, previous: Option<real>)
    requires v.specifyWidth
    requires v.boxSizing == ContentBox || Layout.GetWidthValue(v, parentWidth) >= Border(v) * 2.0 + HPadding(v)
    ensures PlusLifted(InnerWidthUnder(RulesOf(v), ViewParent(Some(parentWidth), h), previous), RulesOf(v).HExtra())
      == Some(Layout.CalculateOuterSize(v, Layout.GetWidthValue(v, parentWidth), 0.0).x)
  {
  }

  /** The nullable inner sizes of one node. */
  function InnerSizesOf(m: View): (Option<real>, Option<real>)
    reads m`innerWidth, m`innerHeight
  {
    (m.innerWidth, m.innerHeight)
  }

  /** The nullable inner sizes of every node of a set. */
  ghost function InnerSizes(s: set<View>): (r: map<View, (Option<real>, Option<real>)>)
    reads s`innerWidth, s`innerHeight
    ensures r.Keys == s && forall m <- s :: r[m] == InnerSizesOf(m)
  {
    map m | m in s :: InnerSizesOf(m)
  }

  /**
   * The nodes RecalculateSize visits below v, against their inner sizes
   * `before`: v is SizedUnder `above`, and each View child, recursively,
   * under v's new inner sizes.
   */
  ghost predicate Resized(v: View, above: Above, before: map<View, (Option<real>, Option<real>)>)
    requires v.Valid() && v.Reach <= before.Keys
    reads v.Reach, v.Rims
    decreases v.Repr, 1
  {
    SizedUnder(RulesOf(v), SizesOf(v), above, before[v]) &&
    ChildrenResized(v, ViewParent(v.innerWidth, v.innerHeight), before)
  }

  /** Every View child of v is Resized under `above`. */
  ghost predicate ChildrenResized(v: View, above: Above, before: map<View, (Option<real>, Option<real>)>)
    requires v.Valid() && v.Reach <= before.Keys
    reads ViewUnion(v.elements), v.Rims
    decreases v.Repr, 0
  {
    ViewUnionCovers(v.elements);
    forall c <- v.elements :: c.isView ==> Resized(c, above, before)
  }

  /**
   * One node after RecalculateSize, given its inner sizes `previous` before:
   * its inner sizes follow the rules for `above`, and its outer
   * sizes are the inner ones plus margins, twice the border and padding,
   * null when the inner size is null.
   */
  predicate SizedUnder(r: SizeRules, sizes: Sizes, above: Above, previous: (Option<real>, Option<real>))
  {
    sizes.innerWidth == InnerWidthUnder(r, above, previous.0) &&
    sizes.innerHeight == InnerHeightUnder(r, above, previous.1) &&
    sizes.outerWidth == PlusLifted(sizes.innerWidth, r.HExtra()) &&
    sizes.outerHeight == PlusLifted(sizes.innerHeight, r.VExtra())
  }

  /** The four nullable sizes of a view. */
  datatype Sizes = Sizes(innerWidth: Option<real>, innerHeight: Option<real>, outerWidth: Option<real>, outerHeight: Option<real>)

  function SizesOf(v: View): Sizes
    reads v`innerWidth, v`innerHeight, v`outerWidth, v`outerHeight
  {
    Sizes(v.innerWidth, v.innerHeight, v.outerWidth, v.outerHeight)
  }

  /** Resized looks at the sizes `before` of the visited nodes only. */
  lemma {:induction false} ResizedFramed(v: View, above: Above, b0: map<View, (Option<real>, Option<real>)>,
                                         b1: map<View, (Option<real>, Option<real>)>)
    requires v.Valid() && v.Reach <= b0.Keys && v.Reach <= b1.Keys
    requires forall m <- v.Reach :: b0[m] == b1[m]
    ensures Resized(v, above, b0) == Resized(v, above, b1)
    decreases v.Repr
  {
    forall c | c in v.elements && c.isView
      ensures Resized(c, ViewParent(v.innerWidth, v.innerHeight), b0) ==
              Resized(c, ViewParent(v.innerWidth, v.innerHeight), b1)
    {
      ResizedFramed(c, ViewParent(v.innerWidth, v.innerHeight), b0, b1);
    }
  }

  /**
   * RecalculateSize (View.cs): the view's inner sizes from its parent, then
   * each View child recursively, then the view's outer sizes. Only the four
   * nullable sizes of the visited nodes change.
   */
  method RecalculateSize(v: View, body: Vec2)
    requires v.Valid() && v.isView && Layout.Linked(v)
    modifies v.Reach`innerWidth, v.Reach`innerHeight, v.Reach`outerWidth, v.Reach`outerHeight
    ensures Resized(v, old(ParentAbove(v, body)), old(InnerSizes(v.Reach)))
    decreases v.Repr, 3
  {
    ghost var before := InnerSizes(v.Reach);
    ghost var above := ParentAbove(v, body);
    ghost var r := RulesOf(v);
    ParentOutsideChildren(v);
    ResizeSelf(v, body);
    ghost var w, h := v.innerWidth, v.innerHeight;
    assert w == InnerWidthUnder(r, above, before[v].0) && h == InnerHeightUnder(r, above, before[v].1);
    ResizeChildren(v, body, before);
    assert v.innerWidth == w && v.innerHeight == h && RulesOf(v) == r;
    SetOuterSizes(v, above, before);
  }

  /** The first part of RecalculateSize: the view's own inner sizes. */
  method ResizeSelf(v: View, body: Vec2)
    modifies v`innerWidth, v`innerHeight
    ensures v.innerWidth == old(InnerWidthUnder(RulesOf(v), ParentAbove(v, body), v.innerWidth))
    ensures v.innerHeight == old(InnerHeightUnder(RulesOf(v), ParentAbove(v, body), v.innerHeight))
  {
    if v.parent != null && v.parent.isView {
      var parent := v.parent;
      if v.specifyWidth {
        var c := OrZero(parent.innerWidth);
        var innerWidth := Clamp(v.width.GetValue(c), v.minWidth.GetValue(c), v.maxWidth.GetValue(c));
        v.innerWidth := Some(if v.boxSizing != ContentBox then Max(0.0, innerWidth - Border(v) * 2.0 - HPadding(v))
                             else innerWidth);
      }
      if v.specifyHeight {
        var c := OrZero(parent.innerHeight);
        var innerHeight := Clamp(v.height.GetValue(c), v.minHeight.GetValue(c), v.maxHeight.GetValue(c));
        v.innerHeight := Some(if v.boxSizing != ContentBox then Max(0.0, innerHeight - Border(v) * 2.0 - VPadding(v))
                              else innerHeight);
      }
    } else {
      var size := if v.parent == null then body else Size(v.parent.inner);
      v.innerWidth := Some(Clamp(v.width.GetValue(size.x), v.minWidth.GetValue(size.x), v.maxWidth.GetValue(size.x)));
      v.innerHeight := Some(Clamp(v.width.GetValue(size.y), v.minWidth.GetValue(size.y), v.maxWidth.GetValue(size.y)));
    }
  }

  /** The last part of RecalculateSize: the view's outer sizes, which complete Resized. */
  method SetOuterSizes(v: View, ghost above: Above, ghost before: map<View, (Option<real>, Option<real>)>)
    requires v.Valid() && v.Reach <= before.Keys
    requires v.innerWidth == InnerWidthUnder(RulesOf(v), above, before[v].0)
    requires v.innerHeight == InnerHeightUnder(RulesOf(v), above, before[v].1)
    requires ChildrenResized(v, ViewParent(v.innerWidth, v.innerHeight), before)
    modifies v`outerWidth, v`outerHeight
    ensures Resized(v, above, before)
  {
    ParentOutsideChildren(v);
    var r := RulesOf(v);
    v.outerWidth, v.outerHeight := PlusLifted(v.innerWidth, r.HExtra()), PlusLifted(v.innerHeight, r.VExtra());
    assert RulesOf(v) == r;
  }

  /** The loop of RecalculateSize over the View children. */
  method ResizeChildren(v: View, body: Vec2, ghost before: map<View, (Option<real>, Option<real>)>)
    requires v.Valid() && v.isView && Layout.Linked(v) && v.Reach <= before.Keys
    requires forall m <- ViewUnion(v.elements) :: InnerSizesOf(m) == before[m]
    modifies ViewUnion(v.elements)`innerWidth, ViewUnion(v.elements)`innerHeight
    modifies ViewUnion(v.elements)`outerWidth, ViewUnion(v.elements)`outerHeight
    ensures ChildrenResized(v, ViewParent(v.innerWidth, v.innerHeight), before)
    decreases v.Repr, 2
  {
    ParentOutsideChildren(v);
    ViewUnionCovers(v.elements);
    var i := 0;
    while i < |v.elements|
      invariant 0 <= i <= |v.elements|
      invariant forall k :: 0 <= k < i && v.elements[k].isView ==>
        Resized(v.elements[k], ViewParent(v.innerWidth, v.innerHeight), before)
      invariant forall k :: i <= k < |v.elements| && v.elements[k].isView ==>
        forall m <- v.elements[k].Reach :: InnerSizesOf(m) == before[m]
    {
      ResizeChild(v, i, body, before);
      i := i + 1;
    }
    forall c | c in v.elements && c.isView
      ensures Resized(c, ViewParent(v.innerWidth, v.innerHeight), before)
    {
      var k :| 0 <= k < |v.elements| && v.elements[k] == c;
    }
  }

  /** One pass of the loop: a View child, whose parent is v, is resized against v's inner sizes. */
  method ResizeChild(v: View, i: nat, body: Vec2, ghost before: map<View, (Option<real>, Option<real>)>)
    requires v.Valid() && v.isView && Layout.Linked(v) && v.Reach <= before.Keys && i < |v.elements|
    requires v !in ViewUnion(v.elements)
    requires forall k :: 0 <= k < i && v.elements[k].isView ==>
      Resized(v.elements[k], ViewParent(v.innerWidth, v.innerHeight), before)
    requires forall k :: i <= k < |v.elements| && v.elements[k].isView ==>
      forall m <- v.elements[k].Reach :: InnerSizesOf(m) == before[m]
    modifies ViewUnion(v.elements)`innerWidth, ViewUnion(v.elements)`innerHeight
    modifies ViewUnion(v.elements)`outerWidth, ViewUnion(v.elements)`outerHeight
    ensures forall k :: 0 <= k <= i && v.elements[k].isView ==>
      Resized(v.elements[k], ViewParent(v.innerWidth, v.innerHeight), before)
    ensures forall k :: i < k < |v.elements| && v.elements[k].isView ==>
      forall m <- v.elements[k].Reach :: InnerSizesOf(m) == before[m]
    decreases v.Repr, 1
  {
    var c := v.elements[i];
    if c.isView {
      ViewUnionContains(v.elements, i);
      forall k | 0 <= k < |v.elements| && k != i
        ensures v.elements[k].Reach !! c.Reach
      {
        if k < i { DisjointAt(v.elements, k, i); } else { DisjointAt(v.elements, i, k); }
      }
      ResizeViewChild(v, c, body, before);
    }
  }

  /** The call in that pass: RecalculateSize on a View child c of v. */
  method ResizeViewChild(v: View, c: View, body: Vec2, ghost before: map<View, (Option<real>, Option<real>)>)
    requires v.Valid() && v.isView && Layout.Linked(v) && c in v.elements && c.isView && c.Reach <= before.Keys
    requires forall m <- c.Reach :: InnerSizesOf(m) == before[m]
    requires v !in c.Reach
    modifies c.Reach`innerWidth, c.Reach`innerHeight, c.Reach`outerWidth, c.Reach`outerHeight
    ensures Resized(c, ViewParent(v.innerWidth, v.innerHeight), before)
    decreases v.Repr, 0
  {
    assert c.parent == v && Layout.Linked(c);
    ghost var start := InnerSizes(c.Reach);
    RecalculateSize(c, body);
    ResizedFramed(c, ViewParent(v.innerWidth, v.innerHeight), start, before);
  }

  // -------------------------------------------------------------- hit test

  /** The children GetElementAtFromView asks: Views that do not ignore the mouse. */
  function Eligible(v: View): set<View>
    reads v.elements`ignoresMouseInteraction
  {
    set c <- v.elements | c.isView && !c.ignoresMouseInteraction
  }

  /** The entries of s whose element is in ok, from the last to the first. */
  function ReverseKept(s: seq<Keyed>, ok: set<View>): (r: seq<Keyed>)
    ensures forall p <- r :: p in s && p.0 in ok
    ensures forall p <- s :: p.0 in ok ==> p in r
  {
    if s == [] then []
    else (if s[|s| - 1].0 in ok then [s[|s| - 1]] else []) + ReverseKept(s[..|s| - 1], ok)
  }

  /** Reversing a sequence sorted by ascending key gives descending keys. */
  lemma {:induction false} ReverseKeptDescends(s: seq<Keyed>, ok: set<View>)
    requires SortedByKey(s)
    ensures forall i, j :: 0 <= i < j < |ReverseKept(s, ok)| ==> ReverseKept(s, ok)[i].1 >= ReverseKept(s, ok)[j].1
  {
    if s != [] {
      var front := s[..|s| - 1];
      assert SortedByKey(front);
      ReverseKeptDescends(front, ok);
      forall p | p in ReverseKept(front, ok) ensures p.1 <= s[|s| - 1].1 {
        var k :| 0 <= k < |front| && front[k] == p;
      }
    }
  }

  /** The candidates, in the order GetElementAtFromView asks them: descending ZIndex. */
  function HitCandidates(v: View): seq<Keyed>
    reads v.elements`zIndex, v.elements`ignoresMouseInteraction
  {
    ReverseKept(OrderByKey(WithKeys(v.elements)), Eligible(v))
  }

  /** The first non-null GetElementAt among the candidates. */
  function FirstHit(cs: seq<Keyed>, hitOf: View -> Option<View>): (r: Option<View>)
    ensures r.None? <==> forall j :: 0 <= j < |cs| ==> hitOf(cs[j].0).None?
    ensures r.Some? ==> exists i :: 0 <= i < |cs| && r == hitOf(cs[i].0) &&
                                   (forall j :: 0 <= j < i ==> hitOf(cs[j].0).None?)
  {
    if cs == [] then None
    else if hitOf(cs[0].0).Some? then hitOf(cs[0].0)
    else
      var rest := FirstHit(cs[1..], hitOf);
      assert forall j :: 1 <= j < |cs| ==> cs[j] == cs[1..][j - 1];
      rest
  }

  /**
   * GetElementAtFromView. `contains` stands for ContainsPoint(point) of the
   * view, `hitOf` for GetElementAt(point) of each child: an overflow-hidden
   * view missed by the point answers null; otherwise the first child hit in
   * descending ZIndex order, else the view itself when it takes the mouse
   * and holds the point, else null.
   */
  function ElementAtFromView(v: View, contains: bool, hitOf: View -> Option<View>): (r: Option<View>)
    reads v`overflowHidden, v`ignoresMouseInteraction, v.elements`zIndex, v.elements`ignoresMouseInteraction
    ensures v.overflowHidden && !contains ==> r == None
    ensures r.Some? && r != Some(v) ==> exists p :: p in HitCandidates(v) && r == hitOf(p.0)
    ensures r == Some(v) ==> contains || exists p :: p in HitCandidates(v) && r == hitOf(p.0)
  {
    if v.overflowHidden && !contains then None
    else
      var hit := FirstHit(HitCandidates(v), hitOf);
      if hit.Some? then hit
      else if v.ignoresMouseInteraction then None
      else if contains then Some(v)
      else None
  }

  /** The candidates are exactly the eligible children, in descending ZIndex order. */
  lemma HitCandidatesCorrect(v: View)
    ensures forall p <- HitCandidates(v) :: p.0 in Eligible(v) && p.1 == ZKey(p.0)
    ensures forall c <- Eligible(v) :: exists p :: p in HitCandidates(v) && p.0 == c
    ensures forall i, j :: 0 <= i < j < |HitCandidates(v)| ==> HitCandidates(v)[i].1 >= HitCandidates(v)[j].1
  {
    var keyed := WithKeys(v.elements);
    OrderByKeyCorrect(keyed);
    ReverseKeptDescends(OrderByKey(keyed), Eligible(v));
    forall p | p in OrderByKey(keyed) ensures p in keyed {
      assert p in multiset(OrderByKey(keyed));
    }
    forall c | c in Eligible(v) ensures exists p :: p in HitCandidates(v) && p.0 == c {
      var k :| 0 <= k < |v.elements| && v.elements[k] == c;
      var p := keyed[k];
      assert p in multiset(keyed);
      assert p in OrderByKey(keyed);
    }
  }

  /** A candidate that hits bounds the search: FirstHit stops at it or before. */
  lemma {:induction false} FirstHitAtOrBefore(cs: seq<Keyed>, hitOf: View -> Option<View>, j: nat)
    requires j < |cs| && hitOf(cs[j].0).Some?
    ensures exists i :: 0 <= i <= j && FirstHit(cs, hitOf) == hitOf(cs[i].0)
  {
    if hitOf(cs[0].0).None? {
      FirstHitAtOrBefore(cs[1..], hitOf, j - 1);
      var i :| 0 <= i <= j - 1 && FirstHit(cs[1..], hitOf) == hitOf(cs[1..][i].0);
      assert FirstHit(cs, hitOf) == hitOf(cs[i + 1].0);
    }
  }

  /**
   * When the point is not clipped away and some eligible child c reports a
   * hit, the answer is the hit of an eligible child with a ZIndex key at
   * least c's: the topmost hit child wins.
   */
  lemma ElementAtFromViewTopmost(v: View, contains: bool, hitOf: View -> Option<View>, c: View)
    requires !(v.overflowHidden && !contains)
    requires c in Eligible(v) && hitOf(c).Some?
    ensures exists d :: d in Eligible(v) && ZKey(d) >= ZKey(c) && ElementAtFromView(v, contains, hitOf) == hitOf(d)
  {
    HitCandidatesCorrect(v);
    var cs := HitCandidates(v);
    var p :| p in cs && p.0 == c;
    var j :| 0 <= j < |cs| && cs[j] == p;
    var i := TopmostHit(cs, hitOf, j);
    var d := cs[i].0;
    assert cs[i] in cs;
    assert ElementAtFromView(v, contains, hitOf) == hitOf(d);
  }

  /** In candidates sorted by descending key, the first hit has a key at least that of any hitting candidate. */
  lemma TopmostHit(cs: seq<Keyed>, hitOf: View -> Option<View>, j: nat) returns (i: nat)
    requires j < |cs| && hitOf(cs[j].0).Some?
    requires forall a, b :: 0 <= a < b < |cs| ==> cs[a].1 >= cs[b].1
    ensures i <= j && FirstHit(cs, hitOf) == hitOf(cs[i].0) && cs[i].1 >= cs[j].1
  {
    FirstHitAtOrBefore(cs, hitOf, j);
    i :| 0 <= i <= j && FirstHit(cs, hitOf) == hitOf(cs[i].0);
  }

  /**
   * The other answers: null exactly when the point is clipped away, or no
   * eligible child hits and the view ignores the mouse or misses the point;
   * the view itself when no eligible child hits and it takes the point.
   */
  lemma ElementAtFromViewMisses(v: View, contains: bool, hitOf: View -> Option<View>)
    requires !(v.overflowHidden && !contains)
    requires forall c <- Eligible(v) :: hitOf(c).None?
    ensures ElementAtFromView(v, contains, hitOf) == (if !v.ignoresMouseInteraction && contains then Some(v) else None)
  {
    HitCandidatesCorrect(v);
    var cs := HitCandidates(v);
    forall j | 0 <= j < |cs| ensures hitOf(cs[j].0).None? {
      assert cs[j] in cs;
    }
  }

  // --------------------------------------------------------- append a child

  /** List<T>.Remove: the list without the first occurrence of x, if any. */
  function RemoveFirst(s: seq<View>, x: View): (r: seq<View>)
    ensures x in s ==> multiset(r) == multiset(s) - multiset{x} && |r| == |s| - 1
    ensures x !in s ==> r == s
  {
    if s == [] then []
    else
      assert s == [s[0]] + s[1..];
      if s[0] == x then s[1..]
      else [s[0]] + RemoveFirst(s[1..], x)
  }

  /**
   * The Elements of this view after AppendFromView(child): the child is
   * first removed from its parent, which takes it out of this list when
   * this view already held it (`own`), and is then added last.
   */
  function AppendFromView(es: seq<View>, child: View, own: bool): (r: seq<View>)
    ensures |r| > 0 && r[|r| - 1] == child
    ensures r[..|r| - 1] == if own then RemoveFirst(es, child) else es
  {
    (if own then RemoveFirst(es, child) else es) + [child]
  }

  /**
   * After AppendFromView the child occurs once more than before, unless this
   * view already held it, when the count stays the same; every other element
   * keeps its count.
   */
  lemma AppendFromViewCounts(es: seq<View>, child: View, own: bool)
    ensures multiset(AppendFromView(es, child, own)) ==
      if own && child in es then multiset(es) else multiset(es) + multiset{child}
  {
    var r := AppendFromView(es, child, own);
    assert r == r[..|r| - 1] + [child];
  }
}
