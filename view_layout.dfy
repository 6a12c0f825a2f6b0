/**
 * View.Layout.cs: the box model of a View. A view resolves its outer size
 * against the size of its container, derives its dimensions (outer less
 * margins) and inner rectangle (dimensions less padding and border), grows
 * an unspecified axis to its content, and, when its Position changed,
 * places its rectangles at its start and propagates the start to its View
 * children.
 */
module ViewLayout {
  import opened HostTypes
  import opened ViewNode
  import opened ViewProperties
  import opened UIElementExtensions
  import opened ViewLayoutFlow
  import opened ViewNonVirtualMethods
  import Flexbox = ViewLayoutFlexbox

  // ------------------------------------------------------------ container

  /**
   * GetContainerSize. A root sizes against the screen (`screen` stands for
   * SilkyUIHelper.GetScreenScaledSize()). An absolute view, or a child of a
   * plain UIElement, sees its parent's whole inner size; a relative child of
   * a View sees the parent's inner size only on the axes the parent
   * specifies, and 0 on the others.
   */
  function GetContainerSize(v: View, screen: Vec2): (r: Vec2)
    reads v`parent, v`positioning, v.parent
    ensures v.parent == null ==> r == screen
    ensures v.parent != null && (IsAbsolute(v) || !v.parent.isView) ==>
      r == Vec2(v.parent.inner.width, v.parent.inner.height)
    ensures v.parent != null && !IsAbsolute(v) && v.parent.isView ==>
      (!v.parent.specifyWidth ==> r.x == 0.0) && (!v.parent.specifyHeight ==> r.y == 0.0)
  {
    if v.parent == null then screen
    else
      var size := Vec2(v.parent.inner.width, v.parent.inner.height);
      if IsAbsolute(v) || !v.parent.isView then size
      else Vec2(if v.parent.specifyWidth then size.x else 0.0, if v.parent.specifyHeight then size.y else 0.0)
  }

  /**
   * Each axis of a child's container is the parent's inner size on that
   * axis or 0, and it is 0 exactly for a non-absolute child of a View that
   * leaves the axis unspecified (when the parent's inner size is not 0).
   */
  lemma ContainerOfChild(v: View, screen: Vec2)
    requires v.parent != null
    ensures var r := GetContainerSize(v, screen);
      (r.x == v.parent.inner.width || r.x == 0.0) && (r.y == v.parent.inner.height || r.y == 0.0)
    ensures var r := GetContainerSize(v, screen);
      v.parent.inner.width != 0.0 ==>
        (r.x == 0.0 <==> !IsAbsolute(v) && v.parent.isView && !v.parent.specifyWidth)
    ensures var r := GetContainerSize(v, screen);
      v.parent.inner.height != 0.0 ==>
        (r.y == 0.0 <==> !IsAbsolute(v) && v.parent.isView && !v.parent.specifyHeight)
  {
  }

  // ------------------------------------------------------------ outer size

  /** GetWidthValue: Width against the container, clamped into [MinWidth, MaxWidth]. */
  function GetWidthValue(v: View, container: real): (r: real)
    reads v`width, v`minWidth, v`maxWidth
    ensures var min, max := v.minWidth.GetValue(container), v.maxWidth.GetValue(container);
      (min <= max ==> min <= r <= max) &&
      (min <= v.width.GetValue(container) <= max ==> r == v.width.GetValue(container)) &&
      (max < min ==> r == min)
  {
    Clamp(v.width.GetValue(container), v.minWidth.GetValue(container), v.maxWidth.GetValue(container))
  }

  /** GetHeightValue: Height against the container, clamped into [MinHeight, MaxHeight]. */
  function GetHeightValue(v: View, container: real): (r: real)
    reads v`height, v`minHeight, v`maxHeight
    ensures var min, max := v.minHeight.GetValue(container), v.maxHeight.GetValue(container);
      (min <= max ==> min <= r <= max) &&
      (min <= v.height.GetValue(container) <= max ==> r == v.height.GetValue(container)) &&
      (max < min ==> r == min)
  {
    Clamp(v.height.GetValue(container), v.minHeight.GetValue(container), v.maxHeight.GetValue(container))
  }

  /**
   * CalculateOuterSize: under BorderBox the given size already holds the
   * padding and border, so only the margins are added; under ContentBox
   * padding, margins and twice the border are added.
   */
  function CalculateOuterSize(v: View, width: real, height: real): (r: Vec2)
    reads v`boxSizing, v`marginLeft, v`marginRight, v`marginTop, v`marginBottom
    reads v`paddingLeft, v`paddingRight, v`paddingTop, v`paddingBottom, v.rounded`border
    // taking the margins back off gives the given size under BorderBox, and
    // taking the margins, padding and border back off gives it under ContentBox
    ensures v.boxSizing == BorderBox ==> r.x - HMargin(v) == width && r.y - VMargin(v) == height
    ensures v.boxSizing == ContentBox ==>
      r.x - HMargin(v) - HPadding(v) - Border(v) * 2.0 == width &&
      r.y - VMargin(v) - VPadding(v) - Border(v) * 2.0 == height
  {
    match v.boxSizing
    case BorderBox => Vec2(width + HMargin(v), height + VMargin(v))
    case ContentBox => Vec2(width + HPadding(v) + HMargin(v) + Border(v) * 2.0,
                            height + VPadding(v) + VMargin(v) + Border(v) * 2.0)
  }

  /** The width a view resolves to: the clamped Width when specified, else 0. */
  function ResolvedWidth(v: View, container: real): real
    reads v`specifyWidth, v`width, v`minWidth, v`maxWidth
  {
    if v.specifyWidth then GetWidthValue(v, container) else 0.0
  }

  /** The height a view resolves to: the clamped Height when specified, else 0. */
  function ResolvedHeight(v: View, container: real): real
    reads v`specifyHeight, v`height, v`minHeight, v`maxHeight
  {
    if v.specifyHeight then GetHeightValue(v, container) else 0.0
  }

  /** GetOuterSizeByContainer: the outer size of the resolved width and height. */
  function GetOuterSizeByContainer(v: View, container: Vec2): (r: Vec2)
    reads v`specifyWidth, v`width, v`minWidth, v`maxWidth
    reads v`specifyHeight, v`height, v`minHeight, v`maxHeight
    reads v`boxSizing, v`marginLeft, v`marginRight, v`marginTop, v`marginBottom
    reads v`paddingLeft, v`paddingRight, v`paddingTop, v`paddingBottom, v.rounded`border
    // less the margins (and under ContentBox the padding and border), each axis
    // is the clamped Width/Height when specified and 0 when not
    ensures var w := r.x - HMargin(v) - (if v.boxSizing == ContentBox then HPadding(v) + Border(v) * 2.0 else 0.0);
      (v.specifyWidth ==> w == GetWidthValue(v, container.x)) && (!v.specifyWidth ==> w == 0.0)
    ensures var h := r.y - VMargin(v) - (if v.boxSizing == ContentBox then VPadding(v) + Border(v) * 2.0 else 0.0);
      (v.specifyHeight ==> h == GetHeightValue(v, container.y)) && (!v.specifyHeight ==> h == 0.0)
  {
    CalculateOuterSize(v, ResolvedWidth(v, container.x), ResolvedHeight(v, container.y))
  }

  /**
   * RecalculateSize: the outer size is GetOuterSizeByContainer, the
   * dimensions are the outer size less the margins, and the inner size is
   * the dimensions less the padding and twice the border. No X or Y moves.
   */
  method RecalculateSize(v: View, container: Vec2)
    modifies v`outer, v`dims, v`inner
    ensures var o := GetOuterSizeByContainer(v, container);
      v.outer == old(v.outer).(width := o.x, height := o.y)
    ensures v.dims == old(v.dims).(width := v.outer.width - v.marginLeft - v.marginRight,
                                   height := v.outer.height - v.marginTop - v.marginBottom)
    ensures v.inner == old(v.inner).(width := v.dims.width - HPadding(v) - Border(v) * 2.0,
                                     height := v.dims.height - VPadding(v) - Border(v) * 2.0)
  {
    var outerSize := GetOuterSizeByContainer(v, container);
    v.outer := v.outer.(width := outerSize.x, height := outerSize.y);
    v.dims := v.dims.(width := v.outer.width - v.marginLeft - v.marginRight,
                      height := v.outer.height - v.marginTop - v.marginBottom);
    v.inner := v.inner.(width := v.dims.width - HPadding(v) - Border(v) * 2.0,
                        height := v.dims.height - VPadding(v) - Border(v) * 2.0);
  }

  /**
   * What BoxSizing means for the sizes RecalculateSize derives: under
   * BorderBox the resolved size is the size of the dimensions (the border
   * box), under ContentBox it is the size of the inner rectangle (the
   * content box).
   */
  lemma BoxSizingMeaning(v: View, container: Vec2)
    ensures var o := GetOuterSizeByContainer(v, container);
      var dims := Vec2(o.x - v.marginLeft - v.marginRight, o.y - v.marginTop - v.marginBottom);
      var inner := Vec2(dims.x - HPadding(v) - Border(v) * 2.0, dims.y - VPadding(v) - Border(v) * 2.0);
      (v.boxSizing == BorderBox ==> dims == Vec2(ResolvedWidth(v, container.x), ResolvedHeight(v, container.y))) &&
      (v.boxSizing == ContentBox ==> inner == Vec2(ResolvedWidth(v, container.x), ResolvedHeight(v, container.y)))
  {
  }

  // ----------------------------------------------------------- content size

  /**
   * The height of a run of boxes stacked with `gap`, written as the source
   * writes it: the sum of each height plus one gap, less one gap.
   */
  function StackedHeight(heights: seq<real>, gap: real): (r: real)
    ensures heights != [] ==> r == StackOffset(heights, gap, |heights| - 1) + heights[|heights| - 1]
  {
    StackOffset(heights, gap, |heights|) - gap
  }

  /**
   * GetFlowSize as written: X is 0 and Y sums the flow elements' outer
   * heights with the horizontal gap Gap.X between them.
   */
  function GetFlowSize(v: View): (r: Vec2)
    reads v`flowElements, v`gap, v.flowElements`outer
    ensures r.x == 0.0 && r.y == StackedHeight(OuterHeights(v.flowElements), v.gap.x)
  {
    Vec2(0.0, StackOffset(OuterHeights(v.flowElements), v.gap.x, |v.flowElements|) - v.gap.x)
  }

  /**
   * GetFlowSize as written disagrees with ReflowFlowLayout, which stacks
   * with Gap.Y: for two or more flow elements and Gap.X != Gap.Y the
   * reported height is off by (n - 1) * (Gap.X - Gap.Y).
   */
  lemma {:induction false} FlowSizeMismatch(heights: seq<real>, gx: real, gy: real)
    requires |heights| >= 2 && gx != gy
    ensures StackedHeight(heights, gx) - StackedHeight(heights, gy) == (|heights| as real - 1.0) * (gx - gy)
    ensures StackedHeight(heights, gx) != StackedHeight(heights, gy)
  {
    var n := |heights|;
    StackOffsetIsSum(heights, gx, n);
    StackOffsetIsSum(heights, gy, n);
    assert heights[..n] == heights;
    assert (n as real - 1.0) * (gx - gy) != 0.0;
  }

  /** Two 10-pixel flow elements with Gap = (5, 0): stacked 20 high, reported 25. */
  lemma FlowSizeExample()
    ensures StackedHeight([10.0, 10.0], 5.0) == 25.0
    ensures StackedHeight([10.0, 10.0], 0.0) == 20.0
  {
    assert StackOffset([10.0, 10.0], 5.0, 2) == 30.0;
    assert StackOffset([10.0, 10.0], 0.0, 2) == 20.0;
  }

  /**
   * GetFlowSize as evidently intended: the height is where ReflowFlowLayout's
   * last flow element ends, stacked with Gap.Y.
   */
  function FlowSize(v: View): (r: Vec2)
    reads v`flowElements, v`gap, v.flowElements`outer
    ensures r.x == 0.0
    ensures v.flowElements != [] ==>
      var hs := OuterHeights(v.flowElements);
      r.y == StackOffset(hs, v.gap.y, |hs| - 1) + hs[|hs| - 1]
  {
    Vec2(0.0, StackedHeight(OuterHeights(v.flowElements), v.gap.y))
  }

  /**
   * The content size of a flow or flex container, as GetContentSize
   * computes it: a flow container reports GetFlowSize as written.
   */
  function ContentSize(v: View): Vec2
    reads v`display, v`flowElements, v`gap, v.flowElements`outer, v`flexItems, v`flexDirection
  {
    match v.display
    case Flow => GetFlowSize(v)
    case Flexbox => Flexbox.GetFlexboxSize(v)
  }

  /**
   * GetContentSize: the content size (out parameter) and whether it is not
   * empty, i.e. some component is positive. A flow container reports its
   * flow elements stacked with Gap.X, a flex container the span of its
   * lines.
   */
  function GetContentSize(v: View): (r: (Vec2, bool))
    reads v`display, v`flowElements, v`gap, v.flowElements`outer, v`flexItems, v`flexDirection
    ensures r.0 == ContentSize(v)
    ensures r.1 <==> r.0.x > 0.0 || r.0.y > 0.0
  {
    var content := ContentSize(v);
    (content, content.x > 0.0 || content.y > 0.0)
  }

  /**
   * What a flow container's content size means against its layout: the
   * reported height is where ReflowFlowLayout ends the last flow element,
   * off by (n - 1) * (Gap.X - Gap.Y) for n flow elements.
   */
  lemma {:induction false} FlowContentAgainstLayout(v: View)
    requires v.display == Flow && v.flowElements != []
    ensures var hs := OuterHeights(v.flowElements);
      var n := |hs|;
      GetContentSize(v).0.y == StackOffset(hs, v.gap.y, n - 1) + hs[n - 1] + (n as real - 1.0) * (v.gap.x - v.gap.y)
  {
    var hs := OuterHeights(v.flowElements);
    var n := |hs|;
    StackOffsetIsSum(hs, v.gap.x, n);
    StackOffsetIsSum(hs, v.gap.y, n);
    assert hs[..n] == hs;
  }

  /** OuterWidthByContent: a content width plus margins, padding and twice the border. */
  function OuterWidthByContent(v: View, width: real): real
    reads v`marginLeft, v`marginRight, v`paddingLeft, v`paddingRight, v.rounded`border
  {
    width + HMargin(v) + HPadding(v) + Border(v) * 2.0
  }

  /** OuterHeightByContent: a content height plus margins, padding and twice the border. */
  function OuterHeightByContent(v: View, height: real): real
    reads v`marginTop, v`marginBottom, v`paddingTop, v`paddingBottom, v.rounded`border
  {
    height + VMargin(v) + VPadding(v) + Border(v) * 2.0
  }

  // ------------------------------------------------------- adapting children

  /** The sizes of the outer, dimensions and inner rectangles along one axis. */
  datatype AxisSizes = AxisSizes(outer: real, dims: real, inner: real)

  /**
   * The box model along one axis: the dimensions are the outer size less
   * the margins, the inner size is the dimensions less the inset (padding
   * plus twice the border).
   */
  predicate Consistent(a: AxisSizes, margins: real, inset: real)
  {
    a.dims == a.outer - margins && a.inner == a.dims - inset
  }

  /** The widths of a view's three rectangles. */
  function XSizes(v: View): AxisSizes
    reads v`outer, v`dims, v`inner
  {
    AxisSizes(v.outer.width, v.dims.width, v.inner.width)
  }

  /** The heights of a view's three rectangles. */
  function YSizes(v: View): AxisSizes
    reads v`outer, v`dims, v`inner
  {
    AxisSizes(v.outer.height, v.dims.height, v.inner.height)
  }

  /** Horizontal padding plus twice the border. */
  function XInset(v: View): real
    reads v`paddingLeft, v`paddingRight, v.rounded`border
  {
    HPadding(v) + Border(v) * 2.0
  }

  /** Vertical padding plus twice the border. */
  function YInset(v: View): real
    reads v`paddingTop, v`paddingBottom, v.rounded`border
  {
    VPadding(v) + Border(v) * 2.0
  }

  /** RecalculateSize leaves each axis consistent. */
  lemma RecalculatedSizesConsistent(v: View)
    requires v.dims.width == v.outer.width - v.marginLeft - v.marginRight
    requires v.inner.width == v.dims.width - HPadding(v) - Border(v) * 2.0
    requires v.dims.height == v.outer.height - v.marginTop - v.marginBottom
    requires v.inner.height == v.dims.height - VPadding(v) - Border(v) * 2.0
    ensures Consistent(XSizes(v), HMargin(v), XInset(v)) && Consistent(YSizes(v), VMargin(v), YInset(v))
  {
  }

  /**
   * An unspecified axis resolves to 0, so its outer size is the margins
   * alone under BorderBox and the margins plus the inset under ContentBox.
   */
  lemma UnspecifiedOuterSize(v: View, container: Vec2)
    ensures !v.specifyWidth ==>
      GetOuterSizeByContainer(v, container).x == HMargin(v) + (if v.boxSizing == ContentBox then XInset(v) else 0.0)
    ensures !v.specifyHeight ==>
      GetOuterSizeByContainer(v, container).y == VMargin(v) + (if v.boxSizing == ContentBox then YInset(v) else 0.0)
  {
  }

  /**
   * The AdaptingChildren step on one axis as written: the outer size grows
   * to the content plus margins and inset, the dimensions follow, but the
   * inner size is only decreased by the inset.
   */
  function AdaptAxisAsWritten(a: AxisSizes, content: real, margins: real, inset: real): AxisSizes
  {
    var outer := content + margins + inset;
    AxisSizes(outer, outer - margins, a.inner - inset)
  }

  /**
   * On an unspecified axis, whose sizes RecalculateSize made consistent,
   * the inner size AdaptAxisAsWritten leaves is below any positive content
   * (for a non-negative inset): the inner rectangle does not hold the
   * content the outer rectangle was grown for.
   */
  lemma AdaptAxisAsWrittenLosesContent(a: AxisSizes, content: real, margins: real, inset: real)
    requires Consistent(a, margins, inset)
    requires a.outer == margins || a.outer == margins + inset
    requires inset >= 0.0 && content > 0.0
    ensures AdaptAxisAsWritten(a, content, margins, inset).inner < content
    ensures !Consistent(AdaptAxisAsWritten(a, content, margins, inset), margins, inset)
  {
  }

  /**
   * BorderBox, no margins, padding or border, and content 10 high: the
   * height of the dimensions becomes 10 while the inner height stays 0.
   */
  lemma AdaptAxisAsWrittenExample()
    ensures AdaptAxisAsWritten(AxisSizes(0.0, 0.0, 0.0), 10.0, 0.0, 0.0) == AxisSizes(10.0, 10.0, 0.0)
  {
  }

  /**
   * The AdaptingChildren step on one axis as evidently intended: all three
   * sizes are recomputed, so the axis is consistent and the inner size is
   * the content.
   */
  function AdaptAxis(content: real, margins: real, inset: real): (r: AxisSizes)
    ensures Consistent(r, margins, inset) && r.inner == content
  {
    var outer := content + margins + inset;
    AxisSizes(outer, outer - margins, outer - margins - inset)
  }

  /**
   * AdaptingChildren as written: nothing changes when both axes are
   * specified or the content is empty; otherwise each unspecified axis
   * grows to the content and its inner size is decreased by the inset.
   */
  method AdaptingChildrenAsWritten(v: View)
    modifies v`outer, v`dims, v`inner
    ensures XSizes(v) == GrownX(old(InsetsOf(v)), old(XSizes(v)), old(GetContentSize(v)))
    ensures YSizes(v) == GrownY(old(InsetsOf(v)), old(YSizes(v)), old(GetContentSize(v)))
    ensures v.outer.Position() == old(v.outer.Position()) && v.dims.Position() == old(v.dims.Position())
    ensures v.inner.Position() == old(v.inner.Position())
  {
    var (content, nonEmpty) := GetContentSize(v);
    AdaptToAsWritten(v, content, nonEmpty);
  }

  /** The body of AdaptingChildrenAsWritten once the content size is known. */
  method AdaptToAsWritten(v: View, content: Vec2, nonEmpty: bool)
    modifies v`outer, v`dims, v`inner
    ensures XSizes(v) == if !v.specifyWidth && nonEmpty
      then AdaptAxisAsWritten(old(XSizes(v)), content.x, HMargin(v), XInset(v)) else old(XSizes(v))
    ensures YSizes(v) == if !v.specifyHeight && nonEmpty
      then AdaptAxisAsWritten(old(YSizes(v)), content.y, VMargin(v), YInset(v)) else old(YSizes(v))
    ensures v.outer.Position() == old(v.outer.Position()) && v.dims.Position() == old(v.dims.Position())
    ensures v.inner.Position() == old(v.inner.Position())
  {
    if (v.specifyWidth && v.specifyHeight) || !nonEmpty {
      return;
    }
    if !v.specifyWidth {
      v.outer := v.outer.(width := OuterWidthByContent(v, content.x));
      v.dims := v.dims.(width := v.outer.width - v.marginLeft - v.marginRight);
      v.inner := v.inner.(width := v.inner.width - (HPadding(v) + Border(v) * 2.0));
    }
    if !v.specifyHeight {
      v.outer := v.outer.(height := OuterHeightByContent(v, content.y));
      v.dims := v.dims.(height := v.outer.height - v.marginTop - v.marginBottom);
      v.inner := v.inner.(height := v.inner.height - (VPadding(v) + Border(v) * 2.0));
    }
  }

  /**
   * AdaptingChildren as evidently intended: each unspecified axis of a view
   * with non-empty content is recomputed from the content, so its inner
   * size is the content size.
   */
  method AdaptingChildren(v: View)
    modifies v`outer, v`dims, v`inner
    ensures var content := old(GetContentSize(v));
      XSizes(v) == if !v.specifyWidth && content.1
        then AdaptAxis(content.0.x, HMargin(v), XInset(v)) else old(XSizes(v))
    ensures var content := old(GetContentSize(v));
      YSizes(v) == if !v.specifyHeight && content.1
        then AdaptAxis(content.0.y, VMargin(v), YInset(v)) else old(YSizes(v))
    ensures v.outer.Position() == old(v.outer.Position()) && v.dims.Position() == old(v.dims.Position())
    ensures v.inner.Position() == old(v.inner.Position())
  {
    var (content, nonEmpty) := GetContentSize(v);
    AdaptTo(v, content, nonEmpty);
  }

  /** The body of AdaptingChildren once the content size is known. */
  method AdaptTo(v: View, content: Vec2, nonEmpty: bool)
    modifies v`outer, v`dims, v`inner
    ensures XSizes(v) == if !v.specifyWidth && nonEmpty
      then AdaptAxis(content.x, HMargin(v), XInset(v)) else old(XSizes(v))
    ensures YSizes(v) == if !v.specifyHeight && nonEmpty
      then AdaptAxis(content.y, VMargin(v), YInset(v)) else old(YSizes(v))
    ensures v.outer.Position() == old(v.outer.Position()) && v.dims.Position() == old(v.dims.Position())
    ensures v.inner.Position() == old(v.inner.Position())
  {
    if (v.specifyWidth && v.specifyHeight) || !nonEmpty {
      return;
    }
    if !v.specifyWidth {
      v.outer := v.outer.(width := OuterWidthByContent(v, content.x));
      v.dims := v.dims.(width := v.outer.width - v.marginLeft - v.marginRight);
      v.inner := v.inner.(width := v.dims.width - HPadding(v) - Border(v) * 2.0);
    }
    if !v.specifyHeight {
      v.outer := v.outer.(height := OuterHeightByContent(v, content.y));
      v.dims := v.dims.(height := v.outer.height - v.marginTop - v.marginBottom);
      v.inner := v.inner.(height := v.dims.height - VPadding(v) - Border(v) * 2.0);
    }
  }

  /**
   * The sizes RecalculateSize gives an axis whose outer size is `outer`:
   * the margins and then the inset are taken off.
   */
  function Measured(outer: real, margins: real, inset: real): (r: AxisSizes)
    ensures Consistent(r, margins, inset) && r.outer == outer
  {
    AxisSizes(outer, outer - margins, outer - margins - inset)
  }

  /**
   * What AdaptingChildren reads of a view besides its sizes and its
   * content: whether each axis is specified, and each axis's margins and
   * inset.
   */
  datatype Insets = Insets(specifyWidth: bool, specifyHeight: bool, hMargin: real, xInset: real, vMargin: real, yInset: real)

  /** The Insets of a view. */
  function InsetsOf(v: View): Insets
    reads v`specifyWidth, v`specifyHeight, v`marginLeft, v`marginRight, v`marginTop, v`marginBottom
    reads v`paddingLeft, v`paddingRight, v`paddingTop, v`paddingBottom, v.rounded`border
  {
    Insets(v.specifyWidth, v.specifyHeight, HMargin(v), XInset(v), VMargin(v), YInset(v))
  }

  /**
   * The widths AdaptingChildren as written leaves, from the widths `before`
   * and the content size: grown when the width is unspecified and the
   * content not empty, kept otherwise.
   */
  function GrownX(b: Insets, before: AxisSizes, content: (Vec2, bool)): AxisSizes
  {
    if !b.specifyWidth && content.1 then AdaptAxisAsWritten(before, content.0.x, b.hMargin, b.xInset) else before
  }

  /** The heights AdaptingChildren as written leaves, as GrownX for widths. */
  function GrownY(b: Insets, before: AxisSizes, content: (Vec2, bool)): AxisSizes
  {
    if !b.specifyHeight && content.1 then AdaptAxisAsWritten(before, content.0.y, b.vMargin, b.yInset) else before
  }

  /**
   * What Recalculate leaves on an unspecified axis with non-empty content,
   * worked out: the outer size is the content plus margins and inset, but
   * the inner size does not depend on the content at all. It is where
   * RecalculateSize put it (0 under ContentBox, minus the inset under
   * BorderBox) less the inset once more.
   */
  lemma UnspecifiedAxesAfterRecalculate(v: View, container: Vec2, content: (Vec2, bool))
    requires content.1
    ensures var o := GetOuterSizeByContainer(v, container);
      var r := GrownX(InsetsOf(v), Measured(o.x, HMargin(v), XInset(v)), content);
      !v.specifyWidth ==>
        r.outer == content.0.x + HMargin(v) + XInset(v) && r.dims == content.0.x + XInset(v) &&
        r.inner == (if v.boxSizing == ContentBox then 0.0 else -XInset(v)) - XInset(v)
    ensures var o := GetOuterSizeByContainer(v, container);
      var r := GrownY(InsetsOf(v), Measured(o.y, VMargin(v), YInset(v)), content);
      !v.specifyHeight ==>
        r.outer == content.0.y + VMargin(v) + YInset(v) && r.dims == content.0.y + YInset(v) &&
        r.inner == (if v.boxSizing == ContentBox then 0.0 else -YInset(v)) - YInset(v)
  {
    UnspecifiedOuterSize(v, container);
  }

  // --------------------------------------------------------------- alignment

  /**
   * The part of the free space `free` an alignment fraction puts before a
   * box: with a fraction in [0, 1] the box stays inside, and one half
   * centres it.
   */
  function Aligned(free: real, align: real): (r: real)
    ensures free >= 0.0 && 0.0 <= align <= 1.0 ==> 0.0 <= r <= free
    ensures align == 0.5 ==> r == free / 2.0
    ensures align == 0.0 ==> r == 0.0
  {
    if free >= 0.0 && 0.0 <= align <= 1.0 then
      assert free * align <= free * 1.0;
      free * align
    else free * align
  }

  /**
   * The offset of a box of size `outer` in `container`: on an axis it is
   * aligned on, the alignment fraction's share of the free space, and zero
   * on any other axis.
   */
  function AlignIn(container: Vec2, outer: Rect, hAlign: real, vAlign: real, alignX: bool, alignY: bool): (r: Vec2)
    ensures alignX && 0.0 <= hAlign <= 1.0 && outer.width <= container.x ==> 0.0 <= r.x <= container.x - outer.width
    ensures alignY && 0.0 <= vAlign <= 1.0 && outer.height <= container.y ==> 0.0 <= r.y <= container.y - outer.height
    ensures alignX && hAlign == 0.5 ==> r.x + outer.width / 2.0 == container.x / 2.0
    ensures alignY && vAlign == 0.5 ==> r.y + outer.height / 2.0 == container.y / 2.0
    ensures !alignX ==> r.x == 0.0
    ensures !alignY ==> r.y == 0.0
  {
    Vec2(if alignX then Aligned(container.x - outer.width, hAlign) else 0.0,
         if alignY then Aligned(container.y - outer.height, vAlign) else 0.0)
  }

  /** The view is aligned horizontally: it is absolute, or a relative child of a View that specifies its width. */
  predicate AlignsX(v: View)
    reads v`positioning, v`parent, (if v.parent == null then {} else {v.parent})`specifyWidth
  {
    IsAbsolute(v) || (IsRelative(v) && v.parent != null && v.parent.isView && v.parent.specifyWidth)
  }

  /** The view is aligned vertically: it is absolute, or a relative child of a View that specifies its height. */
  predicate AlignsY(v: View)
    reads v`positioning, v`parent, (if v.parent == null then {} else {v.parent})`specifyHeight
  {
    IsAbsolute(v) || (IsRelative(v) && v.parent != null && v.parent.isView && v.parent.specifyHeight)
  }

  /**
   * The offset Recalculate adds to Position once the size is known: an
   * absolute view is aligned by (HAlign, VAlign) in its container, a
   * relative child of a View only on the axes that parent specifies, and
   * any other view not at all.
   */
  function AlignShift(v: View, container: Vec2): Vec2
    reads v`positioning, v`outer, v`hAlign, v`vAlign, v`parent
    reads (if v.parent == null then {} else {v.parent})`specifyWidth, (if v.parent == null then {} else {v.parent})`specifyHeight
  {
    AlignIn(container, v.outer, v.hAlign, v.vAlign, AlignsX(v), AlignsY(v))
  }

  /**
   * Where the alignment offset puts a view: an absolute view with fractions
   * in [0, 1] stays inside its container, one half centres it, and a view
   * that is neither absolute nor a relative child of a sized View does not
   * move.
   */
  lemma AlignShiftPlacement(v: View, container: Vec2)
    ensures var r := AlignShift(v, container);
      (IsAbsolute(v) && 0.0 <= v.hAlign <= 1.0 && v.outer.width <= container.x ==>
        0.0 <= r.x <= container.x - v.outer.width) &&
      (IsAbsolute(v) && 0.0 <= v.vAlign <= 1.0 && v.outer.height <= container.y ==>
        0.0 <= r.y <= container.y - v.outer.height) &&
      (v.hAlign == 0.5 && AlignsX(v) ==> r.x + v.outer.width / 2.0 == container.x / 2.0) &&
      (v.vAlign == 0.5 && AlignsY(v) ==> r.y + v.outer.height / 2.0 == container.y / 2.0) &&
      (!IsAbsolute(v) && (v.parent == null || !v.parent.isView || !v.parent.specifyWidth) ==> r.x == 0.0) &&
      (!IsAbsolute(v) && (v.parent == null || !v.parent.isView || !v.parent.specifyHeight) ==> r.y == 0.0)
  {
  }

  // ---------------------------------------------------------------- position

  /**
   * GetStart: where a view's Position is measured from. A root starts at
   * the origin, a child of a plain UIElement at the parent's inner
   * position, and a child of a View at the parent's inner position plus its
   * ScrollPosition.
   */
  function GetStart(v: View): (r: Vec2)
    reads v`parent, v.parent
    ensures v.parent == null ==> r == Zero
    ensures v.parent != null && v.parent.isView ==> r == ChildStart(v.parent)
    // an unscrolled parent of either kind starts its children at its inner position
    ensures v.parent != null && v.parent.scrollPosition == Zero ==> r == v.parent.inner.Position()
  {
    if v.parent == null then Zero
    else if !v.parent.isView then v.parent.inner.Position()
    else ChildStart(v.parent)
  }

  /** The start a View hands its View children: its inner position plus its scroll position. */
  function ChildStart(v: View): Vec2
    reads v`inner, v`scrollPosition
  {
    v.inner.Position().Plus(v.scrollPosition)
  }

  /**
   * The rectangles of one view placed from `start`: outer at start plus
   * Position, dimensions inside the left and top margins, inner inside the
   * border and the left and top padding.
   */
  ghost predicate Placed(m: View, start: Vec2)
    reads m`outer, m`dims, m`inner, m`position, m`marginLeft, m`marginTop
    reads m`paddingLeft, m`paddingTop, m.rounded`border
  {
    m.outer.Position() == start.Plus(m.position) &&
    m.dims.Position() == m.outer.Position().Plus(Vec2(m.marginLeft, m.marginTop)) &&
    m.inner.Position() == m.dims.Position().Plus(Vec2(Border(m) + m.paddingLeft, Border(m) + m.paddingTop))
  }

  /**
   * The nodes of v's subtree after ApplyPosition(start): v is placed from
   * `start` with its change flag cleared, and so, recursively, is every View
   * child from v's ChildStart. Plain UIElement children and their subtrees
   * are not visited.
   */
  ghost predicate Applied(v: View, start: Vec2)
    requires v.Valid()
    reads v.Repr`outer, v.Repr`dims, v.Repr`inner, v.Repr`position, v.Repr`positionChanged
    reads v.Repr`scrollPosition, v.Repr`marginLeft, v.Repr`marginTop, v.Repr`paddingLeft, v.Repr`paddingTop
    reads v.Rims`border
    decreases v.Repr
  {
    Placed(v, start) && !v.positionChanged &&
    forall c <- v.elements :: c.isView ==> Applied(c, ChildStart(v))
  }

  /** The sizes of a view's three rectangles, which placing never changes. */
  function BoxSizes(m: View): (Vec2, Vec2, Vec2)
    reads m`outer, m`dims, m`inner
  {
    (Vec2(m.outer.width, m.outer.height), Vec2(m.dims.width, m.dims.height), Vec2(m.inner.width, m.inner.height))
  }

  /**
   * ApplyPosition: places v from `start` and each View child, recursively,
   * from v's new inner position plus its scroll position, clearing the
   * change flag of every node it visits. It writes only the nodes it visits
   * (v.Reach), and only their positions and flags.
   */
  method ApplyPosition(v: View, start: Vec2)
    requires v.Valid()
    modifies v.Reach`outer, v.Reach`dims, v.Reach`inner, v.Reach`positionChanged
    ensures Applied(v, start)
    ensures forall m {:trigger BoxSizes(m)} | m in v.Reach :: BoxSizes(m) == old(BoxSizes(m))
    decreases v.Repr, 2
  {
    PlaceSelf(v, start);
    var childStart := v.inner.Position().Plus(v.scrollPosition);
    ParentOutsideChildren(v);
    ApplyToChildren(v, childStart);
    ClearPositionChanged(v, start);
  }

  /** The first step of ApplyPosition: the three rectangles of v move to `start` plus its Position. */
  method PlaceSelf(v: View, start: Vec2)
    modifies v`outer, v`dims, v`inner
    ensures Placed(v, start) && BoxSizes(v) == old(BoxSizes(v))
  {
    v.outer := v.outer.(x := start.x + v.position.x, y := start.y + v.position.y);
    v.dims := v.dims.(x := v.outer.x + v.marginLeft, y := v.outer.y + v.marginTop);
    v.inner := v.inner.(x := v.dims.x + Border(v) + v.paddingLeft, y := v.dims.y + Border(v) + v.paddingTop);
  }

  /** The last step of ApplyPosition: with v and its children placed, clearing v's flag completes Applied. */
  method ClearPositionChanged(v: View, start: Vec2)
    requires v.Valid() && Placed(v, start)
    requires forall c <- v.elements :: c.isView ==> Applied(c, ChildStart(v))
    modifies v`positionChanged
    ensures Applied(v, start) && BoxSizes(v) == old(BoxSizes(v))
  {
    v.positionChanged := false;
  }

  /** The loop of ApplyPosition: each View child, in order, is placed from `childStart`. */
  method ApplyToChildren(v: View, childStart: Vec2)
    requires v.Valid()
    modifies ViewUnion(v.elements)`outer, ViewUnion(v.elements)`dims, ViewUnion(v.elements)`inner
    modifies ViewUnion(v.elements)`positionChanged
    ensures forall c <- v.elements :: c.isView ==> Applied(c, childStart)
    ensures forall m {:trigger BoxSizes(m)} | m in ViewUnion(v.elements) :: BoxSizes(m) == old(BoxSizes(m))
    decreases v.Repr, 1
  {
    var i := 0;
    while i < |v.elements|
      invariant 0 <= i <= |v.elements|
      invariant forall k :: 0 <= k < i && v.elements[k].isView ==> Applied(v.elements[k], childStart)
      invariant forall m {:trigger BoxSizes(m)} | m in ViewUnion(v.elements) :: BoxSizes(m) == old(BoxSizes(m))
    {
      ApplyToChild(v, i, childStart);
      i := i + 1;
    }
    forall c | c in v.elements && c.isView
      ensures Applied(c, childStart)
    {
      var k :| 0 <= k < |v.elements| && v.elements[k] == c;
    }
  }

  /**
   * One pass of ApplyPosition's loop: the i-th child, if it is a View, is
   * placed from `childStart`; a plain UIElement child is skipped. The
   * children before it, whose subtrees are disjoint from its own, stay
   * placed.
   */
  method ApplyToChild(v: View, i: nat, childStart: Vec2)
    requires v.Valid() && i < |v.elements|
    requires forall k :: 0 <= k < i && v.elements[k].isView ==> Applied(v.elements[k], childStart)
    modifies ViewUnion(v.elements)`outer, ViewUnion(v.elements)`dims, ViewUnion(v.elements)`inner
    modifies ViewUnion(v.elements)`positionChanged
    ensures forall k :: 0 <= k <= i && v.elements[k].isView ==> Applied(v.elements[k], childStart)
    ensures forall m {:trigger BoxSizes(m)} | m in ViewUnion(v.elements) :: BoxSizes(m) == old(BoxSizes(m))
    decreases v.Repr, 0
  {
    var c := v.elements[i];
    if c.isView {
      ViewUnionContains(v.elements, i);
      forall k | 0 <= k < i
        ensures v.elements[k].Repr !! c.Repr
      {
        DisjointAt(v.elements, k, i);
      }
      ApplyPosition(c, childStart);
      assert Applied(v.elements[i], childStart);
    }
  }

  /** Every View child below this node names its node as its parent. */
  ghost predicate Linked(v: View)
    requires v.Valid()
    reads v.Repr`parent
    decreases v.Repr
  {
    forall c <- v.elements :: c.isView ==> c.parent == v && Linked(c)
  }

  /**
   * After ApplyPosition from `start`, every node it reached below v sits
   * where a fresh ApplyPosition from its own start (GetStart) would put it,
   * with its change flag cleared.
   */
  lemma {:induction false} AppliedPlacesEveryNode(v: View, start: Vec2, m: View)
    requires v.Valid() && v.isView && Linked(v) && Applied(v, start)
    requires m in v.Reach && m != v
    ensures Placed(m, GetStart(m)) && !m.positionChanged
    decreases v.Repr
  {
    var i := ViewUnionMember(v.elements, m);
    var c := v.elements[i];
    if m != c {
      AppliedPlacesEveryNode(c, ChildStart(v), m);
    }
  }

  /** No change flag is raised anywhere ApplyPosition from this node would reach. */
  ghost predicate Settled(v: View)
    requires v.Valid()
    reads v.Reach`positionChanged
    decreases v.Repr
  {
    !v.positionChanged && forall c <- v.elements :: c.isView ==> Settled(c)
  }

  /** ApplyPosition leaves everything it visits settled. */
  lemma {:induction false} AppliedSettles(v: View, start: Vec2)
    requires v.Valid() && Applied(v, start)
    ensures Settled(v)
    decreases v.Repr
  {
    forall c | c in v.elements && c.isView
      ensures Settled(c)
    {
      AppliedSettles(c, ChildStart(v));
    }
  }

  /**
   * TrackPositionChange: a node whose position changed is placed again from
   * its start (the whole subtree with it); otherwise the walk goes on into
   * its View children. Afterwards no flag is raised, and a subtree with no
   * raised flag is left exactly as it was.
   */
  method TrackPositionChange(v: View)
    requires v.Valid() && v.isView && Linked(v)
    modifies v.Reach`outer, v.Reach`dims, v.Reach`inner, v.Reach`positionChanged
    ensures Settled(v)
    ensures old(v.positionChanged) ==> Applied(v, old(GetStart(v)))
    ensures !old(v.positionChanged) ==> v.outer == old(v.outer) && v.dims == old(v.dims) && v.inner == old(v.inner)
    ensures !old(v.positionChanged) ==>
      forall c <- v.elements :: c.isView && old(c.positionChanged) ==> Applied(c, ChildStart(v))
    ensures old(Settled(v)) ==> unchanged(v.Reach)
    ensures forall m {:trigger BoxSizes(m)} | m in v.Reach :: BoxSizes(m) == old(BoxSizes(m))
    decreases v.Repr, 2
  {
    ParentOutsideChildren(v);
    if v.positionChanged {
      ApplyPosition(v, GetStart(v));
      AppliedSettles(v, old(GetStart(v)));
      TrackChildren(v);
    } else {
      TrackChildren(v);
    }
  }

  /** The loop of TrackPositionChange over the View children. */
  method TrackChildren(v: View)
    requires v.Valid() && v.isView && Linked(v)
    modifies ViewUnion(v.elements)`outer, ViewUnion(v.elements)`dims, ViewUnion(v.elements)`inner
    modifies ViewUnion(v.elements)`positionChanged
    ensures forall c <- v.elements :: c.isView ==> Settled(c)
    ensures forall c <- v.elements :: c.isView && old(c.positionChanged) ==> Applied(c, ChildStart(v))
    ensures (forall c <- v.elements :: c.isView ==> old(Settled(c))) ==> unchanged(ViewUnion(v.elements))
    ensures forall m {:trigger BoxSizes(m)} | m in ViewUnion(v.elements) :: BoxSizes(m) == old(BoxSizes(m))
    decreases v.Repr, 1
  {
    ghost var quiet := forall c <- v.elements :: c.isView ==> Settled(c);
    var i := 0;
    while i < |v.elements|
      invariant 0 <= i <= |v.elements|
      invariant forall k :: 0 <= k < i && v.elements[k].isView ==> Settled(v.elements[k])
      invariant forall k :: 0 <= k < i && v.elements[k].isView && old(v.elements[k].positionChanged) ==>
        Applied(v.elements[k], ChildStart(v))
      invariant forall k :: i <= k < |v.elements| && v.elements[k].isView ==> unchanged(v.elements[k].Reach)
      invariant quiet ==> unchanged(ViewUnion(v.elements))
      invariant forall m {:trigger BoxSizes(m)} | m in ViewUnion(v.elements) :: BoxSizes(m) == old(BoxSizes(m))
    {
      TrackChild(v, i);
      i := i + 1;
    }
    forall c | c in v.elements && c.isView
      ensures Settled(c) && (old(c.positionChanged) ==> Applied(c, ChildStart(v)))
    {
      var k :| 0 <= k < |v.elements| && v.elements[k] == c;
    }
  }

  /**
   * One pass of TrackPositionChange's loop: the i-th child, if it is a View,
   * is tracked; its subtree is disjoint from its siblings', which keep what
   * the earlier passes gave them.
   */
  method TrackChild(v: View, i: nat)
    requires v.Valid() && v.isView && Linked(v) && i < |v.elements|
    modifies ViewUnion(v.elements)`outer, ViewUnion(v.elements)`dims, ViewUnion(v.elements)`inner
    modifies ViewUnion(v.elements)`positionChanged
    ensures forall k :: 0 <= k < |v.elements| && k != i && v.elements[k].isView ==> unchanged(v.elements[k].Reach)
    ensures v.elements[i].isView ==> Settled(v.elements[i])
    ensures v.elements[i].isView && old(v.elements[i].positionChanged) ==> Applied(v.elements[i], ChildStart(v))
    ensures forall k :: 0 <= k < |v.elements| && k != i && v.elements[k].isView && old(Applied(v.elements[k], ChildStart(v))) ==>
      Applied(v.elements[k], ChildStart(v))
    ensures forall k :: 0 <= k < |v.elements| && k != i && v.elements[k].isView && old(Settled(v.elements[k])) ==>
      Settled(v.elements[k])
    ensures v.elements[i].isView && old(Settled(v.elements[i])) ==> unchanged(ViewUnion(v.elements))
    ensures !v.elements[i].isView ==> unchanged(ViewUnion(v.elements))
    ensures forall m {:trigger BoxSizes(m)} | m in ViewUnion(v.elements) :: BoxSizes(m) == old(BoxSizes(m))
    decreases v.Repr, 0
  {
    var c := v.elements[i];
    if c.isView {
      ViewUnionContains(v.elements, i);
      forall k | 0 <= k < |v.elements| && k != i
        ensures v.elements[k].Repr !! c.Repr
      {
        if k < i {
          DisjointAt(v.elements, k, i);
        } else {
          DisjointAt(v.elements, i, k);
        }
      }
      TrackPositionChange(c);
    }
  }

  // ------------------------------------------------------------- recalculate

  /**
   * What Recalculate relies on between frames: a view's FlexItems hold
   * distinct views, each one of its children (ProcessFlexItems builds them
   * from the flow elements, which are children), here and in every subtree.
   */
  ghost predicate Laid(v: View)
    reads v.Repr`flexItems
  {
    forall m <- v.Repr :: ItemsOfChildren(m)
  }

  /** The view's FlexItems hold distinct views, each one of its children. */
  ghost predicate ItemsOfChildren(v: View)
    reads v`flexItems
  {
    (forall x <- Flexbox.AllElements(v.flexItems) :: x in v.elements) &&
    Distinct(Flexbox.AllElements(v.flexItems))
  }

  /**
   * The state Recalculate leaves in a view's child lists: its children are
   * classified, and a flex container with flow elements holds exactly them
   * in its FlexItems.
   */
  ghost predicate Recalculated(v: View)
    reads v`flowElements, v`absoluteElements, v`flexItems, v`display, v.elements`positioning
  {
    v.flowElements == FlowOf(v.elements) && v.absoluteElements == AbsoluteOf(v.elements) &&
    (v.display == Flexbox && v.flowElements != [] ==> Flexbox.AllElements(v.flexItems) == v.flowElements)
  }

  /**
   * Recalculate: the view takes the position Left/Top give it in its
   * container, sizes itself against the container, classifies its
   * children, recalculates its flow children, lays them out, grows an
   * unspecified axis to the content as AdaptingChildren is written, shifts
   * itself by the alignment offset and finally recalculates those of its
   * absolute children that are Views (a host element's own Recalculate is
   * outside this model). The container is measured once, before anything changes.
   * Each axis ends with the sizes measured in the container, grown to the
   * content of the laid-out children where the axis is unspecified.
   */
  method Recalculate(v: View, screen: Vec2)
    requires v.Valid() && v.isView && Laid(v)
    modifies v.Repr`position, v.Repr`positionChanged, v.Repr`outer, v.Repr`dims, v.Repr`inner
    modifies v.Repr`flowElements, v.Repr`absoluteElements, v.Repr`flexItems
    ensures Laid(v) && Recalculated(v)
    ensures var o := old(GetOuterSizeByContainer(v, GetContainerSize(v, screen)));
      var b := old(InsetsOf(v));
      XSizes(v) == GrownX(b, Measured(o.x, b.hMargin, b.xInset), GetContentSize(v)) &&
      YSizes(v) == GrownY(b, Measured(o.y, b.vMargin, b.yInset), GetContentSize(v))
    ensures var container := old(GetContainerSize(v, screen));
      var p := old(Vec2(v.left.GetValue(GetContainerSize(v, screen).x), v.top.GetValue(GetContainerSize(v, screen).y)));
      var d := AlignShift(v, container);
      v.position == p.Plus(d) &&
      v.positionChanged == (old(v.positionChanged) || p != old(v.position) || d != Zero)
    decreases v.Repr, 5
  {
    ghost var o := GetOuterSizeByContainer(v, GetContainerSize(v, screen));
    ghost var b := InsetsOf(v);
    var container := MeasureSelf(v, screen);
    assert XSizes(v) == Measured(o.x, b.hMargin, b.xInset) && YSizes(v) == Measured(o.y, b.vMargin, b.yInset);
    LayOutBelow(v, container, screen);
  }

  /**
   * Recalculate after the view has measured itself: the flow children are
   * recalculated, then the view is arranged and its absolute children follow.
   */
  method LayOutBelow(v: View, container: Vec2, screen: Vec2)
    requires v.Valid() && Laid(v)
    requires v.flowElements == FlowOf(v.elements) && v.absoluteElements == AbsoluteOf(v.elements)
    modifies v.Repr`position, v.Repr`positionChanged, v.Repr`outer, v.Repr`dims, v.Repr`inner
    modifies v.Repr`flowElements, v.Repr`absoluteElements, v.Repr`flexItems
    ensures Laid(v) && Recalculated(v)
    ensures Shifted(v.position, v.positionChanged, old(v.position), old(v.positionChanged), AlignShift(v, container))
    ensures XSizes(v) == GrownX(old(InsetsOf(v)), old(XSizes(v)), GetContentSize(v))
    ensures YSizes(v) == GrownY(old(InsetsOf(v)), old(YSizes(v)), GetContentSize(v))
    decreases v.Repr, 4
  {
    ClassifiedChildren(v);
    LaidChildren(v);
    RecalculateAll(v, v.flowElements, {}, screen);
    Settle(v, container, screen);
    LaidFromChildren(v);
  }

  /**
   * The last steps of Recalculate: the view is arranged and shifted by its
   * alignment offset, then its absolute children are recalculated.
   */
  method Settle(v: View, container: Vec2, screen: Vec2)
    requires v.Valid() && ItemsOfChildren(v) && forall c <- v.elements :: Laid(c)
    requires v.flowElements == FlowOf(v.elements) && v.absoluteElements == AbsoluteOf(v.elements)
    requires (forall c <- v.absoluteElements :: c in v.elements) && Distinct(v.flowElements) && v !in v.elements
    modifies v.Repr`position, v.Repr`positionChanged, v.Repr`outer, v.Repr`dims, v.Repr`inner
    modifies v.Repr`flowElements, v.Repr`absoluteElements, v.Repr`flexItems
    ensures ItemsOfChildren(v) && Recalculated(v) && forall c <- v.elements :: Laid(c)
    ensures Shifted(v.position, v.positionChanged, old(v.position), old(v.positionChanged), AlignShift(v, container))
    ensures XSizes(v) == GrownX(old(InsetsOf(v)), old(XSizes(v)), GetContentSize(v))
    ensures YSizes(v) == GrownY(old(InsetsOf(v)), old(YSizes(v)), GetContentSize(v))
    decreases v.Repr, 3
  {
    ArrangeAmongChildren(v, container);
    RecalculateAbsoluteChildren(v, screen);
  }

  /** ArrangeSelf, with the children's subtrees still laid out afterwards. */
  method ArrangeAmongChildren(v: View, container: Vec2)
    requires v.Valid() && ItemsOfChildren(v) && forall c <- v.elements :: Laid(c)
    requires v.flowElements == FlowOf(v.elements) && v.absoluteElements == AbsoluteOf(v.elements)
    requires Distinct(v.flowElements) && v !in v.elements
    modifies v`flexItems, v`outer, v`dims, v`inner, v`position, v`positionChanged
    modifies (set c <- v.elements)`position, (set c <- v.elements)`positionChanged
    ensures ItemsOfChildren(v) && Recalculated(v) && forall c <- v.elements :: Laid(c)
    ensures forall f <- v.flowElements :: f in v.elements && f !in v.absoluteElements
    ensures Shifted(v.position, v.positionChanged, old(v.position), old(v.positionChanged), AlignShift(v, container))
    ensures XSizes(v) == GrownX(old(InsetsOf(v)), old(XSizes(v)), GetContentSize(v))
    ensures YSizes(v) == GrownY(old(InsetsOf(v)), old(YSizes(v)), GetContentSize(v))
  {
    ClassifyMembers(v.elements);
    ArrangeSelf(v, container);
    ChildrenKept(v);
  }

  /**
   * The closing loop of Recalculate over the absolute children; those that
   * are host elements rather than Views are skipped. They are not flow
   * elements, so the content size the view grew to stays as it
   * was.
   */
  method RecalculateAbsoluteChildren(v: View, screen: Vec2)
    requires v.Valid() && (forall c <- v.elements :: Laid(c)) && forall c <- v.absoluteElements :: c in v.elements
    requires forall f <- v.flowElements :: f in v.elements && f !in v.absoluteElements
    modifies (v.Repr - {v})`position, (v.Repr - {v})`positionChanged, (v.Repr - {v})`outer
    modifies (v.Repr - {v})`dims, (v.Repr - {v})`inner, (v.Repr - {v})`flowElements
    modifies (v.Repr - {v})`absoluteElements, (v.Repr - {v})`flexItems
    ensures forall c <- v.elements :: Laid(c)
    ensures GetContentSize(v) == old(GetContentSize(v))
    ensures XSizes(v) == old(XSizes(v)) && YSizes(v) == old(YSizes(v))
    ensures AlignsX(v) == old(AlignsX(v)) && AlignsY(v) == old(AlignsY(v))
    decreases v.Repr, 2
  {
    RecalculateAll(v, v.absoluteElements, (set f | f in v.flowElements), screen);
    FlowOutersKept(v);
  }

  /** With the view itself and its flow elements' outer sizes untouched, its content size stays. */
  twostate lemma FlowOutersKept(v: View)
    requires unchanged(v) && forall f <- v.flowElements :: f.outer == old(f.outer)
    ensures GetContentSize(v) == old(GetContentSize(v))
  {
  }

  /**
   * The first steps of Recalculate, up to the children: the container is
   * measured once, the view takes the position Left/Top give it there, is
   * sized against it, and its children are classified.
   */
  method MeasureSelf(v: View, screen: Vec2) returns (container: Vec2)
    modifies v`position, v`positionChanged, v`outer, v`dims, v`inner, v`flowElements, v`absoluteElements
    ensures container == old(GetContainerSize(v, screen))
    ensures var p := old(Vec2(v.left.GetValue(GetContainerSize(v, screen).x), v.top.GetValue(GetContainerSize(v, screen).y)));
      v.position == p && v.positionChanged == (old(v.positionChanged) || p != old(v.position))
    ensures var o := old(GetOuterSizeByContainer(v, GetContainerSize(v, screen)));
      v.outer.width == o.x && v.outer.height == o.y
    ensures Consistent(XSizes(v), HMargin(v), XInset(v)) && Consistent(YSizes(v), VMargin(v), YInset(v))
    ensures InsetsOf(v) == old(InsetsOf(v))
    ensures v.flowElements == FlowOf(v.elements) && v.absoluteElements == AbsoluteOf(v.elements)
    ensures v.outer.Position() == old(v.outer.Position()) && v.dims.Position() == old(v.dims.Position())
    ensures v.inner.Position() == old(v.inner.Position())
  {
    container := GetContainerSize(v, screen);
    MoveToOffsets(v, container);
    RecalculateSize(v, container);
    RecalculatedSizesConsistent(v);
    ClassifyElements(v);
  }

  /** `SetPosition(new(Left.GetValue(container.X), Top.GetValue(container.Y)))`; no size input changes. */
  method MoveToOffsets(v: View, container: Vec2)
    modifies v`position, v`positionChanged
    ensures var p := Vec2(v.left.GetValue(container.x), v.top.GetValue(container.y));
      v.position == p && v.positionChanged == (old(v.positionChanged) || p != old(v.position))
    ensures GetOuterSizeByContainer(v, container) == old(GetOuterSizeByContainer(v, container))
    ensures InsetsOf(v) == old(InsetsOf(v))
  {
    v.SetPosition(Vec2(v.left.GetValue(container.x), v.top.GetValue(container.y)));
  }

  /**
   * The steps of Recalculate between the two child passes: the flow
   * children are laid out, AdaptingChildren as written grows an unspecified
   * axis to the content, and the view moves by its alignment offset in the
   * container.
   */
  method ArrangeSelf(v: View, container: Vec2)
    requires ItemsOfChildren(v) && Distinct(v.flowElements) && v !in v.elements
    requires v.flowElements == FlowOf(v.elements) && v.absoluteElements == AbsoluteOf(v.elements)
    modifies v`flexItems, v`outer, v`dims, v`inner, v`position, v`positionChanged
    modifies (set c <- v.elements)`position, (set c <- v.elements)`positionChanged
    ensures ItemsOfChildren(v) && Recalculated(v)
    ensures Shifted(v.position, v.positionChanged, old(v.position), old(v.positionChanged), AlignShift(v, container))
    ensures XSizes(v) == GrownX(old(InsetsOf(v)), old(XSizes(v)), GetContentSize(v))
    ensures YSizes(v) == GrownY(old(InsetsOf(v)), old(YSizes(v)), GetContentSize(v))
  {
    LayOut(v);
    assert Recalculated(v) && ItemsOfChildren(v);
    assert v.position == old(v.position) && v.positionChanged == old(v.positionChanged);
    ClassifyMembers(v.elements);
    Place(v, container);
  }

  /**
   * AdaptingChildren as written, then `Position += offset` with the
   * alignment offset of the grown view.
   */
  method Place(v: View, container: Vec2)
    requires v !in v.flowElements && ItemsOfChildren(v) && Recalculated(v)
    modifies v`outer, v`dims, v`inner, v`position, v`positionChanged
    ensures ItemsOfChildren(v) && Recalculated(v)
    ensures Shifted(v.position, v.positionChanged, old(v.position), old(v.positionChanged), AlignShift(v, container))
    ensures XSizes(v) == GrownX(old(InsetsOf(v)), old(XSizes(v)), GetContentSize(v))
    ensures YSizes(v) == GrownY(old(InsetsOf(v)), old(YSizes(v)), GetContentSize(v))
  {
    Adapt(v);
    ShiftToAlignment(v, container);
  }

  /** `Position += offset` with the alignment offset; the sizes stay. */
  method ShiftToAlignment(v: View, container: Vec2)
    requires ItemsOfChildren(v) && Recalculated(v)
    modifies v`position, v`positionChanged
    ensures ItemsOfChildren(v) && Recalculated(v)
    ensures Shifted(v.position, v.positionChanged, old(v.position), old(v.positionChanged), AlignShift(v, container))
    ensures GetContentSize(v) == old(GetContentSize(v)) && XSizes(v) == old(XSizes(v)) && YSizes(v) == old(YSizes(v))
  {
    var offset := AlignShift(v, container);
    Shift(v, offset);
  }

  /**
   * AdaptingChildren as written, as Recalculate calls it. The view is not
   * among its own flow elements, so the content size it grows to, its
   * child lists and its margins and insets stay as they were.
   */
  method Adapt(v: View)
    requires v !in v.flowElements && ItemsOfChildren(v) && Recalculated(v)
    modifies v`outer, v`dims, v`inner
    ensures ItemsOfChildren(v) && Recalculated(v)
    ensures GetContentSize(v) == old(GetContentSize(v))
    ensures XSizes(v) == GrownX(old(InsetsOf(v)), old(XSizes(v)), GetContentSize(v))
    ensures YSizes(v) == GrownY(old(InsetsOf(v)), old(YSizes(v)), GetContentSize(v))
  {
    AdaptingChildrenAsWritten(v);
    assert GetContentSize(v) == old(GetContentSize(v));
  }

  /**
   * LayingChildren as Recalculate sees it: the view's own state is kept
   * except its FlexItems, which stay children and, in a flex container with
   * flow elements, become exactly the flow elements.
   */
  method LayOut(v: View)
    requires ItemsOfChildren(v) && Distinct(v.flowElements) && v.flowElements == FlowOf(v.elements)
    requires v !in v.elements
    modifies v`flexItems, (set c <- v.elements)`position, (set c <- v.elements)`positionChanged
    ensures ItemsOfChildren(v)
    ensures v.display == Flexbox && v.flowElements != [] ==> Flexbox.AllElements(v.flexItems) == v.flowElements
    ensures !(v.display == Flexbox && v.flowElements != []) ==> v.flexItems == old(v.flexItems)
    ensures v.position == old(v.position) && v.positionChanged == old(v.positionChanged)
    ensures InsetsOf(v) == old(InsetsOf(v)) && XSizes(v) == old(XSizes(v)) && YSizes(v) == old(YSizes(v))
  {
    ClassifyMembers(v.elements);
    Flexbox.MembersInAllElements(v.flexItems);
    LayingChildren(v);
  }

  /**
   * RecalculateChildren and the closing loop of Recalculate: every View of
   * `es`, a run of v's children, is recalculated in turn. Their subtrees
   * are disjoint, so each keeps what its own Recalculate gave it, and the
   * children of `keep`, outside `es`, keep their outer size.
   */
  method RecalculateAll(v: View, es: seq<View>, ghost keep: set<View>, screen: Vec2)
    requires v.Valid() && (forall c <- es :: c in v.elements) && forall c <- v.elements :: Laid(c)
    requires forall c <- keep :: c in v.elements && c !in es
    modifies (v.Repr - {v})`position, (v.Repr - {v})`positionChanged, (v.Repr - {v})`outer
    modifies (v.Repr - {v})`dims, (v.Repr - {v})`inner, (v.Repr - {v})`flowElements
    modifies (v.Repr - {v})`absoluteElements, (v.Repr - {v})`flexItems
    ensures forall c <- v.elements :: Laid(c)
    ensures forall c <- keep :: c.outer == old(c.outer)
    ensures v.position == old(v.position) && v.positionChanged == old(v.positionChanged) && v.outer == old(v.outer)
    ensures InsetsOf(v) == old(InsetsOf(v)) && XSizes(v) == old(XSizes(v)) && YSizes(v) == old(YSizes(v))
    decreases v.Repr, 1
  {
    var i := 0;
    while i < |es|
      invariant 0 <= i <= |es|
      invariant forall c <- v.elements :: Laid(c)
      invariant forall c <- keep :: c.outer == old(c.outer)
    {
      RecalculateChild(v, es[i], keep, screen);
      i := i + 1;
    }
  }

  /**
   * One pass of RecalculateAll: child c, if it is a View, is recalculated;
   * a host element's Recalculate is not modelled, so such a child and the
   * Views below it are left as they were. The other children's subtrees are not touched, so they stay Laid and
   * those of `keep` keep their outer size.
   */
  method RecalculateChild(v: View, c: View, ghost keep: set<View>, screen: Vec2)
    requires v.Valid() && c in v.elements && forall d <- v.elements :: Laid(d)
    requires forall d <- keep :: d in v.elements && d != c
    modifies (v.Repr - {v})`position, (v.Repr - {v})`positionChanged, (v.Repr - {v})`outer
    modifies (v.Repr - {v})`dims, (v.Repr - {v})`inner, (v.Repr - {v})`flowElements
    modifies (v.Repr - {v})`absoluteElements, (v.Repr - {v})`flexItems
    ensures forall d <- v.elements :: Laid(d)
    ensures forall d <- keep :: d.outer == old(d.outer)
    decreases v.Repr, 0
  {
    ChildApart(v, c);
    if c.isView {
      RecalculateView(c, screen);
      forall d | d in v.elements && d != c
        ensures old(Laid(d)) ==> Laid(d)
      {
        SubtreeKept(d);
      }
    }
  }

  /**
   * LayingChildren: a flow container stacks its flow elements with its
   * vertical gap; a flex container rebuilds its FlexItems from the flow
   * elements and places them.
   */
  method LayingChildren(v: View)
    requires Distinct(v.flowElements) && Distinct(Flexbox.AllElements(v.flexItems))
    modifies v`flexItems, v.flowElements`position, v.flowElements`positionChanged
    modifies Flexbox.Members(v.flexItems)`position, Flexbox.Members(v.flexItems)`positionChanged
    ensures v.display == Flexbox && v.flowElements != [] ==> Flexbox.AllElements(v.flexItems) == v.flowElements
    ensures !(v.display == Flexbox && v.flowElements != []) ==> v.flexItems == old(v.flexItems)
    ensures v.display == Flow ==> forall k :: 0 <= k < |v.flowElements| ==>
      Shifted(v.flowElements[k].position, v.flowElements[k].positionChanged,
        old(v.flowElements[k].position), old(v.flowElements[k].positionChanged),
        Vec2(0.0, StackOffset(old(OuterHeights(v.flowElements)), v.gap.y, k)))
  {
    if v.display == Flow {
      ReflowFlowLayout(v);
    } else {
      LayFlexbox(v);
    }
  }

  /** The flexbox half of LayingChildren: FlexItems rebuilt from the flow elements, then placed. */
  method LayFlexbox(v: View)
    requires Distinct(v.flowElements) && Distinct(Flexbox.AllElements(v.flexItems))
    modifies v`flexItems, v.flowElements`position, v.flowElements`positionChanged
    modifies Flexbox.Members(v.flexItems)`position, Flexbox.Members(v.flexItems)`positionChanged
    ensures v.display == Flexbox && v.flowElements != [] ==> Flexbox.AllElements(v.flexItems) == v.flowElements
    ensures !(v.display == Flexbox && v.flowElements != []) ==> v.flexItems == old(v.flexItems)
  {
    Flexbox.ProcessFlexItems(v);
    Flexbox.MembersInAllElements(v.flexItems);
    Flexbox.ReflowFlexLayout(v);
  }

  /** Distinct children own disjoint subtrees, and no child occurs twice. */
  lemma ChildrenApart(v: View)
    requires v.Valid()
    ensures forall c, d :: c in v.elements && d in v.elements && c != d ==> c.Repr !! d.Repr
    ensures Distinct(v.elements)
  {
    forall c, d | c in v.elements && d in v.elements && c != d
      ensures c.Repr !! d.Repr
    {
      var i :| 0 <= i < |v.elements| && v.elements[i] == c;
      var j :| 0 <= j < |v.elements| && v.elements[j] == d;
      if i < j {
        DisjointAt(v.elements, i, j);
      } else {
        DisjointAt(v.elements, j, i);
      }
    }
    forall i, j | 0 <= i < j < |v.elements|
      ensures v.elements[i] != v.elements[j]
    {
      DisjointAt(v.elements, i, j);
    }
  }

  /** Recalculate as RecalculateAll sees it: the invariant kept and the subtree recalculated. */
  method RecalculateView(c: View, screen: Vec2)
    requires c.Valid() && c.isView && Laid(c)
    modifies c.Repr`position, c.Repr`positionChanged, c.Repr`outer, c.Repr`dims, c.Repr`inner
    modifies c.Repr`flowElements, c.Repr`absoluteElements, c.Repr`flexItems
    ensures Laid(c)
    decreases c.Repr, 6
  {
    Recalculate(c, screen);
  }

  /**
   * Recalculate as a caller outside the layout pass sees it: the invariant
   * kept, and the view placed at its Left/Top in its container plus its
   * alignment offset there.
   */
  method RecalculatePlaced(v: View, screen: Vec2)
    requires v.Valid() && v.isView && Laid(v)
    modifies v.Repr`position, v.Repr`positionChanged, v.Repr`outer, v.Repr`dims, v.Repr`inner
    modifies v.Repr`flowElements, v.Repr`absoluteElements, v.Repr`flexItems
    ensures Laid(v)
    ensures var c := old(GetContainerSize(v, screen));
      v.position == Vec2(v.left.GetValue(c.x), v.top.GetValue(c.y)).Plus(AlignShift(v, c))
  {
    Recalculate(v, screen);
  }

  /** A subtree whose FlexItems nothing wrote keeps its FlexItems invariant. */
  twostate lemma SubtreeKept(d: View)
    requires d.Valid() && unchanged(d.Repr`flexItems)
    ensures old(Laid(d)) ==> Laid(d)
  {
  }

  /** When only the node's own FlexItems were written, its children's subtrees stay laid out. */
  twostate lemma ChildrenKept(v: View)
    requires v.Valid() && unchanged((v.Repr - {v})`flexItems)
    ensures forall c <- v.elements :: old(Laid(c)) ==> Laid(c)
  {
    forall c | c in v.elements
      ensures old(Laid(c)) ==> Laid(c)
    {
      SubtreeKept(c);
    }
  }

  /** A child's subtree is disjoint from every other child's. */
  lemma ChildApart(v: View, c: View)
    requires v.Valid() && c in v.elements
    ensures forall d <- v.elements :: d != c ==> d.Repr !! c.Repr
  {
    ChildrenApart(v);
  }

  /** The subtrees of a run of children lie below the node, and the node is not among them. */
  lemma ChildrenWithin(v: View, es: seq<View>)
    requires v.Valid() && forall c <- es :: c in v.elements
    ensures Union(es) <= v.Repr && v !in Union(es)
  {
    forall m | m in Union(es)
      ensures m in v.Repr && m != v
    {
      UnionMember(es, m);
    }
  }

  /**
   * What classification gives Recalculate: both lists hold children only,
   * the flow elements are distinct, and a view is not its own child.
   */
  lemma ClassifiedChildren(v: View)
    requires v.Valid() && v.flowElements == FlowOf(v.elements) && v.absoluteElements == AbsoluteOf(v.elements)
    ensures (forall c <- v.flowElements :: c in v.elements) && (forall c <- v.absoluteElements :: c in v.elements)
    ensures Distinct(v.flowElements) && v !in v.elements
  {
    ChildrenApart(v);
    ClassifyMembers(v.elements);
    FlowOfDistinct(v.elements);
    ParentOutsideChildren(v);
  }

  /** A laid-out node's children are laid out. */
  lemma LaidChildren(v: View)
    requires v.Valid() && Laid(v)
    ensures ItemsOfChildren(v) && forall c <- v.elements :: Laid(c)
  {
  }

  /** A node is laid out when its own FlexItems are and every child's subtree is. */
  lemma LaidFromChildren(v: View)
    requires v.Valid() && ItemsOfChildren(v) && forall c <- v.elements :: Laid(c)
    ensures Laid(v)
  {
    forall m | m in v.Repr
      ensures ItemsOfChildren(m)
    {
      if m != v {
        UnionMember(v.elements, m);
        var i :| 0 <= i < |v.elements| && m in v.elements[i].Repr;
        assert v.elements[i] in v.elements;
      }
    }
  }

  /** Classification keeps distinct elements distinct. */
  lemma {:induction false} FlowOfDistinct(ks: seq<View>)
    requires Distinct(ks)
    ensures Distinct(FlowOf(ks)) && Distinct(AbsoluteOf(ks))
  {
    if ks != [] {
      var p, x := ks[..|ks| - 1], ks[|ks| - 1];
      assert Distinct(p);
      FlowOfDistinct(p);
      ClassifyMembers(p);
      assert x !in p;
    }
  }
}
