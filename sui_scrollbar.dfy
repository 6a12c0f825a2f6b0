/**
 * SUIScrollbar: the state of a scroll bar over content larger than its
 * mask. The current and the target scroll position always read back inside
 * [0, scroll range]; the mask and content sizes never read below (1, 1); the
 * bar is the mask's share of the inner box; a pending target change is
 * animated from a snapshot of the current position.
 *
 * Floats are reals, so MathF.Round works on exact values here. The
 * animation timer's interpolation is a parameter of UpdateScrollPosition, and
 * whether the cursor lies on the element (the base ContainsPoint) one of
 * ContainsPoint.
 */
module SUIScrollbars {
  import opened HostTypes

  /** MathF.Round(x): to the nearest integer, halves to the even neighbour. */
  function RoundHalfEven(x: real): (n: int)
    ensures -0.5 <= n as real - x <= 0.5
    ensures x >= 0.0 ==> n >= 0
    ensures x == x.Floor as real ==> n == x.Floor
  {
    var f := x.Floor;
    var frac := x - f as real;
    if frac < 0.5 then f
    else if frac > 0.5 then f + 1
    else if f % 2 == 0 then f
    else f + 1
  }

  /** MathF.Round(x, 2): x rounded to two decimals, halves to even. */
  function Round2(x: real): (r: real)
    ensures -0.005 <= r - x <= 0.005
    ensures x >= 0.0 ==> r >= 0.0
    ensures x == 0.0 ==> r == 0.0
  {
    RoundHalfEven(x * 100.0) as real / 100.0
  }

  /** The scalar product `v * s`. */
  function Scale(v: Vec2, s: real): Vec2
  {
    Vec2(v.x * s, v.y * s)
  }

  /** The componentwise quotient `a / b`. */
  function Over(a: Vec2, b: Vec2): Vec2
    requires b.x != 0.0 && b.y != 0.0
  {
    Vec2(a.x / b.x, a.y / b.y)
  }

  function Min(a: real, b: real): real
  {
    if a < b then a else b
  }

  /**
   * GetScrollRange on given mask and content sizes: how far the content
   * sticks out of the mask on each axis, never negative, rounded to two
   * decimals.
   */
  function ScrollRange(mask: Vec2, target: Vec2): (r: Vec2)
    ensures r.x >= 0.0 && r.y >= 0.0
    ensures target.x <= mask.x ==> r.x == 0.0
    ensures target.y <= mask.y ==> r.y == 0.0
    ensures target.x > mask.x ==> -0.005 <= r.x - (target.x - mask.x) <= 0.005
    ensures target.y > mask.y ==> -0.005 <= r.y - (target.y - mask.y) <= 0.005
  {
    var d := VecMax(Zero, target.Minus(mask));
    Vec2(Round2(d.x), Round2(d.y))
  }

  /**
   * GetBarSize on a given inner size: the inner size scaled by the mask's
   * share of the content, then, when the size is limited, clamped between
   * the smaller inner side and the inner size.
   */
  function BarSize(inner: Vec2, mask: Vec2, target: Vec2, limited: bool): (r: Vec2)
    requires target.x >= 1.0 && target.y >= 1.0
    ensures !limited ==> r == inner.Times(Over(mask, target))
    ensures limited ==> Min(inner.x, inner.y) <= r.x <= inner.x && Min(inner.x, inner.y) <= r.y <= inner.y
    ensures limited && Min(inner.x, inner.y) <= inner.Times(Over(mask, target)).x <= inner.x ==>
      r.x == inner.Times(Over(mask, target)).x
    ensures limited && Min(inner.x, inner.y) <= inner.Times(Over(mask, target)).y <= inner.y ==>
      r.y == inner.Times(Over(mask, target)).y
  {
    var barSize := inner.Times(Over(mask, target));
    if !limited then barSize
    else
      var min := Min(inner.x, inner.y);
      var r := VecClamp(barSize, Vec2(min, min), inner);
      assert r.x == Clamp(barSize.x, min, inner.x) && r.y == Clamp(barSize.y, min, inner.y);
      r
  }

  class SUIScrollbar {
    /** `_currentScrollPosition` */
    var currentScrollPosition: Vec2
    /** `_targetScrollPosition` */
    var targetScrollPosition: Vec2
    var scrollMultiplier: real
    var originalScrollPosition: Vec2
    var lastTargetScrollPosition: Vec2
    var isBarSizeLimited: bool
    /** `_scrollViewSize`, read through MaskSize */
    var scrollViewSize: Vec2
    /** `_scrollableContentSize`, read through TargetSize */
    var scrollableContentSize: Vec2
    var automaticallyDisabled: bool
    var isScrollbarDragging: bool
    var scrollbarDragOffset: Vec2
    /** The inner box the layout gave the bar (GetInnerDimensions). */
    var inner: Rect

    /** A new scroll bar: no scroll, multiplier 1, sizes (1, 1), limited bar, disabled when the content fits. */
    constructor(inner: Rect)
      ensures currentScrollPosition == Zero && targetScrollPosition == Zero && scrollMultiplier == 1.0
      ensures originalScrollPosition == Zero && lastTargetScrollPosition == Zero
      ensures isBarSizeLimited && scrollViewSize == One && scrollableContentSize == One
      ensures automaticallyDisabled && !isScrollbarDragging && scrollbarDragOffset == Zero
      ensures this.inner == inner
    {
      currentScrollPosition := Zero;
      targetScrollPosition := Zero;
      scrollMultiplier := 1.0;
      originalScrollPosition := Zero;
      lastTargetScrollPosition := Zero;
      isBarSizeLimited := true;
      scrollViewSize := One;
      scrollableContentSize := One;
      automaticallyDisabled := true;
      isScrollbarDragging := false;
      scrollbarDragOffset := Zero;
      this.inner := inner;
    }

    /** The MaskSize getter: never below (1, 1). */
    function MaskSize(): (r: Vec2)
      reads this`scrollViewSize
      ensures r.x >= 1.0 && r.y >= 1.0
      ensures scrollViewSize.x >= 1.0 && scrollViewSize.y >= 1.0 ==> r == scrollViewSize
    {
      VecMax(One, scrollViewSize)
    }

    /** The TargetSize getter: never below (1, 1). */
    function TargetSize(): (r: Vec2)
      reads this`scrollableContentSize
      ensures r.x >= 1.0 && r.y >= 1.0
      ensures scrollableContentSize.x >= 1.0 && scrollableContentSize.y >= 1.0 ==> r == scrollableContentSize
    {
      VecMax(One, scrollableContentSize)
    }

    /** The MaskSize setter stores the value raised to (1, 1). */
    method SetMaskSize(value: Vec2)
      modifies this`scrollViewSize
      ensures scrollViewSize == VecMax(One, value)
    {
      scrollViewSize := VecMax(One, value);
    }

    /** The TargetSize setter stores the value raised to (1, 1). */
    method SetTargetSize(value: Vec2)
      modifies this`scrollableContentSize
      ensures scrollableContentSize == VecMax(One, value)
    {
      scrollableContentSize := VecMax(One, value);
    }

    /** SetArea: both setters. */
    method SetArea(maskSize: Vec2, targetSize: Vec2)
      modifies this`scrollViewSize, this`scrollableContentSize
      ensures MaskSize() == VecMax(One, maskSize) && TargetSize() == VecMax(One, targetSize)
    {
      SetMaskSize(maskSize);
      SetTargetSize(targetSize);
    }

    /** GetScrollRange: how far the content sticks out of the mask, never negative, and 0 where it fits. */
    function GetScrollRange(): (r: Vec2)
      reads this`scrollViewSize, this`scrollableContentSize
      ensures r.x >= 0.0 && r.y >= 0.0
      ensures r.x > 0.0 ==> TargetSize().x > MaskSize().x
      ensures r.y > 0.0 ==> TargetSize().y > MaskSize().y
    {
      RangeMatchesUsable(MaskSize(), TargetSize());
      ScrollRange(MaskSize(), TargetSize())
    }

    /** The CurrentScrollPosition getter: the stored position clamped into [0, range]. */
    function CurrentScrollPosition(): (r: Vec2)
      reads this`currentScrollPosition, this`scrollViewSize, this`scrollableContentSize
      ensures 0.0 <= r.x <= GetScrollRange().x && 0.0 <= r.y <= GetScrollRange().y
    {
      VecClamp(currentScrollPosition, Zero, GetScrollRange())
    }

    /** The TargetScrollPosition getter: the stored target clamped into [0, range]. */
    function TargetScrollPosition(): (r: Vec2)
      reads this`targetScrollPosition, this`scrollViewSize, this`scrollableContentSize
      ensures 0.0 <= r.x <= GetScrollRange().x && 0.0 <= r.y <= GetScrollRange().y
    {
      VecClamp(targetScrollPosition, Zero, GetScrollRange())
    }

    /** The CurrentScrollPosition setter: the value clamped into [0, range]; it reads back unchanged. */
    method SetCurrentScrollPosition(value: Vec2)
      modifies this`currentScrollPosition
      ensures currentScrollPosition == VecClamp(value, Zero, GetScrollRange())
      ensures CurrentScrollPosition() == currentScrollPosition
    {
      currentScrollPosition := VecClamp(value, Zero, GetScrollRange());
    }

    /** The TargetScrollPosition setter: the value times ScrollMultiplier, clamped into [0, range]. */
    method SetTargetScrollPosition(value: Vec2)
      modifies this`targetScrollPosition
      ensures targetScrollPosition == VecClamp(Scale(value, scrollMultiplier), Zero, GetScrollRange())
      ensures TargetScrollPosition() == targetScrollPosition
    {
      targetScrollPosition := VecClamp(Scale(value, scrollMultiplier), Zero, GetScrollRange());
    }

    /** IsBeUsableH: scrolling horizontally is possible, or the bar is never disabled. */
    predicate IsBeUsableH()
      reads this
      ensures !IsBeUsableH() ==> GetScrollRange().x == 0.0
      ensures !automaticallyDisabled ==> IsBeUsableH()
    {
      !automaticallyDisabled || TargetSize().x > MaskSize().x
    }

    /** IsBeUsableV: scrolling vertically is possible, or the bar is never disabled. */
    predicate IsBeUsableV()
      reads this
      ensures !IsBeUsableV() ==> GetScrollRange().y == 0.0
      ensures !automaticallyDisabled ==> IsBeUsableV()
    {
      !automaticallyDisabled || TargetSize().y > MaskSize().y
    }

    /**
     * GetBarSize: the inner size scaled by the mask's share of the content;
     * a limited bar stays between the smaller inner side and the inner size.
     */
    function GetBarSize(): (r: Vec2)
      reads this
      ensures !isBarSizeLimited && MaskSize() == TargetSize() ==> r == Vec2(inner.width, inner.height)
      ensures isBarSizeLimited ==>
        Min(inner.width, inner.height) <= r.x <= inner.width && Min(inner.width, inner.height) <= r.y <= inner.height
    {
      assert MaskSize() == TargetSize() ==> Over(MaskSize(), TargetSize()) == One;
      BarSize(Vec2(inner.width, inner.height), MaskSize(), TargetSize(), isBarSizeLimited)
    }

    /** BarPosition: the current position as a share of the content, times the inner size. */
    function BarPosition(): Vec2
      reads this
    {
      Over(CurrentScrollPosition(), TargetSize()).Times(Vec2(inner.width, inner.height))
    }

    /** GetBarScreenPosition: the bar starts at the inner position when nothing is scrolled. */
    function GetBarScreenPosition(): (r: Vec2)
      reads this
      ensures CurrentScrollPosition() == Zero ==> r == inner.Position()
    {
      inner.Position().Plus(BarPosition())
    }

    /** IsMouseOverScrollbar: the cursor strictly inside the bar's rectangle. */
    predicate IsMouseOverScrollbar(focus: Vec2)
      reads this
      ensures IsMouseOverScrollbar(focus) ==> GetBarSize().x > 0.0 && GetBarSize().y > 0.0
    {
      var barPos := GetBarScreenPosition();
      var barSize := GetBarSize();
      focus.x > barPos.x && focus.y > barPos.y && focus.x < barPos.x + barSize.x && focus.y < barPos.y + barSize.y
    }

    /** ContainsPoint: only a usable bar can contain a point. */
    predicate ContainsPoint(baseContains: bool)
      reads this
      ensures ContainsPoint(baseContains) ==> baseContains
      ensures ContainsPoint(baseContains) && automaticallyDisabled ==>
        TargetSize().x > MaskSize().x || TargetSize().y > MaskSize().y
    {
      (IsBeUsableH() || IsBeUsableV()) && baseContains
    }

    /**
     * SetScrollPositionDirectly: the position clamped into [0, range] becomes
     * the current, original and last target position; the target goes through
     * its setter and so is scaled by ScrollMultiplier.
     */
    method SetScrollPositionDirectly(position: Vec2)
      modifies this`currentScrollPosition, this`originalScrollPosition, this`targetScrollPosition, this`lastTargetScrollPosition
      ensures var p := VecClamp(position, Zero, GetScrollRange());
        CurrentScrollPosition() == p && originalScrollPosition == p && lastTargetScrollPosition == p &&
        TargetScrollPosition() == VecClamp(Scale(p, scrollMultiplier), Zero, GetScrollRange())
    {
      var p := VecClamp(position, Zero, GetScrollRange());
      ghost var range := GetScrollRange();
      SetCurrentScrollPosition(p);
      originalScrollPosition := p;
      SetTargetScrollPosition(p);
      lastTargetScrollPosition := p;
      assert GetScrollRange() == range;
      assert VecClamp(p, Zero, range) == p;
    }

    /**
     * UpdateScrollPosition: a target that moved since the last call is
     * recorded, the current position is snapshotted as the start of the
     * animation, and the timer restarts (`restarted`); then, while the current
     * position is not at the target, it becomes the timer's interpolation from
     * the snapshot to the target.
     */
    method UpdateScrollPosition(lerp: (Vec2, Vec2) -> Vec2) returns (restarted: bool)
      modifies this`lastTargetScrollPosition, this`originalScrollPosition, this`currentScrollPosition
      ensures restarted <==> old(lastTargetScrollPosition) != TargetScrollPosition()
      ensures lastTargetScrollPosition == TargetScrollPosition()
      ensures originalScrollPosition == if restarted then old(CurrentScrollPosition()) else old(originalScrollPosition)
      ensures old(CurrentScrollPosition()) != TargetScrollPosition() ==>
        CurrentScrollPosition() == VecClamp(lerp(originalScrollPosition, TargetScrollPosition()), Zero, GetScrollRange())
      ensures old(CurrentScrollPosition()) == TargetScrollPosition() ==> currentScrollPosition == old(currentScrollPosition)
    {
      restarted := false;
      if lastTargetScrollPosition != TargetScrollPosition() {
        lastTargetScrollPosition := TargetScrollPosition();
        originalScrollPosition := CurrentScrollPosition();
        restarted := true;
      }
      if CurrentScrollPosition() != TargetScrollPosition() {
        SetCurrentScrollPosition(lerp(originalScrollPosition, TargetScrollPosition()));
      }
    }

    /** LeftMouseDown: dragging starts only on a usable bar under the cursor, remembering where it was grabbed. */
    method LeftMouseDown(mouseScreen: Vec2)
      modifies this`isScrollbarDragging, this`scrollbarDragOffset
      ensures var starts := (IsBeUsableH() || IsBeUsableV()) && IsMouseOverScrollbar(mouseScreen);
        (starts ==> isScrollbarDragging && scrollbarDragOffset == mouseScreen.Minus(GetBarScreenPosition())) &&
        (!starts ==> isScrollbarDragging == old(isScrollbarDragging) && scrollbarDragOffset == old(scrollbarDragOffset))
    {
      if (!IsBeUsableH() && !IsBeUsableV()) || !IsMouseOverScrollbar(mouseScreen) {
        return;
      }
      isScrollbarDragging := true;
      scrollbarDragOffset := mouseScreen.Minus(GetBarScreenPosition());
    }

    /** LeftMouseUp always ends the drag. */
    method LeftMouseUp()
      modifies this`isScrollbarDragging
      ensures !isScrollbarDragging
    {
      isScrollbarDragging := false;
    }
  }

  // ------------------------------------------------------------------ lemmas

  /**
   * The range is positive only on an axis where the content is larger than
   * the mask, and it is whenever the content is larger by more than the
   * rounding step.
   */
  lemma RangeMatchesUsable(mask: Vec2, target: Vec2)
    ensures ScrollRange(mask, target).x > 0.0 ==> target.x > mask.x
    ensures ScrollRange(mask, target).y > 0.0 ==> target.y > mask.y
    ensures target.x > mask.x + 0.005 ==> ScrollRange(mask, target).x > 0.0
    ensures target.y > mask.y + 0.005 ==> ScrollRange(mask, target).y > 0.0
  {
    var d := VecMax(Zero, target.Minus(mask));
    if target.x > mask.x + 0.005 {
      assert d.x > 0.005;
    }
    if target.y > mask.y + 0.005 {
      assert d.y > 0.005;
    }
  }

  /** Content that fits its mask leaves nothing to scroll: both positions read back as zero. */
  lemma FittingContentDoesNotScroll(s: SUIScrollbar)
    requires s.TargetSize().x <= s.MaskSize().x && s.TargetSize().y <= s.MaskSize().y
    ensures s.CurrentScrollPosition() == Zero && s.TargetScrollPosition() == Zero
    ensures s.automaticallyDisabled ==> !s.ContainsPoint(true)
  {
    assert s.GetScrollRange() == Zero;
  }

  lemma ScaledUp(x: real, m: real)
    requires x > 0.0 && m > 1.0
    ensures x * m > x
  {
    assert x * m - x == x * (m - 1.0);
    assert x * (m - 1.0) > 0.0;
  }

  /** With multiplier 1, a direct set leaves the target where the position is, so no animation is pending. */
  lemma DirectSetSettles(p: Vec2, range: Vec2)
    requires range.x >= 0.0 && range.y >= 0.0
    ensures var c := VecClamp(p, Zero, range);
      VecClamp(Scale(c, 1.0), Zero, range) == c
  {
    var c := VecClamp(p, Zero, range);
    assert Scale(c, 1.0) == c;
  }

  /** With another multiplier the target is the scaled position, so the next update restarts an animation. */
  lemma DirectSetScalesTarget(p: Vec2, range: Vec2, multiplier: real)
    requires range.x > 0.0 && 0.0 < p.x < range.x && multiplier > 1.0
    ensures VecClamp(Scale(VecClamp(p, Zero, range), multiplier), Zero, range) != VecClamp(p, Zero, range)
  {
    var c := VecClamp(p, Zero, range);
    assert c.x == p.x;
    var v := p.x * multiplier;
    ScaledUp(p.x, multiplier);
    assert v > p.x;
    var t := VecClamp(Scale(c, multiplier), Zero, range);
    assert t.x == Clamp(v, 0.0, range.x);
    if v > range.x {
      assert t.x == range.x;
    } else {
      assert t.x == v;
    }
  }
}
