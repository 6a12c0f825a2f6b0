/**
 * SUIDraggableView (the BasicComponents revision): a view that the left mouse
 * button drags. Pressing the button on the view itself, on a child View that
 * ignores drags, or on a bare UIElement starts a drag and records where the
 * cursor grabbed the view; every drawn frame of a drag then puts the view's
 * Left/Top pixels under the cursor, snapped down to the drag increment.
 */
module SUIDraggableViewComponent {
  import opened HostTypes
  import opened ViewNode
  import UIElementExtensions
  import ViewLayout

  /** The element a mouse event hit, as far as the drag-start test looks at it. */
  datatype MouseTarget =
    | ThisView                      // the draggable view itself
    | ChildView(dragIgnore: bool)   // some other View
    | BareElement                   // an element whose type is exactly UIElement
    | DerivedElement                // an element of any other UIElement subtype

  /**
   * The LeftMouseDown test: the view must be draggable, and the target must
   * be the view, a View with DragIgnore set, or an element whose type
   * UIElement is assignable to (only UIElement itself).
   */
  predicate StartsDrag(draggable: bool, target: MouseTarget)
    ensures StartsDrag(draggable, target) ==> draggable && !target.DerivedElement?
    ensures draggable && target.ThisView? ==> StartsDrag(draggable, target)
  {
    draggable && (target.ThisView? || (target.ChildView? && target.dragIgnore) || target.BareElement?)
  }

  /** `x -= x % increment` when the increment is nonzero: x rounded toward zero to a multiple of it. */
  function Snap(x: real, increment: real): (r: real)
    ensures increment == 0.0 ==> r == x
    ensures increment != 0.0 ==> Abs(x - r) < Abs(increment)
    ensures x >= 0.0 ==> r <= x
    ensures x < 0.0 ==> x <= r
  {
    if increment != 0.0 then
      FModBounds(x, increment);
      x - FMod(x, increment)
    else x
  }

  function Abs(r: real): real { if r < 0.0 then -r else r }

  lemma QuotientSign(x: real, m: real)
    requires m != 0.0
    ensures m > 0.0 ==> (x / m >= 0.0 <==> x >= 0.0)
    ensures m < 0.0 ==> (x / m <= 0.0 <==> x >= 0.0)
    ensures x / m == 0.0 <==> x == 0.0
  {
    assert x == (x / m) * m;
  }

  /** A fraction of m strictly between -1 and 1, times m, is smaller than m and has the sign of the product. */
  lemma ScaledFraction(f: real, m: real, p: real)
    requires -1.0 < f < 1.0 && p == f * m
    ensures f >= 0.0 && m > 0.0 ==> 0.0 <= p < m
    ensures f >= 0.0 && m < 0.0 ==> m < p <= 0.0
    ensures f <= 0.0 && m > 0.0 ==> -m < p <= 0.0
    ensures f <= 0.0 && m < 0.0 ==> 0.0 <= p < -m
  {
    // p - m and p + m are (f - 1) m and (f + 1) m, whose factors have known signs.
    assert p - m == (f - 1.0) * m && p + m == (f + 1.0) * m;
    if m > 0.0 {
      assert (f - 1.0) * m < 0.0 && (f + 1.0) * m > 0.0;
      assert p < m && -m < p;
      assert f >= 0.0 ==> p >= 0.0;
      assert f <= 0.0 ==> p <= 0.0;
    } else if m < 0.0 {
      assert (f - 1.0) * m > 0.0 && (f + 1.0) * m < 0.0;
      assert m < p && p < -m;
      assert f >= 0.0 ==> p <= 0.0;
      assert f <= 0.0 ==> p >= 0.0;
    }
  }

  /** The C# remainder is the fraction of x / m that truncation dropped, times m. */
  lemma FModFraction(x: real, m: real)
    requires m != 0.0
    ensures FMod(x, m) == (x / m - Truncate(x / m) as real) * m
  {
    var q := x / m;
    var t := Truncate(q) as real;
    assert x == q * m;
    assert x - m * t == q * m - t * m;
  }

  /** So it has the sign of x and is smaller than m. */
  lemma FModBounds(x: real, m: real)
    requires m != 0.0
    ensures x >= 0.0 ==> 0.0 <= FMod(x, m) < Abs(m)
    ensures x < 0.0 ==> -Abs(m) < FMod(x, m) <= 0.0
  {
    var q := x / m;
    var f := q - Truncate(q) as real;
    QuotientSign(x, m);
    FModFraction(x, m);
    ScaledFraction(f, m, FMod(x, m));
  }

  /**
   * A snapped coordinate is a whole number of increments, lies between zero
   * and the coordinate, and is less than one increment away from it.
   */
  lemma SnapIsMultiple(x: real, increment: real)
    requires increment != 0.0
    ensures Snap(x, increment) == Truncate(x / increment) as real * increment
    ensures x >= 0.0 ==> 0.0 <= Snap(x, increment) <= x
    ensures x < 0.0 ==> x <= Snap(x, increment) <= 0.0
    ensures Abs(x - Snap(x, increment)) < Abs(increment)
  {
    FModBounds(x, increment);
    FModFraction(x, increment);
    var q := x / increment;
    var t := Truncate(q);
    assert x == q * increment;
    assert Snap(x, increment) == t as real * increment by {
      assert x - (q - t as real) * increment == t as real * increment;
    }
  }

  /** Snapping an already snapped coordinate keeps it, and a zero increment never moves it. */
  lemma SnapIdempotent(x: real, increment: real)
    ensures Snap(Snap(x, increment), increment) == Snap(x, increment)
    ensures increment == 0.0 ==> Snap(x, increment) == x
  {
    if increment != 0.0 {
      SnapIsMultiple(x, increment);
      MultipleHasNoRemainder(Truncate(x / increment), increment, Snap(x, increment));
    }
  }

  /** A whole number of m leaves no remainder. */
  lemma MultipleHasNoRemainder(k: int, m: real, s: real)
    requires m != 0.0 && s == k as real * m
    ensures FMod(s, m) == 0.0
  {
    assert s / m == k as real;
    assert Truncate(k as real) == k;
  }

  /** Where a drag puts the view: the cursor minus the grab offset, snapped on each axis. */
  function DragTarget(cursor: Vec2, grab: Vec2, increment: Vec2): Vec2
  {
    Vec2(Snap(cursor.x - grab.x, increment.x), Snap(cursor.y - grab.y, increment.y))
  }

  /**
   * A view grabbed at `position` and drawn with the cursor where it was
   * grabbed lands less than one increment from `position` on each axis, and
   * exactly on it along an axis whose increment is zero.
   */
  lemma DragReturnsToGrab(position: Vec2, cursor: Vec2, increment: Vec2)
    ensures var p := DragTarget(cursor, cursor.Minus(position), increment);
      (increment.x != 0.0 ==> Abs(position.x - p.x) < Abs(increment.x)) &&
      (increment.x == 0.0 ==> p.x == position.x) &&
      (increment.y != 0.0 ==> Abs(position.y - p.y) < Abs(increment.y)) &&
      (increment.y == 0.0 ==> p.y == position.y)
  {
    var grab := cursor.Minus(position);
    assert cursor.x - grab.x == position.x && cursor.y - grab.y == position.y;
    SnapIdempotent(position.x, increment.x);
    SnapIdempotent(position.y, increment.y);
    if increment.x != 0.0 {
      SnapIsMultiple(position.x, increment.x);
    }
    if increment.y != 0.0 {
      SnapIsMultiple(position.y, increment.y);
    }
  }

  /**
   * `SetPositionPixels(x, y).Recalculate()`: Left/Top pixels are set, then
   * the view is laid out against the screen size.
   */
  method MoveAndRecalculate(v: View, x: real, y: real, screen: Vec2)
    requires v.Valid() && v.isView && ViewLayout.Laid(v)
    modifies v`left, v`top
    modifies v.Repr`position, v.Repr`positionChanged, v.Repr`outer, v.Repr`dims, v.Repr`inner
    modifies v.Repr`flowElements, v.Repr`absoluteElements, v.Repr`flexItems
    ensures v.left == old(v.left).(pixels := x) && v.top == old(v.top).(pixels := y)
    ensures ViewLayout.Laid(v)
    ensures var c := old(ViewLayout.GetContainerSize(v, screen));
      v.position == Vec2(v.left.GetValue(c.x), v.top.GetValue(c.y)).Plus(ViewLayout.AlignShift(v, c))
  {
    ghost var c := ViewLayout.GetContainerSize(v, screen);
    var moved := UIElementExtensions.SetPositionPixels(v, x, y);
    assert ViewLayout.GetContainerSize(v, screen) == c && ViewLayout.Laid(v);
    ViewLayout.RecalculatePlaced(moved, screen);
  }

  class SUIDraggableView {
    /** The View this draggable view is. */
    const view: View
    var draggable: bool
    var dragging: bool
    var offset: Vec2
    var dragIncrement: Vec2

    /** A new draggable view is not dragging and snaps to 5 pixels on each axis. */
    constructor(view: View, draggable: bool)
      ensures this.view == view && this.draggable == draggable && !dragging
      ensures offset == Zero && dragIncrement == Vec2(5.0, 5.0)
    {
      this.view := view;
      this.draggable := draggable;
      dragging := false;
      offset := Zero;
      dragIncrement := Vec2(5.0, 5.0);
    }

    /** LeftMouseDown: a drag that starts records the grab point relative to Left/Top; otherwise nothing changes. */
    method LeftMouseDown(target: MouseTarget, mousePosition: Vec2)
      modifies this`offset, this`dragging
      ensures StartsDrag(draggable, target) ==>
        dragging && offset == mousePosition.Minus(Vec2(view.left.pixels, view.top.pixels))
      ensures !StartsDrag(draggable, target) ==> dragging == old(dragging) && offset == old(offset)
    {
      if !StartsDrag(draggable, target) {
        return;
      }
      offset := mousePosition.Minus(Vec2(view.left.pixels, view.top.pixels));
      dragging := true;
    }

    /** LeftMouseUp always ends the drag. */
    method LeftMouseUp()
      modifies this`dragging
      ensures !dragging
    {
      dragging := false;
    }

    /**
     * Draw: while dragging, Left/Top pixels become the cursor minus the grab
     * offset, each snapped by its increment, and the view is laid out again
     * (Recalculate) against the screen size: it lands at its new Left/Top
     * plus its alignment offset, with its subtree laid out.
     */
    method Draw(mouseX: real, mouseY: real, screen: Vec2)
      requires view.Valid() && view.isView && ViewLayout.Laid(view)
      modifies view`left, view`top
      modifies view.Repr`position, view.Repr`positionChanged, view.Repr`outer, view.Repr`dims, view.Repr`inner
      modifies view.Repr`flowElements, view.Repr`absoluteElements, view.Repr`flexItems
      ensures ViewLayout.Laid(view)
      ensures dragging ==>
        var target := DragTarget(Vec2(mouseX, mouseY), offset, dragIncrement);
        view.left == old(view.left).(pixels := target.x) && view.top == old(view.top).(pixels := target.y)
      ensures dragging ==>
        var c := old(ViewLayout.GetContainerSize(view, screen));
        view.position == Vec2(view.left.GetValue(c.x), view.top.GetValue(c.y)).Plus(ViewLayout.AlignShift(view, c))
      ensures !dragging ==> view.left == old(view.left) && view.top == old(view.top) && unchanged(view.Repr)
    {
      if dragging {
        var x, y := Snap(mouseX - offset.x, dragIncrement.x), Snap(mouseY - offset.y, dragIncrement.y);
        ghost var target := DragTarget(Vec2(mouseX, mouseY), offset, dragIncrement);
        assert x == target.x && y == target.y;
        MoveAndRecalculate(view, x, y, screen);
        assert target == DragTarget(Vec2(mouseX, mouseY), offset, dragIncrement);
      }
    }
  }
}
