/**
 * SUIDraggableView (the BasicElements revision): the same drag gesture, but
 * the view keeps its own Offset instead of writing Left/Top, the grab point
 * is the screen mouse position minus that Offset, and by default the drag
 * does not snap (DragIncrement is zero) and the view is draggable.
 */
module SUIDraggableViewElement {
  import opened HostTypes
  import opened SUIDraggableViewComponent

  class SUIDraggableView {
    var draggable: bool
    var dragging: bool
    /** The position the layout places this view at (the Offset property of View). */
    var offset: Vec2
    var dragIncrement: Vec2
    /** Where the cursor grabbed the view, relative to its Offset. */
    var dragOffset: Vec2

    /** A new draggable view is at rest, does not snap, and remembers no grab point. */
    constructor(offset: Vec2, draggable: bool := true)
      ensures this.draggable == draggable && !dragging && this.offset == offset
      ensures dragIncrement == Zero && dragOffset == Zero
    {
      this.draggable := draggable;
      dragging := false;
      this.offset := offset;
      dragIncrement := Zero;
      dragOffset := Zero;
    }

    /** LeftMouseDown: a drag that starts records the mouse position minus Offset; otherwise nothing changes. */
    method LeftMouseDown(target: MouseTarget, mouse: Vec2)
      modifies this`dragOffset, this`dragging
      ensures StartsDrag(draggable, target) ==> dragging && dragOffset == mouse.Minus(offset)
      ensures !StartsDrag(draggable, target) ==> dragging == old(dragging) && dragOffset == old(dragOffset)
    {
      if !StartsDrag(draggable, target) {
        return;
      }
      dragOffset := mouse.Minus(offset);
      dragging := true;
    }

    /** LeftMouseUp always ends the drag. */
    method LeftMouseUp()
      modifies this`dragging
      ensures !dragging
    {
      dragging := false;
    }

    /** Draw: while dragging, Offset becomes the mouse position minus the grab point, snapped on each axis. */
    method Draw(mouse: Vec2)
      modifies this`offset
      ensures dragging ==> offset == DragTarget(mouse, dragOffset, dragIncrement)
      ensures !dragging ==> offset == old(offset)
    {
      if dragging {
        var x := mouse.x - dragOffset.x;
        var y := mouse.y - dragOffset.y;
        if dragIncrement.x != 0.0 {
          x := x - FMod(x, dragIncrement.x);
        }
        if dragIncrement.y != 0.0 {
          y := y - FMod(y, dragIncrement.y);
        }
        offset := Vec2(x, y);
      }
    }
  }
}
