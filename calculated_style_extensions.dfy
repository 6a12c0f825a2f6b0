/** Extension members on CalculatedStyle: its size, right and bottom edges. */
module CalculatedStyleExtensions {
  import opened HostTypes

  /** The width and height of a rectangle as a vector. */
  function Size(s: Rect): Vec2
  {
    Vec2(s.width, s.height)
  }

  /** The bottom-right corner is the top-left corner moved by the size. */
  function RightBottom(s: Rect): (r: Vec2)
    ensures r == s.Position().Plus(Size(s))
    ensures r.Minus(s.Position()) == Size(s)
  {
    Vec2(s.x + s.width, s.y + s.height)
  }

  /** The right edge: the horizontal part of the bottom-right corner. */
  function Right(s: Rect): (r: real)
    ensures r == RightBottom(s).x
    ensures r - s.x == s.width
  {
    s.x + s.width
  }

  /** The bottom edge: the vertical part of the bottom-right corner. */
  function Bottom(s: Rect): (r: real)
    ensures r == RightBottom(s).y
    ensures r - s.y == s.height
  {
    s.y + s.height
  }
}
