/**
 * Value types of the host framework that the SilkyUI layout code computes with:
 * XNA's Vector2, Vector4 and Color, tModLoader's CalculatedStyle and
 * StyleDimension, and MathHelper's Clamp/Max. Single-precision floats are
 * modelled as mathematical reals.
 */
module HostTypes {

  datatype Option<T> = None | Some(value: T)

  /** Microsoft.Xna.Framework.Vector2, compared component by component. */
  datatype Vec2 = Vec2(x: real, y: real)
  {
    function Plus(o: Vec2): Vec2 { Vec2(x + o.x, y + o.y) }
    function Minus(o: Vec2): Vec2 { Vec2(x - o.x, y - o.y) }
    function Times(o: Vec2): Vec2 { Vec2(x * o.x, y * o.y) }
  }

  const Zero: Vec2 := Vec2(0.0, 0.0)
  const One: Vec2 := Vec2(1.0, 1.0)

  /** Microsoft.Xna.Framework.Vector4 (the corner radii of a rounded rectangle). */
  datatype Vec4 = Vec4(x: real, y: real, z: real, w: real)

  /** Microsoft.Xna.Framework.Color with its four byte channels. */
  datatype Color = Color(r: int, g: int, b: int, a: int)

  /** `new Color(r, g, b)`: an opaque colour. */
  function Rgb(r: int, g: int, b: int): Color { Color(r, g, b, 255) }

  /** `new Color()` and `Color.Transparent`: every channel zero. */
  const Transparent: Color := Color(0, 0, 0, 0)

  /** tModLoader's CalculatedStyle: a rectangle given by its top-left corner and its size. */
  datatype Rect = Rect(x: real, y: real, width: real, height: real)
  {
    function Position(): Vec2 { Vec2(x, y) }
  }

  const EmptyRect: Rect := Rect(0.0, 0.0, 0.0, 0.0)

  /** tModLoader's StyleDimension: a length in pixels plus a fraction of the container. */
  datatype StyleDimension = StyleDimension(pixels: real, percent: real)
  {
    function GetValue(container: real): real { pixels + percent * container }
  }

  /** StyleDimension.Empty and StyleDimension.Fill. */
  const EmptyDimension: StyleDimension := StyleDimension(0.0, 0.0)
  const FillDimension: StyleDimension := StyleDimension(0.0, 1.0)

  /**
   * MathHelper.Clamp: the value is first capped at max and then raised to min,
   * so min wins when the bounds are crossed.
   */
  function Clamp(value: real, min: real, max: real): (r: real)
    ensures min <= max ==> min <= r <= max
    ensures min <= value <= max ==> r == value
    ensures min <= max && value > max ==> r == max
    ensures value < min || max < min ==> r == min
  {
    var capped := if value > max then max else value;
    if capped < min then min else capped
  }

  /** MathHelper.Max and Math.Max on floats. */
  function Max(a: real, b: real): (r: real)
    ensures r >= a && r >= b && (r == a || r == b)
  {
    if a > b then a else b
  }

  /** Vector2.Max: the componentwise maximum. */
  function VecMax(a: Vec2, b: Vec2): (r: Vec2)
    ensures r.x >= a.x && r.x >= b.x && r.y >= a.y && r.y >= b.y
    ensures (r.x == a.x || r.x == b.x) && (r.y == a.y || r.y == b.y)
  {
    Vec2(Max(a.x, b.x), Max(a.y, b.y))
  }

  /** Vector2.Clamp: MathHelper.Clamp on each component. */
  function VecClamp(v: Vec2, min: Vec2, max: Vec2): (r: Vec2)
    ensures min.x <= max.x ==> min.x <= r.x <= max.x
    ensures min.y <= max.y ==> min.y <= r.y <= max.y
    ensures min.x <= v.x <= max.x && min.y <= v.y <= max.y ==> r == v
  {
    Vec2(Clamp(v.x, min.x, max.x), Clamp(v.y, min.y, max.y))
  }

  /** The largest finite single-precision float, float.MaxValue. */
  const FloatMaxValue: real := 340282346638528859811704183484516925440.0

  /** Conversion of a float to an integer in C#: the fraction is dropped, rounding toward zero. */
  function Truncate(r: real): (n: int)
    ensures r >= 0.0 ==> 0.0 <= n as real <= r && r - n as real < 1.0
    ensures r < 0.0 ==> r <= n as real <= 0.0 && n as real - r < 1.0
  {
    if r >= 0.0 then r.Floor else -((-r).Floor)
  }

  /**
   * The C# remainder `x % m` on floats: x minus the multiple of m obtained by
   * truncating x / m, so it takes the sign of x (unlike Dafny's `%`).
   */
  function FMod(x: real, m: real): real
    requires m != 0.0
  {
    x - m * Truncate(x / m) as real
  }
}
