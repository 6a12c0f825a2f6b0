/**
 * UserInterfaceStyle: a named bag of style properties (colours and corner
 * radii) with a default for every lookup that finds nothing of the asked
 * type.
 */
module UserInterfaceStyles {
  import opened HostTypes

  /**
   * The boxed values of the property dictionary: a Color, a float, or a
   * value of some other type, known only by its type's name.
   */
  datatype StyleValue = ColorValue(color: Color) | FloatValue(number: real) | OtherValue(typeName: string)

  /** The six properties every style starts with. */
  function DefaultProperties(): (m: map<string, StyleValue>)
    ensures m.Keys == {"BorderColor", "BorderFavoriteColor", "BackgroundColor", "SmallRounded", "MediumRounded", "LargeRounded"}
  {
    map["BorderColor" := ColorValue(Rgb(18, 18, 38)),
        "BorderFavoriteColor" := ColorValue(Rgb(0, 0, 0)),
        "BackgroundColor" := ColorValue(Rgb(63, 65, 151)),
        "SmallRounded" := FloatValue(8.0),
        "MediumRounded" := FloatValue(10.0),
        "LargeRounded" := FloatValue(12.0)]
  }

  /** GetProperty<Color>: the stored colour, or `new Color()` when the key is missing or holds another type. */
  function ColorIn(properties: map<string, StyleValue>, name: string): (r: Color)
    ensures r != Transparent ==> name in properties && properties[name] == ColorValue(r)
  {
    if name in properties && properties[name].ColorValue? then properties[name].color else Transparent
  }

  /** GetProperty<float>: the stored float, or 0 when the key is missing or holds another type. */
  function FloatIn(properties: map<string, StyleValue>, name: string): (r: real)
    ensures r != 0.0 ==> name in properties && properties[name] == FloatValue(r)
  {
    if name in properties && properties[name].FloatValue? then properties[name].number else 0.0
  }

  class UserInterfaceStyle {
    const styleName: string
    /** The dictionary `_properties`. */
    var properties: map<string, StyleValue>

    /** The constructor stores the name and seeds the three colours and the three radii. */
    constructor(name: string)
      ensures styleName == name && properties == DefaultProperties()
    {
      styleName := name;
      properties := DefaultProperties();
    }

    /** Add<T>: inserts the property or overwrites it. */
    method Add(value: StyleValue, propertyName: string)
      modifies this
      ensures properties == old(properties)[propertyName := value]
    {
      properties := properties[propertyName := value];
    }

    /** GetColor: the colour stored under the name, or `new Color()` when there is none. */
    function GetColor(propertyName: string): (r: Color)
      reads this
      ensures propertyName in properties && properties[propertyName].ColorValue? ==> r == properties[propertyName].color
      ensures r != Transparent ==> propertyName in properties && properties[propertyName] == ColorValue(r)
    {
      ColorIn(properties, propertyName)
    }

    /** GetFloat: the float stored under the name, or 0 when there is none. */
    function GetFloat(propertyName: string): (r: real)
      reads this
      ensures propertyName in properties && properties[propertyName].FloatValue? ==> r == properties[propertyName].number
      ensures r != 0.0 ==> propertyName in properties && properties[propertyName] == FloatValue(r)
    {
      FloatIn(properties, propertyName)
    }
  }

  /** A fresh style reads back its seeded colours and radii. */
  lemma DefaultsReadBack()
    ensures ColorIn(DefaultProperties(), "BorderColor") == Rgb(18, 18, 38)
    ensures ColorIn(DefaultProperties(), "BorderFavoriteColor") == Rgb(0, 0, 0)
    ensures ColorIn(DefaultProperties(), "BackgroundColor") == Rgb(63, 65, 151)
    ensures FloatIn(DefaultProperties(), "SmallRounded") == 8.0
    ensures FloatIn(DefaultProperties(), "MediumRounded") == 10.0
    ensures FloatIn(DefaultProperties(), "LargeRounded") == 12.0
    ensures FloatIn(DefaultProperties(), "BorderColor") == 0.0
    ensures ColorIn(DefaultProperties(), "SmallRounded") == Transparent
  {
  }

  /** After Add, the property reads back what was added when read at its own type, and the default at the other. */
  lemma AddReadsBack(properties: map<string, StyleValue>, name: string, value: StyleValue, other: string)
    requires other != name
    ensures value.ColorValue? ==> ColorIn(properties[name := value], name) == value.color
    ensures value.FloatValue? ==> FloatIn(properties[name := value], name) == value.number
    ensures !value.ColorValue? ==> ColorIn(properties[name := value], name) == Transparent
    ensures !value.FloatValue? ==> FloatIn(properties[name := value], name) == 0.0
    ensures ColorIn(properties[name := value], other) == ColorIn(properties, other)
    ensures FloatIn(properties[name := value], other) == FloatIn(properties, other)
  {
  }
}
