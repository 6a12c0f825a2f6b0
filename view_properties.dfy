/**
 * View.Properties.cs: the positioning queries and the four style properties
 * that read and write through to the View's RoundedRectangle.
 */
module ViewProperties {
  import opened HostTypes
  import opened ViewNode

  /** IsRelative: the view is positioned Relative, which excludes both Absolute and Sticky. */
  predicate IsRelative(v: View): (r: bool)
    reads v`positioning
    ensures r ==> v.positioning != Absolute && v.positioning != Sticky
    ensures v.positioning == Relative ==> r
  {
    v.positioning == Relative
  }

  /**
   * IsAbsolute: the view is positioned Absolute; such a view is never relative,
   * and a Sticky view is neither of the two.
   */
  predicate IsAbsolute(v: View): (r: bool)
    reads v`positioning
    ensures r ==> !IsRelative(v) && v.positioning != Sticky
    ensures v.positioning == Absolute ==> r
  {
    v.positioning == Absolute
  }

  function CornerRadius(v: View): Vec4 reads v.rounded { v.rounded.cornerRadius }
  function Border(v: View): real reads v.rounded`border { v.rounded.border }
  function BgColor(v: View): Color reads v.rounded { v.rounded.bgColor }
  function BorderColor(v: View): Color reads v.rounded { v.rounded.borderColor }

  /** The CornerRadius setter: the value reads back and the other three properties stay. */
  method SetCornerRadius(v: View, value: Vec4)
    modifies v.rounded`cornerRadius
    ensures CornerRadius(v) == value
    ensures Border(v) == old(Border(v)) && BgColor(v) == old(BgColor(v)) && BorderColor(v) == old(BorderColor(v))
  {
    v.rounded.cornerRadius := value;
  }

  /** The Border setter. */
  method SetBorder(v: View, value: real)
    modifies v.rounded`border
    ensures Border(v) == value
    ensures CornerRadius(v) == old(CornerRadius(v)) && BgColor(v) == old(BgColor(v)) && BorderColor(v) == old(BorderColor(v))
  {
    v.rounded.border := value;
  }

  /** The BgColor setter. */
  method SetBgColor(v: View, value: Color)
    modifies v.rounded`bgColor
    ensures BgColor(v) == value
    ensures CornerRadius(v) == old(CornerRadius(v)) && Border(v) == old(Border(v)) && BorderColor(v) == old(BorderColor(v))
  {
    v.rounded.bgColor := value;
  }

  /** The BorderColor setter. */
  method SetBorderColor(v: View, value: Color)
    modifies v.rounded`borderColor
    ensures BorderColor(v) == value
    ensures CornerRadius(v) == old(CornerRadius(v)) && Border(v) == old(Border(v)) && BgColor(v) == old(BgColor(v))
  {
    v.rounded.borderColor := value;
  }
}
