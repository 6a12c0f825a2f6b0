/** UserInterfaceStyleManager: the registered styles and the current one. */
module UserInterfaceStyleManagers {
  import opened UserInterfaceStyles

  /** The style manager: the registered styles by name and the current style. */
  class UserInterfaceStyleManager {
    /** The dictionary `_styles`. */
    var styles: map<string, UserInterfaceStyle>
    var style: UserInterfaceStyle

    /**
     * Nothing but the constructor registers a style, so "Default" is the only
     * name there is and the current style is always registered.
     */
    ghost predicate Valid()
      reads this
    {
      styles.Keys == {"Default"} && style in styles.Values
    }

    /** The constructor makes the "Default" style current and registers it under "Default". */
    constructor()
      ensures Valid() && fresh(style)
      ensures style.styleName == "Default" && style.properties == DefaultProperties()
      ensures styles == map["Default" := style]
    {
      var defaultStyle := new UserInterfaceStyle("Default");
      style := defaultStyle;
      styles := map["Default" := defaultStyle];
    }

    /**
     * ChangeStyle: an unknown name returns false and keeps the current
     * style; a known one becomes current and returns true.
     */
    method ChangeStyle(styleName: string) returns (changed: bool)
      requires Valid()
      modifies this
      ensures Valid() && styles == old(styles)
      ensures changed <==> styleName in styles
      ensures changed ==> style == styles[styleName]
      ensures !changed ==> style == old(style)
      ensures changed <==> styleName == "Default"
    {
      if styleName !in styles {
        return false;
      }
      style := styles[styleName];
      return true;
    }
  }
}
