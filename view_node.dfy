/**
 * The node of the SilkyUI element tree: tModLoader's UIElement together with
 * the fields that the partial class View adds to it across its source files.
 *
 * One class stands for both: `isView` tells a View from a plain UIElement.
 * The child list of a node is fixed when the node is built (children are
 * built first), so the footprint `Repr` of a subtree is a constant and the
 * tree invariant `Valid` reads no mutable state. Every layout field is a
 * `var` that the layout operations update in place.
 */
module ViewNode {
  import opened HostTypes
  import Legacy = ViewFlexTypes

  datatype BoxSizing = BorderBox | ContentBox

  datatype Display = Flow | Flexbox

  datatype Positioning = Relative | Absolute | Sticky

  datatype MainAxisAlignment = Start | End | Center | SpaceEvenly | SpaceBetween

  datatype CrossAxisAlignment = Start | Center | End

  datatype FlexDirection = Row | Column

  /**
   * One line of a flex container: the views placed on it and its running
   * main and cross sizes.
   */
  datatype FlexItem = FlexItem(elements: seq<View>, width: real, height: real)

  /** The border and colour record every View owns. */
  class RoundedRectangle {
    var border: real
    var bgColor: Color
    var borderColor: Color
    var cornerRadius: Vec4

    constructor()
      ensures border == 0.0 && bgColor == Transparent && borderColor == Transparent
      ensures cornerRadius == Vec4(0.0, 0.0, 0.0, 0.0)
    {
      border := 0.0;
      bgColor := Transparent;
      borderColor := Transparent;
      cornerRadius := Vec4(0.0, 0.0, 0.0, 0.0);
    }
  }

  class View {
    /** A View, or a plain host UIElement. */
    const isView: bool
    /** Elements, in append order. */
    const elements: seq<View>
    /** This node and every node below it. */
    ghost const Repr: set<View>
    /**
     * This node and the nodes below it reached through View children only:
     * the nodes ApplyPosition visits.
     */
    ghost const Reach: set<View>

    /** The border records of this node and of every node below it. */
    ghost const Rims: set<RoundedRectangle>
    const rounded: RoundedRectangle

    var parent: View?

    // Host UIElement layout state.
    var left: StyleDimension
    var top: StyleDimension
    var width: StyleDimension
    var height: StyleDimension
    var minWidth: StyleDimension
    var maxWidth: StyleDimension
    var minHeight: StyleDimension
    var maxHeight: StyleDimension
    var marginLeft: real
    var marginRight: real
    var marginTop: real
    var marginBottom: real
    var paddingLeft: real
    var paddingRight: real
    var paddingTop: real
    var paddingBottom: real
    var hAlign: real
    var vAlign: real
    var overflowHidden: bool
    var ignoresMouseInteraction: bool
    /** _outerDimensions, _dimensions and _innerDimensions. */
    var outer: Rect
    var dims: Rect
    var inner: Rect

    // View.Properties.cs and View.Fields.cs.
    var zIndex: real
    var display: Display
    var boxSizing: BoxSizing
    var positioning: Positioning
    var dragIgnore: bool
    var specifyWidth: bool
    var specifyHeight: bool
    var flowElements: seq<View>
    var absoluteElements: seq<View>
    var gap: Vec2

    // View.Layout.cs.
    var position: Vec2
    var scrollPosition: Vec2
    var positionChanged: bool

    // View.Layout.Flexbox.cs.
    var mainAxisAlignment: MainAxisAlignment
    var crossAxisAlignment: CrossAxisAlignment
    var flexDirection: FlexDirection
    var flexWrap: bool
    var flexItems: seq<FlexItem>

    // View.cs.
    var innerWidth: Option<real>
    var innerHeight: Option<real>
    var outerWidth: Option<real>
    var outerHeight: Option<real>
    var layoutOffset: Vec2
    var calculating: bool

    // View.Flex.cs.
    var mainAxisAlign: Legacy.MainAxisAlign
    var crossAxisAlign: Legacy.CrossAxisAlign
    var legacyFlexDirection: Legacy.FlexDirection

    /** The tree invariant: children own disjoint subtrees that do not contain their parent. */
    ghost predicate Valid()
      decreases Repr
    {
      this in Repr &&
      (forall c <- elements :: c in Repr && c.Repr <= Repr && this !in c.Repr && c.Valid()) &&
      Disjoint(elements) &&
      Repr == {this} + Union(elements) &&
      Reach == {this} + ViewUnion(elements) && Reach <= Repr &&
      (forall c <- elements :: c.isView ==> c.Reach <= Reach) &&
      rounded in Rims && (forall c <- elements :: c.Rims <= Rims)
    }

    /**
     * Builds a node over already-built children and makes it their parent.
     * A View starts with MaxWidth = MaxHeight = 114514 px and the defaults of
     * View.Properties.cs; a plain UIElement keeps the host defaults.
     */
    constructor(isView: bool, elements: seq<View>)
      requires forall c <- elements :: c.Valid()
      requires Disjoint(elements)
      modifies set c <- elements
      ensures Valid() && this.isView == isView && this.elements == elements
      ensures forall c <- elements :: c.parent == this
      ensures parent == null
      ensures zIndex == 0.0 && display == Flow && boxSizing == BorderBox && positioning == Relative
      ensures dragIgnore && !specifyWidth && !specifyHeight
      ensures flowElements == [] && absoluteElements == [] && flexItems == []
      ensures position == Zero && scrollPosition == Zero && positionChanged
      ensures flexWrap && flexDirection == Row
      ensures mainAxisAlignment == MainAxisAlignment.Start && crossAxisAlignment == CrossAxisAlignment.Start
      ensures maxWidth == (if isView then StyleDimension(114514.0, 0.0) else FillDimension)
      ensures maxHeight == maxWidth
      ensures innerWidth == None && innerHeight == None && outerWidth == None && outerHeight == None
      ensures layoutOffset == Zero && !calculating
      ensures fresh(rounded) && rounded.border == 0.0
    {
      this.isView := isView;
      this.elements := elements;
      Repr := {this} + Union(elements);
      Reach := {this} + ViewUnion(elements);
      rounded := new RoundedRectangle();
      Rims := {rounded} + (set c, r | c in elements && r in c.Rims :: r);
      parent := null;
      left, top, width, height := EmptyDimension, EmptyDimension, EmptyDimension, EmptyDimension;
      minWidth, minHeight := EmptyDimension, EmptyDimension;
      maxWidth := if isView then StyleDimension(114514.0, 0.0) else FillDimension;
      maxHeight := if isView then StyleDimension(114514.0, 0.0) else FillDimension;
      marginLeft, marginRight, marginTop, marginBottom := 0.0, 0.0, 0.0, 0.0;
      paddingLeft, paddingRight, paddingTop, paddingBottom := 0.0, 0.0, 0.0, 0.0;
      hAlign, vAlign := 0.0, 0.0;
      overflowHidden, ignoresMouseInteraction := false, false;
      outer, dims, inner := EmptyRect, EmptyRect, EmptyRect;
      zIndex := 0.0;
      display := Flow;
      boxSizing := BorderBox;
      positioning := Relative;
      dragIgnore := true;
      specifyWidth, specifyHeight := false, false;
      flowElements, absoluteElements := [], [];
      gap := Zero;
      position, scrollPosition, positionChanged := Zero, Zero, true;
      mainAxisAlignment := MainAxisAlignment.Start;
      crossAxisAlignment := CrossAxisAlignment.Start;
      flexDirection := Row;
      flexWrap := true;
      flexItems := [];
      innerWidth, innerHeight, outerWidth, outerHeight := None, None, None, None;
      layoutOffset := Zero;
      calculating := false;
      mainAxisAlign := Legacy.MainAxisAlign.Start;
      crossAxisAlign := Legacy.CrossAxisAlign.Start;
      legacyFlexDirection := Legacy.FlexDirection.Row;
      new;
      ChildrenOutsideNewNode(this, elements);
      forall c <- elements {
        c.parent := this;
      }
    }

    /**
     * The Position setter: assigning the current value changes nothing;
     * any other value is stored and marks the position as changed.
     */
    method SetPosition(value: Vec2)
      modifies this`position, this`positionChanged
      ensures position == value
      ensures positionChanged == (old(positionChanged) || value != old(position))
    {
      if position == value {
        return;
      }
      position := value;
      positionChanged := true;
    }

    /** The ScrollPosition setter, with the same change detection. */
    method SetScrollPosition(value: Vec2)
      modifies this`scrollPosition, this`positionChanged
      ensures scrollPosition == value
      ensures positionChanged == (old(positionChanged) || value != old(scrollPosition))
    {
      if scrollPosition == value {
        return;
      }
      scrollPosition := value;
      positionChanged := true;
    }
  }

  /** The nodes of the subtrees of a child list. */
  ghost function Union(ks: seq<View>): set<View>
  {
    if ks == [] then {} else Union(ks[..|ks| - 1]) + ks[|ks| - 1].Repr
  }

  /** The subtrees of a child list are pairwise disjoint. */
  ghost predicate Disjoint(ks: seq<View>)
  {
    ks != [] ==> Union(ks[..|ks| - 1]) !! ks[|ks| - 1].Repr && Disjoint(ks[..|ks| - 1])
  }

  /** A freshly built node lies in none of its children's subtrees. */
  lemma ChildrenOutsideNewNode(v: View, ks: seq<View>)
    requires v.elements == ks && v.Repr == {v} + Union(ks) && v.Reach == {v} + ViewUnion(ks)
    requires v.rounded in v.Rims && forall c <- ks :: c.Rims <= v.Rims
    requires forall c <- ks :: c.Valid() && v !in c.Repr
    requires Disjoint(ks)
    ensures v.Valid()
  {
    ViewUnionWithin(ks);
    forall c <- ks
      ensures c in v.Repr && c.Repr <= v.Repr && (c.isView ==> c.Reach <= v.Reach)
    {
      var i :| 0 <= i < |ks| && ks[i] == c;
      UnionContains(ks, i);
      if c.isView {
        ViewUnionContains(ks, i);
      }
    }
  }

  /** The nodes reached through the View children of a child list. */
  ghost function ViewUnion(ks: seq<View>): set<View>
  {
    if ks == [] then {}
    else ViewUnion(ks[..|ks| - 1]) + (if ks[|ks| - 1].isView then ks[|ks| - 1].Reach else {})
  }

  /** What is reached through the children lies in their subtrees. */
  lemma {:induction false} ViewUnionWithin(ks: seq<View>)
    requires forall c <- ks :: c.Valid()
    ensures ViewUnion(ks) <= Union(ks)
  {
    if ks != [] {
      var last := ks[|ks| - 1];
      assert last in ks;
      assert last.Reach <= last.Repr;
      ViewUnionWithin(ks[..|ks| - 1]);
    }
  }

  /** A node reached through a child list is reached through one View child of it. */
  lemma {:induction false} ViewUnionMember(ks: seq<View>, m: View) returns (i: nat)
    requires m in ViewUnion(ks)
    ensures i < |ks| && ks[i].isView && m in ks[i].Reach
    decreases |ks|
  {
    var last := ks[|ks| - 1];
    if last.isView && m in last.Reach {
      i := |ks| - 1;
    } else {
      i := ViewUnionMember(ks[..|ks| - 1], m);
    }
  }

  /** The nodes reached through the i-th child, when it is a View, are reached through the list. */
  lemma {:induction false} ViewUnionContains(ks: seq<View>, i: nat)
    requires i < |ks| && ks[i].isView
    ensures ks[i].Reach <= ViewUnion(ks)
    decreases |ks|
  {
    if i < |ks| - 1 {
      ViewUnionContains(ks[..|ks| - 1], i);
    }
  }

  /** The subtree of the i-th child lies inside the union. */
  lemma {:induction false} UnionContains(ks: seq<View>, i: nat)
    requires i < |ks|
    ensures ks[i].Repr <= Union(ks)
    decreases |ks|
  {
    if i < |ks| - 1 {
      UnionContains(ks[..|ks| - 1], i);
    }
  }

  /**
   * The subtree of the i-th child is disjoint from those before it, and the
   * union grows by exactly that subtree.
   */
  lemma {:induction false} DisjointPrefix(ks: seq<View>, i: nat)
    requires i < |ks| && Disjoint(ks)
    ensures Union(ks[..i]) !! ks[i].Repr
    ensures Union(ks[..i + 1]) == Union(ks[..i]) + ks[i].Repr
    decreases |ks|
  {
    assert ks[..i + 1][..i] == ks[..i];
    if i < |ks| - 1 {
      var p := ks[..|ks| - 1];
      assert p[..i] == ks[..i];
      assert p[..i + 1] == ks[..i + 1];
      DisjointPrefix(p, i);
    } else {
      assert ks[..i] == ks[..|ks| - 1];
    }
  }

  /** Two different positions of a child list hold disjoint subtrees (and so different views). */
  lemma DisjointAt(ks: seq<View>, i: nat, j: nat)
    requires i < j < |ks| && Disjoint(ks)
    requires forall c <- ks :: c.Valid()
    ensures ks[i].Repr !! ks[j].Repr && ks[i] != ks[j]
  {
    DisjointPrefix(ks, j);
    UnionContains(ks[..j], i);
    assert ks[..j][i] == ks[i];
    assert ks[i].Valid() && ks[j].Valid();
  }

  /** The child lists of a valid tree hold each view once. */
  lemma ElementsDistinct(v: View)
    requires v.Valid()
    ensures forall i, j :: 0 <= i < j < |v.elements| ==> v.elements[i] != v.elements[j]
    ensures forall i, j :: 0 <= i < j < |v.elements| ==> v.elements[i].Repr !! v.elements[j].Repr
  {
    forall i, j | 0 <= i < j < |v.elements|
      ensures v.elements[i] != v.elements[j] && v.elements[i].Repr !! v.elements[j].Repr
    {
      DisjointAt(v.elements, i, j);
    }
  }

  /** Every node of Repr is the node itself or lies in the subtree of one of its children. */
  lemma {:induction false} UnionMember(ks: seq<View>, m: View)
    requires m in Union(ks)
    ensures exists i :: 0 <= i < |ks| && m in ks[i].Repr
    decreases |ks|
  {
    if m !in ks[|ks| - 1].Repr {
      UnionMember(ks[..|ks| - 1], m);
      var i :| 0 <= i < |ks| - 1 && m in ks[..|ks| - 1][i].Repr;
      assert ks[..|ks| - 1][i] == ks[i];
    }
  }

  /** A node lies in none of its children's subtrees, nor in what is reached through them. */
  lemma ParentOutsideChildren(v: View)
    requires v.Valid()
    ensures v !in Union(v.elements) && v !in ViewUnion(v.elements)
  {
    ViewUnionWithin(v.elements);
    if v in Union(v.elements) {
      UnionMember(v.elements, v);
    }
  }

  /** The nodes reached through each View child are reached through the list. */
  lemma ViewUnionCovers(ks: seq<View>)
    ensures forall k :: 0 <= k < |ks| && ks[k].isView ==> ks[k].Reach <= ViewUnion(ks)
    ensures forall c <- ks :: c.isView ==> c.Reach <= ViewUnion(ks)
  {
    forall k | 0 <= k < |ks| && ks[k].isView
      ensures ks[k].Reach <= ViewUnion(ks)
    {
      ViewUnionContains(ks, k);
    }
  }
}
