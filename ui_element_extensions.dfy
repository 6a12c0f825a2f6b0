/**
 * Extension members on UIElement: the nearest View ancestor, the previous
 * sibling search, positioning by pixels, recursive translation of the three
 * layout rectangles of a subtree, and the margin and padding sums.
 */
module UIElementExtensions {
  import opened HostTypes
  import opened ViewNode

  // ---------------------------------------------------------------- ancestors

  /**
   * `chain` lists the ancestors of `uie` from its parent upwards, ending at a
   * node without a parent.
   */
  ghost predicate ParentChain(uie: View, chain: seq<View>)
    reads uie, set a <- chain
  {
    (chain == [] ==> uie.parent == null) &&
    (chain != [] ==>
      uie.parent == chain[0] &&
      chain[|chain| - 1].parent == null &&
      forall i :: 0 <= i < |chain| - 1 ==> chain[i].parent == chain[i + 1])
  }

  /** The first View in an ancestor chain, or null. */
  function FirstView(chain: seq<View>): (r: View?)
    ensures r == null <==> forall a <- chain :: !a.isView
    ensures r != null ==> r.isView && r in chain
    ensures chain != [] && chain[0].isView ==> r == chain[0]
  {
    if chain == [] then null
    else if chain[0].isView then chain[0]
    else FirstView(chain[1..])
  }

  /**
   * RecentParentView: the nearest ancestor that is a View, or null when
   * there is none (or when `uie` is null).
   */
  method RecentParentView(uie: View?, ghost chain: seq<View>) returns (r: View?)
    requires uie != null ==> ParentChain(uie, chain)
    ensures uie == null ==> r == null
    ensures uie != null ==> r == FirstView(chain)
  {
    if uie == null {
      return null;
    }
    var parent := uie.parent;
    if parent == null {
      return null;
    }
    ghost var k := 0;
    while true
      invariant 0 <= k < |chain| && parent == chain[k]
      invariant FirstView(chain) == FirstView(chain[k..])
      decreases |chain| - k
    {
      if parent.isView {
        return parent;
      }
      assert chain[k..][1..] == chain[k + 1..];
      parent := parent.parent;
      if parent == null {
        assert k == |chain| - 1;
        return null;
      }
      k := k + 1;
    }
  }

  // ---------------------------------------------------------- previous element

  /** List.IndexOf: the first index holding `x`, or -1. */
  function IndexOf(s: seq<View>, x: View): (r: int)
    ensures -1 <= r < |s|
    ensures r >= 0 ==> s[r] == x && forall j :: 0 <= j < r ==> s[j] != x
    ensures r == -1 ==> x !in s
  {
    if s == [] then -1
    else if s[0] == x then 0
    else
      var k := IndexOf(s[1..], x);
      if k == -1 then -1 else k + 1
  }

  /** Some sibling before position `index` is accepted by the predicate. */
  predicate AcceptedBefore(s: seq<View>, index: int, accepted: set<View>)
  {
    exists j :: 0 <= j < index && j < |s| && s[j] in accepted
  }

  /**
   * PreviousElement. The predicate is given by the set of elements it
   * accepts (None for a null predicate). The result is null for a null
   * predicate or parent, a parent with at most one element, or a first
   * element; otherwise, as soon as ANY earlier sibling is accepted, it is the
   * sibling immediately before `uie`, whether or not that one is accepted.
   */
  method PreviousElement(uie: View, accepts: Option<set<View>>) returns (r: View?)
    ensures
      var parent := uie.parent;
      if accepts.None? || parent == null || |parent.elements| <= 1 || parent.elements[0] == uie then
        r == null
      else
        var index := IndexOf(parent.elements, uie);
        if AcceptedBefore(parent.elements, index, accepts.value) then
          index >= 1 && r == parent.elements[index - 1]
        else
          r == null
  {
    var parent := uie.parent;
    if accepts.None? || parent == null || |parent.elements| <= 1 || parent.elements[0] == uie {
      return null;
    }
    var elements := parent.elements;
    var start := IndexOf(elements, uie);
    var index := start;
    while index >= 1
      invariant -1 <= index <= start
      invariant forall j :: 0 <= index <= j < start ==> elements[j] !in accepts.value
      invariant index == -1 ==> start == -1
      decreases index
    {
      index := index - 1;
      var previous := elements[index];
      if previous in accepts.value {
        return elements[start - 1];
      }
    }
    return null;
  }

  /**
   * PreviousRelativeElement: PreviousElement with the predicate "is a View
   * positioned Relative".
   */
  method PreviousRelativeElement(uie: View) returns (r: View?)
    ensures
      var parent := uie.parent;
      if parent == null || |parent.elements| <= 1 || parent.elements[0] == uie then
        r == null
      else
        var index := IndexOf(parent.elements, uie);
        if exists j :: 0 <= j < index && parent.elements[j].isView && parent.elements[j].positioning == Relative then
          index >= 1 && r == parent.elements[index - 1]
        else
          r == null
  {
    var accepted: set<View> := {};
    if uie.parent != null {
      accepted := set e <- uie.parent.elements | e.isView && e.positioning == Relative;
    }
    r := PreviousElement(uie, Some(accepted));
  }

  /** SetPositionPixels: sets Left.Pixels and Top.Pixels and returns the same element. */
  method SetPositionPixels(uie: View, x: real, y: real) returns (r: View)
    modifies uie`left, uie`top
    ensures r == uie
    ensures uie.left == old(uie.left).(pixels := x) && uie.top == old(uie.top).(pixels := y)
  {
    uie.left := uie.left.(pixels := x);
    uie.top := uie.top.(pixels := y);
    return uie;
  }

  // ------------------------------------------------------------------- offset

  function MovedX(r: Rect, d: real): Rect { r.(x := r.x + d) }
  function MovedY(r: Rect, d: real): Rect { r.(y := r.y + d) }
  function Moved(r: Rect, d: Vec2): Rect { r.(x := r.x + d.x, y := r.y + d.y) }

  /** Moving by a vector is moving by its X part and then by its Y part. */
  lemma MovedIsMovedXThenY(r: Rect, d: Vec2)
    ensures Moved(r, d) == MovedY(MovedX(r, d.x), d.y)
    ensures Moved(r, d).width == r.width && Moved(r, d).height == r.height
  {
  }

  /**
   * OffsetX: every node of the subtree has the X of its outer, dimensions and
   * inner rectangles moved by `offset`; Y and sizes stay.
   */
  method OffsetX(uie: View, offset: real)
    requires uie.Valid()
    modifies uie.Repr`outer, uie.Repr`dims, uie.Repr`inner
    ensures forall m <- uie.Repr ::
      m.outer == MovedX(old(m.outer), offset) &&
      m.dims == MovedX(old(m.dims), offset) &&
      m.inner == MovedX(old(m.inner), offset)
    decreases uie.Repr
  {
    uie.outer := MovedX(uie.outer, offset);
    uie.dims := MovedX(uie.dims, offset);
    uie.inner := MovedX(uie.inner, offset);
    var i := 0;
    ghost var done: set<View> := {};
    while i < |uie.elements|
      invariant 0 <= i <= |uie.elements|
      invariant done == Union(uie.elements[..i])
      invariant forall m <- uie.Repr ::
        if m == uie || m in done then
          m.outer == MovedX(old(m.outer), offset) && m.dims == MovedX(old(m.dims), offset) &&
          m.inner == MovedX(old(m.inner), offset)
        else
          m.outer == old(m.outer) && m.dims == old(m.dims) && m.inner == old(m.inner)
    {
      DisjointPrefix(uie.elements, i);
      OffsetX(uie.elements[i], offset);
      done := done + uie.elements[i].Repr;
      i := i + 1;
    }
    assert uie.elements[..i] == uie.elements;
  }

  /** OffsetY: the Y analogue of OffsetX. */
  method OffsetY(uie: View, offset: real)
    requires uie.Valid()
    modifies uie.Repr`outer, uie.Repr`dims, uie.Repr`inner
    ensures forall m <- uie.Repr ::
      m.outer == MovedY(old(m.outer), offset) &&
      m.dims == MovedY(old(m.dims), offset) &&
      m.inner == MovedY(old(m.inner), offset)
    decreases uie.Repr
  {
    uie.outer := MovedY(uie.outer, offset);
    uie.dims := MovedY(uie.dims, offset);
    uie.inner := MovedY(uie.inner, offset);
    var i := 0;
    ghost var done: set<View> := {};
    while i < |uie.elements|
      invariant 0 <= i <= |uie.elements|
      invariant done == Union(uie.elements[..i])
      invariant forall m <- uie.Repr ::
        if m == uie || m in done then
          m.outer == MovedY(old(m.outer), offset) && m.dims == MovedY(old(m.dims), offset) &&
          m.inner == MovedY(old(m.inner), offset)
        else
          m.outer == old(m.outer) && m.dims == old(m.dims) && m.inner == old(m.inner)
    {
      DisjointPrefix(uie.elements, i);
      OffsetY(uie.elements[i], offset);
      done := done + uie.elements[i].Repr;
      i := i + 1;
    }
    assert uie.elements[..i] == uie.elements;
  }

  /**
   * Offset: moves the subtree by a vector, which by MovedIsMovedXThenY is
   * the effect of OffsetX by its X part followed by OffsetY by its Y part.
   */
  method Offset(uie: View, offset: Vec2)
    requires uie.Valid()
    modifies uie.Repr`outer, uie.Repr`dims, uie.Repr`inner
    ensures forall m <- uie.Repr ::
      m.outer == Moved(old(m.outer), offset) &&
      m.dims == Moved(old(m.dims), offset) &&
      m.inner == Moved(old(m.inner), offset)
    decreases uie.Repr
  {
    uie.outer := Moved(uie.outer, offset);
    uie.dims := Moved(uie.dims, offset);
    uie.inner := Moved(uie.inner, offset);
    var i := 0;
    ghost var done: set<View> := {};
    while i < |uie.elements|
      invariant 0 <= i <= |uie.elements|
      invariant done == Union(uie.elements[..i])
      invariant forall m <- uie.Repr ::
        if m == uie || m in done then
          m.outer == Moved(old(m.outer), offset) && m.dims == Moved(old(m.dims), offset) &&
          m.inner == Moved(old(m.inner), offset)
        else
          m.outer == old(m.outer) && m.dims == old(m.dims) && m.inner == old(m.inner)
    {
      DisjointPrefix(uie.elements, i);
      Offset(uie.elements[i], offset);
      done := done + uie.elements[i].Repr;
      i := i + 1;
    }
    assert uie.elements[..i] == uie.elements;
  }

  // --------------------------------------------------------- margin, padding

  function HMargin(uie: View): real reads uie`marginLeft, uie`marginRight { uie.marginLeft + uie.marginRight }
  function VMargin(uie: View): real reads uie`marginTop, uie`marginBottom { uie.marginTop + uie.marginBottom }
  function HPadding(uie: View): real reads uie`paddingLeft, uie`paddingRight { uie.paddingLeft + uie.paddingRight }
  function VPadding(uie: View): real reads uie`paddingTop, uie`paddingBottom { uie.paddingTop + uie.paddingBottom }
}
