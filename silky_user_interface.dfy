/**
 * SilkyUserInterface: the per-frame input dispatch of one interface. Each
 * frame it reads the three mouse buttons, finds the element under the
 * cursor, announces hover changes, and turns button transitions into
 * down, up and click calls on elements.
 *
 * Calls into elements, into the body and into the manager are recorded, in
 * order, in the `events` log; what the host answers (the buttons, the element
 * under the cursor, whether the body is enabled) arrives as parameters.
 */
module SilkyUserInterfaces {
  import opened HostTypes
  import opened ViewNode

  /** MouseButtonType; `Undefined` stands for any other integer cast to the enum. */
  datatype MouseButtonType = Left | Middle | Right | Undefined(code: int)

  datatype MouseEventType = Down | Up

  /** The buttons `Enum.GetValues` yields, in declaration order. */
  const Declared: seq<MouseButtonType> := [Left, Middle, Right]

  /** The field an indexer reaches for a button: every undefined button lands on Left. */
  function Slot(b: MouseButtonType): MouseButtonType
  {
    if b.Undefined? then Left else b
  }

  /** One value per button: the state of a MouseStatusMinor or a MouseTarget. */
  datatype Slots<T> = Slots(left: T, middle: T, right: T)
  {
    /** The indexer getter. */
    function Get(b: MouseButtonType): T
    {
      match Slot(b)
      case Middle => middle
      case Right => right
      case _ => left
    }

    /** The indexer setter: the button reads back the value, every other field is kept. */
    function Set(b: MouseButtonType, v: T): (r: Slots<T>)
      ensures r.Get(b) == v
      ensures forall c :: Slot(c) != Slot(b) ==> r.Get(c) == Get(c)
    {
      match Slot(b)
      case Middle => this.(middle := v)
      case Right => this.(right := v)
      case _ => this.(left := v)
    }
  }

  /** MouseStatusMinor: which buttons are held. */
  class MouseStatusMinor {
    var leftButton: bool
    var middleButton: bool
    var rightButton: bool

    function State(): Slots<bool>
      reads this
    {
      Slots(leftButton, middleButton, rightButton)
    }

    constructor()
      ensures State() == Slots(false, false, false)
    {
      leftButton, middleButton, rightButton := false, false, false;
    }

    /** SetState(MouseStatusMinor): copies all three buttons. */
    method CopyState(status: MouseStatusMinor)
      modifies this
      ensures State() == old(status.State())
    {
      leftButton, middleButton, rightButton := status.leftButton, status.middleButton, status.rightButton;
    }

    /** SetState(bool, bool, bool). */
    method SetState(left: bool, middle: bool, right: bool)
      modifies this
      ensures State() == Slots(left, middle, right)
    {
      leftButton, middleButton, rightButton := left, middle, right;
    }

    /** The indexer setter; the default case writes the left button. */
    method Set(button: MouseButtonType, value: bool)
      modifies this
      ensures State() == old(State()).Set(button, value)
    {
      match button {
        case Right => rightButton := value;
        case Middle => middleButton := value;
        case _ => leftButton := value;
      }
    }
  }

  /** MouseTarget: the element each button last acted on. */
  class MouseTarget {
    var leftButton: View?
    var middleButton: View?
    var rightButton: View?

    function State(): Slots<View?>
      reads this
    {
      Slots(leftButton, middleButton, rightButton)
    }

    constructor()
      ensures State() == Slots(null, null, null)
    {
      leftButton, middleButton, rightButton := null, null, null;
    }

    /** The indexer setter; the default case writes the left button. */
    method Set(button: MouseButtonType, value: View?)
      modifies this
      ensures State() == old(State()).Set(button, value)
    {
      match button {
        case Right => rightButton := value;
        case Middle => middleButton := value;
        case _ => leftButton := value;
      }
    }
  }

  /** A call the interface makes into an element, its body or the manager. */
  datatype UIEvent =
    | MouseOut(target: View)
    | MouseOver(target: View)
    | MouseDown(button: MouseButtonType, target: View)
    | MouseUp(button: MouseButtonType, target: View)
    | Click(button: MouseButtonType, target: View)
    | ScrollWheel(target: View, delta: int)
    | MoveToTop                 // the manager's MoveCurrentUserInterfaceToTop
    | Activated(body: View)     // Activate followed by Recalculate on a new body
    | BodyUpdated(body: View)
    | BodyDrawn(body: View)

  /**
   * UpdateHoverTarget: nothing is hovered while the manager holds a focus element or the body is not selectable.
   * `focus != null` stands for the manager's MouseFocusHasUIElement property.
   */
  function HoverTarget(focus: View?, notSelectable: bool, hit: View?): (r: View?)
    ensures r != null ==> r == hit && focus == null && !notSelectable
    ensures focus == null && !notSelectable ==> r == hit
  {
    if focus != null || notSelectable then null else hit
  }

  /** MouseOut on the old target and MouseOver on the new one, only when the target changed. */
  function HoverEvents(last: View?, current: View?): (r: seq<UIEvent>)
    ensures current == last ==> r == []
    ensures forall e <- r :: (e.MouseOut? && e.target == last) || (e.MouseOver? && e.target == current)
    ensures last != null && current != last ==> |r| > 0 && r[0] == MouseOut(last)
    ensures current != null && current != last ==> MouseOver(current) in r
  {
    if current == last then []
    else (if last != null then [MouseOut(last)] else []) + (if current != null then [MouseOver(current)] else [])
  }

  /**
   * HandleMouseEvent: Down goes to the hovered element; Up goes to the element
   * the button last acted on, followed by Click only when that element is
   * still the one hovered.
   */
  function Handled(kind: MouseEventType, button: MouseButtonType, hover: View?, last: View?): (r: seq<UIEvent>)
    ensures forall e <- r ::
      (e.MouseDown? && e.button == button && kind.Down? && e.target == hover) ||
      (e.MouseUp? && e.button == button && kind.Up? && e.target == last) ||
      (e.Click? && e.button == button && kind.Up? && e.target == last && last == hover)
    ensures kind.Down? && hover != null ==> MouseDown(button, hover) in r
    ensures kind.Up? && last != null ==> |r| > 0 && r[0] == MouseUp(button, last)
    ensures kind.Up? && last != null && last == hover ==> Click(button, last) in r
  {
    if kind.Down? then
      (if hover != null then [MouseDown(button, hover)] else [])
    else
      (if last != null then [MouseUp(button, last)] else []) +
      (if last != null && last == hover then [Click(button, last)] else [])
  }

  /**
   * One pass of the button loop: a press (held now, not last frame) brings
   * the interface to the top when the hovered element is the focus and then
   * handles Down; a release handles Up; either one records the hovered
   * element as the button's last target.
   */
  function ButtonStep(button: MouseButtonType, now: bool, before: bool, hover: View?, focus: View?,
                      targets: Slots<View?>): (r: (seq<UIEvent>, Slots<View?>))
    ensures now == before ==> r == ([], targets)
    ensures now != before ==> r.1 == targets.Set(button, hover)
    ensures MoveToTop in r.0 ==> now && !before && hover != null && focus == hover
    ensures forall e <- r.0 :: e.MoveToTop? || ((e.MouseDown? || e.MouseUp? || e.Click?) && e.button == button)
  {
    if now && !before then
      ((if hover != null && focus == hover then [MoveToTop] else []) + Handled(Down, button, hover, targets.Get(button)),
       targets.Set(button, hover))
    else if !now && before then
      (Handled(Up, button, hover, targets.Get(button)), targets.Set(button, hover))
    else
      ([], targets)
  }

  /** The button loop over `buttons`, in order: the events it raises and the last targets it leaves. */
  function Dispatch(buttons: seq<MouseButtonType>, now: Slots<bool>, before: Slots<bool>, hover: View?, focus: View?,
                    targets: Slots<View?>): (r: (seq<UIEvent>, Slots<View?>))
    ensures forall e <- r.0 :: e.MoveToTop? || ((e.MouseDown? || e.MouseUp? || e.Click?) && e.button in buttons)
    ensures MoveToTop in r.0 ==> hover != null && focus == hover
  {
    if buttons == [] then ([], targets)
    else
      var previous := Dispatch(buttons[..|buttons| - 1], now, before, hover, focus, targets);
      var b := buttons[|buttons| - 1];
      var step := ButtonStep(b, now.Get(b), before.Get(b), hover, focus, previous.1);
      (previous.0 + step.0, step.1)
  }

  /** Buttons the loop may visit: declared ones, each at most once. */
  predicate DistinctDeclared(buttons: seq<MouseButtonType>)
  {
    (forall i :: 0 <= i < |buttons| ==> !buttons[i].Undefined?) &&
    (forall i, j :: 0 <= i < j < |buttons| ==> buttons[i] != buttons[j])
  }

  /**
   * The last target of a button the loop visits becomes the hovered element
   * exactly when the button changed state; every other slot is kept.
   */
  lemma {:induction false} DispatchTargets(buttons: seq<MouseButtonType>, now: Slots<bool>, before: Slots<bool>,
                                          hover: View?, focus: View?, targets: Slots<View?>, b: MouseButtonType)
    requires DistinctDeclared(buttons) && !b.Undefined?
    ensures var t := Dispatch(buttons, now, before, hover, focus, targets).1;
      t.Get(b) == if b in buttons && now.Get(b) != before.Get(b) then hover else targets.Get(b)
  {
    if buttons != [] {
      var init := buttons[..|buttons| - 1];
      assert buttons == init + [buttons[|buttons| - 1]];
      DispatchTargets(init, now, before, hover, focus, targets, b);
    }
  }

  /**
   * Down for a button fires exactly on a not-held to held transition, at the
   * hovered element; Up fires exactly on a held to not-held transition, at
   * the button's last target; Click fires on such a release only when the
   * last target is still hovered.
   */
  lemma {:induction false} DispatchEvents(buttons: seq<MouseButtonType>, now: Slots<bool>, before: Slots<bool>,
                                         hover: View?, focus: View?, targets: Slots<View?>, b: MouseButtonType, x: View)
    requires DistinctDeclared(buttons) && b in buttons
    ensures var events := Dispatch(buttons, now, before, hover, focus, targets).0;
      (MouseDown(b, x) in events <==> now.Get(b) && !before.Get(b) && x == hover) &&
      (MouseUp(b, x) in events <==> !now.Get(b) && before.Get(b) && x == targets.Get(b)) &&
      (Click(b, x) in events <==> !now.Get(b) && before.Get(b) && x == targets.Get(b) && x == hover)
  {
    var init, last := buttons[..|buttons| - 1], buttons[|buttons| - 1];
    assert buttons == init + [last];
    var previous := Dispatch(init, now, before, hover, focus, targets);
    var more := ButtonStep(last, now.Get(last), before.Get(last), hover, focus, previous.1).0;
    assert Dispatch(buttons, now, before, hover, focus, targets).0 == previous.0 + more;
    StepEvents(last, now.Get(last), before.Get(last), hover, focus, previous.1, x);
    if b == last {
      assert b !in init;
      DispatchOmits(init, now, before, hover, focus, targets, b, x);
      DispatchTargets(init, now, before, hover, focus, targets, b);
    } else {
      assert b in init;
      DispatchEvents(init, now, before, hover, focus, targets, b, x);
      assert MouseDown(b, x) !in more && MouseUp(b, x) !in more && Click(b, x) !in more;
    }
  }

  /** One pass of the loop raises events for its own button only, as HandleMouseEvent decides. */
  lemma StepEvents(button: MouseButtonType, now: bool, before: bool, hover: View?, focus: View?,
                   targets: Slots<View?>, x: View)
    ensures var events := ButtonStep(button, now, before, hover, focus, targets).0;
      (forall e <- events :: e == MoveToTop || e.button == button) &&
      (MouseDown(button, x) in events <==> now && !before && x == hover) &&
      (MouseUp(button, x) in events <==> !now && before && x == targets.Get(button)) &&
      (Click(button, x) in events <==> !now && before && x == targets.Get(button) && x == hover)
  {
  }

  /** A button the loop does not visit raises nothing. */
  lemma {:induction false} DispatchOmits(buttons: seq<MouseButtonType>, now: Slots<bool>, before: Slots<bool>,
                                        hover: View?, focus: View?, targets: Slots<View?>, b: MouseButtonType, x: View)
    requires b !in buttons
    ensures var events := Dispatch(buttons, now, before, hover, focus, targets).0;
      MouseDown(b, x) !in events && MouseUp(b, x) !in events && Click(b, x) !in events
  {
    if buttons != [] {
      var init, last := buttons[..|buttons| - 1], buttons[|buttons| - 1];
      assert buttons == init + [last];
      var t := Dispatch(init, now, before, hover, focus, targets).1;
      var more := ButtonStep(last, now.Get(last), before.Get(last), hover, focus, t).0;
      assert forall e <- more :: e == MoveToTop || e.button == last;
      DispatchOmits(init, now, before, hover, focus, targets, b, x);
    }
  }

  /** The interface is brought to the top only for a press on a hovered element that holds the focus. */
  lemma {:induction false} DispatchMovesToTop(buttons: seq<MouseButtonType>, now: Slots<bool>, before: Slots<bool>,
                                             hover: View?, focus: View?, targets: Slots<View?>)
    ensures MoveToTop in Dispatch(buttons, now, before, hover, focus, targets).0 <==>
      hover != null && focus == hover && exists b <- buttons :: now.Get(b) && !before.Get(b)
  {
    if buttons != [] {
      var init, last := buttons[..|buttons| - 1], buttons[|buttons| - 1];
      assert buttons == init + [last];
      var t := Dispatch(init, now, before, hover, focus, targets).1;
      var more := ButtonStep(last, now.Get(last), before.Get(last), hover, focus, t).0;
      assert forall e <- Handled(Down, last, hover, t.Get(last)) :: e != MoveToTop;
      assert forall e <- Handled(Up, last, hover, t.Get(last)) :: e != MoveToTop;
      assert MoveToTop in more <==> now.Get(last) && !before.Get(last) && hover != null && focus == hover;
      DispatchMovesToTop(init, now, before, hover, focus, targets);
    }
  }

  /** Without a button changing state the loop raises nothing and keeps every target. */
  lemma {:induction false} SteadyButtonsAreQuiet(buttons: seq<MouseButtonType>, now: Slots<bool>, hover: View?,
                                                focus: View?, targets: Slots<View?>)
    ensures Dispatch(buttons, now, now, hover, focus, targets) == ([], targets)
  {
    if buttons != [] {
      var b := buttons[|buttons| - 1];
      SteadyButtonsAreQuiet(buttons[..|buttons| - 1], now, hover, focus, targets);
      var step := ButtonStep(b, now.Get(b), now.Get(b), hover, focus, targets);
      assert step.0 == [] && step.1 == targets;
      assert Dispatch(buttons, now, now, hover, focus, targets).0 == [] + [];
    }
  }

  lemma AppendAssociates<T>(a: seq<T>, b: seq<T>, c: seq<T>)
    ensures (a + b) + c == a + (b + c)
  {
  }

  /** The prefix one longer ends in the next element and extends the shorter one. */
  lemma PrefixStep<T>(s: seq<T>, i: nat)
    requires i < |s|
    ensures s[..i + 1][..i] == s[..i] && s[..i + 1][i] == s[i] && s[..i + 1] == s[..i] + [s[i]]
  {
  }

  class SilkyUserInterface {
    var basicBody: View?
    var mousePosition: Vec2
    var currentHoverTarget: View?
    var lastHoverTarget: View?
    const lastMouseTargets: MouseTarget
    const mouseStatus: MouseStatusMinor
    const lastMouseStatus: MouseStatusMinor
    /** The calls this interface has made, in order. */
    var events: seq<UIEvent>

    /** The two status records are distinct objects. */
    ghost predicate Valid()
      reads this
    {
      mouseStatus != lastMouseStatus
    }

    constructor()
      ensures Valid() && fresh(lastMouseTargets) && fresh(mouseStatus) && fresh(lastMouseStatus)
      ensures basicBody == null && currentHoverTarget == null && lastHoverTarget == null && events == []
      ensures mousePosition == Zero
      ensures lastMouseTargets.State() == Slots(null, null, null)
      ensures mouseStatus.State() == Slots(false, false, false) && lastMouseStatus.State() == Slots(false, false, false)
    {
      basicBody := null;
      mousePosition := Zero;
      currentHoverTarget := null;
      lastHoverTarget := null;
      lastMouseTargets := new MouseTarget();
      mouseStatus := new MouseStatusMinor();
      lastMouseStatus := new MouseStatusMinor();
      events := [];
    }

    /** SetBasicBody: the same body again changes nothing; a new non-null body is activated and laid out. */
    method SetBasicBody(body: View?)
      modifies this`basicBody, this`events
      ensures body == old(basicBody) ==> basicBody == old(basicBody) && events == old(events)
      ensures body != old(basicBody) ==>
        basicBody == body && events == old(events) + (if body != null then [Activated(body)] else [])
    {
      if basicBody == body {
        return;
      }
      basicBody := body;
      if basicBody == null {
        return;
      }
      events := events + [Activated(basicBody)];
    }

    /** HandleMouseEvent for one declared button. */
    method HandleMouseEvent(kind: MouseEventType, button: MouseButtonType)
      requires !button.Undefined?
      modifies this`events, lastMouseTargets
      ensures events == old(events) + Handled(kind, button, currentHoverTarget, old(lastMouseTargets.State()).Get(button))
      ensures lastMouseTargets.State() == old(lastMouseTargets.State()).Set(button, currentHoverTarget)
    {
      var last := lastMouseTargets.State().Get(button);
      if kind.Down? {
        if currentHoverTarget != null {
          events := events + [MouseDown(button, currentHoverTarget)];
        }
      } else {
        if last != null {
          events := events + [MouseUp(button, last)];
        }
        if last == currentHoverTarget && last != null {
          events := events + [Click(button, last)];
        }
      }
      lastMouseTargets.Set(button, currentHoverTarget);
    }

    /** UpdateHoverTarget: the old hover target becomes the last one. */
    method UpdateHoverTarget(focus: View?, notSelectable: bool, hit: View?)
      modifies this`lastHoverTarget, this`currentHoverTarget
      ensures lastHoverTarget == old(currentHoverTarget)
      ensures currentHoverTarget == HoverTarget(focus, notSelectable, hit)
    {
      lastHoverTarget := currentHoverTarget;
      currentHoverTarget := HoverTarget(focus, notSelectable, hit);
    }

    /** MouseOut and MouseOver when the hover target changed. */
    method AnnounceHover()
      modifies this`events
      ensures events == old(events) + HoverEvents(lastHoverTarget, currentHoverTarget)
    {
      if currentHoverTarget != lastHoverTarget {
        if lastHoverTarget != null {
          events := events + [MouseOut(lastHoverTarget)];
        }
        if currentHoverTarget != null {
          events := events + [MouseOver(currentHoverTarget)];
        }
      }
    }

    /** The body of the button loop: the switch on this frame's and the last frame's status. */
    method HandleButton(button: MouseButtonType, focus: View?)
      requires !button.Undefined?
      modifies this`events, lastMouseTargets
      ensures var r := ButtonStep(button, mouseStatus.State().Get(button), lastMouseStatus.State().Get(button),
                                  currentHoverTarget, focus, old(lastMouseTargets.State()));
        events == old(events) + r.0 && lastMouseTargets.State() == r.1
    {
      if mouseStatus.State().Get(button) && !lastMouseStatus.State().Get(button) {
        if currentHoverTarget != null && focus == currentHoverTarget {
          events := events + [MoveToTop];
        }
        HandleMouseEvent(Down, button);
      } else if !mouseStatus.State().Get(button) && lastMouseStatus.State().Get(button) {
        HandleMouseEvent(Up, button);
      }
    }

    /** The loop over the declared buttons, comparing this frame's status with the last one. */
    method DispatchButtons(focus: View?)
      modifies this`events, lastMouseTargets
      ensures var r := Dispatch(Declared, mouseStatus.State(), lastMouseStatus.State(), currentHoverTarget, focus,
                                old(lastMouseTargets.State()));
        events == old(events) + r.0 && lastMouseTargets.State() == r.1
    {
      ghost var now, before, targets := mouseStatus.State(), lastMouseStatus.State(), lastMouseTargets.State();
      var i := 0;
      while i < |Declared|
        invariant 0 <= i <= |Declared|
        invariant events == old(events) + Dispatch(Declared[..i], now, before, currentHoverTarget, focus, targets).0
        invariant lastMouseTargets.State() == Dispatch(Declared[..i], now, before, currentHoverTarget, focus, targets).1
      {
        PrefixStep(Declared, i);
        ghost var previous := Dispatch(Declared[..i], now, before, currentHoverTarget, focus, targets);
        HandleButton(Declared[i], focus);
        AppendAssociates(old(events), previous.0,
          ButtonStep(Declared[i], now.Get(Declared[i]), before.Get(Declared[i]), currentHoverTarget, focus, previous.1).0);
        i := i + 1;
      }
      assert Declared[..i] == Declared;
    }

    /**
     * Update. Inputs the host supplies: the cursor, the three buttons, whether
     * the body is enabled, the manager's focus element, the element under the
     * cursor, the body's IsNotSelectable and CanSetFocusTarget answers, and the
     * wheel delta. Returns the manager's focus element afterwards.
     */
    method Update(mouse: Vec2, buttons: Slots<bool>, bodyEnabled: bool, focus: View?, hit: View?,
                  notSelectable: bool, canSetFocus: bool, wheel: int) returns (newFocus: View?)
      requires Valid()
      modifies this`mousePosition, this`lastHoverTarget, this`currentHoverTarget, this`events
      modifies mouseStatus, lastMouseStatus, lastMouseTargets
      ensures basicBody == null || !bodyEnabled ==>
        newFocus == focus && unchanged(this, mouseStatus, lastMouseStatus, lastMouseTargets)
      ensures basicBody != null && bodyEnabled ==>
        mousePosition == mouse &&
        lastMouseStatus.State() == old(mouseStatus.State()) && mouseStatus.State() == buttons
      ensures basicBody != null && bodyEnabled ==>
        lastHoverTarget == old(currentHoverTarget) && currentHoverTarget == HoverTarget(focus, notSelectable, hit) &&
        newFocus == (if canSetFocus then currentHoverTarget else focus)
      ensures basicBody != null && bodyEnabled ==>
        var r := Dispatch(Declared, buttons, old(mouseStatus.State()), currentHoverTarget, newFocus,
                          old(lastMouseTargets.State()));
        lastMouseTargets.State() == r.1 &&
        events == old(events) + HoverEvents(old(currentHoverTarget), currentHoverTarget) + r.0 +
          (if wheel != 0 && currentHoverTarget != null then [ScrollWheel(currentHoverTarget, wheel)] else []) +
          [BodyUpdated(basicBody)]
    {
      newFocus := focus;
      if basicBody == null || !bodyEnabled {
        return;
      }
      mousePosition := mouse;
      lastMouseStatus.CopyState(mouseStatus);
      mouseStatus.SetState(buttons.left, buttons.middle, buttons.right);

      UpdateHoverTarget(focus, notSelectable, hit);
      if canSetFocus {
        newFocus := currentHoverTarget;
      }
      AnnounceHover();
      DispatchButtons(newFocus);
      if wheel != 0 && currentHoverTarget != null {
        events := events + [ScrollWheel(currentHoverTarget, wheel)];
      }
      events := events + [BodyUpdated(basicBody)];
    }

    /** Draw draws an enabled body and always reports success. */
    method Draw(bodyEnabled: bool) returns (r: bool)
      modifies this`events
      ensures r
      ensures events == old(events) + (if basicBody != null && bodyEnabled then [BodyDrawn(basicBody)] else [])
    {
      if basicBody != null && bodyEnabled {
        events := events + [BodyDrawn(basicBody)];
      }
      return true;
    }
  }

  /**
   * What one enabled frame does for a button, read off Update's result: a
   * press hands Down to the hovered element, a release hands Up to the last
   * target and Click only when it is still hovered, and the last target
   * becomes the hovered element after either.
   */
  lemma FrameButtonEvents(now: Slots<bool>, before: Slots<bool>, hover: View?, focus: View?, targets: Slots<View?>,
                          b: MouseButtonType, x: View)
    requires b in Declared
    ensures var (events, t) := Dispatch(Declared, now, before, hover, focus, targets);
      (MouseDown(b, x) in events <==> now.Get(b) && !before.Get(b) && x == hover) &&
      (MouseUp(b, x) in events <==> !now.Get(b) && before.Get(b) && x == targets.Get(b)) &&
      (Click(b, x) in events <==> !now.Get(b) && before.Get(b) && x == targets.Get(b) && x == hover) &&
      t.Get(b) == (if now.Get(b) != before.Get(b) then hover else targets.Get(b))
  {
    assert DistinctDeclared(Declared);
    DispatchEvents(Declared, now, before, hover, focus, targets, b, x);
    DispatchTargets(Declared, now, before, hover, focus, targets, b);
  }
}
