# SilkyUI core, modelled in Dafny

SilkyUI is a retained-mode UI toolkit for tModLoader. Its core is the layout
engine of `View` (a box model with margin, border and padding; flow and
flexbox placement of children; auto-sizing from content; Z-ordered hit
testing) and the small state machines around it: the per-interface mouse
dispatch, the interface registry that orders interface layers, the render
target pool, the rich-text snippet helpers, the scroll bar, the two
draggable views, the layout-unit parser, the observable value and the style
bag.

The model keeps the source's shape:

- `ViewNode` holds the node class shared by every layout module. `View` and a
  bare `UIElement` are one class told apart by `isView`. The child list is
  fixed when a node is built, and `Repr` is the node's subtree.
- Each partial-class file of `View` is its own module, and the two revisions
  of the layout engine are not merged:
  - `ViewLayout`, `ViewLayoutFlow`, `ViewLayoutFlexbox`, `ViewNonVirtualMethods`
    and `ViewProperties` model the newer revision.
  - `ViewLegacy` (View.cs) and `ViewFlex` (View.Flex.cs) model the older one.
- Code that changes state in place is a method over the class. Its
  postcondition ties the new state to a specification function of the old
  state, and lemmas prove what the source promises about that function.
- Pure code is a function, with lemmas beside it.
- Single-precision floats are mathematical reals. C#'s truncating `%`,
  `MathF.Round` (round half to even) and the 2-decimal rounding are written
  out explicitly.
- What the host supplies is an input:
  - the screen size, the mouse state and the element under the cursor;
  - font metrics, the chat regular expression and its tag handlers;
  - the animation timer's interpolation.
- Calls into host code (element event handlers, Update of interfaces and
  bodies) are recorded in order in an event log.

Modules and the files they model:

| module | file |
|---|---|
| HostTypes | the host value types (Vector2, Color, CalculatedStyle, StyleDimension) |
| ViewNode | SilkyUI/BasicElements/View.cs, View.Properties.cs (the node and its fields) |
| ViewLayout | SilkyUI/BasicElements/View.Layout.cs |
| ViewLayoutFlow | SilkyUI/BasicElements/View.Layout.Flow.cs |
| ViewLayoutFlexbox | SilkyUI/BasicElements/View.Layout.Flexbox.cs |
| ViewNonVirtualMethods | SilkyUI/BasicElements/View.NonVirtualMethods.cs |
| ViewProperties | SilkyUI/BasicElements/View.Properties.cs |
| ViewLegacy | SilkyUI/BasicElements/View.cs |
| ViewFlex, ViewFlexTypes | SilkyUI/BasicElements/View.Flex.cs (ViewFlexTypes holds its own FlexDirection and alignment enums) |
| UIElementExtensions | SilkyUI/Extensions/UIElementExtensions.cs |
| CalculatedStyleExtensions | SilkyUI/Extensions/CalculatedStyleExtensions.cs |
| LayoutUnits, LayoutUnitTypes | SilkyUI/BasicElements/LayoutUnit.cs, LayoutUnitType.cs |
| SUIScrollbars | SilkyUI/BasicComponents/SUIScrollbar.cs |
| SUIDraggableViewComponent | SilkyUI/BasicComponents/SUIDraggableView.cs |
| SUIDraggableViewElement | SilkyUI/BasicElements/SUIDraggableView.cs |
| SilkyUserInterfaces | SilkyUI/SilkyUserInterface.cs |
| SilkyUserInterfaceManagers | SilkyUI/SilkyUserInterfaceManager.cs |
| RenderTargetPools | SilkyUI/RenderTargetPool.cs |
| TextSnippetHelpers | SilkyUI/Helper/TextSnippetHelper.cs |
| SubscriptionTypes | SilkyUI/Core/SubscriptionType.cs |
| UserInterfaceStyles, UserInterfaceStyleManagers | SilkyUI/Style/UserInterfaceStyle.cs, UserInterfaceStyleManager.cs |

Where the documented intent and the code disagree, the model follows the
code. The operations the system runs use the code as written:

- `Recalculate` sizes a flow container with `GetFlowSize`, which stacks
  the flow elements with `Gap.X`.
- `Recalculate` then calls `AdaptingChildren` as written, which grows the
  outer and dimension sizes of an unspecified axis to the content but only
  takes the inset off the inner size.
- The older `RecalculateSize` of View.cs gives a view under a plain parent
  an `InnerHeight` clamped by Width, MinWidth and MaxWidth.
- `LayoutUnit.Parse`, `TryParse` and the implicit conversion from a string
  keep the un-negated float test.
- `RenderTargetPool.ReturnAsWritten` pops the top of the occupied stack.
- `PreviousElement` returns the sibling just before the element, not the
  accepted one.

The first five are also listed under "## Findings". Each has a corrected
definition kept beside the as-written one, with the intended property proved
about it: `ViewLayout.FlowSize`, `ViewLayout.AdaptingChildren`,
`ViewLegacy.InnerHeightUnderIntended`, `LayoutUnits.ParseIntended` (with
`TryParseIntended` and `FromStringIntended`) and `RenderTargetPool.Return`.
No live operation calls the corrected layout, legacy or parsing
definitions.

## Model

| member | source | states |
|---|---|---|
| ViewNode.RoundedRectangle.constructor | SilkyUI/BasicElements/RoundedRectangle.cs:5-8 | no border, transparent background and border colours, zero corner radii |
| ViewNode.View.constructor | SilkyUI/BasicElements/View.cs:8-19 | a View starts with MaxWidth = MaxHeight = 114514 px and the property defaults (ZIndex 0, Display Flow, BoxSizing BorderBox, Positioning Relative, DragIgnore, FlexWrap, a Row direction, Start alignments, a changed position); the children's parent becomes the new node, and the tree invariant holds |
| ViewNode.View.SetPosition | SilkyUI/BasicElements/View.Layout.cs:181-191 | the position reads back the value, and PositionChanged is raised exactly when the value differs from the old position, never lowered |
| ViewNode.View.SetScrollPosition | SilkyUI/BasicElements/View.Layout.cs:195-205 | the scroll position reads back the value, and PositionChanged is raised exactly when the value differs, never lowered |
| ViewNode.ElementsDistinct | SilkyUI/BasicElements/View.cs:8-19 | in a valid tree a child list holds each element once and the children's subtrees are disjoint |
| ViewNode.ParentOutsideChildren | SilkyUI/BasicElements/View.cs:8-19 | in a valid tree no node lies in its own children's subtrees |
| CalculatedStyleExtensions.RightBottom | SilkyUI/Extensions/CalculatedStyleExtensions.cs:10-13 | the bottom-right corner is the top-left corner moved by the size, so subtracting the position gives back the size |
| CalculatedStyleExtensions.Right | SilkyUI/Extensions/CalculatedStyleExtensions.cs:15-18 | the right edge is the x of the bottom-right corner, and lies one width right of X |
| CalculatedStyleExtensions.Bottom | SilkyUI/Extensions/CalculatedStyleExtensions.cs:20-23 | the bottom edge is the y of the bottom-right corner, and lies one height below Y |
| SubscriptionTypes.SubscriptionType.constructor | SilkyUI/Core/SubscriptionType.cs:14 | a new subscription holds the type's default value and has announced nothing |
| SubscriptionTypes.SubscriptionType.Get | SilkyUI/Core/SubscriptionType.cs:18 | the value read is the new value of the last notification, or the initial value when nothing was set |
| SubscriptionTypes.SubscriptionType.Set | SilkyUI/Core/SubscriptionType.cs:19-23 | every assignment, also of an equal value, appends the pair (new, old) to the notifications before storing; the notifications stay chained (each old value is the previous new value) |
| UserInterfaceStyles.DefaultProperties | SilkyUI/Style/UserInterfaceStyle.cs:12-18 | a new style holds exactly the three colours and the three corner radii |
| UserInterfaceStyles.ColorIn | SilkyUI/Style/UserInterfaceStyle.cs:26-29 | GetColor: any colour other than `new Color()` was stored as a Color under that name |
| UserInterfaceStyles.FloatIn | SilkyUI/Style/UserInterfaceStyle.cs:31-34 | GetFloat: any value other than 0 was stored as a float under that name |
| UserInterfaceStyles.UserInterfaceStyle.constructor | SilkyUI/Style/UserInterfaceStyle.cs:8-19 | the style keeps its name and starts with the default properties |
| UserInterfaceStyles.UserInterfaceStyle.GetColor | SilkyUI/Style/UserInterfaceStyle.cs:26-29 | a stored colour is returned; a colour other than the default `new Color()` was stored under the name |
| UserInterfaceStyles.UserInterfaceStyle.GetFloat | SilkyUI/Style/UserInterfaceStyle.cs:31-34 | a stored float is returned; a value other than 0 was stored under the name |
| UserInterfaceStyles.UserInterfaceStyle.Add | SilkyUI/Style/UserInterfaceStyle.cs:21-24 | the property is inserted or overwritten, every other one is kept |
| UserInterfaceStyles.DefaultsReadBack | SilkyUI/Style/UserInterfaceStyle.cs:12-18 | a fresh style reads back each seeded colour and radius, and the default when a name is read at the wrong type |
| UserInterfaceStyles.AddReadsBack | SilkyUI/Style/UserInterfaceStyle.cs:36-44 | after Add, the name reads back the value at its own type and the default at the other type; other names read as before |
| UserInterfaceStyleManagers.UserInterfaceStyleManager.constructor | SilkyUI/Style/UserInterfaceStyleManager.cs:8-13 | the "Default" style is current and is the only registered style |
| UserInterfaceStyleManagers.UserInterfaceStyleManager.ChangeStyle | SilkyUI/Style/UserInterfaceStyleManager.cs:18-25 | returns true exactly when the name is registered, and then makes that style current; otherwise the current style stays; the registry never changes |
| LayoutUnitTypes.TrimStart | SilkyUI/BasicElements/LayoutUnitType.cs:14 | string.TrimStart: the result is a suffix of the input, everything dropped is white space, and it does not start with white space |
| LayoutUnitTypes.TrimEnd | SilkyUI/BasicElements/LayoutUnitType.cs:14 | string.TrimEnd: the result is a prefix of the input, everything dropped is white space, and it does not end with white space |
| LayoutUnitTypes.LowerChar | SilkyUI/BasicElements/LayoutUnitType.cs:14 | char.ToLower on Latin capitals moves them to lower case and keeps every other character |
| LayoutUnitTypes.ToLower | SilkyUI/BasicElements/LayoutUnitType.cs:14 | string.ToLower keeps the length and lowers each character |
| LayoutUnitTypes.SafeParse | SilkyUI/BasicElements/LayoutUnitType.cs:12-21 | with a default present the result is present; a result other than the default comes from "px", "%" or "fr" after trimming and lowering |
| LayoutUnitTypes.TryParse | SilkyUI/BasicElements/LayoutUnitType.cs:23-33 | with the default Pixels, SafeParse always succeeds, so TryParse returns true with SafeParse's unit, which is Pixels for an unknown name |
| LayoutUnitTypes.TrimPadded | SilkyUI/BasicElements/LayoutUnitType.cs:14 | trimming a string padded with white space gives the string back |
| LayoutUnitTypes.SafeParseUnitText | SilkyUI/BasicElements/LayoutUnitType.cs:14-19 | each unit's suffix, in any letter case and padded with white space, parses to that unit whatever the default |
| LayoutUnitTypes.SafeParseNamed | SilkyUI/BasicElements/LayoutUnitType.cs:14-19 | a name that trims and lowers to a suffix parses to its unit |
| LayoutUnits.UnitMatch | SilkyUI/BasicElements/LayoutUnit.cs:23-24 | a match splits the text (less a final line feed) into a number `\d+(\.\d)?` and a suffix px, % or fr |
| LayoutUnits.FloatTryParse | SilkyUI/BasicElements/LayoutUnit.cs:32 | float.TryParse succeeds exactly on ASCII numbers, and gives 0 when it fails |
| LayoutUnits.Parse | SilkyUI/BasicElements/LayoutUnit.cs:26-35 | as written: non-null exactly when the text matches and float.TryParse rejects its number; the unit then has the suffix's unit type and value 0 |
| LayoutUnits.ParseIntended | SilkyUI/BasicElements/LayoutUnit.cs:26-35 | as intended: a unit exactly when the text matches and its number parses, with the suffix's unit type and the parsed value |
| LayoutUnits.TryParse | SilkyUI/BasicElements/LayoutUnit.cs:37-47 | as written, over Parse: true exactly when Parse returns a unit, with that unit, and false with Zero otherwise; so a rendered ASCII length gives (false, Zero) (RenderedLengthConversions) |
| LayoutUnits.FromString | SilkyUI/BasicElements/LayoutUnit.cs:12-19 | as written, over Parse: the unit Parse returns, or Zero when it returns null |
| LayoutUnits.TryParseIntended | SilkyUI/BasicElements/LayoutUnit.cs:37-47 | TryParse over the corrected parse: true exactly when ParseIntended returns a unit, with that unit, and Zero otherwise |
| LayoutUnits.FromStringIntended | SilkyUI/BasicElements/LayoutUnit.cs:12-19 | the implicit conversion over the corrected parse: its unit, or Zero |
| LayoutUnits.UnitMatchComplete | SilkyUI/BasicElements/LayoutUnit.cs:23-24 | a number followed by a suffix matches with exactly those groups, also with a final line feed |
| LayoutUnits.SuffixUnit | SilkyUI/BasicElements/LayoutUnit.cs:31 | the suffix a match captured always passes LayoutUnitTypeHelper.TryParse with the unit it names |
| LayoutUnits.UnitOf | SilkyUI/BasicElements/LayoutUnitType.cs:16-18 | the unit a lower-case suffix names is the unit whose suffix it is |
| LayoutUnits.AsciiNumberParses | SilkyUI/BasicElements/LayoutUnit.cs:32 | every number of ASCII digits passes float.TryParse |
| LayoutUnits.ParseRejectsAsciiNumbers | SilkyUI/BasicElements/LayoutUnit.cs:26-35 | as written, Parse returns null for every ASCII number with every unit, where the corrected parse succeeds |
| LayoutUnits.ParseAsWrittenResult | SilkyUI/BasicElements/LayoutUnit.cs:26-35 | as written, any result Parse does return has value 0 and came from a number with a non-ASCII digit |
| LayoutUnits.TenPixelsAsWritten | SilkyUI/BasicElements/LayoutUnit.cs:26-35 | "10px" parses to null as written |
| LayoutUnits.TenPixelsIntended | SilkyUI/BasicElements/LayoutUnit.cs:26-35 | "10px" parses to ten pixels as intended |
| LayoutUnits.ArabicIndicOne | SilkyUI/BasicElements/LayoutUnit.cs:26-35 | "١px" parses to zero pixels as written and to null as intended |
| LayoutUnits.NumberOfParses | SilkyUI/BasicElements/LayoutUnit.cs:23-32 | a rendered number matches the number group and float.TryParse reads its value back |
| LayoutUnits.ParseIntendedRender | SilkyUI/BasicElements/LayoutUnit.cs:26-35 | the corrected Parse reads every rendered length (number and suffix) back exactly |
| LayoutUnits.RenderedLengthConversions | SilkyUI/BasicElements/LayoutUnit.cs:12-47 | every rendered length (ASCII number and suffix) converts to Zero and TryParse fails as written, while the corrected conversions give back that length |
| ViewLayoutFlow.OuterHeights | SilkyUI/BasicElements/View.Layout.Flow.cs:12 | the outer heights the loop reads, one per element, in order |
| ViewLayoutFlow.StackOffsetIsSum | SilkyUI/BasicElements/View.Layout.Flow.cs:7-13 | the running top before element i is the sum of the outer heights before it plus i gaps |
| ViewLayoutFlow.StackedBoxesDoNotOverlap | SilkyUI/BasicElements/View.Layout.Flow.cs:7-13 | with non-negative heights and gap, each stacked element starts at or below the end of every element before it |
| ViewLayoutFlow.Shift | SilkyUI/BasicElements/View.Layout.Flow.cs:11 | `Position += d` through the setter: the position moves by d and the change flag is raised exactly when d is not zero |
| ViewLayoutFlow.StackVertically | SilkyUI/BasicElements/View.Layout.Flow.cs:7-13 | the k-th element moves down by the outer heights of the elements before it plus one gap each, X unchanged, the change flag raised only for those that move |
| ViewLayoutFlow.ReflowFlowLayout | SilkyUI/BasicElements/View.Layout.Flow.cs:5-14 | the view's flow elements are stacked with its vertical gap Gap.Y |
| ViewNonVirtualMethods.ClassifyElements | SilkyUI/BasicElements/View.NonVirtualMethods.cs:8-20 | both lists are rebuilt: the flow list holds the Views positioned Relative, the absolute list every other element, both in element order |
| ViewNonVirtualMethods.ClassifyMembers | SilkyUI/BasicElements/View.NonVirtualMethods.cs:13-19 | an element is a flow element iff it is listed and a Relative View; it is an absolute element iff it is listed and not |
| ViewNonVirtualMethods.ClassifyPartition | SilkyUI/BasicElements/View.NonVirtualMethods.cs:13-19 | the two lists together hold every element exactly as often as Elements does |
| ViewNonVirtualMethods.FlowOfAppend | SilkyUI/BasicElements/View.NonVirtualMethods.cs:13-19 | classification keeps list order: the flow list of a concatenation is the concatenation of the flow lists |
| ViewNonVirtualMethods.AbsoluteOfAppend | SilkyUI/BasicElements/View.NonVirtualMethods.cs:13-19 | the same for the absolute list |
| ViewNonVirtualMethods.WithKeys | SilkyUI/BasicElements/View.NonVirtualMethods.cs:23 | each element is paired with its key: ZIndex for a View, 0 for anything else |
| ViewNonVirtualMethods.ChildrenByZIndex | SilkyUI/BasicElements/View.NonVirtualMethods.cs:22-23 | the children are the elements of the sorted keyed pairs, in that order |
| ViewNonVirtualMethods.InsertByKeyPermutes | SilkyUI/BasicElements/View.NonVirtualMethods.cs:23 | inserting one pair adds exactly that pair |
| ViewNonVirtualMethods.InsertByKeySorted | SilkyUI/BasicElements/View.NonVirtualMethods.cs:23 | inserting into a sorted sequence keeps it sorted |
| ViewNonVirtualMethods.InsertByKeyStable | SilkyUI/BasicElements/View.NonVirtualMethods.cs:23 | the inserted pair goes in front of every pair with its key, so equal keys keep their order |
| ViewNonVirtualMethods.OrderByKeyCorrect | SilkyUI/BasicElements/View.NonVirtualMethods.cs:23 | Enumerable.OrderBy: the result is sorted, a permutation, and stable (the pairs sharing a key keep their order) |
| ViewNonVirtualMethods.ChildrenByZIndexCorrect | SilkyUI/BasicElements/View.NonVirtualMethods.cs:22-23 | GetChildrenByZIndex lists every child once, in non-decreasing ZIndex, with children of equal ZIndex in element order |
| ViewNonVirtualMethods.SetWidth | SilkyUI/BasicElements/View.NonVirtualMethods.cs:28-34 | Pixels is set, Percent only when given, and the width becomes specified |
| ViewNonVirtualMethods.SetWidthDimension | SilkyUI/BasicElements/View.NonVirtualMethods.cs:39-43 | the width is replaced and becomes specified |
| ViewNonVirtualMethods.SetHeight | SilkyUI/BasicElements/View.NonVirtualMethods.cs:48-54 | Pixels is set, Percent only when given, and the height becomes specified |
| ViewNonVirtualMethods.SetHeightDimension | SilkyUI/BasicElements/View.NonVirtualMethods.cs:59-63 | the height is replaced and becomes specified |
| ViewNonVirtualMethods.SetSize | SilkyUI/BasicElements/View.NonVirtualMethods.cs:65-76 | both pixel values are set, each percent only when given, and both axes become specified |
| ViewNonVirtualMethods.SetSizeDimensions | SilkyUI/BasicElements/View.NonVirtualMethods.cs:78-84 | both dimensions are replaced and both axes become specified |
| ViewProperties.IsRelative | SilkyUI/BasicElements/View.Properties.cs:57 | true exactly for Positioning Relative, so never for an Absolute or Sticky view |
| ViewProperties.IsAbsolute | SilkyUI/BasicElements/View.Properties.cs:62 | true exactly for Positioning Absolute; such a view is never relative, and a Sticky view is neither |
| ViewProperties.SetCornerRadius | SilkyUI/BasicElements/View.Properties.cs:28-32 | the corner radius written to the RoundedRectangle reads back, and the other three pass-through properties stay |
| ViewProperties.SetBorder | SilkyUI/BasicElements/View.Properties.cs:34-38 | the border reads back and the other three properties stay |
| ViewProperties.SetBgColor | SilkyUI/BasicElements/View.Properties.cs:40-44 | the background colour reads back and the other three properties stay |
| ViewProperties.SetBorderColor | SilkyUI/BasicElements/View.Properties.cs:46-50 | the border colour reads back and the other three properties stay |
| ViewLayout.GetContainerSize | SilkyUI/BasicElements/View.Layout.cs:5-17 | the root measures against the screen; an absolute child or the child of a plain element against the parent's inner size; a relative child of a View gets 0 on each axis the parent leaves unspecified |
| ViewLayout.ContainerOfChild | SilkyUI/BasicElements/View.Layout.cs:5-17 | a child's container is, on each axis, the parent's inner size or 0, and it is 0 exactly for a non-absolute child of a View that leaves that axis unspecified |
| ViewLayout.GetWidthValue | SilkyUI/BasicElements/View.Layout.cs:88-93 | the width is clamped into [MinWidth, MaxWidth] as resolved against the container; MathHelper.Clamp caps at the maximum and then raises to the minimum, so the minimum wins when MaxWidth < MinWidth |
| ViewLayout.GetHeightValue | SilkyUI/BasicElements/View.Layout.cs:95-100 | the height is clamped into [MinHeight, MaxHeight] in the same way |
| ViewLayout.CalculateOuterSize | SilkyUI/BasicElements/View.Layout.cs:102-116 | taking the margins back off the outer size gives the given size under BorderBox; taking margins, padding and twice the border off gives it under ContentBox |
| ViewLayout.GetOuterSizeByContainer | SilkyUI/BasicElements/View.Layout.cs:124-130 | less the margins (and under ContentBox the padding and border), each axis is the clamped Width or Height when specified and 0 when not |
| ViewLayout.BoxSizingMeaning | SilkyUI/BasicElements/View.Layout.cs:102-130 | under BorderBox the resolved size is the size of the dimensions rectangle, under ContentBox the size of the inner rectangle |
| ViewLayout.RecalculateSize | SilkyUI/BasicElements/View.Layout.cs:19-31 | the outer size becomes GetOuterSizeByContainer, the dimensions are it less the margins, the inner size is that less padding and twice the border, and no X or Y moves |
| ViewLayout.RecalculatedSizesConsistent | SilkyUI/BasicElements/View.Layout.cs:19-31 | after RecalculateSize each axis obeys the box model (dims = outer − margins, inner = dims − padding − 2·border) |
| ViewLayout.UnspecifiedOuterSize | SilkyUI/BasicElements/View.Layout.cs:124-130 | an unspecified axis resolves to 0, so its outer size is the margins alone under BorderBox and margins plus inset under ContentBox |
| ViewLayout.StackedHeight | SilkyUI/BasicElements/View.Layout.cs:151 | the sum-plus-gap-minus-gap form equals where the last stacked box ends |
| ViewLayout.GetFlowSize | SilkyUI/BasicElements/View.Layout.cs:150-151 | as written: X is 0 and Y stacks the flow elements' outer heights with Gap.X |
| ViewLayout.FlowSizeMismatch | SilkyUI/BasicElements/View.Layout.cs:150-151 | with two or more flow elements and Gap.X ≠ Gap.Y, the height GetFlowSize reports differs from the one ReflowFlowLayout stacks by (n − 1)·(Gap.X − Gap.Y) |
| ViewLayout.FlowSizeExample | SilkyUI/BasicElements/View.Layout.cs:150-151 | two 10-pixel elements with Gap = (5, 0) are stacked 20 high and reported 25 high |
| ViewLayout.FlowSize | SilkyUI/BasicElements/View.Layout.cs:150-151 | as intended: the height is where ReflowFlowLayout's last flow element ends (stacked with Gap.Y) |
| ViewLayout.GetContentSize | SilkyUI/BasicElements/View.Layout.cs:134-148 | the content size is the flow size (GetFlowSize, stacked with Gap.X) or the flexbox size, flagged non-empty exactly when a component is positive; FlowContentAgainstLayout relates it to the flow layout |
| ViewLayout.FlowContentAgainstLayout | SilkyUI/BasicElements/View.Layout.cs:134-151 | the content height a flow container reports is where ReflowFlowLayout ends its last flow element, off by (n − 1)·(Gap.X − Gap.Y); Gap = (5, 0) with two 10-high children gives 25 for a 20-high stack |
| ViewLayout.AdaptAxisAsWrittenLosesContent | SilkyUI/BasicElements/View.Layout.cs:163-175 | on an unspecified, consistent axis with positive content the inner size left by the as-written step is below the content and the axis is no longer consistent |
| ViewLayout.AdaptAxisAsWrittenExample | SilkyUI/BasicElements/View.Layout.cs:170-175 | content 10 high and no margins, padding or border: the dimensions become 10 high while the inner height stays 0 |
| ViewLayout.AdaptAxis | SilkyUI/BasicElements/View.Layout.cs:163-175 | as intended: the axis is consistent and its inner size is the content |
| ViewLayout.AdaptingChildrenAsWritten | SilkyUI/BasicElements/View.Layout.cs:159-176 | nothing changes when both axes are specified or the content is empty; otherwise each unspecified axis grows as written and only sizes change |
| ViewLayout.AdaptToAsWritten | SilkyUI/BasicElements/View.Layout.cs:163-175 | the body of the as-written AdaptingChildren once the content is known |
| ViewLayout.AdaptingChildren | SilkyUI/BasicElements/View.Layout.cs:159-176 | as intended: each unspecified axis of a view with non-empty content is recomputed so that its inner size is the content; positions never move |
| ViewLayout.AdaptTo | SilkyUI/BasicElements/View.Layout.cs:163-175 | the body of the intended AdaptingChildren once the content is known |
| ViewLayout.Measured | SilkyUI/BasicElements/View.Layout.cs:19-31 | the sizes RecalculateSize gives an axis from its outer size obey the box model |
| ViewLayout.UnspecifiedAxesAfterRecalculate | SilkyUI/BasicElements/View.Layout.cs:48-84 | on an unspecified axis with content, Recalculate leaves the outer size at content plus margins and inset, the dimensions at content plus inset, and the inner size at minus the inset twice (BorderBox) or once (ContentBox), whatever the content; padding 2 + 2 and a 10-high child give an inner height of −8 |
| ViewLayout.Adapt | SilkyUI/BasicElements/View.Layout.cs:61 | the live AdaptingChildren step: the as-written growth from the sizes before it, the content size unchanged |
| ViewLayout.Aligned | SilkyUI/BasicElements/View.Layout.cs:67-77 | the share of the free space an alignment fraction gives: inside [0, free] for a fraction in [0, 1], half of it for 0.5, none for 0 |
| ViewLayout.AlignIn | SilkyUI/BasicElements/View.Layout.cs:63-79 | on an aligned axis the box stays inside the container for a fraction in [0, 1] and is centred for 0.5; an axis not aligned gets 0 |
| ViewLayout.AlignShiftPlacement | SilkyUI/BasicElements/View.Layout.cs:63-81 | an absolute view is aligned on both axes, a relative child of a View only on the axes the parent specifies, any other view not at all |
| ViewLayout.ApplyPosition | SilkyUI/BasicElements/View.Layout.cs:221-235 | the view and, recursively, every View child are placed from their starts with their change flags cleared; only positions and flags of visited nodes change, never sizes |
| ViewLayout.ClearPositionChanged | SilkyUI/BasicElements/View.Layout.cs:234 | clearing the flag after the children completes the placement of the view |
| ViewLayout.ApplyToChildren | SilkyUI/BasicElements/View.Layout.cs:232-233 | every View child is placed from the parent's inner position plus its ScrollPosition |
| ViewLayout.ApplyToChild | SilkyUI/BasicElements/View.Layout.cs:232-233 | one pass of that loop keeps the children already placed, their subtrees being disjoint |
| ViewLayout.AppliedPlacesEveryNode | SilkyUI/BasicElements/View.Layout.cs:214-235 | after ApplyPosition every node reached sits where an ApplyPosition from its own GetStart would put it |
| ViewLayout.AppliedSettles | SilkyUI/BasicElements/View.Layout.cs:221-235 | ApplyPosition leaves no change flag raised in what it visits |
| ViewLayout.TrackPositionChange | SilkyUI/BasicElements/View.Layout.cs:207-212 | afterwards no flag is raised below the view; a changed view is placed from its start; an unchanged view keeps its rectangles; a settled subtree is left as it was; sizes never change |
| ViewLayout.TrackChildren | SilkyUI/BasicElements/View.Layout.cs:210-211 | each View child is tracked and settled, and a changed child is placed from the parent's child start |
| ViewLayout.TrackChild | SilkyUI/BasicElements/View.Layout.cs:210-211 | one pass of that loop leaves the other children's subtrees unchanged |
| ViewLayout.Recalculate | SilkyUI/BasicElements/View.Layout.cs:48-84 | each axis ends as the as-written AdaptingChildren grows the sizes RecalculateSize measured in the container read before any change (a specified axis keeps them); the position becomes Left/Top in that container plus the alignment offset, the change flag rising when either moves it; children end classified and every subtree keeps its FlexItems invariant |
| ViewLayout.MeasureSelf | SilkyUI/BasicElements/View.Layout.cs:50-55 | the container is measured once, the position is Left/Top in it, the outer size is GetOuterSizeByContainer with consistent dimensions and inner size, the insets stay and the children are classified |
| ViewLayout.ArrangeSelf | SilkyUI/BasicElements/View.Layout.cs:59-81 | the flow children are laid out, each axis ends as the as-written AdaptingChildren grows it against the content size (GrownX/GrownY), and the position moves by the alignment offset |
| ViewLayout.Settle | SilkyUI/BasicElements/View.Layout.cs:59-83 | ArrangeSelf and then the absolute children: the sizes are the as-written growth of those before it, the position moves by the alignment offset, and every subtree stays laid out |
| ViewLayout.LayOutBelow | SilkyUI/BasicElements/View.Layout.cs:57-83 | after the view has measured itself: the flow children are recalculated, the view is arranged and shifted by its alignment offset and the absolute children follow, with the as-written growth of the sizes |
| ViewLayout.ArrangeAmongChildren | SilkyUI/BasicElements/View.Layout.cs:59-81 | ArrangeSelf, with the children's subtrees still laid out afterwards |
| ViewLayout.Place | SilkyUI/BasicElements/View.Layout.cs:61-81 | AdaptingChildren as written and then `Position += offset`: the as-written growth and the alignment shift |
| ViewLayout.ShiftToAlignment | SilkyUI/BasicElements/View.Layout.cs:63-81 | the position moves by the alignment offset; content size and every size stay |
| ViewLayout.MoveToOffsets | SilkyUI/BasicElements/View.Layout.cs:51 | the position becomes Left/Top in the container through the setter, its flag rising when it moves; the measured size and the insets stay |
| ViewLayout.RecalculateAbsoluteChildren | SilkyUI/BasicElements/View.Layout.cs:83 | recalculating the absolute children that are Views (host elements are skipped, see Left out) keeps every child laid out and the view's content size, sizes and alignment |
| ViewLayout.LayOut | SilkyUI/BasicElements/View.Layout.cs:33-46 | in a flex container with flow elements the FlexItems hold exactly the flow elements; otherwise they stay; position and flag stay |
| ViewLayout.RecalculateAll | SilkyUI/BasicElements/View.Layout.cs:132 | RecalculateChildren (and the closing loop over AbsoluteElements at line 83): recalculating the Views of a run of children leaves every child with its FlexItems invariant and the parent's own position and size untouched |
| ViewLayout.RecalculateChild | SilkyUI/BasicElements/View.Layout.cs:132 | one child's Recalculate, when the child is a View, leaves its siblings untouched |
| ViewLayout.LayingChildren | SilkyUI/BasicElements/View.Layout.cs:33-46 | a flow container stacks its flow elements with Gap.Y; a flex container rebuilds its FlexItems from the flow elements and places them |
| ViewLayout.LayFlexbox | SilkyUI/BasicElements/View.Layout.cs:41-43 | the flexbox branch: in a flex container with flow elements the FlexItems hold exactly the flow elements, otherwise they are kept |
| ViewLayout.RecalculateView | SilkyUI/BasicElements/View.Layout.cs:48-84 | Recalculate as seen from its caller: the subtree keeps its FlexItems invariant |
| ViewLayout.RecalculatePlaced | SilkyUI/BasicElements/View.Layout.cs:48-84 | Recalculate as a caller outside the pass sees it: the subtree stays laid out and the view sits at Left/Top in its container plus its alignment offset |
| ViewLayout.GetStart | SilkyUI/BasicElements/View.Layout.cs:214-219 | the root starts at 0; a child of a View at the parent's ChildStart; the child of an unscrolled parent of either kind at the parent's inner position |
| ViewLayoutFlexbox.MaxOf | SilkyUI/BasicElements/View.Layout.Flexbox.cs:73 | Enumerable.Max of a non-empty run: every size is at most it (and MaxOfAttained: it is one of them) |
| ViewLayoutFlexbox.MaxOfAttained | SilkyUI/BasicElements/View.Layout.Flexbox.cs:101 | the maximum is one of the sizes |
| ViewLayoutFlexbox.ExtentIsStackEnd | SilkyUI/BasicElements/View.Layout.Flexbox.cs:178-186 | a line's main size (each element's size plus a gap, the first without) is where its last box ends when stacked from 0 |
| ViewLayoutFlexbox.Step | SilkyUI/BasicElements/View.Layout.Flexbox.cs:213-226 | adding one element either opens one new line or keeps the number of lines |
| ViewLayoutFlexbox.Wrap | SilkyUI/BasicElements/View.Layout.Flexbox.cs:163-248 | there are no more lines than elements, and none exactly when there are no elements |
| ViewLayoutFlexbox.StepOpens | SilkyUI/BasicElements/View.Layout.Flexbox.cs:217-221 | opening a new line on overflow keeps the lines well wrapped and the last line full |
| ViewLayoutFlexbox.SingleLine | SilkyUI/BasicElements/View.Layout.Flexbox.cs:163-167 | a line opened by one element has the shape of a line |
| ViewLayoutFlexbox.JoinedLine | SilkyUI/BasicElements/View.Layout.Flexbox.cs:222-225 | a line an element joins without overflowing keeps its shape |
| ViewLayoutFlexbox.JoinedPrefixes | SilkyUI/BasicElements/View.Layout.Flexbox.cs:217-222 | every prefix of such a line still fits the limit |
| ViewLayoutFlexbox.StepJoins | SilkyUI/BasicElements/View.Layout.Flexbox.cs:222-225 | joining the last line keeps the lines well wrapped |
| ViewLayoutFlexbox.WrapCorrect | SilkyUI/BasicElements/View.Layout.Flexbox.cs:155-249 | the lines hold exactly the elements in order; each line's main size is its extent and its cross size its largest element; no element joined a line it overflowed; every line but the last is full |
| ViewLayoutFlexbox.WrapWithoutLimit | SilkyUI/BasicElements/View.Layout.Flexbox.cs:170-203 | without wrapping all elements go on one line sized by their extent and largest cross size |
| ViewLayoutFlexbox.ItemsElements | SilkyUI/BasicElements/View.Layout.Flexbox.cs:141-150 | the FlexItems built from the lines hold exactly the views of the entries, in order |
| ViewLayoutFlexbox.WrapElements | SilkyUI/BasicElements/View.Layout.Flexbox.cs:163-248 | the loop builds exactly the lines Wrap describes |
| ViewLayoutFlexbox.ProcessFlexItems | SilkyUI/BasicElements/View.Layout.Flexbox.cs:155-249 | a view that is not a flex container, or has no flow elements, keeps its FlexItems; otherwise they become the wrapped lines of the flow elements (at the inner main size when FlexWrap is set and the main axis is specified) and hold every flow element once, in order |
| ViewLayoutFlexbox.PlacementStacks | SilkyUI/BasicElements/View.Layout.Flexbox.cs:69-95 | along the main axis the first element moves to `start` and each next one follows the previous one's size plus the gap |
| ViewLayoutFlexbox.PlacementWithinBand | SilkyUI/BasicElements/View.Layout.Flexbox.cs:77-90 | across the main axis each element stays in the band of the run's largest cross size: Start on the near edge, End on the far edge, Center in the middle |
| ViewLayoutFlexbox.EndIsFlush | SilkyUI/BasicElements/View.Layout.Flexbox.cs:272-278 | an End line ends flush with the inner edge |
| ViewLayoutFlexbox.CenterIsBalanced | SilkyUI/BasicElements/View.Layout.Flexbox.cs:281-287 | a Center line leaves as much room after it as before it |
| ViewLayoutFlexbox.SpaceEvenlyIsBalanced | SilkyUI/BasicElements/View.Layout.Flexbox.cs:290-297 | a SpaceEvenly line starts one gap in and ends one gap before the inner edge |
| ViewLayoutFlexbox.SpaceBetweenIsFlush | SilkyUI/BasicElements/View.Layout.Flexbox.cs:300-307 | a SpaceBetween line of two or more elements starts at 0 and ends flush with the inner edge |
| ViewLayoutFlexbox.ExtentIsSum | SilkyUI/BasicElements/View.Layout.Flexbox.cs:182 | a line's main size is the sum of its elements' sizes plus one gap fewer than elements |
| ViewLayoutFlexbox.PlaceSizes | SilkyUI/BasicElements/View.Layout.Flexbox.cs:75-93 | every element is moved through the Position setter by its placement shift |
| ViewLayoutFlexbox.PlaceRun | SilkyUI/BasicElements/View.Layout.Flexbox.cs:69-121 | a run is placed along its direction from the outer sizes read before any move |
| ViewLayoutFlexbox.FlexboxHPlacement | SilkyUI/BasicElements/View.Layout.Flexbox.cs:69-95 | each element of a row run moves to start plus the widths and gaps before it, and across by the cross alignment within the run's tallest element |
| ViewLayoutFlexbox.FlexboxVPlacement | SilkyUI/BasicElements/View.Layout.Flexbox.cs:97-123 | the same for a column run with the axes swapped |
| ViewLayoutFlexbox.DistinctSeparate | SilkyUI/BasicElements/View.Layout.Flexbox.cs:153 | when the FlexItems list no view twice, each element is in one FlexItem only, once |
| ViewLayoutFlexbox.PlaceLine | SilkyUI/BasicElements/View.Layout.Flexbox.cs:265-268 | one FlexItem is placed from its LineStart with its LineGap at the cross offset reached; the other FlexItems' elements do not move |
| ViewLayoutFlexbox.PlaceLines | SilkyUI/BasicElements/View.Layout.Flexbox.cs:261-310 | every FlexItem is placed as its line, the lines one cross gap apart |
| ViewLayoutFlexbox.ReflowFlexLayout | SilkyUI/BasicElements/View.Layout.Flexbox.cs:251-369 | with the main size unspecified all flow elements are placed as one run from 0; otherwise each FlexItem by the main axis alignment, the lines stacked across; only positions of placed elements change |
| ViewLayoutFlexbox.LinesDoNotOverlap | SilkyUI/BasicElements/View.Layout.Flexbox.cs:265-268 | with non-negative gaps and lines at least as thick as their elements, an element of an earlier line ends before any element of a later line begins |
| ViewLayoutFlexbox.GetFlexboxSize | SilkyUI/BasicElements/View.Layout.Flexbox.cs:125-139 | zero without FlexItems |
| ViewLayoutFlexbox.FlexboxSizeSpansLines | SilkyUI/BasicElements/View.Layout.Flexbox.cs:125-139 | the reported size reaches across the main axis exactly to the far edge of the last line, and along it equals the longest line |
| ViewLegacy.OuterDimensionsAgreeWithLayout | SilkyUI/BasicElements/View.cs:195-218 | the one-step placement of this revision gives the size GetOuterSizeByContainer resolves and sits at Left/Top moved by the same alignment offset the newer Recalculate adds to Position |
| ViewLegacy.CalculateDimensions | SilkyUI/BasicElements/View.cs:222-230 | the dimensions lie inside the outer rectangle by the four margins |
| ViewLegacy.CalculateInnerDimensions | SilkyUI/BasicElements/View.cs:232-240 | the inner rectangle lies inside the dimensions by each padding plus the border |
| ViewLegacy.BoxesNest | SilkyUI/BasicElements/View.cs:222-240 | with non-negative margins, paddings and border the inner rectangle lies within the dimensions, which lie within the outer rectangle |
| ViewLegacy.FarCorner | SilkyUI/BasicElements/View.cs:253-254 | the Aggregate with Vector2.Max is at least the start and at least every outer bottom-right corner |
| ViewLegacy.FarCornerAttained | SilkyUI/BasicElements/View.cs:253-254 | each component of the far corner is the start's or some element's edge |
| ViewLegacy.CalculateContentSize | SilkyUI/BasicElements/View.cs:250-258 | the content size is non-negative, every flow element ends within it, and the flag is true exactly when a component is positive |
| ViewLegacy.ContentSizeTight | SilkyUI/BasicElements/View.cs:250-258 | on each axis the content size is zero or reaches exactly to some flow element's far edge |
| ViewLegacy.PlaceByParent | SilkyUI/BasicElements/View.cs:118-121 | the outer rectangle is placed in the container bounds and the dimensions and inner rectangle are derived from it |
| ViewLegacy.FinalCalculate | SilkyUI/BasicElements/View.cs:266-298 | with no content nothing changes; otherwise each auto axis grows to the content, the subtree moves back by the grown size's alignment share, and the dimensions and inner rectangle are derived again |
| ViewLegacy.GrowToContent | SilkyUI/BasicElements/View.cs:270-288 | each auto axis grows to content plus margins, padding and border, and the offset is minus that size times the alignment fraction where the view aligns on that axis; the source's test `Position is Position.Absolute` (no `Position` enum exists in these files) is read as Positioning == Absolute |
| ViewLegacy.MoveBy | SilkyUI/BasicElements/View.cs:290-294 | whichever of Offset, OffsetX and OffsetY is chosen, the subtree moves by exactly the offset |
| ViewLegacy.AutoWidthAlignment | SilkyUI/BasicElements/View.cs:195-218 | an auto width ends at the newer alignment of the grown width less the share of the zero-width outer size the placement already aligned |
| ViewLegacy.ApplyLayoutOffset | SilkyUI/BasicElements/View.cs:305-323 | every node of the View subtree moves its three rectangles by its own and its View ancestors' pending offsets, every pending offset is cleared, and nothing else changes |
| ViewLegacy.ClearLayoutOffset | SilkyUI/BasicElements/View.cs:322 | clearing the view's own offset after its children completes the step |
| ViewLegacy.OffsetChildren | SilkyUI/BasicElements/View.cs:316-320 | every View child's subtree is offset with the parent's offset carried down |
| ViewLegacy.OffsetChild | SilkyUI/BasicElements/View.cs:318-319 | one pass leaves the sibling subtrees untouched |
| ViewLegacy.OffsetSubtree | SilkyUI/BasicElements/View.cs:318-319 | raising a child's pending offset and applying it offsets the child's whole subtree |
| ViewLegacy.CarriedIntoChild | SilkyUI/BasicElements/View.cs:318-319 | adding the offset to the child's own is the same as carrying it down |
| ViewLegacy.FitInner | SilkyUI/BasicElements/View.cs:60-62 | under ContentBox the clamped size itself; otherwise that size less twice the border and the padding, never below 0 |
| ViewLegacy.InnerHeightAsWrittenIgnoresHeight | SilkyUI/BasicElements/View.cs:85-87 | a 100 px wide, 50 px high root in an 800 × 600 body gets inner height 100 as written, where the height rule gives 50 |
| ViewLegacy.InnerHeightUnderIntended | SilkyUI/BasicElements/View.cs:85-87 | as intended: under a View parent the as-written rule; under a plain parent Height clamped into [MinHeight, MaxHeight] against the parent's height |
| ViewLegacy.HostInnerSizesFollowLayout | SilkyUI/BasicElements/View.cs:77-87 | under a plain parent the inner width, and the corrected inner height (InnerHeightUnderIntended), are the newer GetWidthValue and GetHeightValue against the parent size |
| ViewLegacy.LegacyOuterWidthAgrees | SilkyUI/BasicElements/View.cs:54-63 | the legacy outer width of a specified axis equals the newer CalculateOuterSize width whenever the clamped width holds border and padding, and always under ContentBox |
| ViewLegacy.RecalculateSize | SilkyUI/BasicElements/View.cs:50-95 | every node of the View subtree gets its nullable inner sizes by the as-written rules for its parent (under a plain parent InnerHeight is Width clamped by MinWidth and MaxWidth against the parent's height), recursively top-down, and its outer sizes as inner plus margins, border and padding (null stays null); nothing else changes |
| ViewLegacy.ResizeSelf | SilkyUI/BasicElements/View.cs:52-88 | under a View parent a specified axis gets its clamped size less border and padding (BorderBox) or itself; under a plain parent the inner width is the clamped Width and, as written, the inner height the clamped Width against the parent's height |
| ViewLegacy.SetOuterSizes | SilkyUI/BasicElements/View.cs:93-94 | the outer sizes are the inner sizes plus margins, twice the border and padding |
| ViewLegacy.ResizeChildren | SilkyUI/BasicElements/View.cs:90-91 | every View child is resized against the view's new inner sizes |
| ViewLegacy.ResizeChild | SilkyUI/BasicElements/View.cs:91 | one pass leaves the sibling subtrees untouched |
| ViewLegacy.ResizeViewChild | SilkyUI/BasicElements/View.cs:91 | the recursive call on one child resizes its subtree |
| ViewLegacy.ReverseKeptDescends | SilkyUI/BasicElements/View.cs:327-328 | filtering and reversing the ZIndex-sorted children gives descending ZIndex |
| ViewLegacy.HitCandidatesCorrect | SilkyUI/BasicElements/View.cs:327-328 | the candidates are exactly the View children that do not ignore the mouse, each once, in descending ZIndex |
| ViewLegacy.FirstHitAtOrBefore | SilkyUI/BasicElements/View.cs:332-335 | a candidate that hits bounds the search: the first hit is at it or before |
| ViewLegacy.TopmostHit | SilkyUI/BasicElements/View.cs:332-335 | among candidates in descending ZIndex order, the first hit has a key at least that of any hitting candidate |
| ViewLegacy.ElementAtFromViewTopmost | SilkyUI/BasicElements/View.cs:325-340 | when the point is not clipped and some eligible child hits, the answer is the hit of an eligible child with a ZIndex at least that child's |
| ViewLegacy.ElementAtFromViewMisses | SilkyUI/BasicElements/View.cs:325-340 | null exactly when clipped away, or no child hits and the view ignores the mouse or misses the point; the view itself when no child hits and it holds the point |
| ViewLegacy.ElementAtFromView | SilkyUI/BasicElements/View.cs:325-340 | null when overflow is hidden and the point misses; any other element it returns is some eligible child's hit; the view itself only when it holds the point or a child's hit is the view |
| ViewLegacy.RemoveFirst | SilkyUI/BasicElements/View.cs:364 | List.Remove drops one occurrence of the element when present and changes nothing otherwise |
| ViewLegacy.AppendFromView | SilkyUI/BasicElements/View.cs:362-369 | the child ends last, after the old elements (with its one earlier occurrence removed when the view already held it) |
| ViewLegacy.AppendFromViewCounts | SilkyUI/BasicElements/View.cs:362-369 | the child occurs once more than before unless the view already held it, and every other element keeps its count |
| ViewFlex.RunEndIsSum | SilkyUI/BasicElements/View.Flex.cs:71-75 | the last box of a run ends at the first offset plus the sum of the sizes plus one step between each two boxes |
| ViewFlex.StartRunStacks | SilkyUI/BasicElements/View.Flex.cs:63-95 | Start lays the boxes one after the other from 0 with the gap, specified axis or not |
| ViewFlex.UnspecifiedRunStays | SilkyUI/BasicElements/View.Flex.cs:101-102 | End, Center, SpaceEvenly and SpaceBetween move nothing when the main-axis size is not specified |
| ViewFlex.EndRunEndsAtInnerEdge | SilkyUI/BasicElements/View.Flex.cs:96-140 | End: the last box ends exactly at the inner edge |
| ViewFlex.CenterRunIsCentred | SilkyUI/BasicElements/View.Flex.cs:141-185 | Center: the space before the first box equals the space after the last |
| ViewFlex.SpaceEvenlyRunHasEqualGaps | SilkyUI/BasicElements/View.Flex.cs:186-234 | SpaceEvenly: the space before the first box, between boxes and after the last is the same |
| ViewFlex.SpaceBetweenRunIsFlush | SilkyUI/BasicElements/View.Flex.cs:235-283 | SpaceBetween: with two or more boxes the first starts at 0 and the last ends at the inner edge |
| ViewFlex.ShiftRun | SilkyUI/BasicElements/View.Flex.cs:71-75 | the subtree of box i moves along the main axis by the start offset plus the sizes of the boxes before it and one step each; nothing else moves |
| ViewFlex.ShiftAt | SilkyUI/BasicElements/View.Flex.cs:73-74 | one pass moves box i and leaves the boxes before it moved and those after it in place |
| ViewFlex.ShiftBox | SilkyUI/BasicElements/View.Flex.cs:73 | OffsetX (OffsetY on a column) moves every rectangle of the subtree along that axis by the offset |
| ViewFlex.CalculateFlexLayout | SilkyUI/BasicElements/View.Flex.cs:59-286 | with a spacing for the alignment, relative element i moves along the main axis by its box offset in the run of outer sizes; without one nothing moves |
| UIElementExtensions.FirstView | SilkyUI/Extensions/UIElementExtensions.cs:15-25 | the first View of an ancestor chain: null exactly when the chain holds no View, otherwise a View of the chain, and the parent itself when the parent is a View |
| UIElementExtensions.RecentParentView | SilkyUI/Extensions/UIElementExtensions.cs:5-26 | null for a null element; otherwise the nearest ancestor that is a View, or null when there is none |
| UIElementExtensions.IndexOf | SilkyUI/Extensions/UIElementExtensions.cs:34 | List.IndexOf: the first index holding the element, or −1 exactly when it is absent |
| UIElementExtensions.PreviousElement | SilkyUI/Extensions/UIElementExtensions.cs:28-47 | null for a null predicate or parent, a parent with at most one element, or a first element; otherwise, when any earlier sibling is accepted, the sibling immediately before the element (accepted or not), else null |
| UIElementExtensions.PreviousRelativeElement | SilkyUI/Extensions/UIElementExtensions.cs:49-51 | PreviousElement with "is a View positioned Relative" as the predicate |
| UIElementExtensions.SetPositionPixels | SilkyUI/Extensions/UIElementExtensions.cs:53-57 | Left.Pixels and Top.Pixels are set, their percents kept, and the same element is returned |
| UIElementExtensions.MovedIsMovedXThenY | SilkyUI/Extensions/UIElementExtensions.cs:60-103 | moving by a vector is moving by its X part and then its Y part, and never resizes |
| UIElementExtensions.OffsetX | SilkyUI/Extensions/UIElementExtensions.cs:60-72 | every node of the subtree has the X of its three rectangles moved by the offset; Y and sizes stay |
| UIElementExtensions.OffsetY | SilkyUI/Extensions/UIElementExtensions.cs:74-86 | the same along Y |
| UIElementExtensions.Offset | SilkyUI/Extensions/UIElementExtensions.cs:88-103 | every node of the subtree moves by the vector, the same as OffsetX followed by OffsetY |
| SUIScrollbars.RoundHalfEven | SilkyUI/BasicComponents/SUIScrollbar.cs:92-93 | MathF.Round: the nearest integer (within one half), halves to the even neighbour, an integer unchanged, never negative for a non-negative input |
| SUIScrollbars.Round2 | SilkyUI/BasicComponents/SUIScrollbar.cs:92-93 | MathF.Round(x, 2): within 0.005 of x, non-negative for non-negative x, and 0 for 0 |
| SUIScrollbars.ScrollRange | SilkyUI/BasicComponents/SUIScrollbar.cs:89-95 | never negative; 0 on an axis where the content fits the mask, otherwise within the rounding step of how far it sticks out |
| SUIScrollbars.BarSize | SilkyUI/BasicComponents/SUIScrollbar.cs:99-112 | unlimited: the inner size times the mask's share of the content; limited: clamped between the smaller inner side and the inner size, and unchanged when already there |
| SUIScrollbars.SUIScrollbar.constructor | SilkyUI/BasicComponents/SUIScrollbar.cs:12-62 | no scroll, multiplier 1, mask and content sizes (1, 1), a limited bar, disabled when the content fits, not dragging |
| SUIScrollbars.SUIScrollbar.MaskSize | SilkyUI/BasicComponents/SUIScrollbar.cs:46-50 | the getter never reads below (1, 1) and reads back a stored size that is at least that |
| SUIScrollbars.SUIScrollbar.TargetSize | SilkyUI/BasicComponents/SUIScrollbar.cs:54-58 | the same for the content size |
| SUIScrollbars.SUIScrollbar.SetMaskSize | SilkyUI/BasicComponents/SUIScrollbar.cs:49 | the value is stored raised to (1, 1) |
| SUIScrollbars.SUIScrollbar.SetTargetSize | SilkyUI/BasicComponents/SUIScrollbar.cs:57 | the value is stored raised to (1, 1) |
| SUIScrollbars.SUIScrollbar.SetArea | SilkyUI/BasicComponents/SUIScrollbar.cs:80-84 | both sizes read back as the given ones raised to (1, 1) |
| SUIScrollbars.SUIScrollbar.CurrentScrollPosition | SilkyUI/BasicComponents/SUIScrollbar.cs:14 | the getter always reads inside [0, scroll range] |
| SUIScrollbars.SUIScrollbar.TargetScrollPosition | SilkyUI/BasicComponents/SUIScrollbar.cs:27 | the getter always reads inside [0, scroll range] |
| SUIScrollbars.SUIScrollbar.GetScrollRange | SilkyUI/BasicComponents/SUIScrollbar.cs:89-95 | never negative, and positive on an axis only when the content is larger than the mask there |
| SUIScrollbars.SUIScrollbar.IsBeUsableH | SilkyUI/BasicComponents/SUIScrollbar.cs:68 | a bar that is never disabled is usable, and an unusable one has no horizontal range |
| SUIScrollbars.SUIScrollbar.IsBeUsableV | SilkyUI/BasicComponents/SUIScrollbar.cs:74 | the same vertically |
| SUIScrollbars.SUIScrollbar.GetBarSize | SilkyUI/BasicComponents/SUIScrollbar.cs:99-112 | an unlimited bar over a mask as large as the content is the inner size; a limited bar lies between the smaller inner side and the inner size |
| SUIScrollbars.SUIScrollbar.GetBarScreenPosition | SilkyUI/BasicComponents/SUIScrollbar.cs:97-114 | with nothing scrolled the bar starts at the inner position |
| SUIScrollbars.SUIScrollbar.IsMouseOverScrollbar | SilkyUI/BasicComponents/SUIScrollbar.cs:132-140 | the cursor can only be over a bar of positive size |
| SUIScrollbars.SUIScrollbar.ContainsPoint | SilkyUI/BasicComponents/SUIScrollbar.cs:156-159 | a point is contained only when the base element contains it, and an automatically disabled bar contains it only when the content is larger than the mask on some axis |
| SUIScrollbars.SUIScrollbar.SetCurrentScrollPosition | SilkyUI/BasicComponents/SUIScrollbar.cs:15 | the value is stored clamped into [0, range] and reads back unchanged |
| SUIScrollbars.SUIScrollbar.SetTargetScrollPosition | SilkyUI/BasicComponents/SUIScrollbar.cs:28 | the value times ScrollMultiplier is stored clamped into [0, range] and reads back unchanged |
| SUIScrollbars.SUIScrollbar.SetScrollPositionDirectly | SilkyUI/BasicComponents/SUIScrollbar.cs:119-127 | the clamped position becomes the current, original and last target position, and the target is it scaled by ScrollMultiplier and clamped |
| SUIScrollbars.SUIScrollbar.UpdateScrollPosition | SilkyUI/BasicComponents/SUIScrollbar.cs:217-230 | the timer restarts exactly when the target moved since the last call, which is then recorded with the current position as the animation start; a position not at the target becomes the interpolation towards it, one at the target stays |
| SUIScrollbars.SUIScrollbar.LeftMouseDown | SilkyUI/BasicComponents/SUIScrollbar.cs:161-169 | dragging starts exactly on a usable bar under the cursor, remembering the grab offset from the bar's screen position; otherwise nothing changes |
| SUIScrollbars.SUIScrollbar.LeftMouseUp | SilkyUI/BasicComponents/SUIScrollbar.cs:171-176 | the drag always ends |
| SUIScrollbars.RangeMatchesUsable | SilkyUI/BasicComponents/SUIScrollbar.cs:68-74 | the range is positive only on an axis where the content is larger than the mask (IsBeUsableH/V with automatic disabling), and is positive whenever it is larger by more than the rounding step |
| SUIScrollbars.FittingContentDoesNotScroll | SilkyUI/BasicComponents/SUIScrollbar.cs:156-159 | content that fits its mask leaves both positions at zero, and an automatically disabled bar then contains no point |
| SUIScrollbars.DirectSetSettles | SilkyUI/BasicComponents/SUIScrollbar.cs:119-127 | with multiplier 1 a direct set leaves the target at the position, so no animation is pending |
| SUIScrollbars.DirectSetScalesTarget | SilkyUI/BasicComponents/SUIScrollbar.cs:119-127 | with a multiplier above 1 and a position strictly inside the range, the target differs from the position, so the next update animates |
| SUIDraggableViewComponent.FModFraction | SilkyUI/BasicComponents/SUIDraggableView.cs:77-79 | the C# float remainder is the fraction of x / m that truncation drops, times m |
| SUIDraggableViewComponent.FModBounds | SilkyUI/BasicComponents/SUIDraggableView.cs:77-79 | the remainder has the sign of x and is smaller than the increment in magnitude |
| SUIDraggableViewComponent.Snap | SilkyUI/BasicComponents/SUIDraggableView.cs:76-79 | a zero increment keeps x; otherwise x moves toward zero by less than one increment |
| SUIDraggableViewComponent.StartsDrag | SilkyUI/BasicComponents/SUIDraggableView.cs:48-50 | a drag needs a draggable view and never starts on a derived element that is not a View; a draggable view hit on itself always starts one |
| SUIDraggableViewComponent.MoveAndRecalculate | SilkyUI/BasicComponents/SUIDraggableView.cs:80 | `SetPositionPixels(x, y).Recalculate()`: the pixels are set and the view is laid out at its Left/Top plus its alignment offset |
| SUIDraggableViewComponent.SnapIsMultiple | SilkyUI/BasicComponents/SUIDraggableView.cs:76-79 | `x -= x % increment` gives a whole number of increments between zero and x, less than one increment from x |
| SUIDraggableViewComponent.SnapIdempotent | SilkyUI/BasicComponents/SUIDraggableView.cs:76-79 | snapping a snapped coordinate keeps it, and a zero increment never moves it |
| SUIDraggableViewComponent.MultipleHasNoRemainder | SilkyUI/BasicComponents/SUIDraggableView.cs:77-79 | a whole number of increments leaves no remainder |
| SUIDraggableViewComponent.DragReturnsToGrab | SilkyUI/BasicComponents/SUIDraggableView.cs:51-80 | a view drawn with the cursor where it was grabbed lands less than one increment from where it was, and exactly there on an axis with a zero increment |
| SUIDraggableViewComponent.SUIDraggableView.constructor | SilkyUI/BasicComponents/SUIDraggableView.cs:15-30 | a new view is not dragging, with no grab offset and a 5-pixel increment on each axis |
| SUIDraggableViewComponent.SUIDraggableView.LeftMouseDown | SilkyUI/BasicComponents/SUIDraggableView.cs:43-53 | on a draggable view hit on itself, on a View with DragIgnore or on a bare UIElement, the drag starts and records the cursor minus Left/Top pixels; otherwise nothing changes |
| SUIDraggableViewComponent.SUIDraggableView.LeftMouseUp | SilkyUI/BasicComponents/SUIDraggableView.cs:55-59 | the drag always ends |
| SUIDraggableViewComponent.SUIDraggableView.Draw | SilkyUI/BasicComponents/SUIDraggableView.cs:71-84 | while dragging, Left/Top pixels become the cursor minus the grab offset, each snapped by its increment, percents kept, and Recalculate then leaves the subtree laid out with the view at its new Left/Top plus its alignment offset; otherwise nothing changes |
| SUIDraggableViewElement.SUIDraggableView.constructor | SilkyUI/BasicElements/SUIDraggableView.cs:15-34 | a new view is at rest, draggable by default, without snapping and with no grab point |
| SUIDraggableViewElement.SUIDraggableView.LeftMouseDown | SilkyUI/BasicElements/SUIDraggableView.cs:36-46 | the same drag-start test; a drag that starts records the mouse position minus Offset |
| SUIDraggableViewElement.SUIDraggableView.LeftMouseUp | SilkyUI/BasicElements/SUIDraggableView.cs:48-52 | the drag always ends |
| SUIDraggableViewElement.SUIDraggableView.Draw | SilkyUI/BasicElements/SUIDraggableView.cs:67-79 | while dragging, Offset becomes the mouse position minus the grab point, snapped as in the other revision; otherwise it stays |
| RenderTargetPools.Borrowed | SilkyUI/RenderTargetPool.cs:27-61 | nothing for a non-positive side (the source throws); otherwise both stacks for the size exist, the lent target is the popped top cached one or a newly created one, it is pushed on the occupied stack, and every other size is untouched |
| RenderTargetPools.ReturnedAsWritten | SilkyUI/RenderTargetPool.cs:67-78 | as written: refused exactly when the target does not belong to the pool; otherwise the top of the occupied stack is popped, whichever target it is, and the returned one is pushed on the cache |
| RenderTargetPools.RemoveTopmost | SilkyUI/RenderTargetPool.cs:76 | the stack loses exactly one occurrence of the target (the topmost), or is unchanged when it is absent |
| RenderTargetPools.Returned | SilkyUI/RenderTargetPool.cs:67-78 | as intended: refused exactly when the target does not belong; otherwise the returned target itself leaves the occupied stack and is pushed on the cache |
| RenderTargetPools.RenderTargetPool.constructor | SilkyUI/RenderTargetPool.cs:9-19 | the pool starts with no stacks |
| RenderTargetPools.RenderTargetPool.Create | SilkyUI/RenderTargetPool.cs:109-115 | a new target of the given size with an id never handed out before |
| RenderTargetPools.RenderTargetPool.Borrow | SilkyUI/RenderTargetPool.cs:27-61 | the pool's new state and the lent target are those of Borrowed |
| RenderTargetPools.RenderTargetPool.ReturnAsWritten | SilkyUI/RenderTargetPool.cs:67-78 | the state becomes ReturnedAsWritten, or stays when the target does not belong |
| RenderTargetPools.RenderTargetPool.Return | SilkyUI/RenderTargetPool.cs:67-78 | the state becomes Returned, or stays when the target does not belong |
| RenderTargetPools.EmptyPoolValid | SilkyUI/RenderTargetPool.cs:14-19 | the empty pool keeps the invariant (every stack holds targets of its size, created by the pool, none twice) |
| RenderTargetPools.PopKeepsValid | SilkyUI/RenderTargetPool.cs:49-53 | moving the top cached target to the occupied stack keeps the invariant and what the pool holds |
| RenderTargetPools.CreateKeepsValid | SilkyUI/RenderTargetPool.cs:57-58 | pushing a newly created target keeps the invariant and adds exactly that target |
| RenderTargetPools.ReturnKeepsValid | SilkyUI/RenderTargetPool.cs:76-77 | moving an occupied target back to the cache keeps the invariant and what the pool holds |
| RenderTargetPools.BorrowedValid | SilkyUI/RenderTargetPool.cs:27-61 | Borrow keeps the invariant; the pool holds one more target exactly when it created one, and the lent target was not lent already |
| RenderTargetPools.ReturnedValid | SilkyUI/RenderTargetPool.cs:67-78 | the intended Return keeps the invariant and what the pool holds of every size, and the target is no longer occupied |
| RenderTargetPools.ReturnAsWrittenKeepsCount | SilkyUI/RenderTargetPool.cs:67-78 | Return as written keeps the number of targets the pool holds of every size and uses up no id, so only Borrow's Create makes the count grow |
| RenderTargetPools.BorrowThenReturn | SilkyUI/RenderTargetPool.cs:27-78 | returning a target borrowed from the cache restores the pool (the size now has an occupied stack, possibly empty) |
| RenderTargetPools.ReturnTopAgrees | SilkyUI/RenderTargetPool.cs:76 | when the returned target is the top of its occupied stack the source's Return does what was intended |
| RenderTargetPools.TwoBorrows | SilkyUI/RenderTargetPool.cs:27-61 | two borrows of one size from an empty pool create targets 0 and 1, both occupied in that order |
| RenderTargetPools.ReturnOutOfOrderAsWritten | SilkyUI/RenderTargetPool.cs:76 | borrow A, borrow B, return A: as written the pool holds A twice, breaks its invariant, and refuses B afterwards |
| RenderTargetPools.ReturnOutOfOrder | SilkyUI/RenderTargetPool.cs:67-78 | the same sequence with the intended Return brings both targets back to the cache and leaves nothing occupied |
| SilkyUserInterfaces.Slots.Set | SilkyUI/SilkyUserInterface.cs:54-69 | the indexer setter: the button reads back the value, the other buttons keep theirs, and an undefined button writes Left (the `default` case) |
| SilkyUserInterfaces.MouseStatusMinor.constructor | SilkyUI/SilkyUserInterface.cs:21-26 | no button is held |
| SilkyUserInterfaces.MouseStatusMinor.CopyState | SilkyUI/SilkyUserInterface.cs:28-33 | the three buttons are copied from the other record |
| SilkyUserInterfaces.MouseStatusMinor.SetState | SilkyUI/SilkyUserInterface.cs:35-40 | the three buttons take the given values |
| SilkyUserInterfaces.MouseStatusMinor.Set | SilkyUI/SilkyUserInterface.cs:54-69 | the indexer setter on the record: Slots.Set of its state |
| SilkyUserInterfaces.MouseTarget.constructor | SilkyUI/SilkyUserInterface.cs:73-75 | no button has a target |
| SilkyUserInterfaces.MouseTarget.Set | SilkyUI/SilkyUserInterface.cs:89-104 | the indexer setter on the record: Slots.Set of its state |
| SilkyUserInterfaces.HoverTarget | SilkyUI/SilkyUserInterface.cs:147-151 | null while the manager holds a focus element or the body is not selectable, otherwise the element under the cursor |
| SilkyUserInterfaces.HoverEvents | SilkyUI/SilkyUserInterface.cs:172-176 | nothing when the hover target is the same; otherwise MouseOut on the old one and MouseOver on the new one, each only when not null |
| SilkyUserInterfaces.Handled | SilkyUI/SilkyUserInterface.cs:257-276 | Down goes to the hovered element; Up goes to the button's last target, followed by Click only when that target is still hovered; null receivers get nothing |
| SilkyUserInterfaces.ButtonStep | SilkyUI/SilkyUserInterface.cs:181-198 | a steady button raises nothing and keeps the targets; a press or release records the hovered element as its last target; MoveToTop only on a press over the focused hovered element; every other event is this button's Down, Up or Click |
| SilkyUserInterfaces.Dispatch | SilkyUI/SilkyUserInterface.cs:179-199 | every event is MoveToTop or belongs to a visited button, and MoveToTop needs a hovered element that holds the focus |
| SilkyUserInterfaces.DispatchTargets | SilkyUI/SilkyUserInterface.cs:179-199 | after the button loop, a visited button's last target is the hovered element exactly when the button changed state, and every other slot is kept |
| SilkyUserInterfaces.DispatchEvents | SilkyUI/SilkyUserInterface.cs:179-199 | Down fires exactly on a press, at the hovered element; Up exactly on a release, at the last target; Click on a release only when the last target is still hovered |
| SilkyUserInterfaces.StepEvents | SilkyUI/SilkyUserInterface.cs:181-198 | one pass of the loop raises events for its own button only, as HandleMouseEvent decides |
| SilkyUserInterfaces.DispatchOmits | SilkyUI/SilkyUserInterface.cs:179-199 | a button the loop does not visit raises nothing |
| SilkyUserInterfaces.DispatchMovesToTop | SilkyUI/SilkyUserInterface.cs:184-190 | the interface is moved to the top only on a press over a hovered element that holds the manager's focus |
| SilkyUserInterfaces.SteadyButtonsAreQuiet | SilkyUI/SilkyUserInterface.cs:179-199 | when no button changes state the loop raises nothing and keeps every target |
| SilkyUserInterfaces.SilkyUserInterface.constructor | SilkyUI/SilkyUserInterface.cs:113-124 | no body, no hover targets, no last mouse targets, no button held, distinct status records |
| SilkyUserInterfaces.SilkyUserInterface.SetBasicBody | SilkyUI/SilkyUserInterface.cs:126-134 | the same body again changes nothing; a new body is stored, and a non-null one is activated and then recalculated |
| SilkyUserInterfaces.SilkyUserInterface.HandleMouseEvent | SilkyUI/SilkyUserInterface.cs:257-279 | the events of Handled are raised and the button's last target becomes the hovered element |
| SilkyUserInterfaces.SilkyUserInterface.UpdateHoverTarget | SilkyUI/SilkyUserInterface.cs:144-152 | the old hover target becomes the last one and the new one is HoverTarget |
| SilkyUserInterfaces.SilkyUserInterface.AnnounceHover | SilkyUI/SilkyUserInterface.cs:172-176 | the events of HoverEvents are raised |
| SilkyUserInterfaces.SilkyUserInterface.HandleButton | SilkyUI/SilkyUserInterface.cs:181-198 | one pass of the loop does what ButtonStep says |
| SilkyUserInterfaces.SilkyUserInterface.DispatchButtons | SilkyUI/SilkyUserInterface.cs:179-199 | the loop over Left, Middle, Right does what Dispatch says |
| SilkyUserInterfaces.SilkyUserInterface.Update | SilkyUI/SilkyUserInterface.cs:154-213 | without an enabled body nothing changes; otherwise the cursor and the button records advance one frame, the hover target and the manager's focus are updated, and the events are the hover events, then the button events in declaration order, then a wheel event on a hovered element, then the body's Update |
| SilkyUserInterfaces.SilkyUserInterface.Draw | SilkyUI/SilkyUserInterface.cs:284-288 | an enabled body is drawn, and the result is always true |
| SilkyUserInterfaces.FrameButtonEvents | SilkyUI/SilkyUserInterface.cs:154-213 | in one frame a press hands Down to the hovered element, a release hands Up to the last target and Click only when it is still hovered, and the last target becomes the hovered element after either |
| SilkyUserInterfaceManagers.RemoveFirst | SilkyUI/SilkyUserInterfaceManager.cs:93 | List.Remove: an absent element leaves the list as it is; a present one is dropped once, the multiset losing exactly that element |
| SilkyUserInterfaceManagers.MovedToTop | SilkyUI/SilkyUserInterfaceManager.cs:91-97 | an absent interface changes nothing; a present one ends first, followed by the others in their old order, with the same multiset |
| SilkyUserInterfaceManagers.MoveToTopIdempotent | SilkyUI/SilkyUserInterfaceManager.cs:91-97 | moving the same interface to the top twice is moving it once |
| SilkyUserInterfaceManagers.Insert | SilkyUI/SilkyUserInterfaceManager.cs:115-116 | one step of the stable sort adds exactly the new element |
| SilkyUserInterfaceManagers.OrderBy | SilkyUI/SilkyUserInterfaceManager.cs:115-116 | OrderBy by priority is a permutation of its input |
| SilkyUserInterfaceManagers.WithPriority | SilkyUI/SilkyUserInterfaceManager.cs:115-116 | the elements of one priority, all drawn from the list: what a stable sort must keep in order |
| SilkyUserInterfaceManagers.InsertSorted | SilkyUI/SilkyUserInterfaceManager.cs:115-116 | inserting into a sorted list keeps it sorted |
| SilkyUserInterfaceManagers.InsertStable | SilkyUI/SilkyUserInterfaceManager.cs:115-116 | the inserted element goes behind every element of its own priority |
| SilkyUserInterfaceManagers.OrderBySortsStably | SilkyUI/SilkyUserInterfaceManager.cs:115-116 | OrderBy sorts by DefaultPriority and keeps the elements of each priority in their registration order |
| SilkyUserInterfaceManagers.OrderBySortedKeeps | SilkyUI/SilkyUserInterfaceManager.cs:115-118 | a list already in priority order is its own OrderBy, so sorting it on every frame changes nothing |
| SilkyUserInterfaceManagers.DedupFirstOccurrences | SilkyUI/SilkyUserInterfaceManager.cs:144-151 | InterfaceLayerOrders holds each layer name once, every name of the layers, in the order of first occurrence |
| SilkyUserInterfaceManagers.FindIndex | SilkyUI/SilkyUserInterfaceManager.cs:158 | List.FindIndex: -1 exactly when no layer has the name, otherwise the first layer that has it |
| SilkyUserInterfaceManagers.InsertAfter | SilkyUI/SilkyUserInterfaceManager.cs:162-185 | the repeated `Insert(index + 1, ...)` adds one layer per interface and leaves the layers up to the anchor untouched |
| SilkyUserInterfaceManagers.ReversedLayers | SilkyUI/SilkyUserInterfaceManager.cs:164-173 | one layer per interface, named after its attribute or "UNKNOWN", in reverse order |
| SilkyUserInterfaceManagers.InsertAfterAnchor | SilkyUI/SilkyUserInterfaceManager.cs:160-186 | the interfaces of one insertion point land right after the anchor layer, the last registered first, and the rest of the list is untouched |
| SilkyUserInterfaceManagers.MissingAnchorAddsNothing | SilkyUI/SilkyUserInterfaceManager.cs:158-160 | an insertion point without a layer of that name adds no layer |
| SilkyUserInterfaceManagers.VisitOrder | SilkyUI/SilkyUserInterfaceManager.cs:109-110 | UpdateUI visits exactly the recorded layer names that have registered interfaces |
| SilkyUserInterfaceManagers.Registered | SilkyUI/SilkyUserInterfaceManager.cs:109-110 | `Where(ContainsKey)`: only recorded layer names with a list |
| SilkyUserInterfaceManagers.ReversedAppend | SilkyUI/SilkyUserInterfaceManager.cs:110 | `Reverse()` of a concatenation is the reversed second part followed by the reversed first part |
| SilkyUserInterfaceManagers.ReversedTwice | SilkyUI/SilkyUserInterfaceManager.cs:110 | reversing twice gives the list back |
| SilkyUserInterfaceManagers.ReversedPermutes | SilkyUI/SilkyUserInterfaceManager.cs:110 | reversing keeps every element with its multiplicity |
| SilkyUserInterfaceManagers.VisitOrderReversesRegistered | SilkyUI/SilkyUserInterfaceManager.cs:109-110 | UpdateUI visits exactly the registered layer names in reverse layer order |
| SilkyUserInterfaceManagers.Tagged | SilkyUI/SilkyUserInterfaceManager.cs:120-126 | one Update call per interface of the list, in list order, with the insertion point current |
| SilkyUserInterfaceManagers.SortAndVisit | SilkyUI/SilkyUserInterfaceManager.cs:109-127 | the loop over the visited points touches no insertion point outside the registry |
| SilkyUserInterfaceManagers.SortAndVisitSorts | SilkyUI/SilkyUserInterfaceManager.cs:109-127 | after the loop every visited list is sorted stably by priority, every other list is as registered, and each visited list's interfaces are updated in sorted order |
| SilkyUserInterfaceManagers.SilkyUserInterfaceManager.constructor | SilkyUI/SilkyUserInterfaceManager.cs:25-66 | every dictionary and list empty, no focus element, no current interface, and the current insertion point the empty string |
| SilkyUserInterfaceManagers.SilkyUserInterfaceManager.RegisterUserInterface | SilkyUI/SilkyUserInterfaceManager.cs:70-85 | a fresh interface, recorded with its body type and attribute, appended to its insertion point's list, which is created when the point is new |
| SilkyUserInterfaceManagers.SilkyUserInterfaceManager.MoveCurrentUserInterfaceToTop | SilkyUI/SilkyUserInterfaceManager.cs:91-97 | the current list becomes MovedToTop of itself and the current interface; no other list changes |
| SilkyUserInterfaceManagers.SilkyUserInterfaceManager.UpdateUI | SilkyUI/SilkyUserInterfaceManager.cs:102-134 | the focus element is cleared, the lists and Update calls are those of SortAndVisit over VisitOrder, and the current interface and insertion point end null |
| SilkyUserInterfaceManagers.SilkyUserInterfaceManager.VisitAll | SilkyUI/SilkyUserInterfaceManager.cs:109-133 | the outer loop leaves the registry and the Update calls of SortAndVisit, with the last visited list's key current; the `finally` then leaves no current interface or insertion point |
| SilkyUserInterfaceManagers.SilkyUserInterfaceManager.ClearCurrent | SilkyUI/SilkyUserInterfaceManager.cs:129-133 | the `finally`: no current interface or insertion point, and the manager's invariant kept |
| SilkyUserInterfaceManagers.SilkyUserInterfaceManager.VisitPoint | SilkyUI/SilkyUserInterfaceManager.cs:112-126 | the point's list becomes current and is replaced by its sorted order, whose interfaces are updated in turn |
| SilkyUserInterfaceManagers.SilkyUserInterfaceManager.UpdateInterfaces | SilkyUI/SilkyUserInterfaceManager.cs:120-126 | one Update call per interface in list order; the last one is left current with its insertion point |
| SilkyUserInterfaceManagers.SilkyUserInterfaceManager.ModifyInterfaceLayers | SilkyUI/SilkyUserInterfaceManager.cs:139-189 | InterfaceLayerOrders is refilled from the layers; with an empty previous record the layers come back unchanged, otherwise they are InsertAll's result |
| SilkyUserInterfaceManagers.SilkyUserInterfaceManager.RecordLayerOrder | SilkyUI/SilkyUserInterfaceManager.cs:144-151 | InterfaceLayerOrders becomes each layer name once, in first-occurrence order |
| SilkyUserInterfaceManagers.SilkyUserInterfaceManager.InsertInterfaces | SilkyUI/SilkyUserInterfaceManager.cs:162-185 | the inner loop inserts the point's layers right after the anchor, as InsertAfter |
| SilkyUserInterfaceManagers.SilkyUserInterfaceManager.InsertLayers | SilkyUI/SilkyUserInterfaceManager.cs:156-187 | the loop over the registry yields InsertAll's layers and current interface |
| SilkyUserInterfaceManagers.SilkyUserInterfaceManager.InsertAtPoint | SilkyUI/SilkyUserInterfaceManager.cs:158-186 | one pass of the loop does what InsertPoint says |
| TextSnippetHelpers.IsCjk | SilkyUI/Helper/TextSnippetHelper.cs:242-243 | a CJK character lies in U+3000–U+9FFF, so no ASCII character is CJK |
| TextSnippetHelpers.CanBreakBetween | SilkyUI/Helper/TextSnippetHelper.cs:245-246 | a CJK character on either side allows a break, and two ASCII characters never do |
| TextSnippetHelpers.Convert | SilkyUI/Helper/TextSnippetHelper.cs:81-87 | the result is never of exact type TextSnippet, keeps the text, colour and scale, and any snippet of another type is returned as it is |
| TextSnippetHelpers.ConvertIdempotent | SilkyUI/Helper/TextSnippetHelper.cs:81-87 | converting twice is converting once |
| TextSnippetHelpers.ConvertNormalSnippets | SilkyUI/Helper/TextSnippetHelper.cs:76-91 | a new list with one converted snippet per original, in order |
| TextSnippetHelpers.ConvertNormalSnippetsInto | SilkyUI/Helper/TextSnippetHelper.cs:97-113 | the given list is cleared, refilled with one converted snippet per original, in order, and returned |
| TextSnippetHelpers.RemoveReturns | SilkyUI/Helper/TextSnippetHelper.cs:16 | the result holds no carriage return and every other character of the input; an input without one is returned unchanged |
| TextSnippetHelpers.RemoveReturnsIdempotent | SilkyUI/Helper/TextSnippetHelper.cs:16 | removing carriage returns twice is removing them once |
| TextSnippetHelpers.Scan | SilkyUI/Helper/TextSnippetHelper.cs:26-60 | the input index ends just after the last match, or at 0 without matches |
| TextSnippetHelpers.ScanExtends | SilkyUI/Helper/TextSnippetHelper.cs:26-60 | one more match is one more pass of the loop |
| TextSnippetHelpers.ParseMessage | SilkyUI/Helper/TextSnippetHelper.cs:13-70 | the snippets are those of Parsed: the scan of the matches, then the text after the last match |
| TextSnippetHelpers.ParseMatch | SilkyUI/Helper/TextSnippetHelper.cs:32-59 | one pass of the loop: the text since the previous match, when not empty, then the match's snippet, and the index moves past the match |
| TextSnippetHelpers.ScanCoversPrefix | SilkyUI/Helper/TextSnippetHelper.cs:26-60 | when every tag has a handler, the markup of the scanned snippets is the input up to the end of the last match |
| TextSnippetHelpers.ParseRoundTrip | SilkyUI/Helper/TextSnippetHelper.cs:13-70 | when every tag has a handler, the recorded markup of the snippets, joined, is the message without its carriage returns |
| TextSnippetHelpers.ParseWithoutMarkup | SilkyUI/Helper/TextSnippetHelper.cs:62-67 | a message without markup gives one base-colour snippet, or none when it is empty |
| TextSnippetHelpers.DropToBreak | SilkyUI/Helper/TextSnippetHelper.cs:211-214 | the inner removal loop keeps a prefix of the list and never empties a non-empty list |
| TextSnippetHelpers.RemoveOneLine | SilkyUI/Helper/TextSnippetHelper.cs:208-217 | cutting one line removes everything after the last line-break snippet, and that snippet |
| TextSnippetHelpers.CuttingWithoutBreaksThrows | SilkyUI/Helper/TextSnippetHelper.cs:208-217 | cutting two or more lines from a list without a line-break snippet empties it and then calls RemoveAt on an empty list |
| TextSnippetHelpers.DropsToFirst | SilkyUI/Helper/TextSnippetHelper.cs:211-214 | without a line-break snippet the inner loop drops everything but the first snippet |
| TextSnippetHelpers.CharStepCounts | SilkyUI/Helper/TextSnippetHelper.cs:134-185 | each character keeps lineCount one more than the line feeds emitted and pending |
| TextSnippetHelpers.SnippetStepCounts | SilkyUI/Helper/TextSnippetHelper.cs:128-203 | between snippets nothing is pending, and lineCount is one more than the line feeds emitted |
| TextSnippetHelpers.Wordwrap | SilkyUI/Helper/TextSnippetHelper.cs:120-226 | with maxLines -1 the wrapper never cuts and never throws; with maxLines at least 1 a result that is not cut has at most maxLines lines |
| TextSnippetHelpers.NewlineStartsLine | SilkyUI/Helper/TextSnippetHelper.cs:170-184 | a '\n' flushes the cached word as a plain snippet, resets the line length to 0, counts one more line and starts the cache with the newline |
| TextSnippetHelpers.RunWithinMaxLines | SilkyUI/Helper/TextSnippetHelper.cs:205-220 | from a counted state within the limit, a wrap that finishes without a cut has at most maxLines lines |
| TextSnippetHelpers.UnlimitedRunFinishes | SilkyUI/Helper/TextSnippetHelper.cs:205 | with maxLines -1 the wrapper never cuts and never throws |
| TextSnippetHelpers.WrapPlain | SilkyUI/Helper/TextSnippetHelper.cs:131-188 | the character loop of a PlainSnippet leaves the list, line count and length of PlainPass |
| TextSnippetHelpers.RemoveLinesFrom | SilkyUI/Helper/TextSnippetHelper.cs:208-217 | the removal loop leaves the list of RemoveLines and raises the exception exactly where RemoveLines does |
| TextSnippetHelpers.WordwrapString | SilkyUI/Helper/TextSnippetHelper.cs:120-226 | the given list and the returned array are Wordwrap's snippets, lastLineLength is its last-line length, and the exception is raised exactly when Wordwrap throws |

## Left out

- Drawing and the GPU are not modelled: DrawSelf, the shadows, the scroll bar's DrawScrollbar, the body's Draw, RoundedRectangle drawing and every render-target use. `SilkyUserInterface.Draw` is reduced to the call it makes on the body.
- RenderTargetPool: Dispose (RenderTargetPool.cs:80-101) and the `Lazy` singleton (5-9) are left out. Create's GPU allocation hands out a fresh id of the asked size.
- Host input and state become parameters:
  - `Main.mouseX`/`mouseY`, the button states, `PlayerInput` and the local player;
  - the screen size and whether the body is enabled;
  - the element under the cursor (`GetElementAt`);
  - ContainsPoint, which goes through `Matrix.Invert`/`Transform` (View.cs:345-346, SUIScrollbar.cs:156-159). It is a predicate or a set of hit elements.
- Font metrics and chat markup are inputs of TextSnippetHelper:
  - the font's character metrics, `MeasureString` and the rich snippets' `GetStringLength`;
  - the chat regular expression `[tag/options:text]`, given as its list of matches. `WellPlaced` states what Regex.Matches guarantees about them, and is a precondition.
  - the tag handlers.
- TextSnippetHelper.WordwrapString's string overload (TextSnippetHelper.cs:231-238) is not modelled: it only calls the engine's ChatManager.ParseMessage and then the list overload, which is modelled. Its `textColor` argument is unused in the source.
- TextSnippetHelper's wrapping steps Overflow, SplitWord, CharStep, RichPass, Run and RemoveLines (TextSnippetHelper.cs:120-226) are plain definitions with no contract of their own. Their meaning is stated by Wordwrap, NewlineStartsLine, RunWithinMaxLines and the counting lemmas. `maxCharacterCount`, whose default is 19 (TextSnippetHelper.cs:122), is a field of `Limits` that the caller supplies.
- The commented-out word wrapper (TextSnippetHelper.cs:248-380) is not code and is not modelled.
- Host calls are recorded in order in an event log instead of being executed: element handlers (MouseDown/Up/Click/Over/Out, ScrollWheel), body and interface Update, and the body's Recalculate in SetBasicBody. (The draggable view's Draw runs the modelled Recalculate instead.) Their bodies, re-entrancy and the UIMouseEvent objects (position, target) are not modelled. `GetMouse*Event` (SilkyUserInterface.cs:215-255) become event names.
- Exceptions:
  - The try/catch blocks that only log (View.cs Recalculate 111-145, SilkyUserInterface.Update) are not modelled.
  - Where the source throws, the model returns a failure value: RenderTargetPool.Borrow and Return, `List.RemoveAt` on an empty list in WordwrapString (the `thrown` outcome). The MouseTarget getter's NotImplementedException for an undefined button is not modelled: `Slots.Get` reads Left for an undefined button, and HandleMouseEvent and HandleButton exclude undefined buttons by their preconditions; Update only passes Left, Middle and Right.
- The transform matrix of SilkyUserInterface (151) is left out, and so are the MoveToTop event's plumbing into the manager and the SetBasicBody activation beyond the Activate and Recalculate calls it records.
- SilkyUserInterfaceManager.ModifyInterfaceLayers:
  - The layer list is returned rather than mutated in place.
  - A SilkyUserInterfaceLayer is its interface and name. Its PreDraw/PostDraw callbacks (SilkyUserInterfaceManager.cs:174-182) are not modelled.
  - A body type (`Type`) is its name.
  - The enumeration order of the registry dictionary is taken to be insertion order.
- SilkyUserInterfaceManagers.SilkyUserInterfaceManager.MoveCurrentUserInterfaceToTop is the source's `MoveCurrentUserIntrerfaceToTop`, spelled correctly. It requires the current list to exist; the source dereferences it.
- SUIScrollbar:
  - SetBarPositionDirectly (129-130) is not modelled: it divides by the inner size, which float division allows to be zero.
  - The drag step in DrawSelf (178-194) is not modelled.
  - Update's ShrinkTimer (196-208) and the timers are not modelled.
  - The timer's Lerp is a parameter of UpdateScrollPosition.
- The two SUIDraggableView revisions: their Update (the host's mouse interface lock and LockVanillaMouseScroll), their shadows and the colours and padding their constructors set are not modelled.
- View.cs:
  - MouseOver's sound (351-360) is not modelled.
  - The mouse-pressed flags set by the View constructor's handlers (View.cs:12-18) are not modelled.
  - Recalculate (111-145) is modelled through its steps (RecalculateSize, PlaceByParent, FinalCalculate, ApplyLayoutOffset) rather than as one method.
  - DimensionsOffset, which FinalCalculate and ApplyLayoutOffset call, is not part of this model. It is taken to be UIElementExtensions.Offset.
- RecalculateChild: an absolute child that is a host UIElement rather than a View is skipped. View.Layout.cs:83 calls its Recalculate, which is host code outside this model. So neither that element nor any View nested below it is recalculated by the model.
- RecalculateAll: skips the same host children, through RecalculateChild.
- RecalculateAbsoluteChildren: recalculates only the absolute children that are Views, for the same reason. What the host Recalculate does to those children's subtrees is not modelled.
- ViewFlex: the `RelativeElements` list View.Flex.cs lays out is declared in no file of this model. It is taken to be the view's flow elements (the Views positioned Relative, in element order), the list ClassifyElements builds.
- View.NonVirtualMethods and View.Properties: `Positioning`'s Sticky value is carried but never clamped, as in the source. Style attributes are not tracked by the node's invariant.
- Child lists are fixed when a node is built:
  - UIElementExtensions.Join (UIElementExtensions.cs:106-107) is a host `Append` and is left out.
  - ViewLegacy.AppendFromView is stated on values: the new child list and parent link, not an update in place.
- HMargin, VMargin, HPadding and VPadding (UIElementExtensions.cs:110-116) are plain sums, used by the layout contracts, with no contract of their own.
- UserInterfaceStyle.GetProperty<T> is modelled at the two types the source uses it at, Color and float. Any other boxed value is known only by its type name.
- LayoutUnitTypeHelper lowers case for ASCII letters only; the culture rules of `ToLower` are not modelled.
- Characters are Unicode scalar values. .NET's UTF-16 code units outside the Basic Multilingual Plane, and culture-dependent float parsing (the invariant culture is assumed), are not modelled.
- SpaceBetween with one element divides by zero in both revisions (View.Flex.cs:243-254, View.Layout.Flexbox.cs:296-310). The gap this gives (an infinity or NaN) is never used to place the single element, so the model writes it as 0 and places the element at the start.

## Findings

| source | as written | input that shows it | evidently intended | confidence | as-written member | corrected member |
|---|---|---|---|---|---|---|
| SilkyUI/BasicElements/View.Layout.cs:150-151 | GetFlowSize adds Gap.X between flow elements | two flow elements 10 high, Gap = (5, 0): ReflowFlowLayout stacks them 20 high, GetFlowSize reports 25 | Gap.Y, the gap ReflowFlowLayout stacks with | high, not executed | ViewLayout.FlowSizeMismatch | ViewLayout.FlowSize |
| SilkyUI/BasicElements/View.Layout.cs:159-176 | AdaptingChildren grows outer and dimensions to the content but only decreases the inner size by padding and border | BorderBox, no margin, padding or border, content 10 high: the dimensions become 10 high and the inner rectangle stays 0 high | all three sizes recomputed, so the inner size is the content | medium, not executed | ViewLayout.AdaptAxisAsWrittenLosesContent | ViewLayout.AdaptAxis |
| SilkyUI/RenderTargetPool.cs:76 | Return pops the top of the occupied stack, whichever target that is | borrow A, borrow B of one size, return A: A is cached while still occupied, B is lost, and returning B then fails | the returned target leaves the occupied stack | high, not executed | RenderTargetPools.ReturnOutOfOrderAsWritten | RenderTargetPools.ReturnOutOfOrder |
| SilkyUI/BasicElements/View.cs:85-87 | under a non-View parent InnerHeight is computed from Width, MinWidth and MaxWidth | Width 100 px, Height 50 px under an 800×600 plain parent: InnerHeight is 100 | Height, MinHeight and MaxHeight | high, not executed | ViewLegacy.InnerHeightAsWrittenIgnoresHeight | ViewLegacy.HostInnerSizesFollowLayout |
| SilkyUI/BasicElements/LayoutUnit.cs:30-34 | the float test is not negated, so Parse returns null whenever the number parses | "10px" gives null; "١px" (an Arabic-Indic digit) gives 0 px | return the parsed length when the number parses, null otherwise | high, not executed | LayoutUnits.TenPixelsAsWritten | LayoutUnits.ParseIntendedRender |
