/**
 * View.NonVirtualMethods.cs: the split of a view's elements into flow and
 * absolute children, the z-ordered child sequence, and the size setters.
 */
module ViewNonVirtualMethods {
  import opened HostTypes
  import opened ViewNode

  // ----------------------------------------------------------- classification

  /** An element takes part in the flow iff it is a View positioned Relative. */
  predicate InFlow(e: View)
    reads e`positioning
  {
    e.isView && e.positioning == Relative
  }

  /** The flow elements of a list, in list order. */
  function FlowOf(ks: seq<View>): seq<View>
    reads ks`positioning
  {
    if ks == [] then []
    else FlowOf(ks[..|ks| - 1]) + (if InFlow(ks[|ks| - 1]) then [ks[|ks| - 1]] else [])
  }

  /** The remaining (absolute, sticky or non-View) elements of a list, in list order. */
  function AbsoluteOf(ks: seq<View>): seq<View>
    reads ks`positioning
  {
    if ks == [] then []
    else AbsoluteOf(ks[..|ks| - 1]) + (if InFlow(ks[|ks| - 1]) then [] else [ks[|ks| - 1]])
  }

  /**
   * ClassifyElements: both lists are rebuilt from scratch, so the result
   * depends only on the elements and their positioning (and a second call
   * changes nothing).
   */
  method ClassifyElements(v: View)
    modifies v`flowElements, v`absoluteElements
    ensures v.flowElements == FlowOf(v.elements)
    ensures v.absoluteElements == AbsoluteOf(v.elements)
  {
    v.flowElements := [];
    v.absoluteElements := [];
    var i := 0;
    while i < |v.elements|
      invariant 0 <= i <= |v.elements|
      invariant v.flowElements == FlowOf(v.elements[..i])
      invariant v.absoluteElements == AbsoluteOf(v.elements[..i])
    {
      var element := v.elements[i];
      assert v.elements[..i + 1][..i] == v.elements[..i];
      if element.isView && element.positioning == Relative {
        v.flowElements := v.flowElements + [element];
      } else {
        v.absoluteElements := v.absoluteElements + [element];
      }
      i := i + 1;
    }
    assert v.elements[..i] == v.elements;
  }

  /** An element is a flow element iff it is listed and in the flow; likewise for absolute ones. */
  lemma {:induction false} ClassifyMembers(ks: seq<View>)
    ensures forall e :: e in FlowOf(ks) <==> e in ks && InFlow(e)
    ensures forall e :: e in AbsoluteOf(ks) <==> e in ks && !InFlow(e)
  {
    if ks != [] {
      var p := ks[..|ks| - 1];
      ClassifyMembers(p);
      assert ks == p + [ks[|ks| - 1]];
    }
  }

  /** The two lists together hold every element exactly as often as the list does. */
  lemma {:induction false} ClassifyPartition(ks: seq<View>)
    ensures multiset(FlowOf(ks)) + multiset(AbsoluteOf(ks)) == multiset(ks)
    ensures |FlowOf(ks)| + |AbsoluteOf(ks)| == |ks|
  {
    if ks != [] {
      var p, e := ks[..|ks| - 1], ks[|ks| - 1];
      ClassifyPartition(p);
      assert ks == p + [e];
      if InFlow(e) {
        assert FlowOf(ks) == FlowOf(p) + [e] && AbsoluteOf(ks) == AbsoluteOf(p);
      } else {
        assert FlowOf(ks) == FlowOf(p) && AbsoluteOf(ks) == AbsoluteOf(p) + [e];
      }
    }
  }

  /** Classification respects list order: taking the flow elements distributes over concatenation. */
  lemma {:induction false} FlowOfAppend(a: seq<View>, b: seq<View>)
    ensures FlowOf(a + b) == FlowOf(a) + FlowOf(b)
    decreases |b|
  {
    if b == [] {
      assert a + b == a;
    } else {
      var q, e := b[..|b| - 1], b[|b| - 1];
      FlowOfAppend(a, q);
      var ab := a + b;
      assert ab[..|ab| - 1] == a + q && ab[|ab| - 1] == e;
    }
  }

  /** The same for the absolute elements. */
  lemma {:induction false} AbsoluteOfAppend(a: seq<View>, b: seq<View>)
    ensures AbsoluteOf(a + b) == AbsoluteOf(a) + AbsoluteOf(b)
    decreases |b|
  {
    if b == [] {
      assert a + b == a;
    } else {
      var q, e := b[..|b| - 1], b[|b| - 1];
      AbsoluteOfAppend(a, q);
      var ab := a + b;
      assert ab[..|ab| - 1] == a + q && ab[|ab| - 1] == e;
    }
  }

  // ------------------------------------------------------------ z-order sort

  /** The sort key of an element: ZIndex for a View, 0 for any other element. */
  function ZKey(e: View): real
    reads e`zIndex
  {
    if e.isView then e.zIndex else 0.0
  }

  /** An element paired with its sort key. */
  type Keyed = (View, real)

  /** The elements paired with their keys, in element order. */
  function WithKeys(ks: seq<View>): (r: seq<Keyed>)
    reads ks`zIndex
    ensures |r| == |ks|
    ensures forall i :: 0 <= i < |ks| ==> r[i] == (ks[i], ZKey(ks[i]))
  {
    if ks == [] then [] else [(ks[0], ZKey(ks[0]))] + WithKeys(ks[1..])
  }

  predicate SortedByKey(s: seq<Keyed>)
  {
    forall i, j :: 0 <= i < j < |s| ==> s[i].1 <= s[j].1
  }

  /** The entries of a sequence carrying key k, in their order. */
  function HavingKey(s: seq<Keyed>, k: real): seq<Keyed>
  {
    if s == [] then [] else (if s[0].1 == k then [s[0]] else []) + HavingKey(s[1..], k)
  }

  /** Puts p in front of the first entry whose key is not below its own. */
  function InsertByKey(p: Keyed, s: seq<Keyed>): seq<Keyed>
  {
    if s == [] || p.1 <= s[0].1 then [p] + s else [s[0]] + InsertByKey(p, s[1..])
  }

  /** Enumerable.OrderBy: a stable sort by key (insertion sort from the back). */
  function OrderByKey(s: seq<Keyed>): seq<Keyed>
  {
    if s == [] then [] else InsertByKey(s[0], OrderByKey(s[1..]))
  }

  /** GetChildrenByZIndex: the elements, taken in the order OrderByKey puts their keyed pairs in. */
  function ChildrenByZIndex(v: View): (r: seq<View>)
    reads v.elements`zIndex
    ensures |r| == |OrderByKey(WithKeys(v.elements))|
    ensures forall i :: 0 <= i < |r| ==> r[i] == OrderByKey(WithKeys(v.elements))[i].0
  {
    var sorted := OrderByKey(WithKeys(v.elements));
    seq(|sorted|, i requires 0 <= i < |sorted| => sorted[i].0)
  }

  lemma {:induction false} InsertByKeyPermutes(p: Keyed, s: seq<Keyed>)
    ensures multiset(InsertByKey(p, s)) == multiset(s) + multiset{p}
  {
    if !(s == [] || p.1 <= s[0].1) {
      InsertByKeyPermutes(p, s[1..]);
      assert s == [s[0]] + s[1..];
    }
  }

  lemma {:induction false} InsertByKeySorted(p: Keyed, s: seq<Keyed>)
    requires SortedByKey(s)
    ensures SortedByKey(InsertByKey(p, s))
  {
    if !(s == [] || p.1 <= s[0].1) {
      var t := InsertByKey(p, s[1..]);
      InsertByKeySorted(p, s[1..]);
      InsertByKeyPermutes(p, s[1..]);
      forall x | x in t ensures x.1 >= s[0].1 {
        assert x in multiset(t);
        if x != p {
          assert x in multiset(s[1..]);
        }
      }
      var r := [s[0]] + t;
      forall i, j | 0 <= i < j < |r| ensures r[i].1 <= r[j].1 {
        assert r[j] == t[j - 1] && r[j] in t;
      }
    }
  }

  lemma {:induction false} InsertByKeyStable(p: Keyed, s: seq<Keyed>, k: real)
    ensures HavingKey(InsertByKey(p, s), k) == (if p.1 == k then [p] else []) + HavingKey(s, k)
  {
    if s == [] || p.1 <= s[0].1 {
      assert InsertByKey(p, s)[1..] == s;
    } else {
      InsertByKeyStable(p, s[1..], k);
      assert ([s[0]] + InsertByKey(p, s[1..]))[1..] == InsertByKey(p, s[1..]);
    }
  }

  /**
   * OrderByKey sorts ascending, is a permutation, and is stable: the entries
   * sharing a key keep their relative order.
   */
  lemma {:induction false} OrderByKeyCorrect(s: seq<Keyed>)
    ensures SortedByKey(OrderByKey(s))
    ensures multiset(OrderByKey(s)) == multiset(s)
    ensures forall k :: HavingKey(OrderByKey(s), k) == HavingKey(s, k)
  {
    if s != [] {
      OrderByKeyCorrect(s[1..]);
      assert s == [s[0]] + s[1..];
      InsertByKeySorted(s[0], OrderByKey(s[1..]));
      InsertByKeyPermutes(s[0], OrderByKey(s[1..]));
      forall k ensures HavingKey(OrderByKey(s), k) == HavingKey(s, k) {
        InsertByKeyStable(s[0], OrderByKey(s[1..]), k);
      }
    }
  }

  /**
   * GetChildrenByZIndex: its keyed pairs are the elements' keyed pairs
   * (ZIndex for a View, 0 otherwise) in non-decreasing key order, each pair
   * as often as before, and pairs with equal keys in element order.
   */
  lemma ChildrenByZIndexCorrect(v: View)
    ensures multiset(OrderByKey(WithKeys(v.elements))) == multiset(WithKeys(v.elements))
    ensures |ChildrenByZIndex(v)| == |v.elements|
    ensures SortedByKey(OrderByKey(WithKeys(v.elements)))
    ensures forall k :: HavingKey(OrderByKey(WithKeys(v.elements)), k) == HavingKey(WithKeys(v.elements), k)
  {
    OrderByKeyCorrect(WithKeys(v.elements));
    assert |multiset(OrderByKey(WithKeys(v.elements)))| == |multiset(WithKeys(v.elements))|;
  }

  // ----------------------------------------------------------- size setters

  /** SetWidth(pixel, percent): Pixels is set, Percent only when given, and the width becomes specified. */
  method SetWidth(v: View, pixel: real, percent: Option<real>)
    modifies v`width, v`specifyWidth
    ensures v.width == StyleDimension(pixel, if percent.Some? then percent.value else old(v.width.percent))
    ensures v.specifyWidth
  {
    v.width := v.width.(pixels := pixel);
    if percent.Some? {
      v.width := v.width.(percent := percent.value);
    }
    v.specifyWidth := true;
  }

  /** SetWidth(StyleDimension). */
  method SetWidthDimension(v: View, width: StyleDimension)
    modifies v`width, v`specifyWidth
    ensures v.width == width && v.specifyWidth
  {
    v.width := width;
    v.specifyWidth := true;
  }

  /** SetHeight(pixel, percent). */
  method SetHeight(v: View, pixel: real, percent: Option<real>)
    modifies v`height, v`specifyHeight
    ensures v.height == StyleDimension(pixel, if percent.Some? then percent.value else old(v.height.percent))
    ensures v.specifyHeight
  {
    v.height := v.height.(pixels := pixel);
    if percent.Some? {
      v.height := v.height.(percent := percent.value);
    }
    v.specifyHeight := true;
  }

  /** SetHeight(StyleDimension). */
  method SetHeightDimension(v: View, height: StyleDimension)
    modifies v`height, v`specifyHeight
    ensures v.height == height && v.specifyHeight
  {
    v.height := height;
    v.specifyHeight := true;
  }

  /** SetSize(widthPixels, heightPixels, widthPercent, heightPercent): both axes become specified. */
  method SetSize(v: View, widthPixels: real, heightPixels: real, widthPercent: Option<real>, heightPercent: Option<real>)
    modifies v`width, v`height, v`specifyWidth, v`specifyHeight
    ensures v.width == StyleDimension(widthPixels, if widthPercent.Some? then widthPercent.value else old(v.width.percent))
    ensures v.height == StyleDimension(heightPixels, if heightPercent.Some? then heightPercent.value else old(v.height.percent))
    ensures v.specifyWidth && v.specifyHeight
  {
    v.width := v.width.(pixels := widthPixels);
    if widthPercent.Some? {
      v.width := v.width.(percent := widthPercent.value);
    }
    v.height := v.height.(pixels := heightPixels);
    if heightPercent.Some? {
      v.height := v.height.(percent := heightPercent.value);
    }
    v.specifyWidth, v.specifyHeight := true, true;
  }

  /** SetSize(StyleDimension, StyleDimension). */
  method SetSizeDimensions(v: View, width: StyleDimension, height: StyleDimension)
    modifies v`width, v`height, v`specifyWidth, v`specifyHeight
    ensures v.width == width && v.height == height
    ensures v.specifyWidth && v.specifyHeight
  {
    v.width, v.height := width, height;
    v.specifyWidth, v.specifyHeight := true, true;
  }
}
