/**
 * SilkyUserInterfaceManager: the registry of interfaces. Interfaces are kept
 * in lists keyed by their insertion point (the name of the game interface
 * layer they draw after); each frame the lists are re-sorted by priority and
 * updated in reverse layer order, and when the game rebuilds its layer list
 * the manager records the layer order and inserts one layer per interface
 * right after its insertion point.
 */
module SilkyUserInterfaceManagers {
  import opened HostTypes
  import opened ViewNode
  import opened SilkyUserInterfaces

  /** AutoloadUserInterfaceAttribute: where an interface goes, its layer name and its priority. */
  datatype AutoloadUserInterfaceAttribute = AutoloadUserInterfaceAttribute(insertionPoint: string, name: string,
                                                                           defaultPriority: int)

  /** A layer of the game's interface list: one of the game's own, or one made for an interface. */
  datatype GameInterfaceLayer =
    | GameLayer(name: string)
    | UserInterfaceLayer(userInterface: SilkyUserInterface, name: string)

  // ----- List.Remove and the move to the top -----

  /** List.Remove: drops the first occurrence of x, if any. */
  function RemoveFirst<T(==)>(s: seq<T>, x: T): (r: seq<T>)
    ensures x !in s ==> r == s
    ensures x in s ==> |r| == |s| - 1 && multiset(r) == multiset(s) - multiset{x}
  {
    if x in s then
      var i := IndexOf(s, x);
      assert s == s[..i] + [x] + s[i + 1..];
      s[..i] + s[i + 1..]
    else s
  }

  /** MoveCurrentUserInterfaceToTop on a list: a present x ends first, the rest in their old order. */
  function MovedToTop<T(==)>(s: seq<T>, x: T): (r: seq<T>)
    ensures x !in s ==> r == s
    ensures x in s ==> |r| == |s| && r[0] == x && r[1..] == RemoveFirst(s, x) && multiset(r) == multiset(s)
  {
    if x in s then [x] + RemoveFirst(s, x) else s
  }

  // ----- OrderBy(DefaultPriority): a stable sort -----

  /** Non-decreasing by priority. */
  predicate SortedBy<T>(s: seq<T>, priority: T -> int)
  {
    forall i, j :: 0 <= i < j < |s| ==> priority(s[i]) <= priority(s[j])
  }

  /** x placed before the first element of greater priority: behind every element of equal priority. */
  function Insert<T>(s: seq<T>, x: T, priority: T -> int): (r: seq<T>)
    ensures multiset(r) == multiset(s) + multiset{x}
  {
    if s == [] then [x]
    else if priority(x) < priority(s[0]) then [x] + s
    else
      assert s == [s[0]] + s[1..];
      [s[0]] + Insert(s[1..], x, priority)
  }

  /** Enumerable.OrderBy by priority, as an insertion sort: each element inserted behind its equals. */
  function OrderBy<T>(s: seq<T>, priority: T -> int): (r: seq<T>)
    ensures multiset(r) == multiset(s)
  {
    if s == [] then []
    else
      assert s == s[..|s| - 1] + [s[|s| - 1]];
      Insert(OrderBy(s[..|s| - 1], priority), s[|s| - 1], priority)
  }

  /** The elements of priority k, in their order in s: what stability keeps. */
  function WithPriority<T>(s: seq<T>, priority: T -> int, k: int): (r: seq<T>)
    ensures forall x <- r :: x in s && priority(x) == k
  {
    if s == [] then []
    else (if priority(s[0]) == k then [s[0]] else []) + WithPriority(s[1..], priority, k)
  }

  /** Filtering distributes over concatenation. */
  lemma {:induction false} WithPriorityAppend<T>(a: seq<T>, b: seq<T>, priority: T -> int, k: int)
    ensures WithPriority(a + b, priority, k) == WithPriority(a, priority, k) + WithPriority(b, priority, k)
  {
    if a == [] {
      assert a + b == b;
    } else {
      assert (a + b)[0] == a[0] && (a + b)[1..] == a[1..] + b;
      WithPriorityAppend(a[1..], b, priority, k);
      var head := if priority(a[0]) == k then [a[0]] else [];
      calc {
        WithPriority(a + b, priority, k);
        head + WithPriority(a[1..] + b, priority, k);
        head + (WithPriority(a[1..], priority, k) + WithPriority(b, priority, k));
        (head + WithPriority(a[1..], priority, k)) + WithPriority(b, priority, k);
      }
    }
  }

  /** Inserting into a sorted list keeps it sorted. */
  lemma {:induction false} InsertSorted<T>(s: seq<T>, x: T, priority: T -> int)
    requires SortedBy(s, priority)
    ensures SortedBy(Insert(s, x, priority), priority)
  {
    if s != [] && priority(x) >= priority(s[0]) {
      InsertSorted(s[1..], x, priority);
      var rest := Insert(s[1..], x, priority);
      forall y | y in rest ensures priority(s[0]) <= priority(y) {
        assert y in multiset(rest);
        assert y == x || y in s[1..];
      }
    }
  }

  /** An element no smaller than all others goes at the end. */
  lemma {:induction false} InsertAtEnd<T>(s: seq<T>, x: T, priority: T -> int)
    requires forall y <- s :: priority(y) <= priority(x)
    ensures Insert(s, x, priority) == s + [x]
  {
    if s != [] {
      InsertAtEnd(s[1..], x, priority);
      assert s == [s[0]] + s[1..];
    }
  }

  /** A list whose priorities all exceed k has none of priority k. */
  lemma {:induction false} NoneWithPriority<T>(s: seq<T>, priority: T -> int, k: int)
    requires forall x <- s :: priority(x) > k
    ensures WithPriority(s, priority, k) == []
  {
    if s != [] {
      NoneWithPriority(s[1..], priority, k);
    }
  }

  /** Insert puts x behind every element of its own priority. */
  lemma {:induction false} InsertStable<T>(s: seq<T>, x: T, priority: T -> int, k: int)
    requires SortedBy(s, priority)
    ensures WithPriority(Insert(s, x, priority), priority, k) ==
      WithPriority(s, priority, k) + (if priority(x) == k then [x] else [])
  {
    if s == [] {
      assert WithPriority([x], priority, k) == (if priority(x) == k then [x] else []) + [];
    } else if priority(x) < priority(s[0]) {
      InsertInFront(s, x, priority, k);
    } else {
      SortedTail(s, priority);
      InsertStable(s[1..], x, priority, k);
      InsertBehindHead(s, x, priority, k);
    }
  }

  /** The tail of a sorted list is sorted, and its head is a least element. */
  lemma SortedTail<T>(s: seq<T>, priority: T -> int)
    requires s != [] && SortedBy(s, priority)
    ensures SortedBy(s[1..], priority)
    ensures forall y <- s :: priority(s[0]) <= priority(y)
  {
    forall i, j | 0 <= i < j < |s[1..]| ensures priority(s[1..][i]) <= priority(s[1..][j]) {
      assert s[1..][i] == s[i + 1] && s[1..][j] == s[j + 1];
    }
    forall y <- s ensures priority(s[0]) <= priority(y) {
      var i :| 0 <= i < |s| && s[i] == y;
      assert i == 0 || priority(s[0]) <= priority(s[i]);
    }
  }

  /** The base step of InsertStable, when x goes in front of a sorted list. */
  lemma InsertInFront<T>(s: seq<T>, x: T, priority: T -> int, k: int)
    requires s != [] && SortedBy(s, priority) && priority(x) < priority(s[0])
    ensures WithPriority(Insert(s, x, priority), priority, k) ==
      WithPriority(s, priority, k) + (if priority(x) == k then [x] else [])
  {
    var mine := if priority(x) == k then [x] else [];
    assert Insert(s, x, priority) == [x] + s;
    WithPriorityAppend([x], s, priority, k);
    assert WithPriority([x], priority, k) == mine + [];
    if priority(x) == k {
      SortedTail(s, priority);
      NoneWithPriority(s, priority, k);
    }
  }

  /** The inductive step of InsertStable, when x goes behind the head. */
  lemma InsertBehindHead<T>(s: seq<T>, x: T, priority: T -> int, k: int)
    requires s != [] && priority(x) >= priority(s[0])
    requires WithPriority(Insert(s[1..], x, priority), priority, k) ==
      WithPriority(s[1..], priority, k) + (if priority(x) == k then [x] else [])
    ensures WithPriority(Insert(s, x, priority), priority, k) ==
      WithPriority(s, priority, k) + (if priority(x) == k then [x] else [])
  {
    var head := if priority(s[0]) == k then [s[0]] else [];
    var mine := if priority(x) == k then [x] else [];
    var rest := Insert(s[1..], x, priority);
    assert Insert(s, x, priority) == [s[0]] + rest;
    assert ([s[0]] + rest)[1..] == rest;
    assert WithPriority(Insert(s, x, priority), priority, k) == head + WithPriority(rest, priority, k);
    assert WithPriority(s, priority, k) == head + WithPriority(s[1..], priority, k);
    AppendAssociates(head, WithPriority(s[1..], priority, k), mine);
  }


  /**
   * OrderBy sorts by priority, and stably: the elements of every priority keep
   * their relative order.
   */
  lemma {:induction false} OrderBySortsStably<T>(s: seq<T>, priority: T -> int, k: int)
    ensures SortedBy(OrderBy(s, priority), priority)
    ensures WithPriority(OrderBy(s, priority), priority, k) == WithPriority(s, priority, k)
  {
    if s != [] {
      var init, last := s[..|s| - 1], s[|s| - 1];
      assert s == init + [last];
      OrderBySortsStably(init, priority, k);
      InsertSorted(OrderBy(init, priority), last, priority);
      InsertStable(OrderBy(init, priority), last, priority, k);
      WithPriorityAppend(init, [last], priority, k);
    }
  }

  /** A list already sorted by priority is its own OrderBy, so sorting again changes nothing. */
  lemma {:induction false} OrderBySortedKeeps<T>(s: seq<T>, priority: T -> int)
    requires SortedBy(s, priority)
    ensures OrderBy(s, priority) == s
  {
    if s != [] {
      var init, last := s[..|s| - 1], s[|s| - 1];
      assert s == init + [last];
      OrderBySortedKeeps(init, priority);
      InsertAtEnd(init, last, priority);
    }
  }

  // ----- The layer order and the layer insertion -----

  /** The layer names, in order. */
  function Names(layers: seq<GameInterfaceLayer>): (r: seq<string>)
    ensures |r| == |layers| && forall i :: 0 <= i < |layers| ==> r[i] == layers[i].name
  {
    if layers == [] then [] else Names(layers[..|layers| - 1]) + [layers[|layers| - 1].name]
  }

  /** The first index of x in s. */
  function IndexOf<T(==)>(s: seq<T>, x: T): (i: nat)
    requires x in s
    ensures i < |s| && s[i] == x && x !in s[..i]
  {
    if s[0] == x then 0
    else
      assert s == [s[0]] + s[1..];
      1 + IndexOf(s[1..], x)
  }

  /** The names of `names`, each kept at its first occurrence: the loop that refills InterfaceLayerOrders. */
  function Dedup(names: seq<string>): (r: seq<string>)
  {
    if names == [] then []
    else
      var d := Dedup(names[..|names| - 1]);
      if names[|names| - 1] in d then d else d + [names[|names| - 1]]
  }

  /**
   * Each name once, every name kept, and in the order of first occurrence:
   * an earlier name of the result occurs before the first occurrence of a later one.
   */
  lemma {:induction false} DedupFirstOccurrences(names: seq<string>)
    ensures var r := Dedup(names);
      (forall i, j :: 0 <= i < j < |r| ==> r[i] != r[j]) &&
      (forall x :: x in r <==> x in names) &&
      (forall i, j :: 0 <= i < j < |r| ==> r[i] in names[..IndexOf(names, r[j])])
  {
    if names != [] {
      var init, last := names[..|names| - 1], names[|names| - 1];
      assert names == init + [last];
      DedupFirstOccurrences(init);
      var d := Dedup(init);
      forall x | x in init ensures IndexOf(names, x) == IndexOf(init, x) {
        IndexOfPrefix(init, [last], x);
      }
      if last !in d {
        assert last !in init;
        assert IndexOf(names, last) == |init| by {
          assert names[|init|] == last && last !in names[..|init|];
          IndexOfIsFirst(names, last, |init|);
        }
      }
    }
  }

  /** An element of a keeps its first index in a + b. */
  lemma IndexOfPrefix<T>(a: seq<T>, b: seq<T>, x: T)
    requires x in a
    ensures IndexOf(a + b, x) == IndexOf(a, x)
  {
    IndexOfIsFirst(a + b, x, IndexOf(a, x));
  }

  /** An index holding x with no x before it is the first index of x. */
  lemma IndexOfIsFirst<T>(s: seq<T>, x: T, i: nat)
    requires i < |s| && s[i] == x && x !in s[..i]
    ensures IndexOf(s, x) == i
  {
  }

  /** List.FindIndex on the layer names. */
  function FindIndex(layers: seq<GameInterfaceLayer>, name: string): (r: int)
    ensures -1 <= r < |layers|
    ensures r >= 0 ==> layers[r].name == name && forall k :: 0 <= k < r ==> layers[k].name != name
    ensures r == -1 ==> forall k :: 0 <= k < |layers| ==> layers[k].name != name
  {
    if layers == [] then -1
    else if layers[0].name == name then 0
    else
      var k := FindIndex(layers[1..], name);
      if k == -1 then -1 else k + 1
  }

  /** The layer made for an interface: named after its attribute, or "UNKNOWN" without one. */
  function LayerFor(ui: SilkyUserInterface, info: map<SilkyUserInterface, AutoloadUserInterfaceAttribute>): GameInterfaceLayer
  {
    UserInterfaceLayer(ui, if ui in info then info[ui].name else "UNKNOWN")
  }

  /** `layers.Insert(index + 1, layer)` for each interface in turn. */
  function InsertAfter(layers: seq<GameInterfaceLayer>, index: nat, uis: seq<SilkyUserInterface>,
                       info: map<SilkyUserInterface, AutoloadUserInterfaceAttribute>): (r: seq<GameInterfaceLayer>)
    requires index < |layers|
    ensures |r| == |layers| + |uis| && r[..index + 1] == layers[..index + 1]
  {
    if uis == [] then layers
    else
      var previous := InsertAfter(layers, index, uis[..|uis| - 1], info);
      previous[..index + 1] + [LayerFor(uis[|uis| - 1], info)] + previous[index + 1..]
  }

  /** The layers of `uis` in reverse order. */
  function ReversedLayers(uis: seq<SilkyUserInterface>, info: map<SilkyUserInterface, AutoloadUserInterfaceAttribute>):
    (r: seq<GameInterfaceLayer>)
    ensures |r| == |uis| && forall i :: 0 <= i < |uis| ==> r[i] == LayerFor(uis[|uis| - 1 - i], info)
  {
    if uis == [] then [] else [LayerFor(uis[|uis| - 1], info)] + ReversedLayers(uis[..|uis| - 1], info)
  }

  /**
   * The interfaces of one insertion point land right after the anchor layer,
   * the last registered first, and the rest of the list is untouched.
   */
  lemma {:induction false} InsertAfterAnchor(layers: seq<GameInterfaceLayer>, index: nat, uis: seq<SilkyUserInterface>,
                                            info: map<SilkyUserInterface, AutoloadUserInterfaceAttribute>)
    requires index < |layers|
    ensures InsertAfter(layers, index, uis, info) ==
      layers[..index + 1] + ReversedLayers(uis, info) + layers[index + 1..]
  {
    if uis != [] {
      var init := uis[..|uis| - 1];
      InsertAfterAnchor(layers, index, init, info);
      var previous := InsertAfter(layers, index, init, info);
      assert previous[..index + 1] == layers[..index + 1];
      assert previous[index + 1..] == ReversedLayers(init, info) + layers[index + 1..];
    }
  }

  /** The result of the insertion pass: the new layer list and the last interface it handled, if any. */
  datatype Inserted = Inserted(layers: seq<GameInterfaceLayer>, last: Option<(string, SilkyUserInterface)>)

  /**
   * One insertion point's turn in the pass: its interfaces go in after the
   * first layer of that name, when there is one and the list is not empty.
   */
  function InsertPoint(previous: Inserted, point: string, uis: seq<SilkyUserInterface>,
                       info: map<SilkyUserInterface, AutoloadUserInterfaceAttribute>): (r: Inserted)
  {
    var index := FindIndex(previous.layers, point);
    if index > -1 && uis != [] then
      Inserted(InsertAfter(previous.layers, index, uis, info), Some((point, uis[|uis| - 1])))
    else previous
  }

  /** The insertion pass over the registry, visiting the insertion points in `keys` order. */
  function InsertAll(layers: seq<GameInterfaceLayer>, keys: seq<string>, lists: map<string, seq<SilkyUserInterface>>,
                     info: map<SilkyUserInterface, AutoloadUserInterfaceAttribute>): (r: Inserted)
    requires forall p <- keys :: p in lists
  {
    if keys == [] then Inserted(layers, None)
    else
      var point := keys[|keys| - 1];
      InsertPoint(InsertAll(layers, keys[..|keys| - 1], lists, info), point, lists[point], info)
  }


  /** An insertion point without a layer of that name adds nothing. */
  lemma MissingAnchorAddsNothing(layers: seq<GameInterfaceLayer>, point: string, lists: map<string, seq<SilkyUserInterface>>,
                                 info: map<SilkyUserInterface, AutoloadUserInterfaceAttribute>)
    requires point in lists && forall l <- layers :: l.name != point
    ensures InsertAll(layers, [point], lists, info).layers == layers
  {
    assert [point][..0] == [];
    assert FindIndex(layers, point) == -1;
  }

  // ----- UpdateUI's visiting order -----

  /** The registered insertion points in layer order, then reversed: the order UpdateUI visits them. */
  function VisitOrder(orders: seq<string>, lists: map<string, seq<SilkyUserInterface>>): (r: seq<string>)
    ensures forall p <- r :: p in lists && p in orders
    ensures forall p <- orders :: p in lists ==> p in r
  {
    if orders == [] then []
    else
      var rest := VisitOrder(orders[1..], lists);
      assert forall p <- orders :: p == orders[0] || p in orders[1..];
      rest + (if orders[0] in lists then [orders[0]] else [])
  }

  /** `InterfaceLayerOrders.Where(SilkyUserInterfaces.ContainsKey)`: the layer names with a list, in layer order. */
  function Registered(orders: seq<string>, lists: map<string, seq<SilkyUserInterface>>): (r: seq<string>)
    ensures forall p <- r :: p in lists && p in orders
  {
    if orders == [] then []
    else (if orders[0] in lists then [orders[0]] else []) + Registered(orders[1..], lists)
  }

  /** `Reverse()`: the same elements, last first. */
  function Reversed<T>(s: seq<T>): seq<T>
  {
    seq(|s|, i requires 0 <= i < |s| => s[|s| - 1 - i])
  }

  /** Reversing a concatenation reverses each part and swaps them. */
  lemma ReversedAppend<T>(a: seq<T>, b: seq<T>)
    ensures Reversed(a + b) == Reversed(b) + Reversed(a)
  {
    assert forall i :: 0 <= i < |a + b| ==> Reversed(a + b)[i] == (Reversed(b) + Reversed(a))[i];
  }

  /** Reversing twice gives the list back. */
  lemma ReversedTwice<T>(s: seq<T>)
    ensures Reversed(Reversed(s)) == s
  {
    assert forall i :: 0 <= i < |s| ==> Reversed(Reversed(s))[i] == s[i];
  }

  /** Reversing keeps every element, as often as it occurs. */
  lemma {:induction false} ReversedPermutes<T>(s: seq<T>)
    ensures multiset(Reversed(s)) == multiset(s)
  {
    if s != [] {
      ReversedPermutes(s[1..]);
      ReversedAppend([s[0]], s[1..]);
      assert [s[0]] + s[1..] == s;
      assert Reversed([s[0]]) == [s[0]];
    }
  }

  /** UpdateUI visits exactly the registered layer names, in reverse layer order. */
  lemma {:induction false} VisitOrderReversesRegistered(orders: seq<string>, lists: map<string, seq<SilkyUserInterface>>)
    ensures VisitOrder(orders, lists) == Reversed(Registered(orders, lists))
  {
    if orders != [] {
      VisitOrderReversesRegistered(orders[1..], lists);
      var h := if orders[0] in lists then [orders[0]] else [];
      var rest := Registered(orders[1..], lists);
      assert Registered(orders, lists) == h + rest;
      ReversedAppend(h, rest);
      assert Reversed(h) == h;
    }
  }

  /** The Update calls for one visited list. */
  function Tagged(point: string, uis: seq<SilkyUserInterface>): (r: seq<(string, SilkyUserInterface)>)
    ensures |r| == |uis| && forall i :: 0 <= i < |uis| ==> r[i] == (point, uis[i])
  {
    if uis == [] then [] else Tagged(point, uis[..|uis| - 1]) + [(point, uis[|uis| - 1])]
  }

  /** The Update calls UpdateUI makes: each visited list, sorted, front to back, with its insertion point. */
  function Visits(points: seq<string>, lists: map<string, seq<SilkyUserInterface>>): seq<(string, SilkyUserInterface)>
    requires forall p <- points :: p in lists
  {
    if points == [] then []
    else
      var p := points[|points| - 1];
      Visits(points[..|points| - 1], lists) + Tagged(p, lists[p])
  }

  /** The list stored under an insertion point, read as empty when there is none. */
  function ListAt(lists: map<string, seq<SilkyUserInterface>>, point: string): seq<SilkyUserInterface>
  {
    if point in lists then lists[point] else []
  }

  /**
   * The key of UpdateUI's OrderBy: an interface's DefaultPriority. The
   * dictionary indexer throws for an interface with no entry; Valid keeps
   * every listed interface in the dictionary, so the 0 here is never read
   * for one UpdateUI sorts.
   */
  function Priority(info: map<SilkyUserInterface, AutoloadUserInterfaceAttribute>): SilkyUserInterface -> int
  {
    u => if u in info then info[u].defaultPriority else 0
  }

  /** Moving the same interface to the top twice moves it once. */
  lemma MoveToTopIdempotent<T>(s: seq<T>, x: T)
    ensures MovedToTop(MovedToTop(s, x), x) == MovedToTop(s, x)
  {
    if x in s {
      var r := [x] + RemoveFirst(s, x);
      assert r[0] == x && IndexOf(r, x) == 0;
      assert r[..0] + r[1..] == r[1..] == RemoveFirst(s, x);
    }
  }

  /** Visits reads only the lists of the points it visits. */
  lemma {:induction false} VisitsAgree(points: seq<string>, a: map<string, seq<SilkyUserInterface>>,
                                      b: map<string, seq<SilkyUserInterface>>)
    requires forall p <- points :: p in a && p in b && a[p] == b[p]
    ensures Visits(points, a) == Visits(points, b)
  {
    if points != [] {
      VisitsAgree(points[..|points| - 1], a, b);
    }
  }

  /**
   * A step of UpdateUI's loop: sorting the next point's list leaves every
   * visited list sorted once and every other list as registered.
   */
  lemma SortedStep(lists: map<string, seq<SilkyUserInterface>>, current: map<string, seq<SilkyUserInterface>>,
                   visited: seq<string>, point: string, priority: SilkyUserInterface -> int)
    requires current.Keys == lists.Keys && point in lists && forall p <- visited :: p in lists
    requires forall p <- current :: current[p] == if p in visited then OrderBy(lists[p], priority) else lists[p]
    ensures var next := current[point := OrderBy(current[point], priority)];
      next.Keys == lists.Keys &&
      (forall p <- next :: next[p] == if p in visited + [point] then OrderBy(lists[p], priority) else lists[p]) &&
      (forall p <- visited :: next[p] == current[p])
  {
    if point in visited {
      OrderBySortsStably(lists[point], priority, 0);
      OrderBySortedKeeps(OrderBy(lists[point], priority), priority);
    }
  }

  /** Visiting one more point adds its list's Update calls at the end. */
  lemma VisitsStep(points: seq<string>, point: string, lists: map<string, seq<SilkyUserInterface>>)
    requires forall p <- points :: p in lists
    requires point in lists
    ensures Visits(points + [point], lists) == Visits(points, lists) + Tagged(point, lists[point])
  {
    assert (points + [point])[..|points|] == points;
  }

  /**
   * UpdateUI's loop as a fold over the visited points: each point's list, as
   * the earlier visits left it, is sorted and stored back, and its
   * interfaces are updated in the sorted order.
   */
  function SortAndVisit(lists: map<string, seq<SilkyUserInterface>>, points: seq<string>,
                        priority: SilkyUserInterface -> int): (r: (map<string, seq<SilkyUserInterface>>, seq<(string, SilkyUserInterface)>))
    requires forall p <- points :: p in lists
    ensures r.0.Keys == lists.Keys
  {
    if points == [] then (lists, [])
    else
      var previous := SortAndVisit(lists, points[..|points| - 1], priority);
      var point := points[|points| - 1];
      var order := OrderBy(previous.0[point], priority);
      (previous.0[point := order], previous.1 + Tagged(point, order))
  }

  /**
   * What UpdateUI's loop leaves: every visited list sorted stably by priority
   * (once, however often its point is visited), every other list as it was,
   * and one Update call per interface of each visited list in its sorted order.
   */
  lemma {:induction false} SortAndVisitSorts(lists: map<string, seq<SilkyUserInterface>>, points: seq<string>,
                                            priority: SilkyUserInterface -> int)
    requires forall p <- points :: p in lists
    ensures var r := SortAndVisit(lists, points, priority);
      (forall p <- r.0 :: r.0[p] == if p in points then OrderBy(lists[p], priority) else lists[p]) &&
      r.1 == Visits(points, r.0)
  {
    if points != [] {
      var init, point := points[..|points| - 1], points[|points| - 1];
      assert points == init + [point];
      SortAndVisitSorts(lists, init, priority);
      var previous := SortAndVisit(lists, init, priority);
      var next := previous.0[point := OrderBy(previous.0[point], priority)];
      SortedStep(lists, previous.0, init, point, priority);
      VisitsAgree(init, previous.0, next);
      VisitsStep(init, point, next);
    }
  }

  class SilkyUserInterfaceManager {
    var currentUserInterface: SilkyUserInterface?
    /** CurrentInsertionPoint; None is null. */
    var currentInsertionPoint: Option<string>
    /** CurrentUserInterfaces, as the insertion point whose list it aliases; None is null. */
    var currentUserInterfacesKey: Option<string>
    var mouseFocusUIElement: View?
    /** BasicBodyTypes, each body type known by its name. */
    var basicBodyTypes: map<SilkyUserInterface, string>
    var basicBodyTypesAutoloadInfo: map<SilkyUserInterface, AutoloadUserInterfaceAttribute>
    var interfaceLayerOrders: seq<string>
    /** SilkyUserInterfaces: insertion point to its interfaces. */
    var userInterfaces: map<string, seq<SilkyUserInterface>>
    /** The keys of userInterfaces in the order the dictionary enumerates them, the order they were added in. */
    var insertionPoints: seq<string>
    /** The Update calls UpdateUI has made, each with the insertion point current at the time. */
    var updated: seq<(string, SilkyUserInterface)>

    /**
     * The enumeration order lists every key once, CurrentUserInterfaces is a
     * list of the registry, and every listed interface has its attribute in
     * BasicBodyTypesAutoloadInfo (so UpdateUI's priority lookup finds it).
     */
    ghost predicate Valid()
      reads this`userInterfaces, this`insertionPoints, this`currentUserInterfacesKey, this`basicBodyTypesAutoloadInfo
    {
      (forall p <- userInterfaces, u <- userInterfaces[p] :: u in basicBodyTypesAutoloadInfo) &&
      (forall p <- insertionPoints :: p in userInterfaces) &&
      (forall p <- userInterfaces :: p in insertionPoints) &&
      (forall i, j :: 0 <= i < j < |insertionPoints| ==> insertionPoints[i] != insertionPoints[j]) &&
      (currentUserInterfacesKey.Some? ==> currentUserInterfacesKey.value in userInterfaces)
    }

    constructor()
      ensures Valid()
      ensures currentUserInterface == null && currentInsertionPoint == Some("") && currentUserInterfacesKey == None
      ensures mouseFocusUIElement == null && basicBodyTypes == map[] && basicBodyTypesAutoloadInfo == map[]
      ensures interfaceLayerOrders == [] && userInterfaces == map[] && insertionPoints == [] && updated == []
    {
      currentUserInterface := null;
      currentInsertionPoint := Some("");
      currentUserInterfacesKey := None;
      mouseFocusUIElement := null;
      basicBodyTypes := map[];
      basicBodyTypesAutoloadInfo := map[];
      interfaceLayerOrders := [];
      userInterfaces := map[];
      insertionPoints := [];
      updated := [];
    }

    /**
     * RegisterUserInterface: a new interface, recorded with its body type and
     * attribute and appended to its insertion point's list, which is created
     * when the point is new.
     */
    method RegisterUserInterface(attribute: AutoloadUserInterfaceAttribute, basicBodyType: string)
      returns (ui: SilkyUserInterface)
      requires Valid()
      modifies this`basicBodyTypes, this`basicBodyTypesAutoloadInfo, this`userInterfaces, this`insertionPoints
      ensures Valid() && fresh(ui)
      ensures basicBodyTypes == old(basicBodyTypes)[ui := basicBodyType]
      ensures basicBodyTypesAutoloadInfo == old(basicBodyTypesAutoloadInfo)[ui := attribute]
      ensures userInterfaces ==
        old(userInterfaces)[attribute.insertionPoint := ListAt(old(userInterfaces), attribute.insertionPoint) + [ui]]
      ensures insertionPoints ==
        old(insertionPoints) + (if attribute.insertionPoint in old(userInterfaces) then [] else [attribute.insertionPoint])
    {
      ui := new SilkyUserInterface();
      basicBodyTypes := basicBodyTypes[ui := basicBodyType];
      basicBodyTypesAutoloadInfo := basicBodyTypesAutoloadInfo[ui := attribute];
      var point := attribute.insertionPoint;
      if point in userInterfaces {
        userInterfaces := userInterfaces[point := userInterfaces[point] + [ui]];
      } else {
        assert ListAt(userInterfaces, point) + [ui] == [ui];
        userInterfaces := userInterfaces[point := [ui]];
        insertionPoints := insertionPoints + [point];
      }
    }

    /** MoveCurrentUserIntrerfaceToTop: the current interface, when in the current list, moves to its front. */
    method MoveCurrentUserInterfaceToTop()
      requires Valid() && currentUserInterfacesKey.Some?
      modifies this`userInterfaces
      ensures Valid()
      ensures var point := currentUserInterfacesKey.value;
        currentUserInterface == null ==> userInterfaces == old(userInterfaces)
      ensures var point := currentUserInterfacesKey.value;
        currentUserInterface != null ==>
          userInterfaces == old(userInterfaces)[point := MovedToTop(old(userInterfaces)[point], currentUserInterface)]
    {
      var point := currentUserInterfacesKey.value;
      var list := userInterfaces[point];
      if currentUserInterface != null && currentUserInterface in list {
        userInterfaces := userInterfaces[point := [currentUserInterface] + RemoveFirst(list, currentUserInterface)];
      }
    }

    /**
     * UpdateUI: clears the focus element, then visits the registered insertion
     * points in reverse layer order, sorting each list stably by priority and
     * updating its interfaces front to back; the current interface and
     * insertion point are cleared at the end.
     */
    method UpdateUI()
      requires Valid()
      modifies this`mouseFocusUIElement, this`currentUserInterfacesKey, this`userInterfaces
      modifies this`currentInsertionPoint, this`currentUserInterface, this`updated
      ensures Valid()
      ensures mouseFocusUIElement == null && currentUserInterface == null && currentInsertionPoint == None
      ensures var visit := VisitOrder(old(interfaceLayerOrders), old(userInterfaces));
        var r := SortAndVisit(old(userInterfaces), visit, Priority(old(basicBodyTypesAutoloadInfo)));
        userInterfaces == r.0 && updated == old(updated) + r.1 &&
        currentUserInterfacesKey == if visit == [] then old(currentUserInterfacesKey) else Some(visit[|visit| - 1])
    {
      var visit := VisitOrder(interfaceLayerOrders, userInterfaces);
      var priority := Priority(basicBodyTypesAutoloadInfo);
      mouseFocusUIElement := null;
      VisitAll(visit, priority);
    }

    /**
     * UpdateUI's loop over the insertion points to visit, and the `finally`
     * that clears the current interface and insertion point after it.
     */
    method VisitAll(visit: seq<string>, priority: SilkyUserInterface -> int)
      requires Valid() && forall p <- visit :: p in userInterfaces
      modifies this`currentUserInterfacesKey, this`userInterfaces
      modifies this`currentInsertionPoint, this`currentUserInterface, this`updated
      ensures Valid()
      ensures currentUserInterface == null && currentInsertionPoint == None
      ensures var r := SortAndVisit(old(userInterfaces), visit, priority);
        userInterfaces == r.0 && updated == old(updated) + r.1
      ensures currentUserInterfacesKey == if visit == [] then old(currentUserInterfacesKey) else Some(visit[|visit| - 1])
    {
      ghost var lists := userInterfaces;
      var i := 0;
      while i < |visit|
        invariant 0 <= i <= |visit|
        invariant userInterfaces == SortAndVisit(lists, visit[..i], priority).0
        invariant updated == old(updated) + SortAndVisit(lists, visit[..i], priority).1
        invariant currentUserInterfacesKey == if i == 0 then old(currentUserInterfacesKey) else Some(visit[i - 1])
        invariant Valid()
      {
        var point := visit[i];
        ghost var previous := SortAndVisit(lists, visit[..i], priority);
        var order := OrderBy(userInterfaces[point], priority);
        VisitPoint(point, order);
        PrefixStep(visit, i);
        assert SortAndVisit(lists, visit[..i + 1], priority) ==
          (previous.0[point := order], previous.1 + Tagged(point, order));
        AppendAssociates(old(updated), previous.1, Tagged(point, order));
        i := i + 1;
      }
      assert visit[..i] == visit;
      ClearCurrent();
    }

    /** The `finally` of UpdateUI: no interface and no insertion point is current. */
    method ClearCurrent()
      requires Valid()
      modifies this`currentInsertionPoint, this`currentUserInterface
      ensures Valid() && currentUserInterface == null && currentInsertionPoint == None
    {
      currentUserInterface := null;
      currentInsertionPoint := None;
    }

    /**
     * One visit of UpdateUI's loop: the point's list becomes current, is
     * replaced by its sorted order, and its interfaces are updated front to back.
     */
    method VisitPoint(point: string, order: seq<SilkyUserInterface>)
      requires Valid() && point in userInterfaces && multiset(order) == multiset(userInterfaces[point])
      modifies this`currentUserInterfacesKey, this`userInterfaces
      modifies this`currentInsertionPoint, this`currentUserInterface, this`updated
      ensures Valid() && currentUserInterfacesKey == Some(point)
      ensures userInterfaces == old(userInterfaces)[point := order]
      ensures updated == old(updated) + Tagged(point, order)
    {
      assert forall u <- order :: u in multiset(userInterfaces[point]);
      currentUserInterfacesKey := Some(point);
      userInterfaces := userInterfaces[point := order];
      UpdateInterfaces(point, order);
    }

    /** The inner loop of UpdateUI: each interface of the sorted list updated in turn. */
    method UpdateInterfaces(point: string, order: seq<SilkyUserInterface>)
      modifies this`currentInsertionPoint, this`currentUserInterface, this`updated
      ensures updated == old(updated) + Tagged(point, order)
      ensures order != [] ==> currentInsertionPoint == Some(point) && currentUserInterface == order[|order| - 1]
      ensures order == [] ==> currentInsertionPoint == old(currentInsertionPoint) &&
                              currentUserInterface == old(currentUserInterface)
    {
      var j := 0;
      while j < |order|
        invariant 0 <= j <= |order|
        invariant updated == old(updated) + Tagged(point, order[..j])
        invariant j > 0 ==> currentInsertionPoint == Some(point) && currentUserInterface == order[j - 1]
        invariant j == 0 ==> currentInsertionPoint == old(currentInsertionPoint) &&
                             currentUserInterface == old(currentUserInterface)
      {
        PrefixStep(order, j);
        currentInsertionPoint := Some(point);
        currentUserInterface := order[j];
        updated := updated + [(point, order[j])];
        j := j + 1;
      }
      assert order[..j] == order;
    }

    /**
     * ModifyInterfaceLayers: records the layer names once each, in first
     * occurrence order; then, unless the previous record was empty, inserts
     * a layer for every registered interface right after the layer its
     * insertion point names. Returns the layer list.
     */
    method ModifyInterfaceLayers(layers: seq<GameInterfaceLayer>) returns (result: seq<GameInterfaceLayer>)
      requires Valid()
      modifies this`interfaceLayerOrders, this`currentInsertionPoint, this`currentUserInterface
      ensures Valid()
      ensures interfaceLayerOrders == Dedup(Names(layers))
      ensures |old(interfaceLayerOrders)| < 1 ==>
        result == layers && currentInsertionPoint == old(currentInsertionPoint) &&
        currentUserInterface == old(currentUserInterface)
      ensures |old(interfaceLayerOrders)| >= 1 ==>
        var r := InsertAll(layers, insertionPoints, userInterfaces, basicBodyTypesAutoloadInfo);
        result == r.layers && Leaves(r, old(currentInsertionPoint), old(currentUserInterface))
    {
      var count := |interfaceLayerOrders|;
      RecordLayerOrder(layers);
      result := layers;
      if count < 1 {
        return;
      }
      result := InsertLayers(layers);
    }

    /** The first half of ModifyInterfaceLayers: InterfaceLayerOrders refilled with each layer name once. */
    method RecordLayerOrder(layers: seq<GameInterfaceLayer>)
      modifies this`interfaceLayerOrders
      ensures interfaceLayerOrders == Dedup(Names(layers))
    {
      interfaceLayerOrders := [];
      var i := 0;
      while i < |layers|
        invariant 0 <= i <= |layers|
        invariant interfaceLayerOrders == Dedup(Names(layers[..i]))
      {
        ghost var names := Names(layers[..i + 1]);
        PrefixStep(layers, i);
        assert names == Names(layers[..i]) + [layers[i].name];
        assert names[..|names| - 1] == Names(layers[..i]);
        if layers[i].name !in interfaceLayerOrders {
          interfaceLayerOrders := interfaceLayerOrders + [layers[i].name];
        }
        i := i + 1;
      }
      assert layers[..i] == layers;
    }

    /** The inner loop: a layer for each interface of `point`, each inserted right after the anchor at `index`. */
    method InsertInterfaces(point: string, index: nat, layers: seq<GameInterfaceLayer>)
      returns (result: seq<GameInterfaceLayer>)
      requires point in userInterfaces && index < |layers|
      modifies this`currentInsertionPoint, this`currentUserInterface
      ensures var uis := userInterfaces[point];
        result == InsertAfter(layers, index, uis, basicBodyTypesAutoloadInfo) &&
        (uis == [] ==> currentInsertionPoint == old(currentInsertionPoint) &&
                       currentUserInterface == old(currentUserInterface)) &&
        (uis != [] ==> currentInsertionPoint == Some(point) && currentUserInterface == uis[|uis| - 1])
    {
      var uis := userInterfaces[point];
      result := layers;
      var j := 0;
      while j < |uis|
        invariant 0 <= j <= |uis|
        invariant result == InsertAfter(layers, index, uis[..j], basicBodyTypesAutoloadInfo)
        invariant j == 0 ==> currentInsertionPoint == old(currentInsertionPoint) &&
                             currentUserInterface == old(currentUserInterface)
        invariant j > 0 ==> currentInsertionPoint == Some(point) && currentUserInterface == uis[j - 1]
      {
        PrefixStep(uis, j);
        var ui := uis[j];
        var name := "UNKNOWN";
        if ui in basicBodyTypesAutoloadInfo {
          name := basicBodyTypesAutoloadInfo[ui].name;
        }
        currentInsertionPoint := Some(point);
        currentUserInterface := ui;
        result := result[..index + 1] + [UserInterfaceLayer(ui, name)] + result[index + 1..];
        j := j + 1;
      }
      assert uis[..j] == uis;
    }

    /** The insertion half of ModifyInterfaceLayers: the loop over the registry. */
    method InsertLayers(layers: seq<GameInterfaceLayer>) returns (result: seq<GameInterfaceLayer>)
      requires forall p <- insertionPoints :: p in userInterfaces
      modifies this`currentInsertionPoint, this`currentUserInterface
      ensures var r := InsertAll(layers, insertionPoints, userInterfaces, basicBodyTypesAutoloadInfo);
        result == r.layers && Leaves(r, old(currentInsertionPoint), old(currentUserInterface))
    {
      result := layers;
      var k := 0;
      while k < |insertionPoints|
        invariant 0 <= k <= |insertionPoints|
        invariant var r := InsertAll(layers, insertionPoints[..k], userInterfaces, basicBodyTypesAutoloadInfo);
          result == r.layers && Leaves(r, old(currentInsertionPoint), old(currentUserInterface))
      {
        var point := insertionPoints[k];
        PrefixStep(insertionPoints, k);
        ghost var previous := InsertAll(layers, insertionPoints[..k], userInterfaces, basicBodyTypesAutoloadInfo);
        result := InsertAtPoint(point, result, previous, old(currentInsertionPoint), old(currentUserInterface));
        k := k + 1;
      }
      assert insertionPoints[..k] == insertionPoints;
    }

    /**
     * The current interface and insertion point as an insertion pass that
     * ended in `r` leaves them, when they were `point` and `ui` before it.
     */
    ghost predicate Leaves(r: Inserted, point: Option<string>, ui: SilkyUserInterface?)
      reads this`currentInsertionPoint, this`currentUserInterface
    {
      if r.last.Some? then currentInsertionPoint == Some(r.last.value.0) && currentUserInterface == r.last.value.1
      else currentInsertionPoint == point && currentUserInterface == ui
    }

    /** One pass of InsertLayers' loop: the point's interfaces go in after its layer, when it has one. */
    method InsertAtPoint(point: string, layers: seq<GameInterfaceLayer>, ghost before: Inserted,
                         ghost point0: Option<string>, ghost ui0: SilkyUserInterface?)
      returns (result: seq<GameInterfaceLayer>)
      requires point in userInterfaces && before.layers == layers && Leaves(before, point0, ui0)
      modifies this`currentInsertionPoint, this`currentUserInterface
      ensures var r := InsertPoint(before, point, userInterfaces[point], basicBodyTypesAutoloadInfo);
        result == r.layers && Leaves(r, point0, ui0)
    {
      result := layers;
      var index := FindIndex(layers, point);
      if index > -1 {
        result := InsertInterfaces(point, index, layers);
        if userInterfaces[point] == [] {
          assert result == InsertAfter(layers, index, [], basicBodyTypesAutoloadInfo) == layers;
        }
      }
    }
  }
}
