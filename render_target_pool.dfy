/**
 * RenderTargetPool: off-screen render targets kept per size in two stacks,
 * the cached ones ready to lend and the occupied ones lent out. Borrowing
 * takes the top cached target of the asked size or creates a new one;
 * returning moves a lent target back to the cache.
 *
 * A render target is an opaque id with its size; creating one (a GPU
 * allocation) hands out the next unused id. A stack is a sequence whose top
 * is its last element.
 */
module RenderTargetPools {
  import opened HostTypes

  datatype RenderTarget = RenderTarget(id: nat, width: int, height: int)

  type Size = (int, int)

  function SizeOf(t: RenderTarget): Size
  {
    (t.width, t.height)
  }

  /** The two dictionaries of stacks and the id the next created target gets. */
  datatype Pool = Pool(cached: map<Size, seq<RenderTarget>>, occupied: map<Size, seq<RenderTarget>>, nextId: nat)

  /** The pool before any Borrow: both dictionaries empty. */
  const EmptyPool: Pool := Pool(map[], map[], 0)

  /** The stack for a size, an absent one read as empty. */
  function Stack(stacks: map<Size, seq<RenderTarget>>, size: Size): seq<RenderTarget>
  {
    if size in stacks then stacks[size] else []
  }

  /** Every target the pool keeps for a size, cached or lent, with its multiplicity. */
  function Holding(p: Pool, size: Size): multiset<RenderTarget>
  {
    multiset(Stack(p.cached, size)) + multiset(Stack(p.occupied, size))
  }

  /**
   * The invariant of one size's stacks: they hold targets of that size, each
   * created before (its id is below nextId), and none twice.
   */
  ghost predicate ValidStacks(cached: seq<RenderTarget>, occupied: seq<RenderTarget>, size: Size, nextId: nat)
  {
    forall t :: (multiset(cached) + multiset(occupied))[t] > 0 ==>
      SizeOf(t) == size && t.id < nextId && (multiset(cached) + multiset(occupied))[t] == 1
  }

  /** The pool's invariant: every size's stacks keep ValidStacks. */
  ghost predicate Valid(p: Pool)
  {
    forall size :: ValidStacks(Stack(p.cached, size), Stack(p.occupied, size), size, p.nextId)
  }

  /**
   * Borrow: nothing when a side is not positive (the source throws);
   * otherwise both stacks for the size exist afterwards, and the lent target
   * is the top cached one, popped, or a newly created one, and is pushed on
   * the occupied stack.
   */
  function Borrowed(p: Pool, width: int, height: int): (r: (Option<RenderTarget>, Pool))
    ensures r.0.None? <==> width <= 0 || height <= 0
    ensures r.0.None? ==> r.1 == p
    ensures r.0.Some? ==>
      var size := (width, height);
      var c := Stack(p.cached, size);
      var t := r.0.value;
      size in r.1.cached && size in r.1.occupied &&
      Stack(r.1.occupied, size) == Stack(p.occupied, size) + [t] &&
      (c != [] ==> t == c[|c| - 1] && r.1.cached[size] == c[..|c| - 1] && r.1.nextId == p.nextId) &&
      (c == [] ==> t.id == p.nextId && r.1.cached[size] == [] && r.1.nextId == p.nextId + 1)
    ensures forall size :: size != (width, height) ==>
      Stack(r.1.cached, size) == Stack(p.cached, size) && Stack(r.1.occupied, size) == Stack(p.occupied, size)
  {
    if width <= 0 || height <= 0 then
      (None, p)
    else
      var size := (width, height);
      var c := Stack(p.cached, size);
      var o := Stack(p.occupied, size);
      if |c| > 0 then
        var t := c[|c| - 1];
        (Some(t), Pool(p.cached[size := c[..|c| - 1]], p.occupied[size := o + [t]], p.nextId))
      else
        var t := RenderTarget(p.nextId, width, height);
        (Some(t), Pool(p.cached[size := c], p.occupied[size := o + [t]], p.nextId + 1))
  }

  /** The test before Return's pop: the size has both stacks and the target is among the occupied ones. */
  predicate Belongs(p: Pool, t: RenderTarget)
  {
    SizeOf(t) in p.cached && SizeOf(t) in p.occupied && t in p.occupied[SizeOf(t)]
  }

  /**
   * Return as written: when the target belongs, the top of the occupied
   * stack is popped, whichever target it is, and the returned target is
   * pushed on the cached stack; otherwise nothing (the source throws).
   */
  function ReturnedAsWritten(p: Pool, t: RenderTarget): (r: Option<Pool>)
    ensures r.Some? <==> Belongs(p, t)
    ensures r.Some? ==>
      var o := p.occupied[SizeOf(t)];
      r.value == Pool(p.cached[SizeOf(t) := p.cached[SizeOf(t)] + [t]], p.occupied[SizeOf(t) := o[..|o| - 1]], p.nextId)
  {
    if !Belongs(p, t) then
      None
    else
      var size := SizeOf(t);
      var o := p.occupied[size];
      Some(Pool(p.cached[size := p.cached[size] + [t]], p.occupied[size := o[..|o| - 1]], p.nextId))
  }

  /** The stack without the topmost occurrence of t. */
  function RemoveTopmost(q: seq<RenderTarget>, t: RenderTarget): (r: seq<RenderTarget>)
    ensures t in q ==> multiset(r) == multiset(q) - multiset{t}
    ensures t !in q ==> r == q
    ensures q != [] && q[|q| - 1] == t ==> r == q[..|q| - 1]
  {
    if q == [] then []
    else
      var init, top := q[..|q| - 1], q[|q| - 1];
      assert q == init + [top];
      if top == t then init
      else
        assert t in q ==> t in init;
        RemoveTopmost(init, t) + [top]
  }

  /**
   * Return as intended: the returned target itself leaves the occupied
   * stack and is pushed on the cached stack.
   */
  function Returned(p: Pool, t: RenderTarget): (r: Option<Pool>)
    ensures r.Some? <==> Belongs(p, t)
    ensures r.Some? ==>
      var size := SizeOf(t);
      r.value.cached == p.cached[size := p.cached[size] + [t]] &&
      r.value.occupied == p.occupied[size := RemoveTopmost(p.occupied[size], t)] &&
      r.value.nextId == p.nextId
  {
    if !Belongs(p, t) then
      None
    else
      var size := SizeOf(t);
      Some(Pool(p.cached[size := p.cached[size] + [t]], p.occupied[size := RemoveTopmost(p.occupied[size], t)], p.nextId))
  }

  // ------------------------------------------------------------ the pool object

  class RenderTargetPool {
    /** `_cached` */
    var cached: map<Size, seq<RenderTarget>>
    /** `_occupied` */
    var occupied: map<Size, seq<RenderTarget>>
    /** The id Create hands out next. */
    var nextId: nat

    function State(): Pool
      reads this
    {
      Pool(cached, occupied, nextId)
    }

    /** The pool starts with no stacks at all. */
    constructor()
      ensures State() == EmptyPool
    {
      cached := map[];
      occupied := map[];
      nextId := 0;
    }

    /** Create: a new target of the given size with an unused id. */
    method Create(width: int, height: int) returns (t: RenderTarget)
      modifies this`nextId
      ensures t == RenderTarget(old(nextId), width, height) && nextId == old(nextId) + 1
    {
      t := RenderTarget(nextId, width, height);
      nextId := nextId + 1;
    }

    /** Borrow: the lent target, or None where the source throws. */
    method Borrow(width: int, height: int) returns (r: Option<RenderTarget>)
      modifies this
      ensures (r, State()) == Borrowed(old(State()), width, height)
    {
      if width <= 0 || height <= 0 {
        return None;
      }
      var size := (width, height);
      ghost var c0, o0 := Stack(cached, size), Stack(occupied, size);
      if size !in cached {
        cached := cached[size := []];
      }
      if size !in occupied {
        occupied := occupied[size := []];
      }
      var c := cached[size];
      assert c == c0 && occupied[size] == o0;
      if |c| > 0 {
        var t := c[|c| - 1];
        cached := cached[size := c[..|c| - 1]];
        occupied := occupied[size := occupied[size] + [t]];
        assert cached == old(cached)[size := c0[..|c0| - 1]];
        assert occupied == old(occupied)[size := o0 + [t]];
        return Some(t);
      } else {
        assert cached == old(cached)[size := c0];
        var t := Create(width, height);
        occupied := occupied[size := occupied[size] + [t]];
        assert occupied == old(occupied)[size := o0 + [t]];
        return Some(t);
      }
    }

    /** Return as written: false where the source throws. */
    method ReturnAsWritten(t: RenderTarget) returns (ok: bool)
      modifies this
      ensures ok == Belongs(old(State()), t)
      ensures ok ==> Some(State()) == ReturnedAsWritten(old(State()), t)
      ensures !ok ==> State() == old(State())
    {
      var size := SizeOf(t);
      if size !in cached || size !in occupied || t !in occupied[size] {
        return false;
      }
      var o := occupied[size];
      occupied := occupied[size := o[..|o| - 1]];
      cached := cached[size := cached[size] + [t]];
      return true;
    }

    /** Return as intended: false where the source throws. */
    method Return(t: RenderTarget) returns (ok: bool)
      modifies this
      ensures ok == Belongs(old(State()), t)
      ensures ok ==> Some(State()) == Returned(old(State()), t)
      ensures !ok ==> State() == old(State())
    {
      var size := SizeOf(t);
      if size !in cached || size !in occupied || t !in occupied[size] {
        return false;
      }
      occupied := occupied[size := RemoveTopmost(occupied[size], t)];
      cached := cached[size := cached[size] + [t]];
      return true;
    }
  }

  // ------------------------------------------------------------------ lemmas

  /** The empty pool keeps the invariant. */
  lemma EmptyPoolValid()
    ensures Valid(EmptyPool)
  {
    forall size
      ensures ValidStacks(Stack(EmptyPool.cached, size), Stack(EmptyPool.occupied, size), size, 0)
    {
      assert Stack(EmptyPool.cached, size) == [] && Stack(EmptyPool.occupied, size) == [];
    }
  }

  /** Stacks stay valid when nextId grows. */
  lemma ValidStacksLater(c: seq<RenderTarget>, o: seq<RenderTarget>, size: Size, n: nat, n': nat)
    requires ValidStacks(c, o, size, n) && n <= n'
    ensures ValidStacks(c, o, size, n')
  {
  }

  /** Popping the top cached target onto the occupied stack keeps the stacks valid and what they hold. */
  lemma PopKeepsValid(c: seq<RenderTarget>, o: seq<RenderTarget>, size: Size, n: nat)
    requires c != [] && ValidStacks(c, o, size, n)
    ensures var t := c[|c| - 1];
      multiset(c[..|c| - 1]) + multiset(o + [t]) == multiset(c) + multiset(o) &&
      ValidStacks(c[..|c| - 1], o + [t], size, n) && t !in o && SizeOf(t) == size
  {
    var t := c[|c| - 1];
    assert c == c[..|c| - 1] + [t];
    assert (multiset(c) + multiset(o))[t] > 0;
  }

  /** Pushing a newly created target onto the occupied stack keeps the stacks valid. */
  lemma CreateKeepsValid(c: seq<RenderTarget>, o: seq<RenderTarget>, size: Size, n: nat, t: RenderTarget)
    requires ValidStacks(c, o, size, n) && t.id == n && SizeOf(t) == size
    ensures multiset(c) + multiset(o + [t]) == multiset(c) + multiset(o) + multiset{t}
    ensures ValidStacks(c, o + [t], size, n + 1) && t !in o
  {
    assert (multiset(c) + multiset(o))[t] == 0;
  }

  /** Moving an occupied target to the cached stack keeps the stacks valid and what they hold. */
  lemma ReturnKeepsValid(c: seq<RenderTarget>, o: seq<RenderTarget>, size: Size, n: nat, t: RenderTarget)
    requires ValidStacks(c, o, size, n) && t in o
    ensures multiset(c + [t]) + multiset(RemoveTopmost(o, t)) == multiset(c) + multiset(o)
    ensures ValidStacks(c + [t], RemoveTopmost(o, t), size, n) && t !in RemoveTopmost(o, t)
  {
    assert (multiset(c) + multiset(o))[t] > 0;
    assert multiset(RemoveTopmost(o, t))[t] == 0;
  }

  /**
   * Borrow keeps the invariant; the pool holds one more target of the size
   * exactly when it created one, and the lent target was not lent already.
   */
  lemma BorrowedValid(p: Pool, width: int, height: int)
    requires Valid(p)
    ensures Valid(Borrowed(p, width, height).1)
    ensures var (r, q) := Borrowed(p, width, height);
      r.Some? ==>
        SizeOf(r.value) == (width, height) && r.value !in Stack(p.occupied, (width, height)) &&
        Holding(q, (width, height)) == Holding(p, (width, height)) + (if q.nextId == p.nextId then multiset{} else multiset{r.value})
  {
    var (r, q) := Borrowed(p, width, height);
    if r.Some? {
      var size := (width, height);
      var c := Stack(p.cached, size);
      var o := Stack(p.occupied, size);
      assert ValidStacks(c, o, size, p.nextId);
      if c != [] {
        PopKeepsValid(c, o, size, p.nextId);
      } else {
        CreateKeepsValid(c, o, size, p.nextId, r.value);
      }
      forall s
        ensures ValidStacks(Stack(q.cached, s), Stack(q.occupied, s), s, q.nextId)
      {
        if s != size {
          assert ValidStacks(Stack(p.cached, s), Stack(p.occupied, s), s, p.nextId);
          ValidStacksLater(Stack(p.cached, s), Stack(p.occupied, s), s, p.nextId, q.nextId);
        }
      }
    }
  }

  /** Return as intended keeps the invariant and what the pool holds of every size, and the target is no longer occupied. */
  lemma ReturnedValid(p: Pool, t: RenderTarget)
    requires Valid(p) && Belongs(p, t)
    ensures Valid(Returned(p, t).value)
    ensures forall size :: Holding(Returned(p, t).value, size) == Holding(p, size)
    ensures t !in Returned(p, t).value.occupied[SizeOf(t)]
  {
    var q := Returned(p, t).value;
    var size := SizeOf(t);
    assert ValidStacks(Stack(p.cached, size), Stack(p.occupied, size), size, p.nextId);
    ReturnKeepsValid(p.cached[size], p.occupied[size], size, p.nextId, t);
    forall s
      ensures ValidStacks(Stack(q.cached, s), Stack(q.occupied, s), s, q.nextId)
      ensures Holding(q, s) == Holding(p, s)
    {
      if s != size {
        assert ValidStacks(Stack(p.cached, s), Stack(p.occupied, s), s, p.nextId);
      }
    }
  }

  /**
   * Return as written neither creates nor drops a target: for every size
   * the pool holds as many as before, and no id is used up. Only Borrow's
   * Create makes the count grow.
   */
  lemma ReturnAsWrittenKeepsCount(p: Pool, t: RenderTarget)
    requires Belongs(p, t)
    ensures ReturnedAsWritten(p, t).value.nextId == p.nextId
    ensures forall size :: |Holding(ReturnedAsWritten(p, t).value, size)| == |Holding(p, size)|
  {
    var q := ReturnedAsWritten(p, t).value;
    forall size
      ensures |Holding(q, size)| == |Holding(p, size)|
    {
      if size == SizeOf(t) {
        var o := p.occupied[size];
        assert o == o[..|o| - 1] + [o[|o| - 1]];
      }
    }
  }

  /**
   * Returning the target a Borrow lent from the cache puts the pool back as
   * it was, except that the occupied dictionary now has a (possibly empty)
   * stack for the size.
   */
  lemma BorrowThenReturn(p: Pool, width: int, height: int, t: RenderTarget, q: Pool)
    requires Valid(p) && Stack(p.cached, (width, height)) != []
    requires Borrowed(p, width, height) == (Some(t), q)
    ensures Returned(q, t).Some?
    ensures Returned(q, t).value.cached == p.cached
    ensures Returned(q, t).value.occupied == p.occupied[(width, height) := Stack(p.occupied, (width, height))]
    ensures Returned(q, t).value.nextId == p.nextId
  {
    var size := (width, height);
    var c := Stack(p.cached, size);
    var o := Stack(p.occupied, size);
    assert ValidStacks(c, o, size, p.nextId);
    PopKeepsValid(c, o, size, p.nextId);
    ReturnPoppedCached(p, size, t, q);
    ReturnPoppedOccupied(p, size, t, q);
  }

  /** The cached half of BorrowThenReturn, once the lent target is known to have the asked size. */
  lemma ReturnPoppedCached(p: Pool, size: Size, t: RenderTarget, q: Pool)
    requires SizeOf(t) == size && Stack(p.cached, size) != [] && size.0 > 0 && size.1 > 0
    requires Borrowed(p, size.0, size.1) == (Some(t), q)
    ensures Returned(q, t).Some? && Returned(q, t).value.cached == p.cached
  {
    var c := Stack(p.cached, size);
    assert t == c[|c| - 1];
    assert q.cached == p.cached[size := c[..|c| - 1]];
    PopThenPush(c);
    Overwritten(p.cached, size, c[..|c| - 1], c);
  }

  /** The occupied half of BorrowThenReturn. */
  lemma ReturnPoppedOccupied(p: Pool, size: Size, t: RenderTarget, q: Pool)
    requires SizeOf(t) == size && Stack(p.cached, size) != [] && size.0 > 0 && size.1 > 0
    requires Borrowed(p, size.0, size.1) == (Some(t), q)
    ensures Returned(q, t).Some? && Returned(q, t).value.occupied == p.occupied[size := Stack(p.occupied, size)]
  {
    var o := Stack(p.occupied, size);
    assert q.occupied == p.occupied[size := o + [t]];
    Overwritten(p.occupied, size, o + [t], o);
  }

  /** Writing a key twice keeps the second value. */
  lemma Overwritten(m: map<Size, seq<RenderTarget>>, k: Size, v: seq<RenderTarget>, v': seq<RenderTarget>)
    ensures m[k := v][k := v'] == m[k := v']
  {
  }

  /** Pushing back the popped top restores a stack. */
  lemma PopThenPush(c: seq<RenderTarget>)
    requires c != []
    ensures c[..|c| - 1] + [c[|c| - 1]] == c
  {
  }

  /** When the returned target is the top of its occupied stack, the source's Return does what was intended. */
  lemma ReturnTopAgrees(p: Pool, t: RenderTarget)
    requires Belongs(p, t)
    requires var o := p.occupied[SizeOf(t)]; o[|o| - 1] == t
    ensures ReturnedAsWritten(p, t) == Returned(p, t)
  {
  }

  /** Two Borrows of the same size from the empty pool create targets 0 and 1, both occupied in that order. */
  lemma TwoBorrows(size: int)
    requires size > 0
    ensures var (a, p1) := Borrowed(EmptyPool, size, size);
      var (b, p2) := Borrowed(p1, size, size);
      a == Some(RenderTarget(0, size, size)) && b == Some(RenderTarget(1, size, size)) &&
      p2.cached[(size, size)] == [] && p2.occupied[(size, size)] == [a.value, b.value] && p2.nextId == 2
  {
    var key := (size, size);
    var (ra, p1) := Borrowed(EmptyPool, size, size);
    assert Stack(p1.cached, key) == [] && Stack(p1.occupied, key) == [ra.value] && p1.nextId == 1;
  }

  /**
   * The source's Return on a target other than the top: borrow A, borrow B
   * (both created), return A. The pool then keeps A twice and no longer
   * knows B, so returning B is refused although B was lent by this pool.
   */
  lemma ReturnOutOfOrderAsWritten(size: int)
    requires size == 2
    ensures var (a, p1) := Borrowed(EmptyPool, size, size);
      var (b, p2) := Borrowed(p1, size, size);
      var p3 := ReturnedAsWritten(p2, a.value);
      p3.Some? && Holding(p3.value, (size, size))[a.value] == 2 && !Valid(p3.value) &&
      ReturnedAsWritten(p3.value, b.value).None?
  {
    TwoBorrows(size);
    var key := (size, size);
    var (ra, p1) := Borrowed(EmptyPool, size, size);
    var (rb, p2) := Borrowed(p1, size, size);
    var a, b := ra.value, rb.value;
    var p3 := ReturnedAsWritten(p2, a).value;
    assert p3.cached[key] == [a] && p3.occupied[key] == [a] by {
      assert [a, b][..1] == [a];
    }
    assert Holding(p3, key) == multiset{a, a};
    assert !ValidStacks(Stack(p3.cached, key), Stack(p3.occupied, key), key, p3.nextId);
  }

  /** The same sequence with the intended Return: both targets come back to the cache, in the order returned. */
  lemma ReturnOutOfOrder(size: int)
    requires size == 2
    ensures var (a, p1) := Borrowed(EmptyPool, size, size);
      var (b, p2) := Borrowed(p1, size, size);
      var p3 := Returned(p2, a.value);
      p3.Some? && Returned(p3.value, b.value).Some? &&
      Returned(p3.value, b.value).value.cached[(size, size)] == [a.value, b.value] &&
      Returned(p3.value, b.value).value.occupied[(size, size)] == []
  {
    TwoBorrows(size);
    var key := (size, size);
    var (ra, p1) := Borrowed(EmptyPool, size, size);
    var (rb, p2) := Borrowed(p1, size, size);
    var a, b := ra.value, rb.value;
    assert RemoveTopmost([a, b], a) == [b] by {
      assert [a, b][..1] == [a];
    }
    var p3 := Returned(p2, a).value;
    assert p3.cached[key] == [a] && p3.occupied[key] == [b];
    var p4 := Returned(p3, b).value;
    assert p4.cached[key] == [a, b] && p4.occupied[key] == [];
  }
}
