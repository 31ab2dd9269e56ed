/** Writing a cache to the one below it (`BatchWrite`, `Flush`, `Sync`, src/coins.cpp; the cursor,
    src/coins.h). */
module CoinsFlush {
  import opened CoinsList
  import opened CoinsCache

  /** Write one DIRTY entry of the child.  That the child has the coin as FRESH while the parent has it
      unspent, for which the program throws, cannot happen. */
  method WriteEntry(c: Cache, o: OutPoint, e: Entry, ghost order: seq<OutPoint>, ghost base: Flat)
    returns (d: Cache, ghost order': seq<OutPoint>)
    requires Listed(c, order) && CacheOk(c, base) && e.isDirty && Combination(e) && (e.isFresh ==> o !in View(c, base))
    ensures Listed(d, order') && CacheOk(d, base) && d.hashBlock == c.hashBlock
    ensures View(d, base) == if IsSpent(e.coin) then View(c, base) - {o} else View(c, base)[o := e.coin]
  {
    d, order' := c, order;
    if o !in c.coins {
      if !(e.isFresh && IsSpent(e.coin)) {
        PutListed(c, o, e.coin, order);
        var p := Put(c, o, e.coin);
        AddFlagsEffect(p, o, true, false, order);
        InList(p, order, o);
        d, order' := AddFlags(p, o, true, false), order + [o];
        if e.isFresh {
          AddFlagsEffect(d, o, false, true, order');
          InList(d, order', o);
          d := AddFlags(d, o, false, true);
        }
        OneChanged(c, d, base, o);
      }
    } else {
      assert EntryOk(c.coins[o], base, o);
      if e.isFresh && !IsSpent(c.coins[o].coin) {
        assert false;
      }
      if c.coins[o].isFresh && IsSpent(e.coin) {
        order' := EraseEffect(c, o, order);
        d := Erase(c, o);
        OneErased(c, d, base, o);
      } else {
        PutListed(c, o, e.coin, order);
        var p := Put(c, o, e.coin);
        AddFlagsEffect(p, o, true, false, order);
        d := AddFlags(p, o, true, false);
        order' := if o in order then order else order + [o];
        OneChanged(c, d, base, o);
      }
    }
  }

  // ----- what has been written, and what is left of the child

  ghost predicate Writes(child: Cache, done: seq<OutPoint>, o: OutPoint) {
    o in done && o in child.coins && child.coins[o].isDirty
  }

  /** `f` with the DIRTY entries of `done` written over it. */
  ghost function Written(f: Flat, child: Cache, done: seq<OutPoint>): Flat {
    map o | o in f.Keys + child.coins.Keys && (if Writes(child, done, o) then !IsSpent(child.coins[o].coin) else o in f)
          :: if Writes(child, done, o) then child.coins[o].coin else f[o]
  }

  lemma WrittenNothing(f: Flat, child: Cache)
    ensures Written(f, child, []) == f
  {
  }

  lemma WrittenOne(f: Flat, child: Cache, done: seq<OutPoint>, o: OutPoint)
    requires o in child.coins
    ensures Written(f, child, done + [o]) ==
            if !child.coins[o].isDirty then Written(f, child, done)
            else if IsSpent(child.coins[o].coin) then Written(f, child, done) - {o}
            else Written(f, child, done)[o := child.coins[o].coin]
  {
    forall x ensures Writes(child, done + [o], x) <==> Writes(child, done, x) || (x == o && child.coins[o].isDirty) { }
  }

  /** Once all flagged entries have been written, the view is the child's. */
  lemma WrittenAll(f: Flat, child: Cache, order: seq<OutPoint>)
    requires CacheOk(child, f) && Listed(child, order)
    ensures Written(f, child, order) == View(child, f)
  {
    forall o | o in child.coins
      ensures EntryOk(child.coins[o], f, o) && (o in order <==> Flagged(child.coins[o]))
    {
      InList(child, order, o);
    }
    hide Listed;
  }

  /** The child, with the entries `done` visited by a cursor that does not erase: spent ones are gone,
      the others have no flags any more. */
  ghost predicate Visited(child: Cache, cc: Cache, done: seq<OutPoint>) {
    && cc.hashBlock == child.hashBlock && cc.coins.Keys <= child.coins.Keys
    && (forall o :: o in child.coins ==> (o in cc.coins <==> !(o in done && IsSpent(child.coins[o].coin))))
    && (forall o :: o in cc.coins ==> cc.coins[o].coin == child.coins[o].coin)
    && (forall o :: o in cc.coins ==> cc.coins[o].isDirty == (o !in done && child.coins[o].isDirty))
    && (forall o :: o in cc.coins ==> cc.coins[o].isFresh == (o !in done && child.coins[o].isFresh))
  }

  /** Go on to the next entry, and unless everything is going to be erased, erase the current one if it
      is spent, and remove its flags otherwise. */
  method NextAndMaybeErase(child: Cache, o: OutPoint, willErase: bool, ghost order: seq<OutPoint>, ghost k: nat)
    returns (d: Cache, next: Link, ghost order': seq<OutPoint>)
    requires Listed(child, order) && k < |order| && order[k] == o && (!willErase ==> k == 0)
    ensures next == LinkAt(order, k + 1) && Listed(d, order')
    ensures willErase ==> d == child && order' == order
    ensures !willErase ==> order' == order[1..] && o in child.coins
    ensures !willErase ==>
              if IsSpent(child.coins[o].coin) then Erased(child, d, o) else Effect(child, d, o, false, false)
  {
    assert LinkedAt(child, order, k);
    next, d, order' := child.coins[o].next, child, order;
    if !willErase {
      if IsSpent(child.coins[o].coin) {
        order' := EraseEffect(child, o, order);
        d := Erase(child, o);
      } else {
        SetCleanEffect(child, order, k);
        d := SetClean(child, o);
        order' := Removed(order, k);
      }
      assert order' == order[1..];
    }
  }

  lemma VisitedNext(child: Cache, cc: Cache, d: Cache, done: seq<OutPoint>, o: OutPoint)
    requires Visited(child, cc, done) && o in cc.coins && o !in done
    requires if IsSpent(cc.coins[o].coin) then Erased(cc, d, o) else Effect(cc, d, o, false, false)
    ensures Visited(child, d, done + [o])
  {
  }

  /** Where the cursor is: the remaining list, and the position in it. */
  ghost function Left(order: seq<OutPoint>, k: nat, willErase: bool): seq<OutPoint>
    requires k <= |order|
  {
    if willErase then order else order[k..]
  }

  /** Write the flagged entries of `child`, following its list. */
  method BatchWrite(parent: Cache, child: Cache, hashBlock: nat, willErase: bool, ghost porder: seq<OutPoint>,
                    ghost corder: seq<OutPoint>, ghost base: Flat)
    returns (p: Cache, cc: Cache, ghost porder': seq<OutPoint>)
    requires Listed(parent, porder) && CacheOk(parent, base) && Listed(child, corder)
    requires CacheOk(child, View(parent, base))
    ensures Listed(p, porder') && CacheOk(p, base) && View(p, base) == View(child, View(parent, base))
    ensures p.hashBlock == hashBlock
    ensures if willErase then cc == child else Visited(child, cc, corder) && Listed(cc, [])
  {
    hide Listed, CacheOk, View, Written, Visited, Erased, Effect;
    ghost var f := View(parent, base);
    p, cc, porder' := parent, child, porder;
    ghost var k := 0;
    WrittenNothing(f, child);
    StartCursor(child, corder);
    assert corder[..0] == [] && corder[0..] == corder;
    var at := child.first;
    while at.At?
      invariant 0 <= k <= |corder| && at == LinkAt(corder, k) && Listed(cc, Left(corder, k, willErase))
      invariant if willErase then cc == child else Visited(child, cc, corder[..k])
      invariant Listed(p, porder') && CacheOk(p, base) && View(p, base) == Written(f, child, corder[..k])
      decreases |corder| - k
    {
      var o := at.o;
      CursorEntry(child, cc, corder, k, willErase, f);
      var e := cc.coins[o];
      if e.isDirty {
        FreshIsAbsent(child, f, corder, k);
        p, porder' := WriteEntry(p, o, e, porder', base);
      }
      WrittenOne(f, child, corder[..k], o);
      ghost var before := cc;
      ghost var rest;
      cc, at, rest := NextAndMaybeErase(cc, o, willErase, Left(corder, k, willErase), if willErase then k else 0);
      assert corder[..k + 1] == corder[..k] + [o];
      if !willErase { VisitedNext(child, before, cc, corder[..k], o); }
      k := k + 1;
    }
    assert corder[..k] == corder && corder[k..] == [];
    WrittenAll(f, child, corder);
    ghost var q := p;
    p := p.(hashBlock := hashBlock);
    BlockOnly(q, p, porder', base);
  }

  lemma StartCursor(child: Cache, order: seq<OutPoint>)
    requires Listed(child, order)
    ensures child.first == LinkAt(order, 0) && Visited(child, child, [])
  {
  }

  lemma CursorEntry(child: Cache, cc: Cache, order: seq<OutPoint>, k: nat, willErase: bool, f: Flat)
    requires Listed(child, order) && k < |order| && (if willErase then cc == child else Visited(child, cc, order[..k]))
    requires CacheOk(child, f)
    requires Listed(cc, Left(order, k, willErase))
    ensures var o := order[k];
            && o in child.coins && o in cc.coins && o !in order[..k] && cc.coins[o].coin == child.coins[o].coin
            && cc.coins[o].isDirty == child.coins[o].isDirty && cc.coins[o].isFresh == child.coins[o].isFresh
            && Combination(cc.coins[o])
  {
    assert LinkedAt(child, order, k);
    assert EntryOk(child.coins[order[k]], f, order[k]);
    var left := Left(order, k, willErase);
    assert LinkedAt(cc, left, if willErase then k else 0);
  }

  /** What the child has as FRESH, the parent still lacks when its turn comes. */
  lemma FreshIsAbsent(child: Cache, f: Flat, order: seq<OutPoint>, k: nat)
    requires Listed(child, order) && CacheOk(child, f) && k < |order| && order[k] in child.coins
    ensures child.coins[order[k]].isFresh ==> order[k] !in Written(f, child, order[..k])
  {
    assert EntryOk(child.coins[order[k]], f, order[k]);
    assert order[k] !in order[..k];
  }

  lemma BlockOnly(c: Cache, d: Cache, order: seq<OutPoint>, base: Flat)
    requires d == c.(hashBlock := d.hashBlock)
    ensures Listed(c, order) ==> Listed(d, order)
    ensures CacheOk(c, base) ==> CacheOk(d, base)
    ensures View(d, base) == View(c, base)
  {
    if Listed(c, order) {
      forall i | 0 <= i < |order| ensures LinkedAt(d, order, i) { assert LinkedAt(c, order, i); }
      forall x: OutPoint | x !in order ensures Unlinked(d, x) { assert Unlinked(c, x); }
    }
  }
}
