/** A stack of coins caches over a database (src/coins.cpp): whatever is done at its top, every level
    stands for one flat map of unspent coins. */
module CoinsStacks {
  import opened Options
  import opened CoinsList
  import opened CoinsCache
  import opened CoinsFlush

  const EMPTY_CACHE := Cache(map[], Sentinel, Sentinel, 0)

  /** The unspent coins of the topmost cache; the first one is the top. */
  ghost function StackView(db: Flat, caches: seq<Cache>): Flat {
    if caches == [] then db else View(caches[0], StackView(db, caches[1..]))
  }

  ghost predicate StackOk(db: Flat, caches: seq<Cache>, orders: seq<seq<OutPoint>>) {
    && |orders| == |caches| && AllUnspent(db)
    && (caches != [] ==> && Listed(caches[0], orders[0]) && CacheOk(caches[0], StackView(db, caches[1..]))
                         && StackOk(db, caches[1..], orders[1..]))
  }

  lemma ViewUnspent(c: Cache, base: Flat)
    requires CacheOk(c, base)
    ensures AllUnspent(View(c, base))
  {
  }

  lemma StackUnspent(db: Flat, caches: seq<Cache>, orders: seq<seq<OutPoint>>)
    requires StackOk(db, caches, orders)
    ensures AllUnspent(StackView(db, caches))
  {
    if caches != [] { ViewUnspent(caches[0], StackView(db, caches[1..])); }
  }

  /** Every level stands for what it stood for. */
  ghost predicate SameViews(db: Flat, caches: seq<Cache>, caches': seq<Cache>) {
    && |caches'| == |caches|
    && (forall i :: 0 <= i <= |caches| ==> StackView(db, caches'[i..]) == StackView(db, caches[i..]))
    && (forall i :: 0 <= i < |caches| ==> caches'[i].hashBlock == caches[i].hashBlock)
  }

  lemma SameViewsBelow(db: Flat, c: Cache, c': Cache, rest: seq<Cache>, rest': seq<Cache>)
    requires SameViews(db, rest, rest') && View(c', StackView(db, rest')) == View(c, StackView(db, rest))
    requires c'.hashBlock == c.hashBlock
    ensures SameViews(db, [c] + rest, [c'] + rest')
  {
    var s, t := [c] + rest, [c'] + rest';
    assert s[1..] == rest && t[1..] == rest';
    forall i | 0 <= i <= |s| ensures StackView(db, t[i..]) == StackView(db, s[i..]) {
      if i == 0 {
        assert s[0..] == s && t[0..] == t;
      } else {
        assert s[i..] == rest[i - 1..] && t[i..] == rest'[i - 1..];
      }
    }
  }

  /** The coin that is unspent in the topmost view, if any; caches fill up on the way. */
  method GetCoinAt(db: Flat, caches: seq<Cache>, o: OutPoint, ghost orders: seq<seq<OutPoint>>)
    returns (caches': seq<Cache>, coin: Option<Coin>)
    requires StackOk(db, caches, orders)
    ensures StackOk(db, caches', orders) && SameViews(db, caches, caches')
    ensures var f := StackView(db, caches); coin == if o in f then Some(f[o]) else None
    decreases |caches|, 1
  {
    hide Listed, CacheOk, SameViews;
    if caches == [] {
      SameAll(db, caches);
      caches', coin := caches, if o in db then Some(db[o]) else None;
    } else {
      var found;
      caches', found := FetchCoin(db, caches, o, orders);
      SameTop(db, caches, caches');
      if found && !IsSpent(caches'[0].coins[o].coin) {
        coin := Some(caches'[0].coins[o].coin);
      } else {
        coin := None;
      }
    }
  }

  lemma SameAll(db: Flat, caches: seq<Cache>)
    ensures SameViews(db, caches, caches)
  {
  }

  lemma SameTop(db: Flat, caches: seq<Cache>, caches': seq<Cache>)
    requires SameViews(db, caches, caches')
    ensures |caches'| == |caches| && StackView(db, caches') == StackView(db, caches)
    ensures caches != [] ==>
              StackView(db, caches'[1..]) == StackView(db, caches[1..]) && caches'[0].hashBlock == caches[0].hashBlock
  {
    assert caches[0..] == caches && caches'[0..] == caches';
  }

  /** Make sure that the topmost cache has an entry, if there is a coin to have an entry for. */
  method FetchCoin(db: Flat, caches: seq<Cache>, o: OutPoint, ghost orders: seq<seq<OutPoint>>)
    returns (caches': seq<Cache>, found: bool)
    requires caches != [] && StackOk(db, caches, orders)
    ensures StackOk(db, caches', orders) && SameViews(db, caches, caches')
    ensures found <==> caches' != [] && o in caches'[0].coins
    ensures found <==> o in StackView(db, caches) || o in caches[0].coins
    decreases |caches|, 0
  {
    hide Listed, CacheOk, SameViews;
    var top, rest := caches[0], caches[1..];
    assert caches == [top] + rest;
    SameAll(db, caches);
    if o in top.coins { return caches, true; }
    var rest', coin := GetCoinAt(db, rest, o, orders[1..]);
    SameTop(db, rest, rest');
    ghost var base := StackView(db, rest);
    if coin.Some? {
      StackUnspent(db, rest, orders[1..]);
      if IsSpent(coin.value) {
        assert false;
      }
      var top' := Enter(top, o, coin.value, orders[0], base);
      SameViewsBelow(db, top, top', rest, rest');
      caches', found := [top'] + rest', true;
      Restacked(db, top', rest', orders);
    } else {
      SameViewsBelow(db, top, top, rest, rest');
      caches', found := [top] + rest', false;
      Restacked(db, top, rest', orders);
    }
  }

  lemma Restacked(db: Flat, top: Cache, rest: seq<Cache>, orders: seq<seq<OutPoint>>)
    requires |orders| == |rest| + 1 && Listed(top, orders[0]) && CacheOk(top, StackView(db, rest))
    requires StackOk(db, rest, orders[1..])
    ensures StackOk(db, [top] + rest, orders) && StackView(db, [top] + rest) == View(top, StackView(db, rest))
  {
    assert ([top] + rest)[1..] == rest;
  }

  // ----- writing to the database

  /** Write the flagged entries of `child` to the database. */
  method BatchWriteDb(db: Flat, child: Cache, willErase: bool, ghost order: seq<OutPoint>)
    returns (db': Flat, cc: Cache)
    requires Listed(child, order) && CacheOk(child, db)
    ensures db' == View(child, db) && AllUnspent(db')
    ensures if willErase then cc == child else Visited(child, cc, order) && Listed(cc, [])
  {
    hide Listed, CacheOk, View, Written, Visited, Erased, Effect;
    db', cc := db, child;
    ghost var k := 0;
    WrittenNothing(db, child);
    StartCursor(child, order);
    assert order[..0] == [] && order[0..] == order;
    var at := child.first;
    while at.At?
      invariant 0 <= k <= |order| && at == LinkAt(order, k) && Listed(cc, Left(order, k, willErase))
      invariant if willErase then cc == child else Visited(child, cc, order[..k])
      invariant db' == Written(db, child, order[..k])
      decreases |order| - k
    {
      var o := at.o;
      CursorEntry(child, cc, order, k, willErase, db);
      if cc.coins[o].isDirty {
        if IsSpent(cc.coins[o].coin) {
          db' := map x | x in db' && x != o :: db'[x];
        } else {
          db' := db'[o := cc.coins[o].coin];
        }
      }
      WrittenOne(db, child, order[..k], o);
      ghost var before := cc;
      ghost var rest;
      cc, at, rest := NextAndMaybeErase(cc, o, willErase, Left(order, k, willErase), if willErase then k else 0);
      assert order[..k + 1] == order[..k] + [o];
      if !willErase { VisitedNext(child, before, cc, order[..k], o); }
      k := k + 1;
    }
    assert order[..k] == order && order[k..] == [];
    WrittenAll(db, child, order);
    ViewUnspent(child, db);
  }

  /** What is left of the child after a cursor that did not erase agrees with what was written. */
  lemma SyncedOk(child: Cache, cc: Cache, order: seq<OutPoint>, f: Flat)
    requires Listed(child, order) && CacheOk(child, f) && Visited(child, cc, order)
    ensures CacheOk(cc, View(child, f)) && View(cc, View(child, f)) == View(child, f)
  {
    ViewUnspent(child, f);
    forall o | o in child.coins
      ensures EntryOk(child.coins[o], f, o) && (o in order <==> Flagged(child.coins[o]))
    {
      InList(child, order, o);
    }
    hide Listed;
    var g := View(child, f);
    forall o | o in cc.coins ensures EntryOk(cc.coins[o], g, o) && g[o] == cc.coins[o].coin { }
  }

  lemma EmptyCache(f: Flat, h: nat)
    requires AllUnspent(f)
    ensures var c := EMPTY_CACHE.(hashBlock := h); Listed(c, []) && CacheOk(c, f) && View(c, f) == f
  {
  }

  // ----- the stack

  class CoinsStack {
    var db: Flat
    var caches: seq<Cache>            // from the top down
    ghost var orders: seq<seq<OutPoint>>

    ghost predicate Valid()
      reads this
    {
      StackOk(db, caches, orders)
    }

    /** The unspent coins that the level `i` from the top stands for. */
    ghost function ViewAt(i: nat): Flat
      requires i <= |caches|
      reads this
    {
      StackView(db, caches[i..])
    }

    constructor (db: Flat)
      requires AllUnspent(db)
      ensures Valid() && caches == [] && this.db == db
    {
      this.db, caches, orders := db, [], [];
    }

    /** A new cache on top. */
    method Push()
      requires Valid()
      modifies this
      ensures Valid() && db == old(db) && |caches| == old(|caches|) + 1 && caches[1..] == old(caches)
      ensures ViewAt(0) == old(ViewAt(0))
    {
      StackUnspent(db, caches, orders);
      EmptyCache(StackView(db, caches), 0);
      assert caches[0..] == caches;
      caches, orders := [EMPTY_CACHE] + caches, [[]] + orders;
      assert caches[1..] == old(caches) && orders[1..] == old(orders) && caches[0..] == caches;
    }

    /** Forget the topmost cache. */
    method Pop()
      requires Valid() && caches != []
      modifies this
      ensures Valid() && db == old(db) && caches == old(caches[1..])
    {
      caches, orders := caches[1..], orders[1..];
    }

    method GetCoin(o: OutPoint) returns (coin: Option<Coin>)
      requires Valid()
      modifies this`caches
      ensures Valid() && SameViews(db, old(caches), caches)
      ensures coin == if o in old(ViewAt(0)) then Some(old(ViewAt(0))[o]) else None
    {
      assert caches[0..] == caches;
      caches, coin := GetCoinAt(db, caches, o, orders);
    }

    /** Add a coin to the topmost cache. The stack stays right exactly if the coin may be added there. */
    method AddCoin(o: OutPoint, coin: Coin, possibleOverwrite: bool) returns (threw: bool)
      requires Valid() && caches != [] && !IsSpent(coin)
      modifies this
      ensures db == old(db) && |caches| == old(|caches|) && caches[1..] == old(caches[1..])
      ensures Valid() <==> old(MayAdd(caches[0], ViewAt(1), o, coin, possibleOverwrite))
      ensures threw <==> !IsUnspendable(coin.script) && !possibleOverwrite && o in old(caches[0].coins) &&
                         !IsSpent(old(caches[0].coins)[o].coin)
      ensures ViewAt(0) == if threw || IsUnspendable(coin.script) then old(ViewAt(0)) else old(ViewAt(0))[o := coin]
    {
      hide Listed, CacheOk, View, MayAdd;
      assert caches[0..] == caches;
      ghost var base := StackView(db, caches[1..]);
      var t, top, order := CoinsCache.AddCoin(caches[0], o, coin, possibleOverwrite, orders[0], base);
      threw := t;
      caches, orders := [top] + caches[1..], [order] + orders[1..];
      assert caches[1..] == old(caches[1..]) && orders[1..] == old(orders[1..]) && caches[0..] == caches;
    }

    /** Spend a coin, and give it out.  The result is also true for a coin that the topmost cache has as
        spent already. */
    method SpendCoin(o: OutPoint) returns (known: bool, moveout: Coin)
      requires Valid() && caches != []
      modifies this
      ensures Valid() && db == old(db) && |caches| == old(|caches|)
      ensures ViewAt(0) == old(ViewAt(0)) - {o} && (known <==> o in old(ViewAt(0)) || o in old(caches[0].coins))
      ensures o in old(ViewAt(0)) ==> moveout == old(ViewAt(0))[o]
      ensures forall i :: 1 <= i <= |caches| ==> ViewAt(i) == old(ViewAt(i))
    {
      hide Listed, CacheOk, View, SameViews;
      assert caches[0..] == caches;
      ghost var before := caches;
      var fetched, found := FetchCoin(db, caches, o, orders);
      SameTop(db, caches, fetched);
      assert fetched[0..] == fetched;
      AbsentKept(StackView(db, caches), o);
      if !found {
        caches := fetched;
        LowerViews(db, before, caches);
        return false, CLEARED;
      }
      ghost var base := StackView(db, fetched[1..]);
      moveout := fetched[0].coins[o].coin;
      EntryShows(fetched[0], base, o);
      var top, order := SpendEntry(fetched[0], o, orders[0], base);
      caches, orders := [top] + fetched[1..], [order] + orders[1..];
      assert caches[1..] == fetched[1..] && orders[1..] == old(orders[1..]) && caches[0..] == caches;
      LowerViews(db, before, fetched);
      forall i | 1 <= i <= |caches| ensures caches[i..] == fetched[i..] { }
      known := true;
    }

    method Uncache(o: OutPoint)
      requires Valid() && caches != []
      modifies this`caches
      ensures Valid() && SameViews(db, old(caches), caches) && caches[1..] == old(caches[1..])
      ensures o in caches[0].coins ==> Flagged(caches[0].coins[o])
    {
      hide Listed, CacheOk, View, SameViews;
      ghost var base := StackView(db, caches[1..]);
      var top := CoinsCache.Uncache(caches[0], o, orders[0], base);
      SameAll(db, caches[1..]);
      SameViewsBelow(db, caches[0], top, caches[1..], caches[1..]);
      assert [caches[0]] + caches[1..] == caches;
      caches := [top] + caches[1..];
      assert caches[1..] == old(caches[1..]);
    }

    /** Push the modifications of the topmost cache to the level below, and either wipe it (`Flush`), or
        keep its unspent coins (`Sync`).  The level below then stands for what the top stands for, which
        does not change, and neither does anything further down. */
    method Write(wipe: bool)
      requires Valid() && caches != [] && (|caches| == 1 ==> caches[0].hashBlock != 0)
      modifies this
      ensures Valid() && |caches| == old(|caches|)
      ensures ViewAt(0) == old(ViewAt(0)) && ViewAt(1) == old(ViewAt(0))
      ensures forall i :: 2 <= i <= |caches| ==> ViewAt(i) == old(ViewAt(i))
      ensures orders[0] == [] && (wipe ==> caches[0].coins == map[])
      ensures |caches| > 1 ==> caches[1].hashBlock == old(caches[0].hashBlock)
      ensures caches[0].hashBlock == old(caches[0].hashBlock)
    {
      hide Listed, CacheOk, View, Visited;
      assert caches[0..] == caches;
      var top := caches[0];
      ghost var order, f, v := orders[0], StackView(db, caches[1..]), StackView(db, caches);
      StackUnspent(db, caches, orders);
      EmptyCache(v, top.hashBlock);
      if |caches| == 1 {
        assert caches[1..] == [];
        var db', cc := BatchWriteDb(db, top, wipe, order);
        if !wipe { SyncedOk(top, cc, order, f); VisitedBlock(top, cc, order); }
        var left := if wipe then EMPTY_CACHE.(hashBlock := top.hashBlock) else cc;
        Single(db', left, []);
        db, caches, orders := db', [left], [[]];
        assert caches[1..] == [] && caches[0..] == caches;
      } else {
        ghost var base := StackView(db, caches[2..]);
        SecondLevel(db, caches, orders);
        var p, cc, porder := BatchWrite(caches[1], top, top.hashBlock, wipe, orders[1], order, base);
        if !wipe { SyncedOk(top, cc, order, f); VisitedBlock(top, cc, order); }
        var left := if wipe then EMPTY_CACHE.(hashBlock := top.hashBlock) else cc;
        assert ([[], porder] + orders[2..])[2..] == orders[2..];
        Stacked(db, left, p, caches[2..], [[], porder] + orders[2..]);
        caches, orders := [left, p] + caches[2..], [[], porder] + orders[2..];
        assert caches[0..] == caches && caches[1..] == [p] + caches[2..];
        forall i | 2 <= i <= |caches| ensures caches[i..] == old(caches)[i..] { }
      }
    }

    method Flush()
      requires Valid() && caches != [] && (|caches| == 1 ==> caches[0].hashBlock != 0)
      modifies this
      ensures Valid() && |caches| == old(|caches|) && caches[0].coins == map[]
      ensures ViewAt(0) == old(ViewAt(0)) && ViewAt(1) == old(ViewAt(0))
      ensures forall i :: 2 <= i <= |caches| ==> ViewAt(i) == old(ViewAt(i))
    {
      Write(true);
    }

    /** After writing, no flagged entry may be left; the program throws if one is, which cannot happen. */
    method Sync()
      requires Valid() && caches != [] && (|caches| == 1 ==> caches[0].hashBlock != 0)
      modifies this
      ensures Valid() && |caches| == old(|caches|)
      ensures ViewAt(0) == old(ViewAt(0)) && ViewAt(1) == old(ViewAt(0))
      ensures forall i :: 2 <= i <= |caches| ==> ViewAt(i) == old(ViewAt(i))
      ensures forall o :: o in caches[0].coins ==> !Flagged(caches[0].coins[o]) && !IsSpent(caches[0].coins[o].coin)
    {
      Write(false);
      if caches[0].first != Sentinel {
        assert false;
      }
      NoFlags(caches[0], StackView(db, caches[1..]));
    }
  }

  lemma EntryShows(c: Cache, base: Flat, o: OutPoint)
    requires o in c.coins
    ensures o in View(c, base) ==> View(c, base)[o] == c.coins[o].coin
  {
  }

  lemma NoFlags(c: Cache, base: Flat)
    requires Listed(c, []) && CacheOk(c, base)
    ensures forall o :: o in c.coins ==> !Flagged(c.coins[o]) && !IsSpent(c.coins[o].coin)
  {
    forall o | o in c.coins ensures !Flagged(c.coins[o]) && !IsSpent(c.coins[o].coin) {
      assert Unlinked(c, o) && EntryOk(c.coins[o], base, o);
    }
  }

  lemma VisitedBlock(child: Cache, cc: Cache, done: seq<OutPoint>)
    requires Visited(child, cc, done)
    ensures cc.hashBlock == child.hashBlock
  {
  }

  lemma AbsentKept(f: Flat, o: OutPoint)
    ensures o !in f ==> f - {o} == f
  {
  }

  lemma LowerViews(db: Flat, caches: seq<Cache>, caches': seq<Cache>)
    requires SameViews(db, caches, caches')
    ensures forall i :: 1 <= i <= |caches| ==>
              i <= |caches'| && StackView(db, caches'[i..]) == StackView(db, caches[i..])
  {
  }

  lemma Single(db: Flat, c: Cache, order: seq<OutPoint>)
    requires AllUnspent(db) && Listed(c, order) && CacheOk(c, db)
    ensures StackOk(db, [c], [order]) && StackView(db, [c]) == View(c, db) && StackView(db, []) == db
  {
    hide Listed, CacheOk, View;
    assert [c][1..] == [] && [order][1..] == [];
  }

  lemma SecondLevel(db: Flat, caches: seq<Cache>, orders: seq<seq<OutPoint>>)
    requires StackOk(db, caches, orders) && |caches| >= 2
    ensures Listed(caches[1], orders[1]) && CacheOk(caches[1], StackView(db, caches[2..]))
    ensures StackOk(db, caches[2..], orders[2..])
    ensures StackView(db, caches[1..]) == View(caches[1], StackView(db, caches[2..]))
  {
    hide Listed, CacheOk, View;
    assert caches[1..][1..] == caches[2..] && caches[1..][0] == caches[1] && orders[1..][1..] == orders[2..] &&
           orders[1..][0] == orders[1];
    assert StackOk(db, caches[1..], orders[1..]);
  }

  lemma Stacked(db: Flat, top: Cache, p: Cache, rest: seq<Cache>, orders: seq<seq<OutPoint>>)
    requires |orders| == |rest| + 2 && Listed(top, orders[0]) && Listed(p, orders[1]) && StackOk(db, rest, orders[2..])
    requires CacheOk(p, StackView(db, rest)) && CacheOk(top, View(p, StackView(db, rest)))
    ensures StackOk(db, [top, p] + rest, orders)
    ensures StackView(db, [p] + rest) == View(p, StackView(db, rest))
    ensures StackView(db, [top, p] + rest) == View(top, View(p, StackView(db, rest)))
  {
    assert orders[1..][1..] == orders[2..] && orders[1..][0] == orders[1];
    Restacked(db, p, rest, orders[1..]);
    assert [top, p] + rest == [top] + ([p] + rest);
    Restacked(db, top, [p] + rest, orders);
  }

  // ----- the best block

  /** `GetBestBlock`: a cache without one asks the level below; 0 is the null hash. */
  function BestBlock(caches: seq<Cache>, dbBest: nat): nat {
    if caches == [] then dbBest else if caches[0].hashBlock != 0 then caches[0].hashBlock
                                     else BestBlock(caches[1..], dbBest)
  }

  /** Flushing gives the level below the best block of the flushed cache exactly when that cache had
      asked for it or been given one, or the level below had none of its own to lose. */
  lemma FlushedBestBlock(child: Cache, parent: Cache, rest: seq<Cache>, dbBest: nat)
    ensures BestBlock([parent.(hashBlock := child.hashBlock)] + rest, dbBest) ==
              BestBlock([child, parent] + rest, dbBest) <==>
            child.hashBlock != 0 || parent.hashBlock == 0 || parent.hashBlock == BestBlock(rest, dbBest)
  {
    assert ([parent.(hashBlock := child.hashBlock)] + rest)[1..] == rest;
    assert ([child, parent] + rest)[1..] == [parent] + rest && ([parent] + rest)[1..] == rest;
  }

  /** A cache without a best block on one that has block 1, over a database at block 2: after the flush the
      best block is 2 again. */
  lemma FlushLosesBestBlock()
    ensures var child, parent := Cache(map[], Sentinel, Sentinel, 0), Cache(map[], Sentinel, Sentinel, 1);
            && BestBlock([child, parent], 2) == BestBlock([parent], 2) == 1
            && BestBlock([parent.(hashBlock := child.hashBlock)], 2) == 2
  {
    var child, parent := Cache(map[], Sentinel, Sentinel, 0), Cache(map[], Sentinel, Sentinel, 1);
    assert [child, parent][1..] == [parent];
    FlushedBestBlock(child, parent, [], 2);
  }
}
