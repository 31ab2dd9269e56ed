/** What a coins cache stands for on top of another view, and the operations that keep this
    (src/coins.cpp). */
module CoinsCache {
  import opened CoinsList

  /** The unspent coins of a view. */
  type Flat = map<OutPoint, Coin>

  ghost predicate AllUnspent(f: Flat) { forall o :: o in f ==> !IsSpent(f[o]) }

  /** The cached coins hide those of the base. */
  ghost function View(c: Cache, base: Flat): Flat {
    map o | o in c.coins.Keys + base.Keys && (o in c.coins ==> !IsSpent(c.coins[o].coin)) ::
      if o in c.coins then c.coins[o].coin else base[o]
  }

  /** The combinations of flags that `SanityCheck` allows. */
  predicate Combination(e: Entry) {
    && !(e.isFresh && !e.isDirty && !IsSpent(e.coin))
    && !(IsSpent(e.coin) && !e.isDirty && !e.isFresh)
    && !(e.isDirty && e.isFresh && IsSpent(e.coin))
  }

  ghost predicate Agrees(coin: Coin, base: Flat, o: OutPoint) {
    if IsSpent(coin) then o !in base else o in base && base[o] == coin
  }

  /** FRESH means that the base lacks the coin, not DIRTY that the base agrees. */
  ghost predicate EntryOk(e: Entry, base: Flat, o: OutPoint) {
    && Combination(e) && (e.isFresh ==> o !in base) && (!e.isDirty ==> Agrees(e.coin, base, o))
  }

  ghost predicate CacheOk(c: Cache, base: Flat) {
    && AllUnspent(base) && forall o :: o in c.coins ==> EntryOk(c.coins[o], base, o)
  }

  /** Flags and coin of one entry changed, nothing else. */
  lemma OneChanged(c: Cache, d: Cache, base: Flat, o: OutPoint)
    requires CacheOk(c, base) && d.coins.Keys == c.coins.Keys + {o} && EntryOk(d.coins[o], base, o)
    requires forall x :: x in c.coins && x != o ==>
      d.coins[x].coin == c.coins[x].coin && d.coins[x].isDirty == c.coins[x].isDirty &&
      d.coins[x].isFresh == c.coins[x].isFresh
    ensures CacheOk(d, base)
    ensures View(d, base) == if IsSpent(d.coins[o].coin) then View(c, base) - {o}
                             else View(c, base)[o := d.coins[o].coin]
  {
    forall x | x in d.coins ensures EntryOk(d.coins[x], base, x) {
      if x != o { assert EntryOk(c.coins[x], base, x); }
    }
    hide CacheOk, EntryOk, AllUnspent;
    var v, w := View(d, base), if IsSpent(d.coins[o].coin) then View(c, base) - {o}
                               else View(c, base)[o := d.coins[o].coin];
    forall x ensures x in v <==> x in w { }
    forall x | x in v ensures v[x] == w[x] { }
  }

  lemma OneErased(c: Cache, d: Cache, base: Flat, o: OutPoint)
    requires CacheOk(c, base) && Erased(c, d, o) && o in c.coins
    ensures CacheOk(d, base)
    ensures View(d, base) == if o in base then View(c, base)[o := base[o]] else View(c, base) - {o}
  {
    forall x | x in d.coins ensures EntryOk(d.coins[x], base, x) { assert EntryOk(c.coins[x], base, x); }
  }

  /** Put an entry without flags in the cache, or change the coin of an entry. */
  lemma PutListed(c: Cache, o: OutPoint, coin: Coin, order: seq<OutPoint>)
    requires Listed(c, order)
    ensures Listed(Put(c, o, coin), order)
  {
    var d := Put(c, o, coin);
    InList(c, order, o);
    forall i | 0 <= i < |order| ensures LinkedAt(d, order, i) { assert LinkedAt(c, order, i); }
    forall x: OutPoint | x !in order ensures Unlinked(d, x) { assert Unlinked(c, x); }
  }

  function Put(c: Cache, o: OutPoint, coin: Coin): Cache {
    c.(coins := c.coins[o := if o in c.coins then c.coins[o].(coin := coin) else Entry(coin, false, false, Null, Null)])
  }

  /** Enter a coin that was found in the base. */
  method Enter(c: Cache, o: OutPoint, coin: Coin, ghost order: seq<OutPoint>, ghost base: Flat) returns (d: Cache)
    requires Listed(c, order) && CacheOk(c, base) && o !in c.coins && o in base && base[o] == coin
    ensures Listed(d, order) && CacheOk(d, base) && View(d, base) == View(c, base) && d.hashBlock == c.hashBlock
    ensures d.coins == c.coins[o := Entry(coin, false, false, Null, Null)]
  {
    PutListed(c, o, coin, order);
    d := Put(c, o, coin);
    OneChanged(c, d, base, o);
  }

  /** When a coin may be added: with `possibleOverwrite`; without it, if the view has no unspent coin there,
      or the cache itself has one, so that adding throws. Unspendable coins are never added. */
  ghost predicate MayAdd(c: Cache, base: Flat, o: OutPoint, coin: Coin, possibleOverwrite: bool) {
    || possibleOverwrite || IsUnspendable(coin.script) || o !in View(c, base) ||
    (o in c.coins && !IsSpent(c.coins[o].coin))
  }

  /** Add a coin. The view changes as it should in any case; the flags are right afterwards exactly if the
      coin may be added. */
  method AddCoin(c: Cache, o: OutPoint, coin: Coin, possibleOverwrite: bool, ghost order: seq<OutPoint>,
                 ghost base: Flat)
    returns (threw: bool, d: Cache, ghost order': seq<OutPoint>)
    requires Listed(c, order) && CacheOk(c, base) && !IsSpent(coin)
    ensures threw <==> !IsUnspendable(coin.script) && !possibleOverwrite && o in c.coins && !IsSpent(c.coins[o].coin)
    ensures Listed(d, order') && d.hashBlock == c.hashBlock
    ensures CacheOk(d, base) <==> MayAdd(c, base, o, coin, possibleOverwrite)
    ensures View(d, base) == if threw || IsUnspendable(coin.script) then View(c, base) else View(c, base)[o := coin]
  {
    threw, d, order' := false, c, order;
    if IsUnspendable(coin.script) { return; }
    var isFresh := false;
    if !possibleOverwrite {
      if o in c.coins && !IsSpent(c.coins[o].coin) { return true, c, order; }
      isFresh := o !in c.coins || !c.coins[o].isDirty;
    }
    PutListed(c, o, coin, order);
    var p := Put(c, o, coin);
    AddFlagsEffect(p, o, true, false, order);
    InList(p, order, o);
    var q := AddFlags(p, o, true, false);
    ghost var order1 := if o in order then order else order + [o];
    if isFresh {
      AddFlagsEffect(q, o, false, true, order1);
      d, order' := AddFlags(q, o, false, true), order1;
      InList(q, order1, o);
    } else {
      d, order' := q, order1;
    }
    AddedOk(c, p, q, d, base, o, coin, isFresh);
    FreshIsSafe(c, base, o, coin, possibleOverwrite, isFresh);
  }

  lemma AddedOk(c: Cache, p: Cache, q: Cache, d: Cache, base: Flat, o: OutPoint, coin: Coin, isFresh: bool)
    requires CacheOk(c, base) && !IsSpent(coin) && p == Put(c, o, coin) && Effect(p, q, o, true, p.coins[o].isFresh)
    requires if isFresh then Effect(q, d, o, true, true) else d == q
    ensures CacheOk(d, base) <==> !(isFresh && o in base)
    ensures View(d, base) == View(c, base)[o := coin] && d.hashBlock == c.hashBlock
  {
    if o in c.coins { assert EntryOk(c.coins[o], base, o); }
    assert o in d.coins && d.coins[o].coin == coin && (isFresh ==> d.coins[o].isFresh);
    AddedView(c, d, base, o);
    if isFresh && o in base {
      assert !EntryOk(d.coins[o], base, o);
    } else {
      OneChanged(c, d, base, o);
    }
  }

  lemma AddedView(c: Cache, d: Cache, base: Flat, o: OutPoint)
    requires d.coins.Keys == c.coins.Keys + {o} && !IsSpent(d.coins[o].coin)
    requires forall x :: x in c.coins && x != o ==> d.coins[x].coin == c.coins[x].coin
    ensures View(d, base) == View(c, base)[o := d.coins[o].coin]
  {
    var v, w := View(d, base), View(c, base)[o := d.coins[o].coin];
    forall x ensures x in v <==> x in w { }
    forall x | x in v ensures v[x] == w[x] { }
  }

  /** FRESH is set although the base has the coin exactly where it may not be added. */
  lemma FreshIsSafe(c: Cache, base: Flat, o: OutPoint, coin: Coin, possibleOverwrite: bool, isFresh: bool)
    requires CacheOk(c, base) && !IsUnspendable(coin.script)
    requires possibleOverwrite || o !in c.coins || IsSpent(c.coins[o].coin)
    requires isFresh <==> !possibleOverwrite && (o !in c.coins || !c.coins[o].isDirty)
    ensures MayAdd(c, base, o, coin, possibleOverwrite) <==> !(isFresh && o in base)
  {
    if o in c.coins { assert EntryOk(c.coins[o], base, o); }
  }

  /** Where the base has a coin that the cache does not know of, adding without overwriting marks it as
      FRESH. Spending it then forgets it, so that the coin of the base is there again. */
  lemma FreshMisapplied(o: OutPoint, coin: Coin, below: Coin)
    requires !IsSpent(coin) && !IsSpent(below) && !IsUnspendable(coin.script)
    ensures var c, base := Cache(map[], Sentinel, Sentinel, 0), map[o := below];
            && CacheOk(c, base) && !MayAdd(c, base, o, coin, false)
            && var p := Put(c, o, coin);
               var q := AddFlags(p, o, true, false);
               var d := AddFlags(q, o, false, true);
               !CacheOk(d, base) && d.coins[o].isFresh && o in View(Erase(d, o), base)
  {
    var c, base := Cache(map[], Sentinel, Sentinel, 0), map[o := below];
    var p := Put(c, o, coin);
    PutListed(c, o, coin, []);
    AddFlagsEffect(p, o, true, false, []);
    var q := AddFlags(p, o, true, false);
    AddFlagsEffect(q, o, false, true, [o]);
    var d := AddFlags(q, o, false, true);
    assert !EntryOk(d.coins[o], base, o);
    var order := EraseEffect(d, o, [o]);
    assert Erase(d, o).coins == map[];
  }

  /** Spend the coin of an entry: erase it if the base lacks it, and keep it as spent otherwise. */
  method SpendEntry(c: Cache, o: OutPoint, ghost order: seq<OutPoint>, ghost base: Flat)
    returns (d: Cache, ghost order': seq<OutPoint>)
    requires Listed(c, order) && CacheOk(c, base) && o in c.coins
    ensures Listed(d, order') && CacheOk(d, base) && View(d, base) == View(c, base) - {o} && d.hashBlock == c.hashBlock
  {
    assert EntryOk(c.coins[o], base, o);
    if c.coins[o].isFresh {
      order' := EraseEffect(c, o, order);
      d := Erase(c, o);
      OneErased(c, d, base, o);
    } else {
      AddFlagsEffect(c, o, true, false, order);
      var p := AddFlags(c, o, true, false);
      order' := if o in order then order else order + [o];
      PutListed(p, o, CLEARED, order');
      d := Put(p, o, CLEARED);
      OneChanged(c, d, base, o);
    }
  }

  /** Drop an entry that is not modified. */
  method Uncache(c: Cache, o: OutPoint, ghost order: seq<OutPoint>, ghost base: Flat) returns (d: Cache)
    requires Listed(c, order) && CacheOk(c, base)
    ensures Listed(d, order) && CacheOk(d, base) && View(d, base) == View(c, base) && d.hashBlock == c.hashBlock
    ensures o in d.coins ==> Flagged(d.coins[o])
  {
    d := c;
    if o in c.coins && !c.coins[o].isDirty && !c.coins[o].isFresh {
      assert EntryOk(c.coins[o], base, o);
      InList(c, order, o);
      ghost var order' := EraseEffect(c, o, order);
      d := Erase(c, o);
      OneErased(c, d, base, o);
    }
  }
}
