/** One level of the coins cache and its list of flagged entries (src/coins.h). */
module CoinsList {

  /** A transaction output; `Clear` makes the value -1, which is what being spent means. */
  datatype Coin = Coin(value: int, script: seq<nat>, height: nat, coinbase: bool)

  const CLEARED := Coin(-1, [], 0, false)

  predicate IsSpent(c: Coin) { c.value == -1 }

  const OP_RETURN := 0x6a
  const MAX_SCRIPT_SIZE := 65536

  predicate IsUnspendable(script: seq<nat>) {
    (|script| > 0 && script[0] == OP_RETURN) || |script| > MAX_SCRIPT_SIZE
  }

  type OutPoint = nat

  datatype Link = Null | Sentinel | At(o: OutPoint)

  datatype Entry = Entry(coin: Coin, isDirty: bool, isFresh: bool, prev: Link, next: Link)

  /** The cached coins, and the links of the sentinel. */
  datatype Cache = Cache(coins: map<OutPoint, Entry>, first: Link, last: Link, hashBlock: nat)

  predicate Flagged(e: Entry) { e.isDirty || e.isFresh }

  function LinkAt(order: seq<OutPoint>, i: int): Link {
    if 0 <= i < |order| then At(order[i]) else Sentinel
  }

  ghost predicate Distinct(order: seq<OutPoint>) { forall a, b :: 0 <= a < b < |order| ==> order[a] != order[b] }

  ghost predicate LinkedAt(c: Cache, order: seq<OutPoint>, i: nat) {
    && i < |order| && order[i] in c.coins && Flagged(c.coins[order[i]])
    && c.coins[order[i]].prev == LinkAt(order, i - 1) && c.coins[order[i]].next == LinkAt(order, i + 1)
  }

  /** An entry that is not in the list has no flags and no links. */
  ghost predicate Unlinked(c: Cache, o: OutPoint) {
    o in c.coins ==> !Flagged(c.coins[o]) && c.coins[o].prev == Null && c.coins[o].next == Null
  }

  /** The doubly linked list from the sentinel holds exactly the flagged entries, in this order. */
  ghost predicate Listed(c: Cache, order: seq<OutPoint>) {
    && Distinct(order) && c.first == LinkAt(order, 0) && c.last == LinkAt(order, |order| - 1)
    && (forall i :: 0 <= i < |order| ==> LinkedAt(c, order, i))
    && (forall o: OutPoint :: o !in order ==> Unlinked(c, o))
  }

  function SetNext(c: Cache, at: Link, to: Link): Cache {
    match at
    case Null => c
    case Sentinel => c.(first := to)
    case At(o) => if o in c.coins then c.(coins := c.coins[o := c.coins[o].(next := to)]) else c
  }

  function SetPrev(c: Cache, at: Link, to: Link): Cache {
    match at
    case Null => c
    case Sentinel => c.(last := to)
    case At(o) => if o in c.coins then c.(coins := c.coins[o := c.coins[o].(prev := to)]) else c
  }

  /** Flag an entry, appending it to the list if it had no flags. */
  function AddFlags(c: Cache, o: OutPoint, isDirty: bool, isFresh: bool): Cache
    requires o in c.coins
  {
    var e := c.coins[o];
    var c1 := if Flagged(e) then c else
      var last := c.last;
      var linked := c.(coins := c.coins[o := e.(prev := last, next := Sentinel)], last := At(o));
      SetNext(linked, last, At(o));
    var e1 := c1.coins[o];
    c1.(coins := c1.coins[o := e1.(isDirty := e1.isDirty || isDirty, isFresh := e1.isFresh || isFresh)])
  }

  /** Remove the flags of an entry, taking it out of the list if it had any. */
  function SetClean(c: Cache, o: OutPoint): Cache
    requires o in c.coins
  {
    var e := c.coins[o];
    if !Flagged(e) then c else
      var c1 := SetPrev(c, e.next, e.prev);
      var c2 := SetNext(c1, e.prev, e.next);
      if o in c2.coins then
        c2.(coins := c2.coins[o := c2.coins[o].(isDirty := false, isFresh := false, prev := Null, next := Null)])
      else c2
  }

  /** Remove an entry; its destructor takes it out of the list. */
  function Erase(c: Cache, o: OutPoint): Cache
    requires o in c.coins
  {
    var c1 := SetClean(c, o);
    c1.(coins := c1.coins - {o})
  }

  /** Everything but links, as the coins of a cache have it. */
  ghost predicate SameBut(c: Cache, d: Cache, o: OutPoint) {
    && d.coins.Keys == c.coins.Keys && d.hashBlock == c.hashBlock
    && forall x :: x in c.coins && x != o ==>
         d.coins[x].coin == c.coins[x].coin && d.coins[x].isDirty == c.coins[x].isDirty &&
         d.coins[x].isFresh == c.coins[x].isFresh
  }

  ghost predicate Effect(c: Cache, d: Cache, o: OutPoint, isDirty: bool, isFresh: bool) {
    && SameBut(c, d, o) && o in d.coins && o in c.coins && d.coins[o].coin == c.coins[o].coin
    && d.coins[o].isDirty == isDirty && d.coins[o].isFresh == isFresh
  }

  /** What flagging an entry without flags does to the entries. */
  lemma AddFlagsAt(c: Cache, o: OutPoint, isDirty: bool, isFresh: bool, x: OutPoint)
    requires o in c.coins && !Flagged(c.coins[o]) && x in c.coins && c.last != At(o)
    requires (c.last.At? ==> c.last.o in c.coins) && c.last != Null
    ensures var d := AddFlags(c, o, isDirty, isFresh);
            && d.coins.Keys == c.coins.Keys && d.hashBlock == c.hashBlock && d.last == At(o)
            && d.first == (if c.last == Sentinel then At(o) else c.first)
            && d.coins[o] == Entry(c.coins[o].coin, isDirty, isFresh, c.last, Sentinel)
            && (x != o ==> d.coins[x] == if c.last == At(x) then c.coins[x].(next := At(o)) else c.coins[x])
  {
  }

  lemma InList(c: Cache, order: seq<OutPoint>, o: OutPoint)
    requires Listed(c, order)
    ensures o in order <==> o in c.coins && Flagged(c.coins[o])
    ensures c.last != Null && c.first != Null && (c.last.At? ==> c.last.o in c.coins)
  {
    if o in order {
      var i :| 0 <= i < |order| && order[i] == o;
      assert LinkedAt(c, order, i);
    } else {
      assert Unlinked(c, o);
    }
    if order != [] { assert LinkedAt(c, order, |order| - 1); }
  }

  lemma AddFlagsLinks(c: Cache, o: OutPoint, isDirty: bool, isFresh: bool, order: seq<OutPoint>, i: nat)
    requires o in c.coins && !Flagged(c.coins[o]) && (isDirty || isFresh) && Listed(c, order) && i <= |order|
    ensures LinkedAt(AddFlags(c, o, isDirty, isFresh), order + [o], i)
  {
    hide AddFlags;
    InList(c, order, o);
    var order', n := order + [o], |order|;
    if i < n {
      assert LinkedAt(c, order, i) && order[i] in order;
      AddFlagsAt(c, o, isDirty, isFresh, order[i]);
    } else {
      AddFlagsAt(c, o, isDirty, isFresh, o);
    }
  }

  lemma AddFlagsEffect(c: Cache, o: OutPoint, isDirty: bool, isFresh: bool, order: seq<OutPoint>)
    requires o in c.coins && (isDirty || isFresh) && Listed(c, order)
    ensures Effect(c, AddFlags(c, o, isDirty, isFresh), o, c.coins[o].isDirty || isDirty, c.coins[o].isFresh || isFresh)
    ensures Listed(AddFlags(c, o, isDirty, isFresh), if o in order then order else order + [o])
  {
    InList(c, order, o);
    if o in order {
      Reflagged(c, o, isDirty, isFresh, order);
    } else {
      hide AddFlags, LinkedAt;
      var d, order' := AddFlags(c, o, isDirty, isFresh), order + [o];
      AddFlagsAt(c, o, isDirty, isFresh, o);
      forall i | 0 <= i < |order'| ensures LinkedAt(d, order', i) { AddFlagsLinks(c, o, isDirty, isFresh, order, i); }
      forall x | x in c.coins && x != o
        ensures d.coins[x].coin == c.coins[x].coin && d.coins[x].isDirty == c.coins[x].isDirty
        ensures d.coins[x].isFresh == c.coins[x].isFresh
      {
        AddFlagsAt(c, o, isDirty, isFresh, x);
      }
      forall x: OutPoint | x !in order' ensures Unlinked(d, x) {
        assert x !in order && Unlinked(c, x) && x != o by { assert order'[|order|] == o; }
        if x in c.coins {
          AddFlagsAt(c, o, isDirty, isFresh, x);
          if order != [] { assert order[|order| - 1] in order; }
        }
      }
    }
  }

  lemma Reflagged(c: Cache, o: OutPoint, isDirty: bool, isFresh: bool, order: seq<OutPoint>)
    requires o in c.coins && Flagged(c.coins[o]) && Listed(c, order)
    ensures Effect(c, AddFlags(c, o, isDirty, isFresh), o, c.coins[o].isDirty || isDirty, c.coins[o].isFresh || isFresh)
    ensures Listed(AddFlags(c, o, isDirty, isFresh), order)
  {
    var d := AddFlags(c, o, isDirty, isFresh);
    forall i | 0 <= i < |order| ensures LinkedAt(d, order, i) { assert LinkedAt(c, order, i); }
    forall x: OutPoint | x !in order ensures Unlinked(d, x) { assert Unlinked(c, x); }
  }

  ghost function Removed(order: seq<OutPoint>, k: nat): seq<OutPoint>
    requires k < |order|
  {
    order[..k] + order[k + 1..]
  }

  lemma RemovedAt(order: seq<OutPoint>, k: nat, i: int)
    requires k < |order| && -1 <= i < |order|
    ensures LinkAt(Removed(order, k), i) == LinkAt(order, if i < k then i else i + 1)
  {
  }

  lemma InRemoved(order: seq<OutPoint>, k: nat, x: OutPoint)
    requires k < |order| && Distinct(order)
    ensures x in Removed(order, k) <==> x in order && x != order[k]
  {
    var order' := Removed(order, k);
    if x in order && x != order[k] {
      var j :| 0 <= j < |order| && order[j] == x;
      assert order'[if j < k then j else j - 1] == x;
    }
    if x in order' {
      var i :| 0 <= i < |order'| && order'[i] == x;
      assert order[if i < k then i else i + 1] == x;
    }
  }

  ghost predicate GoodLink(c: Cache, l: Link, o: OutPoint) { l != Null && l != At(o) && (l.At? ==> l.o in c.coins) }

  /** What removing the flags of an entry does to the entries. */
  lemma SetCleanAt(c: Cache, o: OutPoint, x: OutPoint)
    requires o in c.coins && Flagged(c.coins[o]) && x in c.coins && GoodLink(c, c.coins[o].prev, o)
    requires GoodLink(c, c.coins[o].next, o)
    ensures var d, e := SetClean(c, o), c.coins[o];
            && d.coins.Keys == c.coins.Keys && d.hashBlock == c.hashBlock
            && d.first == (if e.prev == Sentinel then e.next else c.first)
            && d.last == (if e.next == Sentinel then e.prev else c.last)
            && d.coins[o] == Entry(e.coin, false, false, Null, Null)
            && (x != o ==> d.coins[x] == c.coins[x].(prev := if e.next == At(x) then e.prev else c.coins[x].prev,
                                                     next := if e.prev == At(x) then e.next else c.coins[x].next))
  {
  }

  lemma GoodLinks(c: Cache, order: seq<OutPoint>, k: nat)
    requires Listed(c, order) && k < |order|
    ensures LinkedAt(c, order, k) && GoodLink(c, c.coins[order[k]].prev, order[k])
    ensures GoodLink(c, c.coins[order[k]].next, order[k])
  {
    assert LinkedAt(c, order, k);
    if k > 0 { assert LinkedAt(c, order, k - 1); }
    if k + 1 < |order| { assert LinkedAt(c, order, k + 1); }
  }

  lemma SetCleanLinks(c: Cache, order: seq<OutPoint>, k: nat, i: nat)
    requires Listed(c, order) && k < |order| && order[k] in c.coins && i < |order| - 1
    ensures LinkedAt(SetClean(c, order[k]), Removed(order, k), i)
  {
    hide SetClean;
    GoodLinks(c, order, k);
    var j := if i < k then i else i + 1;
    assert LinkedAt(c, order, j);
    SetCleanAt(c, order[k], order[j]);
    assert Removed(order, k)[i] == order[j];
    RemovedAt(order, k, i - 1);
    RemovedAt(order, k, i + 1);
  }

  lemma SetCleanEffect(c: Cache, order: seq<OutPoint>, k: nat)
    requires Listed(c, order) && k < |order|
    ensures order[k] in c.coins && Effect(c, SetClean(c, order[k]), order[k], false, false)
    ensures Listed(SetClean(c, order[k]), Removed(order, k))
  {
    hide SetClean;
    GoodLinks(c, order, k);
    var o, order' := order[k], Removed(order, k);
    var d := SetClean(c, o);
    SetCleanAt(c, o, o);
    forall i | 0 <= i < |order'| ensures LinkedAt(d, order', i) { SetCleanLinks(c, order, k, i); }
    hide LinkedAt;
    forall x | x in c.coins && x != o
      ensures d.coins[x].coin == c.coins[x].coin && d.coins[x].isDirty == c.coins[x].isDirty
      ensures d.coins[x].isFresh == c.coins[x].isFresh
    {
      SetCleanAt(c, o, x);
    }
    forall x: OutPoint | x !in order' ensures Unlinked(d, x) {
      InRemoved(order, k, x);
      if x in c.coins && x != o { UnlinkedKept(c, order, k, x); }
    }
    RemovedAt(order, k, 0);
    RemovedAt(order, k, |order'| - 1);
  }

  lemma UnlinkedKept(c: Cache, order: seq<OutPoint>, k: nat, x: OutPoint)
    requires Listed(c, order) && k < |order| && x !in order && order[k] in c.coins
    ensures Unlinked(SetClean(c, order[k]), x)
  {
    hide SetClean;
    GoodLinks(c, order, k);
    assert Unlinked(c, x);
    if x in c.coins {
      SetCleanAt(c, order[k], x);
      if k > 0 { assert order[k - 1] in order; }
      if k + 1 < |order| { assert order[k + 1] in order; }
    } else {
      SetCleanAt(c, order[k], order[k]);
    }
  }

  /** The entries of a cache without `o`, whose list is without it, too. */
  ghost predicate Erased(c: Cache, d: Cache, o: OutPoint) {
    && d.coins.Keys == c.coins.Keys - {o} && d.hashBlock == c.hashBlock
    && forall x :: x in d.coins ==>
         d.coins[x].coin == c.coins[x].coin && d.coins[x].isDirty == c.coins[x].isDirty &&
         d.coins[x].isFresh == c.coins[x].isFresh
  }

  lemma EraseEffect(c: Cache, o: OutPoint, order: seq<OutPoint>) returns (order': seq<OutPoint>)
    requires Listed(c, order) && o in c.coins
    ensures Erased(c, Erase(c, o), o) && Listed(Erase(c, o), order')
    ensures o !in order ==> order' == order
    ensures forall k :: 0 <= k < |order| && order[k] == o ==> order' == Removed(order, k)
  {
    if o in order {
      var k :| 0 <= k < |order| && order[k] == o;
      SetCleanEffect(c, order, k);
      order' := Removed(order, k);
      InRemoved(order, k, o);
      hide SetClean;
      StillListed(SetClean(c, o), o, order');
    } else {
      order' := order;
      InList(c, order, o);
      StillListed(c, o, order);
    }
  }

  lemma StillListed(c: Cache, o: OutPoint, order: seq<OutPoint>)
    requires Listed(c, order) && o !in order
    ensures Listed(c.(coins := c.coins - {o}), order)
  {
    var d := c.(coins := c.coins - {o});
    forall i | 0 <= i < |order| ensures LinkedAt(d, order, i) { assert LinkedAt(c, order, i) && order[i] in order; }
    forall x: OutPoint | x !in order ensures Unlinked(d, x) { assert Unlinked(c, x); }
  }
}
