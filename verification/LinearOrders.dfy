/** Greedy topological orders.

    The order in which `GetLinearization` (src/cluster_linearize.h) emits chunks, and transactions
    within a chunk: always the first, by feerate, size and fallback order, of those whose
    dependencies have been emitted. */
module LinearOrders {
  import opened FeeFracs
  import opened Totals
  import opened Families

  /** What chunks and transactions are compared by; `rank` is the position in the fallback order. */
  datatype Key = Key(rate: FeeFrac, rank: int)

  /** Higher feerate first, then smaller size, then lower rank. */
  predicate Before(a: Key, b: Key) {
    || Lower(b.rate, a.rate)
    || (!Lower(a.rate, b.rate) && (a.rate.size < b.rate.size || (a.rate.size == b.rate.size && a.rank < b.rank)))
  }

  lemma BeforeTransitive(a: Key, b: Key, c: Key)
    requires a.rate.size > 0 && b.rate.size > 0 && c.rate.size > 0 && Before(a, b) && Before(b, c)
    ensures Before(a, c)
  {
    RatioTransitive(c.rate, b.rate, a.rate);
  }

  ghost function Elems(s: seq<nat>): set<nat> { set x | x in s }

  /** Every set has a member that is linked to no member. */
  ghost predicate Founded(links: Links) {
    forall s: set<nat> :: s != {} && s <= links.Keys ==> exists x :: x in s && links[x] * s == {}
  }

  ghost predicate Ready(items: set<nat>, links: Links, done: set<nat>, x: nat) {
    x in items && x !in done && x in links && links[x] * items <= done
  }

  ghost predicate Next(items: set<nat>, links: Links, keys: map<nat, Key>, done: set<nat>, x: nat)
    requires items <= keys.Keys
  {
    Ready(items, links, done, x) && forall y :: Ready(items, links, done, y) ==> !Before(keys[y], keys[x])
  }

  ghost predicate Greedy(items: set<nat>, links: Links, keys: map<nat, Key>, order: seq<nat>)
    requires items <= keys.Keys
  {
    forall n :: 0 <= n < |order| ==> Next(items, links, keys, Elems(order[..n]), order[n])
  }

  lemma GreedyAppend(items: set<nat>, links: Links, keys: map<nat, Key>, order: seq<nat>, x: nat)
    requires items <= keys.Keys && Greedy(items, links, keys, order) && Next(items, links, keys, Elems(order), x)
    ensures Greedy(items, links, keys, order + [x]) && Elems(order + [x]) == Elems(order) + {x}
  {
    hide Next;
    var order' := order + [x];
    forall n | 0 <= n < |order'| ensures Next(items, links, keys, Elems(order'[..n]), order'[n]) {
      assert order'[..n] == order[..n];
      if n == |order| { assert order[..n] == order; }
    }
  }

  ghost predicate PositiveKeys(items: set<nat>, keys: map<nat, Key>) {
    items <= keys.Keys && forall x :: x in items ==> keys[x].rate.size > 0
  }

  /** When nothing has a higher feerate than what it is linked to, a greedy order is one of
      non-increasing feerate. */
  lemma {:induction false} GreedySorted(items: set<nat>, links: Links, keys: map<nat, Key>, order: seq<nat>, a: nat,
                                        b: nat)
    requires PositiveKeys(items, keys) && Greedy(items, links, keys, order)
    requires forall i, j :: i in items && i in links && j in links[i] && j in items ==>
               AtMost(keys[i].rate, keys[j].rate)
    requires a < b < |order|
    ensures order[a] in items && order[b] in items && AtMost(keys[order[b]].rate, keys[order[a]].rate)
    decreases b
  {
    var x, y := order[b - 1], order[b];
    assert Next(items, links, keys, Elems(order[..b - 1]), x) && Next(items, links, keys, Elems(order[..b]), y);
    assert order[..b] == order[..b - 1] + [x];
    assert AtMost(keys[y].rate, keys[x].rate) by {
      if x !in links[y] { assert Ready(items, links, Elems(order[..b - 1]), y); }
    }
    if a < b - 1 {
      GreedySorted(items, links, keys, order, a, b - 1);
      RatioTransitive(keys[y].rate, keys[x].rate, keys[order[a]].rate);
    }
  }

  ghost predicate Strong(items: set<nat>, keys: map<nat, Key>)
    requires items <= keys.Keys
  {
    forall x, y :: x in items && y in items && x != y ==> Before(keys[x], keys[y]) || Before(keys[y], keys[x])
  }

  /** With a strong order, there is only one greedy order. */
  lemma {:induction false} GreedyUnique(items: set<nat>, links: Links, keys: map<nat, Key>, s: seq<nat>, t: seq<nat>)
    requires PositiveKeys(items, keys) && Strong(items, keys)
    requires Greedy(items, links, keys, s) && Greedy(items, links, keys, t) && |s| == |t|
    ensures s == t
    decreases |s|
  {
    hide Greedy, Next, Strong;
    if s != [] {
      var n := |s| - 1;
      GreedyPrefix(items, links, keys, s);
      GreedyPrefix(items, links, keys, t);
      GreedyUnique(items, links, keys, s[..n], t[..n]);
      GreedyLast(items, links, keys, s);
      GreedyLast(items, links, keys, t);
      NextUnique(items, links, keys, Elems(s[..n]), s[n], t[n]);
      assert s == s[..n] + [s[n]] && t == t[..n] + [t[n]];
    }
  }

  lemma GreedyLast(items: set<nat>, links: Links, keys: map<nat, Key>, s: seq<nat>)
    requires items <= keys.Keys && Greedy(items, links, keys, s) && s != []
    ensures Next(items, links, keys, Elems(s[..|s| - 1]), s[|s| - 1])
  {
  }

  lemma NextUnique(items: set<nat>, links: Links, keys: map<nat, Key>, done: set<nat>, x: nat, y: nat)
    requires items <= keys.Keys && Strong(items, keys)
    requires Next(items, links, keys, done, x) && Next(items, links, keys, done, y)
    ensures x == y
  {
    hide Before;
  }

  lemma GreedyPrefix(items: set<nat>, links: Links, keys: map<nat, Key>, s: seq<nat>)
    requires items <= keys.Keys && Greedy(items, links, keys, s) && s != []
    ensures Greedy(items, links, keys, s[..|s| - 1])
  {
    hide Next;
    var p := s[..|s| - 1];
    forall n | 0 <= n < |p| ensures Next(items, links, keys, Elems(p[..n]), p[n]) {
      assert p[..n] == s[..n];
    }
  }

  /** A greedy order has no repetitions. */
  lemma GreedyDistinct(items: set<nat>, links: Links, keys: map<nat, Key>, s: seq<nat>)
    requires items <= keys.Keys && Greedy(items, links, keys, s)
    ensures Elems(s) <= items && forall a, b :: 0 <= a < b < |s| ==> s[a] != s[b]
  {
    forall a | 0 <= a < |s| ensures s[a] in items { assert Next(items, links, keys, Elems(s[..a]), s[a]); }
    forall a, b | 0 <= a < b < |s| ensures s[a] != s[b] {
      assert Next(items, links, keys, Elems(s[..b]), s[b]);
      assert s[..b][a] == s[a] && s[a] in Elems(s[..b]);
    }
  }

  // ----- chunks as items

  ghost function ChunkLinks(par: Links, k: Family): Links {
    map i | i in k :: set j | j in k && j != i && Depends(par, k[i], k[j])
  }

  /** No chunk has a higher feerate than those it depends on, and chunks do not depend on each other
      in a cycle. */
  ghost predicate Orderly(m: Rates, par: Links, k: Family) {
    && IsFamily(m, k)
    && (forall i, j :: i in k && j in ChunkLinks(par, k)[i] ==> AtMost(Total(m, k[i]), Total(m, k[j])))
    && Founded(ChunkLinks(par, k))
  }

  lemma EitherWay(a: FeeFrac, b: FeeFrac)
    ensures AtMost(a, a) && if Lower(a, b) then AtMost(a, b) else AtMost(b, a)
  {
  }

  lemma {:induction false} Highest(m: Rates, k: Family, s: set<nat>) returns (x: nat)
    requires IsFamily(m, k) && s != {} && s <= k.Keys
    ensures x in s && forall y :: y in s ==> AtMost(Total(m, k[y]), Total(m, k[x]))
    decreases s
  {
    hide Total, AtMost, Lower;
    x :| x in s;
    var rest := s - {x};
    EitherWay(Total(m, k[x]), Total(m, k[x]));
    forall y | y in s ensures y == x || y in rest { }
    if rest != {} {
      var z := Highest(m, k, rest);
      forall y | y in s ensures Total(m, k[y]).size > 0 { TotalSize(m, k[y]); }
      EitherWay(Total(m, k[x]), Total(m, k[z]));
      if Lower(Total(m, k[x]), Total(m, k[z])) {
        x := z;
      } else {
        forall y | y in rest ensures AtMost(Total(m, k[y]), Total(m, k[x])) {
          RatioTransitive(Total(m, k[y]), Total(m, k[z]), Total(m, k[x]));
        }
      }
    }
  }

  lemma TopologicalOrderly(m: Rates, par: Links, k: Family)
    requires IsFamily(m, k) && Topological(m, par, k)
    ensures Orderly(m, par, k)
  {
    hide Total, Depends;
    var links := ChunkLinks(par, k);
    forall s: set<nat> | s != {} && s <= links.Keys ensures exists x :: x in s && links[x] * s == {} {
      var x := Highest(m, k, s);
      forall y | y in s ensures y !in links[x] { assert AtMost(Total(m, k[y]), Total(m, k[x])); }
      assert links[x] * s == {};
    }
  }

  // ----- linearizations

  ghost function MaxRank(s: set<nat>, rank: nat -> int): int
    requires s != {}
  {
    var x := Pick(s);
    if s - {x} == {} then rank(x)
    else var r := MaxRank(s - {x}, rank); if rank(x) > r then rank(x) else r
  }

  lemma {:induction false} MaxRankBound(s: set<nat>, rank: nat -> int)
    requires s != {}
    ensures (forall y :: y in s ==> rank(y) <= MaxRank(s, rank)) && exists y :: y in s && rank(y) == MaxRank(s, rank)
    decreases s
  {
    var x := Pick(s);
    if s - {x} != {} {
      MaxRankBound(s - {x}, rank);
    } else {
      assert s == {x};
    }
  }

  lemma MaxRankIs(s: set<nat>, rank: nat -> int, x: nat)
    requires x in s && forall y :: y in s ==> rank(y) <= rank(x)
    ensures MaxRank(s, rank) == rank(x)
  {
    hide MaxRank;
    MaxRankBound(s, rank);
  }

  ghost function TxKeys(m: Rates, rank: nat -> int): (keys: map<nat, Key>)
    ensures keys.Keys == m.Keys
  {
    map x | x in m :: Key(m[x], rank(x))
  }

  ghost function ChunkKeys(m: Rates, k: Family, rank: nat -> int): (keys: map<nat, Key>)
    requires IsFamily(m, k)
    ensures keys.Keys == k.Keys
  {
    map i | i in k :: Key(Total(m, k[i]), MaxRank(k[i], rank))
  }

  ghost function Flat(blocks: seq<seq<nat>>): seq<nat> {
    if blocks == [] then [] else Flat(blocks[..|blocks| - 1]) + blocks[|blocks| - 1]
  }

  ghost predicate BlockOf(m: Rates, par: Links, rank: nat -> int, s: set<nat>, block: seq<nat>) {
    s <= m.Keys && Elems(block) == s && Greedy(s, par, TxKeys(m, rank), block)
  }

  /** `lin` lists the chunks `order` of `k`, greedily, and the transactions of each, greedily. */
  ghost predicate Linearizes(m: Rates, par: Links, k: Family, rank: nat -> int, order: seq<nat>, blocks: seq<seq<nat>>,
                             lin: seq<nat>) {
    && IsFamily(m, k)
    && Greedy(k.Keys, ChunkLinks(par, k), ChunkKeys(m, k, rank), order)
    && |blocks| == |order| && lin == Flat(blocks)
    && (forall n :: 0 <= n < |order| ==> order[n] in k && BlockOf(m, par, rank, k[order[n]], blocks[n]))
  }

  lemma LinearizesAppend(m: Rates, par: Links, k: Family, rank: nat -> int, order: seq<nat>, blocks: seq<seq<nat>>,
                         lin: seq<nat>, i: nat, block: seq<nat>)
    requires IsFamily(m, k) && Linearizes(m, par, k, rank, order, blocks, lin)
    requires Next(k.Keys, ChunkLinks(par, k), ChunkKeys(m, k, rank), Elems(order), i) && i in k
    requires BlockOf(m, par, rank, k[i], block)
    ensures Linearizes(m, par, k, rank, order + [i], blocks + [block], lin + block)
    ensures Elems(order + [i]) == Elems(order) + {i}
  {
    hide BlockOf, Greedy, Next, ChunkLinks, ChunkKeys;
    GreedyAppend(k.Keys, ChunkLinks(par, k), ChunkKeys(m, k, rank), order, i);
    assert (blocks + [block])[..|blocks|] == blocks;
  }

  /** Distinct, and no transaction before its parents. */
  ghost predicate InOrder(par: Links, lin: seq<nat>) {
    && (forall a, b :: 0 <= a < b < |lin| ==> lin[a] != lin[b])
    && (forall n :: 0 <= n < |lin| && lin[n] in par ==> par[lin[n]] <= Elems(lin[..n]))
  }

  /** A topologically valid linearization of the transactions `all`. */
  ghost predicate ValidLinearization(par: Links, all: set<nat>, lin: seq<nat>) {
    Elems(lin) == all && InOrder(par, lin)
  }

  /** The transactions of a block are distinct, and the parents of each are before it or in `done`. */
  ghost predicate ComesAfter(par: Links, done: set<nat>, block: seq<nat>) {
    && (forall a, b :: 0 <= a < b < |block| ==> block[a] != block[b])
    && (forall n :: 0 <= n < |block| && block[n] in par ==> par[block[n]] <= done + Elems(block[..n]))
  }

  lemma InOrderAppend(par: Links, lin: seq<nat>, block: seq<nat>)
    requires InOrder(par, lin) && Elems(lin) * Elems(block) == {} && ComesAfter(par, Elems(lin), block)
    ensures InOrder(par, lin + block) && Elems(lin + block) == Elems(lin) + Elems(block)
  {
    var all := lin + block;
    forall a, b | 0 <= a < b < |all| ensures all[a] != all[b] {
      if a < |lin| <= b {
        assert block[b - |lin|] in Elems(block);
        NotBoth(Elems(lin), Elems(block), lin[a]);
      }
    }
    forall n | 0 <= n < |all| && all[n] in par ensures par[all[n]] <= Elems(all[..n]) {
      if n < |lin| {
        assert all[..n] == lin[..n];
      } else {
        assert all[..n] == lin + block[..n - |lin|];
      }
    }
  }

  /** The transactions are linked among themselves, and each is in a chunk. */
  ghost predicate Spans(m: Rates, par: Links, k: Family) {
    && par.Keys == m.Keys && (forall x :: x in par ==> par[x] <= m.Keys)
    && (forall x :: x in m ==> exists i :: i in k && x in k[i])
  }

  /** What the first chunks of a linearization have emitted. */
  ghost function Emitted(k: Family, order: seq<nat>): set<nat> {
    set i, x | i in order && i in k && x in k[i] :: x
  }

  lemma {:induction false} LinearizesInOrder(m: Rates, par: Links, k: Family, rank: nat -> int, order: seq<nat>,
                                             blocks: seq<seq<nat>>, lin: seq<nat>)
    requires IsFamily(m, k) && Linearizes(m, par, k, rank, order, blocks, lin)
    requires Spans(m, par, k)
    ensures Elems(lin) == Emitted(k, order) && InOrder(par, lin)
    decreases |order|
  {
    hide IsFamily, Linearizes, InOrder, Emitted, BlockOf, ChunkLinks, Spans;
    if order == [] {
      LinearizesNothing(m, par, k, rank, blocks, lin);
    } else {
      LinearizesPrefix(m, par, k, rank, order, blocks, lin);
      var n := |order| - 1;
      LinearizesInOrder(m, par, k, rank, order[..n], blocks[..n], Flat(blocks[..n]));
      assert order == order[..n] + [order[n]];
      NextBlock(m, par, k, rank, order[..n], order[n], blocks[n]);
      InOrderAppend(par, Flat(blocks[..n]), blocks[n]);
    }
  }

  lemma LinearizesNothing(m: Rates, par: Links, k: Family, rank: nat -> int, blocks: seq<seq<nat>>, lin: seq<nat>)
    requires IsFamily(m, k) && Linearizes(m, par, k, rank, [], blocks, lin)
    ensures lin == [] && Elems(lin) == Emitted(k, []) && InOrder(par, lin)
  {
  }

  lemma NextBlock(m: Rates, par: Links, k: Family, rank: nat -> int, pre: seq<nat>, i: nat, block: seq<nat>)
    requires i in k && i !in pre && ChunkLinks(par, k)[i] * k.Keys <= Elems(pre)
    requires BlockOf(m, par, rank, k[i], block) && IsFamily(m, k) && Spans(m, par, k)
    ensures Emitted(k, pre) * Elems(block) == {} && Emitted(k, pre + [i]) == Emitted(k, pre) + Elems(block)
    ensures ComesAfter(par, Emitted(k, pre), block)
  {
    hide Total, Depends, ChunkLinks, TxKeys, Before, IsFamily, Emitted, Spans;
    GreedyDistinct(k[i], par, TxKeys(m, rank), block);
    EmittedDisjoint(m, k, pre, i);
    EmittedAppend(k, pre, i);
    forall a | 0 <= a < |block| && block[a] in par ensures par[block[a]] <= Emitted(k, pre) + Elems(block[..a]) {
      assert Next(k[i], par, TxKeys(m, rank), Elems(block[..a]), block[a]);
      ParentsEmitted(m, par, k, pre, i, block[a]);
    }
  }

  lemma EmittedAppend(k: Family, pre: seq<nat>, i: nat)
    requires i in k
    ensures Emitted(k, pre + [i]) == Emitted(k, pre) + k[i]
  {
  }

  lemma LinearizesPrefix(m: Rates, par: Links, k: Family, rank: nat -> int, order: seq<nat>, blocks: seq<seq<nat>>,
                         lin: seq<nat>)
    requires IsFamily(m, k) && Linearizes(m, par, k, rank, order, blocks, lin) && order != []
    ensures var n := |order| - 1;
            && |blocks| == |order|
            && Linearizes(m, par, k, rank, order[..n], blocks[..n], Flat(blocks[..n]))
            && lin == Flat(blocks[..n]) + blocks[n]
            && order[n] in k && order[n] !in order[..n] && BlockOf(m, par, rank, k[order[n]], blocks[n])
            && ChunkLinks(par, k)[order[n]] * k.Keys <= Elems(order[..n])
  {
    hide BlockOf, ChunkLinks, ChunkKeys, Before;
    GreedyPrefix(k.Keys, ChunkLinks(par, k), ChunkKeys(m, k, rank), order);
    assert Next(k.Keys, ChunkLinks(par, k), ChunkKeys(m, k, rank), Elems(order[..|order| - 1]), order[|order| - 1]);
  }

  lemma EmittedDisjoint(m: Rates, k: Family, order: seq<nat>, i: nat)
    requires IsFamily(m, k) && i in k && i !in order
    ensures Emitted(k, order) * k[i] == {}
  {
    forall x | x in Emitted(k, order) ensures x !in k[i] {
      var j :| j in order && j in k && x in k[j];
      assert k[j] * k[i] == {};
      NotBoth(k[j], k[i], x);
    }
  }

  lemma NotBoth(a: set<nat>, b: set<nat>, x: nat)
    requires a * b == {} && x in a
    ensures x !in b
  {
    assert x in b ==> x in a * b;
  }

  lemma ParentsEmitted(m: Rates, par: Links, k: Family, order: seq<nat>, i: nat, x: nat)
    requires IsFamily(m, k) && Spans(m, par, k) && i in k && x in k[i] && x in par
    requires ChunkLinks(par, k)[i] * k.Keys <= Elems(order)
    ensures par[x] - k[i] <= Emitted(k, order)
  {
    hide IsFamily, Spans, Depends;
    var links := ChunkLinks(par, k)[i];
    forall q | q in par[x] - k[i] ensures q in Emitted(k, order) {
      var j := LinkedTo(m, par, k, i, x, q);
      assert j in links * k.Keys;
    }
  }

  lemma LinkedTo(m: Rates, par: Links, k: Family, i: nat, x: nat, q: nat) returns (j: nat)
    requires Spans(m, par, k) && i in k && x in k[i] && x in par && q in par[x] - k[i]
    ensures j in k && j != i && q in k[j] && Depends(par, k[i], k[j])
  {
    j :| j in k && q in k[j];
  }
}
