/** How good the linearization of a state is. */
module LinearizationQuality {
  import opened FeeFracs
  import opened Totals
  import opened Diagrams
  import opened Chunking
  import opened Forests
  import opened Families
  import opened ForestCore
  import opened ForestSteps
  import opened StateOptimality
  import opened LinearOrders

  /** Fee and size of the first `p` transactions of `lin`. */
  ghost function PrefixRate(m: Rates, lin: seq<nat>, p: nat): FeeFrac {
    if p <= |lin| && Elems(lin) <= m.Keys then Sum(RatesOf(m, lin)[..p]) else EMPTY
  }

  /** The chunked diagram of `lin` is nowhere below the points of `other`. */
  ghost predicate NoWorse(m: Rates, lin: seq<nat>, other: seq<nat>) {
    && Elems(lin) <= m.Keys && Elems(other) <= m.Keys
    && forall cs, p :: IsChunking(cs, RatesOf(m, lin)) && 0 <= p <= |other| ==> OnOrBelow(PrefixRate(m, other, p), cs)
  }

  /** The diagram of the chunks is nowhere below the points of `lin`. */
  ghost predicate StateCovers(c: Core, lin: seq<nat>) {
    && IsFamily(c.rate, FamilyOf(c)) && Elems(lin) <= c.rate.Keys
    && forall p, r: FeeFrac :: 0 <= p <= |lin| && r.size > 0 ==>
      Gain(r, Total(c.rate, Elems(lin[..p]))) <= FamilyPotential(c.rate, FamilyOf(c), r)
  }

  // ----- prefixes of linearizations

  lemma {:induction false} SumIsTotal(m: Rates, lin: seq<nat>)
    requires Elems(lin) <= m.Keys && forall a, b :: 0 <= a < b < |lin| ==> lin[a] != lin[b]
    ensures Sum(RatesOf(m, lin)) == Total(m, Elems(lin))
    decreases |lin|
  {
    hide Sum, Total;
    if lin == [] {
      TotalEmpty(m);
      SumNil();
      assert Elems(lin) == {} && RatesOf(m, lin) == [];
    } else {
      var n := |lin| - 1;
      var pre, x := lin[..n], lin[n];
      assert lin == pre + [x];
      SumIsTotal(m, pre);
      assert RatesOf(m, lin) == RatesOf(m, pre) + [m[x]];
      SumAppend(RatesOf(m, pre), [m[x]]);
      SumOne(m[x]);
      assert Elems(lin) == Elems(pre) + {x} && Elems(lin) - {x} == Elems(pre);
      TotalPick(m, Elems(lin), x);
      AddCommutes(m[x], Total(m, Elems(pre)));
    }
  }

  lemma PrefixTotal(m: Rates, lin: seq<nat>, p: nat)
    requires Elems(lin) <= m.Keys && p <= |lin| && forall a, b :: 0 <= a < b < |lin| ==> lin[a] != lin[b]
    ensures Elems(lin[..p]) <= Elems(lin) && PrefixRate(m, lin, p) == Total(m, Elems(lin[..p]))
  {
    hide Sum, Total;
    SumIsTotal(m, lin[..p]);
    assert RatesOf(m, lin)[..p] == RatesOf(m, lin[..p]);
  }

  lemma PrefixClosed(par: Links, lin: seq<nat>, p: nat)
    requires InOrder(par, lin) && p <= |lin|
    ensures ParentClosed(par, Elems(lin[..p]))
  {
    forall x | x in Elems(lin[..p]) && x in par ensures par[x] <= Elems(lin[..p]) {
      var n :| 0 <= n < p && lin[n] == x;
      assert par[lin[n]] <= Elems(lin[..n]);
    }
  }

  /** An optimal state covers every valid linearization. */
  lemma OptimalCovers(c: Core, lin: seq<nat>)
    requires Sane(c) && AllOptimal(c) && IsFamily(c.rate, FamilyOf(c)) && ValidLinearization(Par(c), c.rate.Keys, lin)
    ensures StateCovers(c, lin)
  {
    hide Sane, AllOptimal, Total, Gain, FamilyPotential, ParentClosed, InOrder, IsFamily;
    forall p, r: FeeFrac | 0 <= p <= |lin| && r.size > 0
      ensures Gain(r, Total(c.rate, Elems(lin[..p]))) <= FamilyPotential(c.rate, FamilyOf(c), r)
    {
      PrefixClosed(Par(c), lin, p);
      Certificate(c, Elems(lin[..p]), r);
    }
  }

  // ----- the diagram of the chunks

  /** The feerates of the chunks, in the order of the linearization. */
  ghost predicate DiagramOf(m: Rates, k: Family, order: seq<nat>, ds: seq<FeeFrac>)
    requires IsFamily(m, k)
  {
    && Elems(order) == k.Keys && (forall a, b :: 0 <= a < b < |order| ==> order[a] != order[b])
    && ds == RatesIn(m, k, order) && Sizes(ds) && Sorted(ds)
  }

  lemma OrderSorted(m: Rates, par: Links, k: Family, rank: nat -> int, order: seq<nat>, a: nat, b: nat)
    requires IsFamily(m, k) && Orderly(m, par, k) && a < b < |order|
    requires Greedy(k.Keys, ChunkLinks(par, k), ChunkKeys(m, k, rank), order)
    ensures order[a] in k && order[b] in k && AtMost(Total(m, k[order[b]]), Total(m, k[order[a]]))
  {
    hide Total, Depends, MaxRank, Founded, AtMost, Greedy;
    forall i | i in k ensures Total(m, k[i]).size > 0 { TotalSize(m, k[i]); }
    var keys, links := ChunkKeys(m, k, rank), ChunkLinks(par, k);
    assert PositiveKeys(k.Keys, keys);
    GreedySorted(k.Keys, links, keys, order, a, b);
  }

  lemma LinearizesDiagram(m: Rates, par: Links, k: Family, rank: nat -> int, order: seq<nat>, blocks: seq<seq<nat>>,
                          lin: seq<nat>)
    requires IsFamily(m, k) && Orderly(m, par, k) && Linearizes(m, par, k, rank, order, blocks, lin)
    requires Elems(order) == k.Keys
    ensures (forall n :: 0 <= n < |order| ==> order[n] in k) && DiagramOf(m, k, order, RatesIn(m, k, order))
  {
    hide Total, RatesIn, Orderly, AtMost, Greedy, ChunkLinks, ChunkKeys, BlockOf;
    GreedyDistinct(k.Keys, ChunkLinks(par, k), ChunkKeys(m, k, rank), order);
    forall n | 0 <= n < |order| ensures order[n] in k { assert order[n] in Elems(order); }
    var ds := RatesIn(m, k, order);
    assert |ds| == |order| by { if order == [] { RatesInNil(m, k); } else { RatesInAt(m, k, order, 0); } }
    forall a | 0 <= a < |ds| ensures ds[a].size > 0 && ds[a] == Total(m, k[order[a]]) {
      RatesInAt(m, k, order, a);
      TotalSize(m, k[order[a]]);
    }
    forall a, b | 0 <= a < b < |ds| ensures AtMost(ds[b], ds[a]) { OrderSorted(m, par, k, rank, order, a, b); }
  }

  lemma RatesInNil(m: Rates, k: Family)
    requires IsFamily(m, k)
    ensures RatesIn(m, k, []) == []
  {
  }

  lemma DiagramPotential(m: Rates, k: Family, order: seq<nat>, ds: seq<FeeFrac>, r: FeeFrac)
    requires IsFamily(m, k) && DiagramOf(m, k, order, ds)
    ensures Potential(ds, r) == FamilyPotential(m, k, r)
  {
    hide Total, Potential, FamilyPotential, RatesIn;
    forall n | 0 <= n < |order| ensures order[n] in k { assert order[n] in Elems(order); }
    FamilyWithoutAll(m, k, order, r);
    forall i | i in k ensures i in order { assert i in Elems(order); }
    EmptyFamily(m, Without(k, order), r);
  }

  lemma {:induction false} EmittedTotal(m: Rates, k: Family, order: seq<nat>)
    requires IsFamily(m, k) && (forall n :: 0 <= n < |order| ==> order[n] in k)
    requires forall a, b :: 0 <= a < b < |order| ==> order[a] != order[b]
    ensures Emitted(k, order) <= m.Keys && Sum(RatesIn(m, k, order)) == Total(m, Emitted(k, order))
    decreases |order|
  {
    hide Sum, Total, IsFamily, Emitted;
    if order == [] {
      NothingEmitted(m, k);
    } else {
      var n := |order| - 1;
      var pre, i := order[..n], order[n];
      assert order == pre + [i];
      EmittedTotal(m, k, pre);
      EmittedAppend(k, pre, i);
      EmittedDisjoint(m, k, pre, i);
      FamilyMember(m, k, i);
      TotalUnion(m, Emitted(k, pre), k[i]);
      SumAppend(RatesIn(m, k, pre), [Total(m, k[i])]);
      SumOne(Total(m, k[i]));
    }
  }

  lemma NothingEmitted(m: Rates, k: Family)
    ensures Emitted(k, []) == {} && Sum([]) == EMPTY == Total(m, {})
  {
  }

  lemma FamilyMember(m: Rates, k: Family, i: nat)
    requires IsFamily(m, k) && i in k
    ensures k[i] <= m.Keys
  {
  }

  /** The `n`th vertex of the diagram of the chunks is the `p`th point of the linearization. */
  ghost predicate VertexAt(m: Rates, k: Family, order: seq<nat>, lin: seq<nat>, n: nat, p: nat) {
    && IsFamily(m, k) && (forall a :: 0 <= a < |order| ==> order[a] in k) && n <= |RatesIn(m, k, order)| == |order|
    && p <= |lin| && Elems(lin) <= m.Keys && Sum(RatesIn(m, k, order)[..n]) == PrefixRate(m, lin, p)
  }

  /** The vertices of the diagram of the chunks are points of the linearization. */
  lemma {:induction false} VertexIsPrefix(m: Rates, par: Links, k: Family, rank: nat -> int, order: seq<nat>,
                                          blocks: seq<seq<nat>>, lin: seq<nat>, n: nat) returns (p: nat)
    requires IsFamily(m, k) && Spans(m, par, k) && Linearizes(m, par, k, rank, order, blocks, lin) && n <= |order|
    ensures VertexAt(m, k, order, lin, n, p)
    decreases |order|
  {
    hide IsFamily, Spans, Linearizes, Sum, Total, Emitted, RatesIn, InOrder;
    OrderMembers(m, par, k, rank, order, blocks, lin);
    LinearizesInOrder(m, par, k, rank, order, blocks, lin);
    EmittedTotal(m, k, order);
    if n == |order| {
      p := |lin|;
      assert lin[..p] == lin && RatesIn(m, k, order)[..n] == RatesIn(m, k, order);
      InOrderDistinct(par, lin);
      PrefixTotal(m, lin, p);
    } else {
      var l := |order| - 1;
      LinearizesPrefix(m, par, k, rank, order, blocks, lin);
      var pre := Flat(blocks[..l]);
      p := VertexIsPrefix(m, par, k, rank, order[..l], blocks[..l], pre, n);
      RatesInPrefix(m, k, order, n);
      assert RatesOf(m, lin)[..p] == RatesOf(m, pre)[..p];
    }
  }

  lemma InOrderDistinct(par: Links, lin: seq<nat>)
    requires InOrder(par, lin)
    ensures forall a, b :: 0 <= a < b < |lin| ==> lin[a] != lin[b]
  {
  }

  lemma RatesInPrefix(m: Rates, k: Family, order: seq<nat>, n: nat)
    requires IsFamily(m, k) && (forall a :: 0 <= a < |order| ==> order[a] in k) && n < |order|
    ensures var l := |order| - 1;
            && |RatesIn(m, k, order)| == |order| && |RatesIn(m, k, order[..l])| == l
            && RatesIn(m, k, order)[..n] == RatesIn(m, k, order[..l])[..n]
  {
    hide IsFamily, Total;
    var l := |order| - 1;
    RatesInAt(m, k, order, 0);
    if l > 0 { RatesInAt(m, k, order[..l], 0); }
  }

  lemma OrderMembers(m: Rates, par: Links, k: Family, rank: nat -> int, order: seq<nat>, blocks: seq<seq<nat>>,
                     lin: seq<nat>)
    requires IsFamily(m, k) && Linearizes(m, par, k, rank, order, blocks, lin)
    ensures (forall a :: 0 <= a < |order| ==> order[a] in k) && |RatesIn(m, k, order)| == |order|
    ensures forall a, b :: 0 <= a < b < |order| ==> order[a] != order[b]
    ensures Emitted(k, order) <= m.Keys
  {
    hide Total, BlockOf, ChunkLinks, ChunkKeys, RatesIn, Before;
    GreedyDistinct(k.Keys, ChunkLinks(par, k), ChunkKeys(m, k, rank), order);
    if order == [] { RatesInNil(m, k); } else { RatesInAt(m, k, order, 0); }
  }

  ghost predicate AsGoodAsChunks(m: Rates, k: Family, order: seq<nat>, cs: seq<FeeFrac>) {
    IsFamily(m, k) && (forall a :: 0 <= a < |order| ==> order[a] in k) && AtLeastAsGood(cs, RatesIn(m, k, order))
  }

  lemma LinearizesFamily(m: Rates, par: Links, k: Family, rank: nat -> int, order: seq<nat>, blocks: seq<seq<nat>>,
                         lin: seq<nat>)
    requires Linearizes(m, par, k, rank, order, blocks, lin)
    ensures IsFamily(m, k)
  {
  }

  /** The linearization is at least as good as the diagram of the chunks it was made from. */
  lemma AtLeastTheDiagram(m: Rates, par: Links, k: Family, rank: nat -> int, order: seq<nat>, blocks: seq<seq<nat>>,
                          lin: seq<nat>, cs: seq<FeeFrac>)
    requires Elems(lin) <= m.Keys && IsChunking(cs, RatesOf(m, lin))
    requires Spans(m, par, k) && Linearizes(m, par, k, rank, order, blocks, lin)
    ensures AsGoodAsChunks(m, k, order, cs)
  {
    hide IsFamily, Spans, Linearizes, Sum, RatesIn, OnOrBelow, Sizes, Sorted, RatesOf;
    LinearizesFamily(m, par, k, rank, order, blocks, lin);
    OrderMembers(m, par, k, rank, order, blocks, lin);
    var ds := RatesIn(m, k, order);
    forall n | 0 <= n <= |ds| ensures OnOrBelow(Sum(ds[..n]), cs) {
      var p := VertexIsPrefix(m, par, k, rank, order, blocks, lin, n);
      RatesLength(m, lin);
      assert OnOrBelow(Sum(RatesOf(m, lin)[..p]), cs);
    }
  }

  lemma RatesLength(m: Rates, lin: seq<nat>)
    requires Elems(lin) <= m.Keys
    ensures |RatesOf(m, lin)| == |lin|
  {
  }

  // ----- the output of a state

  lemma StateSpans(c: Core)
    requires Sane(c)
    ensures Spans(c.rate, Par(c), FamilyOf(c))
  {
    hide ValidForest, ForestOf, TopsIndexed, InfosCorrect, ReachCorrect, TxsAt;
    forall x | x in c.rate ensures exists i :: i in FamilyOf(c) && x in FamilyOf(c)[i] { ChunkOf(c, x); }
  }

  lemma AllInChunks(m: Rates, par: Links, k: Family, order: seq<nat>)
    requires IsFamily(m, k) && Spans(m, par, k) && Elems(order) == k.Keys
    ensures Emitted(k, order) == m.Keys
  {
    hide IsFamily, Spans;
    forall x | x in m ensures x in Emitted(k, order) {
      var i := InSome(m, par, k, x);
      assert i in Elems(order);
    }
    forall i | i in k ensures k[i] <= m.Keys { FamilyMember(m, k, i); }
  }

  lemma InSome(m: Rates, par: Links, k: Family, x: nat) returns (i: nat)
    requires Spans(m, par, k) && x in m
    ensures i in k && x in k[i]
  {
    i :| i in k && x in k[i];
  }

  /** Every transaction once, and none before its parents. */
  lemma OutputValid(c: Core, rank: nat -> int, order: seq<nat>, blocks: seq<seq<nat>>, lin: seq<nat>)
    requires Sane(c) && IsFamily(c.rate, FamilyOf(c))
    requires Linearizes(c.rate, Par(c), FamilyOf(c), rank, order, blocks, lin) && Elems(order) == c.chunks
    ensures ValidLinearization(Par(c), c.rate.Keys, lin)
  {
    hide Sane, IsFamily, Spans, Linearizes, Emitted, InOrder, Par, TxsAt;
    StateSpans(c);
    LinearizesInOrder(c.rate, Par(c), FamilyOf(c), rank, order, blocks, lin);
    AllInChunks(c.rate, Par(c), FamilyOf(c), order);
  }

  /** The output is no worse than any linearization that the chunks cover. */
  lemma OutputNoWorse(c: Core, rank: nat -> int, order: seq<nat>, blocks: seq<seq<nat>>, lin: seq<nat>, other: seq<nat>)
    requires Elems(other) <= c.rate.Keys && Elems(lin) <= c.rate.Keys
    requires (forall a, b :: 0 <= a < b < |other| ==> other[a] != other[b])
    requires Sane(c) && IsFamily(c.rate, FamilyOf(c)) && Orderly(c.rate, Par(c), FamilyOf(c)) && StateCovers(c, other)
    requires Linearizes(c.rate, Par(c), FamilyOf(c), rank, order, blocks, lin) && Elems(order) == c.chunks
    ensures NoWorse(c.rate, lin, other)
  {
    hide Sane, IsFamily, Spans, Linearizes, Par, TxsAt, IsChunking, Orderly, RatesIn, Sizes, Sorted, OnOrBelow,
         Potential, FamilyPotential, RatesOf, AtLeastAsGood, PrefixRate, StateCovers, Sum, Gain;
    var m, k := c.rate, FamilyOf(c);
    StateSpans(c);
    LinearizesDiagram(m, Par(c), k, rank, order, blocks, lin);
    var ds := RatesIn(m, k, order);
    forall cs, p | IsChunking(cs, RatesOf(m, lin)) && 0 <= p <= |other| ensures OnOrBelow(PrefixRate(m, other, p), cs) {
      AtLeastTheDiagram(m, Par(c), k, rank, order, blocks, lin, cs);
      WholeSizes(c, rank, order, blocks, lin, cs);
      PrefixPoint(c, other, p);
      forall r: FeeFrac | r.size > 0 ensures Gain(r, PrefixRate(m, other, p)) <= Potential(cs, r) {
        CoveredPrefix(c, other, p, r);
        DiagramPotential(m, k, order, ds, r);
        PotentialGrows(cs, ds, r);
      }
      BelowFromPotential(PrefixRate(m, other, p), cs);
    }
  }

  lemma CoveredPrefix(c: Core, other: seq<nat>, p: nat, r: FeeFrac)
    requires Elems(other) <= c.rate.Keys && (forall a, b :: 0 <= a < b < |other| ==> other[a] != other[b])
    requires p <= |other| && r.size > 0 && IsFamily(c.rate, FamilyOf(c)) && StateCovers(c, other)
    ensures Gain(r, PrefixRate(c.rate, other, p)) <= FamilyPotential(c.rate, FamilyOf(c), r)
  {
    hide Total, Gain, FamilyPotential, PrefixRate, IsFamily;
    PrefixTotal(c.rate, other, p);
  }

  lemma PrefixPoint(c: Core, other: seq<nat>, p: nat)
    requires Elems(other) <= c.rate.Keys && (forall a, b :: 0 <= a < b < |other| ==> other[a] != other[b])
    requires p <= |other| && IsFamily(c.rate, FamilyOf(c))
    ensures 0 <= PrefixRate(c.rate, other, p).size <= Total(c.rate, c.rate.Keys).size
  {
    hide Total, PrefixRate, FamilyOf;
    PrefixTotal(c.rate, other, p);
    TotalSizeMono(c.rate, Elems(other[..p]), c.rate.Keys);
  }

  lemma WholeSizes(c: Core, rank: nat -> int, order: seq<nat>, blocks: seq<seq<nat>>, lin: seq<nat>, cs: seq<FeeFrac>)
    requires Elems(lin) <= c.rate.Keys && IsChunking(cs, RatesOf(c.rate, lin))
    requires Sane(c) && IsFamily(c.rate, FamilyOf(c)) && (forall n :: 0 <= n < |order| ==> order[n] in FamilyOf(c))
    requires Linearizes(c.rate, Par(c), FamilyOf(c), rank, order, blocks, lin) && Elems(order) == c.chunks
    ensures Sizes(cs) && Sorted(cs)
    ensures Sum(cs) == Total(c.rate, c.rate.Keys) == Sum(RatesIn(c.rate, FamilyOf(c), order))
  {
    hide Sane, IsFamily, Spans, Linearizes, Par, TxsAt, IsChunking, Sizes, Sorted, Total, Emitted, Sum, RatesIn,
         RatesOf, InOrder;
    OutputValid(c, rank, order, blocks, lin);
    InOrderDistinct(Par(c), lin);
    SumIsTotal(c.rate, lin);
    ChunkingTotal(cs, RatesOf(c.rate, lin));
    OrderMembers(c.rate, Par(c), FamilyOf(c), rank, order, blocks, lin);
    EmittedTotal(c.rate, FamilyOf(c), order);
    StateSpans(c);
    AllInChunks(c.rate, Par(c), FamilyOf(c), order);
  }

  lemma ChunkingTotal(cs: seq<FeeFrac>, txs: seq<FeeFrac>)
    requires IsChunking(cs, txs)
    ensures Sizes(cs) && Sorted(cs) && Sum(cs) == Sum(txs)
  {
    hide Sum, OnOrBelow;
    var cuts :| VerticesOf(cs, txs, cuts);
    assert cs[..|cs|] == cs && txs[..cuts[|cs|]] == txs;
    assert Sum(cs[..|cs|]) == Sum(txs[..cuts[|cs|]]);
  }

  /** The output of an optimal state is no worse than any topologically valid linearization. */
  lemma OutputOptimal(c: Core, rank: nat -> int, order: seq<nat>, blocks: seq<seq<nat>>, lin: seq<nat>, other: seq<nat>)
    requires Elems(other) <= c.rate.Keys && Elems(lin) <= c.rate.Keys && ValidLinearization(Par(c), c.rate.Keys, other)
    requires Sane(c) && AllOptimal(c) && IsFamily(c.rate, FamilyOf(c)) && Orderly(c.rate, Par(c), FamilyOf(c))
    requires Linearizes(c.rate, Par(c), FamilyOf(c), rank, order, blocks, lin) && Elems(order) == c.chunks
    ensures NoWorse(c.rate, lin, other)
  {
    hide Sane, AllOptimal, IsFamily, Orderly, Linearizes, StateCovers, NoWorse, InOrder;
    InOrderDistinct(Par(c), other);
    OptimalCovers(c, other);
    OutputNoWorse(c, rank, order, blocks, lin, other);
  }

  /** For an optimal state, chunking its output gives back the diagram of its chunks. */
  lemma OptimalDiagramExact(c: Core, rank: nat -> int, order: seq<nat>, blocks: seq<seq<nat>>, lin: seq<nat>,
                            cs: seq<FeeFrac>, ds: seq<FeeFrac>)
    requires Elems(lin) <= c.rate.Keys && IsChunking(cs, RatesOf(c.rate, lin))
    requires IsFamily(c.rate, FamilyOf(c)) && DiagramOf(c.rate, FamilyOf(c), order, ds)
    requires Linearizes(c.rate, Par(c), FamilyOf(c), rank, order, blocks, lin) && Orderly(c.rate, Par(c), FamilyOf(c))
    requires Sane(c) && AllOptimal(c)
    ensures AtLeastAsGood(cs, ds) && AtLeastAsGood(ds, cs)
  {
    hide Sane, AllOptimal, IsFamily, Spans, Linearizes, Par, TxsAt, IsChunking, Orderly, RatesIn, Sizes, Sorted,
         OnOrBelow, Potential, FamilyPotential, RatesOf, AtLeastAsGood, StateCovers, Sum, Gain, InOrder;
    var m, k := c.rate, FamilyOf(c);
    StateSpans(c);
    AtLeastTheDiagram(m, Par(c), k, rank, order, blocks, lin, cs);
    WholeSizes(c, rank, order, blocks, lin, cs);
    OutputValid(c, rank, order, blocks, lin);
    InOrderDistinct(Par(c), lin);
    OptimalCovers(c, lin);
    forall r: FeeFrac | r.size > 0 ensures Potential(cs, r) <= Potential(ds, r) {
      DiagramPotential(m, k, order, ds, r);
      var p := ChunkingAttained(cs, RatesOf(m, lin), r);
      RatesLength(m, lin);
      CoveredPrefix(c, lin, p, r);
    }
    AtLeastAsGoodByPotential(ds, cs);
  }

  /** The support function of a chunking is attained at a prefix. */
  lemma ChunkingAttained(cs: seq<FeeFrac>, txs: seq<FeeFrac>, r: FeeFrac) returns (p: nat)
    requires IsChunking(cs, txs) && r.size > 0
    ensures p <= |txs| && Potential(cs, r) == Gain(r, Sum(txs[..p]))
  {
    hide Sum, OnOrBelow, Potential, Gain, Sizes, Sorted;
    var cuts :| VerticesOf(cs, txs, cuts);
    var n := PotentialAttained(cs, r);
    p := cuts[n];
  }
}
