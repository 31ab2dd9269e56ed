/** The area under the diagram of a state, and how a step of improvement changes it
    (src/cluster_linearize.h). */
module StateAreas {
  import opened FeeFracs
  import opened Totals
  import opened Diagrams
  import opened Forests
  import opened DiagramAreas
  import opened Families
  import opened ForestCore
  import opened ForestSteps
  import opened ImproveSteps
  import opened LinearOrders
  import opened LinearizationQuality

  /** `cs` is the diagram of the state: the feerates of its chunks, highest first. */
  ghost predicate IsDiagram(c: Core, cs: seq<FeeFrac>) {
    IsFamily(c.rate, FamilyOf(c)) && exists order :: DiagramOf(c.rate, FamilyOf(c), order, cs)
  }

  lemma DiagramSum(c: Core, order: seq<nat>, cs: seq<FeeFrac>)
    requires Sane(c) && IsFamily(c.rate, FamilyOf(c)) && DiagramOf(c.rate, FamilyOf(c), order, cs)
    ensures Sum(cs) == Total(c.rate, c.rate.Keys)
  {
    hide Sane, IsFamily, Spans, Par, TxsAt, Total, Sum, RatesIn, Emitted, Sizes, Sorted;
    forall n | 0 <= n < |order| ensures order[n] in FamilyOf(c) { assert order[n] in Elems(order); }
    StateSpans(c);
    AllInChunks(c.rate, Par(c), FamilyOf(c), order);
    EmittedTotal(c.rate, FamilyOf(c), order);
  }

  /** The feerate of every chunk is in the diagram. */
  lemma InDiagram(c: Core, order: seq<nat>, cs: seq<FeeFrac>, i: nat) returns (n: nat)
    requires Sane(c) && IsFamily(c.rate, FamilyOf(c)) && DiagramOf(c.rate, FamilyOf(c), order, cs) && i in c.chunks
    ensures n < |cs| && cs[n] == RateAt(c, i)
  {
    hide Sane, TxsAt, Total, RatesIn, RateAt, Sizes, Sorted;
    FamilyValid(c);
    assert i in Elems(order);
    n :| 0 <= n < |order| && order[n] == i;
    forall a | 0 <= a < |order| ensures order[a] in FamilyOf(c) { assert order[a] in Elems(order); }
    RatesInAt(c.rate, FamilyOf(c), order, n);
  }

  /** A state that is nowhere worse, and better by `gain` at the feerate of a chunk, has at least `gain` more of
      twice the area under its diagram. */
  lemma AreaImproves(c: Core, d: Core, i: nat, gain: int, cs: seq<FeeFrac>, ds: seq<FeeFrac>)
    requires Sane(c) && Sane(d) && SameGraph(c, d) && i in c.chunks && IsDiagram(c, cs) && IsDiagram(d, ds)
    requires NeverWorse(c, d) && Better(c, d, RateAt(c, i), gain)
    ensures TwiceArea(cs) + gain <= TwiceArea(ds)
  {
    var o :| DiagramOf(c.rate, FamilyOf(c), o, cs);
    var p :| DiagramOf(d.rate, FamilyOf(d), p, ds);
    var n := InDiagram(c, o, cs, i);
    SameSums(c, d, o, p, cs, ds);
    SamePotentials(c, d, o, p, cs, ds);
    DiagramPotential(c.rate, FamilyOf(c), o, cs, cs[n]);
    DiagramPotential(d.rate, FamilyOf(d), p, ds, cs[n]);
    hide Sane, TwiceArea, Potential, Sum, FamilyPotential, RatesIn, FamilyOf, RateAt, TxsAt, Par, Chi;
    AreaGrows(cs, ds, n, gain);
  }

  lemma SameSums(c: Core, d: Core, o: seq<nat>, p: seq<nat>, cs: seq<FeeFrac>, ds: seq<FeeFrac>)
    requires Sane(c) && Sane(d) && SameGraph(c, d)
    requires IsFamily(c.rate, FamilyOf(c)) && DiagramOf(c.rate, FamilyOf(c), o, cs)
    requires IsFamily(d.rate, FamilyOf(d)) && DiagramOf(d.rate, FamilyOf(d), p, ds)
    ensures Sum(cs) == Sum(ds)
  {
    hide Sane, IsFamily, DiagramOf, FamilyOf, Sum, Total, Par, Chi;
    DiagramSum(c, o, cs);
    DiagramSum(d, p, ds);
  }

  lemma SamePotentials(c: Core, d: Core, o: seq<nat>, p: seq<nat>, cs: seq<FeeFrac>, ds: seq<FeeFrac>)
    requires Sane(c) && Sane(d) && NeverWorse(c, d)
    requires IsFamily(c.rate, FamilyOf(c)) && DiagramOf(c.rate, FamilyOf(c), o, cs)
    requires IsFamily(d.rate, FamilyOf(d)) && DiagramOf(d.rate, FamilyOf(d), p, ds)
    ensures forall r: FeeFrac {:trigger Potential(ds, r)} :: r.size > 0 ==> Potential(cs, r) <= Potential(ds, r)
  {
    hide Sane, IsFamily, DiagramOf, FamilyOf, Potential, FamilyPotential, Par, Chi, Inverse, RateAt, TxsAt, Total;
    forall r: FeeFrac | r.size > 0 ensures Potential(cs, r) <= Potential(ds, r) {
      DiagramPotential(c.rate, FamilyOf(c), o, cs, r);
      DiagramPotential(d.rate, FamilyOf(d), p, ds, r);
    }
  }

  /** The gain of a split, from its parts: the difference of their feerates, times both sizes. */
  lemma GainOfParts(c: Core, parent: nat, child: nat)
    requires Sane(c) && Improvable(c, parent, child)
    ensures var ci, ti := c.tx[parent].chunkIdx, c.tx[parent].depTop[child];
            && TxsAt(c, ci) <= c.rate.Keys
            && var b := Total(c.rate, TxsAt(c, ci) - TxsAt(c, ti));
               SplitGain(c, parent, child) == RateAt(c, ti).fee * b.size - b.fee * RateAt(c, ti).size
  {
    var ci, ti := c.tx[parent].chunkIdx, c.tx[parent].depTop[child];
    TopOfChunk(c, parent, child);
    var t, b := TxsAt(c, ti), TxsAt(c, ci) - TxsAt(c, ti);
    hide Sane, Total, TxsAt, RateAt, Improvable, Gain;
    assert t * b == {} && t + b == TxsAt(c, ci);
    TotalUnion(c.rate, t, b);
    CrossGain(Total(c.rate, t), Total(c.rate, b));
  }

  lemma CrossGain(t: FeeFrac, b: FeeFrac)
    ensures Gain(Add(t, b), t) == t.fee * b.size - b.fee * t.size
  {
  }

  lemma TopOfChunk(c: Core, parent: nat, child: nat)
    requires Sane(c) && Improvable(c, parent, child)
    ensures var ci, ti := c.tx[parent].chunkIdx, c.tx[parent].depTop[child];
            && TxsAt(c, ti) <= TxsAt(c, ci) <= c.rate.Keys
            && RateAt(c, ti) == Total(c.rate, TxsAt(c, ti)) && RateAt(c, ci) == Total(c.rate, TxsAt(c, ci))
  {
    hide ReachCorrect, Linked, Connected, Total, Lower;
    var ci, ti := c.tx[parent].chunkIdx, c.tx[parent].depTop[child];
    var f, e := ForestOf(c), (parent, child);
    assert e in f.top && f.top[e] == TxsAt(c, ti) && f.chunk[parent] == TxsAt(c, ci);
    assert Inside(f, e) && Cut(f, e);
    assert InfoCorrect(c.rate, c.info[ti]) && InfoCorrect(c.rate, c.info[ci]);
  }

  /** Two states, neither worse than the other, have the same area. */
  lemma AreaStays(c: Core, d: Core, cs: seq<FeeFrac>, ds: seq<FeeFrac>)
    requires Sane(c) && Sane(d) && SameGraph(c, d) && IsDiagram(c, cs) && IsDiagram(d, ds)
    requires NeverWorse(c, d) && NeverWorse(d, c)
    ensures TwiceArea(cs) == TwiceArea(ds)
  {
    var o :| DiagramOf(c.rate, FamilyOf(c), o, cs);
    var p :| DiagramOf(d.rate, FamilyOf(d), p, ds);
    SameSums(c, d, o, p, cs, ds);
    SamePotentials(c, d, o, p, cs, ds);
    SamePotentials(d, c, p, o, ds, cs);
    hide Sane, TwiceArea, Potential, Sum, FamilyPotential, RatesIn, FamilyOf, RateAt, TxsAt, Par, Chi, NeverWorse;
    AreaNotLess(cs, ds);
    AreaNotLess(ds, cs);
  }
}
