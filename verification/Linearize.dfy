/** Finding or improving a linearization (`Linearize`, src/cluster_linearize.h). */
module Linearization {
  import opened FeeFracs
  import opened Totals
  import opened Families
  import opened ForestCore
  import opened ForestSteps
  import opened ImproveSteps
  import opened StateOptimality
  import opened LinearOrders
  import opened LinearizationQuality
  import opened Minimality
  import opened Minimizing
  import opened Loading
  import opened Construction
  import opened SpanningForest
  import DG = DepGraphs

  /** The state is one for the transactions `m` with parents `par`, in order, and covers `goal`. */
  ghost predicate Working(c: Core, m: Rates, par: Links, goal: seq<nat>) {
    && Sane(c) && c.rate == m && Par(c) == par && OrderlyState(c)
    && Elems(goal) <= c.rate.Keys && StateCovers(c, goal)
  }

  lemma TopologicalIsOrderly(c: Core)
    requires Sane(c) && TopologicalState(c)
    ensures OrderlyState(c)
  {
    hide Sane, Total, Depends, TxsAt, Par;
    FamilyValid(c);
    TopologicalOrderly(c.rate, Par(c), FamilyOf(c));
  }

  lemma CoversMore(c: Core, d: Core, lin: seq<nat>)
    requires Sane(c) && Sane(d) && NeverWorse(c, d) && SameGraph(c, d) && Elems(lin) <= c.rate.Keys
    requires IsFamily(c.rate, FamilyOf(c)) && IsFamily(d.rate, FamilyOf(d)) && StateCovers(c, lin)
    ensures StateCovers(d, lin)
  {
    hide Sane, Total, Gain, FamilyPotential, TxsAt, Par, Chi, IsFamily;
    forall p, r: FeeFrac | 0 <= p <= |lin| && r.size > 0
      ensures Gain(r, Total(d.rate, Elems(lin[..p]))) <= FamilyPotential(d.rate, FamilyOf(d), r)
    {
      assert Gain(r, Total(c.rate, Elems(lin[..p]))) <= FamilyPotential(c.rate, FamilyOf(c), r);
    }
  }

  lemma StillWorking(c: Core, d: Core, m: Rates, par: Links, goal: seq<nat>)
    requires Working(c, m, par, goal) && Sane(d) && SameGraph(c, d) && NeverWorse(c, d) && OrderlyState(d)
    ensures Working(d, m, par, goal)
  {
    hide Sane, NeverWorse, OrderlyState, StateCovers, Par, Chi;
    FamilyValid(c);
    FamilyValid(d);
    CoversMore(c, d, goal);
  }

  /** Improve until optimal, or until the cost limit is reached. */
  method Optimize(forest: SpanningForestState, cost: nat, maxCost: nat, ghost m: Rates, ghost par: Links,
                  ghost goal: seq<nat>)
    returns (cost': nat)
    requires forest.Valid() && TopologicalState(forest.core) && Working(forest.core, m, par, goal)
    requires cost < maxCost
    modifies forest
    ensures forest.Valid() && Working(forest.core, m, par, goal)
    ensures cost' < maxCost ==> AllOptimal(forest.core)
  {
    hide Sane, TopologicalState, Working, Par, Founded, AllOptimal, RestOptimal, NeverWorse, OrderlyState;
    forest.StartOptimizing();
    cost' := cost;
    while cost' < maxCost
      invariant forest.Valid() && TopologicalState(forest.core) && Working(forest.core, m, par, goal)
      invariant RestOptimal(forest.core, forest.suboptimalIdxs)
      decreases maxCost - cost'
    {
      ghost var c := forest.core;
      var more := forest.OptimizeStep();
      TopologicalIsOrderly(forest.core);
      StillWorking(c, forest.core, m, par, goal);
      var spent :| spent > 0;
      cost' := cost' + spent;
      if !more { return; }
    }
  }

  /** Split chunks until they are minimal, or until the cost limit is reached. */
  method Minimize(forest: SpanningForestState, cost: nat, maxCost: nat, ghost m: Rates, ghost par: Links,
                  ghost goal: seq<nat>)
    returns (done: bool)
    requires forest.Valid() && AllOptimal(forest.core) && Working(forest.core, m, par, goal)
    requires cost < maxCost
    modifies forest
    ensures forest.Valid() && Working(forest.core, m, par, goal)
    ensures done ==> AllOptimal(forest.core) && AllMinimal(forest.core)
  {
    hide Sane, Working, Par, Founded, AllOptimal, AllMinimal, QueueOk, OrderlyState, NeverWorse;
    InOrder(forest.core, m, par, goal);
    forest.StartMinimizing();
    var spent := cost;
    while spent < maxCost
      invariant forest.Valid() && Minimizable(forest.core) && Working(forest.core, m, par, goal)
      invariant QueueOk(forest.core, forest.nonminimalChunks)
      decreases maxCost - spent
    {
      ghost var c := forest.core;
      var more := forest.MinimizeStep();
      StillWorking(c, forest.core, m, par, goal);
      if !more { return true; }
      var step :| step > 0;
      spent := spent + step;
    }
    return false;
  }

  lemma InOrder(c: Core, m: Rates, par: Links, goal: seq<nat>)
    requires Working(c, m, par, goal)
    ensures Sane(c) && OrderlyState(c) && c.rate == m && Par(c) == par
  {
  }

  /** What the blocks of an output are. */
  lemma MinimalBlocks(c: Core, rank: nat -> int, order: seq<nat>, blocks: seq<seq<nat>>, lin: seq<nat>)
    requires IsFamily(c.rate, FamilyOf(c)) && Linearizes(c.rate, Par(c), FamilyOf(c), rank, order, blocks, lin)
    requires AllMinimal(c)
    ensures lin == Flat(blocks)
    ensures forall n :: 0 <= n < |blocks| ==>
              Elems(blocks[n]) <= c.rate.Keys && Minimal(c.rate, Par(c), Elems(blocks[n]))
  {
    hide Minimal, Greedy, ChunkLinks, ChunkKeys, TxsAt, Par;
    forall n | 0 <= n < |blocks| ensures Elems(blocks[n]) <= c.rate.Keys && Minimal(c.rate, Par(c), Elems(blocks[n])) {
      assert BlockOf(c.rate, Par(c), rank, FamilyOf(c)[order[n]], blocks[n]);
      assert order[n] in c.chunks && MinimalAt(c, order[n]);
    }
  }

  ghost predicate BlocksMinimal(m: Rates, par: Links, blocks: seq<seq<nat>>) {
    forall n :: 0 <= n < |blocks| ==> Elems(blocks[n]) <= m.Keys && Minimal(m, par, Elems(blocks[n]))
  }

  /** Linearize a cluster, at least as well as the valid linearization `oldLin`, if one is given.
      When the result is claimed optimal, no valid linearization is better, and its chunks cannot be
      split. */
  method Linearize(depgraph: DG.DepGraph, maxCost: nat, rank: nat -> int, oldLin: seq<nat>, isTopological: bool)
    returns (lin: seq<nat>, optimal: bool, ghost blocks: seq<seq<nat>>)
    requires depgraph.Valid() && DG.Acyclic(depgraph.View()) && PositiveSizes(depgraph.View().rate)
    requires Elems(oldLin) <= depgraph.View().rate.Keys
    requires oldLin != [] && isTopological ==> Construction.Topological(depgraph.View(), oldLin)
    ensures Construction.Topological(depgraph.View(), lin) && Elems(lin) <= depgraph.View().rate.Keys
    ensures oldLin != [] && isTopological ==> NoWorse(depgraph.View().rate, lin, oldLin)
    ensures optimal ==> BestPossible(depgraph.View(), lin)
    ensures optimal ==> lin == Flat(blocks) && BlocksMinimal(depgraph.View().rate, ParentsOf(depgraph.View()), blocks)
  {
    hide Sane, TopologicalState, Working, Par, Chi, Founded, AllOptimal, AllMinimal, OrderlyState, DG.WellFormed,
         DG.Acyclic, PositiveSizes, Singletons, Construction.Topological, StateCovers, ValidLinearization, NoWorse,
         BestPossible, BlocksMinimal, Linearizes, IsFamily, FamilyOf, ParentsOf, DG.InRange, DG.GraphOf;
    ghost var g := depgraph.View();
    ghost var goal := if oldLin != [] && isTopological then oldLin else [];
    var forest := new SpanningForestState(depgraph);
    if oldLin != [] {
      if isTopological { TopologicalByParents(g, oldLin); }
      forest.LoadLinearization(oldLin);
      if !isTopological { forest.MakeTopological(); }
    } else {
      forest.MakeTopological();
    }
    StartWorking(forest.core, goal);
    var cost :| cost >= 0;
    if cost < maxCost {
      cost := Optimize(forest, cost, maxCost, g.rate, ParentsOf(g), goal);
    }
    optimal := false;
    if cost < maxCost {
      optimal := Minimize(forest, cost, maxCost, g.rate, ParentsOf(g), goal);
    }
    InOrder(forest.core, g.rate, ParentsOf(g), goal);
    ghost var order;
    lin, order, blocks := forest.GetLinearization(rank);
    TopologicalByParents(g, lin);
    ValidDistinct(ParentsOf(g), g.rate.Keys, lin);
    Delivered(forest.core, g, rank, order, blocks, lin, goal, optimal);
  }

  lemma StartWorking(c: Core, goal: seq<nat>)
    requires Sane(c) && TopologicalState(c) && Elems(goal) <= c.rate.Keys
    requires goal != [] ==> IsFamily(c.rate, FamilyOf(c)) && StateCovers(c, goal)
    ensures Working(c, c.rate, Par(c), goal)
  {
    hide Sane, TopologicalState, OrderlyState, Total, FamilyPotential, Gain, Par;
    TopologicalIsOrderly(c);
    FamilyValid(c);
    if goal == [] {
      forall p, r: FeeFrac | 0 <= p <= |goal| && r.size > 0
        ensures Gain(r, Total(c.rate, Elems(goal[..p]))) <= FamilyPotential(c.rate, FamilyOf(c), r)
      {
        EmptyGoal(c, r);
        assert Elems(goal[..p]) == {};
      }
    }
  }

  lemma EmptyGoal(c: Core, r: FeeFrac)
    requires IsFamily(c.rate, FamilyOf(c))
    ensures Gain(r, Total(c.rate, {})) == 0 <= FamilyPotential(c.rate, FamilyOf(c), r)
  {
    TotalEmpty(c.rate);
    PotNonNegative(FamilyRates(c.rate, FamilyOf(c)), r);
  }

  lemma {:induction false} PotNonNegative(fr: Rates, r: FeeFrac)
    ensures Pot(fr, r) >= 0
    decreases fr.Keys
  {
    if fr.Keys != {} { PotNonNegative(fr - {Pick(fr.Keys)}, r); }
  }

  lemma Delivered(c: Core, g: DG.Graph, rank: nat -> int, order: seq<nat>, blocks: seq<seq<nat>>, lin: seq<nat>,
                  goal: seq<nat>, optimal: bool)
    requires DG.WellFormed(g) && DG.Acyclic(g) && Elems(lin) <= c.rate.Keys && Working(c, g.rate, ParentsOf(g), goal)
    requires goal != [] ==> Construction.Topological(g, goal)
    requires IsFamily(c.rate, FamilyOf(c)) && Linearizes(c.rate, Par(c), FamilyOf(c), rank, order, blocks, lin)
    requires Elems(order) == c.chunks
    requires optimal ==> AllOptimal(c) && AllMinimal(c)
    ensures Elems(goal) <= g.rate.Keys && Elems(lin) <= g.rate.Keys && (goal != [] ==> NoWorse(g.rate, lin, goal))
    ensures optimal ==> BestPossible(g, lin) && lin == Flat(blocks) && BlocksMinimal(g.rate, ParentsOf(g), blocks)
  {
    hide Sane, Orderly, Par, AllOptimal, AllMinimal, DG.WellFormed, DG.Acyclic, StateCovers, ValidLinearization,
         NoWorse, Linearizes, IsFamily, Minimal, Construction.Topological, FamilyOf, ParentsOf, BestPossible;
    if goal != [] {
      Construction.TopologicalByParents(g, goal);
      ValidDistinct(Par(c), c.rate.Keys, goal);
      OutputNoWorse(c, rank, order, blocks, lin, goal);
    }
    if optimal {
      MinimalBlocks(c, rank, order, blocks, lin);
      DeliveredBest(c, g, rank, order, blocks, lin);
    }
  }

  lemma DeliveredBest(c: Core, g: DG.Graph, rank: nat -> int, order: seq<nat>, blocks: seq<seq<nat>>, lin: seq<nat>)
    requires DG.WellFormed(g) && DG.Acyclic(g) && Elems(lin) <= c.rate.Keys && c.rate == g.rate
    requires Par(c) == ParentsOf(g)
    requires Sane(c) && OrderlyState(c) && AllOptimal(c)
    requires IsFamily(c.rate, FamilyOf(c)) && Linearizes(c.rate, Par(c), FamilyOf(c), rank, order, blocks, lin)
    requires Elems(order) == c.chunks
    ensures BestPossible(g, lin)
  {
    hide Sane, Orderly, Par, AllOptimal, DG.WellFormed, DG.Acyclic, ValidLinearization, NoWorse, Linearizes, IsFamily,
         Construction.Topological, FamilyOf, ParentsOf;
    forall other | Construction.Topological(g, other)
      ensures Elems(other) <= g.rate.Keys && NoWorse(g.rate, lin, other)
    {
      TopologicalByParents(g, other);
      ValidDistinct(Par(c), c.rate.Keys, other);
      OutputOptimal(c, rank, order, blocks, lin, other);
    }
  }

  lemma ValidDistinct(par: Links, all: set<nat>, lin: seq<nat>)
    requires ValidLinearization(par, all, lin)
    ensures Elems(lin) == all && forall a, b :: 0 <= a < b < |lin| ==> lin[a] != lin[b]
  {
  }
}
