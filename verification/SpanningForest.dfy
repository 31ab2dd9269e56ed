/** `SpanningForestState` and `Linearize` (src/cluster_linearize.h). */
module SpanningForest {
  import opened Options
  import opened FeeFracs
  import opened Totals
  import opened Diagrams
  import opened Families
  import opened ForestCore
  import opened ForestSteps
  import opened ImproveSteps
  import opened Optimizing
  import opened MakingTopological
  import opened StateOptimality
  import opened LinearOrders
  import opened LinearizationQuality
  import opened Minimizing
  import opened Loading
  import opened Construction
  import Linearizing
  import DG = DepGraphs

  /** Every chunk that is not in the queue is optimal. */
  ghost predicate RestOptimal(c: Core, idxs: set<nat>) {
    forall i :: i in c.chunks && i !in idxs ==> ChunkOptimal(c, i)
  }

  ghost predicate AllMinimal(c: Core) { forall i :: i in c.chunks ==> MinimalAt(c, i) }

  class SpanningForestState {
    var core: Core
    var suboptimalIdxs: set<nat>       // the elements of suboptimalChunks
    var suboptimalChunks: seq<nat>     // chunks that may still be improved; some may no longer be chunks
    var nonminimalChunks: seq<Attempt> // chunks that may still be split

    ghost predicate Valid()
      reads this
    {
      Sane(core) && Founded(Par(core)) && Holds(suboptimalChunks, suboptimalIdxs)
    }

    constructor (depgraph: DG.DepGraph)
      requires depgraph.Valid() && DG.Acyclic(depgraph.View()) && PositiveSizes(depgraph.View().rate)
      ensures Valid() && Singletons(core) && core.rate == depgraph.View().rate
      ensures Par(core) == ParentsOf(depgraph.View())
      ensures suboptimalChunks == []
    {
      hide Sane, Par, Founded, Singletons;
      var c := Initialize(depgraph);
      core, suboptimalIdxs, suboptimalChunks, nonminimalChunks := c, {}, [], [];
      new;
      ParentsFounded(depgraph.View());
    }

    /** The result is topological, and no worse than `lin`, if `lin` is valid. */
    method LoadLinearization(lin: seq<nat>)
      requires Valid() && Elems(lin) <= core.rate.Keys
      modifies this`core
      ensures Valid() && SameGraph(old(core), core) && IsFamily(core.rate, FamilyOf(core))
      ensures Singletons(old(core)) && ValidLinearization(Par(old(core)), old(core).rate.Keys, lin) ==>
        TopologicalState(core) && StateCovers(core, lin)
    {
      hide Sane, Par, Founded, Singletons, IsFamily, ValidLinearization, TopologicalState, StateCovers;
      core := Loading.LoadLinearization(core, lin);
    }

    method MakeTopological()
      requires Valid() && suboptimalChunks == []
      modifies this`core
      ensures Valid() && SameGraph(old(core), core) && TopologicalState(core)
    {
      hide Sane, Par, Founded, TopologicalState;
      core := MakingTopological.MakeTopological(core);
    }

    method StartOptimizing()
      requires Valid()
      modifies this`suboptimalIdxs, this`suboptimalChunks
      ensures Valid() && RestOptimal(core, suboptimalIdxs)
    {
      hide Sane, Par, Founded;
      suboptimalIdxs := core.chunks;
      suboptimalChunks := Shuffled(core.chunks);
    }

    /** The next chunk of the queue, after dropping entries that are no chunks. */
    method PickChunkToOptimize() returns (chunk: Option<nat>)
      requires Valid() && RestOptimal(core, suboptimalIdxs)
      modifies this`suboptimalIdxs, this`suboptimalChunks
      ensures Valid()
      ensures chunk.None? ==> suboptimalChunks == [] && AllOptimal(core)
      ensures chunk.Some? ==> chunk.value in core.chunks && RestOptimal(core, suboptimalIdxs + {chunk.value})
    {
      hide Sane, Par, Founded, ChunkOptimal;
      while suboptimalChunks != []
        invariant Valid() && RestOptimal(core, suboptimalIdxs)
        decreases |suboptimalChunks|
      {
        var i := suboptimalChunks[0];
        PopFront(suboptimalChunks, suboptimalIdxs);
        assert suboptimalIdxs - {i} + {i} == suboptimalIdxs;
        suboptimalIdxs, suboptimalChunks := suboptimalIdxs - {i}, suboptimalChunks[1..];
        if i in core.chunks { return Some(i); }
      }
      return None;
    }

    /** Improve one chunk.  The state stays topological and never gets worse; false is only returned
        when it is optimal. */
    method OptimizeStep() returns (more: bool)
      requires Valid() && TopologicalState(core) && RestOptimal(core, suboptimalIdxs)
      modifies this`core, this`suboptimalIdxs, this`suboptimalChunks
      ensures Valid() && SameGraph(old(core), core) && TopologicalState(core) && NeverWorse(old(core), core)
      ensures RestOptimal(core, suboptimalIdxs) && (!more ==> AllOptimal(core))
    {
      hide Sane, Par, Chi, Founded, ChunkOptimal, TopologicalState, NeverWorse, Better, Improvable, OnlyQueuedChanged,
           RateAt;
      SameState(core);
      var chunk := PickChunkToOptimize();
      if chunk.None? { return false; }
      var dep := PickDependencyToSplit(core, chunk.value);
      if dep.None? {
        assert suboptimalChunks == [] ==> suboptimalIdxs == {} by {
          forall i ensures i in suboptimalIdxs ==> i in suboptimalChunks { }
        }
        return suboptimalChunks != [];
      }
      var d, queued, self := Improve(core, dep.value.0, dep.value.1);
      var q, idxs := suboptimalChunks, suboptimalIdxs;
      ghost var idxs0 := idxs;
      RestAfter(core, d, idxs0, chunk.value, queued);
      for n := 0 to |queued|
        invariant Holds(q, idxs) && idxs == idxs0 + set i | i in queued[..n]
      {
        assert queued[..n + 1] == queued[..n] + [queued[n]];
        q, idxs := PushBack(q, idxs, queued[n]);
      }
      assert queued[..|queued|] == queued;
      core, suboptimalChunks, suboptimalIdxs := d, q, idxs;
      return true;
    }

    method StartMinimizing()
      requires Valid()
      modifies this`nonminimalChunks
      ensures Valid() && QueueOk(core, nonminimalChunks)
    {
      hide Sane, Par, Founded, QueueOk;
      nonminimalChunks := Minimizing.StartMinimizing(core);
    }

    /** Split one chunk, or find that it cannot be; false when all chunks are minimal. */
    method MinimizeStep() returns (more: bool)
      requires Valid() && Minimizable(core) && QueueOk(core, nonminimalChunks)
      modifies this`core, this`nonminimalChunks
      ensures Valid() && Kept(old(core), core) && QueueOk(core, nonminimalChunks)
      ensures !more ==> AllMinimal(core)
    {
      hide Sane, Par, Chi, Founded, QueueOk, MinimalAt, AllOptimal, OrderlyState, SameDiagram;
      core, nonminimalChunks, more := Minimizing.MinimizeStep(core, nonminimalChunks);
    }

    method GetLinearization(rank: nat -> int)
      returns (lin: seq<nat>, ghost order: seq<nat>, ghost blocks: seq<seq<nat>>)
      requires Valid() && OrderlyState(core)
      ensures IsFamily(core.rate, FamilyOf(core))
      ensures Linearizes(core.rate, Par(core), FamilyOf(core), rank, order, blocks, lin)
      ensures Elems(order) == core.chunks && ValidLinearization(Par(core), core.rate.Keys, lin)
    {
      hide Sane, Par, Founded, Orderly, Linearizes, IsFamily, ValidLinearization, FamilyOf;
      FamilyValid(core);
      lin, order, blocks := Linearizing.GetLinearization(core, rank);
    }
  }

  lemma SameState(c: Core)
    requires Sane(c)
    ensures NeverWorse(c, c)
  {
    hide Sane;
    FamilyValid(c);
  }

  lemma RestAfter(c: Core, d: Core, idxs: set<nat>, split: nat, queued: seq<nat>)
    requires RestOptimal(c, idxs + {split}) && OnlyQueuedChanged(c, d, split, queued)
    ensures RestOptimal(d, idxs + set i | i in queued)
  {
    hide ChunkOptimal;
  }

  /** The feerates in `ret` are those of the chunks in `s`. */
  ghost predicate ExactlyRates(c: Core, s: set<nat>, ret: seq<FeeFrac>) {
    forall r :: r in ret <==> exists i :: i in s && RateAt(c, i) == r
  }

  lemma OneMoreRate(c: Core, s: set<nat>, ret: seq<FeeFrac>, i: nat)
    requires ExactlyRates(c, s, ret)
    ensures ExactlyRates(c, s + {i}, ret + [RateAt(c, i)])
  {
    hide RateAt;
    var more := ret + [RateAt(c, i)];
    forall r ensures r in more <==> r in ret || r == RateAt(c, i) { }
  }

  /** The chunks outside `todo` are listed, with feerates that are sorted and not below those in `todo`. */
  ghost predicate Collected(c: Core, todo: set<nat>, ret: seq<FeeFrac>, order: seq<nat>) {
    && IsFamily(c.rate, FamilyOf(c)) && todo <= c.chunks && Elems(order) == c.chunks - todo
    && (forall a, b :: 0 <= a < b < |order| ==> order[a] != order[b])
    && (forall a :: 0 <= a < |order| ==> order[a] in FamilyOf(c))
    && ret == RatesIn(c.rate, FamilyOf(c), order) && Sizes(ret) && Sorted(ret)
    && (forall a, i :: 0 <= a < |ret| && i in todo ==> AtMost(RateAt(c, i), ret[a]))
  }

  lemma CollectOne(c: Core, todo: set<nat>, ret: seq<FeeFrac>, order: seq<nat>, i: nat)
    requires Sane(c) && Collected(c, todo, ret, order) && i in todo
    requires forall j :: j in todo ==> AtMost(RateAt(c, j), RateAt(c, i))
    ensures Collected(c, todo - {i}, ret + [RateAt(c, i)], order + [i])
  {
    hide Sane, IsFamily, TxsAt, RateAt, Total, RatesIn, Sizes, Sorted, AtMost;
    FamilyValid(c);
    ChunkSize(c, i);
    FamilyMember(c.rate, FamilyOf(c), i);
    ListOne(c.rate, FamilyOf(c), order, ret, i, RateAt(c, i));
    assert Elems(order + [i]) == Elems(order) + {i};
  }

  lemma CollectedAll(c: Core, ret: seq<FeeFrac>, order: seq<nat>)
    requires Collected(c, {}, ret, order)
    ensures DiagramOf(c.rate, FamilyOf(c), order, ret) && Sorted(ret)
  {
    hide IsFamily, TxsAt, RateAt, Total, RatesIn, Sizes, Sorted;
  }

  /** The feerates of the chunks, highest first. */
  method GetDiagram(c: Core) returns (ret: seq<FeeFrac>, ghost order: seq<nat>)
    requires Sane(c)
    ensures Sorted(ret) && |ret| == |c.chunks| && ExactlyRates(c, c.chunks, ret)
    ensures IsFamily(c.rate, FamilyOf(c)) && DiagramOf(c.rate, FamilyOf(c), order, ret)
  {
    hide Sane, IsFamily, TxsAt, RateAt, Total, Before, ExactlyRates, Collected, DiagramOf, Sorted, FamilyOf, AtMost,
         Par, Chi, Inverse;
    FamilyValid(c);
    var keys := map i | i in c.chunks :: Key(RateAt(c, i), 0);
    forall i | i in c.chunks ensures RateAt(c, i).size > 0 { ChunkSize(c, i); }
    ret, order := [], [];
    var todo := c.chunks;
    NoRates(c);
    while todo != {}
      invariant todo <= c.chunks && |ret| + |todo| == |c.chunks|
      invariant Collected(c, todo, ret, order) && ExactlyRates(c, c.chunks - todo, ret)
    {
      var i := Linearizing.PopFirst(todo, keys);
      forall j | j in todo ensures AtMost(RateAt(c, j), RateAt(c, i)) { NotBeforeNotHigher(keys[j], keys[i]); }
      CollectOne(c, todo, ret, order, i);
      assert c.chunks - (todo - {i}) == c.chunks - todo + {i};
      OneMoreRate(c, c.chunks - todo, ret, i);
      ret, order, todo := ret + [RateAt(c, i)], order + [i], todo - {i};
    }
    assert c.chunks - todo == c.chunks;
    CollectedAll(c, ret, order);
  }

  lemma NotBeforeNotHigher(a: Key, b: Key)
    requires !Before(a, b)
    ensures AtMost(a.rate, b.rate)
  {
  }

  lemma NoRates(c: Core)
    requires IsFamily(c.rate, FamilyOf(c))
    ensures Collected(c, c.chunks, [], []) && ExactlyRates(c, c.chunks - c.chunks, [])
  {
  }

  lemma ListOne(m: Rates, k: Family, order: seq<nat>, ret: seq<FeeFrac>, i: nat, r: FeeFrac)
    requires IsFamily(m, k) && i in k && (forall a :: 0 <= a < |order| ==> order[a] in k) && k[i] <= m.Keys
    requires r == Total(m, k[i]) && r.size > 0
    requires ret == RatesIn(m, k, order) && Sizes(ret) && Sorted(ret)
    requires forall a :: 0 <= a < |ret| ==> AtMost(r, ret[a])
    ensures (forall a :: 0 <= a < |order + [i]| ==> (order + [i])[a] in k)
    ensures ret + [r] == RatesIn(m, k, order + [i]) && Sizes(ret + [r]) && Sorted(ret + [r])
  {
    hide IsFamily, Total, AtMost;
    assert (order + [i])[..|order|] == order;
  }
}
