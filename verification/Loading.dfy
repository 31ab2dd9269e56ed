/** Starting from an existing linearization (`LoadLinearization`, src/cluster_linearize.h). */
module Loading {
  import opened FeeFracs
  import opened Totals
  import opened Diagrams
  import opened Families
  import opened Improving
  import opened ForestCore
  import opened ForestSteps
  import opened MergeCandidates
  import opened MergeSequences
  import opened ImproveSteps
  import opened StateOptimality
  import opened LinearOrders
  import opened LinearizationQuality

  /** The chunks made of transactions of `p` only. */
  ghost function Loaded(k: Family, p: set<nat>): Family { map i | i in k && k[i] <= p :: k[i] }

  /** The transactions `p` have been loaded: they are in topological chunks, the others still are
      chunks of their own. */
  ghost predicate Loading(m: Rates, par: Links, k: Family, p: set<nat>)
    requires IsFamily(m, k)
  {
    && ParentClosed(par, p) && p <= m.Keys && par.Keys == m.Keys
    && (forall i :: i in k && !(k[i] <= p) ==> exists y :: y !in p && k[i] == {y})
    && (forall i, j :: i in k && j in k && i != j && k[i] <= p && Depends(par, k[i], k[j]) ==>
         Lower(Total(m, k[i]), Total(m, k[j])))
  }

  /** Loading `x`, the next transaction, at index `xi`. */
  ghost predicate LoadsNext(m: Rates, par: Links, k: Family, p: set<nat>, x: nat, xi: nat, order: seq<nat>) {
    && IsFamily(m, k) && Loading(m, par, k, p) && xi in k && k[xi] == {x} && x !in p && x in par && par[x] <= p
    && Running(m, k - {xi}, {x}, order) && Run(m, par, k - {xi}, {x}, order)
  }

  /** A loaded set only depends on loaded chunks. */
  lemma DependsOnLoaded(par: Links, p: set<nat>, x: nat, s: set<nat>, t: set<nat>)
    requires ParentClosed(par, p) && x in par && par[x] <= p && s <= p + {x} && x !in t && Depends(par, s, t)
    requires t <= p || exists y :: y !in p && t == {y}
    ensures t <= p
  {
    var u, q :| u in s && u in par && q in par[u] && q in t;
    assert q in p;
  }

  lemma {:induction false} OnlyLoaded(m: Rates, par: Links, k: Family, p: set<nat>, x: nat, xi: nat, order: seq<nat>)
    requires LoadsNext(m, par, k, p, x, xi, order)
    ensures Cur(k - {xi}, {x}, order) <= p + {x} && forall i :: i in order ==> i in k && k[i] <= p
    decreases |order|
  {
    hide Total, Depends, Loading, IsFamily, AtMost;
    if order != [] {
      var n := |order| - 1;
      var others, u := k - {xi}, order[n];
      RunningPrefix(m, others, {x}, order);
      OnlyLoaded(m, par, k, p, x, xi, order[..n]);
      assert Candidate(m, par, others, {x}, order[..n], u);
      LoadedCandidate(m, par, k, p, x, xi, order[..n], u);
      assert order == order[..n] + [u];
    }
  }

  lemma LoadedCandidate(m: Rates, par: Links, k: Family, p: set<nat>, x: nat, xi: nat, pre: seq<nat>, u: nat)
    requires IsFamily(m, k) && Loading(m, par, k, p) && xi in k && k[xi] == {x} && x in par && par[x] <= p
    requires u in k && u != xi && (forall n :: 0 <= n < |pre| ==> pre[n] in k - {xi})
    requires Cur(k - {xi}, {x}, pre) <= p + {x}
    requires Depends(par, Cur(k - {xi}, {x}, pre), k[u])
    ensures k[u] <= p
  {
    hide Total, Depends, ParentClosed;
    NotBoth({x}, k[u], x);
    assert k[u] <= p || exists y :: y !in p && k[u] == {y};
    DependsOnLoaded(par, p, x, Cur(k - {xi}, {x}, pre), k[u]);
  }

  lemma LoadRising(m: Rates, par: Links, k: Family, p: set<nat>, x: nat, xi: nat, order: seq<nat>)
    requires LoadsNext(m, par, k, p, x, xi, order)
    ensures Rising(m, par, k - {xi}, order)
  {
    hide Total, Depends, ParentClosed, Running, Run;
    OnlyLoaded(m, par, k, p, x, xi, order);
  }

  ghost function LoadResult(k: Family, x: nat, xi: nat, order: seq<nat>): Family
    requires forall n :: 0 <= n < |order| ==> order[n] in k - {xi}
  {
    Without(k - {xi}, order)[xi := Cur(k - {xi}, {x}, order)]
  }

  /** The chunk that `x` ends up in, against the chunks left alone. */
  lemma LoadCur(m: Rates, par: Links, k: Family, p: set<nat>, x: nat, xi: nat, order: seq<nat>, j: nat)
    requires LoadsNext(m, par, k, p, x, xi, order) && Finished(m, par, k - {xi}, {x}, order)
    requires j in k && j != xi && j !in order
    ensures var cur := Cur(k - {xi}, {x}, order);
            && cur <= m.Keys
            && (Depends(par, cur, k[j]) ==> Lower(Total(m, cur), Total(m, k[j])))
            && (k[j] <= p && Depends(par, k[j], cur) ==> Lower(Total(m, k[j]), Total(m, cur)))
  {
    hide Total, Depends, ParentClosed, Run, Dominates;
    var others := k - {xi};
    var cur := Cur(others, {x}, order);
    LoadRising(m, par, k, p, x, xi, order);
    CurTotal(m, others, {x}, order);
    Ascends(m, par, others, {x}, order);
    assert !Candidate(m, par, others, {x}, order, j);
    if k[j] <= p && Depends(par, k[j], cur) {
      DependsCur(par, others, {x}, order, k[j]);
      OlderThan(par, p, k[j], x);
      var i :| i in order && i in others && Depends(par, k[j], others[i]);
      assert Lower(Total(m, k[j]), Total(m, k[i]));
      TotalSize(m, k[j]);
      TotalSize(m, k[i]);
      RatioTransitive(Total(m, k[j]), Total(m, k[i]), Total(m, cur));
    }
  }

  lemma OlderThan(par: Links, p: set<nat>, s: set<nat>, x: nat)
    requires ParentClosed(par, p) && s <= p && x !in p
    ensures !Depends(par, s, {x})
  {
  }

  lemma LoadShape(m: Rates, par: Links, k: Family, p: set<nat>, x: nat, xi: nat, order: seq<nat>, i: nat)
    requires LoadsNext(m, par, k, p, x, xi, order) && i in LoadResult(k, x, xi, order)
    ensures var f := LoadResult(k, x, xi, order);
            && (i == xi ==> f[i] == Cur(k - {xi}, {x}, order) && f[i] <= p + {x})
            && (i != xi ==> i in k && i !in order && f[i] == k[i] && x !in f[i] && (f[i] <= p + {x} <==> f[i] <= p))
            && (!(f[i] <= p + {x}) ==> exists y :: y !in p + {x} && f[i] == {y})
  {
    hide Total, Depends, ParentClosed, Run;
    OnlyLoaded(m, par, k, p, x, xi, order);
    if i != xi {
      NotBoth({x}, k[i], x);
      if !(k[i] <= p + {x}) {
        var y :| y !in p && k[i] == {y};
        assert y !in p + {x} && k[i] == {y};
      }
    }
  }

  lemma LoadPair(m: Rates, par: Links, k: Family, p: set<nat>, x: nat, xi: nat, order: seq<nat>, i: nat, j: nat)
    requires LoadsNext(m, par, k, p, x, xi, order) && Finished(m, par, k - {xi}, {x}, order)
    requires IsFamily(m, LoadResult(k, x, xi, order))
    requires i in LoadResult(k, x, xi, order) && j in LoadResult(k, x, xi, order) && i != j
    requires LoadResult(k, x, xi, order)[i] <= p + {x}
    requires Depends(par, LoadResult(k, x, xi, order)[i], LoadResult(k, x, xi, order)[j])
    ensures Lower(Total(m, LoadResult(k, x, xi, order)[i]), Total(m, LoadResult(k, x, xi, order)[j]))
  {
    hide Total, Depends, ParentClosed, Run, LoadResult, Finished, Running, Cur;
    LoadShape(m, par, k, p, x, xi, order, i);
    LoadShape(m, par, k, p, x, xi, order, j);
    if i == xi {
      LoadCur(m, par, k, p, x, xi, order, j);
    } else if j == xi {
      LoadCur(m, par, k, p, x, xi, order, i);
    }
  }

  lemma LoadedNext(m: Rates, par: Links, k: Family, p: set<nat>, x: nat, xi: nat, order: seq<nat>)
    requires LoadsNext(m, par, k, p, x, xi, order) && Finished(m, par, k - {xi}, {x}, order)
    requires IsFamily(m, LoadResult(k, x, xi, order))
    ensures Loading(m, par, LoadResult(k, x, xi, order), p + {x})
  {
    hide Total, Depends, Run, LoadResult, Finished;
    var f := LoadResult(k, x, xi, order);
    forall i | i in f && !(f[i] <= p + {x}) ensures exists y :: y !in p + {x} && f[i] == {y} {
      LoadShape(m, par, k, p, x, xi, order, i);
    }
    forall i, j | i in f && j in f && i != j && f[i] <= p + {x} && Depends(par, f[i], f[j])
      ensures Lower(Total(m, f[i]), Total(m, f[j]))
    {
      LoadPair(m, par, k, p, x, xi, order, i, j);
    }
  }

  // ----- the diagram of what has been loaded

  lemma LoadedFamily(m: Rates, k: Family, p: set<nat>)
    requires IsFamily(m, k)
    ensures IsFamily(m, Loaded(k, p))
  {
  }

  /** Loading a transaction loses nothing of the diagram of those before it. */
  lemma LoadGains(m: Rates, par: Links, k: Family, p: set<nat>, x: nat, xi: nat, order: seq<nat>, r: FeeFrac)
    requires LoadsNext(m, par, k, p, x, xi, order) && IsFamily(m, LoadResult(k, x, xi, order)) && r.size > 0
    ensures IsFamily(m, Loaded(k, p)) && IsFamily(m, Loaded(LoadResult(k, x, xi, order), p + {x}))
    ensures FamilyPotential(m, Loaded(k, p), r) <= FamilyPotential(m, Loaded(LoadResult(k, x, xi, order), p + {x}), r)
  {
    hide Total, Depends, ParentClosed, Run, FamilyPotential, Gain, Potential, RatesIn, Loading, Running;
    LoadOrder(m, par, k, p, x, xi, order);
    var others, f := k - {xi}, LoadResult(k, x, xi, order);
    var cur := Cur(others, {x}, order);
    LoadedFamily(m, k, p);
    LoadedFamily(m, f, p + {x});
    var before := Loaded(k, p);
    FamilyWithoutAll(m, before, order, r);
    RatesInSame(m, others, before, order);
    LoadRising(m, par, k, p, x, xi, order);
    Ascends(m, par, others, {x}, order);
    LoadedSplit(m, par, k, p, x, xi, order);
    var after := Loaded(f, p + {x});
    FamilyWithout(m, after, xi, r);
    assert Gain(r, Total(m, cur)) == Gain(r, Total(m, after[xi]));
  }

  lemma LoadOrder(m: Rates, par: Links, k: Family, p: set<nat>, x: nat, xi: nat, order: seq<nat>)
    requires LoadsNext(m, par, k, p, x, xi, order)
    ensures forall n :: 0 <= n < |order| ==>
      order[n] in Loaded(k, p) && order[n] in k - {xi} && (k - {xi})[order[n]] == Loaded(k, p)[order[n]]
    ensures forall a, b :: 0 <= a < b < |order| ==> order[a] != order[b]
    ensures IsFamily(m, k - {xi})
  {
    hide Total, Depends, ParentClosed, Run;
    OnlyLoaded(m, par, k, p, x, xi, order);
    forall n | 0 <= n < |order| ensures order[n] in Loaded(k, p) { assert order[n] in order; }
  }

  lemma LoadedSplit(m: Rates, par: Links, k: Family, p: set<nat>, x: nat, xi: nat, order: seq<nat>)
    requires LoadsNext(m, par, k, p, x, xi, order)
    ensures var after := Loaded(LoadResult(k, x, xi, order), p + {x});
            && xi in after && after[xi] == Cur(k - {xi}, {x}, order)
            && after - {xi} == Without(Loaded(k, p), order)
  {
    hide Total, Depends, ParentClosed, Run, Cur, IsFamily;
    var f := LoadResult(k, x, xi, order);
    var after, before := Loaded(f, p + {x}), Without(Loaded(k, p), order);
    LoadShape(m, par, k, p, x, xi, order, xi);
    forall i | i in f ensures i != xi ==> i in k && i !in order && f[i] == k[i] && (f[i] <= p + {x} <==> f[i] <= p) {
      LoadShape(m, par, k, p, x, xi, order, i);
    }
    assert xi !in Loaded(k, p);
    forall i ensures i in after - {xi} <==> i in before { }
  }

  /** All that has been loaded is in chunks of loaded transactions. */
  lemma LoadedWhole(m: Rates, par: Links, k: Family, p: set<nat>, r: FeeFrac)
    requires IsFamily(m, k) && Spans(m, par, k) && Loading(m, par, k, p)
    ensures IsFamily(m, Loaded(k, p)) && Gain(r, Total(m, p)) <= FamilyPotential(m, Loaded(k, p), r)
  {
    hide Total, Gain, FamilyPotential, Depends, ParentClosed, IsFamily, Spans;
    LoadedFamily(m, k, p);
    var f := Loaded(k, p);
    forall x | x in p ensures exists i :: i in f && x in f[i] {
      var i := InLoaded(m, par, k, p, x);
      assert i in f && x in f[i];
    }
    assert p <= m.Keys;
    forall i | i in f ensures f[i] <= m.Keys && p * f[i] == f[i] {
      FamilyMember(m, f, i);
    }
    hide Loading, Loaded;
    forall i | i in f ensures Gain(r, Total(m, p * f[i])) <= Max0(Gain(r, Total(m, f[i]))) { }
    PartsWithin(m, f, p, r);
  }

  lemma InLoaded(m: Rates, par: Links, k: Family, p: set<nat>, x: nat) returns (i: nat)
    requires IsFamily(m, k) && Spans(m, par, k) && Loading(m, par, k, p) && x in p
    ensures i in Loaded(k, p) && x in Loaded(k, p)[i]
  {
    hide IsFamily, Spans, Depends, ParentClosed, Total, Lower;
    i := InSome(m, par, k, x);
  }

  // ----- the state

  ghost predicate Singletons(c: Core) {
    forall i :: i in c.chunks ==> exists y :: TxsAt(c, i) == {y}
  }

  /** The first `p` transactions of `lin` have been loaded, and nothing of their diagram is lost. */
  ghost predicate LoadedPrefix(c: Core, lin: seq<nat>, p: nat) {
    && p <= |lin| && Elems(lin) <= c.rate.Keys && IsFamily(c.rate, FamilyOf(c))
    && Loading(c.rate, Par(c), FamilyOf(c), Elems(lin[..p]))
    && (LoadedFamily(c.rate, FamilyOf(c), Elems(lin[..p]));
        forall q, r: FeeFrac :: 0 <= q <= p && r.size > 0 ==>
          Gain(r, Total(c.rate, Elems(lin[..q]))) <= FamilyPotential(c.rate, Loaded(FamilyOf(c), Elems(lin[..p])), r))
  }

  lemma NothingLoaded(c: Core, lin: seq<nat>)
    requires Elems(lin) <= c.rate.Keys && Sane(c) && IsFamily(c.rate, FamilyOf(c)) && Singletons(c)
    ensures LoadedPrefix(c, lin, 0)
  {
    hide Sane, Total, Depends, FamilyPotential, TxsAt, Gain;
    FamilyValid(c);
    var k := FamilyOf(c);
    assert Elems(lin[..0]) == {};
    forall i | i in k ensures !(k[i] <= {}) && exists y :: y !in {} && k[i] == {y} {
      var y :| TxsAt(c, i) == {y};
      assert y !in {} && k[i] == {y};
    }
    forall r: FeeFrac ensures Gain(r, Total(c.rate, {})) == 0 == FamilyPotential(c.rate, Loaded(k, {}), r) {
      TotalEmpty(c.rate);
      EmptyFamily(c.rate, Loaded(k, {}), r);
    }
  }

  lemma OwnSingleton(c: Core, p: set<nat>, x: nat)
    requires Sane(c) && IsFamily(c.rate, FamilyOf(c)) && Loading(c.rate, Par(c), FamilyOf(c), p) && x in c.rate
    requires x !in p
    ensures x in c.tx && c.tx[x].chunkIdx in c.chunks && TxsAt(c, c.tx[x].chunkIdx) == {x}
  {
    hide Sane, Total, Depends, ParentClosed, TxsAt;
    ChunkOf(c, x);
  }

  lemma LoadStarts(c: Core, d: Core, p: set<nat>, x: nat, order: seq<nat>, at: nat)
    requires Sane(c) && Sane(d) && x in c.tx && c.tx[x].chunkIdx in c.chunks && TxsAt(c, c.tx[x].chunkIdx) == {x}
    requires IsFamily(c.rate, FamilyOf(c)) && Loading(c.rate, Par(c), FamilyOf(c), p) && x !in p && c.tx[x].parents <= p
    requires MergedBy(c, d, c.tx[x].chunkIdx, false, order, at)
    requires Finished(Directed(c.rate, false), LinksOf(c, false), OthersOf(c, c.tx[x].chunkIdx), {x}, order)
    ensures SameGraph(c, d) && LoadsNext(c.rate, Par(c), FamilyOf(c), p, x, c.tx[x].chunkIdx, order)
    ensures Finished(c.rate, Par(c), FamilyOf(c) - {c.tx[x].chunkIdx}, {x}, order)
    ensures FamilyOf(d) == LoadResult(FamilyOf(c), x, c.tx[x].chunkIdx, order)
  {
    hide Sane, Total, Depends, Loading, TxsAt, Run, Finished, OptimalKept, IsFamily;
  }

  lemma LoadedStep(c: Core, d: Core, lin: seq<nat>, p: nat, xi: nat, order: seq<nat>)
    requires p < |lin| && Elems(lin) <= c.rate.Keys && SameGraph(c, d) && Sane(d)
    requires IsFamily(c.rate, FamilyOf(c)) && IsFamily(d.rate, FamilyOf(d)) && LoadedPrefix(c, lin, p)
    requires LoadsNext(c.rate, Par(c), FamilyOf(c), Elems(lin[..p]), lin[p], xi, order)
    requires Finished(c.rate, Par(c), FamilyOf(c) - {xi}, {lin[p]}, order)
    requires FamilyOf(d) == LoadResult(FamilyOf(c), lin[p], xi, order)
    ensures LoadedPrefix(d, lin, p + 1)
  {
    hide Sane, Total, Depends, Loading, TxsAt, Run, Finished, Gain, FamilyPotential, IsFamily, FamilyOf, Par,
         LoadResult, LoadsNext, Loaded;
    var P, x := Elems(lin[..p]), lin[p];
    assert lin[..p + 1] == lin[..p] + [x];
    assert Elems(lin[..p + 1]) == P + {x};
    var m, k, f := c.rate, FamilyOf(c), FamilyOf(d);
    LoadedNext(m, Par(c), k, P, x, xi, order);
    StateSpans(d);
    LoadedFamily(m, f, P + {x});
    forall q, r: FeeFrac | 0 <= q <= p + 1 && r.size > 0
      ensures Gain(r, Total(m, Elems(lin[..q]))) <= FamilyPotential(m, Loaded(f, P + {x}), r)
    {
      if q <= p {
        LoadGains(m, Par(c), k, P, x, xi, order, r);
      } else {
        LoadedWhole(m, Par(c), f, P + {x}, r);
      }
    }
  }

  lemma AllLoaded(c: Core, lin: seq<nat>)
    requires Elems(lin) == c.rate.Keys && Sane(c) && IsFamily(c.rate, FamilyOf(c)) && LoadedPrefix(c, lin, |lin|)
    ensures TopologicalState(c) && StateCovers(c, lin)
  {
    hide Sane, Total, Depends, TxsAt, Gain, FamilyPotential;
    assert lin[..|lin|] == lin;
    var k := FamilyOf(c);
    forall i | i in k ensures k[i] <= c.rate.Keys { FamilyMember(c.rate, k, i); }
    assert Loaded(k, c.rate.Keys) == k;
  }

  /** Merge the transactions upwards one by one, in the order of `lin`.  If the linearization is
      valid, the state becomes topological and is no worse than it. */
  method LoadLinearization(c: Core, lin: seq<nat>) returns (d: Core)
    requires Sane(c) && Elems(lin) <= c.rate.Keys
    ensures Sane(d) && SameGraph(c, d) && IsFamily(d.rate, FamilyOf(d))
    ensures Singletons(c) && ValidLinearization(Par(c), c.rate.Keys, lin) ==> TopologicalState(d) && StateCovers(d, lin)
  {
    hide Sane, TxsAt, IsFamily, Singletons, ValidLinearization, TopologicalState, StateCovers, LoadedPrefix, MergedBy,
         Finished, LoadsNext, Par, Chi, Directed, LinksOf, OthersOf;
    d := c;
    ghost var good := Singletons(c) && ValidLinearization(Par(c), c.rate.Keys, lin);
    StateFamily(d);
    if good { NothingLoaded(c, lin); }
    for p := 0 to |lin|
      invariant Sane(d) && SameGraph(c, d) && IsFamily(d.rate, FamilyOf(d)) && (good ==> LoadedPrefix(d, lin, p))
    {
      var x := lin[p];
      assert x in Elems(lin);
      OwnIdx(d, x);
      var e, at, order := MergeSequence(d, d.tx[x].chunkIdx, false);
      StateFamily(e);
      MergedSame(d, e, d.tx[x].chunkIdx, false, order, at);
      if good { LoadOne(c, d, e, lin, p, order, at); }
      d := e;
    }
    if good { LoadsAll(c, lin); AllLoaded(d, lin); }
  }

  lemma StateFamily(c: Core)
    requires Sane(c)
    ensures IsFamily(c.rate, FamilyOf(c))
  {
    FamilyValid(c);
  }

  lemma OwnIdx(c: Core, x: nat)
    requires Sane(c) && x in c.rate
    ensures x in c.tx && c.tx[x].chunkIdx in c.chunks
  {
    ChunkOf(c, x);
  }

  lemma LoadsAll(c: Core, lin: seq<nat>)
    requires ValidLinearization(Par(c), c.rate.Keys, lin)
    ensures Elems(lin) == c.rate.Keys
  {
  }

  lemma NextParents(c: Core, d: Core, lin: seq<nat>, p: nat)
    requires ValidLinearization(Par(c), c.rate.Keys, lin) && Par(d) == Par(c) && p < |lin| && lin[p] in d.tx
    ensures lin[p] !in Elems(lin[..p]) && d.tx[lin[p]].parents <= Elems(lin[..p])
  {
    assert lin[p] in Par(d) && Par(d)[lin[p]] == d.tx[lin[p]].parents;
  }

  lemma PrefixLoading(c: Core, lin: seq<nat>, p: nat)
    requires p <= |lin| && Elems(lin) <= c.rate.Keys && IsFamily(c.rate, FamilyOf(c)) && LoadedPrefix(c, lin, p)
    ensures Loading(c.rate, Par(c), FamilyOf(c), Elems(lin[..p]))
  {
  }

  lemma LoadOne(c: Core, d: Core, e: Core, lin: seq<nat>, p: nat, order: seq<nat>, at: nat)
    requires p < |lin| && lin[p] in d.tx && lin[p] in d.rate && d.tx[lin[p]].chunkIdx in d.chunks
    requires MergedBy(d, e, d.tx[lin[p]].chunkIdx, false, order, at)
    requires var xi := d.tx[lin[p]].chunkIdx; Finished(Directed(d.rate, false), LinksOf(d, false), OthersOf(d, xi),
                                                       TxsAt(d, xi), order)
    requires Elems(lin) <= d.rate.Keys && IsFamily(d.rate, FamilyOf(d)) && LoadedPrefix(d, lin, p)
    requires ValidLinearization(Par(c), c.rate.Keys, lin) && SameGraph(c, d)
    requires Sane(d) && Sane(e) && IsFamily(e.rate, FamilyOf(e))
    ensures LoadedPrefix(e, lin, p + 1)
  {
    hide Sane, TxsAt, IsFamily, ValidLinearization, LoadedPrefix, MergedBy, Finished, LoadsNext, Par, Chi, Directed,
         LinksOf, OthersOf, Loading, Running, FamilyOf;
    var x, P := lin[p], Elems(lin[..p]);
    NextParents(c, d, lin, p);
    PrefixLoading(d, lin, p);
    OwnSingleton(d, P, x);
    LoadStarts(d, e, P, x, order, at);
    LoadedStep(d, e, lin, p, d.tx[x].chunkIdx, order);
  }
}
