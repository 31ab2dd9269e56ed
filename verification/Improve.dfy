/** Splitting a chunk and restoring topology (`Improve`, src/cluster_linearize.h). */
module ImproveSteps {
  import opened FeeFracs
  import opened Totals
  import opened Forests
  import opened Families
  import opened Improving
  import opened ForestCore
  import opened ForestSteps
  import opened ForestUpdates
  import opened MergeCandidates
  import opened MergeSequences

  /** The chunks of a state are topological: higher feerate than what depends on them. */
  ghost predicate TopologicalState(c: Core)
    requires Sane(c)
  {
    FamilyValid(c);
    Topological(c.rate, Par(c), FamilyOf(c))
  }

  /** At every threshold, the diagram of `d` is at least as high as that of `c`. */
  ghost predicate NeverWorse(c: Core, d: Core)
    requires Sane(c) && Sane(d)
  {
    FamilyValid(c);
    FamilyValid(d);
    forall r: FeeFrac {:trigger FamilyPotential(d.rate, FamilyOf(d), r)} :: r.size > 0 ==>
      FamilyPotential(c.rate, FamilyOf(c), r) <= FamilyPotential(d.rate, FamilyOf(d), r)
  }

  /** At the threshold `r`, the diagram of `d` is higher by at least `gain`. */
  ghost predicate Better(c: Core, d: Core, r: FeeFrac, gain: int)
    requires Sane(c) && Sane(d)
  {
    FamilyValid(c);
    FamilyValid(d);
    r.size > 0 && gain > 0 && FamilyPotential(c.rate, FamilyOf(c), r) + gain <= FamilyPotential(d.rate, FamilyOf(d), r)
  }

  /** Chunks outside `queued` are old chunks other than `split`, as optimal as they were. */
  ghost predicate OnlyQueuedChanged(c: Core, d: Core, split: nat, queued: seq<nat>) {
    forall i :: i in d.chunks && i !in queued ==>
      i in c.chunks && i != split && (ChunkOptimal(c, i) ==> ChunkOptimal(d, i))
  }

  /** A dependency whose top set has a higher feerate than its chunk. */
  ghost predicate Improvable(c: Core, p: nat, ch: nat) {
    && CanDeactivate(c, p, ch) && ch in c.tx[p].depTop
    && Lower(RateAt(c, c.tx[p].chunkIdx), RateAt(c, c.tx[p].depTop[ch]))
  }

  /** The gain of a split: what the top set pays above the feerate of the chunk, scaled by its size. */
  ghost function SplitGain(c: Core, p: nat, ch: nat): int
    requires p in c.tx && ch in c.tx[p].depTop
  {
    Gain(RateAt(c, c.tx[p].chunkIdx), RateAt(c, c.tx[p].depTop[ch]))
  }

  // ----- the self-merge

  lemma Reindexed(m: Rates, par: Links, k: Family, i: nat, j: nat, f: Family)
    requires IsFamily(m, k) && Topological(m, par, k) && i in k && j !in k && f == (k - {i})[j := k[i]]
    ensures IsFamily(m, f) && Topological(m, par, f)
    ensures forall r {:trigger FamilyPotential(m, f, r)} :: FamilyPotential(m, f, r) == FamilyPotential(m, k, r)
  {
    hide Total, Depends, FamilyPotential, Lower;
    forall r ensures FamilyPotential(m, f, r) == FamilyPotential(m, k, r) {
      FamilyWithout(m, k, i, r);
      FamilyWith(m, k - {i}, j, k[i], r);
    }
    forall a, b | a in f && b in f && a != b && Depends(par, f[a], f[b]) ensures Lower(Total(m, f[a]), Total(m, f[b])) {
      assert a != j ==> f[a] == k[a];
      assert b != j ==> f[b] == k[b];
    }
  }

  /** Splitting chunk `ci` and merging its parts back leaves the same chunk at another index. */
  lemma SelfMerge(c: Core, e: Core, d: Core, ti: nat, ci: nat, t: set<nat>)
    requires Sane(c) && Sane(e) && Sane(d) && TopologicalState(c)
    requires SplitEffect(c, e, ti, ci, t) && MergeEffect(e, d, ci, ti)
    ensures TopologicalState(d) && NeverWorse(c, d) && NeverWorse(d, c)
    ensures SameGraph(c, d) && OnlyQueuedChanged(c, d, ci, [ti])
  {
    hide Sane, Total, Depends, FamilyPotential, Lower, ChunkOptimal, TxsAt, Topological, Par, Chi;
    FamilyValid(c);
    FamilyValid(d);
    var k: Family := FamilyOf(c);
    SelfMergeFamily(c, e, d, ti, ci, t);
    Reindexed(c.rate, Par(c), k, ci, ti, FamilyOf(d));
    forall i | i in d.chunks && i !in [ti] ensures i in c.chunks && i != ci { assert i in FamilyOf(d); }
  }

  lemma SelfMergeFamily(c: Core, e: Core, d: Core, ti: nat, ci: nat, t: set<nat>)
    requires SplitEffect(c, e, ti, ci, t) && MergeEffect(e, d, ci, ti)
    ensures FamilyOf(d) == (FamilyOf(c) - {ci})[ti := FamilyOf(c)[ci]]
  {
    hide ChunkOptimal, TxsAt, SameGraph, OptimalKept;
    var k: Family := FamilyOf(c);
    assert FamilyOf(e)[ti] == t && FamilyOf(e)[ci] == k[ci] - t;
    assert t + (k[ci] - t) == k[ci];
  }

  // ----- the two merge sequences

  ghost function SplitOf(c: Core, ti: nat, ci: nat, t: set<nat>): Split
    requires ci in c.chunks
  {
    Split(c.rate, Par(c), Chi(c), FamilyOf(c), ci, ti, t, FamilyOf(c)[ci] - t)
  }

  lemma SplitIsValid(c: Core, e: Core, ti: nat, ci: nat, t: set<nat>)
    requires Sane(c) && Sane(e) && TopologicalState(c) && SplitEffect(c, e, ti, ci, t)
    requires !Depends(Par(e), TxsAt(e, ti), TxsAt(e, ci)) && Lower(RateAt(c, ci), RateAt(e, ti))
    ensures ValidSplit(SplitOf(c, ti, ci, t))
  {
    hide Sane, Total, Depends, Lower, ChunkOptimal, TxsAt, RateAt, Topological, Par, Chi, Inverse, IsFamily;
    FamilyValid(c);
    FamilyValid(e);
    var k: Family := FamilyOf(c);
    assert FamilyOf(e)[ti] == t && FamilyOf(e)[ci] == k[ci] - t && ti in e.chunks && ci in e.chunks;
    assert t + (k[ci] - t) == k[ci];
  }

  lemma UpSequence(c: Core, e: Core, e1: Core, ti: nat, ci: nat, t: set<nat>, us: seq<nat>, at: nat)
    requires Sane(c) && Sane(e) && Sane(e1) && SplitEffect(c, e, ti, ci, t) && ValidSplit(SplitOf(c, ti, ci, t))
    requires MergedBy(e, e1, ti, false, us, at)
    requires Finished(Directed(e.rate, false), LinksOf(e, false), OthersOf(e, ti), TxsAt(e, ti), us)
    ensures at == ti && UpRun(SplitOf(c, ti, ci, t), us)
    ensures ci in e1.chunks && TxsAt(e1, ci) == FamilyOf(c)[ci] - t
    ensures OthersOf(e1, ci) == DownOthers(SplitOf(c, ti, ci, t), us)
  {
    hide Sane, Total, Depends, ChunkOptimal, TxsAt, Par, Chi, Run, Finished, ValidSplit, OptimalKept;
    var x := SplitOf(c, ti, ci, t);
    assert OthersOf(e, ti) == UpOthers(x) by { UpOthersMatch(c, e, ti, ci, t); }
    assert TxsAt(e, ti) == t by { assert FamilyOf(e)[ti] == t; }
    UpSetsHold(x, us);
    DownOthersMatch(c, e1, ti, ci, t, us);
  }

  lemma UpOthersMatch(c: Core, e: Core, ti: nat, ci: nat, t: set<nat>)
    requires SplitEffect(c, e, ti, ci, t)
    ensures OthersOf(e, ti) == UpOthers(SplitOf(c, ti, ci, t))
  {
    hide TxsAt, OptimalKept, SameGraph;
  }

  lemma DownOthersMatch(c: Core, e1: Core, ti: nat, ci: nat, t: set<nat>, us: seq<nat>)
    requires ci in c.chunks && ti !in c.chunks
    requires var x := SplitOf(c, ti, ci, t);
             && (forall n :: 0 <= n < |us| ==> us[n] in UpOthers(x)) && ci !in us
             && FamilyOf(e1) == Without(UpOthers(x), us)[ti := Top(x, us)]
    ensures ci in e1.chunks && TxsAt(e1, ci) == FamilyOf(c)[ci] - t
    ensures OthersOf(e1, ci) == DownOthers(SplitOf(c, ti, ci, t), us)
  {
    hide TxsAt;
    var x := SplitOf(c, ti, ci, t);
    var f := FamilyOf(e1);
    assert ci in f && f[ci] == x.b;
    var g, h := OthersOf(e1, ci), DownOthers(x, us);
    forall i ensures i in g <==> i in h { }
    forall i | i in g ensures g[i] == h[i] { }
  }

  lemma DownSequence(c: Core, e1: Core, d: Core, ti: nat, ci: nat, t: set<nat>, us: seq<nat>, ds: seq<nat>, at: nat)
    requires Sane(c) && Sane(e1) && Sane(d) && ci in c.chunks && ValidSplit(SplitOf(c, ti, ci, t))
    requires UpRun(SplitOf(c, ti, ci, t), us)
    requires SameGraph(c, e1) && ci in e1.chunks && TxsAt(e1, ci) == FamilyOf(c)[ci] - t
    requires OthersOf(e1, ci) == DownOthers(SplitOf(c, ti, ci, t), us)
    requires MergedBy(e1, d, ci, true, ds, at)
    requires Finished(Directed(e1.rate, true), LinksOf(e1, true), OthersOf(e1, ci), TxsAt(e1, ci), ds)
    ensures Ran(SplitOf(c, ti, ci, t), us, ds) && FamilyOf(d) == Result(SplitOf(c, ti, ci, t), us, ds, at)
    ensures at != ti && !Rest(SplitOf(c, ti, ci, t), us, ds, at)
  {
    hide Sane, Total, Depends, ChunkOptimal, TxsAt, Par, Chi, Run, Finished, ValidSplit, OptimalKept, DownOthers,
         UpOthers, FamilyOf, Running, Cur, Without;
    var x := SplitOf(c, ti, ci, t);
    assert Ran(x, us, ds);
    AfterUp(x, us);
    DownSetsHold(x, us, ds);
    SplitInverse(x);
  }

  /** The sequences, put together: the result is topological and its diagram strictly better. */
  lemma TwoSequences(c: Core, d: Core, ti: nat, ci: nat, t: set<nat>, us: seq<nat>, ds: seq<nat>, at: nat)
    requires Sane(c) && Sane(d) && ci in c.chunks && SameGraph(c, d)
    requires ValidSplit(SplitOf(c, ti, ci, t)) && Ran(SplitOf(c, ti, ci, t), us, ds)
    requires FamilyOf(d) == Result(SplitOf(c, ti, ci, t), us, ds, at)
    requires at != ti && !Rest(SplitOf(c, ti, ci, t), us, ds, at)
    ensures t <= c.rate.Keys && TopologicalState(d) && NeverWorse(c, d)
    ensures Better(c, d, RateAt(c, ci), Gain(RateAt(c, ci), Total(c.rate, t)))
  {
    hide Sane, Total, Depends, TxsAt, Par, Chi, ValidSplit, Ran, FamilyPotential, Topological, Result, Rest, RateAt,
         Gain;
    var x := SplitOf(c, ti, ci, t);
    FamilyValid(c);
    FamilyValid(d);
    ResultTopological(x, us, ds, at);
    ResultStrictlyBetter(x, us, ds, at);
    assert Lambda(x) == RateAt(c, ci);
    forall r: FeeFrac | r.size > 0
      ensures FamilyPotential(c.rate, FamilyOf(c), r) <= FamilyPotential(d.rate, FamilyOf(d), r)
    {
      ResultNeverWorse(x, us, ds, at, r);
    }
  }

  lemma TwoSequencesKept(c: Core, e: Core, e1: Core, d: Core, ti: nat, ci: nat, t: set<nat>, us: seq<nat>, ds: seq<nat>,
                         at: nat)
    requires ci in c.chunks && ValidSplit(SplitOf(c, ti, ci, t)) && Ran(SplitOf(c, ti, ci, t), us, ds)
    requires FamilyOf(d) == Result(SplitOf(c, ti, ci, t), us, ds, at)
    requires at != ti && !Rest(SplitOf(c, ti, ci, t), us, ds, at)
    requires OptimalKept(c, e, {ci}) && OptimalKept(e, e1, {ti} + set i | i in us)
    requires OptimalKept(e1, d, {ci} + set i | i in ds)
    ensures OnlyQueuedChanged(c, d, ci, [ti, at])
  {
    hide Total, ChunkOptimal, TxsAt, Par, Chi, ValidSplit, Ran, Result, DownSets, UpDone;
    var x := SplitOf(c, ti, ci, t);
    RanParts(x, us, ds);
    ResultKeys(x, us, ds, at);
    forall i | i in d.chunks && i !in [ti, at]
      ensures i in c.chunks && i != ci && (ChunkOptimal(c, i) ==> ChunkOptimal(d, i))
    {
      assert i in FamilyOf(d);
      assert Rest(x, us, ds, i);
    }
  }

  lemma RanParts(x: Split, us: seq<nat>, ds: seq<nat>)
    requires ValidSplit(x) && Ran(x, us, ds)
    ensures DownSets(x, us, ds)
  {
    hide ValidSplit;
    AfterUp(x, us);
    DownSetsHold(x, us, ds);
  }

  /** Split a chunk at an active dependency with a higher-feerate top, and merge what results until
      the state is topological again.  Unless the parts merge with each other (`self`), the diagram
      has become better by at least the gain of the top set over the chunk. */
  method Improve(c: Core, parent: nat, child: nat) returns (d: Core, queued: seq<nat>, self: bool)
    requires Sane(c) && TopologicalState(c) && Improvable(c, parent, child)
    ensures Sane(d) && SameGraph(c, d) && TopologicalState(d) && NeverWorse(c, d)
    ensures if self then NeverWorse(d, c)
            else Better(c, d, RateAt(c, c.tx[parent].chunkIdx), SplitGain(c, parent, child))
    ensures OnlyQueuedChanged(c, d, c.tx[parent].chunkIdx, queued)
  {
    hide Sane, TopologicalState, NeverWorse, Better, OnlyQueuedChanged, RateAt, TxsAt, Par, Chi, Depends, Gain,
         DeactivateData, MergeEffect, MergedBy, Finished, OptimalKept, ChunkOptimal, ValidSplit, UpRun, Ran;
    var ti, ci := c.tx[parent].depTop[child], c.tx[parent].chunkIdx;
    var e := Deactivate(c, parent, child);
    DeactivateEffect(c, e, parent, child);
    ghost var t := c.info[ti].transactions;
    SplitChunks(c, e, ti, ci, t);
    BackDepends(e, ti, ci);
    var back := e.reach[ti].up * TxsAt(e, ci) != {};
    if back {
      d := MergeChunks(e, ci, ti);
      SelfMerge(c, e, d, ti, ci, t);
      queued, self := [ti], true;
    } else {
      SplitIsValid(c, e, ti, ci, t);
      var e1, top, us := MergeSequence(e, ti, false);
      UpSequence(c, e, e1, ti, ci, t, us, top);
      MergedSame(e, e1, ti, false, us, top);
      var e2, bottom, ds := MergeSequence(e1, ci, true);
      d := e2;
      MergedSame(e1, d, ci, true, ds, bottom);
      DownSequence(c, e1, d, ti, ci, t, us, ds, bottom);
      TwoSequences(c, d, ti, ci, t, us, ds, bottom);
      TwoSequencesKept(c, e, e1, d, ti, ci, t, us, ds, bottom);
      queued, self := [top, bottom], false;
    }
  }

  lemma SplitChunks(c: Core, e: Core, ti: nat, ci: nat, t: set<nat>)
    requires Sane(c) && Sane(e) && SplitEffect(c, e, ti, ci, t) && ti < |c.info| && t == c.info[ti].transactions
    ensures ti in e.chunks && ci in e.chunks && ti != ci && RateAt(e, ti) == RateAt(c, ti)
    ensures t <= c.rate.Keys && RateAt(c, ti) == Total(c.rate, t)
    ensures SameGraph(c, e) && OptimalKept(c, e, {ci})
  {
    hide ValidForest, ForestOf, Linked, Indexed, TopsIndexed, ReachCorrect, OptimalKept, Total, Par, Chi;
    FamilyValid(e);
    assert FamilyOf(e)[ti] == t && ci in FamilyOf(e);
    assert InfoCorrect(c.rate, c.info[ti]);
  }

  /** The upwards reachable transactions of chunk `i` tell whether it depends on chunk `j`. */
  lemma BackDepends(e: Core, i: nat, j: nat)
    requires Sane(e) && i in e.chunks && j in e.chunks && i != j
    ensures i < |e.reach| && (e.reach[i].up * TxsAt(e, j) != {} <==> Depends(Par(e), TxsAt(e, i), TxsAt(e, j)))
  {
    hide Sane, Depends, Par, TxsAt;
    ReachChunks(e, i, false);
    var up := e.reach[i].up;
    assert up == ReachOf(e, i, false);
    if q :| q in up * TxsAt(e, j) {
      assert q in e.tx && e.tx[q].chunkIdx == j;
    }
    if Depends(Par(e), TxsAt(e, i), TxsAt(e, j)) {
      var q :| q in up && e.tx[q].chunkIdx == j;
      assert q in up * TxsAt(e, j);
    }
  }

  lemma MergedSame(c: Core, d: Core, chunk: nat, down: bool, order: seq<nat>, at: nat)
    requires MergedBy(c, d, chunk, down, order, at)
    ensures SameGraph(c, d) && OptimalKept(c, d, {chunk} + set i | i in order)
  {
  }
}
