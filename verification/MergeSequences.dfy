/** Merging chunks (`MergeChunks`, `MergeStep`, `MergeSequence`, src/cluster_linearize.h). */
module MergeSequences {
  import opened Options
  import opened FeeFracs
  import opened Totals
  import opened Forests
  import opened Families
  import opened ForestCore
  import opened ForestSteps
  import opened ForestUpdates
  import opened MergeCandidates
  import opened EqualSplits

  /** Activate some dependency from chunk `bottom` to chunk `top`. */
  method MergeChunks(c: Core, top: nat, bottom: nat) returns (d: Core)
    requires Sane(c) && top in c.chunks && bottom in c.chunks && top != bottom
    requires Depends(Par(c), TxsAt(c, bottom), TxsAt(c, top))
    ensures Sane(d) && MergeEffect(c, d, top, bottom)
    ensures ChunkOptimal(c, top) && ChunkOptimal(c, bottom) && Gain(RateAt(c, top), RateAt(c, bottom)) == 0 ==>
              ChunkOptimal(d, bottom)
  {
    hide Sane, MergeEffect, ActivateData, ChunkOptimal, RateAt, Gain;
    MergeableDep(c, top, bottom);
    var parent, child :| parent in TxsAt(c, top) && parent in c.tx && child in c.tx[parent].children &&
    child in TxsAt(c, bottom);
    CrossDep(c, top, bottom, parent, child);
    d := Activate(c, parent, child);
    ActivateEffect(c, d, parent, child);
    if ChunkOptimal(c, top) && ChunkOptimal(c, bottom) && Gain(RateAt(c, top), RateAt(c, bottom)) == 0 {
      MergeKeepsOptimal(c, d, parent, child);
    }
  }

  lemma MergeableDep(c: Core, top: nat, bottom: nat)
    requires Sane(c) && Depends(Par(c), TxsAt(c, bottom), TxsAt(c, top))
    ensures exists parent, child ::
              parent in TxsAt(c, top) && parent in c.tx && child in c.tx[parent].children && child in TxsAt(c, bottom)
  {
    hide ValidForest, ForestOf, InfosCorrect, TopsIndexed, ReachCorrect;
    var t, q :| t in TxsAt(c, bottom) && t in Par(c) && q in Par(c)[t] && q in TxsAt(c, top);
    assert q in c.tx && t in c.tx[q].children;
  }

  lemma CrossDep(c: Core, top: nat, bottom: nat, parent: nat, child: nat)
    requires Sane(c) && top in c.chunks && bottom in c.chunks && top != bottom
    requires parent in TxsAt(c, top) && parent in c.tx && child in c.tx[parent].children && child in TxsAt(c, bottom)
    ensures CanActivate(c, parent, child) && c.tx[parent].chunkIdx == top && c.tx[child].chunkIdx == bottom
  {
    hide ValidForest, InfosCorrect, ReachCorrect, ForestOf;
    if child in c.tx[parent].active { TopProper(c, parent, child); }
  }

  /** One merge of `chunk` in the given direction, if any is possible: with `joined`, which is the
      best candidate. */
  method MergeStep(c: Core, chunk: nat, down: bool) returns (d: Core, merged: Option<nat>, ghost joined: nat)
    requires Sane(c) && chunk in c.chunks
    ensures merged.None? ==> d == c && BestCandidate(c, chunk, down, None)
    ensures merged.Some? ==>
      && BestCandidate(c, chunk, down, Some(joined)) && merged.value == (if down then joined else chunk)
      && Sane(d) && if down then MergeEffect(c, d, chunk, joined) else MergeEffect(c, d, joined, chunk)
  {
    hide Sane, MergeEffect, Depends;
    var best := PickMergeCandidate(c, chunk, down);
    d, merged, joined := c, None, 0;
    if best.Some? {
      joined := best.value;
      assert Joinable(c, chunk, down, joined);
      if down {
        SaneInverse(c);
        DependsInverse(Par(c), Chi(c), TxsAt(c, chunk), TxsAt(c, joined));
        d := MergeChunks(c, chunk, best.value);
        merged := Some(best.value);
      } else {
        d := MergeChunks(c, best.value, chunk);
        merged := Some(chunk);
      }
    }
  }

  lemma SaneInverse(c: Core)
    requires Sane(c)
    ensures Inverse(Par(c), Chi(c))
  {
    FamilyValid(c);
  }

  // ----- whole sequences

  ghost function OthersOf(c: Core, chunk: nat): Family { FamilyOf(c) - {chunk} }

  /** `d` is `c` after merging `chunk` with the chunks of `order`, lowest (or highest) first; the
      merged chunk is now at index `at`. */
  ghost predicate MergedBy(c: Core, d: Core, chunk: nat, down: bool, order: seq<nat>, at: nat) {
    var k, s := OthersOf(c, chunk), TxsAt(c, chunk);
    && SameGraph(c, d)
    && Running(Directed(c.rate, down), k, s, order) && Run(Directed(c.rate, down), LinksOf(c, down), k, s, order)
    && at == (if down && order != [] then order[|order| - 1] else chunk)
    && FamilyOf(d) == Without(k, order)[at := Cur(k, s, order)]
    && OptimalKept(c, d, {chunk} + set i | i in order)
  }

  lemma DirectedOrder(m: Rates, down: bool, a: set<nat>, b: set<nat>)
    requires a <= m.Keys && b <= m.Keys
    ensures a <= Directed(m, down).Keys && b <= Directed(m, down).Keys
    ensures AtMost(Total(Directed(m, down), a), Total(Directed(m, down), b)) <==>
              NotAbove(Total(m, a), Total(m, b), down)
  {
    hide Total;
    if down {
      TotalNeg(m, a);
      TotalNeg(m, b);
      NegOrder(Total(m, a), Total(m, b));
    }
  }

  lemma DirectedFamily(m: Rates, k: Family, down: bool)
    requires IsFamily(m, k)
    ensures IsFamily(Directed(m, down), k) && Directed(m, down).Keys == m.Keys
  {
    if down { NegFamily(m, k); }
  }

  lemma OthersRunning(c: Core, chunk: nat, down: bool)
    requires Sane(c) && chunk in c.chunks
    ensures Running(Directed(c.rate, down), OthersOf(c, chunk), TxsAt(c, chunk), [])
    ensures Run(Directed(c.rate, down), LinksOf(c, down), OthersOf(c, chunk), TxsAt(c, chunk), [])
  {
    hide Sane, Total, Depends, TxsAt, Directed;
    FamilyValid(c);
    DirectedFamily(c.rate, FamilyOf(c), down);
    var k := FamilyOf(c);
    assert TxsAt(c, chunk) == k[chunk];
  }

  lemma WithoutNothing(k: Family, i: nat)
    requires i in k
    ensures k == Without(k - {i}, [])[i := k[i]]
  {
  }

  lemma StartSequence(c: Core, chunk: nat, down: bool)
    requires Sane(c) && chunk in c.chunks
    ensures MergedBy(c, c, chunk, down, [], chunk)
  {
    hide Sane, ChunkOptimal, TxsAt, Running, Run;
    OthersRunning(c, chunk, down);
    WithoutNothing(FamilyOf(c), chunk);
  }

  // The step of a merge sequence, first in terms of families.

  /** Joining `j` to the running chunk at `at`, in a family that has it there. */
  lemma FamilyJoin(k: Family, s: set<nat>, order: seq<nat>, at: nat, j: nat, f: Family, into: nat)
    requires forall n :: 0 <= n < |order| ==> order[n] in k
    requires j in k && j !in order && at !in Without(k, order)
    requires f == Without(k, order)[at := Cur(k, s, order)]
    requires into == at || into == j
    ensures var from := if into == at then j else at;
            (f - {from})[into := f[into] + f[from]] == Without(k, order + [j])[into := Cur(k, s, order + [j])]
  {
    assert (order + [j])[..|order|] == order;
    assert Cur(k, s, order + [j]) == Cur(k, s, order) + k[j];
    var from := if into == at then j else at;
    var g, h := (f - {from})[into := f[into] + f[from]], Without(k, order + [j])[into := Cur(k, s, order + [j])];
    assert f[at] == Cur(k, s, order) && f[j] == k[j];
    assert g[into] == h[into];
    forall i ensures i in g <==> i in h { }
    forall i | i in g && i != into ensures g[i] == h[i] { }
  }

  /** The merged chunk and the chunks left, as `e` has them. */
  lemma SequenceChunks(c: Core, e: Core, chunk: nat, down: bool, order: seq<nat>, at: nat)
    requires MergedBy(c, e, chunk, down, order, at)
    ensures at in e.chunks && TxsAt(e, at) == Cur(OthersOf(c, chunk), TxsAt(c, chunk), order)
    ensures at !in Without(OthersOf(c, chunk), order)
    ensures forall j :: j in e.chunks && j != at <==> j in OthersOf(c, chunk) && j !in order
    ensures forall j :: j in e.chunks && j != at ==> TxsAt(e, j) == OthersOf(c, chunk)[j]
  {
    hide TxsAt, Run, OptimalKept;
    var k := OthersOf(c, chunk);
    var f := FamilyOf(e);
    assert at in f && f[at] == Cur(k, TxsAt(c, chunk), order);
    assert order != [] ==> order[|order| - 1] in order;
    forall j ensures j in e.chunks <==> j in f { }
    forall j | j in e.chunks && j != at ensures TxsAt(e, j) == k[j] { assert f[j] == k[j]; }
  }

  lemma CandidateMatches(c: Core, e: Core, chunk: nat, down: bool, order: seq<nat>, at: nat, j: nat)
    requires Sane(c) && Sane(e) && MergedBy(c, e, chunk, down, order, at)
    ensures Joinable(e, at, down, j) <==>
            Candidate(Directed(c.rate, down), LinksOf(c, down), OthersOf(c, chunk), TxsAt(c, chunk), order, j)
  {
    hide Sane, Total, Depends, Run, OptimalKept, TxsAt, RateAt, NotAbove, Directed, OthersOf, FamilyOf, AtMost;
    SequenceChunks(c, e, chunk, down, order, at);
    FamilyValid(e);
    assert LinksOf(e, down) == LinksOf(c, down);
    var cur := Cur(OthersOf(c, chunk), TxsAt(c, chunk), order);
    if j in e.chunks && j != at {
      RatesMatch(e, at, j, down);
      assert RateAt(e, at) == Total(e.rate, cur);
    }
  }

  /** Comparing the cached feerates of two chunks is comparing their totals. */
  lemma RatesMatch(e: Core, i: nat, j: nat, down: bool)
    requires Sane(e) && i in e.chunks && j in e.chunks
    ensures TxsAt(e, i) <= e.rate.Keys && TxsAt(e, j) <= e.rate.Keys
    ensures Directed(e.rate, down).Keys == e.rate.Keys
    ensures NotAbove(RateAt(e, j), RateAt(e, i), down) <==>
            AtMost(Total(Directed(e.rate, down), TxsAt(e, j)), Total(Directed(e.rate, down), TxsAt(e, i)))
  {
    hide Sane, Total, TxsAt, RateAt, NotAbove, Directed, AtMost;
    FamilyValid(e);
    assert FamilyOf(e)[i] == TxsAt(e, i) && FamilyOf(e)[j] == TxsAt(e, j);
    DirectedFamily(e.rate, FamilyOf(e), down);
    DirectedOrder(e.rate, down, TxsAt(e, j), TxsAt(e, i));
  }

  lemma SequenceRun(c: Core, e: Core, chunk: nat, down: bool, order: seq<nat>, at: nat, j: nat)
    requires Sane(c) && Sane(e) && MergedBy(c, e, chunk, down, order, at)
    requires BestCandidate(e, at, down, Some(j))
    ensures j in e.chunks && j != at && j !in order && j in OthersOf(c, chunk)
    ensures Running(Directed(c.rate, down), OthersOf(c, chunk), TxsAt(c, chunk), order + [j])
    ensures Run(Directed(c.rate, down), LinksOf(c, down), OthersOf(c, chunk), TxsAt(c, chunk), order + [j])
  {
    hide Sane, Total, Depends, OptimalKept, TxsAt, RateAt, NotAbove, Directed, OthersOf, FamilyOf, AtMost;
    SequenceChunks(c, e, chunk, down, order, at);
    var m, k, s := Directed(c.rate, down), OthersOf(c, chunk), TxsAt(c, chunk);
    assert Joinable(e, at, down, j);
    CandidateMatches(c, e, chunk, down, order, at, j);
    assert (order + [j])[..|order|] == order;
    forall i | Candidate(m, LinksOf(c, down), k, s, order, i) ensures AtMost(Total(m, k[j]), Total(m, k[i])) {
      CandidateMatches(c, e, chunk, down, order, at, i);
      RatesMatch(e, i, j, down);
    }
  }

  /** A merge step extends the sequence by the chunk it joined. */
  lemma SequenceStep(c: Core, e: Core, e': Core, chunk: nat, down: bool, order: seq<nat>, at: nat, j: nat)
    requires Sane(c) && Sane(e) && Sane(e') && MergedBy(c, e, chunk, down, order, at)
    requires BestCandidate(e, at, down, Some(j))
    requires if down then MergeEffect(e, e', at, j) else MergeEffect(e, e', j, at)
    ensures MergedBy(c, e', chunk, down, order + [j], if down then j else at)
  {
    hide Sane, BestCandidate, Run, ChunkOptimal, TxsAt, Directed, LinksOf;
    SequenceChunks(c, e, chunk, down, order, at);
    SequenceRun(c, e, chunk, down, order, at, j);
    FamilyJoin(OthersOf(c, chunk), TxsAt(c, chunk), order, at, j, FamilyOf(e), if down then j else at);
    SequenceKept(c, e, e', chunk, down, order, at, j);
  }

  lemma SequenceKept(c: Core, e: Core, e': Core, chunk: nat, down: bool, order: seq<nat>, at: nat, j: nat)
    requires OptimalKept(c, e, {chunk} + set i | i in order) && OptimalKept(e, e', {at, j})
    requires at == chunk || at in order
    ensures OptimalKept(c, e', {chunk} + set i | i in order + [j])
  {
    hide ChunkOptimal;
  }

  method MergeSequence(c: Core, chunk: nat, down: bool) returns (d: Core, at: nat, ghost order: seq<nat>)
    requires Sane(c) && chunk in c.chunks
    ensures Sane(d) && MergedBy(c, d, chunk, down, order, at)
    ensures Finished(Directed(c.rate, down), LinksOf(c, down), OthersOf(c, chunk), TxsAt(c, chunk), order)
  {
    hide Sane, MergedBy, MergeEffect, BestCandidate, Finished;
    StartSequence(c, chunk, down);
    d, at, order := c, chunk, [];
    while true
      invariant Sane(d) && MergedBy(c, d, chunk, down, order, at)
      decreases |d.chunks|
    {
      SequenceAt(c, d, chunk, down, order, at);
      var e, merged, joined := MergeStep(d, at, down);
      if merged.None? {
        SequenceFinished(c, d, chunk, down, order, at);
        return;
      }
      SequenceStep(c, d, e, chunk, down, order, at, joined);
      if down { FewerChunks(d, e, at, joined); } else { FewerChunks(d, e, joined, at); }
      d, at, order := e, merged.value, order + [joined];
    }
  }

  lemma SequenceAt(c: Core, e: Core, chunk: nat, down: bool, order: seq<nat>, at: nat)
    requires MergedBy(c, e, chunk, down, order, at)
    ensures at in e.chunks
    ensures Running(Directed(c.rate, down), OthersOf(c, chunk), TxsAt(c, chunk), order)
  {
    SequenceChunks(c, e, chunk, down, order, at);
  }

  lemma FewerChunks(d: Core, e: Core, pi: nat, ci: nat)
    requires MergeEffect(d, e, pi, ci)
    ensures |e.chunks| < |d.chunks|
  {
    assert e.chunks == FamilyOf(e).Keys && d.chunks == FamilyOf(d).Keys;
    assert e.chunks == d.chunks - {pi};
  }

  lemma SequenceFinished(c: Core, e: Core, chunk: nat, down: bool, order: seq<nat>, at: nat)
    requires Sane(c) && Sane(e) && MergedBy(c, e, chunk, down, order, at) && BestCandidate(e, at, down, None)
    requires Running(Directed(c.rate, down), OthersOf(c, chunk), TxsAt(c, chunk), order)
    ensures Finished(Directed(c.rate, down), LinksOf(c, down), OthersOf(c, chunk), TxsAt(c, chunk), order)
  {
    hide Sane, Candidate, MergedBy, Joinable, Running, Directed;
    forall j | j in OthersOf(c, chunk)
      ensures !Candidate(Directed(c.rate, down), LinksOf(c, down), OthersOf(c, chunk), TxsAt(c, chunk), order, j)
    {
      CandidateMatches(c, e, chunk, down, order, at, j);
      JoinableIsChunk(e, at, down, j);
    }
  }

  lemma JoinableIsChunk(e: Core, at: nat, down: bool, j: nat)
    ensures Joinable(e, at, down, j) ==> j in e.chunks
  {
  }
}
