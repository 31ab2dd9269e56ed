/** Choosing the chunk to merge with (`PickMergeCandidate`, src/cluster_linearize.h). */
module MergeCandidates {
  import opened Options
  import opened FeeFracs
  import opened Totals
  import opened Forests
  import opened Families
  import opened ForestCore
  import opened ForestSteps

  /** Feerates and links as seen in the direction of merging. */
  ghost function Directed(m: Rates, down: bool): Rates { if down then NegRates(m) else m }

  ghost function LinksOf(c: Core, down: bool): Links { if down then Chi(c) else Par(c) }

  /** Not of higher feerate, in the direction of merging. */
  predicate NotAbove(a: FeeFrac, b: FeeFrac, down: bool) {
    if down then AtMost(b, a) else AtMost(a, b)
  }

  /** A chunk that `chunk` can be merged with: one it depends on of no higher feerate, or, when
      merging downwards, one that depends on it of no lower feerate. */
  ghost predicate Joinable(c: Core, chunk: nat, down: bool, j: nat) {
    && j in c.chunks && j != chunk
    && Depends(LinksOf(c, down), TxsAt(c, chunk), TxsAt(c, j))
    && NotAbove(RateAt(c, j), RateAt(c, chunk), down)
  }

  /** A joinable chunk of extreme feerate, or none if there is none. */
  ghost predicate BestCandidate(c: Core, chunk: nat, down: bool, best: Option<nat>) {
    match best
    case None => forall j :: j in c.chunks ==> !Joinable(c, chunk, down, j)
    case Some(b) =>
      && Joinable(c, chunk, down, b)
      && forall j :: Joinable(c, chunk, down, j) ==> NotAbove(RateAt(c, b), RateAt(c, j), down)
  }

  function ReachOf(c: Core, chunk: nat, down: bool): set<nat>
    requires chunk < |c.reach|
  {
    if down then c.reach[chunk].down else c.reach[chunk].up
  }

  /** The reachable transactions are those of the other chunks that the chunk is linked to. */
  lemma ReachChunks(c: Core, chunk: nat, down: bool)
    requires Sane(c) && chunk in c.chunks
    ensures chunk < |c.info| == |c.reach| && ReachOf(c, chunk, down) <= c.tx.Keys
    ensures forall q :: q in ReachOf(c, chunk, down) ==>
      var j := c.tx[q].chunkIdx;
      j in c.chunks && j < |c.info| && j != chunk && Depends(LinksOf(c, down), TxsAt(c, chunk), TxsAt(c, j))
    ensures forall j :: j in c.chunks && j != chunk ==>
      (Depends(LinksOf(c, down), TxsAt(c, chunk), TxsAt(c, j)) ==>
       exists q :: q in ReachOf(c, chunk, down) && c.tx[q].chunkIdx == j)
    ensures forall i, x :: i in c.chunks && x in c.tx ==> (x in TxsAt(c, i) <==> c.tx[x].chunkIdx == i)
  {
    hide ValidForest, ForestOf, InfosCorrect, TopsIndexed;
    var links, s := LinksOf(c, down), c.info[chunk].transactions;
    assert ReachOf(c, chunk, down) == Outside(links, s);
    forall q | q in Outside(links, s)
      ensures q in c.tx && c.tx[q].chunkIdx in c.chunks && c.tx[q].chunkIdx != chunk
      ensures Depends(links, s, c.info[c.tx[q].chunkIdx].transactions)
    {
      var t :| t in s && t in links && q in links[t];
      assert q in c.tx;
      assert q in c.info[c.tx[q].chunkIdx].transactions;
    }
    forall j | j in c.chunks && j != chunk && Depends(links, s, c.info[j].transactions)
      ensures exists q :: q in Outside(links, s) && c.tx[q].chunkIdx == j
    {
      var t, q :| t in s && t in links && q in links[t] && q in c.info[j].transactions;
      assert q !in s;
    }
  }

  /** The best candidate among the chunks `seen` so far. */
  ghost predicate BestSoFar(c: Core, chunk: nat, down: bool, seen: set<nat>, best: Option<nat>, bestRate: FeeFrac) {
    match best
    case None =>
      && bestRate == RateAt(c, chunk)
      && forall s :: s in seen ==> !NotAbove(RateAt(c, s), bestRate, down)
    case Some(b) =>
      && b in seen && bestRate == RateAt(c, b) && NotAbove(bestRate, RateAt(c, chunk), down)
      && forall s :: s in seen && NotAbove(RateAt(c, s), RateAt(c, chunk), down) ==>
           NotAbove(bestRate, RateAt(c, s), down)
  }

  lemma NotAboveOrder(a: FeeFrac, b: FeeFrac, e: FeeFrac, down: bool)
    requires a.size > 0 && b.size > 0 && e.size > 0
    ensures NotAbove(a, b, down) || NotAbove(b, a, down)
    ensures NotAbove(a, b, down) && NotAbove(b, e, down) ==> NotAbove(a, e, down)
  {
    if AtMost(a, b) && AtMost(b, e) { RatioTransitive(a, b, e); }
    if AtMost(e, b) && AtMost(b, a) { RatioTransitive(e, b, a); }
  }

  lemma BestStep(c: Core, chunk: nat, down: bool, seen: set<nat>, best: Option<nat>, bestRate: FeeFrac, r: nat,
                 take: bool)
    requires Sane(c) && chunk in c.chunks && seen <= c.chunks && r in c.chunks
    requires BestSoFar(c, chunk, down, seen, best, bestRate)
    requires take ==> NotAbove(RateAt(c, r), bestRate, down)
    requires !take ==> !NotAbove(RateAt(c, r), bestRate, down) || (best.Some? && NotAbove(bestRate, RateAt(c, r), down))
    ensures BestSoFar(c, chunk, down, seen + {r}, if take then Some(r) else best, if take then RateAt(c, r)
                                                                                  else bestRate)
  {
    hide Sane, NotAbove, RateAt;
    var own, rate := RateAt(c, chunk), RateAt(c, r);
    ChunkSize(c, chunk);
    ChunkSize(c, r);
    if best.Some? { ChunkSize(c, best.value); }
    NotAboveOrder(rate, bestRate, own, down);
    NotAboveOrder(rate, rate, rate, down);
    forall s | s in seen
      ensures take && best.Some? && NotAbove(bestRate, RateAt(c, s), down) ==> NotAbove(rate, RateAt(c, s), down)
      ensures take && best.None? ==> !NotAbove(RateAt(c, s), own, down)
    {
      ChunkSize(c, s);
      NotAboveOrder(rate, bestRate, RateAt(c, s), down);
    }
  }

  method PickMergeCandidate(c: Core, chunk: nat, down: bool) returns (best: Option<nat>)
    requires Sane(c) && chunk in c.chunks
    ensures BestCandidate(c, chunk, down, best)
  {
    hide Sane, BestSoFar, BestCandidate, Depends, NotAbove, LinksOf, ReachOf;
    ReachChunks(c, chunk, down);
    var bestRate := RateAt(c, chunk);
    best := None;
    var bestTiebreak: nat := 0;
    var todo := ReachOf(c, chunk, down);
    ghost var seen: set<nat> := {};
    NothingSeen(c, chunk, down);
    while todo != {}
      invariant todo <= ReachOf(c, chunk, down) && seen <= c.chunks && chunk !in seen
      invariant forall q :: q in ReachOf(c, chunk, down) ==> (q in todo <==> c.tx[q].chunkIdx !in seen)
      invariant forall s :: s in seen ==> Depends(LinksOf(c, down), TxsAt(c, chunk), TxsAt(c, s))
      invariant BestSoFar(c, chunk, down, seen, best, bestRate)
      invariant best.None? ==> bestTiebreak == 0
      decreases todo
    {
      var q :| q in todo;
      var reached := c.tx[q].chunkIdx;
      todo := todo - TxsAt(c, reached);
      var tiebreak :| 0 <= tiebreak < 0x1_0000_0000_0000_0000;
      var take := NotAbove(RateAt(c, reached), bestRate, down)
                  && (!NotAbove(bestRate, RateAt(c, reached), down) || tiebreak >= bestTiebreak);
      BestStep(c, chunk, down, seen, best, bestRate, reached, take);
      if take {
        bestRate, best, bestTiebreak := RateAt(c, reached), Some(reached), tiebreak;
      }
      seen := seen + {reached};
    }
    AllSeen(c, chunk, down, seen, best, bestRate);
  }

  lemma NothingSeen(c: Core, chunk: nat, down: bool)
    ensures BestSoFar(c, chunk, down, {}, None, RateAt(c, chunk))
  {
  }

  lemma AllSeen(c: Core, chunk: nat, down: bool, seen: set<nat>, best: Option<nat>, bestRate: FeeFrac)
    requires Sane(c) && chunk in c.chunks && seen <= c.chunks && chunk !in seen && chunk < |c.reach|
    requires BestSoFar(c, chunk, down, seen, best, bestRate)
    requires forall s :: s in seen ==> Depends(LinksOf(c, down), TxsAt(c, chunk), TxsAt(c, s))
    requires ReachOf(c, chunk, down) <= c.tx.Keys
    requires forall q :: q in ReachOf(c, chunk, down) ==> c.tx[q].chunkIdx in seen
    ensures BestCandidate(c, chunk, down, best)
  {
    hide Sane, Depends, NotAbove, LinksOf, ReachOf, RateAt;
    ReachChunks(c, chunk, down);
    forall j | Joinable(c, chunk, down, j) ensures j in seen { }
  }
}
