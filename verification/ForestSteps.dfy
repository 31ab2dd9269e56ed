/** What activating and deactivating dependencies mean at the level of chunks. */
module ForestSteps {
  import opened FeeFracs
  import opened Totals
  import opened Forests
  import opened Families
  import opened ForestCore

  /** The feerate of the set at index `i`. */
  function RateAt(c: Core, i: nat): FeeFrac { if i < |c.info| then c.info[i].feerate else EMPTY }

  ghost function FamilyOf(c: Core): Family { map i | i in c.chunks :: TxsAt(c, i) }

  lemma LinksInverse(c: Core)
    requires Sane(c)
    ensures Inverse(Par(c), Chi(c)) && Par(c).Keys == Chi(c).Keys == c.rate.Keys && PositiveSizes(c.rate)
  {
    hide ValidForest, ForestOf, TopsIndexed, InfosCorrect, ReachCorrect;
  }

  lemma ChunksDisjoint(c: Core, i: nat, j: nat)
    requires Sane(c) && i in c.chunks && j in c.chunks && i != j
    ensures TxsAt(c, i) * TxsAt(c, j) == {}
  {
    hide ValidForest, ForestOf, Linked, TopsIndexed, InfosCorrect, ReachCorrect;
    forall x | x in TxsAt(c, i) ensures x !in TxsAt(c, j) { assert c.tx[x].chunkIdx == i; }
  }

  lemma ChunkInfo(c: Core, i: nat)
    requires Sane(c) && i in c.chunks
    ensures i < |c.info| && TxsAt(c, i) != {} && TxsAt(c, i) <= c.rate.Keys
    ensures RateAt(c, i) == Total(c.rate, TxsAt(c, i))
  {
    hide ValidForest, ForestOf, Linked, TopsIndexed, ReachCorrect, Total;
    assert InfoCorrect(c.rate, c.info[i]);
  }

  lemma FamilyValid(c: Core)
    requires Sane(c)
    ensures IsFamily(c.rate, FamilyOf(c)) && Inverse(Par(c), Chi(c))
    ensures Par(c).Keys == Chi(c).Keys == c.rate.Keys
    ensures forall i :: i in c.chunks ==> i < |c.info| && RateAt(c, i) == Total(c.rate, TxsAt(c, i))
  {
    hide Sane, Total, TxsAt, RateAt, Par, Chi, Inverse;
    LinksInverse(c);
    forall i | i in c.chunks
      ensures i < |c.info| && TxsAt(c, i) != {} && TxsAt(c, i) <= c.rate.Keys
      ensures RateAt(c, i) == Total(c.rate, TxsAt(c, i))
    {
      ChunkInfo(c, i);
    }
    forall i, j | i in c.chunks && j in c.chunks && i != j
      ensures TxsAt(c, i) * TxsAt(c, j) == {}
    {
      ChunksDisjoint(c, i, j);
    }
  }

  /** No active dependency of chunk `i` has a top set of higher feerate than the chunk. */
  ghost predicate ChunkOptimal(c: Core, i: nat) {
    forall x, y :: x in TxsAt(c, i) && x in c.tx && y in c.tx[x].active && y in c.tx[x].depTop ==>
      AtMost(RateAt(c, c.tx[x].depTop[y]), RateAt(c, i))
  }

  ghost predicate SameGraph(c: Core, d: Core) {
    d.rate == c.rate && Par(d) == Par(c) && Chi(d) == Chi(c) && |d.info| == |c.info|
  }

  ghost predicate OptimalKept(c: Core, d: Core, touched: set<nat>) {
    forall i :: i in c.chunks && i !in touched ==> i in d.chunks && (ChunkOptimal(c, i) ==> ChunkOptimal(d, i))
  }

  /** Chunk `pi` has been merged into chunk `ci`. */
  ghost predicate MergeEffect(c: Core, d: Core, pi: nat, ci: nat) {
    && SameGraph(c, d) && pi in c.chunks && ci in c.chunks && pi != ci
    && FamilyOf(d) == (FamilyOf(c) - {pi})[ci := FamilyOf(c)[ci] + FamilyOf(c)[pi]]
    && OptimalKept(c, d, {pi, ci})
  }

  /** Chunk `ci` has been split, its part `t` becoming chunk `ti`. */
  ghost predicate SplitEffect(c: Core, d: Core, ti: nat, ci: nat, t: set<nat>) {
    && SameGraph(c, d) && ti !in c.chunks && ci in c.chunks
    && t != {} && t < FamilyOf(c)[ci]
    && FamilyOf(d) == FamilyOf(c)[ci := FamilyOf(c)[ci] - t][ti := t]
    && OptimalKept(c, d, {ci})
  }

  lemma ActivateSameGraph(c: Core, d: Core, p: nat, ch: nat)
    requires Sane(c) && CanActivate(c, p, ch) && ActivateData(c, d, p, ch)
    ensures SameGraph(c, d)
  {
    hide Sane, Par, Chi;
    SaneParts(c);
    hide Linked, Indexed, TopsIndexed, InfosCorrect, ReachCorrect, ValidForest;
    SameLinks(c, d);
  }

  lemma ActivateFrame(c: Core, d: Core, p: nat, ch: nat, i: nat)
    requires Sane(c) && CanActivate(c, p, ch) && ActivateData(c, d, p, ch) && Sane(d)
    requires i in c.chunks && i != c.tx[p].chunkIdx && i != c.tx[ch].chunkIdx
    ensures i in d.chunks && (ChunkOptimal(c, i) ==> ChunkOptimal(d, i))
  {
    hide Sane, ActivateData, TxsAt, RateAt, AtMost;
    ActivatedOther(c, d, p, ch, i);
    forall x, y | ChunkOptimal(c, i) && x in TxsAt(d, i) && x in d.tx && y in d.tx[x].active && y in d.tx[x].depTop
      ensures AtMost(RateAt(d, d.tx[x].depTop[y]), RateAt(d, i))
    {
      ActivatedElsewhere(c, d, p, ch, i, x, y);
    }
  }

  lemma ActivatedOther(c: Core, d: Core, p: nat, ch: nat, i: nat)
    requires Sane(c) && CanActivate(c, p, ch) && ActivateData(c, d, p, ch)
    requires i in c.chunks && i != c.tx[p].chunkIdx && i != c.tx[ch].chunkIdx
    ensures i in d.chunks && TxsAt(d, i) == TxsAt(c, i) && RateAt(d, i) == RateAt(c, i)
  {
    hide ForestOf, ValidForest, Linked, ReachCorrect, InfosCorrect;
    ActivateMerges(c, d, p, ch);
  }

  /** A dependency of another chunk is as it was. */
  lemma ActivatedElsewhere(c: Core, d: Core, p: nat, ch: nat, i: nat, x: nat, y: nat)
    requires Sane(c) && CanActivate(c, p, ch) && ActivateData(c, d, p, ch)
    requires i in c.chunks && i != c.tx[p].chunkIdx && i != c.tx[ch].chunkIdx
    requires x in TxsAt(c, i) && x in d.tx && y in d.tx[x].active && y in d.tx[x].depTop
    ensures x in c.tx && y in c.tx[x].active && y in c.tx[x].depTop && d.tx[x].depTop == c.tx[x].depTop
    ensures RateAt(d, d.tx[x].depTop[y]) == RateAt(c, c.tx[x].depTop[y])
  {
    hide ForestOf, ValidForest, Linked, ReachCorrect, InfosCorrect, ReachActivated;
    assert c.tx[x].chunkIdx == i && x != p;
    assert d.tx[x].active == c.tx[x].active && d.tx[x].depTop == c.tx[x].depTop;
    var s := c.info[c.tx[x].depTop[y]];
    if p in s.transactions { TopInChunk(c, x, y, p); }
    if ch in s.transactions { TopInChunk(c, x, y, ch); }
  }

  lemma ActivateFamily(c: Core, d: Core, p: nat, ch: nat)
    requires Indexed(c) && CanActivate(c, p, ch) && ChunksMerged(c, d, p, ch)
    ensures var pi, ci := c.tx[p].chunkIdx, c.tx[ch].chunkIdx;
            && pi in c.chunks && ci in c.chunks && pi != ci
            && FamilyOf(d) == (FamilyOf(c) - {pi})[ci := FamilyOf(c)[ci] + FamilyOf(c)[pi]]
  {
    var pi, ci := c.tx[p].chunkIdx, c.tx[ch].chunkIdx;
    var f, g := FamilyOf(d), (FamilyOf(c) - {pi})[ci := FamilyOf(c)[ci] + FamilyOf(c)[pi]];
    forall i ensures i in f <==> i in g { }
    forall i | i in f ensures f[i] == g[i] { }
  }

  lemma ActivateOptimalKept(c: Core, d: Core, p: nat, ch: nat)
    requires Sane(c) && CanActivate(c, p, ch) && ActivateData(c, d, p, ch) && Sane(d)
    ensures OptimalKept(c, d, {c.tx[p].chunkIdx, c.tx[ch].chunkIdx})
  {
    hide Sane, ChunkOptimal, ActivateData;
    forall i | i in c.chunks && i !in {c.tx[p].chunkIdx, c.tx[ch].chunkIdx}
      ensures i in d.chunks && (ChunkOptimal(c, i) ==> ChunkOptimal(d, i))
    {
      ActivateFrame(c, d, p, ch, i);
    }
  }

  lemma ActivateEffect(c: Core, d: Core, p: nat, ch: nat)
    requires Sane(c) && CanActivate(c, p, ch) && ActivateData(c, d, p, ch) && Sane(d)
    ensures MergeEffect(c, d, c.tx[p].chunkIdx, c.tx[ch].chunkIdx)
  {
    hide Sane, ForestOf, ValidForest, Linked, ReachCorrect, InfosCorrect, TopsIndexed, ActivateData, Indexed,
         ChunksMerged, SameGraph, OptimalKept, FamilyOf;
    SaneParts(c);
    ActivateSameGraph(c, d, p, ch);
    ActivateMerges(c, d, p, ch);
    ActivateFamily(c, d, p, ch);
    ActivateOptimalKept(c, d, p, ch);
  }

  lemma DeactivateSameGraph(c: Core, d: Core, p: nat, ch: nat)
    requires Sane(c) && CanDeactivate(c, p, ch) && DeactivateData(c, d, p, ch)
    ensures SameGraph(c, d)
  {
    hide Sane, Par, Chi;
    SaneParts(c);
    hide Linked, Indexed, TopsIndexed, InfosCorrect, ReachCorrect, ValidForest;
    SameLinks(c, d);
  }

  lemma DeactivateFrame(c: Core, d: Core, p: nat, ch: nat, i: nat)
    requires Sane(c) && CanDeactivate(c, p, ch) && DeactivateData(c, d, p, ch) && Sane(d)
    requires i in c.chunks && i != c.tx[p].chunkIdx
    ensures i in d.chunks && (ChunkOptimal(c, i) ==> ChunkOptimal(d, i))
  {
    hide Sane, DeactivateData, TxsAt, RateAt, AtMost;
    DeactivatedOther(c, d, p, ch, i);
    forall x, y | ChunkOptimal(c, i) && x in TxsAt(d, i) && x in d.tx && y in d.tx[x].active && y in d.tx[x].depTop
      ensures AtMost(RateAt(d, d.tx[x].depTop[y]), RateAt(d, i))
    {
      DeactivatedElsewhere(c, d, p, ch, i, x, y);
    }
  }

  lemma DeactivatedOther(c: Core, d: Core, p: nat, ch: nat, i: nat)
    requires Sane(c) && CanDeactivate(c, p, ch) && DeactivateData(c, d, p, ch) && i in c.chunks && i != c.tx[p].chunkIdx
    ensures i in d.chunks && TxsAt(d, i) == TxsAt(c, i) && RateAt(d, i) == RateAt(c, i)
  {
    hide ForestOf, ValidForest, Linked, ReachCorrect, InfosCorrect;
    DeactivateSplits(c, d, p, ch);
  }

  lemma DeactivatedElsewhere(c: Core, d: Core, p: nat, ch: nat, i: nat, x: nat, y: nat)
    requires Sane(c) && CanDeactivate(c, p, ch) && DeactivateData(c, d, p, ch) && i in c.chunks && i != c.tx[p].chunkIdx
    requires x in TxsAt(c, i) && x in d.tx && y in d.tx[x].active && y in d.tx[x].depTop
    ensures x in c.tx && y in c.tx[x].active && y in c.tx[x].depTop && d.tx[x].depTop == c.tx[x].depTop
    ensures RateAt(d, d.tx[x].depTop[y]) == RateAt(c, c.tx[x].depTop[y])
  {
    hide ForestOf, ValidForest, Linked, ReachCorrect, InfosCorrect, ReachDeactivated;
    TopProper(c, p, ch);
    assert c.tx[x].chunkIdx == i && x != p;
    assert d.tx[x].active == c.tx[x].active && d.tx[x].depTop == c.tx[x].depTop;
    assert x !in c.info[c.tx[p].chunkIdx].transactions;
  }

  lemma FamilyAfterSplit(c: Core, d: Core, ti: nat, ci: nat, t: set<nat>)
    requires ci in c.chunks && ti !in c.chunks && d.chunks == c.chunks + {ti}
    requires TxsAt(d, ti) == t && TxsAt(d, ci) == TxsAt(c, ci) - t
    requires forall i :: i in c.chunks && i != ci ==> TxsAt(d, i) == TxsAt(c, i)
    ensures FamilyOf(d) == FamilyOf(c)[ci := FamilyOf(c)[ci] - t][ti := t]
  {
    hide TxsAt;
    var f, g := FamilyOf(d), FamilyOf(c)[ci := FamilyOf(c)[ci] - t][ti := t];
    forall i ensures i in f <==> i in g { }
    forall i | i in f ensures f[i] == g[i] { }
  }

  lemma DeactivateFamily(c: Core, d: Core, p: nat, ch: nat)
    requires Indexed(c) && Indexed(d) && TopsIndexed(c) && CanDeactivate(c, p, ch) && ChunkSplit(c, d, p, ch)
    ensures var ti, ci := c.tx[p].depTop[ch], c.tx[p].chunkIdx;
            FamilyOf(d) == FamilyOf(c)[ci := FamilyOf(c)[ci] - c.info[ti].transactions][ti := c.info[ti].transactions]
  {
    hide FamilyOf;
    var ti, ci := c.tx[p].depTop[ch], c.tx[p].chunkIdx;
    FamilyAfterSplit(c, d, ti, ci, c.info[ti].transactions);
  }

  lemma DeactivateOptimalKept(c: Core, d: Core, p: nat, ch: nat)
    requires Sane(c) && CanDeactivate(c, p, ch) && DeactivateData(c, d, p, ch) && Sane(d)
    ensures OptimalKept(c, d, {c.tx[p].chunkIdx})
  {
    hide Sane, ChunkOptimal, DeactivateData;
    forall i | i in c.chunks && i !in {c.tx[p].chunkIdx}
      ensures i in d.chunks && (ChunkOptimal(c, i) ==> ChunkOptimal(d, i))
    {
      DeactivateFrame(c, d, p, ch, i);
    }
  }

  lemma DeactivateEffect(c: Core, d: Core, p: nat, ch: nat)
    requires Sane(c) && CanDeactivate(c, p, ch) && DeactivateData(c, d, p, ch) && Sane(d)
    ensures ch in c.tx[p].depTop && c.tx[p].depTop[ch] < |c.info|
    ensures SplitEffect(c, d, c.tx[p].depTop[ch], c.tx[p].chunkIdx, c.info[c.tx[p].depTop[ch]].transactions)
  {
    hide Sane, ForestOf, ValidForest, Linked, ReachCorrect, InfosCorrect, Indexed, TopsIndexed, DeactivateData,
         ChunkSplit, SameGraph, OptimalKept;
    SaneParts(c);
    SaneParts(d);
    DeactivateSameGraph(c, d, p, ch);
    DeactivateSplits(c, d, p, ch);
    DeactivateBounds(c, p, ch);
    TopProper(c, p, ch);
    DeactivateFamily(c, d, p, ch);
    DeactivateOptimalKept(c, d, p, ch);
  }

  // ----- chunks and their members

  lemma ChunkSize(c: Core, i: nat)
    requires Sane(c) && i in c.chunks
    ensures i < |c.info| && RateAt(c, i).size > 0
  {
    hide ValidForest, ForestOf, Total, Linked, TopsIndexed, ReachCorrect;
    assert InfoCorrect(c.rate, c.info[i]);
    TotalSize(c.rate, c.info[i].transactions);
  }

  lemma MemberOfChunk(c: Core, chunk: nat, x: nat)
    requires Sane(c) && chunk in c.chunks && x in TxsAt(c, chunk)
    ensures x in c.tx && c.tx[x].chunkIdx == chunk && c.tx[x].active <= c.tx[x].depTop.Keys
    ensures forall y :: y in c.tx[x].active ==> c.tx[x].depTop[y] < |c.info| && CanDeactivate(c, x, y)
  {
    hide ValidForest, InfosCorrect, ReachCorrect;
  }
}
