/** Splitting and merging equal-feerate chunks keeps them optimal. */
module EqualSplits {
  import opened FeeFracs
  import opened Forests
  import opened ForestCore
  import opened ForestSteps
  import opened Minimality

  /** Deactivating a dependency whose top set has the feerate of the chunk. */
  lemma SplitTopRate(c: Core, d: Core, p: nat, ch: nat, x: nat, y: nat)
    requires Sane(c) && Sane(d) && CanDeactivate(c, p, ch) && DeactivateData(c, d, p, ch)
    requires x in d.tx && y in d.tx[x].active && x in c.info[c.tx[p].chunkIdx].transactions
    requires ChunkOptimal(c, c.tx[p].chunkIdx) && Gain(RateAt(c, c.tx[p].chunkIdx), RateAt(c, c.tx[p].depTop[ch])) == 0
    ensures y in d.tx[x].depTop && d.tx[x].depTop[y] < |d.info|
    ensures Gain(RateAt(c, c.tx[p].chunkIdx), d.info[d.tx[x].depTop[y]].feerate) <= 0
  {
    hide ValidForest, ForestOf, Linked, ReachCorrect, InfosCorrect, ReachDeactivated;
    var l := RateAt(c, c.tx[p].chunkIdx);
    var top, bot := c.info[c.tx[p].depTop[ch]].feerate, Sub(l, c.info[c.tx[p].depTop[ch]].feerate);
    var s := c.info[c.tx[x].depTop[y]].feerate;
    assert AtMost(s, l);
    GainSub(l, l, top);
    GainSub(l, s, top);
    GainSub(l, s, bot);
    assert (x, y) != (p, ch);
  }

  lemma SplitKeepsOptimal(c: Core, d: Core, p: nat, ch: nat, i: nat)
    requires Sane(c) && Sane(d) && CanDeactivate(c, p, ch) && DeactivateData(c, d, p, ch)
    requires ChunkOptimal(c, c.tx[p].chunkIdx) && Gain(RateAt(c, c.tx[p].chunkIdx), RateAt(c, c.tx[p].depTop[ch])) == 0
    requires i == c.tx[p].chunkIdx || i == c.tx[p].depTop[ch]
    ensures i in d.chunks && ChunkOptimal(d, i)
  {
    hide Sane, RateAt, DeactivateData, TxsAt, FamilyOf, OptimalKept;
    var ci := c.tx[p].chunkIdx;
    SplitShape(c, d, p, ch);
    var l := RateAt(c, ci);
    ChunkSize(c, ci);
    ChunkSize(d, i);
    forall x, y | x in TxsAt(d, i) && x in d.tx && y in d.tx[x].active && y in d.tx[x].depTop
      ensures AtMost(RateAt(d, d.tx[x].depTop[y]), RateAt(d, i))
    {
      SplitTopRate(c, d, p, ch, x, y);
      RateIs(d, d.tx[x].depTop[y]);
      SameRatio(l, RateAt(d, i), RateAt(d, d.tx[x].depTop[y]));
    }
  }

  lemma RateIs(c: Core, i: nat)
    requires i < |c.info|
    ensures RateAt(c, i) == c.info[i].feerate && TxsAt(c, i) == c.info[i].transactions
  {
  }

  lemma SplitShape(c: Core, d: Core, p: nat, ch: nat)
    requires Sane(c) && Sane(d) && CanDeactivate(c, p, ch) && DeactivateData(c, d, p, ch)
    requires Gain(RateAt(c, c.tx[p].chunkIdx), RateAt(c, c.tx[p].depTop[ch])) == 0
    ensures c.tx[p].chunkIdx in c.chunks && ch in c.tx[p].depTop
    ensures forall i :: i == c.tx[p].chunkIdx || i == c.tx[p].depTop[ch] ==>
      && i in d.chunks && TxsAt(d, i) <= c.info[c.tx[p].chunkIdx].transactions
      && Gain(RateAt(c, c.tx[p].chunkIdx), RateAt(d, i)) == 0
  {
    hide ValidForest, ForestOf, Linked, ReachCorrect, InfosCorrect;
    DeactivateSplits(c, d, p, ch);
    TopProper(c, p, ch);
    var l, top := RateAt(c, c.tx[p].chunkIdx), c.info[c.tx[p].depTop[ch]].feerate;
    GainSub(l, l, top);
  }

  /** What activation makes of the feerates of top sets. */
  lemma MergedTop(c: Core, d: Core, p: nat, ch: nat, x: nat, y: nat)
    requires Sane(c) && CanActivate(c, p, ch) && ActivateData(c, d, p, ch) && x in d.tx && y in d.tx[x].active
    ensures y in d.tx[x].depTop && d.tx[x].depTop[y] < |d.info| && c.tx[p].chunkIdx in c.chunks
    ensures c.tx[ch].chunkIdx in c.chunks
    ensures var a, b := RateAt(c, c.tx[p].chunkIdx), RateAt(c, c.tx[ch].chunkIdx);
            var r := d.info[d.tx[x].depTop[y]].feerate;
            if (x, y) == (p, ch) then r == a
            else x in c.tx && y in c.tx[x].active && y in c.tx[x].depTop
                 && var s := RateAt(c, c.tx[x].depTop[y]); r == s || r == Add(s, a) || r == Add(s, b)
  {
    hide ValidForest, ForestOf, Linked, ReachCorrect, InfosCorrect, ReachActivated;
    if (x, y) == (p, ch) { assert NoTop(c, c.tx[p].chunkIdx); }
  }

  /** Activating a dependency between chunks of equal feerate. */
  lemma MergeTopRate(c: Core, d: Core, p: nat, ch: nat, x: nat, y: nat, l: FeeFrac)
    requires Sane(c) && CanActivate(c, p, ch) && ActivateData(c, d, p, ch)
    requires x in d.tx && y in d.tx[x].active
    requires x in TxsAt(c, c.tx[p].chunkIdx) || x in TxsAt(c, c.tx[ch].chunkIdx)
    requires ChunkOptimal(c, c.tx[p].chunkIdx) && ChunkOptimal(c, c.tx[ch].chunkIdx)
    requires l.size > 0 && Gain(l, RateAt(c, c.tx[p].chunkIdx)) == 0 && Gain(l, RateAt(c, c.tx[ch].chunkIdx)) == 0
    ensures y in d.tx[x].depTop && d.tx[x].depTop[y] < |d.info| && Gain(l, d.info[d.tx[x].depTop[y]].feerate) <= 0
  {
    hide Sane, ActivateData, RateAt, TxsAt, Gain, AtMost;
    var pi, ci := c.tx[p].chunkIdx, c.tx[ch].chunkIdx;
    MergedTop(c, d, p, ch, x, y);
    ChunkSize(c, pi);
    ChunkSize(c, ci);
    if (x, y) != (p, ch) {
      var s := RateAt(c, c.tx[x].depTop[y]);
      var i := if x in TxsAt(c, pi) then pi else ci;
      assert AtMost(s, RateAt(c, i));
      AtMostIsNoGain(s, RateAt(c, i));
      SameRatio(l, RateAt(c, i), s);
      GainAdd(l, s, RateAt(c, pi));
      GainAdd(l, s, RateAt(c, ci));
    }
  }

  lemma AtMostIsNoGain(a: FeeFrac, b: FeeFrac)
    ensures AtMost(a, b) <==> Gain(b, a) <= 0
  {
  }

  lemma MergeKeepsOptimal(c: Core, d: Core, p: nat, ch: nat)
    requires Sane(c) && Sane(d) && CanActivate(c, p, ch) && ActivateData(c, d, p, ch)
    requires ChunkOptimal(c, c.tx[p].chunkIdx) && ChunkOptimal(c, c.tx[ch].chunkIdx)
    requires Gain(RateAt(c, c.tx[p].chunkIdx), RateAt(c, c.tx[ch].chunkIdx)) == 0
    ensures c.tx[ch].chunkIdx in d.chunks && ChunkOptimal(d, c.tx[ch].chunkIdx)
  {
    hide Sane, RateAt, ActivateData, TxsAt;
    var pi, ci := c.tx[p].chunkIdx, c.tx[ch].chunkIdx;
    MergeShape(c, d, p, ch);
    ChunkSize(d, ci);
    var l := RateAt(d, ci);
    forall x, y | x in TxsAt(d, ci) && x in d.tx && y in d.tx[x].active && y in d.tx[x].depTop
      ensures AtMost(RateAt(d, d.tx[x].depTop[y]), l)
    {
      MergeTopRate(c, d, p, ch, x, y, l);
      RateIs(d, d.tx[x].depTop[y]);
    }
  }

  lemma MergeShape(c: Core, d: Core, p: nat, ch: nat)
    requires Sane(c) && Sane(d) && CanActivate(c, p, ch) && ActivateData(c, d, p, ch)
    requires Gain(RateAt(c, c.tx[p].chunkIdx), RateAt(c, c.tx[ch].chunkIdx)) == 0
    ensures var pi, ci := c.tx[p].chunkIdx, c.tx[ch].chunkIdx;
            && pi < |c.info| && ci < |c.info|
            && ci in d.chunks && TxsAt(d, ci) == TxsAt(c, ci) + TxsAt(c, pi)
            && Gain(RateAt(d, ci), RateAt(c, pi)) == 0 && Gain(RateAt(d, ci), RateAt(c, ci)) == 0
  {
    hide ValidForest, ForestOf, Linked, ReachCorrect, InfosCorrect;
    ActivateMerges(c, d, p, ch);
    var a, b := RateAt(c, c.tx[p].chunkIdx), RateAt(c, c.tx[ch].chunkIdx);
    assert RateAt(d, c.tx[ch].chunkIdx) == Add(b, a);
    EqualSum(a, b);
  }

  lemma EqualSum(a: FeeFrac, b: FeeFrac)
    requires Gain(a, b) == 0
    ensures Gain(Add(b, a), a) == 0 && Gain(Add(b, a), b) == 0
  {
  }
}
