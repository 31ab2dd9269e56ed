/** Chunking a linearization (`ChunkLinearization`, src/cluster_linearize.h).

    The result is proved to be the least concave majorant of the cumulative fee/size curve. */
module Chunking {
  import opened FeeFracs
  import opened Totals
  import opened Diagrams

  function RatesOf(m: Rates, lin: seq<nat>): (txs: seq<FeeFrac>)
    requires forall i :: 0 <= i < |lin| ==> lin[i] in m
  {
    seq(|lin|, i requires 0 <= i < |lin| => m[lin[i]])
  }

  /** Every vertex of `cs` is a vertex of `txs`, and the two curves have the same end. */
  ghost predicate VerticesOf(cs: seq<FeeFrac>, txs: seq<FeeFrac>, cuts: seq<nat>) {
    && |cuts| == |cs| + 1 && cuts[|cs|] == |txs|
    && (forall k :: 0 <= k <= |cs| ==> cuts[k] <= |txs|)
    && (forall k :: 0 <= k <= |cs| ==> Sum(cs[..k]) == Sum(txs[..cuts[k]]))
  }

  /** The curve of `cs` is concave, nowhere below that of `txs`, and touches it at its vertices. */
  ghost predicate IsChunking(cs: seq<FeeFrac>, txs: seq<FeeFrac>) {
    && Sizes(cs) && Sorted(cs)
    && (forall k :: 0 <= k <= |txs| ==> OnOrBelow(Sum(txs[..k]), cs))
    && (exists cuts :: VerticesOf(cs, txs, cuts))
  }

  /** Of all concave curves nowhere below `txs`, its chunking is the lowest, at every point. */
  lemma LeastConcaveMajorant(cs: seq<FeeFrac>, txs: seq<FeeFrac>, ds: seq<FeeFrac>, pt: FeeFrac)
    requires IsChunking(cs, txs)
    requires Sizes(ds) && Sorted(ds) && Sum(ds).size == Sum(txs).size
    requires forall k :: 0 <= k <= |txs| ==> OnOrBelow(Sum(txs[..k]), ds)
    requires 0 <= pt.size <= Sum(txs).size && OnOrBelow(pt, cs)
    ensures OnOrBelow(pt, ds)
  {
    hide Sum, OnOrBelow;
    var cuts :| VerticesOf(cs, txs, cuts);
    assert cs[..|cs|] == cs && txs[..|txs|] == txs;
    assert Sum(cs[..|cs|]) == Sum(txs[..cuts[|cs|]]);
    forall k | 0 <= k <= |cs| ensures OnOrBelow(Sum(cs[..k]), ds) {
      assert OnOrBelow(Sum(txs[..cuts[k]]), ds);
    }
    WholeCurve(ds, cs, pt);
  }

  /** All prefixes of `txs` are within the potential of `cs`. */
  ghost predicate PrefixesWithin(txs: seq<FeeFrac>, cs: seq<FeeFrac>) {
    forall k :: 0 <= k <= |txs| ==> WithinPotential(Sum(txs[..k]), cs)
  }

  /** Replacing the last chunks of `base` by `c`, which absorbed them and one more transaction. */
  lemma Appended(base: seq<FeeFrac>, m: nat, c: FeeFrac, txs: seq<FeeFrac>, tx: FeeFrac)
    requires m <= |base|
    requires Dominates(c, base[m..]) && c == Add(tx, Sum(base[m..]))
    requires PrefixesWithin(txs, base) && Sum(base) == Sum(txs)
    ensures PrefixesWithin(txs + [tx], base[..m] + [c])
    ensures Sum(base[..m] + [c]) == Sum(txs + [tx])
  {
    hide Sum, Gain, Potential;
    var cs, txs' := base[..m] + [c], txs + [tx];
    assert base == base[..m] + base[m..];
    SumAppend(base[..m], base[m..]);
    SumAppend(base[..m], [c]);
    SumAppend(txs, [tx]);
    SumOne(c);
    SumOne(tx);
    forall k, r: FeeFrac | 0 <= k <= |txs'| && r.size > 0 ensures Gain(r, Sum(txs'[..k])) <= Potential(cs, r) {
      if k <= |txs| {
        assert txs'[..k] == txs[..k];
        assert WithinPotential(Sum(txs[..k]), base);
        PotentialAppend(base[..m], base[m..], r);
        PotentialAppend(base[..m], [c], r);
        PotentialOne(c, r);
        assert Gain(r, Sum(txs[..k])) <= Potential(base, r);
      } else {
        assert txs'[..k] == txs';
        SumWithinPotential(cs, r);
      }
    }
  }

  lemma SortedAppend(cs: seq<FeeFrac>, c: FeeFrac)
    requires Sizes(cs) && Sorted(cs) && c.size > 0
    requires cs != [] ==> AtMost(c, cs[|cs| - 1])
    ensures Sizes(cs + [c]) && Sorted(cs + [c])
  {
    forall i | 0 <= i < |cs| ensures AtMost(c, cs[i]) {
      if i < |cs| - 1 { RatioTransitive(c, cs[|cs| - 1], cs[i]); }
    }
  }

  lemma CutAppend(base: seq<FeeFrac>, m: nat, c: FeeFrac, txs: seq<FeeFrac>, tx: FeeFrac, cuts: seq<nat>)
    requires VerticesOf(base, txs, cuts) && m <= |base|
    requires Sum(base[..m] + [c]) == Sum(txs + [tx])
    ensures VerticesOf(base[..m] + [c], txs + [tx], cuts[..m + 1] + [|txs| + 1])
  {
    hide Sum;
    var cs, txs', cuts' := base[..m] + [c], txs + [tx], cuts[..m + 1] + [|txs| + 1];
    forall k | 0 <= k <= |cs| ensures Sum(cs[..k]) == Sum(txs'[..cuts'[k]]) {
      if k <= m {
        assert cs[..k] == base[..k] && txs'[..cuts[k]] == txs[..cuts[k]];
      } else {
        assert cs[..k] == cs && txs'[..|txs'|] == txs';
      }
    }
  }

  method ChunkLinearization(m: Rates, lin: seq<nat>) returns (ret: seq<FeeFrac>)
    requires PositiveSizes(m) && forall i :: 0 <= i < |lin| ==> lin[i] in m
    ensures IsChunking(ret, RatesOf(m, lin))
  {
    hide Sum, Gain, Potential, Dominates, WithinPotential;
    ghost var txs := RatesOf(m, lin);
    ghost var cuts: seq<nat> := [0];
    ret := [];
    InitialChunking();
    for i := 0 to |lin|
      invariant Sizes(ret) && Sorted(ret)
      invariant VerticesOf(ret, txs[..i], cuts)
      invariant PrefixesWithin(txs[..i], ret)
      invariant Sum(ret) == Sum(txs[..i])
    {
      var newChunk := m[lin[i]];
      ghost var base := ret;
      assert base[|ret|..] == [];
      DominatesNothing(newChunk);
      while |ret| > 0 && Lower(ret[|ret| - 1], newChunk)
        invariant |ret| <= |base| && ret == base[..|ret|]
        invariant newChunk.size > 0
        invariant newChunk == Add(txs[i], Sum(base[|ret|..]))
        invariant Dominates(newChunk, base[|ret|..])
      {
        var last := ret[|ret| - 1];
        assert base[|ret| - 1..] == [last] + base[|ret|..];
        SumAppend([last], base[|ret|..]);
        SumOne(last);
        AbsorbUp(newChunk, base[|ret|..], last);
        newChunk := Add(newChunk, last);
        ret := ret[..|ret| - 1];
      }
      assert txs[..i + 1] == txs[..i] + [txs[i]];
      Appended(base, |ret|, newChunk, txs[..i], txs[i]);
      CutAppend(base, |ret|, newChunk, txs[..i], txs[i], cuts);
      SortedAppend(ret, newChunk);
      cuts := cuts[..|ret| + 1] + [i + 1];
      ret := ret + [newChunk];
    }
    assert txs[..|lin|] == txs;
    FromPotential(ret, txs, cuts);
  }

  lemma InitialChunking()
    ensures VerticesOf([], [], [0]) && PrefixesWithin([], []) && Sum([]) == EMPTY
  {
    forall r: FeeFrac, k | r.size > 0 && 0 <= k <= 0 ensures Gain(r, Sum([][..k])) <= Potential([], r) { }
  }

  lemma FromPotential(cs: seq<FeeFrac>, txs: seq<FeeFrac>, cuts: seq<nat>)
    requires Sizes(cs) && Sorted(cs) && Sizes(txs)
    requires VerticesOf(cs, txs, cuts) && PrefixesWithin(txs, cs) && Sum(cs) == Sum(txs)
    ensures IsChunking(cs, txs)
  {
    hide Sum, Gain, Potential, OnOrBelow, WithinPotential;
    forall k | 0 <= k <= |txs| ensures OnOrBelow(Sum(txs[..k]), cs) {
      PrefixSize(txs, k);
      BelowFromPotential(Sum(txs[..k]), cs);
    }
  }
}
