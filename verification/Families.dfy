/** Families of chunks and the merge sequences that run over them.

    A family gives the transactions of every chunk, by chunk index.  Merging upwards joins a chunk
    with the lowest-feerate chunk it depends on, merging downwards with the highest-feerate chunk
    that depends on it.  The second is the first with dependencies reversed and fees negated, so
    both are treated by the same lemmas. */
module Families {
  import opened FeeFracs
  import opened Totals
  import opened Diagrams

  type Family = map<nat, set<nat>>
  type Links = map<nat, set<nat>>

  /** Some transaction of `a` is linked to one of `b`. */
  ghost predicate Depends(par: Links, a: set<nat>, b: set<nat>) {
    exists t, q :: t in a && t in par && q in par[t] && q in b
  }

  lemma DependsUnion(par: Links, a1: set<nat>, a2: set<nat>, b: set<nat>)
    ensures Depends(par, a1 + a2, b) <==> Depends(par, a1, b) || Depends(par, a2, b)
    ensures Depends(par, b, a1 + a2) <==> Depends(par, b, a1) || Depends(par, b, a2)
  {
    if Depends(par, a1, b) || Depends(par, a2, b) {
      var t, q :| (t in a1 || t in a2) && t in par && q in par[t] && q in b;
      assert t in a1 + a2;
    }
    if Depends(par, b, a1) || Depends(par, b, a2) {
      var t, q :| t in b && t in par && q in par[t] && (q in a1 || q in a2);
      assert q in a1 + a2;
    }
    if Depends(par, a1 + a2, b) {
      var t, q :| t in a1 + a2 && t in par && q in par[t] && q in b;
      assert t in a1 || t in a2;
    }
    if Depends(par, b, a1 + a2) {
      var t, q :| t in b && t in par && q in par[t] && q in a1 + a2;
      assert q in a1 || q in a2;
    }
  }

  ghost predicate IsFamily(m: Rates, k: Family) {
    && PositiveSizes(m)
    && (forall i :: i in k ==> k[i] != {} && k[i] <= m.Keys)
    && (forall i, j :: i in k && j in k && i != j ==> k[i] * k[j] == {})
  }

  /** Every chunk has a lower feerate than the other chunks it depends on. */
  ghost predicate Topological(m: Rates, par: Links, k: Family)
    requires IsFamily(m, k)
  {
    forall i, j :: i in k && j in k && i != j && Depends(par, k[i], k[j]) ==> Lower(Total(m, k[i]), Total(m, k[j]))
  }

  // ----- merge sequences

  /** The chunk `s` after joining the chunks `order` of `k`. */
  ghost function Cur(k: Family, s: set<nat>, order: seq<nat>): set<nat>
    requires forall n :: 0 <= n < |order| ==> order[n] in k
  {
    if order == [] then s else Cur(k, s, order[..|order| - 1]) + k[order[|order| - 1]]
  }

  /** `k` are the chunks other than `s`, of which those in `order` have been joined to `s`. */
  ghost predicate Running(m: Rates, k: Family, s: set<nat>, order: seq<nat>) {
    && IsFamily(m, k) && s != {} && s <= m.Keys && (forall i :: i in k ==> k[i] * s == {})
    && (forall n :: 0 <= n < |order| ==> order[n] in k)
    && (forall a, b :: 0 <= a < b < |order| ==> order[a] != order[b])
  }

  lemma RunningPrefix(m: Rates, k: Family, s: set<nat>, order: seq<nat>)
    requires Running(m, k, s, order) && order != []
    ensures var n := |order| - 1; Running(m, k, s, order[..n]) && order[n] in k && order[n] !in order[..n]
  {
  }

  ghost function RatesIn(m: Rates, k: Family, order: seq<nat>): seq<FeeFrac>
    requires IsFamily(m, k) && forall n :: 0 <= n < |order| ==> order[n] in k
  {
    if order == [] then [] else RatesIn(m, k, order[..|order| - 1]) + [Total(m, k[order[|order| - 1]])]
  }

  /** What is known of the running chunk: the chunks joined are in it, the others are apart from it, and
      the totals add up. */
  ghost predicate CurOk(m: Rates, k: Family, s: set<nat>, order: seq<nat>) {
    && IsFamily(m, k) && (forall n :: 0 <= n < |order| ==> order[n] in k) && s <= m.Keys
    && Cur(k, s, order) <= m.Keys && s <= Cur(k, s, order)
    && (forall i :: i in k && i !in order ==> k[i] * Cur(k, s, order) == {})
    && (forall i :: i in order ==> i in k && k[i] <= Cur(k, s, order))
    && Total(m, Cur(k, s, order)) == Add(Total(m, s), Sum(RatesIn(m, k, order)))
    && |RatesIn(m, k, order)| == |order| && Sizes(RatesIn(m, k, order)) && Total(m, Cur(k, s, order)).size > 0
  }

  lemma {:induction false} CurHolds(m: Rates, k: Family, s: set<nat>, order: seq<nat>)
    requires Running(m, k, s, order)
    ensures CurOk(m, k, s, order)
    decreases |order|
  {
    hide Total, Sum;
    if order == [] {
      TotalSize(m, s);
      SumNil();
    } else {
      hide CurOk;
      var n := |order| - 1;
      RunningPrefix(m, k, s, order);
      CurHolds(m, k, s, order[..n]);
      assert order == order[..n] + [order[n]];
      CurStep(m, k, s, order[..n], order[n]);
    }
  }

  lemma CurTotal(m: Rates, k: Family, s: set<nat>, order: seq<nat>)
    requires Running(m, k, s, order)
    ensures Cur(k, s, order) <= m.Keys && s <= Cur(k, s, order)
    ensures forall i :: i in k && i !in order ==> k[i] * Cur(k, s, order) == {}
    ensures forall i :: i in order ==> i in k && k[i] <= Cur(k, s, order)
    ensures Total(m, Cur(k, s, order)) == Add(Total(m, s), Sum(RatesIn(m, k, order)))
    ensures |RatesIn(m, k, order)| == |order| && Sizes(RatesIn(m, k, order))
    ensures Total(m, Cur(k, s, order)).size > 0
  {
    hide Total, Sum, Cur, RatesIn;
    CurHolds(m, k, s, order);
  }

  lemma CurApart(k: Family, s: set<nat>, pre: seq<nat>, u: nat, i: nat)
    requires (forall n :: 0 <= n < |pre| ==> pre[n] in k) && u in k && i in k && i != u
    requires k[i] * Cur(k, s, pre) == {} && k[i] * k[u] == {}
    ensures k[i] * (Cur(k, s, pre) + k[u]) == {}
  {
    DisjointUnion(k[i], Cur(k, s, pre), k[u]);
  }

  lemma CurMore(m: Rates, k: Family, s: set<nat>, pre: seq<nat>, u: nat)
    requires IsFamily(m, k) && (forall n :: 0 <= n < |pre| ==> pre[n] in k) && u in k
    ensures forall n :: 0 <= n < |pre + [u]| ==> (pre + [u])[n] in k
    ensures Cur(k, s, pre + [u]) == Cur(k, s, pre) + k[u]
    ensures RatesIn(m, k, pre + [u]) == RatesIn(m, k, pre) + [Total(m, k[u])]
  {
    hide Total;
    assert (pre + [u])[..|pre|] == pre;
  }

  lemma CurStep(m: Rates, k: Family, s: set<nat>, pre: seq<nat>, u: nat)
    requires CurOk(m, k, s, pre) && u in k && u !in pre
    ensures CurOk(m, k, s, pre + [u])
  {
    hide Total, Sum, Cur, RatesIn;
    var order, cur, t := pre + [u], Cur(k, s, pre), Total(m, k[u]);
    CurMore(m, k, s, pre, u);
    forall i | i in k && i !in order ensures k[i] * (cur + k[u]) == {} {
      assert i != u && i !in pre;
      CurApart(k, s, pre, u, i);
    }
    TotalSize(m, k[u]);
    TotalUnion(m, cur, k[u]);
    SumAppend(RatesIn(m, k, pre), [t]);
    SumOne(t);
  }

  lemma DisjointUnion(a: set<nat>, b: set<nat>, c: set<nat>)
    requires a * b == {} && a * c == {}
    ensures a * (b + c) == {}
  {
    forall x | x in a ensures x !in b + c { assert x in b ==> x in a * b; assert x in c ==> x in a * c; }
  }

  lemma SumNil()
    ensures Sum([]) == EMPTY
  {
  }

  /** A chunk that the running chunk can be joined with: it is depended on and not of higher
      feerate. */
  ghost predicate Candidate(m: Rates, par: Links, k: Family, s: set<nat>, order: seq<nat>, j: nat)
    requires Running(m, k, s, order)
  {
    CurTotal(m, k, s, order);
    var cur := Cur(k, s, order);
    j in k && j !in order && Depends(par, cur, k[j]) && AtMost(Total(m, k[j]), Total(m, cur))
  }

  /** Each chunk joined was a candidate of lowest feerate. */
  ghost predicate Run(m: Rates, par: Links, k: Family, s: set<nat>, order: seq<nat>)
    requires Running(m, k, s, order)
    decreases |order|
  {
    order != [] ==>
      var n := |order| - 1;
      RunningPrefix(m, k, s, order);
      && Run(m, par, k, s, order[..n])
      && Candidate(m, par, k, s, order[..n], order[n])
      && forall j :: Candidate(m, par, k, s, order[..n], j) ==> AtMost(Total(m, k[order[n]]), Total(m, k[j]))
  }

  ghost predicate Finished(m: Rates, par: Links, k: Family, s: set<nat>, order: seq<nat>)
    requires Running(m, k, s, order)
  {
    forall j :: j in k ==> !Candidate(m, par, k, s, order, j)
  }

  /** The chunks in `order` have lower feerates than the chunks they depend on. */
  ghost predicate Rising(m: Rates, par: Links, k: Family, order: seq<nat>)
    requires IsFamily(m, k)
  {
    forall i, j :: i in order && i in k && j in k && i != j && Depends(par, k[i], k[j])
      ==> Lower(Total(m, k[i]), Total(m, k[j]))
  }

  lemma {:induction false} RatesInAt(m: Rates, k: Family, order: seq<nat>, i: nat)
    requires IsFamily(m, k) && forall n :: 0 <= n < |order| ==> order[n] in k
    requires i < |order|
    ensures |RatesIn(m, k, order)| == |order| && RatesIn(m, k, order)[i] == Total(m, k[order[i]])
    decreases |order|
  {
    hide Total, IsFamily;
    if |order| > 1 {
      RatesInAt(m, k, order[..|order| - 1], if i < |order| - 1 then i else 0);
    }
  }

  /** One more step keeps the feerates ascending. */
  lemma NextIsHigher(m: Rates, par: Links, k: Family, s: set<nat>, order: seq<nat>, u: nat)
    requires Running(m, k, s, order) && Run(m, par, k, s, order) && Rising(m, par, k, order) && order != []
    requires Candidate(m, par, k, s, order, u)
    ensures u in k && AtMost(Total(m, k[order[|order| - 1]]), Total(m, k[u]))
  {
    hide Total, Depends;
    var n := |order| - 1;
    var v := order[n];
    RunningPrefix(m, k, s, order);
    var cur, pre := Cur(k, s, order), Cur(k, s, order[..n]);
    CurTotal(m, k, s, order);
    CurTotal(m, k, s, order[..n]);
    DependsUnion(par, pre, k[v], k[u]);
    if Depends(par, pre, k[u]) {
      TotalUnion(m, pre, k[v]);
      TotalSize(m, k[v]);
      TotalSize(m, k[u]);
      Mediant(Total(m, k[v]), Total(m, pre));
      AddCommutes(Total(m, k[v]), Total(m, pre));
      RatioTransitive(Total(m, k[u]), Total(m, cur), Total(m, pre));
      assert u !in order[..n];
      assert Candidate(m, par, k, s, order[..n], u);
    } else {
      assert v in order;
    }
  }

  lemma AddCommutes(a: FeeFrac, b: FeeFrac)
    ensures Add(a, b) == Add(b, a)
  {
  }

  /** Joined lowest first, the chunks come in ascending feerate, and the joined chunk keeps at least
      the potential that they had. */
  lemma {:induction false} Ascends(m: Rates, par: Links, k: Family, s: set<nat>, order: seq<nat>)
    requires Running(m, k, s, order) && Run(m, par, k, s, order) && Rising(m, par, k, order)
    ensures Cur(k, s, order) <= m.Keys && Dominates(Total(m, Cur(k, s, order)), RatesIn(m, k, order))
    ensures forall i :: i in order ==> i in k && AtMost(Total(m, k[i]), Total(m, Cur(k, s, order)))
    ensures forall i :: i in order ==> i in k && AtMost(Total(m, k[i]), Total(m, k[order[|order| - 1]]))
    decreases |order|
  {
    hide Total, Depends, Dominates, Candidate;
    if order == [] {
      DominatesNothing(Total(m, s));
    } else {
      var n := |order| - 1;
      var pre, u := order[..n], order[n];
      assert order == pre + [u];
      RunningPrefix(m, k, s, order);
      assert Run(m, par, k, s, pre) && Candidate(m, par, k, s, pre, u);
      assert Rising(m, par, k, pre);
      Ascends(m, par, k, s, pre);
      AscendsStep(m, par, k, s, pre, u);
    }
  }

  lemma AscendsStep(m: Rates, par: Links, k: Family, s: set<nat>, pre: seq<nat>, u: nat)
    requires Running(m, k, s, pre) && Run(m, par, k, s, pre) && Rising(m, par, k, pre)
    requires Running(m, k, s, pre + [u]) && Candidate(m, par, k, s, pre, u)
    requires Cur(k, s, pre) <= m.Keys && Dominates(Total(m, Cur(k, s, pre)), RatesIn(m, k, pre))
    requires forall i :: i in pre ==> i in k && AtMost(Total(m, k[i]), Total(m, k[pre[|pre| - 1]]))
    ensures var order := pre + [u];
            && Cur(k, s, order) <= m.Keys && Dominates(Total(m, Cur(k, s, order)), RatesIn(m, k, order))
            && (forall i :: i in order ==> i in k && AtMost(Total(m, k[i]), Total(m, Cur(k, s, order))))
            && (forall i :: i in order ==> i in k && AtMost(Total(m, k[i]), Total(m, k[u])))
  {
    hide Total, Depends, Dominates, Run, Rising;
    var order := pre + [u];
    assert order[..|order| - 1] == pre;
    CurTotal(m, k, s, pre);
    CurTotal(m, k, s, order);
    var cur, ur := Total(m, Cur(k, s, pre)), Total(m, k[u]);
    TotalSize(m, k[u]);
    TotalUnion(m, Cur(k, s, pre), k[u]);
    forall i | i in pre ensures AtMost(Total(m, k[i]), ur) {
      NextIsHigher(m, par, k, s, pre, u);
      TotalSize(m, k[i]);
      TotalSize(m, k[pre[|pre| - 1]]);
      RatioTransitive(Total(m, k[i]), Total(m, k[pre[|pre| - 1]]), ur);
    }
    var rs := RatesIn(m, k, pre);
    forall i | 0 <= i < |rs| ensures AtMost(rs[i], ur) { RatesInAt(m, k, pre, i); }
    AbsorbUp(cur, rs, ur);
    Mediant(ur, cur);
    AddCommutes(ur, cur);
    forall i | i in order ensures AtMost(Total(m, k[i]), Add(cur, ur)) && AtMost(Total(m, k[i]), ur) {
      TotalSize(m, k[i]);
      if i in pre { RatioTransitive(Total(m, k[i]), ur, Add(cur, ur)); }
    }
  }

  // ----- the two directions

  function Neg(a: FeeFrac): FeeFrac { FeeFrac(-a.fee, a.size) }

  function NegRates(m: Rates): Rates { map x | x in m :: Neg(m[x]) }

  lemma {:induction false} TotalNeg(m: Rates, s: set<nat>)
    requires s <= m.Keys
    ensures Total(NegRates(m), s) == Neg(Total(m, s))
    decreases s
  {
    hide Total;
    TotalEmpty(m);
    TotalEmpty(NegRates(m));
    if s != {} {
      var x :| x in s;
      TotalPick(m, s, x);
      TotalPick(NegRates(m), s, x);
      TotalNeg(m, s - {x});
    }
  }

  lemma NegOrder(a: FeeFrac, b: FeeFrac)
    ensures AtMost(Neg(a), Neg(b)) <==> AtMost(b, a)
    ensures Lower(Neg(a), Neg(b)) <==> Lower(b, a)
    ensures Neg(Neg(a)) == a
  {
  }

  lemma NegFamily(m: Rates, k: Family)
    requires IsFamily(m, k)
    ensures IsFamily(NegRates(m), k)
  {
  }

  ghost predicate Inverse(par: Links, chi: Links) {
    && (forall t, q :: t in par && q in par[t] ==> q in chi && t in chi[q])
    && (forall t, q :: q in chi && t in chi[q] ==> t in par && q in par[t])
  }

  lemma DependsInverse(par: Links, chi: Links, a: set<nat>, b: set<nat>)
    requires Inverse(par, chi)
    ensures Depends(chi, a, b) <==> Depends(par, b, a)
  {
    if Depends(chi, a, b) {
      var q, t :| q in a && q in chi && t in chi[q] && t in b;
      assert t in b && t in par && q in par[t] && q in a;
    }
    if Depends(par, b, a) {
      var t, q :| t in b && t in par && q in par[t] && q in a;
      assert q in a && q in chi && t in chi[q] && t in b;
    }
  }

  /** Keeping the potential of reversed chunks is keeping their potential and the gain of the chunk
      they were joined to. */
  lemma CoversFromNeg(c: FeeFrac, b: FeeFrac, ds: seq<FeeFrac>, nds: seq<FeeFrac>)
    requires |nds| == |ds| && forall i :: 0 <= i < |ds| ==> nds[i] == Neg(ds[i])
    requires c == Add(b, Sum(ds)) && Dominates(Neg(c), nds)
    ensures Covers(c, b, ds)
  {
    hide Sum, Potential;
    forall r: FeeFrac | r.size > 0 ensures Gain(r, b) + Potential(ds, r) <= Max0(Gain(r, c)) {
      assert Neg(r).size > 0;
      assert Potential(nds, Neg(r)) <= Max0(Gain(Neg(r), Neg(c)));
      PotentialNeg(ds, nds, r);
      GainNeg(r, c);
      GainAdd(r, b, Sum(ds));
    }
  }

  lemma GainNeg(r: FeeFrac, a: FeeFrac)
    ensures Gain(Neg(r), Neg(a)) == -Gain(r, a)
  {
  }

  lemma {:induction false} PotentialNeg(ds: seq<FeeFrac>, nds: seq<FeeFrac>, r: FeeFrac)
    requires |nds| == |ds| && forall i :: 0 <= i < |ds| ==> nds[i] == Neg(ds[i])
    ensures Potential(nds, Neg(r)) == Potential(ds, r) - Gain(r, Sum(ds))
  {
    if ds != [] {
      PotentialNeg(ds[1..], nds[1..], r);
      GainNeg(r, ds[0]);
      GainAdd(r, ds[0], Sum(ds[1..]));
    }
  }

  lemma {:induction false} RatesInNeg(m: Rates, k: Family, order: seq<nat>, i: nat)
    requires IsFamily(m, k) && (forall n :: 0 <= n < |order| ==> order[n] in k) && i < |order|
    ensures IsFamily(NegRates(m), k)
    ensures |RatesIn(NegRates(m), k, order)| == |RatesIn(m, k, order)| == |order|
    ensures RatesIn(NegRates(m), k, order)[i] == Neg(RatesIn(m, k, order)[i])
  {
    NegFamily(m, k);
    RatesInAt(m, k, order, i);
    RatesInAt(NegRates(m), k, order, i);
    TotalNeg(m, k[order[i]]);
  }

  // ----- the potential of a family

  ghost function Pot(fr: Rates, r: FeeFrac): int
    decreases fr.Keys
  {
    if fr.Keys == {} then 0 else
      var i := Pick(fr.Keys);
      Max0(Gain(r, fr[i])) + Pot(fr - {i}, r)
  }

  lemma {:induction false} PotPick(fr: Rates, i: nat, r: FeeFrac)
    requires i in fr
    ensures Pot(fr, r) == Max0(Gain(r, fr[i])) + Pot(fr - {i}, r)
    decreases fr.Keys
  {
    hide Gain;
    var j := Pick(fr.Keys);
    if j != i {
      PotPick(fr - {j}, i, r);
      PotPick(fr - {i}, j, r);
      assert fr - {j} - {i} == fr - {i} - {j};
    }
  }

  ghost function FamilyRates(m: Rates, k: Family): Rates
    requires IsFamily(m, k)
  {
    map i | i in k :: Total(m, k[i])
  }

  ghost function FamilyPotential(m: Rates, k: Family, r: FeeFrac): int
    requires IsFamily(m, k)
  {
    Pot(FamilyRates(m, k), r)
  }

  lemma FamilyWithout(m: Rates, k: Family, i: nat, r: FeeFrac)
    requires IsFamily(m, k) && i in k
    ensures IsFamily(m, k - {i})
    ensures FamilyPotential(m, k, r) == Max0(Gain(r, Total(m, k[i]))) + FamilyPotential(m, k - {i}, r)
  {
    hide Gain, Total, Pot;
    PotPick(FamilyRates(m, k), i, r);
    assert FamilyRates(m, k - {i}) == FamilyRates(m, k) - {i};
  }

  lemma FamilyWith(m: Rates, k: Family, i: nat, s: set<nat>, r: FeeFrac)
    requires IsFamily(m, k) && i !in k && s != {} && s <= m.Keys && forall j :: j in k ==> k[j] * s == {}
    ensures IsFamily(m, k[i := s])
    ensures FamilyPotential(m, k[i := s], r) == Max0(Gain(r, Total(m, s))) + FamilyPotential(m, k, r)
  {
    hide Gain, Total, Pot, FamilyRates;
    assert k[i := s] - {i} == k;
    FamilyWithout(m, k[i := s], i, r);
  }

  ghost function Without(k: Family, order: seq<nat>): Family {
    map i | i in k && i !in order :: k[i]
  }

  /** Taking the chunks of `order` out of a family takes out their potential. */
  lemma {:induction false} FamilyWithoutAll(m: Rates, k: Family, order: seq<nat>, r: FeeFrac)
    requires IsFamily(m, k) && (forall n :: 0 <= n < |order| ==> order[n] in k)
    requires forall a, b :: 0 <= a < b < |order| ==> order[a] != order[b]
    ensures IsFamily(m, Without(k, order))
    ensures FamilyPotential(m, k, r) == Potential(RatesIn(m, k, order), r) + FamilyPotential(m, Without(k, order), r)
    decreases |order|
  {
    hide Gain, Total, Potential, Pot;
    if order == [] {
      assert Without(k, order) == k;
      PotentialNil(r);
    } else {
      var n := |order| - 1;
      FamilyWithoutAll(m, k, order[..n], r);
      assert order == order[..n] + [order[n]];
      FamilyWithout(m, Without(k, order[..n]), order[n], r);
      assert Without(k, order[..n]) - {order[n]} == Without(k, order);
      PotentialAppend(RatesIn(m, k, order[..n]), [Total(m, k[order[n]])], r);
      PotentialOne(Total(m, k[order[n]]), r);
    }
  }

  lemma PotentialNil(r: FeeFrac)
    ensures Potential([], r) == 0
  {
  }
}
