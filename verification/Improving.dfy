/** Splitting a chunk and merging its two parts back into the family never makes the diagram worse
    (`SpanningForestState::Improve`, src/cluster_linearize.h). */
module Improving {
  import opened FeeFracs
  import opened Totals
  import opened Diagrams
  import opened Families

  /** What a merge sequence from `s` needs to know of the other chunks `k`: chunk `b` is not to be
      reached, and apart from it everything `s` can reach has a feerate above `lam`. */
  ghost predicate Guarded(m: Rates, par: Links, k: Family, s: set<nat>, b: nat, lam: FeeFrac)
    requires IsFamily(m, k) && s <= m.Keys
  {
    && b in k && lam.size > 0 && Lower(lam, Total(m, s)) && !Depends(par, s, k[b])
    && (forall j :: j in k && j != b && Depends(par, s, k[j]) ==> Lower(lam, Total(m, k[j])))
    && (forall i, j :: i in k && j in k && i != b && j != b && i != j && Depends(par, k[i], k[j])
          ==> Lower(Total(m, k[i]), Total(m, k[j])))
    && (forall i :: i in k && i != b && Lower(lam, Total(m, k[i])) ==> !Depends(par, k[i], k[b]))
  }

  lemma {:induction false} GuardedRun(m: Rates, par: Links, k: Family, s: set<nat>, order: seq<nat>, b: nat,
                                      lam: FeeFrac)
    requires Running(m, k, s, order) && Run(m, par, k, s, order) && Guarded(m, par, k, s, b, lam)
    ensures b !in order && Rising(m, par, k, order)
    ensures forall i :: i in order ==> i in k && Lower(lam, Total(m, k[i]))
    ensures Cur(k, s, order) <= m.Keys && Lower(lam, Total(m, Cur(k, s, order)))
    ensures !Depends(par, Cur(k, s, order), k[b])
    ensures forall j :: j in k && j != b && Depends(par, Cur(k, s, order), k[j]) ==> Lower(lam, Total(m, k[j]))
    decreases |order|
  {
    hide Total, Depends, Candidate;
    if order != [] {
      var n := |order| - 1;
      var pre, u := order[..n], order[n];
      assert order == pre + [u];
      RunningPrefix(m, k, s, order);
      GuardedRun(m, par, k, s, pre, b, lam);
      GuardedStep(m, par, k, s, pre, u, b, lam);
    }
  }

  lemma GuardedStep(m: Rates, par: Links, k: Family, s: set<nat>, pre: seq<nat>, u: nat, b: nat, lam: FeeFrac)
    requires Running(m, k, s, pre) && Running(m, k, s, pre + [u]) && Candidate(m, par, k, s, pre, u)
    requires Guarded(m, par, k, s, b, lam)
    requires Cur(k, s, pre) <= m.Keys && Lower(lam, Total(m, Cur(k, s, pre)))
    requires !Depends(par, Cur(k, s, pre), k[b])
    requires forall j :: j in k && j != b && Depends(par, Cur(k, s, pre), k[j]) ==> Lower(lam, Total(m, k[j]))
    ensures u != b && Lower(lam, Total(m, k[u])) && !Depends(par, k[u], k[b])
    ensures Cur(k, s, pre + [u]) <= m.Keys && Lower(lam, Total(m, Cur(k, s, pre + [u])))
    ensures !Depends(par, Cur(k, s, pre + [u]), k[b])
    ensures forall j :: j in k && j != b && Depends(par, Cur(k, s, pre + [u]), k[j]) ==> Lower(lam, Total(m, k[j]))
  {
    hide Total, Depends;
    var cur := Cur(k, s, pre);
    assert (pre + [u])[..|pre|] == pre;
    CurTotal(m, k, s, pre);
    TotalUnion(m, cur, k[u]);
    assert u in k && u != b && Lower(lam, Total(m, k[u]));
    GainAdd(lam, Total(m, cur), Total(m, k[u]));
    DependsUnion(par, cur, k[u], k[b]);
    TotalSize(m, k[u]);
    forall j | j in k && j != b && Depends(par, cur + k[u], k[j]) ensures Lower(lam, Total(m, k[j])) {
      DependsUnion(par, cur, k[u], k[j]);
      TotalSize(m, k[j]);
      if j != u && Depends(par, k[u], k[j]) {
        RatioTransitive(lam, Total(m, k[u]), Total(m, k[j]));
      }
    }
  }

  /** A split: chunk `at` of the topological family `k` falls apart into a top part `t`, of higher
      feerate and now at index `ti`, and a bottom part `b`, on which `t` does not depend. */
  datatype Split = Split(m: Rates, par: Links, chi: Links, k: Family, at: nat, ti: nat, t: set<nat>, b: set<nat>)

  ghost predicate ValidSplit(x: Split) {
    && IsFamily(x.m, x.k) && Topological(x.m, x.par, x.k) && Inverse(x.par, x.chi)
    && x.at in x.k && x.ti !in x.k
    && x.t != {} && x.b != {} && x.t * x.b == {} && x.t + x.b == x.k[x.at]
    && !Depends(x.par, x.t, x.b)
    && Lower(Total(x.m, x.k[x.at]), Total(x.m, x.t))
  }

  ghost function Lambda(x: Split): FeeFrac
    requires ValidSplit(x)
  {
    Total(x.m, x.k[x.at])
  }

  /** The chunks other than the top part, when the upward merges start. */
  ghost function UpOthers(x: Split): Family { x.k[x.at := x.b] }

  /** The top part after the upward merges with `us`. */
  ghost function Top(x: Split, us: seq<nat>): set<nat>
    requires forall n :: 0 <= n < |us| ==> us[n] in UpOthers(x)
  {
    Cur(UpOthers(x), x.t, us)
  }

  /** The chunks other than the bottom part, when the downward merges start. */
  ghost function DownOthers(x: Split, us: seq<nat>): Family
    requires forall n :: 0 <= n < |us| ==> us[n] in UpOthers(x)
  {
    Without(x.k - {x.at}, us)[x.ti := Top(x, us)]
  }

  ghost predicate UpRun(x: Split, us: seq<nat>) {
    && Running(x.m, UpOthers(x), x.t, us)
    && Run(x.m, x.par, UpOthers(x), x.t, us) && Finished(x.m, x.par, UpOthers(x), x.t, us)
  }

  ghost predicate DownRun(x: Split, us: seq<nat>, ds: seq<nat>)
    requires forall n :: 0 <= n < |us| ==> us[n] in UpOthers(x)
  {
    && Running(NegRates(x.m), DownOthers(x, us), x.b, ds)
    && Run(NegRates(x.m), x.chi, DownOthers(x, us), x.b, ds)
    && Finished(NegRates(x.m), x.chi, DownOthers(x, us), x.b, ds)
  }

  lemma SplitFacts(x: Split)
    requires ValidSplit(x)
    ensures x.t <= x.m.Keys && x.b <= x.m.Keys && Lambda(x).size > 0
    ensures Lambda(x) == Add(Total(x.m, x.t), Total(x.m, x.b))
    ensures Total(x.m, x.t).size > 0 && Total(x.m, x.b).size > 0
    ensures Lower(Lambda(x), Total(x.m, x.t)) && Lower(Total(x.m, x.b), Lambda(x))
    ensures IsFamily(x.m, UpOthers(x)) && forall i :: i in UpOthers(x) ==> UpOthers(x)[i] * x.t == {}
    ensures IsFamily(x.m, x.k - {x.at})
    ensures forall i :: i in x.k && i != x.at ==> x.k[i] * x.t == {} && x.k[i] * x.b == {}
  {
    hide Total, Depends, Topological;
    TotalSize(x.m, x.k[x.at]);
    TotalSize(x.m, x.t);
    TotalSize(x.m, x.b);
    TotalUnion(x.m, x.t, x.b);
    GainAdd(Lambda(x), Total(x.m, x.t), Total(x.m, x.b));
  }

  /** What chunk `j` depends on, or is depended on by, tells its feerate from that of the chunk. */
  lemma AgainstChunk(x: Split, j: nat)
    requires ValidSplit(x) && j in x.k && j != x.at
    ensures Depends(x.par, x.t, x.k[j]) || Depends(x.par, x.b, x.k[j]) ==> Lower(Lambda(x), Total(x.m, x.k[j]))
    ensures Depends(x.par, x.k[j], x.t) || Depends(x.par, x.k[j], x.b) ==> Lower(Total(x.m, x.k[j]), Lambda(x))
  {
    hide Total, Depends;
    DependsUnion(x.par, x.t, x.b, x.k[j]);
  }

  lemma UpGuarded(x: Split)
    requires ValidSplit(x)
    ensures IsFamily(x.m, UpOthers(x)) && x.t <= x.m.Keys
    ensures Guarded(x.m, x.par, UpOthers(x), x.t, x.at, Lambda(x))
  {
    hide Total, Depends;
    SplitFacts(x);
    var k := UpOthers(x);
    forall j | j in k && j != x.at
      ensures Depends(x.par, x.t, k[j]) ==> Lower(Lambda(x), Total(x.m, k[j]))
      ensures Lower(Lambda(x), Total(x.m, k[j])) ==> !Depends(x.par, k[j], k[x.at])
    {
      AgainstChunk(x, j);
    }
  }

  /** The upward merges leave a proper family without `b`. */
  ghost predicate UpSets(x: Split, us: seq<nat>)
    requires ValidSplit(x) && forall n :: 0 <= n < |us| ==> us[n] in UpOthers(x)
  {
    && x.at !in us && (forall i :: i in us ==> i in x.k)
    && Top(x, us) <= x.m.Keys && x.t <= Top(x, us) && x.b * Top(x, us) == {}
    && (forall i :: i in x.k && i != x.at && i !in us ==> x.k[i] * Top(x, us) == {})
  }

  /** After the upward merges: everything merged, and the result, is above the old chunk's feerate;
      none of it depends on the bottom part; what the result depends on has a higher feerate. */
  ghost predicate UpDone(x: Split, us: seq<nat>)
    requires ValidSplit(x) && forall n :: 0 <= n < |us| ==> us[n] in UpOthers(x)
  {
    UpSets(x, us) &&
    var top := Total(x.m, Top(x, us));
    && Lower(Lambda(x), top) && !Depends(x.par, Top(x, us), x.b)
    && (forall i :: i in us ==> Lower(Lambda(x), Total(x.m, x.k[i])) && AtMost(Total(x.m, x.k[i]), top))
    && (forall j :: j in x.k && j != x.at && j !in us && Depends(x.par, Top(x, us), x.k[j])
          ==> Lower(top, Total(x.m, x.k[j])))
  }

  lemma UpSetsHold(x: Split, us: seq<nat>)
    requires ValidSplit(x) && UpRun(x, us)
    ensures UpSets(x, us)
  {
    hide Total, Depends, Guarded, Run, Finished, Topological, Rising;
    UpGuarded(x);
    GuardedRun(x.m, x.par, UpOthers(x), x.t, us, x.at, Lambda(x));
    CurTotal(x.m, UpOthers(x), x.t, us);
  }

  lemma AfterUp(x: Split, us: seq<nat>)
    requires ValidSplit(x) && UpRun(x, us)
    ensures UpDone(x, us)
  {
    hide Total, Depends, Guarded, Run, Topological, Rising, Lower, AtMost, Dominates;
    UpGuarded(x);
    UpSetsHold(x, us);
    var k := UpOthers(x);
    GuardedRun(x.m, x.par, k, x.t, us, x.at, Lambda(x));
    Ascends(x.m, x.par, k, x.t, us);
    forall j | j in x.k && j != x.at && j !in us && Depends(x.par, Top(x, us), x.k[j])
      ensures Lower(Total(x.m, Top(x, us)), Total(x.m, x.k[j]))
    {
      assert j in k && !Candidate(x.m, x.par, k, x.t, us, j);
      NotAtMost(Total(x.m, x.k[j]), Total(x.m, Top(x, us)));
    }
  }

  lemma NotAtMost(a: FeeFrac, b: FeeFrac)
    ensures AtMost(a, b) <==> !Lower(b, a)
  {
  }

  lemma UpDominates(x: Split, us: seq<nat>)
    requires ValidSplit(x) && UpRun(x, us) && UpDone(x, us)
    ensures Dominates(Total(x.m, Top(x, us)), RatesIn(x.m, UpOthers(x), us))
    ensures Total(x.m, Top(x, us)) == Add(Total(x.m, x.t), Sum(RatesIn(x.m, UpOthers(x), us)))
  {
    hide Total, Depends, Guarded, Run, Finished, Topological, Rising, Lower, AtMost, Dominates, Sum;
    UpGuarded(x);
    GuardedRun(x.m, x.par, UpOthers(x), x.t, us, x.at, Lambda(x));
    Ascends(x.m, x.par, UpOthers(x), x.t, us);
    CurTotal(x.m, UpOthers(x), x.t, us);
  }

  // ----- downward merges

  lemma DownFamily(x: Split, us: seq<nat>)
    requires ValidSplit(x) && (forall n :: 0 <= n < |us| ==> us[n] in UpOthers(x)) && UpDone(x, us)
    ensures IsFamily(x.m, DownOthers(x, us)) && IsFamily(NegRates(x.m), DownOthers(x, us))
    ensures x.b <= NegRates(x.m).Keys && forall i :: i in DownOthers(x, us) ==> DownOthers(x, us)[i] * x.b == {}
  {
    hide Total, Depends, Topological, IsFamily, ValidSplit;
    SplitFacts(x);
    UpDoneParts(x, us);
    DownIsFamily(x, us);
    NegFamily(x.m, DownOthers(x, us));
  }

  lemma DownIsFamily(x: Split, us: seq<nat>)
    requires ValidSplit(x) && (forall n :: 0 <= n < |us| ==> us[n] in UpOthers(x)) && UpSets(x, us)
    ensures IsFamily(x.m, DownOthers(x, us))
    ensures x.b <= x.m.Keys && forall i :: i in DownOthers(x, us) ==> DownOthers(x, us)[i] * x.b == {}
  {
    hide Total, Depends, Topological, ValidSplit, Top, Lower, FamilyPotential;
    SplitFacts(x);
    SplitParts(x);
    var rest := Without(x.k - {x.at}, us);
    assert IsFamily(x.m, rest);
    assert x.ti !in rest by { SplitInverse(x); }
    FamilyWith(x.m, rest, x.ti, Top(x, us), EMPTY);
  }

  /** A chunk below the old feerate is depended on neither by the top part nor by what it merged. */
  lemma TopAboveLower(x: Split, us: seq<nat>, j: nat)
    requires ValidSplit(x) && UpRun(x, us) && UpDone(x, us)
    requires j in x.k && j != x.at && j !in us && Lower(Total(x.m, x.k[j]), Lambda(x))
    ensures !Depends(x.par, Top(x, us), x.k[j])
  {
    hide Total, Depends, Run, Finished, Topological;
    SplitFacts(x);
    TotalSize(x.m, x.k[j]);
    TotalSize(x.m, Top(x, us));
    if Depends(x.par, Top(x, us), x.k[j]) {
      RatioTransitive(Lambda(x), Total(x.m, Top(x, us)), Total(x.m, x.k[j]));
    }
  }

  lemma DownGuarded(x: Split, us: seq<nat>)
    requires ValidSplit(x) && UpRun(x, us) && UpDone(x, us)
    ensures IsFamily(NegRates(x.m), DownOthers(x, us)) && x.b <= NegRates(x.m).Keys
    ensures Guarded(NegRates(x.m), x.chi, DownOthers(x, us), x.b, x.ti, Neg(Lambda(x)))
  {
    hide Total, Depends, Run, Finished, UpDone, UpSets, Lower, ValidSplit, DownOthers;
    DownFamily(x, us);
    DownStart(x, us);
    DownKeys(x, us);
    var k := DownOthers(x, us);
    forall i | i in k && i != x.ti ensures DownGuardedAt(x, us, i) { DownGuardedOne(x, us, i); }
    forall i, j | i in k && j in k && i != x.ti && j != x.ti && i != j && Depends(x.chi, k[i], k[j])
      ensures Lower(Total(NegRates(x.m), k[i]), Total(NegRates(x.m), k[j]))
    {
      DownPair(x, i, j);
    }
  }

  lemma DownKeys(x: Split, us: seq<nat>)
    requires ValidSplit(x) && forall n :: 0 <= n < |us| ==> us[n] in UpOthers(x)
    ensures var k := DownOthers(x, us);
            && x.ti in k && k[x.ti] == Top(x, us)
            && forall i :: i in k && i != x.ti <==> i in x.k && i != x.at && i !in us
    ensures forall i :: i in DownOthers(x, us) && i != x.ti ==> i in x.k && DownOthers(x, us)[i] == x.k[i]
  {
  }

  lemma DownStart(x: Split, us: seq<nat>)
    requires ValidSplit(x) && UpRun(x, us) && UpDone(x, us)
    ensures UpSets(x, us) && Lambda(x).size > 0 && x.b <= x.m.Keys
    ensures Lower(Neg(Lambda(x)), Total(NegRates(x.m), x.b))
    ensures !Depends(x.chi, x.b, Top(x, us))
  {
    hide Total, Depends, Run, Finished, UpDone, Topological;
    UpDoneParts(x, us);
    SplitFacts(x);
    TotalNeg(x.m, x.b);
    NegOrder(Lambda(x), Total(x.m, x.b));
    DependsInverse(x.par, x.chi, x.b, Top(x, us));
  }

  lemma DownPair(x: Split, i: nat, j: nat)
    requires ValidSplit(x) && i in x.k && j in x.k && i != j && Depends(x.chi, x.k[i], x.k[j])
    ensures Lower(Total(NegRates(x.m), x.k[i]), Total(NegRates(x.m), x.k[j]))
  {
    hide Total, Depends;
    DependsInverse(x.par, x.chi, x.k[i], x.k[j]);
    TotalNeg(x.m, x.k[i]);
    TotalNeg(x.m, x.k[j]);
    NegOrder(Total(x.m, x.k[i]), Total(x.m, x.k[j]));
  }

  lemma UpDoneParts(x: Split, us: seq<nat>)
    requires ValidSplit(x) && (forall n :: 0 <= n < |us| ==> us[n] in UpOthers(x)) && UpDone(x, us)
    ensures UpSets(x, us) && !Depends(x.par, Top(x, us), x.b)
  {
  }

  ghost predicate DownGuardedAt(x: Split, us: seq<nat>, j: nat)
    requires ValidSplit(x) && (forall n :: 0 <= n < |us| ==> us[n] in UpOthers(x)) && UpSets(x, us)
    requires j in x.k
  {
    && (Depends(x.chi, x.b, x.k[j]) ==> Lower(Neg(Lambda(x)), Total(NegRates(x.m), x.k[j])))
    && (Lower(Neg(Lambda(x)), Total(NegRates(x.m), x.k[j])) ==> !Depends(x.chi, x.k[j], Top(x, us)))
  }

  lemma DownGuardedOne(x: Split, us: seq<nat>, j: nat)
    requires ValidSplit(x) && UpRun(x, us) && UpDone(x, us)
    requires j in x.k && j != x.at && j !in us
    ensures DownGuardedAt(x, us, j)
  {
    hide Total, Depends, Run, Finished, UpDone, Topological;
    UpDoneParts(x, us);
    SplitFacts(x);
    AgainstChunk(x, j);
    TotalNeg(x.m, x.k[j]);
    DependsInverse(x.par, x.chi, x.b, x.k[j]);
    DependsInverse(x.par, x.chi, x.k[j], Top(x, us));
    NegOrder(Lambda(x), Total(x.m, x.k[j]));
    if Lower(Total(x.m, x.k[j]), Lambda(x)) { TopAboveLower(x, us, j); }
  }

  ghost function Bottom(x: Split, us: seq<nat>, ds: seq<nat>): set<nat>
    requires forall n :: 0 <= n < |us| ==> us[n] in UpOthers(x)
    requires forall n :: 0 <= n < |ds| ==> ds[n] in DownOthers(x, us)
  {
    Cur(DownOthers(x, us), x.b, ds)
  }

  ghost predicate Ran(x: Split, us: seq<nat>, ds: seq<nat>) {
    UpRun(x, us) && DownRun(x, us, ds)
  }

  ghost predicate DownSets(x: Split, us: seq<nat>, ds: seq<nat>)
    requires ValidSplit(x) && Ran(x, us, ds)
  {
    && x.ti !in ds && (forall i :: i in ds ==> i in x.k && i != x.at && i !in us)
    && Bottom(x, us, ds) <= x.m.Keys && x.b <= Bottom(x, us, ds) && Top(x, us) * Bottom(x, us, ds) == {}
    && (forall i :: i in x.k && i != x.at && i !in us && i !in ds ==> x.k[i] * Bottom(x, us, ds) == {})
  }

  /** The mirror image of `UpDone` for the bottom part. */
  ghost predicate DownDone(x: Split, us: seq<nat>, ds: seq<nat>)
    requires ValidSplit(x) && Ran(x, us, ds)
  {
    DownSets(x, us, ds) &&
    var bot := Total(x.m, Bottom(x, us, ds));
    && Lower(bot, Lambda(x)) && !Depends(x.par, Top(x, us), Bottom(x, us, ds))
    && (forall i :: i in ds ==> Lower(Total(x.m, x.k[i]), Lambda(x)) && AtMost(bot, Total(x.m, x.k[i])))
    && (forall j :: j in x.k && j != x.at && j !in us && j !in ds && Depends(x.par, x.k[j], Bottom(x, us, ds))
          ==> Lower(Total(x.m, x.k[j]), bot))
  }

  lemma DownSetsHold(x: Split, us: seq<nat>, ds: seq<nat>)
    requires ValidSplit(x) && Ran(x, us, ds) && UpDone(x, us)
    ensures DownSets(x, us, ds)
  {
    hide Total, Depends, Guarded, Run, Finished, Rising, DownOthers, UpDone, ValidSplit;
    DownKeys(x, us);
    DownGuarded(x, us);
    GuardedRun(NegRates(x.m), x.chi, DownOthers(x, us), x.b, ds, x.ti, Neg(Lambda(x)));
    CurTotal(NegRates(x.m), DownOthers(x, us), x.b, ds);
  }

  lemma DownRates(x: Split, us: seq<nat>, ds: seq<nat>)
    requires ValidSplit(x) && Ran(x, us, ds) && UpDone(x, us) && DownSets(x, us, ds)
    ensures Lower(Total(x.m, Bottom(x, us, ds)), Lambda(x)) && !Depends(x.par, Top(x, us), Bottom(x, us, ds))
    ensures forall i :: i in ds ==> Lower(Total(x.m, x.k[i]), Lambda(x))
                                    && AtMost(Total(x.m, Bottom(x, us, ds)), Total(x.m, x.k[i]))
  {
    hide Total, Depends, Guarded, Run, Finished, Rising, DownOthers, UpDone, ValidSplit, Lower, AtMost, Dominates;
    DownKeys(x, us);
    DownGuarded(x, us);
    var k := DownOthers(x, us);
    var bot := Bottom(x, us, ds);
    GuardedRun(NegRates(x.m), x.chi, k, x.b, ds, x.ti, Neg(Lambda(x)));
    Ascends(NegRates(x.m), x.chi, k, x.b, ds);
    TotalNeg(x.m, bot);
    NegOrder(Lambda(x), Total(x.m, bot));
    SplitInverse(x);
    DependsInverse(x.par, x.chi, bot, Top(x, us));
    forall i | i in ds
      ensures Lower(Total(x.m, x.k[i]), Lambda(x)) && AtMost(Total(x.m, bot), Total(x.m, x.k[i]))
    {
      assert i in k && i != x.ti && k[i] == x.k[i];
      assert Lower(Neg(Lambda(x)), Total(NegRates(x.m), k[i]));
      TotalNeg(x.m, x.k[i]);
      NegOrder(Lambda(x), Total(x.m, x.k[i]));
      NegOrder(Total(x.m, x.k[i]), Total(x.m, bot));
    }
  }

  lemma SplitInverse(x: Split)
    requires ValidSplit(x)
    ensures Inverse(x.par, x.chi) && IsFamily(x.m, x.k) && x.at in x.k && x.ti !in x.k
  {
  }

  lemma DownFinished(x: Split, us: seq<nat>, ds: seq<nat>, j: nat)
    requires ValidSplit(x) && Ran(x, us, ds) && UpDone(x, us) && DownSets(x, us, ds)
    requires j in x.k && j != x.at && j !in us && j !in ds && Depends(x.par, x.k[j], Bottom(x, us, ds))
    ensures Lower(Total(x.m, x.k[j]), Total(x.m, Bottom(x, us, ds)))
  {
    hide Total, Depends, Guarded, Run, Rising, DownOthers, UpDone, ValidSplit, Lower, AtMost;
    SplitInverse(x);
    DownKeys(x, us);
    var k := DownOthers(x, us);
    var bot := Bottom(x, us, ds);
    assert j in k && k[j] == x.k[j];
    DependsInverse(x.par, x.chi, bot, x.k[j]);
    assert !Candidate(NegRates(x.m), x.chi, k, x.b, ds, j);
    assert !AtMost(Total(NegRates(x.m), k[j]), Total(NegRates(x.m), bot));
    TotalNeg(x.m, bot);
    TotalNeg(x.m, x.k[j]);
    NegOrder(Total(x.m, x.k[j]), Total(x.m, bot));
    NotAtMost(Total(x.m, bot), Total(x.m, x.k[j]));
  }

  lemma AfterDown(x: Split, us: seq<nat>, ds: seq<nat>)
    requires ValidSplit(x) && Ran(x, us, ds) && UpDone(x, us)
    ensures DownDone(x, us, ds)
  {
    hide Total, Depends, Run, Finished, DownOthers, UpDone, ValidSplit, Lower, AtMost;
    SplitInverse(x);
    DownSetsHold(x, us, ds);
    DownRates(x, us, ds);
    forall j | j in x.k && j != x.at && j !in us && j !in ds && Depends(x.par, x.k[j], Bottom(x, us, ds))
      ensures Lower(Total(x.m, x.k[j]), Total(x.m, Bottom(x, us, ds)))
    {
      DownFinished(x, us, ds, j);
    }
  }

  // ----- the family that results

  ghost function Result(x: Split, us: seq<nat>, ds: seq<nat>, bi: nat): Family
    requires Ran(x, us, ds)
  {
    Without(DownOthers(x, us), ds)[bi := Bottom(x, us, ds)]
  }

  /** A chunk of the old family that neither merge sequence touched. */
  ghost predicate Rest(x: Split, us: seq<nat>, ds: seq<nat>, i: nat) {
    i in x.k && i != x.at && i !in us && i !in ds
  }

  lemma ResultKeys(x: Split, us: seq<nat>, ds: seq<nat>, bi: nat)
    requires ValidSplit(x) && Ran(x, us, ds) && DownSets(x, us, ds) && bi != x.ti && !Rest(x, us, ds, bi)
    ensures var f := Result(x, us, ds, bi);
            && x.ti in f && f[x.ti] == Top(x, us) && bi in f && f[bi] == Bottom(x, us, ds)
            && forall i :: i in f && i != x.ti && i != bi <==> Rest(x, us, ds, i)
    ensures forall i :: Rest(x, us, ds, i) ==> i in Result(x, us, ds, bi) && Result(x, us, ds, bi)[i] == x.k[i]
  {
    hide DownOthers, Total, Depends, Run, Finished, ValidSplit;
    DownKeys(x, us);
  }

  lemma ResultFamily(x: Split, us: seq<nat>, ds: seq<nat>, bi: nat)
    requires ValidSplit(x) && Ran(x, us, ds) && UpSets(x, us) && DownSets(x, us, ds)
    requires bi != x.ti && !Rest(x, us, ds, bi)
    ensures IsFamily(x.m, Result(x, us, ds, bi))
  {
    hide Result, DownOthers, Total, Depends, Run, Finished, ValidSplit;
    SplitInverse(x);
    SplitParts(x);
    ResultKeys(x, us, ds, bi);
    var f := Result(x, us, ds, bi);
    forall i | i in f ensures f[i] != {} && f[i] <= x.m.Keys { assert i == x.ti || i == bi || Rest(x, us, ds, i); }
    forall i, j | i in f && j in f && i != j ensures f[i] * f[j] == {} {
      assert i == x.ti || i == bi || Rest(x, us, ds, i);
      assert j == x.ti || j == bi || Rest(x, us, ds, j);
    }
  }

  lemma SplitParts(x: Split)
    requires ValidSplit(x)
    ensures x.t != {} && x.b != {}
  {
  }

  /** What is linked to the running chunk is linked to a part of it, and conversely. */
  lemma {:induction false} DependsCur(par: Links, k: Family, s: set<nat>, order: seq<nat>, a: set<nat>)
    requires forall n :: 0 <= n < |order| ==> order[n] in k
    ensures Depends(par, a, Cur(k, s, order)) ==>
              Depends(par, a, s) || exists i :: i in order && i in k && Depends(par, a, k[i])
    ensures Depends(par, Cur(k, s, order), a) ==>
              Depends(par, s, a) || exists i :: i in order && i in k && Depends(par, k[i], a)
    decreases |order|
  {
    hide Depends;
    if order != [] {
      var n := |order| - 1;
      assert order == order[..n] + [order[n]];
      DependsCur(par, k, s, order[..n], a);
      DependsUnion(par, Cur(k, s, order[..n]), k[order[n]], a);
    }
  }

  lemma BelowTop(x: Split, us: seq<nat>, j: nat)
    requires ValidSplit(x) && UpRun(x, us) && UpDone(x, us)
    requires j in x.k && j != x.at && j !in us && Depends(x.par, x.k[j], Top(x, us))
    ensures Lower(Total(x.m, x.k[j]), Total(x.m, Top(x, us)))
  {
    hide Total, Depends, Run, Finished;
    SplitFacts(x);
    AgainstChunk(x, j);
    DependsCur(x.par, UpOthers(x), x.t, us, x.k[j]);
    var top := Total(x.m, Top(x, us));
    TotalSize(x.m, Top(x, us));
    TotalSize(x.m, x.k[j]);
    if Depends(x.par, x.k[j], x.t) {
      RatioTransitive(Total(x.m, x.k[j]), Lambda(x), top);
    } else {
      var u :| u in us && u in UpOthers(x) && Depends(x.par, x.k[j], UpOthers(x)[u]);
      TotalSize(x.m, x.k[u]);
      RatioTransitive(Total(x.m, x.k[j]), Total(x.m, x.k[u]), top);
    }
  }

  lemma AboveBottom(x: Split, us: seq<nat>, ds: seq<nat>, j: nat)
    requires ValidSplit(x) && Ran(x, us, ds) && UpSets(x, us) && DownDone(x, us, ds)
    requires Rest(x, us, ds, j) && Depends(x.par, Bottom(x, us, ds), x.k[j])
    ensures Lower(Total(x.m, Bottom(x, us, ds)), Total(x.m, x.k[j]))
  {
    hide Total, Depends, Run, Finished, DownOthers;
    DownKeys(x, us);
    SplitFacts(x);
    AgainstChunk(x, j);
    DependsCur(x.par, DownOthers(x, us), x.b, ds, x.k[j]);
    var bot := Total(x.m, Bottom(x, us, ds));
    TotalSize(x.m, Bottom(x, us, ds));
    TotalSize(x.m, x.k[j]);
    if Depends(x.par, x.b, x.k[j]) {
      RatioTransitive(bot, Lambda(x), Total(x.m, x.k[j]));
    } else {
      var d :| d in ds && d in DownOthers(x, us) && Depends(x.par, DownOthers(x, us)[d], x.k[j]);
      AboveJoined(x, us, ds, j, d);
    }
  }

  lemma AboveJoined(x: Split, us: seq<nat>, ds: seq<nat>, j: nat, d: nat)
    requires ValidSplit(x) && Ran(x, us, ds) && UpSets(x, us) && DownDone(x, us, ds) && Rest(x, us, ds, j)
    requires d in ds && d in DownOthers(x, us) && Depends(x.par, DownOthers(x, us)[d], x.k[j])
    ensures Lower(Total(x.m, Bottom(x, us, ds)), Total(x.m, x.k[j]))
  {
    hide Total, Depends, Run, Finished, DownOthers;
    DownKeys(x, us);
    TotalSize(x.m, Bottom(x, us, ds));
    TotalSize(x.m, x.k[j]);
    TotalSize(x.m, x.k[d]);
    RatioTransitive(Total(x.m, Bottom(x, us, ds)), Total(x.m, x.k[d]), Total(x.m, x.k[j]));
  }

  lemma BottomBelowTop(x: Split, us: seq<nat>, ds: seq<nat>)
    requires ValidSplit(x) && Ran(x, us, ds) && UpDone(x, us) && DownDone(x, us, ds)
    ensures Lower(Total(x.m, Bottom(x, us, ds)), Total(x.m, Top(x, us)))
  {
    hide Total, Depends, Run, Finished, DownOthers;
    SplitFacts(x);
    TotalSize(x.m, Bottom(x, us, ds));
    TotalSize(x.m, Top(x, us));
    RatioTransitive(Total(x.m, Bottom(x, us, ds)), Lambda(x), Total(x.m, Top(x, us)));
  }

  lemma RestPair(x: Split, i: nat, j: nat)
    requires ValidSplit(x) && i in x.k && j in x.k && i != j && Depends(x.par, x.k[i], x.k[j])
    ensures Lower(Total(x.m, x.k[i]), Total(x.m, x.k[j]))
  {
  }

  /** Splitting and merging restores a topological family. */
  lemma ResultTopological(x: Split, us: seq<nat>, ds: seq<nat>, bi: nat)
    requires ValidSplit(x) && Ran(x, us, ds) && bi != x.ti && !Rest(x, us, ds, bi)
    ensures IsFamily(x.m, Result(x, us, ds, bi)) && Topological(x.m, x.par, Result(x, us, ds, bi))
  {
    hide Result, DownOthers, Total, Depends, Run, Finished, ValidSplit, Lower, UpSets, DownSets;
    AfterUp(x, us);
    AfterDown(x, us, ds);
    ResultFamily(x, us, ds, bi);
    var f := Result(x, us, ds, bi);
    forall i, j | i in f && j in f && i != j && Depends(x.par, f[i], f[j])
      ensures Lower(Total(x.m, f[i]), Total(x.m, f[j]))
    {
      ResultPair(x, us, ds, bi, i, j);
    }
  }

  lemma ResultPair(x: Split, us: seq<nat>, ds: seq<nat>, bi: nat, i: nat, j: nat)
    requires ValidSplit(x) && Ran(x, us, ds) && UpDone(x, us) && DownDone(x, us, ds)
    requires bi != x.ti && !Rest(x, us, ds, bi) && IsFamily(x.m, Result(x, us, ds, bi))
    requires i in Result(x, us, ds, bi) && j in Result(x, us, ds, bi) && i != j
    requires Depends(x.par, Result(x, us, ds, bi)[i], Result(x, us, ds, bi)[j])
    ensures Lower(Total(x.m, Result(x, us, ds, bi)[i]), Total(x.m, Result(x, us, ds, bi)[j]))
  {
    hide Result, DownOthers, Total, Depends, Run, Finished, ValidSplit, Lower, AtMost, UpSets, DownSets;
    ResultKeys(x, us, ds, bi);
    assert i == x.ti || i == bi || Rest(x, us, ds, i);
    assert j == x.ti || j == bi || Rest(x, us, ds, j);
    if i == bi {
      if j == x.ti { BottomBelowTop(x, us, ds); } else { AboveBottom(x, us, ds, j); }
    } else if i != x.ti {
      if j == x.ti { BelowTop(x, us, i); } else if j != bi { RestPair(x, i, j); }
    }
  }

  // ----- the diagram is never worse

  lemma {:induction false} RatesInSame(m: Rates, k1: Family, k2: Family, order: seq<nat>)
    requires IsFamily(m, k1) && IsFamily(m, k2)
    requires forall n :: 0 <= n < |order| ==> order[n] in k1 && order[n] in k2 && k1[order[n]] == k2[order[n]]
    ensures RatesIn(m, k1, order) == RatesIn(m, k2, order)
    decreases |order|
  {
    hide Total, IsFamily;
    if order != [] { RatesInSame(m, k1, k2, order[..|order| - 1]); }
  }

  ghost function UpRates(x: Split, us: seq<nat>): seq<FeeFrac>
    requires IsFamily(x.m, UpOthers(x)) && forall n :: 0 <= n < |us| ==> us[n] in UpOthers(x)
  {
    RatesIn(x.m, UpOthers(x), us)
  }

  ghost function DownRatesOf(x: Split, us: seq<nat>, ds: seq<nat>): seq<FeeFrac>
    requires (forall n :: 0 <= n < |us| ==> us[n] in UpOthers(x)) && IsFamily(x.m, DownOthers(x, us))
    requires forall n :: 0 <= n < |ds| ==> ds[n] in DownOthers(x, us)
  {
    RatesIn(x.m, DownOthers(x, us), ds)
  }

  lemma DownCovers(x: Split, us: seq<nat>, ds: seq<nat>)
    requires ValidSplit(x) && Ran(x, us, ds) && UpDone(x, us) && DownDone(x, us, ds)
    ensures IsFamily(x.m, DownOthers(x, us))
    ensures Covers(Total(x.m, Bottom(x, us, ds)), Total(x.m, x.b), DownRatesOf(x, us, ds))
  {
    hide Total, Depends, Guarded, Run, Finished, Rising, DownOthers, UpDone, DownDone, ValidSplit, Lower, AtMost,
         Dominates, Covers, Sum, Potential;
    SplitInverse(x);
    DownFamily(x, us);
    DownGuarded(x, us);
    var k := DownOthers(x, us);
    var nm := NegRates(x.m);
    GuardedRun(nm, x.chi, k, x.b, ds, x.ti, Neg(Lambda(x)));
    Ascends(nm, x.chi, k, x.b, ds);
    CurTotal(nm, k, x.b, ds);
    var bot := Bottom(x, us, ds);
    var rs, ns := DownRatesOf(x, us, ds), RatesIn(nm, k, ds);
    RatesInLength(x.m, k, ds);
    forall i | 0 <= i < |ds| ensures ns[i] == Neg(rs[i]) { RatesInNeg(x.m, k, ds, i); }
    TotalNeg(x.m, bot);
    assert Running(x.m, k, x.b, ds);
    CurTotal(x.m, k, x.b, ds);
    CoversFromNeg(Total(x.m, bot), Total(x.m, x.b), rs, ns);
  }

  lemma {:induction false} RatesInLength(m: Rates, k: Family, order: seq<nat>)
    requires IsFamily(m, k) && forall n :: 0 <= n < |order| ==> order[n] in k
    ensures |RatesIn(m, k, order)| == |order|
    decreases |order|
  {
    if order != [] { RatesInLength(m, k, order[..|order| - 1]); }
  }

  /** The old family's potential, split by what became of its chunks. */
  lemma OldPotential(x: Split, us: seq<nat>, ds: seq<nat>, r: FeeFrac)
    requires ValidSplit(x) && Ran(x, us, ds) && UpSets(x, us) && DownSets(x, us, ds)
    requires IsFamily(x.m, UpOthers(x)) && IsFamily(x.m, DownOthers(x, us))
    ensures var rest := Without(Without(x.k - {x.at}, us), ds);
            && IsFamily(x.m, x.k) && IsFamily(x.m, rest)
            && FamilyPotential(x.m, x.k, r) == Max0(Gain(r, Lambda(x))) + Potential(UpRates(x, us), r)
                                               + Potential(DownRatesOf(x, us, ds), r) + FamilyPotential(x.m, rest, r)
  {
    hide Total, Depends, Run, Finished, Gain, Potential, FamilyPotential, Topological, IsFamily, RatesIn;
    FamilyWithout(x.m, x.k, x.at, r);
    var k1 := x.k - {x.at};
    FamilyWithoutAll(x.m, k1, us, r);
    RatesInSame(x.m, k1, UpOthers(x), us);
    var k2 := Without(k1, us);
    FamilyWithoutAll(x.m, k2, ds, r);
    RatesInSame(x.m, k2, DownOthers(x, us), ds);
  }

  lemma NewPotential(x: Split, us: seq<nat>, ds: seq<nat>, bi: nat, r: FeeFrac)
    requires ValidSplit(x) && Ran(x, us, ds) && UpSets(x, us) && DownSets(x, us, ds)
    requires bi != x.ti && !Rest(x, us, ds, bi)
    ensures var rest := Without(Without(x.k - {x.at}, us), ds);
            && IsFamily(x.m, Result(x, us, ds, bi)) && IsFamily(x.m, rest)
            && FamilyPotential(x.m, Result(x, us, ds, bi), r) ==
                 Max0(Gain(r, Total(x.m, Top(x, us)))) + Max0(Gain(r, Total(x.m, Bottom(x, us, ds))))
                 + FamilyPotential(x.m, rest, r)
  {
    hide Total, Depends, Run, Finished, Gain, FamilyPotential, ValidSplit, Result, DownOthers, IsFamily;
    ResultFamily(x, us, ds, bi);
    ResultKeys(x, us, ds, bi);
    var f := Result(x, us, ds, bi);
    FamilyWithout(x.m, f, bi, r);
    FamilyWithout(x.m, f - {bi}, x.ti, r);
    assert f - {bi} - {x.ti} == Without(Without(x.k - {x.at}, us), ds) by { RestFamily(x, us, ds, bi, f); }
  }

  lemma RestFamily(x: Split, us: seq<nat>, ds: seq<nat>, bi: nat, f: Family)
    requires forall i :: i in f && i != x.ti && i != bi <==> Rest(x, us, ds, i)
    requires forall i :: Rest(x, us, ds, i) ==> i in f && f[i] == x.k[i]
    ensures f - {bi} - {x.ti} == Without(Without(x.k - {x.at}, us), ds)
  {
    var g, h := f - {bi} - {x.ti}, Without(Without(x.k - {x.at}, us), ds);
    forall i ensures i in g <==> i in h { assert i in h <==> Rest(x, us, ds, i); }
    forall i | i in h ensures g[i] == h[i] { assert Rest(x, us, ds, i); }
  }

  /** Upward part: below the old feerate nothing is lost, above it the merged chunk dominates. */
  lemma UpGain(x: Split, us: seq<nat>, r: FeeFrac)
    requires ValidSplit(x) && UpRun(x, us) && UpDone(x, us) && r.size > 0 && IsFamily(x.m, UpOthers(x))
    ensures Potential(UpRates(x, us), r) <= Max0(Gain(r, Total(x.m, Top(x, us))))
    ensures AtMost(r, Lambda(x)) ==>
              Gain(r, Total(x.m, x.t)) + Potential(UpRates(x, us), r) <= Max0(Gain(r, Total(x.m, Top(x, us))))
  {
    hide Total, Depends, Run, Finished, Potential, Topological, Sum;
    SplitFacts(x);
    UpDominates(x, us);
    var rs := UpRates(x, us);
    var top := Total(x.m, Top(x, us));
    assert Dominates(top, rs);
    assert Potential(rs, r) <= Max0(Gain(r, top));
    if AtMost(r, Lambda(x)) {
      RatesInLength(x.m, UpOthers(x), us);
      forall i | 0 <= i < |rs| ensures AtMost(r, rs[i]) {
        RatesInAt(x.m, UpOthers(x), us, i);
        TotalSize(x.m, x.k[us[i]]);
        assert us[i] in us;
        RatioTransitive(r, Lambda(x), rs[i]);
      }
      PotentialAll(rs, r);
      GainAdd(r, Total(x.m, x.t), Sum(rs));
    }
  }

  lemma DownGain(x: Split, us: seq<nat>, ds: seq<nat>, r: FeeFrac)
    requires ValidSplit(x) && Ran(x, us, ds) && UpDone(x, us) && DownDone(x, us, ds) && r.size > 0
    requires IsFamily(x.m, DownOthers(x, us))
    ensures Gain(r, Total(x.m, x.b)) + Potential(DownRatesOf(x, us, ds), r) <=
              Max0(Gain(r, Total(x.m, Bottom(x, us, ds))))
    ensures AtMost(Lambda(x), r) ==> Potential(DownRatesOf(x, us, ds), r) == 0
  {
    hide Total, Depends, Run, Finished, Potential, Topological, Sum, DownOthers;
    SplitFacts(x);
    DownKeys(x, us);
    DownCovers(x, us, ds);
    var rs := DownRatesOf(x, us, ds);
    assert Covers(Total(x.m, Bottom(x, us, ds)), Total(x.m, x.b), rs);
    assert Gain(r, Total(x.m, x.b)) + Potential(rs, r) <= Max0(Gain(r, Total(x.m, Bottom(x, us, ds))));
    if AtMost(Lambda(x), r) {
      RatesInLength(x.m, DownOthers(x, us), ds);
      forall i | 0 <= i < |rs| ensures AtMost(rs[i], r) {
        RatesInAt(x.m, DownOthers(x, us), ds, i);
        assert ds[i] in ds;
        TotalSize(x.m, x.k[ds[i]]);
        RatioTransitive(rs[i], Lambda(x), r);
      }
      PotentialZero(rs, r);
    }
  }

  /** Splitting and merging never makes the diagram worse. */
  lemma ResultNeverWorse(x: Split, us: seq<nat>, ds: seq<nat>, bi: nat, r: FeeFrac)
    requires ValidSplit(x) && Ran(x, us, ds) && bi != x.ti && !Rest(x, us, ds, bi) && r.size > 0
    ensures IsFamily(x.m, x.k) && IsFamily(x.m, Result(x, us, ds, bi))
    ensures FamilyPotential(x.m, x.k, r) <= FamilyPotential(x.m, Result(x, us, ds, bi), r)
  {
    hide Total, Depends, Run, Finished, Potential, FamilyPotential, DownOthers, UpOthers, UpSets, DownSets, ValidSplit,
         Sum, UpRates, DownRatesOf, Result;
    AfterUp(x, us);
    AfterDown(x, us, ds);
    SplitFacts(x);
    DownFamily(x, us);
    OldPotential(x, us, ds, r);
    NewPotential(x, us, ds, bi, r);
    UpGain(x, us, r);
    DownGain(x, us, ds, r);
    GainAdd(r, Total(x.m, x.t), Total(x.m, x.b));
  }

  /** When the two parts do not merge with each other again, the diagram is strictly better: at the old
      chunk's own feerate it rises by at least the gain of the top part. */
  lemma ResultStrictlyBetter(x: Split, us: seq<nat>, ds: seq<nat>, bi: nat)
    requires ValidSplit(x) && Ran(x, us, ds) && bi != x.ti && !Rest(x, us, ds, bi)
    ensures Lambda(x).size > 0 && IsFamily(x.m, x.k) && IsFamily(x.m, Result(x, us, ds, bi))
    ensures x.t <= x.m.Keys && Gain(Lambda(x), Total(x.m, x.t)) > 0
    ensures FamilyPotential(x.m, x.k, Lambda(x)) + Gain(Lambda(x), Total(x.m, x.t)) <=
            FamilyPotential(x.m, Result(x, us, ds, bi), Lambda(x))
  {
    hide Total, Depends, Run, Finished, Potential, FamilyPotential, DownOthers, UpOthers, UpSets, DownSets, ValidSplit,
         Sum, UpRates, DownRatesOf, Result;
    var r := Lambda(x);
    AfterUp(x, us);
    AfterDown(x, us, ds);
    SplitFacts(x);
    DownFamily(x, us);
    OldPotential(x, us, ds, r);
    NewPotential(x, us, ds, bi, r);
    UpGain(x, us, r);
    DownGain(x, us, ds, r);
  }
}
