/** What an optimal state guarantees about every linearization of the graph. */
module StateOptimality {
  import opened FeeFracs
  import opened Totals
  import opened Forests
  import opened Families
  import opened Optimality
  import opened ForestCore
  import opened ForestSteps

  /** A set of transactions that contains the parents of its members. */
  ghost predicate ParentClosed(par: Links, s: set<nat>) {
    forall x :: x in s && x in par ==> par[x] <= s
  }

  ghost predicate AllOptimal(c: Core) {
    forall i :: i in c.chunks ==> ChunkOptimal(c, i)
  }

  // ----- no set of transactions closed under parents beats the chunks

  lemma {:induction false} PartsWithin(m: Rates, f: Family, s: set<nat>, r: FeeFrac)
    requires IsFamily(m, f) && s <= m.Keys && (forall x :: x in s ==> exists i :: i in f && x in f[i])
    requires forall i :: i in f ==> Gain(r, Total(m, s * f[i])) <= Max0(Gain(r, Total(m, f[i])))
    ensures Gain(r, Total(m, s)) <= FamilyPotential(m, f, r)
    decreases f.Keys
  {
    hide Total, Gain, FamilyPotential, Max0;
    if f.Keys == {} {
      assert s == {};
      TotalEmpty(m);
      EmptyFamily(m, f, r);
    } else {
      var i :| i in f;
      var s1, s2 := s * f[i], s - f[i];
      assert s == s1 + s2;
      GainUnion(m, r, s1, s2);
      FamilyWithout(m, f, i, r);
      forall j | j in f - {i} ensures s2 * f[j] == s * f[j] { DisjointMinus(s, f[i], f[j]); }
      forall x | x in s2 ensures exists j :: j in f - {i} && x in f[j] {
        var j :| j in f && x in f[j];
        assert j in f - {i};
      }
      PartsWithin(m, f - {i}, s2, r);
    }
  }

  lemma DisjointMinus(s: set<nat>, a: set<nat>, b: set<nat>)
    requires a * b == {}
    ensures (s - a) * b == s * b
  {
    forall x ensures x in (s - a) * b <==> x in s * b { assert x in a && x in b ==> x in a * b; }
  }

  lemma EmptyFamily(m: Rates, f: Family, r: FeeFrac)
    requires IsFamily(m, f) && f.Keys == {}
    ensures FamilyPotential(m, f, r) == 0 && Gain(r, EMPTY) == 0
  {
  }

  lemma TopRates(c: Core, i: nat)
    requires Sane(c) && i in c.chunks && ChunkOptimal(c, i)
    ensures i < |c.info| && TxsAt(c, i) <= c.rate.Keys
    ensures forall e :: e in DepsIn(ForestOf(c), TxsAt(c, i)) ==> ForestOf(c).top[e] <= c.rate.Keys
    ensures NoHigherTop(c.rate, ForestOf(c), TxsAt(c, i))
  {
    hide ValidForest, ReachCorrect, Total, Linked;
    var f := ForestOf(c);
    assert InfoCorrect(c.rate, c.info[i]);
    forall e | e in DepsIn(f, TxsAt(c, i))
      ensures f.top[e] <= c.rate.Keys
      ensures f.top[e] <= c.rate.Keys && AtMost(Total(c.rate, f.top[e]), Total(c.rate, TxsAt(c, i)))
    {
      var t := c.tx[e.0].depTop[e.1];
      assert InfoCorrect(c.rate, c.info[t]);
      assert AtMost(RateAt(c, t), RateAt(c, i));
    }
  }

  /** The active dependencies are among the dependencies. */
  lemma InsideChunk(c: Core, i: nat, s: set<nat>)
    requires Sane(c) && i in c.chunks && s <= c.rate.Keys && ParentClosed(Par(c), s)
    ensures i < |c.info| && ParentsInside(ForestOf(c), s * TxsAt(c, i))
  {
    hide ReachCorrect, InfosCorrect, Connected, Partition;
    var f := ForestOf(c);
    forall e | e in f.top && e.1 in s * TxsAt(c, i) ensures e.0 in s * TxsAt(c, i) {
      assert Inside(f, e) && e.1 in c.tx[e.0].children;
      assert e.0 in c.tx[e.1].parents;
    }
  }

  lemma ChunkMember(c: Core, i: nat) returns (x: nat)
    requires Sane(c) && i in c.chunks
    ensures PositiveSizes(c.rate) && x in ForestOf(c).chunk && ForestOf(c).chunk[x] == TxsAt(c, i)
    ensures ForestOf(c).chunk.Keys == c.rate.Keys
  {
    hide ReachCorrect, InfosCorrect, ValidForest, Linked, TopsIndexed;
    x :| x in c.info[i].transactions;
    assert x in c.tx && c.tx[x].chunkIdx == i;
  }

  lemma PartOfChunk(c: Core, i: nat, s: set<nat>, r: FeeFrac)
    requires Sane(c) && i in c.chunks && ChunkOptimal(c, i) && s <= c.rate.Keys && ParentClosed(Par(c), s) && r.size > 0
    ensures TxsAt(c, i) <= c.rate.Keys
    ensures Gain(r, Total(c.rate, s * TxsAt(c, i))) <= Max0(Gain(r, Total(c.rate, TxsAt(c, i))))
  {
    hide Sane, Total, Gain, ChunkOptimal, NoHigherTop, ValidForest, ParentsInside, ForestOf, Linked, Indexed,
         TopsIndexed, TxsAt, DepsIn, InfosCorrect, ReachCorrect, ParentClosed;
    SaneParts(c);
    TopRates(c, i);
    InsideChunk(c, i, s);
    var x := ChunkMember(c, i);
    AllOrNothing(c.rate, ForestOf(c), x, s * TxsAt(c, i), r);
  }

  /** The certificate: when no chunk has a higher-feerate top set, no set of transactions that
      contains the parents of its members gains more, over any threshold, than the chunks do. */
  lemma Certificate(c: Core, s: set<nat>, r: FeeFrac)
    requires Sane(c) && AllOptimal(c) && s <= c.rate.Keys && ParentClosed(Par(c), s) && r.size > 0
    ensures IsFamily(c.rate, FamilyOf(c)) && Gain(r, Total(c.rate, s)) <= FamilyPotential(c.rate, FamilyOf(c), r)
  {
    hide Sane, Total, Gain, ChunkOptimal, FamilyPotential, ParentClosed, TxsAt;
    FamilyValid(c);
    var f := FamilyOf(c);
    forall i | i in f ensures Gain(r, Total(c.rate, s * f[i])) <= Max0(Gain(r, Total(c.rate, f[i]))) {
      PartOfChunk(c, i, s, r);
    }
    forall x | x in s ensures exists i :: i in f && x in f[i] { ChunkOf(c, x); }
    PartsWithin(c.rate, f, s, r);
  }

  lemma ChunkOf(c: Core, x: nat)
    requires Sane(c) && x in c.rate
    ensures x in c.tx && c.tx[x].chunkIdx in FamilyOf(c) && x in FamilyOf(c)[c.tx[x].chunkIdx]
  {
    hide ValidForest, ForestOf, Linked, TopsIndexed, InfosCorrect, ReachCorrect;
  }
}
