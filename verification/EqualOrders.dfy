/** Splitting a chunk into equal-feerate parts keeps the chunks in order. */
module EqualOrders {
  import opened FeeFracs
  import opened Totals
  import opened Families
  import opened LinearOrders
  import opened Minimality

  /** The chunks after splitting `t` off chunk `ci`, as chunk `ti`. */
  ghost function SplitFamily(k: Family, ci: nat, ti: nat, t: set<nat>): Family
    requires ci in k
  {
    k[ci := k[ci] - t][ti := t]
  }

  ghost predicate SplitsEqually(m: Rates, par: Links, k: Family, ci: nat, ti: nat, t: set<nat>) {
    IsFamily(m, k) && Orderly(m, par, k) && ci in k && ti !in k && k[ci] <= m.Keys && EqualSplit(m, par, k[ci], t)
  }

  /** The old chunk that chunk `i` came from. */
  function Origin(ci: nat, ti: nat, i: nat): nat { if i == ti then ci else i }

  lemma PartWithin(m: Rates, par: Links, k: Family, ci: nat, ti: nat, t: set<nat>, i: nat)
    requires SplitsEqually(m, par, k, ci, ti, t) && i in SplitFamily(k, ci, ti, t)
    ensures Origin(ci, ti, i) in k && SplitFamily(k, ci, ti, t)[i] <= k[Origin(ci, ti, i)] <= m.Keys
    ensures k[Origin(ci, ti, i)] != {} && PositiveSizes(m) && t <= k[ci] && t != {} && t != k[ci]
  {
    hide Total, Orderly;
  }

  lemma PartOf(m: Rates, par: Links, k: Family, ci: nat, ti: nat, t: set<nat>, i: nat)
    requires SplitsEqually(m, par, k, ci, ti, t) && i in SplitFamily(k, ci, ti, t)
    ensures Origin(ci, ti, i) in k && SplitFamily(k, ci, ti, t)[i] <= k[Origin(ci, ti, i)] <= m.Keys
    ensures SplitFamily(k, ci, ti, t)[i] != {}
    ensures Total(m, k[Origin(ci, ti, i)]).size > 0 && Total(m, SplitFamily(k, ci, ti, t)[i]).size > 0
    ensures Gain(Total(m, k[Origin(ci, ti, i)]), Total(m, SplitFamily(k, ci, ti, t)[i])) == 0
  {
    hide Total, Orderly, IsFamily, EqualSplit, PositiveSizes;
    PartWithin(m, par, k, ci, ti, t, i);
    TotalSize(m, k[Origin(ci, ti, i)]);
    if i == ci || i == ti {
      SplitRates(m, par, k[ci], t);
      EqualPartGain(m, par, k[ci], t);
      var left := SomeLeft(k[ci], t);
      assert left in k[ci] - t;
    }
  }

  lemma EqualPartGain(m: Rates, par: Links, k: set<nat>, t: set<nat>)
    requires k <= m.Keys && EqualSplit(m, par, k, t)
    ensures t <= k && Gain(Total(m, k), Total(m, t)) == 0
  {
  }

  lemma DependsPart(par: Links, a: set<nat>, b: set<nat>, a': set<nat>, b': set<nat>)
    requires a <= a' && b <= b' && Depends(par, a, b)
    ensures Depends(par, a', b')
  {
  }

  lemma SplitPair(m: Rates, par: Links, k: Family, ci: nat, ti: nat, t: set<nat>, i: nat, j: nat)
    requires SplitsEqually(m, par, k, ci, ti, t)
    requires i in SplitFamily(k, ci, ti, t) && j in SplitFamily(k, ci, ti, t) && i != j
    requires Depends(par, SplitFamily(k, ci, ti, t)[i], SplitFamily(k, ci, ti, t)[j])
    ensures var f := SplitFamily(k, ci, ti, t);
            f[i] <= m.Keys && f[j] <= m.Keys && AtMost(Total(m, f[i]), Total(m, f[j]))
    ensures Origin(ci, ti, i) == Origin(ci, ti, j) || Origin(ci, ti, j) in ChunkLinks(par, k)[Origin(ci, ti, i)]
  {
    hide Total, Depends, IsFamily, Founded, EqualSplit;
    var f := SplitFamily(k, ci, ti, t);
    var oi, oj := Origin(ci, ti, i), Origin(ci, ti, j);
    PartOf(m, par, k, ci, ti, t, i);
    PartOf(m, par, k, ci, ti, t, j);
    DependsPart(par, f[i], f[j], k[oi], k[oj]);
    SameOrder(Total(m, k[oi]), Total(m, k[oj]), Total(m, f[i]), Total(m, f[j]));
    assert oi != oj ==> oj in ChunkLinks(par, k)[oi];
  }

  lemma SameOrder(a: FeeFrac, b: FeeFrac, a': FeeFrac, b': FeeFrac)
    requires a.size > 0 && b.size > 0 && a'.size > 0 && b'.size > 0 && Gain(a, a') == 0 && Gain(b, b') == 0
    ensures AtMost(a, b) ==> AtMost(a', b')
    ensures a == b ==> AtMost(a', b')
  {
    if AtMost(a, b) {
      RatioTransitive(a', a, b);
      RatioTransitive(a', b, b');
    }
  }

  /** The top part does not depend on the bottom part. */
  lemma TopIndependent(m: Rates, par: Links, k: set<nat>, t: set<nat>)
    requires k <= m.Keys && EqualSplit(m, par, k, t)
    ensures !Depends(par, t, k - t)
  {
    hide Total;
  }

  lemma SplitIsFamily(m: Rates, par: Links, k: Family, ci: nat, ti: nat, t: set<nat>)
    requires SplitsEqually(m, par, k, ci, ti, t)
    ensures IsFamily(m, SplitFamily(k, ci, ti, t))
  {
    hide Total, Orderly, ChunkLinks;
    var f := SplitFamily(k, ci, ti, t);
    forall i | i in f ensures f[i] != {} && f[i] <= m.Keys { PartOf(m, par, k, ci, ti, t, i); }
    forall i, j | i in f && j in f && i != j ensures f[i] * f[j] == {} {
      PartOf(m, par, k, ci, ti, t, i);
      PartOf(m, par, k, ci, ti, t, j);
      var oi, oj := Origin(ci, ti, i), Origin(ci, ti, j);
      if oi != oj { SubsetsDisjoint(k[oi], k[oj], f[i], f[j]); }
    }
  }

  lemma SubsetsDisjoint(a: set<nat>, b: set<nat>, a': set<nat>, b': set<nat>)
    requires a * b == {} && a' <= a && b' <= b
    ensures a' * b' == {}
  {
    forall x | x in a' ensures x !in b' { NotBoth(a, b, x); }
  }

  /** Some chunk of `s` depends on no other one. */
  lemma SplitSource(m: Rates, par: Links, k: Family, ci: nat, ti: nat, t: set<nat>, s: set<nat>) returns (y: nat)
    requires SplitsEqually(m, par, k, ci, ti, t) && s != {} && s <= SplitFamily(k, ci, ti, t).Keys
    ensures y in s && ChunkLinks(par, SplitFamily(k, ci, ti, t))[y] * s == {}
  {
    hide Total, Depends, IsFamily, EqualSplit;
    var f := SplitFamily(k, ci, ti, t);
    var s' := set i | i in s :: Origin(ci, ti, i);
    var any :| any in s;
    assert Origin(ci, ti, any) in s';
    assert s' <= ChunkLinks(par, k).Keys;
    var x := SourceOf(m, par, k, s');
    var i0 :| i0 in s && Origin(ci, ti, i0) == x;
    y := if x == ci && ti in s then ti else i0;
    assert Origin(ci, ti, y) == x;
    forall j | j in s ensures j !in ChunkLinks(par, f)[y] {
      if j != y && Depends(par, f[y], f[j]) {
        SplitPair(m, par, k, ci, ti, t, y, j);
        assert Origin(ci, ti, j) in s';
        assert Origin(ci, ti, j) == x;
        TopIndependent(m, par, k[ci], t);
      }
    }
  }

  lemma SourceOf(m: Rates, par: Links, k: Family, s: set<nat>) returns (x: nat)
    requires IsFamily(m, k) && Orderly(m, par, k) && s != {} && s <= k.Keys
    ensures x in s && forall y :: y in s ==> y !in ChunkLinks(par, k)[x]
  {
    hide ChunkLinks, IsFamily, Total;
    var links := ChunkLinks(par, k);
    assert links.Keys == k.Keys by { LinksKeys(par, k); }
    x :| x in s && links[x] * s == {};
    forall y | y in s ensures y !in links[x] { NotInEmpty(links[x], s, y); }
  }

  lemma LinksKeys(par: Links, k: Family)
    ensures ChunkLinks(par, k).Keys == k.Keys
  {
  }

  lemma NotInEmpty(a: set<nat>, b: set<nat>, y: nat)
    requires a * b == {} && y in b
    ensures y !in a
  {
    assert y in a ==> y in a * b;
  }

  lemma SplitOrderly(m: Rates, par: Links, k: Family, ci: nat, ti: nat, t: set<nat>)
    requires SplitsEqually(m, par, k, ci, ti, t)
    ensures IsFamily(m, SplitFamily(k, ci, ti, t)) && Orderly(m, par, SplitFamily(k, ci, ti, t))
  {
    hide Total, Depends, IsFamily, EqualSplit, SplitFamily;
    var f := SplitFamily(k, ci, ti, t);
    SplitIsFamily(m, par, k, ci, ti, t);
    forall i, j | i in f && j in ChunkLinks(par, f)[i]
      ensures f[i] <= m.Keys && j in f && f[j] <= m.Keys && AtMost(Total(m, f[i]), Total(m, f[j]))
    {
      SplitPair(m, par, k, ci, ti, t, i, j);
    }
    forall s: set<nat> | s != {} && s <= ChunkLinks(par, f).Keys
      ensures exists x :: x in s && ChunkLinks(par, f)[x] * s == {}
    {
      var y := SplitSource(m, par, k, ci, ti, t, s);
    }
  }

  /** The diagram is the same. */
  lemma SplitPotential(m: Rates, par: Links, k: Family, ci: nat, ti: nat, t: set<nat>, r: FeeFrac)
    requires SplitsEqually(m, par, k, ci, ti, t) && r.size > 0
    ensures IsFamily(m, k) && IsFamily(m, SplitFamily(k, ci, ti, t))
    ensures FamilyPotential(m, SplitFamily(k, ci, ti, t), r) == FamilyPotential(m, k, r)
  {
    hide Total, Depends, FamilyPotential, Orderly, Gain;
    SplitIsFamily(m, par, k, ci, ti, t);
    var f := SplitFamily(k, ci, ti, t);
    FamilyWithout(m, k, ci, r);
    FamilyWithout(m, f, ti, r);
    FamilyWithout(m, f - {ti}, ci, r);
    assert f - {ti} - {ci} == k - {ci};
    SplitRates(m, par, k[ci], t);
    GainAdd(r, Total(m, t), Total(m, k[ci] - t));
    SameSign(Total(m, k[ci]), Total(m, t), Total(m, k[ci] - t), r);
  }

  lemma SameSign(a: FeeFrac, b: FeeFrac, c: FeeFrac, r: FeeFrac)
    requires a.size > 0 && b.size > 0 && c.size > 0 && r.size > 0 && Gain(a, b) == 0 && Gain(a, c) == 0
    ensures Gain(r, b) > 0 <==> Gain(r, a) > 0
    ensures Gain(r, c) > 0 <==> Gain(r, a) > 0
  {
    RatioSign(a, b, r);
    RatioSign(a, c, r);
  }

  lemma RatioSign(a: FeeFrac, b: FeeFrac, r: FeeFrac)
    requires a.size > 0 && b.size > 0 && r.size > 0 && Gain(a, b) == 0
    ensures Gain(r, b) > 0 <==> Gain(r, a) > 0
  {
    if Gain(r, b) > 0 { RatioTransitive(r, b, a); }
    if Gain(r, a) > 0 { RatioTransitive(r, a, b); }
  }

  // ----- moving a chunk to another index

  ghost predicate Moves(k: Family, i: nat, j: nat, f: Family) { i in k && j !in k && f == (k - {i})[j := k[i]] }

  lemma MovedLinks(par: Links, k: Family, i: nat, j: nat, f: Family, x: nat, y: nat)
    requires Moves(k, i, j, f) && x in f && y in f
    ensures Origin(i, j, x) in k && Origin(i, j, y) in k && f[x] == k[Origin(i, j, x)] && f[y] == k[Origin(i, j, y)]
    ensures y in ChunkLinks(par, f)[x] <==> Origin(i, j, y) in ChunkLinks(par, k)[Origin(i, j, x)]
  {
    hide Depends;
  }

  lemma MovedOrderly(m: Rates, par: Links, k: Family, i: nat, j: nat, f: Family)
    requires IsFamily(m, k) && IsFamily(m, f) && Orderly(m, par, k) && Moves(k, i, j, f)
    ensures Orderly(m, par, f)
  {
    hide Total, Depends, ChunkLinks, Moves;
    LinksKeys(par, f);
    LinksKeys(par, k);
    var links := ChunkLinks(par, f);
    forall x, y | x in f && y in links[x] ensures y in f && AtMost(Total(m, f[x]), Total(m, f[y])) {
      LinksIn(par, f, x, y);
      MovedLinks(par, k, i, j, f, x, y);
    }
    forall s: set<nat> | s != {} && s <= links.Keys ensures exists x :: x in s && links[x] * s == {} {
      var s' := set z | z in s :: Origin(i, j, z);
      var z :| z in s;
      assert Origin(i, j, z) in s';
      forall z | z in s ensures Origin(i, j, z) in k { MovedLinks(par, k, i, j, f, z, z); }
      var x' := SourceOf(m, par, k, s');
      var x :| x in s && Origin(i, j, x) == x';
      forall y | y in s ensures y !in links[x] {
        assert Origin(i, j, y) in s';
        MovedLinks(par, k, i, j, f, x, y);
      }
      assert links[x] * s == {};
    }
  }

  lemma LinksIn(par: Links, k: Family, x: nat, y: nat)
    requires x in k && y in ChunkLinks(par, k)[x]
    ensures y in k
  {
  }
}
