/** Improving a linearization (`PostLinearize`, src/cluster_linearize.h). */
module PostLinearization {
  import opened FeeFracs
  import opened Totals
  import opened Diagrams
  import opened Families
  import opened LinearOrders
  import opened LinearizationQuality
  import opened PostGroups
  import opened PostShapes
  import opened PostEntries
  import opened PostPass
  import Chunking
  import Construction
  import DG = DepGraphs

  // ----- what a pass works on

  /** Backward passes negate fees and exchange ancestors and descendants. */
  ghost function PassRates(g: DG.Graph, rev: bool): Rates { if rev then NegRates(g.rate) else g.rate }

  ghost function PassDeps(g: DG.Graph, rev: bool): Links { if rev then g.desc else g.anc }

  ghost function Reversed(s: seq<nat>): seq<nat> { seq(|s|, i requires 0 <= i < |s| => s[|s| - 1 - i]) }

  ghost function PassOrder(s: seq<nat>, rev: bool): seq<nat> { if rev then Reversed(s) else s }

  /** The diagram of the groups is nowhere below the first `i` points of `s`. */
  ghost predicate GroupsCover(m: Rates, s: seq<nat>, i: nat, l: Groups) {
    && i <= |s| && Elems(s) <= m.Keys
    && forall q, r: FeeFrac :: 0 <= q <= i && r.size > 0 ==>
         Gain(r, Total(m, Elems(s[..q]))) <= Potential(GroupRates(m, l), r)
  }

  lemma {:induction false} ListTotal(m: Rates, l: Groups)
    requires NonEmpty(m, l) && Distinct(Flat(l))
    ensures Elems(Flat(l)) <= m.Keys && Sum(GroupRates(m, l)) == Total(m, Elems(Flat(l)))
    decreases |l|
  {
    hide Sum, Total;
    if l == [] {
      NothingListed(m);
    } else {
      var n := |l| - 1;
      var l', g := l[..n], l[n];
      assert l == l' + [g] && g in l;
      forall h | h in l' ensures h in l { }
      FlatAppend(l', [g]);
      FlatOne(g);
      FlatParts(l', g);
      ListTotal(m, l');
      ElemsAppend(Flat(l'), g);
      TotalUnion(m, Elems(Flat(l')), Elems(g));
      RatesAppend(m, l', [g]);
      OneRate(m, g);
      SumAppend(GroupRates(m, l'), [RateOf(m, g)]);
      SumOne(RateOf(m, g));
    }
  }

  lemma NothingListed(m: Rates)
    ensures Elems(Flat([])) == {} && Sum(GroupRates(m, [])) == EMPTY == Total(m, {})
  {
  }

  /** The groups after some of the order have been inserted. */
  ghost predicate Building(m: Rates, deps: Links, s: seq<nat>, i: nat, l: Groups) {
    && i <= |s| && ListOk(m, deps, l) && Elems(Flat(l)) == Elems(s[..i]) && GroupsCover(m, s, i, l)
    && FirstAlone(deps, s, i, l) && CoverWithoutFirst(m, deps, s, i, l)
  }

  /** Nothing up to `q` depends on the first transaction. */
  ghost predicate FirstFree(deps: Links, s: seq<nat>, q: nat) {
    forall k :: 1 <= k < q && k < |s| && s[k] in deps ==> s[0] !in deps[s[k]]
  }

  /** As long as nothing depends on it, the first transaction stays a group of its own. */
  ghost predicate FirstAlone(deps: Links, s: seq<nat>, i: nat, l: Groups) {
    1 <= i <= |s| && FirstFree(deps, s, i) ==> [s[0]] in l
  }

  /** Stretches that nothing in depends on the first transaction are covered without it, too. */
  ghost predicate CoverWithoutFirst(m: Rates, deps: Links, s: seq<nat>, i: nat, l: Groups) {
    && Elems(s) <= m.Keys
    && forall q, r: FeeFrac :: 1 <= q <= i && q <= |s| && r.size > 0 && FirstFree(deps, s, q) ==>
         Elems(s[1..q]) <= m.Keys && Gain(r, Total(m, Elems(s[1..q]))) <= Potential(GroupRates(m, l), r)
  }

  lemma StartBuilding(e: seq<TxEntry>, m: Rates, deps: Links, s: seq<nat>)
    requires |e| > 0 && e[0].feerate == EMPTY && e[0].prevGroup == 0 && PositiveSizes(m) && Elems(s) <= m.Keys
    ensures Rep(e, m, deps, []) && Building(m, deps, s, 0, [])
  {
    hide Total, Gain;
    assert s[..0] == [];
    TotalEmpty(m);
    forall r: FeeFrac ensures Gain(r, Total(m, {})) == 0 == Potential(GroupRates(m, []), r) { EmptyTotal(m, r); }
    assert Elems(Flat([])) == {} && Elems([]) == {};
    assert forall q :: 0 <= q <= 0 ==> Elems(s[..q]) == {};
  }

  lemma NextInOrder(m: Rates, deps: Links, s: seq<nat>, i: nat, l: Groups)
    requires Building(m, deps, s, i, l) && InDepOrder(deps, s) && i < |s|
    ensures InDepOrder(deps, Flat(l) + [s[i]])
  {
    hide Flat, Sorted, GroupsCover, AllShaped, PositiveSizes;
    forall y | y in Flat(l) ensures y != s[i] && (y in deps ==> s[i] !in deps[y]) {
      assert y in Elems(Flat(l)) && y in Elems(s[..i]);
      var j :| 0 <= j < i && s[j] == y;
    }
    OrderAppend(deps, Flat(l), s[i]);
  }

  lemma KeepBuilding(m: Rates, deps: Links, s: seq<nat>, i: nat, l: Groups, l': Groups)
    requires Building(m, deps, s, i, l) && i < |s| && Inserted(m, deps, l, l', s[i]) && PostGroups.Distinct(s)
    ensures Building(m, deps, s, i + 1, l')
  {
    hide Flat, ListOk, Gain, Potential, Total, GroupRates, FirstAlone, CoverWithoutFirst, AlonesKept;
    KeepFirst(m, deps, s, i, l, l');
    assert s[..i + 1] == s[..i] + [s[i]];
    ElemsAppend(s[..i], [s[i]]);
    assert Elems([s[i]]) == {s[i]};
    ListParts(m, deps, l');
    ListTotal(m, l');
    forall q, r: FeeFrac | 0 <= q <= i + 1 && r.size > 0
      ensures Gain(r, Total(m, Elems(s[..q]))) <= Potential(GroupRates(m, l'), r)
    {
      if q <= i {
        assert Gain(r, Total(m, Elems(s[..q]))) <= Potential(GroupRates(m, l), r);
      } else {
        SumWithinPotential(GroupRates(m, l'), r);
      }
    }
  }

  lemma KeepFirst(m: Rates, deps: Links, s: seq<nat>, i: nat, l: Groups, l': Groups)
    requires Building(m, deps, s, i, l) && i < |s| && Inserted(m, deps, l, l', s[i]) && PostGroups.Distinct(s)
    ensures FirstAlone(deps, s, i + 1, l') && CoverWithoutFirst(m, deps, s, i + 1, l')
  {
    hide Flat, ListOk, Gain, Potential, Total, GroupRates, GroupsCover, FirstFree;
    ListParts(m, deps, l');
    if FirstFree(deps, s, i + 1) {
      FreeBefore(deps, s, i, i + 1);
      if i == 0 {
        assert s[..0] == [] && Elems(Flat(l')) == {s[0]};
        OnlyGroup(m, l', s[0]);
      } else {
        StillAlone(deps, s, i, l);
      }
    }
    forall q, r: FeeFrac | 1 <= q <= i + 1 && r.size > 0 && FirstFree(deps, s, q)
      ensures Elems(s[1..q]) <= m.Keys && Gain(r, Total(m, Elems(s[1..q]))) <= Potential(GroupRates(m, l'), r)
    {
      if q <= i {
        assert Gain(r, Total(m, Elems(s[1..q]))) <= Potential(GroupRates(m, l), r);
      } else {
        FirstRest(s, q);
        assert Elems(Flat(l')) == Elems(s[..q]) by { assert s[..q] == s[..i] + [s[i]]; ElemsAppend(s[..i], [s[i]]); }
        WithoutGroup(m, l', [s[0]], r);
      }
    }
  }

  lemma FreeBefore(deps: Links, s: seq<nat>, q: nat, q': nat)
    requires FirstFree(deps, s, q') && q <= q'
    ensures FirstFree(deps, s, q)
  {
  }

  lemma FirstRest(s: seq<nat>, q: nat)
    requires PostGroups.Distinct(s) && 1 <= q <= |s|
    ensures Elems([s[0]]) == {s[0]} && Elems(s[1..q]) == Elems(s[..q]) - {s[0]}
  {
    forall x | x in Elems(s[..q]) - {s[0]} ensures x in Elems(s[1..q]) {
      var k :| 0 <= k < q && s[k] == x;
      assert s[1..q][k - 1] == x;
    }
  }

  lemma StillAlone(deps: Links, s: seq<nat>, i: nat, l: Groups)
    requires 1 <= i < |s| && PostGroups.Distinct(s) && Elems(Flat(l)) == Elems(s[..i]) && FirstFree(deps, s, i + 1)
    requires [s[0]] in l
    ensures Alone(deps, l, s[i], s[0])
  {
    hide Flat;
    forall y | y in Elems(Flat(l)) + {s[i]} && y != s[0] && y in deps ensures s[0] !in deps[y] {
      if y != s[i] { var k :| 0 <= k < i && s[k] == y; }
    }
  }

  /** Of a single transaction there is only one list of groups. */
  lemma OnlyGroup(m: Rates, l: Groups, x: nat)
    requires NonEmpty(m, l) && PostGroups.Distinct(Flat(l)) && Elems(Flat(l)) == {x}
    ensures [x] in l
  {
    assert l != [];
    var g := l[0];
    assert g in l && g[0] in g;
    InFlat(l, 0, g[0]);
    assert g[0] in Elems(Flat(l));
    forall j | 0 <= j < |g| ensures g[j] == x {
      assert g[j] in g;
      InFlat(l, 0, g[j]);
      assert g[j] in Elems(Flat(l));
    }
    GroupDistinct(l, 0);
    AllSame(g, x);
  }

  lemma AllSame(g: seq<nat>, x: nat)
    requires g != [] && PostGroups.Distinct(g) && forall j :: 0 <= j < |g| ==> g[j] == x
    ensures g == [x]
  {
    assert g[0] == x && g[|g| - 1] == x;
  }

  lemma GroupDistinct(l: Groups, i: nat)
    requires PostGroups.Distinct(Flat(l)) && i < |l|
    ensures PostGroups.Distinct(l[i])
  {
    hide Flat;
    assert l == l[..i] + ([l[i]] + l[i + 1..]);
    FlatAppend(l[..i], [l[i]] + l[i + 1..]);
    FlatAppend([l[i]], l[i + 1..]);
    FlatOne(l[i]);
    var n := |Flat(l[..i])|;
    assert Flat(l)[n..n + |l[i]|] == l[i];
    DistinctPart(Flat(l), n, n + |l[i]|);
  }

  /** Leaving out a group, the rest is still covered. */
  lemma WithoutGroup(m: Rates, l: Groups, g: seq<nat>, r: FeeFrac)
    requires NonEmpty(m, l) && PostGroups.Distinct(Flat(l)) && g in l
    ensures Elems(Flat(l)) <= m.Keys && Gain(r, Total(m, Elems(Flat(l)) - Elems(g))) <= Potential(GroupRates(m, l), r)
  {
    hide Flat, Gain, Potential, Total, Sum;
    var i :| 0 <= i < |l| && l[i] == g;
    var a, b := l[..i], l[i + 1..];
    assert l == a + [g] + b;
    RestListed(m, a, g, b);
    ListTotal(m, l);
    ListTotal(m, a + b);
    RatesAppend(m, a, b);
    RatesAppend(m, a + [g], b);
    RatesAppend(m, a, [g]);
    OneRate(m, g);
    MiddlePotential(GroupRates(m, a), RateOf(m, g), GroupRates(m, b), r);
    SumWithinPotential(GroupRates(m, a + b), r);
  }

  lemma RestListed(m: Rates, a: Groups, g: seq<nat>, b: Groups)
    requires NonEmpty(m, a + [g] + b) && PostGroups.Distinct(Flat(a + [g] + b))
    ensures NonEmpty(m, a + b) && PostGroups.Distinct(Flat(a + b))
    ensures Elems(Flat(a + b)) == Elems(Flat(a + [g] + b)) - Elems(g)
  {
    hide Flat;
    forall h | h in a + b ensures h in a + [g] + b { }
    assert a + [g] + b == a + ([g] + b);
    FlatAppend(a, [g] + b);
    FlatAppend([g], b);
    FlatOne(g);
    FlatAppend(a, b);
    var fa, fb := Flat(a), Flat(b);
    var s := fa + g + fb;
    assert Flat(a + [g] + b) == s;
    ElemsAppend(fa + g, fb);
    ElemsAppend(fa, g);
    ElemsAppend(fa, fb);
    forall x | x in Elems(g) ensures x !in Elems(fa) && x !in Elems(fb) {
      assert s == fa + (g + fb);
      assert x in g + fb;
      if x in fa { SplitDisjoint(fa, g + fb, x); }
      SplitDisjoint(fa + g, fb, x);
    }
    forall i, j | 0 <= i < j < |fa + fb| ensures (fa + fb)[i] != (fa + fb)[j] {
      assert (fa + fb)[i] == s[if i < |fa| then i else i + |g|] && (fa + fb)[j] == s[if j < |fa| then j else j + |g|];
    }
  }

  lemma ListParts(m: Rates, deps: Links, l: Groups)
    requires ListOk(m, deps, l)
    ensures PositiveSizes(m) && NonEmpty(m, l) && Distinct(Flat(l)) && InDepOrder(deps, Flat(l))
    ensures Sorted(GroupRates(m, l))
  {
  }

  // ----- the two halves of a pass

  lemma OrderAt(s: seq<nat>, rev: bool, i: nat)
    requires i < |s|
    ensures |PassOrder(s, rev)| == |s| && PassOrder(s, rev)[i] == s[if rev then |s| - 1 - i else i]
  {
  }

  /** Insert the transactions one by one: front to back, or back to front in a backward pass. */
  method BuildGroups(depgraph: DG.DepGraph, lin: seq<nat>, rev: bool, e0: seq<TxEntry>)
    returns (e: seq<TxEntry>, ghost l: Groups)
    requires depgraph.Valid() && PositiveSizes(depgraph.View().rate) && Elems(lin) <= depgraph.used
    requires |e0| == |depgraph.entries| + 1 && e0[0].feerate == EMPTY
    requires InDepOrder(PassDeps(depgraph.View(), rev), PassOrder(lin, rev))
    ensures |e| == |e0| && Rep(e, PassRates(depgraph.View(), rev), PassDeps(depgraph.View(), rev), l)
    ensures Building(PassRates(depgraph.View(), rev), PassDeps(depgraph.View(), rev), PassOrder(lin, rev), |lin|, l)
  {
    hide Rep, Building, ListOk, Inserted, InDepOrder, PositiveSizes, PassOrder, Flat, DG.WellFormed, PassDeps,
         PassRates, DG.GraphOf;
    ghost var g := depgraph.View();
    ghost var m, deps, s := PassRates(g, rev), PassDeps(g, rev), PassOrder(lin, rev);
    GraphUsed(depgraph.entries, depgraph.used);
    PassInputs(g, lin, rev);
    e := e0[0 := e0[0].(prevGroup := 0)];
    l := [];
    StartBuilding(e, m, deps, s);
    for i := 0 to |lin|
      invariant |e| == |e0| && Rep(e, m, deps, l) && Building(m, deps, s, i, l)
    {
      var idx := lin[if rev then |lin| - 1 - i else i];
      OrderAt(lin, rev, i);
      assert idx in Elems(lin);
      EntryIs(depgraph.entries, depgraph.used, idx, rev);
      var entry := depgraph.entries[idx];
      var xDeps := if rev then entry.descendants else entry.ancestors;
      var rate := if rev then FeeFrac(-entry.feerate.fee, entry.feerate.size) else entry.feerate;
      NextInOrder(m, deps, s, i, l);
      BuildingList(m, deps, s, i, l);
      ghost var before := l;
      e, l := Insert(e, idx, xDeps, rate, m, deps, l);
      OrderParts(deps, s);
      KeepBuilding(m, deps, s, i, before, l);
    }
  }

  lemma GraphUsed(entries: seq<DG.Entry>, used: set<nat>)
    requires DG.InRange(entries, used)
    ensures DG.GraphOf(entries, used).rate.Keys == used
  {
  }

  lemma BuildingList(m: Rates, deps: Links, s: seq<nat>, i: nat, l: Groups)
    requires Building(m, deps, s, i, l)
    ensures ListOk(m, deps, l)
  {
  }

  lemma PassInputs(g: DG.Graph, lin: seq<nat>, rev: bool)
    requires PositiveSizes(g.rate) && Elems(lin) <= g.rate.Keys
    ensures PositiveSizes(PassRates(g, rev)) && PassRates(g, rev).Keys == g.rate.Keys
    ensures Elems(PassOrder(lin, rev)) == Elems(lin)
    ensures |PassOrder(lin, rev)| == |lin|
  {
    var s := PassOrder(lin, rev);
    forall x | x in Elems(lin) ensures x in Elems(s) {
      var i :| 0 <= i < |lin| && lin[i] == x;
      assert s[if rev then |lin| - 1 - i else i] == x;
    }
  }

  lemma EntryIs(entries: seq<DG.Entry>, used: set<nat>, x: nat, rev: bool)
    requires DG.ValidEntries(entries, used) && x in used
    ensures x < |entries|
    ensures var g, t := DG.GraphOf(entries, used), entries[x];
            var m, deps := PassRates(g, rev), PassDeps(g, rev);
            && x in m && m[x] == (if rev then FeeFrac(-t.feerate.fee, t.feerate.size) else t.feerate)
            && x in deps && deps[x] == (if rev then t.descendants else t.ancestors) && x in deps[x]
  {
  }

  function Position(n: nat, q: nat, rev: bool): nat
    requires q < n
  {
    if rev then q else n - 1 - q
  }

  lemma FlatTake(l: Groups, k: nat, j: nat)
    requires 0 < k <= |l| && j < |l[k - 1]|
    ensures |Flat(l[..k])| == |Flat(l[..k - 1])| + |l[k - 1]| <= |Flat(l)|
    ensures |Flat(l[..k - 1])| + j < |Flat(l)| && Flat(l)[|Flat(l[..k - 1])| + j] == l[k - 1][j]
  {
    assert l == l[..k] + l[k..] && l[..k] == l[..k - 1] + [l[k - 1]];
    FlatAppend(l[..k], l[k..]);
    FlatAppend(l[..k - 1], [l[k - 1]]);
    FlatOne(l[k - 1]);
  }

  /** Write the groups back, following the links from the last group to the first. */
  method WriteOut(e: seq<TxEntry>, lin: array<nat>, rev: bool, ghost m: Rates, ghost deps: Links, ghost l: Groups)
    requires Rep(e, m, deps, l) && |Flat(l)| == lin.Length
    modifies lin
    ensures lin[..] == PassOrder(Flat(l), rev)
  {
    hide Rep, Flat, GroupRep;
    var n := lin.Length;
    ghost var all, k := Flat(l), |l|;
    RepEnds(e, m, deps, l);
    var cur, done := e[0].prevGroup, 0;
    assert l[..k] == l;
    while cur != 0
      invariant 0 <= k <= |l| && cur == Head(l[..k]) && 0 <= done <= n && done + |Flat(l[..k])| == n
      invariant forall q :: 0 <= q < done ==> lin[Position(n, q, rev)] == all[n - 1 - q]
      decreases k
    {
      ghost var g, base := l[k - 1], |Flat(l[..k - 1])|;
      RepAt(e, m, deps, l, k - 1);
      FlatTake(l, k, 0);
      assert l[..k][k - 1] == g;
      var curTx := cur;
      ghost var j := |g|;
      while curTx != 0
        invariant 0 <= j <= |g| && curTx == (if j == 0 then 0 else g[j - 1] + 1)
        invariant 0 <= done <= n && done + base + j == n
        invariant forall q :: 0 <= q < done ==> lin[Position(n, q, rev)] == all[n - 1 - q]
        decreases j
      {
        FlatTake(l, k, j - 1);
        PrevAt(e, m, deps, g, j - 1);
        lin[if rev then done else n - 1 - done] := curTx - 1;
        done := done + 1;
        curTx := e[curTx].prevTx;
        j := j - 1;
      }
      cur := e[cur].prevGroup;
      k := k - 1;
      if k > 0 { assert l[..k][k - 1] == l[k - 1]; }
    }
    assert k == 0 && Flat(l[..k]) == [] by { FlatNil(l, k); }
    forall i | 0 <= i < n ensures lin[i] == PassOrder(all, rev)[i] {
      var q := if rev then i else n - 1 - i;
      assert lin[Position(n, q, rev)] == all[n - 1 - q];
    }
    assert |PassOrder(all, rev)| == n;
  }

  lemma RepEnds(e: seq<TxEntry>, m: Rates, deps: Links, l: Groups)
    requires Rep(e, m, deps, l)
    ensures |e| > 0 && e[0].prevGroup == Head(l) && e[0].feerate == EMPTY
  {
  }

  lemma FlatNil(l: Groups, k: nat)
    requires k <= |l| && Head(l[..k]) == 0
    ensures k == 0 && Flat(l[..k]) == []
  {
  }

  // ----- orders and their reversals

  lemma PassOrderDeps(g: DG.Graph, lin: seq<nat>, rev: bool)
    requires DG.WellFormed(g) && Construction.Topological(g, lin)
    ensures InDepOrder(PassDeps(g, rev), PassOrder(lin, rev))
  {
    hide DG.WellFormed, Construction.Topological;
    var deps, s := PassDeps(g, rev), PassOrder(lin, rev);
    forall a, b | 0 <= a < b < |s| ensures s[a] != s[b] && (s[a] in deps ==> s[b] !in deps[s[a]]) {
      var i, j := if rev then |lin| - 1 - b else a, if rev then |lin| - 1 - a else b;
      assert s[a] == (if rev then lin[j] else lin[i]) && s[b] == (if rev then lin[i] else lin[j]);
      NotAmongBefore(g, lin, i, j);
    }
  }

  lemma NotAmongBefore(g: DG.Graph, lin: seq<nat>, i: nat, j: nat)
    requires DG.WellFormed(g) && Construction.Topological(g, lin) && i < j < |lin|
    ensures lin[i] != lin[j] && lin[i] in g.anc && lin[j] !in g.anc[lin[i]] && lin[j] in g.desc
    ensures lin[i] !in g.desc[lin[j]]
  {
    assert lin[i] in Elems(lin) && lin[j] in Elems(lin);
    assert g.anc[lin[i]] <= Elems(lin[..i]) + {lin[i]};
  }

  lemma NotAfter(g: DG.Graph, s: seq<nat>, rev: bool, n: nat, k: nat)
    requires DG.WellFormed(g) && InDepOrder(PassDeps(g, rev), s) && Elems(s) <= g.rate.Keys && n < |s| && k < |s|
    requires n != k
    ensures PassOrder(s, rev)[n] in g.anc && PassOrder(s, rev)[n] != PassOrder(s, rev)[k]
    ensures PassOrder(s, rev)[k] in g.anc[PassOrder(s, rev)[n]] ==> k < n
  {
    var lin := PassOrder(s, rev);
    var i, j := if rev then |s| - 1 - n else n, if rev then |s| - 1 - k else k;
    assert lin[n] == s[i] && lin[k] == s[j];
    assert s[i] in Elems(s) && s[j] in Elems(s);
    assert s[j] in g.anc[s[i]] <==> s[i] in g.desc[s[j]];
  }

  lemma OrderTopological(g: DG.Graph, s: seq<nat>, rev: bool)
    requires DG.WellFormed(g) && InDepOrder(PassDeps(g, rev), s) && Elems(s) == g.rate.Keys
    ensures Construction.Topological(g, PassOrder(s, rev))
  {
    hide DG.WellFormed, InDepOrder, PassOrder, PassDeps;
    var lin := PassOrder(s, rev);
    SameElems(s, rev);
    forall a, b | 0 <= a < b < |lin| ensures lin[a] != lin[b] { NotAfter(g, s, rev, a, b); }
    forall n | 0 <= n < |lin| && lin[n] in g.anc ensures g.anc[lin[n]] <= Elems(lin[..n]) + {lin[n]} {
      forall x | x in g.anc[lin[n]] ensures x in Elems(lin[..n]) + {lin[n]} {
        AncestorUsed(g, lin[n], x);
        assert x in Elems(lin);
        var k :| 0 <= k < |lin| && lin[k] == x;
        if k != n {
          NotAfter(g, s, rev, n, k);
          assert lin[..n][k] == x;
        }
      }
    }
  }

  lemma AncestorUsed(g: DG.Graph, y: nat, x: nat)
    requires DG.WellFormed(g) && y in g.anc && x in g.anc[y]
    ensures x in g.rate
  {
  }

  lemma SameElems(s: seq<nat>, rev: bool)
    ensures Elems(PassOrder(s, rev)) == Elems(s) && |PassOrder(s, rev)| == |s|
  {
    var t := PassOrder(s, rev);
    forall x | x in Elems(s) ensures x in Elems(t) {
      var i :| 0 <= i < |s| && s[i] == x;
      assert t[if rev then |s| - 1 - i else i] == x;
    }
  }

  // ----- groups and the quality of what they list

  lemma ListVertex(m: Rates, l: Groups, k: nat)
    requires NonEmpty(m, l) && PostGroups.Distinct(Flat(l)) && k <= |l|
    ensures Elems(Flat(l)) <= m.Keys && |Flat(l[..k])| <= |Flat(l)|
    ensures Sum(GroupRates(m, l)[..k]) == PrefixRate(m, Flat(l), |Flat(l[..k])|) ==
              Total(m, Elems(Flat(l)[..|Flat(l[..k])|]))
  {
    hide Sum, Total, Flat;
    var a, b := l[..k], l[k..];
    assert l == a + b;
    FlatAppend(a, b);
    var p := |Flat(a)|;
    assert Flat(l)[..p] == Flat(a);
    forall h | h in a ensures h in l { }
    DistinctPart(Flat(l), 0, p);
    assert Flat(l)[0..p] == Flat(a);
    ListTotal(m, a);
    ListTotal(m, l);
    PrefixTotal(m, Flat(l), p);
    assert GroupRates(m, a) == GroupRates(m, l)[..k];
  }

  /** What a list of groups in order of feerate covers, its linearization is no worse than. */
  lemma GroupsNoWorse(m: Rates, l: Groups, other: seq<nat>)
    requires PositiveSizes(m) && NonEmpty(m, l) && PostGroups.Distinct(Flat(l)) && Sorted(GroupRates(m, l))
    requires PostGroups.Distinct(other) && Elems(other) == Elems(Flat(l)) && GroupsCover(m, other, |other|, l)
    ensures Elems(Flat(l)) <= m.Keys && NoWorse(m, Flat(l), other)
  {
    hide Sum, Total, Flat, Potential, Gain, OnOrBelow, GroupRates, Chunking.IsChunking, PrefixRate, Chunking.RatesOf,
         Sorted, Sizes, AtLeastAsGood, PositiveSizes, NonEmpty;
    ListTotal(m, l);
    var lin, ds := Flat(l), GroupRates(m, l);
    RatesPositive(m, l);
    forall cs, p | Chunking.IsChunking(cs, Chunking.RatesOf(m, lin)) && 0 <= p <= |other|
      ensures OnOrBelow(PrefixRate(m, other, p), cs)
    {
      ChunksAbove(m, l, cs);
      PrefixTotal(m, other, p);
      TotalSizeMono(m, Elems(other[..p]), Elems(lin));
      forall r: FeeFrac | r.size > 0 ensures Gain(r, PrefixRate(m, other, p)) <= Potential(cs, r) {
        PotentialGrows(cs, ds, r);
      }
      BelowFromPotential(PrefixRate(m, other, p), cs);
    }
  }

  lemma ChunksAbove(m: Rates, l: Groups, cs: seq<FeeFrac>)
    requires NonEmpty(m, l) && PostGroups.Distinct(Flat(l)) && Elems(Flat(l)) <= m.Keys
    requires Chunking.IsChunking(cs, Chunking.RatesOf(m, Flat(l)))
    ensures Sizes(cs) && Sorted(cs) && Sum(cs) == Total(m, Elems(Flat(l))) && AtLeastAsGood(cs, GroupRates(m, l))
  {
    hide Sum, Total, Flat, OnOrBelow, Sorted, Sizes, NonEmpty;
    ChunkingTotal(cs, Chunking.RatesOf(m, Flat(l)));
    SumIsTotal(m, Flat(l));
    var ds := GroupRates(m, l);
    forall k | 0 <= k <= |ds| ensures OnOrBelow(Sum(ds[..k]), cs) {
      ListVertex(m, l, k);
      RatesLength(m, Flat(l));
      assert OnOrBelow(Sum(Chunking.RatesOf(m, Flat(l))[..|Flat(l[..k])|]), cs);
    }
  }

  /** Covering what lists groups is covering what those groups cover. */
  lemma CoverTransitive(m: Rates, l1: Groups, l2: Groups, other: seq<nat>)
    requires PositiveSizes(m) && NonEmpty(m, l1) && PostGroups.Distinct(Flat(l1)) && Sorted(GroupRates(m, l1))
    requires GroupsCover(m, other, |other|, l1) && GroupsCover(m, Flat(l1), |Flat(l1)|, l2)
    ensures GroupsCover(m, other, |other|, l2)
  {
    hide Sum, Total, Flat, Potential, Gain, Sorted, GroupRates, PositiveSizes, NonEmpty;
    RatesPositive(m, l1);
    var ds := GroupRates(m, l1);
    forall q, r: FeeFrac | 0 <= q <= |other| && r.size > 0
      ensures Gain(r, Total(m, Elems(other[..q]))) <= Potential(GroupRates(m, l2), r)
    {
      assert Gain(r, Total(m, Elems(other[..q]))) <= Potential(ds, r);
      var k := PotentialAttained(ds, r);
      RatesCount(m, l1);
      ListVertex(m, l1, k);
    }
  }

  lemma RatesCount(m: Rates, l: Groups)
    ensures |GroupRates(m, l)| == |l|
  {
  }

  // ----- backward passes

  ghost function Mirror(l: Groups): Groups { seq(|l|, i requires 0 <= i < |l| => Reversed(l[|l| - 1 - i])) }

  lemma ReversedAppend(s: seq<nat>, t: seq<nat>)
    ensures Reversed(s + t) == Reversed(t) + Reversed(s)
  {
  }

  lemma {:induction false} MirrorFlat(l: Groups)
    ensures Flat(Mirror(l)) == Reversed(Flat(l))
    decreases |l|
  {
    if l == [] {
      assert Mirror(l) == [] && Flat([]) == [] && Reversed([]) == [];
    } else {
      var n := |l| - 1;
      assert l == l[..n] + [l[n]];
      MirrorFlat(l[..n]);
      assert Mirror(l) == [Reversed(l[n])] + Mirror(l[..n]);
      FlatAppend([Reversed(l[n])], Mirror(l[..n]));
      FlatOne(Reversed(l[n]));
      ReversedAppend(Flat(l[..n]), l[n]);
    }
  }

  lemma MirrorNonEmpty(m: Rates, l: Groups)
    requires NonEmpty(NegRates(m), l)
    ensures NonEmpty(m, Mirror(l))
  {
    var l' := Mirror(l);
    forall g | g in l' ensures g != [] && Elems(g) <= m.Keys {
      var i :| 0 <= i < |l'| && l'[i] == g;
      assert l[|l| - 1 - i] in l;
      SameElems(l[|l| - 1 - i], true);
    }
  }

  lemma MirrorRate(m: Rates, l: Groups, i: nat)
    requires NonEmpty(NegRates(m), l) && i < |l|
    ensures GroupRates(NegRates(m), l)[|l| - 1 - i] == Neg(GroupRates(m, Mirror(l))[i])
  {
    hide Total;
    var g := l[|l| - 1 - i];
    assert g in l;
    SameElems(g, true);
    TotalNeg(m, Elems(g));
  }

  lemma MirrorSorted(m: Rates, l: Groups)
    requires NonEmpty(NegRates(m), l) && Sorted(GroupRates(NegRates(m), l))
    ensures Sorted(GroupRates(m, Mirror(l)))
  {
    hide RateOf;
    var ds, ns := GroupRates(m, Mirror(l)), GroupRates(NegRates(m), l);
    forall i, j | 0 <= i < j < |ds| ensures AtMost(ds[j], ds[i]) {
      MirrorRate(m, l, i);
      MirrorRate(m, l, j);
      NegOrder(ds[i], ds[j]);
      assert AtMost(ns[|l| - 1 - i], ns[|l| - 1 - j]);
    }
  }

  lemma {:induction false} MirrorPotential(m: Rates, l: Groups, r: FeeFrac)
    requires NonEmpty(NegRates(m), l)
    ensures Potential(GroupRates(NegRates(m), l), Neg(r)) ==
            Potential(GroupRates(m, Mirror(l)), r) - Gain(r, Sum(GroupRates(m, Mirror(l))))
    decreases |l|
  {
    hide RateOf, Gain, Sum, Potential;
    if l == [] {
      EmptyMirror(m, r);
    } else {
      var n := |l| - 1;
      var l', g, ms := l[..n], l[n], GroupRates(m, Mirror(l));
      assert l == l' + [g];
      forall h | h in l' ensures h in l { }
      MirrorPotential(m, l', r);
      RatesAppend(NegRates(m), l', [g]);
      OneRate(NegRates(m), g);
      PotentialAppend(GroupRates(NegRates(m), l'), [RateOf(NegRates(m), g)], Neg(r));
      PotentialOne(RateOf(NegRates(m), g), Neg(r));
      assert Mirror(l) == [Reversed(g)] + Mirror(l');
      RatesAppend(m, [Reversed(g)], Mirror(l'));
      OneRate(m, Reversed(g));
      var u := RateOf(m, Reversed(g));
      PotentialAppend([u], GroupRates(m, Mirror(l')), r);
      PotentialOne(u, r);
      SumAppend([u], GroupRates(m, Mirror(l')));
      SumOne(u);
      GainAdd(r, u, Sum(GroupRates(m, Mirror(l'))));
      MirrorRate(m, l, 0);
      GainNeg(r, u);
    }
  }

  lemma EmptyMirror(m: Rates, r: FeeFrac)
    ensures Potential(GroupRates(NegRates(m), []), Neg(r)) == 0
    ensures 0 == Potential(GroupRates(m, Mirror([])), r) - Gain(r, Sum(GroupRates(m, Mirror([]))))
  {
    assert GroupRates(m, Mirror([])) == [];
  }

  lemma ReversedPrefix(s: seq<nat>, q: nat)
    requires q <= |s|
    ensures Reversed(s)[..|s| - q] == Reversed(s[q..])
  {
  }

  /** Covering backwards is covering forwards. */
  lemma MirrorCover(m: Rates, lin: seq<nat>, l: Groups)
    requires PostGroups.Distinct(lin) && NonEmpty(NegRates(m), l) && PostGroups.Distinct(Flat(l))
    requires Elems(Flat(l)) == Elems(lin) <= m.Keys
    requires GroupsCover(NegRates(m), Reversed(lin), |lin|, l)
    ensures GroupsCover(m, lin, |lin|, Mirror(l))
  {
    hide Total, Gain, Potential, GroupRates, Flat, RateOf, Mirror, NonEmpty;
    MirrorNonEmpty(m, l);
    MirrorFlat(l);
    SameElems(Flat(l), true);
    DistinctReversed(Flat(l));
    ListTotal(m, Mirror(l));
    forall q, r: FeeFrac | 0 <= q <= |lin| && r.size > 0
      ensures Gain(r, Total(m, Elems(lin[..q]))) <= Potential(GroupRates(m, Mirror(l)), r)
    {
      MirrorPoint(m, lin, l, q, r);
    }
  }

  lemma DistinctReversed(s: seq<nat>)
    requires PostGroups.Distinct(s)
    ensures PostGroups.Distinct(Reversed(s))
  {
  }

  lemma MirrorPoint(m: Rates, lin: seq<nat>, l: Groups, q: nat, r: FeeFrac)
    requires PostGroups.Distinct(lin) && NonEmpty(NegRates(m), l) && Elems(lin) <= m.Keys && q <= |lin| && r.size > 0
    requires GroupsCover(NegRates(m), Reversed(lin), |lin|, l) && Sum(GroupRates(m, Mirror(l))) == Total(m, Elems(lin))
    ensures Gain(r, Total(m, Elems(lin[..q]))) <= Potential(GroupRates(m, Mirror(l)), r)
  {
    hide Total, Gain, Potential, GroupRates, Flat, RateOf, Mirror, NonEmpty, Sum;
    var a, b := Elems(lin[..q]), Elems(lin[q..]);
    assert lin == lin[..q] + lin[q..];
    ElemsAppend(lin[..q], lin[q..]);
    forall x | x in a ensures x !in b { SplitDisjoint(lin[..q], lin[q..], x); }
    ReversedPrefix(lin, q);
    SameElems(lin[q..], true);
    assert Elems(Reversed(lin)[..|lin| - q]) == b;
    assert |Reversed(lin)| == |lin| && Neg(r).size > 0;
    assert Gain(Neg(r), Total(NegRates(m), b)) <= Potential(GroupRates(NegRates(m), l), Neg(r));
    TotalNeg(m, b);
    GainNeg(r, Total(m, b));
    GainUnion(m, r, a, b);
    MirrorPotential(m, l, r);
  }

  // ----- trees

  /** What a pass over a tree covers: everything. */
  lemma TreeCover(m: Rates, deps: Links, l: Groups, other: seq<nat>)
    requires TreeLike(deps) && ListOk(m, deps, l) && InDepOrder(deps, other) && Elems(other) == Elems(Flat(l)) <= m.Keys
    ensures GroupsCover(m, other, |other|, l)
  {
    hide Total, Gain, Potential, GroupRates, Flat, TreeLike, PartBound, Tight, ConnectedBy, AllTail, Sorted;
    ListParts(m, deps, l);
    forall q, r: FeeFrac | 0 <= q <= |other| && r.size > 0
      ensures Gain(r, Total(m, Elems(other[..q]))) <= Potential(GroupRates(m, l), r)
    {
      forall g | g in l ensures PartBound(m, deps, g) { assert Shaped(m, deps, g); }
      PrefixDepClosed(deps, other, q);
      TreeOptimal(m, deps, l, Elems(other[..q]), r);
    }
  }

  lemma PrefixDepClosed(deps: Links, s: seq<nat>, q: nat)
    requires InDepOrder(deps, s) && q <= |s|
    ensures Elems(s[..q]) <= Elems(s)
    ensures forall x, y :: x in Elems(s[..q]) && x in deps && y in deps[x] && y in Elems(s) ==> y in Elems(s[..q])
  {
    forall x, y | x in Elems(s[..q]) && x in deps && y in deps[x] && y in Elems(s) ensures y in Elems(s[..q]) {
      var i :| 0 <= i < q && s[i] == x;
      var k :| 0 <= k < |s| && s[k] == y;
      assert k <= i;
      assert s[..q][k] == y;
    }
  }

  /** No transaction has more than one (reduced) child, or parent. */
  ghost predicate OneChild(g: DG.Graph)
    requires DG.WellFormed(g)
  {
    forall x, c, d :: x in g.rate && c in DG.ReducedChildren(g, x) && d in DG.ReducedChildren(g, x) ==> c == d
  }

  ghost predicate OneParent(g: DG.Graph)
    requires DG.WellFormed(g)
  {
    forall x, p, q :: x in g.rate && p in DG.ReducedParents(g, x) && q in DG.ReducedParents(g, x) ==> p == q
  }

  lemma {:induction false} ChildBetween(g: DG.Graph, z: nat, x: nat) returns (c: nat)
    requires DG.WellFormed(g) && DG.Acyclic(g) && x in g.rate && z in g.anc[x] && z != x
    ensures c in DG.ReducedChildren(g, z) && c in g.anc[x]
    decreases g.anc[x]
  {
    if q :| q in g.anc[x] && q != x && q != z && z in g.anc[q] {
      assert x !in g.anc[q];
      c := ChildBetween(g, z, q);
    } else {
      c := x;
    }
  }

  lemma {:induction false} ChildChain(g: DG.Graph, z: nat, x: nat, y: nat)
    requires DG.WellFormed(g) && DG.Acyclic(g) && OneChild(g) && x in g.rate && y in g.rate && z in g.anc[x]
    requires z in g.anc[y]
    ensures y in g.anc[x] || x in g.anc[y]
    decreases g.desc[z]
  {
    if x != z && y != z {
      var c := ChildBetween(g, z, x);
      var d := ChildBetween(g, z, y);
      assert c == d && z in g.anc[c] && c != z;
      DescendantsShrink(g, z, c);
      ChildChain(g, c, x, y);
    }
  }

  lemma DescendantsShrink(g: DG.Graph, z: nat, c: nat)
    requires DG.WellFormed(g) && DG.Acyclic(g) && c in g.rate && z in g.anc[c] && z != c
    ensures z in g.desc && g.desc[c] < g.desc[z]
  {
    DG.BothPreorders(g);
    assert c in g.desc[z] && z in g.desc[z];
    assert z !in g.desc[c];
  }

  lemma {:induction false} ParentChain(g: DG.Graph, z: nat, x: nat, y: nat)
    requires DG.WellFormed(g) && DG.Acyclic(g) && OneParent(g) && z in g.rate && x in g.anc[z] && y in g.anc[z]
    ensures x in g.rate && y in g.rate && (y in g.anc[x] || x in g.anc[y])
    decreases g.anc[z]
  {
    if x != z && y != z {
      var p := DG.MaximalBetween(g, x, z, g.anc[z]);
      var q := DG.MaximalBetween(g, y, z, g.anc[z]);
      assert p in DG.ReducedParents(g, z) && q in DG.ReducedParents(g, z);
      assert p == q && z !in g.anc[p];
      ParentChain(g, p, x, y);
    }
  }

  lemma TreeShapes(g: DG.Graph)
    requires DG.WellFormed(g) && DG.Acyclic(g)
    ensures OneChild(g) ==> TreeLike(g.anc)
    ensures OneParent(g) ==> TreeLike(g.desc)
  {
    hide OneChild, OneParent, DG.Acyclic;
    DG.BothPreorders(g);
    if OneChild(g) {
      forall z, x, y | x in g.anc && y in g.anc && z in g.anc[x] && z in g.anc[y]
        ensures y in g.anc[x] || x in g.anc[y]
      {
        ChildChain(g, z, x, y);
      }
    }
    if OneParent(g) {
      forall z, x, y | x in g.desc && y in g.desc && z in g.desc[x] && z in g.desc[y]
        ensures y in g.desc[x] || x in g.desc[y]
      {
        ParentChain(g, z, x, y);
      }
    }
  }

  // ----- the whole algorithm

  /** A pass, as seen in the direction of the linearization: `l` lists `lin'`, and covers `lin`. */
  ghost predicate Passed(g: DG.Graph, lin: seq<nat>, lin': seq<nat>, l: Groups)
    requires DG.WellFormed(g)
  {
    && Construction.Topological(g, lin') && lin' == Flat(l) && NonEmpty(g.rate, l) && Sorted(GroupRates(g.rate, l))
    && GroupsCover(g.rate, lin, |lin|, l)
  }

  ghost predicate CoversAll(g: DG.Graph, l: Groups)
    requires DG.WellFormed(g)
  {
    forall other :: Construction.Topological(g, other) ==> GroupsCover(g.rate, other, |other|, l)
  }

  lemma ForwardPassed(g: DG.Graph, lin: seq<nat>, l: Groups)
    requires DG.WellFormed(g) && Construction.Topological(g, lin) && Building(g.rate, g.anc, lin, |lin|, l)
    ensures Passed(g, lin, Flat(l), l)
    ensures TreeLike(g.anc) ==> CoversAll(g, l)
  {
    hide Flat, AllShaped, GroupsCover, Construction.Topological, DG.WellFormed, NonEmpty, Sorted, InDepOrder, TreeLike;
    assert lin[..|lin|] == lin;
    ListParts(g.rate, g.anc, l);
    TopologicalElems(g, lin);
    OrderTopological(g, Flat(l), false);
    if TreeLike(g.anc) {
      forall other | Construction.Topological(g, other) ensures GroupsCover(g.rate, other, |other|, l) {
        TopologicalElems(g, other);
        PassOrderDeps(g, other, false);
        TreeCover(g.rate, g.anc, l, other);
      }
    }
  }

  lemma TopologicalElems(g: DG.Graph, lin: seq<nat>)
    requires DG.WellFormed(g) && Construction.Topological(g, lin)
    ensures Elems(lin) == g.rate.Keys && PostGroups.Distinct(lin)
  {
  }

  lemma BackwardPassed(g: DG.Graph, lin: seq<nat>, l: Groups)
    requires DG.WellFormed(g) && Construction.Topological(g, lin)
    requires Building(NegRates(g.rate), g.desc, Reversed(lin), |lin|, l)
    ensures Passed(g, lin, Reversed(Flat(l)), Mirror(l))
    ensures TreeLike(g.desc) ==> CoversAll(g, Mirror(l))
  {
    hide Flat, AllShaped, GroupsCover, Construction.Topological, DG.WellFormed, NonEmpty, Sorted, InDepOrder, TreeLike,
         Reversed, NegRates, Mirror;
    var m := NegRates(g.rate);
    SameElems(lin, true);
    assert Reversed(lin)[..|lin|] == Reversed(lin);
    ListParts(m, g.desc, l);
    TopologicalElems(g, lin);
    OrderTopological(g, Flat(l), true);
    MirrorFlat(l);
    MirrorNonEmpty(g.rate, l);
    MirrorSorted(g.rate, l);
    MirrorCover(g.rate, lin, l);
    if TreeLike(g.desc) {
      forall other | Construction.Topological(g, other) ensures GroupsCover(g.rate, other, |other|, Mirror(l)) {
        TopologicalElems(g, other);
        PassOrderDeps(g, other, true);
        SameElems(other, true);
        NegKeys(g.rate);
        TreeCover(m, g.desc, l, Reversed(other));
        MirrorCover(g.rate, other, l);
      }
    }
  }

  lemma NegKeys(m: Rates)
    ensures NegRates(m).Keys == m.Keys
  {
  }

  /** The two passes together. */
  lemma BothPasses(g: DG.Graph, lin0: seq<nat>, lin1: seq<nat>, lin2: seq<nat>, l1: Groups, l2: Groups)
    requires DG.WellFormed(g) && PositiveSizes(g.rate) && Construction.Topological(g, lin0) && Passed(g, lin0, lin1, l1)
    requires Passed(g, lin1, lin2, l2)
    ensures Elems(lin2) <= g.rate.Keys && Elems(lin0) <= g.rate.Keys && NoWorse(g.rate, lin2, lin0)
    ensures CoversAll(g, l1) || CoversAll(g, l2) ==> Construction.BestPossible(g, lin2)
  {
    hide Flat, GroupsCover, Construction.Topological, DG.WellFormed, NonEmpty, Sorted, NoWorse, PositiveSizes,
         GroupRates;
    TopologicalElems(g, lin0);
    TopologicalElems(g, lin1);
    TopologicalElems(g, lin2);
    CoverTransitive(g.rate, l1, l2, lin0);
    GroupsNoWorse(g.rate, l2, lin0);
    if CoversAll(g, l1) || CoversAll(g, l2) {
      forall other | Construction.Topological(g, other)
        ensures Elems(other) <= g.rate.Keys && NoWorse(g.rate, lin2, other)
      {
        TopologicalElems(g, other);
        if !CoversAll(g, l2) { CoverTransitive(g.rate, l1, l2, other); }
        GroupsNoWorse(g.rate, l2, other);
      }
    }
  }

  /** The groups of the result: connected, of non-increasing feerate, and without a beginning of the
      feerate of the group. */
  ghost predicate ConnectedChunks(m: Rates, deps: Links, l: Groups) {
    && NonEmpty(m, l) && Sorted(GroupRates(m, l))
    && forall g :: g in l ==> Tight(m, g) && ConnectedBy(deps, Elems(g))
  }

  // ----- the groups are the chunks

  /** At no threshold does a beginning of a group gain more than the group or nothing. */
  lemma BeginningGains(m: Rates, g: seq<nat>, n: nat, r: FeeFrac)
    requires PositiveSizes(m) && Elems(g) <= m.Keys && PostGroups.Distinct(g) && 0 < n <= |g| && Tight(m, g) &&
             r.size > 0
    ensures Gain(r, RateOf(m, g[..n])) <= Max0(Gain(r, RateOf(m, g)))
  {
    hide RateOf, PositiveSizes;
    if n == |g| {
      assert g[..n] == g;
    } else {
      PartRates(m, g, n);
      HigherRest(r, RateOf(m, g[..n]), RateOf(m, g[n..]));
    }
  }

  lemma HigherRest(r: FeeFrac, a: FeeFrac, b: FeeFrac)
    requires a.size > 0 && b.size > 0 && r.size > 0 && Lower(a, Add(a, b))
    ensures Gain(r, a) <= Max0(Gain(r, Add(a, b)))
  {
    GainAdd(r, a, b);
    if Gain(r, a) > 0 {
      RestHigher(a, b);
      LowerIsAtMost(a, Add(a, b));
      LowerIsAtMost(Add(a, b), b);
      hide Lower, AtMost;
      RatioTransitive(a, Add(a, b), b);
      Above(r, a, b);
    }
  }

  lemma Above(r: FeeFrac, a: FeeFrac, b: FeeFrac)
    requires a.size > 0 && b.size > 0 && r.size > 0 && Gain(r, a) > 0 && AtMost(a, b)
    ensures Gain(r, b) >= 0
  {
    assert AtMost(r, a);
    RatioTransitive(r, a, b);
  }

  /** No beginning of what the groups list gains more than their diagram. */
  lemma {:induction false} PrefixesCovered(m: Rates, l: Groups, p: nat, r: FeeFrac)
    requires PositiveSizes(m) && NonEmpty(m, l) && PostGroups.Distinct(Flat(l)) && (forall g :: g in l ==> Tight(m, g))
    requires p <= |Flat(l)| && r.size > 0
    ensures Elems(Flat(l)) <= m.Keys && Gain(r, RateOf(m, Flat(l)[..p])) <= Potential(GroupRates(m, l), r)
    decreases |l|
  {
    hide Tight, PositiveSizes, RateOf, Potential, Gain;
    ListTotal(m, l);
    if l == [] {
      assert Flat(l)[..p] == [] && GroupRates(m, l) == [];
      NoGainAtAll(m, r);
      PotentialNonNegative([], r);
    } else {
      var n := |l| - 1;
      var a, g, f := l[..n], l[n], Flat(l[..n]);
      assert l == a + [g] && Flat(l) == f + g;
      forall h | h in a ensures h in l { }
      DistinctPart(Flat(l), 0, |f|);
      assert Flat(l)[0..|f|] == f;
      assert GroupRates(m, l) == GroupRates(m, a) + [RateOf(m, g)];
      PotentialAppend(GroupRates(m, a), [RateOf(m, g)], r);
      PotentialOne(RateOf(m, g), r);
      if p <= |f| {
        PrefixesCovered(m, a, p, r);
        assert Flat(l)[..p] == f[..p];
      } else {
        PrefixesCovered(m, a, |f|, r);
        assert f[..|f|] == f && Flat(l)[..p] == f + g[..p - |f|];
        DistinctPart(Flat(l), |f|, |Flat(l)|);
        assert Flat(l)[|f|..|Flat(l)|] == g;
        BeginningGains(m, g, p - |f|, r);
        JoinedGain(m, Flat(l)[..p], |f|, r);
      }
    }
  }

  lemma JoinedGain(m: Rates, g: seq<nat>, n: nat, r: FeeFrac)
    requires PositiveSizes(m) && Elems(g) <= m.Keys && PostGroups.Distinct(g) && n < |g|
    ensures Gain(r, RateOf(m, g)) == Gain(r, RateOf(m, g[..n])) + Gain(r, RateOf(m, g[n..]))
  {
    hide Gain, PositiveSizes, RateOf;
    if n == 0 {
      assert g[..0] == [] && g[0..] == g;
      NoGainAtAll(m, r);
    } else {
      PartRates(m, g, n);
      GainAdd(r, RateOf(m, g[..n]), RateOf(m, g[n..]));
    }
  }

  lemma NoGainAtAll(m: Rates, r: FeeFrac)
    ensures Gain(r, RateOf(m, [])) == 0
  {
    assert Elems([]) == {};
    TotalEmpty(m);
  }

  /** The groups are a chunking of the linearization. */
  ghost predicate ChunkedBy(m: Rates, lin: seq<nat>, l: Groups) {
    Elems(lin) <= m.Keys && Chunking.IsChunking(GroupRates(m, l), Chunking.RatesOf(m, lin))
  }

  /** Connected groups in order of feerate are a chunking of what they list. */
  lemma GroupsAreChunks(m: Rates, deps: Links, l: Groups)
    requires PositiveSizes(m) && PostGroups.Distinct(Flat(l)) && ConnectedChunks(m, deps, l)
    ensures ChunkedBy(m, Flat(l), l)
  {
    hide Flat, Sum, Total, Tight, ConnectedBy, PositiveSizes, OnOrBelow, Potential, Gain, NonEmpty, RateOf;
    var lin, cs := Flat(l), GroupRates(m, l);
    ListTotal(m, l);
    RatesPositive(m, l);
    RatesLength(m, lin);
    var txs := Chunking.RatesOf(m, lin);
    forall k | 0 <= k <= |txs| ensures OnOrBelow(Sum(txs[..k]), cs) { PrefixBelow(m, deps, l, k); }
    var cuts := seq(|l| + 1, k requires 0 <= k <= |l| => |Flat(l[..k])|);
    forall k | 0 <= k <= |cs| ensures cuts[k] <= |txs| && Sum(cs[..k]) == Sum(txs[..cuts[k]]) { ListVertex(m, l, k); }
    assert l[..|l|] == l;
    assert Chunking.VerticesOf(cs, txs, cuts);
  }

  lemma PrefixBelow(m: Rates, deps: Links, l: Groups, k: nat)
    requires PositiveSizes(m) && PostGroups.Distinct(Flat(l)) && ConnectedChunks(m, deps, l) && k <= |Flat(l)|
    ensures Elems(Flat(l)) <= m.Keys && OnOrBelow(Sum(Chunking.RatesOf(m, Flat(l))[..k]), GroupRates(m, l))
  {
    hide Flat, Sum, Total, Tight, ConnectedBy, PositiveSizes, OnOrBelow, Potential, Gain, NonEmpty, Sorted, Sizes;
    var lin, cs := Flat(l), GroupRates(m, l);
    ListTotal(m, l);
    RatesPositive(m, l);
    PrefixTotal(m, lin, k);
    var pt := PrefixRate(m, lin, k);
    forall r: FeeFrac | r.size > 0 ensures Gain(r, pt) <= Potential(cs, r) { PrefixesCovered(m, l, k, r); }
    TotalSizeMono(m, Elems(lin[..k]), Elems(lin));
    BelowFromPotential(pt, cs);
  }

  /** Improve a linearization in place, with a backward and a forward pass. */
  method PostLinearize(depgraph: DG.DepGraph, lin: array<nat>) returns (ghost groups: Groups)
    requires depgraph.Valid() && DG.Acyclic(depgraph.View()) && PositiveSizes(depgraph.View().rate)
    requires Construction.Topological(depgraph.View(), lin[..])
    modifies lin
    ensures Construction.Topological(depgraph.View(), lin[..])
    ensures Elems(lin[..]) <= depgraph.View().rate.Keys && Elems(old(lin[..])) <= depgraph.View().rate.Keys
    ensures NoWorse(depgraph.View().rate, lin[..], old(lin[..]))
    ensures lin[..] == Flat(groups) && ConnectedChunks(depgraph.View().rate, depgraph.View().anc, groups)
    ensures ChunkedBy(depgraph.View().rate, lin[..], groups)
    ensures OneChild(depgraph.View()) || OneParent(depgraph.View()) ==>
              Construction.BestPossible(depgraph.View(), lin[..])
    ensures forall lin1, k :: Moved(depgraph.View(), lin1, k, old(lin[..])) ==>
      Elems(lin1) <= depgraph.View().rate.Keys && NoWorse(depgraph.View().rate, lin[..], lin1)
  {
    hide DG.WellFormed, DG.Acyclic, DG.GraphOf, PositiveSizes, Construction.Topological, Rep, Building, NoWorse, Flat,
         Reversed, Mirror, NegRates, OneChild, OneParent, TreeLike, Passed, CoversAll, Construction.BestPossible,
         ConnectedChunks, InDepOrder, Moved, ChunkedBy;
    ghost var g, lin0 := depgraph.View(), lin[..];
    var e := seq(|depgraph.entries| + 1, _ => TxEntry(0, 0, 0, {}, {}, EMPTY));
    GraphUsed(depgraph.entries, depgraph.used);
    TopologicalElems(g, lin0);
    PassOrderDeps(g, lin0, true);
    ghost var l1, l2;
    e, l1 := BuildGroups(depgraph, lin[..], true, e);
    BackwardPassed(g, lin0, l1);
    SameElems(lin0, true);
    ListLength(NegRates(g.rate), g.desc, Reversed(lin0), l1, lin0);
    WriteOut(e, lin, true, NegRates(g.rate), g.desc, l1);
    ghost var lin1 := lin[..];
    PassedTopological(g, lin0, lin1, Mirror(l1));
    TopologicalElems(g, lin1);
    PassOrderDeps(g, lin1, false);
    RepEnds(e, NegRates(g.rate), g.desc, l1);
    e, l2 := BuildGroups(depgraph, lin[..], false, e);
    ForwardPassed(g, lin1, l2);
    ListLength(g.rate, g.anc, lin1, l2, lin1);
    WriteOut(e, lin, false, g.rate, g.anc, l2);
    PassedTopological(g, lin1, lin[..], l2);
    BothPasses(g, lin0, lin1, lin[..], Mirror(l1), l2);
    TreeShapes(g);
    forall lin1', k | Moved(g, lin1', k, lin0) ensures Elems(lin1') <= g.rate.Keys && NoWorse(g.rate, lin[..], lin1') {
      MovedPasses(g, lin1', k, lin0, lin1, lin[..], l1, l2);
    }
    groups := l2;
    Connected(g.rate, g.anc, lin1, l2);
    TopologicalElems(g, lin[..]);
    GroupsAreChunks(g.rate, g.anc, l2);
  }

  lemma PassedTopological(g: DG.Graph, lin: seq<nat>, lin': seq<nat>, l: Groups)
    requires DG.WellFormed(g) && Passed(g, lin, lin', l)
    ensures Construction.Topological(g, lin')
  {
  }

  /** The groups list as many transactions as there were. */
  lemma ListLength(m: Rates, deps: Links, s: seq<nat>, l: Groups, lin: seq<nat>)
    requires Building(m, deps, s, |s|, l) && PostGroups.Distinct(lin) && Elems(s) == Elems(lin) && |s| == |lin|
    ensures |Flat(l)| == |lin|
  {
    hide Flat, AllShaped, GroupsCover, NonEmpty, Sorted, PositiveSizes;
    assert s[..|s|] == s;
    ListParts(m, deps, l);
    ElemsCount(Flat(l));
    ElemsCount(lin);
  }

  lemma {:induction false} ElemsCount(s: seq<nat>)
    requires PostGroups.Distinct(s)
    ensures |Elems(s)| == |s|
    decreases |s|
  {
    if s != [] {
      var n := |s| - 1;
      assert s == s[..n] + [s[n]];
      ElemsCount(s[..n]);
      assert Elems(s) == Elems(s[..n]) + {s[n]};
    }
  }

  lemma Connected(m: Rates, deps: Links, s: seq<nat>, l: Groups)
    requires Building(m, deps, s, |s|, l)
    ensures ConnectedChunks(m, deps, l)
  {
    hide Flat, GroupsCover, PositiveSizes, Tight, ConnectedBy, TreeLike, PartBound, AllTail;
    forall g | g in l ensures Tight(m, g) && ConnectedBy(deps, Elems(g)) { assert Shaped(m, deps, g); }
  }

  // ----- moving a leaf to the end

  /** `lin` with the transaction at `k` moved to the end. */
  ghost function MovedToEnd(lin: seq<nat>, k: nat): seq<nat>
    requires k < |lin|
  {
    lin[..k] + lin[k + 1..] + [lin[k]]
  }

  /** What follows `q` in `lin` is, of the moved order read backwards, a beginning: with the leaf if
      it is among it, and without it otherwise. */
  lemma MovedBackwards(lin: seq<nat>, k: nat, q: nat)
    requires k < |lin| && q <= |lin|
    ensures var s := Reversed(MovedToEnd(lin, k));
            && |s| == |lin| && s[0] == lin[k]
            && (q <= k ==> Elems(Reversed(lin)[..|lin| - q]) == Elems(s[..|lin| - q]))
            && (q > k ==> Elems(Reversed(lin)[..|lin| - q]) == Elems(s[1..|lin| - q + 1]))
  {
    var moved := MovedToEnd(lin, k);
    ReversedPrefix(lin, q);
    SameElems(lin[q..], true);
    if q <= k {
      ReversedPrefix(moved, q);
      SameElems(moved[q..], true);
      assert moved[q..] == lin[q..k] + lin[k + 1..] + [lin[k]];
      assert lin[q..] == lin[q..k] + [lin[k]] + lin[k + 1..];
      ElemsSwap(lin[q..k], [lin[k]], lin[k + 1..], []);
      assert lin[q..k] + [lin[k]] + lin[k + 1..] + [] == lin[q..] &&
             lin[q..k] + lin[k + 1..] + [lin[k]] + [] == moved[q..];
    } else {
      var s := Reversed(moved);
      assert s[1..|lin| - q + 1] == Reversed(lin[q..]);
    }
  }

  /** Nothing after a transaction is an ancestor of it. */
  lemma LaterAreFree(g: DG.Graph, lin: seq<nat>, k: nat, q: nat)
    requires DG.WellFormed(g) && Construction.Topological(g, lin) && k < q <= |lin|
    ensures FirstFree(g.desc, Reversed(MovedToEnd(lin, k)), |lin| - q + 1)
  {
    hide DG.WellFormed, Construction.Topological;
    var s := Reversed(MovedToEnd(lin, k));
    assert s[0] == lin[k];
    forall j | 1 <= j < |lin| - q + 1 && s[j] in g.desc ensures s[0] !in g.desc[s[j]] {
      assert s[j] == lin[|lin| - j];
      NotAmongBefore(g, lin, k, |lin| - j);
    }
  }

  /** The backward pass covers the linearization that the leaf was moved in. */
  lemma MovedCovered(g: DG.Graph, lin: seq<nat>, k: nat, l: Groups)
    requires DG.WellFormed(g) && Construction.Topological(g, lin) && k < |lin|
    requires Building(NegRates(g.rate), g.desc, Reversed(MovedToEnd(lin, k)), |lin|, l)
    ensures GroupsCover(NegRates(g.rate), Reversed(lin), |lin|, l)
  {
    hide Construction.Topological, DG.WellFormed, ListOk, Total, Gain, Potential, GroupRates, Reversed, MovedToEnd,
         NegRates, FirstFree, Elems, Flat;
    var m, s := NegRates(g.rate), Reversed(MovedToEnd(lin, k));
    TopologicalElems(g, lin);
    NegKeys(g.rate);
    SameElems(lin, true);
    forall p, r: FeeFrac | 0 <= p <= |lin| && r.size > 0
      ensures Elems(Reversed(lin)[..p]) <= m.Keys
      ensures Gain(r, Total(m, Elems(Reversed(lin)[..p]))) <= Potential(GroupRates(m, l), r)
    {
      var q := |lin| - p;
      ElemsPart(Reversed(lin), p);
      MovedBackwards(lin, k, q);
      if q > k { LaterAreFree(g, lin, k, q); }
    }
  }

  /** `lin` is what becomes of the linearization `lin1` when a transaction is moved to the end. */
  ghost predicate Moved(g: DG.Graph, lin1: seq<nat>, k: nat, lin: seq<nat>)
    requires DG.WellFormed(g)
  {
    Construction.Topological(g, lin1) && k < |lin1| && lin == MovedToEnd(lin1, k)
  }

  lemma MovedPasses(g: DG.Graph, lin1: seq<nat>, k: nat, lin: seq<nat>, mid: seq<nat>, last: seq<nat>, l1: Groups,
                    l2: Groups)
    requires DG.WellFormed(g) && PositiveSizes(g.rate) && Moved(g, lin1, k, lin)
    requires Building(NegRates(g.rate), g.desc, Reversed(lin), |lin|, l1) && Passed(g, lin, mid, Mirror(l1))
    requires Passed(g, mid, last, l2)
    ensures Elems(lin1) <= g.rate.Keys && Elems(last) <= g.rate.Keys && NoWorse(g.rate, last, lin1)
  {
    hide Flat, GroupsCover, Construction.Topological, DG.WellFormed, Sorted, NoWorse, PositiveSizes, GroupRates,
         Building, NegRates, Reversed, Mirror, NonEmpty;
    TopologicalElems(g, lin1);
    TopologicalElems(g, mid);
    TopologicalElems(g, last);
    assert |lin| == |lin1|;
    MovedCovered(g, lin1, k, l1);
    BuiltList(NegRates(g.rate), g.desc, Reversed(lin), |lin|, l1);
    MirrorFlat(l1);
    SameElems(Flat(l1), true);
    MirrorCover(g.rate, lin1, l1);
    CoverTransitive(g.rate, Mirror(l1), l2, lin1);
    GroupsNoWorse(g.rate, l2, lin1);
  }

  lemma BuiltList(m: Rates, deps: Links, s: seq<nat>, i: nat, l: Groups)
    requires Building(m, deps, s, i, l)
    ensures NonEmpty(m, l) && PostGroups.Distinct(Flat(l))
  {
  }

  /** `m` gives `t` a fee at least as high as `m0` does, and is otherwise the same. */
  ghost predicate Raises(m: Rates, m0: Rates, t: nat) {
    && m.Keys == m0.Keys && t in m && m[t].size == m0[t].size && m0[t].fee <= m[t].fee
    && forall x :: x in m && x != t ==> m[x] == m0[x]
  }

  lemma {:induction false} RaisedTotal(m: Rates, m0: Rates, t: nat, s: set<nat>)
    requires Raises(m, m0, t) && s <= m.Keys
    ensures Total(m0, s).size == Total(m, s).size && Total(m0, s).fee <= Total(m, s).fee
    decreases s
  {
    hide Total;
    TotalEmpty(m);
    TotalEmpty(m0);
    if s != {} {
      var x :| x in s;
      TotalPick(m, s, x);
      TotalPick(m0, s, x);
      RaisedTotal(m, m0, t, s - {x});
    }
  }

  lemma {:induction false} LowerPoint(pt: FeeFrac, pt': FeeFrac, cs: seq<FeeFrac>)
    requires OnOrBelow(pt, cs) && pt'.size == pt.size && pt'.fee <= pt.fee && Sizes(cs)
    ensures OnOrBelow(pt', cs)
    decreases |cs|
  {
    if cs != [] {
      if pt.size <= cs[0].size {
        MulMono(pt'.fee, pt.fee, cs[0].size);
      } else {
        LowerPoint(Sub(pt, cs[0]), Sub(pt', cs[0]), cs[1..]);
      }
    }
  }

  /** Being no worse than `lin1` is being no worse than it was before a fee was raised. */
  lemma RaisedNoWorse(m: Rates, m0: Rates, t: nat, lin: seq<nat>, lin1: seq<nat>, cs: seq<FeeFrac>, p: nat)
    requires Elems(lin) <= m.Keys && Elems(lin1) <= m.Keys && NoWorse(m, lin, lin1) && Raises(m, m0, t)
    requires PostGroups.Distinct(lin1)
    requires Chunking.IsChunking(cs, Chunking.RatesOf(m, lin)) && p <= |lin1|
    ensures OnOrBelow(PrefixRate(m0, lin1, p), cs)
  {
    hide Total, OnOrBelow, PrefixRate, Sum, Chunking.RatesOf;
    PrefixTotal(m, lin1, p);
    PrefixTotal(m0, lin1, p);
    RaisedTotal(m, m0, t, Elems(lin1[..p]));
    assert OnOrBelow(PrefixRate(m, lin1, p), cs);
    LowerPoint(PrefixRate(m, lin1, p), PrefixRate(m0, lin1, p), cs);
  }
}
