/** What the groups of `PostLinearize` look like (src/cluster_linearize.h): they are connected, are
    exactly the chunks of the linearization, and are optimal when the cluster is a tree. */
module PostShapes {
  import opened FeeFracs
  import opened Totals
  import opened Diagrams
  import opened Families
  import opened LinearOrders
  import opened PostGroups

  // ----- groups are chunks

  /** Every proper beginning of the group has a lower feerate than the group. */
  ghost predicate Tight(m: Rates, g: seq<nat>) {
    forall n :: 0 < n < |g| ==> Lower(RateOf(m, g[..n]), RateOf(m, g))
  }

  lemma TightSum(p: FeeFrac, c: FeeFrac, r: FeeFrac)
    requires p.size > 0 && c.size > 0 && r.size > 0 && Lower(c, Add(c, r)) && Lower(p, Add(c, r))
    ensures Lower(Add(p, c), Add(p, Add(c, r)))
  {
    hide Lower, AtMost;
    var d := Add(c, r);
    RestHigher(c, r);
    LowerIsAtMost(p, d);
    Mediant(p, d);
    RatioTransitive(Add(p, d), d, r);
    LowerRest(Add(p, c), r);
    AddAssociative(p, c, r);
  }

  lemma LowerIsAtMost(a: FeeFrac, b: FeeFrac)
    requires Lower(a, b)
    ensures AtMost(a, b)
  {
  }

  lemma RestHigher(c: FeeFrac, r: FeeFrac)
    requires Lower(c, Add(c, r))
    ensures Lower(Add(c, r), r)
  {
  }

  /** Adding something of higher feerate than the sum raises the feerate. */
  lemma LowerRest(a: FeeFrac, r: FeeFrac)
    requires Lower(Add(a, r), r)
    ensures Lower(a, Add(a, r))
  {
  }

  lemma PartRates(m: Rates, g: seq<nat>, n: nat)
    requires PositiveSizes(m) && Elems(g) <= m.Keys && Distinct(g) && 0 < n < |g|
    ensures RateOf(m, g) == Add(RateOf(m, g[..n]), RateOf(m, g[n..]))
    ensures RateOf(m, g[..n]).size > 0 && RateOf(m, g[n..]).size > 0
  {
    hide Total;
    assert g == g[..n] + g[n..];
    ElemsAppend(g[..n], g[n..]);
    forall x | x in Elems(g[..n]) ensures x !in Elems(g[n..]) {
      var i :| 0 <= i < n && g[i] == x;
      forall j | n <= j < |g| ensures g[j] != x { }
    }
    TotalUnion(m, Elems(g[..n]), Elems(g[n..]));
    GroupSize(m, g[..n]);
    GroupSize(m, g[n..]);
  }

  lemma TightMerge(m: Rates, p: seq<nat>, c: seq<nat>)
    requires PositiveSizes(m) && Elems(p + c) <= m.Keys && Distinct(p + c) && p != [] && c != []
    requires Tight(m, p) && Tight(m, c) && Lower(RateOf(m, p), RateOf(m, c))
    ensures Tight(m, p + c)
  {
    hide RateOf, Lower, PositiveSizes;
    var g := p + c;
    forall n | 0 < n < |g| ensures Lower(RateOf(m, g[..n]), RateOf(m, g)) { TightAt(m, p, c, n); }
  }

  lemma TightAt(m: Rates, p: seq<nat>, c: seq<nat>, n: nat)
    requires PositiveSizes(m) && Elems(p + c) <= m.Keys && Distinct(p + c) && p != [] && c != []
    requires Tight(m, p) && Tight(m, c) && Lower(RateOf(m, p), RateOf(m, c)) && 0 < n < |p + c|
    ensures Lower(RateOf(m, (p + c)[..n]), RateOf(m, p + c))
  {
    hide RateOf, PositiveSizes;
    var g := p + c;
    ElemsAppend(p, c);
    assert g[..|p|] == p && g[|p|..] == c;
    PartRates(m, g, |p|);
    Mediant(RateOf(m, p), RateOf(m, c));
    if n < |p| {
      assert g[..n] == p[..n];
      DistinctPart(g, 0, |p|);
      PartRates(m, p, n);
      RatioTransitive(RateOf(m, p[..n]), RateOf(m, p), RateOf(m, g));
    } else if n > |p| {
      var k := n - |p|;
      DistinctPart(g, |p|, |g|);
      assert g[|p|..|g|] == c;
      PartRates(m, c, k);
      assert g[..n] == p + c[..k] && g[..n][..|p|] == p && g[..n][|p|..] == c[..k];
      DistinctPart(g, 0, n);
      ElemsPart(g, n);
      PartRates(m, g[..n], |p|);
      TightSum(RateOf(m, p), RateOf(m, c[..k]), RateOf(m, c[k..]));
    }
  }

  lemma DistinctPart(g: seq<nat>, a: nat, b: nat)
    requires a <= b <= |g| && Distinct(g)
    ensures Distinct(g[a..b])
  {
  }

  lemma ElemsPart(g: seq<nat>, n: nat)
    requires n <= |g|
    ensures Elems(g[..n]) <= Elems(g)
  {
  }

  // ----- groups are connected

  /** No part of `k` is without dependencies in either direction on the rest. */
  ghost predicate ConnectedBy(deps: Links, k: set<nat>) {
    forall s :: s <= k && s != {} && Separate(deps, k, s) ==> s == k
  }

  ghost predicate Separate(deps: Links, k: set<nat>, s: set<nat>) {
    forall x, y :: x in k && y in k && x in deps && y in deps[x] ==> (x in s <==> y in s)
  }

  lemma ConnectedMerge(deps: Links, p: set<nat>, c: set<nat>, x: nat, y: nat)
    requires ConnectedBy(deps, p) && ConnectedBy(deps, c) && x in c && y in p && x in deps && y in deps[x]
    ensures ConnectedBy(deps, p + c)
  {
    forall s | s <= p + c && s != {} && Separate(deps, p + c, s) ensures s == p + c {
      assert Separate(deps, p, s * p) && Separate(deps, c, s * c);
      assert s == s * p + s * c;
      assert x in s <==> y in s;
      assert s * p == {} || s * p == p;
      assert s * c == {} || s * c == c;
    }
  }

  lemma ConnectedOne(deps: Links, x: nat)
    ensures ConnectedBy(deps, {x})
  {
    forall s: set<nat> | s <= {x} && s != {} ensures s == {x} { var y :| y in s; }
  }

  // ----- trees

  ghost predicate Transitive(deps: Links) {
    forall x, y :: x in deps && y in deps[x] ==> y in deps && deps[y] <= deps[x]
  }

  /** Of two transactions that depend on a third, one depends on the other. */
  ghost predicate TreeLike(deps: Links) {
    && Transitive(deps) && (forall x :: x in deps ==> x in deps[x])
    && (forall z, x, y :: x in deps && y in deps && z in deps[x] && z in deps[y] ==> y in deps[x] || x in deps[y])
  }

  ghost predicate ClosedIn(deps: Links, k: set<nat>, s: set<nat>) {
    s <= k && forall x, y :: x in s && x in deps && y in deps[x] && y in k ==> y in s
  }

  function Tail(g: seq<nat>): nat { if g == [] then 0 else g[|g| - 1] }

  /** All of the group is what its last transaction depends on. */
  ghost predicate AllTail(deps: Links, g: seq<nat>) {
    g != [] && Tail(g) in deps && Elems(g) <= deps[Tail(g)]
  }

  /** No part of the group that has the dependencies it has in the group gains over the group. */
  ghost predicate PartBound(m: Rates, deps: Links, g: seq<nat>) {
    Elems(g) <= m.Keys && forall s :: ClosedIn(deps, Elems(g), s) ==> Gain(RateOf(m, g), Total(m, s)) <= 0
  }

  /** Of the group on its way, having absorbed `us`: parts without its last transaction gain nothing
      over a threshold that none of `us` is above. */
  ghost predicate TreeMoving(m: Rates, deps: Links, c: seq<nat>, us: seq<FeeFrac>) {
    && Elems(c) <= m.Keys && AllTail(deps, c)
    && forall r: FeeFrac, s ::
         r.size > 0 && AllAtMost(us, [r]) && ClosedIn(deps, Elems(c), s) && Tail(c) !in s ==> Gain(r, Total(m, s)) <= 0
  }

  lemma TreeStart(m: Rates, deps: Links, x: nat)
    requires x in m && x in deps && x in deps[x]
    ensures TreeMoving(m, deps, [x], [])
  {
    hide Total;
    assert Elems([x]) == {x};
    TotalEmpty(m);
    forall r: FeeFrac, s | r.size > 0 && ClosedIn(deps, {x}, s) && x !in s
      ensures Gain(r, Total(m, s)) <= 0
    {
      assert s == {};
    }
  }

  lemma TreeTail(deps: Links, p: seq<nat>, c: seq<nat>, x: nat, y: nat)
    requires TreeLike(deps) && AllTail(deps, p) && AllTail(deps, c) && DepsFirst(deps, p + c)
    requires x in c && y in p && x in deps && y in deps[x]
    ensures AllTail(deps, p + c)
  {
    var t, u := Tail(p), Tail(c);
    assert x in Elems(c) && y in Elems(p);
    assert t in deps && y in deps[t];
    assert x !in deps[t] by {
      var g := p + c;
      var j :| 0 <= j < |c| && c[j] == x;
      assert g[|p| - 1] == t && g[|p| + j] == x;
    }
    assert t in deps[x] && x in deps[u];
    assert deps[t] <= deps[x] <= deps[u];
    ElemsAppend(p, c);
    assert Tail(p + c) == u;
  }

  lemma ClosedParts(deps: Links, p: seq<nat>, c: seq<nat>, s: set<nat>)
    requires ClosedIn(deps, Elems(p + c), s) && Elems(p) * Elems(c) == {}
    ensures var sp, sc := s * Elems(p), s * Elems(c);
            s == sp + sc && sp !! sc && ClosedIn(deps, Elems(p), sp) && ClosedIn(deps, Elems(c), sc)
  {
    ElemsAppend(p, c);
    var sp, sc := s * Elems(p), s * Elems(c);
    forall x | x in sp ensures x !in sc { NotBoth(Elems(p), Elems(c), x); }
  }

  lemma TreeParts(m: Rates, deps: Links, p: seq<nat>, c: seq<nat>, us: seq<FeeFrac>, r: FeeFrac, s: set<nat>)
    requires PositiveSizes(m) && r.size > 0 && p != [] && c != [] && Elems(p) * Elems(c) == {}
    requires PartBound(m, deps, p) && TreeMoving(m, deps, c, us)
    requires AllAtMost(us + [RateOf(m, p)], [r]) && ClosedIn(deps, Elems(p + c), s) && Tail(p + c) !in s
    ensures s <= m.Keys && Gain(r, Total(m, s)) <= 0
  {
    hide Total, ClosedIn, Gain, AtMost;
    ClosedParts(deps, p, c, s);
    var sp, sc := s * Elems(p), s * Elems(c);
    GainUnion(m, r, sp, sc);
    forall i | 0 <= i < |us| ensures AtMost(us[i], [r][0]) { assert (us + [RateOf(m, p)])[i] == us[i]; }
    assert AtMost((us + [RateOf(m, p)])[|us|], [r][0]);
    GroupSize(m, p);
    PartBelow(m, RateOf(m, p), r, sp);
    assert Tail(p + c) == Tail(c);
    assert Gain(r, Total(m, sc)) <= 0;
  }

  lemma PartBelow(m: Rates, p: FeeFrac, r: FeeFrac, s: set<nat>)
    requires PositiveSizes(m) && s <= m.Keys && p.size > 0 && r.size > 0 && AtMost(p, r) && Gain(p, Total(m, s)) <= 0
    ensures Gain(r, Total(m, s)) <= 0
  {
    hide Total;
    TotalEmpty(m);
    TotalSize(m, s);
    if s != {} { RatioTransitive(Total(m, s), p, r); }
  }

  lemma TreeMerge(m: Rates, deps: Links, p: seq<nat>, c: seq<nat>, us: seq<FeeFrac>, x: nat, y: nat)
    requires PositiveSizes(m) && TreeLike(deps) && p != [] && c != [] && Elems(p) * Elems(c) == {}
    requires DepsFirst(deps, p + c)
    requires AllTail(deps, p) && PartBound(m, deps, p) && TreeMoving(m, deps, c, us)
    requires x in c && y in p && x in deps && y in deps[x]
    ensures TreeMoving(m, deps, p + c, us + [RateOf(m, p)])
  {
    hide Total, ClosedIn, AllAtMost, RateOf, TreeLike, AllTail, Gain;
    TreeTail(deps, p, c, x, y);
    ElemsAppend(p, c);
    forall r: FeeFrac, s | r.size > 0 && AllAtMost(us + [RateOf(m, p)], [r]) && ClosedIn(deps, Elems(p + c), s) &&
    Tail(p + c) !in s
      ensures s <= m.Keys && Gain(r, Total(m, s)) <= 0
    {
      TreeParts(m, deps, p, c, us, r, s);
    }
  }

  lemma TreeEnd(m: Rates, deps: Links, c: seq<nat>, us: seq<FeeFrac>)
    requires PositiveSizes(m) && TreeMoving(m, deps, c, us) && AllAtMost(us, [RateOf(m, c)])
    ensures AllTail(deps, c) && PartBound(m, deps, c)
  {
    hide Total;
    GroupSize(m, c);
    forall s | ClosedIn(deps, Elems(c), s) ensures s <= m.Keys && Gain(RateOf(m, c), Total(m, s)) <= 0 {
      if Tail(c) in s { assert s == Elems(c); }
    }
  }

  /** Groups like that leave nothing to be gained. */
  lemma {:induction false} TreeOptimal(m: Rates, deps: Links, l: Groups, s: set<nat>, r: FeeFrac)
    requires PositiveSizes(m) && r.size > 0 && NonEmpty(m, l) && Distinct(Flat(l)) && s <= Elems(Flat(l)) && s <= m.Keys
    requires forall g :: g in l ==> PartBound(m, deps, g)
    requires forall x, y :: x in s && x in deps && y in deps[x] && y in Elems(Flat(l)) ==> y in s
    ensures Gain(r, Total(m, s)) <= Potential(GroupRates(m, l), r)
    decreases |l|
  {
    hide Total, Gain, Potential, RateOf, PositiveSizes;
    if l == [] {
      assert s == {};
      EmptyTotal(m, r);
    } else {
      var n := |l| - 1;
      var l', g := l[..n], l[n];
      assert g in l && l == l' + [g];
      FlatAppend(l', [g]);
      FlatOne(g);
      ElemsAppend(Flat(l'), g);
      var s1, s2 := s * Elems(Flat(l')), s * Elems(g);
      FlatParts(l', g);
      assert s == s1 + s2;
      assert s1 !! s2 by { forall x | x in s1 ensures x !in s2 { NotBoth(Elems(Flat(l')), Elems(g), x); } }
      GainUnion(m, r, s1, s2);
      forall h | h in l' ensures h in l { }
      TreeOptimal(m, deps, l', s1, r);
      assert ClosedIn(deps, Elems(g), s2);
      PartWithin(m, deps, g, s2, r);
      RatesAppend(m, l', [g]);
      OneRate(m, g);
      PotentialAppend(GroupRates(m, l'), [RateOf(m, g)], r);
      PotentialOne(RateOf(m, g), r);
    }
  }

  lemma EmptyTotal(m: Rates, r: FeeFrac)
    ensures Gain(r, Total(m, {})) == 0 && Potential(GroupRates(m, []), r) == 0
  {
  }

  lemma FlatParts(l: Groups, g: seq<nat>)
    requires Distinct(Flat(l) + g)
    ensures Distinct(Flat(l)) && Elems(Flat(l)) * Elems(g) == {}
  {
    var s := Flat(l) + g;
    DistinctPart(s, 0, |Flat(l)|);
    assert s[0..|Flat(l)|] == Flat(l);
    forall x | x in Elems(Flat(l)) ensures x !in Elems(g) {
      var i :| 0 <= i < |Flat(l)| && Flat(l)[i] == x;
      forall j | 0 <= j < |g| ensures g[j] != x { assert s[i] == x && s[|Flat(l)| + j] == g[j]; }
    }
  }

  lemma PartWithin(m: Rates, deps: Links, g: seq<nat>, s: set<nat>, r: FeeFrac)
    requires PositiveSizes(m) && r.size > 0 && g != [] && PartBound(m, deps, g) && ClosedIn(deps, Elems(g), s)
    ensures s <= m.Keys && Gain(r, Total(m, s)) <= Max0(Gain(r, RateOf(m, g)))
  {
    hide Total;
    GroupSize(m, g);
    TotalSizeMono(m, s, Elems(g));
    PartialSegment(Total(m, s), RateOf(m, g), r);
  }
}
