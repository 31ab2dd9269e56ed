/** The group lists of `PostLinearize` (src/cluster_linearize.h).

    A pass builds a list of groups.  Each transaction is appended as a group of its own, which then
    moves towards the front while it has a higher feerate than the group before it: past a group it
    does not depend on, and otherwise merging with it.  `deps` gives the ancestors of a transaction
    in a forward pass and its descendants in a backward pass, where fees are negated as well. */
module PostGroups {
  import opened FeeFracs
  import opened Totals
  import opened Diagrams
  import opened Families
  import opened LinearOrders

  type Groups = seq<seq<nat>>

  ghost function RateOf(m: Rates, g: seq<nat>): FeeFrac { if Elems(g) <= m.Keys then Total(m, Elems(g)) else EMPTY }

  ghost function GroupRates(m: Rates, l: Groups): seq<FeeFrac> { seq(|l|, i requires 0 <= i < |l| => RateOf(m, l[i])) }

  ghost predicate NonEmpty(m: Rates, l: Groups) {
    forall g :: g in l ==> g != [] && Elems(g) <= m.Keys
  }

  ghost predicate Distinct(s: seq<nat>) { forall a, b :: 0 <= a < b < |s| ==> s[a] != s[b] }

  /** No transaction comes before one of its dependencies. */
  ghost predicate DepsFirst(deps: Links, s: seq<nat>) {
    forall a, b :: 0 <= a < b < |s| && s[a] in deps ==> s[b] !in deps[s[a]]
  }

  ghost predicate InDepOrder(deps: Links, s: seq<nat>) { Distinct(s) && DepsFirst(deps, s) }

  lemma {:induction false} FlatAppend(a: Groups, b: Groups)
    ensures Flat(a + b) == Flat(a) + Flat(b)
    decreases |b|
  {
    if b == [] {
      assert a + b == a;
    } else {
      var n := |b| - 1;
      assert (a + b)[..|a + b| - 1] == a + b[..n];
      FlatAppend(a, b[..n]);
    }
  }

  lemma FlatOne(g: seq<nat>)
    ensures Flat([g]) == g
  {
    assert [g][..0] == [];
    assert Flat([]) == [];
  }

  lemma FlatTwo(g: seq<nat>, h: seq<nat>)
    ensures Flat([g, h]) == g + h
  {
    assert [g, h] == [g] + [h];
    FlatAppend([g], [h]);
    FlatOne(g);
    FlatOne(h);
  }

  lemma ElemsAppend(s: seq<nat>, t: seq<nat>)
    ensures Elems(s + t) == Elems(s) + Elems(t)
  {
  }

  lemma RatesAppend(m: Rates, a: Groups, b: Groups)
    ensures GroupRates(m, a + b) == GroupRates(m, a) + GroupRates(m, b)
  {
  }

  lemma GroupSize(m: Rates, g: seq<nat>)
    requires PositiveSizes(m) && g != [] && Elems(g) <= m.Keys
    ensures RateOf(m, g) == Total(m, Elems(g)) && RateOf(m, g).size > 0
  {
    assert g[0] in Elems(g);
    TotalSize(m, Elems(g));
  }

  // ----- keeping the order

  /** Two neighbouring stretches can be swapped when the second does not depend on the first. */
  lemma SwapOrder(deps: Links, a: seq<nat>, p: seq<nat>, c: seq<nat>, b: seq<nat>)
    requires InDepOrder(deps, a + p + c + b)
    requires forall x, y :: x in p && y in c && y in deps ==> x !in deps[y]
    ensures InDepOrder(deps, a + c + p + b)
  {
    var s, t := a + p + c + b, a + c + p + b;
    forall i, j | 0 <= i < j < |t| ensures t[i] != t[j] && (t[i] in deps ==> t[j] !in deps[t[i]]) {
      var i', j' := Back(|a|, |p|, |c|, i), Back(|a|, |p|, |c|, j);
      assert t[i] == s[i'] && t[j] == s[j'];
      if |a| <= i < |a| + |c| && |a| + |c| <= j < |a| + |c| + |p| {
        assert t[i] == c[i - |a|] && t[j] == p[j - |a| - |c|];
        assert t[i] in c && t[j] in p;
      }
    }
  }

  /** Where position `i` was before the swap. */
  function Back(a: nat, p: nat, c: nat, i: nat): nat {
    if i < a || i >= a + p + c then i
    else if i < a + c then i + p
    else i - c
  }

  lemma OrderAppend(deps: Links, s: seq<nat>, x: nat)
    requires InDepOrder(deps, s) && x !in s && forall y :: y in s && y in deps ==> x !in deps[y]
    ensures InDepOrder(deps, s + [x])
  {
  }

  // ----- the cycle of merging and swapping

  ghost predicate AllAtMost(us: seq<FeeFrac>, rs: seq<FeeFrac>) {
    forall i, j :: 0 <= i < |us| && 0 <= j < |rs| ==> AtMost(us[i], rs[j])
  }

  /** The group `c` on its way, between the groups `a` and `b` that were in the list `l` before it
      came, having absorbed groups of feerates `us`. */
  ghost predicate Moving(m: Rates, deps: Links, l: Groups, a: Groups, c: seq<nat>, b: Groups, us: seq<FeeFrac>) {
    && PositiveSizes(m) && NonEmpty(m, a + [c] + b) && InDepOrder(deps, Flat(a + [c] + b))
    && Sorted(GroupRates(m, a) + GroupRates(m, b)) && AllAtMost(GroupRates(m, b), [RateOf(m, c)])
    && Sizes(us) && Dominates(RateOf(m, c), us) && AllAtMost(us, GroupRates(m, a)) && AllAtMost(us, [RateOf(m, c)])
    && (forall r: FeeFrac {:trigger Potential(GroupRates(m, l), r)} ::
          Potential(GroupRates(m, l), r) == Potential(GroupRates(m, a) + GroupRates(m, b), r) + Potential(us, r))
  }

  lemma StartMoving(m: Rates, deps: Links, l: Groups, x: nat)
    requires PositiveSizes(m) && x in m && NonEmpty(m, l) && Sorted(GroupRates(m, l)) && InDepOrder(deps, Flat(l) + [x])
    ensures Moving(m, deps, l, l, [x], [], [])
  {
    hide Total, Potential, RateOf, Dominates, AtMost, InDepOrder;
    FlatAppend(l, [[x]]);
    FlatOne([x]);
    assert l + [[x]] + [] == l + [[x]];
    assert GroupRates(m, l) + GroupRates(m, []) == GroupRates(m, l);
    DominatesNothing(RateOf(m, [x]));
    forall r: FeeFrac ensures Potential([], r) == 0 { PotentialNil(r); }
    forall g | g in l + [[x]] + [] ensures g != [] && Elems(g) <= m.Keys { }
  }

  lemma SplitLast(m: Rates, a: Groups, p: seq<nat>, b: Groups)
    ensures GroupRates(m, a + [p]) + GroupRates(m, b) == GroupRates(m, a) + [RateOf(m, p)] + GroupRates(m, b)
    ensures GroupRates(m, a) + GroupRates(m, [p] + b) == GroupRates(m, a) + [RateOf(m, p)] + GroupRates(m, b)
  {
    RatesAppend(m, a, [p]);
    RatesAppend(m, [p], b);
    assert GroupRates(m, [p]) == [RateOf(m, p)];
  }

  lemma FlatMiddle(a: Groups, p: seq<nat>, c: seq<nat>, b: Groups)
    ensures Flat(a + [p] + [c] + b) == Flat(a) + p + c + Flat(b)
    ensures Flat(a + [c] + ([p] + b)) == Flat(a) + c + p + Flat(b)
    ensures Flat(a + [p + c] + b) == Flat(a) + (p + c) + Flat(b)
  {
    assert a + [p] + [c] + b == a + ([p, c] + b) && a + [c] + ([p] + b) == a + ([c, p] + b);
    FlatAppend(a, [p, c] + b);
    FlatAppend([p, c], b);
    FlatAppend(a, [c, p] + b);
    FlatAppend([c, p], b);
    FlatTwo(p, c);
    FlatTwo(c, p);
    assert a + [p + c] + b == a + ([p + c] + b);
    FlatAppend(a, [p + c] + b);
    FlatAppend([p + c], b);
    FlatOne(p + c);
  }

  /** Moving past a group it does not depend on. */
  lemma SwapStep(m: Rates, deps: Links, l: Groups, a: Groups, p: seq<nat>, c: seq<nat>, b: Groups, us: seq<FeeFrac>)
    requires Moving(m, deps, l, a + [p], c, b, us) && Lower(RateOf(m, p), RateOf(m, c))
    requires forall x, y :: x in p && y in c && y in deps ==> x !in deps[y]
    ensures Moving(m, deps, l, a, c, [p] + b, us)
  {
    hide RateOf, Potential, Dominates, Flat, InDepOrder, Sizes, Sorted;
    SplitLast(m, a, p, b);
    FlatMiddle(a, p, c, b);
    SwapOrder(deps, Flat(a), p, c, Flat(b));
    assert NonEmpty(m, a + [c] + ([p] + b)) by {
      forall g | g in a + [c] + ([p] + b) ensures g in a + [p] + [c] + b { }
    }
    RatesAppend(m, [p], b);
    RatesAppend(m, a, [p]);
    assert GroupRates(m, [p]) == [RateOf(m, p)];
    AtMostParts(us, GroupRates(m, a), RateOf(m, p));
    AtMostJoin(RateOf(m, p), GroupRates(m, b), RateOf(m, c));
  }

  lemma AtMostParts(us: seq<FeeFrac>, rs: seq<FeeFrac>, r: FeeFrac)
    requires AllAtMost(us, rs + [r])
    ensures AllAtMost(us, rs) && AllAtMost(us, [r])
  {
    forall i, j | 0 <= i < |us| && 0 <= j < |rs| ensures AtMost(us[i], rs[j]) { assert (rs + [r])[j] == rs[j]; }
    forall i | 0 <= i < |us| ensures AtMost(us[i], r) { assert (rs + [r])[|rs|] == r; }
  }

  lemma AtMostJoin(r: FeeFrac, rs: seq<FeeFrac>, c: FeeFrac)
    requires Lower(r, c) && AllAtMost(rs, [c])
    ensures AllAtMost([r] + rs, [c])
  {
    forall i | 0 <= i < |[r] + rs| ensures AtMost(([r] + rs)[i], c) {
      if i > 0 { assert AtMost(rs[i - 1], [c][0]); }
    }
  }

  lemma MiddlePotential(x: seq<FeeFrac>, r: FeeFrac, y: seq<FeeFrac>, t: FeeFrac)
    ensures Potential(x + [r] + y, t) == Potential(x + y, t) + Max0(Gain(t, r))
  {
    PotentialAppend(x + [r], y, t);
    PotentialAppend(x, [r], t);
    PotentialAppend(x, y, t);
    PotentialOne(r, t);
  }

  lemma SortedWithout(x: seq<FeeFrac>, r: FeeFrac, y: seq<FeeFrac>)
    requires Sorted(x + [r] + y)
    ensures Sorted(x + y) && AllAtMost([r], x) && AllAtMost(y, [r])
  {
    var s, t := x + [r] + y, x + y;
    forall i, j | 0 <= i < j < |t| ensures AtMost(t[j], t[i]) {
      assert t[i] == s[if i < |x| then i else i + 1] && t[j] == s[if j < |x| then j else j + 1];
    }
    forall j | 0 <= j < |x| ensures AtMost(r, x[j]) { assert s[j] == x[j] && s[|x|] == r; }
    forall j | 0 <= j < |y| ensures AtMost(y[j], r) { assert s[|x| + 1 + j] == y[j] && s[|x|] == r; }
  }

  lemma AtMostVia(us: seq<FeeFrac>, p: FeeFrac, c: FeeFrac)
    requires Sizes(us) && p.size > 0 && c.size > 0 && AllAtMost(us, [p]) && AtMost(p, c)
    ensures AllAtMost(us, [c])
  {
    forall i | 0 <= i < |us| ensures AtMost(us[i], c) {
      assert AtMost(us[i], [p][0]);
      RatioTransitive(us[i], p, c);
    }
  }

  lemma RatesPositive(m: Rates, l: Groups)
    requires PositiveSizes(m) && NonEmpty(m, l)
    ensures Sizes(GroupRates(m, l))
  {
    hide Total, RateOf;
    var rs := GroupRates(m, l);
    forall i | 0 <= i < |rs| ensures rs[i].size > 0 {
      assert l[i] in l;
      GroupSize(m, l[i]);
    }
  }

  lemma MergedRate(m: Rates, deps: Links, a: Groups, p: seq<nat>, c: seq<nat>, b: Groups)
    requires PositiveSizes(m) && NonEmpty(m, a + [p] + [c] + b) && InDepOrder(deps, Flat(a + [p] + [c] + b))
    ensures NonEmpty(m, a + [p + c] + b) && RateOf(m, p + c) == Add(RateOf(m, c), RateOf(m, p))
    ensures RateOf(m, p).size > 0 && RateOf(m, c).size > 0
    ensures Elems(p) * Elems(c) == {}
  {
    hide Total, Flat;
    var l := a + [p] + [c] + b;
    assert l[|a|] == p && l[|a| + 1] == c;
    assert p in l && c in l;
    GroupSize(m, p);
    GroupSize(m, c);
    FlatMiddle(a, p, c, b);
    var s := Flat(a) + p + c + Flat(b);
    forall x | x in Elems(p) ensures x !in Elems(c) {
      var i :| 0 <= i < |p| && p[i] == x;
      forall j | 0 <= j < |c| ensures c[j] != x { assert s[|Flat(a)| + i] == x && s[|Flat(a)| + |p| + j] == c[j]; }
    }
    ElemsAppend(p, c);
    TotalUnion(m, Elems(p), Elems(c));
    AddCommutes(Total(m, Elems(p)), Total(m, Elems(c)));
    forall g | g in a + [p + c] + b ensures g != [] && Elems(g) <= m.Keys {
      if g in a || g in b { assert g in l; }
    }
  }

  /** Merging with a group it depends on. */
  lemma MergeStep(m: Rates, deps: Links, l: Groups, a: Groups, p: seq<nat>, c: seq<nat>, b: Groups, us: seq<FeeFrac>)
    requires Moving(m, deps, l, a + [p], c, b, us) && Lower(RateOf(m, p), RateOf(m, c))
    ensures Moving(m, deps, l, a, p + c, b, us + [RateOf(m, p)])
  {
    hide RateOf, Potential, Dominates, Flat, InDepOrder, GroupRates, Sorted, PositiveSizes;
    var ra, rb, rp, rc := GroupRates(m, a), GroupRates(m, b), RateOf(m, p), RateOf(m, c);
    MergedRate(m, deps, a, p, c, b);
    FlatMiddle(a, p, c, b);
    SplitLast(m, a, p, b);
    RatesAppend(m, a, [p]);
    OneRate(m, p);
    SortedWithout(ra, rp, rb);
    AtMostParts(us, ra, rp);
    PartsNonEmpty(m, a, p + c, b);
    RatesPositive(m, b);
    Mediant(rp, rc);
    AddCommutes(rp, rc);
    AtMostVia(rb, rp, Add(rc, rp));
    AtMostVia(us, rp, Add(rc, rp));
    forall i | 0 <= i < |us| ensures AtMost(us[i], rp) { assert AtMost(us[i], [rp][0]); }
    AbsorbUp(rc, us, rp);
    AtMostUnion(us, rp, ra);
    AtMostUnion(us, rp, [Add(rc, rp)]);
    forall r: FeeFrac ensures Potential(GroupRates(m, l), r) == Potential(ra + rb, r) + Potential(us + [rp], r) {
      MiddlePotential(ra, rp, rb, r);
      PotentialAppend(us, [rp], r);
      PotentialOne(rp, r);
    }
    assert Flat(a) + (p + c) + Flat(b) == Flat(a) + p + c + Flat(b);
  }

  lemma OneRate(m: Rates, p: seq<nat>)
    ensures GroupRates(m, [p]) == [RateOf(m, p)]
  {
  }

  lemma PartsNonEmpty(m: Rates, a: Groups, c: seq<nat>, b: Groups)
    requires NonEmpty(m, a + [c] + b)
    ensures NonEmpty(m, a) && NonEmpty(m, b) && c != [] && Elems(c) <= m.Keys
  {
    forall g | g in a || g in b || g == c ensures g in a + [c] + b { }
    assert (a + [c] + b)[|a|] == c;
    assert c in a + [c] + b;
  }

  lemma AtMostUnion(us: seq<FeeFrac>, p: FeeFrac, rs: seq<FeeFrac>)
    requires AllAtMost(us, rs) && AllAtMost([p], rs)
    ensures AllAtMost(us + [p], rs)
  {
    forall i, j | 0 <= i < |us + [p]| && 0 <= j < |rs| ensures AtMost((us + [p])[i], rs[j]) {
      if i == |us| { assert AtMost([p][0], rs[j]); }
    }
  }

  /** Once no lower-feerate group is before it, the list is sorted again and lost nothing. */
  lemma EndMoving(m: Rates, deps: Links, l: Groups, a: Groups, c: seq<nat>, b: Groups, us: seq<FeeFrac>)
    requires Moving(m, deps, l, a, c, b, us)
    requires a == [] || !Lower(RateOf(m, a[|a| - 1]), RateOf(m, c))
    ensures Sorted(GroupRates(m, a + [c] + b))
    ensures forall r: FeeFrac {:trigger Potential(GroupRates(m, l), r)} :: r.size > 0 ==>
      Potential(GroupRates(m, l), r) <= Potential(GroupRates(m, a + [c] + b), r)
  {
    hide RateOf, Potential, Flat, InDepOrder, PositiveSizes, Gain;
    var ra, rb, rc := GroupRates(m, a), GroupRates(m, b), RateOf(m, c);
    SplitLast(m, a, c, b);
    RatesAppend(m, a + [c], b);
    assert GroupRates(m, a + [c] + b) == ra + [rc] + rb;
    PartsNonEmpty(m, a, c, b);
    RatesPositive(m, a);
    GroupSizeAt(m, c);
    var all := ra + [rc] + rb;
    forall i, j | 0 <= i < j < |all| ensures AtMost(all[j], all[i]) { SortedWith(ra, rc, rb, i, j); }
    forall r: FeeFrac | r.size > 0 ensures Potential(GroupRates(m, l), r) <= Potential(all, r) {
      MiddlePotential(ra, rc, rb, r);
      assert Potential(us, r) <= Max0(Gain(r, rc));
    }
  }

  lemma GroupSizeAt(m: Rates, c: seq<nat>)
    requires PositiveSizes(m) && c != [] && Elems(c) <= m.Keys
    ensures RateOf(m, c).size > 0
  {
    GroupSize(m, c);
  }

  lemma SortedWith(x: seq<FeeFrac>, r: FeeFrac, y: seq<FeeFrac>, i: nat, j: nat)
    requires Sizes(x) && r.size > 0 && Sorted(x + y) && AllAtMost(y, [r]) && (x == [] || AtMost(r, x[|x| - 1]))
    requires i < j < |x| + 1 + |y|
    ensures AtMost((x + [r] + y)[j], (x + [r] + y)[i])
  {
    var s, t := x + [r] + y, x + y;
    if i != |x| && j != |x| {
      assert s[i] == t[if i < |x| then i else i - 1] && s[j] == t[if j < |x| then j else j - 1];
    } else if i == |x| {
      assert s[j] == y[j - |x| - 1];
      assert AtMost(y[j - |x| - 1], [r][0]);
    } else {
      assert s[i] == x[i] && s[j] == r;
      if i < |x| - 1 {
        assert t[i] == x[i] && t[|x| - 1] == x[|x| - 1];
        RatioTransitive(r, x[|x| - 1], x[i]);
      }
    }
  }
}
