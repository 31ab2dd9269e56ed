/** Aggregate fee and size of a set of transactions (`DepGraph::FeeRate(const SetType&)`). */
module Totals {
  import opened FeeFracs

  type Rates = map<nat, FeeFrac>

  ghost predicate PositiveSizes(m: Rates) {
    forall x :: x in m ==> m[x].size > 0
  }

  ghost function Pick(s: set<nat>): (x: nat)
    requires s != {}
    ensures x in s
  {
    var x :| x in s; x
  }

  ghost function Total(m: Rates, s: set<nat>): FeeFrac
    requires s <= m.Keys
  {
    if s == {} then EMPTY else Add(m[Pick(s)], Total(m, s - {Pick(s)}))
  }

  lemma TotalEmpty(m: Rates)
    ensures Total(m, {}) == EMPTY
  {
  }

  /** The sum does not depend on the order in which elements are taken. */
  lemma {:induction false} TotalPick(m: Rates, s: set<nat>, x: nat)
    requires s <= m.Keys && x in s
    ensures Total(m, s) == Add(m[x], Total(m, s - {x}))
    decreases s
  {
    var y := Pick(s);
    if y != x {
      TotalPick(m, s - {y}, x);
      TotalPick(m, s - {x}, y);
      assert s - {y} - {x} == s - {x} - {y};
    }
  }

  lemma {:induction false} TotalUnion(m: Rates, a: set<nat>, b: set<nat>)
    requires a <= m.Keys && b <= m.Keys && a * b == {}
    ensures Total(m, a + b) == Add(Total(m, a), Total(m, b))
    decreases a
  {
    hide Total;
    var s := a + b;
    TotalEmpty(m);
    if a == {} {
      assert s == b;
    } else {
      var x :| x in a;
      var a' := a - {x};
      TotalUnion(m, a', b);
      assert s - {x} == a' + b;
      TotalPick(m, s, x);
      TotalPick(m, a, x);
    }
  }

  lemma TotalMinus(m: Rates, a: set<nat>, b: set<nat>)
    requires b <= a <= m.Keys
    ensures Total(m, a - b) == Sub(Total(m, a), Total(m, b))
  {
    var c := a - b;
    assert c * b == {};
    assert c + b == a;
    TotalUnion(m, c, b);
  }

  lemma TotalSingleton(m: Rates, x: nat)
    requires x in m
    ensures Total(m, {x}) == m[x]
  {
    TotalPick(m, {x}, x);
    assert {x} - {x} == {};
  }

  lemma {:induction false} TotalSize(m: Rates, s: set<nat>)
    requires s <= m.Keys && PositiveSizes(m)
    ensures Total(m, s).size >= 0
    ensures s != {} ==> Total(m, s).size > 0
    decreases s
  {
    if s != {} {
      var x :| x in s;
      TotalPick(m, s, x);
      TotalSize(m, s - {x});
    }
  }

  lemma TotalSizeMono(m: Rates, a: set<nat>, b: set<nat>)
    requires a <= b <= m.Keys && PositiveSizes(m)
    ensures 0 <= Total(m, a).size <= Total(m, b).size
    ensures a != b ==> Total(m, a).size < Total(m, b).size
  {
    TotalUnion(m, a, b - a);
    assert a + (b - a) == b;
    TotalSize(m, a);
    TotalSize(m, b - a);
    if a != b { assert b - a != {}; }
  }

  /** Gain is additive over disjoint sets. */
  lemma GainUnion(m: Rates, r: FeeFrac, a: set<nat>, b: set<nat>)
    requires a <= m.Keys && b <= m.Keys && a !! b
    ensures Gain(r, Total(m, a + b)) == Gain(r, Total(m, a)) + Gain(r, Total(m, b))
  {
    TotalUnion(m, a, b);
    GainAdd(r, Total(m, a), Total(m, b));
  }
}
