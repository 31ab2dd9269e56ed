/** Every graph has a spanning forest whose chunks are topological and none of whose top sets has a higher
    feerate than its chunk (the remark on optimal states in src/cluster_linearize.h).

    The chunks of highest feerate come from a set of highest feerate among those that contain the parents of
    their members: over that feerate it is balanced. The rest of the transactions is treated in the same way,
    and chunks of equal feerate that depend on each other are merged at the end. */
module OptimalForests {
  import opened FeeFracs
  import opened Totals
  import opened Forests
  import opened BalancedForests

  ghost function SetRate(m: Rates, s: set<nat>): FeeFrac { if s <= m.Keys then Total(m, s) else EMPTY }

  /** No top set has a higher feerate than its chunk. */
  ghost predicate NoHigher(m: Rates, v: set<nat>, deps: set<Dep>, f: Forest) {
    && ValidForest(f) && f.chunk.Keys == v && f.top.Keys <= deps
    && forall e :: e in f.top && e.0 in f.chunk ==> AtMost(SetRate(m, f.top[e]), SetRate(m, f.chunk[e.0]))
  }

  /** No chunk has a higher feerate than one it depends on. */
  ghost predicate Descending(m: Rates, deps: set<Dep>, f: Forest) {
    forall e :: e in deps && e.0 in f.chunk && e.1 in f.chunk ==>
      AtMost(SetRate(m, f.chunk[e.1]), SetRate(m, f.chunk[e.0]))
  }

  /** Over `r`, no set that contains the parents of its members gains anything. */
  ghost predicate Bounded(m: Rates, v: set<nat>, deps: set<Dep>, r: FeeFrac) {
    forall t :: t <= v && Upward(deps, t) ==> Gain(r, SetRate(m, t)) <= 0
  }

  ghost predicate ChunksBounded(m: Rates, f: Forest, r: FeeFrac) {
    forall x :: x in f.chunk ==> Gain(r, SetRate(m, f.chunk[x])) <= 0
  }

  lemma RatePositive(m: Rates, s: set<nat>)
    requires PositiveSizes(m) && s <= m.Keys && s != {}
    ensures SetRate(m, s).size > 0
  {
    TotalSize(m, s);
  }

  lemma GainIsAtMost(r: FeeFrac, a: FeeFrac)
    ensures Gain(r, a) <= 0 <==> AtMost(a, r)
    ensures Gain(r, a) >= 0 <==> AtMost(r, a)
  {
  }

  /** Gain is additive. */
  lemma RateUnion(m: Rates, r: FeeFrac, a: set<nat>, b: set<nat>)
    requires a <= m.Keys && b <= m.Keys && a * b == {}
    ensures Gain(r, SetRate(m, a + b)) == Gain(r, SetRate(m, a)) + Gain(r, SetRate(m, b))
  {
    hide Total;
    assert a !! b by { forall x | x in a ensures x !in b { assert x in b ==> x in a * b; } }
    GainUnion(m, r, a, b);
  }

  // ----- gains as weights

  ghost function GainWeights(m: Rates, r: FeeFrac): Rates { map x | x in m :: FeeFrac(Gain(r, m[x]), 1) }

  lemma {:induction false} GainWeight(m: Rates, r: FeeFrac, s: set<nat>)
    requires s <= m.Keys
    ensures s <= GainWeights(m, r).Keys && Weight(GainWeights(m, r), s) == Gain(r, SetRate(m, s))
    decreases s
  {
    hide Gain;
    var n := GainWeights(m, r);
    if s == {} {
      TotalEmpty(m);
      TotalEmpty(n);
      GainEmpty(r);
    } else {
      var x :| x in s;
      GainWeight(m, r, s - {x});
      TotalPick(m, s, x);
      TotalPick(n, s, x);
      GainAdd(r, m[x], Total(m, s - {x}));
    }
  }

  lemma GainEmpty(r: FeeFrac)
    ensures Gain(r, EMPTY) == 0
  {
  }

  // ----- the set of highest feerate

  lemma {:induction false} HighestOf(m: Rates, sets: set<set<nat>>) returns (s: set<nat>)
    requires PositiveSizes(m) && sets != {} && forall t :: t in sets ==> t <= m.Keys && t != {}
    ensures s in sets && forall t :: t in sets ==> AtMost(SetRate(m, t), SetRate(m, s))
    decreases sets
  {
    hide SetRate, PositiveSizes;
    s :| s in sets;
    var rest := sets - {s};
    forall t | t in sets ensures t == s || t in rest { }
    if rest != {} {
      var t := HighestOf(m, rest);
      HigherOfTwo(m, sets, s, t);
      if !AtMost(SetRate(m, t), SetRate(m, s)) { s := t; }
    }
  }

  lemma HigherOfTwo(m: Rates, sets: set<set<nat>>, s: set<nat>, t: set<nat>)
    requires PositiveSizes(m) && s in sets && t in sets && forall u :: u in sets ==> u <= m.Keys && u != {}
    requires forall u :: u in sets && u != s ==> AtMost(SetRate(m, u), SetRate(m, t))
    ensures AtMost(SetRate(m, t), SetRate(m, s)) ==> forall u :: u in sets ==> AtMost(SetRate(m, u), SetRate(m, s))
    ensures !AtMost(SetRate(m, t), SetRate(m, s)) ==> forall u :: u in sets ==> AtMost(SetRate(m, u), SetRate(m, t))
  {
    hide SetRate, PositiveSizes;
    if AtMost(SetRate(m, t), SetRate(m, s)) {
      forall u | u in sets ensures AtMost(SetRate(m, u), SetRate(m, s)) {
        if u != s {
          RatePositive(m, u);
          RatePositive(m, t);
          RatePositive(m, s);
          RatioTransitive(SetRate(m, u), SetRate(m, t), SetRate(m, s));
        }
      }
    }
  }

  ghost predicate Highest(m: Rates, v: set<nat>, deps: set<Dep>, s: set<nat>) {
    && s <= v && s != {} && Upward(deps, s)
    && forall t :: t <= v && t != {} && Upward(deps, t) ==> AtMost(SetRate(m, t), SetRate(m, s))
  }

  lemma HighestExists(m: Rates, v: set<nat>, deps: set<Dep>) returns (s: set<nat>)
    requires PositiveSizes(m) && v <= m.Keys && v != {} && Among(deps, v)
    ensures Highest(m, v, deps, s)
  {
    hide SetRate, PositiveSizes, AtMost;
    var sets := set t | t <= v && t != {} && Upward(deps, t);
    assert v in sets;
    s := HighestOf(m, sets);
    forall t | t <= v && t != {} && Upward(deps, t) ensures AtMost(SetRate(m, t), SetRate(m, s)) { assert t in sets; }
  }

  /** Over its own feerate, that set is balanced. */
  lemma HighestBalanced(m: Rates, v: set<nat>, deps: set<Dep>, s: set<nat>)
    requires v <= m.Keys && Among(deps, v) && Highest(m, v, deps, s)
    ensures Balanced(GainWeights(m, SetRate(m, s)), s, Within(deps, s))
  {
    hide SetRate, Gain, AtMost, Weight, GainWeights;
    var r := SetRate(m, s);
    GainWeight(m, r, s);
    GainOfItself(r);
    forall t | t <= s && Upward(Within(deps, s), t) ensures Weight(GainWeights(m, r), t) <= 0 {
      GainWeight(m, r, t);
      forall e | e in deps && e.1 in t ensures e.0 in t { assert e in Within(deps, s); }
      if t == {} { NothingGains(m, r); } else { GainIsAtMost(r, SetRate(m, t)); }
    }
  }

  lemma GainOfItself(r: FeeFrac)
    ensures Gain(r, r) == 0
  {
  }

  lemma NothingGains(m: Rates, r: FeeFrac)
    ensures Gain(r, SetRate(m, {})) == 0
  {
    TotalEmpty(m);
  }

  /** Over that feerate, nothing of the rest gains. */
  lemma RestBounded(m: Rates, v: set<nat>, deps: set<Dep>, s: set<nat>)
    requires v <= m.Keys && Among(deps, v) && Highest(m, v, deps, s)
    ensures Bounded(m, v - s, Within(deps, v - s), SetRate(m, s))
  {
    hide SetRate, Gain, AtMost;
    var r := SetRate(m, s);
    forall t | t <= v - s && Upward(Within(deps, v - s), t) ensures Gain(r, SetRate(m, t)) <= 0 {
      forall e | e in deps && e.1 in s + t ensures e.0 in s + t {
        if e.1 in t && e.0 !in s { assert e in Within(deps, v - s); }
      }
      assert Upward(deps, s + t);
      GainIsAtMost(r, SetRate(m, s + t));
      RateUnion(m, r, s, t);
      GainOfItself(r);
    }
  }

  // ----- the two parts together

  /** A forest on balanced weights has chunks of the common feerate and no higher top set. */
  lemma FeasibleNoHigher(m: Rates, s: set<nat>, deps: set<Dep>, r: FeeFrac, f: Forest)
    requires PositiveSizes(m) && s <= m.Keys && r.size > 0 && Feasible(GainWeights(m, r), s, deps, f)
    ensures NoHigher(m, s, deps, f) && forall x :: x in f.chunk ==> Gain(r, SetRate(m, f.chunk[x])) == 0
  {
    hide SetRate, Gain, AtMost, Weight, GainWeights, PositiveSizes, Connected;
    forall x | x in f.chunk ensures Gain(r, SetRate(m, f.chunk[x])) == 0 { GainWeight(m, r, f.chunk[x]); }
    forall e | e in f.top ensures e.0 in f.chunk && AtMost(SetRate(m, f.top[e]), SetRate(m, f.chunk[e.0])) {
      assert Inside(f, e) && Cut(f, e);
      var t, k := f.top[e], f.chunk[e.0];
      GainWeight(m, r, t);
      RatePositive(m, t);
      RatePositive(m, k);
      GainIsAtMost(r, SetRate(m, t));
      GainIsAtMost(r, SetRate(m, k));
      RatioTransitive(SetRate(m, t), r, SetRate(m, k));
    }
  }

  lemma BesideNoHigher(m: Rates, s: set<nat>, v: set<nat>, deps: set<Dep>, f: Forest, g: Forest)
    requires NoHigher(m, s, Within(deps, s), f) && NoHigher(m, v, Within(deps, v), g) && s !! v
    ensures NoHigher(m, s + v, deps, Beside(f, g))
  {
    hide SetRate, AtMost, Connected;
    BesideValid(f, g);
    BesideTops(f, g);
    var h := Beside(f, g);
    forall e | e in h.top && e.0 in h.chunk ensures AtMost(SetRate(m, h.top[e]), SetRate(m, h.chunk[e.0])) {
      if e in f.top { TopInside(f, e); } else { TopInside(g, e); }
    }
  }

  lemma BesideDescending(m: Rates, v: set<nat>, deps: set<Dep>, s: set<nat>, f: Forest, g: Forest)
    requires PositiveSizes(m) && v <= m.Keys && Among(deps, v) && Highest(m, v, deps, s)
    requires ValidForest(f) && f.chunk.Keys == s && ValidForest(g) && g.chunk.Keys == v - s
    requires (forall x :: x in f.chunk ==> Gain(SetRate(m, s), SetRate(m, f.chunk[x])) == 0)
    requires Descending(m, Within(deps, v - s), g) && ChunksBounded(m, g, SetRate(m, s))
    ensures Descending(m, deps, Beside(f, g))
  {
    hide SetRate, Gain, AtMost, PositiveSizes, Connected, Cut;
    var h, r := Beside(f, g), SetRate(m, s);
    RatePositive(m, s);
    forall e | e in deps && e.0 in h.chunk && e.1 in h.chunk
      ensures AtMost(SetRate(m, h.chunk[e.1]), SetRate(m, h.chunk[e.0]))
    {
      var a, b := h.chunk[e.1], h.chunk[e.0];
      assert e.1 in a && e.0 in b && a <= v && b <= v;
      RatePositive(m, a);
      RatePositive(m, b);
      GainIsAtMost(r, SetRate(m, a));
      GainIsAtMost(r, SetRate(m, b));
      if e.0 in s {
        assert b == f.chunk[e.0];
        RatioTransitive(SetRate(m, a), r, SetRate(m, b));
      } else {
        assert e.1 !in s && e in Within(deps, v - s);
      }
    }
  }

  lemma BesideBounded(m: Rates, v: set<nat>, deps: set<Dep>, s: set<nat>, f: Forest, g: Forest, r: FeeFrac)
    requires PositiveSizes(m) && v <= m.Keys && Among(deps, v) && Highest(m, v, deps, s) && r.size > 0
    requires ValidForest(f) && f.chunk.Keys == s && ValidForest(g) && g.chunk.Keys == v - s && Bounded(m, v, deps, r)
    requires (forall x :: x in f.chunk ==> Gain(SetRate(m, s), SetRate(m, f.chunk[x])) == 0)
    requires ChunksBounded(m, g, SetRate(m, s))
    ensures ChunksBounded(m, Beside(f, g), r)
  {
    hide SetRate, Gain, AtMost, PositiveSizes, Connected, Cut;
    var h, q := Beside(f, g), SetRate(m, s);
    RatePositive(m, s);
    GainIsAtMost(r, q);
    forall x | x in h.chunk ensures Gain(r, SetRate(m, h.chunk[x])) <= 0 {
      var k := h.chunk[x];
      assert x in k && k <= v;
      RatePositive(m, k);
      GainIsAtMost(q, SetRate(m, k));
      RatioTransitive(SetRate(m, k), q, r);
      GainIsAtMost(r, SetRate(m, k));
    }
  }

  /** Every graph has a forest without higher top sets, in which no chunk has a higher feerate than one it
      depends on. */
  lemma {:induction false} DescendingExists(m: Rates, v: set<nat>, deps: set<Dep>) returns (f: Forest)
    requires PositiveSizes(m) && v <= m.Keys && Among(deps, v)
    ensures NoHigher(m, v, deps, f) && Descending(m, deps, f)
    ensures forall r: FeeFrac :: r.size > 0 && Bounded(m, v, deps, r) ==> ChunksBounded(m, f, r)
    decreases |v|
  {
    hide SetRate, Gain, AtMost, PositiveSizes, ValidForest, Descending, Bounded, ChunksBounded, Weight;
    if v == {} {
      f := Singles({});
      NoTransactions(m, deps);
    } else {
      var s := HighestExists(m, v, deps);
      var r := SetRate(m, s);
      RatePositive(m, s);
      HighestBalanced(m, v, deps, s);
      var g := FeasibleExists(GainWeights(m, r), s, Within(deps, s));
      FeasibleNoHigher(m, s, Within(deps, s), r, g);
      RestBounded(m, v, deps, s);
      RestSmaller(v, s);
      var h := DescendingExists(m, v - s, Within(deps, v - s));
      assert ChunksBounded(m, h, r);
      BesideNoHigher(m, s, v - s, deps, g, h);
      assert s + (v - s) == v;
      BesideDescending(m, v, deps, s, g, h);
      f := Beside(g, h);
      forall q: FeeFrac | q.size > 0 && Bounded(m, v, deps, q) ensures ChunksBounded(m, f, q) {
        BesideBounded(m, v, deps, s, g, h, q);
      }
    }
  }

  lemma NoTransactions(m: Rates, deps: set<Dep>)
    requires Among(deps, {})
    ensures NoHigher(m, {}, deps, Singles({})) && Descending(m, deps, Singles({}))
    ensures forall r :: ChunksBounded(m, Singles({}), r)
  {
    SinglesValid({});
  }

  lemma RestSmaller(v: set<nat>, s: set<nat>)
    requires s <= v && s != {}
    ensures |v - s| < |v|
  {
    var x :| x in s;
    assert |v| == |s| + |v - s| by { assert v == s + (v - s); }
  }

  // ----- merging chunks of equal feerate

  /** Every chunk has a lower feerate than the other chunks it depends on. */
  ghost predicate StrictlyDescending(m: Rates, deps: set<Dep>, f: Forest) {
    forall e :: e in deps && e.0 in f.chunk && e.1 in f.chunk && f.chunk[e.0] != f.chunk[e.1] ==>
      Lower(SetRate(m, f.chunk[e.1]), SetRate(m, f.chunk[e.0]))
  }

  ghost predicate SameRate(a: FeeFrac, b: FeeFrac) { AtMost(a, b) && AtMost(b, a) }

  /** A union with something of the same feerate keeps the feerate. */
  lemma SameUnion(m: Rates, a: set<nat>, b: set<nat>)
    requires PositiveSizes(m) && a <= m.Keys && b <= m.Keys && a != {} && b != {} && a * b == {}
    requires SameRate(SetRate(m, a), SetRate(m, b))
    ensures SameRate(SetRate(m, a + b), SetRate(m, a)) && SameRate(SetRate(m, a + b), SetRate(m, b))
  {
    hide SetRate, Gain, AtMost, PositiveSizes;
    var x, y, z := SetRate(m, a), SetRate(m, b), SetRate(m, a + b);
    RatePositive(m, a);
    RatePositive(m, b);
    RatePositive(m, a + b);
    RateUnion(m, x, a, b);
    RateUnion(m, y, a, b);
    GainOfItself(x);
    GainOfItself(y);
    GainIsAtMost(x, y);
    GainIsAtMost(y, x);
    GainIsAtMost(x, z);
    GainIsAtMost(y, z);
  }

  /** What is not above one of two sets of the same feerate, together with the other is not above their union. */
  lemma PartWithWhole(m: Rates, t: set<nat>, a: set<nat>, b: set<nat>)
    requires PositiveSizes(m) && t <= a <= m.Keys && b <= m.Keys && t != {} && b != {} && a * b == {}
    requires AtMost(SetRate(m, t), SetRate(m, a)) && SameRate(SetRate(m, a), SetRate(m, b))
    ensures AtMost(SetRate(m, t + b), SetRate(m, a + b))
  {
    hide SetRate, Gain, AtMost, PositiveSizes;
    SameUnion(m, a, b);
    var x, y := SetRate(m, a), SetRate(m, a + b);
    RatePositive(m, a);
    RatePositive(m, b);
    RatePositive(m, t);
    RatePositive(m, t + b);
    RatePositive(m, a + b);
    assert t * b == {} by { forall z | z in t ensures z !in b { assert z in b ==> z in a * b; } }
    RateUnion(m, x, t, b);
    GainIsAtMost(x, SetRate(m, t));
    GainIsAtMost(x, SetRate(m, b));
    GainIsAtMost(x, SetRate(m, t + b));
    RatioTransitive(SetRate(m, t + b), x, y);
  }

  lemma MergedRates(m: Rates, f: Forest, p: nat, c: nat, x: nat)
    requires PositiveSizes(m) && ValidForest(f) && f.chunk.Keys <= m.Keys && p in f.chunk && c in f.chunk &&
             x in f.chunk
    requires f.chunk[p] != f.chunk[c] && SameRate(SetRate(m, f.chunk[p]), SetRate(m, f.chunk[c]))
    ensures SameRate(SetRate(m, Activated(f, p, c).chunk[x]), SetRate(m, f.chunk[x]))
    ensures SetRate(m, f.chunk[x]).size > 0 && SetRate(m, Activated(f, p, c).chunk[x]).size > 0
  {
    hide SetRate, AtMost, PositiveSizes, Connected, Cut;
    BetweenChunks(f, p, c);
    var a, b, k := f.chunk[p], f.chunk[c], f.chunk[x];
    assert p in a && c in b && x in k && k <= m.Keys;
    RatePositive(m, k);
    RatePositive(m, a + b);
    if x in a || x in b { SameUnion(m, a, b); } else { AtMostItself(SetRate(m, k)); }
  }

  lemma AtMostItself(r: FeeFrac)
    ensures AtMost(r, r)
  {
  }

  lemma MergedDescending(m: Rates, deps: set<Dep>, f: Forest, p: nat, c: nat)
    requires PositiveSizes(m) && ValidForest(f) && f.chunk.Keys <= m.Keys && p in f.chunk && c in f.chunk
    requires f.chunk[p] != f.chunk[c] && SameRate(SetRate(m, f.chunk[p]), SetRate(m, f.chunk[c])) &&
             Descending(m, deps, f)
    ensures Descending(m, deps, Activated(f, p, c))
  {
    hide SetRate, AtMost, PositiveSizes, ValidForest;
    var g := Activated(f, p, c);
    forall e | e in deps && e.0 in g.chunk && e.1 in g.chunk
      ensures AtMost(SetRate(m, g.chunk[e.1]), SetRate(m, g.chunk[e.0]))
    {
      MergedRates(m, f, p, c, e.0);
      MergedRates(m, f, p, c, e.1);
      var a, b := SetRate(m, f.chunk[e.1]), SetRate(m, f.chunk[e.0]);
      var x, y := SetRate(m, g.chunk[e.1]), SetRate(m, g.chunk[e.0]);
      hide Activated;
      RatioTransitive(x, a, b);
      RatioTransitive(x, b, y);
    }
  }

  lemma MergedNoHigher(m: Rates, v: set<nat>, deps: set<Dep>, f: Forest, e: Dep)
    requires PositiveSizes(m) && v <= m.Keys && NoHigher(m, v, deps, f) && e in deps && e.0 in v && e.1 in v
    requires f.chunk[e.0] != f.chunk[e.1] && SameRate(SetRate(m, f.chunk[e.0]), SetRate(m, f.chunk[e.1]))
    ensures NoHigher(m, v, deps, Activated(f, e.0, e.1))
  {
    hide SetRate, AtMost, PositiveSizes, ValidForest;
    var g := Activated(f, e.0, e.1);
    ActivatedValid(f, e.0, e.1);
    forall d | d in g.top && d.0 in g.chunk ensures AtMost(SetRate(m, g.top[d]), SetRate(m, g.chunk[d.0])) {
      MergedTop(m, v, deps, f, e, d);
    }
  }

  lemma MergedTop(m: Rates, v: set<nat>, deps: set<Dep>, f: Forest, e: Dep, d: Dep)
    requires PositiveSizes(m) && v <= m.Keys && NoHigher(m, v, deps, f) && e in deps && e.0 in v && e.1 in v
    requires f.chunk[e.0] != f.chunk[e.1] && SameRate(SetRate(m, f.chunk[e.0]), SetRate(m, f.chunk[e.1]))
    requires d in Activated(f, e.0, e.1).top && d.0 in v
    ensures var g := Activated(f, e.0, e.1); AtMost(SetRate(m, g.top[d]), SetRate(m, g.chunk[d.0]))
  {
    hide SetRate, AtMost, PositiveSizes, Connected;
    BetweenChunks(f, e.0, e.1);
    var a, b := f.chunk[e.0], f.chunk[e.1];
    assert e.0 in a && e.1 in b;
    if d == e {
      SameUnion(m, a, b);
    } else {
      var t := f.top[d];
      assert Inside(f, d) && Cut(f, d) && AtMost(SetRate(m, t), SetRate(m, f.chunk[d.0]));
      if e.0 in t {
        assert f.chunk[d.0] == a;
        PartWithWhole(m, t, a, b);
      } else if e.1 in t {
        assert f.chunk[d.0] == b && b + a == a + b;
        PartWithWhole(m, t, b, a);
      } else {
        MergedRates(m, f, e.0, e.1, d.0);
        RatePositive(m, t);
        RatioTransitive(SetRate(m, t), SetRate(m, f.chunk[d.0]), SetRate(m, Activated(f, e.0, e.1).chunk[d.0]));
      }
    }
  }

  lemma {:induction false} MergeEquals(m: Rates, v: set<nat>, deps: set<Dep>, f: Forest) returns (g: Forest)
    requires PositiveSizes(m) && v <= m.Keys && Among(deps, v) && NoHigher(m, v, deps, f) && Descending(m, deps, f)
    ensures NoHigher(m, v, deps, g) && StrictlyDescending(m, deps, g)
    decreases deps - f.top.Keys
  {
    hide SetRate, AtMost, Lower, PositiveSizes, ValidForest, NoHigher;
    ForestShape(m, v, deps, f);
    if e :| e in deps && f.chunk[e.0] != f.chunk[e.1] && !Lower(SetRate(m, f.chunk[e.1]), SetRate(m, f.chunk[e.0])) {
      NotLowerIsSame(SetRate(m, f.chunk[e.1]), SetRate(m, f.chunk[e.0]));
      BetweenChunks(f, e.0, e.1);
      MergedDescending(m, deps, f, e.0, e.1);
      MergedNoHigher(m, v, deps, f, e);
      assert e in deps - f.top.Keys;
      assert Activated(f, e.0, e.1).top.Keys == f.top.Keys + {e};
      g := MergeEquals(m, v, deps, Activated(f, e.0, e.1));
    } else {
      g := f;
    }
  }

  lemma ForestShape(m: Rates, v: set<nat>, deps: set<Dep>, f: Forest)
    requires NoHigher(m, v, deps, f)
    ensures ValidForest(f) && f.chunk.Keys == v && f.top.Keys <= deps
  {
  }

  lemma NotLowerIsSame(a: FeeFrac, b: FeeFrac)
    requires AtMost(a, b) && !Lower(a, b)
    ensures SameRate(b, a)
  {
  }

  /** Every graph has a topological forest without higher top sets. */
  lemma OptimalExists(m: Rates, v: set<nat>, deps: set<Dep>) returns (f: Forest)
    requires PositiveSizes(m) && v <= m.Keys && Among(deps, v)
    ensures NoHigher(m, v, deps, f) && StrictlyDescending(m, deps, f)
  {
    hide NoHigher, Descending, StrictlyDescending, PositiveSizes;
    f := DescendingExists(m, v, deps);
    f := MergeEquals(m, v, deps, f);
  }
}
