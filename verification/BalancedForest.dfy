/** Spanning forests for balanced weights.

    Transactions have weights, here as fees. If no set that contains the parents of its members has a positive
    weight, and all together weigh nothing, then there is a spanning forest of the dependencies whose chunks
    weigh nothing and whose top sets are not positive.

    The proof takes a dependency away. If that makes no set positive, it is not needed. Otherwise the heaviest
    set that it held back and the rest of the transactions are balanced once that weight is moved along the
    dependency, which then connects the forests of both. */
module BalancedForests {
  import opened FeeFracs
  import opened Totals
  import opened Forests

  ghost function Weight(m: Rates, s: set<nat>): int { if s <= m.Keys then Total(m, s).fee else 0 }

  /** `s` contains the parents of its members. */
  ghost predicate Upward(deps: set<Dep>, s: set<nat>) {
    forall e :: e in deps && e.1 in s ==> e.0 in s
  }

  ghost predicate Among(deps: set<Dep>, v: set<nat>) {
    forall e :: e in deps ==> e.0 in v && e.1 in v && e.0 != e.1
  }

  ghost predicate Balanced(m: Rates, v: set<nat>, deps: set<Dep>) {
    && v <= m.Keys && Among(deps, v) && Weight(m, v) == 0
    && forall s :: s <= v && Upward(deps, s) ==> Weight(m, s) <= 0
  }

  /** A forest on `v` whose chunks weigh nothing and whose top sets are not positive. */
  ghost predicate Feasible(m: Rates, v: set<nat>, deps: set<Dep>, f: Forest) {
    && ValidForest(f) && f.chunk.Keys == v && f.top.Keys <= deps
    && (forall x :: x in f.chunk ==> Weight(m, f.chunk[x]) == 0)
    && (forall e :: e in f.top ==> Weight(m, f.top[e]) <= 0)
  }

  // ----- weights

  lemma WeightUnion(m: Rates, a: set<nat>, b: set<nat>)
    requires a <= m.Keys && b <= m.Keys && a * b == {}
    ensures Weight(m, a + b) == Weight(m, a) + Weight(m, b)
  {
    hide Total;
    TotalUnion(m, a, b);
  }

  ghost function Raised(m: Rates, x: nat, w: int): Rates
    requires x in m
  {
    m[x := FeeFrac(m[x].fee + w, m[x].size)]
  }

  lemma {:induction false} RaisedWeight(m: Rates, x: nat, w: int, s: set<nat>)
    requires x in m && s <= m.Keys
    ensures Weight(Raised(m, x, w), s) == Weight(m, s) + if x in s then w else 0
    decreases s
  {
    var n := Raised(m, x, w);
    if s == {} {
      TotalEmpty(m);
      TotalEmpty(n);
    } else {
      var y :| y in s;
      TotalPick(m, s, y);
      TotalPick(n, s, y);
      RaisedWeight(m, x, w, s - {y});
    }
  }

  /** The weight `w` moved from the child of a dependency to its parent. */
  ghost function Shifted(m: Rates, e: Dep, w: int): Rates
    requires e.0 in m && e.1 in m
  {
    Raised(Raised(m, e.0, w), e.1, -w)
  }

  lemma ShiftedWeight(m: Rates, e: Dep, w: int, s: set<nat>)
    requires e.0 in m && e.1 in m && s <= m.Keys
    ensures Shifted(m, e, w).Keys == m.Keys
    ensures Weight(Shifted(m, e, w), s) == Weight(m, s) + (if e.0 in s then w else 0) - (if e.1 in s then w else 0)
  {
    RaisedWeight(m, e.0, w, s);
    RaisedWeight(Raised(m, e.0, w), e.1, -w, s);
  }

  // ----- without dependencies

  ghost function Singles(v: set<nat>): Forest { Forest(map x | x in v :: {x}, map[]) }

  lemma SinglesValid(v: set<nat>)
    ensures ValidForest(Singles(v))
  {
    var f := Singles(v);
    forall x | x in f.chunk ensures Connected(f.chunk[x], f.top.Keys) {
      forall s: set<nat> | s <= {x} && s != {} ensures s == {x} {
        var y :| y in s;
      }
    }
  }

  lemma SinglesFeasible(m: Rates, v: set<nat>)
    requires Balanced(m, v, {})
    ensures Feasible(m, v, {}, Singles(v))
  {
    hide Weight;
    SinglesValid(v);
    forall x | x in v ensures Weight(m, {x}) == 0 {
      assert Upward({}, {x}) && Upward({}, v - {x});
      assert {x} + (v - {x}) == v;
      WeightUnion(m, {x}, v - {x});
    }
  }

  // ----- what a dependency holds back

  /** Sets that contain the parents of their members but for the dependency `e`. */
  ghost predicate HeldBack(v: set<nat>, deps: set<Dep>, e: Dep, u: set<nat>) {
    u <= v && Upward(deps - {e}, u) && e.1 in u && e.0 !in u
  }

  lemma {:induction false} Heaviest(m: Rates, sets: set<set<nat>>) returns (u: set<nat>)
    requires sets != {}
    ensures u in sets && forall s :: s in sets ==> Weight(m, s) <= Weight(m, u)
    decreases sets
  {
    hide Weight;
    u :| u in sets;
    var rest := sets - {u};
    forall t | t in sets ensures t == u || t in rest { }
    if rest != {} {
      var t := Heaviest(m, rest);
      if Weight(m, u) < Weight(m, t) { u := t; }
    }
  }

  lemma HeaviestHeldBack(m: Rates, v: set<nat>, deps: set<Dep>, e: Dep, t: set<nat>) returns (u: set<nat>)
    requires HeldBack(v, deps, e, t)
    ensures HeldBack(v, deps, e, u) && Weight(m, t) <= Weight(m, u)
    ensures forall s :: HeldBack(v, deps, e, s) ==> Weight(m, s) <= Weight(m, u)
  {
    hide Weight;
    var sets := set s | s <= v && HeldBack(v, deps, e, s);
    assert t in sets;
    u := Heaviest(m, sets);
    forall s | HeldBack(v, deps, e, s) ensures Weight(m, s) <= Weight(m, u) { assert s in sets; }
  }

  /** A dependency that holds nothing back can go. */
  lemma NotNeeded(m: Rates, v: set<nat>, deps: set<Dep>, e: Dep)
    requires Balanced(m, v, deps) && e in deps && forall u :: HeldBack(v, deps, e, u) ==> Weight(m, u) < 0
    ensures Balanced(m, v, deps - {e})
  {
    hide Weight;
    forall s | s <= v && Upward(deps - {e}, s) ensures Weight(m, s) <= 0 {
      if HeldBack(v, deps, e, s) { } else { UpwardAgain(deps, e, s); }
    }
  }

  lemma UpwardAgain(deps: set<Dep>, e: Dep, s: set<nat>)
    requires Upward(deps - {e}, s) && (e.1 in s ==> e.0 in s)
    ensures Upward(deps, s)
  {
    forall d | d in deps && d.1 in s ensures d.0 in s { assert d != e ==> d in deps - {e}; }
  }

  ghost function Within(deps: set<Dep>, v: set<nat>): set<Dep> { set e | e in deps && e.0 in v && e.1 in v }

  /** The heaviest set held back is balanced after the shift. */
  lemma HeldBackBalanced(m: Rates, v: set<nat>, deps: set<Dep>, e: Dep, u: set<nat>)
    requires Balanced(m, v, deps) && e in deps && HeldBack(v, deps, e, u)
    requires forall s :: HeldBack(v, deps, e, s) ==> Weight(m, s) <= Weight(m, u)
    ensures Balanced(Shifted(m, e, Weight(m, u)), u, Within(deps, u))
  {
    hide Weight, Shifted;
    var w := Weight(m, u);
    ShiftedWeight(m, e, w, u);
    forall s | s <= u && Upward(Within(deps, u), s) ensures Weight(Shifted(m, e, w), s) <= 0 {
      ShiftedWeight(m, e, w, s);
      PartUpward(v, deps, e, u, s);
      if e.1 in s { assert HeldBack(v, deps, e, s); } else { UpwardAgain(deps, e, s); }
    }
  }

  lemma PartUpward(v: set<nat>, deps: set<Dep>, e: Dep, u: set<nat>, s: set<nat>)
    requires HeldBack(v, deps, e, u) && s <= u && Upward(Within(deps, u), s)
    ensures Upward(deps - {e}, s)
  {
    forall d | d in deps - {e} && d.1 in s ensures d.0 in s { assert d in Within(deps, u); }
  }

  /** So is the rest. */
  lemma RestBalanced(m: Rates, v: set<nat>, deps: set<Dep>, e: Dep, u: set<nat>)
    requires Balanced(m, v, deps) && e in deps && HeldBack(v, deps, e, u)
    requires forall s :: HeldBack(v, deps, e, s) ==> Weight(m, s) <= Weight(m, u)
    ensures Balanced(Shifted(m, e, Weight(m, u)), v - u, Within(deps, v - u))
  {
    hide Weight, Shifted;
    var w := Weight(m, u);
    ShiftedWeight(m, e, w, v - u);
    assert u + (v - u) == v;
    WeightUnion(m, u, v - u);
    forall s | s <= v - u && Upward(Within(deps, v - u), s) ensures Weight(Shifted(m, e, w), s) <= 0 {
      ShiftedWeight(m, e, w, s);
      WeightUnion(m, u, s);
      JoinUpward(v, deps, e, u, s);
      if e.0 in s { UpwardAgain(deps, e, u + s); } else { assert HeldBack(v, deps, e, u + s); }
    }
  }

  lemma JoinUpward(v: set<nat>, deps: set<Dep>, e: Dep, u: set<nat>, s: set<nat>)
    requires Among(deps, v) && HeldBack(v, deps, e, u) && s <= v - u && Upward(Within(deps, v - u), s)
    ensures Upward(deps - {e}, u + s)
  {
    forall d | d in deps - {e} && d.1 in u + s ensures d.0 in u + s {
      if d.1 in s && d.0 !in u { assert d in Within(deps, v - u); }
    }
  }

  // ----- two forests side by side

  ghost function Beside(f: Forest, g: Forest): Forest { Forest(f.chunk + g.chunk, f.top + g.top) }

  lemma TopInside(f: Forest, e: Dep)
    requires ValidForest(f) && e in f.top
    ensures e.0 in f.chunk && e.1 in f.chunk && f.top[e] <= f.chunk.Keys
  {
    assert Inside(f, e) && Cut(f, e);
  }

  lemma BesideTops(f: Forest, g: Forest)
    requires ValidForest(f) && ValidForest(g) && f.chunk.Keys !! g.chunk.Keys
    ensures f.top.Keys !! g.top.Keys
  {
    forall e | e in f.top ensures e !in g.top {
      TopInside(f, e);
      if e in g.top { TopInside(g, e); }
    }
  }

  lemma BesideConnected(f: Forest, g: Forest, x: nat)
    requires ValidForest(f) && ValidForest(g) && f.chunk.Keys !! g.chunk.Keys && x in f.chunk
    ensures Connected(f.chunk[x], f.top.Keys + g.top.Keys)
  {
    var deps := f.top.Keys + g.top.Keys;
    forall s | s <= f.chunk[x] && s != {} && Closed(s, deps) ensures s == f.chunk[x] {
      assert Closed(s, f.top.Keys);
    }
  }

  lemma BesideCut(f: Forest, g: Forest, e: Dep)
    requires ValidForest(f) && ValidForest(g) && f.chunk.Keys !! g.chunk.Keys && e in f.top
    ensures Closed(f.top[e], f.top.Keys + g.top.Keys - {e})
  {
    assert Cut(f, e);
    TopInside(f, e);
    forall d | d in f.top.Keys + g.top.Keys - {e} ensures d.0 in f.top[e] <==> d.1 in f.top[e] {
      if d in f.top { assert d in f.top.Keys - {e}; } else { TopInside(g, d); }
    }
  }

  lemma BesideValid(f: Forest, g: Forest)
    requires ValidForest(f) && ValidForest(g) && f.chunk.Keys !! g.chunk.Keys
    ensures ValidForest(Beside(f, g))
  {
    var h := Beside(f, g);
    BesideTops(f, g);
    assert h.top.Keys == f.top.Keys + g.top.Keys == g.top.Keys + f.top.Keys;
    forall e | e in h.top ensures Inside(h, e) && Cut(h, e) {
      if e in f.top {
        TopInside(f, e);
        BesideCut(f, g, e);
        assert Inside(f, e) && Cut(f, e);
      } else {
        TopInside(g, e);
        BesideCut(g, f, e);
        assert Inside(g, e) && Cut(g, e);
      }
    }
    forall x | x in h.chunk ensures Connected(h.chunk[x], h.top.Keys) {
      if x in f.chunk { BesideConnected(f, g, x); } else { BesideConnected(g, f, x); }
    }
    BesidePartition(f, g);
  }

  lemma BesidePartition(f: Forest, g: Forest)
    requires Partition(f.chunk) && Partition(g.chunk) && f.chunk.Keys !! g.chunk.Keys
    ensures Partition(Beside(f, g).chunk)
  {
    var c := Beside(f, g).chunk;
    forall x | x in c ensures x in c[x] && c[x] <= c.Keys { }
    forall x, y | x in c && y in c[x] ensures c[y] == c[x] {
      if x in f.chunk && x !in g.chunk { assert y in f.chunk && y !in g.chunk; } else { assert y in g.chunk; }
    }
  }

  lemma BesideFeasible(m: Rates, u: set<nat>, v: set<nat>, deps: set<Dep>, f: Forest, g: Forest)
    requires Feasible(m, u, Within(deps, u), f) && Feasible(m, v, Within(deps, v), g) && u !! v
    ensures Feasible(m, u + v, deps, Beside(f, g))
  {
    hide Weight, ValidForest;
    BesideValid(f, g);
  }

  // ----- joining the two forests by the dependency

  lemma Separate(f: Forest, u: set<nat>, v: set<nat>, g: Forest, p: nat, c: nat)
    requires ValidForest(f) && ValidForest(g) && f.chunk.Keys == u && g.chunk.Keys == v && u !! v && c in u && p in v
    ensures var h := Beside(f, g); p in h.chunk && c in h.chunk && h.chunk[p] != h.chunk[c]
  {
    assert c in f.chunk[c] && f.chunk[c] <= u && p in g.chunk[p] && g.chunk[p] <= v;
  }

  /** Moving the weight back along the dependency that now joins them. */
  lemma JoinedFeasible(m: Rates, v: set<nat>, deps: set<Dep>, e: Dep, w: int, g: Forest)
    requires v <= m.Keys && e.0 in v && e.1 in v && e in deps && w >= 0
    requires Feasible(Shifted(m, e, w), v, deps, g) && e.0 in g.chunk && e.1 in g.chunk && g.chunk[e.0] != g.chunk[e.1]
    ensures Feasible(m, v, deps, Activated(g, e.0, e.1))
  {
    hide Weight, Shifted, ValidForest;
    var h := Activated(g, e.0, e.1);
    ActivatedValid(g, e.0, e.1);
    BetweenChunks(g, e.0, e.1);
    forall x | x in h.chunk ensures Weight(m, h.chunk[x]) == 0 { JoinedChunk(m, v, deps, e, w, g, x); }
    forall d | d in h.top ensures Weight(m, h.top[d]) <= 0 { JoinedTop(m, v, deps, e, w, g, d); }
  }

  lemma JoinedChunk(m: Rates, v: set<nat>, deps: set<Dep>, e: Dep, w: int, g: Forest, x: nat)
    requires v <= m.Keys && e.0 in v && e.1 in v && e in deps
    requires Feasible(Shifted(m, e, w), v, deps, g) && e.0 in g.chunk && e.1 in g.chunk && g.chunk[e.0] != g.chunk[e.1]
    requires x in g.chunk
    ensures Weight(m, Activated(g, e.0, e.1).chunk[x]) == 0
  {
    hide Weight, Shifted, Connected, Cut;
    BetweenChunks(g, e.0, e.1);
    var a, b, k := g.chunk[e.0], g.chunk[e.1], g.chunk[x];
    ShiftedWeight(m, e, w, a + b);
    WeightUnion(Shifted(m, e, w), a, b);
    ShiftedWeight(m, e, w, k);
    assert e.0 in a && e.1 in b;
    if x !in a && x !in b { assert e.0 !in k && e.1 !in k; }
  }

  lemma JoinedTop(m: Rates, v: set<nat>, deps: set<Dep>, e: Dep, w: int, g: Forest, d: Dep)
    requires v <= m.Keys && e.0 in v && e.1 in v && e in deps && w >= 0
    requires Feasible(Shifted(m, e, w), v, deps, g) && e.0 in g.chunk && e.1 in g.chunk && g.chunk[e.0] != g.chunk[e.1]
    requires d in Activated(g, e.0, e.1).top
    ensures Weight(m, Activated(g, e.0, e.1).top[d]) <= 0
  {
    hide Weight, Shifted, Connected;
    BetweenChunks(g, e.0, e.1);
    var n, a, b := Shifted(m, e, w), g.chunk[e.0], g.chunk[e.1];
    assert e.0 in a && e.1 in b;
    ShiftedWeight(m, e, w, a);
    if d != e {
      var t := g.top[d];
      assert Inside(g, d) && Cut(g, d);
      ShiftedWeight(m, e, w, t);
      if e.0 in t {
        WholeBeside(g, d, e.0, e.1);
        ShiftedWeight(m, e, w, t + b);
        WeightUnion(n, t, b);
      } else if e.1 in t {
        WholeBeside(g, d, e.1, e.0);
        ShiftedWeight(m, e, w, t + a);
        WeightUnion(n, t, a);
      }
    }
  }

  /** A top set with a member of one chunk has nothing of another. */
  lemma WholeBeside(g: Forest, d: Dep, x: nat, y: nat)
    requires ValidForest(g) && d in g.top && x in g.top[d] && y in g.chunk && x in g.chunk &&
             g.chunk[x] * g.chunk[y] == {}
    ensures g.top[d] * g.chunk[y] == {} && g.top[d] <= g.chunk.Keys && g.chunk[y] <= g.chunk.Keys
  {
    hide Connected;
    assert Inside(g, d) && Cut(g, d);
    assert g.chunk[x] == g.chunk[d.0];
  }

  /** Every balanced graph has such a forest. */
  lemma {:induction false} FeasibleExists(m: Rates, v: set<nat>, deps: set<Dep>) returns (f: Forest)
    requires Balanced(m, v, deps)
    ensures Feasible(m, v, deps, f)
    decreases |v|, |deps|
  {
    hide Weight, Shifted, ValidForest, Upward, Activated;
    if deps == {} {
      SinglesFeasible(m, v);
      f := Singles(v);
    } else {
      var e :| e in deps;
      if t :| HeldBack(v, deps, e, t) && Weight(m, t) >= 0 {
        var u := HeaviestHeldBack(m, v, deps, e, t);
        f := JoinBoth(m, v, deps, e, u);
      } else {
        NotNeeded(m, v, deps, e);
        f := FeasibleExists(m, v, deps - {e});
      }
    }
  }

  lemma JoinBoth(m: Rates, v: set<nat>, deps: set<Dep>, e: Dep, u: set<nat>) returns (f: Forest)
    requires Balanced(m, v, deps) && e in deps && HeldBack(v, deps, e, u) && Weight(m, u) >= 0
    requires forall s :: HeldBack(v, deps, e, s) ==> Weight(m, s) <= Weight(m, u)
    ensures Feasible(m, v, deps, f)
    decreases |v|, 0
  {
    hide Weight, Shifted, ValidForest, Upward, Activated, Beside;
    var w := Weight(m, u);
    var n := Shifted(m, e, w);
    HeldBackBalanced(m, v, deps, e, u);
    RestBalanced(m, v, deps, e, u);
    Smaller(v, u, e.1, e.0);
    var g := FeasibleExists(n, u, Within(deps, u));
    var h := FeasibleExists(n, v - u, Within(deps, v - u));
    BesideFeasible(n, u, v - u, deps, g, h);
    assert u + (v - u) == v;
    Separate(g, u, v - u, h, e.0, e.1);
    JoinedFeasible(m, v, deps, e, w, Beside(g, h));
    f := Activated(Beside(g, h), e.0, e.1);
  }

  lemma Smaller(v: set<nat>, u: set<nat>, x: nat, y: nat)
    requires u <= v && x in u && y in v - u
    ensures |u| < |v| && |v - u| < |v|
  {
    assert |v| == |u| + |v - u| by { assert v == u + (v - u); }
    assert u == {x} + (u - {x}) && v - u == {y} + (v - u - {y});
  }
}
