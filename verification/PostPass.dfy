/** One pass of `PostLinearize` (src/cluster_linearize.h). */
module PostPass {
  import opened FeeFracs
  import opened Totals
  import opened Diagrams
  import opened Families
  import opened LinearOrders
  import opened PostGroups
  import opened PostShapes
  import opened PostEntries

  ghost predicate Shaped(m: Rates, deps: Links, g: seq<nat>) {
    && Tight(m, g) && ConnectedBy(deps, Elems(g))
    && (TreeLike(deps) ==> AllTail(deps, g) && PartBound(m, deps, g))
  }

  ghost predicate AllShaped(m: Rates, deps: Links, l: Groups) { forall g :: g in l ==> Shaped(m, deps, g) }

  ghost predicate ShapedMoving(m: Rates, deps: Links, c: seq<nat>, us: seq<FeeFrac>) {
    && Tight(m, c) && ConnectedBy(deps, Elems(c))
    && (TreeLike(deps) ==> TreeMoving(m, deps, c, us))
  }

  /** The groups between two insertions. */
  ghost predicate ListOk(m: Rates, deps: Links, l: Groups) {
    && PositiveSizes(m) && NonEmpty(m, l) && InDepOrder(deps, Flat(l)) && Sorted(GroupRates(m, l))
    && AllShaped(m, deps, l)
  }

  ghost predicate InLoop(e: seq<TxEntry>, m: Rates, deps: Links, l: Groups, a: Groups, c: seq<nat>, b: Groups,
                         us: seq<FeeFrac>, x: nat) {
    && Rep(e, m, deps, a + [c] + b) && Moving(m, deps, l, a, c, b, us) && Tail(c) == x && c != []
    && AllShaped(m, deps, a) && AllShaped(m, deps, b) && ShapedMoving(m, deps, c, us)
    && Elems(Flat(a + [c] + b)) == Elems(Flat(l)) + {x} && AlonesKept(deps, l, x, a, b)
  }

  /** The transaction `t` is a group of its own, and neither `x` nor anything listed depends on it. */
  ghost predicate Alone(deps: Links, l: Groups, x: nat, t: nat) {
    [t] in l && t != x && forall y :: y in Elems(Flat(l)) + {x} && y != t && y in deps ==> t !in deps[y]
  }

  ghost predicate AlonesKept(deps: Links, l: Groups, x: nat, a: Groups, b: Groups) {
    forall t: nat :: Alone(deps, l, x, t) ==> [t] in a || [t] in b
  }

  lemma StartLoop(e: seq<TxEntry>, m: Rates, deps: Links, l: Groups, x: nat)
    requires Rep(e, m, deps, l) && ListOk(m, deps, l) && x + 1 < |e| && x in m && x in deps && x in deps[x]
    requires InDepOrder(deps, Flat(l) + [x])
    ensures InLoop(Appended(e, x, deps[x], m[x]), m, deps, l, l, [x], [], [], x)
  {
    hide Rep, Moving, Flat, PositiveSizes, NonEmpty, Sorted, Shaped, ConnectedBy, TreeMoving, Appended, RateOf,
         TreeLike;
    StartMoving(m, deps, l, x);
    assert x !in Flat(l) by { if x in Flat(l) { SplitDisjoint(Flat(l), [x], x); } }
    AppendRep(e, m, deps, l, x);
    assert l + [[x]] + [] == l + [[x]];
    FlatAppend(l, [[x]]);
    FlatOne([x]);
    ElemsAppend(Flat(l), [x]);
    ConnectedOne(deps, x);
    assert Elems([x]) == {x};
    TreeStart(m, deps, x);
  }

  /** The links of the moving group and its neighbours, and what is cached about them. */
  ghost predicate Neighbours(e: seq<TxEntry>, m: Rates, deps: Links, a: Groups, c: seq<nat>, b: Groups, x: nat) {
    && x + 1 < |e| && Head(a) < |e| && e[x + 1].prevGroup == Head(a) && e[x + 1].feerate == RateOf(m, c)
    && NextOf(b) < |e| && e[NextOf(b)].prevGroup == x + 1
    && e[x + 1].deps == DepsOf(deps, Elems(c))
    && (a == [] ==> e[Head(a)].feerate == EMPTY)
    && (a != [] ==> e[Head(a)].feerate == RateOf(m, a[|a| - 1]) && e[Head(a)].group == Elems(a[|a| - 1]))
  }

  lemma LoopLinks(e: seq<TxEntry>, m: Rates, deps: Links, l: Groups, a: Groups, c: seq<nat>, b: Groups,
                  us: seq<FeeFrac>, x: nat)
    requires InLoop(e, m, deps, l, a, c, b, us, x)
    ensures Neighbours(e, m, deps, a, c, b, x)
  {
    hide Moving, Flat, RateOf, DepsOf, ShapedMoving, AllShaped, Elems, Rep;
    var all, n := a + [c] + b, |a|;
    MiddleOf(a, c, b);
    RepLinks(e, m, deps, all, n);
    if n > 0 { RepLinks(e, m, deps, all, n - 1); }
  }

  lemma MiddleOf(a: Groups, c: seq<nat>, b: Groups)
    ensures var all, n := a + [c] + b, |a|;
            && all[n] == c && (n > 0 ==> all[n - 1] == a[n - 1])
            && Head(a) == (if n == 0 then 0 else Tail(all[n - 1]) + 1) && NextOf(b) == After(all, n + 1)
  {
    var all, n := a + [c] + b, |a|;
    if b != [] { assert all[n + 1] == b[0]; }
  }

  /** What the entries say about the group at `n`. */
  lemma RepLinks(e: seq<TxEntry>, m: Rates, deps: Links, all: Groups, n: nat)
    requires Rep(e, m, deps, all) && n < |all|
    ensures |e| > 0 && e[0].feerate == EMPTY && Tail(all[n]) + 1 < |e|
    ensures var t := e[Tail(all[n]) + 1];
            && t.prevGroup == (if n == 0 then 0 else Tail(all[n - 1]) + 1) && t.feerate == RateOf(m, all[n])
            && t.group == Elems(all[n]) && t.deps == DepsOf(deps, Elems(all[n]))
    ensures After(all, n + 1) < |e| && e[After(all, n + 1)].prevGroup == Tail(all[n]) + 1
  {
    hide RateOf, DepsOf, GroupRep, Elems;
    RepAt(e, m, deps, all, n);
    GroupIn(e, m, deps, all[n]);
    if n + 1 < |all| { RepAt(e, m, deps, all, n + 1); }
  }

  lemma NotAboveSentinel(r: FeeFrac)
    ensures !Lower(EMPTY, r)
  {
  }

  lemma LastOf(a: Groups)
    requires a != []
    ensures a == a[..|a| - 1] + [a[|a| - 1]]
  {
  }

  /** The two groups that meet, as parts of the whole order. */
  lemma MeetingGroups(m: Rates, deps: Links, a: Groups, p: seq<nat>, c: seq<nat>, b: Groups)
    requires PositiveSizes(m) && NonEmpty(m, a + [p] + [c] + b) && InDepOrder(deps, Flat(a + [p] + [c] + b))
    ensures p != [] && c != [] && Elems(p + c) <= m.Keys && Distinct(p + c) && Distinct(p) && Distinct(c)
    ensures DepsFirst(deps, p + c)
    ensures Elems(p) * Elems(c) == {} && RateOf(m, p + c) == Add(RateOf(m, c), RateOf(m, p))
  {
    hide RateOf, Flat, Total;
    MergedRate(m, deps, a, p, c, b);
    FlatMiddle(a, p, c, b);
    var s := Flat(a) + p + c + Flat(b);
    var i := |Flat(a)|;
    assert s[i..i + |p + c|] == p + c;
    OrderPart(deps, s, i, i + |p + c|);
    assert (p + c)[0..|p|] == p && (p + c)[|p|..|p + c|] == c;
    OrderPart(deps, p + c, 0, |p|);
    OrderPart(deps, p + c, |p|, |p + c|);
    var l := a + [p] + [c] + b;
    assert l[|a|] == p && l[|a| + 1] == c;
    assert p in l && c in l;
    ElemsAppend(p, c);
  }

  lemma OrderPart(deps: Links, s: seq<nat>, i: nat, j: nat)
    requires InDepOrder(deps, s) && i <= j <= |s|
    ensures InDepOrder(deps, s[i..j])
  {
  }

  lemma MergeLoop(e: seq<TxEntry>, m: Rates, deps: Links, l: Groups, a: Groups, p: seq<nat>, c: seq<nat>, b: Groups,
                  us: seq<FeeFrac>, x: nat)
    requires InLoop(e, m, deps, l, a + [p], c, b, us, x) && Lower(RateOf(m, p), RateOf(m, c))
    requires DepsOf(deps, Elems(c)) * Elems(p) != {}
    ensures InLoop(MergedEntries(e, x + 1, Tail(p) + 1), m, deps, l, a, p + c, b, us + [RateOf(m, p)], x)
  {
    hide Rep, Moving, Flat, RateOf, MergedEntries, Tight, ConnectedBy, TreeLike, TreeMoving, AllTail, PartBound, Lower,
         Sorted, PositiveSizes, NonEmpty, InDepOrder, Distinct, DepsFirst, AlonesKept;
    MovingParts(m, deps, l, a + [p], c, b, us);
    MeetingGroups(m, deps, a, p, c, b);
    AloneAfterMerge(deps, l, a, p, c, b, x);
    MergeStep(m, deps, l, a, p, c, b, us);
    OrderParts(deps, Flat(a + [p] + [c] + b));
    MergeRep(e, m, deps, a, p, c, b);
    FlatMiddle(a, p, c, b);
    assert Flat(a) + (p + c) + Flat(b) == Flat(a) + p + c + Flat(b);
    assert (a + [p])[|a|] == p && p in a + [p];
    assert Shaped(m, deps, p);
    TightMerge(m, p, c);
    var u, y := SomeDep(deps, Elems(c), Elems(p));
    ElemsAppend(p, c);
    ConnectedMerge(deps, Elems(p), Elems(c), u, y);
    if TreeLike(deps) { TreeMerge(m, deps, p, c, us, u, y); }
    forall g | g in a ensures g in a + [p] { }
    assert Tail(p + c) == Tail(c);
  }

  lemma AloneAfterMerge(deps: Links, l: Groups, a: Groups, p: seq<nat>, c: seq<nat>, b: Groups, x: nat)
    requires AlonesKept(deps, l, x, a + [p], b) && Elems(Flat(a + [p] + [c] + b)) == Elems(Flat(l)) + {x}
    requires Elems(p) * Elems(c) == {} && DepsOf(deps, Elems(c)) * Elems(p) != {}
    ensures AlonesKept(deps, l, x, a, b)
  {
    hide Flat;
    var u, y := SomeDep(deps, Elems(c), Elems(p));
    var all := a + [p] + [c] + b;
    assert all[|a| + 1] == c;
    InFlat(all, |a| + 1, u);
    forall t: nat | Alone(deps, l, x, t) ensures [t] in a || [t] in b {
      if p == [t] {
        assert y == t;
        assert u in Elems(Flat(all));
        NotBoth(Elems(p), Elems(c), t);
      }
    }
  }

  lemma SomeDep(deps: Links, c: set<nat>, p: set<nat>) returns (u: nat, y: nat)
    requires DepsOf(deps, c) * p != {}
    ensures u in c && y in p && u in deps && y in deps[u]
  {
    y :| y in DepsOf(deps, c) * p;
    u :| u in c && u in deps && y in deps[u];
  }

  lemma OrderParts(deps: Links, s: seq<nat>)
    requires InDepOrder(deps, s)
    ensures Distinct(s)
  {
  }

  lemma MovingParts(m: Rates, deps: Links, l: Groups, a: Groups, c: seq<nat>, b: Groups, us: seq<FeeFrac>)
    requires Moving(m, deps, l, a, c, b, us)
    ensures PositiveSizes(m) && NonEmpty(m, a + [c] + b) && InDepOrder(deps, Flat(a + [c] + b))
    ensures AllAtMost(us, [RateOf(m, c)])
  {
  }

  lemma SwapLoop(e: seq<TxEntry>, m: Rates, deps: Links, l: Groups, a: Groups, p: seq<nat>, c: seq<nat>, b: Groups,
                 us: seq<FeeFrac>, x: nat)
    requires InLoop(e, m, deps, l, a + [p], c, b, us, x) && Lower(RateOf(m, p), RateOf(m, c))
    requires DepsOf(deps, Elems(c)) * Elems(p) == {}
    ensures InLoop(SwappedEntries(e, x + 1, Tail(p) + 1, NextOf(b)), m, deps, l, a, c, [p] + b, us, x)
  {
    hide Rep, Moving, Flat, RateOf, SwappedEntries, Shaped, ShapedMoving, Lower, Distinct, InDepOrder, Alone;
    MovingParts(m, deps, l, a + [p], c, b, us);
    OrderParts(deps, Flat(a + [p] + [c] + b));
    forall u, y | u in p && y in c && y in deps ensures u !in deps[y] { NoDep(deps, Elems(c), Elems(p), y, u); }
    SwapStep(m, deps, l, a, p, c, b, us);
    SwapIsTransposed(a, p, c, b);
    SwapRep(e, m, deps, a + [p] + [c] + b, a + [c] + ([p] + b), |a|);
    FlatMiddle(a, p, c, b);
    ElemsSwap(Flat(a), p, c, Flat(b));
    forall g | g in a ensures g in a + [p] { }
    assert (a + [p])[|a|] == p && p in a + [p];
    forall t: nat | Alone(deps, l, x, t) ensures [t] in a || [t] in [p] + b { }
  }

  lemma NoDep(deps: Links, c: set<nat>, p: set<nat>, y: nat, u: nat)
    requires DepsOf(deps, c) * p == {} && y in c && y in deps && u in p
    ensures u !in deps[y]
  {
    assert u in deps[y] ==> u in DepsOf(deps, c) * p;
  }

  lemma ElemsSwap(a: seq<nat>, p: seq<nat>, c: seq<nat>, b: seq<nat>)
    ensures Elems(a + p + c + b) == Elems(a + c + p + b)
  {
    ElemsAppend(a + p + c, b);
    ElemsAppend(a + p, c);
    ElemsAppend(a, p);
    ElemsAppend(a + c + p, b);
    ElemsAppend(a + c, p);
    ElemsAppend(a, c);
  }

  /** Everything that an insertion keeps. */
  ghost predicate Inserted(m: Rates, deps: Links, l: Groups, l': Groups, x: nat) {
    && ListOk(m, deps, l') && Elems(Flat(l')) == Elems(Flat(l)) + {x} && AlonesKept(deps, l, x, l', [])
    && (forall r: FeeFrac {:trigger Potential(GroupRates(m, l), r)} ::
          r.size > 0 ==> Potential(GroupRates(m, l), r) <= Potential(GroupRates(m, l'), r))
  }

  lemma EndLoop(e: seq<TxEntry>, m: Rates, deps: Links, l: Groups, a: Groups, c: seq<nat>, b: Groups, us: seq<FeeFrac>,
                x: nat)
    requires InLoop(e, m, deps, l, a, c, b, us, x) && (a == [] || !Lower(RateOf(m, a[|a| - 1]), RateOf(m, c)))
    ensures Rep(e, m, deps, a + [c] + b) && Inserted(m, deps, l, a + [c] + b, x)
  {
    hide Rep, Moving, Flat, RateOf, Tight, ConnectedBy, TreeLike, TreeMoving, AllTail, PartBound, Sorted, PositiveSizes,
         NonEmpty, InDepOrder, Potential, Alone;
    MovingParts(m, deps, l, a, c, b, us);
    EndMoving(m, deps, l, a, c, b, us);
    if TreeLike(deps) { TreeEnd(m, deps, c, us); }
    assert Shaped(m, deps, c);
    forall g | g in a + [c] + b ensures Shaped(m, deps, g) { }
    forall t: nat | Alone(deps, l, x, t) ensures [t] in a + [c] + b { }
  }

  /** Append `x` as a group of its own, and let it merge with and swap past groups of lower feerate. */
  method Insert(e: seq<TxEntry>, x: nat, xDeps: set<nat>, xRate: FeeFrac, ghost m: Rates, ghost deps: Links,
                ghost l: Groups)
    returns (e': seq<TxEntry>, ghost l': Groups)
    requires Rep(e, m, deps, l) && ListOk(m, deps, l) && x + 1 < |e| && InDepOrder(deps, Flat(l) + [x])
    requires x in m && m[x] == xRate && x in deps && deps[x] == xDeps && x in xDeps
    ensures Rep(e', m, deps, l') && Inserted(m, deps, l, l', x) && |e'| == |e|
  {
    hide Rep, InLoop, ListOk, Inserted, RateOf, DepsOf, MergedEntries, SwappedEntries, InDepOrder, Flat;
    var cur := x + 1;
    RepSize(e, m, deps, l);
    e' := e[cur := TxEntry(0, cur, e[0].prevGroup, {x}, xDeps, xRate)];
    e' := e'[0 := e'[0].(prevGroup := cur)];
    assert e' == Appended(e, x, deps[x], m[x]);
    StartLoop(e, m, deps, l, x);
    ghost var a: Groups, c, b: Groups, us := l, [x], [], [];
    LoopLinks(e', m, deps, l, a, c, b, us, x);
    var next, prev := 0, e'[cur].prevGroup;
    while Lower(e'[prev].feerate, e'[cur].feerate)
      invariant |e'| == |e| && InLoop(e', m, deps, l, a, c, b, us, x) && prev == Head(a) && next == NextOf(b)
      invariant cur < |e'| && prev < |e'|
      decreases |a|
    {
      LoopLinks(e', m, deps, l, a, c, b, us, x);
      NotAboveSentinel(e'[cur].feerate);
      ghost var a', p := a[..|a| - 1], a[|a| - 1];
      LastOf(a);
      assert prev == Tail(p) + 1;
      if e'[cur].deps * e'[prev].group != {} {
        MergeLoop(e', m, deps, l, a', p, c, b, us, x);
        SameSize(e', cur, prev, next);
        e' := MergedEntries(e', cur, prev);
        a, c, us := a', p + c, us + [RateOf(m, p)];
        LoopLinks(e', m, deps, l, a, c, b, us, x);
        prev := e'[cur].prevGroup;
      } else {
        SwapLoop(e', m, deps, l, a', p, c, b, us, x);
        SameSize(e', cur, prev, next);
        e' := SwappedEntries(e', cur, prev, next);
        a, b := a', [p] + b;
        LoopLinks(e', m, deps, l, a, c, b, us, x);
        next := prev;
        prev := e'[cur].prevGroup;
      }
    }
    LoopLinks(e', m, deps, l, a, c, b, us, x);
    EndLoop(e', m, deps, l, a, c, b, us, x);
    l' := a + [c] + b;
  }

  lemma RepSize(e: seq<TxEntry>, m: Rates, deps: Links, l: Groups)
    requires Rep(e, m, deps, l)
    ensures |e| > 0
  {
  }

  lemma SameSize(e: seq<TxEntry>, cur: nat, prev: nat, next: nat)
    ensures |MergedEntries(e, cur, prev)| == |e| && |SwappedEntries(e, cur, prev, next)| == |e|
  {
  }
}
