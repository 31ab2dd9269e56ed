/** The initial state of a cluster (the constructor of `SpanningForestState`, src/cluster_linearize.h). */
module Construction {
  import opened Totals
  import opened Forests
  import opened Families
  import opened ForestCore
  import opened LinearOrders
  import opened Loading
  import opened LinearizationQuality
  import DG = DepGraphs

  /** The transactions `done` have been given their parents, as children to those, and a chunk. */
  ghost predicate Filled(tx: map<nat, TxData>, par: Links, done: set<nat>) {
    && par.Keys == done <= tx.Keys
    && forall x :: x in tx ==> FilledAt(tx[x], par, x)
  }

  ghost function ChildrenIn(par: Links, x: nat): set<nat> { set y | y in par && x in par[y] }

  ghost predicate FilledAt(d: TxData, par: Links, x: nat) {
    && d.active == {} && d.depTop == map[]
    && d.parents == (if x in par then par[x] else {})
    && d.children == ChildrenIn(par, x)
  }

  /** Each of `done` has a set index of its own. */
  ghost predicate Placed(m: Rates, tx: map<nat, TxData>, info: seq<SetInfo>, done: set<nat>) {
    && done <= tx.Keys && done <= m.Keys
    && (forall x :: x in done ==> tx[x].chunkIdx < |info| && info[tx[x].chunkIdx] == SetInfo({x}, m[x]))
    && (forall i :: 0 <= i < |info| ==> PlacedAt(m, tx, info[i], done, i))
  }

  ghost predicate PlacedAt(m: Rates, tx: map<nat, TxData>, s: SetInfo, done: set<nat>, i: nat) {
    exists x :: x in done && x in tx && x in m && tx[x].chunkIdx == i && s == SetInfo({x}, m[x])
  }

  ghost predicate Indices(chunks: set<nat>, n: nat) { forall i :: i in chunks <==> 0 <= i < n }

  /** Add `x` to the children of its parents. */
  method AddChild(tx: map<nat, TxData>, parents: set<nat>, x: nat) returns (tx': map<nat, TxData>)
    requires parents <= tx.Keys
    ensures tx'.Keys == tx.Keys
    ensures forall y :: y in tx ==> tx'[y] == if y in parents then tx[y].(children := tx[y].children + {x}) else tx[y]
  {
    tx' := tx;
    var todo := parents;
    while todo != {}
      invariant todo <= parents && tx'.Keys == tx.Keys
      invariant forall y :: y in tx ==>
                  tx'[y] == if y in parents - todo then tx[y].(children := tx[y].children + {x}) else tx[y]
    {
      var q :| q in todo;
      todo := todo - {q};
      tx' := tx'[q := tx'[q].(children := tx'[q].children + {x})];
    }
  }

  lemma FillOne(tx: map<nat, TxData>, tx1: map<nat, TxData>, tx2: map<nat, TxData>, par: Links, done: set<nat>, x: nat,
                parents: set<nat>, i: nat)
    requires Filled(tx, par, done) && x in tx && x !in done && parents <= tx.Keys && x !in parents
    requires tx1 == tx[x := tx[x].(parents := parents)]
    requires tx2.Keys == tx1.Keys
    requires forall y :: y in tx1 ==>
               tx2[y] == if y in parents then tx1[y].(children := tx1[y].children + {x}) else tx1[y]
    ensures Filled(tx2[x := tx2[x].(chunkIdx := i)], par[x := parents], done + {x})
  {
    var tx', par' := tx2[x := tx2[x].(chunkIdx := i)], par[x := parents];
    forall y | y in tx' ensures FilledAt(tx'[y], par', y) {
      assert FilledAt(tx[y], par, y);
      ChildrenWith(par, x, parents, y);
    }
  }

  lemma ChildrenWith(par: Links, x: nat, parents: set<nat>, y: nat)
    requires x !in par
    ensures ChildrenIn(par[x := parents], y) == ChildrenIn(par, y) + (if y in parents then {x} else {})
  {
  }

  lemma PlaceOne(m: Rates, tx: map<nat, TxData>, tx': map<nat, TxData>, info: seq<SetInfo>, done: set<nat>, x: nat)
    requires Placed(m, tx, info, done) && x in tx && x !in done && x in m && tx'.Keys == tx.Keys
    requires forall y :: y in tx && y != x ==> tx'[y].chunkIdx == tx[y].chunkIdx
    requires tx'[x].chunkIdx == |info|
    ensures Placed(m, tx', info + [SetInfo({x}, m[x])], done + {x})
  {
    var info' := info + [SetInfo({x}, m[x])];
    forall i | 0 <= i < |info'| ensures PlacedAt(m, tx', info'[i], done + {x}, i) {
      if i < |info| {
        assert PlacedAt(m, tx, info[i], done, i);
        var y :| y in done && y in tx && y in m && tx[y].chunkIdx == i && info[i] == SetInfo({y}, m[y]);
        assert y in done + {x} && tx'[y].chunkIdx == i && info'[i] == SetInfo({y}, m[y]);
      } else {
        assert x in done + {x} && tx'[x].chunkIdx == i && info'[i] == SetInfo({x}, m[x]);
      }
    }
  }

  /** Fill in the data of `x`, and create a chunk for it. */
  method AddTx(m: Rates, tx: map<nat, TxData>, info: seq<SetInfo>, chunks: set<nat>, x: nat, parents: set<nat>,
               ghost par: Links, ghost done: set<nat>)
    returns (tx': map<nat, TxData>, info': seq<SetInfo>, chunks': set<nat>)
    requires Filled(tx, par, done) && Placed(m, tx, info, done) && x in tx && x !in done && x in m && parents <= tx.Keys
    requires x !in parents
    requires Indices(chunks, |info|)
    ensures Filled(tx', par[x := parents], done + {x}) && Placed(m, tx', info', done + {x}) && tx'.Keys == tx.Keys
    ensures Indices(chunks', |info'|)
  {
    hide Filled, Placed;
    var tx1 := tx[x := tx[x].(parents := parents)];
    var tx2 := AddChild(tx1, parents, x);
    tx' := tx2[x := tx2[x].(chunkIdx := |info|)];
    info' := info + [SetInfo({x}, m[x])];
    chunks' := chunks + {|info|};
    FillOne(tx, tx1, tx2, par, done, x, parents, |info|);
    PlaceOne(m, tx, tx', info, done, x);
  }

  /** The state with every transaction in a chunk of its own. */
  ghost predicate Initial(c: Core, m: Rates, par: Links) {
    && c.rate == m && c.tx.Keys == m.Keys && Filled(c.tx, par, m.Keys) && Placed(m, c.tx, c.info, m.Keys)
    && (forall x :: x in par ==> par[x] <= m.Keys - {x})
    && Indices(c.chunks, |c.info|) && |c.reach| == |c.info|
    && (forall x :: x in m ==> c.reach[c.tx[x].chunkIdx] == Reach(c.tx[x].parents, c.tx[x].children))
  }

  lemma InitialLinked(c: Core, m: Rates, par: Links)
    requires Initial(c, m, par)
    ensures Linked(c) && Par(c) == par
  {
    hide Placed;
    forall x | x in c.tx
      ensures c.tx[x].parents == par[x] && c.tx[x].children <= c.tx.Keys
    {
      assert FilledAt(c.tx[x], par, x);
    }
    forall x, q | x in c.tx && q in c.tx ensures q in c.tx[x].parents <==> x in c.tx[q].children {
      assert FilledAt(c.tx[x], par, x) && FilledAt(c.tx[q], par, q);
    }
  }

  lemma InitialPlaced(c: Core, m: Rates, par: Links, i: nat)
    requires Initial(c, m, par) && i in c.chunks
    ensures i < |c.info| && PlacedAt(m, c.tx, c.info[i], m.Keys, i)
  {
    hide Filled;
    assert 0 <= i < |c.info|;
  }

  lemma InitialPointer(c: Core, m: Rates, par: Links, x: nat)
    requires Initial(c, m, par) && x in c.tx
    ensures c.tx[x].chunkIdx in c.chunks && x in TxsAt(c, c.tx[x].chunkIdx)
  {
    hide Filled;
  }

  lemma InitialMember(c: Core, m: Rates, par: Links, i: nat, x: nat)
    requires Initial(c, m, par) && i in c.chunks && x in TxsAt(c, i)
    ensures x in c.tx && c.tx[x].chunkIdx == i
  {
    hide Filled;
    InitialPlaced(c, m, par, i);
  }

  lemma InitialTops(c: Core, m: Rates, par: Links)
    requires Initial(c, m, par)
    ensures TopsIndexed(c)
  {
    hide Placed, Indices;
    forall x | x in c.tx ensures c.tx[x].active == {} { assert FilledAt(c.tx[x], par, x); }
  }

  lemma InitialIndexed(c: Core, m: Rates, par: Links)
    requires Initial(c, m, par) && PositiveSizes(m)
    ensures Indexed(c) && TopsIndexed(c)
    ensures forall i :: i in c.chunks ==> i < |c.info| && PlacedAt(m, c.tx, c.info[i], m.Keys, i)
  {
    hide Filled, Placed, Indices, Indexed, TopsIndexed;
    InitialTops(c, m, par);
    forall i | i in c.chunks ensures i < |c.info| && PlacedAt(m, c.tx, c.info[i], m.Keys, i) {
      InitialPlaced(c, m, par, i);
    }
    forall x | x in c.tx ensures c.tx[x].chunkIdx in c.chunks && x in TxsAt(c, c.tx[x].chunkIdx) {
      InitialPointer(c, m, par, x);
    }
    forall i, x | i in c.chunks && x in TxsAt(c, i) ensures x in c.tx && c.tx[x].chunkIdx == i {
      InitialMember(c, m, par, i, x);
    }
    IndexedFrom(c);
  }

  lemma SingletonForest(f: Forest)
    requires f.top == map[] && forall x :: x in f.chunk ==> f.chunk[x] == {x}
    ensures ValidForest(f)
  {
    forall x | x in f.chunk ensures Connected(f.chunk[x], f.top.Keys) {
      forall s: set<nat> | s <= {x} && s != {} ensures s == {x} {
        var y :| y in s;
      }
    }
  }

  lemma InitialTx(c: Core, m: Rates, par: Links, x: nat)
    requires Initial(c, m, par) && x in c.tx
    ensures c.tx[x].active == {} && c.tx[x].chunkIdx < |c.info| && c.info[c.tx[x].chunkIdx].transactions == {x}
  {
    assert FilledAt(c.tx[x], par, x);
  }

  lemma InitialForest(c: Core, m: Rates, par: Links)
    requires Initial(c, m, par) && Linked(c) && Indexed(c) && TopsIndexed(c)
    ensures ValidForest(ForestOf(c))
  {
    hide Initial, Linked, Indexed, TopsIndexed, ValidForest;
    var f := ForestOf(c);
    forall x | x in c.tx ensures c.tx[x].active == {} && f.chunk[x] == {x} { InitialTx(c, m, par, x); }
    assert f.top == map[];
    SingletonForest(f);
  }

  lemma InitialReach(c: Core, m: Rates, par: Links, x: nat)
    requires Initial(c, m, par) && x in m
    ensures Outside(Par(c), {x}) == c.tx[x].parents && Outside(Chi(c), {x}) == c.tx[x].children
  {
    assert FilledAt(c.tx[x], par, x);
    assert x in c.tx && Par(c)[x] == c.tx[x].parents && Chi(c)[x] == c.tx[x].children;
    assert x !in c.tx[x].parents && x !in c.tx[x].children;
    OutsideOne(Par(c), x);
    OutsideOne(Chi(c), x);
  }

  lemma OutsideOne(links: Links, x: nat)
    requires x in links && x !in links[x]
    ensures Outside(links, {x}) == links[x]
  {
    forall q ensures q in Outside(links, {x}) <==> q in links[x] {
      if q in links[x] { assert x in {x} && x in links && q in links[x]; }
    }
  }

  lemma InitialSane(c: Core, m: Rates, par: Links)
    requires Initial(c, m, par) && PositiveSizes(m)
    ensures Sane(c) && Par(c) == par && Singletons(c)
  {
    InitialIndexed(c, m, par);
    InitialLinked(c, m, par);
    InitialForest(c, m, par);
    InitialInfos(c, m, par);
    hide Initial, ValidForest, ForestOf, Outside, Total, Linked, TopsIndexed;
  }

  lemma InitialInfos(c: Core, m: Rates, par: Links)
    requires Initial(c, m, par) && Indexed(c)
    requires forall i :: i in c.chunks ==> i < |c.info| && PlacedAt(m, c.tx, c.info[i], m.Keys, i)
    ensures InfosCorrect(c) && ReachCorrect(c) && Singletons(c)
  {
    hide Outside, Total, Filled, Placed, Par, Chi;
    forall i | 0 <= i < |c.info|
      ensures InfoCorrect(m, c.info[i]) && (exists y :: TxsAt(c, i) == {y})
      ensures c.reach[i] == Reach(Outside(Par(c), c.info[i].transactions), Outside(Chi(c), c.info[i].transactions))
    {
      assert i in c.chunks;
      var x :| x in m.Keys && x in c.tx && x in m && c.tx[x].chunkIdx == i && c.info[i] == SetInfo({x}, m[x]);
      TotalSingleton(m, x);
      InitialReach(c, m, par, x);
      assert TxsAt(c, i) == {x};
    }
  }

  // ----- from the dependency graph

  ghost function ParentsOf(g: DG.Graph): Links
    requires DG.WellFormed(g)
  {
    map x | x in g.rate :: DG.ReducedParents(g, x)
  }

  lemma {:induction false} Rootmost(g: DG.Graph, s: set<nat>, x: nat) returns (y: nat)
    requires DG.WellFormed(g) && DG.Acyclic(g) && s <= g.rate.Keys && x in s
    ensures y in s && ParentsOf(g)[y] * s == {}
    decreases g.anc[x]
  {
    if q :| q in ParentsOf(g)[x] * s {
      assert DG.Covers(g, q, x);
      assert x !in g.anc[q];
      y := Rootmost(g, s, q);
    } else {
      y := x;
    }
  }

  /** The reduced parents of an acyclic graph do not run in circles. */
  lemma ParentsFounded(g: DG.Graph)
    requires DG.WellFormed(g) && DG.Acyclic(g)
    ensures Founded(ParentsOf(g))
  {
    forall s: set<nat> | s != {} && s <= ParentsOf(g).Keys ensures exists x :: x in s && ParentsOf(g)[x] * s == {} {
      var x :| x in s;
      var y := Rootmost(g, s, x);
    }
  }

  /** `lin` lists each transaction of the graph once, after all its ancestors. */
  ghost predicate Topological(g: DG.Graph, lin: seq<nat>)
    requires DG.WellFormed(g)
  {
    && Elems(lin) == g.rate.Keys && (forall a, b :: 0 <= a < b < |lin| ==> lin[a] != lin[b])
    && (forall n :: 0 <= n < |lin| && lin[n] in g.anc ==> g.anc[lin[n]] <= Elems(lin[..n]) + {lin[n]})
  }

  lemma PrefixesClosed(g: DG.Graph, lin: seq<nat>, n: nat)
    requires DG.WellFormed(g) && ValidLinearization(ParentsOf(g), g.rate.Keys, lin) && n <= |lin|
    ensures Elems(lin[..n]) <= g.rate.Keys
    ensures forall x :: x in Elems(lin[..n]) ==> DG.ReducedParents(g, x) <= Elems(lin[..n])
  {
    hide DG.ReducedParents;
    forall x | x in Elems(lin[..n])
      ensures x in g.rate && DG.ReducedParents(g, x) <= Elems(lin[..n])
    {
      var a :| 0 <= a < n && lin[a] == x;
      assert x in Elems(lin);
      assert ParentsOf(g)[lin[a]] <= Elems(lin[..a]);
    }
  }

  lemma AncestorsBefore(g: DG.Graph, lin: seq<nat>, n: nat)
    requires DG.WellFormed(g) && DG.Acyclic(g) && ValidLinearization(ParentsOf(g), g.rate.Keys, lin) && n < |lin|
    ensures lin[n] in g.anc && g.anc[lin[n]] <= Elems(lin[..n]) + {lin[n]}
  {
    hide DG.ReducedParents, DG.Acyclic, DG.WellFormed, ValidLinearization;
    PrefixesClosed(g, lin, n + 1);
    PrefixStep(lin, n);
    DG.ClosedUnderParents(g, Elems(lin[..n + 1]));
    GraphKeys(g);
  }

  lemma PrefixStep(lin: seq<nat>, n: nat)
    requires n < |lin|
    ensures Elems(lin[..n + 1]) == Elems(lin[..n]) + {lin[n]}
  {
    assert lin[..n + 1] == lin[..n] + [lin[n]];
  }

  /** Reduced parents first is ancestors first. */
  lemma TopologicalByParents(g: DG.Graph, lin: seq<nat>)
    requires DG.WellFormed(g) && DG.Acyclic(g)
    ensures ValidLinearization(ParentsOf(g), g.rate.Keys, lin) <==> Topological(g, lin)
  {
    hide DG.WellFormed, DG.Acyclic;
    if ValidLinearization(ParentsOf(g), g.rate.Keys, lin) {
      forall n | 0 <= n < |lin| && lin[n] in g.anc
        ensures g.anc[lin[n]] <= Elems(lin[..n]) + {lin[n]}
      {
        AncestorsBefore(g, lin, n);
      }
    }
    if Topological(g, lin) {
      forall n | 0 <= n < |lin| && lin[n] in ParentsOf(g) ensures ParentsOf(g)[lin[n]] <= Elems(lin[..n]) {
        assert g.anc.Keys == g.rate.Keys by { GraphKeys(g); }
        assert g.anc[lin[n]] <= Elems(lin[..n]) + {lin[n]};
      }
    }
  }

  lemma GraphKeys(g: DG.Graph)
    requires DG.WellFormed(g)
    ensures g.anc.Keys == g.rate.Keys == g.desc.Keys
  {
  }

  /** Every transaction in a chunk of its own, linked by the reduced parents of the graph. */
  method Initialize(depgraph: DG.DepGraph) returns (c: Core)
    requires depgraph.Valid() && DG.Acyclic(depgraph.View()) && PositiveSizes(depgraph.View().rate)
    ensures Sane(c) && Singletons(c) && c.rate == depgraph.View().rate && Par(c) == ParentsOf(depgraph.View())
  {
    hide DG.WellFormed, DG.Acyclic, DG.ReducedParents, Sane, PositiveSizes, Filled, Placed, Singletons, Par, Indices;
    var entries, used := depgraph.entries, depgraph.used;
    ghost var g := depgraph.View();
    GraphKeys(g);
    var rate: Rates := map x | x in used :: entries[x].feerate;
    assert rate == g.rate;
    var tx: map<nat, TxData> := map x | x in used :: TxData({}, {}, {}, map[], 0);
    var info: seq<SetInfo>, chunks: set<nat> := [], {};
    ghost var par: Links := map[];
    StartFilled(g.rate, tx);
    var todo := used;
    assert used - todo == {};
    while todo != {}
      invariant todo <= used && tx.Keys == used && Filled(tx, par, used - todo) && Placed(g.rate, tx, info, used - todo)
      invariant Indices(chunks, |info|)
      invariant par.Keys == used - todo && forall x :: x in par ==> par[x] == DG.ReducedParents(g, x)
    {
      var x :| x in todo;
      var parents := depgraph.GetReducedParents(x);
      ParentsInGraph(g, x);
      tx, info, chunks := AddTx(rate, tx, info, chunks, x, parents, par, used - todo);
      assert used - (todo - {x}) == used - todo + {x};
      par := par[x := parents];
      todo := todo - {x};
    }
    assert used - todo == used;
    var reach := ReachOfEach(rate, tx, info);
    c := Core(rate, tx, info, reach, chunks);
    Initialized(c, g, par);
  }

  lemma Initialized(c: Core, g: DG.Graph, par: Links)
    requires DG.WellFormed(g) && PositiveSizes(g.rate) && c.rate == g.rate && c.tx.Keys == g.rate.Keys
    requires Filled(c.tx, par, g.rate.Keys) && Placed(g.rate, c.tx, c.info, g.rate.Keys)
    requires par.Keys == g.rate.Keys && forall x :: x in par ==> par[x] == DG.ReducedParents(g, x)
    requires Indices(c.chunks, |c.info|) && |c.reach| == |c.info|
    requires forall x :: x in g.rate ==>
      c.tx[x].chunkIdx < |c.info| && c.reach[c.tx[x].chunkIdx] == Reach(c.tx[x].parents, c.tx[x].children)
    ensures Sane(c) && Singletons(c) && Par(c) == ParentsOf(g)
  {
    hide DG.WellFormed, DG.ReducedParents, Sane, PositiveSizes, Filled, Placed, Singletons, Par, Indices;
    forall x | x in par ensures par[x] <= g.rate.Keys - {x} { ParentsInGraph(g, x); }
    InitialSane(c, g.rate, par);
    assert par == ParentsOf(g);
  }

  lemma StartFilled(m: Rates, tx: map<nat, TxData>)
    requires forall x :: x in tx ==> tx[x] == TxData({}, {}, {}, map[], 0)
    ensures Filled(tx, map[], {}) && Placed(m, tx, [], {}) && Indices({}, 0)
  {
  }

  lemma ParentsInGraph(g: DG.Graph, x: nat)
    requires DG.WellFormed(g) && x in g.rate
    ensures DG.ReducedParents(g, x) <= g.rate.Keys - {x}
  {
  }

  /** The reachable transactions of a chunk of one are its parents and children. */
  method ReachOfEach(m: Rates, tx: map<nat, TxData>, info: seq<SetInfo>) returns (reach: seq<Reach>)
    requires tx.Keys == m.Keys && Placed(m, tx, info, m.Keys)
    ensures |reach| == |info|
    ensures forall x :: x in m ==>
              tx[x].chunkIdx < |info| && reach[tx[x].chunkIdx] == Reach(tx[x].parents, tx[x].children)
  {
    reach := [];
    for i := 0 to |info|
      invariant |reach| == i
      invariant forall x :: x in m && tx[x].chunkIdx < i ==>
                  reach[tx[x].chunkIdx] == Reach(tx[x].parents, tx[x].children)
    {
      assert PlacedAt(m, tx, info[i], m.Keys, i);
      var x :| x in info[i].transactions;
      reach := reach + [Reach(tx[x].parents, tx[x].children)];
    }
  }

  /** No topologically valid linearization of the graph is better than `lin`. */
  ghost predicate BestPossible(g: DG.Graph, lin: seq<nat>) {
    && DG.WellFormed(g) && Elems(lin) <= g.rate.Keys
    && forall other :: Topological(g, other) ==> NoWorse(g.rate, lin, other)
  }
}
