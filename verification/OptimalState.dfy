/** Every graph has an optimal state (the remark in src/cluster_linearize.h): a topological state of the
    spanning forest none of whose active dependencies has a top set of higher feerate than its chunk. */
module OptimalStates {
  import opened FeeFracs
  import opened Totals
  import opened Forests
  import opened Families
  import opened BalancedForests
  import opened OptimalForests
  import opened ForestCore
  import opened ForestSteps
  import opened ImproveSteps
  import opened StateOptimality
  import opened Loading
  import Construction
  import DG = DepGraphs

  // ----- from a forest to a state

  /** Activating a dependency that was just made inactive gives back the forest. */
  lemma ActivateUndoesDeactivate(f: Forest, e: Dep)
    requires ValidForest(f) && e in f.top
    ensures var g := Deactivated(f, e);
            && e.0 in g.chunk && e.1 in g.chunk && g.chunk[e.0] != g.chunk[e.1] && Activated(g, e.0, e.1) == f
  {
    hide ValidForest, Activated, Deactivated;
    ForestDep(f, e);
    SplitEnds(f, e);
    var g := Deactivated(f, e);
    var h := Activated(g, e.0, e.1);
    JoinedKeys(g, e);
    forall x | x in f.chunk ensures h.chunk[x] == f.chunk[x] { ChunkBack(f, e, x); }
    forall d | d in f.top ensures h.top[d] == f.top[d] { if d != e { TopBack(f, e, d); } }
    assert h.top.Keys == f.top.Keys;
    assert h.chunk == f.chunk && h.top == f.top;
  }

  lemma SplitEnds(f: Forest, e: Dep)
    requires ValidForest(f) && e in f.top
    ensures e.0 in f.chunk && e.1 in f.chunk
    ensures Deactivated(f, e).chunk[e.0] == f.top[e] && e.1 !in f.top[e] && e.1 in Deactivated(f, e).chunk[e.1]
  {
    hide Connected, Partition, Closed;
    assert Inside(f, e) && Cut(f, e);
    assert e.1 in f.chunk[e.1] by { InOwnChunk(f, e.1); }
  }

  lemma JoinedKeys(g: Forest, e: Dep)
    requires e.0 in g.chunk && e.1 in g.chunk
    ensures var h := Activated(g, e.0, e.1);
            h.chunk.Keys == g.chunk.Keys && h.top.Keys == g.top.Keys + {e} && h.top[e] == g.chunk[e.0]
  {
  }

  lemma ChunkBack(f: Forest, e: Dep, x: nat)
    requires ValidForest(f) && e in f.top && x in f.chunk
    ensures var g := Deactivated(f, e);
            e.0 in g.chunk && e.1 in g.chunk && Activated(g, e.0, e.1).chunk[x] == f.chunk[x]
  {
    hide Connected;
    assert Inside(f, e) && Cut(f, e);
    var t, b := f.top[e], f.chunk[e.0] - f.top[e];
    assert t + b == f.chunk[e.0];
    if x in f.chunk[e.0] { assert f.chunk[x] == f.chunk[e.0]; }
  }

  lemma TopBack(f: Forest, e: Dep, d: Dep)
    requires ValidForest(f) && e in f.top && d in f.top && d != e
    ensures var g := Deactivated(f, e);
            e.0 in g.chunk && e.1 in g.chunk && Activated(g, e.0, e.1).top[d] == f.top[d]
  {
    assert Inside(f, e) && Cut(f, e) && Inside(f, d) && Cut(f, d);
    TopAcross(f, e, d);
    var g := Deactivated(f, e);
    var t, b, s := f.top[e], f.chunk[e.0] - f.top[e], f.top[d];
    assert g.chunk[e.0] == t && g.chunk[e.1] == b;
    if d.0 in t || d.0 in b { SameChunk(f, e, d); } else { OtherChunk(f, e, d); }
    TopSplit(f, e, d);
    TopJoined(g, e, d);
    hide ValidForest, Deactivated, Activated;
    if d.0 in t { PutBack(s, t, b, e.0 in s); } else if d.0 in b { PutBack(s, b, t, e.1 in s); }
  }

  lemma TopSplit(f: Forest, e: Dep, d: Dep)
    requires e in f.top && e.0 in f.chunk && d in f.top && d != e
    ensures var t, b, s := f.top[e], f.chunk[e.0] - f.top[e], f.top[d];
            && d in Deactivated(f, e).top
            && Deactivated(f, e).top[d] == if d.0 in t then s * t else if d.0 in b then s * b else s
  {
  }

  lemma TopJoined(g: Forest, e: Dep, d: Dep)
    requires e.0 in g.chunk && e.1 in g.chunk && d in g.top && d != e
    ensures var s := g.top[d];
            && d in Activated(g, e.0, e.1).top
            && Activated(g, e.0, e.1).top[d] ==
               if e.0 in s then s + g.chunk[e.1] else if e.1 in s then s + g.chunk[e.0] else s
  {
  }

  lemma PutBack(s: set<nat>, t: set<nat>, b: set<nat>, all: bool)
    requires s <= t + b && if all then b <= s else s * b == {}
    ensures if all then s * t + b == s else s * t == s
  {
    forall x | x in s && !all ensures x in t { assert x in b ==> x in s * b; }
  }

  lemma SameChunk(f: Forest, e: Dep, d: Dep)
    requires ValidForest(f) && e in f.top && d in f.top && d.0 in f.chunk[e.0]
    ensures f.top[d] <= f.chunk[e.0]
  {
    assert Inside(f, e) && Inside(f, d) && Cut(f, d);
  }

  lemma OtherChunk(f: Forest, e: Dep, d: Dep)
    requires ValidForest(f) && e in f.top && d in f.top && d.0 !in f.chunk[e.0]
    ensures e.0 !in f.top[d] && e.1 !in f.top[d]
  {
    assert Inside(f, e) && Inside(f, d) && Cut(f, d);
  }

  /** The data after an activation, written down at once. */
  ghost function NewTx(c: Core, p: nat, ch: nat): map<nat, TxData>
    requires Indexed(c) && CanActivate(c, p, ch)
  {
    var pi, ci := c.tx[p].chunkIdx, c.tx[ch].chunkIdx;
    map x | x in c.tx :: TxData(
      c.tx[x].parents, c.tx[x].children,
      if x == p then c.tx[x].active + {ch} else c.tx[x].active,
      if x == p then c.tx[x].depTop[ch := pi] else c.tx[x].depTop,
      if x in c.info[pi].transactions then ci else c.tx[x].chunkIdx)
  }

  ghost function NewInfo(c: Core, p: nat, ch: nat): seq<SetInfo>
    requires Indexed(c) && TopsIndexed(c) && CanActivate(c, p, ch)
  {
    var pi, ci := c.tx[p].chunkIdx, c.tx[ch].chunkIdx;
    seq(|c.info|, i requires 0 <= i < |c.info| =>
      if i == ci then Join(c.info[ci], c.info[pi])
      else if NoTop(c, i) then c.info[i]
      else Grown(c.info[i], p, ch, c.info[pi], c.info[ci]))
  }

  ghost function NewReach(c: Core, p: nat, ch: nat): seq<Reach>
    requires Indexed(c) && CanActivate(c, p, ch)
  {
    var pi, ci := c.tx[p].chunkIdx, c.tx[ch].chunkIdx;
    var whole := Join(c.info[ci], c.info[pi]).transactions;
    c.reach[ci := Reach(c.reach[ci].up + c.reach[pi].up - whole, c.reach[ci].down + c.reach[pi].down - whole)]
  }

  lemma NewTxRight(c: Core, d: Core, p: nat, ch: nat)
    requires Indexed(c) && CanActivate(c, p, ch) && d.tx == NewTx(c, p, ch)
    ensures TxActivated(c, d, p, ch)
  {
  }

  lemma NewReachRight(c: Core, d: Core, p: nat, ch: nat)
    requires Indexed(c) && TopsIndexed(c) && CanActivate(c, p, ch)
    requires d.info == NewInfo(c, p, ch) && d.reach == NewReach(c, p, ch)
    ensures |d.info| == |c.info| && ReachActivated(c, d, p, ch)
  {
    hide TopsIndexed, Grown;
  }

  lemma NewInfoRight(c: Core, d: Core, p: nat, ch: nat)
    requires Indexed(c) && TopsIndexed(c) && CanActivate(c, p, ch) && d.info == NewInfo(c, p, ch)
    ensures InfoActivated(c, d, p, ch)
  {
    hide Join, Grown;
    var ci := c.tx[ch].chunkIdx;
    forall x, y | x in c.tx && y in c.tx[x].active ensures c.tx[x].depTop[y] != ci && !NoTop(c, c.tx[x].depTop[y]) { }
  }

  lemma ActivateExists(c: Core, p: nat, ch: nat) returns (d: Core)
    requires Sane(c) && CanActivate(c, p, ch)
    ensures ActivateData(c, d, p, ch)
  {
    hide Sane, TopsIndexed, InfoActivated, TxActivated, ReachActivated, NewTx, NewInfo, NewReach, Indexed, Linked,
         InfosCorrect, ReachCorrect, ValidForest, ForestOf;
    SaneParts(c);
    d := Core(c.rate, NewTx(c, p, ch), NewInfo(c, p, ch), NewReach(c, p, ch), c.chunks - {c.tx[p].chunkIdx});
    NewTxRight(c, d, p, ch);
    NewInfoRight(c, d, p, ch);
    NewReachRight(c, d, p, ch);
  }

  lemma Activatable(c: Core, p: nat, ch: nat) returns (d: Core)
    requires Sane(c) && CanActivate(c, p, ch)
    ensures Sane(d) && SameGraph(c, d) && p in ForestOf(c).chunk && ch in ForestOf(c).chunk
    ensures ForestOf(d) == Activated(ForestOf(c), p, ch)
  {
    hide Sane, ActivateData, OptimalKept, ForestOf, Activated, ChunksMerged;
    d := ActivateExists(c, p, ch);
    ActivateSane(c, d, p, ch);
    ActivateEffect(c, d, p, ch);
  }

  /** The dependencies of a state. */
  ghost function DepsOf(c: Core): set<Dep> { set x, y | x in c.tx && y in c.tx[x].children :: (x, y) }

  lemma SameSingles(f: Forest, g: Forest)
    requires f.chunk.Keys == g.chunk.Keys && f.top.Keys == {} && g.top.Keys == {}
    requires forall x :: x in f.chunk ==> f.chunk[x] == {x} == g.chunk[x]
    ensures f == g
  {
    assert f.chunk == g.chunk && f.top == g.top;
  }

  /** The forest of single transactions. */
  lemma SinglesForest(c: Core, f: Forest)
    requires Sane(c) && Singletons(c) && ValidForest(f) && f.chunk.Keys == c.tx.Keys && f.top.Keys == {}
    ensures ForestOf(c) == f
  {
    hide Sane, ValidForest, Singletons, ForestOf;
    StateKeys(c);
    StateForest(c);
    forall x | x in f.chunk ensures ForestOf(c).chunk[x] == {x} == f.chunk[x] {
      SingleChunk(c, x);
      NoDepsAtAll(f, x);
    }
    NoTops(ForestOf(c));
    SameSingles(f, ForestOf(c));
  }

  lemma StateForest(c: Core)
    requires Sane(c)
    ensures ValidForest(ForestOf(c))
  {
  }

  lemma NoDepsAtAll(f: Forest, x: nat)
    requires ValidForest(f) && f.top.Keys == {} && x in f.chunk
    ensures f.chunk[x] == {x}
  {
    hide ValidForest;
    assert DepsIn(f, f.chunk[x]) == {};
    NoDeps(f, x);
  }

  lemma SingleChunk(c: Core, x: nat)
    requires Sane(c) && Singletons(c) && x in c.tx
    ensures x in ForestOf(c).chunk && ForestOf(c).chunk[x] == {x}
  {
    InForest(c, x);
    hide ForestOf, Linked, InfosCorrect, ReachCorrect, TopsIndexed, ValidForest;
    var y :| TxsAt(c, c.tx[x].chunkIdx) == {y};
    assert x in TxsAt(c, c.tx[x].chunkIdx);
  }

  /** There is no active dependency within a single transaction. */
  lemma NoTops(g: Forest)
    requires ValidForest(g) && forall x :: x in g.chunk ==> g.chunk[x] == {x}
    ensures g.top.Keys == {}
  {
    hide ValidForest;
    if g.top.Keys != {} {
      var e :| e in g.top;
      DifferentEnds(g, e);
    }
  }

  lemma DifferentEnds(g: Forest, e: Dep)
    requires ValidForest(g) && e in g.top
    ensures e.0 in g.chunk && e.1 in g.chunk[e.0] && e.0 != e.1
  {
    assert Inside(g, e) && Cut(g, e);
  }

  /** Every spanning forest of the dependencies is that of some sane state. */
  lemma {:induction false} Realized(c: Core, f: Forest) returns (d: Core)
    requires Sane(c) && Singletons(c) && ValidForest(f) && f.chunk.Keys == c.tx.Keys && f.top.Keys <= DepsOf(c)
    ensures Sane(d) && SameGraph(c, d) && ForestOf(d) == f
    decreases f.top.Keys
  {
    hide Sane, Singletons, ValidForest, ForestOf, Activated, Deactivated;
    if f.top.Keys == {} {
      SinglesForest(c, f);
      d := c;
    } else {
      var e :| e in f.top.Keys;
      ForestDep(f, e);
      var g := Deactivated(f, e);
      DeactivatedValid(f, e);
      ActivateUndoesDeactivate(f, e);
      var b := Realized(c, g);
      NowActivatable(c, b, g, e);
      d := Activatable(b, e.0, e.1);
    }
  }

  lemma ForestDep(f: Forest, e: Dep)
    requires ValidForest(f) && e in f.top
    ensures e.0 in f.chunk && Deactivated(f, e).chunk.Keys == f.chunk.Keys &&
            Deactivated(f, e).top.Keys == f.top.Keys - {e}
  {
    hide ValidForest;
    TopInside(f, e);
  }

  lemma InForest(c: Core, x: nat)
    requires Sane(c) && x in c.tx
    ensures x in ForestOf(c).chunk && ForestOf(c).chunk[x] == TxsAt(c, c.tx[x].chunkIdx)
    ensures forall y :: y in c.tx[x].active ==>
              (x, y) in ForestOf(c).top && y in c.tx[x].depTop && ForestOf(c).top[(x, y)] == TxsAt(c, c.tx[x].depTop[y])
  {
    hide ValidForest, InfosCorrect, ReachCorrect, Linked;
  }

  lemma NowActivatable(c: Core, b: Core, g: Forest, e: Dep)
    requires Sane(c) && Sane(b) && SameGraph(c, b) && ForestOf(b) == g && e in DepsOf(c)
    requires e.0 in g.chunk && e.1 in g.chunk && g.chunk[e.0] != g.chunk[e.1]
    ensures CanActivate(b, e.0, e.1)
  {
    hide Sane, ForestOf, TxsAt, Inside;
    StateKeys(b);
    InForest(b, e.0);
    InForest(b, e.1);
    ActiveInside(b, e);
    InsideSame(g, e);
    assert e.0 in Chi(c) && Chi(b)[e.0] == Chi(c)[e.0];
  }

  lemma InsideSame(g: Forest, e: Dep)
    requires e.0 in g.chunk && e.1 in g.chunk && g.chunk[e.0] != g.chunk[e.1]
    ensures !Inside(g, e)
  {
  }

  lemma StateKeys(c: Core)
    ensures ForestOf(c).chunk.Keys == c.tx.Keys
  {
  }

  lemma ActiveInside(c: Core, e: Dep)
    requires Sane(c) && e.0 in c.tx
    ensures e.1 in c.tx[e.0].active ==> e in ForestOf(c).top && Inside(ForestOf(c), e)
  {
    InForest(c, e.0);
    hide InfosCorrect, ReachCorrect, Linked, Indexed, TopsIndexed, Connected, Partition, ForestOf;
  }

  // ----- what the state of such a forest is

  lemma RatesOfSets(c: Core, i: nat)
    requires Sane(c) && i < |c.info|
    ensures RateAt(c, i) == SetRate(c.rate, TxsAt(c, i))
  {
    assert InfoCorrect(c.rate, c.info[i]);
  }

  lemma StateOptimal(c: Core, v: set<nat>, deps: set<Dep>)
    requires Sane(c) && NoHigher(c.rate, v, deps, ForestOf(c))
    ensures AllOptimal(c)
  {
    hide Sane, ValidForest, SetRate, AtMost, RateAt, TxsAt, ForestOf;
    forall i, x, y | i in c.chunks && x in TxsAt(c, i) && x in c.tx && y in c.tx[x].active && y in c.tx[x].depTop
      ensures AtMost(RateAt(c, c.tx[x].depTop[y]), RateAt(c, i))
    {
      MemberIndex(c, i, x, y);
      InForest(c, x);
      assert (x, y) in ForestOf(c).top;
      RatesOfSets(c, i);
      RatesOfSets(c, c.tx[x].depTop[y]);
    }
  }

  lemma MemberIndex(c: Core, i: nat, x: nat, y: nat)
    requires Sane(c) && i in c.chunks && x in TxsAt(c, i) && x in c.tx && y in c.tx[x].active && y in c.tx[x].depTop
    ensures c.tx[x].chunkIdx == i && i < |c.info| && c.tx[x].depTop[y] < |c.info|
  {
    hide ValidForest, InfosCorrect, ReachCorrect, Linked, ForestOf;
  }

  lemma MemberOf(c: Core, i: nat, x: nat)
    requires Sane(c) && i in c.chunks && x in TxsAt(c, i)
    ensures x in c.tx && c.tx[x].chunkIdx == i && i < |c.info|
  {
    hide ValidForest, InfosCorrect, ReachCorrect, Linked, ForestOf, TopsIndexed;
  }

  lemma StateTopological(c: Core)
    requires Sane(c) && StrictlyDescending(c.rate, DepsOf(c), ForestOf(c))
    ensures TopologicalState(c)
  {
    hide Sane, SetRate, Lower, Total, ForestOf, TxsAt, RateAt, Chi, Inverse, IsFamily;
    FamilyValid(c);
    var k := FamilyOf(c);
    forall i | i in k ensures k[i] <= c.rate.Keys { InfoKeys(c, i); }
    forall i, j | i in k && j in k && i != j && Depends(Par(c), k[i], k[j])
      ensures Lower(Total(c.rate, k[i]), Total(c.rate, k[j]))
    {
      var t, q :| t in k[i] && t in Par(c) && q in Par(c)[t] && q in k[j];
      DependsLower(c, i, j, t, q);
    }
  }

  lemma DependsLower(c: Core, i: nat, j: nat, t: nat, q: nat)
    requires Sane(c) && StrictlyDescending(c.rate, DepsOf(c), ForestOf(c)) && i in c.chunks && j in c.chunks && i != j
    requires t in TxsAt(c, i) && t in c.tx && q in c.tx[t].parents && q in TxsAt(c, j)
    ensures TxsAt(c, i) <= c.rate.Keys && TxsAt(c, j) <= c.rate.Keys
    ensures Lower(Total(c.rate, TxsAt(c, i)), Total(c.rate, TxsAt(c, j)))
  {
    MemberOf(c, i, t);
    MemberOf(c, j, q);
    InForest(c, t);
    InForest(c, q);
    ParentDep(c, t, q);
    if TxsAt(c, i) == TxsAt(c, j) { MemberOf(c, j, t); }
    InfoKeys(c, i);
    InfoKeys(c, j);
    hide Sane, ForestOf, TxsAt, DepsOf, Total, Lower;
  }

  lemma InfoKeys(c: Core, i: nat)
    requires Sane(c) && i in c.chunks
    ensures TxsAt(c, i) <= c.rate.Keys
  {
    hide ValidForest, ReachCorrect, Linked, ForestOf, TopsIndexed, InfosCorrect;
    forall x | x in TxsAt(c, i) ensures x in c.rate { }
  }

  lemma ParentDep(c: Core, t: nat, q: nat)
    requires Sane(c) && t in c.tx && q in c.tx[t].parents
    ensures q in c.tx && (q, t) in DepsOf(c)
  {
    hide ValidForest, ReachCorrect, ForestOf, TopsIndexed, InfosCorrect, Indexed;
  }

  /** The dependencies of a state are between different transactions. */
  lemma DepsAmong(g: DG.Graph, c: Core)
    requires DG.WellFormed(g) && Sane(c) && Par(c) == Construction.ParentsOf(g)
    ensures Among(DepsOf(c), c.tx.Keys)
  {
    hide ValidForest, InfosCorrect, ReachCorrect, TopsIndexed, Indexed;
    forall e | e in DepsOf(c) ensures e.0 in c.tx && e.1 in c.tx && e.0 != e.1 {
      assert e.0 in c.tx[e.1].parents && Par(c)[e.1] == c.tx[e.1].parents;
      assert e.1 in g.rate && e.0 in DG.ReducedParents(g, e.1);
    }
  }

  /** For every graph, and the state that everything starts from, there is an optimal state. */
  lemma OptimalStateExists(g: DG.Graph, c: Core) returns (d: Core)
    requires DG.WellFormed(g) && Sane(c) && Singletons(c) && c.rate == g.rate && Par(c) == Construction.ParentsOf(g)
    ensures Sane(d) && SameGraph(c, d) && TopologicalState(d) && AllOptimal(d)
  {
    DepsAmong(g, c);
    SaneRates(c);
    hide Sane, Singletons, TopologicalState, AllOptimal, PositiveSizes, ValidForest, StrictlyDescending, DepsOf,
         ForestOf, DG.WellFormed, Construction.ParentsOf;
    var f := OptimalExists(c.rate, c.tx.Keys, DepsOf(c));
    ForestShape(c.rate, c.tx.Keys, DepsOf(c), f);
    d := Realized(c, f);
    SameDeps(c, d);
    StateOptimal(d, c.tx.Keys, DepsOf(c));
    StateTopological(d);
  }

  lemma SaneRates(c: Core)
    requires Sane(c)
    ensures PositiveSizes(c.rate) && c.tx.Keys == c.rate.Keys
  {
  }

  lemma SameDeps(c: Core, d: Core)
    requires Sane(c) && Sane(d) && SameGraph(c, d)
    ensures DepsOf(c) == DepsOf(d)
  {
    hide ValidForest, InfosCorrect, ReachCorrect, TopsIndexed, ForestOf, Linked;
    forall x | x in c.tx ensures c.tx[x].children == Chi(c)[x] == Chi(d)[x] == d.tx[x].children { }
  }
}
