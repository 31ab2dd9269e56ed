/** Splitting the chunks of an optimal state into minimal ones (`StartMinimizing`, `MinimizeStep`,
    src/cluster_linearize.h). */
module Minimizing {
  import opened Options
  import opened FeeFracs
  import opened Totals
  import opened Forests
  import opened Families
  import opened Optimality
  import opened ForestCore
  import opened ForestSteps
  import opened ForestUpdates
  import opened MergeSequences
  import opened ImproveSteps
  import opened StateOptimality
  import opened LinearOrders
  import opened Minimality
  import opened EqualSplits
  import opened EqualOrders

  /** A chunk to be minimized, and how far this has got: whether the pivot is to be moved down rather
      than up, and whether moving it the other way has been tried already. */
  datatype Attempt = Attempt(chunk: nat, pivot: nat, down: bool, second: bool)

  ghost predicate InState(c: Core, i: nat) { i in c.chunks && TxsAt(c, i) <= c.rate.Keys }

  ghost predicate MinimalAt(c: Core, i: nat) { InState(c, i) && Minimal(c.rate, Par(c), TxsAt(c, i)) }

  ghost predicate NoPartAt(c: Core, i: nat, pivot: nat, inside: bool) {
    InState(c, i) && NoPart(c.rate, Par(c), TxsAt(c, i), pivot, inside)
  }

  ghost predicate AttemptOk(c: Core, a: Attempt) {
    && a.chunk in c.chunks && a.pivot in TxsAt(c, a.chunk)
    && (a.second ==> NoPartAt(c, a.chunk, a.pivot, a.down))
  }

  ghost predicate Queued(queue: seq<Attempt>, i: nat) { exists a :: a in queue && a.chunk == i }

  ghost predicate OneEach(queue: seq<Attempt>) {
    forall m, n :: 0 <= m < n < |queue| ==> queue[m].chunk != queue[n].chunk
  }

  /** Every chunk is in the queue, at most once, or minimal. */
  ghost predicate QueueOk(c: Core, queue: seq<Attempt>) {
    && (forall a :: a in queue ==> AttemptOk(c, a))
    && OneEach(queue)
    && (forall i :: i in c.chunks ==> Queued(queue, i) || MinimalAt(c, i))
  }

  // ----- looking for a dependency to split at

  ghost predicate EqualTop(c: Core, chunk: nat, x: nat, y: nat) {
    x in c.tx && y in c.tx[x].depTop && AtMost(RateAt(c, chunk), RateAt(c, c.tx[x].depTop[y]))
  }

  /** The dependency has a top set of the feerate of the chunk, and the pivot on the side from which
      it is to be moved. */
  ghost predicate Splittable(c: Core, a: Attempt, e: Dep) {
    && CanDeactivate(c, e.0, e.1) && EqualTop(c, a.chunk, e.0, e.1) && c.tx[e.0].chunkIdx == a.chunk
    && (a.pivot in TxsAt(c, c.tx[e.0].depTop[e.1])) != a.down
  }

  ghost predicate Misplaced(c: Core, a: Attempt, x: nat, y: nat) {
    EqualTop(c, a.chunk, x, y) ==> (a.pivot in TxsAt(c, c.tx[x].depTop[y])) == a.down
  }

  ghost predicate Scanned(c: Core, a: Attempt, x: nat, ys: set<nat>, any: bool, dep: Option<Dep>) {
    && (dep.Some? ==> any && Splittable(c, a, dep.value))
    && (dep.None? ==> forall y :: y in ys ==> Misplaced(c, a, x, y))
    && (!any ==> forall y :: y in ys ==> !EqualTop(c, a.chunk, x, y))
  }

  ghost predicate ScannedAll(c: Core, a: Attempt, xs: set<nat>, any: bool, dep: Option<Dep>) {
    && (dep.Some? ==> any && Splittable(c, a, dep.value))
    && (dep.None? ==> forall x, y :: x in xs && x in c.tx && y in c.tx[x].active ==> Misplaced(c, a, x, y))
    && (!any ==> forall x, y :: x in xs && x in c.tx && y in c.tx[x].active ==> !EqualTop(c, a.chunk, x, y))
  }

  /** Some dependency to split at, if there is one; `any` tells whether some top set has the feerate
      of the chunk at all. */
  method FindSplit(c: Core, a: Attempt) returns (any: bool, dep: Option<Dep>)
    requires Sane(c) && a.chunk in c.chunks
    ensures ScannedAll(c, a, TxsAt(c, a.chunk), any, dep)
  {
    hide Sane, RateAt, AtMost, TxsAt;
    any, dep := false, None;
    var best := 0;
    var todo := TxsAt(c, a.chunk);
    while todo != {}
      invariant todo <= TxsAt(c, a.chunk) && (dep.None? ==> best == 0)
      invariant ScannedAll(c, a, TxsAt(c, a.chunk) - todo, any, dep)
    {
      var x :| x in todo;
      MemberOfChunk(c, a.chunk, x);
      var children := c.tx[x].active;
      ghost var before := any;
      while children != {}
        invariant children <= c.tx[x].active && (dep.None? ==> best == 0) && (before ==> any)
        invariant Scanned(c, a, x, c.tx[x].active - children, any, dep)
        invariant ScannedAll(c, a, TxsAt(c, a.chunk) - todo, any, dep)
      {
        var y :| y in children;
        children := children - {y};
        var top := c.tx[x].depTop[y];
        if AtMost(RateAt(c, a.chunk), RateAt(c, top)) {
          any := true;
          if a.down != (a.pivot in TxsAt(c, top)) {
            var tiebreak :| 0 < tiebreak < 0x1_0000_0000_0000_0000;
            if tiebreak > best { dep, best := Some((x, y)), tiebreak; }
          }
        }
      }
      todo := todo - {x};
    }
  }

  // ----- what a search without result means

  lemma ActiveAreParents(c: Core)
    requires Sane(c)
    ensures Linked(c) && Indexed(c) && TopsIndexed(c)
    ensures forall e :: e in ForestOf(c).top ==> e.1 in Par(c) && e.0 in Par(c)[e.1]
  {
    hide ValidForest, InfosCorrect, ReachCorrect;
    forall e | e in ForestOf(c).top ensures e.1 in Par(c) && e.0 in Par(c)[e.1] {
      assert e.1 in c.tx[e.0].children;
    }
  }

  lemma PlacedTops(c: Core, a: Attempt)
    requires Sane(c) && a.chunk in c.chunks && ChunkOptimal(c, a.chunk)
    requires forall x, y :: x in TxsAt(c, a.chunk) && x in c.tx && y in c.tx[x].active ==> Misplaced(c, a, x, y)
    requires TxsAt(c, a.chunk) <= c.rate.Keys
    requires forall e :: e in DepsIn(ForestOf(c), TxsAt(c, a.chunk)) ==> ForestOf(c).top[e] <= c.rate.Keys
    ensures PivotPlaced(c.rate, ForestOf(c), TxsAt(c, a.chunk), a.pivot, a.down)
  {
    hide ValidForest, ReachCorrect, Total, Linked;
    var f, k := ForestOf(c), TxsAt(c, a.chunk);
    assert InfoCorrect(c.rate, c.info[a.chunk]);
    forall e | e in DepsIn(f, k) && Gain(Total(c.rate, k), Total(c.rate, f.top[e])) == 0
      ensures (a.pivot in f.top[e]) == a.down
    {
      assert e.0 in k && e.0 in c.tx && e.1 in c.tx[e.0].active;
      var t := c.tx[e.0].depTop[e.1];
      assert InfoCorrect(c.rate, c.info[t]);
      assert Misplaced(c, a, e.0, e.1);
    }
  }

  /** When no dependency can be split at, no equal-feerate part has the pivot outside (when it was to
      be moved down), or inside. */
  lemma SearchDecides(c: Core, a: Attempt)
    requires Sane(c) && a.chunk in c.chunks && ChunkOptimal(c, a.chunk) && a.pivot in TxsAt(c, a.chunk)
    requires forall x, y :: x in TxsAt(c, a.chunk) && x in c.tx && y in c.tx[x].active ==> Misplaced(c, a, x, y)
    ensures NoPartAt(c, a.chunk, a.pivot, !a.down)
  {
    hide Sane, Total, ChunkOptimal, NoHigherTop, ValidForest, ForestOf, Linked, Indexed, TopsIndexed, TxsAt, DepsIn,
         InfosCorrect, ReachCorrect, Misplaced, PivotPlaced, NoPart, Par;
    SaneParts(c);
    TopRates(c, a.chunk);
    ActiveAreParents(c);
    var x := ChunkMember(c, a.chunk);
    PlacedTops(c, a);
    PivotDecides(c.rate, Par(c), ForestOf(c), x, a.pivot, a.down);
  }

  /** No top set of equal feerate at all: the chunk is minimal. */
  lemma NoEqualTop(c: Core, a: Attempt)
    requires Sane(c) && a.chunk in c.chunks && ChunkOptimal(c, a.chunk) && a.pivot in TxsAt(c, a.chunk)
    requires forall x, y :: x in TxsAt(c, a.chunk) && x in c.tx && y in c.tx[x].active ==> !EqualTop(c, a.chunk, x, y)
    ensures MinimalAt(c, a.chunk)
  {
    hide Sane, ChunkOptimal, TxsAt, NoPart, Minimal;
    forall x, y | x in TxsAt(c, a.chunk) && x in c.tx && y in c.tx[x].active
      ensures Misplaced(c, a.(down := true), x, y) && Misplaced(c, a.(down := false), x, y)
    {
    }
    SearchDecides(c, a.(down := true));
    SearchDecides(c, a.(down := false));
    NeitherSide(c.rate, Par(c), TxsAt(c, a.chunk), a.pivot);
  }

  // ----- how the queue changes

  /** `d` has the chunks of `c`, other than `gone`, as they were. */
  ghost predicate OthersSame(c: Core, d: Core, gone: nat) {
    && SameGraph(c, d)
    && forall i :: i in c.chunks && i != gone ==> i in d.chunks && TxsAt(d, i) == TxsAt(c, i)
  }

  lemma AttemptKept(c: Core, d: Core, gone: nat, a: Attempt)
    requires OthersSame(c, d, gone) && AttemptOk(c, a) && a.chunk != gone
    ensures AttemptOk(d, a)
  {
    hide TxsAt, Par, Chi, NoPart;
  }

  lemma MinimalKept(c: Core, d: Core, gone: nat, i: nat)
    requires OthersSame(c, d, gone) && MinimalAt(c, i) && i != gone
    ensures MinimalAt(d, i)
  {
    hide TxsAt, Par, Chi, Minimal;
  }

  /** The first attempt has been dealt with, and those in `added` are left of it. */
  lemma QueueKept(c: Core, d: Core, queue: seq<Attempt>, added: seq<Attempt>)
    requires queue != [] && QueueOk(c, queue) && OthersSame(c, d, queue[0].chunk)
    requires forall a :: a in added ==> AttemptOk(d, a) && (a.chunk !in c.chunks || a.chunk == queue[0].chunk)
    requires forall m, n :: 0 <= m < n < |added| ==> added[m].chunk != added[n].chunk
    requires forall i :: i in d.chunks && (i !in c.chunks || i == queue[0].chunk) ==>
               Queued(added, i) || MinimalAt(d, i)
    ensures QueueOk(d, queue[1..] + added)
  {
    hide AttemptOk, OthersSame, MinimalAt;
    var rest, gone := queue[1..], queue[0].chunk;
    forall n | 0 <= n < |rest| ensures rest[n].chunk in c.chunks && rest[n].chunk != gone && AttemptOk(d, rest[n]) {
      assert rest[n] == queue[n + 1] && queue[n + 1] in queue;
      AttemptChunk(c, rest[n]);
      AttemptKept(c, d, gone, rest[n]);
    }
    forall i | i in d.chunks ensures Queued(rest + added, i) || MinimalAt(d, i) {
      if i in c.chunks && i != gone {
        if Queued(queue, i) {
          var a :| a in queue && a.chunk == i;
          assert a in rest && a in rest + added;
        } else {
          MinimalKept(c, d, gone, i);
        }
      } else if Queued(added, i) {
        var a :| a in added && a.chunk == i;
        assert a in rest + added;
      }
    }
    var all := rest + added;
    forall m, n | 0 <= m < n < |all| ensures all[m].chunk != all[n].chunk {
      if m < |rest| <= n { assert added[n - |rest|] in added; }
    }
  }

  lemma AttemptChunk(c: Core, a: Attempt)
    requires AttemptOk(c, a)
    ensures a.chunk in c.chunks && a.pivot in TxsAt(c, a.chunk)
  {
  }

  // ----- splitting

  ghost predicate SameDiagram(c: Core, d: Core)
    requires Sane(c) && Sane(d)
  {
    NeverWorse(c, d) && NeverWorse(d, c)
  }

  ghost predicate OrderlyState(c: Core)
    requires Sane(c)
  {
    FamilyValid(c);
    Orderly(c.rate, Par(c), FamilyOf(c))
  }

  /** Everything that minimizing keeps. */
  ghost predicate Minimizable(c: Core) { Sane(c) && AllOptimal(c) && OrderlyState(c) }

  ghost predicate Kept(c: Core, d: Core) { Minimizable(c) && Minimizable(d) && SameGraph(c, d) && SameDiagram(c, d) }

  lemma OptimalAfter(c: Core, e: Core, d: Core, gone: nat, ti: nat)
    requires AllOptimal(c) && OptimalKept(c, e, {gone}) && OptimalKept(e, d, {gone, ti}) && ti !in c.chunks
    requires forall i :: i in d.chunks && i !in c.chunks ==> i == ti
    requires gone in d.chunks ==> ChunkOptimal(d, gone)
    requires ti in d.chunks ==> ChunkOptimal(d, ti)
    ensures AllOptimal(d)
  {
    hide ChunkOptimal;
  }

  lemma MovedShape(c: Core, d: Core, ti: nat, ci: nat)
    requires SameGraph(c, d) && Moves(FamilyOf(c), ci, ti, FamilyOf(d))
    ensures OthersSame(c, d, ci) && d.chunks == c.chunks - {ci} + {ti} && TxsAt(d, ti) == TxsAt(c, ci)
  {
    hide TxsAt, Par, Chi;
    var k, f := FamilyOf(c), FamilyOf(d);
    forall i ensures i in d.chunks <==> i in f { }
    forall i | i in c.chunks && i != ci ensures i in d.chunks && TxsAt(d, i) == TxsAt(c, i) { assert f[i] == k[i]; }
    assert f[ti] == k[ci];
  }

  lemma MovedKept(c: Core, d: Core, ti: nat, ci: nat)
    requires Minimizable(c) && Sane(d) && SameGraph(c, d) && Moves(FamilyOf(c), ci, ti, FamilyOf(d)) && AllOptimal(d)
    ensures Kept(c, d)
  {
    hide Sane, Total, FamilyPotential, ChunkOptimal, FamilyOf, Par, Chi, Orderly, Moves, AllOptimal;
    FamilyValid(c);
    FamilyValid(d);
    MovedOrderly(c.rate, Par(c), FamilyOf(c), ci, ti, FamilyOf(d));
    forall r: FeeFrac ensures FamilyPotential(c.rate, FamilyOf(d), r) == FamilyPotential(c.rate, FamilyOf(c), r) {
      MovedPotential(c.rate, FamilyOf(c), ci, ti, FamilyOf(d), r);
    }
  }

  lemma SelfMergeKept(c: Core, e: Core, d: Core, ti: nat, ci: nat, t: set<nat>)
    requires Minimizable(c) && Sane(e) && Sane(d) && SplitEffect(c, e, ti, ci, t) && MergeEffect(e, d, ci, ti)
    requires ChunkOptimal(d, ti)
    ensures Kept(c, d) && OthersSame(c, d, ci) && d.chunks == c.chunks - {ci} + {ti} && TxsAt(d, ti) == TxsAt(c, ci)
  {
    hide Sane, ChunkOptimal, TxsAt, Par, Chi, OrderlyState, FamilyOf, Kept, OthersSame, OptimalKept;
    SelfMergeFamily(c, e, d, ti, ci, t);
    SplitMoves(c, d, ti, ci);
    MovedShape(c, d, ti, ci);
    OptimalAfter(c, e, d, ci, ti);
    MovedKept(c, d, ti, ci);
  }

  lemma SplitMoves(c: Core, d: Core, ti: nat, ci: nat)
    requires ci in c.chunks && ti !in c.chunks && FamilyOf(d) == (FamilyOf(c) - {ci})[ti := FamilyOf(c)[ci]]
    ensures Moves(FamilyOf(c), ci, ti, FamilyOf(d))
  {
  }

  lemma MovedPotential(m: Rates, k: Family, i: nat, j: nat, f: Family, r: FeeFrac)
    requires IsFamily(m, k) && IsFamily(m, f) && Moves(k, i, j, f)
    ensures FamilyPotential(m, f, r) == FamilyPotential(m, k, r)
  {
    hide Total, FamilyPotential, Gain;
    FamilyWithout(m, k, i, r);
    FamilyWithout(m, f, j, r);
    assert f - {j} == k - {i};
  }

  lemma SplitIsEqual(c: Core, e: Core, ti: nat, ci: nat, t: set<nat>)
    requires Sane(c) && Sane(e) && SplitEffect(c, e, ti, ci, t) && TxsAt(c, ci) <= c.rate.Keys
    requires !Depends(Par(e), TxsAt(e, ti), TxsAt(e, ci)) && Gain(RateAt(c, ci), RateAt(e, ti)) == 0
    ensures TxsAt(e, ti) == t && TxsAt(e, ci) == TxsAt(c, ci) - t
    ensures EqualSplit(c.rate, Par(c), TxsAt(c, ci), t)
  {
    hide Sane, Total, ChunkOptimal, TxsAt, RateAt, Par, Chi, OptimalKept;
    FamilyValid(c);
    FamilyValid(e);
    var k := FamilyOf(c);
    assert FamilyOf(e)[ti] == t && FamilyOf(e)[ci] == k[ci] - t;
    var par, b := Par(c), k[ci] - t;
    forall x | x in t && x in par ensures par[x] * k[ci] <= t {
      forall q | q in par[x] * k[ci] ensures q in t { assert q in b ==> Depends(par, t, b); }
    }
  }

  lemma SplitShapes(c: Core, d: Core, ti: nat, ci: nat, t: set<nat>)
    requires SameGraph(c, d) && ci in c.chunks && FamilyOf(d) == SplitFamily(FamilyOf(c), ci, ti, t)
    ensures OthersSame(c, d, ci) || ti in c.chunks
    ensures d.chunks == c.chunks + {ti}
  {
    hide TxsAt, Par, Chi;
    var k, f := FamilyOf(c), FamilyOf(d);
    forall i ensures i in d.chunks <==> i in f { }
    forall i | i in c.chunks && i != ci && i != ti
      ensures i in d.chunks && TxsAt(d, i) == TxsAt(c, i)
    {
      assert f[i] == k[i];
    }
  }

  lemma SplitStays(c: Core, d: Core, ti: nat, ci: nat, t: set<nat>)
    requires Minimizable(c) && Sane(d) && SameGraph(c, d) && AllOptimal(d) && ci in c.chunks && ti !in c.chunks
    requires FamilyOf(d) == SplitFamily(FamilyOf(c), ci, ti, t)
    requires FamilyOf(c)[ci] <= c.rate.Keys && EqualSplit(c.rate, Par(c), FamilyOf(c)[ci], t)
    ensures Kept(c, d)
  {
    hide Sane, Total, FamilyPotential, ChunkOptimal, TxsAt, Par, Chi, Orderly, AllOptimal, SplitFamily, EqualSplit;
    FamilyValid(c);
    FamilyValid(d);
    SplitOrderly(c.rate, Par(c), FamilyOf(c), ci, ti, t);
    forall r: FeeFrac | r.size > 0
      ensures FamilyPotential(c.rate, FamilyOf(d), r) == FamilyPotential(c.rate, FamilyOf(c), r)
    {
      SplitPotential(c.rate, Par(c), FamilyOf(c), ci, ti, t, r);
    }
  }

  lemma SplitKept(c: Core, d: Core, ti: nat, ci: nat, t: set<nat>)
    requires Minimizable(c) && Sane(d) && SplitEffect(c, d, ti, ci, t) && ChunkOptimal(d, ti) && ChunkOptimal(d, ci)
    requires TxsAt(c, ci) <= c.rate.Keys && EqualSplit(c.rate, Par(c), TxsAt(c, ci), t)
    ensures Kept(c, d) && OthersSame(c, d, ci) && d.chunks == c.chunks + {ti}
  {
    hide Sane, ChunkOptimal, TxsAt, Par, Chi, OrderlyState, Kept, OthersSame, EqualSplit;
    SplitShapes(c, d, ti, ci, t);
    NothingChanges(d, {ci, ti});
    OptimalAfter(c, d, d, ci, ti);
    SplitStays(c, d, ti, ci, t);
  }

  lemma NothingChanges(d: Core, touched: set<nat>)
    ensures OptimalKept(d, d, touched)
  {
    hide ChunkOptimal;
  }

  // ----- the steps

  lemma NothingDone(c: Core)
    requires Minimizable(c)
    ensures Kept(c, c) && forall i :: OthersSame(c, c, i)
  {
    hide Sane, AllOptimal, OrderlyState, TxsAt, Par, Chi;
    FamilyValid(c);
  }

  /** The attempt is over: its chunk is minimal. */
  lemma AttemptOver(c: Core, queue: seq<Attempt>)
    requires queue != [] && QueueOk(c, queue) && MinimalAt(c, queue[0].chunk)
    ensures QueueOk(c, queue[1..])
  {
    hide MinimalAt, AttemptOk;
    assert OthersSame(c, c, queue[0].chunk) by { hide TxsAt, Par, Chi; }
    QueueKept(c, c, queue, []);
    assert queue[1..] + [] == queue[1..];
  }

  /** The other direction is tried next. */
  lemma OtherDirection(c: Core, queue: seq<Attempt>)
    requires queue != [] && QueueOk(c, queue) && NoPartAt(c, queue[0].chunk, queue[0].pivot, !queue[0].down)
    ensures var a := queue[0]; QueueOk(c, queue[1..] + [Attempt(a.chunk, a.pivot, !a.down, true)])
  {
    hide MinimalAt, NoPartAt;
    var a := queue[0];
    assert OthersSame(c, c, a.chunk) by { hide TxsAt, Par, Chi; }
    assert a in queue && AttemptOk(c, a);
    var b := Attempt(a.chunk, a.pivot, !a.down, true);
    assert b in [b];
    QueueKept(c, c, queue, [b]);
  }

  lemma BothDirections(c: Core, a: Attempt)
    requires AttemptOk(c, a) && a.second && NoPartAt(c, a.chunk, a.pivot, !a.down)
    ensures MinimalAt(c, a.chunk)
  {
    hide NoPart, Minimal, TxsAt, Par;
    NeitherSide(c.rate, Par(c), TxsAt(c, a.chunk), a.pivot);
  }

  lemma EqualTopRate(c: Core, a: Attempt, e: Dep)
    requires Splittable(c, a, e) && ChunkOptimal(c, a.chunk) && e.0 in TxsAt(c, a.chunk)
    ensures Gain(RateAt(c, a.chunk), RateAt(c, c.tx[e.0].depTop[e.1])) == 0
  {
  }

  lemma OwnTxs(c: Core, x: nat)
    requires Sane(c) && x in c.tx
    ensures c.tx[x].chunkIdx in c.chunks && x in TxsAt(c, c.tx[x].chunkIdx)
  {
    hide ValidForest, ForestOf, Linked, TopsIndexed, InfosCorrect, ReachCorrect;
  }

  /** The parts of the split chunk: optimal, and of equal feerate. */
  lemma SplitParts(c: Core, e: Core, p: nat, ch: nat)
    requires Sane(c) && Sane(e) && CanDeactivate(c, p, ch) && DeactivateData(c, e, p, ch)
    requires ChunkOptimal(c, c.tx[p].chunkIdx) && Gain(RateAt(c, c.tx[p].chunkIdx), RateAt(c, c.tx[p].depTop[ch])) == 0
    ensures var ti, ci := c.tx[p].depTop[ch], c.tx[p].chunkIdx;
            && ChunkOptimal(e, ti) && ChunkOptimal(e, ci)
            && Gain(RateAt(e, ci), RateAt(e, ti)) == 0 && Gain(RateAt(c, ci), RateAt(e, ti)) == 0
  {
    hide Sane, DeactivateData, ChunkOptimal, RateAt, TxsAt, Gain;
    SplitShape(c, e, p, ch);
    var ci := c.tx[p].chunkIdx;
    SplitKeepsOptimal(c, e, p, ch, ci);
    SplitKeepsOptimal(c, e, p, ch, c.tx[p].depTop[ch]);
    ChunkSize(c, ci);
    ChunkSize(e, ci);
    SameRatio(RateAt(c, ci), RateAt(e, ci), RateAt(e, c.tx[p].depTop[ch]));
  }

  lemma MovedAttempt(c: Core, d: Core, queue: seq<Attempt>, ti: nat)
    requires queue != [] && QueueOk(c, queue) && OthersSame(c, d, queue[0].chunk) && ti !in c.chunks
    requires d.chunks == c.chunks - {queue[0].chunk} + {ti} && TxsAt(d, ti) == TxsAt(c, queue[0].chunk)
    ensures QueueOk(d, queue[1..] + [queue[0].(chunk := ti)])
  {
    hide MinimalAt, TxsAt, Par, Chi;
    var a := queue[0];
    assert a in queue && AttemptOk(c, a);
    var b := a.(chunk := ti);
    assert AttemptOk(d, b) by { hide NoPart; }
    assert b in [b];
    QueueKept(c, d, queue, [b]);
  }

  /** The part that has the pivot goes on with it. */
  lemma PivotPart(c: Core, d: Core, a: Attempt, ti: nat, t: set<nat>)
    requires AttemptOk(c, a) && SameGraph(c, d) && ti in d.chunks && a.chunk in d.chunks
    requires TxsAt(c, a.chunk) <= c.rate.Keys
    requires EqualSplit(c.rate, Par(c), TxsAt(c, a.chunk), t) && (a.pivot in t) != a.down
    requires TxsAt(d, ti) == t && TxsAt(d, a.chunk) == TxsAt(c, a.chunk) - t
    ensures AttemptOk(d, if a.down then a else a.(chunk := ti))
  {
    hide TxsAt, Par, Chi, NoPart, EqualSplit;
    var k := TxsAt(c, a.chunk);
    Minimality.SplitParts(c.rate, Par(c), k, t);
    if a.second {
      if a.down {
        NoPartOfBottom(c.rate, Par(c), k, t, a.pivot);
      } else {
        NoPartOfTop(c.rate, Par(c), k, t, a.pivot);
      }
    }
  }

  lemma SplitAttempts(c: Core, d: Core, queue: seq<Attempt>, ti: nat, x: Attempt, y: Attempt)
    requires queue != [] && QueueOk(c, queue) && OthersSame(c, d, queue[0].chunk) && ti !in c.chunks
    requires queue[0].chunk in c.chunks
    requires d.chunks == c.chunks + {ti} && AttemptOk(d, x) && AttemptOk(d, y)
    requires (x.chunk == ti && y.chunk == queue[0].chunk) || (y.chunk == ti && x.chunk == queue[0].chunk)
    ensures QueueOk(d, queue[1..] + [x, y])
  {
    hide MinimalAt, AttemptOk, OthersSame;
    assert x in [x, y] && y in [x, y];
    QueueKept(c, d, queue, [x, y]);
  }

  /** Every chunk, with some pivot and direction. */
  method StartMinimizing(c: Core) returns (queue: seq<Attempt>)
    requires Sane(c)
    ensures QueueOk(c, queue)
  {
    hide Sane, MinimalAt, TxsAt;
    queue := [];
    var todo := c.chunks;
    while todo != {}
      invariant todo <= c.chunks
      invariant forall a :: a in queue ==> AttemptOk(c, a) && a.chunk !in todo
      invariant OneEach(queue)
      invariant forall i :: i in c.chunks && i !in todo ==> Queued(queue, i)
    {
      var i :| i in todo;
      NonemptyChunk(c, i);
      var pivot :| pivot in TxsAt(c, i);
      var down: bool := *;
      var a := Attempt(i, pivot, down, false);
      var j :| 0 <= j <= |queue|;
      ghost var before := queue;
      queue := if j < |queue| then queue[j := a] + [queue[j]] else queue + [a];
      SwappedIn(before, queue, j, a);
      todo := todo - {i};
    }
  }

  lemma NonemptyChunk(c: Core, i: nat)
    requires Sane(c) && i in c.chunks
    ensures TxsAt(c, i) != {}
  {
    FamilyValid(c);
    assert FamilyOf(c)[i] == TxsAt(c, i);
  }

  lemma SwappedIn(before: seq<Attempt>, queue: seq<Attempt>, j: nat, a: Attempt)
    requires j <= |before| && queue == if j < |before| then before[j := a] + [before[j]] else before + [a]
    ensures forall b :: b in queue <==> b in before || b == a
    ensures forall i :: Queued(before, i) || a.chunk == i ==> Queued(queue, i)
    ensures OneEach(before) && (forall b :: b in before ==> b.chunk != a.chunk) ==> OneEach(queue)
  {
    if j < |before| {
      assert queue[j] == a && queue[|before|] == before[j];
      assert forall n :: 0 <= n < |before| && n != j ==> queue[n] == before[n];
    }
    assert a in queue;
  }

  /** Try to split the first chunk of the queue; false when every chunk is minimal. */
  method MinimizeStep(c: Core, queue: seq<Attempt>) returns (d: Core, queue': seq<Attempt>, more: bool)
    requires Minimizable(c) && QueueOk(c, queue)
    ensures Kept(c, d) && QueueOk(d, queue')
    ensures !more ==> forall i :: i in d.chunks ==> MinimalAt(d, i)
  {
    hide Sane, AllOptimal, OrderlyState, Kept, QueueOk, MinimalAt, NoPartAt, OthersSame, RateAt, TxsAt, Par, Chi, Gain,
         AtMost, ChunkOptimal, DeactivateData, MergeEffect, EqualSplit, Depends, OptimalKept;
    NothingDone(c);
    if queue == [] {
      EmptyQueue(c);
      return c, queue, false;
    }
    var a := queue[0];
    FirstAttempt(c, queue);
    var any, dep := FindSplit(c, a);
    if !any {
      NoEqualTop(c, a);
      AttemptOver(c, queue);
      return c, queue[1..], true;
    }
    if dep.None? {
      SearchDecides(c, a);
      if a.second {
        BothDirections(c, a);
        AttemptOver(c, queue);
        return c, queue[1..], true;
      }
      OtherDirection(c, queue);
      return c, queue[1..] + [Attempt(a.chunk, a.pivot, !a.down, true)], true;
    }
    var p, ch := dep.value.0, dep.value.1;
    var ti, ci := c.tx[p].depTop[ch], a.chunk;
    OwnTxs(c, p);
    EqualTopRate(c, a, dep.value);
    var e := Deactivate(c, p, ch);
    DeactivateEffect(c, e, p, ch);
    ghost var t := c.info[ti].transactions;
    RateIs(c, ti);
    SplitParts(c, e, p, ch);
    SplitChunks(c, e, ti, ci, t);
    BackDepends(e, ti, ci);
    if e.reach[ti].up * TxsAt(e, ci) != {} {
      d := MergeChunks(e, ci, ti);
      SelfMergeKept(c, e, d, ti, ci, t);
      MovedAttempt(c, d, queue, ti);
      queue' := queue[1..] + [a.(chunk := ti)];
    } else {
      d := e;
      SplitIsEqual(c, e, ti, ci, t);
      SplitKept(c, e, ti, ci, t);
      PivotPart(c, e, a, ti, t);
      NonemptyChunk(e, ti);
      NonemptyChunk(e, ci);
      var newPivot :| newPivot in TxsAt(e, if a.down then ti else ci);
      var down: bool := *;
      var swap: bool := *;
      var x, y := if a.down then Attempt(ti, newPivot, down, false) else a.(chunk := ti),
                  if a.down then a else Attempt(ci, newPivot, down, false);
      if swap { x, y := y, x; }
      SplitAttempts(c, e, queue, ti, x, y);
      queue' := queue[1..] + [x, y];
    }
    more := true;
  }

  lemma EmptyQueue(c: Core)
    requires QueueOk(c, [])
    ensures forall i :: i in c.chunks ==> MinimalAt(c, i)
  {
    forall i | i in c.chunks ensures MinimalAt(c, i) { assert !Queued([], i); }
  }

  lemma FirstAttempt(c: Core, queue: seq<Attempt>)
    requires Minimizable(c) && QueueOk(c, queue) && queue != []
    ensures var a := queue[0]; AttemptOk(c, a) && ChunkOptimal(c, a.chunk) && TxsAt(c, a.chunk) <= c.rate.Keys
  {
    hide Sane, OrderlyState, ChunkOptimal, TxsAt, MinimalAt, NoPartAt;
    assert queue[0] in queue;
    FamilyValid(c);
    assert FamilyOf(c)[queue[0].chunk] == TxsAt(c, queue[0].chunk);
  }
}
