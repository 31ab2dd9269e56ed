/** Merging chunks until the state is topological (`MakeTopological`, src/cluster_linearize.h). */
module MakingTopological {
  import opened Options
  import opened FeeFracs
  import opened Totals
  import opened Families
  import opened ForestCore
  import opened ForestSteps
  import opened MergeCandidates
  import opened MergeSequences
  import opened ImproveSteps

  /** The queue holds each element of `idxs` once. */
  ghost predicate Holds(queue: seq<nat>, idxs: set<nat>) {
    && (forall i :: i in queue <==> i in idxs)
    && (forall a, b :: 0 <= a < b < |queue| ==> queue[a] != queue[b])
  }

  /** Some order of the elements of a set. */
  method Shuffled(s: set<nat>) returns (queue: seq<nat>)
    ensures Holds(queue, s)
  {
    queue := [];
    var todo := s;
    while todo != {}
      invariant todo <= s && Holds(queue, s - todo)
    {
      var i :| i in todo;
      todo := todo - {i};
      queue := queue + [i];
      ghost var before := queue;
      var j :| 0 <= j < |queue|;
      var last := |queue| - 1;
      queue := queue[last := queue[j]][j := queue[last]];
      assert forall x :: x in queue <==> x in before by {
        assert queue[j] == before[last] && queue[last] == before[j];
        assert forall n :: 0 <= n < |queue| && n != j && n != last ==> queue[n] == before[n];
      }
    }
  }

  lemma PopFront(queue: seq<nat>, idxs: set<nat>)
    requires Holds(queue, idxs) && queue != []
    ensures queue[0] in idxs && Holds(queue[1..], idxs - {queue[0]})
  {
  }

  /** Append to the queue what it does not hold yet. */
  method PushBack(queue: seq<nat>, idxs: set<nat>, i: nat) returns (queue': seq<nat>, idxs': set<nat>)
    requires Holds(queue, idxs)
    ensures Holds(queue', idxs') && idxs' == idxs + {i}
  {
    queue', idxs' := queue, idxs;
    if i !in idxs {
      queue', idxs' := queue + [i], idxs + {i};
    }
  }

  /** Chunk `i` depends on chunk `j`, of no higher feerate. */
  ghost predicate Violation(c: Core, i: nat, j: nat) {
    i in c.chunks && Joinable(c, i, false, j)
  }

  /** The queue will have `i` tried in the given direction. */
  predicate Tried(idxs: set<nat>, merged: set<nat>, initDown: bool, i: nat, down: bool) {
    i in idxs && (i in merged || down == initDown)
  }

  /** Every violation will be found, from one of its sides. */
  ghost predicate Covered(c: Core, idxs: set<nat>, merged: set<nat>, initDown: bool) {
    forall i, j :: Violation(c, i, j) ==>
      Tried(idxs, merged, initDown, i, false) || Tried(idxs, merged, initDown, j, true)
  }

  lemma ViolationFromAbove(c: Core, i: nat, j: nat)
    requires Sane(c) && Violation(c, i, j)
    ensures j in c.chunks && Joinable(c, j, true, i)
  {
    hide Sane, Par, Chi, Depends;
    FamilyValid(c);
    DependsInverse(Par(c), Chi(c), TxsAt(c, j), TxsAt(c, i));
  }

  lemma NoViolation(c: Core)
    requires Sane(c) && forall i, j :: !Violation(c, i, j)
    ensures TopologicalState(c)
  {
    hide Sane, Par, Chi, Depends, Total, TxsAt, RateAt;
    FamilyValid(c);
    var k := FamilyOf(c);
    forall i, j | i in k && j in k && i != j && Depends(Par(c), k[i], k[j])
      ensures Lower(Total(c.rate, k[i]), Total(c.rate, k[j]))
    {
      assert !Violation(c, i, j);
    }
  }

  /** A popped chunk that could not be merged in the directions tried covers nothing. */
  lemma PopCovered(c: Core, idxs: set<nat>, merged: set<nat>, initDown: bool, x: nat)
    requires Sane(c) && Covered(c, idxs, merged, initDown)
    requires x in c.chunks && Tried(idxs, merged, initDown, x, false) ==> BestCandidate(c, x, false, None)
    requires x in c.chunks && Tried(idxs, merged, initDown, x, true) ==> BestCandidate(c, x, true, None)
    ensures Covered(c, idxs - {x}, merged, initDown)
  {
    hide Sane, Joinable;
    forall i, j | Violation(c, i, j)
      ensures Tried(idxs - {x}, merged, initDown, i, false) || Tried(idxs - {x}, merged, initDown, j, true)
    {
      ViolationFromAbove(c, i, j);
      JoinableIsChunk(c, i, false, j);
      assert Joinable(c, j, true, i);
    }
  }

  lemma OldViolation(c: Core, d: Core, from: nat, into: nat, i: nat, j: nat)
    requires Sane(c) && Sane(d) && MergeEffect(c, d, from, into) && Violation(d, i, j) && i != into && j != into
    ensures Violation(c, i, j) && i != from && j != from
  {
    hide Sane, Par, Chi, Depends, Total, TxsAt, RateAt, AtMost;
    FamilyValid(c);
    FamilyValid(d);
    assert i in FamilyOf(d) && j in FamilyOf(d) && FamilyOf(d)[i] == FamilyOf(c)[i] && FamilyOf(d)[j] == FamilyOf(c)[j];
  }

  lemma MergeCovered(c: Core, d: Core, from: nat, into: nat, idxs: set<nat>, merged: set<nat>, initDown: bool, x: nat)
    requires Sane(c) && Sane(d) && MergeEffect(c, d, from, into) && Covered(c, idxs, merged, initDown)
    requires x == from || x == into
    ensures Covered(d, idxs - {x} + {into}, merged + {into}, initDown)
  {
    hide Sane, Joinable, MergeEffect, Violation;
    forall i, j | Violation(d, i, j)
      ensures || Tried(idxs - {x} + {into}, merged + {into}, initDown, i, false)
              || Tried(idxs - {x} + {into}, merged + {into}, initDown, j, true)
    {
      if i != into && j != into { OldViolation(c, d, from, into, i, j); }
    }
  }

  /** Try the directions in which `x` is due, in either order, until one merges. */
  method TryMerges(c: Core, x: nat, up: bool, down: bool) returns (d: Core, merged: Option<nat>, ghost joined: nat)
    requires Sane(c) && x in c.chunks
    ensures merged.None? ==>
              d == c && (up ==> BestCandidate(c, x, false, None)) && (down ==> BestCandidate(c, x, true, None))
    ensures merged.Some? ==>
      && Sane(d)
      && ((MergeEffect(c, d, joined, x) && merged.value == x) ||
         (MergeEffect(c, d, x, joined) && merged.value == joined))
  {
    hide Sane, MergeEffect, BestCandidate;
    d, merged, joined := c, None, 0;
    var flip :| flip == 0 || flip == 1;
    var i := 0;
    while i < 2
      invariant 0 <= i <= 2 && merged.None? && d == c
      invariant up && (i == 2 || (i == 1 && flip == 1)) ==> BestCandidate(c, x, false, None)
      invariant down && (i == 2 || (i == 1 && flip == 0)) ==> BestCandidate(c, x, true, None)
    {
      if i != flip {
        if up {
          d, merged, joined := MergeStep(c, x, false);
          if merged.Some? { return; }
        }
      } else {
        if down {
          d, merged, joined := MergeStep(c, x, true);
          if merged.Some? { return; }
        }
      }
      i := i + 1;
    }
  }

  method MakeTopological(c: Core) returns (d: Core)
    requires Sane(c)
    ensures Sane(d) && SameGraph(c, d) && TopologicalState(d)
  {
    hide Sane, MergeEffect, BestCandidate, Covered, TopologicalState, Par, Chi;
    d := c;
    var initDown: bool := *;
    var merged: set<nat>, idxs := {}, d.chunks;
    var queue := Shuffled(d.chunks);
    AllCovered(c, initDown);
    while queue != []
      invariant Sane(d) && SameGraph(c, d) && Holds(queue, idxs) && Covered(d, idxs, merged, initDown)
      decreases |d.chunks|, |queue|
    {
      var x := queue[0];
      PopFront(queue, idxs);
      var e, result: Option<nat> := d, None;
      ghost var joined := 0;
      if x in d.chunks {
        e, result, joined := TryMerges(d, x, x in merged || !initDown, x in merged || initDown);
      }
      if result.None? {
        PopCovered(d, idxs, merged, initDown, x);
        queue, idxs := queue[1..], idxs - {x};
      } else {
        MergeSame(d, e, x, joined, result.value);
        MergeCovered(d, e, if result.value == x then joined else x, result.value, idxs, merged, initDown, x);
        queue, idxs := PushBack(queue[1..], idxs - {x}, result.value);
        merged, d := merged + {result.value}, e;
      }
    }
    NothingLeft(d, idxs, merged, initDown);
  }

  lemma AllCovered(c: Core, initDown: bool)
    requires Sane(c)
    ensures Covered(c, c.chunks, {}, initDown)
  {
    hide Sane, Depends;
  }

  lemma NothingLeft(c: Core, idxs: set<nat>, merged: set<nat>, initDown: bool)
    requires Sane(c) && Holds([], idxs) && Covered(c, idxs, merged, initDown)
    ensures TopologicalState(c)
  {
    hide Sane, Violation;
    forall i, j ensures !Violation(c, i, j) { assert i !in idxs && j !in idxs; }
    NoViolation(c);
  }

  lemma MergeSame(c: Core, d: Core, x: nat, y: nat, into: nat)
    requires (MergeEffect(c, d, y, x) && into == x) || (MergeEffect(c, d, x, y) && into == y)
    ensures SameGraph(c, d) && |d.chunks| < |c.chunks|
  {
    hide FamilyOf, ChunkOptimal;
    if MergeEffect(c, d, y, x) { FewerChunks(c, d, y, x); } else { FewerChunks(c, d, x, y); }
  }
}
