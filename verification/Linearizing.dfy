/** Producing a linearization from the chunks (`GetLinearization`, src/cluster_linearize.h).

    Heaps are modelled as sets from which the first element is taken. */
module Linearizing {
  import opened Totals
  import opened Forests
  import opened Families
  import opened ForestCore
  import opened ForestSteps
  import opened LinearOrders
  import LinearizationQuality

  /** The first of the ready elements. */
  method PopFirst(ready: set<nat>, keys: map<nat, Key>) returns (first: nat)
    requires ready != {} && PositiveKeys(ready, keys)
    ensures first in ready && forall y :: y in ready ==> !Before(keys[y], keys[first])
  {
    hide Before;
    first :| first in ready;
    NotBeforeItself(keys[first]);
    var todo := ready - {first};
    while todo != {}
      invariant todo <= ready && first in ready
      invariant forall y :: y in ready - todo ==> !Before(keys[y], keys[first])
    {
      var x :| x in todo;
      todo := todo - {x};
      if Before(keys[x], keys[first]) {
        forall y | y in ready - todo ensures !Before(keys[y], keys[x]) {
          if Before(keys[y], keys[x]) {
            BeforeTransitive(keys[y], keys[x], keys[first]);
            NotBeforeItself(keys[x]);
          }
        }
        first := x;
      }
    }
  }

  lemma NotBeforeItself(a: Key)
    ensures !Before(a, a)
  {
  }

  // ----- dependency counts

  /** The parents of `x` whose dependency has not been met yet. */
  ghost function Unmet(c: Core, met: set<Dep>, x: nat): set<nat>
    requires x in c.tx
  {
    set q | q in c.tx[x].parents && (q, x) !in met
  }

  ghost function OutsideDeps(c: Core, x: nat): set<Dep>
    requires x in c.tx
  {
    set q | q in c.tx[x].parents && q !in TxsAt(c, c.tx[x].chunkIdx) :: (q, x)
  }

  /** The unmet dependencies of the transactions `xs` on other chunks. */
  ghost function UnmetOf(c: Core, met: set<Dep>, xs: set<nat>): set<Dep> {
    set x, e | x in xs && x in c.tx && e in OutsideDeps(c, x) && e !in met :: e
  }

  ghost function UnmetAt(c: Core, met: set<Dep>, i: nat): set<Dep> { UnmetOf(c, met, TxsAt(c, i)) }

  ghost predicate TxCounts(c: Core, met: set<Dep>, txDeps: map<nat, int>) {
    forall x :: x in c.tx ==> x in txDeps && txDeps[x] == |Unmet(c, met, x)|
  }

  ghost predicate ChunkCounts(c: Core, met: set<Dep>, chunkDeps: map<nat, int>) {
    forall i :: i in c.chunks ==> i in chunkDeps && chunkDeps[i] == |UnmetAt(c, met, i)|
  }

  // ----- counting them

  lemma CountTx(c: Core, x: nat)
    requires x in c.tx
    ensures |OutsideDeps(c, x)| == |c.tx[x].parents - TxsAt(c, c.tx[x].chunkIdx)|
  {
    Pairs(c.tx[x].parents - TxsAt(c, c.tx[x].chunkIdx), x);
    assert OutsideDeps(c, x) == PairsOf(c.tx[x].parents - TxsAt(c, c.tx[x].chunkIdx), x);
  }

  ghost function PairsOf(s: set<nat>, x: nat): set<Dep> { set q | q in s :: (q, x) }

  lemma {:induction false} Pairs(s: set<nat>, x: nat)
    ensures |PairsOf(s, x)| == |s|
    decreases s
  {
    if s != {} {
      var q :| q in s;
      Pairs(s - {q}, x);
      assert PairsOf(s, x) == PairsOf(s - {q}, x) + {(q, x)};
    } else {
      assert PairsOf(s, x) == {};
    }
  }

  lemma CountOne(c: Core, xs: set<nat>, x: nat)
    requires x in c.tx && x !in xs
    ensures |UnmetOf(c, {}, xs + {x})| == |UnmetOf(c, {}, xs)| + |OutsideDeps(c, x)|
  {
    hide UnmetOf, OutsideDeps;
    UnmetApart(c, xs, x);
    UnmetMore(c, xs, x);
  }

  lemma InUnmet(c: Core, xs: set<nat>, e: Dep)
    ensures e in UnmetOf(c, {}, xs) <==> e.1 in xs && e.1 in c.tx && e in OutsideDeps(c, e.1)
  {
    if e in UnmetOf(c, {}, xs) {
      var x :| x in xs && x in c.tx && e in OutsideDeps(c, x);
      assert e.1 == x;
    }
    if e.1 in xs && e.1 in c.tx && e in OutsideDeps(c, e.1) {
      var x, met: set<Dep> := e.1, {};
      assert x in xs && x in c.tx && e in OutsideDeps(c, x) && e !in met;
    }
  }

  lemma OwnOutside(c: Core, x: nat, e: Dep)
    requires x in c.tx
    ensures e in OutsideDeps(c, x) ==> e.1 == x
  {
  }

  lemma UnmetApart(c: Core, xs: set<nat>, x: nat)
    requires x in c.tx && x !in xs
    ensures UnmetOf(c, {}, xs) * OutsideDeps(c, x) == {}
  {
    hide UnmetOf, OutsideDeps;
    forall e | e in UnmetOf(c, {}, xs) ensures e !in OutsideDeps(c, x) {
      InUnmet(c, xs, e);
      OwnOutside(c, x, e);
    }
  }

  lemma UnmetMore(c: Core, xs: set<nat>, x: nat)
    requires x in c.tx
    ensures UnmetOf(c, {}, xs + {x}) == UnmetOf(c, {}, xs) + OutsideDeps(c, x)
  {
    hide UnmetOf, OutsideDeps;
    forall e ensures e in UnmetOf(c, {}, xs + {x}) <==> e in UnmetOf(c, {}, xs) || e in OutsideDeps(c, x) {
      InUnmet(c, xs, e);
      InUnmet(c, xs + {x}, e);
      OwnOutside(c, x, e);
    }
  }

  /** The transactions of chunk `i` that have been counted. */
  ghost function Counted(c: Core, todo: set<nat>, i: nat): set<nat> { TxsAt(c, i) - todo }

  method CountDeps(c: Core) returns (txDeps: map<nat, int>, chunkDeps: map<nat, int>)
    requires Sane(c)
    ensures TxCounts(c, {}, txDeps) && ChunkCounts(c, {}, chunkDeps)
  {
    hide Sane, OutsideDeps;
    txDeps, chunkDeps := map[], map i | i in c.chunks :: 0;
    forall i | i in c.chunks ensures UnmetOf(c, {}, Counted(c, c.tx.Keys, i)) == {} { ChunkTxs(c, i); }
    var todo := c.tx.Keys;
    while todo != {}
      invariant todo <= c.tx.Keys
      invariant forall x :: x in c.tx && x !in todo ==> x in txDeps && txDeps[x] == |c.tx[x].parents|
      invariant forall i :: i in c.chunks ==> i in chunkDeps && chunkDeps[i] == |UnmetOf(c, {}, Counted(c, todo, i))|
    {
      var x :| x in todo;
      var i := c.tx[x].chunkIdx;
      OwnChunk(c, x);
      CountTx(c, x);
      CountOne(c, Counted(c, todo, i), x);
      forall j | j in c.chunks
        ensures Counted(c, todo - {x}, j) == if j == i then Counted(c, todo, i) + {x} else Counted(c, todo, j)
      {
      }
      txDeps := txDeps[x := |c.tx[x].parents|];
      chunkDeps := chunkDeps[i := chunkDeps[i] + |c.tx[x].parents - TxsAt(c, i)|];
      todo := todo - {x};
    }
    forall x | x in c.tx ensures Unmet(c, {}, x) == c.tx[x].parents { }
    forall i | i in c.chunks ensures Counted(c, {}, i) == TxsAt(c, i) { }
  }

  lemma ChunkTxs(c: Core, i: nat)
    requires Sane(c) && i in c.chunks
    ensures TxsAt(c, i) <= c.tx.Keys && TxsAt(c, i) != {} && forall x :: x in TxsAt(c, i) ==> c.tx[x].chunkIdx == i
  {
    hide ValidForest, ForestOf, Linked, TopsIndexed, InfosCorrect, ReachCorrect;
  }

  lemma OwnChunk(c: Core, x: nat)
    requires Sane(c) && x in c.tx
    ensures c.tx[x].chunkIdx in c.chunks && x in TxsAt(c, c.tx[x].chunkIdx)
    ensures forall i :: i in c.chunks && i != c.tx[x].chunkIdx ==> x !in TxsAt(c, i)
  {
    hide ValidForest, ForestOf, Linked, TopsIndexed, InfosCorrect, ReachCorrect;
  }

  // ----- meeting dependencies

  datatype Counts = Counts(txDeps: map<nat, int>, chunkDeps: map<nat, int>, readyTxs: set<nat>, readyChunks: set<nat>)

  /** What has been emitted depends on nothing unmet: the transactions `out`, the chunks `done`. */
  ghost predicate Settled(c: Core, met: set<Dep>, out: set<nat>, done: set<nat>) {
    && (forall x :: x in out ==> x in c.tx && Unmet(c, met, x) == {})
    && (forall i :: i in done ==> i in c.chunks && UnmetAt(c, met, i) == {})
  }

  /** Exactly the transactions of `chunk`, and the chunks, without unmet dependencies are ready. */
  ghost predicate ReadyOnes(c: Core, met: set<Dep>, out: set<nat>, done: set<nat>, chunk: nat, q: Counts) {
    && (forall x :: x in q.readyTxs <==> x in TxsAt(c, chunk) && x in c.tx && x !in out && Unmet(c, met, x) == {})
    && (forall i :: i in q.readyChunks <==> i in c.chunks && i !in done && UnmetAt(c, met, i) == {})
  }

  ghost predicate Tracked(c: Core, met: set<Dep>, out: set<nat>, done: set<nat>, chunk: nat, q: Counts) {
    && TxCounts(c, met, q.txDeps) && ChunkCounts(c, met, q.chunkDeps)
    && Settled(c, met, out, done) && ReadyOnes(c, met, out, done, chunk, q)
  }

  lemma ChildTx(c: Core, tx: nat, child: nat)
    requires Sane(c) && tx in c.tx && child in c.tx[tx].children
    ensures child in c.tx && tx in c.tx[child].parents
  {
    hide ValidForest, ForestOf, Indexed, TopsIndexed, InfosCorrect, ReachCorrect;
  }

  lemma MeetTx(c: Core, met: set<Dep>, tx: nat, child: nat, x: nat)
    requires Sane(c) && tx in c.tx && child in c.tx[tx].children && (tx, child) !in met && x in c.tx
    ensures child in c.tx && tx in Unmet(c, met, child)
    ensures Unmet(c, met + {(tx, child)}, x) == if x == child then Unmet(c, met, x) - {tx} else Unmet(c, met, x)
  {
    hide ValidForest, ForestOf, Indexed, TopsIndexed, InfosCorrect, ReachCorrect;
  }

  lemma MeetChunk(c: Core, met: set<Dep>, tx: nat, child: nat, i: nat)
    requires Sane(c) && tx in c.tx && child in c.tx[tx].children && (tx, child) !in met && i in c.chunks
    ensures child in c.tx && c.tx[child].chunkIdx in c.chunks
    ensures c.tx[child].chunkIdx != c.tx[tx].chunkIdx ==> (tx, child) in UnmetAt(c, met, c.tx[child].chunkIdx)
    ensures UnmetAt(c, met + {(tx, child)}, i) ==
            if i == c.tx[child].chunkIdx && i != c.tx[tx].chunkIdx then UnmetAt(c, met, i) - {(tx, child)}
            else UnmetAt(c, met, i)
  {
    hide ValidForest, ForestOf, TopsIndexed, InfosCorrect, ReachCorrect;
    var e := (tx, child);
    assert tx in c.tx[child].parents;
    assert e in OutsideDeps(c, child) <==> c.tx[child].chunkIdx != c.tx[tx].chunkIdx;
    forall x, d | x in TxsAt(c, i) && x in c.tx && d in OutsideDeps(c, x)
      ensures d == e ==> x == child && i == c.tx[child].chunkIdx && i != c.tx[tx].chunkIdx
    {
    }
  }

  /** Meet the dependency of `child` on `tx`. */
  method MeetDep(c: Core, chunk: nat, tx: nat, child: nat, q: Counts, ghost met: set<Dep>, ghost out: set<nat>,
                 ghost done: set<nat>)
    returns (q': Counts)
    requires Sane(c) && tx in c.tx && child in c.tx[tx].children && (tx, child) !in met
    requires c.tx[tx].chunkIdx == chunk && chunk in c.chunks && Tracked(c, met, out, done, chunk, q)
    ensures Tracked(c, met + {(tx, child)}, out, done, chunk, q')
  {
    hide Sane, Unmet, UnmetAt, TxsAt;
    ChildTx(c, tx, child);
    MeetTx(c, met, tx, child, child);
    MeetChunk(c, met, tx, child, chunk);
    OwnChunk(c, child);
    q' := q;
    q' := q'.(txDeps := q'.txDeps[child := q'.txDeps[child] - 1]);
    if q'.txDeps[child] == 0 && child in TxsAt(c, chunk) {
      q' := q'.(readyTxs := q'.readyTxs + {child});
    }
    var childChunk := c.tx[child].chunkIdx;
    if childChunk != chunk {
      q' := q'.(chunkDeps := q'.chunkDeps[childChunk := q'.chunkDeps[childChunk] - 1]);
      if q'.chunkDeps[childChunk] == 0 {
        q' := q'.(readyChunks := q'.readyChunks + {childChunk});
      }
    }
    MetCounts(c, chunk, tx, child, q, q', met);
    MetSettled(c, tx, child, met, out, done);
    MetReadyTxs(c, chunk, tx, child, q, q', met, out, done);
    MetReadyChunks(c, chunk, tx, child, q, q', met, out, done);
  }

  lemma MetCounts(c: Core, chunk: nat, tx: nat, child: nat, q: Counts, q': Counts, met: set<Dep>)
    requires Sane(c) && tx in c.tx && child in c.tx[tx].children && child in c.tx && (tx, child) !in met
    requires c.tx[tx].chunkIdx == chunk && TxCounts(c, met, q.txDeps) && ChunkCounts(c, met, q.chunkDeps)
    requires c.tx[child].chunkIdx in c.chunks
    requires q'.txDeps == q.txDeps[child := q.txDeps[child] - 1]
    requires var i := c.tx[child].chunkIdx;
             q'.chunkDeps == if i != chunk then q.chunkDeps[i := q.chunkDeps[i] - 1] else q.chunkDeps
    ensures TxCounts(c, met + {(tx, child)}, q'.txDeps) && ChunkCounts(c, met + {(tx, child)}, q'.chunkDeps)
  {
    hide Sane, Unmet, UnmetAt, TxsAt;
    var met' := met + {(tx, child)};
    forall x | x in c.tx ensures x in q'.txDeps && q'.txDeps[x] == |Unmet(c, met', x)| { MeetTx(c, met, tx, child, x); }
    forall i | i in c.chunks
      ensures i in q'.chunkDeps && q'.chunkDeps[i] == |UnmetAt(c, met', i)|
    {
      MeetChunk(c, met, tx, child, i);
    }
  }

  lemma MetSettled(c: Core, tx: nat, child: nat, met: set<Dep>, out: set<nat>, done: set<nat>)
    requires Sane(c) && tx in c.tx && child in c.tx[tx].children && (tx, child) !in met && Settled(c, met, out, done)
    ensures Settled(c, met + {(tx, child)}, out, done) && child !in out
    ensures c.tx[tx].chunkIdx != c.tx[child].chunkIdx ==> c.tx[child].chunkIdx !in done
  {
    hide Sane, Unmet, UnmetAt, TxsAt;
    ChildTx(c, tx, child);
    var met' := met + {(tx, child)};
    forall x | x in out ensures x in c.tx && Unmet(c, met', x) == {} && x != child { MeetTx(c, met, tx, child, x); }
    forall i | i in done
      ensures i in c.chunks && UnmetAt(c, met', i) == {}
      ensures (c.tx[tx].chunkIdx != c.tx[child].chunkIdx ==> i != c.tx[child].chunkIdx)
    {
      MeetChunk(c, met, tx, child, i);
    }
  }

  lemma MetReadyTxs(c: Core, chunk: nat, tx: nat, child: nat, q: Counts, q': Counts, met: set<Dep>, out: set<nat>,
                    done: set<nat>)
    requires Sane(c) && tx in c.tx && child in c.tx[tx].children && child in c.tx && (tx, child) !in met
    requires ReadyOnes(c, met, out, done, chunk, q) && child !in out && TxCounts(c, met + {(tx, child)}, q'.txDeps)
    requires q'.readyTxs == if q'.txDeps[child] == 0 && child in TxsAt(c, chunk) then q.readyTxs + {child}
                            else q.readyTxs
    ensures forall x :: x in q'.readyTxs <==>
              x in TxsAt(c, chunk) && x in c.tx && x !in out && Unmet(c, met + {(tx, child)}, x) == {}
  {
    hide Sane, Unmet, UnmetAt, TxsAt;
    var met' := met + {(tx, child)};
    MeetTx(c, met, tx, child, child);
    assert Unmet(c, met, child) != {};
    forall x | x in c.tx ensures x != child ==> Unmet(c, met', x) == Unmet(c, met, x) { MeetTx(c, met, tx, child, x); }
  }

  lemma MetReadyChunks(c: Core, chunk: nat, tx: nat, child: nat, q: Counts, q': Counts, met: set<Dep>, out: set<nat>,
                       done: set<nat>)
    requires Sane(c) && tx in c.tx && child in c.tx[tx].children && child in c.tx && (tx, child) !in met
    requires c.tx[tx].chunkIdx == chunk
    requires c.tx[child].chunkIdx in c.chunks
    requires ReadyOnes(c, met, out, done, chunk, q) && ChunkCounts(c, met + {(tx, child)}, q'.chunkDeps)
    requires chunk != c.tx[child].chunkIdx ==> c.tx[child].chunkIdx !in done
    requires var i := c.tx[child].chunkIdx;
             q'.readyChunks == if i != chunk && q'.chunkDeps[i] == 0 then q.readyChunks + {i} else q.readyChunks
    ensures forall i :: i in q'.readyChunks <==> i in c.chunks && i !in done && UnmetAt(c, met + {(tx, child)}, i) == {}
  {
    hide Sane, Unmet, UnmetAt, TxsAt;
    var met', ci := met + {(tx, child)}, c.tx[child].chunkIdx;
    MeetChunk(c, met, tx, child, ci);
    assert ci != chunk ==> UnmetAt(c, met, ci) != {};
    forall i | i in c.chunks
      ensures i != ci || ci == chunk ==> UnmetAt(c, met', i) == UnmetAt(c, met, i)
    {
      MeetChunk(c, met, tx, child, i);
    }
  }

  // ----- emitting

  /** The dependencies met once the transactions `out` have been emitted. */
  ghost function MetBy(c: Core, out: set<nat>): set<Dep> {
    set q, x | q in out && q in c.tx && x in c.tx[q].children :: (q, x)
  }

  /** Emit `tx`: meet the dependencies on it. */
  method EmitTx(c: Core, chunk: nat, tx: nat, q: Counts, ghost out: set<nat>, ghost done: set<nat>) returns (q': Counts)
    requires Sane(c) && chunk in c.chunks && out <= c.tx.Keys && Tracked(c, MetBy(c, out), out, done, chunk, q)
    requires tx in q.readyTxs
    ensures Tracked(c, MetBy(c, out + {tx}), out + {tx}, done, chunk, q')
  {
    hide Sane, TxCounts, ChunkCounts, TxsAt, Unmet, UnmetAt, Tracked;
    ghost var met := MetBy(c, out);
    q' := q.(readyTxs := q.readyTxs - {tx});
    StartEmit(c, chunk, tx, q, q', met, out, done);
    var todo := c.tx[tx].children;
    while todo != {}
      invariant todo <= c.tx[tx].children && met == MetBy(c, out) + set y | y in c.tx[tx].children - todo :: (tx, y)
      invariant Tracked(c, met, out + {tx}, done, chunk, q')
    {
      var child :| child in todo;
      todo := todo - {child};
      q' := MeetDep(c, chunk, tx, child, q', met, out + {tx}, done);
      met := met + {(tx, child)};
      assert c.tx[tx].children - todo == (c.tx[tx].children - todo - {child}) + {child};
    }
    assert met == MetBy(c, out + {tx});
  }

  lemma StartEmit(c: Core, chunk: nat, tx: nat, q: Counts, q': Counts, met: set<Dep>, out: set<nat>, done: set<nat>)
    requires Sane(c) && chunk in c.chunks && Tracked(c, met, out, done, chunk, q) && tx in q.readyTxs
    requires q' == q.(readyTxs := q.readyTxs - {tx})
    ensures tx in c.tx && c.tx[tx].chunkIdx == chunk && tx !in out && Tracked(c, met, out + {tx}, done, chunk, q')
  {
    hide Sane, TxCounts, ChunkCounts, TxsAt, Unmet, UnmetAt;
    ChunkTxs(c, chunk);
  }

  ghost function EmittedTxs(c: Core, done: set<nat>): set<nat> { set x | x in c.tx && c.tx[x].chunkIdx in done }

  lemma UnmetBy(c: Core, out: set<nat>, x: nat)
    requires Sane(c) && x in c.tx && out <= c.tx.Keys
    ensures Unmet(c, MetBy(c, out), x) == c.tx[x].parents - out
  {
    hide ValidForest, ForestOf, Indexed, TopsIndexed, InfosCorrect, ReachCorrect;
    forall q | q in c.tx[x].parents ensures q in c.tx && x in c.tx[q].children { }
  }

  lemma UnmetAtBy(c: Core, out: set<nat>, i: nat)
    requires Sane(c) && i in c.chunks && out <= c.tx.Keys
    ensures UnmetAt(c, MetBy(c, out), i) == {} <==>
            forall x :: x in TxsAt(c, i) && x in c.tx ==> c.tx[x].parents - TxsAt(c, i) <= out
  {
    hide Sane, Unmet, TxsAt;
    ChunkTxs(c, i);
    var met := MetBy(c, out);
    if UnmetAt(c, met, i) == {} {
      forall x, q | x in TxsAt(c, i) && x in c.tx && q in c.tx[x].parents - TxsAt(c, i) ensures q in out {
        assert (q, x) in OutsideDeps(c, x);
        assert (q, x) !in met ==> (q, x) in UnmetOf(c, met, TxsAt(c, i));
        assert (q, x) in met;
      }
    } else {
      var e :| e in UnmetAt(c, met, i);
      var x :| x in TxsAt(c, i) && x in c.tx && e in OutsideDeps(c, x) && e !in met;
      UnmetBy(c, out, x);
      assert e.0 in Unmet(c, met, x) by { assert (e.0, x) == e; UnmetHas(c, met, x, e.0); }
    }
  }

  lemma UnmetHas(c: Core, met: set<Dep>, x: nat, q: nat)
    requires x in c.tx && q in c.tx[x].parents && (q, x) !in met
    ensures q in Unmet(c, met, x)
  {
  }

  lemma NothingOutside(p: set<nat>, s: set<nat>, out: set<nat>, block: set<nat>)
    requires p - s <= out + block && forall y :: y in s ==> y !in out
    ensures p - (out + block) == {} <==> p * s <= block
  {
    if p - (out + block) == {} {
      forall y | y in p * s ensures y in block { assert y !in p - (out + block); }
    }
  }

  /** A transaction of the current chunk has no unmet dependencies just when its parents in the
      chunk have been emitted. */
  lemma ReadyInChunk(c: Core, chunk: nat, out: set<nat>, block: set<nat>, x: nat)
    requires Sane(c) && chunk in c.chunks && out + block <= c.tx.Keys && out * TxsAt(c, chunk) == {} && x in c.tx
    requires UnmetAt(c, MetBy(c, out + block), chunk) == {}
    ensures x in TxsAt(c, chunk) && x !in out + block && Unmet(c, MetBy(c, out + block), x) == {} <==>
            Ready(TxsAt(c, chunk), Par(c), block, x)
  {
    hide Sane, Unmet, UnmetAt, TxsAt, MetBy;
    UnmetBy(c, out + block, x);
    UnmetAtBy(c, out + block, chunk);
    var s := TxsAt(c, chunk);
    forall y | y in s ensures y !in out { assert y in out ==> y in out * s; }
    if x in s {
      assert c.tx[x].parents - s <= out + block;
      NothingOutside(c.tx[x].parents, s, out, block);
    }
  }

  /** As long as something of the chunk is left, something is ready. */
  lemma SomethingReady(c: Core, chunk: nat, block: set<nat>)
    requires Sane(c) && Founded(Par(c)) && chunk in c.chunks && block < TxsAt(c, chunk)
    ensures exists x :: Ready(TxsAt(c, chunk), Par(c), block, x)
  {
    hide Sane, TxsAt;
    ChunkTxs(c, chunk);
    var left := TxsAt(c, chunk) - block;
    var y :| y in TxsAt(c, chunk) && y !in block;
    assert y in left && left != {} && left <= Par(c).Keys;
    var x :| x in left && Par(c)[x] * left == {};
    var ps := Par(c)[x];
    forall q | q in ps * TxsAt(c, chunk) ensures q in block { assert q !in block ==> q in ps * left; }
    assert Ready(TxsAt(c, chunk), Par(c), block, x);
  }

  /** Emit the transactions of a chunk. */
  method EmitChunk(c: Core, chunk: nat, keys: map<nat, Key>, q: Counts, ghost out: set<nat>, ghost done: set<nat>)
    returns (block: seq<nat>, q': Counts)
    requires Sane(c) && Founded(Par(c)) && chunk in c.chunks && chunk in done && PositiveKeys(c.tx.Keys, keys)
    requires out <= c.tx.Keys && out * TxsAt(c, chunk) == {} && Tracked(c, MetBy(c, out), out, done, chunk, q)
    ensures TxsAt(c, chunk) <= c.tx.Keys && Elems(block) == TxsAt(c, chunk)
    ensures Greedy(TxsAt(c, chunk), Par(c), keys, block)
    ensures Tracked(c, MetBy(c, out + TxsAt(c, chunk)), out + TxsAt(c, chunk), done, chunk, q')
  {
    hide Sane, TxCounts, ChunkCounts, TxsAt, Unmet, UnmetAt, MetBy, Par, Founded, Greedy, Before;
    ChunkTxs(c, chunk);
    block, q' := [], q;
    assert out + Elems(block) == out;
    GreedyNil(TxsAt(c, chunk), Par(c), keys);
    while q'.readyTxs != {}
      invariant Elems(block) <= TxsAt(c, chunk) && Greedy(TxsAt(c, chunk), Par(c), keys, block)
      invariant Tracked(c, MetBy(c, out + Elems(block)), out + Elems(block), done, chunk, q')
      decreases TxsAt(c, chunk) - Elems(block)
    {
      forall x | x in c.tx ensures x in q'.readyTxs <==> Ready(TxsAt(c, chunk), Par(c), Elems(block), x) {
        ReadyInChunk(c, chunk, out, Elems(block), x);
      }
      var tx := PopFirst(q'.readyTxs, keys);
      q' := EmitTx(c, chunk, tx, q', out + Elems(block), done);
      assert Next(TxsAt(c, chunk), Par(c), keys, Elems(block), tx);
      GreedyAppend(TxsAt(c, chunk), Par(c), keys, block, tx);
      assert out + Elems(block) + {tx} == out + Elems(block + [tx]);
      block := block + [tx];
    }
    if Elems(block) != TxsAt(c, chunk) {
      SomethingReady(c, chunk, Elems(block));
      var x :| Ready(TxsAt(c, chunk), Par(c), Elems(block), x);
      ReadyInChunk(c, chunk, out, Elems(block), x);
    }
  }

  lemma GreedyNil(items: set<nat>, links: Links, keys: map<nat, Key>)
    requires items <= keys.Keys
    ensures Greedy(items, links, keys, [])
  {
  }

  // ----- the whole linearization

  /** The last transaction of a set, by fallback order. */
  method MaxFallback(s: set<nat>, rank: nat -> int) returns (x: nat)
    requires s != {}
    ensures x in s && rank(x) == MaxRank(s, rank)
  {
    x :| x in s;
    var todo := s - {x};
    while todo != {}
      invariant todo <= s && x in s && forall y :: y in s - todo ==> rank(y) <= rank(x)
    {
      var y :| y in todo;
      todo := todo - {y};
      if rank(y) > rank(x) { x := y; }
    }
    MaxRankIs(s, rank, x);
  }

  method KeysOfChunks(c: Core, rank: nat -> int) returns (keys: map<nat, Key>)
    requires Sane(c)
    ensures forall i :: i in c.chunks ==> TxsAt(c, i) != {}
    ensures IsFamily(c.rate, FamilyOf(c)) && keys == ChunkKeys(c.rate, FamilyOf(c), rank)
  {
    hide Sane, MaxRank, Total;
    FamilyValid(c);
    forall i | i in c.chunks ensures TxsAt(c, i) != {} { ChunkTxs(c, i); }
    keys := map[];
    var todo := c.chunks;
    while todo != {}
      invariant todo <= c.chunks && keys.Keys == c.chunks - todo
      invariant forall i :: i in keys ==> keys[i] == Key(RateAt(c, i), MaxRank(TxsAt(c, i), rank))
    {
      var i :| i in todo;
      todo := todo - {i};
      var x := MaxFallback(TxsAt(c, i), rank);
      keys := keys[i := Key(RateAt(c, i), rank(x))];
    }
  }

  /** A chunk has no unmet dependencies just when the chunks it depends on have been emitted. */
  lemma ReadyChunk(c: Core, done: set<nat>, i: nat)
    requires Sane(c)
    ensures i in c.chunks && i !in done && UnmetAt(c, MetBy(c, EmittedTxs(c, done)), i) == {} <==>
            Ready(c.chunks, ChunkLinks(Par(c), FamilyOf(c)), done, i)
  {
    hide Sane, UnmetAt, TxsAt, MetBy;
    var links := ChunkLinks(Par(c), FamilyOf(c));
    if i in c.chunks && i !in done {
      var s, out := TxsAt(c, i), EmittedTxs(c, done);
      UnmetAtBy(c, out, i);
      ChunkTxs(c, i);
      if forall x :: x in s && x in c.tx ==> c.tx[x].parents - s <= out {
        forall j | j in links[i] ensures j in done { LinkedChunk(c, i, j, out); }
        assert links[i] * c.chunks <= done;
      }
      if links[i] * c.chunks <= done {
        forall x | x in s && x in c.tx ensures c.tx[x].parents - s <= out { LinkedParents(c, i, x, done); }
      }
    }
  }

  lemma LinkedChunk(c: Core, i: nat, j: nat, out: set<nat>)
    requires Sane(c) && i in c.chunks && j in c.chunks && j != i && Depends(Par(c), TxsAt(c, i), TxsAt(c, j))
    requires forall x :: x in TxsAt(c, i) && x in c.tx ==> c.tx[x].parents - TxsAt(c, i) <= out
    ensures exists q :: q in out && q in c.tx && c.tx[q].chunkIdx == j
  {
    hide Sane, TxsAt;
    ChunkTxs(c, j);
    ChunkTxs(c, i);
    var x, q :| x in TxsAt(c, i) && x in Par(c) && q in Par(c)[x] && q in TxsAt(c, j);
    assert q in c.tx[x].parents - TxsAt(c, i);
  }

  lemma LinkedParents(c: Core, i: nat, x: nat, done: set<nat>)
    requires Sane(c) && i in c.chunks && x in TxsAt(c, i) && x in c.tx
    requires ChunkLinks(Par(c), FamilyOf(c))[i] * c.chunks <= done
    ensures c.tx[x].parents - TxsAt(c, i) <= EmittedTxs(c, done)
  {
    hide Sane, TxsAt;
    ChunkTxs(c, i);
    forall q | q in c.tx[x].parents - TxsAt(c, i) ensures q in EmittedTxs(c, done) {
      ParentTx(c, x, q);
      OwnChunk(c, q);
      var j := c.tx[q].chunkIdx;
      assert x in Par(c) && q in Par(c)[x];
      assert Depends(Par(c), TxsAt(c, i), TxsAt(c, j));
      assert j in ChunkLinks(Par(c), FamilyOf(c))[i] * c.chunks;
    }
  }

  lemma ParentTx(c: Core, x: nat, q: nat)
    requires Sane(c) && x in c.tx && q in c.tx[x].parents
    ensures q in c.tx
  {
    hide ValidForest, ForestOf, Indexed, TopsIndexed, InfosCorrect, ReachCorrect;
  }

  /** Between two chunks: the chunks `done` have been emitted. */
  ghost predicate Between(c: Core, done: set<nat>, q: Counts) {
    var out := EmittedTxs(c, done);
    var met := MetBy(c, out);
    && TxCounts(c, met, q.txDeps) && ChunkCounts(c, met, q.chunkDeps) && Settled(c, met, out, done)
    && (forall i :: i in q.readyChunks <==> i in c.chunks && i !in done && UnmetAt(c, met, i) == {})
  }

  lemma StartBetween(c: Core, txDeps: map<nat, int>, chunkDeps: map<nat, int>)
    requires Sane(c) && TxCounts(c, {}, txDeps) && ChunkCounts(c, {}, chunkDeps)
    ensures Between(c, {}, Counts(txDeps, chunkDeps, {}, set i | i in c.chunks && chunkDeps[i] == 0))
  {
    hide Sane, Unmet, UnmetAt;
    assert EmittedTxs(c, {}) == {} && MetBy(c, {}) == {};
  }

  lemma StartChunk(c: Core, done: set<nat>, chunk: nat, q: Counts, q': Counts)
    requires Sane(c) && Between(c, done, q) && chunk in q.readyChunks && TxsAt(c, chunk) <= c.tx.Keys
    requires TxsAt(c, chunk) <= q.txDeps.Keys
    requires q' == q.(readyChunks := q.readyChunks - {chunk},
                      readyTxs := set x | x in TxsAt(c, chunk) && q.txDeps[x] == 0)
    ensures var out := EmittedTxs(c, done);
            && out <= c.tx.Keys && out * TxsAt(c, chunk) == {} && out + TxsAt(c, chunk) == EmittedTxs(c, done + {chunk})
            && Tracked(c, MetBy(c, out), out, done + {chunk}, chunk, q')
  {
    hide Sane, Unmet, UnmetAt, MetBy, TxsAt;
    ChunkTxs(c, chunk);
    forall x | x in c.tx ensures x in TxsAt(c, chunk) <==> c.tx[x].chunkIdx == chunk { OwnChunk(c, x); }
    assert EmittedTxs(c, done) * TxsAt(c, chunk) == {};
  }

  /** Output the chunks, always the first one whose dependencies have been output, and the
      transactions of each in the same way. */
  method GetLinearization(c: Core, rank: nat -> int)
    returns (lin: seq<nat>, ghost order: seq<nat>, ghost blocks: seq<seq<nat>>)
    requires Sane(c) && Founded(Par(c)) && IsFamily(c.rate, FamilyOf(c)) && Orderly(c.rate, Par(c), FamilyOf(c))
    ensures ValidLinearization(Par(c), c.rate.Keys, lin)
    ensures Linearizes(c.rate, Par(c), FamilyOf(c), rank, order, blocks, lin) && Elems(order) == c.chunks
  {
    hide Sane, TxCounts, ChunkCounts, TxsAt, Unmet, UnmetAt, MetBy, Par, Founded, Greedy, Before, Linearizes, Next,
         ChunkKeys, TxKeys, IsFamily, Between, Tracked, ChunkLinks, Total, ValidLinearization;
    var txDeps, chunkDeps := CountDeps(c);
    CountsAt(c, txDeps, chunkDeps);
    var keys := TxKeysOf(c, rank);
    var chunkKeys := KeysOfChunks(c, rank);
    FamilyValid(c);
    PositiveRates(c, rank);
    var q := Counts(txDeps, chunkDeps, {}, set i | i in c.chunks && chunkDeps[i] == 0);
    StartBetween(c, txDeps, chunkDeps);
    lin, order, blocks := [], [], [];
    LinearizesStart(c.rate, Par(c), FamilyOf(c), rank);
    assert Elems(order) == {};
    while q.readyChunks != {}
      invariant Elems(order) <= c.chunks && Between(c, Elems(order), q)
      invariant Linearizes(c.rate, Par(c), FamilyOf(c), rank, order, blocks, lin)
      decreases c.chunks - Elems(order)
    {
      BetweenFacts(c, Elems(order), q);
      var chunk := PopFirst(q.readyChunks, chunkKeys);
      NextChunk(c, Elems(order), q, chunk, rank);
      ChunkTxs(c, chunk);
      var q' := q.(readyChunks := q.readyChunks - {chunk},
                   readyTxs := set x | x in TxsAt(c, chunk) && q.txDeps[x] == 0);
      StartChunk(c, Elems(order), chunk, q, q');
      var block;
      block, q := EmitChunk(c, chunk, keys, q', EmittedTxs(c, Elems(order)), Elems(order) + {chunk});
      assert Between(c, Elems(order) + {chunk}, q) by { EndChunk(c, Elems(order) + {chunk}, chunk, q); }
      LinearizesAppend(c.rate, Par(c), FamilyOf(c), rank, order, blocks, lin, chunk, block);
      lin, order, blocks := lin + block, order + [chunk], blocks + [block];
    }
    AllEmitted(c, Elems(order), q);
    LinearizationQuality.OutputValid(c, rank, order, blocks, lin);
  }

  lemma CountsAt(c: Core, txDeps: map<nat, int>, chunkDeps: map<nat, int>)
    requires TxCounts(c, {}, txDeps) && ChunkCounts(c, {}, chunkDeps)
    ensures c.chunks <= chunkDeps.Keys
  {
  }

  lemma PositiveRates(c: Core, rank: nat -> int)
    requires Sane(c) && IsFamily(c.rate, FamilyOf(c))
    ensures PositiveKeys(c.tx.Keys, TxKeys(c.rate, rank))
    ensures PositiveKeys(c.chunks, ChunkKeys(c.rate, FamilyOf(c), rank))
  {
    hide ValidForest, ForestOf, Linked, TopsIndexed, InfosCorrect, ReachCorrect, Total, TxsAt, MaxRank;
    var k := FamilyOf(c);
    forall i | i in c.chunks ensures Total(c.rate, k[i]).size > 0 { TotalSize(c.rate, k[i]); }
  }

  method TxKeysOf(c: Core, rank: nat -> int) returns (keys: map<nat, Key>)
    ensures keys == TxKeys(c.rate, rank)
  {
    keys := map x | x in c.rate :: Key(c.rate[x], rank(x));
  }

  lemma LinearizesStart(m: Rates, par: Links, k: Family, rank: nat -> int)
    requires IsFamily(m, k)
    ensures Linearizes(m, par, k, rank, [], [], [])
  {
  }

  lemma BetweenFacts(c: Core, done: set<nat>, q: Counts)
    requires Between(c, done, q)
    ensures q.readyChunks <= c.chunks && c.tx.Keys <= q.txDeps.Keys && q.readyChunks * done == {}
  {
    hide Unmet, UnmetAt, MetBy;
  }

  lemma NextChunk(c: Core, done: set<nat>, q: Counts, chunk: nat, rank: nat -> int)
    requires Sane(c) && IsFamily(c.rate, FamilyOf(c)) && Between(c, done, q) && chunk in q.readyChunks
    requires q.readyChunks <= c.chunks
    requires var keys := ChunkKeys(c.rate, FamilyOf(c), rank);
             forall i :: i in q.readyChunks ==> !Before(keys[i], keys[chunk])
    ensures FamilyOf(c).Keys == c.chunks
    ensures Next(FamilyOf(c).Keys, ChunkLinks(Par(c), FamilyOf(c)), ChunkKeys(c.rate, FamilyOf(c), rank), done, chunk)
  {
    hide Sane, UnmetAt, MetBy, TxsAt, Before, ChunkLinks, ChunkKeys, IsFamily, TxCounts, ChunkCounts, Ready, EmittedTxs;
    forall i
      ensures i in q.readyChunks <==> Ready(c.chunks, ChunkLinks(Par(c), FamilyOf(c)), done, i)
    {
      ReadyChunk(c, done, i);
    }
    assert FamilyOf(c).Keys == c.chunks;
  }

  lemma EndChunk(c: Core, done: set<nat>, chunk: nat, q: Counts)
    requires Tracked(c, MetBy(c, EmittedTxs(c, done)), EmittedTxs(c, done), done, chunk, q)
    ensures Between(c, done, q)
  {
    hide Unmet, UnmetAt, MetBy;
  }

  lemma AllEmitted(c: Core, done: set<nat>, q: Counts)
    requires Sane(c) && IsFamily(c.rate, FamilyOf(c)) && Orderly(c.rate, Par(c), FamilyOf(c))
    requires done <= c.chunks && Between(c, done, q) && q.readyChunks == {}
    ensures done == c.chunks
  {
    hide Sane, IsFamily, Orderly, Between, ChunkLinks, FamilyOf, Par;
    var left := c.chunks - done;
    if left != {} {
      var x := ReadySource(c, done);
      NoneReady(c, done, q, x);
    } else {
      forall i | i in c.chunks ensures i in done { assert i !in left; }
    }
  }

  lemma ReadySource(c: Core, done: set<nat>) returns (x: nat)
    requires IsFamily(c.rate, FamilyOf(c)) && Orderly(c.rate, Par(c), FamilyOf(c)) && c.chunks - done != {}
    ensures Ready(c.chunks, ChunkLinks(Par(c), FamilyOf(c)), done, x)
  {
    hide TxsAt, IsFamily, Total, Depends;
    var links := ChunkLinks(Par(c), FamilyOf(c));
    assert links.Keys == c.chunks && Founded(links);
    hide ChunkLinks, Orderly;
    x := SourceOf(links, c.chunks, done);
  }

  lemma SourceOf(links: Links, items: set<nat>, done: set<nat>) returns (x: nat)
    requires Founded(links) && links.Keys == items && items - done != {}
    ensures Ready(items, links, done, x)
  {
    var left := items - done;
    assert left <= links.Keys;
    x :| x in left && links[x] * left == {};
    var ls := links[x];
    forall j | j in ls * items ensures j in done { assert j !in done ==> j in ls * left; }
  }

  lemma NoneReady(c: Core, done: set<nat>, q: Counts, x: nat)
    requires Sane(c) && Between(c, done, q) && q.readyChunks == {}
    ensures !Ready(c.chunks, ChunkLinks(Par(c), FamilyOf(c)), done, x)
  {
    hide Sane, UnmetAt, MetBy, TxCounts, ChunkCounts, EmittedTxs, Ready, ChunkLinks, FamilyOf;
    ReadyChunk(c, done, x);
  }
}
