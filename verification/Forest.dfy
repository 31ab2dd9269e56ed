/** Spanning forests of active dependencies.

    The abstract state of `SpanningForestState` (src/cluster_linearize.h): the chunk each transaction
    is in, and for every active dependency its top set, the part of the chunk on the parent's side
    once the dependency is cut.  A dependency is a pair (parent, child). */
module Forests {

  type Dep = (nat, nat)

  datatype Forest = Forest(chunk: map<nat, set<nat>>, top: map<Dep, set<nat>>)

  /** No dependency of `deps` leads into or out of `s`. */
  ghost predicate Closed(s: set<nat>, deps: set<Dep>) {
    forall e :: e in deps ==> (e.0 in s <==> e.1 in s)
  }

  ghost predicate Connected(k: set<nat>, deps: set<Dep>) {
    forall s :: s <= k && s != {} && Closed(s, deps) ==> s == k
  }

  ghost predicate Partition(chunk: map<nat, set<nat>>) {
    && (forall x :: x in chunk ==> x in chunk[x] && chunk[x] <= chunk.Keys)
    && (forall x, y :: x in chunk && y in chunk[x] ==> chunk[y] == chunk[x])
  }

  /** The top set of `e` is cut off from the child of `e` by removing just `e`. */
  ghost predicate Cut(f: Forest, e: Dep)
    requires e in f.top && e.0 in f.chunk
  {
    && e.0 in f.top[e] && e.1 !in f.top[e] && f.top[e] <= f.chunk[e.0]
    && Closed(f.top[e], f.top.Keys - {e})
  }

  ghost predicate Inside(f: Forest, e: Dep) {
    e.0 in f.chunk && e.1 in f.chunk && f.chunk[e.0] == f.chunk[e.1]
  }

  /** Chunks partition the transactions and are connected by active dependencies, each of which is
      the only connection between its two sides: a spanning forest. */
  ghost predicate ValidForest(f: Forest) {
    && Partition(f.chunk)
    && (forall e :: e in f.top ==> Inside(f, e) && Cut(f, e))
    && (forall x :: x in f.chunk ==> Connected(f.chunk[x], f.top.Keys))
  }

  // ----- what validity means for top sets

  /** A top set is the connected component of the parent: the least set that contains it and is
      closed under the other active dependencies. */
  lemma TopIsComponent(f: Forest, e: Dep, s: set<nat>)
    requires ValidForest(f) && e in f.top
    requires e.0 in s && Closed(s, f.top.Keys - {e})
    ensures f.top[e] <= s
  {
    TopConnected(f, e);
    var t := s * f.top[e];
    assert Closed(t, f.top.Keys - {e});
    assert e.0 in t;
  }

  lemma TopConnected(f: Forest, e: Dep)
    requires ValidForest(f) && e in f.top
    ensures Connected(f.top[e], f.top.Keys - {e})
  {
    var k, t := f.chunk[e.0], f.top[e];
    forall s | s <= t && s != {} && Closed(s, f.top.Keys - {e}) ensures s == t {
      if e.0 in s {
        ChunkClosed(f, e.0);
        Merged(f, e, s, k - t);
        assert s + (k - t) == k;
      } else {
        assert Closed(s, f.top.Keys);
      }
    }
  }

  lemma BottomConnected(f: Forest, e: Dep)
    requires ValidForest(f) && e in f.top
    ensures Connected(f.chunk[e.0] - f.top[e], f.top.Keys - {e})
    ensures Closed(f.chunk[e.0] - f.top[e], f.top.Keys - {e})
  {
    var k, t := f.chunk[e.0], f.top[e];
    ChunkClosed(f, e.0);
    assert Closed(k - t, f.top.Keys - {e});
    forall s | s <= k - t && s != {} && Closed(s, f.top.Keys - {e}) ensures s == k - t {
      if e.1 in s {
        Merged(f, e, t, s);
        assert t + s == k;
      } else {
        assert Closed(s, f.top.Keys);
      }
    }
  }

  lemma ChunkClosed(f: Forest, x: nat)
    requires ValidForest(f) && x in f.chunk
    ensures Closed(f.chunk[x], f.top.Keys)
  {
    forall e | e in f.top ensures e.0 in f.chunk[x] <==> e.1 in f.chunk[x] {
      assert Inside(f, e);
    }
  }

  /** Two parts closed but for `e`, which connects them, make up the whole chunk. */
  lemma Merged(f: Forest, e: Dep, s: set<nat>, t: set<nat>)
    requires ValidForest(f) && e in f.top
    requires e.0 in s && e.1 in t && s <= f.chunk[e.0] && t <= f.chunk[e.0]
    requires Closed(s, f.top.Keys - {e}) && Closed(t, f.top.Keys - {e})
    ensures s + t == f.chunk[e.0]
  {
    forall d | d in f.top ensures d.0 in s + t <==> d.1 in s + t { assert d != e ==> d in f.top.Keys - {e}; }
    assert Closed(s + t, f.top.Keys);
  }

  // ----- merging and splitting chunks

  /** Making the inactive dependency (p, c) between two chunks active. */
  ghost function Activated(f: Forest, p: nat, c: nat): Forest
    requires p in f.chunk && c in f.chunk
  {
    var pk, ck := f.chunk[p], f.chunk[c];
    Forest(map x | x in f.chunk :: if x in pk || x in ck then pk + ck else f.chunk[x],
           (map e | e in f.top :: if p in f.top[e] then f.top[e] + ck
                                  else if c in f.top[e] then f.top[e] + pk
                                  else f.top[e])[(p, c) := pk])
  }

  lemma BetweenChunks(f: Forest, p: nat, c: nat)
    requires ValidForest(f) && p in f.chunk && c in f.chunk && f.chunk[p] != f.chunk[c]
    ensures f.chunk[p] * f.chunk[c] == {} && (p, c) !in f.top
  {
    assert (p, c) in f.top ==> Inside(f, (p, c));
    forall x | x in f.chunk[p] ensures x !in f.chunk[c] { assert f.chunk[x] == f.chunk[p]; }
  }

  lemma ActivatedCut(f: Forest, p: nat, c: nat, e: Dep)
    requires ValidForest(f) && p in f.chunk && c in f.chunk && f.chunk[p] != f.chunk[c]
    requires e in f.top
    ensures e != (p, c) && Inside(Activated(f, p, c), e) && Cut(Activated(f, p, c), e)
  {
    hide ValidForest, Activated;
    var g := Activated(f, p, c);
    BetweenChunks(f, p, c);
    ActivatedSides(f, p, c, e);
    forall d | d in g.top.Keys - {e} ensures d.0 in g.top[e] <==> d.1 in g.top[e] { ActivatedClosed(f, p, c, e, d); }
  }

  lemma ActivatedClosed(f: Forest, p: nat, c: nat, e: Dep, d: Dep)
    requires ValidForest(f) && p in f.chunk && c in f.chunk && f.chunk[p] != f.chunk[c] && e in f.top
    requires d in Activated(f, p, c).top && d != e && e in Activated(f, p, c).top
    ensures d.0 in Activated(f, p, c).top[e] <==> d.1 in Activated(f, p, c).top[e]
  {
    hide Connected;
    ChunkClosed(f, p);
    ChunkClosed(f, c);
    assert Inside(f, e) && Cut(f, e);
    if d in f.top { assert d.0 in f.top[e] <==> d.1 in f.top[e]; }
  }

  lemma ActivatedSides(f: Forest, p: nat, c: nat, e: Dep)
    requires ValidForest(f) && p in f.chunk && c in f.chunk && f.chunk[p] != f.chunk[c] && e in f.top
    ensures var g := Activated(f, p, c);
            e in g.top && Inside(g, e) && e.0 in g.top[e] && e.1 !in g.top[e] && g.top[e] <= g.chunk[e.0]
  {
    hide Connected;
    assert Inside(f, e) && Cut(f, e);
    BetweenChunks(f, p, c);
    var pk, ck := f.chunk[p], f.chunk[c];
    if e.0 in pk { assert f.chunk[e.0] == pk; } else if e.0 in ck { assert f.chunk[e.0] == ck; }
  }

  lemma ActivatedNewCut(f: Forest, p: nat, c: nat)
    requires ValidForest(f) && p in f.chunk && c in f.chunk && f.chunk[p] != f.chunk[c]
    ensures Inside(Activated(f, p, c), (p, c)) && Cut(Activated(f, p, c), (p, c))
  {
    ChunkClosed(f, p);
    BetweenChunks(f, p, c);
  }

  /** A nonempty closed part of the merged chunk contains both its halves. */
  lemma ClosedPart(f: Forest, p: nat, c: nat, s: set<nat>)
    requires ValidForest(f) && p in f.chunk && c in f.chunk
    requires s <= f.chunk[p] + f.chunk[c] && s != {} && Closed(s, f.top.Keys) && (p in s <==> c in s)
    ensures s == f.chunk[p] + f.chunk[c]
  {
    var pk, ck := f.chunk[p], f.chunk[c];
    ChunkClosed(f, p);
    ChunkClosed(f, c);
    assert Closed(s * pk, f.top.Keys) && Closed(s * ck, f.top.Keys);
    assert s == s * pk + s * ck;
    assert s * pk == {} || s * pk == pk;
    assert s * ck == {} || s * ck == ck;
  }

  lemma ActivatedConnected(f: Forest, p: nat, c: nat, x: nat)
    requires ValidForest(f) && p in f.chunk && c in f.chunk && f.chunk[p] != f.chunk[c]
    requires x in f.chunk
    ensures Connected(Activated(f, p, c).chunk[x], Activated(f, p, c).top.Keys)
  {
    var g := Activated(f, p, c);
    var pk, ck := f.chunk[p], f.chunk[c];
    assert f.top.Keys <= g.top.Keys && (p, c) in g.top;
    forall s | s <= g.chunk[x] && s != {} && Closed(s, g.top.Keys) ensures s == g.chunk[x] {
      assert Closed(s, f.top.Keys);
      if x in pk || x in ck {
        assert p in s <==> c in s;
        ClosedPart(f, p, c, s);
      }
    }
  }

  lemma ActivatedValid(f: Forest, p: nat, c: nat)
    requires ValidForest(f) && p in f.chunk && c in f.chunk && f.chunk[p] != f.chunk[c]
    ensures ValidForest(Activated(f, p, c))
  {
    ActivatedPartition(f, p, c);
    var g := Activated(f, p, c);
    hide Connected, Cut, Inside, Partition;
    forall e | e in g.top ensures Inside(g, e) && Cut(g, e) {
      if e == (p, c) { ActivatedNewCut(f, p, c); } else { ActivatedCut(f, p, c, e); }
    }
    forall x | x in g.chunk ensures Connected(g.chunk[x], g.top.Keys) { ActivatedConnected(f, p, c, x); }
  }

  lemma ActivatedPartition(f: Forest, p: nat, c: nat)
    requires ValidForest(f) && p in f.chunk && c in f.chunk
    ensures Partition(Activated(f, p, c).chunk)
  {
    hide Connected, Cut, Inside;
    var k, g := f.chunk, Activated(f, p, c).chunk;
    forall x | x in g ensures x in g[x] && g[x] <= g.Keys { assert x in k[x]; }
    forall x, y | x in g && y in g[x] ensures g[y] == g[x] {
      if x in k[p] || x in k[c] { assert y in k[p] || y in k[c]; } else { assert k[y] == k[x] && x in k[y]; }
    }
  }

  /** Making the active dependency `e` inactive. */
  ghost function Deactivated(f: Forest, e: Dep): Forest
    requires e in f.top && e.0 in f.chunk
  {
    var t, b := f.top[e], f.chunk[e.0] - f.top[e];
    Forest(map x | x in f.chunk :: if x in t then t else if x in b then b else f.chunk[x],
           map d | d in f.top && d != e :: if d.0 in t then f.top[d] * t
                                           else if d.0 in b then f.top[d] * b
                                           else f.top[d])
  }

  /** A top set contains the whole far side of another dependency, or nothing of it. */
  lemma TopAcross(f: Forest, e: Dep, d: Dep)
    requires ValidForest(f) && e in f.top && d in f.top && d != e
    ensures d.0 in f.top[e] ==>
              if e.0 in f.top[d] then f.chunk[e.0] - f.top[e] <= f.top[d]
              else f.top[d] * (f.chunk[e.0] - f.top[e]) == {}
    ensures d.0 in f.chunk[e.0] - f.top[e] ==>
              if e.1 in f.top[d] then f.top[e] <= f.top[d] else f.top[d] * f.top[e] == {}
  {
    var t, b := f.top[e], f.chunk[e.0] - f.top[e];
    TopConnected(f, e);
    BottomConnected(f, e);
    assert Inside(f, d) && Cut(f, d) && Inside(f, e) && Cut(f, e);
    assert e.0 in f.top[d] <==> e.1 in f.top[d];
    assert d.0 in t <==> d.1 in t;
    var s := f.top[d] * b;
    var u := f.top[d] * t;
    assert e.0 in t && e.1 in b && s <= f.top[d] && u <= f.top[d];
    assert e.1 in f.top[d] ==> e.1 in s && e.0 in u;
    if d.0 in t {
      assert Closed(s, f.top.Keys - {e});
      assert s == {} || s == b;
    }
    if d.0 in b {
      assert Closed(u, f.top.Keys - {e});
      assert u == {} || u == t;
    }
  }

  lemma DeactivatedCut(f: Forest, e: Dep, d: Dep)
    requires ValidForest(f) && e in f.top && d in f.top && d != e
    ensures Inside(Deactivated(f, e), d) && Cut(Deactivated(f, e), d)
  {
    var g := Deactivated(f, e);
    assert Inside(f, d) && Cut(f, d) && Cut(f, e);
    BottomConnected(f, e);
    assert d.0 in f.top[e] <==> d.1 in f.top[e];
  }

  lemma OtherConnected(f: Forest, e: Dep, x: nat)
    requires ValidForest(f) && e in f.top && x in f.chunk && x !in f.chunk[e.0]
    ensures Connected(f.chunk[x], f.top.Keys - {e})
  {
    assert Inside(f, e);
    ChunkClosed(f, x);
    forall s | s <= f.chunk[x] && s != {} && Closed(s, f.top.Keys - {e}) ensures s == f.chunk[x] {
      assert e.0 !in s && e.1 !in s;
      assert Closed(s, f.top.Keys);
    }
  }

  lemma DeactivatedConnected(f: Forest, e: Dep, x: nat)
    requires ValidForest(f) && e in f.top && x in f.chunk
    ensures Connected(Deactivated(f, e).chunk[x], Deactivated(f, e).top.Keys)
  {
    hide Connected;
    assert Deactivated(f, e).top.Keys == f.top.Keys - {e};
    TopConnected(f, e);
    BottomConnected(f, e);
    if x !in f.chunk[e.0] { OtherConnected(f, e, x); }
  }

  lemma DeactivatedValid(f: Forest, e: Dep)
    requires ValidForest(f) && e in f.top
    ensures ValidForest(Deactivated(f, e))
  {
    var g := Deactivated(f, e);
    assert Inside(f, e) && Cut(f, e);
    forall d | d in g.top ensures Inside(g, d) && Cut(g, d) { DeactivatedCut(f, e, d); }
    forall x | x in g.chunk ensures Connected(g.chunk[x], g.top.Keys) { DeactivatedConnected(f, e, x); }
  }

  /** Deactivating the dependency just activated gives back the forest. */
  lemma DeactivateUndoesActivate(f: Forest, p: nat, c: nat)
    requires ValidForest(f) && p in f.chunk && c in f.chunk && f.chunk[p] != f.chunk[c]
    ensures Deactivated(Activated(f, p, c), (p, c)) == f
  {
    hide ValidForest;
    BetweenChunks(f, p, c);
    var g := Activated(f, p, c);
    assert g.chunk[p] == f.chunk[p] + f.chunk[c] && p in f.chunk[p] by { InOwnChunk(f, p); }
    var h := Deactivated(g, (p, c));
    hide Deactivated, Activated;
    forall x | x in f.chunk ensures x in h.chunk && h.chunk[x] == f.chunk[x] { ChunkRestored(f, p, c, x); }
    forall d | d in f.top ensures d in h.top && h.top[d] == f.top[d] { TopRestored(f, p, c, d); }
    RestoredKeys(f, p, c);
    assert h.chunk == f.chunk && h.top == f.top;
  }

  lemma InOwnChunk(f: Forest, x: nat)
    requires ValidForest(f) && x in f.chunk
    ensures x in f.chunk[x] && f.chunk[x] <= f.chunk.Keys
    ensures forall y :: y in f.chunk[x] ==> f.chunk[y] == f.chunk[x]
  {
  }

  lemma RestoredKeys(f: Forest, p: nat, c: nat)
    requires p in f.chunk && c in f.chunk && (p, c) !in f.top
    ensures var h := Deactivated(Activated(f, p, c), (p, c));
            h.chunk.Keys == f.chunk.Keys && h.top.Keys == f.top.Keys
  {
  }

  lemma ChunkRestored(f: Forest, p: nat, c: nat, x: nat)
    requires ValidForest(f) && p in f.chunk && c in f.chunk && f.chunk[p] != f.chunk[c] && x in f.chunk
    ensures Deactivated(Activated(f, p, c), (p, c)).chunk[x] == f.chunk[x]
  {
    BetweenChunks(f, p, c);
    assert f.chunk[p] + f.chunk[c] - f.chunk[p] == f.chunk[c];
  }

  lemma TopRestored(f: Forest, p: nat, c: nat, d: Dep)
    requires ValidForest(f) && p in f.chunk && c in f.chunk && f.chunk[p] != f.chunk[c]
    requires d in f.top && d != (p, c)
    ensures Deactivated(Activated(f, p, c), (p, c)).top[d] == f.top[d]
  {
    BetweenChunks(f, p, c);
    assert Inside(f, d) && Cut(f, d);
    var pk, ck := f.chunk[p], f.chunk[c];
    assert pk + ck - pk == ck;
    assert f.top[d] <= f.chunk[d.0];
    if d.0 in pk {
      assert f.chunk[d.0] == pk;
      assert (f.top[d] + ck) * pk == f.top[d];
    } else if d.0 in ck {
      assert f.chunk[d.0] == ck;
      assert (f.top[d] + pk) * ck == f.top[d];
    }
  }

  // ----- a chunk of n transactions has n - 1 active dependencies

  ghost function DepsIn(f: Forest, k: set<nat>): set<Dep> {
    set e | e in f.top && e.0 in k
  }

  lemma {:induction false} DepCount(f: Forest, x: nat)
    requires ValidForest(f) && x in f.chunk
    ensures |DepsIn(f, f.chunk[x])| == |f.chunk[x]| - 1
    decreases f.top.Keys
  {
    hide Deactivated, ValidForest, DepsIn;
    var k := f.chunk[x];
    if e :| e in DepsIn(f, k) {
      DepOf(f, x, e);
      var g, t, b := Deactivated(f, e), f.top[e], k - f.top[e];
      DeactivatedValid(f, e);
      DeactivatedParts(f, e);
      DepCount(g, e.0);
      DepCount(g, e.1);
      DepsSplit(f, e);
    } else {
      NoDeps(f, x);
    }
  }

  lemma DepOf(f: Forest, x: nat, e: Dep)
    requires ValidForest(f) && x in f.chunk && e in DepsIn(f, f.chunk[x])
    ensures e in f.top && e.0 in f.chunk && f.chunk[e.0] == f.chunk[x]
  {
  }

  /** A chunk without active dependencies is a single transaction. */
  lemma NoDeps(f: Forest, x: nat)
    requires ValidForest(f) && x in f.chunk && DepsIn(f, f.chunk[x]) == {}
    ensures f.chunk[x] == {x}
  {
    forall e | e in f.top ensures e.0 != x && e.1 != x {
      assert Inside(f, e);
      assert e !in DepsIn(f, f.chunk[x]);
    }
    assert Closed({x}, f.top.Keys);
  }

  lemma DeactivatedParts(f: Forest, e: Dep)
    requires ValidForest(f) && e in f.top
    ensures var g := Deactivated(f, e);
            && g.top.Keys == f.top.Keys - {e}
            && e.0 in g.chunk && g.chunk[e.0] == f.top[e]
            && e.1 in g.chunk && g.chunk[e.1] == f.chunk[e.0] - f.top[e]
  {
    hide Connected;
    assert Inside(f, e) && Cut(f, e);
  }

  lemma DepsSplit(f: Forest, e: Dep)
    requires ValidForest(f) && e in f.top
    ensures var g, k, t := Deactivated(f, e), f.chunk[e.0], f.top[e];
            && k == t + (k - t) && DepsIn(f, k) == DepsIn(g, t) + DepsIn(g, k - t) + {e}
            && DepsIn(g, t) * DepsIn(g, k - t) == {} && e !in DepsIn(g, t) && e !in DepsIn(g, k - t)
  {
    hide Connected;
    assert Inside(f, e) && Cut(f, e);
  }
}
