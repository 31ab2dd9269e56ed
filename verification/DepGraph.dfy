/** The dependency graph of a cluster (`DepGraph`, src/cluster_linearize.h).

    Only ancestor and descendant sets are stored.  They are proved to stay the two directions of one
    reflexive and transitive relation, and adding dependencies to produce exactly its closure. */
module DepGraphs {
  import opened FeeFracs
  import opened Totals

  // ----- the graph as a value

  datatype Graph = Graph(rate: Rates, anc: map<nat, set<nat>>, desc: map<nat, set<nat>>)

  ghost predicate WellFormed(g: Graph) {
    && g.anc.Keys == g.rate.Keys && g.desc.Keys == g.rate.Keys
    && (forall i :: i in g.rate ==> g.anc[i] <= g.rate.Keys && g.desc[i] <= g.rate.Keys)
    && (forall i :: i in g.rate ==> i in g.anc[i])
    && (forall i, j :: i in g.rate && j in g.rate ==> (j in g.anc[i] <==> i in g.desc[j]))
    && (forall i, j :: i in g.rate && j in g.anc[i] ==> g.anc[j] <= g.anc[i])
  }

  /** `q` is reflexive on the graph, transitive, and contains all its ancestor pairs. */
  ghost predicate ClosedOver(q: set<(nat, nat)>, g: Graph)
    requires WellFormed(g)
  {
    && (forall i :: i in g.rate ==> (i, i) in q)
    && (forall i, j :: i in g.rate && j in g.anc[i] ==> (j, i) in q)
    && (forall i, j, k {:trigger (i, j) in q, (j, k) in q} :: (i, j) in q && (j, k) in q ==> (i, k) in q)
  }

  /** `h` is `g` with the dependencies of `child` on all of `parents` added: it contains the old
      relation and the new pairs, and is contained in every closed relation that does. */
  ghost predicate ExtendsBy(h: Graph, g: Graph, parents: set<nat>, child: nat)
    requires WellFormed(g) && WellFormed(h) && child in g.rate
  {
    && h.rate == g.rate
    && (forall i :: i in g.rate ==> g.anc[i] <= h.anc[i])
    && parents <= h.anc[child]
    && (forall q :: ClosedOver(q, g) && (forall p :: p in parents ==> (p, child) in q)
          ==> forall i, j :: i in h.rate && j in h.anc[i] ==> (j, i) in q)
  }

  ghost predicate Acyclic(g: Graph)
    requires WellFormed(g)
  {
    forall i, j :: i in g.rate && j in g.anc[i] && i in g.anc[j] ==> i == j
  }

  /** The cover relation: `p` is an ancestor of `c` with no transaction between them. */
  ghost predicate Covers(g: Graph, p: nat, c: nat)
    requires WellFormed(g) && c in g.rate
  {
    && p in g.anc[c] && p != c
    && forall q :: q in g.anc[c] && q != c && q != p ==> p !in g.anc[q]
  }

  ghost function ReducedParents(g: Graph, c: nat): set<nat>
    requires WellFormed(g) && c in g.rate
  {
    set p | p in g.anc[c] && Covers(g, p, c)
  }

  ghost function ReducedChildren(g: Graph, p: nat): set<nat>
    requires WellFormed(g) && p in g.rate
  {
    set c | c in g.desc[p] && Covers(g, p, c)
  }

  /** An antichain of ancestors (or descendants) of `i` below which everything else lies. */
  ghost predicate ReducedSet(rel: map<nat, set<nat>>, i: nat, s: set<nat>)
    requires i in rel
  {
    && s <= rel[i] - {i} && s <= rel.Keys
    && (forall p, q :: p in s && q in s && p != q ==> p !in rel[q])
    && (forall a :: a in rel[i] && a != i ==> exists p :: p in s && a in rel[p])
  }

  ghost predicate Preorder(rel: map<nat, set<nat>>) {
    && (forall i :: i in rel ==> i in rel[i] && rel[i] <= rel.Keys)
    && (forall i, j :: i in rel && j in rel[i] ==> rel[j] <= rel[i])
  }

  lemma BothPreorders(g: Graph)
    requires WellFormed(g)
    ensures Preorder(g.anc) && Preorder(g.desc)
  {
    forall i, j | i in g.desc && j in g.desc[i] ensures g.desc[j] <= g.desc[i] {
      forall k | k in g.desc[j] ensures k in g.desc[i] {
        assert i in g.anc[j] && j in g.anc[k];
      }
    }
  }

  /** Between two rounds of the reduction loops: only members already visited are known to have
      nothing of theirs left in the set. */
  ghost predicate Reducing(rel: map<nat, set<nat>>, i: nat, s: set<nat>, todo: set<nat>)
    requires i in rel && Preorder(rel)
  {
    && todo <= rel[i] - {i} && s <= rel[i] - {i}
    && (forall p, q :: p in s && q in s - todo && p != q ==> p !in rel[q])
    && (forall a :: a in rel[i] && a != i ==> ReachedFrom(rel, s, a))
  }

  ghost predicate ReachedFrom(rel: map<nat, set<nat>>, s: set<nat>, a: nat) {
    exists p :: p in s && p in rel && a in rel[p]
  }

  lemma StillReached(rel: map<nat, set<nat>>, s: set<nat>, x: nat, a: nat)
    requires Preorder(rel) && x in rel && x in s && ReachedFrom(rel, s, a)
    ensures ReachedFrom(rel, s - rel[x] + {x}, a)
  {
    var p :| p in s && p in rel && a in rel[p];
    var less := s - rel[x] + {x};
    if p in less {
      assert p in less && a in rel[p];
    } else {
      assert x in less && a in rel[x];
    }
  }

  lemma ReduceStep(rel: map<nat, set<nat>>, i: nat, s: set<nat>, todo: set<nat>, x: nat)
    requires i in rel && Preorder(rel) && Reducing(rel, i, s, todo) && x in todo
    ensures Reducing(rel, i, if x in s then s - rel[x] + {x} else s, todo - {x})
  {
    hide ReachedFrom;
    var s' := if x in s then s - rel[x] + {x} else s;
    forall a | a in rel[i] && a != i ensures ReachedFrom(rel, s', a) {
      if x in s { StillReached(rel, s, x, a); }
    }
  }

  lemma ReduceStarts(rel: map<nat, set<nat>>, i: nat)
    requires i in rel && Preorder(rel)
    ensures Reducing(rel, i, rel[i] - {i}, rel[i] - {i})
  {
    forall a | a in rel[i] && a != i ensures ReachedFrom(rel, rel[i] - {i}, a) {
      assert a in rel[i] - {i} && a in rel[a];
    }
  }

  lemma ReduceWithin(rel: map<nat, set<nat>>, i: nat, s: set<nat>, todo: set<nat>)
    requires i in rel && Preorder(rel) && Reducing(rel, i, s, todo)
    ensures todo <= rel.Keys
  {
  }

  lemma ReduceEnds(rel: map<nat, set<nat>>, i: nat, s: set<nat>)
    requires i in rel && Preorder(rel) && Reducing(rel, i, s, {})
    ensures ReducedSet(rel, i, s)
  {
    forall a | a in rel[i] && a != i ensures exists p :: p in s && a in rel[p] { assert ReachedFrom(rel, s, a); }
  }

  /** In an acyclic graph the only such antichain is the set of covered transactions. */
  lemma ReducedParentsUnique(g: Graph, i: nat, s: set<nat>)
    requires WellFormed(g) && Acyclic(g) && i in g.rate && ReducedSet(g.anc, i, s)
    ensures s == ReducedParents(g, i)
  {
    forall p ensures p in s <==> p in ReducedParents(g, i) {
      if p in s {
        forall q | q in g.anc[i] && q != i && q != p ensures p !in g.anc[q] {
          var t :| t in s && q in g.anc[t];
        }
      }
      if p in ReducedParents(g, i) {
        var t :| t in s && p in g.anc[t];
      }
    }
  }

  lemma ReducedChildrenUnique(g: Graph, i: nat, s: set<nat>)
    requires WellFormed(g) && Acyclic(g) && i in g.rate && ReducedSet(g.desc, i, s)
    ensures s == ReducedChildren(g, i)
  {
    forall c ensures c in s <==> c in ReducedChildren(g, i) {
      if c in s {
        forall q | q in g.anc[c] && q != c && q != i ensures i !in g.anc[q] { }
      }
      if c in ReducedChildren(g, i) {
        var t :| t in s && c in g.desc[t];
      }
    }
  }

  /** Parents and children are the same relation read in its two directions. */
  lemma ReducedParentsAreChildren(g: Graph, p: nat, c: nat)
    requires WellFormed(g) && p in g.rate && c in g.rate
    ensures p in ReducedParents(g, c) <==> c in ReducedChildren(g, p)
  {
  }

  /** Every proper ancestor is reached through reduced parents: an ancestor-closed set is exactly a
      set closed under reduced parents. */
  lemma ClosedUnderParents(g: Graph, s: set<nat>)
    requires WellFormed(g) && Acyclic(g) && s <= g.rate.Keys
    ensures (forall c :: c in s ==> g.anc[c] <= s) <==> (forall c :: c in s ==> ReducedParents(g, c) <= s)
  {
    if forall c :: c in s ==> ReducedParents(g, c) <= s {
      forall c | c in s ensures g.anc[c] <= s { AncestorsInside(g, s, c); }
    }
    if forall c :: c in s ==> g.anc[c] <= s {
      forall c | c in s ensures ReducedParents(g, c) <= s { }
    }
  }

  lemma {:induction false} AncestorsInside(g: Graph, s: set<nat>, c: nat)
    requires WellFormed(g) && Acyclic(g) && s <= g.rate.Keys && c in s
    requires forall c :: c in s ==> ReducedParents(g, c) <= s
    ensures g.anc[c] <= s
    decreases g.anc[c]
  {
    forall a | a in g.anc[c] ensures a in s {
      if a != c {
        var p := MaximalBetween(g, a, c, g.anc[c]);
        assert p in ReducedParents(g, c);
        assert c !in g.anc[p];
        AncestorsInside(g, s, p);
      }
    }
  }

  /** Above any proper ancestor `a` of `c` there is a reduced parent of `c`. */
  lemma {:induction false} MaximalBetween(g: Graph, a: nat, c: nat, todo: set<nat>) returns (p: nat)
    requires WellFormed(g) && Acyclic(g) && c in g.rate && a in g.anc[c] && a != c
    requires todo <= g.anc[c]
    requires forall q :: q in g.anc[c] && q != c && q != a && a in g.anc[q] ==> q in todo
    ensures Covers(g, p, c) && a in g.anc[p]
    decreases todo
  {
    if q :| q in g.anc[c] && q != c && q != a && a in g.anc[q] {
      p := MaximalBetween(g, q, c, todo - {q});
    } else {
      p := a;
    }
  }

  // ----- the class

  datatype Entry = Entry(feerate: FeeFrac, ancestors: set<nat>, descendants: set<nat>)

  ghost predicate InRange(entries: seq<Entry>, used: set<nat>) {
    forall i :: i in used ==> i < |entries|
  }

  /** The graph that the used positions of `entries` stand for. */
  ghost function GraphOf(entries: seq<Entry>, used: set<nat>): Graph
    requires InRange(entries, used)
  {
    Graph(map i | i in used :: entries[i].feerate,
          map i | i in used :: entries[i].ancestors,
          map i | i in used :: entries[i].descendants)
  }

  ghost predicate ValidEntries(entries: seq<Entry>, used: set<nat>) {
    && InRange(entries, used)
    && (entries != [] ==> |entries| - 1 in used)
    && WellFormed(GraphOf(entries, used))
  }

  lemma FreshEntry(entries: seq<Entry>, used: set<nat>, index: nat, feefrac: FeeFrac, entries': seq<Entry>)
    requires ValidEntries(entries, used) && index !in used && index <= |entries|
    requires var e := Entry(feefrac, {index}, {index});
             entries' == if index == |entries| then entries + [e] else entries[index := e]
    ensures ValidEntries(entries', used + {index})
    ensures var g := GraphOf(entries, used);
            GraphOf(entries', used + {index}) ==
              Graph(g.rate[index := feefrac], g.anc[index := {index}], g.desc[index := {index}])
  {
    hide WellFormed;
    var g, h := GraphOf(entries, used), GraphOf(entries', used + {index});
    assert h.rate == g.rate[index := feefrac];
    assert h.anc == g.anc[index := {index}];
    assert h.desc == g.desc[index := {index}];
    WithFreshTransaction(g, h, index, feefrac);
  }

  lemma EntriesBounded(entries: seq<Entry>, used: set<nat>)
    requires ValidEntries(entries, used)
    ensures forall i :: i in used ==> entries[i].ancestors <= used && entries[i].descendants <= used
  {
    var g := GraphOf(entries, used);
    forall i | i in used ensures entries[i].ancestors <= used && entries[i].descendants <= used {
      assert g.anc[i] == entries[i].ancestors && g.desc[i] == entries[i].descendants;
    }
  }

  lemma EntriesTransitive(entries: seq<Entry>, used: set<nat>, i: nat)
    requires ValidEntries(entries, used) && i in used
    ensures forall j :: j in used && j in entries[i].ancestors ==> entries[j].ancestors <= entries[i].ancestors
  {
    var g := GraphOf(entries, used);
    forall j | j in used && j in entries[i].ancestors ensures entries[j].ancestors <= entries[i].ancestors {
      assert g.anc[i] == entries[i].ancestors && g.anc[j] == entries[j].ancestors;
    }
  }

  ghost predicate Restricted(h: Graph, g: Graph, del: set<nat>) {
    && h.rate == g.rate - del
    && h.anc.Keys == g.anc.Keys - del && h.desc.Keys == g.desc.Keys - del
    && (forall i :: i in h.anc ==> h.anc[i] == g.anc[i] - del)
    && (forall i :: i in h.desc ==> h.desc[i] == g.desc[i] - del)
  }

  lemma RestrictedWellFormed(h: Graph, g: Graph, del: set<nat>)
    requires WellFormed(g) && Restricted(h, g, del)
    ensures WellFormed(h)
  {
  }

  lemma EntriesRestricted(before: seq<Entry>, all: set<nat>, del: set<nat>, entries: seq<Entry>)
    requires ValidEntries(before, all) && InRange(entries, all - del) && |entries| <= |before|
    requires entries != [] ==> |entries| - 1 in all - del
    requires var used := all - del;
             forall i :: 0 <= i < |entries| ==>
               entries[i] == Entry(before[i].feerate, before[i].ancestors * used, before[i].descendants * used)
    ensures ValidEntries(entries, all - del)
    ensures Restricted(GraphOf(entries, all - del), GraphOf(before, all), del)
  {
    hide WellFormed;
    EntriesBounded(before, all);
    var g, h := GraphOf(before, all), GraphOf(entries, all - del);
    assert h.rate == g.rate - del;
    RestrictedWellFormed(h, g, del);
  }

  /** `parAnc` are the ancestors of the parents that `child` did not have yet. */
  ghost predicate ToAdd(before: seq<Entry>, used: set<nat>, parents: set<nat>, child: nat, parAnc: set<nat>)
    requires InRange(before, used)
  {
    && child in used && parents <= used && parAnc <= used && parAnc * before[child].ancestors == {}
    && (forall p, a :: p in parents && a in before[p].ancestors ==> a in parAnc || a in before[child].ancestors)
    && (forall a :: a in parAnc ==> exists p :: p in parents && a in before[p].ancestors)
  }

  /** They have been added to the descendants of `child`, and those to their descendants. */
  ghost predicate RelativesAdded(before: seq<Entry>, used: set<nat>, entries: seq<Entry>, child: nat, parAnc: set<nat>)
    requires InRange(before, used) && child in used
  {
    && |entries| == |before|
    && (forall i :: i in used ==> entries[i].feerate == before[i].feerate)
    && (forall i :: i in used ==>
          entries[i].ancestors == if i in before[child].descendants then before[i].ancestors + parAnc
                                  else before[i].ancestors)
    && (forall i :: i in used ==>
          entries[i].descendants == if i in parAnc then before[i].descendants + before[child].descendants
                                    else before[i].descendants)
  }

  lemma EntriesWritten(before: seq<Entry>, used: set<nat>, entries: seq<Entry>, parents: set<nat>, child: nat,
                       parAnc: set<nat>)
    requires ValidEntries(before, used) && ToAdd(before, used, parents, child, parAnc)
    requires RelativesAdded(before, used, entries, child, parAnc)
    ensures ValidEntries(entries, used)
    ensures ExtendsBy(GraphOf(entries, used), GraphOf(before, used), parents, child)
  {
    hide WellFormed, ExtendsBy, GraphOf, Written, ToAdd;
    EntriesAreWritten(before, used, entries, parents, child, parAnc);
    ClosureWithEdges(GraphOf(before, used), GraphOf(entries, used), parents, child, parAnc);
  }

  lemma AncestorsAreNew(before: seq<Entry>, used: set<nat>, parents: set<nat>, child: nat, parAnc: set<nat>)
    requires InRange(before, used) && ToAdd(before, used, parents, child, parAnc)
    ensures var g := GraphOf(before, used);
            && child in used && parents <= used && parAnc <= used && parAnc * g.anc[child] == {}
            && (forall p, a :: p in parents && a in g.anc[p] ==> a in parAnc || a in g.anc[child])
            && (forall a :: a in parAnc ==> exists p :: p in parents && a in g.anc[p])
  {
    var g := GraphOf(before, used);
    hide GraphOf;
    GraphAt(before, used);
    forall a | a in parAnc ensures exists p :: p in parents && a in g.anc[p] {
      var p :| p in parents && a in before[p].ancestors;
      assert a in g.anc[p];
    }
  }

  lemma EntriesAreWritten(before: seq<Entry>, used: set<nat>, entries: seq<Entry>, parents: set<nat>, child: nat,
                          parAnc: set<nat>)
    requires ValidEntries(before, used) && ToAdd(before, used, parents, child, parAnc)
    requires RelativesAdded(before, used, entries, child, parAnc)
    ensures InRange(entries, used) && Written(GraphOf(before, used), GraphOf(entries, used), parents, child, parAnc)
  {
    hide WellFormed, GraphOf, ToAdd;
    AncestorsAreNew(before, used, parents, child, parAnc);
    GraphAt(before, used);
    GraphAt(entries, used);
    assert GraphOf(entries, used).rate == GraphOf(before, used).rate;
  }

  lemma GraphAt(entries: seq<Entry>, used: set<nat>)
    requires InRange(entries, used)
    ensures var g := GraphOf(entries, used);
            && g.rate.Keys == used && g.anc.Keys == used && g.desc.Keys == used
            && forall i :: i in used ==> g.rate[i] == entries[i].feerate && g.anc[i] == entries[i].ancestors &&
                                         g.desc[i] == entries[i].descendants
  {
  }

  class DepGraph {
    /** `SetType::Size()`. */
    const capacity: nat
    var entries: seq<Entry>
    var used: set<nat>

    ghost function View(): Graph
      requires InRange(entries, used)
      reads this
    {
      GraphOf(entries, used)
    }

    ghost predicate Valid()
      reads this
    {
      |entries| <= capacity && ValidEntries(entries, used)
    }

    constructor (capacity: nat)
      ensures Valid() && used == {} && this.capacity == capacity
    {
      this.capacity := capacity;
      entries := [];
      used := {};
    }

    method AddTransaction(feefrac: FeeFrac) returns (index: nat)
      requires Valid() && exists i: nat :: i < capacity && i !in used
      modifies this
      ensures Valid()
      ensures index !in old(used) && index < capacity && forall i: nat :: i < index ==> i in old(used)
      ensures View() == var g := old(View());
                        Graph(g.rate[index := feefrac], g.anc[index := {index}], g.desc[index := {index}])
    {
      hide GraphOf, WellFormed;
      index := 0;
      while index in used
        invariant forall i: nat :: i < index ==> i in used
        invariant index <= |entries|
        decreases |entries| - index
      {
        index := index + 1;
      }
      var entry := Entry(feefrac, {index}, {index});
      ghost var before := entries;
      if index == |entries| {
        var i :| i < capacity && i !in used;
        entries := entries + [entry];
      } else {
        entries := entries[index := entry];
      }
      FreshEntry(before, used, index, feefrac, entries);
      used := used + {index};
    }

    /** The transactions not in `del`, with the ancestors and descendants they already had among
        themselves: a grandparent stays an ancestor when the parent is removed. */
    method RemoveTransactions(del: set<nat>)
      requires Valid()
      modifies this
      ensures Valid() && used == old(used) - del
      ensures Restricted(View(), old(View()), del)
    {
      hide GraphOf, WellFormed, Restricted;
      ghost var before, all := entries, used;
      used := used - del;
      while |entries| > 0 && |entries| - 1 !in used
        invariant |entries| <= |before| && entries == before[..|entries|]
        invariant InRange(entries, used) && used == all - del
      {
        entries := entries[..|entries| - 1];
      }
      ghost var kept := entries;
      var n := 0;
      while n < |entries|
        invariant 0 <= n <= |entries| == |kept| && used == all - del
        invariant forall i :: n <= i < |entries| ==> entries[i] == kept[i]
        invariant forall i :: 0 <= i < n ==>
          entries[i] == Entry(kept[i].feerate, kept[i].ancestors * used, kept[i].descendants * used)
      {
        entries := entries[n := Entry(entries[n].feerate, entries[n].ancestors * used, entries[n].descendants * used)];
        n := n + 1;
      }
      EntriesRestricted(before, all, del, entries);
    }

    method AddDependencies(parents: set<nat>, child: nat)
      requires Valid() && child in used && parents <= used
      modifies this`entries
      ensures Valid() && |entries| == |old(entries)|
      ensures ExtendsBy(View(), old(View()), parents, child)
    {
      hide GraphOf, WellFormed, ExtendsBy;
      ghost var before := entries;
      EntriesBounded(entries, used);
      var childDesc := entries[child].descendants;
      var parAnc := NewAncestors(parents, child);
      if parAnc != {} {
        AddDescendants(parAnc, childDesc);
        AddAncestors(childDesc, parAnc);
      }
      EntriesWritten(before, used, entries, parents, child, parAnc);
    }

    method AddDescendants(parAnc: set<nat>, childDesc: set<nat>)
      requires InRange(entries, parAnc)
      modifies this`entries
      ensures |entries| == |old(entries)|
      ensures forall i :: 0 <= i < |entries| ==>
        entries[i] == if i in parAnc then old(entries)[i].(descendants := old(entries)[i].descendants + childDesc)
                      else old(entries)[i]
    {
      ghost var before := entries;
      var todo := parAnc;
      while todo != {}
        invariant todo <= parAnc && |entries| == |before|
        invariant forall i :: 0 <= i < |entries| ==>
          entries[i] == if i in parAnc && i !in todo
                        then before[i].(descendants := before[i].descendants + childDesc)
                        else before[i]
      {
        var a :| a in todo;
        entries := entries[a := entries[a].(descendants := entries[a].descendants + childDesc)];
        todo := todo - {a};
      }
    }

    method AddAncestors(childDesc: set<nat>, parAnc: set<nat>)
      requires InRange(entries, childDesc)
      modifies this`entries
      ensures |entries| == |old(entries)|
      ensures forall i :: 0 <= i < |entries| ==>
        entries[i] == if i in childDesc then old(entries)[i].(ancestors := old(entries)[i].ancestors + parAnc)
                      else old(entries)[i]
    {
      ghost var before := entries;
      var todo := childDesc;
      while todo != {}
        invariant todo <= childDesc && |entries| == |before|
        invariant forall i :: 0 <= i < |entries| ==>
          entries[i] == if i in childDesc && i !in todo
                        then before[i].(ancestors := before[i].ancestors + parAnc)
                        else before[i]
      {
        var d :| d in todo;
        entries := entries[d := entries[d].(ancestors := entries[d].ancestors + parAnc)];
        todo := todo - {d};
      }
    }

    /** The first loop of `AddDependencies`: ancestors of parents that the child does not have. */
    method NewAncestors(parents: set<nat>, child: nat) returns (parAnc: set<nat>)
      requires Valid() && child in used && parents <= used
      ensures parAnc <= used && parAnc * entries[child].ancestors == {}
      ensures forall p, a :: p in parents && a in entries[p].ancestors ==> a in parAnc || a in entries[child].ancestors
      ensures forall a :: a in parAnc ==> exists p :: p in parents && a in entries[p].ancestors
    {
      hide GraphOf, WellFormed;
      EntriesBounded(entries, used);
      EntriesTransitive(entries, used, child);
      var todo := parents - entries[child].ancestors;
      parAnc := {};
      while todo != {}
        invariant todo <= parents && parAnc <= used
        invariant forall p :: p in parents && p !in entries[child].ancestors && p !in todo ==>
                    entries[p].ancestors <= parAnc
        invariant forall a :: a in parAnc ==> exists p :: p in parents && a in entries[p].ancestors
      {
        var par :| par in todo;
        parAnc := parAnc + entries[par].ancestors;
        todo := todo - {par};
      }
      parAnc := parAnc - entries[child].ancestors;
    }

    method FeeRate(elems: set<nat>) returns (ret: FeeFrac)
      requires Valid() && elems <= used
      ensures ret == Total(View().rate, elems)
    {
      ret := EMPTY;
      var todo := elems;
      TotalEmpty(View().rate);
      assert elems - todo == {};
      while todo != {}
        invariant todo <= elems && ret == Total(View().rate, elems - todo)
      {
        hide Total;
        var pos :| pos in todo;
        TotalPick(View().rate, elems - (todo - {pos}), pos);
        assert elems - (todo - {pos}) - {pos} == elems - todo;
        ret := Add(ret, entries[pos].feerate);
        todo := todo - {pos};
      }
      assert elems - todo == elems;
    }

    method GetReducedParents(i: nat) returns (parents: set<nat>)
      requires Valid() && i in used
      ensures ReducedSet(View().anc, i, parents)
      ensures Acyclic(View()) ==> parents == ReducedParents(View(), i)
    {
      hide WellFormed, Reducing, ReducedSet, GraphOf, Preorder, Acyclic, ReducedParents;
      ghost var g := View();
      BothPreorders(g);
      GraphAt(entries, used);
      ReduceStarts(g.anc, i);
      parents := entries[i].ancestors - {i};
      var todo := parents;
      while todo != {}
        invariant Reducing(g.anc, i, parents, todo)
      {
        var parent :| parent in todo;
        ReduceWithin(g.anc, i, parents, todo);
        ReduceStep(g.anc, i, parents, todo, parent);
        if parent in parents {
          parents := parents - entries[parent].ancestors + {parent};
        }
        todo := todo - {parent};
      }
      ReduceEnds(g.anc, i, parents);
      if Acyclic(g) { ReducedParentsUnique(g, i, parents); }
    }

    method GetReducedChildren(i: nat) returns (children: set<nat>)
      requires Valid() && i in used
      ensures ReducedSet(View().desc, i, children)
      ensures Acyclic(View()) ==> children == ReducedChildren(View(), i)
    {
      hide WellFormed, Reducing, ReducedSet, GraphOf, Preorder, Acyclic, ReducedChildren;
      ghost var g := View();
      BothPreorders(g);
      GraphAt(entries, used);
      ReduceStarts(g.desc, i);
      children := entries[i].descendants - {i};
      var todo := children;
      while todo != {}
        invariant Reducing(g.desc, i, children, todo)
      {
        var child :| child in todo;
        ReduceWithin(g.desc, i, children, todo);
        ReduceStep(g.desc, i, children, todo, child);
        if child in children {
          children := children - entries[child].descendants + {child};
        }
        todo := todo - {child};
      }
      ReduceEnds(g.desc, i, children);
      if Acyclic(g) { ReducedChildrenUnique(g, i, children); }
    }
  }

  /** What `AddDependencies` writes, from the old graph `g`: `parAnc` are the ancestors of parents
      that `child` did not have yet. */
  ghost predicate Written(g: Graph, h: Graph, parents: set<nat>, child: nat, parAnc: set<nat>)
    requires WellFormed(g)
  {
    && child in g.rate && parents <= g.rate.Keys && parAnc <= g.rate.Keys && parAnc * g.anc[child] == {}
    && h.rate == g.rate && h.anc.Keys == g.rate.Keys && h.desc.Keys == g.rate.Keys
    && (forall p, a :: p in parents && a in g.anc[p] ==> a in parAnc || a in g.anc[child])
    && (forall a :: a in parAnc ==> exists p :: p in parents && a in g.anc[p])
    && (forall i :: i in g.rate ==> h.anc[i] == if i in g.desc[child] then g.anc[i] + parAnc else g.anc[i])
    && (forall i :: i in g.rate ==> h.desc[i] == if i in parAnc then g.desc[i] + g.desc[child] else g.desc[i])
  }

  lemma WrittenTransitive(g: Graph, h: Graph, parents: set<nat>, child: nat, parAnc: set<nat>, i: nat, j: nat, k: nat)
    requires WellFormed(g) && Written(g, h, parents, child, parAnc)
    requires i in g.rate && j in h.anc[i] && j in g.rate && k in h.anc[j]
    ensures k in h.anc[i]
  {
    if j in g.anc[i] {
      if k !in g.anc[j] {
        assert child in g.anc[j] && child in g.anc[i] && i in g.desc[child];
      }
    } else {
      assert child in g.anc[i] && j in parAnc;
      if k in g.anc[j] {
        var p :| p in parents && j in g.anc[p];
        assert k in g.anc[p];
      }
    }
  }

  lemma WrittenKeys(g: Graph, h: Graph, parents: set<nat>, child: nat, parAnc: set<nat>)
    requires WellFormed(g) && Written(g, h, parents, child, parAnc)
    ensures h.rate == g.rate && h.anc.Keys == g.rate.Keys && h.desc.Keys == g.rate.Keys
    ensures g.anc.Keys == g.rate.Keys && child in g.rate
  {
  }

  lemma WrittenAt(g: Graph, h: Graph, parents: set<nat>, child: nat, parAnc: set<nat>, i: nat)
    requires WellFormed(g) && Written(g, h, parents, child, parAnc) && i in g.rate
    ensures h.anc[i] <= g.rate.Keys && h.desc[i] <= g.rate.Keys && i in h.anc[i]
    ensures g.anc[i] <= h.anc[i]
  {
  }

  lemma WrittenMutual(g: Graph, h: Graph, parents: set<nat>, child: nat, parAnc: set<nat>, i: nat, j: nat)
    requires WellFormed(g) && Written(g, h, parents, child, parAnc) && i in g.rate && j in g.rate
    ensures j in h.anc[i] <==> i in h.desc[j]
  {
    assert j in g.anc[i] <==> i in g.desc[j];
  }

  lemma WrittenWellFormed(g: Graph, h: Graph, parents: set<nat>, child: nat, parAnc: set<nat>)
    requires WellFormed(g) && Written(g, h, parents, child, parAnc)
    ensures WellFormed(h)
  {
    hide Written, WellFormed;
    WrittenKeys(g, h, parents, child, parAnc);
    forall i | i in h.rate
      ensures h.anc[i] <= h.rate.Keys && h.desc[i] <= h.rate.Keys && i in h.anc[i]
    {
      WrittenAt(g, h, parents, child, parAnc, i);
    }
    forall i, j, k | i in h.rate && j in h.anc[i] && k in h.anc[j] ensures k in h.anc[i] {
      WrittenTransitive(g, h, parents, child, parAnc, i, j, k);
    }
    forall i, j | i in h.rate && j in h.rate ensures j in h.anc[i] <==> i in h.desc[j] {
      WrittenMutual(g, h, parents, child, parAnc, i, j);
    }
    WellFormedBy(h);
  }

  lemma WellFormedBy(h: Graph)
    requires h.anc.Keys == h.rate.Keys && h.desc.Keys == h.rate.Keys
    requires forall i :: i in h.rate ==> h.anc[i] <= h.rate.Keys && h.desc[i] <= h.rate.Keys && i in h.anc[i]
    requires forall i, j, k :: i in h.rate && j in h.anc[i] && k in h.anc[j] ==> k in h.anc[i]
    requires forall i, j :: i in h.rate && j in h.rate ==> (j in h.anc[i] <==> i in h.desc[j])
    ensures WellFormed(h)
  {
  }

  lemma WrittenLeast(g: Graph, h: Graph, parents: set<nat>, child: nat, parAnc: set<nat>,
                     q: set<(nat, nat)>, i: nat, j: nat)
    requires WellFormed(g) && Written(g, h, parents, child, parAnc)
    requires ClosedOver(q, g) && forall p :: p in parents ==> (p, child) in q
    requires i in h.rate && j in h.anc[i]
    ensures (j, i) in q
  {
    if j !in g.anc[i] {
      assert child in g.anc[i];
      var p :| p in parents && j in g.anc[p];
      assert (j, p) in q && (p, child) in q && (child, i) in q;
      assert (j, child) in q;
    }
  }

  lemma WrittenParents(g: Graph, h: Graph, parents: set<nat>, child: nat, parAnc: set<nat>)
    requires WellFormed(g) && Written(g, h, parents, child, parAnc)
    ensures child in h.anc && parents <= h.anc[child]
  {
    forall p | p in parents ensures p in h.anc[child] {
      assert p in g.anc[p] && child in g.desc[child];
    }
  }

  /** `AddDependencies` produces a well-formed graph that is exactly the closure. */
  lemma ClosureWithEdges(g: Graph, h: Graph, parents: set<nat>, child: nat, parAnc: set<nat>)
    requires WellFormed(g) && Written(g, h, parents, child, parAnc)
    ensures WellFormed(h) && ExtendsBy(h, g, parents, child)
  {
    hide ClosedOver, WellFormed, Written;
    WrittenKeys(g, h, parents, child, parAnc);
    WrittenWellFormed(g, h, parents, child, parAnc);
    WrittenParents(g, h, parents, child, parAnc);
    forall i | i in g.rate ensures g.anc[i] <= h.anc[i] {
      WrittenAt(g, h, parents, child, parAnc, i);
    }
    forall q | ClosedOver(q, g) && (forall p :: p in parents ==> (p, child) in q)
      ensures forall i, j :: i in h.rate && j in h.anc[i] ==> (j, i) in q
    {
      forall i, j | i in h.rate && j in h.anc[i] ensures (j, i) in q {
        WrittenLeast(g, h, parents, child, parAnc, q, i, j);
      }
    }
  }

  lemma WithFreshTransaction(g: Graph, h: Graph, index: nat, feefrac: FeeFrac)
    requires WellFormed(g) && index !in g.rate
    requires h == Graph(g.rate[index := feefrac], g.anc[index := {index}], g.desc[index := {index}])
    ensures WellFormed(h)
  {
    hide Preorder;
    BothPreorders(g);
    FreshPreorder(g.anc, index);
    FreshInverse(g, h, index);
    hide WellFormed;
    WellFormedFrom(h);
  }

  lemma WellFormedFrom(h: Graph)
    requires h.anc.Keys == h.rate.Keys && h.desc.Keys == h.rate.Keys && Preorder(h.anc)
    requires forall i :: i in h.rate ==> h.desc[i] <= h.rate.Keys
    requires forall i, j :: i in h.rate && j in h.rate ==> (j in h.anc[i] <==> i in h.desc[j])
    ensures WellFormed(h)
  {
  }

  lemma FreshInverse(g: Graph, h: Graph, index: nat)
    requires WellFormed(g) && index !in g.rate && h.rate.Keys == g.rate.Keys + {index}
    requires h.anc == g.anc[index := {index}] && h.desc == g.desc[index := {index}]
    ensures h.anc.Keys == h.rate.Keys && h.desc.Keys == h.rate.Keys
    ensures forall i :: i in h.rate ==> h.desc[i] <= h.rate.Keys
    ensures forall i, j :: i in h.rate && j in h.rate ==> (j in h.anc[i] <==> i in h.desc[j])
  {
    forall i | i in g.rate ensures index !in g.anc[i] && index !in g.desc[i] { }
  }

  lemma FreshPreorder(rel: map<nat, set<nat>>, index: nat)
    requires Preorder(rel) && index !in rel
    ensures Preorder(rel[index := {index}])
  {
    var r := rel[index := {index}];
    forall i | i in rel ensures index !in rel[i] { }
    forall i, j | i in r && j in r[i] ensures r[j] <= r[i] { }
  }
}
