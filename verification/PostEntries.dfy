/** The linked lists of `PostLinearize` (src/cluster_linearize.h).

    Groups are linked from their last transaction to their first one, and the list of groups from
    its last group to its first one, from a sentinel at index 0 that points to the last group.
    Transaction t is at index t + 1. */
module PostEntries {
  import opened FeeFracs
  import opened Totals
  import opened Families
  import opened LinearOrders
  import opened PostGroups
  import opened PostShapes

  datatype TxEntry = TxEntry(
    prevTx: nat,      // previous transaction of the group, or 0
    // the rest is in use for the last transaction of a group only
    firstTx: nat,
    prevGroup: nat,   // last transaction of the previous group, or 0; of the sentinel: of the last group
    group: set<nat>,
    deps: set<nat>,
    feerate: FeeFrac)

  ghost function DepsOf(deps: Links, s: set<nat>): set<nat> { set x, y | x in s && x in deps && y in deps[x] :: y }

  ghost predicate GroupRep(e: seq<TxEntry>, m: Rates, deps: Links, g: seq<nat>) {
    && g != []
    && (forall j :: 0 <= j < |g| ==> g[j] + 1 < |e| && e[g[j] + 1].prevTx == if j == 0 then 0 else g[j - 1] + 1)
    && var t := e[Tail(g) + 1];
       t.firstTx == g[0] + 1 && t.group == Elems(g) && t.deps == DepsOf(deps, Elems(g)) && t.feerate == RateOf(m, g)
  }

  /** Where the last transaction of the last group of `l` is. */
  function Head(l: Groups): nat { if l == [] then 0 else Tail(l[|l| - 1]) + 1 }

  ghost predicate Linked(e: seq<TxEntry>, l: Groups, i: nat) {
    i < |l| && Tail(l[i]) + 1 < |e| && e[Tail(l[i]) + 1].prevGroup == if i == 0 then 0 else Tail(l[i - 1]) + 1
  }

  ghost predicate Rep(e: seq<TxEntry>, m: Rates, deps: Links, l: Groups) {
    && |e| > 0 && e[0].feerate == EMPTY && e[0].prevGroup == Head(l)
    && (forall i :: 0 <= i < |l| ==> GroupRep(e, m, deps, l[i]) && Linked(e, l, i))
  }

  // ----- disjointness

  lemma SplitDisjoint(s: seq<nat>, t: seq<nat>, x: nat)
    requires Distinct(s + t) && x in s
    ensures x !in t
  {
    var u :| 0 <= u < |s| && s[u] == x;
    forall v | 0 <= v < |t| ensures t[v] != x { assert (s + t)[u] == x && (s + t)[|s| + v] == t[v]; }
  }

  lemma GroupsDisjoint(l: Groups, i: nat, j: nat, x: nat)
    requires Distinct(Flat(l)) && i < j < |l| && x in l[i]
    ensures x !in l[j]
  {
    hide Flat;
    var a, b := l[..j], l[j..];
    assert l == a + b && a[i] == l[i] && b[0] == l[j];
    FlatAppend(a, b);
    InFlat(a, i, x);
    SplitDisjoint(Flat(a), Flat(b), x);
    if x in l[j] { InFlat(b, 0, x); }
  }

  lemma OtherGroup(l: Groups, i: nat, j: nat, x: nat)
    requires Distinct(Flat(l)) && i < |l| && j < |l| && i != j && x in l[i]
    ensures x !in l[j]
  {
    if i < j {
      GroupsDisjoint(l, i, j, x);
    } else if x in l[j] {
      GroupsDisjoint(l, j, i, x);
    }
  }

  lemma TailIn(g: seq<nat>)
    requires g != []
    ensures Tail(g) in g && g[0] in g
  {
  }

  lemma InFlat(l: Groups, i: nat, x: nat)
    requires i < |l| && x in l[i]
    ensures x in Flat(l)
  {
    var a, b := l[..i], [l[i]] + l[i + 1..];
    assert l == a + b;
    FlatAppend(a, b);
    FlatAppend([l[i]], l[i + 1..]);
    FlatOne(l[i]);
  }

  // ----- changes that leave a group alone

  /** All of the entry but the link to the previous group. */
  ghost predicate SameGroup(a: TxEntry, b: TxEntry) {
    a.prevTx == b.prevTx && a.firstTx == b.firstTx && a.group == b.group && a.deps == b.deps && a.feerate == b.feerate
  }

  lemma GroupFrame(e: seq<TxEntry>, e': seq<TxEntry>, m: Rates, deps: Links, g: seq<nat>)
    requires GroupRep(e, m, deps, g) && |e'| == |e|
    requires forall x :: x in g ==> x + 1 < |e| && SameGroup(e'[x + 1], e[x + 1])
    ensures GroupRep(e', m, deps, g)
  {
    TailIn(g);
    forall j | 0 <= j < |g| ensures e'[g[j] + 1].prevTx == e[g[j] + 1].prevTx { assert g[j] in g; }
  }

  // ----- appending a group

  function NewEntry(x: nat, prevGroup: nat, deps: set<nat>, rate: FeeFrac): TxEntry {
    TxEntry(0, x + 1, prevGroup, {x}, deps, rate)
  }

  function Appended(e: seq<TxEntry>, x: nat, deps: set<nat>, rate: FeeFrac): seq<TxEntry>
    requires x + 1 < |e|
  {
    var e1 := e[x + 1 := NewEntry(x, e[0].prevGroup, deps, rate)];
    e1[0 := e1[0].(prevGroup := x + 1)]
  }

  lemma NewGroup(e: seq<TxEntry>, m: Rates, deps: Links, x: nat)
    requires x + 1 < |e| && x in m && x in deps && e[x + 1] == NewEntry(x, e[x + 1].prevGroup, deps[x], m[x])
    ensures GroupRep(e, m, deps, [x])
  {
    hide Total;
    assert Elems([x]) == {x};
    TotalSingleton(m, x);
    assert DepsOf(deps, {x}) == deps[x];
  }

  lemma AppendRep(e: seq<TxEntry>, m: Rates, deps: Links, l: Groups, x: nat)
    requires Rep(e, m, deps, l) && x + 1 < |e| && x !in Flat(l) && x in m && x in deps
    ensures Rep(Appended(e, x, deps[x], m[x]), m, deps, l + [[x]])
  {
    hide Total, RateOf, Flat, GroupRep;
    var e', l' := Appended(e, x, deps[x], m[x]), l + [[x]];
    NewGroup(e', m, deps, x);
    forall i | 0 <= i < |l'| ensures GroupRep(e', m, deps, l'[i]) && Linked(e', l', i) {
      if i < |l| {
        assert GroupRep(e, m, deps, l[i]) && Linked(e, l, i);
        GroupIn(e, m, deps, l[i]);
        forall y | y in l[i] ensures y + 1 < |e| && SameGroup(e'[y + 1], e[y + 1]) { InFlat(l, i, y); }
        GroupFrame(e, e', m, deps, l[i]);
        TailIn(l[i]);
        InFlat(l, i, Tail(l[i]));
      }
    }
  }

  lemma GroupIn(e: seq<TxEntry>, m: Rates, deps: Links, g: seq<nat>)
    requires GroupRep(e, m, deps, g)
    ensures g != [] && forall x :: x in g ==> x + 1 < |e|
    ensures Tail(g) + 1 < |e| && e[Tail(g) + 1].firstTx == g[0] + 1 && e[Tail(g) + 1].group == Elems(g)
    ensures e[Tail(g) + 1].deps == DepsOf(deps, Elems(g)) && e[Tail(g) + 1].feerate == RateOf(m, g)
  {
  }

  // ----- merging two groups

  /** Merging the group that ends at `cur` with the one before it, which ends at `prev`. */
  function MergedEntries(e: seq<TxEntry>, cur: nat, prev: nat): seq<TxEntry> {
    if cur >= |e| || prev >= |e| || e[cur].firstTx >= |e| then e else
    var e1 := e[cur := e[cur].(group := e[cur].group + e[prev].group, deps := e[cur].deps + e[prev].deps,
                               feerate := Add(e[cur].feerate, e[prev].feerate))];
    var first := e1[cur].firstTx;
    var e2 := e1[first := e1[first].(prevTx := prev)];
    var e3 := e2[cur := e2[cur].(firstTx := e2[prev].firstTx)];
    e3[cur := e3[cur].(prevGroup := e3[prev].prevGroup)]
  }

  /** What the merge does to the entries. */
  lemma MergedAt(e: seq<TxEntry>, cur: nat, prev: nat, i: nat)
    requires cur < |e| && prev < |e| && e[cur].firstTx < |e| && prev != cur && prev != e[cur].firstTx && i < |e|
    ensures |MergedEntries(e, cur, prev)| == |e|
    ensures var d := MergedEntries(e, cur, prev)[i];
            && d.prevTx == (if i == e[cur].firstTx then prev else e[i].prevTx)
            && d.firstTx == (if i == cur then e[prev].firstTx else e[i].firstTx)
            && d.prevGroup == (if i == cur then e[prev].prevGroup else e[i].prevGroup)
            && d.group == (if i == cur then e[cur].group + e[prev].group else e[i].group)
            && d.deps == (if i == cur then e[cur].deps + e[prev].deps else e[i].deps)
            && d.feerate == (if i == cur then Add(e[cur].feerate, e[prev].feerate) else e[i].feerate)
  {
  }

  lemma DepsOfUnion(deps: Links, s: set<nat>, t: set<nat>)
    ensures DepsOf(deps, s + t) == DepsOf(deps, s) + DepsOf(deps, t)
  {
  }

  lemma MergedGroup(e: seq<TxEntry>, m: Rates, deps: Links, p: seq<nat>, c: seq<nat>)
    requires GroupRep(e, m, deps, p) && GroupRep(e, m, deps, c) && (forall x :: x in p ==> x !in c)
    requires Distinct(p) && Distinct(c) && RateOf(m, p + c) == Add(RateOf(m, c), RateOf(m, p))
    ensures Tail(c) + 1 < |e| && Tail(p) + 1 < |e| && e[Tail(c) + 1].firstTx < |e|
    ensures GroupRep(MergedEntries(e, Tail(c) + 1, Tail(p) + 1), m, deps, p + c)
  {
    hide RateOf, DepsOf, GroupRep, MergedEntries, Elems, Distinct;
    GroupIn(e, m, deps, p);
    GroupIn(e, m, deps, c);
    TailIn(p);
    TailIn(c);
    var cur, prev := Tail(c) + 1, Tail(p) + 1;
    var e', g := MergedEntries(e, cur, prev), p + c;
    forall j | 0 <= j < |g| ensures g[j] + 1 < |e'| && e'[g[j] + 1].prevTx == if j == 0 then 0 else g[j - 1] + 1 {
      MergedPrev(e, m, deps, p, c, j);
    }
    MergedAt(e, cur, prev, cur);
    ElemsAppend(p, c);
    DepsOfUnion(deps, Elems(p), Elems(c));
    assert Tail(g) == Tail(c) && g[0] == p[0];
    GroupRepBy(e', m, deps, g);
  }

  lemma GroupRepBy(e: seq<TxEntry>, m: Rates, deps: Links, g: seq<nat>)
    requires g != []
    requires forall j :: 0 <= j < |g| ==> g[j] + 1 < |e| && e[g[j] + 1].prevTx == if j == 0 then 0 else g[j - 1] + 1
    requires Tail(g) + 1 < |e|
    requires var t := e[Tail(g) + 1];
             t.firstTx == g[0] + 1 && t.group == Elems(g) && t.deps == DepsOf(deps, Elems(g)) &&
             t.feerate == RateOf(m, g)
    ensures GroupRep(e, m, deps, g)
  {
  }

  lemma PrevAt(e: seq<TxEntry>, m: Rates, deps: Links, g: seq<nat>, j: nat)
    requires GroupRep(e, m, deps, g) && j < |g|
    ensures g[j] + 1 < |e| && e[g[j] + 1].prevTx == if j == 0 then 0 else g[j - 1] + 1
  {
  }

  lemma MergedPrev(e: seq<TxEntry>, m: Rates, deps: Links, p: seq<nat>, c: seq<nat>, j: nat)
    requires GroupRep(e, m, deps, p) && GroupRep(e, m, deps, c) && (forall x :: x in p ==> x !in c) && j < |p + c|
    requires Distinct(p) && Distinct(c)
    ensures var e', g := MergedEntries(e, Tail(c) + 1, Tail(p) + 1), p + c;
            g[j] + 1 < |e'| && e'[g[j] + 1].prevTx == if j == 0 then 0 else g[j - 1] + 1
  {
    hide RateOf, DepsOf, GroupRep, MergedEntries, Elems;
    GroupIn(e, m, deps, p);
    GroupIn(e, m, deps, c);
    TailIn(p);
    TailIn(c);
    var g := p + c;
    if j < |p| {
      assert g[j] == p[j] && p[j] in p;
      PrevAt(e, m, deps, p, j);
      MergedAt(e, Tail(c) + 1, Tail(p) + 1, p[j] + 1);
    } else {
      var k := j - |p|;
      assert g[j] == c[k];
      PrevAt(e, m, deps, c, k);
      MergedAt(e, Tail(c) + 1, Tail(p) + 1, c[k] + 1);
    }
  }

  /** A merge only concerns the two groups. */
  lemma MergedOther(e: seq<TxEntry>, m: Rates, deps: Links, p: seq<nat>, c: seq<nat>, g: seq<nat>)
    requires GroupRep(e, m, deps, p) && GroupRep(e, m, deps, c) && GroupRep(e, m, deps, g)
    requires (forall x :: x in p ==> x !in c) && (forall x :: x in g ==> x !in c)
    ensures Tail(c) + 1 < |e| && Tail(p) + 1 < |e| && e[Tail(c) + 1].firstTx < |e|
    ensures GroupRep(MergedEntries(e, Tail(c) + 1, Tail(p) + 1), m, deps, g)
    ensures Tail(g) + 1 < |e|
    ensures MergedEntries(e, Tail(c) + 1, Tail(p) + 1)[Tail(g) + 1].prevGroup == e[Tail(g) + 1].prevGroup
  {
    hide RateOf, DepsOf, GroupRep, MergedEntries, Elems, Distinct;
    GroupIn(e, m, deps, p);
    GroupIn(e, m, deps, c);
    GroupIn(e, m, deps, g);
    TailIn(p);
    TailIn(c);
    TailIn(g);
    var cur, prev := Tail(c) + 1, Tail(p) + 1;
    var e' := MergedEntries(e, cur, prev);
    MergedAt(e, cur, prev, 0);
    forall x | x in g
      ensures x + 1 < |e| && SameGroup(e'[x + 1], e[x + 1]) && e'[x + 1].prevGroup == e[x + 1].prevGroup
    {
      MergedAt(e, cur, prev, x + 1);
    }
    GroupFrame(e, e', m, deps, g);
  }

  lemma MergeRep(e: seq<TxEntry>, m: Rates, deps: Links, a: Groups, p: seq<nat>, c: seq<nat>, b: Groups)
    requires Rep(e, m, deps, a + [p] + [c] + b) && Distinct(Flat(a + [p] + [c] + b))
    requires Distinct(p) && Distinct(c) && RateOf(m, p + c) == Add(RateOf(m, c), RateOf(m, p))
    ensures Tail(c) + 1 < |e| && Tail(p) + 1 < |e| && e[Tail(c) + 1].firstTx < |e|
    ensures Rep(MergedEntries(e, Tail(c) + 1, Tail(p) + 1), m, deps, a + [p + c] + b)
  {
    hide RateOf, Flat, GroupRep, MergedEntries, Elems, Distinct, Linked;
    var l, l' := a + [p] + [c] + b, a + [p + c] + b;
    var n := |a|;
    assert l[n] == p && l[n + 1] == c;
    forall x | x in p ensures x !in c { OtherGroup(l, n, n + 1, x); }
    MergedGroup(e, m, deps, p, c);
    var e' := MergedEntries(e, Tail(c) + 1, Tail(p) + 1);
    SentinelKept(e, m, deps, p, c);
    assert Tail(p + c) == Tail(c) by { GroupIn(e, m, deps, c); }
    assert l'[..n] == l[..n] && l'[n + 1..] == l[n + 2..];
    forall i | 0 <= i < |l'| ensures GroupRep(e', m, deps, l'[i]) && Linked(e', l', i) {
      if i == n {
        assert l'[i] == p + c;
        MergedLink(e, m, deps, l, p, c, n, l');
      } else {
        var k := if i < n then i else i + 1;
        assert l'[i] == l[k];
        forall x | x in l[k] ensures x !in c { OtherGroup(l, k, n + 1, x); }
        MergedOther(e, m, deps, p, c, l[k]);
        LinkKept(e, e', l, l', k, i, n);
      }
    }
    assert Head(l') == Head(l);
  }

  lemma SentinelKept(e: seq<TxEntry>, m: Rates, deps: Links, p: seq<nat>, c: seq<nat>)
    requires |e| > 0 && GroupRep(e, m, deps, p) && GroupRep(e, m, deps, c) && (forall x :: x in p ==> x !in c)
    ensures Tail(c) + 1 < |e| && Tail(p) + 1 < |e| && e[Tail(c) + 1].firstTx < |e|
    ensures var e' := MergedEntries(e, Tail(c) + 1, Tail(p) + 1);
            |e'| == |e| && e'[0].feerate == e[0].feerate && e'[0].prevGroup == e[0].prevGroup
  {
    hide RateOf, DepsOf, GroupRep, MergedEntries, Elems;
    GroupIn(e, m, deps, p);
    GroupIn(e, m, deps, c);
    TailIn(p);
    TailIn(c);
    MergedAt(e, Tail(c) + 1, Tail(p) + 1, 0);
  }

  lemma MergedLink(e: seq<TxEntry>, m: Rates, deps: Links, l: Groups, p: seq<nat>, c: seq<nat>, n: nat, l': Groups)
    requires GroupRep(e, m, deps, p) && GroupRep(e, m, deps, c) && (forall x :: x in p ==> x !in c)
    requires n + 1 < |l| && l[n] == p && l[n + 1] == c && Linked(e, l, n) && n < |l'| && l'[n] == p + c
    requires l'[..n] == l[..n]
    ensures Tail(c) + 1 < |e| && Tail(p) + 1 < |e| && e[Tail(c) + 1].firstTx < |e|
    ensures Linked(MergedEntries(e, Tail(c) + 1, Tail(p) + 1), l', n)
  {
    hide RateOf, DepsOf, GroupRep, MergedEntries, Elems;
    GroupIn(e, m, deps, p);
    GroupIn(e, m, deps, c);
    TailIn(p);
    TailIn(c);
    MergedAt(e, Tail(c) + 1, Tail(p) + 1, Tail(c) + 1);
    assert Tail(p + c) == Tail(c);
    if n > 0 { assert l'[..n][n - 1] == l[..n][n - 1]; }
  }

  lemma LinkKept(e: seq<TxEntry>, e': seq<TxEntry>, l: Groups, l': Groups, k: nat, i: nat, n: nat)
    requires k < |l| && i < |l'| && Linked(e, l, k) && l'[i] == l[k] && |e'| == |e| && Tail(l[k]) + 1 < |e|
    requires e'[Tail(l[k]) + 1].prevGroup == e[Tail(l[k]) + 1].prevGroup
    requires i != n && k == (if i < n then i else i + 1) && n + 1 < |l| && |l| == |l'| + 1
    requires l'[..n] == l[..n] && l'[n + 1..] == l[n + 2..] && n < |l'| && Tail(l'[n]) == Tail(l[n + 1])
    ensures Linked(e', l', i)
  {
    if 0 < i < n {
      assert l'[..n][i - 1] == l[..n][i - 1];
    } else if i > n + 1 {
      assert l'[n + 1..][i - n - 2] == l[n + 2..][i - n - 2];
    }
  }

  // ----- swapping two groups

  function SwappedEntries(e: seq<TxEntry>, cur: nat, prev: nat, next: nat): seq<TxEntry> {
    if cur >= |e| || prev >= |e| || next >= |e| then e else
    var preprev := e[prev].prevGroup;
    var e1 := e[next := e[next].(prevGroup := prev)];
    var e2 := e1[prev := e1[prev].(prevGroup := cur)];
    e2[cur := e2[cur].(prevGroup := preprev)]
  }

  lemma SwappedAt(e: seq<TxEntry>, cur: nat, prev: nat, next: nat, i: nat)
    requires cur < |e| && prev < |e| && next < |e| && i < |e| && prev != cur && next != cur && next != prev
    ensures var e' := SwappedEntries(e, cur, prev, next);
            && |e'| == |e| && SameGroup(e'[i], e[i])
            && e'[i].prevGroup == (if i == cur then e[prev].prevGroup else if i == prev then cur
                                   else if i == next then prev else e[i].prevGroup)
  {
  }

  /** Where the group after those of `a` ends: the sentinel, if there is none. */
  function NextOf(b: Groups): nat { if b == [] then 0 else Tail(b[0]) + 1 }

  lemma TailsDiffer(l: Groups, i: nat, j: nat)
    requires Distinct(Flat(l)) && i < |l| && j < |l| && i != j && l[i] != [] && l[j] != []
    ensures Tail(l[i]) != Tail(l[j])
  {
    hide Flat;
    TailIn(l[i]);
    TailIn(l[j]);
    OtherGroup(l, i, j, Tail(l[i]));
  }

  /** `l'` is `l` with the groups at `n` and `n + 1` exchanged. */
  ghost predicate Transposed(l: Groups, l': Groups, n: nat) {
    && n + 1 < |l| == |l'| && l'[n] == l[n + 1] && l'[n + 1] == l[n]
    && forall i :: 0 <= i < |l| && i != n && i != n + 1 ==> l'[i] == l[i]
  }

  function After(l: Groups, n: nat): nat { if n < |l| then Tail(l[n]) + 1 else 0 }

  lemma RepAt(e: seq<TxEntry>, m: Rates, deps: Links, l: Groups, i: nat)
    requires Rep(e, m, deps, l) && i < |l|
    ensures l[i] != [] && GroupRep(e, m, deps, l[i]) && (forall x :: x in l[i] ==> x + 1 < |e|)
    ensures Tail(l[i]) + 1 < |e| && e[Tail(l[i]) + 1].prevGroup == if i == 0 then 0 else Tail(l[i - 1]) + 1
  {
    assert GroupRep(e, m, deps, l[i]) && Linked(e, l, i);
    GroupIn(e, m, deps, l[i]);
  }

  /** The entries written by a swap are different ones. */
  lemma SwapApart(e: seq<TxEntry>, m: Rates, deps: Links, l: Groups, n: nat)
    requires Rep(e, m, deps, l) && Distinct(Flat(l)) && n + 1 < |l|
    ensures Tail(l[n + 1]) + 1 < |e| && Tail(l[n]) + 1 < |e| && After(l, n + 2) < |e|
    ensures Tail(l[n]) != Tail(l[n + 1]) && After(l, n + 2) != Tail(l[n + 1]) + 1 && After(l, n + 2) != Tail(l[n]) + 1
  {
    hide Rep, Flat, Distinct, GroupRep;
    RepAt(e, m, deps, l, n);
    RepAt(e, m, deps, l, n + 1);
    TailsDiffer(l, n, n + 1);
    if n + 2 < |l| {
      RepAt(e, m, deps, l, n + 2);
      TailsDiffer(l, n, n + 2);
      TailsDiffer(l, n + 1, n + 2);
    }
    assert |e| > 0;
  }

  ghost function SwapAt(e: seq<TxEntry>, l: Groups, n: nat): seq<TxEntry>
    requires n + 1 < |l|
  {
    SwappedEntries(e, Tail(l[n + 1]) + 1, Tail(l[n]) + 1, After(l, n + 2))
  }

  lemma SwappedLink(e: seq<TxEntry>, m: Rates, deps: Links, l: Groups, l': Groups, n: nat, i: nat)
    requires Rep(e, m, deps, l) && Distinct(Flat(l)) && Transposed(l, l', n) && i < |l|
    ensures Linked(SwapAt(e, l, n), l', i)
  {
    hide Rep, Flat, SwappedEntries, Distinct, GroupRep;
    SwapApart(e, m, deps, l, n);
    RepAt(e, m, deps, l, n);
    RepAt(e, m, deps, l, i);
    RepAt(e, m, deps, l, n + 1);
    assert l'[i] == l[if i == n then n + 1 else if i == n + 1 then n else i];
    SwappedAt(e, Tail(l[n + 1]) + 1, Tail(l[n]) + 1, After(l, n + 2), Tail(l'[i]) + 1);
    if i < n || i > n + 2 {
      TailsDiffer(l, i, n);
      TailsDiffer(l, i, n + 1);
      if n + 2 < |l| {
        RepAt(e, m, deps, l, n + 2);
        TailsDiffer(l, i, n + 2);
      }
    }
  }

  lemma SwapRep(e: seq<TxEntry>, m: Rates, deps: Links, l: Groups, l': Groups, n: nat)
    requires Rep(e, m, deps, l) && Distinct(Flat(l)) && Transposed(l, l', n)
    ensures Rep(SwapAt(e, l, n), m, deps, l')
  {
    hide Flat, GroupRep, SwappedEntries, Distinct, Linked;
    SwapApart(e, m, deps, l, n);
    var cur, prev, next := Tail(l[n + 1]) + 1, Tail(l[n]) + 1, After(l, n + 2);
    var e' := SwapAt(e, l, n);
    SwappedAt(e, cur, prev, next, 0);
    forall i | 0 <= i < |l'| ensures GroupRep(e', m, deps, l'[i]) && Linked(e', l', i) {
      var k := if i == n then n + 1 else if i == n + 1 then n else i;
      assert l'[i] == l[k];
      RepAt(e, m, deps, l, k);
      forall x | x in l[k]
        ensures x + 1 < |e| && SameGroup(e'[x + 1], e[x + 1])
      {
        SwappedAt(e, cur, prev, next, x + 1);
      }
      GroupFrame(e, e', m, deps, l[k]);
      SwappedLink(e, m, deps, l, l', n, i);
    }
  }

  lemma SwapIsTransposed(a: Groups, p: seq<nat>, c: seq<nat>, b: Groups)
    ensures Transposed(a + [p] + [c] + b, a + [c] + ([p] + b), |a|)
    ensures var l := a + [p] + [c] + b; After(l, |a| + 2) == NextOf(b) && l[|a|] == p && l[|a| + 1] == c
  {
  }
}
