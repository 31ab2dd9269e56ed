/** The data of `SpanningForestState` (src/cluster_linearize.h) and its consistency.

    `Sane` states what `SpanningForestState::SanityCheck` verifies; activating and deactivating a
    dependency are described here as changes of the data, and proved to keep it. */
module ForestCore {
  import opened FeeFracs
  import opened Totals
  import opened Forests
  import opened Families

  /** A set of transactions together with their aggregate feerate. */
  datatype SetInfo = SetInfo(transactions: set<nat>, feerate: FeeFrac)

  function Join(a: SetInfo, b: SetInfo): SetInfo {
    SetInfo(a.transactions + b.transactions, Add(a.feerate, b.feerate))
  }

  function Minus(a: SetInfo, b: SetInfo): SetInfo {
    SetInfo(a.transactions - b.transactions, Sub(a.feerate, b.feerate))
  }

  datatype TxData = TxData(
    parents: set<nat>, children: set<nat>,  // immutable after construction
    active: set<nat>,                       // children reached through an active dependency
    depTop: map<nat, nat>,                  // set index of the top set, for every active child
    chunkIdx: nat)

  /** The out-of-chunk transactions reachable from a chunk, upwards and downwards. */
  datatype Reach = Reach(up: set<nat>, down: set<nat>)

  datatype Core = Core(
    rate: Rates,
    tx: map<nat, TxData>,
    info: seq<SetInfo>,  // chunks and top sets, by set index
    reach: seq<Reach>,   // by set index, meaningful for chunks
    chunks: set<nat>)    // set indices of the chunks

  ghost function Par(c: Core): Links { map x | x in c.tx :: c.tx[x].parents }

  ghost function Chi(c: Core): Links { map x | x in c.tx :: c.tx[x].children }

  ghost predicate Linked(c: Core) {
    && (forall x :: x in c.tx ==> c.tx[x].parents <= c.tx.Keys && c.tx[x].children <= c.tx.Keys)
    && (forall x, q :: x in c.tx && q in c.tx ==> (q in c.tx[x].parents <==> x in c.tx[q].children))
  }

  ghost predicate Indexed(c: Core) {
    && c.tx.Keys == c.rate.Keys && PositiveSizes(c.rate) && |c.reach| == |c.info|
    && (forall i :: i in c.chunks ==> i < |c.info| && c.info[i].transactions != {})
    && (forall x :: x in c.tx ==> c.tx[x].chunkIdx in c.chunks && x in c.info[c.tx[x].chunkIdx].transactions)
    && (forall i, x :: i in c.chunks && x in c.info[i].transactions ==> x in c.tx && c.tx[x].chunkIdx == i)
  }

  /** Every active dependency has a set index of its own, which is no chunk's. */
  ghost predicate TopsIndexed(c: Core) {
    && (forall x :: x in c.tx ==> c.tx[x].active <= c.tx[x].children && c.tx[x].active <= c.tx[x].depTop.Keys)
    && (forall x, y :: x in c.tx && y in c.tx[x].active ==>
         c.tx[x].depTop[y] < |c.info| && c.tx[x].depTop[y] !in c.chunks)
    && (forall x, y, u, v :: x in c.tx && y in c.tx[x].active && u in c.tx && v in c.tx[u].active && (x, y) != (u, v)
          ==> c.tx[x].depTop[y] != c.tx[u].depTop[v])
  }

  ghost predicate InfoCorrect(m: Rates, s: SetInfo) {
    s.transactions <= m.Keys && s.feerate == Total(m, s.transactions)
  }

  ghost predicate InfosCorrect(c: Core) {
    forall i :: 0 <= i < |c.info| ==> InfoCorrect(c.rate, c.info[i])
  }

  /** The transactions of the set at index `i`. */
  function TxsAt(c: Core, i: nat): set<nat> { if i < |c.info| then c.info[i].transactions else {} }

  ghost function TopAt(c: Core, x: nat, y: nat): set<nat> {
    if x in c.tx && y in c.tx[x].depTop then TxsAt(c, c.tx[x].depTop[y]) else {}
  }

  ghost function ForestOf(c: Core): Forest {
    Forest(map x | x in c.tx :: TxsAt(c, c.tx[x].chunkIdx),
           map x, y | x in c.tx && y in c.tx[x].active :: (x, y) := TopAt(c, x, y))
  }

  /** The transactions linked to `s` and not in it (`GetReachable`). */
  ghost function Outside(links: Links, s: set<nat>): set<nat> {
    (set t, q | t in s && t in links && q in links[t] :: q) - s
  }

  ghost predicate ReachCorrect(c: Core) {
    forall i :: i in c.chunks && i < |c.info| && i < |c.reach| ==>
      c.reach[i] == Reach(Outside(Par(c), c.info[i].transactions), Outside(Chi(c), c.info[i].transactions))
  }

  ghost predicate Sane(c: Core) {
    && Linked(c) && Indexed(c) && TopsIndexed(c) && InfosCorrect(c) && ReachCorrect(c)
    && ValidForest(ForestOf(c))
  }

  // ----- activating a dependency

  /** What becomes of a top set `s` when the dependency (p, ch) from chunk `bot` to chunk `top` is
      activated. */
  function Grown(s: SetInfo, p: nat, ch: nat, top: SetInfo, bot: SetInfo): SetInfo {
    if p in s.transactions then Join(s, bot) else if ch in s.transactions then Join(s, top) else s
  }

  ghost predicate CanActivate(c: Core, p: nat, ch: nat) {
    && p in c.tx && ch in c.tx[p].children && ch in c.tx && ch !in c.tx[p].active
    && c.tx[p].chunkIdx != c.tx[ch].chunkIdx
  }

  ghost predicate TxActivated(c: Core, d: Core, p: nat, ch: nat)
    requires Indexed(c) && CanActivate(c, p, ch)
  {
    var pi, ci := c.tx[p].chunkIdx, c.tx[ch].chunkIdx;
    && d.tx.Keys == c.tx.Keys
    && (forall x :: x in c.tx ==> d.tx[x] == TxData(
          c.tx[x].parents, c.tx[x].children,
          if x == p then c.tx[x].active + {ch} else c.tx[x].active,
          if x == p then c.tx[x].depTop[ch := pi] else c.tx[x].depTop,
          if x in c.info[pi].transactions then ci else c.tx[x].chunkIdx))
  }

  /** The set index `i` belongs to no active dependency. */
  ghost predicate NoTop(c: Core, i: nat)
    requires TopsIndexed(c)
  {
    forall x, y :: x in c.tx && y in c.tx[x].active ==> c.tx[x].depTop[y] != i
  }

  ghost predicate InfoActivated(c: Core, d: Core, p: nat, ch: nat)
    requires Indexed(c) && TopsIndexed(c) && CanActivate(c, p, ch)
  {
    var pi, ci := c.tx[p].chunkIdx, c.tx[ch].chunkIdx;
    && |d.info| == |c.info| && d.info[ci] == Join(c.info[ci], c.info[pi])
    && (forall x, y :: x in c.tx && y in c.tx[x].active ==>
          d.info[c.tx[x].depTop[y]] == Grown(c.info[c.tx[x].depTop[y]], p, ch, c.info[pi], c.info[ci]))
    && (forall i :: 0 <= i < |c.info| && i != ci && NoTop(c, i) ==> d.info[i] == c.info[i])
  }

  ghost predicate ReachActivated(c: Core, d: Core, p: nat, ch: nat)
    requires Indexed(c) && CanActivate(c, p, ch) && |d.info| == |c.info|
  {
    var pi, ci := c.tx[p].chunkIdx, c.tx[ch].chunkIdx;
    && |d.reach| == |c.reach|
    && d.reach[ci] == Reach(c.reach[ci].up + c.reach[pi].up - d.info[ci].transactions,
                            c.reach[ci].down + c.reach[pi].down - d.info[ci].transactions)
    && (forall i :: 0 <= i < |c.reach| && i != ci ==> d.reach[i] == c.reach[i])
  }

  /** `d` is `c` after `Activate(p, ch)`. */
  ghost predicate ActivateData(c: Core, d: Core, p: nat, ch: nat) {
    && Indexed(c) && TopsIndexed(c) && CanActivate(c, p, ch)
    && d.rate == c.rate && d.chunks == c.chunks - {c.tx[p].chunkIdx}
    && TxActivated(c, d, p, ch) && InfoActivated(c, d, p, ch) && ReachActivated(c, d, p, ch)
  }

  /** The chunks after activation: one less, the other one grown, the rest untouched. */
  ghost predicate ChunksMerged(c: Core, d: Core, p: nat, ch: nat) {
    && Indexed(c) && CanActivate(c, p, ch)
    && var pi, ci := c.tx[p].chunkIdx, c.tx[ch].chunkIdx;
       && d.rate == c.rate && d.chunks == c.chunks - {pi}
       && |d.info| == |c.info| && d.info[ci] == Join(c.info[ci], c.info[pi])
       && (forall i :: i in c.chunks && i != ci ==> d.info[i] == c.info[i])
  }

  lemma ActivateMerges(c: Core, d: Core, p: nat, ch: nat)
    requires Indexed(c) && TopsIndexed(c) && CanActivate(c, p, ch) && ActivateData(c, d, p, ch)
    ensures ChunksMerged(c, d, p, ch)
  {
    forall i | i in c.chunks ensures NoTop(c, i) { }
  }

  lemma ActivateLinked(c: Core, d: Core, p: nat, ch: nat)
    requires Linked(c) && Indexed(c) && CanActivate(c, p, ch) && TxActivated(c, d, p, ch)
    ensures Linked(d)
  {
    hide Indexed;
    forall x | x in d.tx ensures d.tx[x].parents == c.tx[x].parents && d.tx[x].children == c.tx[x].children { }
  }

  lemma IndexedFrom(d: Core)
    requires d.tx.Keys == d.rate.Keys && PositiveSizes(d.rate) && |d.reach| == |d.info|
    requires forall i :: i in d.chunks ==> i < |d.info| && d.info[i].transactions != {}
    requires forall x :: x in d.tx ==> d.tx[x].chunkIdx in d.chunks && x in TxsAt(d, d.tx[x].chunkIdx)
    requires forall i, x :: i in d.chunks && x in TxsAt(d, i) ==> x in d.tx && d.tx[x].chunkIdx == i
    ensures Indexed(d)
  {
  }

  lemma ActivatePointer(c: Core, d: Core, p: nat, ch: nat, x: nat)
    requires Indexed(c) && CanActivate(c, p, ch) && TxActivated(c, d, p, ch) && ChunksMerged(c, d, p, ch) && x in d.tx
    ensures d.tx[x].chunkIdx in d.chunks && x in TxsAt(d, d.tx[x].chunkIdx)
  {
    var pi, ci := c.tx[p].chunkIdx, c.tx[ch].chunkIdx;
    assert d.tx[x].chunkIdx == if x in c.info[pi].transactions then ci else c.tx[x].chunkIdx;
  }

  lemma ActivateMember(c: Core, d: Core, p: nat, ch: nat, i: nat, x: nat)
    requires Indexed(c) && CanActivate(c, p, ch) && TxActivated(c, d, p, ch) && ChunksMerged(c, d, p, ch)
    requires i in d.chunks && x in TxsAt(d, i)
    ensures x in d.tx && d.tx[x].chunkIdx == i
  {
    if i != c.tx[ch].chunkIdx { assert x in c.info[i].transactions; }
  }

  lemma ActivateNonempty(c: Core, d: Core, p: nat, ch: nat, i: nat)
    requires Indexed(c) && CanActivate(c, p, ch) && ChunksMerged(c, d, p, ch) && i in d.chunks
    ensures i < |d.info| && d.info[i].transactions != {}
  {
    assert p in c.info[c.tx[p].chunkIdx].transactions;
    if i == c.tx[ch].chunkIdx { assert p in d.info[i].transactions; }
  }

  lemma ActivateIndexed(c: Core, d: Core, p: nat, ch: nat)
    requires Indexed(c) && CanActivate(c, p, ch)
    requires TxActivated(c, d, p, ch) && ChunksMerged(c, d, p, ch) && |d.reach| == |c.reach|
    ensures Indexed(d)
  {
    assert d.tx.Keys == d.rate.Keys && |d.reach| == |d.info| && PositiveSizes(d.rate);
    hide TxActivated, ChunksMerged, Indexed, TxsAt;
    forall i | i in d.chunks ensures i < |d.info| && d.info[i].transactions != {} { ActivateNonempty(c, d, p, ch, i); }
    forall x | x in d.tx
      ensures d.tx[x].chunkIdx in d.chunks && x in TxsAt(d, d.tx[x].chunkIdx)
    {
      ActivatePointer(c, d, p, ch, x);
    }
    forall i, x | i in d.chunks && x in TxsAt(d, i)
      ensures x in d.tx && d.tx[x].chunkIdx == i
    {
      ActivateMember(c, d, p, ch, i, x);
    }
    IndexedFrom(d);
  }

  lemma ActivateTops(c: Core, d: Core, p: nat, ch: nat)
    requires Indexed(c) && TopsIndexed(c) && CanActivate(c, p, ch)
    requires TxActivated(c, d, p, ch) && ChunksMerged(c, d, p, ch)
    ensures TopsIndexed(d)
  {
    var pi := c.tx[p].chunkIdx;
    assert pi in c.chunks && pi < |d.info|;
    forall x, y | x in d.tx && y in d.tx[x].active
      ensures y in d.tx[x].depTop && d.tx[x].depTop[y] == if (x, y) == (p, ch) then pi else c.tx[x].depTop[y]
      ensures (x, y) != (p, ch) ==> y in c.tx[x].active
    {
    }
  }

  lemma JoinCorrect(m: Rates, a: SetInfo, b: SetInfo)
    requires InfoCorrect(m, a) && InfoCorrect(m, b) && a.transactions * b.transactions == {}
    ensures InfoCorrect(m, Join(a, b))
  {
    hide Total;
    TotalUnion(m, a.transactions, b.transactions);
  }

  lemma MinusCorrect(m: Rates, a: SetInfo, b: SetInfo)
    requires InfoCorrect(m, a) && InfoCorrect(m, b) && b.transactions <= a.transactions
    ensures InfoCorrect(m, Minus(a, b))
  {
    hide Total;
    TotalMinus(m, a.transactions, b.transactions);
  }

  lemma ForestChunk(c: Core, x: nat)
    requires Linked(c) && Indexed(c) && TopsIndexed(c) && x in c.tx
    ensures x in ForestOf(c).chunk && ForestOf(c).chunk[x] == c.info[c.tx[x].chunkIdx].transactions
  {
  }

  lemma ForestTop(c: Core, x: nat, y: nat)
    requires TopsIndexed(c) && x in c.tx && y in c.tx[x].active
    ensures (x, y) in ForestOf(c).top && ForestOf(c).top[(x, y)] == c.info[c.tx[x].depTop[y]].transactions
  {
  }

  lemma ForestKeys(c: Core)
    requires Linked(c) && Indexed(c) && TopsIndexed(c)
    ensures ForestOf(c).chunk.Keys == c.tx.Keys
    ensures forall e: Dep :: e in ForestOf(c).top <==> e.0 in c.tx && e.1 in c.tx[e.0].active
  {
    forall e: Dep | e.0 in c.tx && e.1 in c.tx[e.0].active ensures e in ForestOf(c).top {
      ForestTop(c, e.0, e.1);
      assert e == (e.0, e.1);
    }
  }

  lemma ActivateForestChunk(c: Core, d: Core, p: nat, ch: nat, x: nat)
    requires Linked(c) && Indexed(c) && TopsIndexed(c) && CanActivate(c, p, ch)
    requires Linked(d) && Indexed(d) && TopsIndexed(d)
    requires TxActivated(c, d, p, ch) && ChunksMerged(c, d, p, ch) && x in c.tx
    ensures p in ForestOf(c).chunk && ch in ForestOf(c).chunk && ForestOf(c).chunk[p] != ForestOf(c).chunk[ch]
    ensures ForestOf(d).chunk[x] == Activated(ForestOf(c), p, ch).chunk[x]
  {
    hide ForestOf, Linked, TopsIndexed;
    ForestChunk(c, p);
    ForestChunk(c, ch);
    ForestChunk(c, x);
    ForestChunk(d, x);
    var pi, ci := c.tx[p].chunkIdx, c.tx[ch].chunkIdx;
    assert ch !in c.info[pi].transactions && p in c.info[pi].transactions;
    assert d.tx[x].chunkIdx == if x in c.info[pi].transactions then ci else c.tx[x].chunkIdx;
    assert x in c.info[ci].transactions <==> c.tx[x].chunkIdx == ci;
    assert d.info[ci].transactions == c.info[pi].transactions + c.info[ci].transactions;
  }

  lemma ActivateForestTop(c: Core, d: Core, p: nat, ch: nat, x: nat, y: nat)
    requires Linked(c) && Indexed(c) && TopsIndexed(c) && CanActivate(c, p, ch)
    requires Linked(d) && Indexed(d) && TopsIndexed(d)
    requires TxActivated(c, d, p, ch) && ChunksMerged(c, d, p, ch) && InfoActivated(c, d, p, ch)
    requires x in d.tx && y in d.tx[x].active
    ensures p in ForestOf(c).chunk && ch in ForestOf(c).chunk
    ensures (x, y) in ForestOf(d).top && (x, y) in Activated(ForestOf(c), p, ch).top
    ensures ForestOf(d).top[(x, y)] == Activated(ForestOf(c), p, ch).top[(x, y)]
  {
    hide ForestOf, Linked, TxActivated, InfoActivated, ChunksMerged, Indexed, TopsIndexed;
    ForestChunk(c, p);
    ForestChunk(c, ch);
    ForestTop(d, x, y);
    if (x, y) != (p, ch) {
      ActivateTop(c, d, p, ch, x, y);
      ForestTop(c, x, y);
    } else {
      ActivateNewTop(c, d, p, ch);
    }
  }

  /** The new dependency has the set index of the parent's chunk. */
  lemma ActivateNewTop(c: Core, d: Core, p: nat, ch: nat)
    requires Indexed(c) && CanActivate(c, p, ch) && TxActivated(c, d, p, ch) && ChunksMerged(c, d, p, ch)
    ensures p in d.tx && ch in d.tx[p].depTop && d.tx[p].depTop[ch] == c.tx[p].chunkIdx < |d.info| == |c.info|
    ensures d.info[c.tx[p].chunkIdx] == c.info[c.tx[p].chunkIdx]
  {
  }

  /** A dependency that was active before keeps its set index, whose set has grown. */
  lemma ActivateTop(c: Core, d: Core, p: nat, ch: nat, x: nat, y: nat)
    requires Indexed(c) && TopsIndexed(c) && CanActivate(c, p, ch) && TxActivated(c, d, p, ch)
    requires InfoActivated(c, d, p, ch)
    requires x in d.tx && y in d.tx[x].active && (x, y) != (p, ch)
    ensures x in c.tx && y in c.tx[x].active && y in d.tx[x].depTop
    ensures d.tx[x].depTop[y] == c.tx[x].depTop[y] < |c.info| == |d.info|
    ensures d.info[c.tx[x].depTop[y]] ==
            Grown(c.info[c.tx[x].depTop[y]], p, ch, c.info[c.tx[p].chunkIdx], c.info[c.tx[ch].chunkIdx])
  {
    assert y in c.tx[x].active;
  }

  lemma ActivateForest(c: Core, d: Core, p: nat, ch: nat)
    requires Linked(c) && Indexed(c) && TopsIndexed(c) && CanActivate(c, p, ch)
    requires Linked(d) && Indexed(d) && TopsIndexed(d)
    requires TxActivated(c, d, p, ch) && ChunksMerged(c, d, p, ch) && InfoActivated(c, d, p, ch)
    ensures p in ForestOf(c).chunk && ch in ForestOf(c).chunk && ForestOf(c).chunk[p] != ForestOf(c).chunk[ch]
    ensures ForestOf(d) == Activated(ForestOf(c), p, ch)
  {
    hide ForestOf, Linked, Indexed, TopsIndexed, ChunksMerged, InfoActivated;
    ForestKeys(c);
    ForestKeys(d);
    ActivateForestChunk(c, d, p, ch, p);
    var f, g := ForestOf(d), Activated(ForestOf(c), p, ch);
    forall x | x in f.chunk ensures f.chunk[x] == g.chunk[x] { ActivateForestChunk(c, d, p, ch, x); }
    forall e | e in f.top ensures e in g.top && f.top[e] == g.top[e] {
      assert e == (e.0, e.1);
      ActivateForestTop(c, d, p, ch, e.0, e.1);
    }
    forall e | e in g.top ensures e in f.top { }
  }

  /** A top set that contains a transaction lies in that transaction's chunk. */
  lemma TopInChunk(c: Core, x: nat, y: nat, z: nat)
    requires Linked(c) && Indexed(c) && TopsIndexed(c) && ValidForest(ForestOf(c))
    requires x in c.tx && y in c.tx[x].active && z in c.tx && z in c.info[c.tx[x].depTop[y]].transactions
    ensures c.info[c.tx[x].depTop[y]].transactions <= c.info[c.tx[z].chunkIdx].transactions
    ensures c.tx[z].chunkIdx == c.tx[x].chunkIdx
  {
    hide ForestOf, Linked, TopsIndexed;
    var f := ForestOf(c);
    ForestTop(c, x, y);
    ForestChunk(c, x);
    ForestChunk(c, z);
    assert Inside(f, (x, y)) && Cut(f, (x, y));
    assert z in f.chunk[x];
  }

  lemma ActivateInfo(c: Core, d: Core, p: nat, ch: nat, i: nat)
    requires Linked(c) && Indexed(c) && TopsIndexed(c) && InfosCorrect(c) && ValidForest(ForestOf(c))
    requires CanActivate(c, p, ch)
    requires ChunksMerged(c, d, p, ch) && InfoActivated(c, d, p, ch) && i < |c.info|
    ensures InfoCorrect(d.rate, d.info[i])
  {
    hide ForestOf, Linked, ValidForest, Total;
    var pi, ci := c.tx[p].chunkIdx, c.tx[ch].chunkIdx;
    assert c.info[pi].transactions * c.info[ci].transactions == {};
    assert InfoCorrect(c.rate, c.info[pi]) && InfoCorrect(c.rate, c.info[ci]) && InfoCorrect(c.rate, c.info[i]);
    if i == ci {
      JoinCorrect(c.rate, c.info[ci], c.info[pi]);
    } else if !NoTop(c, i) {
      var x, y :| x in c.tx && y in c.tx[x].active && c.tx[x].depTop[y] == i;
      if p in c.info[i].transactions {
        TopInChunk(c, x, y, p);
        JoinCorrect(c.rate, c.info[i], c.info[ci]);
      } else if ch in c.info[i].transactions {
        TopInChunk(c, x, y, ch);
        JoinCorrect(c.rate, c.info[i], c.info[pi]);
      }
    }
  }

  lemma OutsideJoin(links: Links, a: set<nat>, b: set<nat>)
    ensures Outside(links, a + b) == Outside(links, a) + Outside(links, b) - (a + b)
  {
  }

  lemma OutsideIs(c: Core, txs: set<nat>)
    requires txs <= c.tx.Keys
    ensures Outside(Par(c), txs) == (set t, q | t in txs && q in c.tx[t].parents :: q) - txs
    ensures Outside(Chi(c), txs) == (set t, q | t in txs && q in c.tx[t].children :: q) - txs
  {
    var a, b := Outside(Par(c), txs), (set t, q | t in txs && q in c.tx[t].parents :: q) - txs;
    forall q | q in b ensures q in a {
      var t :| t in txs && q in c.tx[t].parents;
      assert t in Par(c) && q in Par(c)[t];
    }
    var u, v := Outside(Chi(c), txs), (set t, q | t in txs && q in c.tx[t].children :: q) - txs;
    forall q | q in v ensures q in u {
      var t :| t in txs && q in c.tx[t].children;
      assert t in Chi(c) && q in Chi(c)[t];
    }
  }

  lemma SameLinks(c: Core, d: Core)
    requires d.tx.Keys == c.tx.Keys
    requires forall x :: x in c.tx ==> d.tx[x].parents == c.tx[x].parents && d.tx[x].children == c.tx[x].children
    ensures Par(d) == Par(c) && Chi(d) == Chi(c)
  {
  }

  lemma ActivateReach(c: Core, d: Core, p: nat, ch: nat)
    requires Indexed(c) && CanActivate(c, p, ch) && ReachCorrect(c)
    requires TxActivated(c, d, p, ch) && ChunksMerged(c, d, p, ch) && ReachActivated(c, d, p, ch)
    ensures ReachCorrect(d)
  {
    hide Par, Chi, Outside;
    SameLinks(c, d);
    var pi, ci := c.tx[p].chunkIdx, c.tx[ch].chunkIdx;
    assert pi in c.chunks && ci in c.chunks;
    OutsideJoin(Par(c), c.info[ci].transactions, c.info[pi].transactions);
    OutsideJoin(Chi(c), c.info[ci].transactions, c.info[pi].transactions);
    forall i | i in d.chunks && i < |d.info| && i < |d.reach|
      ensures d.reach[i] == Reach(Outside(Par(d), d.info[i].transactions), Outside(Chi(d), d.info[i].transactions))
    {
      if i != ci { assert d.info[i] == c.info[i] && d.reach[i] == c.reach[i]; }
    }
  }

  /** Activating a dependency between two chunks keeps the data sane and merges the chunks. */
  lemma ActivateSane(c: Core, d: Core, p: nat, ch: nat)
    requires Sane(c) && CanActivate(c, p, ch) && ActivateData(c, d, p, ch)
    ensures Sane(d) && ChunksMerged(c, d, p, ch)
    ensures p in ForestOf(c).chunk && ch in ForestOf(c).chunk && ForestOf(d) == Activated(ForestOf(c), p, ch)
  {
    hide ForestOf, Linked, Indexed, TopsIndexed, ChunksMerged, InfoActivated, ReachActivated, TxActivated, ValidForest,
         CanActivate, InfoCorrect, ReachCorrect, Activated;
    ActivateMerges(c, d, p, ch);
    ActivateSizes(c, d, p, ch);
    ActivateLinked(c, d, p, ch);
    ActivateIndexed(c, d, p, ch);
    ActivateTops(c, d, p, ch);
    ActivateForest(c, d, p, ch);
    ActivatedValid(ForestOf(c), p, ch);
    forall i | 0 <= i < |d.info| ensures InfoCorrect(d.rate, d.info[i]) { ActivateInfo(c, d, p, ch, i); }
    ActivateReach(c, d, p, ch);
  }

  lemma ActivateSizes(c: Core, d: Core, p: nat, ch: nat)
    requires Indexed(c) && TopsIndexed(c) && CanActivate(c, p, ch) && ActivateData(c, d, p, ch)
    ensures |d.info| == |c.info| == |d.reach| == |c.reach|
  {
  }

  // ----- deactivating a dependency

  ghost predicate CanDeactivate(c: Core, p: nat, ch: nat) {
    p in c.tx && ch in c.tx[p].active
  }

  ghost predicate TxDeactivated(c: Core, d: Core, p: nat, ch: nat)
    requires Indexed(c) && TopsIndexed(c) && CanDeactivate(c, p, ch)
  {
    var ti := c.tx[p].depTop[ch];
    && d.tx.Keys == c.tx.Keys
    && (forall x :: x in c.tx ==> d.tx[x] == TxData(
          c.tx[x].parents, c.tx[x].children,
          if x == p then c.tx[x].active - {ch} else c.tx[x].active,
          c.tx[x].depTop,
          if x in c.info[ti].transactions then ti else c.tx[x].chunkIdx))
  }

  /** What becomes of the top set `s` of a dependency of transaction `x` when the dependency (p, ch)
      is deactivated, leaving chunks `top` and `bot`. */
  function Shrunk(s: SetInfo, x: nat, p: nat, ch: nat, top: SetInfo, bot: SetInfo): SetInfo {
    if x in top.transactions && p in s.transactions then Minus(s, bot)
    else if x in bot.transactions && ch in s.transactions then Minus(s, top)
    else s
  }

  ghost predicate InfoDeactivated(c: Core, d: Core, p: nat, ch: nat)
    requires Indexed(c) && TopsIndexed(c) && CanDeactivate(c, p, ch)
  {
    var ti, ci := c.tx[p].depTop[ch], c.tx[p].chunkIdx;
    var top, bot := c.info[ti], Minus(c.info[ci], c.info[ti]);
    && |d.info| == |c.info| && d.info[ci] == bot && d.info[ti] == top
    && (forall x, y :: x in c.tx && y in c.tx[x].active && (x, y) != (p, ch) ==>
          d.info[c.tx[x].depTop[y]] == Shrunk(c.info[c.tx[x].depTop[y]], x, p, ch, top, bot))
    && (forall i :: 0 <= i < |c.info| && i != ci && NoTop(c, i) ==> d.info[i] == c.info[i])
  }

  ghost predicate ReachDeactivated(c: Core, d: Core, p: nat, ch: nat)
    requires Indexed(c) && TopsIndexed(c) && CanDeactivate(c, p, ch) && |d.info| == |c.info|
  {
    var ti, ci := c.tx[p].depTop[ch], c.tx[p].chunkIdx;
    && |d.reach| == |c.reach|
    && d.reach[ti] == Reach(Outside(Par(c), d.info[ti].transactions), Outside(Chi(c), d.info[ti].transactions))
    && d.reach[ci] == Reach(Outside(Par(c), d.info[ci].transactions), Outside(Chi(c), d.info[ci].transactions))
    && (forall i :: 0 <= i < |c.reach| && i != ci && i != ti ==> d.reach[i] == c.reach[i])
  }

  /** `d` is `c` after `Deactivate(p, ch)`. */
  ghost predicate DeactivateData(c: Core, d: Core, p: nat, ch: nat) {
    && Indexed(c) && TopsIndexed(c) && CanDeactivate(c, p, ch)
    && d.rate == c.rate && d.chunks == c.chunks + {c.tx[p].depTop[ch]}
    && TxDeactivated(c, d, p, ch) && InfoDeactivated(c, d, p, ch) && ReachDeactivated(c, d, p, ch)
  }

  /** The chunks after deactivation: one is split in two, the rest untouched. */
  ghost predicate ChunkSplit(c: Core, d: Core, p: nat, ch: nat) {
    && Indexed(c) && TopsIndexed(c) && CanDeactivate(c, p, ch)
    && var ti, ci := c.tx[p].depTop[ch], c.tx[p].chunkIdx;
       && d.rate == c.rate && d.chunks == c.chunks + {ti} && |d.info| == |c.info|
       && d.info[ti] == c.info[ti] && d.info[ci] == Minus(c.info[ci], c.info[ti])
       && (forall i :: i in c.chunks && i != ci ==> d.info[i] == c.info[i])
  }

  lemma DeactivateSplits(c: Core, d: Core, p: nat, ch: nat)
    requires Indexed(c) && TopsIndexed(c) && CanDeactivate(c, p, ch) && DeactivateData(c, d, p, ch)
    ensures ChunkSplit(c, d, p, ch) && |d.info| == |c.info| == |d.reach| == |c.reach|
  {
    forall i | i in c.chunks ensures NoTop(c, i) { }
  }

  /** The top set is a proper part of the chunk: it has the parent, and the chunk also the child. */
  lemma TopProper(c: Core, p: nat, ch: nat)
    requires Linked(c) && Indexed(c) && TopsIndexed(c) && ValidForest(ForestOf(c)) && CanDeactivate(c, p, ch)
    ensures var t, k := c.info[c.tx[p].depTop[ch]].transactions, c.info[c.tx[p].chunkIdx].transactions;
            t <= k && p in t && ch in k && ch !in t
    ensures ch in c.tx && c.tx[ch].chunkIdx == c.tx[p].chunkIdx
  {
    hide ForestOf;
    var f := ForestOf(c);
    ForestTop(c, p, ch);
    ForestChunk(c, p);
    assert ch in c.tx;
    ForestChunk(c, ch);
    assert Inside(f, (p, ch)) && Cut(f, (p, ch));
  }

  lemma DeactivateLinked(c: Core, d: Core, p: nat, ch: nat)
    requires Linked(c) && Indexed(c) && TopsIndexed(c) && CanDeactivate(c, p, ch) && TxDeactivated(c, d, p, ch)
    ensures Linked(d)
  {
    hide Indexed, TopsIndexed;
    forall x | x in d.tx ensures d.tx[x].parents == c.tx[x].parents && d.tx[x].children == c.tx[x].children { }
  }

  lemma DeactivatePointer(c: Core, d: Core, p: nat, ch: nat, x: nat)
    requires Indexed(c) && TopsIndexed(c) && CanDeactivate(c, p, ch)
    requires TxDeactivated(c, d, p, ch) && ChunkSplit(c, d, p, ch) && x in c.tx
    ensures d.tx[x].chunkIdx in d.chunks && x in TxsAt(d, d.tx[x].chunkIdx)
  {
    var ti := c.tx[p].depTop[ch];
    assert d.tx[x].chunkIdx == if x in c.info[ti].transactions then ti else c.tx[x].chunkIdx;
  }

  lemma DeactivateMember(c: Core, d: Core, p: nat, ch: nat, i: nat, x: nat)
    requires Indexed(c) && TopsIndexed(c) && CanDeactivate(c, p, ch)
    requires TxDeactivated(c, d, p, ch) && ChunkSplit(c, d, p, ch)
    requires c.info[c.tx[p].depTop[ch]].transactions <= c.info[c.tx[p].chunkIdx].transactions
    requires i in d.chunks && x in TxsAt(d, i)
    ensures x in d.tx && d.tx[x].chunkIdx == i
  {
    var ti, ci := c.tx[p].depTop[ch], c.tx[p].chunkIdx;
    assert ti !in c.chunks && ci in c.chunks;
    if i == ti || i == ci {
      assert x in c.info[ci].transactions;
    } else {
      assert x in c.info[i].transactions && c.tx[x].chunkIdx == i;
    }
  }

  lemma DeactivateIndexed(c: Core, d: Core, p: nat, ch: nat)
    requires Indexed(c) && TopsIndexed(c) && CanDeactivate(c, p, ch)
    requires TxDeactivated(c, d, p, ch) && ChunkSplit(c, d, p, ch) && |d.reach| == |c.reach|
    requires var t, k := c.info[c.tx[p].depTop[ch]].transactions, c.info[c.tx[p].chunkIdx].transactions;
             t <= k && p in t && ch in k && ch !in t
    ensures Indexed(d)
  {
    hide TxDeactivated, ChunkSplit, TopsIndexed, Indexed, TxsAt;
    DeactivateBasics(c, d, p, ch);
    forall i | i in d.chunks
      ensures i < |d.info| && d.info[i].transactions != {}
    {
      DeactivateNonempty(c, d, p, ch, i);
    }
    forall x | x in d.tx
      ensures d.tx[x].chunkIdx in d.chunks && x in TxsAt(d, d.tx[x].chunkIdx)
    {
      DeactivatePointer(c, d, p, ch, x);
    }
    forall i, x | i in d.chunks && x in TxsAt(d, i)
      ensures x in d.tx && d.tx[x].chunkIdx == i
    {
      DeactivateMember(c, d, p, ch, i, x);
    }
    IndexedFrom(d);
  }

  lemma DeactivateBasics(c: Core, d: Core, p: nat, ch: nat)
    requires Indexed(c) && TopsIndexed(c) && CanDeactivate(c, p, ch)
    requires TxDeactivated(c, d, p, ch) && ChunkSplit(c, d, p, ch) && |d.reach| == |c.reach|
    ensures d.tx.Keys == c.tx.Keys == d.rate.Keys && PositiveSizes(d.rate) && |d.reach| == |d.info|
  {
    hide TxDeactivated, TopsIndexed;
    DeactivateKeys(c, d, p, ch);
  }

  lemma DeactivateNonempty(c: Core, d: Core, p: nat, ch: nat, i: nat)
    requires Indexed(c) && TopsIndexed(c) && CanDeactivate(c, p, ch) && ChunkSplit(c, d, p, ch) && i in d.chunks
    requires p in c.info[c.tx[p].depTop[ch]].transactions
    requires ch in c.info[c.tx[p].chunkIdx].transactions && ch !in c.info[c.tx[p].depTop[ch]].transactions
    ensures i < |d.info| && d.info[i].transactions != {}
  {
    assert p in d.info[c.tx[p].depTop[ch]].transactions && ch in d.info[c.tx[p].chunkIdx].transactions;
  }

  lemma DeactivateKeys(c: Core, d: Core, p: nat, ch: nat)
    requires Indexed(c) && TopsIndexed(c) && CanDeactivate(c, p, ch) && TxDeactivated(c, d, p, ch)
    ensures d.tx.Keys == c.tx.Keys
  {
  }

  lemma DeactivateTops(c: Core, d: Core, p: nat, ch: nat)
    requires Indexed(c) && TopsIndexed(c) && CanDeactivate(c, p, ch)
    requires TxDeactivated(c, d, p, ch) && ChunkSplit(c, d, p, ch)
    ensures TopsIndexed(d)
  {
    forall x, y | x in d.tx && y in d.tx[x].active
      ensures y in c.tx[x].active && (x, y) != (p, ch) && d.tx[x].depTop == c.tx[x].depTop
    {
    }
  }

  lemma DeactivateForestChunk(c: Core, d: Core, p: nat, ch: nat, x: nat)
    requires Linked(c) && Indexed(c) && TopsIndexed(c) && CanDeactivate(c, p, ch)
    requires Linked(d) && Indexed(d) && TopsIndexed(d)
    requires TxDeactivated(c, d, p, ch) && ChunkSplit(c, d, p, ch) && x in c.tx
    ensures (p, ch) in ForestOf(c).top && p in ForestOf(c).chunk
    ensures ForestOf(d).chunk[x] == Deactivated(ForestOf(c), (p, ch)).chunk[x]
  {
    hide ForestOf, Linked;
    ForestTop(c, p, ch);
    ForestChunk(c, p);
    ForestChunk(c, x);
    ForestChunk(d, x);
    var ti, ci := c.tx[p].depTop[ch], c.tx[p].chunkIdx;
    assert d.tx[x].chunkIdx == if x in c.info[ti].transactions then ti else c.tx[x].chunkIdx;
    assert x in c.info[ci].transactions <==> c.tx[x].chunkIdx == ci;
  }

  lemma OneSide(s: set<nat>, t: set<nat>, b: set<nat>)
    requires s <= t + b && s * b == {}
    ensures s == s * t
  {
    forall z | z in s ensures z in t { assert z !in s * b; }
  }

  /** The sets computed by removing the far side are the sets restricted to the near side. */
  lemma ShrunkIsCut(c: Core, p: nat, ch: nat, x: nat, y: nat)
    requires Linked(c) && Indexed(c) && TopsIndexed(c) && ValidForest(ForestOf(c)) && CanDeactivate(c, p, ch)
    requires x in c.tx && y in c.tx[x].active && (x, y) != (p, ch)
    ensures var top := c.info[c.tx[p].depTop[ch]]; var bot := Minus(c.info[c.tx[p].chunkIdx], top);
            var s := c.info[c.tx[x].depTop[y]];
            && (x in top.transactions && p in s.transactions ==> bot.transactions <= s.transactions)
            && (x in bot.transactions && ch in s.transactions ==> top.transactions <= s.transactions)
            && Shrunk(s, x, p, ch, top, bot).transactions ==
                 (if x in top.transactions then s.transactions * top.transactions
                  else if x in bot.transactions then s.transactions * bot.transactions
                  else s.transactions)
  {
    hide ForestOf, Linked, TopsIndexed;
    var f := ForestOf(c);
    ForestTop(c, p, ch);
    ForestTop(c, x, y);
    ForestChunk(c, p);
    ForestChunk(c, x);
    TopAcross(f, (p, ch), (x, y));
    TopProper(c, p, ch);
    assert Inside(f, (x, y)) && Cut(f, (x, y));
    var t, k, s := f.top[(p, ch)], f.chunk[p], f.top[(x, y)];
    assert x in k ==> f.chunk[x] == k;
    assert x in k ==> s <= k;
    var b := k - t;
    if x in t {
      if p in s { assert s - b == s * t; } else { OneSide(s, t, b); }
    } else if x in b {
      if ch in s { assert s - t == s * b; } else { OneSide(s, b, t); }
    }
  }

  lemma DeactivateForestTop(c: Core, d: Core, p: nat, ch: nat, x: nat, y: nat)
    requires Linked(c) && Indexed(c) && TopsIndexed(c) && ValidForest(ForestOf(c)) && CanDeactivate(c, p, ch)
    requires Linked(d) && Indexed(d) && TopsIndexed(d)
    requires TxDeactivated(c, d, p, ch) && ChunkSplit(c, d, p, ch) && InfoDeactivated(c, d, p, ch)
    requires x in d.tx && y in d.tx[x].active
    ensures (p, ch) in ForestOf(c).top && p in ForestOf(c).chunk
    ensures (x, y) in ForestOf(d).top && (x, y) in Deactivated(ForestOf(c), (p, ch)).top
    ensures ForestOf(d).top[(x, y)] == Deactivated(ForestOf(c), (p, ch)).top[(x, y)]
  {
    hide ForestOf, Linked, ValidForest;
    assert (x, y) != (p, ch) && y in c.tx[x].active && d.tx[x].depTop == c.tx[x].depTop;
    ForestChunk(c, p);
    ForestTop(c, p, ch);
    ForestTop(c, x, y);
    ForestTop(d, x, y);
    ShrunkIsCut(c, p, ch, x, y);
  }

  lemma DeactivateForest(c: Core, d: Core, p: nat, ch: nat)
    requires Linked(c) && Indexed(c) && TopsIndexed(c) && ValidForest(ForestOf(c)) && CanDeactivate(c, p, ch)
    requires Linked(d) && Indexed(d) && TopsIndexed(d)
    requires TxDeactivated(c, d, p, ch) && ChunkSplit(c, d, p, ch) && InfoDeactivated(c, d, p, ch)
    ensures (p, ch) in ForestOf(c).top && p in ForestOf(c).chunk
    ensures ForestOf(d) == Deactivated(ForestOf(c), (p, ch))
  {
    hide ForestOf, Linked, Indexed, TopsIndexed, ChunkSplit, InfoDeactivated, ValidForest;
    ForestKeys(c);
    ForestKeys(d);
    DeactivateForestChunk(c, d, p, ch, p);
    var f, g := ForestOf(d), Deactivated(ForestOf(c), (p, ch));
    forall x | x in f.chunk ensures f.chunk[x] == g.chunk[x] { DeactivateForestChunk(c, d, p, ch, x); }
    forall e | e in f.top ensures e in g.top && f.top[e] == g.top[e] {
      assert e == (e.0, e.1);
      DeactivateForestTop(c, d, p, ch, e.0, e.1);
    }
    forall e | e in g.top ensures e in f.top { assert e == (e.0, e.1); }
  }

  lemma DeactivateInfo(c: Core, d: Core, p: nat, ch: nat, i: nat)
    requires Linked(c) && Indexed(c) && TopsIndexed(c) && InfosCorrect(c) && ValidForest(ForestOf(c))
    requires CanDeactivate(c, p, ch)
    requires ChunkSplit(c, d, p, ch) && InfoDeactivated(c, d, p, ch) && i < |c.info|
    ensures InfoCorrect(d.rate, d.info[i])
  {
    hide ForestOf, Linked, ValidForest, Total;
    var ti, ci := c.tx[p].depTop[ch], c.tx[p].chunkIdx;
    TopProper(c, p, ch);
    assert InfoCorrect(c.rate, c.info[ti]) && InfoCorrect(c.rate, c.info[ci]) && InfoCorrect(c.rate, c.info[i]);
    MinusCorrect(c.rate, c.info[ci], c.info[ti]);
    if i != ci && i != ti && !NoTop(c, i) {
      var x, y :| x in c.tx && y in c.tx[x].active && c.tx[x].depTop[y] == i;
      ShrunkIsCut(c, p, ch, x, y);
      if x in c.info[ti].transactions && p in c.info[i].transactions {
        MinusCorrect(c.rate, c.info[i], d.info[ci]);
      } else if x in d.info[ci].transactions && ch in c.info[i].transactions {
        MinusCorrect(c.rate, c.info[i], c.info[ti]);
      }
    }
  }

  lemma DeactivateReach(c: Core, d: Core, p: nat, ch: nat)
    requires Indexed(c) && TopsIndexed(c) && CanDeactivate(c, p, ch) && ReachCorrect(c)
    requires TxDeactivated(c, d, p, ch) && ChunkSplit(c, d, p, ch) && ReachDeactivated(c, d, p, ch)
    ensures ReachCorrect(d)
  {
    hide Par, Chi, Outside;
    SameLinks(c, d);
  }

  /** Deactivating a dependency keeps the data sane and splits the chunk in two. */
  lemma DeactivateSane(c: Core, d: Core, p: nat, ch: nat)
    requires Sane(c) && CanDeactivate(c, p, ch) && DeactivateData(c, d, p, ch)
    ensures Sane(d) && ChunkSplit(c, d, p, ch)
    ensures (p, ch) in ForestOf(c).top && p in ForestOf(c).chunk
    ensures ForestOf(d) == Deactivated(ForestOf(c), (p, ch))
  {
    hide ForestOf, Linked, Indexed, TopsIndexed, ChunkSplit, InfoDeactivated, ReachDeactivated, TxDeactivated,
         ValidForest, CanDeactivate, InfoCorrect, ReachCorrect, Deactivated;
    DeactivateSplits(c, d, p, ch);
    TopProper(c, p, ch);
    DeactivateLinked(c, d, p, ch);
    DeactivateIndexed(c, d, p, ch);
    DeactivateTops(c, d, p, ch);
    DeactivateForest(c, d, p, ch);
    DeactivatedValid(ForestOf(c), (p, ch));
    forall i | 0 <= i < |d.info| ensures InfoCorrect(d.rate, d.info[i]) { DeactivateInfo(c, d, p, ch, i); }
    DeactivateReach(c, d, p, ch);
  }

  // ----- the loops over the active dependencies of some transactions

  /** The active dependencies whose parent is in `txs`. */
  function ActiveOf(tx: map<nat, TxData>, txs: set<nat>): set<Dep>
    requires txs <= tx.Keys
  {
    set x, y | x in txs && y in tx[x].active :: (x, y)
  }

  function Changed(s: SetInfo, z: nat, other: SetInfo, grow: bool): SetInfo {
    if z !in s.transactions then s else if grow then Join(s, other) else Minus(s, other)
  }

  /** `other` has been added to (or removed from) the top sets of `deps` that contain `z`. */
  ghost predicate TopsChanged(c: Core, info: seq<SetInfo>, deps: set<Dep>, z: nat, other: SetInfo, grow: bool)
    requires TopsIndexed(c)
  {
    && |info| == |c.info|
    && (forall x, y :: x in c.tx && y in c.tx[x].active ==>
          info[c.tx[x].depTop[y]] == if (x, y) in deps then Changed(c.info[c.tx[x].depTop[y]], z, other, grow)
                                     else c.info[c.tx[x].depTop[y]])
    && (forall i :: 0 <= i < |c.info| && NoTop(c, i) ==> info[i] == c.info[i])
  }

  /** The two passes of `Activate` leave every top set as described by `Grown`. */
  lemma TwoPassesGrow(c: Core, info1: seq<SetInfo>, info2: seq<SetInfo>, p: nat, ch: nat)
    requires Sane(c) && CanActivate(c, p, ch)
    requires var top, bot := c.info[c.tx[p].chunkIdx], c.info[c.tx[ch].chunkIdx];
             && top.transactions <= c.tx.Keys && bot.transactions <= c.tx.Keys
             && TopsChanged(c, info1, ActiveOf(c.tx, top.transactions), p, bot, true)
             && TopsChanged(c.(info := info1), info2, ActiveOf(c.tx, bot.transactions), ch, top, true)
    ensures TopsGrown(c, info2, p, ch)
  {
    hide ForestOf, ValidForest, Linked, ReachCorrect, InfosCorrect;
    forall x, y | x in c.tx && y in c.tx[x].active
      ensures info2[c.tx[x].depTop[y]] ==
              Grown(c.info[c.tx[x].depTop[y]], p, ch, c.info[c.tx[p].chunkIdx], c.info[c.tx[ch].chunkIdx])
    {
      TopSides(c, p, ch, x, y);
    }
    forall i | 0 <= i < |c.info| && NoTop(c, i) ensures info2[i] == c.info[i] {
      assert NoTop(c.(info := info1), i);
    }
  }

  /** A top set contains an end of the new dependency only if it is in the chunk of that end. */
  lemma TopSides(c: Core, p: nat, ch: nat, x: nat, y: nat)
    requires Sane(c) && CanActivate(c, p, ch) && x in c.tx && y in c.tx[x].active
    ensures var pi, ci := c.tx[p].chunkIdx, c.tx[ch].chunkIdx;
            && (p in TopAt(c, x, y) ==> c.tx[x].chunkIdx == pi) && (ch in TopAt(c, x, y) ==> c.tx[x].chunkIdx == ci)
            && ((x, y) in ActiveOf(c.tx, c.info[pi].transactions) <==> c.tx[x].chunkIdx == pi)
            && ((x, y) in ActiveOf(c.tx, c.info[ci].transactions) <==> c.tx[x].chunkIdx == ci)
  {
    hide ForestOf, ValidForest, Linked, ReachCorrect, InfosCorrect;
    if p in TopAt(c, x, y) { TopInChunk(c, x, y, p); }
    if ch in TopAt(c, x, y) { TopInChunk(c, x, y, ch); }
    hide TopsIndexed;
    assert x in c.info[c.tx[p].chunkIdx].transactions <==> c.tx[x].chunkIdx == c.tx[p].chunkIdx;
    assert x in c.info[c.tx[ch].chunkIdx].transactions <==> c.tx[x].chunkIdx == c.tx[ch].chunkIdx;
  }

  lemma SaneParts(c: Core)
    requires Sane(c)
    ensures Linked(c) && Indexed(c) && TopsIndexed(c) && InfosCorrect(c) && ReachCorrect(c)
    ensures ValidForest(ForestOf(c))
  {
  }

  lemma ActivateBounds(c: Core, p: nat, ch: nat)
    requires Sane(c) && CanActivate(c, p, ch)
    ensures var pi, ci := c.tx[p].chunkIdx, c.tx[ch].chunkIdx;
            && pi < |c.info| == |c.reach| && ci < |c.info|
            && c.info[pi].transactions <= c.tx.Keys && c.info[ci].transactions <= c.tx.Keys
  {
    hide ForestOf, ValidForest, Linked, ReachCorrect, InfosCorrect;
  }

  lemma TopsIndexedSame(c: Core, info: seq<SetInfo>)
    requires TopsIndexed(c) && |info| == |c.info|
    ensures TopsIndexed(c.(info := info))
  {
  }

  /** Transactions of chunk `pi` point to chunk `ci` instead. */
  ghost predicate Repointed(tx: map<nat, TxData>, c: Core, txs: set<nat>, idx: nat) {
    && tx.Keys == c.tx.Keys
    && (forall x :: x in c.tx ==> tx[x] == if x in txs then c.tx[x].(chunkIdx := idx) else c.tx[x])
  }

  ghost predicate TopsGrown(c: Core, info: seq<SetInfo>, p: nat, ch: nat)
    requires Indexed(c) && TopsIndexed(c) && CanActivate(c, p, ch)
  {
    var top, bot := c.info[c.tx[p].chunkIdx], c.info[c.tx[ch].chunkIdx];
    && |info| == |c.info|
    && (forall x, y :: x in c.tx && y in c.tx[x].active ==>
          info[c.tx[x].depTop[y]] == Grown(c.info[c.tx[x].depTop[y]], p, ch, top, bot))
    && (forall i :: 0 <= i < |c.info| && NoTop(c, i) ==> info[i] == c.info[i])
  }

  lemma TxWritten(c: Core, d: Core, p: nat, ch: nat, tx: map<nat, TxData>)
    requires Indexed(c) && CanActivate(c, p, ch)
    requires Repointed(tx, c, c.info[c.tx[p].chunkIdx].transactions, c.tx[ch].chunkIdx)
    requires d.tx == tx[p := tx[p].(depTop := tx[p].depTop[ch := c.tx[p].chunkIdx], active := tx[p].active + {ch})]
    ensures TxActivated(c, d, p, ch)
  {
  }

  lemma InfoWritten(c: Core, d: Core, p: nat, ch: nat, info: seq<SetInfo>)
    requires Indexed(c) && TopsIndexed(c) && CanActivate(c, p, ch) && TopsGrown(c, info, p, ch)
    requires d.info == info[c.tx[ch].chunkIdx := Join(c.info[c.tx[ch].chunkIdx], c.info[c.tx[p].chunkIdx])]
    ensures InfoActivated(c, d, p, ch)
  {
    assert NoTop(c, c.tx[ch].chunkIdx);
  }

  lemma ReachWritten(c: Core, d: Core, p: nat, ch: nat)
    requires Indexed(c) && CanActivate(c, p, ch) && |d.info| == |c.info|
    requires var pi, ci := c.tx[p].chunkIdx, c.tx[ch].chunkIdx;
             var r, q := c.reach[ci], c.reach[pi];
             d.reach ==
               c.reach[ci := Reach(r.up + q.up - d.info[ci].transactions, r.down + q.down - d.info[ci].transactions)]
    ensures ReachActivated(c, d, p, ch)
  {
  }

  // ----- Deactivate, written out

  /** The data when the loops of `Deactivate` start. */
  function WithoutDep(c: Core, p: nat, ch: nat): Core
    requires p in c.tx && ch in c.tx[p].depTop && c.tx[p].depTop[ch] < |c.info| && c.tx[p].chunkIdx < |c.info|
  {
    var ti, ci := c.tx[p].depTop[ch], c.tx[p].chunkIdx;
    c.(tx := c.tx[p := c.tx[p].(active := c.tx[p].active - {ch})], info := c.info[ci := Minus(c.info[ci], c.info[ti])])
  }

  lemma DeactivateBounds(c: Core, p: nat, ch: nat)
    requires Sane(c) && CanDeactivate(c, p, ch)
    ensures ch in c.tx[p].depTop && c.tx[p].depTop[ch] < |c.info| == |c.reach| && c.tx[p].chunkIdx < |c.info|
    ensures c.tx[p].depTop[ch] != c.tx[p].chunkIdx && c.tx[p].chunkIdx in c.chunks && c.tx[p].depTop[ch] !in c.chunks
    ensures var t, k := c.info[c.tx[p].depTop[ch]].transactions, c.info[c.tx[p].chunkIdx].transactions;
            t <= k <= c.tx.Keys
  {
    hide ForestOf, ValidForest, Linked, ReachCorrect;
    TopProper(c, p, ch);
  }

  lemma WithoutDepIndexed(c: Core, p: nat, ch: nat)
    requires Sane(c) && CanDeactivate(c, p, ch)
    requires ch in c.tx[p].depTop && c.tx[p].depTop[ch] < |c.info| && c.tx[p].chunkIdx < |c.info|
    ensures TopsIndexed(WithoutDep(c, p, ch)) && WithoutDep(c, p, ch).tx.Keys == c.tx.Keys
  {
    hide ForestOf, ValidForest, Linked, ReachCorrect, Indexed;
  }

  ghost predicate TopsShrunk(c: Core, info: seq<SetInfo>, p: nat, ch: nat)
    requires Indexed(c) && TopsIndexed(c) && CanDeactivate(c, p, ch)
  {
    var ti, ci := c.tx[p].depTop[ch], c.tx[p].chunkIdx;
    var top, bot := c.info[ti], Minus(c.info[ci], c.info[ti]);
    && |info| == |c.info| && info[ci] == bot && info[ti] == top
    && (forall x, y :: x in c.tx && y in c.tx[x].active && (x, y) != (p, ch) ==>
          info[c.tx[x].depTop[y]] == Shrunk(c.info[c.tx[x].depTop[y]], x, p, ch, top, bot))
    && (forall i :: 0 <= i < |c.info| && i != ci && NoTop(c, i) ==> info[i] == c.info[i])
  }

  ghost predicate ShrinkPasses(c: Core, info1: seq<SetInfo>, info2: seq<SetInfo>, p: nat, ch: nat)
    requires Indexed(c) && TopsIndexed(c) && CanDeactivate(c, p, ch)
  {
    var top := c.info[c.tx[p].depTop[ch]];
    var bot := Minus(c.info[c.tx[p].chunkIdx], top);
    var w := WithoutDep(c, p, ch);
    && top.transactions <= w.tx.Keys && bot.transactions <= w.tx.Keys
    && TopsIndexed(w) && TopsChanged(w, info1, ActiveOf(w.tx, top.transactions), p, bot, false)
    && TopsIndexed(w.(info := info1))
    && TopsChanged(w.(info := info1), info2, ActiveOf(w.tx, bot.transactions), ch, top, false)
  }

  lemma ShrinkOne(c: Core, info1: seq<SetInfo>, info2: seq<SetInfo>, p: nat, ch: nat, x: nat, y: nat)
    requires Indexed(c) && TopsIndexed(c) && CanDeactivate(c, p, ch) && ShrinkPasses(c, info1, info2, p, ch)
    requires x in c.tx && y in c.tx[x].active && (x, y) != (p, ch)
    ensures |info2| == |c.info|
    ensures var top := c.info[c.tx[p].depTop[ch]];
            var bot := Minus(c.info[c.tx[p].chunkIdx], top);
            info2[c.tx[x].depTop[y]] == Shrunk(c.info[c.tx[x].depTop[y]], x, p, ch, top, bot)
  {
    var ti, ci := c.tx[p].depTop[ch], c.tx[p].chunkIdx;
    var top, bot := c.info[ti], Minus(c.info[ci], c.info[ti]);
    var w := WithoutDep(c, p, ch);
    assert y in w.tx[x].active && w.tx[x].depTop == c.tx[x].depTop && c.tx[x].depTop[y] != ci;
    assert (x, y) in ActiveOf(w.tx, top.transactions) <==> x in top.transactions;
    assert (x, y) in ActiveOf(w.tx, bot.transactions) <==> x in bot.transactions;
  }

  lemma ShrinkOther(c: Core, info1: seq<SetInfo>, info2: seq<SetInfo>, p: nat, ch: nat, i: nat)
    requires Indexed(c) && TopsIndexed(c) && CanDeactivate(c, p, ch) && ShrinkPasses(c, info1, info2, p, ch)
    requires i < |c.info| && (NoTop(c, i) || i == c.tx[p].depTop[ch])
    ensures |info2| == |c.info| && info2[i] == WithoutDep(c, p, ch).info[i]
  {
    var w := WithoutDep(c, p, ch);
    assert NoTop(w, i);
    assert NoTop(w.(info := info1), i);
  }

  lemma TwoPassesShrink(c: Core, info1: seq<SetInfo>, info2: seq<SetInfo>, p: nat, ch: nat)
    requires Indexed(c) && TopsIndexed(c) && CanDeactivate(c, p, ch) && ShrinkPasses(c, info1, info2, p, ch)
    ensures TopsShrunk(c, info2, p, ch)
  {
    hide ShrinkPasses;
    var ti, ci := c.tx[p].depTop[ch], c.tx[p].chunkIdx;
    assert NoTop(c, ci);
    ShrinkOther(c, info1, info2, p, ch, ci);
    ShrinkOther(c, info1, info2, p, ch, ti);
    forall i | 0 <= i < |c.info| && i != ci && NoTop(c, i) ensures info2[i] == c.info[i] {
      ShrinkOther(c, info1, info2, p, ch, i);
    }
    forall x, y | x in c.tx && y in c.tx[x].active && (x, y) != (p, ch)
      ensures info2[c.tx[x].depTop[y]] ==
                Shrunk(c.info[c.tx[x].depTop[y]], x, p, ch, c.info[ti], Minus(c.info[ci], c.info[ti]))
    {
      ShrinkOne(c, info1, info2, p, ch, x, y);
    }
  }

  lemma TopsShrunkEnds(c: Core, info: seq<SetInfo>, p: nat, ch: nat)
    requires Indexed(c) && TopsIndexed(c) && CanDeactivate(c, p, ch) && TopsShrunk(c, info, p, ch)
    ensures var ti, ci := c.tx[p].depTop[ch], c.tx[p].chunkIdx;
            |info| == |c.info| && info[ci] == Minus(c.info[ci], c.info[ti]) && info[ti] == c.info[ti]
  {
  }

  lemma TxCut(c: Core, d: Core, p: nat, ch: nat, tx: map<nat, TxData>)
    requires Indexed(c) && TopsIndexed(c) && CanDeactivate(c, p, ch)
    requires Repointed(tx, WithoutDep(c, p, ch), c.info[c.tx[p].depTop[ch]].transactions, c.tx[p].depTop[ch])
    requires d.tx == tx
    ensures TxDeactivated(c, d, p, ch)
  {
  }

  lemma InfoCut(c: Core, d: Core, p: nat, ch: nat)
    requires Indexed(c) && TopsIndexed(c) && CanDeactivate(c, p, ch) && TopsShrunk(c, d.info, p, ch)
    ensures InfoDeactivated(c, d, p, ch)
  {
  }

  lemma ReachCut(c: Core, d: Core, p: nat, ch: nat)
    requires Indexed(c) && TopsIndexed(c) && CanDeactivate(c, p, ch) && |d.info| == |c.info|
    requires var ti, ci := c.tx[p].depTop[ch], c.tx[p].chunkIdx;
             var t, b := d.info[ti].transactions, d.info[ci].transactions;
             d.reach == c.reach[ti := Reach(Outside(Par(c), t), Outside(Chi(c), t))]
                               [ci := Reach(Outside(Par(c), b), Outside(Chi(c), b))]
    ensures ReachDeactivated(c, d, p, ch)
  {
    hide Outside, Par, Chi;
  }

}
