/** Compact blocks (src/blockencodings.cpp): finding the transactions of a block from their short
    identifiers, and putting the block together with those that were missing. */
module CompactBlocks {
  import opened Options
  import opened ShortIdMatches

  /** A transaction sent along, with the distance from the one before. */
  datatype Prefilled = Prefilled(index: nat, tx: Option<Tx>)

  datatype CompactBlock = CompactBlock(nullHeader: bool, shortIds: seq<nat>, prefilled: seq<Prefilled>)

  datatype ReadStatus = Ok | Invalid | Failed

  const MAX_TRANSACTIONS := 150000
  const MAX_INDEX := 65535

  // ----- the transactions sent along

  /** The place of a prefilled transaction in the block. */
  ghost function Position(pre: seq<Prefilled>, i: nat): int
    requires i < |pre|
  {
    (if i == 0 then -1 else Position(pre, i - 1)) + pre[i].index + 1
  }

  ghost predicate PrefilledOk(c: CompactBlock) {
    forall i :: 0 <= i < |c.prefilled| ==>
      c.prefilled[i].tx.Some? && Position(c.prefilled, i) <= MAX_INDEX && Position(c.prefilled, i) <= |c.shortIds| + i
  }

  /** How many of the first `n` places are taken. */
  ghost function Taken(a: seq<Option<Tx>>, n: nat): nat
    requires n <= |a|
  {
    if n == 0 then 0 else Taken(a, n - 1) + if a[n - 1].Some? then 1 else 0
  }

  lemma {:induction false} TakenSet(a: seq<Option<Tx>>, j: nat, tx: Tx, n: nat)
    requires j < |a| && a[j].None? && n <= |a|
    ensures Taken(a[j := Some(tx)], n) == Taken(a, n) + if j < n then 1 else 0
    decreases n
  {
    if n > 0 { TakenSet(a, j, tx, n - 1); }
  }

  lemma {:induction false} TakenNone(a: seq<Option<Tx>>, n: nat)
    requires n <= |a| && forall j :: 0 <= j < n ==> a[j].None?
    ensures Taken(a, n) == 0
    decreases n
  {
    if n > 0 { TakenNone(a, n - 1); }
  }

  /** The first `k` prefilled transactions are in their places, and nothing else is there. */
  ghost predicate Placed(c: CompactBlock, a: seq<Option<Tx>>, k: nat) {
    && k <= |c.prefilled| && |a| == |c.shortIds| + |c.prefilled|
    && (forall i :: 0 <= i < k ==>
         0 <= Position(c.prefilled, i) < |a| && a[Position(c.prefilled, i)] == c.prefilled[i].tx)
    && (forall j :: 0 <= j < |a| && a[j].Some? ==> IsPosition(c.prefilled, k, j))
    && Taken(a, |a|) == k
  }

  ghost predicate IsPosition(pre: seq<Prefilled>, k: nat, j: int) {
    exists i :: 0 <= i < k && i < |pre| && Position(pre, i) == j
  }

  lemma MorePositions(pre: seq<Prefilled>, k: nat, j: int)
    requires k < |pre| && (IsPosition(pre, k, j) || j == Position(pre, k))
    ensures IsPosition(pre, k + 1, j)
  {
    if j == Position(pre, k) {
      assert Position(pre, k) == j;
    } else {
      var i :| 0 <= i < k && i < |pre| && Position(pre, i) == j;
    }
  }

  lemma {:induction false} PositionsIncrease(pre: seq<Prefilled>, i: nat, j: nat)
    requires i < j < |pre|
    ensures Position(pre, i) < Position(pre, j)
    decreases j
  {
    if i < j - 1 { PositionsIncrease(pre, i, j - 1); }
  }

  lemma PlaceOne(c: CompactBlock, a: seq<Option<Tx>>, k: nat)
    requires Placed(c, a, k) && k < |c.prefilled| && c.prefilled[k].tx.Some? && 0 <= Position(c.prefilled, k) < |a|
    ensures Placed(c, a[Position(c.prefilled, k) := c.prefilled[k].tx], k + 1)
  {
    hide Position;
    var p := Position(c.prefilled, k);
    forall i | 0 <= i < k ensures Position(c.prefilled, i) != p { PositionsIncrease(c.prefilled, i, k); }
    assert !IsPosition(c.prefilled, k, p);
    hide IsPosition, Taken;
    TakenSet(a, p, c.prefilled[k].tx.value, |a|);
    var b := a[p := c.prefilled[k].tx];
    forall j | 0 <= j < |b| && b[j].Some? ensures IsPosition(c.prefilled, k + 1, j) {
      assert j != p ==> a[j].Some?;
      MorePositions(c.prefilled, k, j);
    }
  }

  method PlacePrefilled(c: CompactBlock) returns (ok: bool, a: seq<Option<Tx>>)
    ensures ok <==> PrefilledOk(c)
    ensures ok ==> Placed(c, a, |c.prefilled|)
  {
    hide Placed, Position;
    a := seq(|c.shortIds| + |c.prefilled|, i => None);
    NothingPlaced(c, a);
    var last := -1;
    for i := 0 to |c.prefilled|
      invariant -1 <= last && last == (if i == 0 then -1 else Position(c.prefilled, i - 1))
      invariant |a| == |c.shortIds| + |c.prefilled| && Placed(c, a, i)
      invariant forall k :: 0 <= k < i ==>
                  c.prefilled[k].tx.Some? && Position(c.prefilled, k) <= MAX_INDEX &&
                  Position(c.prefilled, k) <= |c.shortIds| + k
    {
      PositionIs(c.prefilled, i);
      if c.prefilled[i].tx.None? { return false, a; }
      last := last + c.prefilled[i].index + 1;
      if last > MAX_INDEX { return false, a; }
      if last > |c.shortIds| + i { return false, a; }
      PlaceOne(c, a, i);
      a := a[last := c.prefilled[i].tx];
    }
    return true, a;
  }

  lemma PositionIs(pre: seq<Prefilled>, i: nat)
    requires i < |pre|
    ensures Position(pre, i) == (if i == 0 then -1 else Position(pre, i - 1)) + pre[i].index + 1
  {
  }

  lemma NothingPlaced(c: CompactBlock, a: seq<Option<Tx>>)
    requires |a| == |c.shortIds| + |c.prefilled| && forall j :: 0 <= j < |a| ==> a[j] == None
    ensures Placed(c, a, 0)
  {
    TakenNone(a, |a|);
  }

  // ----- the places of the short identifiers

  /** The free places, in order. */
  ghost predicate FreePlaces(a: seq<Option<Tx>>, slots: seq<nat>) {
    && (forall i :: 0 <= i < |slots| ==> slots[i] < |a| && a[slots[i]].None? && slots[i] == i + Taken(a, slots[i]))
    && (forall i, j :: 0 <= i < j < |slots| ==> slots[i] < slots[j])
  }

  /** The scan for the next free place never leaves the block, as there are as many free places as short
      identifiers. */
  method NextFree(a: seq<Option<Tx>>, i: nat, offset: nat, n: nat) returns (r: nat)
    requires i < n && Taken(a, |a|) + n == |a| && i + offset <= |a| && offset == Taken(a, i + offset)
    ensures r >= offset && i + r < |a| && a[i + r].None? && r == Taken(a, i + r) && Taken(a, i + r + 1) == r
  {
    r := offset;
    while a[i + r].Some?
      invariant offset <= r && i + r < |a| && r == Taken(a, i + r)
      decreases |a| - r
    {
      r := r + 1;
    }
  }

  ghost predicate Distinct(ids: seq<nat>) { forall i, j :: 0 <= i < j < |ids| ==> ids[i] != ids[j] }

  /** The places of the short identifiers looked at so far. If there are as many entries as identifiers,
      these are distinct, and each leads to its own place. */
  ghost predicate Mapped(ids: seq<nat>, slots: seq<nat>, k: nat, m: map<nat, nat>) {
    && |slots| == k <= |ids| && |m| <= k
    && (forall s :: s in m ==> exists i :: 0 <= i < k && ids[i] == s)
    && (|m| == k ==> Distinct(ids[..k]) && (forall i :: 0 <= i < k ==> ids[i] in m && m[ids[i]] == slots[i]))
    && (|m| < k ==> !Distinct(ids[..k]))
  }

  lemma MapOne(ids: seq<nat>, slots: seq<nat>, k: nat, m: map<nat, nat>, p: nat)
    requires Mapped(ids, slots, k, m) && k < |ids|
    ensures Mapped(ids, slots + [p], k + 1, m[ids[k] := p])
  {
    var n := m[ids[k] := p];
    forall s | s in n ensures exists i :: 0 <= i < k + 1 && ids[i] == s {
      if s == ids[k] { assert ids[k] == s; } else { assert s in m; }
    }
    KeyCount(m, ids[k], p);
    if ids[k] in m {
      var i :| 0 <= i < k && ids[i] == ids[k];
      assert ids[..k + 1][i] == ids[..k + 1][k];
    } else if |m| < k {
      NotDistinct(ids, k);
    } else {
      StillDistinct(ids, k);
    }
  }

  lemma KeyCount(m: map<nat, nat>, key: nat, p: nat)
    ensures |m[key := p]| == if key in m then |m| else |m| + 1
  {
    assert m[key := p].Keys == m.Keys + {key};
    assert |m[key := p]| == |m[key := p].Keys| && |m| == |m.Keys|;
  }

  lemma StillDistinct(ids: seq<nat>, k: nat)
    requires k < |ids| && Distinct(ids[..k]) && forall i :: 0 <= i < k ==> ids[i] != ids[k]
    ensures Distinct(ids[..k + 1])
  {
    var more := ids[..k + 1];
    forall i, j | 0 <= i < j < |more| ensures more[i] != more[j] {
      if j < k { assert ids[..k][i] != ids[..k][j]; }
    }
  }

  lemma NotDistinct(ids: seq<nat>, k: nat)
    requires k < |ids| && !Distinct(ids[..k])
    ensures !Distinct(ids[..k + 1])
  {
    var i, j :| 0 <= i < j < k && ids[..k][i] == ids[..k][j];
    assert ids[..k + 1][i] == ids[..k + 1][j];
  }

  /** Find the places. The short identifiers may turn out to be too unevenly distributed, at any of them. */
  method AssignPlaces(a: seq<Option<Tx>>, ids: seq<nat>, crowded: nat -> bool)
    returns (ok: bool, m: map<nat, nat>, ghost slots: seq<nat>)
    requires Taken(a, |a|) + |ids| == |a|
    ensures ok ==> FreePlaces(a, slots) && Mapped(ids, slots, |ids|, m)
    ensures ok <==> forall i :: 0 <= i < |ids| ==> !crowded(i)
  {
    hide Mapped, FreePlaces;
    m, slots := map[], [];
    NothingMapped(a, ids);
    var offset: nat := 0;
    for i := 0 to |ids|
      invariant i + offset <= |a| && offset == Taken(a, i + offset) && |slots| == i
      invariant FreePlaces(a, slots) && Mapped(ids, slots, i, m) && (i > 0 ==> slots[i - 1] < i + offset)
      invariant forall j :: 0 <= j < i ==> !crowded(j)
    {
      offset := NextFree(a, i, offset, |ids|);
      MapOne(ids, slots, i, m, i + offset);
      FreeMore(a, slots, i + offset);
      m := m[ids[i] := i + offset];
      slots := slots + [i + offset];
      if crowded(i) { return false, m, slots; }
    }
    return true, m, slots;
  }

  lemma NothingMapped(a: seq<Option<Tx>>, ids: seq<nat>)
    ensures FreePlaces(a, []) && Mapped(ids, [], 0, map[])
  {
  }

  lemma FreeMore(a: seq<Option<Tx>>, slots: seq<nat>, p: nat)
    requires FreePlaces(a, slots) && p < |a| && a[p].None? && p == |slots| + Taken(a, p)
    requires (slots != [] ==> slots[|slots| - 1] < p)
    ensures FreePlaces(a, slots + [p])
  {
    hide Taken;
    var more := slots + [p];
    forall i, j | 0 <= i < j < |more| ensures more[i] < more[j] {
      if j == |slots| && i < j - 1 { assert slots[i] < slots[j - 1]; }
    }
  }

  // ----- looking for the transactions

  /** What is known while looking through the pool. */
  datatype Search = Search(available: seq<Option<Tx>>, source: seq<TxSource>, mempoolCount: int, extraCount: int)

  predicate Counts(s: TxSource, extraOnly: bool) { if extraOnly then s == Extra else Has(s) }

  /** The places filled from the pool or the extra transactions, or from the latter only. */
  ghost function FilledFrom(source: seq<TxSource>, extraOnly: bool): set<nat> {
    set j: nat | j < |source| && Counts(source[j], extraOnly)
  }

  lemma FilledSet(source: seq<TxSource>, j: nat, s: TxSource, extraOnly: bool)
    requires j < |source|
    ensures |FilledFrom(source[j := s], extraOnly)| ==
            |FilledFrom(source, extraOnly)| + (if Counts(s, extraOnly) then 1 else 0)
              - (if Counts(source[j], extraOnly) then 1 else 0)
  {
    hide Counts;
    var before, after := FilledFrom(source, extraOnly), FilledFrom(source[j := s], extraOnly);
    forall k: nat | k != j ensures k in before <==> k in after { }
    assert before - {j} == after - {j};
    WithOrWithout(before, j);
    WithOrWithout(after, j);
  }

  lemma WithOrWithout(s: set<nat>, j: nat)
    ensures |s| == |s - {j}| + if j in s then 1 else 0
  {
    if j !in s { assert s - {j} == s; }
  }

  /** The counts have grown, since the search began, by the places filled. */
  ghost predicate Counted(s: Search, mempool: int, extra: int) {
    s.mempoolCount == mempool + |FilledFrom(s.source, false)| && s.extraCount == extra + |FilledFrom(s.source, true)|
  }

  /** A place is filled from the pool exactly if its source says so, by a transaction with its short
      identifier. Other places are as at the start. */
  ghost predicate PlacesRight(a: seq<Option<Tx>>, ids: seq<nat>, slots: seq<nat>, short: Tx -> nat, txs: set<Tx>,
                              s: Search) {
    && |s.available| == |s.source| == |a| && |slots| == |ids|
    && (forall j :: 0 <= j < |a| && j !in slots ==> s.available[j] == a[j] && s.source[j] == NoSource)
    && (forall i :: 0 <= i < |slots| ==> slots[i] < |a| && SlotOk(s, slots[i], ids[i], short, txs))
  }

  ghost predicate SlotOk(s: Search, j: nat, id: nat, short: Tx -> nat, txs: set<Tx>)
    requires j < |s.available| == |s.source|
  {
    && (Has(s.source[j]) <==> s.available[j].Some?)
    && (s.available[j].Some? ==> short(s.available[j].value) == id && s.available[j].value in txs)
  }

  /** All that is known of a search that began with the given counts. */
  ghost predicate Searched(a: seq<Option<Tx>>, ids: seq<nat>, slots: seq<nat>, short: Tx -> nat, txs: set<Tx>,
                           s: Search, mempool: int, extra: int) {
    PlacesRight(a, ids, slots, short, txs, s) && Counted(s, mempool, extra)
  }

  ghost predicate AllDifferent(slots: seq<nat>) { forall k, l :: 0 <= k < l < |slots| ==> slots[k] != slots[l] }

  /** The search with another transaction, or none, in one place. */
  function Changed(s: Search, j: nat, tx: Option<Tx>, source: TxSource): Search
    requires j < |s.available| == |s.source|
  {
    Search(s.available[j := tx], s.source[j := source],
           s.mempoolCount + (if Has(source) then 1 else 0) - (if Has(s.source[j]) then 1 else 0),
           s.extraCount + (if source == Extra then 1 else 0) - (if s.source[j] == Extra then 1 else 0))
  }

  lemma PlacesSet(a: seq<Option<Tx>>, ids: seq<nat>, slots: seq<nat>, short: Tx -> nat, txs: set<Tx>, s: Search, i: nat,
                  tx: Option<Tx>, source: TxSource)
    requires PlacesRight(a, ids, slots, short, txs, s) && i < |slots| && AllDifferent(slots)
    requires (Has(source) <==> tx.Some?) && (tx.Some? ==> short(tx.value) == ids[i] && tx.value in txs)
    ensures slots[i] < |s.source| == |s.available|
    ensures PlacesRight(a, ids, slots, short, txs, Changed(s, slots[i], tx, source))
  {
    var u := Changed(s, slots[i], tx, source);
    forall k | 0 <= k < |slots| ensures slots[k] < |a| && SlotOk(u, slots[k], ids[k], short, txs) {
      assert SlotOk(s, slots[k], ids[k], short, txs);
    }
    forall j | 0 <= j < |a| && j !in slots ensures u.available[j] == a[j] && u.source[j] == NoSource {
      assert slots[i] in slots;
    }
  }

  lemma CountsSet(s: Search, j: nat, tx: Option<Tx>, source: TxSource, mempool: int, extra: int)
    requires j < |s.available| == |s.source| && Counted(s, mempool, extra)
    ensures Counted(Changed(s, j, tx, source), mempool, extra)
  {
    hide FilledFrom;
    FilledSet(s.source, j, source, false);
    FilledSet(s.source, j, source, true);
  }

  /** A change of one place that keeps it right. */
  lemma SearchSet(a: seq<Option<Tx>>, ids: seq<nat>, slots: seq<nat>, short: Tx -> nat, txs: set<Tx>, s: Search,
                  mempool: int, extra: int, i: nat, tx: Option<Tx>, source: TxSource)
    requires Searched(a, ids, slots, short, txs, s, mempool, extra) && i < |slots| && AllDifferent(slots)
    requires |slots| == |ids|
    requires (Has(source) <==> tx.Some?) && (tx.Some? ==> short(tx.value) == ids[i] && tx.value in txs)
    ensures slots[i] < |s.source| == |s.available|
    ensures Searched(a, ids, slots, short, txs, Changed(s, slots[i], tx, source), mempool, extra)
  {
    hide PlacesRight, Counted, Changed;
    PlacesSet(a, ids, slots, short, txs, s, i, tx, source);
    CountsSet(s, slots[i], tx, source, mempool, extra);
  }

  /** The places that a search has filled are those of the short identifiers in which something is. */
  lemma FilledPlaces(a: seq<Option<Tx>>, ids: seq<nat>, slots: seq<nat>, short: Tx -> nat, txs: set<Tx>, s: Search)
    requires PlacesRight(a, ids, slots, short, txs, s)
    ensures FilledFrom(s.source, false) == FilledSlots(s.available, slots)
  {
    forall j: nat | j < |a| ensures j in FilledFrom(s.source, false) <==> j in slots && s.available[j].Some? {
      if j in slots {
        var i :| 0 <= i < |slots| && slots[i] == j;
        assert SlotOk(s, slots[i], ids[i], short, txs);
      }
    }
  }

  ghost function FilledSlots(available: seq<Option<Tx>>, slots: seq<nat>): set<nat> {
    set j | j in slots && j < |available| && available[j].Some?
  }

  lemma CountsAre(a: seq<Option<Tx>>, ids: seq<nat>, slots: seq<nat>, short: Tx -> nat, txs: set<Tx>, s: Search,
                  mempool: int, extra: int)
    requires Searched(a, ids, slots, short, txs, s, mempool, extra)
    ensures s.mempoolCount == mempool + |FilledSlots(s.available, slots)| &&
            s.extraCount == extra + |FilledFrom(s.source, true)|
  {
    FilledPlaces(a, ids, slots, short, txs, s);
  }

  ghost predicate PlacesKnown(ids: seq<nat>, slots: seq<nat>, m: map<nat, nat>) {
    && |slots| == |ids| && |m| == |ids| && AllDifferent(slots)
    && (forall s :: s in m ==> exists i :: 0 <= i < |ids| && ids[i] == s && m[s] == slots[i])
    && (forall i :: 0 <= i < |ids| ==> ids[i] in m && m[ids[i]] == slots[i])
  }

  /** The place of a short identifier that is known. */
  lemma PlaceOf(ids: seq<nat>, slots: seq<nat>, m: map<nat, nat>, id: nat) returns (i: nat)
    requires PlacesKnown(ids, slots, m) && id in m
    ensures i < |ids| && ids[i] == id && m[id] == slots[i]
  {
    i :| 0 <= i < |ids| && ids[i] == id && m[id] == slots[i];
  }

  // ----- what the places hold

  /** Each place holds what it should after the given transactions have been looked at. */
  ghost predicate SlotsExact(s: Search, ids: seq<nat>, slots: seq<nat>, pool: seq<Tx>, extra: seq<Tx>,
                             short: Tx -> nat) {
    && |slots| == |ids| && |s.available| == |s.source|
    && forall i :: 0 <= i < |slots| ==>
         slots[i] < |s.source| && Exact(s.source[slots[i]], s.available[slots[i]], pool, extra, short, ids[i])
  }

  /** One more transaction of the pool, or one more extra one, for the place `j`. */
  function AfterPool(s: Search, j: nat, tx: Tx): Search
    requires j < |s.available| == |s.source|
  {
    if s.source[j] == NoSource then Changed(s, j, Some(tx), Mempool)
    else if s.source[j] != Collided then Changed(s, j, None, Collided)
    else s
  }

  function AfterExtra(s: Search, j: nat, tx: Tx): Search
    requires j < |s.available| == |s.source|
  {
    if s.source[j] == NoSource then Changed(s, j, Some(tx), Extra)
    else if s.source[j] != Collided && s.available[j] != Some(tx) then Changed(s, j, None, Collided)
    else s
  }

  lemma OwnPlace(ids: seq<nat>, slots: seq<nat>, m: map<nat, nat>, i: nat, id: nat)
    requires PlacesKnown(ids, slots, m) && i < |ids|
    ensures |slots| == |ids| && (ids[i] == id <==> id in m && m[id] == slots[i])
  {
    if id in m && m[id] == slots[i] {
      var k :| 0 <= k < |ids| && ids[k] == id && m[id] == slots[k];
      assert k == i;
    }
  }

  lemma PoolSlots(s: Search, u: Search, ids: seq<nat>, slots: seq<nat>, m: map<nat, nat>, pool: seq<Tx>,
                  short: Tx -> nat, y: Tx)
    requires PlacesKnown(ids, slots, m) && SlotsExact(s, ids, slots, pool, [], short)
    requires short(y) in m ==> m[short(y)] < |s.source| && u == AfterPool(s, m[short(y)], y)
    requires short(y) !in m ==> u == s
    ensures SlotsExact(u, ids, slots, pool + [y], [], short)
  {
    hide PlacesKnown, Exact;
    forall i | 0 <= i < |slots|
      ensures slots[i] < |u.source| && Exact(u.source[slots[i]], u.available[slots[i]], pool + [y], [], short, ids[i])
    {
      OwnPlace(ids, slots, m, i, short(y));
      PoolStep(s.source[slots[i]], s.available[slots[i]], pool, short, ids[i], y);
    }
  }

  lemma ExtraSlots(s: Search, u: Search, ids: seq<nat>, slots: seq<nat>, m: map<nat, nat>, pool: seq<Tx>,
                   extra: seq<Tx>, short: Tx -> nat, y: Tx)
    requires PlacesKnown(ids, slots, m) && SlotsExact(s, ids, slots, pool, extra, short)
    requires short(y) in m ==> m[short(y)] < |s.source| && u == AfterExtra(s, m[short(y)], y)
    requires short(y) !in m ==> u == s
    ensures SlotsExact(u, ids, slots, pool, extra + [y], short)
  {
    hide PlacesKnown, Exact;
    forall i | 0 <= i < |slots|
      ensures slots[i] < |u.source| &&
              Exact(u.source[slots[i]], u.available[slots[i]], pool, extra + [y], short, ids[i])
    {
      OwnPlace(ids, slots, m, i, short(y));
      ExtraStep(s.source[slots[i]], s.available[slots[i]], pool, extra, short, ids[i], y);
    }
  }

  /** Look through the pool, up to where all places are filled. */
  method SearchPool(ghost a: seq<Option<Tx>>, ghost ids: seq<nat>, ghost slots: seq<nat>, m: map<nat, nat>,
                    short: Tx -> nat, pool: seq<Tx>, ghost txs: set<Tx>, start: Search, ghost mempool: int,
                    ghost extra: int)
    returns (s: Search, ghost n: nat)
    requires PlacesKnown(ids, slots, m) && Searched(a, ids, slots, short, txs, start, mempool, extra)
    requires (forall tx :: tx in pool ==> tx in txs) && forall j :: 0 <= j < |start.source| ==> start.source[j] != Extra
    requires SlotsExact(start, ids, slots, [], [], short)
    ensures Searched(a, ids, slots, short, txs, s, mempool, extra)
    ensures n <= |pool| && SlotsExact(s, ids, slots, pool[..n], [], short) && (n < |pool| ==> s.mempoolCount == |m|)
  {
    hide Searched, PlacesKnown, AllDifferent, SlotsExact;
    s, n := start, 0;
    for i := 0 to |pool|
      invariant Searched(a, ids, slots, short, txs, s, mempool, extra) &&
                SlotsExact(s, ids, slots, pool[..i], [], short)
      invariant n == i && forall j :: 0 <= j < |s.source| ==> s.source[j] != Extra
    {
      ghost var before := s;
      var id := short(pool[i]);
      if id in m {
        ghost var k := PlaceOf(ids, slots, m, id);
        var j := m[id];
        PlaceInside(a, ids, slots, short, txs, s, mempool, extra, k);
        SlotsDiffer(ids, slots, m);
        if s.source[j] == NoSource {
          SearchSet(a, ids, slots, short, txs, s, mempool, extra, k, Some(pool[i]), Mempool);
          s := Search(s.available[j := Some(pool[i])], s.source[j := Mempool], s.mempoolCount + 1, s.extraCount);
        } else if s.source[j] != Collided {
          SearchSet(a, ids, slots, short, txs, s, mempool, extra, k, None, Collided);
          s := Search(s.available[j := None], s.source[j := Collided], s.mempoolCount - 1, s.extraCount);
        }
      }
      PoolSlots(before, s, ids, slots, m, pool[..i], short, pool[i]);
      assert pool[..i + 1] == pool[..i] + [pool[i]];
      n := i + 1;
      if s.mempoolCount == |m| { break; }
    }
  }

  method SearchExtra(ghost a: seq<Option<Tx>>, ghost ids: seq<nat>, ghost slots: seq<nat>, m: map<nat, nat>,
                     short: Tx -> nat, more: seq<Tx>, ghost txs: set<Tx>, start: Search, ghost mempool: int,
                     ghost extra: int, ghost pool: seq<Tx>)
    returns (s: Search, ghost n: nat)
    requires PlacesKnown(ids, slots, m) && Searched(a, ids, slots, short, txs, start, mempool, extra)
    requires forall tx :: tx in more ==> tx in txs
    requires SlotsExact(start, ids, slots, pool, [], short)
    ensures Searched(a, ids, slots, short, txs, s, mempool, extra)
    ensures n <= |more| && SlotsExact(s, ids, slots, pool, more[..n], short) && (n < |more| ==> s.mempoolCount == |m|)
  {
    hide Searched, PlacesKnown, AllDifferent, SlotsExact;
    s, n := start, 0;
    for i := 0 to |more|
      invariant Searched(a, ids, slots, short, txs, s, mempool, extra) &&
                SlotsExact(s, ids, slots, pool, more[..i], short)
      invariant n == i
    {
      ghost var before := s;
      var id := short(more[i]);
      if id in m {
        ghost var k := PlaceOf(ids, slots, m, id);
        var j := m[id];
        PlaceInside(a, ids, slots, short, txs, s, mempool, extra, k);
        SlotsDiffer(ids, slots, m);
        if s.source[j] == NoSource {
          SearchSet(a, ids, slots, short, txs, s, mempool, extra, k, Some(more[i]), Extra);
          s := Search(s.available[j := Some(more[i])], s.source[j := Extra], s.mempoolCount + 1, s.extraCount + 1);
        } else if s.source[j] != Collided && s.available[j] != Some(more[i]) {
          SearchSet(a, ids, slots, short, txs, s, mempool, extra, k, None, Collided);
          s := Search(s.available[j := None], s.source[j := Collided], s.mempoolCount - 1,
                      if s.source[j] == Extra then s.extraCount - 1 else s.extraCount);
        }
      }
      ExtraSlots(before, s, ids, slots, m, pool, more[..i], short, more[i]);
      assert more[..i + 1] == more[..i] + [more[i]];
      n := i + 1;
      if s.mempoolCount == |m| { break; }
    }
  }

  // ----- where the search ends

  ghost predicate AllFilled(s: Search, slots: seq<nat>) {
    forall i :: 0 <= i < |slots| ==> slots[i] < |s.available| && s.available[slots[i]].Some?
  }

  /** The places hold what they should after `n` transactions of the pool and `k` extra ones. */
  ghost predicate Scanned(s: Search, ids: seq<nat>, slots: seq<nat>, pool: seq<Tx>, extra: seq<Tx>, n: nat, k: nat,
                          short: Tx -> nat) {
    n <= |pool| && k <= |extra| && SlotsExact(s, ids, slots, pool[..n], extra[..k], short)
  }

  /** The search through the pool ends early only if it has something for every place, and that through the
      extra transactions only if all places are filled. */
  ghost predicate EndsFull(s: Search, ids: seq<nat>, slots: seq<nat>, pool: seq<Tx>, extra: seq<Tx>, n: nat, k: nat,
                           short: Tx -> nat) {
    && (n < |pool| ==> forall i :: 0 <= i < |ids| ==> Matched(pool[..n], [], short, ids[i]))
    && (k < |extra| ==> AllFilled(s, slots))
  }

  ghost function Values(s: seq<nat>): set<nat> { set x | x in s }

  lemma {:induction false} FewerValues(s: seq<nat>)
    ensures |Values(s)| <= |s|
    decreases |s|
  {
    if s != [] {
      FewerValues(s[1..]);
      assert Values(s) == {s[0]} + Values(s[1..]);
    }
  }

  lemma SameSize(s: set<nat>, t: set<nat>)
    requires s <= t && |s| >= |t|
    ensures s == t
  {
    assert t == s + (t - s);
    assert |t| == |s| + |t - s|;
  }

  /** A search that began with no count has filled all places when it has counted that many. */
  lemma FullIsFilled(a: seq<Option<Tx>>, ids: seq<nat>, slots: seq<nat>, m: map<nat, nat>, short: Tx -> nat,
                     txs: set<Tx>, s: Search, extra: int)
    requires PlacesKnown(ids, slots, m) && Searched(a, ids, slots, short, txs, s, 0, extra) && s.mempoolCount == |m|
    ensures AllFilled(s, slots)
  {
    FilledPlaces(a, ids, slots, short, txs, s);
    hide PlacesRight, FilledFrom;
    FewerValues(slots);
    SameSize(FilledFrom(s.source, false), Values(slots));
    forall i | 0 <= i < |slots| ensures slots[i] < |s.available| && s.available[slots[i]].Some? {
      assert slots[i] in Values(slots);
    }
  }

  lemma FilledIsMatched(s: Search, ids: seq<nat>, slots: seq<nat>, pool: seq<Tx>, short: Tx -> nat)
    requires SlotsExact(s, ids, slots, pool, [], short) && AllFilled(s, slots)
    ensures forall i :: 0 <= i < |ids| ==> Matched(pool, [], short, ids[i])
  {
    hide Contended, Matched;
    forall i | 0 <= i < |ids| ensures Matched(pool, [], short, ids[i]) { assert s.available[slots[i]].Some?; }
  }

  /** A place for which there is a transaction, and none contends, is filled. */
  lemma MatchIsFound(s: Search, ids: seq<nat>, slots: seq<nat>, pool: seq<Tx>, extra: seq<Tx>, n: nat, k: nat,
                     short: Tx -> nat, i: nat)
    requires Scanned(s, ids, slots, pool, extra, n, k, short) && EndsFull(s, ids, slots, pool, extra, n, k, short)
    requires i < |ids| && Matched(pool, extra, short, ids[i]) && !Contended(pool, extra, short, ids[i])
    ensures slots[i] < |s.available| && s.available[slots[i]].Some?
  {
    hide Contended, Matched;
    if k == |extra| {
      assert extra[..k] == extra;
      PartMatched(pool, extra, n, k, short, ids[i]);
      if n == |pool| { assert pool[..n] == pool; } else { MoreMatched(pool[..n], extra, short, ids[i]); }
      assert Exact(s.source[slots[i]], s.available[slots[i]], pool[..n], extra, short, ids[i]);
    }
  }

  ghost predicate AllMatchesFound(available: seq<Option<Tx>>, ids: seq<nat>, slots: seq<nat>, pool: seq<Tx>,
                                  extra: seq<Tx>, short: Tx -> nat) {
    && |slots| == |ids|
    && forall i :: 0 <= i < |slots| && Matched(pool, extra, short, ids[i]) && !Contended(pool, extra, short, ids[i])
         ==> slots[i] < |available| && available[slots[i]].Some?
  }

  lemma MatchesAreFound(s: Search, ids: seq<nat>, slots: seq<nat>, pool: seq<Tx>, extra: seq<Tx>, n: nat, k: nat,
                        short: Tx -> nat)
    requires Scanned(s, ids, slots, pool, extra, n, k, short) && EndsFull(s, ids, slots, pool, extra, n, k, short)
    ensures AllMatchesFound(s.available, ids, slots, pool, extra, short)
  {
    hide EndsFull, Matched, Contended;
    forall i | 0 <= i < |slots| && Matched(pool, extra, short, ids[i]) && !Contended(pool, extra, short, ids[i])
      ensures slots[i] < |s.available| && s.available[slots[i]].Some?
    {
      MatchIsFound(s, ids, slots, pool, extra, n, k, short, i);
    }
  }

  lemma MoreMatched(pool: seq<Tx>, extra: seq<Tx>, short: Tx -> nat, id: nat)
    requires Matched(pool, [], short, id)
    ensures Matched(pool, extra, short, id)
  {
    var x :| (x in pool || x in []) && short(x) == id;
    assert x in pool;
  }

  lemma PlaceInside(a: seq<Option<Tx>>, ids: seq<nat>, slots: seq<nat>, short: Tx -> nat, txs: set<Tx>, s: Search,
                    mempool: int, extra: int, k: nat)
    requires Searched(a, ids, slots, short, txs, s, mempool, extra) && k < |ids|
    ensures |slots| == |ids| && slots[k] < |s.source| == |s.available|
  {
  }

  lemma SlotsDiffer(ids: seq<nat>, slots: seq<nat>, m: map<nat, nat>)
    requires PlacesKnown(ids, slots, m)
    ensures |slots| == |ids| && AllDifferent(slots)
  {
  }

  lemma AllKnown(a: seq<Option<Tx>>, ids: seq<nat>, slots: seq<nat>, m: map<nat, nat>)
    requires FreePlaces(a, slots) && Mapped(ids, slots, |ids|, m) && |m| == |ids|
    ensures PlacesKnown(ids, slots, m) && Distinct(ids)
  {
    assert ids[..|ids|] == ids;
    forall s | s in m ensures exists i :: 0 <= i < |ids| && ids[i] == s && m[s] == slots[i] {
      var i :| 0 <= i < |ids| && ids[i] == s;
      assert m[ids[i]] == slots[i];
    }
  }

  lemma SearchStarts(a: seq<Option<Tx>>, ids: seq<nat>, slots: seq<nat>, short: Tx -> nat, txs: set<Tx>,
                     source: seq<TxSource>, mempool: int, extra: int)
    requires FreePlaces(a, slots) && |slots| == |ids| && |source| == |a|
    requires forall j :: 0 <= j < |source| ==> source[j] == NoSource
    ensures Searched(a, ids, slots, short, txs, Search(a, source, mempool, extra), mempool, extra)
    ensures SlotsExact(Search(a, source, mempool, extra), ids, slots, [], [], short)
  {
    forall i | 0 <= i < |ids| ensures Exact(NoSource, None, [], [], short, ids[i]) { ExactStart(short, ids[i]); }
    assert FilledFrom(source, false) == {} && FilledFrom(source, true) == {};
  }

  // ----- putting the block together

  /** The block, with the missing transactions in order: none if there are too few or too many. */
  ghost function Fill(a: seq<Option<Tx>>, missing: seq<Tx>): Option<seq<Tx>> {
    if a == [] then (if missing == [] then Some([]) else None)
    else match a[0]
      case Some(tx) => Prepend(tx, Fill(a[1..], missing))
      case None => if missing == [] then None else Prepend(missing[0], Fill(a[1..], missing[1..]))
  }

  ghost function Prepend(tx: Tx, rest: Option<seq<Tx>>): Option<seq<Tx>> {
    if rest.Some? then Some([tx] + rest.value) else None
  }

  ghost function Gaps(a: seq<Option<Tx>>): nat { if a == [] then 0 else (if a[0].None? then 1 else 0) + Gaps(a[1..]) }

  lemma {:induction false} FillNeeds(a: seq<Option<Tx>>, missing: seq<Tx>)
    ensures Fill(a, missing).Some? <==> |missing| == Gaps(a)
    decreases |a|
  {
    if a != [] {
      if a[0].Some? { FillNeeds(a[1..], missing); } else if missing != [] { FillNeeds(a[1..], missing[1..]); }
    }
  }

  /** The transactions of the block that are not there. */
  ghost function MissingOf(a: seq<Option<Tx>>, block: seq<Tx>): seq<Tx>
    requires |a| == |block|
  {
    if a == [] then [] else (if a[0].None? then [block[0]] else []) + MissingOf(a[1..], block[1..])
  }

  ghost predicate PartOf(a: seq<Option<Tx>>, block: seq<Tx>) {
    |a| == |block| && forall j :: 0 <= j < |a| ==> a[j] == None || a[j] == Some(block[j])
  }

  /** Whatever part of a block is there, filling in the rest gives the block. */
  lemma {:induction false} FillRebuilds(a: seq<Option<Tx>>, block: seq<Tx>)
    requires PartOf(a, block)
    ensures Fill(a, MissingOf(a, block)) == Some(block)
    decreases |a|
  {
    if a != [] {
      assert PartOf(a[1..], block[1..]);
      FillRebuilds(a[1..], block[1..]);
      assert block == [block[0]] + block[1..];
      var rest := MissingOf(a[1..], block[1..]);
      if a[0].None? { assert ([block[0]] + rest)[1..] == rest; } else { assert [] + rest == rest; }
    }
  }

  // ----- the object

  ghost predicate Acceptable(c: CompactBlock) {
    && !c.nullHeader && (c.shortIds != [] || c.prefilled != []) && |c.shortIds| + |c.prefilled| <= MAX_TRANSACTIONS
    && PrefilledOk(c)
  }

  class PartiallyDownloadedBlock {
    var nullHeader: bool
    var available: seq<Option<Tx>>
    var prefilledCount: nat
    var mempoolCount: int
    var extraCount: int

    /** What was there before the search, the places of the short identifiers, and where transactions came from. */
    ghost var prefilledOnly: seq<Option<Tx>>
    ghost var slots: seq<nat>
    ghost var source: seq<TxSource>

    /** How far the search went through the pool and the extra transactions. */
    ghost var poolScanned: nat
    ghost var extraScanned: nat

    constructor ()
      ensures nullHeader && available == [] && mempoolCount == 0 && extraCount == 0
    {
      nullHeader, available, prefilledCount, mempoolCount, extraCount := true, [], 0, 0, 0;
      prefilledOnly, slots, source, poolScanned, extraScanned := [], [], [], 0, 0;
    }

    /** The prefilled transactions are in their places, and the others are what was found for their short
        identifiers. The search began with the given counts. */
    ghost predicate Found(c: CompactBlock, short: Tx -> nat, txs: set<Tx>, mempool: int, extra: int)
      reads this
    {
      && Placed(c, prefilledOnly, |c.prefilled|) && FreePlaces(prefilledOnly, slots) && Distinct(c.shortIds)
      && Searched(prefilledOnly, c.shortIds, slots, short, txs, Search(available, source, mempoolCount, extraCount),
                  mempool, extra)
    }

    /** The places are as they should be after what was looked at. A full search leaves a place empty exactly
        if there is nothing for it, or several transactions are. */
    ghost predicate LookedThrough(c: CompactBlock, short: Tx -> nat, pool: seq<Tx>, extra: seq<Tx>)
      reads this
    {
      Scanned(Search(available, source, mempoolCount, extraCount), c.shortIds, slots, pool, extra, poolScanned,
              extraScanned, short)
    }

    /** Every place for which there is exactly one transaction is filled. */
    ghost predicate NothingOverlooked(c: CompactBlock, short: Tx -> nat, pool: seq<Tx>, extra: seq<Tx>)
      reads this
    {
      AllMatchesFound(available, c.shortIds, slots, pool, extra, short)
    }

    /** The places in which a search has put something. */
    ghost function FoundPlaces(): set<nat>
      reads this
    {
      FilledSlots(available, slots)
    }

    /** Take up a compact block, and look for its transactions in the pool and among some extra ones. The
        counts go on from where they were, so that they are those of the places filled exactly if they
        were zero. */
    method InitData(c: CompactBlock, short: Tx -> nat, pool: seq<Tx>, extra: seq<Tx>, crowded: nat -> bool)
      returns (status: ReadStatus)
      requires |c.shortIds| + |c.prefilled| <= MAX_INDEX
      modifies this
      ensures status == Invalid <==> !Acceptable(c) || !old(nullHeader) || old(available) != []
      ensures status == Failed ==> !Distinct(c.shortIds) || !(forall i :: 0 <= i < |c.shortIds| ==> !crowded(i))
      ensures status == Ok ==> Distinct(c.shortIds) && forall i :: 0 <= i < |c.shortIds| ==> !crowded(i)
      ensures status == Ok ==> !nullHeader
      ensures status == Ok ==>
                Found(c, short, (set tx | tx in pool) + (set tx | tx in extra), old(mempoolCount), old(extraCount))
      ensures status == Ok ==> LookedThrough(c, short, pool, extra)
      ensures status == Ok && old(mempoolCount) == 0 ==> NothingOverlooked(c, short, pool, extra)
      ensures status == Ok ==> (mempoolCount == |FoundPlaces()| <==> old(mempoolCount) == 0)
      ensures status == Ok ==> (extraCount == |FilledFrom(source, true)| <==> old(extraCount) == 0)
      ensures status != Ok ==> mempoolCount == old(mempoolCount) && extraCount == old(extraCount)
    {
      hide Placed, PrefilledOk, Distinct, Found, LookedThrough, NothingOverlooked, FoundPlaces, FilledFrom;
      if c.nullHeader || (c.shortIds == [] && c.prefilled == []) { return Invalid; }
      if |c.shortIds| + |c.prefilled| > MAX_TRANSACTIONS { return Invalid; }
      if !nullHeader || available != [] { return Invalid; }
      nullHeader := false;
      var ok, a := PlacePrefilled(c);
      available := a;
      if !ok { return Invalid; }
      prefilledCount := |c.prefilled|;
      var found := LookFor(c, a, short, pool, extra, crowded);
      return if found then Ok else Failed;
    }

    /** Look for the transactions that were not sent along. */
    method LookFor(c: CompactBlock, a: seq<Option<Tx>>, short: Tx -> nat, pool: seq<Tx>, extra: seq<Tx>,
                   crowded: nat -> bool)
      returns (found: bool)
      requires Placed(c, a, |c.prefilled|)
      modifies this
      ensures found <==> Distinct(c.shortIds) && forall i :: 0 <= i < |c.shortIds| ==> !crowded(i)
      ensures nullHeader == old(nullHeader)
      ensures found ==>
                Found(c, short, (set tx | tx in pool) + (set tx | tx in extra), old(mempoolCount), old(extraCount))
      ensures found ==> LookedThrough(c, short, pool, extra)
      ensures found && old(mempoolCount) == 0 ==> NothingOverlooked(c, short, pool, extra)
      ensures found ==> mempoolCount == old(mempoolCount) + |FoundPlaces()|
      ensures found ==> extraCount == old(extraCount) + |FilledFrom(source, true)|
      ensures !found ==> mempoolCount == old(mempoolCount) && extraCount == old(extraCount)
    {
      hide Placed, FreePlaces, Distinct, FilledFrom, Scanned, EndsFull, AllMatchesFound, Searched, FilledSlots;
      var ok, s, places, n, k := FindTransactions(c, a, short, pool, extra, crowded, mempoolCount, extraCount);
      if !ok { return false; }
      if mempoolCount == 0 { MatchesAreFound(s, c.shortIds, places, pool, extra, n, k, short); }
      CountsAre(a, c.shortIds, places, short, (set tx | tx in pool) + (set tx | tx in extra), s, mempoolCount,
                extraCount);
      available, mempoolCount, extraCount := s.available, s.mempoolCount, s.extraCount;
      prefilledOnly, slots, source, poolScanned, extraScanned := a, places, s.source, n, k;
      return true;
    }

    /** Put the block together. If too few transactions are given, the header stays, but all that was
        found in the places before the shortage is gone. */
    method FillBlock(missing: seq<Tx>, mutated: seq<Tx> -> bool) returns (status: ReadStatus, block: seq<Tx>)
      modifies this
      ensures status == Ok <==>
                !old(nullHeader) && Fill(old(available), missing).Some? && !mutated(Fill(old(available), missing).value)
      ensures status == Failed <==>
                !old(nullHeader) && Fill(old(available), missing).Some? && mutated(Fill(old(available), missing).value)
      ensures status == Ok ==> block == Fill(old(available), missing).value
      ensures unchanged(this`prefilledCount, this`mempoolCount, this`extraCount, this`prefilledOnly, this`slots,
                        this`source, this`poolScanned, this`extraScanned)
      ensures old(nullHeader) ==> unchanged(this)
      ensures !old(nullHeader) && |missing| >= Gaps(old(available)) ==> nullHeader && available == []
      ensures !old(nullHeader) && |missing| < Gaps(old(available)) ==>
                !nullHeader && available == AfterShortage(old(available), |missing|)
    {
      if nullHeader { return Invalid, []; }
      var enough, offset, txs, left := Assemble(available, missing);
      if !enough {
        available := left;
        return Invalid, txs;
      }
      nullHeader, available := true, [];
      if |missing| != offset { return Invalid, txs; }
      if mutated(txs) { return Failed, txs; }
      return Ok, txs;
    }

    /** A block whose compact form was taken up, without confusion of short identifiers, is put together
        from what was found and what is missing. */
    lemma Rebuilt(block: seq<Tx>, short: Tx -> nat, txs: set<Tx>, mempool: int, extra: int)
      requires block != [] && NoConfusion(block, short, txs)
      requires Found(CompactOf(block, short), short, txs, mempool, extra)
      ensures PartOf(available, block) && Fill(available, MissingOf(available, block)) == Some(block)
    {
      hide Fill, Placed, FreePlaces, PlacesRight, Distinct, NoConfusion;
      BlockRebuilt(block, short, txs, prefilledOnly, slots, Search(available, source, mempoolCount, extraCount));
    }

    /** After a full search exactly the places with one transaction for them are filled. */
    lemma FullSearch(c: CompactBlock, short: Tx -> nat, pool: seq<Tx>, extra: seq<Tx>, i: nat)
      requires LookedThrough(c, short, pool, extra) && poolScanned == |pool| && extraScanned == |extra| &&
               i < |c.shortIds|
      ensures |slots| == |c.shortIds| && slots[i] < |available|
      ensures available[slots[i]].Some? <==>
                Matched(pool, extra, short, c.shortIds[i]) && !Contended(pool, extra, short, c.shortIds[i])
    {
      hide Matched, Contended;
      assert pool[..poolScanned] == pool && extra[..extraScanned] == extra;
      assert Exact(source[slots[i]], available[slots[i]], pool, extra, short, c.shortIds[i]);
    }

    /** No transaction of the block that the pool or the extra transactions have is asked for. */
    lemma KnownAreFound(block: seq<Tx>, short: Tx -> nat, pool: seq<Tx>, extra: seq<Tx>, mempool: int, more: int,
                        i: nat)
      requires (forall k, l :: 0 <= k < l < |pool| ==> pool[k] != pool[l]) && 1 <= i < |block|
      requires var txs := (set tx | tx in pool) + (set tx | tx in extra);
               NoConfusion(block, short, txs) && Found(CompactOf(block, short), short, txs, mempool, more)
      requires NothingOverlooked(CompactOf(block, short), short, pool, extra) && (block[i] in pool || block[i] in extra)
      ensures i < |available| && available[i] == Some(block[i])
    {
      hide Fill, Placed, FreePlaces, PlacesRight, Distinct, Matched, Contended;
      var txs := (set tx | tx in pool) + (set tx | tx in extra);
      Rebuilt(block, short, txs, mempool, more);
      PlacesOfBlock(block, short, prefilledOnly, slots);
      var ids := CompactOf(block, short).shortIds;
      assert slots[i - 1] == i && ids[i - 1] == short(block[i]);
      OnlyItself(block, short, pool, extra, i);
      assert available[slots[i - 1]].Some?;
    }
  }

  lemma OnlyItself(block: seq<Tx>, short: Tx -> nat, pool: seq<Tx>, extra: seq<Tx>, i: nat)
    requires NoConfusion(block, short, (set tx | tx in pool) + (set tx | tx in extra)) && 1 <= i < |block|
    requires (forall k, l :: 0 <= k < l < |pool| ==> pool[k] != pool[l]) && (block[i] in pool || block[i] in extra)
    ensures Matched(pool, extra, short, short(block[i])) && !Contended(pool, extra, short, short(block[i]))
  {
    var txs := (set tx | tx in pool) + (set tx | tx in extra);
    forall x | (x in pool || x in extra) && short(x) == short(block[i]) ensures x == block[i] { assert x in txs; }
    forall k, l | 0 <= k < l < |pool| ensures short(pool[k]) != short(block[i]) || short(pool[l]) != short(block[i]) {
      assert pool[k] in pool && pool[l] in pool;
    }
  }

  /** The search of `InitData`, once the prefilled transactions are in their places. */
  method FindTransactions(c: CompactBlock, a: seq<Option<Tx>>, short: Tx -> nat, pool: seq<Tx>, extra: seq<Tx>,
                          crowded: nat -> bool, mempoolCount: int, extraCount: int)
    returns (found: bool, s: Search, ghost slots: seq<nat>, ghost n: nat, ghost k: nat)
    requires Placed(c, a, |c.prefilled|)
    ensures found <==> Distinct(c.shortIds) && forall i :: 0 <= i < |c.shortIds| ==> !crowded(i)
    ensures found ==> FreePlaces(a, slots)
    ensures found ==>
              Searched(a, c.shortIds, slots, short, (set tx | tx in pool) + (set tx | tx in extra), s, mempoolCount,
                       extraCount)
    ensures found ==> Scanned(s, c.shortIds, slots, pool, extra, n, k, short)
    ensures found && mempoolCount == 0 ==> EndsFull(s, c.shortIds, slots, pool, extra, n, k, short)
  {
    hide Placed, FreePlaces, Mapped, PlacesKnown, Searched, Distinct, SlotsExact, AllFilled, Matched;
    PlacedCount(c, a);
    var even, m, places := AssignPlaces(a, c.shortIds, crowded);
    slots, n, k := places, 0, 0;
    var none := seq(|a|, i => NoSource);
    s := Search(a, none, mempoolCount, extraCount);
    if !even { return false, s, slots, n, k; }
    MappedSize(c.shortIds, places, m);
    if |m| != |c.shortIds| { return false, s, slots, n, k; }
    AllKnown(a, c.shortIds, places, m);
    ghost var txs := (set tx | tx in pool) + (set tx | tx in extra);
    SearchStarts(a, c.shortIds, places, short, txs, none, mempoolCount, extraCount);
    s, n := SearchPool(a, c.shortIds, places, m, short, pool, txs, s, mempoolCount, extraCount);
    if mempoolCount == 0 && n < |pool| {
      FullIsFilled(a, c.shortIds, places, m, short, txs, s, extraCount);
      FilledIsMatched(s, c.shortIds, places, pool[..n], short);
    }
    s, k := SearchExtra(a, c.shortIds, places, m, short, extra, txs, s, mempoolCount, extraCount, pool[..n]);
    if mempoolCount == 0 && k < |extra| { FullIsFilled(a, c.shortIds, places, m, short, txs, s, extraCount); }
    return true, s, slots, n, k;
  }

  /** The loop of `FillBlock`: take what is there, and the next missing one where nothing is. What is taken
      is gone. */
  method Assemble(a: seq<Option<Tx>>, missing: seq<Tx>)
    returns (enough: bool, offset: nat, block: seq<Tx>, left: seq<Option<Tx>>)
    ensures enough <==> Gaps(a) <= |missing|
    ensures enough ==> offset == Gaps(a) && (offset == |missing| ==> Fill(a, missing) == Some(block))
    ensures Fill(a, missing).Some? <==> enough && offset == |missing|
    ensures !enough ==> left == AfterShortage(a, |missing|)
  {
    hide Fill, Gaps, ShortAt;
    block, offset, left := [], 0, a;
    FillNeeds(a, missing);
    assert a[0..] == a && missing[0..] == missing;
    JoinNothing(Fill(a, missing));
    for i := 0 to |a|
      invariant offset <= |missing| && |block| == i && offset + Gaps(a[i..]) == Gaps(a) && left == Emptied(a, i)
      invariant Fill(a, missing) == Joined(block, Fill(a[i..], missing[offset..]))
      invariant i + ShortAt(a[i..], |missing| - offset) == ShortAt(a, |missing|)
    {
      FillStep(a, i, missing, offset);
      ShortStep(a, i, |missing| - offset);
      if a[i].None? {
        if |missing| <= offset { return false, offset, block, left; }
        JoinMore(block, missing[offset], Fill(a[i + 1..], missing[offset + 1..]));
        block := block + [missing[offset]];
        offset := offset + 1;
      } else {
        JoinMore(block, a[i].value, Fill(a[i + 1..], missing[offset..]));
        block := block + [a[i].value];
        left := left[i := None];
      }
    }
    FillEnds(a, missing, offset);
    assert block + [] == block;
    return true, offset, block, left;
  }

  // ----- after a shortage

  /** The place of gap number `n`, counting from zero. */
  ghost function ShortAt(a: seq<Option<Tx>>, n: nat): nat {
    if a == [] || (a[0].None? && n == 0) then 0
    else 1 + ShortAt(a[1..], if a[0].None? then n - 1 else n)
  }

  /** With the places below `i` emptied. */
  ghost function Emptied(a: seq<Option<Tx>>, i: nat): seq<Option<Tx>> {
    seq(|a|, j requires 0 <= j < |a| => if j < i then None else a[j])
  }

  ghost function AfterShortage(a: seq<Option<Tx>>, n: nat): seq<Option<Tx>> { Emptied(a, ShortAt(a, n)) }

  lemma ShortStep(a: seq<Option<Tx>>, i: nat, n: nat)
    requires i < |a|
    ensures a[i].None? && n == 0 ==> ShortAt(a[i..], n) == 0
    ensures a[i].None? && n > 0 ==> ShortAt(a[i..], n) == 1 + ShortAt(a[i + 1..], n - 1)
    ensures a[i].Some? ==> ShortAt(a[i..], n) == 1 + ShortAt(a[i + 1..], n)
  {
    assert a[i..][1..] == a[i + 1..] && a[i..][0] == a[i];
  }

  /** Before gap number `n` there are `n` gaps, and as many other places as it is further on. */
  lemma {:induction false} GapsBefore(a: seq<Option<Tx>>, n: nat)
    requires n < Gaps(a)
    ensures n <= ShortAt(a, n) < |a| && a[ShortAt(a, n)].None?
    ensures Gaps(AfterShortage(a, n)) == Gaps(a) + ShortAt(a, n) - n
    ensures ShortAt(a, n) == n <==> forall j :: 0 <= j <= n && j < |a| ==> a[j].None?
    decreases |a|
  {
    var b, rest := AfterShortage(a, n), a[1..];
    if a[0].None? && n == 0 {
      assert b == a;
    } else {
      var m := if a[0].None? then n - 1 else n;
      GapsBefore(rest, m);
      assert b[1..] == AfterShortage(rest, m);
      if a[0].None? {
        forall j | 0 <= j <= n && j < |a| ensures j > 0 ==> a[j] == rest[j - 1] { }
        forall j | 0 <= j <= m && j < |rest| ensures rest[j] == a[j + 1] { }
      }
    }
  }

  /** After a shortage, giving the transactions that were missing rebuilds the block exactly if none of the
      places up to the shortage had been filled. */
  lemma RetryRebuilds(a: seq<Option<Tx>>, block: seq<Tx>, n: nat)
    requires PartOf(a, block) && n < Gaps(a)
    ensures Fill(AfterShortage(a, n), MissingOf(a, block)) == Some(block) <==>
              forall j :: 0 <= j <= n && j < |a| ==> a[j].None?
  {
    hide Fill, MissingOf;
    GapsBefore(a, n);
    FillRebuilds(a, block);
    FillNeeds(a, MissingOf(a, block));
    FillNeeds(AfterShortage(a, n), MissingOf(a, block));
    if ShortAt(a, n) == n {
      NothingEmptied(a, n);
    }
  }

  lemma NothingEmptied(a: seq<Option<Tx>>, n: nat)
    requires forall j :: 0 <= j < n && j < |a| ==> a[j].None?
    ensures Emptied(a, n) == a
  {
  }

  /** A first transaction that was there and a second that was missing: after a call without the second,
      a call with it fails. */
  lemma RetryFails()
    ensures var a := [Some(0), None];
            AfterShortage(a, 0) == [None, None] && Fill(a, [1]) == Some([0, 1]) &&
            Fill(AfterShortage(a, 0), [1]) == None
  {
    var a: seq<Option<Tx>> := [Some(0), None];
    assert a[1..] == [None];
    assert ShortAt(a, 0) == 1 + ShortAt([None], 0);
    assert AfterShortage(a, 0) == [None, None];
    var b: seq<Option<Tx>> := [None, None];
    assert b[1..] == [None] && b[1..][1..] == [];
    assert Gaps(b) == 2;
    FillNeeds(b, [1]);
    var one: seq<Option<Tx>> := [None];
    assert one[1..] == [] && [1][1..] == [];
    assert Fill(one, [1]) == Prepend(1, Fill([], []));
    assert Fill(one, [1]) == Some([1] + []) && [1] + [] == [1];
    assert Fill(a, [1]) == Prepend(0, Fill(one, [1]));
    assert [0] + [1] == [0, 1];
  }

  lemma JoinNothing(rest: Option<seq<Tx>>)
    ensures Joined([], rest) == rest
  {
    if rest.Some? { assert [] + rest.value == rest.value; }
  }

  lemma FillStep(a: seq<Option<Tx>>, i: nat, missing: seq<Tx>, offset: nat)
    requires i < |a| && offset <= |missing|
    ensures Gaps(a[i..]) == Gaps(a[i + 1..]) + if a[i].None? then 1 else 0
    ensures a[i].Some? ==> Fill(a[i..], missing[offset..]) == Prepend(a[i].value, Fill(a[i + 1..], missing[offset..]))
    ensures a[i].None? && offset < |missing| ==>
              Fill(a[i..], missing[offset..]) == Prepend(missing[offset], Fill(a[i + 1..], missing[offset + 1..]))
  {
    assert a[i..][1..] == a[i + 1..] && a[i..][0] == a[i];
    if offset < |missing| {
      assert missing[offset..][1..] == missing[offset + 1..] && missing[offset..][0] == missing[offset];
    }
  }

  lemma FillEnds(a: seq<Option<Tx>>, missing: seq<Tx>, offset: nat)
    requires offset <= |missing|
    ensures Gaps(a[|a|..]) == 0 && Fill(a[|a|..], missing[offset..]) == if offset == |missing| then Some([]) else None
  {
  }

  ghost function Joined(front: seq<Tx>, rest: Option<seq<Tx>>): Option<seq<Tx>> {
    if rest.Some? then Some(front + rest.value) else None
  }

  lemma JoinMore(front: seq<Tx>, tx: Tx, rest: Option<seq<Tx>>)
    ensures Joined(front, Prepend(tx, rest)) == Joined(front + [tx], rest)
  {
    if rest.Some? { assert front + ([tx] + rest.value) == (front + [tx]) + rest.value; }
  }

  lemma PlacedCount(c: CompactBlock, a: seq<Option<Tx>>)
    requires Placed(c, a, |c.prefilled|)
    ensures Taken(a, |a|) + |c.shortIds| == |a|
  {
  }

  lemma MappedSize(ids: seq<nat>, slots: seq<nat>, m: map<nat, nat>)
    requires Mapped(ids, slots, |ids|, m)
    ensures |m| != |ids| ==> !Distinct(ids)
    ensures |slots| == |ids|
  {
    assert ids[..|ids|] == ids;
  }

  // ----- from a block to its compact form and back

  /** The compact form of a block: the first transaction, and the short identifiers of the others. */
  function CompactOf(block: seq<Tx>, short: Tx -> nat): CompactBlock
    requires block != []
  {
    CompactBlock(false, seq(|block| - 1, i requires 0 <= i < |block| - 1 => short(block[i + 1])),
                 [Prefilled(0, Some(block[0]))])
  }

  /** Every transaction known that has the short identifier of one of the block is that one. */
  ghost predicate NoConfusion(block: seq<Tx>, short: Tx -> nat, txs: set<Tx>) {
    forall i, tx :: 1 <= i < |block| && tx in txs && short(tx) == short(block[i]) ==> tx == block[i]
  }

  lemma {:induction false} OnlyFirstTaken(a: seq<Option<Tx>>, n: nat)
    requires 1 <= n <= |a| && a[0].Some? && forall j :: 1 <= j < |a| ==> a[j].None?
    ensures Taken(a, n) == 1
    decreases n
  {
    if n > 1 { OnlyFirstTaken(a, n - 1); } else { assert Taken(a, 0) == 0; }
  }

  lemma PlacesOfBlock(block: seq<Tx>, short: Tx -> nat, a: seq<Option<Tx>>, slots: seq<nat>)
    requires block != [] && Placed(CompactOf(block, short), a, 1) && FreePlaces(a, slots) && |slots| == |block| - 1
    ensures |a| == |block| && a[0] == Some(block[0]) && forall i :: 0 <= i < |slots| ==> slots[i] == i + 1
  {
    var c := CompactOf(block, short);
    assert Position(c.prefilled, 0) == 0;
    forall j | 1 <= j < |a| ensures a[j].None? { }
    forall i | 0 <= i < |slots| ensures slots[i] == i + 1 { OnlyFirstTaken(a, slots[i]); }
  }

  /** If a block's compact form was taken up and no short identifier is confused, the block is rebuilt
      from what was found and what is missing. */
  lemma BlockRebuilt(block: seq<Tx>, short: Tx -> nat, txs: set<Tx>, a: seq<Option<Tx>>, slots: seq<nat>, s: Search)
    requires block != [] && NoConfusion(block, short, txs)
    requires var c := CompactOf(block, short);
             Placed(c, a, 1) && FreePlaces(a, slots) && PlacesRight(a, c.shortIds, slots, short, txs, s)
    ensures PartOf(s.available, block) && Fill(s.available, MissingOf(s.available, block)) == Some(block)
  {
    PlacesOfBlock(block, short, a, slots);
    forall j | 0 <= j < |s.available| ensures s.available[j] == None || s.available[j] == Some(block[j]) {
      if j == 0 {
        assert 0 !in slots;
      } else {
        assert slots[j - 1] == j;
        assert SlotOk(s, slots[j - 1], short(block[j]), short, txs);
      }
    }
    FillRebuilds(s.available, block);
  }
}
