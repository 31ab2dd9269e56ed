/** The tables of the address manager (src/addrman_impl.h), what keeps them consistent
    (`CheckAddrman`, src/addrman.cpp), and the single changes made to them. */
module AddrTables {

  type Service = nat
  type Source = nat
  type Network = nat

  const TRIED_BUCKETS := 256
  const NEW_BUCKETS := 1024
  const BUCKET_SIZE := 64
  const MAX_REFS := 8

  /** The hashes that place an address, and what is known of an address by itself. */
  datatype Config = Config(triedBucket: Service -> nat, newBucket: (Service, Source) -> nat,
                           position: (bool, nat, Service) -> nat, network: Service -> Network,
                           routable: Service -> bool, valid: Service -> bool, itself: (Service, Source) -> bool)

  datatype Slot = Slot(bucket: nat, position: nat)

  function TriedSlot(c: Config, s: Service): Slot {
    var b := c.triedBucket(s) % TRIED_BUCKETS;
    Slot(b, c.position(false, b, s) % BUCKET_SIZE)
  }

  function NewSlotIn(c: Config, s: Service, bucket: nat): Slot {
    Slot(bucket, c.position(true, bucket, s) % BUCKET_SIZE)
  }

  function NewSlot(c: Config, s: Service, src: Source): Slot { NewSlotIn(c, s, c.newBucket(s, src) % NEW_BUCKETS) }

  datatype AddrInfo = AddrInfo(service: Service, source: Source, time: int, services: set<nat>, lastTry: int,
                               lastCount: int, lastSuccess: int, attempts: int, refCount: int, inTried: bool,
                               randomPos: int)

  datatype Counts = Counts(inNew: int, inTried: int)

  datatype Tables = Tables(idCount: int, info: map<int, AddrInfo>, addrs: map<Service, int>, random: seq<int>,
                           nTried: int, tried: map<Slot, int>, nNew: int, news: map<Slot, int>,
                           counts: map<Network, Counts>)

  // ----- consistency, part by part

  /** Each entry is found under its address, and nothing else is. */
  ghost predicate Linked(info: map<int, AddrInfo>, addrs: map<Service, int>) {
    && (forall n :: n in info ==> info[n].service in addrs && addrs[info[n].service] == n)
    && (forall s :: s in addrs ==> addrs[s] in info && info[addrs[s]].service == s)
  }

  /** The random order and the positions stored in the entries are inverse to each other. */
  ghost predicate Shuffled(info: map<int, AddrInfo>, random: seq<int>) {
    && |random| == |info|
    && (forall n :: n in info ==> 0 <= info[n].randomPos < |random| && random[info[n].randomPos] == n)
    && (forall i :: 0 <= i < |random| ==> random[i] in info && info[random[i]].randomPos == i)
  }

  /** The tried entries are exactly those in the tried table, each in its own slot. */
  ghost predicate TriedOk(c: Config, info: map<int, AddrInfo>, tried: map<Slot, int>) {
    && (forall n :: n in info && info[n].inTried ==>
          TriedSlot(c, info[n].service) in tried && tried[TriedSlot(c, info[n].service)] == n)
    && (forall s :: s in tried ==>
         tried[s] in info && info[tried[s]].inTried && s == TriedSlot(c, info[tried[s]].service))
  }

  /** What is in the new table is an entry, in its own slot of that bucket. */
  ghost predicate NewOk(c: Config, info: map<int, AddrInfo>, news: map<Slot, int>) {
    forall s :: s in news ==>
      news[s] in info && s.bucket < NEW_BUCKETS && s == NewSlotIn(c, info[news[s]].service, s.bucket)
  }

  ghost function Places(news: map<Slot, int>, n: int): set<Slot> { set s | s in news && news[s] == n }

  /** The reference counts are the numbers of places in the new table. A tried entry has none; another
      has at least one, except those in `zero`. */
  ghost predicate RefsOk(info: map<int, AddrInfo>, news: map<Slot, int>, zero: set<int>) {
    forall n :: n in info ==>
      && info[n].refCount == |Places(news, n)| <= MAX_REFS
      && (info[n].inTried ==> info[n].refCount == 0)
      && (!info[n].inTried ==> (info[n].refCount == 0 <==> n in zero))
  }

  ghost function Fresh(info: map<int, AddrInfo>, uncounted: set<int>): set<int> {
    set n | n in info && !info[n].inTried && n !in uncounted
  }

  ghost function Tried(info: map<int, AddrInfo>): set<int> { set n | n in info && info[n].inTried }

  ghost function On(c: Config, info: map<int, AddrInfo>, ids: set<int>, w: Network): set<int> {
    set n | n in ids && n in info && c.network(info[n].service) == w
  }

  function Count(counts: map<Network, Counts>, w: Network, tried: bool): int {
    if w !in counts then 0 else if tried then counts[w].inTried else counts[w].inNew
  }

  function Bump(counts: map<Network, Counts>, w: Network, tried: bool, d: int): map<Network, Counts> {
    counts[w := if tried then Counts(Count(counts, w, false), Count(counts, w, true) + d)
                else Counts(Count(counts, w, false) + d, Count(counts, w, true))]
  }

  /** The totals for one of the two tables, overall and on each network. */
  ghost predicate Tally(c: Config, info: map<int, AddrInfo>, ids: set<int>, total: int, counts: map<Network, Counts>,
                        tried: bool) {
    && total == |ids|
    && (forall w :: Count(counts, w, tried) == |On(c, info, ids, w)|)
  }

  ghost predicate Known(c: Config, info: map<int, AddrInfo>, counts: map<Network, Counts>) {
    forall n :: n in info ==> c.network(info[n].service) in counts
  }

  ghost predicate IdsOk(info: map<int, AddrInfo>, idCount: int) { forall n :: n in info ==> 0 <= n < idCount }

  /** All of it. While an operation is at work, the entries in `zero` have no reference yet or any more,
      and those in `uncounted` are not in the totals. */
  ghost predicate Inv(c: Config, t: Tables, zero: set<int>, uncounted: set<int>) {
    && Linked(t.info, t.addrs)
    && Shuffled(t.info, t.random)
    && TriedOk(c, t.info, t.tried)
    && NewOk(c, t.info, t.news)
    && RefsOk(t.info, t.news, zero)
    && Tally(c, t.info, Fresh(t.info, uncounted), t.nNew, t.counts, false)
    && Tally(c, t.info, Tried(t.info), t.nTried, t.counts, true)
    && Known(c, t.info, t.counts)
    && IdsOk(t.info, t.idCount)
  }

  ghost predicate Consistent(c: Config, t: Tables) { Inv(c, t, {}, {}) }

  // ----- the totals

  lemma BumpCount(counts: map<Network, Counts>, w: Network, tried: bool, d: int, v: Network, k: bool)
    ensures Count(Bump(counts, w, tried, d), v, k) == Count(counts, v, k) + (if v == w && k == tried then d else 0)
  {
  }

  ghost predicate SameServices(info: map<int, AddrInfo>, later: map<int, AddrInfo>, ids: set<int>) {
    forall n :: n in ids ==> n in info && n in later && info[n].service == later[n].service
  }

  lemma OnAdd(c: Config, info: map<int, AddrInfo>, later: map<int, AddrInfo>, ids: set<int>, n: int, w: Network)
    requires SameServices(info, later, ids) && n !in ids && n in later
    ensures |On(c, later, ids + {n}, w)| == |On(c, info, ids, w)| + (if c.network(later[n].service) == w then 1 else 0)
  {
    var more, less := On(c, later, ids + {n}, w), On(c, info, ids, w);
    forall m | m != n ensures m in more <==> m in less {
      if m in ids { assert info[m].service == later[m].service; }
    }
    if c.network(later[n].service) == w {
      assert more == less + {n};
    } else {
      assert more == less;
    }
  }

  lemma OnSame(c: Config, info: map<int, AddrInfo>, later: map<int, AddrInfo>, ids: set<int>, w: Network)
    requires SameServices(info, later, ids)
    ensures On(c, later, ids, w) == On(c, info, ids, w)
  {
    forall m ensures m in On(c, later, ids, w) <==> m in On(c, info, ids, w) {
      if m in ids { assert info[m].service == later[m].service; }
    }
  }

  lemma TallyAdd(c: Config, info: map<int, AddrInfo>, later: map<int, AddrInfo>, ids: set<int>, n: int, total: int,
                 counts: map<Network, Counts>, k: bool)
    requires Tally(c, info, ids, total, counts, k) && SameServices(info, later, ids) && n !in ids && n in later
    ensures Tally(c, later, ids + {n}, total + 1, Bump(counts, c.network(later[n].service), k, 1), k)
  {
    var w := c.network(later[n].service);
    forall v ensures Count(Bump(counts, w, k, 1), v, k) == |On(c, later, ids + {n}, v)| {
      BumpCount(counts, w, k, 1, v, k);
      OnAdd(c, info, later, ids, n, v);
    }
  }

  lemma TallyDrop(c: Config, info: map<int, AddrInfo>, later: map<int, AddrInfo>, ids: set<int>, n: int, total: int,
                  counts: map<Network, Counts>, k: bool)
    requires Tally(c, info, ids, total, counts, k) && n in ids && n in info && SameServices(info, later, ids - {n})
    ensures Tally(c, later, ids - {n}, total - 1, Bump(counts, c.network(info[n].service), k, -1), k)
  {
    var w := c.network(info[n].service);
    var rest := ids - {n};
    assert rest + {n} == ids;
    forall v ensures Count(Bump(counts, w, k, -1), v, k) == |On(c, later, rest, v)| {
      BumpCount(counts, w, k, -1, v, k);
      OnAdd(c, later, info, rest, n, v);
    }
  }

  /** A change of the other table's totals, or of entries without a change of address, does not matter. */
  lemma TallySame(c: Config, info: map<int, AddrInfo>, later: map<int, AddrInfo>, ids: set<int>, total: int,
                  counts: map<Network, Counts>, w: Network, d: int, k: bool)
    requires Tally(c, info, ids, total, counts, k) && SameServices(info, later, ids)
    ensures Tally(c, later, ids, total, counts, k) && Tally(c, later, ids, total, Bump(counts, w, !k, d), k)
  {
    forall v
      ensures Count(Bump(counts, w, !k, d), v, k) == |On(c, later, ids, v)|
      ensures Count(counts, v, k) == |On(c, later, ids, v)|
    {
      BumpCount(counts, w, !k, d, v, k);
      OnSame(c, info, later, ids, v);
    }
  }

  lemma KnownBump(c: Config, info: map<int, AddrInfo>, counts: map<Network, Counts>, w: Network, k: bool, d: int)
    requires Known(c, info, counts)
    ensures Known(c, info, Bump(counts, w, k, d))
  {
  }

  // ----- changes

  function Swapped(t: Tables, i: nat, j: nat): Tables
    requires i < |t.random| && j < |t.random| && t.random[i] in t.info && t.random[j] in t.info
  {
    if i == j then t else
      var a, b := t.random[i], t.random[j];
      var info := t.info[a := t.info[a].(randomPos := j)];
      t.(info := info[b := info[b].(randomPos := i)], random := t.random[i := b][j := a])
  }

  /** The same entries, up to what the tables do not depend on. */
  ghost predicate Alike(info: map<int, AddrInfo>, later: map<int, AddrInfo>) {
    && (forall n :: n in info <==> n in later)
    && (forall n :: n in info ==> info[n].service == later[n].service)
    && (forall n :: n in info ==> info[n].refCount == later[n].refCount && info[n].inTried == later[n].inTried)
  }

  lemma AlikeLinked(info: map<int, AddrInfo>, later: map<int, AddrInfo>, addrs: map<Service, int>)
    requires Alike(info, later) && Linked(info, addrs)
    ensures Linked(later, addrs)
  {
    forall n | n in later ensures later[n].service in addrs && addrs[later[n].service] == n { assert n in info; }
    forall s | s in addrs ensures addrs[s] in later && later[addrs[s]].service == s {
      var n := addrs[s];
      assert n in info && n in later;
    }
  }

  lemma AlikeTried(c: Config, info: map<int, AddrInfo>, later: map<int, AddrInfo>, tried: map<Slot, int>)
    requires Alike(info, later) && TriedOk(c, info, tried)
    ensures TriedOk(c, later, tried)
  {
    forall n | n in later && later[n].inTried
      ensures TriedSlot(c, later[n].service) in tried && tried[TriedSlot(c, later[n].service)] == n
    {
      assert n in info;
    }
    forall s | s in tried
      ensures tried[s] in later && later[tried[s]].inTried && s == TriedSlot(c, later[tried[s]].service)
    {
      var n := tried[s];
      assert n in info && n in later;
    }
  }

  lemma AlikeNew(c: Config, info: map<int, AddrInfo>, later: map<int, AddrInfo>, news: map<Slot, int>, zero: set<int>)
    requires Alike(info, later) && NewOk(c, info, news) && RefsOk(info, news, zero)
    ensures NewOk(c, later, news) && RefsOk(later, news, zero)
  {
    forall s | s in news
      ensures news[s] in later && s.bucket < NEW_BUCKETS && s == NewSlotIn(c, later[news[s]].service, s.bucket)
    {
      var n := news[s];
      assert n in info && n in later;
    }
    forall n | n in later
      ensures n in info && later[n].refCount == info[n].refCount && later[n].inTried == info[n].inTried
    {
    }
  }

  lemma AlikeTotals(c: Config, t: Tables, info: map<int, AddrInfo>, uncounted: set<int>)
    requires Alike(t.info, info)
    requires Tally(c, t.info, Fresh(t.info, uncounted), t.nNew, t.counts, false)
    requires Tally(c, t.info, Tried(t.info), t.nTried, t.counts, true)
    ensures Tally(c, info, Fresh(info, uncounted), t.nNew, t.counts, false)
    ensures Tally(c, info, Tried(info), t.nTried, t.counts, true)
  {
    forall n
      ensures n in Fresh(info, uncounted) <==> n in Fresh(t.info, uncounted)
    {
      assert n in info <==> n in t.info;
    }
    forall n ensures n in Tried(info) <==> n in Tried(t.info) { assert n in info <==> n in t.info; }
    assert Fresh(info, uncounted) == Fresh(t.info, uncounted) && Tried(info) == Tried(t.info);
    TallySame(c, t.info, info, Fresh(t.info, uncounted), t.nNew, t.counts, 0, 0, false);
    TallySame(c, t.info, info, Tried(t.info), t.nTried, t.counts, 0, 0, true);
  }

  /** A change of entries that keeps their roles keeps everything but perhaps the random order. */
  lemma AlikeInv(c: Config, t: Tables, u: Tables, zero: set<int>, uncounted: set<int>)
    requires Inv(c, t, zero, uncounted) && Alike(t.info, u.info) && Shuffled(u.info, u.random)
    requires u == t.(info := u.info, random := u.random)
    ensures Inv(c, u, zero, uncounted)
  {
    hide Linked, TriedOk, NewOk, RefsOk, Tally, Fresh, Tried, Shuffled;
    AlikeLinked(t.info, u.info, t.addrs);
    AlikeTried(c, t.info, u.info, t.tried);
    AlikeNew(c, t.info, u.info, t.news, zero);
    AlikeTotals(c, t, u.info, uncounted);
  }

  /** What a swap does to the entries: two positions change, and nothing else. */
  lemma SwapEntries(t: Tables, i: nat, j: nat)
    requires Shuffled(t.info, t.random) && i < |t.random| && j < |t.random|
    ensures t.random[i] in t.info && t.random[j] in t.info
    ensures forall n :: n in Swapped(t, i, j).info <==> n in t.info
    ensures |Swapped(t, i, j).info| == |t.info|
    ensures forall n :: n in t.info ==> Swapped(t, i, j).info[n] ==
                                        t.info[n].(randomPos := if n == t.random[i] then j
                                                                else if n == t.random[j] then i
                                                                     else t.info[n].randomPos)
  {
    var u := Swapped(t, i, j);
    assert u.info.Keys == t.info.Keys;
    assert |u.info| == |u.info.Keys| && |t.info| == |t.info.Keys|;
  }

  lemma SwapRest(t: Tables, i: nat, j: nat)
    requires i < |t.random| && j < |t.random| && t.random[i] in t.info && t.random[j] in t.info
    ensures Swapped(t, i, j) == t.(info := Swapped(t, i, j).info, random := Swapped(t, i, j).random)
  {
  }

  lemma SwapOrder(t: Tables, i: nat, j: nat)
    requires i < |t.random| && j < |t.random| && t.random[i] in t.info && t.random[j] in t.info
    ensures |Swapped(t, i, j).random| == |t.random|
    ensures forall k :: 0 <= k < |t.random| ==>
              Swapped(t, i, j).random[k] == if k == i then t.random[j] else if k == j then t.random[i] else t.random[k]
  {
  }

  lemma SwapShuffled(t: Tables, i: nat, j: nat)
    requires Shuffled(t.info, t.random) && i < |t.random| && j < |t.random|
    ensures t.random[i] in t.info && t.random[j] in t.info
    ensures Shuffled(Swapped(t, i, j).info, Swapped(t, i, j).random)
  {
    hide Swapped;
    SwapEntries(t, i, j);
    SwapOrder(t, i, j);
    var u := Swapped(t, i, j);
    forall n | n in u.info ensures 0 <= u.info[n].randomPos < |u.random| && u.random[u.info[n].randomPos] == n {
      assert n in t.info;
    }
    forall k | 0 <= k < |u.random| ensures u.random[k] in u.info && u.info[u.random[k]].randomPos == k {
      var m := t.random[k];
      assert m in t.info;
    }
  }

  lemma SwapInv(c: Config, t: Tables, i: nat, j: nat, zero: set<int>, uncounted: set<int>)
    requires Inv(c, t, zero, uncounted) && i < |t.random| && j < |t.random|
    ensures t.random[i] in t.info && t.random[j] in t.info && Inv(c, Swapped(t, i, j), zero, uncounted)
  {
    hide Linked, TriedOk, NewOk, RefsOk, Tally, Fresh, Tried, Swapped;
    SwapEntries(t, i, j);
    SwapShuffled(t, i, j);
    SwapRest(t, i, j);
    AlikeInv(c, t, Swapped(t, i, j), zero, uncounted);
  }

  /** One entry gets another reference count or goes into or out of the tried table. */
  function Changed(info: map<int, AddrInfo>, n: int, refCount: int, inTried: bool): map<int, AddrInfo>
    requires n in info
  {
    info[n := info[n].(refCount := refCount, inTried := inTried)]
  }

  /** What does not depend on that. */
  lemma ChangedRest(c: Config, t: Tables, n: int, refCount: int, inTried: bool)
    requires n in t.info
    requires Linked(t.info, t.addrs) && Shuffled(t.info, t.random) && Known(c, t.info, t.counts)
    requires IdsOk(t.info, t.idCount)
    ensures var later := Changed(t.info, n, refCount, inTried);
            && Linked(later, t.addrs) && Shuffled(later, t.random) && Known(c, later, t.counts)
            && IdsOk(later, t.idCount)
  {
    var later := Changed(t.info, n, refCount, inTried);
    assert later.Keys == t.info.Keys;
    assert |later| == |later.Keys| && |t.info| == |t.info.Keys|;
    forall s | s in t.addrs ensures t.addrs[s] in later && later[t.addrs[s]].service == s {
      var m := t.addrs[s];
      assert m in t.info;
    }
    forall k | 0 <= k < |t.random| ensures t.random[k] in later && later[t.random[k]].randomPos == k {
      var m := t.random[k];
      assert m in t.info;
    }
  }

  /** The new table may lose places, and gain places that are right. */
  lemma ChangedNew(c: Config, info: map<int, AddrInfo>, news: map<Slot, int>, n: int, refCount: int, inTried: bool,
                   later: map<Slot, int>)
    requires n in info && NewOk(c, info, news)
    requires forall s :: s in later ==> (s in news && later[s] == news[s]) ||
                                        (later[s] == n && s.bucket < NEW_BUCKETS &&
                                        s == NewSlotIn(c, info[n].service, s.bucket))
    ensures NewOk(c, Changed(info, n, refCount, inTried), later)
  {
    var after := Changed(info, n, refCount, inTried);
    forall s | s in later
      ensures later[s] in after && s.bucket < NEW_BUCKETS && s == NewSlotIn(c, after[later[s]].service, s.bucket)
    {
      var m := later[s];
      assert m in info;
    }
  }

  lemma ChangedTried(c: Config, info: map<int, AddrInfo>, tried: map<Slot, int>, n: int, refCount: int)
    requires n in info && TriedOk(c, info, tried)
    ensures TriedOk(c, Changed(info, n, refCount, info[n].inTried), tried)
  {
    var later := Changed(info, n, refCount, info[n].inTried);
    forall s | s in tried
      ensures tried[s] in later && later[tried[s]].inTried && s == TriedSlot(c, later[tried[s]].service)
    {
      var m := tried[s];
      assert m in info;
    }
  }

  /** The reference counts, when the places of one entry change. */
  lemma ChangedRefs(info: map<int, AddrInfo>, news: map<Slot, int>, zero: set<int>, n: int, inTried: bool,
                    later: map<Slot, int>)
    requires n in info && RefsOk(info, news, zero)
    requires forall m :: m in info && m != n ==> Places(later, m) == Places(news, m)
    requires |Places(later, n)| <= MAX_REFS && (inTried ==> |Places(later, n)| == 0)
    ensures RefsOk(Changed(info, n, |Places(later, n)|, inTried), later,
                   if |Places(later, n)| == 0 && !inTried then zero + {n} else zero - {n})
  {
    var after := Changed(info, n, |Places(later, n)|, inTried);
    var z := if |Places(later, n)| == 0 && !inTried then zero + {n} else zero - {n};
    forall m | m in after
      ensures after[m].refCount == |Places(later, m)| <= MAX_REFS
      ensures after[m].inTried ==> after[m].refCount == 0
      ensures !after[m].inTried ==> (after[m].refCount == 0 <==> m in z)
    {
      assert m in info;
    }
  }
}
