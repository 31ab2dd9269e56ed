/** `CheckAddrman` (src/addrman.cpp): what it finds out about the tables, and that it finds no fault with
    tables that are consistent. */
module AddrCheck {
  import opened AddrTables
  import opened AddrSteps
  import opened AddrEffects

  ghost predicate EntryOk(t: Tables, n: int)
    requires n in t.info
  {
    var e := t.info[n];
    && (if e.inTried then e.lastSuccess != 0 && e.refCount == 0 else 0 < e.refCount <= MAX_REFS)
    && e.service in t.addrs && t.addrs[e.service] == n
    && 0 <= e.randomPos < |t.random| && t.random[e.randomPos] == n
    && e.lastTry >= 0 && e.lastSuccess >= 0
  }

  ghost predicate EntriesOk(t: Tables) { forall n :: n in t.info ==> EntryOk(t, n) }

  predicate InTable(s: Slot, buckets: nat) { s.bucket < buckets && s.position < BUCKET_SIZE }

  /** What is in a slot of the tried table belongs there. */
  ghost predicate TriedSlotOk(c: Config, t: Tables, s: Slot)
    requires s in t.tried
  {
    t.tried[s] in t.info && t.info[t.tried[s]].inTried && s == TriedSlot(c, t.info[t.tried[s]].service)
  }

  ghost predicate TriedTableOk(c: Config, t: Tables) {
    && (forall s :: s in t.tried && InTable(s, TRIED_BUCKETS) ==> TriedSlotOk(c, t, s))
    && (forall n :: n in t.info && t.info[n].inTried ==>
          TriedSlot(c, t.info[n].service) in t.tried && t.tried[TriedSlot(c, t.info[n].service)] == n)
  }

  ghost predicate NewSlotOk(c: Config, t: Tables, s: Slot)
    requires s in t.news
  {
    t.news[s] in t.info && !t.info[t.news[s]].inTried && s == NewSlotIn(c, t.info[t.news[s]].service, s.bucket)
  }

  /** The slots looked at before position `i` of bucket `b`. */
  predicate Passed(s: Slot, buckets: nat, b: nat, i: nat) {
    InTable(s, buckets) && (s.bucket < b || (s.bucket == b && s.position < i))
  }

  ghost function PassedPlaces(t: Tables, n: int, b: nat, i: nat): set<Slot> {
    set s | s in t.news && Passed(s, NEW_BUCKETS, b, i) && t.news[s] == n
  }

  ghost function PassedCount(t: Tables, n: int, b: nat, i: nat): nat { |PassedPlaces(t, n, b, i)| }

  ghost predicate NewTableOk(c: Config, t: Tables) {
    && (forall s :: s in t.news && InTable(s, NEW_BUCKETS) ==> NewSlotOk(c, t, s))
    && (forall n :: n in t.info && !t.info[n].inTried ==> t.info[n].refCount == PassedCount(t, n, NEW_BUCKETS, 0))
  }

  ghost function Networks(c: Config, info: map<int, AddrInfo>, ids: set<int>): set<Network> {
    set n | n in ids && n in info :: c.network(info[n].service)
  }

  ghost predicate CountsOk(c: Config, t: Tables) {
    && |Networks(c, t.info, t.info.Keys)| <= |t.counts|
    && forall w :: w in t.counts ==>
         t.counts[w].inNew == |On(c, t.info, Fresh(t.info, {}), w)| &&
         t.counts[w].inTried == |On(c, t.info, Tried(t.info), w)|
  }

  /** All that is checked. */
  ghost predicate Checked(c: Config, t: Tables) {
    && |t.random| == t.nTried + t.nNew && EntriesOk(t) && |Tried(t.info)| == t.nTried && |Fresh(t.info, {})| == t.nNew
    && TriedTableOk(c, t) && NewTableOk(c, t) && CountsOk(c, t)
  }

  // ----- the entries

  /** What has been gathered from the entries in `ids`. */
  ghost predicate Gathered(c: Config, info: map<int, AddrInfo>, ids: set<int>, setTried: set<int>,
                           mapNew: map<int, int>, counts: map<Network, Counts>) {
    && setTried == Tried(info) * ids
    && mapNew.Keys == Fresh(info, {}) * ids && (forall n :: n in mapNew && n in info ==> mapNew[n] == info[n].refCount)
    && Tally(c, info, setTried, |setTried|, counts, true) && Tally(c, info, mapNew.Keys, |mapNew|, counts, false)
    && counts.Keys == Networks(c, info, ids)
  }

  lemma RolesMore(info: map<int, AddrInfo>, ids: set<int>, n: int)
    requires n in info
    ensures Tried(info) * (ids + {n}) == if info[n].inTried then Tried(info) * ids + {n} else Tried(info) * ids
    ensures Fresh(info, {}) * (ids + {n}) == if info[n].inTried then Fresh(info, {}) * ids
                                             else Fresh(info, {}) * ids + {n}
  {
  }

  lemma BumpKeys(counts: map<Network, Counts>, w: Network, k: bool, d: int)
    ensures Bump(counts, w, k, d).Keys == counts.Keys + {w}
  {
  }

  lemma GatheredTried(c: Config, info: map<int, AddrInfo>, ids: set<int>, setTried: set<int>, mapNew: map<int, int>,
                      counts: map<Network, Counts>, n: int)
    requires Gathered(c, info, ids, setTried, mapNew, counts) && ids <= info.Keys && n in info && n !in ids
    requires info[n].inTried
    ensures Gathered(c, info, ids + {n}, setTried + {n}, mapNew, Bump(counts, c.network(info[n].service), true, 1))
  {
    hide Tally, Tried, Fresh, Bump, Networks, SameServices;
    NetworksMore(c, info, ids, n);
    RolesMore(info, ids, n);
    BumpKeys(counts, c.network(info[n].service), true, 1);
    OwnServices(info, ids, setTried);
    OwnServices(info, ids, mapNew.Keys);
    TallyAdd(c, info, info, setTried, n, |setTried|, counts, true);
    TallySame(c, info, info, mapNew.Keys, |mapNew|, counts, c.network(info[n].service), 1, false);
  }

  lemma OwnServices(info: map<int, AddrInfo>, ids: set<int>, some: set<int>)
    requires some <= ids <= info.Keys
    ensures SameServices(info, info, some)
  {
    forall n | n in some ensures n in info { assert n in ids && n in info.Keys; }
  }

  lemma MoreKeys(m: map<int, int>, n: int, k: int)
    ensures m[n := k].Keys == m.Keys + {n} && |m| == |m.Keys| && |m[n := k]| == |m[n := k].Keys|
  {
  }

  lemma NewCounts(info: map<int, AddrInfo>, ids: set<int>, mapNew: map<int, int>, n: int)
    requires n in info && forall m :: m in mapNew && m in info ==> mapNew[m] == info[m].refCount
    ensures var more := mapNew[n := info[n].refCount];
            forall m :: m in more && m in info ==> more[m] == info[m].refCount
  {
  }

  lemma GatheredNew(c: Config, info: map<int, AddrInfo>, ids: set<int>, setTried: set<int>, mapNew: map<int, int>,
                    counts: map<Network, Counts>, n: int)
    requires Gathered(c, info, ids, setTried, mapNew, counts) && ids <= info.Keys && n in info && n !in ids
    requires !info[n].inTried
    ensures Gathered(c, info, ids + {n}, setTried, mapNew[n := info[n].refCount],
                     Bump(counts, c.network(info[n].service), false, 1))
  {
    hide Tally, Tried, Fresh, Bump, Networks, SameServices;
    NetworksMore(c, info, ids, n);
    RolesMore(info, ids, n);
    BumpKeys(counts, c.network(info[n].service), false, 1);
    OwnServices(info, ids, setTried);
    OwnServices(info, ids, mapNew.Keys);
    MoreKeys(mapNew, n, info[n].refCount);
    NewCounts(info, ids, mapNew, n);
    TallyAdd(c, info, info, mapNew.Keys, n, |mapNew|, counts, false);
    TallySame(c, info, info, setTried, |setTried|, counts, c.network(info[n].service), 1, true);
  }

  lemma NetworksMore(c: Config, info: map<int, AddrInfo>, ids: set<int>, n: int)
    requires n in info
    ensures Networks(c, info, ids + {n}) == Networks(c, info, ids) + {c.network(info[n].service)}
  {
    assert n in ids + {n};
    forall w | w in Networks(c, info, ids) ensures w in Networks(c, info, ids + {n}) {
      var m :| m in ids && m in info && c.network(info[m].service) == w;
      assert m in ids + {n};
    }
  }

  method CheckEntry(t: Tables, n: int) returns (ok: bool)
    requires n in t.info
    ensures ok <==> EntryOk(t, n)
  {
    var e := t.info[n];
    if e.inTried {
      if e.lastSuccess == 0 || e.refCount != 0 { return false; }
    } else {
      if e.refCount < 0 || e.refCount > MAX_REFS || e.refCount == 0 { return false; }
    }
    if e.service !in t.addrs || t.addrs[e.service] != n { return false; }
    if e.randomPos < 0 || e.randomPos >= |t.random| || t.random[e.randomPos] != n { return false; }
    return e.lastTry >= 0 && e.lastSuccess >= 0;
  }

  method CheckEntries(c: Config, t: Tables)
    returns (ok: bool, setTried: set<int>, mapNew: map<int, int>, counts: map<Network, Counts>)
    ensures ok <==> EntriesOk(t)
    ensures ok ==> Gathered(c, t.info, t.info.Keys, setTried, mapNew, counts)
  {
    hide Gathered, EntryOk, Tally, Bump;
    setTried, mapNew, counts := {}, map[], map[];
    var rest := t.info.Keys;
    NothingGathered(c, t.info);
    while rest != {}
      invariant rest <= t.info.Keys && (forall n :: n in t.info && n !in rest ==> EntryOk(t, n))
      invariant Gathered(c, t.info, t.info.Keys - rest, setTried, mapNew, counts)
      decreases |rest|
    {
      SomeId(rest);
      var n :| n in rest;
      ok := CheckEntry(t, n);
      if !ok { return; }
      var w := c.network(t.info[n].service);
      assert t.info.Keys - rest + {n} == t.info.Keys - (rest - {n});
      if t.info[n].inTried {
        GatheredTried(c, t.info, t.info.Keys - rest, setTried, mapNew, counts, n);
        setTried := setTried + {n};
        counts := Bump(counts, w, true, 1);
      } else {
        GatheredNew(c, t.info, t.info.Keys - rest, setTried, mapNew, counts, n);
        mapNew := mapNew[n := t.info[n].refCount];
        counts := Bump(counts, w, false, 1);
      }
      rest := rest - {n};
    }
    ok := true;
    assert t.info.Keys - rest == t.info.Keys;
  }

  lemma NothingGathered(c: Config, info: map<int, AddrInfo>)
    ensures Gathered(c, info, info.Keys - info.Keys, {}, map[], map[])
  {
    var ids := info.Keys - info.Keys;
    assert ids == {};
  }

  // ----- the tried table

  /** The tried entries not seen in a slot that was passed. */
  ghost function Unseen(c: Config, t: Tables, b: nat, i: nat): set<int> {
    set n | n in t.info && t.info[n].inTried && !SeenAt(t.tried, TriedSlot(c, t.info[n].service), n, b, i)
  }

  predicate SeenAt(tried: map<Slot, int>, s: Slot, n: int, b: nat, i: nat) {
    Passed(s, TRIED_BUCKETS, b, i) && s in tried && tried[s] == n
  }

  /** One slot: an entry there that is not among the unseen ones, or not in its own slot, is wrong. */
  lemma UnseenStep(c: Config, t: Tables, b: nat, i: nat)
    requires b < TRIED_BUCKETS && i < BUCKET_SIZE
    ensures var s := Slot(b, i);
            if s !in t.tried then Unseen(c, t, b, i + 1) == Unseen(c, t, b, i)
            else
              && (TriedSlotOk(c, t, s) ==>
                   t.tried[s] in Unseen(c, t, b, i) && Unseen(c, t, b, i + 1) == Unseen(c, t, b, i) - {t.tried[s]})
  {
    var s := Slot(b, i);
    if s in t.tried && TriedSlotOk(c, t, s) {
      forall n ensures n in Unseen(c, t, b, i + 1) <==> n in Unseen(c, t, b, i) && n != t.tried[s] {
        if n in t.info && t.info[n].inTried { PassedOne(TriedSlot(c, t.info[n].service), TRIED_BUCKETS, b, i); }
      }
    } else if s !in t.tried {
      forall n ensures n in Unseen(c, t, b, i + 1) <==> n in Unseen(c, t, b, i) {
        if n in t.info && t.info[n].inTried { PassedOne(TriedSlot(c, t.info[n].service), TRIED_BUCKETS, b, i); }
      }
    }
  }

  lemma PassedOne(s: Slot, buckets: nat, b: nat, i: nat)
    requires b < buckets && i < BUCKET_SIZE
    ensures Passed(s, buckets, b, i + 1) <==> Passed(s, buckets, b, i) || s == Slot(b, i)
    ensures !Passed(Slot(b, i), buckets, b, i)
  {
  }

  lemma PassedRow(s: Slot, buckets: nat, b: nat)
    ensures Passed(s, buckets, b, BUCKET_SIZE) == Passed(s, buckets, b + 1, 0)
  {
  }

  lemma UnseenRow(c: Config, t: Tables, b: nat)
    ensures Unseen(c, t, b, BUCKET_SIZE) == Unseen(c, t, b + 1, 0)
  {
    forall n ensures n in Unseen(c, t, b, BUCKET_SIZE) <==> n in Unseen(c, t, b + 1, 0) {
      if n in t.info { PassedRow(TriedSlot(c, t.info[n].service), TRIED_BUCKETS, b); }
    }
  }

  ghost predicate SlotsOk(c: Config, t: Tables, b: nat, i: nat) {
    forall s :: s in t.tried && Passed(s, TRIED_BUCKETS, b, i) ==> TriedSlotOk(c, t, s)
  }

  lemma SlotsOkStep(c: Config, t: Tables, b: nat, i: nat)
    requires b < TRIED_BUCKETS && i < BUCKET_SIZE && SlotsOk(c, t, b, i)
    requires (Slot(b, i) in t.tried ==> TriedSlotOk(c, t, Slot(b, i)))
    ensures SlotsOk(c, t, b, i + 1)
  {
    forall s | s in t.tried && Passed(s, TRIED_BUCKETS, b, i + 1)
      ensures TriedSlotOk(c, t, s)
    {
      PassedOne(s, TRIED_BUCKETS, b, i);
    }
  }

  lemma SlotsOkRow(c: Config, t: Tables, b: nat)
    requires SlotsOk(c, t, b, BUCKET_SIZE)
    ensures SlotsOk(c, t, b + 1, 0)
  {
    forall s | s in t.tried && Passed(s, TRIED_BUCKETS, b + 1, 0)
      ensures TriedSlotOk(c, t, s)
    {
      PassedRow(s, TRIED_BUCKETS, b);
    }
  }

  lemma UnseenEnds(c: Config, t: Tables)
    ensures Unseen(c, t, 0, 0) == Tried(t.info) && SlotsOk(c, t, 0, 0)
    ensures SlotsOk(c, t, TRIED_BUCKETS, 0) ==> (TriedTableOk(c, t) <==> Unseen(c, t, TRIED_BUCKETS, 0) == {})
  {
    if SlotsOk(c, t, TRIED_BUCKETS, 0) {
      forall s | s in t.tried && InTable(s, TRIED_BUCKETS)
        ensures TriedSlotOk(c, t, s)
      {
        assert Passed(s, TRIED_BUCKETS, TRIED_BUCKETS, 0);
      }
      forall n | n in t.info && t.info[n].inTried
        ensures var s := TriedSlot(c, t.info[n].service);
                n in Unseen(c, t, TRIED_BUCKETS, 0) <==> !(s in t.tried && t.tried[s] == n)
      {
        assert Passed(TriedSlot(c, t.info[n].service), TRIED_BUCKETS, TRIED_BUCKETS, 0);
      }
    }
  }

  method CheckTried(c: Config, t: Tables, setTried: set<int>) returns (ok: bool)
    requires setTried == Tried(t.info)
    ensures ok <==> TriedTableOk(c, t)
  {
    hide Unseen, SlotsOk, Passed, SeenAt, TriedSlot;
    var left := setTried;
    UnseenEnds(c, t);
    for b := 0 to TRIED_BUCKETS
      invariant left == Unseen(c, t, b, 0) && SlotsOk(c, t, b, 0)
    {
      for i := 0 to BUCKET_SIZE
        invariant left == Unseen(c, t, b, i) && SlotsOk(c, t, b, i)
      {
        var s := Slot(b, i);
        UnseenStep(c, t, b, i);
        if s in t.tried {
          var n := t.tried[s];
          if n !in left { return false; }
          if n !in t.info || s != TriedSlot(c, t.info[n].service) { return false; }
          UnseenTried(c, t, b, i, n);
          left := left - {n};
        }
        SlotsOkStep(c, t, b, i);
      }
      UnseenRow(c, t, b);
      SlotsOkRow(c, t, b);
    }
    return left == {};
  }

  lemma UnseenTried(c: Config, t: Tables, b: nat, i: nat, n: int)
    requires n in Unseen(c, t, b, i)
    ensures n in t.info && t.info[n].inTried
  {
  }

  // ----- the new table

  lemma PlacesStep(t: Tables, n: int, b: nat, i: nat)
    requires b < NEW_BUCKETS && i < BUCKET_SIZE
    ensures var s := Slot(b, i);
            && PassedPlaces(t, n, b, i + 1) ==
                 PassedPlaces(t, n, b, i) + (if s in t.news && t.news[s] == n then {s} else {})
            && s !in PassedPlaces(t, n, b, i)
  {
    forall s ensures s in PassedPlaces(t, n, b, i + 1) <==>
                     s in PassedPlaces(t, n, b, i) || (s == Slot(b, i) && s in t.news && t.news[s] == n)
    {
      PassedOne(s, NEW_BUCKETS, b, i);
    }
    PassedOne(Slot(b, i), NEW_BUCKETS, b, i);
  }

  lemma PlacesRow(t: Tables, n: int, b: nat)
    ensures PassedPlaces(t, n, b, BUCKET_SIZE) == PassedPlaces(t, n, b + 1, 0)
  {
    forall s
      ensures s in PassedPlaces(t, n, b, BUCKET_SIZE) <==> s in PassedPlaces(t, n, b + 1, 0)
    {
      PassedRow(s, NEW_BUCKETS, b);
    }
  }

  lemma Fewer(a: set<Slot>, b: set<Slot>)
    requires a <= b
    ensures |a| <= |b|
  {
    assert b == a + (b - a);
  }

  lemma PlacesGrow(t: Tables, n: int, b: nat, i: nat)
    requires b < NEW_BUCKETS && i <= BUCKET_SIZE
    ensures PassedCount(t, n, b, i) <= PassedCount(t, n, NEW_BUCKETS, 0)
  {
    Fewer(PassedPlaces(t, n, b, i), PassedPlaces(t, n, NEW_BUCKETS, 0));
  }

  /** What is left of the reference counts once the places passed have been taken off. */
  ghost predicate LeftOver(t: Tables, left: map<int, int>, b: nat, i: nat) {
    && (forall n :: n in left <==> n in Fresh(t.info, {}) && t.info[n].refCount > PassedCount(t, n, b, i))
    && (forall n :: n in left ==> n in t.info && left[n] == t.info[n].refCount - PassedCount(t, n, b, i))
    && (forall n :: n in Fresh(t.info, {}) ==> n in t.info && t.info[n].refCount >= PassedCount(t, n, b, i))
  }

  lemma LeftOverSame(t: Tables, left: map<int, int>, b: nat, i: nat, b': nat, i': nat)
    requires LeftOver(t, left, b, i) && forall n :: PassedCount(t, n, b', i') == PassedCount(t, n, b, i)
    ensures LeftOver(t, left, b', i')
  {
    hide PassedCount;
  }

  lemma CountStep(t: Tables, n: int, b: nat, i: nat)
    requires b < NEW_BUCKETS && i < BUCKET_SIZE
    ensures var s := Slot(b, i);
            PassedCount(t, n, b, i + 1) == PassedCount(t, n, b, i) + if s in t.news && t.news[s] == n then 1 else 0
  {
    PlacesStep(t, n, b, i);
  }

  lemma LeftOverLess(t: Tables, left: map<int, int>, b: nat, i: nat, n: int)
    requires LeftOver(t, left, b, i) && n in left
    requires forall m :: PassedCount(t, m, b, i + 1) == PassedCount(t, m, b, i) + if m == n then 1 else 0
    ensures LeftOver(t, if left[n] == 1 then left - {n} else left[n := left[n] - 1], b, i + 1)
  {
    hide PassedCount, Fresh;
    var less := if left[n] == 1 then left - {n} else left[n := left[n] - 1];
    forall m | m in less
      ensures m in t.info && less[m] == t.info[m].refCount - PassedCount(t, m, b, i + 1)
    {
      assert m in left;
    }
    forall m ensures m in less <==> m in Fresh(t.info, {}) && t.info[m].refCount > PassedCount(t, m, b, i + 1) {
      assert m in left <==> m in Fresh(t.info, {}) && t.info[m].refCount > PassedCount(t, m, b, i);
    }
    forall m | m in Fresh(t.info, {}) ensures m in t.info && t.info[m].refCount >= PassedCount(t, m, b, i + 1) {
      assert n in left;
    }
  }

  lemma LeftOverStep(t: Tables, left: map<int, int>, b: nat, i: nat)
    requires LeftOver(t, left, b, i) && b < NEW_BUCKETS && i < BUCKET_SIZE
    ensures var s := Slot(b, i);
            if s !in t.news then LeftOver(t, left, b, i + 1)
            else if t.news[s] in left then
              var n := t.news[s];
              LeftOver(t, if left[n] == 1 then left - {n} else left[n := left[n] - 1], b, i + 1)
            else
              || t.news[s] !in Fresh(t.info, {})
              || t.info[t.news[s]].refCount < PassedCount(t, t.news[s], NEW_BUCKETS, 0)
  {
    hide PassedCount, Fresh;
    var s := Slot(b, i);
    forall n
      ensures PassedCount(t, n, b, i + 1) == PassedCount(t, n, b, i) + if s in t.news && t.news[s] == n then 1 else 0
    {
      CountStep(t, n, b, i);
    }
    if s !in t.news {
      LeftOverSame(t, left, b, i, b, i + 1);
    } else if t.news[s] in left {
      LeftOverLess(t, left, b, i, t.news[s]);
    } else {
      PlacesGrow(t, t.news[s], b, i + 1);
    }
  }

  ghost predicate NewSlotsOk(c: Config, t: Tables, b: nat, i: nat) {
    forall s :: s in t.news && Passed(s, NEW_BUCKETS, b, i) ==> NewSlotOk(c, t, s)
  }

  lemma NewSlotsStep(c: Config, t: Tables, b: nat, i: nat)
    requires b < NEW_BUCKETS && i < BUCKET_SIZE && NewSlotsOk(c, t, b, i)
    requires (Slot(b, i) in t.news ==> NewSlotOk(c, t, Slot(b, i)))
    ensures NewSlotsOk(c, t, b, i + 1)
  {
    forall s | s in t.news && Passed(s, NEW_BUCKETS, b, i + 1)
      ensures NewSlotOk(c, t, s)
    {
      PassedOne(s, NEW_BUCKETS, b, i);
    }
  }

  lemma NewRow(c: Config, t: Tables, left: map<int, int>, b: nat)
    requires NewSlotsOk(c, t, b, BUCKET_SIZE) && LeftOver(t, left, b, BUCKET_SIZE)
    ensures NewSlotsOk(c, t, b + 1, 0) && LeftOver(t, left, b + 1, 0)
  {
    hide LeftOver;
    forall s | s in t.news && Passed(s, NEW_BUCKETS, b + 1, 0)
      ensures NewSlotOk(c, t, s)
    {
      PassedRow(s, NEW_BUCKETS, b);
    }
    forall n ensures PassedCount(t, n, b + 1, 0) == PassedCount(t, n, b, BUCKET_SIZE) { PlacesRow(t, n, b); }
    LeftOverSame(t, left, b, BUCKET_SIZE, b + 1, 0);
  }

  lemma NewStarts(c: Config, t: Tables, mapNew: map<int, int>)
    requires mapNew.Keys == Fresh(t.info, {})
    requires (forall n :: n in mapNew && n in t.info ==> mapNew[n] == t.info[n].refCount > 0)
    ensures LeftOver(t, mapNew, 0, 0) && NewSlotsOk(c, t, 0, 0)
  {
    forall n ensures PassedPlaces(t, n, 0, 0) == {} { }
    forall n ensures n in mapNew <==> n in Fresh(t.info, {}) { assert n in mapNew <==> n in mapNew.Keys; }
  }

  lemma NewEnds(c: Config, t: Tables, left: map<int, int>)
    requires LeftOver(t, left, NEW_BUCKETS, 0) && NewSlotsOk(c, t, NEW_BUCKETS, 0)
    ensures NewTableOk(c, t) <==> left == map[]
  {
    hide PassedCount;
    forall s | s in t.news && InTable(s, NEW_BUCKETS)
      ensures NewSlotOk(c, t, s)
    {
      assert Passed(s, NEW_BUCKETS, NEW_BUCKETS, 0);
    }
    if NewTableOk(c, t) {
      forall n ensures n !in left { }
    } else if left == map[] {
      forall n | n in t.info && !t.info[n].inTried ensures t.info[n].refCount == PassedCount(t, n, NEW_BUCKETS, 0) {
        assert n in Fresh(t.info, {}) && n !in left;
      }
    }
  }

  lemma NewWrong(c: Config, t: Tables, s: Slot)
    requires s in t.news && InTable(s, NEW_BUCKETS)
    requires var n := t.news[s];
             !NewSlotOk(c, t, s) || (n in Fresh(t.info, {}) && t.info[n].refCount < PassedCount(t, n, NEW_BUCKETS, 0))
    ensures !NewTableOk(c, t)
  {
  }

  method CheckNew(c: Config, t: Tables, mapNew: map<int, int>) returns (ok: bool)
    requires mapNew.Keys == Fresh(t.info, {})
    requires (forall n :: n in mapNew && n in t.info ==> mapNew[n] == t.info[n].refCount > 0)
    ensures ok <==> NewTableOk(c, t)
  {
    hide LeftOver, NewSlotsOk, NewTableOk, PassedCount, NewSlotIn;
    var left := mapNew;
    NewStarts(c, t, mapNew);
    for b := 0 to NEW_BUCKETS
      invariant LeftOver(t, left, b, 0) && NewSlotsOk(c, t, b, 0)
    {
      for i := 0 to BUCKET_SIZE
        invariant LeftOver(t, left, b, i) && NewSlotsOk(c, t, b, i)
      {
        var s := Slot(b, i);
        LeftOverStep(t, left, b, i);
        if s in t.news {
          var n := t.news[s];
          if n !in left {
            NewWrong(c, t, s);
            return false;
          }
          LeftOverFresh(t, left, b, i, n);
          if s != NewSlotIn(c, t.info[n].service, b) {
            NewWrong(c, t, s);
            return false;
          }
          left := if left[n] == 1 then left - {n} else left[n := left[n] - 1];
        }
        NewSlotsStep(c, t, b, i);
      }
      NewRow(c, t, left, b);
    }
    NewEnds(c, t, left);
    return left == map[];
  }

  lemma LeftOverFresh(t: Tables, left: map<int, int>, b: nat, i: nat, n: int)
    requires LeftOver(t, left, b, i) && n in left
    ensures n in t.info && !t.info[n].inTried
  {
  }

  // ----- the totals, and all together

  method CheckCounts(c: Config, t: Tables, local: map<Network, Counts>) returns (ok: bool)
    requires local.Keys == Networks(c, t.info, t.info.Keys)
    requires forall w :: Count(local, w, false) == |On(c, t.info, Fresh(t.info, {}), w)|
    requires forall w :: Count(local, w, true) == |On(c, t.info, Tried(t.info), w)|
    ensures ok <==> CountsOk(c, t)
  {
    hide On, Fresh, Tried, Networks;
    assert |local| == |local.Keys|;
    if |t.counts| < |local| { return false; }
    var rest := t.counts.Keys;
    while rest != {}
      invariant rest <= t.counts.Keys
      invariant forall w :: w in t.counts && w !in rest ==>
                  t.counts[w].inNew == |On(c, t.info, Fresh(t.info, {}), w)| &&
                  t.counts[w].inTried == |On(c, t.info, Tried(t.info), w)|
      decreases |rest|
    {
      SomeNetwork(rest);
      var w :| w in rest;
      if Count(local, w, false) != t.counts[w].inNew || Count(local, w, true) != t.counts[w].inTried { return false; }
      rest := rest - {w};
    }
    return true;
  }

  lemma SomeNetwork(s: set<Network>)
    ensures s == {} || exists w :: w in s
  {
    if forall w: Network :: w !in s { assert s == {}; }
  }

  /** Zero exactly if there is nothing wrong. The numbers of the faults are not distinguished. */
  method CheckAddrman(c: Config, t: Tables) returns (err: int)
    ensures err == 0 <==> Checked(c, t)
  {
    hide Gathered, EntriesOk, TriedTableOk, NewTableOk, CountsOk, Fresh, Tried;
    if |t.random| != t.nTried + t.nNew { return -7; }
    var ok, setTried, mapNew, local := CheckEntries(c, t);
    if !ok { return -1; }
    AllGathered(c, t, setTried, mapNew, local);
    if |setTried| != t.nTried { return -9; }
    if |mapNew| != t.nNew { return -10; }
    ok := CheckTried(c, t, setTried);
    if !ok { return -13; }
    ok := CheckNew(c, t, mapNew);
    if !ok { return -15; }
    ok := CheckCounts(c, t, local);
    if !ok { return -21; }
    return 0;
  }

  lemma AllGathered(c: Config, t: Tables, setTried: set<int>, mapNew: map<int, int>, local: map<Network, Counts>)
    requires Gathered(c, t.info, t.info.Keys, setTried, mapNew, local) && EntriesOk(t)
    ensures setTried == Tried(t.info) && mapNew.Keys == Fresh(t.info, {}) && |mapNew| == |Fresh(t.info, {})|
    ensures forall n :: n in mapNew && n in t.info ==> mapNew[n] == t.info[n].refCount > 0
    ensures local.Keys == Networks(c, t.info, t.info.Keys)
    ensures forall w :: Count(local, w, false) == |On(c, t.info, Fresh(t.info, {}), w)|
    ensures forall w :: Count(local, w, true) == |On(c, t.info, Tried(t.info), w)|
  {
    assert Tried(t.info) * t.info.Keys == Tried(t.info) && Fresh(t.info, {}) * t.info.Keys == Fresh(t.info, {});
    assert |mapNew| == |mapNew.Keys|;
    forall n | n in mapNew && n in t.info ensures mapNew[n] == t.info[n].refCount > 0 {
      assert n in mapNew.Keys && EntryOk(t, n);
    }
  }

  // ----- consistent tables pass

  lemma ConsistentEntries(c: Config, t: Tables)
    requires Consistent(c, t) && Stamped(t.info)
    ensures EntriesOk(t)
  {
    forall n | n in t.info ensures EntryOk(t, n) { RefsAt(t.info, t.news, {}, n); }
  }

  lemma ConsistentTried(c: Config, t: Tables)
    requires Consistent(c, t)
    ensures TriedTableOk(c, t)
  {
  }

  lemma ConsistentNew(c: Config, t: Tables)
    requires Consistent(c, t)
    ensures NewTableOk(c, t)
  {
    hide Consistent, Inv, Places, PassedPlaces;
    ConsistentInv(c, t);
    forall s | s in t.news && InTable(s, NEW_BUCKETS) ensures NewSlotOk(c, t, s) {
      Placed(c, t, s, {}, {});
      NewPlace(c, t, s);
    }
    forall n | n in t.info && !t.info[n].inTried ensures t.info[n].refCount == PassedCount(t, n, NEW_BUCKETS, 0) {
      RefsInv(c, t, n, {}, {});
      AllPlaces(c, t, n);
    }
  }

  lemma NewPlace(c: Config, t: Tables, s: Slot)
    requires Consistent(c, t) && s in t.news
    ensures t.news[s] in t.info && InTable(s, NEW_BUCKETS) && s == NewSlotIn(c, t.info[t.news[s]].service, s.bucket)
  {
  }

  lemma AllPlaces(c: Config, t: Tables, n: int)
    requires Consistent(c, t)
    ensures PassedPlaces(t, n, NEW_BUCKETS, 0) == Places(t.news, n)
  {
    hide Consistent;
    forall s | s in t.news ensures Passed(s, NEW_BUCKETS, NEW_BUCKETS, 0) { NewPlace(c, t, s); }
  }

  lemma FewerNetworks(a: set<Network>, b: set<Network>)
    requires a <= b
    ensures |a| <= |b|
  {
    assert b == a + (b - a);
  }

  lemma KnownNetworks(c: Config, info: map<int, AddrInfo>, counts: map<Network, Counts>)
    requires Known(c, info, counts)
    ensures |Networks(c, info, info.Keys)| <= |counts|
  {
    FewerNetworks(Networks(c, info, info.Keys), counts.Keys);
    assert |counts| == |counts.Keys|;
  }

  lemma TallyAt(c: Config, info: map<int, AddrInfo>, ids: set<int>, total: int, counts: map<Network, Counts>, k: bool,
                w: Network)
    requires Tally(c, info, ids, total, counts, k)
    ensures Count(counts, w, k) == |On(c, info, ids, w)|
  {
  }

  lemma ConsistentCounts(c: Config, t: Tables)
    requires Consistent(c, t)
    ensures CountsOk(c, t)
  {
    hide Linked, Shuffled, TriedOk, NewOk, RefsOk, Tally, Known, Fresh, Tried, On, Networks;
    KnownNetworks(c, t.info, t.counts);
    forall w | w in t.counts
      ensures t.counts[w].inNew == |On(c, t.info, Fresh(t.info, {}), w)|
      ensures t.counts[w].inTried == |On(c, t.info, Tried(t.info), w)|
    {
      TallyAt(c, t.info, Fresh(t.info, {}), t.nNew, t.counts, false, w);
      TallyAt(c, t.info, Tried(t.info), t.nTried, t.counts, true, w);
    }
  }

  lemma ConsistentTotals(c: Config, t: Tables)
    requires Consistent(c, t)
    ensures |t.random| == t.nTried + t.nNew && |Tried(t.info)| == t.nTried && |Fresh(t.info, {})| == t.nNew
  {
    assert t.info.Keys == Tried(t.info) + Fresh(t.info, {}) && |t.info| == |t.info.Keys|;
  }

  /** `CheckAddrman` accepts the tables that every operation leaves behind. */
  lemma ConsistentPasses(c: Config, t: Tables)
    requires Consistent(c, t) && Stamped(t.info)
    ensures Checked(c, t)
  {
    hide Consistent, EntriesOk, TriedTableOk, NewTableOk, CountsOk, Fresh, Tried;
    ConsistentEntries(c, t);
    ConsistentTried(c, t);
    ConsistentNew(c, t);
    ConsistentCounts(c, t);
    ConsistentTotals(c, t);
  }

  /** Of consistent tables, exactly those with proper timestamps pass. */
  lemma CheckedIffStamped(c: Config, t: Tables)
    requires Consistent(c, t)
    ensures Checked(c, t) <==> Stamped(t.info)
  {
    if Stamped(t.info) { ConsistentPasses(c, t); }
    if Checked(c, t) { EntriesStamped(t); }
  }

  lemma EntriesStamped(t: Tables)
    requires EntriesOk(t)
    ensures Stamped(t.info)
  {
    forall n | n in t.info
      ensures t.info[n].lastTry >= 0 && t.info[n].lastSuccess >= 0 && (t.info[n].inTried ==> t.info[n].lastSuccess != 0)
    {
      assert EntryOk(t, n);
    }
  }

  lemma TriedSince(c: Config, t: Tables, n: int)
    requires Consistent(c, t) && n in t.info
    ensures Checked(c, t) ==> t.info[n].lastTry >= 0
  {
    CheckedIffStamped(c, t);
  }
}
