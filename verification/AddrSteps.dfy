/** The steps from which the operations of the address manager are made (src/addrman.cpp), and that each
    keeps the tables consistent, up to the entries it leaves without a reference or out of the totals. */
module AddrSteps {
  import opened AddrTables

  // ----- references from the new table

  function RefDropped(t: Tables, slot: Slot): Tables
    requires slot in t.news && t.news[slot] in t.info
  {
    var n := t.news[slot];
    t.(info := Changed(t.info, n, t.info[n].refCount - 1, t.info[n].inTried), news := t.news - {slot})
  }

  function Entered(t: Tables, n: int, slot: Slot): Tables
    requires n in t.info
  {
    t.(info := Changed(t.info, n, t.info[n].refCount + 1, t.info[n].inTried), news := t.news[slot := n])
  }

  /** All references to `n` go. */
  function Without(news: map<Slot, int>, n: int): map<Slot, int> { map s | s in news && news[s] != n :: news[s] }

  function Unlisted(t: Tables, n: int): Tables
    requires n in t.info
  {
    t.(info := Changed(t.info, n, 0, t.info[n].inTried), news := Without(t.news, n))
  }

  lemma ChangedTotals(c: Config, t: Tables, n: int, refCount: int, uncounted: set<int>)
    requires n in t.info
    requires Tally(c, t.info, Fresh(t.info, uncounted), t.nNew, t.counts, false)
    requires Tally(c, t.info, Tried(t.info), t.nTried, t.counts, true)
    ensures var later := Changed(t.info, n, refCount, t.info[n].inTried);
            && Tally(c, later, Fresh(later, uncounted), t.nNew, t.counts, false)
            && Tally(c, later, Tried(later), t.nTried, t.counts, true)
  {
    var later := Changed(t.info, n, refCount, t.info[n].inTried);
    assert Fresh(later, uncounted) == Fresh(t.info, uncounted) && Tried(later) == Tried(t.info);
    TallySame(c, t.info, later, Fresh(t.info, uncounted), t.nNew, t.counts, 0, 0, false);
    TallySame(c, t.info, later, Tried(t.info), t.nTried, t.counts, 0, 0, true);
  }

  /** A change of one entry's places keeps consistency, if its count is set to match. */
  lemma PlacesInv(c: Config, t: Tables, n: int, later: map<Slot, int>, zero: set<int>, uncounted: set<int>)
    requires Inv(c, t, zero, uncounted) && n in t.info && !t.info[n].inTried
    requires forall s :: s in later ==> (s in t.news && later[s] == t.news[s]) ||
                                        (later[s] == n && s.bucket < NEW_BUCKETS &&
                                        s == NewSlotIn(c, t.info[n].service, s.bucket))
    requires forall m :: m in t.info && m != n ==> Places(later, m) == Places(t.news, m)
    requires |Places(later, n)| <= MAX_REFS
    ensures Inv(c, t.(info := Changed(t.info, n, |Places(later, n)|, false), news := later),
                if |Places(later, n)| == 0 then zero + {n} else zero - {n}, uncounted)
  {
    hide Linked, Shuffled, Known, IdsOk, TriedOk, NewOk, RefsOk, Tally, Fresh, Tried, Changed, Places;
    ChangedRest(c, t, n, |Places(later, n)|, false);
    ChangedTried(c, t.info, t.tried, n, |Places(later, n)|);
    ChangedNew(c, t.info, t.news, n, |Places(later, n)|, false, later);
    ChangedRefs(t.info, t.news, zero, n, false, later);
    ChangedTotals(c, t, n, |Places(later, n)|, uncounted);
  }

  lemma RefsAt(info: map<int, AddrInfo>, news: map<Slot, int>, zero: set<int>, n: int)
    requires RefsOk(info, news, zero) && n in info
    ensures info[n].refCount == |Places(news, n)| <= MAX_REFS
    ensures info[n].inTried ==> info[n].refCount == 0
    ensures !info[n].inTried ==> (info[n].refCount == 0 <==> n in zero)
  {
  }

  /** What stands in the new table is an entry there, with a reference. */
  lemma Placed(c: Config, t: Tables, slot: Slot, zero: set<int>, uncounted: set<int>)
    requires Inv(c, t, zero, uncounted) && slot in t.news
    ensures var n := t.news[slot];
            n in t.info && n !in zero && !t.info[n].inTried && t.info[n].refCount == |Places(t.news, n)| > 0
  {
    var n := t.news[slot];
    RefsAt(t.info, t.news, zero, n);
    assert slot in Places(t.news, n);
  }

  lemma DropInv(c: Config, t: Tables, slot: Slot, zero: set<int>, uncounted: set<int>)
    requires Inv(c, t, zero, uncounted) && slot in t.news
    ensures var n := t.news[slot];
            n in t.info && Inv(c, RefDropped(t, slot), if t.info[n].refCount == 1 then zero + {n} else zero, uncounted)
  {
    hide Inv;
    Placed(c, t, slot, zero, uncounted);
    var n := t.news[slot];
    var later := t.news - {slot};
    assert Places(later, n) == Places(t.news, n) - {slot};
    forall m | m != n ensures Places(later, m) == Places(t.news, m) { }
    RefsInv(c, t, n, zero, uncounted);
    PlacesInv(c, t, n, later, zero, uncounted);
    assert zero - {n} == zero;
  }

  lemma RefsInv(c: Config, t: Tables, n: int, zero: set<int>, uncounted: set<int>)
    requires Inv(c, t, zero, uncounted) && n in t.info
    ensures t.info[n].refCount == |Places(t.news, n)| <= MAX_REFS
    ensures t.info[n].inTried ==> t.info[n].refCount == 0
    ensures !t.info[n].inTried ==> (t.info[n].refCount == 0 <==> n in zero)
  {
    RefsAt(t.info, t.news, zero, n);
  }

  lemma EnterInv(c: Config, t: Tables, n: int, slot: Slot, zero: set<int>, uncounted: set<int>)
    requires Inv(c, t, zero, uncounted) && n in t.info && !t.info[n].inTried && t.info[n].refCount < MAX_REFS
    requires slot !in t.news && slot.bucket < NEW_BUCKETS && slot == NewSlotIn(c, t.info[n].service, slot.bucket)
    ensures Inv(c, Entered(t, n, slot), zero - {n}, uncounted)
  {
    hide Inv;
    RefsInv(c, t, n, zero, uncounted);
    var later := t.news[slot := n];
    assert Places(later, n) == Places(t.news, n) + {slot};
    forall m | m != n ensures Places(later, m) == Places(t.news, m) { }
    PlacesInv(c, t, n, later, zero, uncounted);
  }

  lemma UnlistInv(c: Config, t: Tables, n: int, zero: set<int>, uncounted: set<int>)
    requires Inv(c, t, zero, uncounted) && n in t.info && !t.info[n].inTried
    ensures Inv(c, Unlisted(t, n), zero + {n}, uncounted)
  {
    hide Inv;
    var later := Without(t.news, n);
    assert Places(later, n) == {};
    forall m | m != n ensures Places(later, m) == Places(t.news, m) { }
    PlacesInv(c, t, n, later, zero, uncounted);
  }

  // ----- the totals of the new table

  function Uncounted(c: Config, t: Tables, n: int): Tables
    requires n in t.info
  {
    t.(nNew := t.nNew - 1, counts := Bump(t.counts, c.network(t.info[n].service), false, -1))
  }

  function Recounted(c: Config, t: Tables, n: int): Tables
    requires n in t.info
  {
    t.(nNew := t.nNew + 1, counts := Bump(t.counts, c.network(t.info[n].service), false, 1))
  }

  lemma UncountInv(c: Config, t: Tables, n: int, zero: set<int>, uncounted: set<int>)
    requires Inv(c, t, zero, uncounted) && n in t.info && !t.info[n].inTried && n !in uncounted
    ensures Inv(c, Uncounted(c, t, n), zero, uncounted + {n})
  {
    hide Linked, Shuffled, IdsOk, TriedOk, NewOk, RefsOk, Tally, Known;
    var w := c.network(t.info[n].service);
    assert Fresh(t.info, uncounted + {n}) == Fresh(t.info, uncounted) - {n};
    TallyDrop(c, t.info, t.info, Fresh(t.info, uncounted), n, t.nNew, t.counts, false);
    TallySame(c, t.info, t.info, Tried(t.info), t.nTried, t.counts, w, -1, true);
    KnownBump(c, t.info, t.counts, w, false, -1);
  }

  lemma RecountInv(c: Config, t: Tables, n: int, zero: set<int>, uncounted: set<int>)
    requires Inv(c, t, zero, uncounted) && n in t.info && !t.info[n].inTried && n in uncounted
    ensures Inv(c, Recounted(c, t, n), zero, uncounted - {n})
  {
    hide Linked, Shuffled, IdsOk, TriedOk, NewOk, RefsOk, Tally, Known;
    var w := c.network(t.info[n].service);
    assert Fresh(t.info, uncounted - {n}) == Fresh(t.info, uncounted) + {n};
    TallyAdd(c, t.info, t.info, Fresh(t.info, uncounted), n, t.nNew, t.counts, false);
    TallySame(c, t.info, t.info, Tried(t.info), t.nTried, t.counts, w, 1, true);
    KnownBump(c, t.info, t.counts, w, false, 1);
  }

  // ----- the tried table

  function LeftTried(c: Config, t: Tables, slot: Slot): Tables
    requires slot in t.tried && t.tried[slot] in t.info
  {
    var n := t.tried[slot];
    t.(info := Changed(t.info, n, t.info[n].refCount, false), tried := t.tried - {slot}, nTried := t.nTried - 1,
       counts := Bump(t.counts, c.network(t.info[n].service), true, -1))
  }

  function EnteredTried(c: Config, t: Tables, n: int): Tables
    requires n in t.info
  {
    t.(info := Changed(t.info, n, t.info[n].refCount, true), tried := t.tried[TriedSlot(c, t.info[n].service) := n],
       nTried := t.nTried + 1, counts := Bump(t.counts, c.network(t.info[n].service), true, 1))
  }

  lemma TriedAt(c: Config, t: Tables, slot: Slot, zero: set<int>, uncounted: set<int>)
    requires Inv(c, t, zero, uncounted) && slot in t.tried
    ensures var n := t.tried[slot]; n in t.info && t.info[n].inTried && slot == TriedSlot(c, t.info[n].service)
  {
  }

  lemma LeftTriedOk(c: Config, info: map<int, AddrInfo>, tried: map<Slot, int>, slot: Slot)
    requires TriedOk(c, info, tried) && slot in tried && tried[slot] in info
    ensures TriedOk(c, Changed(info, tried[slot], info[tried[slot]].refCount, false), tried - {slot})
  {
    var n := tried[slot];
    var later := Changed(info, n, info[n].refCount, false);
    forall s | s in tried && s != slot
      ensures tried[s] in later && later[tried[s]].inTried && s == TriedSlot(c, later[tried[s]].service)
    {
      var m := tried[s];
      assert m in info && m != n;
    }
    forall m | m in later && later[m].inTried
      ensures TriedSlot(c, later[m].service) in tried - {slot} && (tried - {slot})[TriedSlot(c, later[m].service)] == m
    {
      assert m in info && m != n;
    }
  }

  lemma EnteredTriedOk(c: Config, info: map<int, AddrInfo>, tried: map<Slot, int>, n: int)
    requires TriedOk(c, info, tried) && n in info && TriedSlot(c, info[n].service) !in tried
    ensures TriedOk(c, Changed(info, n, info[n].refCount, true), tried[TriedSlot(c, info[n].service) := n])
  {
    var slot := TriedSlot(c, info[n].service);
    var later, after := Changed(info, n, info[n].refCount, true), tried[slot := n];
    forall s | s in after
      ensures after[s] in later && later[after[s]].inTried && s == TriedSlot(c, later[after[s]].service)
    {
      if s != slot {
        var m := tried[s];
        assert m in info && m != n;
      }
    }
    forall m | m in later && later[m].inTried
      ensures TriedSlot(c, later[m].service) in after && after[TriedSlot(c, later[m].service)] == m
    {
      assert m in info;
    }
  }

  lemma LeftTotals(c: Config, t: Tables, n: int, uncounted: set<int>)
    requires n in t.info && t.info[n].inTried
    requires Tally(c, t.info, Fresh(t.info, uncounted), t.nNew, t.counts, false)
    requires Tally(c, t.info, Tried(t.info), t.nTried, t.counts, true)
    ensures var later := Changed(t.info, n, t.info[n].refCount, false);
            var counts := Bump(t.counts, c.network(t.info[n].service), true, -1);
            && Tally(c, later, Fresh(later, uncounted + {n}), t.nNew, counts, false)
            && Tally(c, later, Tried(later), t.nTried - 1, counts, true)
  {
    hide Tally;
    var later := Changed(t.info, n, t.info[n].refCount, false);
    assert Fresh(later, uncounted + {n}) == Fresh(t.info, uncounted) && Tried(later) == Tried(t.info) - {n};
    TallySame(c, t.info, later, Fresh(t.info, uncounted), t.nNew, t.counts, c.network(t.info[n].service), -1, false);
    TallyDrop(c, t.info, later, Tried(t.info), n, t.nTried, t.counts, true);
  }

  lemma EnteredTotals(c: Config, t: Tables, n: int, uncounted: set<int>)
    requires n in t.info && !t.info[n].inTried && n in uncounted
    requires Tally(c, t.info, Fresh(t.info, uncounted), t.nNew, t.counts, false)
    requires Tally(c, t.info, Tried(t.info), t.nTried, t.counts, true)
    ensures var later := Changed(t.info, n, t.info[n].refCount, true);
            var counts := Bump(t.counts, c.network(t.info[n].service), true, 1);
            && Tally(c, later, Fresh(later, uncounted - {n}), t.nNew, counts, false)
            && Tally(c, later, Tried(later), t.nTried + 1, counts, true)
  {
    hide Tally;
    var later := Changed(t.info, n, t.info[n].refCount, true);
    assert Fresh(later, uncounted - {n}) == Fresh(t.info, uncounted) && Tried(later) == Tried(t.info) + {n};
    TallySame(c, t.info, later, Fresh(t.info, uncounted), t.nNew, t.counts, c.network(t.info[n].service), 1, false);
    TallyAdd(c, t.info, later, Tried(t.info), n, t.nTried, t.counts, true);
  }

  lemma LeaveTriedInv(c: Config, t: Tables, slot: Slot, zero: set<int>, uncounted: set<int>)
    requires Inv(c, t, zero, uncounted) && slot in t.tried
    ensures t.tried[slot] in t.info
    ensures Inv(c, LeftTried(c, t, slot), zero + {t.tried[slot]}, uncounted + {t.tried[slot]})
  {
    TriedAt(c, t, slot, zero, uncounted);
    hide Linked, Shuffled, Known, IdsOk, TriedOk, NewOk, RefsOk, Tally, Fresh, Tried, Changed, Places;
    var n := t.tried[slot];
    RefsInv(c, t, n, zero, uncounted);
    ChangedRest(c, t, n, 0, false);
    ChangedNew(c, t.info, t.news, n, 0, false, t.news);
    ChangedRefs(t.info, t.news, zero, n, false, t.news);
    LeftTriedOk(c, t.info, t.tried, slot);
    LeftTotals(c, t, n, uncounted);
    KnownBump(c, Changed(t.info, n, 0, false), t.counts, c.network(t.info[n].service), true, -1);
  }

  lemma EnterTriedInv(c: Config, t: Tables, n: int, zero: set<int>, uncounted: set<int>)
    requires Inv(c, t, zero, uncounted) && n in t.info && !t.info[n].inTried && n in zero && n in uncounted
    requires TriedSlot(c, t.info[n].service) !in t.tried
    ensures Inv(c, EnteredTried(c, t, n), zero - {n}, uncounted - {n})
  {
    hide Linked, Shuffled, Known, IdsOk, TriedOk, NewOk, RefsOk, Tally, Fresh, Tried, Changed, Places;
    RefsInv(c, t, n, zero, uncounted);
    ChangedRest(c, t, n, 0, true);
    ChangedNew(c, t.info, t.news, n, 0, true, t.news);
    ChangedRefs(t.info, t.news, zero, n, true, t.news);
    EnteredTriedOk(c, t.info, t.tried, n);
    EnteredTotals(c, t, n, uncounted);
    KnownBump(c, Changed(t.info, n, 0, true), t.counts, c.network(t.info[n].service), true, 1);
  }

  // ----- entries come and go

  function Created(c: Config, t: Tables, s: Service, src: Source, time: int, services: set<nat>): Tables {
    var e := AddrInfo(s, src, time, services, 0, 0, 0, 0, 0, false, |t.random|);
    t.(idCount := t.idCount + 1, info := t.info[t.idCount := e], addrs := t.addrs[s := t.idCount],
       random := t.random + [t.idCount], nNew := t.nNew + 1, counts := Bump(t.counts, c.network(s), false, 1))
  }

  lemma CreatedLinked(c: Config, t: Tables, s: Service, src: Source, time: int, services: set<nat>)
    requires s !in t.addrs && t.idCount !in t.info && Linked(t.info, t.addrs)
    ensures var u := Created(c, t, s, src, time, services); Linked(u.info, u.addrs)
  {
    var u := Created(c, t, s, src, time, services);
    forall r | r in u.addrs ensures u.addrs[r] in u.info && u.info[u.addrs[r]].service == r {
      if r != s {
        var m := t.addrs[r];
        assert m in t.info;
      }
    }
  }

  lemma CreatedShuffled(c: Config, t: Tables, s: Service, src: Source, time: int, services: set<nat>)
    requires t.idCount !in t.info && Shuffled(t.info, t.random)
    ensures var u := Created(c, t, s, src, time, services); Shuffled(u.info, u.random)
  {
    var u := Created(c, t, s, src, time, services);
    assert u.info.Keys == t.info.Keys + {t.idCount};
    assert |u.info| == |u.info.Keys| && |t.info| == |t.info.Keys|;
    forall k | 0 <= k < |u.random| ensures u.random[k] in u.info && u.info[u.random[k]].randomPos == k {
      if k < |t.random| {
        var m := t.random[k];
        assert m in t.info;
      }
    }
  }

  lemma CreatedTried(c: Config, t: Tables, s: Service, src: Source, time: int, services: set<nat>)
    requires t.idCount !in t.info && TriedOk(c, t.info, t.tried)
    ensures var u := Created(c, t, s, src, time, services); TriedOk(c, u.info, u.tried)
  {
    var u := Created(c, t, s, src, time, services);
    forall q | q in u.tried
      ensures u.tried[q] in u.info && u.info[u.tried[q]].inTried && q == TriedSlot(c, u.info[u.tried[q]].service)
    {
      var m := t.tried[q];
      assert m in t.info;
    }
  }

  lemma CreatedRefs(c: Config, t: Tables, s: Service, src: Source, time: int, services: set<nat>, zero: set<int>)
    requires t.idCount !in t.info && NewOk(c, t.info, t.news) && RefsOk(t.info, t.news, zero)
    ensures var u := Created(c, t, s, src, time, services);
            NewOk(c, u.info, u.news) && RefsOk(u.info, u.news, zero + {t.idCount})
  {
    var u := Created(c, t, s, src, time, services);
    forall q | q in u.news
      ensures u.news[q] in u.info && q.bucket < NEW_BUCKETS && q == NewSlotIn(c, u.info[u.news[q]].service, q.bucket)
    {
      var m := t.news[q];
      assert m in t.info;
    }
    assert Places(t.news, t.idCount) == {};
  }

  lemma CreatedTotals(c: Config, t: Tables, s: Service, src: Source, time: int, services: set<nat>, uncounted: set<int>)
    requires t.idCount !in t.info && t.idCount !in uncounted && Known(c, t.info, t.counts)
    requires Tally(c, t.info, Fresh(t.info, uncounted), t.nNew, t.counts, false)
    requires Tally(c, t.info, Tried(t.info), t.nTried, t.counts, true)
    ensures var u := Created(c, t, s, src, time, services);
            && Tally(c, u.info, Fresh(u.info, uncounted), u.nNew, u.counts, false)
            && Tally(c, u.info, Tried(u.info), u.nTried, u.counts, true)
            && Known(c, u.info, u.counts)
  {
    hide Tally;
    var u := Created(c, t, s, src, time, services);
    assert Fresh(u.info, uncounted) == Fresh(t.info, uncounted) + {t.idCount} && Tried(u.info) == Tried(t.info);
    TallyAdd(c, t.info, u.info, Fresh(t.info, uncounted), t.idCount, t.nNew, t.counts, false);
    TallySame(c, t.info, u.info, Tried(t.info), t.nTried, t.counts, c.network(s), 1, true);
  }

  lemma CreateInv(c: Config, t: Tables, s: Service, src: Source, time: int, services: set<nat>, zero: set<int>,
                  uncounted: set<int>)
    requires Inv(c, t, zero, uncounted) && s !in t.addrs && t.idCount >= 0 && t.idCount !in uncounted
    ensures Inv(c, Created(c, t, s, src, time, services), zero + {t.idCount}, uncounted)
    ensures t.idCount !in t.info
  {
    assert t.idCount !in t.info;
    hide Linked, Shuffled, TriedOk, NewOk, RefsOk, Tally, Fresh, Tried, Known;
    CreatedLinked(c, t, s, src, time, services);
    CreatedShuffled(c, t, s, src, time, services);
    CreatedTried(c, t, s, src, time, services);
    CreatedRefs(c, t, s, src, time, services, zero);
    CreatedTotals(c, t, s, src, time, services, uncounted);
  }

  /** An entry at the end of the random order goes. */
  function Removed(c: Config, t: Tables, n: int): Tables
    requires n in t.info && |t.random| > 0
  {
    t.(info := t.info - {n}, addrs := t.addrs - {t.info[n].service}, random := t.random[..|t.random| - 1],
       nNew := t.nNew - 1, counts := Bump(t.counts, c.network(t.info[n].service), false, -1))
  }

  lemma RemovedTables(c: Config, t: Tables, n: int)
    requires n in t.info && t.info[n].randomPos == |t.random| - 1 && !t.info[n].inTried
    requires Linked(t.info, t.addrs) && Shuffled(t.info, t.random) && TriedOk(c, t.info, t.tried)
    ensures |t.random| > 0
    ensures var u := Removed(c, t, n);
            Linked(u.info, u.addrs) && Shuffled(u.info, u.random) && TriedOk(c, u.info, u.tried)
  {
    RemovedLinked(t.info, t.addrs, n);
    RemovedShuffled(t.info, t.random, n);
    RemovedTried(c, t.info, t.tried, n);
    hide Linked, Shuffled, TriedOk;
  }

  lemma RemovedLinked(info: map<int, AddrInfo>, addrs: map<Service, int>, n: int)
    requires n in info && Linked(info, addrs)
    ensures Linked(info - {n}, addrs - {info[n].service})
  {
    var u, v := info - {n}, addrs - {info[n].service};
    forall r | r in v ensures v[r] in u && u[v[r]].service == r { assert addrs[r] in info; }
  }

  lemma RemovedShuffled(info: map<int, AddrInfo>, random: seq<int>, n: int)
    requires n in info && Shuffled(info, random) && info[n].randomPos == |random| - 1
    ensures |random| > 0 && Shuffled(info - {n}, random[..|random| - 1])
  {
    var u, v := info - {n}, random[..|random| - 1];
    assert u.Keys == info.Keys - {n};
    assert |u| == |u.Keys| && |info| == |info.Keys|;
    forall k | 0 <= k < |v| ensures v[k] in u && u[v[k]].randomPos == k { assert random[k] in info; }
  }

  lemma RemovedTried(c: Config, info: map<int, AddrInfo>, tried: map<Slot, int>, n: int)
    requires n in info && TriedOk(c, info, tried) && !info[n].inTried
    ensures TriedOk(c, info - {n}, tried)
  {
    var u := info - {n};
    forall q | q in tried ensures tried[q] in u && u[tried[q]].inTried && q == TriedSlot(c, u[tried[q]].service) {
      assert tried[q] in info;
    }
  }

  lemma RemovedRefs(c: Config, t: Tables, n: int, zero: set<int>)
    requires n in t.info && |t.random| > 0 && !t.info[n].inTried && n in zero && NewOk(c, t.info, t.news)
    requires RefsOk(t.info, t.news, zero)
    ensures var u := Removed(c, t, n);
            NewOk(c, u.info, u.news) && RefsOk(u.info, u.news, zero - {n})
  {
    var u := Removed(c, t, n);
    RefsAt(t.info, t.news, zero, n);
    assert Places(t.news, n) == {};
    forall q | q in u.news
      ensures u.news[q] in u.info && q.bucket < NEW_BUCKETS && q == NewSlotIn(c, u.info[u.news[q]].service, q.bucket)
    {
      var m := t.news[q];
      assert m in t.info && q in Places(t.news, m);
    }
  }

  lemma RemovedTotals(c: Config, t: Tables, n: int, uncounted: set<int>)
    requires n in t.info && |t.random| > 0 && !t.info[n].inTried && n !in uncounted && Known(c, t.info, t.counts)
    requires Tally(c, t.info, Fresh(t.info, uncounted), t.nNew, t.counts, false)
    requires Tally(c, t.info, Tried(t.info), t.nTried, t.counts, true)
    ensures var u := Removed(c, t, n);
            && Tally(c, u.info, Fresh(u.info, uncounted), u.nNew, u.counts, false)
            && Tally(c, u.info, Tried(u.info), u.nTried, u.counts, true)
            && Known(c, u.info, u.counts)
  {
    hide Tally;
    var u := Removed(c, t, n);
    assert Fresh(u.info, uncounted) == Fresh(t.info, uncounted) - {n} && Tried(u.info) == Tried(t.info);
    TallyDrop(c, t.info, u.info, Fresh(t.info, uncounted), n, t.nNew, t.counts, false);
    TallySame(c, t.info, u.info, Tried(t.info), t.nTried, t.counts, c.network(t.info[n].service), -1, true);
  }

  lemma RemoveInv(c: Config, t: Tables, n: int, zero: set<int>, uncounted: set<int>)
    requires Inv(c, t, zero, uncounted) && n in t.info && !t.info[n].inTried && n in zero && n !in uncounted
    requires t.info[n].randomPos == |t.random| - 1
    ensures |t.random| > 0 && Inv(c, Removed(c, t, n), zero - {n}, uncounted)
  {
    assert |t.random| > 0;
    hide Linked, Shuffled, TriedOk, NewOk, RefsOk, Tally, Fresh, Tried, Known;
    RemovedTables(c, t, n);
    RemovedRefs(c, t, n, zero);
    RemovedTotals(c, t, n, uncounted);
  }

  // ----- whole operations on an entry

  function Deleted(c: Config, t: Tables, n: int): Tables
    requires n in t.info && 0 <= t.info[n].randomPos < |t.random|
    requires t.random[t.info[n].randomPos] in t.info && t.random[|t.random| - 1] in t.info
  {
    Removed(c, Swapped(t, t.info[n].randomPos, |t.random| - 1), n)
  }

  /** The entries in `ids` aside, nothing happens to an entry but a move in the random order. */
  ghost predicate Kept(info: map<int, AddrInfo>, later: map<int, AddrInfo>, ids: set<int>) {
    forall m :: m in info && m !in ids ==> m in later && later[m] == info[m].(randomPos := later[m].randomPos)
  }

  ghost predicate NoneAdded(info: map<int, AddrInfo>, later: map<int, AddrInfo>) {
    forall m :: m in later ==> m in info
  }

  ghost predicate Positioned(t: Tables, n: int) {
    && n in t.info && 0 <= t.info[n].randomPos < |t.random|
    && t.random[t.info[n].randomPos] == n && t.random[|t.random| - 1] in t.info
  }

  lemma Position(c: Config, t: Tables, n: int, zero: set<int>, uncounted: set<int>)
    requires Inv(c, t, zero, uncounted) && n in t.info
    ensures Positioned(t, n)
  {
  }

  lemma SwapKept(t: Tables, i: nat, j: nat)
    requires Shuffled(t.info, t.random) && i < |t.random| && j < |t.random|
    ensures t.random[i] in t.info && t.random[j] in t.info
    ensures Kept(t.info, Swapped(t, i, j).info, {}) && NoneAdded(t.info, Swapped(t, i, j).info)
    ensures Swapped(t, i, j).info[t.random[i]].randomPos == j
  {
    hide Swapped;
    SwapEntries(t, i, j);
  }

  lemma RemoveKept(c: Config, t: Tables, u: Tables, n: int)
    requires Kept(t.info, u.info, {}) && NoneAdded(t.info, u.info) && n in u.info && |u.random| > 0
    ensures Kept(t.info, Removed(c, u, n).info, {n}) && NoneAdded(t.info, Removed(c, u, n).info)
    ensures n !in Removed(c, u, n).info
  {
  }

  lemma DeleteEffect(c: Config, t: Tables, n: int)
    requires Positioned(t, n) && Shuffled(t.info, t.random)
    ensures var u := Deleted(c, t, n);
            && u.idCount == t.idCount && u.tried == t.tried && u.news == t.news
            && n !in u.info && Kept(t.info, u.info, {n}) && NoneAdded(t.info, u.info)
  {
    hide Swapped, Shuffled, Kept, NoneAdded;
    var i, j := t.info[n].randomPos, |t.random| - 1;
    SwapKept(t, i, j);
    SwapRest(t, i, j);
    SwapOrder(t, i, j);
    KeptIn(t.info, Swapped(t, i, j).info, n);
    RemoveKept(c, t, Swapped(t, i, j), n);
  }

  lemma KeptIn(info: map<int, AddrInfo>, later: map<int, AddrInfo>, n: int)
    requires Kept(info, later, {}) && n in info
    ensures n in later && later[n] == info[n].(randomPos := later[n].randomPos)
  {
  }

  lemma KeptAt(info: map<int, AddrInfo>, later: map<int, AddrInfo>, ids: set<int>, n: int)
    requires Kept(info, later, ids) && n in info && n !in ids
    ensures n in later && later[n] == info[n].(randomPos := later[n].randomPos)
  {
  }

  lemma InvShuffled(c: Config, t: Tables, zero: set<int>, uncounted: set<int>)
    requires Inv(c, t, zero, uncounted)
    ensures Shuffled(t.info, t.random)
  {
  }

  lemma DeleteInv(c: Config, t: Tables, n: int, zero: set<int>, uncounted: set<int>)
    requires Inv(c, t, zero, uncounted) && n in t.info && !t.info[n].inTried && n in zero && n !in uncounted
    ensures Positioned(t, n) && Inv(c, Deleted(c, t, n), zero - {n}, uncounted)
  {
    hide Inv, Swapped, Shuffled, Kept, NoneAdded;
    InvShuffled(c, t, zero, uncounted);
    Position(c, t, n, zero, uncounted);
    var i, j := t.info[n].randomPos, |t.random| - 1;
    SwapKept(t, i, j);
    KeptIn(t.info, Swapped(t, i, j).info, n);
    SwapInv(c, t, i, j, zero, uncounted);
    SwapOrder(t, i, j);
    RemoveInv(c, Swapped(t, i, j), n, zero, uncounted);
  }

  /** A place of the new table is freed; an entry that thereby loses its last reference goes. */
  function Cleared(c: Config, t: Tables, slot: Slot): Tables
    requires slot in t.news ==> Positioned(t, t.news[slot])
  {
    if slot !in t.news then t else
      var n := t.news[slot];
      var u := RefDropped(t, slot);
      if u.info[n].refCount == 0 then Deleted(c, u, n) else u
  }

  /** An entry has one reference less, or is gone if it had only one. */
  ghost predicate Shrunk(info: map<int, AddrInfo>, later: map<int, AddrInfo>, n: int)
    requires n in info
  {
    if info[n].refCount == 1 then n !in later
    else n in later && later[n] == info[n].(refCount := info[n].refCount - 1, randomPos := later[n].randomPos)
  }

  lemma ClearEffect(c: Config, t: Tables, slot: Slot)
    requires slot in t.news ==> Positioned(t, t.news[slot])
    requires Shuffled(t.info, t.random)
    ensures var u := Cleared(c, t, slot);
            && u.idCount == t.idCount && u.tried == t.tried && u.news == t.news - {slot} && NoneAdded(t.info, u.info)
            && (slot !in t.news ==> u == t)
            && Kept(t.info, u.info, if slot in t.news then {t.news[slot]} else {})
            && (slot in t.news ==> Shrunk(t.info, u.info, t.news[slot]))
  {
    if slot in t.news {
      hide Deleted, Shuffled;
      var u := RefDropped(t, slot);
      DroppedShuffled(t, slot);
      DeleteEffect(c, u, t.news[slot]);
    } else {
      assert t.news - {slot} == t.news;
    }
  }

  lemma DroppedShuffled(t: Tables, slot: Slot)
    requires slot in t.news && Positioned(t, t.news[slot]) && Shuffled(t.info, t.random)
    ensures Shuffled(RefDropped(t, slot).info, t.random) && Positioned(RefDropped(t, slot), t.news[slot])
  {
    var later := RefDropped(t, slot).info;
    assert later.Keys == t.info.Keys;
    assert |later| == |later.Keys| && |t.info| == |t.info.Keys|;
    forall k | 0 <= k < |t.random| ensures t.random[k] in later && later[t.random[k]].randomPos == k {
      var m := t.random[k];
      assert m in t.info;
    }
  }

  lemma ClearInv(c: Config, t: Tables, slot: Slot, zero: set<int>, uncounted: set<int>)
    requires Inv(c, t, zero, uncounted) && uncounted <= zero
    ensures slot in t.news ==> Positioned(t, t.news[slot]) && t.news[slot] !in zero && !t.info[t.news[slot]].inTried
    ensures Inv(c, Cleared(c, t, slot), zero, uncounted)
  {
    if slot in t.news {
      hide Inv, Deleted;
      var n := t.news[slot];
      Placed(c, t, slot, zero, uncounted);
      Position(c, t, n, zero, uncounted);
      var u := RefDropped(t, slot);
      DropInv(c, t, slot, zero, uncounted);
      if u.info[n].refCount == 0 {
        DeleteInv(c, u, n, zero + {n}, uncounted);
        assert zero + {n} - {n} == zero;
      }
    }
  }
}
