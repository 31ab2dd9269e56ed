/** What the operations of the address manager do to the tables (src/addrman.cpp), in terms of the steps. */
module AddrEffects {
  import opened Options
  import opened AddrTables
  import opened AddrSteps

  const HOUR := 3600
  const HORIZON := 30 * 24 * HOUR
  const RETRIES := 3
  const MAX_FAILURES := 10
  const MIN_FAIL := 7 * 24 * HOUR
  const REPLACEMENT := 4 * HOUR
  const MAX_COLLISIONS := 10
  const TEST_WINDOW := 40 * 60

  predicate IsTerrible(e: AddrInfo, now: int) {
    if now - e.lastTry <= 60 then false
    else e.time > now + 600 || now - e.time > HORIZON || (e.lastSuccess == 0 && e.attempts >= RETRIES) ||
         (now - e.lastSuccess > MIN_FAIL && e.attempts >= MAX_FAILURES)
  }

  /** How far a bucket is from the first one looked at. */
  function Distance(bucket: nat, start: nat): nat { (bucket - start) % NEW_BUCKETS }

  /** The new table without the places of `n` among the first `k` buckets from `start` on. */
  ghost function Scanned(news: map<Slot, int>, n: int, start: nat, k: nat): map<Slot, int> {
    map s | s in news && !(news[s] == n && Distance(s.bucket, start) < k) :: news[s]
  }

  lemma BucketAt(start: nat, k: nat, bucket: nat)
    requires start < NEW_BUCKETS && k < NEW_BUCKETS && bucket < NEW_BUCKETS
    ensures Distance(bucket, start) == k <==> bucket == (start + k) % NEW_BUCKETS
  {
  }

  /** One bucket of the scan: only the slot that the address has there can hold the entry. */
  lemma ScanStep(c: Config, info: map<int, AddrInfo>, news: map<Slot, int>, n: int, start: nat, k: nat)
    requires NewOk(c, info, news) && n in info && start < NEW_BUCKETS && k < NEW_BUCKETS
    ensures var slot := NewSlotIn(c, info[n].service, (start + k) % NEW_BUCKETS);
            var before, after := Scanned(news, n, start, k), Scanned(news, n, start, k + 1);
            if slot in before && before[slot] == n
            then after == before - {slot} && Places(after, n) == Places(before, n) - {slot}
            else after == before
  {
    var slot := NewSlotIn(c, info[n].service, (start + k) % NEW_BUCKETS);
    var before, after := Scanned(news, n, start, k), Scanned(news, n, start, k + 1);
    BucketAt(start, k, slot.bucket);
    forall s | s in before && s !in after ensures s == slot {
      assert s in news && news[s] == n && Distance(s.bucket, start) == k;
      BucketAt(start, k, s.bucket);
    }
    if slot in before && before[slot] == n {
      assert after == before - {slot};
    } else {
      assert after == before;
    }
  }

  lemma ScanEnds(c: Config, info: map<int, AddrInfo>, news: map<Slot, int>, n: int, start: nat, k: nat)
    requires NewOk(c, info, news)
    ensures k == NEW_BUCKETS || Places(Scanned(news, n, start, k), n) == {} ==>
              Scanned(news, n, start, k) == Without(news, n)
    ensures Scanned(news, n, start, 0) == news
    ensures k == NEW_BUCKETS ==> Places(Scanned(news, n, start, k), n) == {}
  {
    var rest := Scanned(news, n, start, k);
    if k == NEW_BUCKETS || Places(rest, n) == {} {
      forall s | s in news ensures s in rest <==> news[s] != n {
        assert s in Places(rest, n) <==> s in rest && rest[s] == n;
      }
      assert rest == Without(news, n);
    }
  }

  lemma PlacedAt(news: map<Slot, int>, n: int, slot: Slot)
    requires slot in news && news[slot] == n
    ensures slot in Places(news, n)
  {
  }

  lemma NoPlaces(news: map<Slot, int>, n: int)
    ensures |Places(news, n)| == 0 <==> Places(news, n) == {}
  {
  }

  lemma ChangedAt(info: map<int, AddrInfo>, n: int, refCount: int, inTried: bool)
    requires n in info
    ensures var later := Changed(info, n, refCount, inTried);
            n in later && later[n] == info[n].(refCount := refCount, inTried := inTried)
  {
  }

  lemma ChangedTwice(info: map<int, AddrInfo>, n: int, before: int, after: int)
    requires n in info
    ensures n in Changed(info, n, before, false)
    ensures Changed(Changed(info, n, before, false), n, after, false) == Changed(info, n, after, false)
    ensures n in Changed(info, n, after, false) && Changed(info, n, after, false)[n].refCount == after
  {
  }

  lemma ChangedNot(info: map<int, AddrInfo>, n: int)
    requires n in info
    ensures Changed(info, n, info[n].refCount, info[n].inTried) == info
  {
  }

  lemma ConsistentInv(c: Config, t: Tables)
    ensures Consistent(c, t) <==> Inv(c, t, {}, {})
  {
  }

  lemma InvNew(c: Config, t: Tables, zero: set<int>, uncounted: set<int>)
    requires Inv(c, t, zero, uncounted)
    ensures NewOk(c, t.info, t.news)
  {
  }

  lemma SwapLast(t: Tables, n: int)
    requires Positioned(t, n) && Shuffled(t.info, t.random)
    ensures var u := Swapped(t, t.info[n].randomPos, |t.random| - 1);
            n in u.info && u.info[n].service == t.info[n].service && |u.random| == |t.random| > 0
  {
    SwapEntries(t, t.info[n].randomPos, |t.random| - 1);
  }

  /** The entry in a slot of the tried table has gone back to the new table. */
  ghost predicate Evicted(c: Config, t: Tables, u: Tables, slot: Slot) {
    && slot in t.tried && t.tried[slot] in t.info && t.tried[slot] in u.info
    && u.tried == t.tried - {slot}
    && var e := t.tried[slot];
       var place := NewSlot(c, t.info[e].service, t.info[e].source);
       && u.info[e] == t.info[e].(refCount := 1, inTried := false, randomPos := u.info[e].randomPos)
       && u.news == t.news[place := e]
       && Displaced(t, u, place, {e})
  }

  /** One place of the new table has been taken from whatever was in it, which goes if it has no other.
      Only that entry and those in `ids` have changed. */
  ghost predicate Displaced(t: Tables, u: Tables, place: Slot, ids: set<int>) {
    && NoneAdded(t.info, u.info)
    && Kept(t.info, u.info, if place in t.news then ids + {t.news[place]} else ids)
    && (place in t.news && t.news[place] in t.info ==> Shrunk(t.info, u.info, t.news[place]))
  }

  /** An entry has moved to the tried table: its references are gone, it is in its slot, and the entry
      that was there is back in the new table. */
  ghost predicate MadeTried(c: Config, t: Tables, u: Tables, n: int) {
    && n in t.info && n in u.info
    && var slot := TriedSlot(c, t.info[n].service);
       && u.tried == t.tried[slot := n]
       && u.info[n] == t.info[n].(refCount := 0, inTried := true, randomPos := u.info[n].randomPos)
       && u.idCount == t.idCount
       && if slot in t.tried then TradedPlaces(c, t.(news := Without(t.news, n)), u, n, t.tried[slot])
          else u.news == Without(t.news, n) && Kept(t.info, u.info, {n}) && NoneAdded(t.info, u.info)
  }

  ghost predicate TradedPlaces(c: Config, t: Tables, u: Tables, n: int, e: int) {
    && e in t.info && e in u.info
    && var place := NewSlot(c, t.info[e].service, t.info[e].source);
       && u.info[e] == t.info[e].(refCount := 1, inTried := false, randomPos := u.info[e].randomPos)
       && u.news == t.news[place := e]
       && Displaced(t, u, place, {n, e})
  }

  /** Whether entry `n` may take a place of the new table. */
  ghost predicate MayTake(t: Tables, n: int, slot: Slot, now: int)
    requires n in t.info
  {
    slot in t.news ==>
      && t.news[slot] != n && t.news[slot] in t.info
      && (IsTerrible(t.info[t.news[slot]], now) || (t.info[t.news[slot]].refCount > 1 && t.info[n].refCount == 0))
  }

  /** Entry `n` has taken a place of the new table. */
  ghost predicate Taken(t: Tables, u: Tables, n: int, slot: Slot) {
    && n in t.info && n in u.info
    && u.info[n] == t.info[n].(refCount := t.info[n].refCount + 1, randomPos := u.info[n].randomPos)
    && u.news == t.news[slot := n] && u.tried == t.tried && u.idCount == t.idCount
    && Displaced(t, u, slot, {n})
  }

  lemma TakenEffect(c: Config, t: Tables, u: Tables, n: int, slot: Slot)
    requires n in t.info && n in u.info && u.info[n] == t.info[n].(randomPos := u.info[n].randomPos)
    requires u.tried == t.tried && u.news == t.news - {slot} && u.idCount == t.idCount && NoneAdded(t.info, u.info)
    requires Kept(t.info, u.info, if slot in t.news then {t.news[slot]} else {})
    requires slot in t.news ==> t.news[slot] in t.info && t.news[slot] != n && Shrunk(t.info, u.info, t.news[slot])
    ensures Taken(t, Entered(u, n, slot), n, slot)
  {
    hide Entered;
    EnteredFacts(c, u, n, slot);
    var w := Entered(u, n, slot);
    assert w.news == t.news[slot := n];
  }

  lemma LeftFacts(c: Config, t: Tables, slot: Slot)
    requires slot in t.tried && t.tried[slot] in t.info
    ensures var n, u := t.tried[slot], LeftTried(c, t, slot);
            && n in u.info && u.info[n] == t.info[n].(inTried := false) && u.news == t.news
            && u.tried == t.tried - {slot}
            && u.idCount == t.idCount && (forall m :: m in u.info <==> m in t.info)
            && (forall m :: m in t.info && m != n ==> u.info[m] == t.info[m])
  {
  }

  lemma EnteredFacts(c: Config, t: Tables, n: int, slot: Slot)
    requires n in t.info
    ensures var u := Entered(t, n, slot);
            && n in u.info && u.info[n] == t.info[n].(refCount := t.info[n].refCount + 1) && u.news == t.news[slot := n]
            && u.tried == t.tried
            && u.idCount == t.idCount && (forall m :: m in u.info <==> m in t.info)
            && (forall m :: m in t.info && m != n ==> u.info[m] == t.info[m])
            && n in Recounted(c, u, n).info && Recounted(c, u, n).info == u.info && Recounted(c, u, n).news == u.news
            && Recounted(c, u, n).tried == u.tried && Recounted(c, u, n).idCount == u.idCount
  {
  }

  /** The first half of an eviction: out of the tried table, and the place in the new table freed. */
  lemma EvictFirst(c: Config, t: Tables, slot: Slot, zero: set<int>)
    requires Inv(c, t, zero, zero) && slot in t.tried && t.tried[slot] !in zero
    ensures t.tried[slot] in t.info && t.info[t.tried[slot]].inTried && t.info[t.tried[slot]].refCount == 0
    ensures var n, u := t.tried[slot], LeftTried(c, t, slot);
            var place := NewSlot(c, t.info[n].service, t.info[n].source);
            && Inv(c, u, zero + {n}, zero + {n})
            && (place in u.news ==> Positioned(u, u.news[place]) && u.news[place] != n && u.news[place] in u.info &&
                                    u.info[u.news[place]].refCount > 0 && !u.info[u.news[place]].inTried)
            && Inv(c, Cleared(c, u, place), zero + {n}, zero + {n})
  {
    TriedAt(c, t, slot, zero, zero);
    hide Inv, LeftTried, Cleared, Positioned;
    var n, u := t.tried[slot], LeftTried(c, t, slot);
    RefsInv(c, t, n, zero, zero);
    LeaveTriedInv(c, t, slot, zero, zero);
    LeftFacts(c, t, slot);
    var place := NewSlot(c, t.info[n].service, t.info[n].source);
    ClearInv(c, u, place, zero + {n}, zero + {n});
    if place in u.news { Placed(c, u, place, zero + {n}, zero + {n}); }
  }

  /** The second half: into the new table. */
  lemma EvictSecond(c: Config, t: Tables, u: Tables, n: int, zero: set<int>)
    requires Inv(c, u, zero + {n}, zero + {n}) && n !in zero && n in t.info && n in u.info && !u.info[n].inTried
    requires u.info[n].refCount == 0
    requires u.info[n].service == t.info[n].service && u.info[n].source == t.info[n].source
    requires NewSlot(c, t.info[n].service, t.info[n].source) !in u.news
    ensures var v := Entered(u, n, NewSlot(c, t.info[n].service, t.info[n].source));
            n in v.info && Inv(c, Recounted(c, v, n), zero, zero)
  {
    hide Inv, Entered, Recounted;
    var place := NewSlot(c, t.info[n].service, t.info[n].source);
    EnterInv(c, u, n, place, zero + {n}, zero + {n});
    EnteredFacts(c, u, n, place);
    RecountInv(c, Entered(u, n, place), n, zero + {n} - {n}, zero + {n});
    assert zero + {n} - {n} == zero;
  }

  /** What an eviction does, put together from its steps. */
  lemma EvictEffect(c: Config, t: Tables, slot: Slot, u: Tables)
    requires slot in t.tried && t.tried[slot] in t.info && t.tried[slot] in u.info
    requires var n := t.tried[slot];
             var left, place := LeftTried(c, t, slot), NewSlot(c, t.info[n].service, t.info[n].source);
             && u.info[n] == left.info[n].(randomPos := u.info[n].randomPos) && t.info[n].refCount == 0
             && u.tried == left.tried && u.news == left.news - {place} && NoneAdded(left.info, u.info)
             && Kept(left.info, u.info, if place in left.news then {left.news[place]} else {})
             && (place in left.news ==>
                   left.news[place] in left.info && left.news[place] != n &&
                   Shrunk(left.info, u.info, left.news[place]))
    ensures var n := t.tried[slot];
            var entered := Entered(u, n, NewSlot(c, t.info[n].service, t.info[n].source));
            n in entered.info && Evicted(c, t, Recounted(c, entered, n), slot)
  {
    hide LeftTried, Entered, Recounted;
    var n := t.tried[slot];
    var left, place := LeftTried(c, t, slot), NewSlot(c, t.info[n].service, t.info[n].source);
    LeftFacts(c, t, slot);
    EnteredFacts(c, u, n, place);
    var w := Recounted(c, Entered(u, n, place), n);
    assert w.news == t.news[place := n];
    var ids := if place in t.news then {n} + {t.news[place]} else {n};
    forall m | m in t.info && m !in ids
      ensures m in w.info && w.info[m] == t.info[m].(randomPos := w.info[m].randomPos)
    {
      assert m in left.info;
    }
  }

  lemma UnlistedFacts(t: Tables, n: int)
    requires n in t.info
    ensures var u := Unlisted(t, n);
            && n in u.info && u.info[n] == t.info[n].(refCount := 0) && u.news == Without(t.news, n)
            && u.tried == t.tried
            && u.idCount == t.idCount && (forall m :: m in u.info <==> m in t.info)
            && (forall m :: m in t.info && m != n ==> u.info[m] == t.info[m])
  {
  }

  lemma UncountedFacts(c: Config, t: Tables, n: int)
    requires n in t.info && n in Unlisted(t, n).info
    ensures var u := Uncounted(c, Unlisted(t, n), n);
            && u.info == Unlisted(t, n).info && u.news == Unlisted(t, n).news && u.tried == Unlisted(t, n).tried
            && u.idCount == Unlisted(t, n).idCount
  {
  }

  /** After the eviction the entry that is to move is still there. */
  lemma EvictedFacts(c: Config, t: Tables, u: Tables, n: int, slot: Slot)
    requires n in t.info && n in Unlisted(t, n).info && Evicted(c, Uncounted(c, Unlisted(t, n), n), u, slot)
    requires slot in t.tried && t.tried[slot] != n
    ensures n in u.info && u.info[n] == t.info[n].(refCount := 0, randomPos := u.info[n].randomPos)
    ensures u.tried == t.tried - {slot}
    ensures TradedPlaces(c, t.(news := Without(t.news, n)), u, n, t.tried[slot])
  {
    hide Unlisted, Uncounted;
    UnlistedFacts(t, n);
    UncountedFacts(c, t, n);
    var left, e := Uncounted(c, Unlisted(t, n), n), t.tried[slot];
    var place := NewSlot(c, t.info[e].service, t.info[e].source);
    assert n in left.info && (place in left.news ==> left.news[place] != n);
    assert left.info[e] == t.info[e];
  }

  lemma MadeTriedEffect(c: Config, t: Tables, u: Tables, n: int)
    requires n in t.info && n in u.info && u.info[n] == t.info[n].(refCount := 0, randomPos := u.info[n].randomPos)
    requires var slot := TriedSlot(c, t.info[n].service);
             && u.tried == t.tried - {slot} && u.idCount == t.idCount
             && if slot in t.tried
                then t.tried[slot] != n && TradedPlaces(c, t.(news := Without(t.news, n)), u, n, t.tried[slot])
                else u.news == Without(t.news, n) && Kept(t.info, u.info, {n}) && NoneAdded(t.info, u.info)
    ensures MadeTried(c, t, EnteredTried(c, u, n), n)
  {
    var slot, v := TriedSlot(c, t.info[n].service), EnteredTried(c, u, n);
    assert v.tried == t.tried[slot := n];
  }

  // ----- the public operations

  function Max(a: int, b: int): int { if a > b then a else b }

  /** What an announcement changes in an entry that is known. */
  function Refreshed(e: AddrInfo, time: int, services: set<nat>, penalty: int, now: int): AddrInfo {
    var interval := if now - time < 24 * HOUR then HOUR else 24 * HOUR;
    e.(time := if e.time < time - interval - penalty then Max(0, time - penalty) else e.time,
       services := e.services + services)
  }

  /** An entry is changed in what the tables do not depend on. */
  function Updated(t: Tables, n: int, e: AddrInfo): Tables { t.(info := t.info[n := e]) }

  lemma UpdateInv(c: Config, t: Tables, n: int, e: AddrInfo)
    requires Consistent(c, t) && n in t.info
    requires e.service == t.info[n].service && e.refCount == t.info[n].refCount && e.inTried == t.info[n].inTried
    requires e.randomPos == t.info[n].randomPos
    ensures Consistent(c, Updated(t, n, e))
  {
    var later := Updated(t, n, e).info;
    assert later.Keys == t.info.Keys;
    assert |later| == |later.Keys| && |t.info| == |t.info.Keys|;
    forall k | 0 <= k < |t.random| ensures t.random[k] in later && later[t.random[k]].randomPos == k {
      var m := t.random[k];
      assert m in t.info;
    }
    AlikeInv(c, t, Updated(t, n, e), {}, {});
  }

  /** The collisions that wait to be resolved: for those entries that still exist, the slot of the tried
      table is taken. */
  ghost predicate Colliding(c: Config, t: Tables, ids: set<int>) {
    && |ids| <= MAX_COLLISIONS
    && (forall n :: n in ids ==> n < t.idCount)
    && (forall n :: n in ids && n in t.info ==> TriedSlot(c, t.info[n].service) in t.tried)
  }

  lemma CollidingStays(c: Config, t: Tables, u: Tables, ids: set<int>)
    requires Colliding(c, t, ids) && t.tried.Keys <= u.tried.Keys && t.idCount <= u.idCount
    requires forall n :: n in u.info && n < t.idCount ==> n in t.info && u.info[n].service == t.info[n].service
    ensures Colliding(c, u, ids)
  {
    forall n | n in ids && n in u.info ensures TriedSlot(c, u.info[n].service) in u.tried {
      assert n in t.info && TriedSlot(c, t.info[n].service) in t.tried.Keys;
    }
  }

  /** What `AddSingle` does. `lucky` is the outcome of the coin that makes another reference less likely. */
  ghost predicate AddResult(c: Config, t: Tables, u: Tables, s: Service, src: Source, time: int, services: set<nat>,
                            penalty: int, now: int, later: int, lucky: bool, added: bool) {
    var pen := if c.itself(s, src) then 0 else penalty;
    var slot := NewSlot(c, s, src);
    if !c.routable(s) then !added && u == t
    else if s in t.addrs then
      var n := t.addrs[s];
      && n in t.info
      && var e := Refreshed(t.info[n], time, services, pen, now);
         var r := Updated(t, n, e);
         if time > e.time && !e.inTried && e.refCount < MAX_REFS && lucky && MayTake(r, n, slot, later)
         then added && Taken(r, u, n, slot) else !added && u == r
    else
      var r := Created(c, t, s, src, Max(0, time - pen), services);
      if MayTake(r, t.idCount, slot, later) then added && Taken(r, u, t.idCount, slot)
      else !added && SameEntries(t, u)
  }

  /** Nothing has changed but the next identifier and perhaps the networks with a count of zero. */
  ghost predicate SameEntries(t: Tables, u: Tables) {
    && u.info == t.info && u.addrs == t.addrs && u.random == t.random && u.tried == t.tried && u.news == t.news
    && u.idCount == t.idCount + 1
  }

  lemma CreatedDeleted(c: Config, t: Tables, s: Service, src: Source, time: int, services: set<nat>)
    requires s !in t.addrs && t.idCount !in t.info
    ensures var r := Created(c, t, s, src, time, services);
            Positioned(r, t.idCount) && SameEntries(t, Deleted(c, r, t.idCount))
  {
    var r := Created(c, t, s, src, time, services);
    var u := Deleted(c, r, t.idCount);
    assert u.info == t.info;
    assert u.addrs == t.addrs;
  }

  lemma CreatedFacts(c: Config, t: Tables, s: Service, src: Source, time: int, services: set<nat>)
    ensures var r := Created(c, t, s, src, time, services);
            && t.idCount in r.info && r.info[t.idCount].service == s && r.info[t.idCount].refCount == 0
            && !r.info[t.idCount].inTried && r.tried == t.tried
  {
  }

  lemma UpdatedFacts(t: Tables, n: int, e: AddrInfo)
    ensures var u := Updated(t, n, e);
            n in u.info && u.info[n] == e && u.tried == t.tried && u.news == t.news && u.idCount == t.idCount
  {
  }

  lemma NewSlotShape(c: Config, s: Service, src: Source)
    ensures var slot := NewSlot(c, s, src); slot.bucket < NEW_BUCKETS && slot == NewSlotIn(c, s, slot.bucket)
  {
  }

  lemma AddressOf(c: Config, t: Tables, s: Service)
    requires Consistent(c, t) && s in t.addrs
    ensures t.addrs[s] in t.info && t.info[t.addrs[s]].service == s
  {
  }

  /** What `Good_` does: the entry is marked as reached, and moves to the tried table unless it is there,
      or its slot is taken and that entry is to be tested first. */
  ghost predicate GoodResult(c: Config, t: Tables, u: Tables, before: set<int>, after: set<int>, s: Service, test: bool,
                             time: int, moved: bool) {
    if s !in t.addrs || t.addrs[s] !in t.info then !moved && u == t && after == before
    else
      var n := t.addrs[s];
      var r := Updated(t, n, t.info[n].(lastSuccess := time, lastTry := time, attempts := 0));
      if t.info[n].inTried then !moved && u == r && after == before
      else if test && TriedSlot(c, s) in t.tried then
        !moved && u == r && after == if |before| < MAX_COLLISIONS then before + {n} else before
      else moved && MadeTried(c, r, u, n) && after == before
  }

  lemma UpdatedColliding(c: Config, t: Tables, n: int, e: AddrInfo, ids: set<int>)
    requires Colliding(c, t, ids) && n in t.info && e.service == t.info[n].service
    ensures Colliding(c, Updated(t, n, e), ids)
  {
    CollidingStays(c, t, Updated(t, n, e), ids);
  }

  lemma MadeTriedColliding(c: Config, t: Tables, u: Tables, n: int, ids: set<int>)
    requires Colliding(c, t, ids) && MadeTried(c, t, u, n)
    ensures Colliding(c, u, ids) && u.idCount == t.idCount
  {
    assert NoneAdded(t.info, u.info);
    forall m | m in u.info && m < t.idCount ensures m in t.info && u.info[m].service == t.info[m].service {
      MadeTriedServices(c, t, u, n, m);
    }
    CollidingStays(c, t, u, ids);
  }

  lemma MadeTriedServices(c: Config, t: Tables, u: Tables, n: int, m: int)
    requires MadeTried(c, t, u, n) && m in u.info
    ensures m in t.info && u.info[m].service == t.info[m].service
  {
  }

  lemma IdBelow(c: Config, t: Tables, n: int)
    requires Consistent(c, t) && n in t.info
    ensures 0 <= n < t.idCount
  {
  }

  // ----- the tried table over time

  /** Still in the tried table, and reached no earlier than before. */
  ghost predicate StillTried(t: Tables, u: Tables, m: int)
    requires m in t.info
  {
    m in u.info && u.info[m].inTried && u.info[m].lastSuccess >= t.info[m].lastSuccess
  }

  /** No slot of the tried table has become empty, and only entries not reached for four hours have left. */
  ghost predicate OnlyStaleLeft(t: Tables, u: Tables, now: int) {
    && t.tried.Keys <= u.tried.Keys
    && forall m :: m in t.info && t.info[m].inTried ==>
         StillTried(t, u, m) || now - t.info[m].lastSuccess >= REPLACEMENT
  }

  lemma TriedInSlot(c: Config, t: Tables, m: int)
    requires Consistent(c, t) && m in t.info && t.info[m].inTried
    ensures TriedSlot(c, t.info[m].service) in t.tried && t.tried[TriedSlot(c, t.info[m].service)] == m
  {
  }

  lemma InSlotTried(c: Config, t: Tables, slot: Slot)
    requires Consistent(c, t) && slot in t.tried
    ensures t.tried[slot] in t.info && t.info[t.tried[slot]].inTried
    ensures slot == TriedSlot(c, t.info[t.tried[slot]].service)
  {
  }

  /** Replacing the entry of a slot, which was not reached for four hours. */
  lemma ReplaceStale(c: Config, t: Tables, u: Tables, before: set<int>, after: set<int>, s: Service, now: int,
                     moved: bool)
    requires Consistent(c, t) && Consistent(c, u) && GoodResult(c, t, u, before, after, s, false, now, moved)
    requires s in t.addrs && TriedSlot(c, s) in t.tried && t.tried[TriedSlot(c, s)] in t.info
    requires now - t.info[t.tried[TriedSlot(c, s)]].lastSuccess >= REPLACEMENT
    ensures OnlyStaleLeft(t, u, now)
  {
    AddressOf(c, t, s);
    var n := t.addrs[s];
    forall m | m in t.info && t.info[m].inTried
      ensures StillTried(t, u, m) || now - t.info[m].lastSuccess >= REPLACEMENT
    {
      TriedInSlot(c, t, m);
      if m != n && TriedSlot(c, t.info[m].service) != TriedSlot(c, s) {
        ReplaceOthers(c, t, u, before, after, s, now, moved, m);
      }
    }
  }

  /** An entry in another slot stays as it is. */
  lemma ReplaceOthers(c: Config, t: Tables, u: Tables, before: set<int>, after: set<int>, s: Service, now: int,
                      moved: bool, m: int)
    requires Consistent(c, t) && Consistent(c, u) && GoodResult(c, t, u, before, after, s, false, now, moved)
    requires m in t.info && t.info[m].inTried && s in t.addrs && m != t.addrs[s]
    requires TriedSlot(c, t.info[m].service) != TriedSlot(c, s)
    ensures StillTried(t, u, m)
  {
    hide Inv, Consistent;
    AddressOf(c, t, s);
    TriedInSlot(c, t, m);
    var n, slot := t.addrs[s], TriedSlot(c, t.info[m].service);
    if moved {
      var r := Updated(t, n, t.info[n].(lastSuccess := now, lastTry := now, attempts := 0));
      assert slot in u.tried && u.tried[slot] == m;
      InSlotTried(c, u, slot);
      assert m in r.info && r.info[m] == t.info[m];
      MadeTriedTimes(c, r, u, n, m);
    }
  }

  lemma MadeTriedTimes(c: Config, t: Tables, u: Tables, n: int, m: int)
    requires MadeTried(c, t, u, n) && m in u.info
    ensures m in t.info && u.info[m].lastSuccess == t.info[m].lastSuccess && u.info[m].lastTry == t.info[m].lastTry
  {
  }

  lemma LinkedAt(c: Config, t: Tables, n: int)
    requires Consistent(c, t) && n in t.info
    ensures t.info[n].service in t.addrs && t.addrs[t.info[n].service] == n
  {
  }

  lemma KeepCollisions(c: Config, t: Tables, u: Tables, before: set<int>, after: set<int>, s: Service, now: int,
                       moved: bool)
    requires GoodResult(c, t, u, before, after, s, false, now, moved)
    ensures after == before
  {
  }

  lemma FewerColliding(c: Config, t: Tables, ids: set<int>, n: int)
    requires Colliding(c, t, ids)
    ensures Colliding(c, t, ids - {n})
  {
  }

  lemma SomeId(ids: set<int>)
    ensures ids == {} || exists n :: n in ids
  {
    if forall n: int :: n !in ids { assert ids == {}; }
  }

  lemma CollidingAt(c: Config, t: Tables, ids: set<int>, n: int)
    requires Colliding(c, t, ids) && n in ids
    ensures n in t.info ==> TriedSlot(c, t.info[n].service) in t.tried
  {
  }

  lemma NothingLeftYet(t: Tables, times: nat -> int)
    ensures OnlyStaleLeftOver(t, t, times, 0)
  {
  }

  lemma NothingLeft(t: Tables, u: Tables, now: int)
    requires u.tried == t.tried && u.info == t.info
    ensures OnlyStaleLeft(t, u, now)
  {
  }

  /** Over several collisions, each at its own time: whatever left was not reached for four hours at one
      of these times. */
  ghost predicate StaleAt(times: nat -> int, rounds: nat, lastSuccess: int) {
    exists i: nat :: i < rounds && times(i) - lastSuccess >= REPLACEMENT
  }

  ghost predicate OnlyStaleLeftOver(t: Tables, u: Tables, times: nat -> int, rounds: nat) {
    && t.tried.Keys <= u.tried.Keys
    && forall m :: m in t.info && t.info[m].inTried ==>
         StillTried(t, u, m) || StaleAt(times, rounds, t.info[m].lastSuccess)
  }

  lemma OneMoreRound(t: Tables, u: Tables, v: Tables, times: nat -> int, rounds: nat)
    requires OnlyStaleLeftOver(t, u, times, rounds) && OnlyStaleLeft(u, v, times(rounds))
    ensures OnlyStaleLeftOver(t, v, times, rounds + 1)
  {
    forall m | m in t.info && t.info[m].inTried
      ensures StillTried(t, v, m) || StaleAt(times, rounds + 1, t.info[m].lastSuccess)
    {
      if StillTried(t, u, m) {
        if !StillTried(u, v, m) { assert times(rounds) - t.info[m].lastSuccess >= REPLACEMENT; }
      }
    }
  }

  // ----- the timestamps

  ghost predicate Stamped(info: map<int, AddrInfo>) {
    forall n :: n in info ==>
      info[n].lastTry >= 0 && info[n].lastSuccess >= 0 && (info[n].inTried ==> info[n].lastSuccess != 0)
  }

  lemma StampedKept(info: map<int, AddrInfo>, later: map<int, AddrInfo>)
    requires Stamped(info)
    requires forall m :: m in later ==>
               m in info && later[m].lastTry == info[m].lastTry && later[m].lastSuccess == info[m].lastSuccess
                                        && (later[m].inTried ==> info[m].inTried)
    ensures Stamped(later)
  {
  }

  /** `AddSingle` leaves the timestamps of contacts alone. */
  lemma AddStamped(c: Config, t: Tables, u: Tables, s: Service, src: Source, time: int, services: set<nat>,
                   penalty: int, now: int, later: int, lucky: bool, added: bool)
    requires AddResult(c, t, u, s, src, time, services, penalty, now, later, lucky, added) && Stamped(t.info)
    ensures Stamped(u.info)
  {
    if c.routable(s) {
      var slot := NewSlot(c, s, src);
      if s in t.addrs {
        var n := t.addrs[s];
        var r := Updated(t, n, Refreshed(t.info[n], time, services, if c.itself(s, src) then 0 else penalty, now));
        assert Stamped(r.info);
        if added { TakenStamped(r, u, n, slot); }
      } else {
        var r := Created(c, t, s, src, Max(0, time - if c.itself(s, src) then 0 else penalty), services);
        assert Stamped(r.info);
        if added { TakenStamped(r, u, t.idCount, slot); }
      }
    }
  }

  lemma TakenStamped(t: Tables, u: Tables, n: int, slot: Slot)
    requires Taken(t, u, n, slot) && Stamped(t.info)
    ensures Stamped(u.info)
  {
    forall m | m in u.info
      ensures m in t.info && u.info[m].lastTry == t.info[m].lastTry && u.info[m].lastSuccess == t.info[m].lastSuccess &&
              u.info[m].inTried == t.info[m].inTried
    {
    }
    StampedKept(t.info, u.info);
  }

  /** The times at which `Good_` may be called: positive ones; zero if the entry stays out of the tried
      table, because its slot is taken and that entry is to be tested first; any for an unknown address. */
  ghost predicate GoodTime(c: Config, t: Tables, s: Service, test: bool, time: int) {
    || s !in t.addrs || t.addrs[s] !in t.info || time > 0
    || (time == 0 && !t.info[t.addrs[s]].inTried && test && TriedSlot(c, s) in t.tried)
  }

  /** `Good_` keeps the timestamps right exactly at such a time. */
  lemma GoodStamped(c: Config, t: Tables, u: Tables, before: set<int>, after: set<int>, s: Service, test: bool,
                    time: int, moved: bool)
    requires GoodResult(c, t, u, before, after, s, test, time, moved) && Stamped(t.info)
    requires s in t.addrs ==> t.addrs[s] in t.info && t.info[t.addrs[s]].service == s
    ensures Stamped(u.info) <==> GoodTime(c, t, s, test, time)
  {
    if s in t.addrs {
      var n := t.addrs[s];
      var r := Updated(t, n, t.info[n].(lastSuccess := time, lastTry := time, attempts := 0));
      assert n in u.info && u.info[n].lastSuccess == time && u.info[n].lastTry == time &&
             u.info[n].inTried == (moved || t.info[n].inTried);
      if time >= 0 {
        forall m | m in u.info && m != n ensures m in t.info && u.info[m].lastTry == t.info[m].lastTry &&
                                                 u.info[m].lastSuccess == t.info[m].lastSuccess &&
                                                 (u.info[m].inTried ==> t.info[m].inTried)
        {
          if moved { MadeTriedOthers(c, r, u, n, m); }
        }
      }
    }
  }

  ghost function NoTables(): Tables { Tables(0, map[], map[], [], 0, map[], 0, map[], map[]) }

  lemma NoTablesConsistent(c: Config)
    ensures Consistent(c, NoTables())
  {
    var t := NoTables();
    assert Fresh(t.info, {}) == {} && Tried(t.info) == {};
  }

  /** The tables after one address has been announced to an empty manager. */
  ghost function OneAddress(c: Config, s: Service, src: Source): Tables {
    Entered(Created(c, NoTables(), s, src, 1, {}), 0, NewSlot(c, s, src))
  }

  lemma OneAddressConsistent(c: Config, s: Service, src: Source)
    ensures Consistent(c, OneAddress(c, s, src)) && Stamped(OneAddress(c, s, src).info)
    ensures s in OneAddress(c, s, src).addrs && OneAddress(c, s, src).addrs[s] == 0
    ensures OneAddress(c, s, src).tried == map[]
    ensures 0 in OneAddress(c, s, src).info && OneAddress(c, s, src).info[0].service == s
    ensures !OneAddress(c, s, src).info[0].inTried
  {
    NoTablesConsistent(c);
    ConsistentInv(c, NoTables());
    CreateInv(c, NoTables(), s, src, 1, {}, {}, {});
    assert {} + {0} == {0} && {0} - {0} == {};
    var r := Created(c, NoTables(), s, src, 1, {});
    NewSlotShape(c, s, src);
    EnterInv(c, r, 0, NewSlot(c, s, src), {0}, {});
    ConsistentInv(c, OneAddress(c, s, src));
  }

  /** At time zero, with the slot in the tried table free, `Good_` leaves an entry there that looks as if
      it had never been reached. */
  lemma GoodAtZero(c: Config, s: Service, src: Source, u: Tables, after: set<int>, moved: bool)
    requires GoodResult(c, OneAddress(c, s, src), u, {}, after, s, true, 0, moved)
    ensures Stamped(OneAddress(c, s, src).info) && moved && !Stamped(u.info)
  {
    OneAddressConsistent(c, s, src);
    hide OneAddress, MadeTried, Stamped;
    GoodStamped(c, OneAddress(c, s, src), u, {}, after, s, true, 0, moved);
  }

  /** `Attempt_` keeps them right exactly if its time is not negative, or the address is unknown. */
  lemma TouchStamped(t: Tables, n: int, e: AddrInfo)
    requires Stamped(t.info) && n in t.info && e.lastSuccess == t.info[n].lastSuccess && e.inTried == t.info[n].inTried
    ensures Stamped(Updated(t, n, e).info) <==> e.lastTry >= 0
  {
    var u := Updated(t, n, e);
    assert n in u.info && u.info[n] == e;
  }

  /** No slot of the tried table has become empty, and no entry has left it. */
  ghost predicate TriedStays(t: Tables, u: Tables) {
    && t.tried.Keys <= u.tried.Keys
    && forall m :: m in t.info && t.info[m].inTried ==> m in u.info && u.info[m].inTried
  }

  lemma SameSlotsStay(c: Config, t: Tables, u: Tables)
    requires Consistent(c, t) && Consistent(c, u)
    requires forall slot :: slot in t.tried ==> slot in u.tried && u.tried[slot] == t.tried[slot]
    ensures TriedStays(t, u)
  {
    hide Consistent;
    forall m | m in t.info && t.info[m].inTried ensures m in u.info && u.info[m].inTried {
      TriedInSlot(c, t, m);
      InSlotTried(c, u, TriedSlot(c, t.info[m].service));
    }
  }

  /** With testing first, `Good_` drives nothing out of the tried table. */
  lemma GoodKeepsTried(c: Config, t: Tables, u: Tables, before: set<int>, after: set<int>, s: Service, time: int,
                       moved: bool)
    requires Consistent(c, t) && Consistent(c, u) && GoodResult(c, t, u, before, after, s, true, time, moved)
    ensures TriedStays(t, u)
  {
    if s in t.addrs { AddressOf(c, t, s); }
    SameSlotsStay(c, t, u);
  }

  lemma MadeTriedOthers(c: Config, t: Tables, u: Tables, n: int, m: int)
    requires MadeTried(c, t, u, n) && m in u.info && m != n
    ensures m in t.info && u.info[m].lastSuccess == t.info[m].lastSuccess && u.info[m].lastTry == t.info[m].lastTry
    ensures u.info[m].inTried ==> t.info[m].inTried
  {
  }

  lemma TakenServices(t: Tables, u: Tables, n: int, slot: Slot, m: int)
    requires Taken(t, u, n, slot) && m in u.info
    ensures m in t.info && u.info[m].service == t.info[m].service
  {
  }

  lemma AddColliding(c: Config, t: Tables, u: Tables, s: Service, src: Source, time: int, services: set<nat>,
                     penalty: int, now: int, later: int, lucky: bool, added: bool, ids: set<int>)
    requires AddResult(c, t, u, s, src, time, services, penalty, now, later, lucky, added) && Colliding(c, t, ids)
    requires t.tried == u.tried
    ensures Colliding(c, u, ids) && u.idCount >= t.idCount
  {
    hide Taken, MayTake;
    forall m | m in u.info && m < t.idCount ensures m in t.info && u.info[m].service == t.info[m].service {
      var slot, pen := NewSlot(c, s, src), if c.itself(s, src) then 0 else penalty;
      if added && s in t.addrs {
        var n := t.addrs[s];
        TakenServices(Updated(t, n, Refreshed(t.info[n], time, services, pen, now)), u, n, slot, m);
      } else if added {
        TakenServices(Created(c, t, s, src, Max(0, time - pen), services), u, t.idCount, slot, m);
      }
    }
    AddIds(c, t, u, s, src, time, services, penalty, now, later, lucky, added);
    CollidingStays(c, t, u, ids);
  }

  lemma AddIds(c: Config, t: Tables, u: Tables, s: Service, src: Source, time: int, services: set<nat>, penalty: int,
               now: int, later: int, lucky: bool, added: bool)
    requires AddResult(c, t, u, s, src, time, services, penalty, now, later, lucky, added)
    ensures u.idCount == if c.routable(s) && s !in t.addrs then t.idCount + 1 else t.idCount
  {
  }

  // ----- reading

  /** The entries on one network or all, in one table or both. */
  ghost function Selected(c: Config, info: map<int, AddrInfo>, net: Option<Network>, inNew: Option<bool>): set<int> {
    set m | m in info && (net.Some? ==> c.network(info[m].service) == net.value) &&
            (inNew.Some? ==> info[m].inTried == !inNew.value)
  }

  lemma SelectedSize(c: Config, t: Tables, net: Option<Network>, inNew: Option<bool>)
    requires Consistent(c, t)
    ensures net.None? && inNew.None? ==> |Selected(c, t.info, net, inNew)| == |t.random|
    ensures net.None? && inNew.Some? ==> |Selected(c, t.info, net, inNew)| == if inNew.value then t.nNew else t.nTried
    ensures net.Some? && inNew.None? ==>
              |Selected(c, t.info, net, inNew)| == Count(t.counts, net.value, false) + Count(t.counts, net.value, true)
    ensures net.Some? && inNew.Some? ==> |Selected(c, t.info, net, inNew)| == Count(t.counts, net.value, !inNew.value)
  {
    if net.None? && inNew.None? {
      assert Selected(c, t.info, net, inNew) == t.info.Keys && |t.info.Keys| == |t.info|;
    } else if net.None? {
      assert Selected(c, t.info, net, inNew) == if inNew.value then Fresh(t.info, {}) else Tried(t.info);
    } else if inNew.Some? {
      SelectedOn(c, t.info, net.value, inNew.value);
    } else {
      SelectedBoth(c, t.info, net.value);
    }
  }

  lemma SelectedOn(c: Config, info: map<int, AddrInfo>, w: Network, inNew: bool)
    ensures Selected(c, info, Some(w), Some(inNew)) == On(c, info, if inNew then Fresh(info, {}) else Tried(info), w)
  {
  }

  lemma SelectedBoth(c: Config, info: map<int, AddrInfo>, w: Network)
    ensures |Selected(c, info, Some(w), None)| == |On(c, info, Fresh(info, {}), w)| + |On(c, info, Tried(info), w)|
  {
    var a, b := On(c, info, Fresh(info, {}), w), On(c, info, Tried(info), w);
    assert Selected(c, info, Some(w), None) == a + b && a !! b;
  }

  /** What `GetAddr_` may hand out. */
  predicate Suitable(e: AddrInfo, netClass: Service -> Network, net: Option<Network>, filtered: bool, now: int) {
    (net.Some? ==> netClass(e.service) == net.value) && !(IsTerrible(e, now) && filtered)
  }

  function Limit(n: nat, maxAddresses: nat, maxPct: nat): nat {
    var part := if maxPct != 0 then (if maxPct < 100 then maxPct else 100) * n / 100 else n;
    if maxAddresses != 0 && maxAddresses < part then maxAddresses else part
  }

  /** The same tables in another random order. */
  ghost predicate Reordered(t: Tables, u: Tables) {
    && u == t.(info := u.info, random := u.random) && |u.random| == |t.random|
    && Kept(t.info, u.info, {}) && NoneAdded(t.info, u.info)
  }

  lemma SwapReordered(c: Config, t: Tables, u: Tables, i: nat, j: nat)
    requires Consistent(c, u) && Reordered(t, u) && i <= j < |u.random|
    ensures u.random[i] in u.info && u.random[j] in u.info
    ensures var v := Swapped(u, i, j);
            Consistent(c, v) && Reordered(t, v) && |v.random| == |u.random| && SamePrefix(u, v, i) &&
            v.random[i] in v.info
  {
    hide Inv, Swapped, Consistent, Shuffled;
    ConsistentInv(c, u);
    InvShuffled(c, u, {}, {});
    SwapInv(c, u, i, j, {}, {});
    SwapRest(u, i, j);
    SwapOrder(u, i, j);
    SwapKept(u, i, j);
    SwapPrefix(u, i, j);
    ConsistentInv(c, Swapped(u, i, j));
  }

  /** The first `k` entries of the random order are as before. */
  ghost predicate SamePrefix(t: Tables, u: Tables, k: nat) {
    && k <= |t.random| == |u.random|
    && forall x :: 0 <= x < k ==> u.random[x] == t.random[x] && t.random[x] in t.info && t.random[x] in u.info &&
                                  u.info[t.random[x]] == t.info[t.random[x]]
  }

  lemma SwapPrefix(t: Tables, i: nat, j: nat)
    requires Shuffled(t.info, t.random) && i <= j < |t.random|
    ensures t.random[i] in t.info && t.random[j] in t.info && SamePrefix(t, Swapped(t, i, j), i)
  {
    hide Swapped;
    SwapEntries(t, i, j);
    SwapOrder(t, i, j);
    forall x | 0 <= x < i ensures t.random[x] in t.info && t.random[x] != t.random[i] && t.random[x] != t.random[j] {
      assert t.info[t.random[x]].randomPos == x && t.info[t.random[i]].randomPos == i &&
             t.info[t.random[j]].randomPos == j;
    }
  }

  lemma ReorderedColliding(c: Config, t: Tables, u: Tables, ids: set<int>)
    requires Colliding(c, t, ids) && Reordered(t, u)
    ensures Colliding(c, u, ids)
  {
    CollidingStays(c, t, u, ids);
  }

  lemma ReorderedRest(t: Tables, u: Tables)
    requires Reordered(t, u)
    ensures u.idCount == t.idCount && |u.random| == |t.random|
  {
  }

  lemma NoneHandedOut(info: map<int, AddrInfo>, random: seq<int>, netClass: Service -> Network, net: Option<Network>,
                      filtered: bool, now: int)
    ensures HandedOut(info, random, 0, [], []) && NoneSkipped(info, random, 0, [], netClass, net, filtered, now)
  {
  }

  lemma ReorderedStamped(t: Tables, u: Tables)
    requires Reordered(t, u) && Stamped(t.info)
    ensures Stamped(u.info)
  {
    StampedKept(t.info, u.info);
  }

  lemma ReorderedSame(t: Tables)
    ensures Reordered(t, t)
  {
  }

  /** What was handed out are entries at increasing positions below `k`. */
  ghost predicate HandedOut(info: map<int, AddrInfo>, random: seq<int>, k: nat, r: seq<AddrInfo>, at: seq<nat>) {
    && |at| == |r| && k <= |random|
    && (forall i :: 0 <= i < |at| ==> at[i] < k && random[at[i]] in info && r[i] == info[random[at[i]]])
    && (forall i, j :: 0 <= i < j < |at| ==> at[i] < at[j])
  }

  /** All that were passed and are suitable were handed out. */
  ghost predicate NoneSkipped(info: map<int, AddrInfo>, random: seq<int>, k: nat, at: seq<nat>,
                              netClass: Service -> Network, net: Option<Network>, filtered: bool, now: int) {
    && k <= |random|
    && forall i :: 0 <= i < k ==>
         random[i] in info && (Suitable(info[random[i]], netClass, net, filtered, now) ==> i in at)
  }

  lemma HandedStays(t: Tables, u: Tables, k: nat, r: seq<AddrInfo>, at: seq<nat>, netClass: Service -> Network,
                    net: Option<Network>, filtered: bool, now: int)
    requires SamePrefix(t, u, k) && HandedOut(t.info, t.random, k, r, at)
    requires NoneSkipped(t.info, t.random, k, at, netClass, net, filtered, now)
    ensures HandedOut(u.info, u.random, k, r, at)
    ensures NoneSkipped(u.info, u.random, k, at, netClass, net, filtered, now)
  {
  }

  lemma HandedMore(u: Tables, k: nat, r: seq<AddrInfo>, at: seq<nat>, netClass: Service -> Network,
                   net: Option<Network>, filtered: bool, now: int)
    requires HandedOut(u.info, u.random, k, r, at) && NoneSkipped(u.info, u.random, k, at, netClass, net, filtered, now)
    requires k < |u.random| && u.random[k] in u.info
    ensures var e := u.info[u.random[k]];
            if Suitable(e, netClass, net, filtered, now) then
              && HandedOut(u.info, u.random, k + 1, r + [e], at + [k])
              && NoneSkipped(u.info, u.random, k + 1, at + [k], netClass, net, filtered, now)
            else
              HandedOut(u.info, u.random, k + 1, r, at) &&
              NoneSkipped(u.info, u.random, k + 1, at, netClass, net, filtered, now)
  {
    hide Suitable;
  }

  lemma HandedListed(c: Config, t: Tables, k: nat, r: seq<AddrInfo>, at: seq<nat>)
    requires Consistent(c, t) && HandedOut(t.info, t.random, k, r, at)
    ensures forall i :: 0 <= i < |r| ==> Listed(t, r[i])
    ensures forall i, j :: 0 <= i < j < |r| ==> r[i].service != r[j].service
  {
    hide Consistent;
    forall i | 0 <= i < |r| ensures Listed(t, r[i]) { LinkedAt(c, t, t.random[at[i]]); }
    forall i, j | 0 <= i < j < |r| ensures r[i].service != r[j].service {
      LinkedAt(c, t, t.random[at[i]]);
      LinkedAt(c, t, t.random[at[j]]);
      RandomDistinct(c, t, at[i], at[j]);
    }
  }

  lemma RandomDistinct(c: Config, t: Tables, i: nat, j: nat)
    requires Consistent(c, t) && i < j < |t.random|
    ensures t.random[i] != t.random[j]
  {
    assert t.random[i] in t.info && t.info[t.random[i]].randomPos == i;
    assert t.random[j] in t.info && t.info[t.random[j]].randomPos == j;
  }

  ghost predicate Listed(t: Tables, e: AddrInfo) {
    e.service in t.addrs && t.addrs[e.service] in t.info && t.info[t.addrs[e.service]] == e
  }

  lemma HandedAll(c: Config, t: Tables, r: seq<AddrInfo>, at: seq<nat>, netClass: Service -> Network,
                  net: Option<Network>, filtered: bool, now: int)
    requires Consistent(c, t) && HandedOut(t.info, t.random, |t.random|, r, at)
    requires NoneSkipped(t.info, t.random, |t.random|, at, netClass, net, filtered, now)
    ensures forall n :: n in t.info && Suitable(t.info[n], netClass, net, filtered, now) ==> t.info[n] in r
  {
    hide Inv, Consistent, Suitable;
    ConsistentInv(c, t);
    forall n | n in t.info && Suitable(t.info[n], netClass, net, filtered, now) ensures t.info[n] in r {
      Position(c, t, n, {}, {});
      var p := t.info[n].randomPos;
      assert p in at;
      var i :| 0 <= i < |at| && at[i] == p;
      assert r[i] == t.info[n];
    }
  }
}
