/** The address manager (src/addrman.cpp). Each operation keeps the tables consistent; over a run no slot
    of the tried table becomes empty again, and an entry leaves that table only to resolve a collision. */
module AddrMan {
  import opened Options
  import opened AddrTables
  import opened AddrSteps
  import opened AddrEffects
  import opened AddrCheck

  /** An announced address, with the times at which it is looked at and the outcome of the coin. */
  datatype Announcement = Announcement(service: Service, time: int, services: set<nat>, now: int, later: int,
                                       lucky: bool)

  class AddrManImpl {
    const c: Config

    var idCount: int
    var info: map<int, AddrInfo>
    var addrs: map<Service, int>
    var random: seq<int>
    var nTried: int
    var tried: map<Slot, int>
    var nNew: int
    var news: map<Slot, int>
    var counts: map<Network, Counts>
    var lastGood: int
    var collisions: set<int>

    ghost function T(): Tables
      reads this
    {
      Tables(idCount, info, addrs, random, nTried, tried, nNew, news, counts)
    }

    constructor (config: Config)
      ensures c == config && Valid() && Checked(c, T()) && info == map[] && collisions == {}
    {
      c := config;
      idCount, info, addrs, random, nTried, tried, nNew, news := 0, map[], map[], [], 0, map[], 0, map[];
      counts, lastGood, collisions := map[], 1, {};
      new;
      NoTablesConsistent(c);
      CheckedIffStamped(c, T());
    }

    method Create(s: Service, src: Source, time: int, services: set<nat>) returns (n: int)
      modifies this
      ensures n == old(idCount) && T() == Created(c, old(T()), s, src, time, services)
      ensures lastGood == old(lastGood) && collisions == old(collisions)
    {
      n := idCount;
      idCount := idCount + 1;
      info := info[n := AddrInfo(s, src, time, services, 0, 0, 0, 0, 0, false, |random|)];
      addrs := addrs[s := n];
      random := random + [n];
      nNew := nNew + 1;
      counts := Bump(counts, c.network(s), false, 1);
    }

    method SwapRandom(i: nat, j: nat)
      requires i < |random| && j < |random| && random[i] in info && random[j] in info
      modifies this`random, this`info
      ensures T() == Swapped(old(T()), i, j)
    {
      if i == j { return; }
      var a, b := random[i], random[j];
      info := info[a := info[a].(randomPos := j)];
      info := info[b := info[b].(randomPos := i)];
      random := random[i := b];
      random := random[j := a];
    }

    method Delete(n: int)
      requires Positioned(T(), n) && !info[n].inTried && info[n].refCount == 0
      requires Shuffled(info, random)
      modifies this
      ensures T() == Deleted(c, old(T()), n) && lastGood == old(lastGood) && collisions == old(collisions)
    {
      hide Swapped, Shuffled;
      SwapLast(T(), n);
      SwapRandom(info[n].randomPos, |random| - 1);
      var s := info[n].service;
      counts := Bump(counts, c.network(s), false, -1);
      random := random[..|random| - 1];
      addrs := addrs - {s};
      info := info - {n};
      nNew := nNew - 1;
    }

    method ClearNew(slot: Slot)
      requires slot in news ==>
                 Positioned(T(), news[slot]) && info[news[slot]].refCount > 0 && !info[news[slot]].inTried
      requires Shuffled(info, random)
      modifies this
      ensures T() == Cleared(c, old(T()), slot) && lastGood == old(lastGood) && collisions == old(collisions)
    {
      if slot in news {
        hide Deleted, Shuffled;
        DroppedShuffled(T(), slot);
        var n := news[slot];
        info := info[n := info[n].(refCount := info[n].refCount - 1)];
        news := news - {slot};
        if info[n].refCount == 0 { Delete(n); }
      }
    }

    /** The scan in `MakeTried`: it removes every reference. */
    method RemoveFromNew(n: int)
      requires Consistent(c, T()) && n in info && !info[n].inTried
      modifies this`news, this`info
      ensures T() == Unlisted(old(T()), n)
    {
      hide Inv, NewOk, Scanned, Without, Places, Changed, NewSlotIn, Distance, Consistent;
      ConsistentInv(c, T());
      ghost var t := T();
      InvNew(c, t, {}, {});
      var start := c.newBucket(info[n].service, info[n].source) % NEW_BUCKETS;
      var k := 0;
      ScanEnds(c, info, news, n, start, 0);
      RefsInv(c, t, n, {}, {});
      ChangedNot(info, n);
      while k < NEW_BUCKETS
        invariant k <= NEW_BUCKETS && news == Scanned(t.news, n, start, k)
        invariant info == Changed(t.info, n, |Places(news, n)|, false)
      {
        ScanStep(c, t.info, t.news, n, start, k);
        ChangedAt(t.info, n, |Places(news, n)|, false);
        var slot := NewSlotIn(c, info[n].service, (start + k) % NEW_BUCKETS);
        k := k + 1;
        if slot in news && news[slot] == n {
          PlacedAt(news, n, slot);
          news := news - {slot};
          ChangedTwice(t.info, n, info[n].refCount, info[n].refCount - 1);
          info := Changed(info, n, info[n].refCount - 1, info[n].inTried);
          if info[n].refCount == 0 { break; }
        }
      }
      ScanEnds(c, t.info, t.news, n, start, k);
      NoPlaces(news, n);
    }

    /** Make space in the tried table: the entry there goes back to the new table, into its own place,
        and whatever is in that place loses it. */
    method Evict(slot: Slot, ghost zero: set<int>)
      requires Inv(c, T(), zero, zero) && slot in tried && tried[slot] !in zero
      modifies this
      ensures Inv(c, T(), zero, zero) && idCount == old(idCount) && lastGood == old(lastGood)
      ensures collisions == old(collisions)
      ensures Evicted(c, old(T()), T(), slot)
    {
      hide Inv, LeftTried, Entered, Recounted, Cleared, Kept, NoneAdded, Shuffled, Positioned, Evicted, Shrunk;
      ghost var t := T();
      var e := tried[slot];
      EvictFirst(c, t, slot, zero);
      LeftFacts(c, t, slot);
      LeaveTried(slot);
      ghost var left := T();
      var place := NewSlot(c, info[e].service, info[e].source);
      InvShuffled(c, left, zero + {e}, zero + {e});
      ClearEffect(c, left, place);
      KeptAt(left.info, Cleared(c, left, place).info, if place in left.news then {left.news[place]} else {}, e);
      ClearNew(place);
      ghost var u := T();
      EvictSecond(c, t, u, e, zero);
      EvictEffect(c, t, slot, u);
      EnteredFacts(c, u, e, place);
      EnterNew(e, place);
    }

    method LeaveTried(slot: Slot)
      requires slot in tried && tried[slot] in info
      modifies this
      ensures T() == LeftTried(c, old(T()), slot) && lastGood == old(lastGood) && collisions == old(collisions)
    {
      var n := tried[slot];
      info := info[n := info[n].(inTried := false)];
      tried := tried - {slot};
      nTried := nTried - 1;
      counts := Bump(counts, c.network(info[n].service), true, -1);
    }

    method EnterNew(n: int, slot: Slot)
      requires n in info && info[n].refCount == 0
      modifies this
      ensures T() == Recounted(c, Entered(old(T()), n, slot), n) && lastGood == old(lastGood)
      ensures collisions == old(collisions)
    {
      info := info[n := info[n].(refCount := 1)];
      news := news[slot := n];
      nNew := nNew + 1;
      counts := Bump(counts, c.network(info[n].service), false, 1);
    }

    method EnterTried(n: int)
      requires n in info
      modifies this
      ensures T() == EnteredTried(c, old(T()), n) && lastGood == old(lastGood) && collisions == old(collisions)
    {
      tried := tried[TriedSlot(c, info[n].service) := n];
      nTried := nTried + 1;
      info := info[n := info[n].(inTried := true)];
      counts := Bump(counts, c.network(info[n].service), true, 1);
    }

    /** The references of an entry go, and it is no longer counted as new. */
    method LeaveNew(n: int)
      requires Consistent(c, T()) && n in info && !info[n].inTried
      modifies this
      ensures T() == Uncounted(c, Unlisted(old(T()), n), n) && lastGood == old(lastGood)
      ensures collisions == old(collisions)
      ensures Inv(c, T(), {n}, {n})
    {
      hide Inv, Unlisted;
      ConsistentInv(c, T());
      UnlistInv(c, T(), n, {}, {});
      UnlistedFacts(T(), n);
      RemoveFromNew(n);
      assert {} + {n} == {n};
      UncountInv(c, T(), n, {n}, {});
      nNew := nNew - 1;
      counts := Bump(counts, c.network(info[n].service), false, -1);
    }

    method MakeTried(n: int)
      requires Consistent(c, T()) && n in info && !info[n].inTried
      modifies this
      ensures Consistent(c, T()) && lastGood == old(lastGood) && collisions == old(collisions)
      ensures MadeTried(c, old(T()), T(), n)
    {
      hide Inv, Uncounted, Unlisted, Evicted, MadeTried, EnteredTried, Consistent;
      ghost var t := T();
      LeaveNew(n);
      ghost var left := T();
      UnlistedFacts(t, n);
      UncountedFacts(c, t, n);
      var slot := TriedSlot(c, info[n].service);
      if slot in tried {
        TriedAt(c, left, slot, {n}, {n});
        Evict(slot, {n});
        EvictedFacts(c, t, T(), n, slot);
      }
      ghost var space := T();
      EnterTriedInv(c, space, n, {n}, {n});
      EnterTried(n);
      MadeTriedEffect(c, t, space, n);
      assert {n} - {n} == {};
      ConsistentInv(c, T());
    }

    /** The end of `AddSingle`: an entry that is new or may get another reference takes the place if it
        may; otherwise it goes if it has no other. */
    method Place(n: int, slot: Slot, now: int) returns (added: bool)
      requires n in info && !info[n].inTried && info[n].refCount < MAX_REFS
      requires Inv(c, T(), if info[n].refCount == 0 then {n} else {}, {})
      requires slot.bucket < NEW_BUCKETS && slot == NewSlotIn(c, info[n].service, slot.bucket)
      modifies this
      ensures Inv(c, T(), {}, {}) && lastGood == old(lastGood) && collisions == old(collisions)
      ensures tried == old(tried)
      ensures added <==> MayTake(old(T()), n, slot, now)
      ensures added ==> Taken(old(T()), T(), n, slot)
      ensures !added ==>
                Positioned(old(T()), n) &&
                T() == if old(info)[n].refCount == 0 then Deleted(c, old(T()), n) else old(T())
    {
      hide Inv, Entered, Cleared, Deleted, Kept, NoneAdded, Shuffled, Positioned, Taken, Shrunk, NewSlotIn;
      ghost var t := T();
      ghost var zero := if info[n].refCount == 0 then {n} else {};
      Position(c, t, n, zero, {});
      InvShuffled(c, t, zero, {});
      added := slot !in news;
      if slot in news { Placed(c, t, slot, zero, {}); }
      if slot in news && news[slot] == n { return; }
      if slot in news {
        var e := info[news[slot]];
        if IsTerrible(e, now) || (e.refCount > 1 && info[n].refCount == 0) { added := true; }
      }
      if added {
        ClearInv(c, t, slot, zero, {});
        ClearEffect(c, t, slot);
        KeptAt(t.info, Cleared(c, t, slot).info, if slot in t.news then {t.news[slot]} else {}, n);
        ClearNew(slot);
        ghost var u := T();
        EnterInv(c, u, n, slot, zero, {});
        TakenEffect(c, t, u, n, slot);
        assert zero - {n} == {};
        EnterPlace(n, slot);
      } else if info[n].refCount == 0 {
        DeleteInv(c, t, n, zero, {});
        DeleteEffect(c, t, n);
        assert zero - {n} == {};
        Delete(n);
      }
    }

    method EnterPlace(n: int, slot: Slot)
      requires n in info
      modifies this`info, this`news
      ensures T() == Entered(old(T()), n, slot)
    {
      info := info[n := info[n].(refCount := info[n].refCount + 1)];
      news := news[slot := n];
    }

    ghost predicate Valid()
      reads this
    {
      Consistent(c, T()) && idCount >= 0 && Colliding(c, T(), collisions)
    }

    /** Announce an address. */
    method AddSingle(s: Service, src: Source, time: int, services: set<nat>, penalty: int, now: int, later: int,
                     lucky: bool)
      returns (added: bool)
      requires Consistent(c, T()) && idCount >= 0
      modifies this
      ensures Consistent(c, T()) && tried == old(tried) && collisions == old(collisions) && lastGood == old(lastGood)
      ensures AddResult(c, old(T()), T(), s, src, time, services, penalty, now, later, lucky, added)
    {
      hide Inv, Consistent, Created, Deleted, Taken, MayTake, Updated, NewSlot, Positioned;
      ghost var t := T();
      if !c.routable(s) { return false; }
      var pen := if c.itself(s, src) then 0 else penalty;
      var slot := NewSlot(c, s, src);
      NewSlotShape(c, s, src);
      if s in addrs {
        AddressOf(c, t, s);
        var n := addrs[s];
        var e := Refreshed(info[n], time, services, pen, now);
        UpdateInv(c, t, n, e);
        Update(n, e);
        UpdatedFacts(t, n, e);
        ConsistentInv(c, T());
        RefsInv(c, T(), n, {}, {});
        if time <= e.time || e.inTried || e.refCount == MAX_REFS || (e.refCount > 0 && !lucky) { return false; }
        added := Place(n, slot, later);
      } else {
        ConsistentInv(c, t);
        CreateInv(c, t, s, src, Max(0, time - pen), services, {}, {});
        CreatedDeleted(c, t, s, src, Max(0, time - pen), services);
        CreatedFacts(c, t, s, src, Max(0, time - pen), services);
        var n := Create(s, src, Max(0, time - pen), services);
        assert {} + {n} == {n};
        added := Place(n, slot, later);
      }
      ConsistentInv(c, T());
    }

    method Update(n: int, e: AddrInfo)
      modifies this`info
      ensures T() == Updated(old(T()), n, e)
    {
      info := info[n := e];
    }

    /** `Good_`: an address was reached. */
    method MarkGood(s: Service, testBeforeEvict: bool, time: int) returns (moved: bool)
      requires Valid()
      modifies this
      ensures Valid() && lastGood == time
      ensures GoodResult(c, old(T()), T(), old(collisions), collisions, s, testBeforeEvict, time, moved)
    {
      hide Inv, Consistent, MadeTried, Updated, TriedSlot;
      ghost var t := T();
      lastGood := time;
      if s !in addrs { return false; }
      AddressOf(c, t, s);
      var n := addrs[s];
      var e := info[n].(lastSuccess := time, lastTry := time, attempts := 0);
      UpdateInv(c, t, n, e);
      Update(n, e);
      ghost var r := T();
      UpdatedFacts(t, n, e);
      UpdatedColliding(c, t, n, e, collisions);
      if e.inTried { return false; }
      ConsistentInv(c, r);
      RefsInv(c, r, n, {}, {});
      IdBelow(c, r, n);
      if testBeforeEvict && TriedSlot(c, e.service) in tried {
        if |collisions| < MAX_COLLISIONS { collisions := collisions + {n}; }
        return false;
      }
      MakeTried(n);
      MadeTriedColliding(c, r, T(), n, collisions);
      return true;
    }

    /** An address was reached. Nothing is driven out of the tried table, and the check still passes exactly
        if the time is right. */
    method Good(s: Service, time: int) returns (moved: bool)
      requires Valid()
      modifies this
      ensures Valid() && lastGood == time && TriedStays(old(T()), T())
      ensures GoodResult(c, old(T()), T(), old(collisions), collisions, s, true, time, moved)
      ensures old(Checked(c, T())) ==> (Checked(c, T()) <==> GoodTime(c, old(T()), s, true, time))
    {
      hide Consistent, GoodResult, Checked, Stamped, TriedStays, GoodTime, Colliding;
      ghost var t := T();
      ghost var before := collisions;
      if s in addrs { AddressOf(c, t, s); }
      moved := MarkGood(s, true, time);
      GoodKeepsTried(c, t, T(), before, collisions, s, time, moved);
      CheckedIffStamped(c, t);
      CheckedIffStamped(c, T());
      if Stamped(t.info) { GoodStamped(c, t, T(), before, collisions, s, true, time, moved); }
    }

    /** One waiting collision, at time `now`. Since the slot of an entry that still exists is taken, the
        case of a slot that has become free does not arise. */
    method ResolveCollision(n: int, now: int) returns (done: bool)
      requires Valid() && n in collisions
      modifies this
      ensures Valid() && collisions == old(collisions) && OnlyStaleLeft(old(T()), T(), now)
      ensures n !in old(info) ==> done
      ensures now > 0 && old(Stamped(info)) ==> Stamped(info)
    {
      hide Consistent, GoodResult, TriedSlot, OnlyStaleLeft, Stamped, Colliding;
      CollidingAt(c, T(), collisions, n);
      ghost var t := T();
      var replace := false;
      done := true;
      if n in info && c.valid(info[n].service) {
        var slot := TriedSlot(c, info[n].service);
        if slot in tried {
          InSlotTried(c, t, slot);
          var e := info[tried[slot]];
          if now - e.lastSuccess >= REPLACEMENT {
            if now - e.lastTry < REPLACEMENT {
              replace := now - e.lastTry > 60;
            } else {
              replace := now - info[n].lastSuccess > TEST_WINDOW;
            }
            done := replace;
          }
        } else {
          replace := true;
        }
      }
      if replace {
        LinkedAt(c, t, n);
        var s := info[n].service;
        var moved := MarkGood(s, false, now);
        KeepCollisions(c, t, T(), old(collisions), collisions, s, now, moved);
        ReplaceStale(c, t, T(), old(collisions), collisions, s, now, moved);
        if Stamped(t.info) { GoodStamped(c, t, T(), old(collisions), collisions, s, false, now, moved); }
      } else {
        NothingLeft(t, T(), now);
      }
    }

    /** All waiting collisions, the clock read anew for each. */
    method ResolveCollisions(times: nat -> int) returns (rounds: nat)
      requires Valid()
      modifies this
      ensures Valid() && collisions <= old(collisions) && rounds == |old(collisions)|
      ensures OnlyStaleLeftOver(old(T()), T(), times, rounds)
      ensures old(Checked(c, T())) && (forall i: nat :: i < rounds ==> times(i) > 0) ==> Checked(c, T())
    {
      hide Consistent, OnlyStaleLeft, OnlyStaleLeftOver, Stamped, Colliding, Checked;
      NothingLeftYet(T(), times);
      ghost var t := T();
      var rest := collisions;
      rounds := 0;
      while rest != {}
        invariant Valid() && rest <= collisions <= old(collisions) && rounds + |rest| == |old(collisions)|
        invariant OnlyStaleLeftOver(t, T(), times, rounds)
        invariant Stamped(t.info) && (forall i: nat :: i < rounds ==> times(i) > 0) ==> Stamped(info)
        decreases |rest|
      {
        SomeId(rest);
        var n :| n in rest;
        rest := rest - {n};
        ghost var u := T();
        var done := ResolveCollision(n, times(rounds));
        OneMoreRound(t, u, T(), times, rounds);
        rounds := rounds + 1;
        if done {
          FewerColliding(c, T(), collisions, n);
          collisions := collisions - {n};
        }
      }
      CheckedIffStamped(c, t);
      CheckedIffStamped(c, T());
    }

    /** The tried entry that a waiting collision is about, to be tested. Its slot is never empty. */
    method SelectTriedCollision() returns (r: Option<AddrInfo>)
      requires Valid()
      modifies this`collisions
      ensures Valid() && collisions <= old(collisions) && T() == old(T())
      ensures r.Some? ==> collisions == old(collisions) && exists n :: IsCollision(n, r.value)
      ensures r.None? ==>
                || collisions == {}
                || exists n :: n in old(collisions) && n !in info && collisions == old(collisions) - {n}
    {
      hide Consistent, TriedSlot;
      if collisions == {} { return None; }
      SomeId(collisions);
      var n :| n in collisions;
      if n !in info {
        FewerColliding(c, T(), collisions, n);
        collisions := collisions - {n};
        return None;
      }
      var slot := TriedSlot(c, info[n].service);
      InSlotTried(c, T(), slot);
      LinkedAt(c, T(), tried[slot]);
      r := Some(info[tried[slot]]);
      assert IsCollision(n, r.value);
    }

    ghost predicate IsCollision(n: int, e: AddrInfo)
      reads this
    {
      && n in collisions && n in info && e.inTried && TriedSlot(c, e.service) == TriedSlot(c, info[n].service)
      && e.service in addrs && addrs[e.service] in info && e == info[addrs[e.service]]
    }

    /** Announce several addresses. */
    method Add(addresses: seq<Announcement>, src: Source, penalty: int) returns (any: bool)
      requires Valid()
      modifies this
      ensures Valid() && tried == old(tried) && TriedStays(old(T()), T()) && collisions == old(collisions)
      ensures lastGood == old(lastGood)
      ensures old(Checked(c, T())) ==> Checked(c, T())
      ensures idCount >= old(idCount)
    {
      hide Consistent, AddResult, Stamped, Colliding, Checked, TriedStays;
      ghost var start := T();
      any := false;
      for i := 0 to |addresses|
        invariant Valid() && tried == old(tried) && collisions == old(collisions) && lastGood == old(lastGood)
        invariant old(Stamped(info)) ==> Stamped(info)
        invariant idCount >= old(idCount)
      {
        var a := addresses[i];
        ghost var t := T();
        var added := AddSingle(a.service, src, a.time, a.services, penalty, a.now, a.later, a.lucky);
        AddColliding(c, t, T(), a.service, src, a.time, a.services, penalty, a.now, a.later, a.lucky, added,
                     collisions);
        if Stamped(t.info) {
          AddStamped(c, t, T(), a.service, src, a.time, a.services, penalty, a.now, a.later, a.lucky, added);
        }
        any := any || added;
      }
      SameSlotsStay(c, start, T());
      CheckedIffStamped(c, start);
      CheckedIffStamped(c, T());
    }

    /** A change of an entry that the tables do not depend on. */
    method Touch(s: Service, e: AddrInfo)
      requires Valid() && s in addrs && addrs[s] in info
      requires e == info[addrs[s]].(time := e.time, services := e.services, lastTry := e.lastTry,
                                    lastCount := e.lastCount, attempts := e.attempts)
      modifies this`info
      ensures Valid() && T() == Updated(old(T()), addrs[s], e)
      ensures old(Checked(c, T())) ==> (Checked(c, T()) <==> e.lastTry >= 0)
    {
      hide Consistent, Checked, Stamped;
      ghost var t := T();
      UpdateInv(c, t, addrs[s], e);
      UpdatedColliding(c, t, addrs[s], e, collisions);
      Update(addrs[s], e);
      CheckedIffStamped(c, t);
      CheckedIffStamped(c, T());
      if Stamped(t.info) { TouchStamped(t, addrs[s], e); }
    }

    method Attempt(s: Service, countFailure: bool, time: int)
      requires Valid()
      modifies this`info
      ensures Valid()
      ensures s !in addrs ==> info == old(info)
      ensures s in addrs ==> addrs[s] in old(info) && info.Keys == old(info).Keys
      ensures s in addrs ==> forall n :: n in info && n != addrs[s] ==> info[n] == old(info)[n]
      ensures s in addrs ==> var e := old(info)[addrs[s]];
                             info[addrs[s]] == if countFailure && e.lastCount < lastGood
                                               then e.(lastTry := time, lastCount := time, attempts := e.attempts + 1)
                                               else e.(lastTry := time)
      ensures old(Checked(c, T())) ==> (Checked(c, T()) <==> s !in addrs || time >= 0)
    {
      hide Consistent, Colliding, Checked;
      if s !in addrs { return; }
      AddressOf(c, T(), s);
      var e := info[addrs[s]].(lastTry := time);
      if countFailure && e.lastCount < lastGood { e := e.(lastCount := time, attempts := e.attempts + 1); }
      Touch(s, e);
    }

    method Connected(s: Service, time: int)
      requires Valid()
      modifies this`info
      ensures Valid()
      ensures s !in addrs ==> info == old(info)
      ensures s in addrs ==> addrs[s] in old(info) && T() == Updated(old(T()), addrs[s], info[addrs[s]])
      ensures s in addrs ==> var e := old(info)[addrs[s]];
                             info[addrs[s]] == if time - e.time > 20 * 60 then e.(time := time) else e
      ensures old(Checked(c, T())) ==> Checked(c, T())
    {
      hide Consistent, Colliding, Checked, Stamped;
      if s !in addrs { return; }
      AddressOf(c, T(), s);
      TriedSince(c, T(), addrs[s]);
      var e := info[addrs[s]];
      Touch(s, if time - e.time > 20 * 60 then e.(time := time) else e);
    }

    method SetServices(s: Service, services: set<nat>)
      requires Valid()
      modifies this`info
      ensures Valid()
      ensures s !in addrs ==> info == old(info)
      ensures s in addrs ==>
                addrs[s] in old(info) && T() == Updated(old(T()), addrs[s], old(info)[addrs[s]].(services := services))
      ensures old(Checked(c, T())) ==> Checked(c, T())
    {
      hide Consistent, Colliding, Checked, Stamped;
      if s !in addrs { return; }
      AddressOf(c, T(), s);
      TriedSince(c, T(), addrs[s]);
      Touch(s, info[addrs[s]].(services := services));
    }

    /** How many entries there are, on one network or all, in one table or both. */
    method Size(net: Option<Network>, inNew: Option<bool>) returns (n: int)
      requires Consistent(c, T())
      ensures n == |Selected(c, info, net, inNew)|
    {
      hide Consistent;
      SelectedSize(c, T(), net, inNew);
      if net.None? {
        if inNew.Some? { return if inNew.value then nNew else nTried; }
        return |random|;
      }
      if net.value in counts {
        var k := counts[net.value];
        if inNew.Some? { return if inNew.value then k.inNew else k.inTried; }
        return k.inNew + k.inTried;
      }
      return 0;
    }

    /** Hand out entries in a random order, each at most once, and all that are suitable unless the limit
        is reached. */
    method GetAddr(maxAddresses: nat, maxPct: nat, netClass: Service -> Network, net: Option<Network>, filtered: bool,
                   now: int)
      returns (r: seq<AddrInfo>)
      requires Valid()
      modifies this`info, this`random
      ensures Valid() && Reordered(old(T()), T()) && (old(Checked(c, T())) ==> Checked(c, T()))
      ensures |r| <= Limit(|random|, maxAddresses, maxPct)
      ensures forall i :: 0 <= i < |r| ==> Suitable(r[i], netClass, net, filtered, now) && Listed(T(), r[i])
      ensures forall i, j :: 0 <= i < j < |r| ==> r[i].service != r[j].service
      ensures |r| < Limit(|random|, maxAddresses, maxPct) ==>
                forall n :: n in info && Suitable(info[n], netClass, net, filtered, now) ==> info[n] in r
    {
      hide Consistent, Colliding, Swapped, Reordered, Checked, Stamped, Suitable, HandedOut, NoneSkipped, SamePrefix,
           Listed;
      NoneHandedOut(info, random, netClass, net, filtered, now);
      ghost var t := T();
      ReorderedSame(t);
      var limit := Limit(|random|, maxAddresses, maxPct);
      r := [];
      ghost var at: seq<nat> := [];
      var k := 0;
      while k < |random| && |r| < limit
        invariant k <= |random| == |t.random| && |r| <= limit && Consistent(c, T()) && Reordered(t, T())
        invariant HandedOut(info, random, k, r, at) && NoneSkipped(info, random, k, at, netClass, net, filtered, now)
        invariant forall i :: 0 <= i < |r| ==> Suitable(r[i], netClass, net, filtered, now)
      {
        var j: nat :| k <= j < |random|;
        ghost var u := T();
        SwapReordered(c, t, u, k, j);
        SwapRandom(k, j);
        HandedStays(u, T(), k, r, at, netClass, net, filtered, now);
        HandedMore(T(), k, r, at, netClass, net, filtered, now);
        var e := info[random[k]];
        if Suitable(e, netClass, net, filtered, now) {
          r := r + [e];
          at := at + [k];
        }
        k := k + 1;
      }
      HandedListed(c, T(), k, r, at);
      ReorderedColliding(c, t, T(), collisions);
      ReorderedRest(t, T());
      CheckedIffStamped(c, t);
      CheckedIffStamped(c, T());
      if Stamped(t.info) { ReorderedStamped(t, T()); }
      if |r| < limit { HandedAll(c, T(), r, at, netClass, net, filtered, now); }
    }
  }
}
