/** The cuckoo cache (src/cuckoocache.h): a table in which each element has eight possible places, with
    marks for what may be overwritten and for the current epoch. */
module CuckooCache {

  type Element = nat

  const EMPTY: Element := 0
  const HASHES := 8

  /** The first `n` of 2^32 values, evenly: the high half of the product. */
  function FastRange(x: nat, n: nat): nat { x % 0x1_0000_0000 * n / 0x1_0000_0000 }

  lemma Scaled(y: nat, n: nat)
    requires y < 0x1_0000_0000 && n > 0
    ensures y * n < 0x1_0000_0000 * n
  {
    assert (0x1_0000_0000 - y) * n > 0;
  }

  lemma HighHalf(p: nat, n: nat)
    requires p < 0x1_0000_0000 * n
    ensures p / 0x1_0000_0000 < n
  {
  }

  lemma FastRangeBelow(x: nat, n: nat)
    requires n > 0
    ensures FastRange(x, n) < n
  {
    var y := x % 0x1_0000_0000;
    Scaled(y, n);
    HighHalf(y * n, n);
  }

  function Location(hash: (Element, nat) -> nat, e: Element, k: nat, size: nat): nat { FastRange(hash(e, k), size) }

  ghost predicate MayBeAt(hash: (Element, nat) -> nat, e: Element, i: nat, size: nat) {
    exists k: nat :: k < HASHES && Location(hash, e, k, size) == i
  }

  /** Every element stands in one of its places, and nowhere else. */
  ghost predicate Placed(hash: (Element, nat) -> nat, table: seq<Element>) {
    && (forall i: nat :: i < |table| && table[i] != EMPTY ==> MayBeAt(hash, table[i], i, |table|))
    && (forall i: nat, j: nat :: i < j < |table| && table[i] == table[j] ==> table[i] == EMPTY)
  }

  /** The elements that are not marked as erased. */
  ghost function Live(table: seq<Element>, erased: seq<bool>): set<Element>
    requires |erased| == |table|
  {
    set i: nat | i < |table| && !erased[i] :: table[i]
  }

  /** The slots of the current epoch that are not marked as erased. */
  ghost function Current(epoch: seq<bool>, erased: seq<bool>): set<nat>
    requires |epoch| == |erased|
  {
    set i: nat | i < |epoch| && epoch[i] && !erased[i]
  }

  // ----- single changes of the table

  lemma PlaceElement(hash: (Element, nat) -> nat, table: seq<Element>, e: Element, i: nat)
    requires Placed(hash, table) && i < |table| && MayBeAt(hash, e, i, |table|) && (e != EMPTY ==> e !in table)
    ensures Placed(hash, table[i := e]) && (table[i] != EMPTY && table[i] != e ==> table[i] !in table[i := e])
  {
    var t := table[i := e];
    forall a: nat, b: nat | a < b < |t| && t[a] == t[b] ensures t[a] == EMPTY { assert a == i ==> t[b] == table[b]; }
  }

  lemma LiveReplaced(table: seq<Element>, erased: seq<bool>, e: Element, i: nat)
    requires |erased| == |table| && i < |table| && !erased[i]
    ensures Live(table[i := e], erased) + {table[i]} == Live(table, erased) + {e}
  {
    var t := table[i := e];
    forall x ensures x in Live(t, erased) + {table[i]} <==> x in Live(table, erased) + {e} {
      if x in Live(table, erased) && x != table[i] {
        var j: nat :| j < |table| && !erased[j] && table[j] == x;
        assert t[j] == x;
      }
      if x in Live(t, erased) && x != e {
        var j: nat :| j < |t| && !erased[j] && t[j] == x;
        assert table[j] == x;
      }
      assert t[i] == e;
    }
  }

  lemma LiveFilled(table: seq<Element>, erased: seq<bool>, e: Element, i: nat)
    requires |erased| == |table| && i < |table| && erased[i]
    ensures Live(table[i := e], erased[i := false]) == Live(table, erased) + {e}
  {
    var t, m := table[i := e], erased[i := false];
    forall x ensures x in Live(t, m) <==> x in Live(table, erased) + {e} {
      if x in Live(table, erased) {
        var j: nat :| j < |table| && !erased[j] && table[j] == x;
        assert t[j] == x && !m[j];
      }
      if x in Live(t, m) && x != e {
        var j: nat :| j < |t| && !m[j] && t[j] == x;
        assert table[j] == x && !erased[j];
      }
      assert t[i] == e && !m[i];
    }
  }

  lemma LiveKept(table: seq<Element>, erased: seq<bool>, i: nat)
    requires |erased| == |table| && i < |table|
    ensures Live(table, erased[i := false]) == Live(table, erased) + {table[i]}
  {
    if erased[i] {
      LiveFilled(table, erased, table[i], i);
      assert table[i := table[i]] == table;
    } else {
      assert erased[i := false] == erased;
      assert table[i] in Live(table, erased);
    }
  }

  lemma LiveErased(table: seq<Element>, erased: seq<bool>, i: nat)
    requires |erased| == |table| && i < |table|
    requires forall j: nat :: j < |table| && table[j] == table[i] ==> j == i
    ensures Live(table, erased[i := true]) == Live(table, erased) - {table[i]}
  {
    var m := erased[i := true];
    forall x ensures x in Live(table, m) <==> x in Live(table, erased) - {table[i]} {
      if x in Live(table, erased) && x != table[i] {
        var j: nat :| j < |table| && !erased[j] && table[j] == x;
        assert !m[j];
      }
      if x in Live(table, m) {
        var j: nat :| j < |table| && !m[j] && table[j] == x;
        assert j != i && !erased[j];
      }
    }
  }

  // ----- single changes of the epochs

  /** Exchanging the mark of a kept slot with the mark carried along. */
  lemma CurrentSwapped(epoch: seq<bool>, erased: seq<bool>, i: nat, carried: bool)
    requires |epoch| == |erased| && i < |epoch| && !erased[i]
    ensures |Current(epoch[i := carried], erased)| + (if epoch[i] then 1 else 0) ==
              |Current(epoch, erased)| + (if carried then 1 else 0)
  {
    var rest := Current(epoch, erased) - {i};
    assert Current(epoch, erased) == if epoch[i] then rest + {i} else rest;
    assert Current(epoch[i := carried], erased) == if carried then rest + {i} else rest;
  }

  lemma CurrentFilled(epoch: seq<bool>, erased: seq<bool>, i: nat, carried: bool)
    requires |epoch| == |erased| && i < |epoch|
    ensures |Current(epoch[i := carried], erased[i := false])| <= |Current(epoch, erased)| + (if carried then 1 else 0)
    ensures erased[i] ==>
              |Current(epoch[i := carried], erased[i := false])| ==
                |Current(epoch, erased)| + (if carried then 1 else 0)
  {
    var rest := Current(epoch, erased) - {i};
    assert Current(epoch, erased) == if epoch[i] && !erased[i] then rest + {i} else rest;
    assert Current(epoch[i := carried], erased[i := false]) == if carried then rest + {i} else rest;
  }

  lemma CurrentErased(epoch: seq<bool>, erased: seq<bool>, i: nat)
    requires |epoch| == |erased| && i < |epoch|
    ensures |Current(epoch, erased[i := true])| <= |Current(epoch, erased)|
  {
    var less := Current(epoch, erased[i := true]);
    assert Current(epoch, erased) == less + (Current(epoch, erased) - less);
  }

  function Locations(hash: (Element, nat) -> nat, e: Element, size: nat): seq<nat> {
    seq(HASHES, k requires 0 <= k < HASHES => Location(hash, e, k, size))
  }

  lemma LocationsFit(hash: (Element, nat) -> nat, e: Element, size: nat)
    requires size > 0
    ensures forall k :: 0 <= k < HASHES ==>
              Locations(hash, e, size)[k] < size && MayBeAt(hash, e, Locations(hash, e, size)[k], size)
  {
    forall k | 0 <= k < HASHES
      ensures Locations(hash, e, size)[k] < size && MayBeAt(hash, e, Locations(hash, e, size)[k], size)
    {
      FastRangeBelow(hash(e, k), size);
    }
  }

  lemma IsAtLocation(hash: (Element, nat) -> nat, table: seq<Element>, i: nat)
    requires Placed(hash, table) && i < |table| && table[i] != EMPTY
    ensures i in Locations(hash, table[i], |table|)
  {
    assert MayBeAt(hash, table[i], i, |table|);
    var k: nat :| k < HASHES && Location(hash, table[i], k, |table|) == i;
    assert Locations(hash, table[i], |table|)[k] == i;
  }

  /** An element in the table is found in one of its places. */
  lemma FoundIfThere(hash: (Element, nat) -> nat, table: seq<Element>, e: Element)
    requires Placed(hash, table)
    ensures e != EMPTY && e in table ==>
              exists k :: 0 <= k < HASHES && FoundAt(table, Locations(hash, e, |table|), e, k)
  {
    if e != EMPTY && e in table {
      var i: nat :| i < |table| && table[i] == e;
      IsAtLocation(hash, table, i);
      var k :| 0 <= k < HASHES && Locations(hash, e, |table|)[k] == i;
      assert FoundAt(table, Locations(hash, e, |table|), e, k);
    }
  }

  predicate FoundAt(table: seq<Element>, locs: seq<nat>, e: Element, k: nat) {
    k < |locs| && locs[k] < |table| && table[locs[k]] == e
  }

  ghost predicate LosesAtMostOne(full: set<Element>, live: set<Element>) { live <= full && |full - live| <= 1 }

  lemma LosesNone(full: set<Element>, live: set<Element>, carried: Element)
    requires live + {carried} == full
    ensures LosesAtMostOne(full, live) && LosesAtMostOne(full, full)
  {
    assert full - live <= {carried};
    assert full - live == {} || full - live == {carried};
    assert full - full == {};
  }

  function Max(a: int, b: int): int { if a > b then a else b }

  /** How many current elements there can be. */
  function Bound(epochSize: nat): nat { epochSize + Max(1, epochSize / 16) }

  class Cache {
    const hash: (Element, nat) -> nat
    const size: nat
    const depthLimit: nat
    const epochSize: nat
    var table: seq<Element>
    var erased: seq<bool>
    var epoch: seq<bool>
    var counter: nat

    ghost predicate Shaped()
      reads this
    {
      size >= 2 && |table| == |erased| == |epoch| == size && epochSize >= 1
    }

    ghost predicate Valid()
      reads this
    {
      Shaped() && Placed(hash, table) && |Current(epoch, erased)| + counter <= Bound(epochSize)
    }

    /** `setup`. */
    constructor (h: (Element, nat) -> nat, newSize: nat, depth: nat)
      ensures Valid() && size == Max(2, newSize) && hash == h && depthLimit == depth && Live(table, erased) == {}
      ensures epochSize == Max(1, 45 * size / 100) && counter == epochSize
    {
      hash := h;
      var n := Max(2, newSize);
      size := n;
      depthLimit := depth;
      epochSize := Max(1, 45 * n / 100);
      table := seq(n, i => EMPTY);
      erased := seq(n, i => true);
      epoch := seq(n, i => false);
      counter := Max(1, 45 * n / 100);
      new;
      assert Current(epoch, erased) == {};
    }

    /** Whether the epoch check at the next insertion ends the epoch. */
    ghost predicate EpochEnds()
      reads this
      requires Shaped()
    {
      counter == 0 && |Current(epoch, erased)| >= epochSize
    }

    /** The marks after that check: when the epoch ends, what belonged to the one before is erased. */
    ghost function Aged(): (m: seq<bool>)
      reads this
      requires Shaped()
      ensures |m| == size
    {
      if EpochEnds() then seq(size, i requires 0 <= i < size reads this requires Shaped() => erased[i] || !epoch[i])
      else erased
    }

    method EpochCheck()
      requires Valid()
      modifies this`erased, this`epoch, this`counter
      ensures Shaped() && erased == old(Aged()) && |Current(epoch, erased)| + counter + 1 <= Bound(epochSize)
    {
      if counter != 0 {
        counter := counter - 1;
        return;
      }
      var unused, e, m := 0, epoch, erased;
      for i := 0 to size
        invariant unused == |CurrentBelow(e, m, i)| && unchanged(this)
      {
        CurrentBelowStep(e, m, i);
        unused := unused + if e[i] && !m[i] then 1 else 0;
      }
      AllBelow(e, m);
      if unused >= epochSize {
        ghost var aged, e0, m0 := Aged(), e, m;
        for i := 0 to size
          invariant |e| == |m| == size && unchanged(this)
          invariant forall j :: 0 <= j < size ==> e[j] == (j >= i && e0[j]) && m[j] == (m0[j] || (j < i && !e0[j]))
        {
          if e[i] { e := e[i := false]; } else { m := m[i := true]; }
        }
        assert m == aged;
        epoch, erased, counter := e, m, epochSize;
        assert Current(epoch, erased) == {};
      } else {
        counter := Max(1, Max(epochSize / 16, epochSize - unused));
      }
    }

    /** Insert an element. Apart from what the end of an epoch erases, at most one element that was not
        erased is lost, be it another or the new one. */
    method Insert(e: Element)
      requires Valid()
      modifies this
      ensures Valid() && LosesAtMostOne(Live(old(table), old(Aged())) + {e}, Live(table, erased))
    {
      EpochCheck();
      var found := Refresh(e);
      if found { return; }
      Displace(e);
    }

    /** If the element is there, keep it. */
    method Refresh(e: Element) returns (found: bool)
      requires Shaped() && Placed(hash, table) && |Current(epoch, erased)| + counter + 1 <= Bound(epochSize)
      modifies this`erased, this`epoch
      ensures Shaped() && (!found ==> unchanged(this))
      ensures found ==> Valid() && Live(table, erased) == Live(table, old(erased)) + {e}
      ensures e != EMPTY ==> (found <==> e in table)
    {
      var locs := Locations(hash, e, size);
      LocationsFit(hash, e, size);
      for k := 0 to HASHES
        invariant unchanged(this) && forall j :: 0 <= j < k ==> !FoundAt(table, locs, e, j)
      {
        var loc := locs[k];
        if table[loc] == e {
          LiveKept(table, erased, loc);
          CurrentFilled(epoch, erased, loc, true);
          erased := erased[loc := false];
          epoch := epoch[loc := true];
          return true;
        }
      }
      FoundIfThere(hash, table, e);
      return false;
    }

    /** Put an element that is not there into a place that is free, moving others along. */
    method Displace(e: Element)
      requires Shaped() && Placed(hash, table) && |Current(epoch, erased)| + counter + 1 <= Bound(epochSize)
      requires e != EMPTY ==> e !in table
      modifies this`table, this`erased, this`epoch
      ensures Valid() && LosesAtMostOne(Live(old(table), old(erased)) + {e}, Live(table, erased))
    {
      var carried, lastLoc, lastEpoch := e, -1, true;
      ghost var full := Live(table, erased) + {e};
      var depth := 0;
      while depth < depthLimit
        invariant Shaped() && Placed(hash, table) && (carried != EMPTY ==> carried !in table) && counter == old(counter)
        invariant |Current(epoch, erased)| + counter + (if lastEpoch then 1 else 0) <= Bound(epochSize)
        invariant Live(table, erased) + {carried} == full
      {
        var locs := Locations(hash, carried, size);
        LocationsFit(hash, carried, size);
        var k := FirstErased(locs);
        if k < HASHES {
          var loc := locs[k];
          PlaceElement(hash, table, carried, loc);
          LiveFilled(table, erased, carried, loc);
          CurrentFilled(epoch, erased, loc, lastEpoch);
          LosesNone(full, full, carried);
          table := table[loc := carried];
          erased := erased[loc := false];
          epoch := epoch[loc := lastEpoch];
          return;
        }
        k := NextPlace(locs, lastLoc);
        lastLoc := locs[k];
        PlaceElement(hash, table, carried, lastLoc);
        LiveReplaced(table, erased, carried, lastLoc);
        CurrentSwapped(epoch, erased, lastLoc, lastEpoch);
        carried, table := table[lastLoc], table[lastLoc := carried];
        lastEpoch, epoch := epoch[lastLoc], epoch[lastLoc := lastEpoch];
        depth := depth + 1;
      }
      LosesNone(full, Live(table, erased), carried);
    }

    method FirstErased(locs: seq<nat>) returns (k: nat)
      requires Shaped() && |locs| == HASHES && forall j :: 0 <= j < HASHES ==> locs[j] < size
      ensures k <= HASHES && (k < HASHES ==> erased[locs[k]]) && forall j :: 0 <= j < k ==> !erased[locs[j]]
    {
      k := 0;
      while k < HASHES && !erased[locs[k]]
        invariant k <= HASHES && forall j :: 0 <= j < k ==> !erased[locs[j]]
      {
        k := k + 1;
      }
    }

    /** Look an element up, and mark it as erased if wanted. */
    method Contains(e: Element, erase: bool) returns (found: bool)
      requires Valid()
      modifies this`erased
      ensures Valid() && (e != EMPTY ==> (found <==> e in table))
      ensures !(found && erase) ==> erased == old(erased)
      ensures found && erase && e != EMPTY ==> Live(table, erased) == Live(table, old(erased)) - {e}
    {
      var locs := Locations(hash, e, size);
      LocationsFit(hash, e, size);
      for k := 0 to HASHES
        invariant unchanged(this) && forall j :: 0 <= j < k ==> !FoundAt(table, locs, e, j)
      {
        var loc := locs[k];
        if table[loc] == e {
          if erase {
            if e != EMPTY { LiveErased(table, erased, loc); }
            CurrentErased(epoch, erased, loc);
            erased := erased[loc := true];
          }
          return true;
        }
      }
      FoundIfThere(hash, table, e);
      return false;
    }
  }

  method IndexOf(locs: seq<nat>, loc: int) returns (k: nat)
    ensures k <= |locs| && (k < |locs| ==> locs[k] == loc) && forall j :: 0 <= j < k ==> locs[j] != loc
  {
    k := 0;
    while k < |locs| && locs[k] != loc
      invariant k <= |locs| && forall j :: 0 <= j < k ==> locs[j] != loc
    {
      k := k + 1;
    }
  }

  /** The place for the next displacement: the one after the last place, and the second one if there is none
      yet. With different places it is never the last place again. */
  method NextPlace(locs: seq<nat>, lastLoc: int) returns (k: nat)
    requires |locs| == HASHES
    ensures k < HASHES
    ensures lastLoc !in locs ==> k == 1
    ensures forall i :: 0 <= i < HASHES && locs[i] == lastLoc && lastLoc !in locs[..i] ==> k == (i + 1) % HASHES
    ensures (forall i, j :: 0 <= i < j < HASHES ==> locs[i] != locs[j]) ==> locs[k] != lastLoc
  {
    var i := IndexOf(locs, lastLoc);
    k := (1 + i) % HASHES;
  }

  ghost function CurrentBelow(epoch: seq<bool>, erased: seq<bool>, n: nat): set<nat>
    requires |epoch| == |erased|
  {
    set i: nat | i < |epoch| && i < n && epoch[i] && !erased[i]
  }

  lemma CurrentBelowStep(epoch: seq<bool>, erased: seq<bool>, n: nat)
    requires |epoch| == |erased| && n < |epoch|
    ensures |CurrentBelow(epoch, erased, n + 1)| ==
              |CurrentBelow(epoch, erased, n)| + if epoch[n] && !erased[n] then 1 else 0
  {
    assert CurrentBelow(epoch, erased, n + 1) ==
             CurrentBelow(epoch, erased, n) + if epoch[n] && !erased[n] then {n} else {};
  }

  lemma AllBelow(epoch: seq<bool>, erased: seq<bool>)
    requires |epoch| == |erased|
    ensures CurrentBelow(epoch, erased, |epoch|) == Current(epoch, erased)
  {
  }
}
