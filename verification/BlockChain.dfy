/** The tree of blocks with its skip pointers, and the active chain (src/chain.cpp, src/chain.h). */
module BlockChain {
  import opened Positional

  /** `n & (n - 1)`, the number without its lowest binary one. */
  function InvertLowestOne(n: nat): nat {
    if n == 0 then 0 else if n % 2 == 1 then n - 1 else 2 * InvertLowestOne(n / 2)
  }

  function SkipHeight(height: nat): nat {
    if height < 2 then 0
    else if height % 2 == 1 then InvertLowestOne(InvertLowestOne(height - 1)) + 1
    else InvertLowestOne(height)
  }

  /** What is taken away is the largest power of two that divides the number. */
  lemma {:induction false} LowestOne(n: nat) returns (k: nat, odd: nat)
    requires n > 0
    ensures n == Pow(2, k) * odd && odd % 2 == 1 && InvertLowestOne(n) == n - Pow(2, k)
    decreases n
  {
    if n % 2 == 1 {
      k, odd := 0, n;
    } else {
      k, odd := LowestOne(n / 2);
      k := k + 1;
      assert n == 2 * (n / 2);
    }
  }

  lemma {:induction false} InvertSmaller(n: nat)
    ensures n > 0 ==> InvertLowestOne(n) < n
    decreases n
  {
    if n > 0 && n % 2 == 0 { InvertSmaller(n / 2); }
  }

  /** A skip goes strictly down. */
  lemma SkipSmaller(height: nat)
    ensures height > 0 ==> SkipHeight(height) < height
  {
    if height >= 2 {
      InvertSmaller(height);
      InvertSmaller(height - 1);
      InvertSmaller(InvertLowestOne(height - 1));
    }
  }

  class BlockIndex {
    const prev: BlockIndex?
    const height: nat
    const skip: BlockIndex?

    /** A block on top of another, or the genesis block. The skip pointer is set as in `BuildSkip`. */
    constructor (p: BlockIndex?)
      requires p != null ==> Linked(p)
      ensures prev == p && Linked(this) && fresh(this)
      ensures height == if p == null then 0 else p.height + 1
    {
      prev := p;
      var h, s := 0, null;
      if p != null {
        h := p.height + 1;
        SkipSmaller(h);
        s := GetAncestor(p, SkipHeight(h));
      }
      height := h;
      skip := s;
    }
  }

  /** The ancestor at height `h`, found by following the predecessors one by one. */
  ghost function Walk(b: BlockIndex, h: nat): BlockIndex
    decreases b.height
  {
    if b.height <= h || b.prev == null || b.prev.height >= b.height then b else Walk(b.prev, h)
  }

  /** Heights count the blocks below, and each skip pointer leads to the ancestor that it should. */
  ghost predicate Linked(b: BlockIndex)
    decreases b.height
  {
    if b.prev == null then b.height == 0 && b.skip == null
    else b.height == b.prev.height + 1 && Linked(b.prev) && b.skip == Walk(b.prev, SkipHeight(b.height))
  }

  lemma {:induction false} WalkFacts(b: BlockIndex, h: nat)
    requires Linked(b)
    ensures Linked(Walk(b, h)) && Walk(b, h).height == if h < b.height then h else b.height
    decreases b.height
  {
    if h < b.height { WalkFacts(b.prev, h); }
  }

  lemma {:induction false} WalkWalk(b: BlockIndex, h: nat, low: nat)
    requires Linked(b) && low <= h
    ensures Walk(Walk(b, h), low) == Walk(b, low)
    decreases b.height
  {
    if h < b.height { WalkWalk(b.prev, h, low); }
  }

  /** The skip pointer of a block that is not the first. */
  lemma SkipFacts(b: BlockIndex)
    requires Linked(b) && b.height > 0
    ensures b.skip != null && b.skip == Walk(b, SkipHeight(b.height)) && Linked(b.skip)
    ensures b.skip.height == SkipHeight(b.height) < b.height
  {
    SkipSmaller(b.height);
    WalkFacts(b.prev, SkipHeight(b.height));
  }

  /** Following skips where they help gives what following the predecessors gives. */
  method GetAncestor(b: BlockIndex, height: int) returns (r: BlockIndex?)
    requires Linked(b)
    ensures height < 0 || height > b.height ==> r == null
    ensures 0 <= height <= b.height ==> r == Walk(b, height) && r.height == height && Linked(r)
  {
    if height > b.height || height < 0 { return null; }
    var walk: BlockIndex, heightWalk := b, b.height;
    while heightWalk > height
      invariant Linked(walk) && heightWalk == walk.height >= height && Walk(walk, height) == Walk(b, height)
      decreases heightWalk
    {
      var heightSkip, heightSkipPrev := SkipHeight(heightWalk), SkipHeight(heightWalk - 1);
      SkipFacts(walk);
      if walk.skip != null && (heightSkip == height ||
                               (heightSkip > height &&
                               !(heightSkipPrev < heightSkip - 2 && heightSkipPrev >= height))) {
        WalkWalk(walk, heightSkip, height);
        walk, heightWalk := walk.skip, heightSkip;
      } else {
        walk, heightWalk := walk.prev, heightWalk - 1;
      }
    }
    return walk;
  }

  /** The active chain. */
  class Chain {
    var blocks: seq<BlockIndex?>

    /** Every height holds the ancestor of the tip at that height. */
    ghost predicate Valid()
      reads this
    {
      blocks != [] ==>
        var tip := blocks[|blocks| - 1];
        && tip != null && Linked(tip) && tip.height == |blocks| - 1
        && forall h: nat :: h < |blocks| ==> blocks[h] == Walk(tip, h)
    }

    /** Rewrite the chain down to where it meets the old one. */
    method SetTip(b: BlockIndex)
      requires Valid() && Linked(b)
      modifies this
      ensures Valid() && |blocks| == b.height + 1 && blocks[b.height] == b
    {
      ghost var before := blocks;
      var n := b.height + 1;
      var chain := if |blocks| >= n then blocks[..n] else blocks + seq(n - |blocks|, i => null);
      ghost var resized := chain;
      var p: BlockIndex? := b;
      while p != null && chain[p.height] != p
        invariant |chain| == n && (p != null ==> Linked(p) && p.height < n && p == Walk(b, p.height))
        invariant forall h: nat :: h < n && (p == null || h > p.height) ==> chain[h] == Walk(b, h)
        invariant forall h: nat :: p != null && h <= p.height ==> chain[h] == resized[h]
        decreases if p == null then -1 else p.height
      {
        chain := chain[p.height := p];
        if p.prev != null { WalkWalk(b, p.height, p.height - 1); }
        p := p.prev;
      }
      if p != null {
        MeetsOld(before, b, p);
      }
      blocks := chain;
    }

    /** The last block that the chain shares with the ancestors of `b`. */
    method FindFork(b: BlockIndex?) returns (r: BlockIndex?)
      requires Valid() && (b != null ==> Linked(b))
      ensures b == null ==> r == null
      ensures b != null && r != null ==>
                Linked(r) && r.height <= b.height && r.height < |blocks| && r == Walk(b, r.height) == blocks[r.height]
      ensures b != null ==> forall h: nat :: (r == null || h > r.height) && h <= b.height && h < |blocks| ==>
                blocks[h] != Walk(b, h)
    {
      if b == null { return null; }
      r := b;
      if r.height > |blocks| - 1 { r := GetAncestor(r, |blocks| - 1); }
      while r != null && blocks[r.height] != r
        invariant r != null ==> Linked(r) && r.height <= b.height && r.height < |blocks| && r == Walk(b, r.height)
        invariant forall h: nat :: (r == null || h > r.height) && h <= b.height && h < |blocks| ==>
                    blocks[h] != Walk(b, h)
        decreases if r == null then -1 else r.height
      {
        if r.prev != null { WalkWalk(b, r.height, r.height - 1); }
        r := r.prev;
      }
    }
  }

  /** A block of the old chain has its ancestors in the old chain. */
  lemma MeetsOld(before: seq<BlockIndex?>, b: BlockIndex, p: BlockIndex)
    requires before != [] && Linked(b) && p == Walk(b, p.height) && p.height < |before| && before[p.height] == p
    requires before[|before| - 1] != null && Linked(before[|before| - 1])
    requires forall h: nat :: h < |before| ==> before[h] == Walk(before[|before| - 1], h)
    ensures forall h: nat :: h <= p.height ==> before[h] == Walk(b, h)
  {
    forall h: nat | h <= p.height ensures before[h] == Walk(b, h) {
      WalkWalk(before[|before| - 1], p.height, h);
      WalkWalk(b, p.height, h);
    }
  }

  /** The highest block that is an ancestor of both. */
  method LastCommonAncestor(a: BlockIndex, b: BlockIndex) returns (r: BlockIndex)
    requires Linked(a) && Linked(b) && Walk(a, 0) == Walk(b, 0)
    ensures r.height <= a.height && r.height <= b.height && r == Walk(a, r.height) == Walk(b, r.height)
    ensures forall h: nat :: r.height < h <= a.height && h <= b.height ==> Walk(a, h) != Walk(b, h)
  {
    var pa: BlockIndex?, pb: BlockIndex? := a, b;
    if a.height > b.height {
      pa := GetAncestor(a, b.height);
    } else if b.height > a.height {
      pb := GetAncestor(b, a.height);
    }
    while pa != pb && pa != null && pb != null
      invariant pa != null && pb != null && Linked(pa) && Linked(pb) && pa.height == pb.height <= a.height
      invariant pb.height <= b.height
      invariant pa == Walk(a, pa.height) && pb == Walk(b, pb.height)
      invariant forall h: nat :: pa.height < h <= a.height && h <= b.height ==> Walk(a, h) != Walk(b, h)
      decreases pa.height
    {
      NotYet(a, b, pa, pb);
      WalkWalk(a, pa.height, pa.height - 1);
      WalkWalk(b, pb.height, pb.height - 1);
      pa, pb := pa.prev, pb.prev;
    }
    return pa;
  }

  lemma NotYet(a: BlockIndex, b: BlockIndex, pa: BlockIndex, pb: BlockIndex)
    requires Linked(a) && Linked(b) && Walk(a, 0) == Walk(b, 0) && pa.height == pb.height && pa != pb
    requires pa == Walk(a, pa.height) && pb == Walk(b, pb.height)
    ensures pa.height > 0
  {
  }

  // ----- locators

  /** How far the entry after entry `i` of a locator is below it. */
  function LocatorStep(i: nat): nat { if i <= 10 then 1 else Pow(2, i - 10) }

  ghost function LocatorDepth(i: nat): nat { if i == 0 then 0 else LocatorDepth(i - 1) + LocatorStep(i - 1) }

  lemma {:induction false} DepthGrows(i: nat)
    requires i >= 11
    ensures LocatorDepth(i) >= Pow(2, i - 10)
    decreases i
  {
    if i > 11 {
      DepthGrows(i - 1);
    } else {
      FirstEntries(11);
    }
  }

  lemma {:induction false} FirstEntries(i: nat)
    requires i <= 11
    ensures LocatorDepth(i) == i
    decreases i
  {
    if i > 0 { FirstEntries(i - 1); }
  }

  ghost function LocatorHeight(height: nat, i: nat): nat {
    if LocatorDepth(i) < height then height - LocatorDepth(i) else 0
  }

  ghost predicate LocatorOf(b: BlockIndex, have: seq<BlockIndex>) {
    forall i: nat :: i < |have| ==> have[i] == Walk(b, have[i].height) && have[i].height == LocatorHeight(b.height, i)
  }

  lemma LocatorMore(b: BlockIndex, have: seq<BlockIndex>, x: BlockIndex)
    requires LocatorOf(b, have) && x == Walk(b, x.height) && x.height == LocatorHeight(b.height, |have|)
    ensures LocatorOf(b, have + [x])
  {
    hide Walk, LocatorHeight;
    var more := have + [x];
    forall i: nat | i < |more|
      ensures more[i] == Walk(b, more[i].height) && more[i].height == LocatorHeight(b.height, i)
    {
      if i < |have| { assert more[i] == have[i]; }
    }
  }

  lemma NextHeight(height: nat, i: nat)
    ensures LocatorHeight(height, 0) == height && LocatorStep(0) == 1 && LocatorStep(i) >= 1
    ensures LocatorHeight(height, i + 1) ==
            if LocatorHeight(height, i) > LocatorStep(i) then LocatorHeight(height, i) - LocatorStep(i) else 0
    ensures LocatorStep(i + 1) == if i + 1 > 10 then 2 * LocatorStep(i) else LocatorStep(i)
  {
    PowPositive(2, if i <= 10 then 0 else i - 10);
  }

  lemma LocatorShort(height: nat, n: nat)
    requires n >= 13 && LocatorHeight(height, n - 2) > 0
    ensures Pow(2, n - 12) < height
  {
    DepthGrows(n - 2);
  }

  /** Ancestors at exponentially growing distances, from the block itself to the genesis block. Their
      number is logarithmic in the height. */
  method LocatorEntries(b: BlockIndex?) returns (have: seq<BlockIndex>)
    requires b != null ==> Linked(b)
    ensures b == null ==> have == []
    ensures b != null ==> have != [] && have[0] == b && have[|have| - 1].height == 0 && LocatorOf(b, have)
    ensures b != null && |have| >= 13 ==> Pow(2, |have| - 12) < b.height
  {
    have := [];
    if b == null { return; }
    hide LocatorHeight, LocatorStep, LocatorOf, Linked, Walk, Pow;
    assert LocatorOf(b, have) by { NoEntries(b); }
    WalkHere(b);
    NextHeight(b.height, 0);
    var step, index: BlockIndex := 1, b;
    while true
      invariant Linked(index) && index == Walk(b, index.height) && step == LocatorStep(|have|)
      invariant index.height == LocatorHeight(b.height, |have|) && LocatorOf(b, have)
      invariant (have == [] ==> index == b) && (have != [] ==> have[0] == b && LocatorHeight(b.height, |have| - 1) > 0)
      decreases index.height
    {
      NextHeight(b.height, |have|);
      LocatorMore(b, have, index);
      have := have + [index];
      if index.height == 0 { break; }
      var height := if index.height - step > 0 then index.height - step else 0;
      WalkWalk(b, index.height, height);
      index := GetAncestor(index, height);
      if |have| > 10 { step := step * 2; }
    }
    if |have| >= 13 { LocatorShort(b.height, |have|); }
  }

  lemma WalkHere(b: BlockIndex)
    ensures Walk(b, b.height) == b
  {
  }

  lemma NoEntries(b: BlockIndex)
    ensures LocatorOf(b, [])
  {
  }
}
