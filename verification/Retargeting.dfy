/** The target that the next header has to have (`GetNextWorkRequiredNew`, src/pow.cpp), and the check of it
    that headers sync makes from its buffers (`CheckWindowAwareRetarget`, src/headerssync.cpp). */
module Retargeting {
  import opened Options
  import opened Positional
  import opened Limbs
  import opened ArithUint256
  import opened HeaderWindows

  /** The consensus parameters (src/consensus/params.h). The adjustments are in percent. */
  datatype PowParams = PowParams(window: nat, powLimit: seq<nat>, minDifficultyAfter: Option<nat>, spacing: nat,
                                 maxAdjustUp: int, maxAdjustDown: int, auxpowStart: int, noRetargeting: bool,
                                 allowMinDifficulty: bool)

  ghost predicate UsablePow(p: PowParams) {
    0 < p.window < BASE && |p.powLimit| == WIDTH && Fit(p.powLimit) && 0 < Timespan(p) < BASE * BASE
  }

  // ----- single numbers

  /** Division as in C, towards zero. */
  function Truncated(x: int, d: nat): int
    requires d > 0
  {
    if x >= 0 then x / d else -((-x) / d)
  }

  /** The time that a window should take, and the limits to what it counts as. */
  function Timespan(p: PowParams): nat { p.window * p.spacing }

  function MinTimespan(p: PowParams): int { Truncated(Timespan(p) * (100 - p.maxAdjustUp), 100) }

  function MaxTimespan(p: PowParams): int { Truncated(Timespan(p) * (100 + p.maxAdjustDown), 100) }

  /** The time that the window took, damped and limited. */
  function ActualTimespan(p: PowParams, last: int, first: int): int {
    var damped := Timespan(p) + Truncated(last - first - Timespan(p), 4);
    var low := if damped < MinTimespan(p) then MinTimespan(p) else damped;
    if low > MaxTimespan(p) then MaxTimespan(p) else low
  }

  /** What a compact target stands for, as it is stored. */
  ghost function Target(bits: nat): nat { Wrap(Magnitude(bits), WIDTH) }

  ghost function SumTargets(bits: seq<Uint32>): nat {
    if bits == [] then 0 else SumTargets(bits[..|bits| - 1]) + Target(bits[|bits| - 1])
  }

  ghost function Min(a: nat, b: nat): nat { if a < b then a else b }

  /** The next target from the average and the median times at the ends of the window. */
  ghost function NextBits(p: PowParams, average: nat, last: int, first: int): nat
    requires Timespan(p) > 0
  {
    Compact(Min(Wrap(average / Timespan(p) * (ActualTimespan(p, last, first) % BASE), WIDTH), Val(p.powLimit)))
  }

  ghost function Average(p: PowParams, bits: seq<Uint32>): nat
    requires p.window > 0
  {
    Wrap(SumTargets(bits), WIDTH) / p.window
  }

  /** Whether a block may have the lowest difficulty, because it comes late. */
  predicate ComesLate(p: PowParams, height: int, time: int, prevTime: int) {
    p.minDifficultyAfter.Some? && height % BASE >= p.minDifficultyAfter.value && time > prevTime + p.spacing * 6
  }

  // ----- the consensus rule

  ghost function RequiredBits(p: PowParams, chain: seq<Header>, time: int): nat
    requires p.window > 0 && Timespan(p) > 0
  {
    if chain == [] then Compact(Val(p.powLimit))
    else
      var n := |chain| - 1;
      if p.noRetargeting then chain[n].bits
      else if ComesLate(p, n, time, chain[n].time) then Compact(Val(p.powLimit))
      else if |chain| <= p.window then Compact(Val(p.powLimit))
      else NextBits(p, Average(p, LastN(Bits(chain), p.window)), MedianTimePast(chain, n),
                    MedianTimePast(chain, n - p.window))
  }

  // ----- transitions

  /** A target scaled by the square of a percentage, in 256 bits and with a factor of 32 bits. */
  ghost function Scaled(target: nat, percent: int): nat { Wrap(target * (percent * percent % BASE), WIDTH) / 10000 }

  function AtLeastZero(x: int): nat { if x < 0 then 0 else x }

  /** The limits of a step from one target to the next, from the activation height on. */
  ghost function MostTarget(p: PowParams, previous: nat): nat {
    Wrap(Target(Compact(Min(Scaled(previous, 100 + AtLeastZero(p.maxAdjustDown)), Val(p.powLimit)))) + 2, WIDTH)
  }

  ghost function LeastTarget(p: PowParams, previous: nat): nat {
    AtLeastZero(Target(Compact(Scaled(previous, 100 - AtLeastZero(p.maxAdjustUp)))) - 2)
  }

  ghost predicate PermittedStep(p: PowParams, oldBits: Uint32, newBits: Uint32) {
    p.allowMinDifficulty || LeastTarget(p, Target(oldBits)) <= Target(newBits) <= MostTarget(p, Target(oldBits))
  }

  // ----- the check

  /** A target may be off by four, or be a permitted transition. */
  ghost predicate CloseTo(expected: nat, observed: nat) {
    (if expected > 4 then expected - 4 else 0) <= observed <= Wrap(expected + 4, WIDTH)
  }

  ghost predicate RetargetOk(p: PowParams, bits: seq<Uint32>, mtp: seq<int>, prevBits: Uint32, nextBits: Uint32,
                             nextTime: int, prevTime: int, nextHeight: int)
    requires p.window > 0 && Timespan(p) > 0
  {
    if |bits| < p.window || |mtp| < p.window + 1 || nextHeight <= p.auxpowStart + p.window then true
    else if ComesLate(p, nextHeight - 1, nextTime, prevTime) then nextBits == Compact(Val(p.powLimit))
    else
      || CloseTo(Target(NextBits(p, Average(p, bits), mtp[|mtp| - 1], mtp[0])), Target(nextBits))
      || PermittedStep(p, prevBits, nextBits)
  }

  /** Without retargeting the rule asks for the target of the block before, also for a block that comes late.
      The check asks late blocks for the lowest difficulty first. */
  ghost predicate LateUnchanged(p: PowParams, chain: seq<Header>, time: int)
    requires chain != []
  {
    var prev := chain[|chain| - 1];
    && p.noRetargeting && |chain| > p.auxpowStart + p.window && |chain| > p.window
    && ComesLate(p, |chain| - 1, time, prev.time) && prev.bits != Compact(Val(p.powLimit))
  }

  /** What the check says of a header after `chain`, with exact buffers. */
  ghost predicate Accepted(p: PowParams, chain: seq<Header>, h: Header)
    requires p.window > 0 && Timespan(p) > 0 && chain != []
  {
    var prev := chain[|chain| - 1];
    RetargetOk(p, LastN(Bits(chain), p.window), LastN(MedianTimes(chain), p.window + 1), prev.bits, h.bits, h.time,
               prev.time, |chain|)
  }

  /** With exact buffers the check accepts a header that has the target of the consensus rule, except for a
      late one without retargeting. */
  lemma RequiredIsAccepted(p: PowParams, chain: seq<Header>, h: Header)
    requires UsablePow(p) && chain != []
    requires var bits := chain[|chain| - 1].bits; p.noRetargeting ==> PermittedStep(p, bits, bits)
    requires |chain| >= p.auxpowStart ==> h.bits == RequiredBits(p, chain, h.time)
    ensures Accepted(p, chain, h) <==> !LateUnchanged(p, chain, h.time)
  {
    hide Wrap, Top, Val, Magnitude, Compact, Average, ActualTimespan, PermittedStep, Target, CloseTo, MedianTimePast,
         Timespan;
    var n := |chain| - 1;
    if |chain| > p.auxpowStart + p.window && |chain| > p.window && !ComesLate(p, n, h.time, chain[n].time) &&
    !p.noRetargeting {
      var mtp := LastN(MedianTimes(chain), p.window + 1);
      assert mtp[|mtp| - 1] == MedianTimePast(chain, n) && mtp[0] == MedianTimePast(chain, n - p.window);
      NextBitsFit(p, Average(p, LastN(Bits(chain), p.window)), mtp[|mtp| - 1], mtp[0]);
      AlwaysClose(h.bits);
    }
  }

  /** Leaving the target as it is is permitted where everything is, and also as long as the scaling does not
      overflow. */
  lemma SameTargetPermitted(p: PowParams, bits: Uint32)
    requires UsablePow(p)
    requires var percent := 100 + AtLeastZero(p.maxAdjustDown);
             || p.allowMinDifficulty
             || (p.maxAdjustUp <= 200 && percent * percent < BASE && Magnitude(bits) <= Val(p.powLimit) &&
                 Magnitude(bits) * (percent * percent) < Top(WIDTH))
    ensures PermittedStep(p, bits, bits)
  {
    hide Wrap, Top, Val, Magnitude, Compact;
    if !p.allowMinDifficulty {
      ValBelow(p.powLimit);
      NoWrap(Magnitude(bits), WIDTH);
      SameNotAbove(p, bits);
      SameNotBelow(p, bits);
    }
  }

  lemma SameNotAbove(p: PowParams, bits: Uint32)
    requires UsablePow(p) && Magnitude(bits) <= Val(p.powLimit) < Top(WIDTH) && Target(bits) == Magnitude(bits)
    requires var percent := 100 + AtLeastZero(p.maxAdjustDown);
             percent * percent < BASE && Magnitude(bits) * (percent * percent) < Top(WIDTH)
    ensures Target(bits) <= MostTarget(p, Target(bits))
  {
    hide Wrap, Top, Val, Magnitude, Compact, Scaled;
    var percent := 100 + AtLeastZero(p.maxAdjustDown);
    ScaledUp(Target(bits), percent);
    var v := Min(Scaled(Target(bits), percent), Val(p.powLimit));
    CompactLargest(v, bits);
    CompactFits(v);
    RoomAbove(Compact(v));
    NoWrap(Magnitude(Compact(v)), WIDTH);
    NoWrap(Magnitude(Compact(v)) + 2, WIDTH);
  }

  lemma ScaledUp(t: nat, percent: nat)
    requires percent >= 100 && percent * percent < BASE && t * (percent * percent) < Top(WIDTH)
    ensures Scaled(t, percent) >= t
  {
    hide Wrap, Top;
    NoWrap(t * (percent * percent), WIDTH);
    SquareAbove(percent);
    GrowsBy(t, percent * percent);
  }

  lemma SquareAbove(percent: nat)
    requires percent >= 100
    ensures percent * percent >= 10000
  {
  }

  lemma GrowsBy(t: nat, q: nat)
    requires q >= 10000
    ensures t * q / 10000 >= t
  {
    assert t * q == t * (q - 10000) + t * 10000;
  }

  lemma SameNotBelow(p: PowParams, bits: Uint32)
    requires p.maxAdjustUp <= 200 && Magnitude(bits) < Top(WIDTH) && Target(bits) == Magnitude(bits)
    ensures LeastTarget(p, Target(bits)) <= Target(bits)
  {
    hide Wrap, Top, Magnitude, Compact;
    var percent := 100 - AtLeastZero(p.maxAdjustUp);
    SquareBelow(percent);
    WrapAtMost(Magnitude(bits) * (percent * percent % BASE), WIDTH);
    ScaledDown(Magnitude(bits), percent * percent % BASE, Wrap(Magnitude(bits) * (percent * percent % BASE), WIDTH));
    var v := Scaled(Target(bits), percent);
    CompactLargest(v, 0);
    NoWrap(Magnitude(Compact(v)), WIDTH);
  }

  lemma SquareBelow(percent: int)
    requires -100 <= percent <= 100
    ensures 0 <= percent * percent <= 10000
  {
  }

  lemma ScaledDown(t: nat, q: nat, w: nat)
    requires q <= 10000 && w <= t * q
    ensures w / 10000 <= t
  {
    assert t * q == t * 10000 - t * (10000 - q);
  }

  lemma WrapAtMost(v: nat, n: nat)
    ensures Wrap(v, n) <= v
  {
    TopPositive(n);
  }

  lemma NextBitsFit(p: PowParams, average: nat, last: int, first: int)
    requires UsablePow(p)
    ensures NextBits(p, average, last, first) < BASE && Magnitude(NextBits(p, average, last, first)) < Top(WIDTH)
  {
    var v := Min(Wrap(average / Timespan(p) * (ActualTimespan(p, last, first) % BASE), WIDTH), Val(p.powLimit));
    ValBelow(p.powLimit);
    hide Wrap, Val, Top, Magnitude, ActualTimespan;
    CompactFits(v);
    CompactLargest(v, 0);
  }

  /** A target that fits leaves room for the tolerance. */
  lemma AlwaysClose(bits: nat)
    requires bits < BASE && Magnitude(bits) < Top(WIDTH)
    ensures CloseTo(Target(bits), Target(bits))
  {
    hide Top, Magnitude;
    RoomAbove(bits);
    NoWrap(Magnitude(bits), WIDTH);
    NoWrap(Magnitude(bits) + 4, WIDTH);
  }

  lemma RoomAbove(bits: nat)
    requires bits < BASE && Magnitude(bits) < Top(WIDTH)
    ensures Magnitude(bits) + 4 < Top(WIDTH)
  {
    TopBytes();
    PowGrows(256, 3, 32);
    SmallPowers();
    if Size(bits) <= 3 {
      BytesAndBits(3 - Size(bits));
      QuotientSmall(Mantissa(bits), Pow(256, 3 - Size(bits)));
    } else {
      PowAdd(256, 1, Size(bits) - 4);
      PowAdd(256, 1, 31);
      hide Pow, Top;
      MultipleRoom(Mantissa(bits), Pow(256, Size(bits) - 4), Pow(256, 31));
    }
  }

  lemma MultipleRoom(m: nat, p: nat, q: nat)
    requires m * (256 * p) < 256 * q
    ensures m * (256 * p) + 4 < 256 * q
  {
    assert m * (256 * p) == 256 * (m * p);
  }

  /** The parameters of the regression test network, with the rule for late blocks switched on. */
  function LateTestNetwork(): PowParams {
    PowParams(17, seq(WIDTH, i => 0x0f0f_0f0f), Some(0), 60, 0, 0, 0, true, true)
  }

  /** There a late header with the target that the rule requires, below the limit, is rejected. */
  lemma LateUnchangedRejected(g: Header)
    requires g.bits == 0x0101_0000
    ensures var p, chain, h := LateTestNetwork(), seq(18, i => g), g.(time := g.time + 361);
            && UsablePow(p) && h.bits == RequiredBits(p, chain, h.time)
            && Magnitude(h.bits) < Val(p.powLimit) && !Accepted(p, chain, h)
  {
    hide Wrap, Top, Val, Magnitude, Compact, RetargetOk;
    var p, chain, h := LateTestNetwork(), seq(18, i => g), g.(time := g.time + 361);
    FirstLimb(p.powLimit);
    assert Word(1, 0x1_0000) == 0x0101_0000 && Word(1, 0x2_0000) == 0x0102_0000;
    MagnitudeSmall(1, 0x1_0000);
    MagnitudeSmall(1, 0x2_0000);
    CompactLargest(Val(p.powLimit), 0x0102_0000);
    RequiredIsAccepted(p, chain, h);
  }

  lemma {:induction false} FirstLimb(p: seq<nat>)
    requires p != []
    ensures Val(p) >= p[0]
    decreases |p|
  {
    if |p| > 1 { FirstLimb(p[..|p| - 1]); }
  }

  // ----- the code

  /** The number from 64 bits. */
  function FromUint64(x: nat): seq<nat> { seq(WIDTH, i => if i == 0 then x % BASE else if i == 1 then x / BASE else 0) }

  lemma FromUint64Value(x: nat)
    requires x < BASE * BASE
    ensures Fit(FromUint64(x)) && Val(FromUint64(x)) == x
  {
    var p := FromUint64(x);
    assert p == p[..2] + p[2..];
    ValConcat(p[..2], p[2..]);
    ValZero(p[2..]);
    ValPrefix(p, 1);
    ValPrefix(p, 0);
    assert p[..0] == [] && Top(0) == 1 && Top(1) == BASE;
  }

  /** The sum of the targets, limb by limb. */
  method TotalTarget(bits: seq<Uint32>) returns (total: seq<nat>)
    ensures |total| == WIDTH && Fit(total) && Val(total) == Wrap(SumTargets(bits), WIDTH)
  {
    hide Val, Top, Wrap, Magnitude;
    total := Single(0);
    SingleValue(0);
    TopPositive(WIDTH);
    NoWrap(0, WIDTH);
    for i := 0 to |bits|
      invariant |total| == WIDTH && Fit(total) && Val(total) == Wrap(SumTargets(bits[..i]), WIDTH)
    {
      var t, negative, overflow := SetCompact(bits[i]);
      assert bits[..i + 1][..i] == bits[..i];
      WrapAdd(Target(bits[i]), SumTargets(bits[..i]), WIDTH);
      total := Add(total, t);
    }
    assert bits[..|bits|] == bits;
  }

  method CalculateNextWorkRequired(p: PowParams, average: seq<nat>, last: int, first: int) returns (bits: Uint32)
    requires UsablePow(p) && |average| == WIDTH && Fit(average)
    ensures bits == NextBits(p, Val(average), last, first)
  {
    hide Val, Top, Wrap, Magnitude, Compact, ActualTimespan;
    var actual := ActualTimespan(p, last, first);
    FromUint64Value(Timespan(p));
    var quotient := Div(average, FromUint64(Timespan(p)));
    var next := MulSmall(quotient.value, actual % BASE);
    var cmp := CompareTo(next, p.powLimit);
    if cmp > 0 { next := p.powLimit; }
    bits := GetCompact(next, false);
  }

  /** The rule, walking back from the last block. */
  method GetNextWorkRequiredNew(p: PowParams, chain: seq<Header>, time: int) returns (bits: Uint32)
    requires UsablePow(p)
    ensures bits == RequiredBits(p, chain, time)
  {
    hide Val, Top, Wrap, Magnitude, Compact, NextBits, MedianTimePast, Timespan;
    var limit := GetCompact(p.powLimit, false);
    if chain == [] { return limit; }
    var n := |chain| - 1;
    if p.noRetargeting { return chain[n].bits; }
    if ComesLate(p, n, time, chain[n].time) { return limit; }
    var total, first, i := Single(0), n, 0;
    SingleValue(0);
    TopPositive(WIDTH);
    NoWrap(0, WIDTH);
    assert Bits(chain)[n + 1..] == [];
    while first >= 0 && i < p.window
      invariant -1 <= first == n - i && 0 <= i <= p.window && |total| == WIDTH && Fit(total)
      invariant Val(total) == Wrap(SumTargets(Bits(chain)[first + 1..]), WIDTH)
    {
      var t, negative, overflow := SetCompact(chain[first].bits);
      WrapAdd(Target(chain[first].bits), SumTargets(Bits(chain)[first + 1..]), WIDTH);
      SumFront(Bits(chain), first);
      total := Add(total, t);
      first, i := first - 1, i + 1;
    }
    if first < 0 { return limit; }
    assert Bits(chain)[first + 1..] == LastN(Bits(chain), p.window);
    SingleValue(p.window);
    var average := Div(total, Single(p.window));
    bits := CalculateNextWorkRequired(p, average.value, MedianTimePast(chain, n), MedianTimePast(chain, first));
  }

  lemma {:induction false} SumFront(bits: seq<Uint32>, i: nat)
    requires i < |bits|
    ensures SumTargets(bits[i..]) == Target(bits[i]) + SumTargets(bits[i + 1..])
    decreases |bits|
  {
    hide Target;
    var n := |bits| - 1;
    if i < n {
      SumFront(bits[..n], i);
      assert bits[i..][..n - i] == bits[..n][i..] && bits[i + 1..][..n - i - 1] == bits[..n][i + 1..];
    } else {
      assert bits[i..][..0] == [] && bits[i + 1..] == [];
    }
  }

  method CheckWindowAwareRetarget(p: PowParams, recent: seq<Uint32>, mtp: seq<int>, prevBits: Uint32, nextBits: Uint32,
                                  nextTime: int, prevTime: int, nextHeight: int)
    returns (ok: bool)
    requires UsablePow(p)
    ensures ok == RetargetOk(p, recent, mtp, prevBits, nextBits, nextTime, prevTime, nextHeight)
  {
    hide Val, Top, Wrap, Magnitude, Compact, NextBits;
    if |recent| < p.window || |mtp| < p.window + 1 { return true; }
    if nextHeight <= p.auxpowStart + p.window { return true; }
    if ComesLate(p, nextHeight - 1, nextTime, prevTime) {
      var limit := GetCompact(p.powLimit, false);
      return nextBits == limit;
    }
    var total := TotalTarget(recent);
    SingleValue(p.window);
    var average := Div(total, Single(p.window));
    var bits := CalculateNextWorkRequired(p, average.value, mtp[|mtp| - 1], mtp[0]);
    var expected, n1, o1 := SetCompact(bits);
    var observed, n2, o2 := SetCompact(nextBits);
    ok := Close(expected, observed);
    if !ok { ok := PermittedDifficultyTransition(p, prevBits, nextBits); }
  }

  /** The check of a single transition, from the activation height on, limb by limb. */
  method PermittedDifficultyTransition(p: PowParams, oldBits: Uint32, newBits: Uint32) returns (ok: bool)
    requires UsablePow(p)
    ensures ok == PermittedStep(p, oldBits, newBits)
  {
    hide Val, Top, Wrap, Magnitude, Compact;
    if p.allowMinDifficulty { return true; }
    var previous, n1, o1 := SetCompact(oldBits);
    var next, n2, o2 := SetCompact(newBits);
    var largest := Scale(previous, 100 + AtLeastZero(p.maxAdjustDown));
    var cmp := CompareTo(largest, p.powLimit);
    if cmp > 0 { largest := p.powLimit; }
    var smallest := Scale(previous, 100 - AtLeastZero(p.maxAdjustUp));
    var most := Rounded(largest);
    SingleValue(2);
    most := Add(most, Single(2));
    var least := Rounded(smallest);
    least := LessTwo(least);
    var low := CompareTo(next, least);
    var high := CompareTo(next, most);
    return low >= 0 && high <= 0;
  }

  method Scale(target: seq<nat>, percent: int) returns (r: seq<nat>)
    requires |target| == WIDTH && Fit(target)
    ensures |r| == WIDTH && Fit(r) && Val(r) == Scaled(Val(target), percent)
  {
    hide Val, Top, Wrap;
    var product := MulSmall(target, percent * percent % BASE);
    SingleValue(10000);
    var quotient := Div(product, Single(10000));
    return quotient.value;
  }

  /** The target after a trip through its compact form. */
  method Rounded(target: seq<nat>) returns (r: seq<nat>)
    requires |target| == WIDTH && Fit(target)
    ensures |r| == WIDTH && Fit(r) && Val(r) == Target(Compact(Val(target)))
  {
    hide Val, Top, Wrap, Magnitude, Compact;
    var bits := GetCompact(target, false);
    var t, negative, overflow := SetCompact(bits);
    return t;
  }

  method LessTwo(target: seq<nat>) returns (r: seq<nat>)
    requires |target| == WIDTH && Fit(target)
    ensures |r| == WIDTH && Fit(r) && Val(r) == AtLeastZero(Val(target) - 2)
  {
    hide Val, Top, Wrap;
    SingleValue(0);
    SingleValue(1);
    SingleValue(2);
    ValBelow(target);
    r := target;
    var one := CompareTo(target, Single(1));
    var zero := CompareTo(target, Single(0));
    if one > 0 {
      NoWrap(Val(target) - 2, WIDTH);
      r := Sub(target, Single(2));
    } else if zero > 0 {
      NoWrap(Val(target) - 1, WIDTH);
      r := Sub(target, Single(1));
    }
  }

  /** The tolerance of four, limb by limb. */
  method Close(expected: seq<nat>, observed: seq<nat>) returns (ok: bool)
    requires |expected| == |observed| == WIDTH && Fit(expected) && Fit(observed)
    ensures ok == CloseTo(Val(expected), Val(observed))
  {
    hide Val, Top, Wrap;
    var slack := Single(4);
    SingleValue(4);
    SingleValue(0);
    var least := Single(0);
    var cmp := CompareTo(expected, slack);
    if cmp > 0 {
      ValBelow(expected);
      NoWrap(Val(expected) - 4, WIDTH);
      least := Sub(expected, slack);
    }
    var most := Add(expected, slack);
    var low := CompareTo(observed, least);
    var high := CompareTo(observed, most);
    return low >= 0 && high <= 0;
  }
}
