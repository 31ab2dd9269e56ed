/** Shifts, the number of bits and long division of numbers in limbs (src/arith_uint256.cpp). */
module LimbShifts {
  import opened Positional
  import opened Limbs

  /** Bitwise or. */
  function Or(x: nat, y: nat): nat
    decreases x
  {
    if x == 0 then y else 2 * Or(x / 2, y / 2) + (if x % 2 == 1 || y % 2 == 1 then 1 else 0)
  }

  /** Of a number below a power of two and a multiple of that power it is the sum. */
  lemma {:induction false} OrIsSum(x: nat, h: nat, s: nat)
    requires x < Pow(2, s)
    ensures Or(x, h * Pow(2, s)) == x + h * Pow(2, s)
    decreases s
  {
    if x > 0 && s > 0 {
      var p := Pow(2, s - 1);
      assert h * Pow(2, s) == 2 * (h * p);
      OrIsSum(x / 2, h, s - 1);
    }
  }

  lemma {:induction false} OrIsSumToo(h: nat, s: nat, x: nat)
    requires x < Pow(2, s)
    ensures Or(h * Pow(2, s), x) == h * Pow(2, s) + x
    decreases s
  {
    var p := Pow(2, s);
    if h * p > 0 && s > 0 {
      var half := Pow(2, s - 1);
      assert h * p == 2 * (h * half);
      OrIsSumToo(h, s - 1, x / 2);
    } else if s == 0 {
      OrNothing(h * p);
    }
  }

  lemma {:induction false} OrNothing(x: nat)
    ensures Or(x, 0) == x
    decreases x
  {
    if x > 0 { OrNothing(x / 2); }
  }

  // ----- powers of two and limbs

  lemma BaseIsPower()
    ensures Pow(2, 32) == BASE
  {
    assert Pow(2, 8) == 256;
    PowAdd(2, 8, 8);
    PowAdd(2, 16, 16);
  }

  lemma PowerOfShift(k: nat, s: nat)
    ensures Pow(2, 32 * k + s) == Pow(2, s) * Top(k)
  {
    BaseIsPower();
    PowTimes(2, 32, k);
    PowAdd(2, 32 * k, s);
  }

  lemma Complement(s: nat)
    requires s <= 32
    ensures Pow(2, s) * Pow(2, 32 - s) == BASE && Pow(2, s) > 0 && Pow(2, 32 - s) > 0
  {
    BaseIsPower();
    PowAdd(2, s, 32 - s);
    PowPositive(2, s);
    PowPositive(2, 32 - s);
  }

  /** A limb shifted left: what stays and what moves into the next. */
  lemma LimbLeft(x: nat, s: nat, p: nat, c: nat)
    requires x < BASE && s < 32 && p == Pow(2, s) && c == Pow(2, 32 - s)
    ensures c > 0 && x * p % BASE == x % c * p && x / c < p && x * p % BASE + x / c * BASE == x * p
  {
    Complement(s);
    hide Pow;
    Split(x, c);
    Split(x * p, BASE);
    QuotientBelow(x, c, p);
    LeftParts(x, x / c, x % c, c, p, x * p, x * p / BASE, x * p % BASE);
  }

  lemma LeftParts(x: nat, q: nat, r: nat, c: nat, p: nat, y: nat, high: nat, low: nat)
    requires x == q * c + r && r < c && p * c == BASE && p > 0 && y == x * p && y == high * BASE + low && low < BASE
    ensures low == r * p && high == q && low + q * BASE == y
  {
    LeftAlgebra(x, q, r, c, p, BASE);
    SmallerRemainder(r, c, p);
    SameQuotient(high, low, q, r * p, BASE);
  }

  lemma QuotientBelow(x: nat, c: nat, p: nat)
    requires c > 0 && x < p * c
    ensures x / c < p
  {
    Split(x, c);
    TimesOrder(x / c, p, c);
    TimesOrder(p - 1, x / c, c);
    assert (p - 1) * c + c == p * c;
  }

  lemma LeftAlgebra(x: nat, q: nat, r: nat, c: nat, p: nat, b: nat)
    requires p * c == b && x == q * c + r
    ensures x * p == q * b + r * p
  {
    assert q * c * p == q * (p * c);
    assert (q * c + r) * p == q * c * p + r * p;
  }

  lemma SmallerRemainder(r: nat, c: nat, p: nat)
    requires r < c && p > 0
    ensures r * p < p * c
  {
    assert (r + 1) * p <= c * p;
  }

  lemma AddAt(r: seq<nat>, j: nat, x: nat)
    requires j < |r|
    ensures Val(r[j := r[j] + x]) == Val(r) + x * Top(j)
  {
    ValSet(r, j, r[j] + x);
  }

  /** Low and high part into limbs `j` and `j + 1`, as far as they exist. */
  ghost function LeftPut(r: seq<nat>, j: nat, low: nat, high: nat): seq<nat> {
    var u := if j + 1 < |r| then r[j + 1 := r[j + 1] + high] else r;
    if j < |u| then u[j := u[j] + low] else u
  }

  ghost function LeftLost(n: nat, j: nat, low: nat, high: nat): nat {
    if j + 1 < n then 0 else if j < n then high else (low + high * BASE) * Top(j - n)
  }

  lemma LeftPutInside(r: seq<nat>, j: nat, low: nat, high: nat)
    requires j < |r|
    ensures |LeftPut(r, j, low, high)| == |r|
    ensures Val(LeftPut(r, j, low, high)) == Val(r) + low * Top(j) + if j + 1 < |r| then high * Top(j + 1) else 0
  {
    hide Val, Top;
    var u := if j + 1 < |r| then r[j + 1 := r[j + 1] + high] else r;
    if j + 1 < |r| { AddAt(r, j + 1, high); }
    AddAt(u, j, low);
  }

  lemma LeftPutValue(r: seq<nat>, j: nat, low: nat, high: nat)
    ensures |LeftPut(r, j, low, high)| == |r|
    ensures Val(LeftPut(r, j, low, high)) + LeftLost(|r|, j, low, high) * Top(|r|) ==
              Val(r) + (low + high * BASE) * Top(j)
  {
    hide Val, Top;
    TopPositive(j);
    if j < |r| {
      LeftPutInside(r, j, low, high);
      hide LeftPut;
      HighLow(low, high, Top(j));
    } else {
      TopAdd(j - |r|, |r|);
      hide LeftPut;
      Outside(r, j, low, high);
      Associate3(low + high * BASE, Top(j - |r|), Top(|r|));
    }
  }

  lemma Outside(r: seq<nat>, j: nat, low: nat, high: nat)
    requires j >= |r|
    ensures LeftPut(r, j, low, high) == r
  {
  }

  lemma HighLow(low: int, high: int, t: int)
    ensures (low + high * BASE) * t == low * t + high * (BASE * t)
  {
  }

  lemma Associate3(x: int, t: int, u: int)
    ensures x * t * u == x * (t * u)
  {
  }

  /** One limb of a left shift. Limb `j` holds what the limb before has moved up, and all above is zero. */
  method LeftLimb(r: seq<nat>, x: nat, j: nat, s: nat) returns (u: seq<nat>, ghost lost: nat)
    requires Fit(r) && x < BASE && s < 32 && (j < |r| ==> r[j] < Pow(2, s)) && forall m :: j < m < |r| ==> r[m] == 0
    ensures |u| == |r| && Fit(u) && (j + 1 < |u| ==> u[j + 1] < Pow(2, s)) && forall m :: j + 1 < m < |u| ==> u[m] == 0
    ensures Val(u) + lost * Top(|r|) == Val(r) + x * Pow(2, s) * Top(j)
  {
    hide Val, Top, Pow;
    var p, c := Pow(2, s), Pow(2, 32 - s);
    LimbLeft(x, s, p, c);
    Complement(s);
    var high, low := x / c, x * p % BASE;
    u := r;
    if j + 1 < |r| && s != 0 {
      u := u[j + 1 := Or(u[j + 1], high)];
    }
    if j < |r| {
      LowPart(r[j], x % c, c, p, s);
      u := u[j := Or(u[j], low)];
    }
    NoHigh(x, s, c);
    assert u == LeftPut(r, j, low, high);
    lost := LeftLost(|r|, j, low, high);
    LeftPutValue(r, j, low, high);
  }

  lemma LowPart(y: nat, h: nat, c: nat, p: nat, s: nat)
    requires y < p && p == Pow(2, s) && h < c && p * c == BASE
    ensures Or(y, h * p) == y + h * p < BASE
  {
    OrIsSum(y, h, s);
    SmallerRemainder(h, c, p);
    assert h * p + p <= p * c by { TimesOrder(h, c, p); }
  }

  lemma NoHigh(x: nat, s: nat, c: nat)
    requires x < BASE && s <= 32 && c == Pow(2, 32 - s)
    ensures c > 0 && (s == 0 ==> x / c == 0)
  {
    Complement(s);
    BaseIsPower();
  }

  method ShiftLeft(a: seq<nat>, shift: nat) returns (r: seq<nat>)
    requires Fit(a)
    ensures |r| == |a| && Fit(r) && Val(r) == Wrap(Val(a) * Pow(2, shift), |a|)
  {
    hide Val, Top, Wrap, Pow;
    var k, s := shift / 32, shift % 32;
    r := seq(|a|, i => 0);
    ghost var lost := 0;
    ValZero(r);
    Nothing(a, a, a);
    Complement(s);
    for i := 0 to |a|
      invariant |r| == |a| && Fit(r) && (i + k < |r| ==> r[i + k] < Pow(2, s))
      invariant forall m :: i + k < m < |r| ==> r[m] == 0
      invariant Val(r) + lost * Top(|a|) == Val(a[..i]) * Pow(2, s) * Top(k)
    {
      ghost var before, more := Val(r), 0;
      r, more := LeftLimb(r, a[i], i + k, s);
      ValPrefix(a, i);
      TopAdd(i, k);
      LeftSum(before, lost, Val(r), more, Val(a[..i]), a[i], Pow(2, s), Top(i), Top(k), Top(i + k), Top(|a|));
      lost := lost + more;
    }
    Whole(a, a, r);
    PowerOfShift(k, s);
    Associate3(Val(a), Pow(2, s), Top(k));
    ValBelow(r);
    Reduced(Val(r), Val(a) * Pow(2, shift), lost, |a|);
  }

  lemma LeftSum(b: int, lost: int, r: int, more: int, v: int, x: int, p: int, ti: int, tk: int, t: int, top: int)
    requires b + lost * top == v * p * tk && r + more * top == b + x * p * t && t == ti * tk
    ensures r + (lost + more) * top == (v + x * ti) * p * tk
  {
    assert (lost + more) * top == lost * top + more * top;
    assert (v + x * ti) * p * tk == v * p * tk + x * p * (ti * tk);
  }

  // ----- right

  /** A limb shifted right: what stays and what moves into the one before. */
  lemma LimbRight(x: nat, s: nat, p: nat, c: nat)
    requires x < BASE && s < 32 && p == Pow(2, s) && c == Pow(2, 32 - s)
    ensures p > 0 && x / p < c && x == x / p * p + x % p && x % p < p && x * c % BASE == x % p * c < BASE
  {
    Complement(s);
    hide Pow;
    Split(x, p);
    assert c * p == BASE;
    QuotientBelow(x, p, c);
    var q, r, y := x / p, x % p, x * c;
    Split(y, BASE);
    var high, low := y / BASE, y % BASE;
    LeftParts(x, q, r, p, c, y, high, low);
  }

  /** The high part of a limb, and its low part moved to the top of the limb before. */
  ghost function High(x: nat, s: nat): nat {
    PowPositive(2, s);
    x / Pow(2, s)
  }

  ghost function Low(x: nat, s: nat): nat
    requires s <= 32
  {
    PowPositive(2, s);
    x % Pow(2, s) * Pow(2, 32 - s)
  }

  /** High part into limb `j`, low part at the top of the limb before. */
  ghost function RightPut(r: seq<nat>, j: int, high: nat, low: nat): seq<nat> {
    var u := if 0 <= j - 1 < |r| then r[j - 1 := r[j - 1] + low] else r;
    if 0 <= j < |u| then u[j := u[j] + high] else u
  }

  lemma RightPutValue(r: seq<nat>, j: int, high: nat, low: nat)
    requires j < |r|
    ensures |RightPut(r, j, high, low)| == |r|
    ensures Val(RightPut(r, j, high, low)) ==
              Val(r) + (if j >= 0 then high * Top(j) else 0) + if j >= 1 then low * Top(j - 1) else 0
  {
    hide Val, Top;
    var u := if 0 <= j - 1 < |r| then r[j - 1 := r[j - 1] + low] else r;
    if j >= 1 { AddAt(r, j - 1, low); }
    if j >= 0 { AddAt(u, j, high); }
  }

  /** One limb of a right shift. Limb `j - 1` holds the high part of the limb before, and all from `j` on is
      zero. */
  method RightLimb(r: seq<nat>, x: nat, j: int, s: nat) returns (u: seq<nat>)
    requires Fit(r) && x < BASE && s < 32 && j < |r| && (j >= 1 ==> r[j - 1] < Pow(2, 32 - s))
    requires forall m :: 0 <= m < |r| && j <= m ==> r[m] == 0
    ensures |u| == |r| && Fit(u) && (j >= 0 ==> u[j] < Pow(2, 32 - s))
    ensures forall m :: 0 <= m < |u| && j < m ==> u[m] == 0
    ensures u == RightPut(r, j, High(x, s), Low(x, s))
  {
    hide Val, Top, Pow;
    var p, c := Pow(2, s), Pow(2, 32 - s);
    LimbRight(x, s, p, c);
    Complement(s);
    u := r;
    if j - 1 >= 0 && s != 0 {
      LowPart(r[j - 1], x % p, p, c, 32 - s);
      u := u[j - 1 := Or(u[j - 1], x * c % BASE)];
    }
    if j >= 0 {
      u := u[j := Or(u[j], x / p)];
    }
    NoLow(x, s, p);
  }

  lemma NoLow(x: nat, s: nat, p: nat)
    requires p == Pow(2, s)
    ensures p > 0 && (s == 0 ==> x % p == 0)
  {
    PowPositive(2, s);
  }

  /** What has been shifted so far, and what falls off the end. */
  ghost predicate ShiftedRight(a: seq<nat>, i: nat, r: seq<nat>, rem: nat, k: nat, p: nat) {
    && i <= |a| && Val(a[..i]) == Val(r) * (p * Top(k)) + rem
    && (if i <= k then rem < Top(i) && Val(r) == 0 else rem < p * Top(k))
  }

  lemma RightBefore(a: seq<nat>, i: nat, r: seq<nat>, rem: nat, k: nat, p: nat)
    requires i < |a| && i < k && Fit(a) && ShiftedRight(a, i, r, rem, k, p)
    ensures ShiftedRight(a, i + 1, r, rem + a[i] * Top(i), k, p)
  {
    hide Val;
    ValPrefix(a, i);
    TopPositive(i);
    hide Top;
    BelowNext(rem, a[i], Top(i));
    assert Val(r) * (p * Top(k)) == 0;
  }

  lemma RightFirst(a: seq<nat>, r: seq<nat>, rem: nat, k: nat, p: nat, u: seq<nat>)
    requires k < |a| && p > 0 && ShiftedRight(a, k, r, rem, k, p) && Val(u) == Val(r) + a[k] / p * Top(0)
    ensures ShiftedRight(a, k + 1, u, rem + a[k] % p * Top(k), k, p)
  {
    hide Val;
    ValPrefix(a, k);
    TopPositive(k);
    TopPositive(0);
    hide Top;
    Split(a[k], p);
    FirstAlgebra(a[k], a[k] / p, a[k] % p, p, Top(k), rem);
  }

  lemma FirstAlgebra(x: nat, high: nat, low: nat, p: nat, t: nat, rem: nat)
    requires x == high * p + low && low < p && rem < t
    ensures rem + x * t == high * (p * t) + (rem + low * t) && rem + low * t < p * t
  {
    assert (high * p + low) * t == high * (p * t) + low * t;
    assert (low + 1) * t <= p * t;
  }

  lemma RightLater(a: seq<nat>, i: nat, r: seq<nat>, rem: nat, k: nat, p: nat, c: nat, u: seq<nat>)
    requires k < i < |a| && p > 0 && p * c == BASE && ShiftedRight(a, i, r, rem, k, p)
    requires Val(u) == Val(r) + a[i] / p * Top(i - k) + a[i] % p * c * Top(i - k - 1)
    ensures ShiftedRight(a, i + 1, u, rem, k, p)
  {
    hide Val;
    ValPrefix(a, i);
    TopAdd(i - k, k);
    TopPositive(i - k - 1);
    hide Top;
    Split(a[i], p);
    LaterAlgebra(a[i], a[i] / p, a[i] % p, p, c, Top(i - k), Top(i - k - 1), Top(k), Top(i));
    AddTimes(Val(r), a[i] / p * Top(i - k), a[i] % p * c * Top(i - k - 1), p * Top(k));
  }

  lemma LaterAlgebra(x: nat, high: nat, low: nat, p: nat, c: nat, tj: nat, tj': nat, tk: nat, t: nat)
    requires x == high * p + low && p * c == BASE && tj == BASE * tj' && t == tj * tk
    ensures x * t == high * tj * (p * tk) + low * c * tj' * (p * tk)
  {
    assert high * tj * (p * tk) == high * p * (tj * tk);
    LowAlgebra(low, c, tj', p, tk, BASE);
    assert (high * p + low) * t == high * p * t + low * t;
  }

  lemma LowAlgebra(low: int, c: int, t: int, p: int, tk: int, b: int)
    requires p * c == b
    ensures low * c * t * (p * tk) == low * (b * t * tk)
  {
    assert low * c * t * (p * tk) == low * (p * c) * t * tk;
    assert low * b * t * tk == low * (b * t * tk);
  }

  lemma AddTimes(v: int, x: int, y: int, d: int)
    ensures (v + x + y) * d == v * d + x * d + y * d
  {
  }

  /** One more limb, in whichever of the three positions it is. */
  lemma RightStep(a: seq<nat>, i: nat, r: seq<nat>, rem: nat, k: nat, s: nat, u: seq<nat>) returns (more: nat)
    requires i < |a| && Fit(a) && s < 32 && i - k < |r| && ShiftedRight(a, i, r, rem, k, Pow(2, s))
    requires u == RightPut(r, i - k, High(a[i], s), Low(a[i], s))
    ensures ShiftedRight(a, i + 1, u, more, k, Pow(2, s))
  {
    hide Val, Top, Pow, ShiftedRight, RightPut;
    var p, c := Pow(2, s), Pow(2, 32 - s);
    Complement(s);
    RightPutValue(r, i - k, High(a[i], s), Low(a[i], s));
    if i < k {
      RightUnchanged(r, i - k, High(a[i], s), Low(a[i], s));
      RightBefore(a, i, r, rem, k, p);
      more := rem + a[i] * Top(i);
    } else if i == k {
      RightFirst(a, r, rem, k, p, u);
      more := rem + a[i] % p * Top(k);
    } else {
      RightLater(a, i, r, rem, k, p, c, u);
      more := rem;
    }
  }

  method ShiftRight(a: seq<nat>, shift: nat) returns (r: seq<nat>)
    requires Fit(a)
    ensures |r| == |a| && Fit(r) && Pow(2, shift) > 0 && Val(r) == Val(a) / Pow(2, shift)
  {
    hide Val, Top, Pow, ShiftedRight, RightPut, High, Low;
    var k, s := shift / 32, shift % 32;
    r := seq(|a|, i => 0);
    ghost var rem: nat := 0;
    RightStarts(a, r, k, Pow(2, s));
    for i := 0 to |a|
      invariant |r| == |a| && Fit(r) && (i - k >= 1 ==> r[i - k - 1] < Pow(2, 32 - s))
      invariant forall m :: 0 <= m < |r| && i - k <= m ==> r[m] == 0
      invariant ShiftedRight(a, i, r, rem, k, Pow(2, s))
    {
      ghost var before := r;
      r := RightLimb(r, a[i], i - k, s);
      rem := RightStep(a, i, before, rem, k, s, r);
    }
    RightEnds(a, r, rem, k, s, Pow(2, s));
  }

  lemma RightUnchanged(r: seq<nat>, j: int, high: nat, low: nat)
    requires j < 0
    ensures RightPut(r, j, high, low) == r
  {
  }

  lemma RightStarts(a: seq<nat>, r: seq<nat>, k: nat, p: nat)
    requires forall i :: 0 <= i < |r| ==> r[i] == 0
    ensures ShiftedRight(a, 0, r, 0, k, p)
  {
    ValZero(r);
    TopPositive(0);
    hide Top;
  }

  lemma RightEnds(a: seq<nat>, r: seq<nat>, rem: nat, k: nat, s: nat, p: nat)
    requires ShiftedRight(a, |a|, r, rem, k, p) && p == Pow(2, s)
    ensures Pow(2, 32 * k + s) > 0 && Val(r) == Val(a) / Pow(2, 32 * k + s)
  {
    hide Val, Pow, Top;
    PowerOfShift(k, s);
    PowPositive(2, 32 * k + s);
    PowPositive(2, s);
    Whole(a, a, a);
    if |a| <= k {
      TopGrows(|a|, k);
      TimesPositive(Top(k), p);
    }
    RightQuotient(Val(a), Val(r), rem, p * Top(k));
  }

  lemma RightQuotient(a: nat, r: nat, rem: nat, d: nat)
    requires a == r * d + rem && rem < d
    ensures r == a / d
  {
    DivMod(r, rem, d);
  }

  lemma TopGrows(m: nat, n: nat)
    requires m <= n
    ensures Top(m) <= Top(n)
  {
    PowGrows(BASE, m, n);
  }

  // ----- the number of bits

  predicate BitSet(x: nat, n: nat)
  {
    PowPositive(2, n);
    x / Pow(2, n) % 2 == 1
  }

  /** The highest bit that is set, when those above are known not to be. */
  lemma TopBit(x: nat, n: nat)
    requires x < Pow(2, n + 1)
    ensures BitSet(x, n) <==> x >= Pow(2, n)
  {
    PowPositive(2, n);
    var p := Pow(2, n);
    assert Pow(2, n + 1) == 2 * p;
    hide Pow;
    if x >= p { DivMod(1, x - p, p); } else { DivMod(0, x, p); }
  }

  /** The number of bits of a limb that is not zero. */
  method LimbBits(x: nat) returns (n: nat)
    requires 0 < x < BASE
    ensures 1 <= n <= 32 && Pow(2, n - 1) <= x < Pow(2, n)
  {
    hide Pow, BitSet;
    BaseIsPower();
    var b := 31;
    while b > 0
      invariant 0 <= b <= 31 && x < Pow(2, b + 1)
    {
      TopBit(x, b);
      if BitSet(x, b) { return b + 1; }
      b := b - 1;
    }
    Zeroth();
    return 1;
  }

  lemma Zeroth()
    ensures Pow(2, 0) == 1
  {
  }

  method Bits(p: seq<nat>) returns (n: nat)
    requires Fit(p)
    ensures n <= 32 * |p| && (n == 0 <==> Val(p) == 0) && (n > 0 ==> Pow(2, n - 1) <= Val(p) < Pow(2, n))
  {
    hide Val, Pow, Top;
    var pos := |p| - 1;
    while pos >= 0
      invariant -1 <= pos < |p| && forall i :: pos < i < |p| ==> p[i] == 0
    {
      if p[pos] != 0 {
        var b := LimbBits(p[pos]);
        TopLimb(p, pos, b);
        return 32 * pos + b;
      }
      pos := pos - 1;
    }
    ValZero(p);
    return 0;
  }

  lemma TopLimb(p: seq<nat>, pos: nat, b: nat)
    requires Fit(p) && pos < |p| && (forall i :: pos < i < |p| ==> p[i] == 0) && b >= 1
    requires Pow(2, b - 1) <= p[pos] < Pow(2, b)
    ensures Pow(2, 32 * pos + b - 1) <= Val(p) < Pow(2, 32 * pos + b) && Val(p) > 0
  {
    assert p == p[..pos + 1] + p[pos + 1..];
    ValConcat(p[..pos + 1], p[pos + 1..]);
    ValZero(p[pos + 1..]);
    ValPrefix(p, pos);
    ValBelow(p[..pos]);
    PowerOfShift(pos, b - 1);
    PowerOfShift(pos, b);
    PowPositive(2, 32 * pos + b - 1);
    hide Val, Pow, Top;
    BitsAlgebra(Val(p[..pos]), p[pos], Top(pos), Pow(2, b - 1), Pow(2, b));
  }

  lemma BitsAlgebra(v: nat, x: nat, t: nat, low: nat, high: nat)
    requires v < t && low <= x < high
    ensures low * t <= v + x * t < high * t
  {
    assert low * t <= x * t;
    assert (x + 1) * t <= high * t;
  }
}
