/** Division of 256-bit numbers, the compact form of targets (src/arith_uint256.cpp) and the work that a
    target stands for (src/chain.cpp). */
module ArithUint256 {
  import opened Options
  import opened Positional
  import opened Limbs
  import opened LimbShifts

  // ----- setting bits of the quotient, from the highest to the lowest

  /** The lowest `n` bits are zero. */
  ghost predicate LowZero(q: seq<nat>, n: nat) {
    forall j :: 0 <= j < |q| ==>
      (32 * (j + 1) <= n ==> q[j] == 0) && (32 * j < n < 32 * (j + 1) ==> MultipleOf(q[j], Pow(2, n - 32 * j)))
  }

  ghost predicate MultipleOf(x: nat, p: nat) { exists h: nat :: x == h * p }

  lemma HalfMultiple(x: nat, n: nat)
    requires MultipleOf(x, Pow(2, n + 1))
    ensures MultipleOf(x, Pow(2, n))
  {
    var h: nat :| x == h * Pow(2, n + 1);
    assert x == (2 * h) * Pow(2, n);
  }

  lemma ZeroMultiple(p: nat)
    ensures MultipleOf(0, p)
  {
    assert 0 == 0 * p;
  }

  /** The limb in which bit `n` is to be set has nothing there or below. */
  lemma LimbOfBit(q: seq<nat>, n: nat)
    requires LowZero(q, n + 1) && n / 32 < |q|
    ensures MultipleOf(q[n / 32], Pow(2, n % 32 + 1))
  {
    var j := n / 32;
    if n % 32 == 31 { ZeroMultiple(Pow(2, 32)); } else { assert 32 * j < n + 1 < 32 * (j + 1); }
  }

  lemma LowerZero(q: seq<nat>, n: nat)
    requires LowZero(q, n + 1)
    ensures LowZero(q, n)
  {
    forall j | 0 <= j < |q| && 32 * j < n < 32 * (j + 1) ensures MultipleOf(q[j], Pow(2, n - 32 * j)) {
      if n + 1 < 32 * (j + 1) { HalfMultiple(q[j], n - 32 * j); } else { ZeroMultiple(Pow(2, n - 32 * j)); }
    }
  }

  /** Setting a bit below a multiple of twice its value adds it, and stays within the limb. */
  lemma BitInLimb(x: nat, t: nat)
    requires x < BASE && t < 32 && MultipleOf(x, Pow(2, t + 1))
    ensures Or(x, Pow(2, t)) == x + Pow(2, t) < BASE && MultipleOf(x + Pow(2, t), Pow(2, t))
  {
    var h: nat :| x == h * Pow(2, t + 1);
    PowPositive(2, t);
    DoublePower(t);
    OrIsSumToo(h, t + 1, Pow(2, t));
    Complement(t + 1);
    hide Pow, Or;
    Room(h, Pow(2, 32 - (t + 1)), Pow(2, t), Pow(2, t + 1));
    OddMultiple(x, h, Pow(2, t), Pow(2, t + 1));
  }

  lemma DoublePower(t: nat)
    ensures Pow(2, t + 1) == 2 * Pow(2, t)
  {
  }

  lemma OddMultiple(x: nat, h: nat, p: nat, d: nat)
    requires x == h * d && d == 2 * p
    ensures MultipleOf(x + p, p)
  {
    assert x + p == (2 * h + 1) * p;
  }

  lemma Room(h: nat, c: nat, p: nat, d: nat)
    requires h * d < d * c && d == 2 * p && p > 0
    ensures h * d + p < d * c
  {
    TimesMonotone(c, h, d);
    TimesOrder(h, c, d);
  }

  lemma TimesMonotone(c: nat, h: nat, d: nat)
    ensures c <= h ==> d * c <= h * d
  {
  }

  method SetBit(q: seq<nat>, n: nat) returns (r: seq<nat>)
    requires Fit(q) && n < 32 * |q| && LowZero(q, n + 1)
    ensures |r| == |q| && Fit(r) && LowZero(r, n) && Val(r) == Val(q) + Pow(2, n)
  {
    hide Val, Top, Pow, MultipleOf;
    var j, t := n / 32, n % 32;
    LimbOfBit(q, n);
    LowerZero(q, n);
    BitInLimb(q[j], t);
    AddAt(q, j, Pow(2, t));
    PowerOfShift(j, t);
    r := q[j := Or(q[j], Pow(2, t))];
  }

  // ----- division

  /** The state of the long division: what is left to divide is below the divisor shifted once more. */
  ghost predicate Dividing(a: nat, b: nat, q: nat, num: nat, n: nat) { a == q * b + num && num < b * Pow(2, n) }

  lemma DivideDown(a: nat, b: nat, q: nat, num: nat, n: nat)
    requires Dividing(a, b, q, num, n + 1)
    ensures num < b * Pow(2, n) ==> Dividing(a, b, q, num, n)
    ensures num >= b * Pow(2, n) ==> Dividing(a, b, q + Pow(2, n), num - b * Pow(2, n), n)
  {
    DoublePower(n);
    hide Pow;
    DivideAlgebra(a, b, q, num, Pow(2, n));
  }

  lemma DivideAlgebra(a: int, b: int, q: int, num: int, p: int)
    requires a == q * b + num && num < b * (2 * p)
    ensures a == (q + p) * b + (num - b * p) && num - b * p < b * p
  {
    assert (q + p) * b == q * b + p * b;
    assert b * (2 * p) == b * p + b * p;
  }

  lemma DivideEnds(a: nat, b: nat, q: nat, num: nat)
    requires Dividing(a, b, q, num, 0) && b > 0
    ensures q == a / b
  {
    assert Pow(2, 0) == 1;
    DivMod(q, num, b);
  }

  /** The divisor can be shifted so that its highest bit is that of the number. */
  lemma Aligned(a: nat, b: nat, n: nat, m: nat)
    requires n >= m >= 1 && a < Pow(2, n) && Pow(2, m - 1) <= b < Pow(2, m)
    ensures b * Pow(2, n - m) < Pow(2, n) && a < b * Pow(2, n - m + 1)
  {
    PowAdd(2, m, n - m);
    PowAdd(2, m - 1, n - m + 1);
    PowPositive(2, n - m);
    hide Pow;
    AlignAlgebra(a, b, Pow(2, m), Pow(2, n - m), Pow(2, m - 1), Pow(2, n - m + 1));
  }

  lemma AlignAlgebra(a: nat, b: nat, p: nat, s: nat, p': nat, s': nat)
    requires a < p * s && p * s == p' * s' && p' <= b < p && s > 0
    ensures b * s < p * s && a < b * s'
  {
    assert (b + 1) * s <= p * s;
    assert p' * s' <= b * s';
  }

  lemma Smaller(a: nat, b: nat, n: nat, m: nat)
    requires m >= 1 && n < m && a < Pow(2, n) && Pow(2, m - 1) <= b
    ensures a < b && a / b == 0
  {
    PowGrows(2, n, m - 1);
    DivMod(0, a, b);
  }

  lemma BitsFit(p: seq<nat>, n: nat)
    requires n <= 32 * |p|
    ensures Pow(2, n) <= Top(|p|)
  {
    PowGrows(2, n, 32 * |p|);
    PowerOfShift(|p|, 0);
    assert Pow(2, 0) == 1;
  }

  lemma NoWrap(v: nat, n: nat)
    requires v < Top(n)
    ensures Wrap(v, n) == v
  {
    Reduced(v, v, 0, n);
  }

  lemma Halved(b: nat, n: nat)
    ensures Pow(2, 1) == 2 && b * Pow(2, n + 1) / 2 == b * Pow(2, n)
  {
    DoublePower(n);
    DoublePower(0);
    assert b * Pow(2, n + 1) == b * Pow(2, n) * 2;
  }

  method Div(a: seq<nat>, b: seq<nat>) returns (r: Option<seq<nat>>)
    requires |a| == |b| && Fit(a) && Fit(b)
    ensures Val(b) == 0 <==> r == None
    ensures r.Some? ==> |r.value| == |a| && Fit(r.value) && Val(r.value) == Val(a) / Val(b)
  {
    hide Val, Top, Pow, Wrap, Dividing, LowZero;
    var q, num := seq(|a|, i => 0), a;
    ValZero(q);
    AllZero(q);
    var numBits := Bits(num);
    var divBits := Bits(b);
    if divBits == 0 { return None; }
    if divBits > numBits {
      NoBits(Val(a), numBits);
      Smaller(Val(a), Val(b), numBits, divBits);
      return Some(q);
    }
    var shift := numBits - divBits;
    Aligned(Val(a), Val(b), numBits, divBits);
    BitsFit(a, numBits);
    NoWrap(Val(b) * Pow(2, shift), |b|);
    var div := ShiftLeft(b, shift);
    StartDividing(Val(a), Val(b), shift + 1);
    while shift >= 0
      invariant -1 <= shift < 32 * |a| && |q| == |num| == |div| == |a| && Fit(q) && Fit(num) && Fit(div)
      invariant Dividing(Val(a), Val(b), Val(q), Val(num), shift + 1) && LowZero(q, shift + 1)
      invariant shift >= 0 ==> Val(div) == Val(b) * Pow(2, shift)
    {
      var cmp := CompareTo(num, div);
      DivideDown(Val(a), Val(b), Val(q), Val(num), shift);
      LowerZero(q, shift);
      if cmp >= 0 {
        ValBelow(num);
        NoWrap(Val(num) - Val(div), |num|);
        num := Sub(num, div);
        q := SetBit(q, shift);
      }
      if shift > 0 { Halved(Val(b), shift - 1); }
      div := ShiftRight(div, 1);
      shift := shift - 1;
    }
    DivideEnds(Val(a), Val(b), Val(q), Val(num));
    return Some(q);
  }

  lemma AllZero(q: seq<nat>)
    requires forall i :: 0 <= i < |q| ==> q[i] == 0
    ensures forall n: nat {:trigger LowZero(q, n)} :: LowZero(q, n)
  {
    forall n: nat ensures LowZero(q, n) {
      forall j | 0 <= j < |q| && 32 * j < n < 32 * (j + 1)
        ensures MultipleOf(q[j], Pow(2, n - 32 * j))
      {
        ZeroMultiple(Pow(2, n - 32 * j));
      }
    }
  }

  lemma NoBits(a: nat, n: nat)
    requires n == 0 ==> a == 0
    requires n > 0 ==> a < Pow(2, n)
    ensures a < Pow(2, n)
  {
    PowPositive(2, n);
  }

  lemma StartDividing(a: nat, b: nat, n: nat)
    requires a < b * Pow(2, n)
    ensures Dividing(a, b, 0, a, n)
  {
  }

  // ----- the compact form of a target

  const WIDTH := 8

  function Size(compact: nat): nat { compact / 0x100_0000 }

  function Mantissa(compact: nat): nat { compact % 0x80_0000 }

  predicate SignBit(compact: nat) { compact / 0x80_0000 % 2 == 1 }

  /** The number that a compact form stands for, without its sign. */
  ghost function Magnitude(compact: nat): nat {
    if Size(compact) <= 3 then
      PowPositive(256, 3 - Size(compact));
      Mantissa(compact) / Pow(256, 3 - Size(compact))
    else Mantissa(compact) * Pow(256, Size(compact) - 3)
  }

  lemma BytesAndBits(n: nat)
    ensures Pow(256, n) == Pow(2, 8 * n) && Pow(256, n) > 0
  {
    assert Pow(2, 8) == 256;
    PowTimes(2, 8, n);
    PowPositive(256, n);
  }

  lemma TopBytes()
    ensures Top(WIDTH) == Pow(256, 32)
  {
    BytesAndBits(32);
    PowerOfShift(WIDTH, 0);
    assert Pow(2, 0) == 1;
  }

  /** Where the magnitude leaves 256 bits. */
  lemma OverflowIs(word: nat, size: nat)
    requires word < 0x80_0000 && size > 3
    ensures word * Pow(256, size - 3) >= Pow(256, 32) <==>
            word != 0 && (size > 34 || (word > 0xff && size > 33) || (word > 0xffff && size > 32))
  {
    hide Pow;
    PowPositive(256, 32);
    if size >= 35 {
      PowGrows(256, 32, size - 3);
      if word > 0 { TimesPositive(Pow(256, size - 3), word); }
    } else {
      PowAdd(256, 35 - size, size - 3);
      PowPositive(256, size - 3);
      Compare(word, Pow(256, 35 - size), Pow(256, size - 3));
      MantissaReaches(word, 35 - size);
    }
  }

  lemma MantissaReaches(word: nat, e: nat)
    requires word < 0x80_0000 && e >= 1
    ensures word >= Pow(256, e) <==> (e == 1 && word > 0xff) || (e == 2 && word > 0xffff)
  {
    hide Pow;
    SmallPowers();
    if e > 3 { PowGrows(256, 3, e); }
  }

  lemma SmallPowers()
    ensures Pow(256, 0) == 1 && Pow(256, 1) == 0x100 && Pow(256, 2) == 0x1_0000 && Pow(256, 3) == 0x100_0000
  {
    assert Pow(256, 1) == 256 * Pow(256, 0);
    assert Pow(256, 3) == 256 * Pow(256, 2);
  }

  lemma Compare(x: nat, y: nat, t: nat)
    requires t > 0
    ensures x * t >= y * t <==> x >= y
  {
    TimesOrder(x, y, t);
    TimesOrder(y, x, t);
  }

  function Single(x: nat): seq<nat> { seq(WIDTH, i => if i == 0 then x else 0) }

  lemma SingleValue(x: nat)
    ensures Val(Single(x)) == x
  {
    var p := Single(x);
    assert p == [x] + p[1..];
    ValConcat([x], p[1..]);
    ValZero(p[1..]);
    assert [x][..0] == [];
    assert Val([x]) == x;
  }

  /** The value is the magnitude as far as it fits; the flags say whether it fits and whether the sign
      bit counts. */
  method SetCompact(compact: nat) returns (r: seq<nat>, negative: bool, overflow: bool)
    requires compact < BASE
    ensures |r| == WIDTH && Fit(r) && Val(r) == Wrap(Magnitude(compact), WIDTH)
    ensures overflow <==> Magnitude(compact) >= Top(WIDTH)
    ensures negative <==> SignBit(compact) && Magnitude(compact) != 0
  {
    hide Val, Top, Wrap, Pow;
    var size, word := Size(compact), Mantissa(compact);
    TopBytes();
    PowGrows(256, 3, 32);
    SmallPowers();
    if size <= 3 {
      BytesAndBits(3 - size);
      word := word / Pow(2, 8 * (3 - size));
      QuotientSmall(Mantissa(compact), Pow(2, 8 * (3 - size)));
      r := Single(word);
      SingleValue(word);
      NoWrap(word, WIDTH);
    } else {
      r := Single(word);
      SingleValue(word);
      BytesAndBits(size - 3);
      r := ShiftLeft(r, 8 * (size - 3));
      OverflowIs(word, size);
      NonZero(word, Pow(256, size - 3));
    }
    negative := word != 0 && SignBit(compact);
    overflow := word != 0 && (size > 34 || (word > 0xff && size > 33) || (word > 0xffff && size > 32));
  }

  lemma QuotientSmall(x: nat, p: nat)
    requires p > 0
    ensures 0 <= x / p <= x
  {
    Split(x, p);
    TimesPositive(x / p, p);
  }

  lemma NonZero(x: nat, t: nat)
    requires t > 0
    ensures x * t == 0 <==> x == 0
  {
    if x > 0 { TimesPositive(t, x); }
  }

  /** A target that fits is never the largest number, so one can be added to it. */
  lemma TargetBelowMax(compact: nat)
    requires compact < BASE && Magnitude(compact) < Top(WIDTH)
    ensures Magnitude(compact) + 1 < Top(WIDTH)
  {
    TopBytes();
    PowGrows(256, 3, 32);
    SmallPowers();
    if Size(compact) <= 3 {
      BytesAndBits(3 - Size(compact));
      QuotientSmall(Mantissa(compact), Pow(256, 3 - Size(compact)));
    } else {
      PowAdd(256, 1, Size(compact) - 4);
      PowAdd(256, 1, 31);
      hide Pow, Top;
      EvenBelow(Mantissa(compact), Pow(256, Size(compact) - 4), Pow(256, 31));
    }
  }

  lemma EvenBelow(m: nat, p: nat, q: nat)
    requires m * (256 * p) < 256 * q
    ensures m * (256 * p) + 1 < 256 * q
  {
    assert m * (256 * p) == 256 * (m * p);
  }

  // ----- back to the compact form

  /** The number of binary digits. */
  ghost function BitLength(v: nat): nat { if v == 0 then 0 else 1 + BitLength(v / 2) }

  lemma {:induction false} BitLengthIs(v: nat, n: nat)
    requires n >= 1 && Pow(2, n - 1) <= v < Pow(2, n)
    ensures BitLength(v) == n
    decreases n
  {
    if n > 1 {
      DoublePower(n - 1);
      DoublePower(n - 2);
      BitLengthIs(v / 2, n - 1);
    } else {
      assert Pow(2, 0) == 1 && Pow(2, 1) == 2;
      assert BitLength(v / 2) == 0;
    }
  }

  lemma {:induction false} BitLengthBounds(v: nat)
    requires v > 0
    ensures BitLength(v) >= 1 && Pow(2, BitLength(v) - 1) <= v < Pow(2, BitLength(v))
    decreases v
  {
    if v == 1 {
      assert BitLength(0) == 0 && Pow(2, 0) == 1 && Pow(2, 1) == 2;
    } else {
      BitLengthBounds(v / 2);
      DoublePower(BitLength(v / 2) - 1);
      DoublePower(BitLength(v / 2));
    }
  }

  ghost function ByteLength(v: nat): nat { (BitLength(v) + 7) / 8 }

  lemma ByteLengthBounds(v: nat)
    requires v > 0
    ensures ByteLength(v) >= 1 && Pow(256, ByteLength(v) - 1) <= v < Pow(256, ByteLength(v))
  {
    hide Pow, BitLength;
    BitLengthBounds(v);
    var b, n := BitLength(v), ByteLength(v);
    BytesAndBits(n - 1);
    BytesAndBits(n);
    PowGrows(2, b, 8 * n);
    PowGrows(2, 8 * (n - 1), b - 1);
  }

  function Word(size: nat, mantissa: nat): nat { size * 0x100_0000 + mantissa }

  lemma WordParts(size: nat, mantissa: nat)
    requires mantissa < 0x80_0000
    ensures Size(Word(size, mantissa)) == size && Mantissa(Word(size, mantissa)) == mantissa
    ensures !SignBit(Word(size, mantissa))
  {
  }

  /** The first three bytes of a number. */
  ghost function Leading(v: nat): nat {
    if ByteLength(v) <= 3 then Scaled(v, Pow(256, 3 - ByteLength(v))) else
      PowPositive(256, ByteLength(v) - 3);
      Quotient(v, Pow(256, ByteLength(v) - 3))
  }

  ghost function Scaled(v: nat, t: nat): nat { v * t }

  ghost function Quotient(v: nat, t: nat): nat
    requires t > 0
  {
    v / t
  }

  /** The compact form: the first three bytes, or two if the first bit would be taken for the sign. */
  ghost function Compact(v: nat): nat {
    if Leading(v) < 0x80_0000 then Word(ByteLength(v), Leading(v)) else Word(ByteLength(v) + 1, Leading(v) / 256)
  }

  lemma LeadingBelow(v: nat)
    ensures Leading(v) < 0x100_0000
    ensures ByteLength(v) >= 3 ==> Leading(v) >= 0x1_0000
  {
    var n := ByteLength(v);
    SmallPowers();
    if v == 0 {
      assert Pow(256, 3) == 0x100_0000;
    } else {
      ByteLengthBounds(v);
      if n <= 3 {
        PowAdd(256, n, 3 - n);
        PowPositive(256, 3 - n);
        hide Pow;
        SmallerRemainder(v, Pow(256, n), Pow(256, 3 - n));
      } else {
        PowAdd(256, 3, n - 3);
        PowAdd(256, 2, n - 3);
        PowPositive(256, n - 3);
        hide Pow;
        QuotientBounds(v, Pow(256, n - 3), 0x1_0000, 0x100_0000);
      }
    }
  }

  lemma QuotientBounds(v: nat, t: nat, low: nat, high: nat)
    requires t > 0 && low * t <= v < high * t
    ensures low <= v / t < high
  {
    QuotientBelow(v, t, high);
    Split(v, t);
    TimesOrder(v / t, low, t);
  }

  /** What is made of the first digits of a number, as long as these are worth at least 15 bits, is the
      largest number not above it with a mantissa of 23 bits. */
  lemma Largest(v: nat, x: nat, q: nat, m: nat, e: nat)
    requires Pow(256, x) > 0 && q == v / Pow(256, x) && q >= 0x8000 && m < 0x80_0000 && m * Pow(256, e) <= v
    ensures q * Pow(256, x) <= v && m * Pow(256, e) <= q * Pow(256, x)
  {
    Split(v, Pow(256, x));
    if e >= x {
      PowAdd(256, e - x, x);
      hide Pow;
      MultipleBelow(v, Pow(256, x), q, m * Pow(256, e - x), m, Pow(256, e - x));
    } else {
      PowAdd(256, 1, x - 1);
      PowGrows(256, e, x - 1);
      SmallPowers();
      hide Pow;
      SmallExponent(m, Pow(256, e), Pow(256, x - 1), q);
    }
  }

  lemma MultipleBelow(v: nat, t: nat, q: nat, k: int, m: int, s: int)
    requires t > 0 && q == v / t && k == m * s && m * (s * t) <= v
    ensures m * (s * t) <= q * t
  {
    assert m * (s * t) == k * t;
    Split(v, t);
    TimesOrder(q, k, t);
    TimesMonotone2(k, q, t);
  }

  lemma TimesMonotone2(k: int, q: int, t: nat)
    ensures k <= q ==> k * t <= q * t
  {
  }

  lemma SmallExponent(m: nat, p: nat, r: nat, q: nat)
    requires m < 0x80_0000 && p <= r && q >= 0x8000
    ensures m * p <= q * (256 * r)
  {
    assert m * p <= m * r;
    assert m * r <= 0x80_0000 * r;
    assert 0x8000 * (256 * r) <= q * (256 * r);
  }

  /** The magnitude of a compact form is a mantissa of 23 bits times a power of 256. */
  lemma MagnitudeParts(compact: nat) returns (m: nat, e: nat)
    ensures m < 0x80_0000 && Magnitude(compact) == m * Pow(256, e)
  {
    if Size(compact) <= 3 {
      PowPositive(256, 3 - Size(compact));
      m, e := Magnitude(compact), 0;
      QuotientSmall(Mantissa(compact), Pow(256, 3 - Size(compact)));
      assert Pow(256, 0) == 1;
    } else {
      m, e := Mantissa(compact), Size(compact) - 3;
    }
  }

  lemma MagnitudeLarge(size: nat, mantissa: nat)
    requires mantissa < 0x80_0000 && size >= 3
    ensures Magnitude(Word(size, mantissa)) == mantissa * Pow(256, size - 3)
  {
    hide Pow;
    WordParts(size, mantissa);
    SmallPowers();
  }

  lemma LeadingLarge(v: nat)
    requires ByteLength(v) >= 3
    ensures Pow(256, ByteLength(v) - 3) > 0 && Leading(v) == v / Pow(256, ByteLength(v) - 3)
  {
    hide Pow, ByteLength;
    SmallPowers();
    PowPositive(256, ByteLength(v) - 3);
  }

  /** The digits and the power that the compact form of a number of at least three bytes is made of. */
  lemma CompactLarge(v: nat) returns (q: nat, x: nat)
    requires ByteLength(v) >= 3
    ensures Pow(256, x) > 0 && q == v / Pow(256, x) && q >= 0x8000 && Magnitude(Compact(v)) == q * Pow(256, x)
  {
    hide Pow, Magnitude, Word, ByteLength, Leading;
    var n, top := ByteLength(v), Leading(v);
    LeadingBelow(v);
    LeadingLarge(v);
    if top < 0x80_0000 {
      q, x := top, n - 3;
      MagnitudeLarge(n, top);
    } else {
      q, x := top / 256, n - 2;
      PowPositive(256, x);
      PowAdd(256, n - 3, 1);
      SmallPowers();
      DivideTwice(v, Pow(256, n - 3));
      MagnitudeLarge(n + 1, top / 256);
    }
  }

  lemma DivideTwice(v: nat, t: nat)
    requires t > 0
    ensures v / t / 256 == v / (t * 256)
  {
    Split(v, t);
    Split(v / t, 256);
    TwiceParts(v, v / t, v % t, v / t / 256, v / t % 256, t);
  }

  lemma TwiceParts(v: nat, a: nat, r: nat, q: nat, b: nat, t: nat)
    requires v == a * t + r && r < t && a == q * 256 + b && b < 256
    ensures v / (t * 256) == q
  {
    TwiceAlgebra(v, a, r, q, b, t);
    TimesOrder(b, 256, t);
    DivMod(q, b * t + r, t * 256);
  }

  lemma TwiceAlgebra(v: int, a: int, r: int, q: int, b: int, t: int)
    requires v == a * t + r && a == q * 256 + b
    ensures v == q * (t * 256) + (b * t + r)
  {
    assert (q * 256 + b) * t == q * (t * 256) + b * t;
  }

  lemma MagnitudeSmall(size: nat, mantissa: nat)
    requires mantissa < 0x80_0000 && size <= 3
    ensures Magnitude(Word(size, mantissa)) ==
            if size == 0 then 0 else if size == 1 then mantissa / 0x1_0000 else if size == 2 then mantissa / 0x100
                                                                                else mantissa
  {
    WordParts(size, mantissa);
    SmallPowers();
    hide Pow;
  }

  lemma SmallLeading(v: nat)
    requires v > 0 && ByteLength(v) < 3
    ensures ByteLength(v) == 1 || ByteLength(v) == 2
    ensures Leading(v) == if ByteLength(v) == 1 then v * 0x1_0000 else v * 0x100
  {
    hide Pow, BitLength;
    SmallPowers();
    ByteLengthBounds(v);
  }

  lemma LeadingZero()
    ensures ByteLength(0) == 0 && Leading(0) == 0
  {
    hide Pow;
  }

  lemma CompactZero()
    ensures Compact(0) == 0 && Magnitude(0) == 0
  {
    hide Pow, Leading, ByteLength, Magnitude;
    LeadingZero();
    MagnitudeSmall(0, 0);
    assert Word(0, 0) == 0;
  }

  lemma CompactSmall(v: nat)
    requires ByteLength(v) < 3
    ensures Magnitude(Compact(v)) == v
  {
    hide Pow, Magnitude, Word, ByteLength, Leading;
    CompactZero();
    if v > 0 {
      SmallLeading(v);
      LeadingBelow(v);
      var n := ByteLength(v);
      if Leading(v) < 0x80_0000 { MagnitudeSmall(n, Leading(v)); } else { MagnitudeSmall(n + 1, Leading(v) / 256); }
    }
  }

  /** The compact form stands for the largest number not above that has one. */
  lemma CompactLargest(v: nat, compact: nat)
    ensures Magnitude(Compact(v)) <= v
    ensures Magnitude(compact) <= v ==> Magnitude(compact) <= Magnitude(Compact(v))
  {
    if ByteLength(v) < 3 {
      CompactSmall(v);
    } else {
      var q, x := CompactLarge(v);
      var m, e := MagnitudeParts(compact);
      Split(v, Pow(256, x));
      if m * Pow(256, e) <= v { Largest(v, x, q, m, e); }
    }
  }

  lemma CompactFits(v: nat)
    requires v < Top(WIDTH)
    ensures Compact(v) < BASE && ByteLength(v) <= 32
  {
    LeadingBelow(v);
    if v > 0 {
      ByteLengthBounds(v);
      TopBytes();
      if ByteLength(v) > 32 { PowGrows(256, 32, ByteLength(v) - 1); }
    }
  }

  function Low64(p: seq<nat>): nat
    requires |p| == WIDTH
  {
    p[0] + p[1] * BASE
  }

  /** A number below 2^32 is in the lowest limb. */
  lemma LowLimbs(p: seq<nat>)
    requires |p| == WIDTH && Fit(p) && Val(p) < BASE
    ensures Low64(p) == Val(p)
  {
    assert p == p[..2] + p[2..];
    ValConcat(p[..2], p[2..]);
    ValPrefix(p, 1);
    ValPrefix(p, 0);
    assert p[..0] == [] && Top(0) == 1 && Top(1) == BASE && Top(2) == BASE * BASE;
    hide Val, Top;
    ZeroHigh(Val(p), Val(p[2..]), BASE * BASE);
  }

  lemma ZeroHigh(v: nat, high: nat, t: nat)
    requires high * t <= v < t
    ensures high == 0
  {
    TimesMonotone(1, high, t);
  }

  lemma SignedParts(size: nat, mantissa: nat)
    requires mantissa < 0x80_0000
    ensures var c := Word(size, mantissa) + 0x80_0000;
            Size(c) == size && Mantissa(c) == mantissa && SignBit(c) && Magnitude(c) == Magnitude(Word(size, mantissa))
  {
    WordParts(size, mantissa);
  }

  /** The first three bytes of a number in limbs. */
  method LeadingBytes(p: seq<nat>) returns (size: nat, word: nat)
    requires |p| == WIDTH && Fit(p)
    ensures size == ByteLength(Val(p)) && word == Leading(Val(p))
  {
    hide Val, Top, Pow, BitLength;
    var bits := Bits(p);
    if bits > 0 { BitLengthIs(Val(p), bits); } else { NoLength(); }
    size := (bits + 7) / 8;
    LeadingBelow(Val(p));
    if size <= 3 {
      SmallNumber(Val(p));
      LowLimbs(p);
      BytesAndBits(3 - size);
      word := Low64(p) * Pow(2, 8 * (3 - size));
    } else {
      BytesAndBits(size - 3);
      var top := ShiftRight(p, 8 * (size - 3));
      LowLimbs(top);
      word := Low64(top);
    }
  }

  lemma NoLength()
    ensures BitLength(0) == 0
  {
  }

  lemma SmallNumber(v: nat)
    requires ByteLength(v) <= 3
    ensures v < BASE
  {
    SmallPowers();
    if v > 0 {
      ByteLengthBounds(v);
      PowGrows(256, ByteLength(v), 3);
    }
  }

  /** The compact form of a number, with the sign if wanted. The mantissa never takes up the sign bit. */
  method GetCompact(p: seq<nat>, negative: bool) returns (compact: nat)
    requires |p| == WIDTH && Fit(p)
    ensures compact < BASE && Magnitude(compact) == Magnitude(Compact(Val(p))) <= Val(p)
    ensures forall other: nat :: Magnitude(other) <= Val(p) ==> Magnitude(other) <= Magnitude(compact)
    ensures SignBit(compact) <==> negative && Mantissa(compact) != 0
    ensures !negative ==> compact == Compact(Val(p))
  {
    hide Val, Top, Magnitude, ByteLength, Leading;
    ValBelow(p);
    LeadingBelow(Val(p));
    CompactFits(Val(p));
    forall other: nat | Magnitude(other) <= Val(p)
      ensures Magnitude(other) <= Magnitude(Compact(Val(p)))
    {
      CompactLargest(Val(p), other);
    }
    CompactLargest(Val(p), 0);
    var size, word := LeadingBytes(p);
    if word >= 0x80_0000 {
      word := word / 256;
      size := size + 1;
    }
    assert word < 0x80_0000 && size < 256;
    WordParts(size, word);
    SignedParts(size, word);
    compact := Word(size, word);
    if negative && word != 0 { compact := compact + 0x80_0000; }
  }

  // ----- the work that a target stands for

  /** 2^256 / (target + 1), rounded down; nothing for a target that is negative, too large or zero. The
      division is never by zero. */
  method GetBlockProof(compact: nat) returns (r: seq<nat>)
    requires compact < BASE
    ensures |r| == WIDTH && Fit(r)
    ensures Val(r) == if SignBit(compact) || Magnitude(compact) >= Top(WIDTH) || Magnitude(compact) == 0 then 0
                      else Top(WIDTH) / (Magnitude(compact) + 1)
  {
    hide Val, Top, Wrap, Magnitude;
    var target, negative, overflow := SetCompact(compact);
    SingleValue(0);
    SingleValue(1);
    if !overflow { NoWrap(Magnitude(compact), WIDTH); }
    var zero := CompareTo(target, Single(0));
    if negative || overflow || zero == 0 { return Single(0); }
    TargetBelowMax(compact);
    NoWrap(Magnitude(compact) + 1, WIDTH);
    var top := Not(target);
    var next := Add(target, Single(1));
    var quotient := Div(top, next);
    assert quotient.Some?;
    ProofFormula(Top(WIDTH), Magnitude(compact));
    NoWrap(Val(quotient.value) + 1, WIDTH);
    r := Add(quotient.value, Single(1));
  }

  lemma ProofFormula(top: nat, t: nat)
    requires 0 < t && t + 1 < top
    ensures (top - 1 - t) / (t + 1) + 1 == top / (t + 1) < top
  {
    var d := t + 1;
    Split(top - d, d);
    var q, x := (top - d) / d, (top - d) % d;
    assert (q + 1) * d == q * d + d;
    DivMod(q + 1, x, d);
    TimesPositive(q + 1, d);
    assert (q + 1) * d >= (q + 1) * 2;
  }
}
