/** Base58 (src/base58.cpp): encoding and decoding in place, digit by digit, are inverse to each other. */
module Base58 {
  import opened Options
  import opened Positional

  // ----- the room that the buffers have

  lemma Pows58()
    ensures Pow(58, 0) == 1 && Pow(58, 1) == 58 && Pow(58, 2) == 3364 && Pow(58, 3) == 195112 && Pow(58, 4) == 11316496
    ensures Pow(58, 5) == 656356768 && Pow(58, 6) == 38068692544 && Pow(58, 7) == 2207984167552
    ensures Pow(58, 8) == 128063081718016
  {
    assert Pow(58, 1) == 58 * Pow(58, 0);
    assert Pow(58, 3) == 58 * Pow(58, 2);
    assert Pow(58, 5) == 58 * Pow(58, 4);
    assert Pow(58, 7) == 58 * Pow(58, 6);
  }

  lemma Pows58More()
    ensures Pow(58, 9) == 7427658739644928 && Pow(58, 10) == 430804206899405824 && Pow(58, 11) == 24986644000165537792
    ensures Pow(58, 12) == 1449225352009601191936 && Pow(58, 13) == 84055070416556869132288
    ensures Pow(58, 14) == 4875194084160298409672704
    ensures Pow(58, 15) == 282761256881297307761016832
  {
    Pows58();
    assert Pow(58, 9) == 58 * Pow(58, 8);
    assert Pow(58, 11) == 58 * Pow(58, 10);
    assert Pow(58, 13) == 58 * Pow(58, 12);
    assert Pow(58, 15) == 58 * Pow(58, 14);
  }

  lemma Pows256()
    ensures Pow(256, 0) == 1 && Pow(256, 1) == 0x100 && Pow(256, 2) == 0x1_0000 && Pow(256, 3) == 0x100_0000
    ensures Pow(256, 4) == 0x1_0000_0000 && Pow(256, 5) == 0x100_0000_0000 && Pow(256, 6) == 0x1_0000_0000_0000
    ensures Pow(256, 7) == 0x100_0000_0000_0000 && Pow(256, 8) == 0x1_0000_0000_0000_0000
  {
    assert Pow(256, 1) == 256 * Pow(256, 0);
    assert Pow(256, 3) == 256 * Pow(256, 2);
    assert Pow(256, 5) == 256 * Pow(256, 4);
    assert Pow(256, 7) == 256 * Pow(256, 6);
  }

  lemma Pows256More()
    ensures Pow(256, 9) == 0x100_0000_0000_0000_0000 && Pow(256, 10) == 0x1_0000_0000_0000_0000_0000
    ensures Pow(256, 11) == 0x100_0000_0000_0000_0000_0000
  {
    Pows256();
    assert Pow(256, 9) == 256 * Pow(256, 8);
    assert Pow(256, 11) == 256 * Pow(256, 10);
  }

  lemma SmallEncodeRoom(r: nat)
    requires r < 8
    ensures Pow(58, r * 138 / 100 + 1) > Pow(256, r)
  {
    hide Pow;
    Pows58();
    Pows58More();
    Pows256();
  }

  /** The base 58 buffer has room for `n` bytes. */
  lemma EncodeRoom(n: nat)
    ensures Pow(58, n * 138 / 100 + 1) > Pow(256, n)
  {
    var k, r := n / 8, n % 8;
    var e := r * 138 / 100 + 1;
    SmallEncodeRoom(r);
    Pows58More();
    Pows256();
    hide Pow;
    Blocks(58, 11, 256, 8, k, e, r);
    PowGrows(58, 11 * k + e, n * 138 / 100 + 1);
  }

  /** A ratio of powers that holds for a block holds for blocks and a rest. */
  lemma Blocks(a: nat, p: nat, b: nat, q: nat, k: nat, e: nat, r: nat)
    requires a > 0 && b > 0 && Pow(a, p) > Pow(b, q) && Pow(a, e) > Pow(b, r)
    ensures Pow(a, p * k + e) > Pow(b, q * k + r)
  {
    hide Pow;
    PowAdd(a, p * k, e);
    PowAdd(b, q * k, r);
    PowTimes(a, p, k);
    PowTimes(b, q, k);
    PowLess(Pow(b, q), Pow(a, p), k);
    PowPositive(a, p * k);
    PowPositive(a, e);
    TimesLess(Pow(b, r), Pow(a, e), Pow(b, q * k), Pow(a, p * k));
  }

  lemma TinyDecodeRoom(s: nat)
    requires s < 15
    ensures Pow(256, s * 733 / 1000 + 1) > Pow(58, s)
  {
    hide Pow;
    Pows58();
    Pows58More();
    Pows256();
    Pows256More();
  }

  lemma SmallBlock()
    ensures Pow(256, 11) > Pow(58, 15)
  {
    Pows58More();
    Pows256More();
  }

  lemma SmallSizes(r: nat)
    requires r < 71
    ensures var j, s := r / 15, r % 15;
            if s > 0 || j == 0 then r == 15 * j + s && 11 * j + s * 733 / 1000 + 1 <= r * 733 / 1000 + 1
            else r == 15 * (j - 1) + 15 && 11 * (j - 1) + 11 == r * 733 / 1000 + 1
  {
    var j, s := r / 15, r % 15;
    assert r == 15 * j + s && 0 <= j <= 4;
    assert r * 733 == 1000 * (11 * j) + (733 * s - 5 * j);
    if s > 0 {
      ResidueLarge(s);
      FloorKept(733 * s, 5 * j);
      FloorAdd(11 * j, 733 * s - 5 * j);
    } else if j > 0 {
      FloorAdd(11 * j - 1, 1000 - 5 * j);
    }
  }

  lemma ResidueLarge(s: nat)
    requires 0 < s < 15
    ensures 733 * s % 1000 >= 20
  {
  }

  lemma FloorKept(a: nat, b: nat)
    requires b <= a % 1000
    ensures b <= a && (a - b) / 1000 == a / 1000
  {
  }

  lemma FloorAdd(a: int, b: nat)
    ensures (1000 * a + b) / 1000 == a + b / 1000
  {
  }

  lemma SmallDecodeRoom(r: nat)
    requires r < 71
    ensures Pow(256, r * 733 / 1000 + 1) > Pow(58, r)
  {
    hide Pow;
    var j, s := r / 15, r % 15;
    SmallSizes(r);
    SmallBlock();
    if s > 0 || j == 0 {
      TinyDecodeRoom(s);
      Blocks(256, 11, 58, 15, j, s * 733 / 1000 + 1, s);
      PowGrows(256, 11 * j + (s * 733 / 1000 + 1), r * 733 / 1000 + 1);
    } else {
      Blocks(256, 11, 58, 15, j - 1, 11, 15);
    }
  }

  /** 58^71 < 256^52. */
  lemma LargeBlock()
    ensures Pow(256, 52) > Pow(58, 71)
  {
    Pows58();
    Pows58More();
    Pows256();
    Pows256More();
    hide Pow;
    PowAdd(58, 15, 15);
    PowAdd(58, 30, 30);
    PowAdd(58, 60, 11);
    PowAdd(256, 10, 3);
    PowAdd(256, 13, 13);
    PowAdd(256, 26, 26);
  }

  lemma Sizes(n: nat)
    ensures var k, r := n / 71, n % 71; n == 71 * k + r && 52 * k + (r * 733 / 1000 + 1) <= n * 733 / 1000 + 1
  {
  }

  /** The base 256 buffer has room for `n` characters. */
  lemma DecodeRoom(n: nat)
    ensures Pow(256, n * 733 / 1000 + 1) > Pow(58, n)
  {
    hide Pow;
    var k, r := n / 71, n % 71;
    Sizes(n);
    SmallDecodeRoom(r);
    LargeBlock();
    Blocks(256, 52, 58, 71, k, r * 733 / 1000 + 1, r);
    PowGrows(256, 52 * k + (r * 733 / 1000 + 1), n * 733 / 1000 + 1);
  }

  // ----- a step of both conversions, in place

  lemma LowDigit(low: seq<nat>, d: nat, base: nat)
    ensures Value([d] + low, base) == d * Pow(base, |low|) + Value(low, base)
  {
    ValueConcat([d], low, base);
    assert [d][..0] == [];
    assert Value([d], base) == d;
  }

  /** The low digits and what is carried out of them are the product and sum of what was there. */
  ghost predicate Carried(low: seq<nat>, was: seq<nat>, carry: nat, mul: nat, add: nat, base: nat) {
    |low| == |was| && Value(low, base) + carry * Pow(base, |low|) == mul * Value(was, base) + add
  }

  /** `x` stays in a place and `q` is carried on. */
  ghost predicate Divided(x: nat, q: nat, carry: nat, mul: nat, d: nat, base: nat) {
    q * base + x == carry + mul * d && x < base && (mul > 0 && (carry > 0 || d > 0) ==> x > 0 || q > 0)
  }

  /** One digit of the step. */
  lemma CarryStep(low: seq<nat>, was: seq<nat>, d: nat, x: nat, q: nat, carry: nat, mul: nat, add: nat, base: nat)
    requires Divided(x, q, carry, mul, d, base) && Carried(low, was, carry, mul, add, base)
    ensures Carried([x] + low, [d] + was, q, mul, add, base)
  {
    var p := Pow(base, |low|);
    assert Pow(base, |low| + 1) == base * p;
    LowDigit(low, x, base);
    LowDigit(was, d, base);
    hide Value, Pow;
    CarryAlgebra(q, x, base, p, mul, d, carry);
    CarryJoin(Value(low, base), Value(was, base), Value([x] + low, base), Value([d] + was, base), p, base, d, x, q,
              carry, mul, add);
  }

  lemma CarryJoin(v: int, w: int, v': int, w': int, p: int, base: int, d: int, x: int, q: int, carry: int, mul: int,
                  add: int)
    requires v + carry * p == mul * w + add && x * p + q * (base * p) == carry * p + mul * (d * p)
    requires v' == x * p + v && w' == d * p + w
    ensures v' + q * (base * p) == mul * w' + add
  {
    Distribute(mul, d * p, w);
    CarrySum(v, carry * p, mul * w, add, x * p, q * (base * p), mul * (d * p));
  }

  lemma CarrySum(v: int, c: int, w: int, add: int, x: int, q: int, d: int)
    requires v + c == w + add && x + q == c + d
    ensures x + v + q == d + w + add
  {
  }

  lemma CarryAlgebra(q: nat, x: nat, base: nat, p: nat, mul: nat, d: nat, carry: nat)
    requires q * base + x == carry + mul * d
    ensures x * p + q * (base * p) == carry * p + mul * (d * p)
  {
    assert q * (base * p) == q * base * p;
    assert (q * base + x) * p == q * base * p + x * p;
    assert (carry + mul * d) * p == carry * p + mul * d * p;
  }

  lemma Distribute(a: int, b: int, c: int)
    ensures a * (b + c) == a * b + a * c
  {
  }

  ghost predicate ZeroBelow(d: seq<nat>, n: nat) { n <= |d| && forall i :: 0 <= i < n ==> d[i] == 0 }

  /** Leading zeros do not matter. */
  lemma ValueOfRest(d: seq<nat>, n: nat, base: nat)
    requires ZeroBelow(d, n)
    ensures Value(d, base) == Value(d[n..], base)
  {
    assert d == d[..n] + d[n..];
    ValueZeros(d[..n], base);
    ValueConcat(d[..n], d[n..], base);
  }

  /** Multiply the number in the buffer and add to it, from the last digit on, as far as there is anything
      to do. The digits before the last `length` are zero, and the first of those is not. If the result
      fits, nothing is carried out of the buffer. */
  method MultiplyAdd(b: array<nat>, length: nat, mul: nat, add: nat, base: nat) returns (newLength: nat)
    requires base >= 2 && mul >= 1 && length <= b.Length && Digits(b[..], base)
    requires ZeroBelow(b[..], b.Length - length) && Canonical(b[b.Length - length..], base)
    requires Value(b[..], base) * mul + add < Pow(base, b.Length)
    modifies b
    ensures newLength <= b.Length && length <= newLength && Digits(b[..], base)
    ensures ZeroBelow(b[..], b.Length - newLength) && Canonical(b[b.Length - newLength..], base)
    ensures Value(b[..], base) == old(Value(b[..], base)) * mul + add
  {
    hide Value, Pow, Digits, ZeroBelow, Canonical, Stepping, Divided;
    ghost var was := b[..];
    var carry: nat, i: nat, n := add, 0, b.Length;
    StepsStart(was, length, mul, add, base);
    assert was[n - length..] == b[n - length..];
    LeadingDigit(was, length, base);
    while (carry != 0 || i < length) && i < n
      invariant 0 <= i <= n && Stepping(b[..], was, i, length, carry, mul, add, base)
      decreases n - i
    {
      var k := n - 1 - i;
      StepsDigit(b[..], was, i, length, carry, mul, add, base);
      var x, q := Divide(carry, mul, b[k], base);
      StepsOne(b[..], was, i, length, carry, mul, add, base, x, q);
      assert b[..][k := x] == b[..k] + [x] + b[k + 1..];
      b[k] := x;
      carry := q;
      i := i + 1;
    }
    newLength := i;
    StepsEnd(b[..], was, i, length, carry, mul, add, base);
  }

  /** After `i` digits: the rest is as it was, and the last digits are what they should be but for the carry. */
  ghost predicate Stepping(b: seq<nat>, was: seq<nat>, i: nat, length: nat, carry: nat, mul: nat, add: nat, base: nat) {
    && |b| == |was| && i <= |b| && b[..|b| - i] == was[..|b| - i] && Digits(b, base)
    && Carried(b[|b| - i..], was[|b| - i..], carry, mul, add, base)
    && (i >= length && i > 0 ==> b[|b| - i] != 0 || carry != 0)
  }

  lemma StepsStart(was: seq<nat>, length: nat, mul: nat, add: nat, base: nat)
    requires Digits(was, base)
    ensures Stepping(was, was, 0, length, add, mul, add, base)
  {
    hide Carried;
    assert was[|was|..] == [];
    NoDigits(add, mul, base);
  }

  lemma StepsDigit(b: seq<nat>, was: seq<nat>, i: nat, length: nat, carry: nat, mul: nat, add: nat, base: nat)
    requires Stepping(b, was, i, length, carry, mul, add, base) && i < |b|
    ensures b[|b| - 1 - i] == was[|b| - 1 - i]
  {
    hide Carried;
    var k := |b| - 1 - i;
    assert b[..k + 1][k] == was[..k + 1][k];
  }

  lemma StepsOne(b: seq<nat>, was: seq<nat>, i: nat, length: nat, carry: nat, mul: nat, add: nat, base: nat, x: nat,
                 q: nat)
    requires Stepping(b, was, i, length, carry, mul, add, base) && i < |b| && mul > 0 && (carry != 0 || i < length)
    requires Divided(x, q, carry, mul, b[|b| - 1 - i], base) && x < base
    requires i + 1 >= length && carry == 0 ==> b[|b| - 1 - i] != 0
    ensures Stepping(b[|b| - 1 - i := x], was, i + 1, length, q, mul, add, base)
  {
    hide Carried;
    StepsDigit(b, was, i, length, carry, mul, add, base);
    var k := |b| - 1 - i;
    var c := b[k := x];
    CarryStep(b[k + 1..], was[k + 1..], b[k], x, q, carry, mul, add, base);
    assert c[k..] == [x] + b[k + 1..] && was[k..] == [was[k]] + was[k + 1..];
    assert c[..k] == b[..k + 1][..k] && was[..k] == was[..k + 1][..k];
  }

  lemma LeadingDigit(was: seq<nat>, length: nat, base: nat)
    requires length <= |was| && Canonical(was[|was| - length..], base)
    ensures length > 0 ==> was[|was| - length] != 0
  {
  }

  lemma StepsEnd(b: seq<nat>, was: seq<nat>, i: nat, length: nat, carry: nat, mul: nat, add: nat, base: nat)
    requires Stepping(b, was, i, length, carry, mul, add, base) && length <= i && (i < |b| ==> carry == 0)
    requires ZeroBelow(was, |was| - length) && Value(was, base) * mul + add < Pow(base, |was|)
    ensures Digits(b, base) && ZeroBelow(b, |b| - i) && Canonical(b[|b| - i..], base)
    ensures Value(b, base) == Value(was, base) * mul + add
  {
    hide Value, Pow, Carried, ZeroBelow;
    MultipliedAdded(was, b, i, length, carry, mul, add, base);
  }

  lemma SameZeros(was: seq<nat>, now: seq<nat>, n: nat, m: nat)
    requires n <= |now| && n <= |was| && now[..n] == was[..n] && ZeroBelow(was, m) && n <= m
    ensures ZeroBelow(now, n) && ZeroBelow(was, n)
  {
    forall j | 0 <= j < n ensures now[j] == 0 { assert now[..n][j] == was[..n][j]; }
  }

  lemma MultipliedAdded(was: seq<nat>, now: seq<nat>, i: nat, length: nat, carry: nat, mul: nat, add: nat, base: nat)
    requires |now| == |was| && length <= i <= |now| && now[..|now| - i] == was[..|now| - i]
    requires (i < |now| ==> carry == 0)
    requires ZeroBelow(was, |was| - length) && Value(was, base) * mul + add < Pow(base, |was|)
    requires Carried(now[|now| - i..], was[|now| - i..], carry, mul, add, base)
    ensures carry == 0 && Value(now, base) == Value(was, base) * mul + add && ZeroBelow(now, |now| - i)
  {
    hide Value, Pow, ZeroBelow;
    var n := |now| - i;
    SameZeros(was, now, n, |was| - length);
    ValueOfRest(was, n, base);
    ValueOfRest(now, n, base);
    NoCarry(Value(now[n..], base), carry, Pow(base, i), Value(was, base), mul, add, Pow(base, |now|), i == |now|);
  }

  /** What is carried out of the buffer would be too much. */
  lemma NoCarry(v: nat, carry: nat, p: nat, w: int, mul: int, add: int, limit: int, all: bool)
    requires v + carry * p == mul * w + add && w * mul + add < limit && (all ==> p == limit) && (!all ==> carry == 0)
    ensures carry == 0 && v == w * mul + add
  {
    if carry > 0 { TimesPositive(p, carry); }
  }

  method Divide(carry: nat, mul: nat, d: nat, base: nat) returns (x: nat, q: nat)
    requires base >= 2
    ensures Divided(x, q, carry, mul, d, base) && x < base && (mul > 0 && (carry > 0 || d > 0) ==> x > 0 || q > 0)
  {
    var product := mul * d;
    if mul > 0 && d > 0 { TimesPositive(d, mul); }
    var total := carry + product;
    x, q := total % base, total / base;
    Split(total, base);
    if total > 0 { NotBothZero(total, x, q, base); }
  }

  lemma NotBothZero(total: nat, x: nat, q: nat, base: nat)
    requires total == q * base + x && total > 0
    ensures x > 0 || q > 0
  {
  }

  lemma NoDigits(add: nat, mul: nat, base: nat)
    ensures Carried([], [], add, mul, add, base)
  {
  }

  // ----- characters

  /** The alphabet: all alphanumeric characters but four that are easily confused. */
  function Char(d: nat): char
    requires d < 58
  {
    if d < 9 then '1' + d as char
    else if d < 17 then 'A' + (d - 9) as char
    else if d < 22 then 'J' + (d - 17) as char
    else if d < 33 then 'P' + (d - 22) as char
    else if d < 44 then 'a' + (d - 33) as char
    else 'm' + (d - 44) as char
  }

  /** The digit that a character stands for, or -1. */
  function Digit(c: char): int {
    if '1' <= c <= '9' then c as int - '1' as int
    else if 'A' <= c <= 'H' then c as int - 'A' as int + 9
    else if 'J' <= c <= 'N' then c as int - 'J' as int + 17
    else if 'P' <= c <= 'Z' then c as int - 'P' as int + 22
    else if 'a' <= c <= 'k' then c as int - 'a' as int + 33
    else if 'm' <= c <= 'z' then c as int - 'm' as int + 44
    else -1
  }

  predicate IsSpace(c: char) { c == ' ' || c == '\t' || c == '\n' || c == '\r' || c == '\U{0B}' || c == '\U{0C}' }

  lemma CharDigit(d: nat)
    requires d < 58
    ensures Digit(Char(d)) == d && !IsSpace(Char(d)) && Char(d) != '\0' && (Char(d) == '1' <==> d == 0)
  {
  }

  lemma DigitChar(c: char)
    ensures -1 <= Digit(c) < 58 && (Digit(c) >= 0 ==> Char(Digit(c)) == c && c != '\0')
    ensures (IsSpace(c) ==> Digit(c) == -1)
    ensures Digit(c) == 0 <==> c == '1'
  {
  }

  ghost function Chars(d: seq<nat>): seq<char>
    requires Digits(d, 58)
  {
    seq(|d|, i requires 0 <= i < |d| => Char(d[i]))
  }

  ghost predicate AllDigits(s: seq<char>) { forall i :: 0 <= i < |s| ==> Digit(s[i]) >= 0 }

  ghost function DigitsOf(s: seq<char>): seq<nat>
    requires AllDigits(s)
  {
    seq(|s|, i requires 0 <= i < |s| => Digit(s[i]) as nat)
  }

  function Repeat<T>(x: T, n: nat): seq<T> { seq(n, i => x) }

  /** How often `x` is repeated at the start. */
  ghost function Leading<T>(s: seq<T>, x: T): nat { if s != [] && s[0] == x then 1 + Leading(s[1..], x) else 0 }

  ghost function TrimLeft(s: seq<char>): seq<char> { if s != [] && IsSpace(s[0]) then TrimLeft(s[1..]) else s }

  ghost function TrimRight(s: seq<char>): seq<char> {
    if s != [] && IsSpace(s[|s| - 1]) then TrimRight(s[..|s| - 1]) else s
  }

  ghost function Trim(s: seq<char>): seq<char> { TrimRight(TrimLeft(s)) }

  // ----- what the two conversions are to do

  /** A one for each leading zero byte, and the number in base 58. */
  ghost function Encoded(input: seq<nat>): seq<char> {
    ExpandCanonical(Value(input, 256), 58);
    Repeat('1', Leading(input, 0)) + Chars(Expand(Value(input, 256), 58))
  }

  /** A zero byte for each leading one, and the number in base 256. */
  ghost function Bytes(s: seq<char>): seq<nat>
    requires AllDigits(s)
  {
    Repeat(0, Leading(s, '1')) + Expand(Value(DigitsOf(s), 58), 256)
  }

  /** Nothing but digits between the spaces, and not more bytes than wanted. */
  ghost function Decoded(s: seq<char>, maxLength: int): Option<seq<nat>> {
    if '\0' in s || !AllDigits(Trim(s)) || TooLong(Bytes(Trim(s)), maxLength) then None else Some(Bytes(Trim(s)))
  }

  ghost predicate TooLong(bytes: seq<nat>, maxLength: int) { bytes != [] && |bytes| > maxLength }

  // ----- they are inverse to each other

  lemma {:induction false} LeadingSplit<T>(s: seq<T>, x: T)
    ensures Leading(s, x) <= |s| && s == Repeat(x, Leading(s, x)) + s[Leading(s, x)..]
    ensures Leading(s, x) < |s| ==> s[Leading(s, x)] != x
    decreases |s|
  {
    if s != [] && s[0] == x {
      LeadingSplit(s[1..], x);
      hide Repeat, Leading;
      SplitMore(s, x, Leading(s[1..], x));
    } else {
      assert Repeat(x, 0) == [];
    }
  }

  lemma SplitMore<T>(s: seq<T>, x: T, n: nat)
    requires s != [] && s[0] == x && n < |s| && s[1..] == Repeat(x, n) + s[1..][n..]
    ensures s == Repeat(x, n + 1) + s[n + 1..]
  {
    assert s[1..][n..] == s[n + 1..];
    assert s == [x] + s[1..];
    assert [x] + Repeat(x, n) == Repeat(x, n + 1);
  }

  lemma {:induction false} LeadingOf<T>(x: T, n: nat, s: seq<T>)
    requires s != [] ==> s[0] != x
    ensures Leading(Repeat(x, n) + s, x) == n
    decreases n
  {
    if n == 0 {
      assert Repeat(x, 0) + s == s;
    } else {
      LeadingOf(x, n - 1, s);
      assert (Repeat(x, n) + s)[1..] == Repeat(x, n - 1) + s;
    }
  }

  lemma ValueAfterZeros(n: nat, d: seq<nat>, base: nat)
    ensures Value(Repeat(0, n) + d, base) == Value(d, base)
  {
    ValueZeros(Repeat(0, n), base);
    ValueConcat(Repeat(0, n), d, base);
  }

  lemma TrimNothing(s: seq<char>)
    requires AllDigits(s)
    ensures Trim(s) == s
  {
    if s != [] {
      DigitChar(s[0]);
      DigitChar(s[|s| - 1]);
    }
  }

  lemma DigitsChars(s: seq<char>)
    requires AllDigits(s)
    ensures Digits(DigitsOf(s), 58) && Chars(DigitsOf(s)) == s
    ensures s != [] && s[0] != '1' ==> Canonical(DigitsOf(s), 58)
    ensures s == [] ==> Canonical(DigitsOf(s), 58)
  {
    hide Digit, Char;
    forall i | 0 <= i < |s|
      ensures Digit(s[i]) < 58 && Char(Digit(s[i])) == s[i] && (Digit(s[i]) == 0 <==> s[i] == '1')
    {
      DigitChar(s[i]);
    }
  }

  lemma DigitsAfterOnes(n: nat, s: seq<char>)
    requires AllDigits(s)
    ensures AllDigits(Repeat('1', n) + s) && DigitsOf(Repeat('1', n) + s) == Repeat(0, n) + DigitsOf(s)
  {
  }

  /** What a string of digits looks like: ones, and a canonical number. */
  lemma StringParts(s: seq<char>)
    requires AllDigits(s)
    ensures var n := Leading(s, '1');
            n <= |s| && s == Repeat('1', n) + s[n..] && AllDigits(s[n..]) && Canonical(DigitsOf(s[n..]), 58)
            && DigitsOf(s) == Repeat(0, n) + DigitsOf(s[n..]) && Chars(DigitsOf(s[n..])) == s[n..]
  {
    hide Leading, Digit, Char;
    LeadingSplit(s, '1');
    var n := Leading(s, '1');
    DigitsChars(s[n..]);
    DigitsAfterOnes(n, s[n..]);
  }

  lemma CharsAreDigits(d: seq<nat>, n: nat)
    requires Canonical(d, 58)
    ensures AllDigits(Repeat('1', n) + Chars(d)) && DigitsOf(Repeat('1', n) + Chars(d)) == Repeat(0, n) + d
    ensures Chars(d) != [] ==> Chars(d)[0] != '1'
    ensures '\0' !in Repeat('1', n) + Chars(d)
  {
    forall i | 0 <= i < |d|
      ensures Digit(Char(d[i])) == d[i] && Char(d[i]) != '\0' && (Char(d[i]) == '1' <==> d[i] == 0)
    {
      CharDigit(d[i]);
    }
  }

  /** Decoding undoes encoding, for every byte string. */
  lemma DecodeEncode(input: seq<nat>, maxLength: int)
    requires Digits(input, 256) && maxLength >= |input|
    ensures Decoded(Encoded(input), maxLength) == Some(input)
  {
    hide Expand, Value;
    var z, v := Leading(input, 0), Value(input, 256);
    LeadingSplit(input, 0);
    var rest, d := input[z..], Expand(v, 58);
    ExpandCanonical(v, 58);
    CharsAreDigits(d, z);
    var s := Encoded(input);
    TrimNothing(s);
    LeadingOf('1', z, Chars(d));
    ValueAfterZeros(z, d, 58);
    ValueAfterZeros(z, rest, 256);
    CanonicalIsExpand(rest, 256);
  }

  /** Encoding undoes decoding, up to the spaces around the string. */
  lemma EncodeDecode(s: seq<char>, maxLength: int)
    requires Decoded(s, maxLength).Some?
    ensures Encoded(Decoded(s, maxLength).value) == Trim(s)
  {
    hide Expand, Value, Trim;
    var t := Trim(s);
    StringParts(t);
    var n := Leading(t, '1');
    var d := DigitsOf(t[n..]);
    var v := Value(d, 58);
    ValueAfterZeros(n, d, 58);
    ExpandCanonical(v, 256);
    LeadingOf(0, n, Expand(v, 256));
    ValueAfterZeros(n, Expand(v, 256), 256);
    CanonicalIsExpand(d, 58);
  }

  // ----- the conversions

  /** The number read so far is in the buffer, in the last `length` digits. */
  ghost predicate Holds(b: seq<nat>, length: nat, base: nat, v: nat) {
    && length <= |b| && Digits(b, base) && ZeroBelow(b, |b| - length) && Canonical(b[|b| - length..], base)
    && Value(b, base) == v
  }

  lemma HoldsNothing(b: seq<nat>, base: nat)
    requires base > 0 && ZeroBelow(b, |b|)
    ensures Holds(b, 0, base, 0)
  {
    ValueZeros(b, base);
  }

  lemma HoldsDigits(b: seq<nat>, length: nat, base: nat, v: nat)
    requires Holds(b, length, base, v) && base >= 2
    ensures length <= |b| && b[|b| - length..] == Expand(v, base)
  {
    ValueOfRest(b, |b| - length, base);
    CanonicalIsExpand(b[|b| - length..], base);
  }

  /** The next digit still fits. */
  lemma Fits(d: seq<nat>, k: nat, from: nat, to: nat, size: nat)
    requires k < |d| && Digits(d, from) && from > 0 && Pow(to, size) > Pow(from, |d|)
    ensures Value(d[..k + 1], from) == Value(d[..k], from) * from + d[k] < Pow(to, size)
  {
    assert d[..k + 1] == d[..k] + [d[k]];
    ValueEnd(d[..k], d[k], from);
    ValueBelow(d[..k + 1], from);
    PowGrows(from, k + 1, |d|);
  }

  method AddDigit(b: array<nat>, length: nat, base: nat, ghost d: seq<nat>, ghost k: nat, digit: nat, from: nat)
    returns (newLength: nat)
    requires base >= 2 && from >= 1 && k < |d| && Digits(d, from) && digit == d[k]
    requires Pow(base, b.Length) > Pow(from, |d|)
    requires Holds(b[..], length, base, Value(d[..k], from))
    modifies b
    ensures Holds(b[..], newLength, base, Value(d[..k + 1], from)) && newLength >= length
  {
    hide Value, Pow;
    Fits(d, k, from, base, b.Length);
    newLength := MultiplyAdd(b, length, from, digit, base);
  }

  method EncodeBase58(input: seq<nat>) returns (s: seq<char>)
    requires Digits(input, 256)
    ensures s == Encoded(input)
  {
    hide Value, Pow, Expand, Holds, Leading, Canonical;
    var zeroes := 0;
    while zeroes < |input| && input[zeroes] == 0
      invariant 0 <= zeroes <= |input| && forall i :: 0 <= i < zeroes ==> input[i] == 0
    {
      zeroes := zeroes + 1;
    }
    var rest := input[zeroes..];
    assert input == Repeat(0, zeroes) + rest;
    LeadingOf(0, zeroes, rest);
    ValueAfterZeros(zeroes, rest, 256);
    var size := |rest| * 138 / 100 + 1;
    EncodeRoom(|rest|);
    var b := new nat[size](i => 0);
    var length := 0;
    HoldsNothing(b[..], 58);
    NoValue(rest, 256);
    for k := 0 to |rest|
      invariant Holds(b[..], length, 58, Value(rest[..k], 256))
    {
      length := AddDigit(b, length, 58, rest, k, rest[k], 256);
    }
    assert rest[..|rest|] == rest;
    ghost var v := Value(input, 256);
    HoldsDigits(b[..], length, 58, v);
    ExpandCanonical(v, 58);
    var it := size - length;
    assert b[it..] == Expand(v, 58);
    it := SkipZeros(b, it);
    CanonicalDigits(Expand(v, 58), 58);
    s := Translate(b, it, Repeat('1', zeroes));
  }

  /** Translate the digits from `start` on into characters. */
  method Translate(b: array<nat>, start: nat, ones: seq<char>) returns (s: seq<char>)
    requires start <= b.Length && Digits(b[start..], 58)
    ensures s == ones + Chars(b[start..])
  {
    hide Char;
    s := ones;
    var it := start;
    while it < b.Length
      invariant start <= it <= b.Length && s == ones + Chars(b[start..])[..it - start]
    {
      assert b[it] == b[start..][it - start];
      s := s + [Char(b[it])];
      it := it + 1;
    }
  }

  lemma CanonicalDigits(d: seq<nat>, base: nat)
    requires Canonical(d, base)
    ensures Digits(d, base)
  {
  }

  lemma NoValue(d: seq<nat>, base: nat)
    ensures Value(d[..0], base) == 0
  {
  }

  /** Skip the zeros at the start. A canonical number has none. */
  method SkipZeros(b: array<nat>, start: nat) returns (it: nat)
    requires start <= b.Length
    ensures start <= it <= b.Length && (Canonical(b[start..], 58) ==> it == start)
  {
    it := start;
    while it < b.Length && b[it] == 0
      invariant start <= it <= b.Length && forall i :: start <= i < it ==> b[i] == 0
    {
      it := it + 1;
    }
    assert start < b.Length ==> b[start..][0] == b[start];
  }

  // ----- decoding

  lemma {:induction false} TrimLeftIs(s: seq<char>, p: nat)
    requires p <= |s| && (forall i :: 0 <= i < p ==> IsSpace(s[i])) && (p < |s| ==> !IsSpace(s[p]))
    ensures TrimLeft(s) == s[p..]
    decreases p
  {
    if p > 0 {
      TrimLeftIs(s[1..], p - 1);
      assert s[1..][p - 1..] == s[p..];
    } else {
      assert s[0..] == s;
    }
  }

  lemma {:induction false} TrimRightIs(s: seq<char>, n: nat)
    requires n <= |s| && (forall i :: n <= i < |s| ==> IsSpace(s[i])) && (n > 0 ==> !IsSpace(s[n - 1]))
    ensures TrimRight(s) == s[..n]
    decreases |s| - n
  {
    if n < |s| {
      var t := s[..|s| - 1];
      forall i | n <= i < |t| ensures IsSpace(t[i]) { assert t[i] == s[i]; }
      TrimRightIs(t, n);
      assert t[..n] == s[..n];
    } else {
      assert s[..n] == s;
    }
  }

  /** A space with something else after it stays. */
  lemma {:induction false} SpaceInside(s: seq<char>, i: nat, j: nat)
    requires i < j < |s| && IsSpace(s[i]) && !IsSpace(s[j])
    ensures i < |TrimRight(s)| && TrimRight(s)[i] == s[i]
    decreases |s|
  {
    if IsSpace(s[|s| - 1]) {
      var t := s[..|s| - 1];
      assert t[i] == s[i] && t[j] == s[j];
      SpaceInside(t, i, j);
    }
  }

  /** What does not fit or is not a digit makes the whole fail, however the string goes on. */
  lemma BytesGrow(s: seq<char>, k: nat)
    requires AllDigits(s) && Leading(s, '1') <= k <= |s|
    ensures Leading(s, '1') + |Expand(Value(DigitsOf(s[..k]), 58), 256)| <= |Bytes(s)|
  {
    var d, e := DigitsOf(s), DigitsOf(s[..k]);
    assert e == d[..k];
    assert d == d[..k] + d[k..];
    ValueConcat(d[..k], d[k..], 58);
    PowPositive(58, |d[k..]|);
    TimesPositive(Value(e, 58), Pow(58, |d[k..]|));
    ExpandGrows(Value(e, 58), Value(d, 58), 256);
  }

  /** What comes before the first space stays. */
  lemma {:induction false} PrefixStays(t: seq<char>, k: nat)
    requires k <= |t| && forall i :: 0 <= i < k ==> !IsSpace(t[i])
    ensures k <= |TrimRight(t)| && TrimRight(t)[..k] == t[..k]
    decreases |t|
  {
    if t != [] && IsSpace(t[|t| - 1]) {
      var u := t[..|t| - 1];
      assert k <= |u| && u[..k] == t[..k];
      forall i | 0 <= i < k ensures !IsSpace(u[i]) { assert u[i] == t[i]; }
      PrefixStays(u, k);
    }
  }

  /** The state after some digits: `z` ones, then the digits in the buffer. */
  ghost predicate Reading(t: seq<char>, z: nat, k: nat, b: seq<nat>, length: nat) {
    && z <= k <= |t| && (forall i :: 0 <= i < k ==> Digit(t[i]) >= 0 && !IsSpace(t[i]))
    && (forall i :: 0 <= i < z ==> t[i] == '1') && (z < |t| ==> t[z] != '1')
    && AllDigits(t[z..k]) && Holds(b, length, 256, Value(DigitsOf(t[z..k]), 58))
  }

  lemma OnesFirst(t: seq<char>, z: nat, k: nat)
    requires z <= k <= |t| && AllDigits(t[..k]) && (forall i :: 0 <= i < z ==> t[i] == '1')
    ensures AllDigits(t[z..k]) && t[..k] == Repeat('1', z) + t[z..k]
    ensures Value(DigitsOf(t[..k]), 58) == Value(DigitsOf(t[z..k]), 58)
  {
    assert t[..k] == Repeat('1', z) + t[z..k];
    forall i | 0 <= i < k - z ensures Digit(t[z..k][i]) >= 0 { assert t[z..k][i] == t[..k][z + i]; }
    DigitsAfterOnes(z, t[z..k]);
    ValueAfterZeros(z, DigitsOf(t[z..k]), 58);
  }

  /** Too many bytes so far are too many in the end. */
  lemma TooLongAlready(t: seq<char>, z: nat, k: nat, b: seq<nat>, length: nat, maxLength: int)
    requires Reading(t, z, k, b, length) && z + length > maxLength && k > z
    ensures AllDigits(TrimRight(t)) ==> TooLong(Bytes(TrimRight(t)), maxLength)
  {
    var q := TrimRight(t);
    PrefixStays(t, k);
    if AllDigits(q) {
      hide TrimRight, Value, Expand, Holds, Digit;
      assert forall i :: 0 <= i < k ==> q[..k][i] == t[..k][i];
      assert q == Repeat('1', z) + q[z..];
      LeadingOf('1', z, q[z..]);
      BytesGrow(q, k);
      OnesFirst(t, z, k);
      HoldsDigits(b, length, 256, Value(DigitsOf(t[z..k]), 58));
      PositiveLength(t, z, k);
    }
  }

  /** A first digit that is not zero makes at least one byte. */
  lemma PositiveLength(t: seq<char>, z: nat, k: nat)
    requires z < k <= |t| && AllDigits(t[z..k]) && t[z] != '1'
    ensures |Expand(Value(DigitsOf(t[z..k]), 58), 256)| > 0
  {
    DigitsChars(t[z..k]);
    CanonicalPositive(DigitsOf(t[z..k]), 58);
  }

  lemma OnesTooLong(t: seq<char>, z: nat, maxLength: int)
    requires 0 < z <= |t| && (forall i :: 0 <= i < z ==> t[i] == '1') && z > maxLength
    ensures AllDigits(TrimRight(t)) ==> TooLong(Bytes(TrimRight(t)), maxLength)
  {
    var q := TrimRight(t);
    PrefixStays(t, z);
    if AllDigits(q) {
      hide TrimRight, Value, Expand, Digit, Leading;
      forall i | 0 <= i < z ensures q[i] == '1' { assert q[..z][i] == t[..z][i]; }
      ManyOnes(q, z);
    }
  }

  lemma {:induction false} ManyOnes(q: seq<char>, z: nat)
    requires z <= |q| && forall i :: 0 <= i < z ==> q[i] == '1'
    ensures Leading(q, '1') >= z
    decreases z
  {
    if z > 0 { ManyOnes(q[1..], z - 1); }
  }

  lemma NotADigit(t: seq<char>, k: nat)
    requires k < |t| && (forall i :: 0 <= i < k ==> !IsSpace(t[i])) && !IsSpace(t[k]) && Digit(t[k]) < 0
    ensures !AllDigits(TrimRight(t))
  {
    PrefixStays(t, k + 1);
    assert TrimRight(t)[..k + 1][k] == t[..k + 1][k];
  }

  lemma NotAtEnd(t: seq<char>, i: nat, j: nat)
    requires i < j < |t| && IsSpace(t[i]) && !IsSpace(t[j])
    ensures !AllDigits(TrimRight(t))
  {
    SpaceInside(t, i, j);
    DigitChar(t[i]);
  }

  /** All is read: the bytes are in the buffer. */
  lemma AllRead(t: seq<char>, z: nat, k: nat, b: seq<nat>, length: nat)
    requires Reading(t, z, k, b, length) && forall i :: k <= i < |t| ==> IsSpace(t[i])
    ensures AllDigits(TrimRight(t)) && length <= |b| && Bytes(TrimRight(t)) == Repeat(0, z) + b[|b| - length..]
  {
    TrimRightIs(t, k);
    var q := t[..k];
    hide TrimRight, Value, Expand, Holds, Digit;
    OnesFirst(t, z, k);
    LeadingOf('1', z, t[z..k]);
    HoldsDigits(b, length, 256, Value(DigitsOf(t[z..k]), 58));
  }

  lemma StartReading(t: seq<char>, z: nat, b: seq<nat>)
    requires z <= |t| && (forall i :: 0 <= i < z ==> t[i] == '1') && (z < |t| ==> t[z] != '1') && ZeroBelow(b, |b|)
    ensures Reading(t, z, z, b, 0)
  {
    HoldsNothing(b, 256);
    assert t[z..z] == [];
  }

  lemma DigitsMore(t: seq<char>, z: nat, k: nat)
    requires z <= k < |t| && AllDigits(t[z..k]) && Digit(t[k]) >= 0
    ensures AllDigits(t[z..k + 1])
    ensures var d := DigitsOf(t[z..k + 1]);
            |d| == k - z + 1 && d[..k - z] == DigitsOf(t[z..k]) && d[k - z] == Digit(t[k]) && Digits(d, 58)
  {
    assert t[z..k + 1] == t[z..k] + [t[k]];
    DigitsChars(t[z..k + 1]);
  }

  /** Read one more digit. */
  method ReadDigit(ghost t: seq<char>, ghost z: nat, ghost k: nat, b: array<nat>, length: nat, digit: nat)
    returns (newLength: nat)
    requires Reading(t, z, k, b[..], length) && k < |t| && digit == Digit(t[k]) && !IsSpace(t[k])
    requires b.Length == (|t| - z) * 733 / 1000 + 1
    modifies b
    ensures Reading(t, z, k + 1, b[..], newLength)
  {
    hide Value, Pow, Holds, Digit;
    DigitsMore(t, z, k);
    ghost var d := DigitsOf(t[z..k + 1]);
    DecodeRoom(|t| - z);
    PowGrows(58, |d|, |t| - z);
    assert d[..k - z + 1] == d;
    newLength := AddDigit(b, length, 256, d, k - z, digit, 58);
  }

  method DecodeBase58(s: seq<char>, maxLength: int) returns (r: Option<seq<nat>>)
    ensures r == Decoded(s, maxLength)
  {
    hide Digit, Reading, TrimRight, TrimLeft, Bytes, AllDigits, TooLong;
    if '\0' in s { return None; }
    var p := 0;
    while p < |s| && IsSpace(s[p])
      invariant 0 <= p <= |s| && forall i :: 0 <= i < p ==> IsSpace(s[i])
    {
      p := p + 1;
    }
    TrimLeftIs(s, p);
    var t := s[p..];
    var zeroes := 0;
    while zeroes < |t| && t[zeroes] == '1'
      invariant 0 <= zeroes <= |t| && (forall i :: 0 <= i < zeroes ==> t[i] == '1')
      invariant (zeroes > 0 ==> zeroes <= maxLength)
    {
      zeroes := zeroes + 1;
      if zeroes > maxLength {
        OnesTooLong(t, zeroes, maxLength);
        return None;
      }
    }
    var size := (|t| - zeroes) * 733 / 1000 + 1;
    var b := new nat[size](i => 0);
    var length: nat, k := 0, zeroes;
    StartReading(t, zeroes, b[..]);
    while k < |t| && !IsSpace(t[k])
      invariant zeroes <= k <= |t| && Reading(t, zeroes, k, b[..], length) && (k > 0 ==> zeroes + length <= maxLength)
      invariant k == zeroes ==> length == 0
    {
      var carry := Digit(t[k]);
      if carry == -1 {
        ReadSoFar(t, zeroes, k, b[..], length);
        DigitChar(t[k]);
        NotADigit(t, k);
        return None;
      }
      DigitChar(t[k]);
      length := ReadDigit(t, zeroes, k, b, length, carry);
      k := k + 1;
      if length + zeroes > maxLength {
        TooLongAlready(t, zeroes, k, b[..], length, maxLength);
        return None;
      }
    }
    var end := k;
    while end < |t| && IsSpace(t[end])
      invariant k <= end <= |t| && forall i :: k <= i < end ==> IsSpace(t[i])
    {
      end := end + 1;
    }
    if end != |t| {
      NotAtEnd(t, k, end);
      return None;
    }
    AllRead(t, zeroes, k, b[..], length);
    NotTooLong(zeroes, b[size - length..], maxLength, k);
    r := Some(Repeat(0, zeroes) + b[size - length..]);
  }

  lemma ReadSoFar(t: seq<char>, z: nat, k: nat, b: seq<nat>, length: nat)
    requires Reading(t, z, k, b, length)
    ensures k <= |t| && forall i :: 0 <= i < k ==> !IsSpace(t[i])
  {
  }

  lemma NotTooLong(z: nat, rest: seq<nat>, maxLength: int, k: nat)
    requires (k > 0 ==> z + |rest| <= maxLength) && (k == 0 ==> z == 0 && rest == [])
    ensures !TooLong(Repeat(0, z) + rest, maxLength)
  {
  }
}
