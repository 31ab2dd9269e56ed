/** Numbers as 32-bit limbs, the least significant first, and their arithmetic limb by limb
    (src/arith_uint256.h, src/arith_uint256.cpp). */
module Limbs {
  import opened Positional

  const BASE: nat := 0x1_0000_0000

  /** The number that the limbs stand for. */
  ghost function Val(p: seq<nat>): nat { if p == [] then 0 else Val(p[..|p| - 1]) + p[|p| - 1] * Pow(BASE, |p| - 1) }

  ghost predicate Fit(p: seq<nat>) { forall i :: 0 <= i < |p| ==> p[i] < BASE }

  /** One more than the largest number of so many limbs. */
  ghost function Top(n: nat): nat { Pow(BASE, n) }

  /** A number modulo what so many limbs can hold. */
  ghost function Wrap(v: int, n: nat): nat {
    TopPositive(n);
    v % Top(n)
  }

  // ----- values

  lemma TopPositive(n: nat)
    ensures Top(n) > 0 && Top(0) == 1 && Top(n + 1) == BASE * Top(n)
  {
    PowPositive(BASE, n);
  }

  lemma ValEnd(p: seq<nat>, x: nat)
    ensures Val(p + [x]) == Val(p) + x * Top(|p|)
  {
    assert (p + [x])[..|p|] == p;
  }

  lemma ValPrefix(p: seq<nat>, i: nat)
    requires i < |p|
    ensures Val(p[..i + 1]) == Val(p[..i]) + p[i] * Top(i)
  {
    assert p[..i + 1] == p[..i] + [p[i]];
    ValEnd(p[..i], p[i]);
  }

  lemma {:induction false} ValSet(p: seq<nat>, j: nat, x: nat)
    requires j < |p|
    ensures Val(p[j := x]) == Val(p) + (x - p[j]) * Top(j)
    decreases |p|
  {
    var n := |p| - 1;
    var q := p[j := x];
    if j < n {
      ValSet(p[..n], j, x);
      assert q[..n] == p[..n][j := x];
    } else {
      assert q[..n] == p[..n];
      Subtract(x, p[j], Top(j));
    }
  }

  lemma Subtract(x: int, y: int, t: int)
    ensures (x - y) * t == x * t - y * t
  {
  }

  lemma {:induction false} ValBelow(p: seq<nat>)
    requires Fit(p)
    ensures Val(p) < Top(|p|)
    decreases |p|
  {
    if p != [] {
      var n := |p| - 1;
      ValBelow(p[..n]);
      TopPositive(n);
      BelowNext(Val(p[..n]), p[n], Top(n));
    }
  }

  lemma BelowNext(v: nat, x: nat, t: nat)
    requires v < t && x < BASE
    ensures v + x * t < BASE * t
  {
    var d := BASE - 1 - x;
    assert d * t >= 0;
    assert BASE * t == (x + 1 + d) * t == x * t + t + d * t;
  }

  lemma {:induction false} ValZero(p: seq<nat>)
    requires forall i :: 0 <= i < |p| ==> p[i] == 0
    ensures Val(p) == 0
    decreases |p|
  {
    if p != [] { ValZero(p[..|p| - 1]); }
  }

  /** A value is known from what it is congruent to. */
  lemma Reduced(v: nat, w: int, q: int, n: nat)
    requires v < Top(n) && w == v + q * Top(n)
    ensures v == Wrap(w, n)
  {
    var top := Top(n);
    SameQuotient(w / top, w % top, q, v, top);
  }

  // ----- addition

  lemma CarryOut(v: int, c: int, x: int, d: int, t: int, low: int, high: int)
    requires v + c * t == low && c + x == d + high * BASE
    ensures v + d * t + high * (BASE * t) == low + x * t
  {
    assert (c + x) * t == c * t + x * t;
    assert (d + high * BASE) * t == d * t + high * (BASE * t);
  }

  method Add(p: seq<nat>, q: seq<nat>) returns (r: seq<nat>)
    requires |p| == |q| && Fit(p) && Fit(q)
    ensures |r| == |p| && Fit(r) && Val(r) == Wrap(Val(p) + Val(q), |p|)
  {
    hide Val, Top;
    r := p;
    var carry := 0;
    Nothing(p, q, r);
    for i := 0 to |p|
      invariant |r| == |p| && Fit(r) && r[i..] == p[i..] && 0 <= carry <= 1
      invariant Val(r[..i]) + carry * Top(i) == Val(p[..i]) + Val(q[..i])
    {
      var n := carry + r[i] + q[i];
      assert n < 0x1_0000_0000_0000_0000;
      ghost var before := r;
      r := r[i := n % BASE];
      AddStep(before[..i], p[..i], q[..i], p, q, r, i, carry, n);
      carry := n / BASE;
    }
    Whole(p, q, r);
    ValBelow(r);
    Reduced(Val(r), Val(p) + Val(q), carry, |p|);
  }

  lemma Nothing(p: seq<nat>, q: seq<nat>, r: seq<nat>)
    ensures Val(p[..0]) == 0 && Val(q[..0]) == 0 && Val(r[..0]) == 0 && Top(0) == 1
  {
  }

  lemma Whole(p: seq<nat>, q: seq<nat>, r: seq<nat>)
    ensures p[..|p|] == p && q[..|q|] == q && r[..|r|] == r
  {
  }

  lemma AddStep(low: seq<nat>, pl: seq<nat>, ql: seq<nat>, p: seq<nat>, q: seq<nat>, r: seq<nat>, i: nat, carry: nat,
                n: nat)
    requires i < |p| == |q| == |r| && low == r[..i] && pl == p[..i] && ql == q[..i]
    requires Val(low) + carry * Top(i) == Val(pl) + Val(ql) && n == carry + p[i] + q[i] && r[i] == n % BASE
    ensures Val(r[..i + 1]) + n / BASE * Top(i + 1) == Val(p[..i + 1]) + Val(q[..i + 1])
  {
    hide Val;
    ValPrefix(r, i);
    ValPrefix(p, i);
    ValPrefix(q, i);
    TopPositive(i);
    hide Top;
    CarryOut(Val(low), carry, p[i] + q[i], r[i], Top(i), Val(pl) + Val(ql), n / BASE);
    Distribute(p[i], q[i], Top(i));
  }

  lemma Distribute(a: int, b: int, t: int)
    ensures (a + b) * t == a * t + b * t
  {
  }

  // ----- complement, negation, subtraction

  method Not(p: seq<nat>) returns (r: seq<nat>)
    requires Fit(p)
    ensures |r| == |p| && Fit(r) && Val(r) == Top(|p|) - 1 - Val(p)
  {
    hide Val, Top;
    r := p;
    Nothing(p, p, r);
    for i := 0 to |p|
      invariant |r| == |p| && Fit(r) && r[i..] == p[i..] && Val(r[..i]) + Val(p[..i]) == Top(i) - 1
    {
      ghost var before := r;
      r := r[i := BASE - 1 - r[i]];
      assert before[..i] == r[..i];
      NotStep(p, r, i);
    }
    Whole(p, p, r);
  }

  lemma NotStep(p: seq<nat>, r: seq<nat>, i: nat)
    requires i < |p| == |r| && r[i] == BASE - 1 - p[i] && Val(r[..i]) + Val(p[..i]) == Top(i) - 1
    ensures Val(r[..i + 1]) + Val(p[..i + 1]) == Top(i + 1) - 1
  {
    hide Val;
    ValPrefix(r, i);
    ValPrefix(p, i);
    TopPositive(i);
    hide Top;
    Distribute(r[i], p[i], Top(i));
    Subtract(BASE, 1, Top(i));
  }

  /** Add one: zeros are left behind as long as it is carried. */
  method Increment(p: seq<nat>) returns (r: seq<nat>)
    requires Fit(p)
    ensures |r| == |p| && Fit(r) && Val(r) == Wrap(Val(p) + 1, |p|)
  {
    hide Val, Top, Wrap;
    r := p;
    var i := 0;
    Nothing(p, p, r);
    while i < |p|
      invariant 0 <= i <= |p| == |r| && Fit(r) && r[i..] == p[i..] && Val(r) + Top(i) == Val(p) + 1
    {
      var n := (r[i] + 1) % BASE;
      IncrementStep(r, i, n);
      r := r[i := n];
      if n != 0 { break; }
      i := i + 1;
    }
    ValBelow(r);
    Reduced(Val(r), Val(p) + 1, if i < |p| then 0 else 1, |p|);
  }

  lemma IncrementStep(r: seq<nat>, i: nat, n: nat)
    requires i < |r| && Fit(r) && n == (r[i] + 1) % BASE
    ensures n != 0 ==> Val(r[i := n]) == Val(r) + Top(i)
    ensures n == 0 ==> Val(r[i := n]) + Top(i + 1) == Val(r) + Top(i)
  {
    hide Val, Top;
    ValSet(r, i, n);
    TopPositive(i);
    Subtract(if n == 0 then BASE else 0, 1, Top(i));
    NextLimb(r[i], n);
  }

  lemma NextLimb(x: nat, n: nat)
    requires x < BASE && n == (x + 1) % BASE
    ensures n - x == if n == 0 then 1 - BASE else 1
  {
  }

  method Negate(p: seq<nat>) returns (r: seq<nat>)
    requires Fit(p)
    ensures |r| == |p| && Fit(r) && Val(r) == Wrap(0 - Val(p), |p|)
  {
    hide Val, Top, Wrap;
    r := Not(p);
    r := Increment(r);
    WrapShift(0 - Val(p), 1, |p|);
  }

  lemma WrapShift(v: int, k: int, n: nat)
    ensures Wrap(v + k * Top(n), n) == Wrap(v, n)
  {
    TopPositive(n);
    Reduced(Wrap(v, n), v + k * Top(n), v / Top(n) + k, n);
    Distribute(v / Top(n), k, Top(n));
  }

  lemma WrapAdd(v: int, w: int, n: nat)
    ensures Wrap(v + Wrap(w, n), n) == Wrap(v + w, n)
  {
    TopPositive(n);
    assert w == w / Top(n) * Top(n) + Wrap(w, n);
    WrapShift(v + Wrap(w, n), w / Top(n), n);
  }

  method Sub(p: seq<nat>, q: seq<nat>) returns (r: seq<nat>)
    requires |p| == |q| && Fit(p) && Fit(q)
    ensures |r| == |p| && Fit(r) && Val(r) == Wrap(Val(p) - Val(q), |p|)
  {
    hide Val, Top, Wrap;
    r := Negate(q);
    r := Add(p, r);
    WrapAdd(Val(p), 0 - Val(q), |p|);
  }

  // ----- multiplication

  method MulSmall(p: seq<nat>, b: nat) returns (r: seq<nat>)
    requires Fit(p) && b < BASE
    ensures |r| == |p| && Fit(r) && Val(r) == Wrap(Val(p) * b, |p|)
  {
    hide Val, Top, Wrap;
    r := p;
    var carry := 0;
    Nothing(p, p, r);
    for i := 0 to |p|
      invariant |r| == |p| && Fit(r) && r[i..] == p[i..] && 0 <= carry < BASE
      invariant Val(r[..i]) + carry * Top(i) == Val(p[..i]) * b
    {
      ProductFits(b, r[i], carry, 0);
      var n := carry + b * r[i];
      assert n < 0x1_0000_0000_0000_0000;
      ghost var before := r;
      r := r[i := n % BASE];
      assert before[..i] == r[..i];
      MulSmallStep(p, r, b, i, carry, n);
      carry := n / BASE;
    }
    Whole(p, p, r);
    ValBelow(r);
    Reduced(Val(r), Val(p) * b, carry, |p|);
  }

  /** A product of limbs and two more limbs fit into 64 bits, and what is carried into 32. */
  lemma ProductFits(a: nat, b: nat, c: nat, d: nat)
    requires a < BASE && b < BASE && c < BASE && d < BASE
    ensures 0 <= c + d + a * b < BASE * BASE && (c + d + a * b) / BASE < BASE
  {
    ProductBound(a, b, BASE - 1);
    Quotient(c + d + a * b);
  }

  lemma ProductBound(a: nat, b: nat, m: nat)
    requires a <= m && b <= m
    ensures 0 <= a * b <= m * m
  {
    assert a * b <= m * b;
    assert m * b <= m * m;
  }

  lemma Quotient(n: nat)
    requires n < BASE * BASE
    ensures n / BASE < BASE
  {
  }

  lemma MulSmallStep(p: seq<nat>, r: seq<nat>, b: nat, i: nat, carry: nat, n: nat)
    requires i < |p| == |r| && Val(r[..i]) + carry * Top(i) == Val(p[..i]) * b && n == carry + b * p[i]
    requires r[i] == n % BASE
    ensures Val(r[..i + 1]) + n / BASE * Top(i + 1) == Val(p[..i + 1]) * b
  {
    hide Val;
    ValPrefix(r, i);
    ValPrefix(p, i);
    TopPositive(i);
    hide Top;
    CarryOut(Val(r[..i]), carry, b * p[i], r[i], Top(i), Val(p[..i]) * b, n / BASE);
    Distribute(Val(p[..i]), p[i] * Top(i), b);
    Rotate(p[i], Top(i), b);
  }

  lemma Rotate(x: int, t: int, b: int)
    ensures x * t * b == b * x * t
  {
  }

  lemma TopAdd(m: nat, n: nat)
    ensures Top(m + n) == Top(m) * Top(n)
  {
    PowAdd(BASE, m, n);
  }

  lemma {:induction false} ValConcat(p: seq<nat>, q: seq<nat>)
    ensures Val(p + q) == Val(p) + Val(q) * Top(|p|)
    decreases |q|
  {
    if q == [] {
      assert p + q == p;
    } else {
      var n := |q| - 1;
      ValConcat(p, q[..n]);
      assert p + q == (p + q[..n]) + [q[n]];
      ValEnd(p + q[..n], q[n]);
      TopAdd(|p|, n);
      hide Top;
      Distribute(Val(q[..n]), q[n] * Top(n), Top(|p|));
      Rotate3(q[n], Top(n), Top(|p|));
    }
  }

  lemma Rotate3(x: int, t: int, u: int)
    ensures x * t * u == x * (u * t)
  {
  }

  /** One limb of a row. */
  lemma RowStep(a: seq<nat>, v: int, x: nat, q: seq<nat>, i: nat, j: nat, carry: nat, n: nat)
    requires i < |q| && i + j < |a| && Val(a) + carry * Top(i + j) == v + x * Val(q[..i]) * Top(j)
    requires n == carry + a[i + j] + x * q[i]
    ensures Val(a[i + j := n % BASE]) + n / BASE * Top(i + j + 1) == v + x * Val(q[..i + 1]) * Top(j)
  {
    ValSet(a, i + j, n % BASE);
    ValPrefix(q, i);
    TopPositive(i + j);
    TopAdd(i, j);
    hide Val, Top;
    RowAlgebra(Val(a), v, x, Val(q[..i]), q[i], Top(i), Top(j), Top(i + j), carry, a[i + j], n % BASE, n / BASE);
  }

  lemma RowAlgebra(a: int, v: int, x: int, w: int, y: int, ti: int, tj: int, t: int, carry: int, was: int, d: int,
                   high: int)
    requires a + carry * t == v + x * w * tj && t == ti * tj && d + high * BASE == carry + was + x * y
    ensures a + (d - was) * t + high * (BASE * t) == v + x * (w + y * ti) * tj
  {
    assert (d - was + high * BASE) * t == (d - was) * t + high * (BASE * t);
    assert (carry + x * y) * t == carry * t + x * y * t;
    assert x * (w + y * ti) * tj == x * w * tj + x * y * (ti * tj);
  }

  /** A row of the product: one limb times the other number, as far as it matters. */
  method AddRow(a: seq<nat>, x: nat, q: seq<nat>, j: nat) returns (r: seq<nat>, ghost lost: int)
    requires |a| == |q| && j < |a| && Fit(a) && Fit(q) && x < BASE
    ensures |r| == |a| && Fit(r) && Val(r) + lost * Top(|a|) == Val(a) + x * Val(q) * Top(j)
  {
    hide Val, Top;
    r := a;
    var carry, i := 0, 0;
    Nothing(q, q, q);
    while i + j < |a|
      invariant 0 <= i <= |a| - j && |r| == |a| && Fit(r) && 0 <= carry < BASE
      invariant Val(r) + carry * Top(i + j) == Val(a) + x * Val(q[..i]) * Top(j)
    {
      ProductFits(x, q[i], carry, r[i + j]);
      var n := carry + r[i + j] + x * q[i];
      assert n < 0x1_0000_0000_0000_0000;
      RowStep(r, Val(a), x, q, i, j, carry, n);
      r := r[i + j := n % BASE];
      carry := n / BASE;
      i := i + 1;
    }
    assert q == q[..i] + q[i..];
    ValConcat(q[..i], q[i..]);
    TopAdd(i, j);
    lost := carry + x * Val(q[i..]);
    RowEnd(Val(r), carry, Val(a), x, Val(q[..i]), Val(q[i..]), Top(i), Top(j), Top(|a|));
  }

  lemma RowEnd(r: int, carry: int, a: int, x: int, low: int, high: int, ti: int, tj: int, t: int)
    requires r + carry * t == a + x * low * tj && t == ti * tj
    ensures r + (carry + x * high) * t == a + x * (low + high * ti) * tj
  {
    assert (carry + x * high) * t == carry * t + x * high * t;
    assert x * (low + high * ti) * tj == x * low * tj + x * high * (ti * tj);
  }

  method Mul(p: seq<nat>, q: seq<nat>) returns (r: seq<nat>)
    requires |p| == |q| && Fit(p) && Fit(q)
    ensures |r| == |p| && Fit(r) && Val(r) == Wrap(Val(p) * Val(q), |p|)
  {
    hide Val, Top, Wrap;
    r := seq(|p|, i => 0);
    ghost var lost := 0;
    ValZero(r);
    Nothing(p, p, p);
    for j := 0 to |p|
      invariant |r| == |p| && Fit(r) && Val(r) + lost * Top(|p|) == Val(p[..j]) * Val(q)
    {
      ghost var before, more := Val(r), 0;
      r, more := AddRow(r, p[j], q, j);
      ValPrefix(p, j);
      MulAlgebra(before, lost, Val(p[..j]), Val(q), Val(r), more, p[j], Top(j), Top(|p|));
      lost := lost + more;
    }
    Whole(p, q, r);
    ValBelow(r);
    Reduced(Val(r), Val(p) * Val(q), lost, |p|);
  }

  lemma MulAlgebra(a: int, lost: int, low: int, q: int, r: int, more: int, x: int, tj: int, t: int)
    requires a + lost * t == low * q && r + more * t == a + x * q * tj
    ensures r + (lost + more) * t == (low + x * tj) * q
  {
    assert (lost + more) * t == lost * t + more * t;
    assert (low + x * tj) * q == low * q + x * q * tj;
  }

  // ----- comparison

  lemma {:induction false} HigherDecides(p: seq<nat>, q: seq<nat>, i: nat)
    requires i < |p| == |q| && Fit(p) && Fit(q) && p[i] < q[i] && p[i + 1..] == q[i + 1..]
    ensures Val(p) < Val(q)
  {
    assert p == p[..i] + [p[i]] + p[i + 1..] && q == q[..i] + [q[i]] + q[i + 1..];
    ValConcat(p[..i] + [p[i]], p[i + 1..]);
    ValConcat(q[..i] + [q[i]], q[i + 1..]);
    ValEnd(p[..i], p[i]);
    ValEnd(q[..i], q[i]);
    ValBelow(p[..i]);
    TimesOrder(p[i], q[i], Top(i));
  }

  method CompareTo(p: seq<nat>, q: seq<nat>) returns (r: int)
    requires |p| == |q| && Fit(p) && Fit(q)
    ensures r == if Val(p) < Val(q) then -1 else if Val(p) > Val(q) then 1 else 0
  {
    hide Val;
    var i := |p| - 1;
    while i >= 0
      invariant -1 <= i < |p| && p[i + 1..] == q[i + 1..]
    {
      if p[i] < q[i] {
        HigherDecides(p, q, i);
        return -1;
      }
      if p[i] > q[i] {
        HigherDecides(q, p, i);
        return 1;
      }
      assert p[i..] == [p[i]] + p[i + 1..] && q[i..] == [q[i]] + q[i + 1..];
      i := i - 1;
    }
    assert p[0..] == p && q[0..] == q;
    return 0;
  }
}
