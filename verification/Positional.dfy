/** Numbers as digits in a base, the most significant digit first. */
module Positional {

  function Pow(base: nat, n: nat): nat { if n == 0 then 1 else base * Pow(base, n - 1) }

  ghost function Value(d: seq<nat>, base: nat): nat {
    if d == [] then 0 else Value(d[..|d| - 1], base) * base + d[|d| - 1]
  }

  ghost predicate Digits(d: seq<nat>, base: nat) { forall i :: 0 <= i < |d| ==> d[i] < base }

  /** The digits of a number, without leading zeros. */
  ghost function Expand(v: nat, base: nat): seq<nat>
    requires base >= 2
    decreases v
  {
    if v == 0 then [] else ExpandSmaller(v, base); Expand(v / base, base) + [v % base]
  }

  lemma ExpandSmaller(v: nat, base: nat)
    requires base >= 2 && v > 0
    ensures v / base < v
  {
    assert v < v * base;
    assert v / base * base <= v;
  }

  ghost predicate Canonical(d: seq<nat>, base: nat) { Digits(d, base) && (d != [] ==> d[0] != 0) }

  // ----- powers

  lemma {:induction false} PowPositive(base: nat, n: nat)
    requires base > 0
    ensures Pow(base, n) > 0
    decreases n
  {
    if n > 0 {
      PowPositive(base, n - 1);
      assert base * Pow(base, n - 1) > 0;
    }
  }

  lemma {:induction false} PowAdd(base: nat, m: nat, n: nat)
    ensures Pow(base, m + n) == Pow(base, m) * Pow(base, n)
    decreases m
  {
    if m > 0 {
      PowAdd(base, m - 1, n);
      Associate(base, Pow(base, m - 1), Pow(base, n));
    }
  }

  lemma Associate(a: nat, b: nat, c: nat)
    ensures a * (b * c) == (a * b) * c
  {
  }

  lemma {:induction false} PowGrows(base: nat, m: nat, n: nat)
    requires base > 0 && m <= n
    ensures Pow(base, m) <= Pow(base, n)
    decreases n - m
  {
    PowPositive(base, m);
    PowPositive(base, n - m);
    PowAdd(base, m, n - m);
    TimesPositive(Pow(base, m), Pow(base, n - m));
  }

  lemma TimesPositive(a: nat, b: nat)
    requires b > 0
    ensures a <= a * b
  {
  }

  lemma TimesLess(a: nat, b: nat, c: nat, d: nat)
    requires a < b && c <= d && d > 0
    ensures a * c < b * d
  {
    assert a * c <= a * d;
    assert (b - a) * d > 0;
  }

  lemma {:induction false} PowTimes(base: nat, m: nat, k: nat)
    ensures Pow(base, m * k) == Pow(Pow(base, m), k)
    decreases k
  {
    if k == 0 {
      assert m * k == 0;
    } else {
      assert m * k == m + m * (k - 1);
      PowAdd(base, m, m * (k - 1));
      PowTimes(base, m, k - 1);
    }
  }

  lemma {:induction false} PowLess(a: nat, b: nat, k: nat)
    requires a < b
    ensures Pow(a, k) <= Pow(b, k) && (k > 0 ==> Pow(a, k) < Pow(b, k))
    decreases k
  {
    if k > 0 {
      PowLess(a, b, k - 1);
      PowPositive(b, k - 1);
      TimesLess(a, b, Pow(a, k - 1), Pow(b, k - 1));
    }
  }

  // ----- values

  lemma ValueEnd(d: seq<nat>, x: nat, base: nat)
    ensures Value(d + [x], base) == Value(d, base) * base + x
  {
    assert (d + [x])[..|d|] == d;
  }

  lemma {:induction false} ValueConcat(a: seq<nat>, b: seq<nat>, base: nat)
    ensures Value(a + b, base) == Value(a, base) * Pow(base, |b|) + Value(b, base)
    decreases |b|
  {
    if b == [] {
      assert a + b == a;
    } else {
      var n := |b| - 1;
      ValueConcat(a, b[..n], base);
      assert a + b == (a + b[..n]) + [b[n]];
      ValueEnd(a + b[..n], b[n], base);
      Regroup(Value(a, base), Pow(base, n), Value(b[..n], base), base);
    }
  }

  lemma Regroup(v: nat, p: nat, w: nat, base: nat)
    ensures (v * p + w) * base == v * (base * p) + w * base
  {
  }

  lemma {:induction false} ValueZeros(d: seq<nat>, base: nat)
    requires forall i :: 0 <= i < |d| ==> d[i] == 0
    ensures Value(d, base) == 0
    decreases |d|
  {
    if d != [] { ValueZeros(d[..|d| - 1], base); }
  }

  lemma {:induction false} ValueBelow(d: seq<nat>, base: nat)
    requires Digits(d, base) && base > 0
    ensures Value(d, base) < Pow(base, |d|)
    decreases |d|
  {
    if d != [] {
      var n := |d| - 1;
      ValueBelow(d[..n], base);
      Below(Value(d[..n], base), Pow(base, n), d[n], base);
    }
  }

  lemma Below(v: nat, p: nat, x: nat, base: nat)
    requires v < p && x < base
    ensures v * base + x < base * p
  {
    assert (v + 1) * base <= p * base;
  }

  /** A value has only one canonical form. */
  lemma {:induction false} CanonicalIsExpand(d: seq<nat>, base: nat)
    requires Canonical(d, base) && base >= 2
    ensures d == Expand(Value(d, base), base)
    decreases |d|
  {
    if d != [] {
      var n := |d| - 1;
      var v, x := Value(d[..n], base), d[n];
      CanonicalPrefix(d, base);
      CanonicalIsExpand(d[..n], base);
      DivMod(v, x, base);
      assert d == d[..n] + [x];
      if n > 0 { CanonicalPositive(d[..n], base); }
      assert v * base + x > 0 by { if v > 0 { assert v * base > 0; } }
    }
  }

  lemma CanonicalPrefix(d: seq<nat>, base: nat)
    requires Canonical(d, base) && d != []
    ensures Canonical(d[..|d| - 1], base)
  {
  }

  lemma {:induction false} CanonicalPositive(d: seq<nat>, base: nat)
    requires Canonical(d, base) && d != [] && base >= 2
    ensures Value(d, base) > 0
    decreases |d|
  {
    if |d| > 1 {
      CanonicalPrefix(d, base);
      CanonicalPositive(d[..|d| - 1], base);
      assert Value(d[..|d| - 1], base) * base > 0;
    } else {
      assert d[..0] == [];
    }
  }

  lemma TimesOrder(p: int, q: int, base: nat)
    ensures p < q ==> p * base + base <= q * base
  {
    if p < q { assert (p + 1) * base <= q * base; }
  }

  lemma SameQuotient(p: int, x: nat, q: int, y: nat, base: nat)
    requires x < base && y < base && p * base + x == q * base + y
    ensures p == q && x == y
  {
    TimesOrder(p, q, base);
    TimesOrder(q, p, base);
  }

  lemma DivMod(v: nat, x: nat, base: nat)
    requires x < base
    ensures (v * base + x) / base == v && (v * base + x) % base == x
  {
    var w := v * base + x;
    SameQuotient(v, x, w / base, w % base, base);
  }

  lemma CanonicalEnd(d: seq<nat>, x: nat, base: nat)
    requires Canonical(d, base) && x < base && (d == [] ==> x != 0)
    ensures Canonical(d + [x], base)
  {
  }

  lemma ExpandStep(v: nat, base: nat)
    requires base >= 2 && v > 0
    requires Canonical(Expand(v / base, base), base) && Value(Expand(v / base, base), base) == v / base
    ensures Canonical(Expand(v, base), base) && Value(Expand(v, base), base) == v
  {
    var q, x := v / base, v % base;
    Split(v, base);
    var d := Expand(q, base);
    assert Expand(v, base) == d + [x];
    hide Expand, Canonical;
    ValueEnd(d, x, base);
    assert d == [] ==> q == 0;
    CanonicalEnd(d, x, base);
  }

  lemma Split(v: nat, base: nat)
    requires base > 0
    ensures v == v / base * base + v % base && v % base < base && (v / base == 0 ==> v % base == v)
  {
  }

  lemma {:induction false} ExpandCanonical(v: nat, base: nat)
    requires base >= 2
    ensures Canonical(Expand(v, base), base) && Value(Expand(v, base), base) == v
    decreases v
  {
    if v > 0 {
      ExpandSmaller(v, base);
      ExpandCanonical(v / base, base);
      ExpandStep(v, base);
    }
  }

  lemma {:induction false} ExpandGrows(v: nat, w: nat, base: nat)
    requires base >= 2 && v <= w
    ensures |Expand(v, base)| <= |Expand(w, base)|
    decreases w
  {
    if v > 0 {
      ExpandSmaller(v, base);
      ExpandSmaller(w, base);
      DivGrows(v, w, base);
      ExpandGrows(v / base, w / base, base);
    }
  }

  lemma DivGrows(v: nat, w: nat, base: nat)
    requires v <= w && base > 0
    ensures v / base <= w / base
  {
    TimesOrder(w / base, v / base, base);
    assert w / base * base + w % base == w && v / base * base <= v;
  }
}
