/** Feerate diagrams.

    A list of chunks in non-increasing feerate order describes a concave curve: it starts at the
    origin and has one segment per chunk (src/util/feefrac.h, `CompareChunks`).  One linearization is
    at least as good as another when its curve is nowhere below the other's.

    Curves are compared here through their support function: for a threshold feerate `r`, the
    `Potential` of a list of chunks is the largest gain over `r` that any point of its curve has. */
module Diagrams {
  import opened FeeFracs

  ghost predicate Sizes(cs: seq<FeeFrac>) {
    forall i :: 0 <= i < |cs| ==> cs[i].size > 0
  }

  ghost predicate Sorted(cs: seq<FeeFrac>) {
    forall i, j :: 0 <= i < j < |cs| ==> AtMost(cs[j], cs[i])
  }

  ghost function Sum(cs: seq<FeeFrac>): FeeFrac {
    if cs == [] then EMPTY else Add(cs[0], Sum(cs[1..]))
  }

  ghost function Potential(cs: seq<FeeFrac>, r: FeeFrac): int {
    if cs == [] then 0 else Max0(Gain(r, cs[0])) + Potential(cs[1..], r)
  }

  /** The point at `pt.size` with fee `pt.fee` is on or below the curve of `cs`, which continues
      horizontally after its last chunk. */
  ghost predicate OnOrBelow(pt: FeeFrac, cs: seq<FeeFrac>)
    decreases cs
  {
    if cs == [] then pt.fee <= 0
    else if pt.size <= cs[0].size then AtMost(pt, cs[0])
    else OnOrBelow(Sub(pt, cs[0]), cs[1..])
  }

  /** The curve of `cs` is nowhere below the vertices of `ds`. */
  ghost predicate AtLeastAsGood(cs: seq<FeeFrac>, ds: seq<FeeFrac>) {
    forall k :: 0 <= k <= |ds| ==> OnOrBelow(Sum(ds[..k]), cs)
  }

  lemma {:induction false} SumSize(cs: seq<FeeFrac>)
    requires Sizes(cs)
    ensures Sum(cs).size >= 0
    ensures cs != [] ==> Sum(cs).size > 0
  {
    if cs != [] { SumSize(cs[1..]); }
  }

  lemma {:induction false} SumAppend(cs: seq<FeeFrac>, ds: seq<FeeFrac>)
    ensures Sum(cs + ds) == Add(Sum(cs), Sum(ds))
  {
    if cs == [] {
      assert cs + ds == ds;
    } else {
      assert (cs + ds)[1..] == cs[1..] + ds;
      SumAppend(cs[1..], ds);
    }
  }

  lemma {:induction false} PotentialAppend(cs: seq<FeeFrac>, ds: seq<FeeFrac>, r: FeeFrac)
    ensures Potential(cs + ds, r) == Potential(cs, r) + Potential(ds, r)
  {
    if cs == [] {
      assert cs + ds == ds;
    } else {
      assert (cs + ds)[1..] == cs[1..] + ds;
      PotentialAppend(cs[1..], ds, r);
    }
  }

  lemma {:induction false} PotentialNonNegative(cs: seq<FeeFrac>, r: FeeFrac)
    ensures Potential(cs, r) >= 0
  {
    if cs != [] { PotentialNonNegative(cs[1..], r); }
  }

  /** When no chunk beats `r`, nothing on the curve does. */
  lemma {:induction false} PotentialZero(cs: seq<FeeFrac>, r: FeeFrac)
    requires forall i :: 0 <= i < |cs| ==> AtMost(cs[i], r)
    ensures Potential(cs, r) == 0
  {
    if cs != [] {
      assert AtMost(cs[0], r);
      PotentialZero(cs[1..], r);
    }
  }

  /** The total never gains more than the potential. */
  lemma {:induction false} SumWithinPotential(cs: seq<FeeFrac>, r: FeeFrac)
    ensures Gain(r, Sum(cs)) <= Potential(cs, r)
  {
    if cs != [] {
      GainAdd(r, cs[0], Sum(cs[1..]));
      SumWithinPotential(cs[1..], r);
    }
  }

  lemma {:induction false} PrefixWithinPotential(cs: seq<FeeFrac>, k: nat, r: FeeFrac)
    requires k <= |cs|
    ensures Gain(r, Sum(cs[..k])) <= Potential(cs, r)
  {
    SumWithinPotential(cs[..k], r);
    assert cs == cs[..k] + cs[k..];
    PotentialAppend(cs[..k], cs[k..], r);
    PotentialNonNegative(cs[k..], r);
  }

  ghost predicate WithinPotential(pt: FeeFrac, cs: seq<FeeFrac>) {
    forall r: FeeFrac {:trigger Potential(cs, r)} :: r.size > 0 ==> Gain(r, pt) <= Potential(cs, r)
  }

  /** A point that no threshold separates from a concave curve is on or below the curve. */
  lemma {:induction false} BelowFromPotential(pt: FeeFrac, cs: seq<FeeFrac>)
    requires Sizes(cs) && Sorted(cs)
    requires 0 <= pt.size <= Sum(cs).size
    requires WithinPotential(pt, cs)
    ensures OnOrBelow(pt, cs)
    decreases cs
  {
    if cs == [] {
      var r := FeeFrac(0, 1);
      assert Gain(r, pt) <= Potential(cs, r);
    } else {
      FirstSegment(pt, cs);
      if pt.size > cs[0].size {
        RestWithinPotential(pt, cs);
        BelowFromPotential(Sub(pt, cs[0]), cs[1..]);
      }
    }
  }

  lemma FirstSegment(pt: FeeFrac, cs: seq<FeeFrac>)
    requires cs != [] && Sizes(cs) && Sorted(cs) && WithinPotential(pt, cs)
    ensures AtMost(pt, cs[0])
  {
    forall i | 0 <= i < |cs| ensures AtMost(cs[i], cs[0]) { }
    PotentialZero(cs, cs[0]);
    assert Gain(cs[0], pt) <= Potential(cs, cs[0]);
  }

  lemma RestWithinPotential(pt: FeeFrac, cs: seq<FeeFrac>)
    requires cs != [] && Sizes(cs) && Sorted(cs) && WithinPotential(pt, cs)
    requires pt.size > cs[0].size
    ensures WithinPotential(Sub(pt, cs[0]), cs[1..])
  {
    var c, ds, rest := cs[0], cs[1..], Sub(pt, cs[0]);
    FirstSegment(pt, cs);
    forall r: FeeFrac | r.size > 0 ensures Gain(r, rest) <= Potential(ds, r) {
      assert Gain(r, pt) <= Potential(cs, r);
      GainSub(r, pt, c);
      PotentialNonNegative(ds, r);
      if Gain(r, c) < 0 {
        assert AtMost(rest, c) by { GainSub(c, pt, c); }
        RatioTransitive(rest, c, r);
      }
    }
  }

  /** Conversely, no threshold separates a point on or below a concave curve from it. */
  lemma {:induction false} PotentialFromBelow(pt: FeeFrac, cs: seq<FeeFrac>, r: FeeFrac)
    requires Sizes(cs) && r.size > 0
    requires 0 <= pt.size <= Sum(cs).size
    requires OnOrBelow(pt, cs)
    ensures Gain(r, pt) <= Potential(cs, r)
    decreases cs
  {
    if cs == [] {
    } else {
      var c, ds := cs[0], cs[1..];
      PotentialNonNegative(ds, r);
      if pt.size <= c.size {
        PartialSegment(pt, c, r);
      } else {
        GainSub(r, pt, c);
        PotentialFromBelow(Sub(pt, c), ds, r);
      }
    }
  }

  lemma PartialSegment(pt: FeeFrac, c: FeeFrac, r: FeeFrac)
    requires c.size > 0 && r.size > 0 && 0 <= pt.size <= c.size && AtMost(pt, c)
    ensures Gain(r, pt) <= Max0(Gain(r, c))
  {
    var g := Gain(r, c);
    assert Gain(r, pt) * c.size <= pt.size * g by {
      assert (pt.fee * c.size) * r.size <= (c.fee * pt.size) * r.size by {
        MulMono(pt.fee * c.size, c.fee * pt.size, r.size);
      }
      assert Gain(r, pt) * c.size == (pt.fee * c.size) * r.size - r.fee * pt.size * c.size;
      assert pt.size * g == (c.fee * pt.size) * r.size - r.fee * c.size * pt.size;
    }
    var m := Max0(g);
    MulMono(g, m, pt.size);
    MulMono(pt.size, c.size, m);
    MulCancel(Gain(r, pt), m, c.size);
  }

  lemma MulMono(a: int, b: int, k: int)
    requires a <= b && k >= 0
    ensures a * k <= b * k
  {
  }

  lemma PrefixSize(ds: seq<FeeFrac>, k: nat)
    requires Sizes(ds) && k <= |ds|
    ensures 0 <= Sum(ds[..k]).size <= Sum(ds).size
  {
    hide Sum;
    assert ds == ds[..k] + ds[k..];
    SumAppend(ds[..k], ds[k..]);
    SumSize(ds[..k]);
    SumSize(ds[k..]);
  }

  /** Comparing concave curves at their vertices is comparing their support functions. */
  lemma AtLeastAsGoodByPotential(cs: seq<FeeFrac>, ds: seq<FeeFrac>)
    requires Sizes(cs) && Sorted(cs) && Sizes(ds) && Sum(cs).size == Sum(ds).size
    requires forall r: FeeFrac {:trigger Potential(cs, r)} :: r.size > 0 ==> Potential(ds, r) <= Potential(cs, r)
    ensures AtLeastAsGood(cs, ds)
  {
    hide Sum, Gain, Potential, OnOrBelow;
    forall k | 0 <= k <= |ds| ensures OnOrBelow(Sum(ds[..k]), cs) {
      forall r: FeeFrac | r.size > 0 ensures Gain(r, Sum(ds[..k])) <= Potential(cs, r) {
        PrefixWithinPotential(ds, k, r);
      }
      PrefixSize(ds, k);
      BelowFromPotential(Sum(ds[..k]), cs);
    }
  }

  /** The support function of a concave curve is attained at a vertex. */
  lemma {:induction false} PotentialAttained(cs: seq<FeeFrac>, r: FeeFrac) returns (k: nat)
    requires Sizes(cs) && Sorted(cs) && r.size > 0
    ensures k <= |cs| && Potential(cs, r) == Gain(r, Sum(cs[..k]))
  {
    if cs == [] || Gain(r, cs[0]) <= 0 {
      k := 0;
      forall i | 0 <= i < |cs| ensures AtMost(cs[i], r) {
        if i > 0 { RatioTransitive(cs[i], cs[0], r); }
      }
      PotentialZero(cs, r);
    } else {
      var j := PotentialAttained(cs[1..], r);
      k := j + 1;
      assert cs[..k][1..] == cs[1..][..j];
      GainAdd(r, cs[0], Sum(cs[1..][..j]));
    }
  }

  /** Being at least as good at the vertices is being at least as good everywhere. */
  lemma WholeCurve(cs: seq<FeeFrac>, ds: seq<FeeFrac>, pt: FeeFrac)
    requires Sizes(cs) && Sorted(cs) && Sizes(ds) && Sorted(ds) && Sum(cs).size == Sum(ds).size
    requires AtLeastAsGood(cs, ds)
    requires 0 <= pt.size <= Sum(ds).size && OnOrBelow(pt, ds)
    ensures OnOrBelow(pt, cs)
  {
    hide Sum, Gain, Potential, OnOrBelow;
    forall r: FeeFrac | r.size > 0 ensures Gain(r, pt) <= Potential(cs, r) {
      PotentialFromBelow(pt, ds, r);
      PotentialGrows(cs, ds, r);
    }
    BelowFromPotential(pt, cs);
  }

  lemma PotentialGrows(cs: seq<FeeFrac>, ds: seq<FeeFrac>, r: FeeFrac)
    requires Sizes(cs) && Sizes(ds) && Sorted(ds) && Sum(cs).size == Sum(ds).size && r.size > 0
    requires AtLeastAsGood(cs, ds)
    ensures Potential(ds, r) <= Potential(cs, r)
  {
    hide Sum, Gain, Potential, OnOrBelow;
    var k := PotentialAttained(ds, r);
    PrefixSize(ds, k);
    PotentialFromBelow(Sum(ds[..k]), cs, r);
  }

  // ----- absorbing chunks

  /** Whatever the threshold, `c` alone has at least the potential of `us`. */
  ghost predicate Dominates(c: FeeFrac, us: seq<FeeFrac>) {
    forall r: FeeFrac {:trigger Gain(r, c)} {:trigger Potential(us, r)} :: r.size > 0 ==>
      Potential(us, r) <= Max0(Gain(r, c))
  }

  /** Absorbing chunks of feerate at most its own, lowest first, a chunk keeps at least their
      potential. */
  lemma AbsorbUp(c: FeeFrac, us: seq<FeeFrac>, u: FeeFrac)
    requires c.size > 0 && u.size > 0 && Sizes(us)
    requires Dominates(c, us) && AtMost(u, c)
    requires forall i :: 0 <= i < |us| ==> AtMost(us[i], u)
    ensures Dominates(Add(c, u), us + [u])
    ensures Dominates(Add(c, u), [u] + us)
  {
    forall r: FeeFrac | r.size > 0
      ensures Potential(us + [u], r) <= Max0(Gain(r, Add(c, u)))
      ensures Potential([u] + us, r) == Potential(us + [u], r)
    {
      PotentialAppend(us, [u], r);
      PotentialAppend([u], us, r);
      PotentialOne(u, r);
      GainAdd(r, c, u);
      if Gain(r, u) > 0 {
        assert Lower(r, u);
        RatioTransitive(r, u, c);
        assert Potential(us, r) <= Max0(Gain(r, c));
      } else {
        forall i | 0 <= i < |us| ensures AtMost(us[i], r) { RatioTransitive(us[i], u, r); }
        PotentialZero(us, r);
      }
    }
  }

  lemma PotentialOne(u: FeeFrac, r: FeeFrac)
    ensures Potential([u], r) == Max0(Gain(r, u))
  {
    assert [u][1..] == [];
  }

  /** `c` has at least the potential of `ds` and the gain of `b` together. */
  ghost predicate Covers(c: FeeFrac, b: FeeFrac, ds: seq<FeeFrac>) {
    forall r: FeeFrac {:trigger Gain(r, c)} {:trigger Potential(ds, r)} ::
      r.size > 0 ==> Gain(r, b) + Potential(ds, r) <= Max0(Gain(r, c))
  }

  lemma {:induction false} PotentialAll(cs: seq<FeeFrac>, r: FeeFrac)
    requires forall i :: 0 <= i < |cs| ==> AtMost(r, cs[i])
    ensures Potential(cs, r) == Gain(r, Sum(cs))
  {
    if cs != [] {
      assert AtMost(r, cs[0]);
      GainAdd(r, cs[0], Sum(cs[1..]));
      PotentialAll(cs[1..], r);
    }
  }

  lemma SumOne(c: FeeFrac)
    ensures Sum([c]) == c
  {
    assert [c][1..] == [];
  }

  lemma DominatesNothing(c: FeeFrac)
    ensures Dominates(c, []) && Sum([]) == EMPTY && Add(c, EMPTY) == c
  {
  }
}
