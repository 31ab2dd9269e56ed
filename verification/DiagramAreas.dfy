/** The area under a feerate diagram, and how it grows with the diagram.

    Twice the area under a concave curve is the product of its fee and its size, and what its chunks gain over
    each other. The gain of the chunks of one curve over those of another of the same end is the same in both
    directions, so that a curve with more potential everywhere has more area, by at least what the potential
    grows by at one chunk. */
module DiagramAreas {
  import opened FeeFracs
  import opened Diagrams

  /** Twice the area under the curve: a triangle over the first chunk, and the rest on top of its fee. */
  ghost function TwiceArea(cs: seq<FeeFrac>): int {
    if cs == [] then 0
    else cs[0].fee * cs[0].size + 2 * (cs[0].fee * Sum(cs[1..]).size) + TwiceArea(cs[1..])
  }

  /** The potential of `ds` over the chunks of `cs`. */
  ghost function Spread(cs: seq<FeeFrac>, ds: seq<FeeFrac>): int {
    if cs == [] then 0 else Potential(ds, cs[0]) + Spread(cs[1..], ds)
  }

  lemma GainOpposite(a: FeeFrac, b: FeeFrac)
    ensures Gain(a, b) == -Gain(b, a) && Gain(a, a) == 0
  {
  }

  lemma {:induction false} SpreadNil(ds: seq<FeeFrac>)
    ensures Spread(ds, []) == 0
    decreases |ds|
  {
    if ds != [] { SpreadNil(ds[1..]); }
  }

  /** What one chunk gains over the others. */
  lemma {:induction false} SpreadFirst(ds: seq<FeeFrac>, cs: seq<FeeFrac>)
    requires cs != []
    ensures Spread(ds, cs) == Spread(ds, [cs[0]]) + Spread(ds, cs[1..])
    decreases |ds|
  {
    hide Gain;
    if ds != [] {
      SpreadFirst(ds[1..], cs);
      PotentialOne(cs[0], ds[0]);
    }
  }

  /** The chunks of `ds` over `c`, and `c` over them, differ by the gain of their sum. */
  lemma {:induction false} OneSpread(ds: seq<FeeFrac>, c: FeeFrac)
    ensures Potential(ds, c) - Spread(ds, [c]) == Gain(c, Sum(ds))
    decreases |ds|
  {
    if ds == [] {
      assert Gain(c, EMPTY) == 0;
    } else {
      OneSpread(ds[1..], c);
      PotentialOne(c, ds[0]);
      GainOpposite(c, ds[0]);
      GainAdd(c, ds[0], Sum(ds[1..]));
    }
  }

  lemma {:induction false} SpreadSymmetric(cs: seq<FeeFrac>, ds: seq<FeeFrac>)
    ensures Spread(cs, ds) - Spread(ds, cs) == Gain(Sum(cs), Sum(ds))
    decreases |cs|
  {
    if cs == [] {
      SpreadNil(ds);
      assert Gain(EMPTY, Sum(ds)) == 0;
    } else {
      SpreadSymmetric(cs[1..], ds);
      SpreadFirst(ds, cs);
      OneSpread(ds, cs[0]);
      hide Potential, Spread, Sum;
      GainOpposite(cs[0], Sum(ds));
      GainOpposite(Sum(cs[1..]), Sum(ds));
      GainOpposite(Add(cs[0], Sum(cs[1..])), Sum(ds));
      GainAdd(Sum(ds), cs[0], Sum(cs[1..]));
      SumFirst(cs);
      SpreadHead(cs, ds);
    }
  }

  lemma SumFirst(cs: seq<FeeFrac>)
    requires cs != []
    ensures Sum(cs) == Add(cs[0], Sum(cs[1..]))
  {
  }

  lemma SpreadHead(cs: seq<FeeFrac>, ds: seq<FeeFrac>)
    requires cs != []
    ensures Spread(cs, ds) == Potential(ds, cs[0]) + Spread(cs[1..], ds)
  {
  }

  lemma {:induction false} SpreadGrows(cs: seq<FeeFrac>, ds: seq<FeeFrac>, es: seq<FeeFrac>)
    requires forall i :: 0 <= i < |cs| ==> Potential(ds, cs[i]) <= Potential(es, cs[i])
    ensures Spread(cs, ds) <= Spread(cs, es)
    decreases |cs|
  {
    hide Potential;
    if cs != [] { SpreadGrows(cs[1..], ds, es); }
  }

  lemma {:induction false} SpreadGrowsAt(cs: seq<FeeFrac>, ds: seq<FeeFrac>, es: seq<FeeFrac>, i: nat, g: int)
    requires forall k :: 0 <= k < |cs| ==> Potential(ds, cs[k]) <= Potential(es, cs[k])
    requires i < |cs| && Potential(ds, cs[i]) + g <= Potential(es, cs[i])
    ensures Spread(cs, ds) + g <= Spread(cs, es)
    decreases |cs|
  {
    hide Potential;
    if i > 0 { SpreadGrowsAt(cs[1..], ds, es, i - 1, g); } else { SpreadGrows(cs[1..], ds, es); }
  }

  /** The first chunk of a sorted list gains over all others, and they do not gain over it. */
  lemma {:induction false} HighestSpread(c: FeeFrac, rest: seq<FeeFrac>)
    requires forall i :: 0 <= i < |rest| ==> AtMost(rest[i], c)
    ensures Potential([c] + rest, c) == 0
    ensures Spread(rest, [c]) == c.fee * Sum(rest).size - Sum(rest).fee * c.size
  {
    assert ([c] + rest)[1..] == rest;
    GainOpposite(c, c);
    PotentialZero(rest, c);
    OneSpread(rest, c);
  }

  lemma {:induction false} AreaIsSpread(cs: seq<FeeFrac>)
    requires Sorted(cs)
    ensures TwiceArea(cs) == Sum(cs).fee * Sum(cs).size + Spread(cs, cs)
    decreases |cs|
  {
    if cs != [] {
      var c, rest := cs[0], cs[1..];
      AreaIsSpread(rest);
      forall i | 0 <= i < |rest| ensures AtMost(rest[i], c) { assert rest[i] == cs[i + 1]; }
      assert cs == [c] + rest;
      HighestSpread(c, rest);
      SpreadFirst(rest, cs);
      hide Potential, Sorted, AtMost;
      SpreadHead(cs, cs);
      SumFirst(cs);
      Products(c, Sum(rest));
    }
  }

  lemma Products(c: FeeFrac, r: FeeFrac)
    ensures Add(c, r).fee * Add(c, r).size + (c.fee * r.size - r.fee * c.size) ==
            c.fee * c.size + 2 * (c.fee * r.size) + r.fee * r.size
  {
  }

  /** A curve with more potential everywhere has more area. */
  lemma AreaNotLess(cs: seq<FeeFrac>, ds: seq<FeeFrac>)
    requires Sizes(cs) && Sizes(ds) && Sorted(cs) && Sorted(ds) && Sum(cs) == Sum(ds)
    requires forall r: FeeFrac {:trigger Potential(ds, r)} :: r.size > 0 ==> Potential(cs, r) <= Potential(ds, r)
    ensures TwiceArea(cs) <= TwiceArea(ds)
  {
    hide Potential, Spread, TwiceArea, Sum, Sorted;
    AreaIsSpread(cs);
    AreaIsSpread(ds);
    SpreadGrows(cs, cs, ds);
    SpreadSymmetric(cs, ds);
    GainOpposite(Sum(cs), Sum(ds));
    SpreadGrows(ds, cs, ds);
  }

  /** A curve with more potential everywhere, and `g` more at one chunk of the other, has at least `g` more of
      twice the area. */
  lemma AreaGrows(cs: seq<FeeFrac>, ds: seq<FeeFrac>, i: nat, g: int)
    requires Sizes(cs) && Sizes(ds) && Sorted(cs) && Sorted(ds) && Sum(cs) == Sum(ds)
    requires forall r: FeeFrac {:trigger Potential(ds, r)} :: r.size > 0 ==> Potential(cs, r) <= Potential(ds, r)
    requires i < |cs| && Potential(cs, cs[i]) + g <= Potential(ds, cs[i])
    ensures TwiceArea(cs) + g <= TwiceArea(ds)
  {
    hide Potential, Spread, TwiceArea, Sum, Sorted;
    AreaIsSpread(cs);
    AreaIsSpread(ds);
    SpreadGrowsAt(cs, cs, ds, i, g);
    SpreadSymmetric(cs, ds);
    GainOpposite(Sum(cs), Sum(ds));
    SpreadGrows(ds, cs, ds);
  }
}
