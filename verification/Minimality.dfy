/** When a chunk cannot be split into parts of equal feerate (the "minimal" property of
    `SpanningForestState`, src/cluster_linearize.h).

    Moving a pivot transaction infinitesimally up or down in fee decides which equal-feerate parts
    would be better; the perturbation is made exact here by scaling all fees. */
module Minimality {
  import opened FeeFracs
  import opened Totals
  import opened Forests
  import opened Families
  import opened Optimality

  /** A proper part of `k`, closed under the parents in `k`, that has the feerate of `k`. */
  ghost predicate EqualPart(m: Rates, par: Links, k: set<nat>, s: set<nat>)
    requires k <= m.Keys
  {
    && s <= k && s != {} && s != k
    && (forall x :: x in s && x in par ==> par[x] * k <= s)
    && Gain(Total(m, k), Total(m, s)) == 0
  }

  ghost predicate Minimal(m: Rates, par: Links, k: set<nat>)
    requires k <= m.Keys
  {
    forall s :: !EqualPart(m, par, k, s)
  }

  /** No such part has the pivot inside, or outside. */
  ghost predicate NoPart(m: Rates, par: Links, k: set<nat>, pivot: nat, inside: bool)
    requires k <= m.Keys
  {
    forall s :: EqualPart(m, par, k, s) ==> (pivot in s) != inside
  }

  lemma NeitherSide(m: Rates, par: Links, k: set<nat>, pivot: nat)
    requires k <= m.Keys && NoPart(m, par, k, pivot, true) && NoPart(m, par, k, pivot, false)
    ensures Minimal(m, par, k)
  {
    hide EqualPart;
  }

  // ----- the perturbed fees

  ghost function Tilted(m: Rates, scale: int, pivot: nat, tilt: int): Rates {
    map x | x in m :: FeeFrac(m[x].fee * scale + (if x == pivot then tilt else 0), m[x].size)
  }

  ghost function Tilt(s: set<nat>, pivot: nat, tilt: int): int { if pivot in s then tilt else 0 }

  lemma {:induction false} TiltedTotal(m: Rates, scale: int, pivot: nat, tilt: int, s: set<nat>)
    requires s <= m.Keys
    ensures Total(Tilted(m, scale, pivot, tilt), s) ==
              FeeFrac(Total(m, s).fee * scale + Tilt(s, pivot, tilt), Total(m, s).size)
    decreases s
  {
    hide Total;
    var m' := Tilted(m, scale, pivot, tilt);
    if s == {} {
      TotalEmpty(m);
      TotalEmpty(m');
    } else {
      var x :| x in s;
      TotalPick(m, s, x);
      TotalPick(m', s, x);
      TiltedTotal(m, scale, pivot, tilt, s - {x});
      Distribute(m[x].fee, Total(m, s - {x}).fee, scale);
    }
  }

  lemma Distribute(a: int, b: int, k: int)
    ensures (a + b) * k == a * k + b * k
  {
  }

  /** The gain of a part of `k` over `k`, in perturbed fees. */
  lemma TiltedGain(a: FeeFrac, b: FeeFrac, scale: int, ta: int, tb: int)
    ensures Gain(FeeFrac(a.fee * scale + ta, a.size), FeeFrac(b.fee * scale + tb, b.size)) ==
            Gain(a, b) * scale + (tb * a.size - ta * b.size)
  {
    assert (b.fee * scale + tb) * a.size == (b.fee * a.size) * scale + tb * a.size;
    assert (a.fee * scale + ta) * b.size == (a.fee * b.size) * scale + ta * b.size;
    Distribute(b.fee * a.size, -(a.fee * b.size), scale);
  }

  /** Scaled so, a loss in true fees outweighs the perturbation. */
  lemma LossOutweighs(g: int, scale: int, e: int, size: int)
    requires g < 0 && scale == size + 1 && e <= size
    ensures g * scale + e < 0 || size < 0
  {
    if size >= 0 { assert g * scale <= -scale by { assert (g + 1) * scale <= 0 by { if g + 1 < 0 {
      MulNeg(g + 1, scale); } } }
    }
  }

  lemma MulNeg(a: int, k: int)
    requires a <= 0 && k >= 0
    ensures a * k <= 0
  {
  }

  /** The condition on active dependencies: those with top sets of the feerate of the chunk have the
      pivot in their top set, if `down`, or in their bottom set. */
  ghost predicate PivotPlaced(m: Rates, f: Forest, k: set<nat>, pivot: nat, down: bool)
    requires k <= m.Keys && forall e :: e in DepsIn(f, k) ==> f.top[e] <= m.Keys
  {
    forall e :: e in DepsIn(f, k) && Gain(Total(m, k), Total(m, f.top[e])) == 0 ==> (pivot in f.top[e]) == down
  }

  lemma TiltedTop(m: Rates, k: set<nat>, t: set<nat>, pivot: nat, down: bool)
    requires k <= m.Keys && t <= k && PositiveSizes(m) && pivot in k
    requires AtMost(Total(m, t), Total(m, k))
    requires Gain(Total(m, k), Total(m, t)) == 0 ==> (pivot in t) == down
    ensures var m' := Tilted(m, Total(m, k).size + 1, pivot, if down then -1 else 1); AtMost(Total(m', t), Total(m', k))
  {
    hide Total, Tilted;
    var a, b, tilt := Total(m, k), Total(m, t), if down then -1 else 1;
    TiltedTotal(m, a.size + 1, pivot, tilt, k);
    TiltedTotal(m, a.size + 1, pivot, tilt, t);
    TotalSizeMono(m, t, k);
    TotalSize(m, k);
    TiltedAtMost(a, b, tilt, Tilt(t, pivot, tilt));
  }

  /** Of what is at most as high, and placed right if as high, the tilt does not change that. */
  lemma TiltedAtMost(a: FeeFrac, b: FeeFrac, tilt: int, tb: int)
    requires 0 <= b.size <= a.size && AtMost(b, a) && (tilt == -1 || tilt == 1) && (tb == 0 || tb == tilt)
    requires Gain(a, b) == 0 ==> (tb == 0 <==> tilt == 1)
    ensures AtMost(FeeFrac(b.fee * (a.size + 1) + tb, b.size), FeeFrac(a.fee * (a.size + 1) + tilt, a.size))
  {
    var scale := a.size + 1;
    TiltedGain(a, b, scale, tilt, tb);
    var e := tb * a.size - tilt * b.size;
    assert e <= a.size && (Gain(a, b) == 0 ==> e <= 0);
    TiltSign(Gain(a, b), scale, e, a.size);
  }

  lemma TiltSign(g: int, scale: int, e: int, size: int)
    requires g <= 0 && scale == size + 1 && e <= size && size >= 0 && (g == 0 ==> e <= 0)
    ensures g * scale + e <= 0
  {
    if g < 0 { LossOutweighs(g, scale, e, size); }
  }

  /** With the pivot so placed, no equal-feerate part has it outside (if `down`), or inside. */
  lemma PivotDecides(m: Rates, par: Links, f: Forest, x: nat, pivot: nat, down: bool)
    requires ValidForest(f) && f.chunk.Keys <= m.Keys && PositiveSizes(m) && x in f.chunk && pivot in f.chunk[x]
    requires f.chunk[x] <= m.Keys && forall e :: e in DepsIn(f, f.chunk[x]) ==> f.top[e] <= m.Keys
    requires NoHigherTop(m, f, f.chunk[x]) && PivotPlaced(m, f, f.chunk[x], pivot, down)
    requires forall e :: e in f.top ==> e.1 in par && e.0 in par[e.1]
    ensures NoPart(m, par, f.chunk[x], pivot, !down)
  {
    hide Total, ValidForest, EqualPart, Gain;
    var k := f.chunk[x];
    var tilt := if down then -1 else 1;
    var scale := Total(m, k).size + 1;
    var m' := Tilted(m, scale, pivot, tilt);
    forall e | e in DepsIn(f, k) ensures AtMost(Total(m', f.top[e]), Total(m', k)) {
      DepOf(f, x, e);
      TopWithin(f, e);
      TiltedTop(m, k, f.top[e], pivot, down);
    }
    forall s | EqualPart(m, par, k, s) ensures (pivot in s) != !down {
      PartInside(m, par, f, x, s);
      NoGain(m', f, x, s);
      TiltedPart(m, par, k, s, pivot, down);
    }
  }

  lemma PartInside(m: Rates, par: Links, f: Forest, x: nat, s: set<nat>)
    requires ValidForest(f) && x in f.chunk && f.chunk[x] <= m.Keys && EqualPart(m, par, f.chunk[x], s)
    requires forall e :: e in f.top ==> e.1 in par && e.0 in par[e.1]
    ensures s <= f.chunk[x] && ParentsInside(f, s)
  {
    hide Total;
    forall e | e in f.top && e.1 in s ensures e.0 in s {
      assert Inside(f, e);
      assert e.0 in par[e.1] * f.chunk[x];
    }
  }

  lemma TiltedPart(m: Rates, par: Links, k: set<nat>, s: set<nat>, pivot: nat, down: bool)
    requires k <= m.Keys && PositiveSizes(m) && pivot in k && EqualPart(m, par, k, s)
    requires var m' := Tilted(m, Total(m, k).size + 1, pivot, if down then -1
                                                              else 1); Gain(Total(m', k), Total(m', s)) <= 0
    ensures (pivot in s) == down
  {
    hide Total;
    var a, b, tilt := Total(m, k), Total(m, s), if down then -1 else 1;
    var scale := a.size + 1;
    TiltedTotal(m, scale, pivot, tilt, k);
    TiltedTotal(m, scale, pivot, tilt, s);
    TiltedGain(a, b, scale, tilt, Tilt(s, pivot, tilt));
    TotalSizeMono(m, s, k);
    TotalSize(m, s);
  }

  // ----- splitting a chunk into equal-feerate parts

  /** `t` and the rest of `k` have the feerate of `k`, and `t` does not depend on the rest. */
  ghost predicate EqualSplit(m: Rates, par: Links, k: set<nat>, t: set<nat>)
    requires k <= m.Keys
  {
    EqualPart(m, par, k, t) && PositiveSizes(m)
  }

  lemma SameRatio(a: FeeFrac, b: FeeFrac, c: FeeFrac)
    requires a.size > 0 && b.size > 0 && Gain(a, b) == 0
    ensures Gain(b, c) == 0 <==> Gain(a, c) == 0
    ensures Gain(b, c) <= 0 <==> Gain(a, c) <= 0
  {
    MulSwap(c.fee, b.size, a.size);
    MulSwap(b.fee, c.size, a.size);
    MulSwap(a.fee, c.size, b.size);
    MulMinus(c.fee * b.size, b.fee * c.size, a.size);
    MulMinus(c.fee * a.size, a.fee * c.size, b.size);
    SignsAgree(Gain(b, c), Gain(a, c), a.size, b.size);
  }

  lemma MulMinus(a: int, b: int, k: int)
    ensures (a - b) * k == a * k - b * k
  {
  }

  lemma SignsAgree(g: int, h: int, s: int, t: int)
    requires s > 0 && t > 0 && g * s == h * t
    ensures (g == 0 <==> h == 0) && (g <= 0 <==> h <= 0)
  {
    if g > 0 { MulStrict(0, g, s); } else { MulNeg(g, s); }
    if h > 0 { MulStrict(0, h, t); } else { MulNeg(h, t); }
    if g < 0 { MulStrict(g, 0, s); }
    if h < 0 { MulStrict(h, 0, t); }
  }

  lemma SomeLeft(k: set<nat>, t: set<nat>) returns (x: nat)
    requires t <= k && t != k
    ensures x in k && x !in t
  {
    assert !(k <= t);
    x :| x in k && x !in t;
  }

  lemma SplitRates(m: Rates, par: Links, k: set<nat>, t: set<nat>)
    requires k <= m.Keys && EqualSplit(m, par, k, t)
    ensures Gain(Total(m, k), Total(m, k - t)) == 0
    ensures Total(m, k).size > 0 && Total(m, t).size > 0 && Total(m, k - t).size > 0
    ensures Total(m, k) == Add(Total(m, t), Total(m, k - t))
  {
    hide Total;
    var r := Total(m, k);
    var left := SomeLeft(k, t);
    assert left in k - t;
    TotalSize(m, k);
    TotalSize(m, t);
    TotalSize(m, k - t);
    assert t + (k - t) == k;
    GainUnion(m, r, t, k - t);
    TotalUnion(m, t, k - t);
    assert Gain(r, r) == 0;
  }

  /** A part of the top is a part of the whole. */
  lemma PartOfTop(m: Rates, par: Links, k: set<nat>, t: set<nat>, s: set<nat>)
    requires k <= m.Keys && EqualSplit(m, par, k, t) && EqualPart(m, par, t, s)
    ensures EqualPart(m, par, k, s)
  {
    hide Total, Gain;
    SplitRates(m, par, k, t);
    SameRatio(Total(m, k), Total(m, t), Total(m, s));
    forall x | x in s && x in par ensures par[x] * k <= s {
      forall q | q in par[x] * k ensures q in s { assert q in t; assert q in par[x] * t; }
    }
  }

  /** A part of the bottom, together with the top, is a part of the whole. */
  lemma PartOfBottom(m: Rates, par: Links, k: set<nat>, t: set<nat>, s: set<nat>)
    requires k <= m.Keys && EqualSplit(m, par, k, t) && EqualPart(m, par, k - t, s)
    ensures EqualPart(m, par, k, s + t)
  {
    hide Total, Gain;
    SplitRates(m, par, k, t);
    SameRatio(Total(m, k), Total(m, k - t), Total(m, s));
    GainUnion(m, Total(m, k), s, t);
    var left := SomeLeft(k - t, s);
    forall x | x in s + t && x in par ensures par[x] * k <= s + t {
      if x in s {
        forall q | q in par[x] * k ensures q in s + t { assert q in t || q in par[x] * (k - t); }
      }
    }
  }

  lemma NoPartOfTop(m: Rates, par: Links, k: set<nat>, t: set<nat>, pivot: nat)
    requires k <= m.Keys && EqualSplit(m, par, k, t) && NoPart(m, par, k, pivot, false)
    ensures t <= m.Keys && NoPart(m, par, t, pivot, false)
  {
    hide EqualPart;
    assert t <= k by { SplitParts(m, par, k, t); }
    forall s | EqualPart(m, par, t, s) ensures pivot in s { PartOfTop(m, par, k, t, s); }
  }

  lemma NoPartOfBottom(m: Rates, par: Links, k: set<nat>, t: set<nat>, pivot: nat)
    requires k <= m.Keys && EqualSplit(m, par, k, t) && NoPart(m, par, k, pivot, true) && pivot !in t
    ensures NoPart(m, par, k - t, pivot, true)
  {
    hide EqualPart;
    forall s | EqualPart(m, par, k - t, s) ensures pivot !in s { PartOfBottom(m, par, k, t, s); }
  }

  lemma SplitParts(m: Rates, par: Links, k: set<nat>, t: set<nat>)
    requires k <= m.Keys && EqualSplit(m, par, k, t)
    ensures t <= k && t != {} && t != k
  {
  }
}
