/** Fees, sizes and feerates.

    Models `FeeFrac` and `ByRatio` of src/util/feefrac.h: a fee and a size that are added
    componentwise, and compared as ratios by cross-multiplication.  Integers are unbounded here; the
    program leaves it to its callers that sums do not overflow. */
module FeeFracs {

  datatype FeeFrac = FeeFrac(fee: int, size: int)

  const EMPTY := FeeFrac(0, 0)

  function Add(a: FeeFrac, b: FeeFrac): FeeFrac {
    FeeFrac(a.fee + b.fee, a.size + b.size)
  }

  function Sub(a: FeeFrac, b: FeeFrac): FeeFrac {
    FeeFrac(a.fee - b.fee, a.size - b.size)
  }

  /** The fee of `a` above what its size would pay at the feerate of `r`, scaled by `r.size`.
      Its sign is the `ByRatio` comparison of `a` with `r`. */
  function Gain(r: FeeFrac, a: FeeFrac): int {
    a.fee * r.size - r.fee * a.size
  }

  /** `ByRatio{a} < ByRatio{b}` */
  predicate Lower(a: FeeFrac, b: FeeFrac) {
    a.fee * b.size < b.fee * a.size
  }

  /** `ByRatio{a} <= ByRatio{b}` */
  predicate AtMost(a: FeeFrac, b: FeeFrac) {
    a.fee * b.size <= b.fee * a.size
  }

  function Max0(x: int): int { if x > 0 then x else 0 }

  lemma AddAssociative(a: FeeFrac, b: FeeFrac, c: FeeFrac)
    ensures Add(a, Add(b, c)) == Add(Add(a, b), c)
  {
  }

  lemma GainAdd(r: FeeFrac, a: FeeFrac, b: FeeFrac)
    ensures Gain(r, Add(a, b)) == Gain(r, a) + Gain(r, b)
  {
  }

  lemma GainSub(r: FeeFrac, a: FeeFrac, b: FeeFrac)
    ensures Gain(r, Sub(a, b)) == Gain(r, a) - Gain(r, b)
  {
  }

  /** The order is transitive on positive sizes, and strict steps stay strict. */
  lemma RatioTransitive(a: FeeFrac, b: FeeFrac, c: FeeFrac)
    requires a.size > 0 && b.size > 0 && c.size > 0
    requires AtMost(a, b) && AtMost(b, c)
    ensures AtMost(a, c)
    ensures Lower(a, b) || Lower(b, c) ==> Lower(a, c)
  {
    var ab, ba, bc, cb := a.fee * b.size, b.fee * a.size, b.fee * c.size, c.fee * b.size;
    MulLess(ab, ba, c.size);
    MulLess(bc, cb, a.size);
    MulSwap(a.fee, b.size, c.size);
    MulSwap(b.fee, a.size, c.size);
    MulSwap(c.fee, b.size, a.size);
    MulCancel(a.fee * c.size, c.fee * a.size, b.size);
  }

  lemma MulLess(a: int, b: int, k: int)
    requires k > 0 && a <= b
    ensures a * k <= b * k && (a < b ==> a * k < b * k)
  {
  }

  lemma MulSwap(a: int, b: int, c: int)
    ensures (a * b) * c == (a * c) * b
  {
  }

  lemma MulStrict(a: int, b: int, k: int)
    requires a < b && k > 0
    ensures a * k < b * k
  {
  }

  lemma MulCancel(a: int, b: int, k: int)
    requires k > 0 && a * k <= b * k
    ensures a <= b && (a * k < b * k ==> a < b)
  {
    if a > b { MulStrict(b, a, k); }
  }

  /** A union of two sets has a feerate between theirs. */
  lemma Mediant(a: FeeFrac, b: FeeFrac)
    requires a.size > 0 && b.size > 0 && AtMost(a, b)
    ensures AtMost(a, Add(a, b)) && AtMost(Add(a, b), b)
    ensures Lower(a, b) ==> Lower(a, Add(a, b)) && Lower(Add(a, b), b)
  {
  }
}
