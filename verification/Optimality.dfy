/** Why a spanning forest without a higher-feerate top set is optimal
    (src/cluster_linearize.h, the "optimal" property of `SpanningForestState`). */
module Optimality {
  import opened FeeFracs
  import opened Totals
  import opened Forests
  import opened Diagrams

  /** No active dependency of the chunk `k` has a top set of higher feerate than `k`. */
  ghost predicate NoHigherTop(m: Rates, f: Forest, k: set<nat>)
    requires k <= m.Keys && forall e :: e in DepsIn(f, k) ==> f.top[e] <= m.Keys
  {
    forall e :: e in DepsIn(f, k) ==> AtMost(Total(m, f.top[e]), Total(m, k))
  }

  /** `s` contains the parent of every active dependency whose child it contains. */
  ghost predicate ParentsInside(f: Forest, s: set<nat>) {
    forall e :: e in f.top && e.1 in s ==> e.0 in s
  }

  ghost function Crossing(f: Forest, s: set<nat>): set<Dep> {
    set e | e in f.top && e.0 in s && e.1 !in s
  }

  /** The part of `s` above a crossing dependency, together with everything below it, and the part
      of `s` below it: both are closed under parents and crossed by fewer dependencies. */
  lemma Uncross(f: Forest, s: set<nat>, e: Dep)
    requires ValidForest(f) && e in Crossing(f, s) && s <= f.chunk[e.0] && ParentsInside(f, s)
    ensures var t, b := f.top[e], f.chunk[e.0] - f.top[e];
            && ParentsInside(f, s * t + b) && ParentsInside(f, s * b)
            && Crossing(f, s * t + b) <= Crossing(f, s) - {e}
            && Crossing(f, s * b) <= Crossing(f, s) - {e}
  {
    assert Inside(f, e) && Cut(f, e);
    BottomConnected(f, e);
    forall d | d in f.top && d != e
      ensures d.0 in f.top[e] <==> d.1 in f.top[e]
      ensures d.0 in f.chunk[e.0] - f.top[e] <==> d.1 in f.chunk[e.0] - f.top[e]
    {
    }
  }

  /** A part of an optimal chunk that is closed under parents gains nothing over the chunk. */
  lemma {:induction false} NoGain(m: Rates, f: Forest, x: nat, s: set<nat>)
    requires ValidForest(f) && f.chunk.Keys <= m.Keys && x in f.chunk
    requires s <= f.chunk[x] && ParentsInside(f, s)
    requires forall e :: e in DepsIn(f, f.chunk[x]) ==> f.top[e] <= m.Keys
    requires NoHigherTop(m, f, f.chunk[x])
    ensures Gain(Total(m, f.chunk[x]), Total(m, s)) <= 0
    decreases Crossing(f, s)
  {
    hide Total, ValidForest;
    InOwnChunk(f, x);
    var k := f.chunk[x];
    var r := Total(m, k);
    if e :| e in Crossing(f, s) {
      assert f.chunk[e.0] == k;
      var t, b := f.top[e], k - f.top[e];
      assert t <= k by { TopWithin(f, e); }
      assert e in DepsIn(f, k);
      Uncross(f, s, e);
      NoGain(m, f, x, s * t + b);
      NoGain(m, f, x, s * b);
      assert (s * t) * b == {} && (s * t) * (s * b) == {} && s == s * t + s * b && t * b == {} && k == t + b;
      GainUnion(m, r, s * t, b);
      GainUnion(m, r, s * t, s * b);
      GainUnion(m, r, t, b);
    } else {
      forall e | e in f.top ensures e.0 in s <==> e.1 in s { assert e !in Crossing(f, s); }
      if s == {} {
        TotalEmpty(m);
      } else {
        Whole(f, x, s);
      }
    }
  }

  lemma TopWithin(f: Forest, e: Dep)
    requires ValidForest(f) && e in f.top
    ensures e.0 in f.chunk && e.1 in f.chunk && e.0 in f.top[e] && e.1 !in f.top[e]
    ensures f.top[e] <= f.chunk[e.0] && f.chunk[e.1] == f.chunk[e.0]
  {
    assert Inside(f, e) && Cut(f, e);
  }

  lemma Whole(f: Forest, x: nat, s: set<nat>)
    requires ValidForest(f) && x in f.chunk && s != {} && s <= f.chunk[x] && Closed(s, f.top.Keys)
    ensures s == f.chunk[x]
  {
  }

  /** Whatever the threshold, taking part of an optimal chunk is no better than taking all of it or
      nothing of it. */
  lemma AllOrNothing(m: Rates, f: Forest, x: nat, s: set<nat>, r: FeeFrac)
    requires ValidForest(f) && f.chunk.Keys <= m.Keys && PositiveSizes(m) && x in f.chunk && r.size > 0
    requires s <= f.chunk[x] && ParentsInside(f, s)
    requires forall e :: e in DepsIn(f, f.chunk[x]) ==> f.top[e] <= m.Keys
    requires NoHigherTop(m, f, f.chunk[x])
    ensures Gain(r, Total(m, s)) <= Max0(Gain(r, Total(m, f.chunk[x])))
  {
    hide Total, ValidForest, NoHigherTop;
    InOwnChunk(f, x);
    NoGain(m, f, x, s);
    TotalSizeMono(m, s, f.chunk[x]);
    TotalSize(m, f.chunk[x]);
    PartialSegment(Total(m, s), Total(m, f.chunk[x]), r);
  }
}
