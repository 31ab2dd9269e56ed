/** Choosing what to improve (`PickDependencyToSplit`, src/cluster_linearize.h). */
module Optimizing {
  import opened Options
  import opened FeeFracs
  import opened Forests
  import opened ForestCore
  import opened ForestSteps
  import opened ImproveSteps

  /** The dependency from `x` to its active child `y` offers no improvement in its chunk. */
  predicate NoImprovement(c: Core, chunk: nat, x: nat, y: nat) {
    x in c.tx && y in c.tx[x].depTop ==> AtMost(RateAt(c, c.tx[x].depTop[y]), RateAt(c, chunk))
  }

  /** `dep` is an improvable dependency of the chunk, or none was found among the dependencies of
      `seen` and those from `x` to a transaction of `ys`. */
  ghost predicate Searched(c: Core, chunk: nat, seen: set<nat>, x: nat, ys: set<nat>, dep: Option<Dep>) {
    match dep
    case None =>
      && (forall u, v :: u in seen && u in c.tx && v in c.tx[u].active ==> NoImprovement(c, chunk, u, v))
      && (forall v :: v in ys ==> NoImprovement(c, chunk, x, v))
    case Some(e) => Improvable(c, e.0, e.1) && c.tx[e.0].chunkIdx == chunk
  }

  /** Some dependency of the chunk with a higher-feerate top set, if there is one. */
  method PickDependencyToSplit(c: Core, chunk: nat) returns (dep: Option<Dep>)
    requires Sane(c) && chunk in c.chunks
    ensures match dep
            case None => ChunkOptimal(c, chunk)
            case Some(e) => Improvable(c, e.0, e.1) && c.tx[e.0].chunkIdx == chunk
  {
    hide Sane, RateAt, AtMost, Lower;
    dep := None;
    var best := 0;
    var todo := TxsAt(c, chunk);
    while todo != {}
      invariant todo <= TxsAt(c, chunk) && (dep.None? ==> best == 0)
      invariant Searched(c, chunk, TxsAt(c, chunk) - todo, 0, {}, dep)
    {
      var x :| x in todo;
      MemberOfChunk(c, chunk, x);
      var children := c.tx[x].active;
      while children != {}
        invariant children <= c.tx[x].active && (dep.None? ==> best == 0)
        invariant Searched(c, chunk, TxsAt(c, chunk) - todo, x, c.tx[x].active - children, dep)
      {
        var y :| y in children;
        children := children - {y};
        if !NoImprovement(c, chunk, x, y) {
          NotAtMostIsLower(RateAt(c, c.tx[x].depTop[y]), RateAt(c, chunk));
          var tiebreak :| 0 <= tiebreak < 0x1_0000_0000_0000_0000;
          if tiebreak >= best {
            dep, best := Some((x, y)), tiebreak;
          }
        }
      }
      todo := todo - {x};
    }
  }

  lemma NotAtMostIsLower(a: FeeFrac, b: FeeFrac)
    ensures AtMost(a, b) || Lower(b, a)
  {
  }
}
