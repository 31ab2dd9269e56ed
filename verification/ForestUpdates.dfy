/** Activating and deactivating dependencies (`Activate`, `Deactivate`, src/cluster_linearize.h). */
module ForestUpdates {
  import opened Forests
  import opened ForestCore

  // ----- the loops of Activate and Deactivate, on copies of the fields

  /** Over the active dependencies of `txs`: add `other` to, or remove it from, every top set that
      contains `z`. */
  method ChangeTops(c: Core, txs: set<nat>, z: nat, other: SetInfo, grow: bool) returns (info: seq<SetInfo>)
    requires TopsIndexed(c) && txs <= c.tx.Keys
    ensures |info| == |c.info| && TopsChanged(c, info, ActiveOf(c.tx, txs), z, other, grow)
  {
    hide TopsChanged, Changed, TopsIndexed;
    var deps := ActiveOf(c.tx, txs);
    var todo := deps;
    info := c.info;
    NoTopChanged(c, z, other, grow);
    assert deps - todo == {};
    while todo != {}
      invariant todo <= deps
      invariant |info| == |c.info| && TopsChanged(c, info, deps - todo, z, other, grow)
    {
      var dep: Dep :| dep in todo;
      OneTopChanged(c, info, deps - todo, dep, z, other, grow);
      var i := c.tx[dep.0].depTop[dep.1];
      info := info[i := Changed(info[i], z, other, grow)];
      assert deps - (todo - {dep}) == deps - todo + {dep};
      todo := todo - {dep};
    }
    assert deps - todo == deps;
  }

  lemma NoTopChanged(c: Core, z: nat, other: SetInfo, grow: bool)
    requires TopsIndexed(c)
    ensures TopsChanged(c, c.info, {}, z, other, grow)
  {
  }

  /** The top set of one more dependency, which is at an index of its own. */
  lemma OneTopChanged(c: Core, info: seq<SetInfo>, done: set<Dep>, dep: Dep, z: nat, other: SetInfo, grow: bool)
    requires TopsIndexed(c) && TopsChanged(c, info, done, z, other, grow)
    requires dep.0 in c.tx && dep.1 in c.tx[dep.0].active && dep !in done
    ensures dep.1 in c.tx[dep.0].depTop && c.tx[dep.0].depTop[dep.1] < |info|
    ensures var i := c.tx[dep.0].depTop[dep.1];
            TopsChanged(c, info[i := Changed(info[i], z, other, grow)], done + {dep}, z, other, grow)
  {
    hide Changed;
    var i := c.tx[dep.0].depTop[dep.1];
    var after := info[i := Changed(info[i], z, other, grow)];
    assert info[i] == c.info[i] && !NoTop(c, i);
    forall x, y | x in c.tx && y in c.tx[x].active && (x, y) != dep ensures c.tx[x].depTop[y] != i { }
  }

  method SetChunkIdx(c: Core, txs: set<nat>, idx: nat) returns (tx: map<nat, TxData>)
    requires txs <= c.tx.Keys
    ensures Repointed(tx, c, txs, idx)
  {
    tx := c.tx;
    var todo := txs;
    while todo != {}
      invariant todo <= txs && Repointed(tx, c, txs - todo, idx)
    {
      var x :| x in todo;
      tx := tx[x := tx[x].(chunkIdx := idx)];
      todo := todo - {x};
    }
    assert txs - todo == txs;
  }

  /** The first part of `Activate`: the top sets of both chunks grow by the other chunk where they have the
      end of the dependency. */
  method GrowTops(c: Core, parent: nat, child: nat) returns (info: seq<SetInfo>)
    requires Sane(c) && CanActivate(c, parent, child)
    ensures Indexed(c) && TopsIndexed(c) && |info| == |c.info| && TopsGrown(c, info, parent, child)
  {
    hide Sane, Linked, Indexed, TopsIndexed, InfosCorrect, ReachCorrect, ValidForest, TopsChanged;
    SaneParts(c);
    ActivateBounds(c, parent, child);
    var top, bottom := c.info[c.tx[parent].chunkIdx], c.info[c.tx[child].chunkIdx];
    var info1 := ChangeTops(c, top.transactions, parent, bottom, true);
    TopsIndexedSame(c, info1);
    info := ChangeTops(c.(info := info1), bottom.transactions, child, top, true);
    TwoPassesGrow(c, info1, info, parent, child);
  }

  /** Make the inactive dependency from `child` to `parent` active, merging their chunks. */
  method Activate(c: Core, parent: nat, child: nat) returns (d: Core)
    requires Sane(c) && CanActivate(c, parent, child)
    ensures Sane(d) && ActivateData(c, d, parent, child)
  {
    hide Sane, Linked, Indexed, TopsIndexed, InfosCorrect, ReachCorrect, ValidForest, TopsGrown, TxActivated,
         InfoActivated, ReachActivated;
    SaneParts(c);
    ActivateBounds(c, parent, child);
    var parentIdx, childIdx := c.tx[parent].chunkIdx, c.tx[child].chunkIdx;
    var info := GrowTops(c, parent, child);
    var whole := Join(c.info[childIdx], c.info[parentIdx]);
    var tx := SetChunkIdx(c, c.info[parentIdx].transactions, childIdx);
    var r, q := c.reach[childIdx], c.reach[parentIdx];
    var data := tx[parent];
    d := Core(c.rate,
              tx[parent := data.(depTop := data.depTop[child := parentIdx], active := data.active + {child})],
              info[childIdx := whole],
              c.reach[childIdx := Reach(r.up + q.up - whole.transactions, r.down + q.down - whole.transactions)],
              c.chunks - {parentIdx});
    TxWritten(c, d, parent, child, tx);
    InfoWritten(c, d, parent, child, info);
    ReachWritten(c, d, parent, child);
    ActivateSane(c, d, parent, child);
  }

  /** The parents and children of `txs` that are not in it themselves. */
  method GetReachable(c: Core, txs: set<nat>) returns (r: Reach)
    requires txs <= c.tx.Keys
    ensures r == Reach(Outside(Par(c), txs), Outside(Chi(c), txs))
  {
    var parents, children, todo := {}, {}, txs;
    while todo != {}
      invariant todo <= txs
      invariant parents == set t, q | t in txs && t !in todo && q in c.tx[t].parents :: q
      invariant children == set t, q | t in txs && t !in todo && q in c.tx[t].children :: q
    {
      var t :| t in todo;
      parents := parents + c.tx[t].parents;
      children := children + c.tx[t].children;
      todo := todo - {t};
    }
    r := Reach(parents - txs, children - txs);
    OutsideIs(c, txs);
  }

  /** Make an active dependency inactive, splitting its chunk. */
  method Deactivate(c: Core, parent: nat, child: nat) returns (d: Core)
    requires Sane(c) && CanDeactivate(c, parent, child)
    ensures Sane(d) && DeactivateData(c, d, parent, child)
  {
    hide Sane, Linked, Indexed, TopsIndexed, InfosCorrect, ReachCorrect, ValidForest, TopsChanged, TopsShrunk,
         TxDeactivated, InfoDeactivated, ReachDeactivated, Par, Chi, Outside;
    SaneParts(c);
    DeactivateBounds(c, parent, child);
    WithoutDepIndexed(c, parent, child);
    var parentIdx, childIdx := c.tx[parent].depTop[child], c.tx[parent].chunkIdx;
    var w := WithoutDep(c, parent, child);
    var top, bottom := w.info[parentIdx], w.info[childIdx];
    var tx := SetChunkIdx(w, top.transactions, parentIdx);
    var info1 := ChangeTops(w, top.transactions, parent, bottom, false);
    TopsIndexedSame(w, info1);
    var info2 := ChangeTops(w.(info := info1), bottom.transactions, child, top, false);
    TwoPassesShrink(c, info1, info2, parent, child);
    var topReach := GetReachable(c, top.transactions);
    var bottomReach := GetReachable(c, bottom.transactions);
    d := Core(c.rate, tx, info2, c.reach[parentIdx := topReach][childIdx := bottomReach], c.chunks + {parentIdx});
    TopsShrunkEnds(c, info2, parent, child);
    TxCut(c, d, parent, child, tx);
    InfoCut(c, d, parent, child);
    ReachCut(c, d, parent, child);
    DeactivateSane(c, d, parent, child);
  }
}
