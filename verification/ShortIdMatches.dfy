/** What the place of one short identifier holds after some transactions of the pool and some extra ones have
    been looked at (src/blockencodings.cpp). */
module ShortIdMatches {
  import opened Options

  type Tx = nat

  datatype TxSource = NoSource | Mempool | Extra | Collided

  predicate Has(s: TxSource) { s == Mempool || s == Extra }

  ghost predicate Matched(pool: seq<Tx>, extra: seq<Tx>, short: Tx -> nat, id: nat) {
    exists x :: (x in pool || x in extra) && short(x) == id
  }

  /** Two transactions contend for the identifier: two entries of the pool, or an extra transaction and a
      different one. */
  ghost predicate Contended(pool: seq<Tx>, extra: seq<Tx>, short: Tx -> nat, id: nat) {
    || TwoInPool(pool, short, id)
    || exists x, y :: (x in pool || x in extra) && y in extra && x != y && short(x) == id && short(y) == id
  }

  ghost predicate TwoInPool(pool: seq<Tx>, short: Tx -> nat, id: nat) {
    exists i, j :: 0 <= i < j < |pool| && short(pool[i]) == id && short(pool[j]) == id
  }

  /** The place holds a transaction exactly if there is one for it and none contends. */
  ghost predicate Exact(source: TxSource, tx: Option<Tx>, pool: seq<Tx>, extra: seq<Tx>, short: Tx -> nat, id: nat) {
    && (source == Collided <==> Contended(pool, extra, short, id))
    && (Has(source) <==> Matched(pool, extra, short, id) && !Contended(pool, extra, short, id))
    && (Has(source) <==> tx.Some?)
    && (tx.Some? ==> (tx.value in pool || tx.value in extra) && short(tx.value) == id)
  }

  lemma ExactStart(short: Tx -> nat, id: nat)
    ensures Exact(NoSource, None, [], [], short, id)
  {
  }

  // ----- one more transaction of the pool

  lemma PoolMatched(pool: seq<Tx>, y: Tx, short: Tx -> nat, id: nat)
    ensures Matched(pool + [y], [], short, id) <==> Matched(pool, [], short, id) || short(y) == id
  {
    if Matched(pool, [], short, id) {
      var x :| (x in pool || x in []) && short(x) == id;
      assert x in pool + [y];
    }
    if short(y) == id { assert y in pool + [y]; }
  }

  lemma PoolContended(pool: seq<Tx>, y: Tx, short: Tx -> nat, id: nat)
    ensures Contended(pool + [y], [], short, id) <==>
            Contended(pool, [], short, id) || (Matched(pool, [], short, id) && short(y) == id)
  {
    var more := pool + [y];
    if TwoInPool(pool, short, id) {
      var i, j :| 0 <= i < j < |pool| && short(pool[i]) == id && short(pool[j]) == id;
      assert more[i] == pool[i] && more[j] == pool[j];
    }
    if Matched(pool, [], short, id) && short(y) == id {
      var x :| (x in pool || x in []) && short(x) == id;
      var i :| 0 <= i < |pool| && pool[i] == x;
      assert more[i] == x && more[|pool|] == y;
    }
    if TwoInPool(more, short, id) {
      var i, j :| 0 <= i < j < |more| && short(more[i]) == id && short(more[j]) == id;
      assert more[i] == pool[i];
      if j < |pool| { assert more[j] == pool[j]; } else { assert Matched(pool, [], short, id); }
    }
  }

  /** What becomes of the place. */
  lemma PoolStep(source: TxSource, tx: Option<Tx>, pool: seq<Tx>, short: Tx -> nat, id: nat, y: Tx)
    requires Exact(source, tx, pool, [], short, id)
    ensures short(y) != id || source == Collided ==> Exact(source, tx, pool + [y], [], short, id)
    ensures short(y) == id && source == NoSource ==> Exact(Mempool, Some(y), pool + [y], [], short, id)
    ensures short(y) == id && Has(source) ==> Exact(Collided, None, pool + [y], [], short, id)
  {
    hide Matched, Contended;
    PoolMatched(pool, y, short, id);
    PoolContended(pool, y, short, id);
  }

  // ----- one more extra transaction

  lemma ExtraMatched(pool: seq<Tx>, extra: seq<Tx>, y: Tx, short: Tx -> nat, id: nat)
    ensures Matched(pool, extra + [y], short, id) <==> Matched(pool, extra, short, id) || short(y) == id
  {
    if Matched(pool, extra, short, id) {
      var x :| (x in pool || x in extra) && short(x) == id;
      assert x in pool || x in extra + [y];
    }
    if short(y) == id { assert y in extra + [y]; }
  }

  ghost predicate OtherThan(pool: seq<Tx>, extra: seq<Tx>, y: Tx, short: Tx -> nat, id: nat) {
    exists x :: (x in pool || x in extra) && x != y && short(x) == id
  }

  lemma ExtraContended(pool: seq<Tx>, extra: seq<Tx>, y: Tx, short: Tx -> nat, id: nat)
    ensures Contended(pool, extra + [y], short, id) <==>
            Contended(pool, extra, short, id) || (OtherThan(pool, extra, y, short, id) && short(y) == id)
  {
    hide TwoInPool;
    var more := extra + [y];
    if OtherThan(pool, extra, y, short, id) && short(y) == id {
      var x :| (x in pool || x in extra) && x != y && short(x) == id;
      assert (x in pool || x in more) && y in more;
    }
    if !TwoInPool(pool, short, id) {
      if Contended(pool, extra, short, id) {
        var x, z :| (x in pool || x in extra) && z in extra && x != z && short(x) == id && short(z) == id;
        assert (x in pool || x in more) && z in more;
      }
      if Contended(pool, more, short, id) {
        var x, z :| (x in pool || x in more) && z in more && x != z && short(x) == id && short(z) == id;
        OneIsNew(pool, extra, y, short, id, x, z);
      }
    }
  }

  lemma OneIsNew(pool: seq<Tx>, extra: seq<Tx>, y: Tx, short: Tx -> nat, id: nat, x: Tx, z: Tx)
    requires (x in pool || x in extra + [y]) && z in extra + [y] && x != z && short(x) == id && short(z) == id
    ensures Contended(pool, extra, short, id) || (OtherThan(pool, extra, y, short, id) && short(y) == id)
  {
    hide TwoInPool;
    if z == y {
      assert x in pool || x in extra;
    } else {
      assert z in extra;
      if x in pool || x in extra { } else { assert x == y; }
    }
  }

  lemma DifferentContend(pool: seq<Tx>, extra: seq<Tx>, short: Tx -> nat, id: nat, x: Tx, y: Tx)
    requires (x in pool || x in extra) && (y in pool || y in extra) && short(x) == id && short(y) == id && x != y
    ensures Contended(pool, extra, short, id)
  {
    if x in pool && y in pool {
      var i, j :| 0 <= i < |pool| && 0 <= j < |pool| && pool[i] == x && pool[j] == y;
      assert i < j || j < i;
    }
  }

  lemma OtherContends(pool: seq<Tx>, extra: seq<Tx>, y: Tx, short: Tx -> nat, id: nat)
    requires (y in pool || y in extra) && short(y) == id
    ensures OtherThan(pool, extra, y, short, id) ==> Contended(pool, extra, short, id)
  {
    hide Contended;
    if OtherThan(pool, extra, y, short, id) {
      var x :| (x in pool || x in extra) && x != y && short(x) == id;
      DifferentContend(pool, extra, short, id, x, y);
    }
  }

  /** An uncontended place holds the only match. */
  lemma OnlyMatch(source: TxSource, tx: Option<Tx>, pool: seq<Tx>, extra: seq<Tx>, short: Tx -> nat, id: nat, y: Tx)
    requires Exact(source, tx, pool, extra, short, id) && Has(source)
    ensures OtherThan(pool, extra, y, short, id) <==> tx != Some(y)
  {
    hide Contended, Matched;
    OtherContends(pool, extra, tx.value, short, id);
  }

  lemma NoMatchNoOther(pool: seq<Tx>, extra: seq<Tx>, y: Tx, short: Tx -> nat, id: nat)
    ensures OtherThan(pool, extra, y, short, id) ==> Matched(pool, extra, short, id)
  {
  }

  lemma ExtraStep(source: TxSource, tx: Option<Tx>, pool: seq<Tx>, extra: seq<Tx>, short: Tx -> nat, id: nat, y: Tx)
    requires Exact(source, tx, pool, extra, short, id)
    ensures short(y) != id || source == Collided || tx == Some(y) ==> Exact(source, tx, pool, extra + [y], short, id)
    ensures short(y) == id && source == NoSource ==> Exact(Extra, Some(y), pool, extra + [y], short, id)
    ensures short(y) == id && Has(source) && tx != Some(y) ==> Exact(Collided, None, pool, extra + [y], short, id)
  {
    hide Matched, Contended, OtherThan;
    ExtraMatched(pool, extra, y, short, id);
    ExtraContended(pool, extra, y, short, id);
    NoMatchNoOther(pool, extra, y, short, id);
    if Has(source) { OnlyMatch(source, tx, pool, extra, short, id, y); }
    assert y in extra + [y];
    assert tx.Some? ==> tx.value in pool || tx.value in extra + [y];
  }

  // ----- parts of the pool and of the extra transactions

  lemma PartMatched(pool: seq<Tx>, extra: seq<Tx>, n: nat, k: nat, short: Tx -> nat, id: nat)
    requires n <= |pool| && k <= |extra|
    ensures Matched(pool[..n], extra[..k], short, id) ==> Matched(pool, extra, short, id)
    ensures Contended(pool[..n], extra[..k], short, id) ==> Contended(pool, extra, short, id)
  {
    if Matched(pool[..n], extra[..k], short, id) {
      var x :| (x in pool[..n] || x in extra[..k]) && short(x) == id;
      assert x in pool || x in extra;
    }
    if TwoInPool(pool[..n], short, id) {
      var i, j :| 0 <= i < j < n && short(pool[..n][i]) == id && short(pool[..n][j]) == id;
      assert short(pool[i]) == id && short(pool[j]) == id;
    } else if Contended(pool[..n], extra[..k], short, id) {
      var x, y :| (x in pool[..n] || x in extra[..k]) && y in extra[..k] && x != y && short(x) == id && short(y) == id;
      assert (x in pool || x in extra) && y in extra;
    }
  }
}
