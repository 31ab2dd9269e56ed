/** The two-phase download of a peer's headers (src/headerssync.cpp): commitments to the headers of the
    first download, checked against those of the second, which are released once enough follow them. */
module HeadersSync {
  import opened Options
  import opened HeaderWindows
  import opened Retargeting

  const COMMITMENT_PERIOD := 632
  const BUFFER_SIZE := 15009

  /** What a sync is started with. `base` is the chain from genesis to the block the sync starts at, `pow`
      the consensus parameters, `hash` the header hash, `bit` the salted one-bit hash and `proof` the work of
      a compact target. */
  datatype Params = Params(base: seq<Header>, startWork: nat, minimumWork: nat, pow: PowParams, maxCommitments: nat,
                           offset: nat, hash: Header -> nat, bit: nat -> bool, proof: Uint32 -> nat)

  ghost predicate Usable(p: Params) { p.base != [] && UsablePow(p.pow) && p.offset < COMMITMENT_PERIOD }

  datatype Compressed = Compressed(version: int, merkle: nat, time: int, bits: Uint32, nonce: nat)

  function Compress(h: Header): Compressed { Compressed(h.version, h.merkle, h.time, h.bits, h.nonce) }

  function FullHeader(c: Compressed, prev: nat): Header { Header(c.version, prev, c.merkle, c.time, c.bits, c.nonce) }

  // ----- what a downloaded chain has to satisfy

  function Work(p: Params, c: seq<Header>): nat {
    if c == [] then p.startWork else Work(p, c[..|c| - 1]) + p.proof(c[|c| - 1].bits)
  }

  /** The header before position `i` of a chain that continues the base. */
  function Previous(p: Params, c: seq<Header>, i: nat): Header
    requires p.base != [] && i <= |c|
  {
    if i == 0 then p.base[|p.base| - 1] else c[i - 1]
  }

  ghost predicate LinkedAt(p: Params, c: seq<Header>, i: nat)
    requires p.base != [] && i < |c|
  {
    c[i].prev == p.hash(Previous(p, c, i))
  }

  /** The difficulty check at position `i`, with the true recent targets and median times there. */
  ghost predicate PermittedAt(p: Params, c: seq<Header>, i: nat)
    requires Usable(p) && i < |c|
  {
    var chain := p.base + c[..i];
    var prev := Previous(p, c, i);
    RetargetOk(p.pow, LastN(Bits(chain), p.pow.window), LastN(MedianTimes(chain), p.pow.window + 1), prev.bits,
               c[i].bits, c[i].time, prev.time, |chain|)
  }

  predicate Committed(p: Params, i: nat) { (|p.base| + i) % COMMITMENT_PERIOD == p.offset }

  function Commitment(p: Params, h: Header): bool { p.bit(p.hash(h)) }

  /** The commitments to the headers of `c` from position `k` on. */
  function Commitments(p: Params, c: seq<Header>, k: nat): seq<bool>
    decreases |c| - k
  {
    if k >= |c| then []
    else (if Committed(p, k) then [Commitment(p, c[k])] else []) + Commitments(p, c, k + 1)
  }

  /** Below the work threshold, a header at a committed height matches the one first seen there. */
  ghost predicate MatchesAt(p: Params, seen: seq<Header>, c: seq<Header>, i: nat)
    requires i < |c|
  {
    Committed(p, i) && Work(p, c[..i + 1]) < p.minimumWork ==>
      i < |seen| && Commitment(p, seen[i]) == Commitment(p, c[i])
  }

  ghost predicate Permitted(p: Params, c: seq<Header>)
    requires Usable(p)
  {
    forall i :: 0 <= i < |c| ==> PermittedAt(p, c, i)
  }

  ghost predicate Linked(p: Params, c: seq<Header>)
    requires Usable(p)
  {
    forall i :: 0 <= i < |c| ==> LinkedAt(p, c, i)
  }

  ghost predicate Matches(p: Params, seen: seq<Header>, c: seq<Header>) {
    forall i :: 0 <= i < |c| ==> MatchesAt(p, seen, c, i)
  }

  /** A second download that may be stored. */
  ghost predicate Storable(p: Params, seen: seq<Header>, c: seq<Header>)
    requires Usable(p)
  {
    Linked(p, c) && Permitted(p, c) && Matches(p, seen, c)
  }

  /** A first download that may be continued. */
  ghost predicate Presyncable(p: Params, c: seq<Header>)
    requires Usable(p)
  {
    Permitted(p, c) && |Commitments(p, c, 0)| <= p.maxCommitments
  }

  /** How many headers of the second download `c` are out once it has been processed. */
  ghost function Ready(p: Params, c: seq<Header>, out: nat): nat {
    if c != [] && Work(p, c) >= p.minimumWork then |c|
    else if |c| - BUFFER_SIZE > out then |c| - BUFFER_SIZE else out
  }

  /** The buffer holds the headers of the second download from position `out` on. */
  ghost predicate Waiting(buffer: seq<Compressed>, c: seq<Header>, out: nat) {
    |buffer| == |c| - out && forall i :: 0 <= i < |buffer| ==> buffer[i] == Compress(c[out + i])
  }

  // ----- one more header

  lemma WaitingGrows(buffer: seq<Compressed>, c: seq<Header>, out: nat, h: Header)
    requires Waiting(buffer, c, out)
    ensures Waiting(buffer + [Compress(h)], c + [h], out) && |c| >= out
    ensures buffer != [] ==> |c| > 0 && buffer[|buffer| - 1] == Compress(c[|c| - 1])
  {
  }

  /** The target and the time of the header before the next one are those of the last one that waits. */
  lemma LastWaiting(p: Params, buffer: seq<Compressed>, c: seq<Header>, out: nat)
    requires p.base != [] && Waiting(buffer, c, out) && (buffer == [] ==> c == [])
    ensures var prev, start := Previous(p, c, |c|), p.base[|p.base| - 1];
            && prev.bits == (if buffer != [] then buffer[|buffer| - 1].bits else start.bits)
            && prev.time == (if buffer != [] then buffer[|buffer| - 1].time else start.time)
  {
  }

  lemma WaitingShrinks(buffer: seq<Compressed>, c: seq<Header>, out: nat)
    requires Waiting(buffer, c, out) && buffer != []
    ensures out < |c| && buffer[0] == Compress(c[out]) && Waiting(buffer[1..], c, out + 1)
  {
  }

  /** The first header that waits, with the hash of its predecessor, is the next one of the download. */
  lemma NextReleased(p: Params, buffer: seq<Compressed>, c: seq<Header>, out: nat, prevHash: nat)
    requires Usable(p) && Waiting(buffer, c, out) && buffer != [] && Linked(p, c) && out <= |c|
    requires prevHash == p.hash(Previous(p, c, out))
    ensures out < |c| && FullHeader(buffer[0], prevHash) == c[out] && Waiting(buffer[1..], c, out + 1)
    ensures c[..out + 1] == c[..out] + [c[out]] && p.hash(c[out]) == p.hash(Previous(p, c, out + 1))
  {
    WaitingShrinks(buffer, c, out);
    assert LinkedAt(p, c, out);
  }

  lemma WaitingLength(buffer: seq<Compressed>, c: seq<Header>, out: nat)
    requires Waiting(buffer, c, out)
    ensures |buffer| == |c| - out
  {
  }

  lemma Splice(c: seq<Header>, d: seq<Header>, i: nat)
    requires i < |d|
    ensures c + d[..i + 1] == c + d[..i] + [d[i]] && c + d == c + d[..i] + [d[i]] + d[i + 1..]
  {
  }

  lemma PermittedGrows(p: Params, c: seq<Header>, h: Header)
    requires Usable(p)
    ensures Permitted(p, c + [h]) <==> Permitted(p, c) && PermittedAt(p, c + [h], |c|)
  {
    forall i | 0 <= i < |c| ensures PermittedAt(p, c + [h], i) == PermittedAt(p, c, i) {
      assert (c + [h])[..i] == c[..i];
    }
  }

  lemma LinkedGrows(p: Params, c: seq<Header>, h: Header)
    requires Usable(p)
    ensures Linked(p, c + [h]) <==> Linked(p, c) && LinkedAt(p, c + [h], |c|)
  {
    forall i | 0 <= i < |c| ensures LinkedAt(p, c + [h], i) == LinkedAt(p, c, i) { }
  }

  lemma MatchesGrows(p: Params, seen: seq<Header>, c: seq<Header>, h: Header)
    ensures Matches(p, seen, c + [h]) <==> Matches(p, seen, c) && MatchesAt(p, seen, c + [h], |c|)
  {
    forall i | 0 <= i < |c| ensures MatchesAt(p, seen, c + [h], i) == MatchesAt(p, seen, c, i) {
      assert (c + [h])[..i + 1] == c[..i + 1];
    }
  }

  lemma StorableGrows(p: Params, seen: seq<Header>, c: seq<Header>, h: Header)
    requires Usable(p)
    ensures Storable(p, seen, c + [h]) <==>
            Storable(p, seen, c) && LinkedAt(p, c + [h], |c|) && PermittedAt(p, c + [h], |c|) &&
            MatchesAt(p, seen, c + [h], |c|)
  {
    PermittedGrows(p, c, h);
    LinkedGrows(p, c, h);
    MatchesGrows(p, seen, c, h);
  }

  /** The buffers give the difficulty check what belongs there. */
  lemma PermittedMeans(p: Params, b: Buffers, c: seq<Header>, h: Header)
    requires Usable(p) && Follows(b, p.base + c, p.pow.window)
    ensures PermittedAt(p, c + [h], |c|) <==>
            RetargetOk(p.pow, b.recentBits, b.recentMtp, Previous(p, c, |c|).bits, h.bits, h.time,
                       Previous(p, c, |c|).time, |p.base| + |c|)
  {
    assert (c + [h])[..|c|] == c;
  }

  lemma BuffersSeeded(p: Params, b: Buffers, c: seq<Header>)
    requires Usable(p) && Follows(b, p.base + c, p.pow.window)
    ensures b.recentBits != []
  {
    assert |Bits(p.base + c)| > 0;
  }

  lemma MatchesMeans(p: Params, seen: seq<Header>, c: seq<Header>, h: Header)
    ensures MatchesAt(p, seen, c + [h], |c|) <==>
            (Committed(p, |c|) && Work(p, c + [h]) < p.minimumWork ==>
               |c| < |seen| && Commitment(p, seen[|c|]) == Commitment(p, h))
  {
    assert (c + [h])[..|c| + 1] == c + [h];
  }

  lemma NothingYet(p: Params, seen: seq<Header>)
    requires Usable(p)
    ensures Storable(p, seen, []) && Work(p, []) == p.startWork
  {
  }

  lemma {:induction false} CommitmentsGrow(p: Params, c: seq<Header>, h: Header, k: nat)
    requires k <= |c|
    ensures Commitments(p, c + [h], k) == Commitments(p, c, k) + (if Committed(p, |c|) then [Commitment(p, h)] else [])
    decreases |c| - k
  {
    if k < |c| {
      CommitmentsGrow(p, c, h, k + 1);
    } else {
      assert Commitments(p, c + [h], k + 1) == [];
    }
  }

  lemma PresyncableGrows(p: Params, c: seq<Header>, h: Header)
    requires Usable(p)
    ensures Presyncable(p, c + [h]) <==>
            Permitted(p, c) && PermittedAt(p, c + [h], |c|) && |Commitments(p, c + [h], 0)| <= p.maxCommitments
    ensures Presyncable(p, c + [h]) ==> Presyncable(p, c)
  {
    PermittedGrows(p, c, h);
    CommitmentsGrow(p, c, h, 0);
  }

  lemma {:induction false} NoCommitmentsBeyond(p: Params, c: seq<Header>, k: nat)
    ensures k >= |c| ==> Commitments(p, c, k) == []
    ensures k < |c| ==> Commitments(p, c, k) ==
                        (if Committed(p, k) then [Commitment(p, c[k])] else []) + Commitments(p, c, k + 1)
  {
  }

  lemma WorkGrows(p: Params, c: seq<Header>, h: Header)
    ensures Work(p, c + [h]) == Work(p, c) + p.proof(h.bits)
  {
    assert (c + [h])[..|c|] == c;
  }

  /** A prefix of a good download is good. */
  lemma {:induction false} PrefixStorable(p: Params, seen: seq<Header>, c: seq<Header>, d: seq<Header>)
    requires Usable(p) && Storable(p, seen, c + d)
    ensures Storable(p, seen, c)
    decreases |d|
  {
    if d == [] {
      assert c + d == c;
    } else {
      var n := |d| - 1;
      assert c + d == (c + d[..n]) + [d[n]];
      StorableGrows(p, seen, c + d[..n], d[n]);
      PrefixStorable(p, seen, c, d[..n]);
    }
  }

  lemma {:induction false} PrefixPresyncable(p: Params, c: seq<Header>, d: seq<Header>)
    requires Usable(p) && Presyncable(p, c + d)
    ensures Presyncable(p, c)
    decreases |d|
  {
    if d == [] {
      assert c + d == c;
    } else {
      var n := |d| - 1;
      assert c + d == (c + d[..n]) + [d[n]];
      PresyncableGrows(p, c + d[..n], d[n]);
      PrefixPresyncable(p, c, d[..n]);
    }
  }

  // ----- how many commitments a stretch of headers holds

  /** How many of the `n` heights from position `i` on are committed. */
  function CommittedCount(p: Params, i: nat, n: nat): nat {
    if n == 0 then 0 else (if Committed(p, i + n - 1) then 1 else 0) + CommittedCount(p, i, n - 1)
  }

  lemma {:induction false} CountSplits(p: Params, i: nat, m: nat, n: nat)
    ensures CommittedCount(p, i, m + n) == CommittedCount(p, i, m) + CommittedCount(p, i + m, n)
    decreases n
  {
    if n > 0 { CountSplits(p, i, m, n - 1); }
  }

  lemma {:induction false} CountPositive(p: Params, i: nat, n: nat, j: nat)
    requires i <= j < i + n && Committed(p, j)
    ensures CommittedCount(p, i, n) >= 1
    decreases n
  {
    if j < i + n - 1 { CountPositive(p, i, n - 1, j); }
  }

  lemma SomeCommitted(p: Params, i: nat) returns (j: nat)
    requires p.offset < COMMITMENT_PERIOD
    ensures i <= j < i + COMMITMENT_PERIOD && Committed(p, j)
  {
    var r := (|p.base| + i) % COMMITMENT_PERIOD;
    j := if r <= p.offset then i + p.offset - r else i + p.offset - r + COMMITMENT_PERIOD;
    var q := (|p.base| + i) / COMMITMENT_PERIOD;
    assert |p.base| + j == p.offset + COMMITMENT_PERIOD * (if r <= p.offset then q else q + 1);
  }

  /** Every full period holds a commitment. */
  lemma {:induction false} CountAtLeast(p: Params, i: nat, periods: nat)
    requires p.offset < COMMITMENT_PERIOD
    ensures CommittedCount(p, i, periods * COMMITMENT_PERIOD) >= periods
    decreases periods
  {
    if periods > 0 {
      var before := (periods - 1) * COMMITMENT_PERIOD;
      CountAtLeast(p, i, periods - 1);
      CountSplits(p, i, before, COMMITMENT_PERIOD);
      var j := SomeCommitted(p, i + before);
      CountPositive(p, i + before, COMMITMENT_PERIOD, j);
    }
  }

  /** The headers kept back after a released one contain at least 23 commitments. */
  lemma BufferCommitments(p: Params, i: nat)
    requires p.offset < COMMITMENT_PERIOD
    ensures CommittedCount(p, i + 1, BUFFER_SIZE) >= 23
  {
    CountAtLeast(p, i + 1, 23);
    CountSplits(p, i + 1, 23 * COMMITMENT_PERIOD, BUFFER_SIZE - 23 * COMMITMENT_PERIOD);
  }

  lemma {:induction false} WorkMonotone(p: Params, c: seq<Header>, k: nat)
    requires k <= |c|
    ensures Work(p, c[..k]) <= Work(p, c)
    decreases |c|
  {
    if k < |c| {
      WorkMonotone(p, c[..|c| - 1], k);
      assert c[..|c| - 1][..k] == c[..k];
    } else {
      assert c[..k] == c;
    }
  }

  /** A header released from a download short of the threshold has at least 23 commitments after it,
      and every one of them matches the first download. */
  lemma ReleasedIsBacked(p: Params, seen: seq<Header>, c: seq<Header>, i: nat)
    requires p.offset < COMMITMENT_PERIOD && Matches(p, seen, c)
    requires i + BUFFER_SIZE < |c| && Work(p, c) < p.minimumWork
    ensures CommittedCount(p, i + 1, BUFFER_SIZE) >= 23
    ensures forall j :: i < j <= i + BUFFER_SIZE && Committed(p, j) ==>
                          j < |seen| && Commitment(p, seen[j]) == Commitment(p, c[j])
  {
    BufferCommitments(p, i);
    forall j | i < j <= i + BUFFER_SIZE && Committed(p, j)
      ensures j < |seen| && Commitment(p, seen[j]) == Commitment(p, c[j])
    {
      WorkMonotone(p, c, j + 1);
      assert MatchesAt(p, seen, c, j);
    }
  }

  /** A peer that serves the chain it showed first, and perhaps more after it, has all of it accepted
      and released. */
  lemma SameChainCompletes(p: Params, seen: seq<Header>, more: seq<Header>, out: nat)
    requires Usable(p) && seen != [] && Work(p, seen) >= p.minimumWork
    requires Linked(p, seen + more) && Permitted(p, seen + more)
    ensures Storable(p, seen, seen + more) && Ready(p, seen + more, out) == |seen + more|
  {
    var c := seen + more;
    forall i | 0 <= i < |c| ensures MatchesAt(p, seen, c, i) {
      if i >= |seen| {
        assert c[..i + 1][..|seen|] == seen;
        WorkMonotone(p, c[..i + 1], |seen|);
      }
    }
    assert c[..|seen|] == seen;
    WorkMonotone(p, c, |seen|);
  }

  /** Headers with the targets of the consensus rule, from the activation height on, pass all difficulty
      checks, except for late ones without retargeting. */
  lemma ConsensusPermitted(p: Params, c: seq<Header>)
    requires Usable(p) && (p.pow.noRetargeting ==> p.pow.allowMinDifficulty)
    requires forall i :: 0 <= i < |c| && |p.base| + i >= p.pow.auxpowStart ==>
                           c[i].bits == RequiredBits(p.pow, p.base + c[..i], c[i].time)
    ensures Permitted(p, c) <==> forall i :: 0 <= i < |c| ==> !LateUnchanged(p.pow, p.base + c[..i], c[i].time)
  {
    hide RetargetOk, RequiredBits, MedianTimes, Bits, LastN, LateUnchanged;
    forall i | 0 <= i < |c| ensures PermittedAt(p, c, i) <==> !LateUnchanged(p.pow, p.base + c[..i], c[i].time) {
      var chain := p.base + c[..i];
      assert chain[|chain| - 1] == Previous(p, c, i);
      RequiredIsAccepted(p.pow, chain, c[i]);
    }
  }

  // ----- the protocol

  datatype State = Presync | Redownload | Final

  datatype ProcessingResult = ProcessingResult(released: seq<Header>, startHeight: Option<int>, success: bool,
                                               requestMore: bool)

  class HeadersSyncState {
    const params: Params

    var state: State
    var buffers: Buffers
    var commitments: seq<bool>
    var lastReceived: Header
    var currentHeight: int
    var currentWork: nat
    var redownloaded: seq<Compressed>
    var lastHeight: int
    var lastHash: nat
    var firstPrevHash: nat
    var redownloadWork: nat
    var processAll: bool

    /** The headers of the first download, those of the second, and those released, over the whole run. */
    ghost var seen: seq<Header>
    ghost var again: seq<Header>
    ghost var released: seq<Header>

    ghost predicate PresyncOk()
      reads this
      requires Usable(params)
    {
      && lastReceived == Previous(params, seen, |seen|)
      && currentHeight == |params.base| - 1 + |seen|
      && currentWork == Work(params, seen)
      && commitments == Commitments(params, seen, 0)
      && Follows(buffers, params.base + seen, params.pow.window)
      && again == [] && released == [] && !processAll
    }

    ghost predicate RedownloadOk()
      reads this
      requires Usable(params)
    {
      && Waiting(redownloaded, again, |released|)
      && lastHeight == |params.base| - 1 + |again|
      && lastHash == params.hash(Previous(params, again, |again|))
      && firstPrevHash == params.hash(Previous(params, again, |released|))
      && redownloadWork == Work(params, again)
      && (processAll <==> again != [] && Work(params, again) >= params.minimumWork)
      && (!processAll ==> commitments == Commitments(params, seen, |again|))
      && (redownloaded == [] ==> again == [])
      && Follows(buffers, params.base + again, params.pow.window)
    }

    lemma FirstHeight()
      requires Usable(params) && RedownloadOk()
      ensures lastHeight - |redownloaded| + 1 == |params.base| + |released|
      ensures processAll <==> again != [] && Work(params, again) >= params.minimumWork
    {
    }

    /** What holds of the whole run so far, whatever the state. */
    ghost predicate RunOk()
      reads this
      requires Usable(params)
    {
      && Presyncable(params, seen)
      && Storable(params, seen, again)
      && released <= again
      && (|released| > 0 ==> Work(params, again) >= params.minimumWork || |released| + BUFFER_SIZE <= |again|)
    }

    ghost predicate Valid()
      reads this
    {
      && Usable(params)
      && RunOk()
      && (state == Presync ==> PresyncOk())
      && (state == Redownload ==> RedownloadOk() && !processAll)
    }

    /** While the second download is short of the work, each header released has at least 23 commitments
        after it, all matching the first download. */
    lemma AllReleasedBacked(i: nat)
      requires Valid() && i < |released| && Work(params, again) < params.minimumWork
      ensures i + BUFFER_SIZE < |again| && released[i] == again[i] && CommittedCount(params, i + 1, BUFFER_SIZE) >= 23
      ensures forall j :: i < j <= i + BUFFER_SIZE && Committed(params, j) ==>
                            j < |seen| && Commitment(params, seen[j]) == Commitment(params, again[j])
    {
      hide Work, Permitted, Linked, CommittedCount;
      ReleasedIsBacked(params, seen, again, i);
    }

    constructor (p: Params)
      requires Usable(p)
      ensures Valid() && params == p && state == Presync && seen == []
    {
      params := p;
      state, commitments, currentHeight, currentWork := Presync, [], |p.base| - 1, p.startWork;
      lastReceived := p.base[|p.base| - 1];
      redownloaded, lastHeight, lastHash, firstPrevHash, redownloadWork, processAll := [], 0, 0, 0, 0, false;
      seen, again, released := [], [], [];
      var b := Reset(p.base, p.pow.window);
      buffers := b;
      new;
      assert p.base + [] == p.base;
    }

    method Finalize()
      modifies this
      ensures state == Final && seen == old(seen) && again == old(again) && released == old(released)
      ensures commitments == [] && redownloaded == [] && lastHash == 0 && firstPrevHash == 0 && !processAll
      ensures currentHeight == 0 && lastReceived == Header(0, 0, 0, 0, 0, 0)
      ensures unchanged(this`buffers, this`currentWork, this`lastHeight, this`redownloadWork)
    {
      commitments, redownloaded, lastHash, firstPrevHash, processAll, currentHeight := [], [], 0, 0, false, 0;
      lastReceived := Header(0, 0, 0, 0, 0, 0);
      state := Final;
    }

    /** One header of the first download: accepted exactly if the difficulty check permits it and there
        are not too many commitments. */
    method ValidateAndProcessSingleHeader(h: Header) returns (ok: bool)
      requires Valid() && state == Presync
      modifies this
      ensures state == Presync && again == [] && released == []
      ensures ok <==> Presyncable(params, old(seen) + [h])
      ensures ok ==> Valid() && seen == old(seen) + [h]
      ensures !ok ==> seen == old(seen)
    {
      hide Permitted, Storable, Commitments, Work, Follows, PermittedAt, RedownloadOk, RetargetOk;
      var nextHeight := currentHeight + 1;
      PresyncableGrows(params, seen, h);
      CommitmentsGrow(params, seen, h, 0);
      PermittedMeans(params, buffers, seen, h);
      BuffersSeeded(params, buffers, seen);
      assert buffers.recentBits != [];
      var permitted := CheckWindowAwareRetarget(params.pow, buffers.recentBits, buffers.recentMtp, lastReceived.bits,
                                                h.bits, h.time, lastReceived.time, nextHeight);
      if !permitted { return false; }
      if nextHeight % COMMITMENT_PERIOD == params.offset {
        commitments := commitments + [Commitment(params, h)];
        if |commitments| > params.maxCommitments { return false; }
      }
      WorkGrows(params, seen, h);
      currentWork := currentWork + params.proof(h.bits);
      lastReceived := h;
      currentHeight := nextHeight;
      buffers := Push(buffers, h, params.pow.window, params.base + seen);
      assert params.base + seen + [h] == params.base + (seen + [h]);
      seen := seen + [h];
      NothingYet(params, seen);
      return true;
    }

    /** Begin the second download, from the start again. */
    method StartRedownload()
      requires Valid() && state == Presync
      modifies this
      ensures Valid() && state == Redownload && seen == old(seen) && again == [] && released == []
    {
      hide Presyncable, Storable, Commitments, Work, Follows;
      assert params.base + [] == params.base;
      NothingYet(params, seen);
      var b := Reset(params.base, params.pow.window);
      var hash := params.hash(params.base[|params.base| - 1]);
      redownloaded, lastHeight, firstPrevHash, lastHash := [], |params.base| - 1, hash, hash;
      redownloadWork, buffers, state := params.startWork, b, Redownload;
    }

    /** A message of the first download. */
    method ValidateAndStoreHeadersCommitments(headers: seq<Header>) returns (ok: bool)
      requires Valid() && state == Presync && headers != []
      modifies this
      ensures ok <==> headers[0].prev == params.hash(Previous(params, old(seen), |old(seen)|)) &&
                      Presyncable(params, old(seen) + headers)
      ensures ok ==> Valid() && seen == old(seen) + headers && again == [] && released == []
      ensures ok ==> state == if Work(params, seen) >= params.minimumWork then Redownload else Presync
      ensures !ok ==> Presyncable(params, seen) && again == [] && released == []
    {
      hide Presyncable, Storable, Commitments, Work, Follows, RedownloadOk;
      if headers[0].prev != params.hash(lastReceived) { return false; }
      ghost var before := seen;
      assert before + [] == before;
      for i := 0 to |headers|
        invariant Valid() && state == Presync && seen == before + headers[..i]
      {
        Splice(before, headers, i);
        ok := ValidateAndProcessSingleHeader(headers[i]);
        if !ok {
          if Presyncable(params, before + headers) {
            PrefixPresyncable(params, before + headers[..i] + [headers[i]], headers[i + 1..]);
          }
          return;
        }
      }
      assert headers[..|headers|] == headers;
      if currentWork >= params.minimumWork {
        StartRedownload();
      }
      return true;
    }

    /** Check the commitment for the next header of the second download, if there is one. The front of
        the queue is the bit stored for the same height. */
    method CheckCommitment(h: Header, nextHeight: int) returns (ok: bool)
      requires Usable(params) && nextHeight == |params.base| + |again|
      requires commitments == Commitments(params, seen, |again|)
      modifies this`commitments
      ensures ok <==>
                (Committed(params, |again|) ==>
                  |again| < |seen| && Commitment(params, seen[|again|]) == Commitment(params, h))
      ensures ok ==> commitments == Commitments(params, seen, |again| + 1)
    {
      NoCommitmentsBeyond(params, seen, |again|);
      NoCommitmentsBeyond(params, seen, |again| + 1);
      if nextHeight % COMMITMENT_PERIOD == params.offset {
        if |commitments| == 0 { return false; }
        var expected := commitments[0];
        commitments := commitments[1..];
        return expected == Commitment(params, h);
      }
      return true;
    }

    /** Put a header that has passed into the buffer. */
    method Store(h: Header, nextHeight: int)
      requires Usable(params) && RunOk() && state == Redownload && Waiting(redownloaded, again, |released|)
      requires Storable(params, seen, again + [h]) && nextHeight == |params.base| + |again|
      requires firstPrevHash == params.hash(Previous(params, again, |released|))
      requires redownloadWork == Work(params, again + [h]) && Follows(buffers, params.base + again, params.pow.window)
      requires processAll <==> Work(params, again + [h]) >= params.minimumWork
      requires !processAll ==> commitments == Commitments(params, seen, |again| + 1)
      modifies this
      ensures Usable(params) && RunOk() && RedownloadOk() && state == Redownload && seen == old(seen)
      ensures released == old(released)
      ensures again == old(again) + [h]
    {
      hide Storable, Presyncable, Commitments, Work, Follows, Waiting;
      WaitingGrows(redownloaded, again, |released|, h);
      WorkGrows(params, again, h);
      ghost var next := again + [h];
      redownloaded := redownloaded + [Compress(h)];
      lastHeight := nextHeight;
      lastHash := params.hash(h);
      buffers := Push(buffers, h, params.pow.window, params.base + again);
      assert params.base + again + [h] == params.base + next;
      again := next;
    }

    /** One header of the second download: stored exactly if the download with it may be stored. The
        previous target and time are those of the header just before it. */
    method ValidateAndStoreRedownloadedHeader(h: Header) returns (ok: bool)
      requires Usable(params) && RunOk() && RedownloadOk() && state == Redownload
      modifies this
      ensures Usable(params) && RunOk() && state == Redownload && seen == old(seen) && released == old(released)
      ensures ok <==> Storable(params, seen, old(again) + [h])
      ensures ok ==> RedownloadOk() && again == old(again) + [h]
      ensures !ok ==> again == old(again)
    {
      hide Storable, Presyncable, Commitments, Work, Follows, PermittedAt, MatchesAt, Waiting, RetargetOk, Compress;
      WaitingGrows(redownloaded, again, |released|, h);
      var nextHeight := lastHeight + 1;
      ghost var next := again + [h];
      PermittedMeans(params, buffers, again, h);
      MatchesMeans(params, seen, again, h);
      StorableGrows(params, seen, again, h);
      WorkGrows(params, again, h);
      if h.prev != lastHash { return false; }
      var start := params.base[|params.base| - 1];
      var previousBits := if redownloaded != [] then redownloaded[|redownloaded| - 1].bits else start.bits;
      var previousTime := if redownloaded != [] then redownloaded[|redownloaded| - 1].time else start.time;
      LastWaiting(params, redownloaded, again, |released|);
      var permitted := CheckWindowAwareRetarget(params.pow, buffers.recentBits, buffers.recentMtp, previousBits,
                                                h.bits, h.time, previousTime, nextHeight);
      if !permitted { return false; }
      redownloadWork := redownloadWork + params.proof(h.bits);
      if redownloadWork >= params.minimumWork { processAll := true; }
      if !processAll {
        ok := CheckCommitment(h, nextHeight);
        if !ok { return; }
      }
      Store(h, nextHeight);
      return true;
    }

    /** Hand out what is ready: everything once the download has the work, and otherwise all but the last
        headers. Each comes with the hash of its predecessor. */
    method PopHeadersReadyForAcceptance() returns (out: seq<Header>)
      requires Usable(params) && RunOk() && RedownloadOk() && state == Redownload
      modifies this
      ensures Usable(params) && RunOk() && state == Redownload && seen == old(seen) && again == old(again)
      ensures released == old(released) + out && released == again[..Ready(params, again, |old(released)|)]
      ensures redownloaded == [] <==> again == [] || processAll
      ensures !processAll ==> RedownloadOk()
      ensures processAll == old(processAll)
    {
      hide Presyncable, Permitted, Matches, Commitments, Work, Follows, Waiting, Linked, Previous, FullHeader;
      WaitingLength(redownloaded, again, |released|);
      out := [];
      ghost var before := released;
      while |redownloaded| > BUFFER_SIZE || (|redownloaded| > 0 && processAll)
        invariant |released| <= |again| && Waiting(redownloaded, again, |released|) && released == again[..|released|]
        invariant released == before + out
        invariant firstPrevHash == params.hash(Previous(params, again, |released|))
        invariant redownloaded == [] ==> again == [] || processAll
        invariant !processAll && |released| > |before| ==> |redownloaded| >= BUFFER_SIZE
        invariant state == Redownload
        invariant unchanged(this`seen, this`again, this`processAll, this`commitments, this`buffers)
        invariant unchanged(this`lastHeight, this`lastHash, this`redownloadWork, this`lastReceived, this`currentHeight,
                            this`currentWork)
        decreases |redownloaded|
      {
        NextReleased(params, redownloaded, again, |released|, firstPrevHash);
        var h := FullHeader(redownloaded[0], firstPrevHash);
        out := out + [h];
        redownloaded := redownloaded[1..];
        firstPrevHash := params.hash(h);
        released := released + [h];
        WaitingLength(redownloaded, again, |released|);
      }
      WaitingLength(redownloaded, again, |released|);
    }

    /** A message from the peer. A first download goes on, or becomes a second one once it has the work;
        what a second download may store is stored, and what is ready is released. */
    method ProcessNextHeaders(headers: seq<Header>, full: bool) returns (r: ProcessingResult)
      requires Valid()
      modifies this
      ensures Valid()
      ensures headers == [] || old(state) == Final ==>
                r == ProcessingResult([], None, false, false) && unchanged(this)
      ensures headers != [] && old(state) == Presync ==>
                && (r.success <==> headers[0].prev == params.hash(Previous(params, old(seen), |old(seen)|)) &&
                                   Presyncable(params, old(seen) + headers))
                && (r.success ==> seen == old(seen) + headers)
                && r.requestMore == (r.success && (full || Work(params, seen) >= params.minimumWork))
                && (r.requestMore ==> state == if Work(params, seen) >= params.minimumWork then Redownload else Presync)
      ensures headers != [] && old(state) == Redownload ==>
                && seen == old(seen)
                && (r.success <==> Storable(params, seen, old(again) + headers))
                && (r.success ==>
                     again == old(again) + headers && released == again[..Ready(params, again, |old(released)|)])
                && (!r.success ==> released == old(released))
                && r.requestMore == (r.success && full && Work(params, again) < params.minimumWork)
                && (r.requestMore ==> state == Redownload)
      ensures released == old(released) + r.released
      ensures r.startHeight == if r.released == [] then None else Some(|params.base| + |old(released)|)
      ensures headers != [] && !r.requestMore ==> state == Final
    {
      r := ProcessingResult([], None, false, false);
      if headers == [] || state == Final { return; }
      var success, requestMore, out, startHeight := false, false, [], None;
      if state == Presync {
        success := ValidateAndStoreHeadersCommitments(headers);
        requestMore := success && (full || state == Redownload);
      } else {
        success, requestMore, out, startHeight := ProcessRedownload(headers, full);
      }
      r := ProcessingResult(out, startHeight, success, requestMore);
      if !(success && requestMore) { Finalize(); }
    }

    /** The part of `ProcessNextHeaders` for a second download. */
    method ProcessRedownload(headers: seq<Header>, full: bool)
      returns (success: bool, requestMore: bool, out: seq<Header>, startHeight: Option<int>)
      requires Valid() && headers != [] && state == Redownload
      modifies this
      ensures Usable(params) && RunOk() && seen == old(seen) && state == Redownload
      ensures success <==> Storable(params, seen, old(again) + headers)
      ensures success ==> again == old(again) + headers && released == again[..Ready(params, again, |old(released)|)]
      ensures !success ==> out == []
      ensures released == old(released) + out
      ensures startHeight == if out == [] then None else Some(|params.base| + |old(released)|)
      ensures requestMore == (success && full && Work(params, again) < params.minimumWork)
      ensures requestMore ==> Valid()
    {
      hide Presyncable, Storable, Commitments, Work, Follows, RedownloadOk;
      success, requestMore, out, startHeight := true, false, [], None;
      ghost var before := again;
      assert before + [] == before;
      for i := 0 to |headers|
        invariant Usable(params) && RunOk() && RedownloadOk() && state == Redownload
        invariant seen == old(seen) && released == old(released) && again == before + headers[..i]
      {
        Splice(before, headers, i);
        success := ValidateAndStoreRedownloadedHeader(headers[i]);
        if !success {
          if Storable(params, seen, before + headers) {
            PrefixStorable(params, seen, before + headers[..i] + [headers[i]], headers[i + 1..]);
          }
          return;
        }
      }
      assert headers[..|headers|] == headers;
      success := true;
      FirstHeight();
      var firstHeight := lastHeight - |redownloaded| + 1;
      out := PopHeadersReadyForAcceptance();
      if out != [] { startHeight := Some(firstHeight); }
      if !(redownloaded == [] && processAll) && full { requestMore := true; }
    }
  }
}
