/** The rolling buffers that headers sync checks difficulty with (src/headerssync.cpp), and the values
    of the chain that they hold. */
module HeaderWindows {

  type Uint32 = n: nat | n < 0x1_0000_0000

  datatype Header = Header(version: int, prev: nat, merkle: nat, time: int, bits: Uint32, nonce: nat)

  const MTP_SPAN := 11

  function Insert(x: int, s: seq<int>): seq<int> {
    if s == [] || x <= s[0] then [x] + s else [s[0]] + Insert(x, s[1..])
  }

  function Sorted(s: seq<int>): seq<int> {
    if s == [] then [] else Insert(s[0], Sorted(s[1..]))
  }

  lemma {:induction false} InsertLength(x: int, s: seq<int>)
    ensures |Insert(x, s)| == |s| + 1
    decreases |s|
  {
    if s != [] && x > s[0] { InsertLength(x, s[1..]); }
  }

  lemma {:induction false} SortedLength(s: seq<int>)
    ensures |Sorted(s)| == |s|
    decreases |s|
  {
    if s != [] {
      SortedLength(s[1..]);
      InsertLength(s[0], Sorted(s[1..]));
    }
  }

  /** The element in the middle of the sorted times, the upper one of two. */
  function Median(s: seq<int>): int {
    var t := Sorted(s);
    if |s| / 2 < |t| then t[|s| / 2] else 0
  }

  function LastN<T>(s: seq<T>, n: nat): seq<T> { if |s| <= n then s else s[|s| - n..] }

  function Times(c: seq<Header>): seq<int> { seq(|c|, i requires 0 <= i < |c| => c[i].time) }

  function Bits(c: seq<Header>): seq<Uint32> { seq(|c|, i requires 0 <= i < |c| => c[i].bits) }

  /** `GetMedianTimePast` of the block at height `i` of the chain. */
  function MedianTimePast(c: seq<Header>, i: nat): int
    requires i < |c|
  {
    Median(LastN(Times(c[..i + 1]), MTP_SPAN))
  }

  function MedianTimes(c: seq<Header>): seq<int> { seq(|c|, i requires 0 <= i < |c| => MedianTimePast(c, i)) }

  datatype Buffers = Buffers(recentBits: seq<Uint32>, recentMtp: seq<int>, lastTimes: seq<int>)

  /** The buffers hold what belongs to the chain `c`. */
  ghost predicate Follows(b: Buffers, c: seq<Header>, win: nat) {
    b == Buffers(LastN(Bits(c), win), LastN(MedianTimes(c), win + 1), LastN(Times(c), MTP_SPAN))
  }

  lemma LastAppend<T>(s: seq<T>, x: T, n: nat)
    requires n > 0
    ensures LastN(LastN(s, n) + [x], n) == LastN(s + [x], n)
  {
  }

  /** With at most one too many, dropping the first is enough. */
  lemma OneDropped<T>(s: seq<T>, x: T, n: nat)
    requires n > 0
    ensures var t := LastN(s, n) + [x]; LastN(t, n) == if |t| > n then t[1..] else t
  {
  }

  lemma ChainAppend(c: seq<Header>, h: Header)
    ensures Times(c + [h]) == Times(c) + [h.time] && Bits(c + [h]) == Bits(c) + [h.bits]
    ensures MedianTimes(c + [h]) == MedianTimes(c) + [Median(LastN(Times(c + [h]), MTP_SPAN))]
  {
    var d := c + [h];
    assert d[..|c| + 1] == d;
    forall i | 0 <= i < |c| ensures MedianTimePast(d, i) == MedianTimePast(c, i) { assert d[..i + 1] == c[..i + 1]; }
  }

  /** Drop elements from the front while there are more than `n`. */
  method PopTo<T>(s: seq<T>, n: nat) returns (t: seq<T>)
    ensures t == LastN(s, n)
  {
    t := s;
    ghost var k := 0;
    while |t| > n
      invariant k <= |s| && t == s[k..] && (k > 0 ==> |t| >= n)
      decreases |t|
    {
      assert s[k..][1..] == s[k + 1..];
      t, k := t[1..], k + 1;
    }
  }

  /** Take in one more header (`ComputeMtpForNewTime`, `PushRetargetSample`). */
  method Push(b: Buffers, h: Header, win: nat, ghost c: seq<Header>) returns (d: Buffers)
    requires Follows(b, c, win) && win > 0
    ensures Follows(d, c + [h], win)
  {
    hide Times, Bits, MedianTimes, LastN, Median;
    var times := b.lastTimes + [h.time];
    OneDropped(Times(c), h.time, MTP_SPAN);
    if |times| > MTP_SPAN { times := times[1..]; }
    var mtp := Median(times);
    var bits := PopTo(b.recentBits + [h.bits], win);
    var mtps := PopTo(b.recentMtp + [mtp], win + 1);
    d := Buffers(bits, mtps, times);
    ChainAppend(c, h);
    LastAppend(Times(c), h.time, MTP_SPAN);
    LastAppend(Bits(c), h.bits, win);
    LastAppend(MedianTimes(c), mtp, win + 1);
  }

  // ----- starting from the end of a chain

  lemma LastOfSuffix<T>(s: seq<T>, k: nat, n: nat)
    requires k <= |s| && (k == 0 || |s| - k >= n)
    ensures LastN(s[k..], n) == LastN(s, n)
  {
  }

  lemma MedianOfSuffix(c: seq<Header>, k: nat, i: nat)
    requires k <= i < |c| && (k == 0 || i - k + 1 >= MTP_SPAN)
    ensures MedianTimePast(c[k..], i - k) == MedianTimePast(c, i)
  {
    assert c[k..][..i - k + 1] == c[..i + 1][k..];
    assert Times(c[..i + 1][k..]) == Times(c[..i + 1])[k..];
    LastOfSuffix(Times(c[..i + 1]), k, MTP_SPAN);
  }

  /** With eleven more headers than the window needs, the end of a chain determines the buffers. */
  lemma SuffixSuffices(b: Buffers, c: seq<Header>, k: nat, win: nat)
    requires k <= |c| && (k == 0 || |c| - k >= win + 1 + MTP_SPAN) && Follows(b, c[k..], win)
    ensures Follows(b, c, win)
  {
    assert Bits(c[k..]) == Bits(c)[k..] && Times(c[k..]) == Times(c)[k..];
    LastOfSuffix(Bits(c), k, win);
    LastOfSuffix(Times(c), k, MTP_SPAN);
    var s, t := LastN(MedianTimes(c[k..]), win + 1), LastN(MedianTimes(c), win + 1);
    assert |s| == |t|;
    forall j | 0 <= j < |s| ensures s[j] == t[j] {
      var i := |c| - |t| + j;
      MedianOfSuffix(c, k, i);
    }
  }

  /** Fill the buffers from the last headers of `c` (`ResetRetargetBuffersToChainStart`). */
  method Reset(c: seq<Header>, win: nat) returns (b: Buffers)
    requires win > 0
    ensures Follows(b, c, win)
  {
    var needed := win + 1 + MTP_SPAN;
    var k := if |c| < needed then 0 else |c| - needed;
    var history := c[k..];
    b := Buffers([], [], []);
    for i := 0 to |history|
      invariant Follows(b, history[..i], win)
    {
      assert history[..i + 1] == history[..i] + [history[i]];
      b := Push(b, history[i], win, history[..i]);
    }
    assert history[..|history|] == c[k..];
    SuffixSuffices(b, c, k, win);
  }

  // ----- the median

  function CountBelow(s: seq<int>, x: int): nat {
    if s == [] then 0 else (if s[0] < x then 1 else 0) + CountBelow(s[1..], x)
  }

  function CountUpTo(s: seq<int>, x: int): nat {
    if s == [] then 0 else (if s[0] <= x then 1 else 0) + CountUpTo(s[1..], x)
  }

  ghost predicate Ascending(s: seq<int>) { forall i, j :: 0 <= i < j < |s| ==> s[i] <= s[j] }

  lemma {:induction false} InsertCounts(x: int, s: seq<int>, y: int)
    ensures CountBelow(Insert(x, s), y) == CountBelow([x] + s, y) && CountUpTo(Insert(x, s), y) == CountUpTo([x] + s, y)
    decreases |s|
  {
    assert ([x] + s)[1..] == s;
    if s != [] && x > s[0] {
      InsertCounts(x, s[1..], y);
      assert ([s[0]] + Insert(x, s[1..]))[1..] == Insert(x, s[1..]) && ([x] + s[1..])[1..] == s[1..];
    }
  }

  lemma {:induction false} SortedCounts(s: seq<int>, y: int)
    ensures CountBelow(Sorted(s), y) == CountBelow(s, y) && CountUpTo(Sorted(s), y) == CountUpTo(s, y)
    decreases |s|
  {
    if s != [] {
      SortedCounts(s[1..], y);
      InsertCounts(s[0], Sorted(s[1..]), y);
      assert ([s[0]] + Sorted(s[1..]))[1..] == Sorted(s[1..]);
    }
  }

  lemma {:induction false} InsertAscending(x: int, s: seq<int>)
    requires Ascending(s)
    ensures Ascending(Insert(x, s)) && (forall y :: y in Insert(x, s) <==> y == x || y in s)
    decreases |s|
  {
    if s != [] && x > s[0] {
      InsertAscending(x, s[1..]);
      var t := Insert(x, s[1..]);
      forall i | 0 <= i < |t| ensures s[0] <= t[i] { assert t[i] in t; }
      assert s == [s[0]] + s[1..];
    }
  }

  lemma {:induction false} SortedAscending(s: seq<int>)
    ensures Ascending(Sorted(s))
    decreases |s|
  {
    if s != [] {
      SortedAscending(s[1..]);
      InsertAscending(s[0], Sorted(s[1..]));
    }
  }

  lemma {:induction false} AscendingCounts(s: seq<int>, k: nat)
    requires Ascending(s) && k < |s|
    ensures CountBelow(s, s[k]) <= k < CountUpTo(s, s[k])
    decreases |s|
  {
    if k > 0 {
      AscendingCounts(s[1..], k - 1);
    } else {
      NoneBelow(s, s[0]);
    }
  }

  lemma {:induction false} NoneBelow(s: seq<int>, x: int)
    requires forall i :: 0 <= i < |s| ==> x <= s[i]
    ensures CountBelow(s, x) == 0
    decreases |s|
  {
    if s != [] { NoneBelow(s[1..], x); }
  }

  /** What the median is: at most half of the times are below it, and more than half up to it. */
  lemma MedianIsMiddle(s: seq<int>)
    requires s != []
    ensures CountBelow(s, Median(s)) <= |s| / 2 < CountUpTo(s, Median(s))
  {
    SortedLength(s);
    SortedAscending(s);
    AscendingCounts(Sorted(s), |s| / 2);
    SortedCounts(s, Median(s));
  }
}
