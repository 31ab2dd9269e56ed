/** The check queue as a system of atomic steps (`CCheckQueue`, src/checkqueue.h).

    Thread 0 is the master.  Each critical section is one step, and so is each check that a thread
    executes outside of it.  A waiting thread may wake up at any time. */
module CheckQueue {
  import opened Options

  /** A verification and what it comes to: nothing, or an error. */
  datatype Check = Check(id: nat, outcome: Option<nat>)

  datatype Phase =
    | Out                      // not in the loop
    | AtTop                    // about to enter the critical section
    | Waiting(notified: bool)  // on the condition variable
    | Running(k: nat)          // executing its batch, of which k checks are done

  /** `batch` is what the thread has taken and not accounted for yet; its length is `nNow`. */
  datatype Thread = Thread(phase: Phase, batch: seq<Check>, localResult: Option<nat>, doWork: bool)

  datatype State = State(
    queue: seq<Check>, nIdle: int, nTotal: int, nTodo: int, result: Option<nat>,
    threads: seq<Thread>,
    session: set<Check>)  // the checks added since the last completion

  const OUTSIDE := Thread(Out, [], None, false)

  ghost function SumBatches(ts: seq<Thread>): nat { if ts == [] then 0 else |ts[0].batch| + SumBatches(ts[1..]) }

  ghost function CountIdle(ts: seq<Thread>): nat {
    if ts == [] then 0 else (if ts[0].phase.Waiting? then 1 else 0) + CountIdle(ts[1..])
  }

  predicate Counted(t: Thread) { t.phase.Waiting? || t.batch != [] }

  ghost function CountIn(ts: seq<Thread>): nat {
    if ts == [] then 0 else (if Counted(ts[0]) then 1 else 0) + CountIn(ts[1..])
  }

  // ----- the critical section

  /** Account for the previous batch. */
  function CleanUp(s: State, t: nat): State
    requires t < |s.threads|
  {
    var th := s.threads[t];
    if th.batch == [] then
      s.(nTotal := s.nTotal + 1)
    else
      var publish := th.localResult.Some? && s.result.None?;
      var nTodo := s.nTodo - |th.batch|;
      var threads := s.threads[t := Thread(AtTop, [], if publish then s.result else th.localResult, th.doWork)];
      s.(nTodo := nTodo, result := if publish then th.localResult else s.result,
         threads := if nTodo == 0 && t != 0 then NotifyMaster(threads) else threads)
  }

  function NotifyMaster(ts: seq<Thread>): seq<Thread> {
    if ts != [] && ts[0].phase.Waiting? then ts[0 := ts[0].(phase := Waiting(true))] else ts
  }

  function BatchSize(s: State, nBatchSize: nat): nat {
    var share := if s.nTotal + s.nIdle + 1 > 0 then |s.queue| / (s.nTotal + s.nIdle + 1) else 0;
    var n := if nBatchSize < share then nBatchSize else share;
    if n < 1 then 1 else n
  }

  /** The rest of the critical section: return, wait, or take a batch off the end of the queue. */
  function Proceed(s: State, t: nat, nBatchSize: nat): State
    requires t < |s.threads|
  {
    if s.queue == [] then
      if t == 0 && s.nTodo == 0 then
        s.(nTotal := s.nTotal - 1, result := None, threads := s.threads[t := OUTSIDE], session := {})
      else
        s.(nIdle := s.nIdle + 1, threads := s.threads[t := s.threads[t].(phase := Waiting(false))])
    else
      var n := BatchSize(s, nBatchSize);
      var at := if n <= |s.queue| then |s.queue| - n else 0;
      s.(queue := s.queue[..at],
         threads := s.threads[t := Thread(Running(0), s.queue[at..], s.threads[t].localResult, s.result.None?)])
  }

  // ----- the steps

  datatype Step =
    | Add(checks: seq<Check>)  // by the master, before it completes
    | Enter(t: nat)            // `Complete`, for the master; a worker thread starts
    | Top(t: nat)              // the critical section at the top of the loop
    | Resume(t: nat)           // the critical section after waking up
    | Execute(t: nat)          // the next check of the batch, or the end of it

  predicate Enabled(s: State, step: Step) {
    |s.threads| > 0 &&
    match step
    case Add(checks) => checks != [] && s.threads[0].phase.Out?
    case Enter(t) => t < |s.threads| && s.threads[t].phase.Out?
    case Top(t) => t < |s.threads| && s.threads[t].phase.AtTop?
    case Resume(t) => t < |s.threads| && s.threads[t].phase.Waiting?
    case Execute(t) => t < |s.threads| && s.threads[t].phase.Running?
  }

  function Executed(th: Thread): Thread
    requires th.phase.Running?
  {
    var k := th.phase.k;
    if !th.doWork || k >= |th.batch| then th.(phase := AtTop)
    else
      var r := th.batch[k].outcome;
      th.(phase := if r.Some? then AtTop else Running(k + 1), localResult := r)
  }

  function Next(s: State, step: Step, nBatchSize: nat): State
    requires Enabled(s, step)
  {
    match step
    case Add(checks) => s.(queue := s.queue + checks, nTodo := s.nTodo + |checks|,
                           session := s.session + set c | c in checks)
    case Enter(t) => s.(threads := s.threads[t := Thread(AtTop, [], None, false)])
    case Top(t) => Proceed(CleanUp(s, t), t, nBatchSize)
    case Resume(t) => Proceed(s.(nIdle := s.nIdle - 1, threads := s.threads[t := s.threads[t].(phase := AtTop)]), t,
                              nBatchSize)
    case Execute(t) => s.(threads := s.threads[t := Executed(s.threads[t])])
  }

  /** The state in which the master decides whether to return. */
  function Deciding(s: State, step: Step): State
    requires Enabled(s, step)
  {
    match step
    case Top(t) => CleanUp(s, t)
    case Resume(t) => s.(nIdle := s.nIdle - 1, threads := s.threads[t := s.threads[t].(phase := AtTop)])
    case _ => s
  }

  /** The step in which `Complete` returns, and what it returns. */
  predicate Returns(s: State, step: Step)
    requires Enabled(s, step)
  {
    (step == Top(0) || step == Resume(0)) && Deciding(s, step).queue == [] && Deciding(s, step).nTodo == 0
  }

  function Returned(s: State, step: Step): Option<nat>
    requires Enabled(s, step) && Returns(s, step)
  {
    Deciding(s, step).result
  }

  // ----- the invariant

  ghost predicate AllPass(cs: seq<Check>) { forall c :: c in cs ==> c.outcome.None? }

  /** What a finished batch came to. */
  ghost predicate Finished(th: Thread) {
    if th.localResult.None? then AllPass(th.batch) else exists c :: c in th.batch && c.outcome == th.localResult
  }

  ghost predicate ThreadOk(th: Thread, result: Option<nat>) {
    match th.phase
    case Out => th == OUTSIDE
    case AtTop => if th.batch == [] then th.localResult.None? else if th.doWork then Finished(th) else result.Some?
    case Waiting(_) => th.batch == []
    case Running(k) =>
      && th.batch != [] && k <= |th.batch| && (!th.doWork ==> result.Some?)
      && (th.doWork ==> AllPass(th.batch[..k]) && (k > 0 ==> th.localResult.None?))
  }

  ghost predicate InFlight(ts: seq<Thread>, c: Check) { exists t :: 0 <= t < |ts| && c in ts[t].batch }

  /** A failing check of the session is still to be accounted for, unless a failure is on record. */
  ghost predicate Covered(s: State) {
    forall c :: c in s.session && c.outcome.Some? && s.result.None? ==> c in s.queue || InFlight(s.threads, c)
  }

  ghost predicate FromSession(s: State) {
    && (forall c :: c in s.queue ==> c in s.session)
    && (forall t :: 0 <= t < |s.threads| ==> forall c :: c in s.threads[t].batch ==> c in s.session)
    && (s.result.Some? ==> exists c :: c in s.session && c.outcome == s.result)
  }

  /** A master that waits without having been notified has checks to wait for. */
  ghost predicate NoLostWakeup(s: State) {
    |s.threads| > 0 && (s.threads[0].phase == Waiting(false) ==> s.queue == [] && s.nTodo > 0)
  }

  ghost predicate Inv(s: State) {
    && |s.threads| > 0 && (forall t :: 0 <= t < |s.threads| ==> ThreadOk(s.threads[t], s.result))
    && s.nTodo == |s.queue| + SumBatches(s.threads) && s.nIdle == CountIdle(s.threads)
    && s.nTotal == CountIn(s.threads) && Covered(s) && FromSession(s) && NoLostWakeup(s)
  }

  /** In the middle of a critical section of thread `t`. */
  ghost predicate InvInside(s: State, t: nat) {
    && t < |s.threads| && s.threads[t].phase == AtTop && s.threads[t].batch == []
    && (forall u :: 0 <= u < |s.threads| && u != t ==> ThreadOk(s.threads[u], s.result))
    && s.nTodo == |s.queue| + SumBatches(s.threads) && s.nIdle == CountIdle(s.threads)
    && s.nTotal == CountIn(s.threads) + 1
    && Covered(s) && FromSession(s) && NoLostWakeup(s)
  }

  lemma {:induction false} SumUpdate(ts: seq<Thread>, t: nat, th: Thread)
    requires t < |ts|
    ensures SumBatches(ts[t := th]) == SumBatches(ts) - |ts[t].batch| + |th.batch|
    ensures CountIdle(ts[t := th]) ==
              CountIdle(ts) - (if ts[t].phase.Waiting? then 1 else 0) + (if th.phase.Waiting? then 1 else 0)
    ensures CountIn(ts[t := th]) == CountIn(ts) - (if Counted(ts[t]) then 1 else 0) + (if Counted(th) then 1 else 0)
    decreases |ts|
  {
    var us := ts[t := th];
    if t > 0 {
      assert us[1..] == ts[1..][t - 1 := th];
      SumUpdate(ts[1..], t - 1, th);
    } else {
      assert us[1..] == ts[1..];
    }
  }

  lemma {:induction false} BatchWithin(ts: seq<Thread>, t: nat)
    requires t < |ts|
    ensures |ts[t].batch| <= SumBatches(ts)
    decreases |ts|
  {
    if t > 0 { BatchWithin(ts[1..], t - 1); }
  }

  lemma StillInFlight(ts: seq<Thread>, t: nat, th: Thread, c: Check)
    requires t < |ts| && InFlight(ts, c) && c !in ts[t].batch
    ensures InFlight(ts[t := th], c)
  {
    var u :| 0 <= u < |ts| && c in ts[u].batch;
    assert ts[t := th][u].batch == ts[u].batch;
  }

  lemma NotifyKeeps(ts: seq<Thread>)
    ensures var us := NotifyMaster(ts);
            && |us| == |ts| && SumBatches(us) == SumBatches(ts) && CountIdle(us) == CountIdle(ts)
            && CountIn(us) == CountIn(ts)
            && (forall t :: 0 <= t < |ts| ==> us[t].batch == ts[t].batch && us[t].localResult == ts[t].localResult)
            && (forall t :: 0 < t < |ts| ==> us[t] == ts[t])
            && (ts != [] ==> us[0] == ts[0] || (ts[0].phase.Waiting? && us[0] == ts[0].(phase := Waiting(true))))
  {
    if ts != [] && ts[0].phase.Waiting? { SumUpdate(ts, 0, ts[0].(phase := Waiting(true))); }
  }

  // ----- the first half of the critical section

  /** After the threads other than the master have been left alone. */
  lemma CleanUpThreads(s: State, t: nat)
    requires Inv(s) && t < |s.threads| && s.threads[t].phase == AtTop && s.threads[t].batch != []
    ensures var d := CleanUp(s, t);
            && |d.threads| == |s.threads| && d.threads[t].phase == AtTop && d.threads[t].batch == []
            && (forall u :: 0 <= u < |s.threads| && u != t ==>
                 ThreadOk(d.threads[u], d.result) && d.threads[u].batch == s.threads[u].batch)
            && d.nTodo == |d.queue| + SumBatches(d.threads) && d.nIdle == CountIdle(d.threads)
            && d.nTotal == CountIn(d.threads) + 1
  {
    hide Covered, FromSession, Finished;
    var th := s.threads[t];
    var publish := th.localResult.Some? && s.result.None?;
    var mid := s.threads[t := Thread(AtTop, [], if publish then s.result else th.localResult, th.doWork)];
    SumUpdate(s.threads, t, mid[t]);
    NotifyKeeps(mid);
    BatchWithin(s.threads, t);
    var d := CleanUp(s, t);
    forall u | 0 <= u < |s.threads| && u != t
      ensures ThreadOk(d.threads[u], d.result) && d.threads[u].batch == s.threads[u].batch
    {
      assert ThreadOk(s.threads[u], s.result);
      assert mid[u] == s.threads[u];
    }
  }

  lemma CleanUpCovered(s: State, t: nat)
    requires Inv(s) && t < |s.threads| && s.threads[t].phase == AtTop && s.threads[t].batch != []
    ensures Covered(CleanUp(s, t)) && FromSession(CleanUp(s, t))
  {
    CleanUpThreads(s, t);
    var d, th := CleanUp(s, t), s.threads[t];
    assert ThreadOk(th, s.result);
    forall c | c in d.session && c.outcome.Some? && d.result.None? ensures c in d.queue || InFlight(d.threads, c) {
      if c !in s.queue {
        assert InFlight(s.threads, c);
        if c !in th.batch {
          var u :| 0 <= u < |s.threads| && c in s.threads[u].batch;
          assert d.threads[u].batch == s.threads[u].batch;
        }
      }
    }
    forall u | 0 <= u < |d.threads| ensures forall c :: c in d.threads[u].batch ==> c in d.session {
      if u != t { assert d.threads[u].batch == s.threads[u].batch; }
    }
  }

  lemma CleanUpInside(s: State, t: nat)
    requires Inv(s) && t < |s.threads| && s.threads[t].phase == AtTop
    ensures InvInside(CleanUp(s, t), t)
  {
    if s.threads[t].batch != [] {
      CleanUpThreads(s, t);
      CleanUpCovered(s, t);
      CleanUpWakes(s, t);
    }
  }

  lemma CleanUpWakes(s: State, t: nat)
    requires Inv(s) && t < |s.threads| && s.threads[t].phase == AtTop && s.threads[t].batch != []
    ensures NoLostWakeup(CleanUp(s, t))
  {
    hide Covered, FromSession;
    CleanUpThreads(s, t);
    var d := CleanUp(s, t);
    BatchWithin(s.threads, t);
    if d.threads[0].phase == Waiting(false) { assert s.threads[0].phase == Waiting(false); }
  }

  lemma ResumeInside(s: State, t: nat)
    requires Inv(s) && t < |s.threads| && s.threads[t].phase.Waiting?
    ensures InvInside(s.(nIdle := s.nIdle - 1, threads := s.threads[t := s.threads[t].(phase := AtTop)]), t)
  {
    var d := s.(nIdle := s.nIdle - 1, threads := s.threads[t := s.threads[t].(phase := AtTop)]);
    assert ThreadOk(s.threads[t], s.result);
    SumUpdate(s.threads, t, d.threads[t]);
    forall u | 0 <= u < |s.threads| && u != t
      ensures ThreadOk(d.threads[u], d.result)
    {
      assert ThreadOk(s.threads[u], s.result);
    }
    forall c | c in d.session && c.outcome.Some? && d.result.None? && c !in d.queue ensures InFlight(d.threads, c) {
      StillInFlight(s.threads, t, d.threads[t], c);
    }
  }

  // ----- the second half

  /** With nothing queued and nothing to do, nothing is in flight. */
  lemma NothingInFlight(s: State, t: nat)
    requires InvInside(s, t) && s.queue == [] && s.nTodo == 0
    ensures forall u :: 0 <= u < |s.threads| ==> s.threads[u].batch == []
  {
    forall u | 0 <= u < |s.threads| ensures s.threads[u].batch == [] { BatchWithin(s.threads, u); }
  }

  lemma ReturnInv(s: State, nBatchSize: nat)
    requires InvInside(s, 0) && s.queue == [] && s.nTodo == 0
    ensures Inv(Proceed(s, 0, nBatchSize))
  {
    var d := Proceed(s, 0, nBatchSize);
    SumUpdate(s.threads, 0, OUTSIDE);
    NothingInFlight(s, 0);
    forall u | 0 <= u < |d.threads| ensures ThreadOk(d.threads[u], d.result) && d.threads[u].batch == [] {
      if u > 0 { assert ThreadOk(s.threads[u], s.result); }
    }
  }

  lemma WaitInv(s: State, t: nat, nBatchSize: nat)
    requires InvInside(s, t) && s.queue == [] && !(t == 0 && s.nTodo == 0)
    ensures Inv(Proceed(s, t, nBatchSize))
  {
    var d := Proceed(s, t, nBatchSize);
    var th := s.threads[t].(phase := Waiting(false));
    SumUpdate(s.threads, t, th);
    forall u | 0 <= u < |d.threads| ensures ThreadOk(d.threads[u], d.result) {
      if u != t { assert ThreadOk(s.threads[u], s.result); }
    }
    forall c | c in d.session && c.outcome.Some? && d.result.None?
      ensures InFlight(d.threads, c)
    {
      StillInFlight(s.threads, t, th, c);
    }
  }

  lemma TakeInv(s: State, t: nat, nBatchSize: nat)
    requires InvInside(s, t) && s.queue != []
    ensures Inv(Proceed(s, t, nBatchSize))
  {
    var d := Proceed(s, t, nBatchSize);
    var n := BatchSize(s, nBatchSize);
    var at := if n <= |s.queue| then |s.queue| - n else 0;
    var th := d.threads[t];
    assert s.queue == s.queue[..at] + s.queue[at..];
    SumUpdate(s.threads, t, th);
    forall u | 0 <= u < |d.threads| ensures ThreadOk(d.threads[u], d.result) {
      if u != t { assert ThreadOk(s.threads[u], s.result); } else { assert th.batch[..0] == []; }
    }
    forall c | c in d.session && c.outcome.Some? && d.result.None? && c !in d.queue ensures InFlight(d.threads, c) {
      if c in s.queue {
        assert c in d.threads[t].batch;
      } else {
        StillInFlight(s.threads, t, th, c);
      }
    }
  }

  lemma ProceedInv(s: State, t: nat, nBatchSize: nat)
    requires InvInside(s, t)
    ensures Inv(Proceed(s, t, nBatchSize))
  {
    if s.queue != [] {
      TakeInv(s, t, nBatchSize);
    } else if t == 0 && s.nTodo == 0 {
      ReturnInv(s, nBatchSize);
    } else {
      WaitInv(s, t, nBatchSize);
    }
  }

  // ----- the other steps

  lemma AddInv(s: State, checks: seq<Check>, nBatchSize: nat)
    requires Inv(s) && Enabled(s, Add(checks))
    ensures Inv(Next(s, Add(checks), nBatchSize))
  {
    var d := Next(s, Add(checks), nBatchSize);
    forall c | c in d.session && c.outcome.Some? && d.result.None? ensures c in d.queue || InFlight(d.threads, c) { }
  }

  lemma EnterInv(s: State, t: nat, nBatchSize: nat)
    requires Inv(s) && Enabled(s, Enter(t))
    ensures Inv(Next(s, Enter(t), nBatchSize))
  {
    var d := Next(s, Enter(t), nBatchSize);
    assert ThreadOk(s.threads[t], s.result);
    SumUpdate(s.threads, t, d.threads[t]);
    forall u | 0 <= u < |d.threads|
      ensures ThreadOk(d.threads[u], d.result)
    {
      assert ThreadOk(s.threads[u], s.result);
    }
    forall c | c in d.session && c.outcome.Some? && d.result.None? && c !in d.queue ensures InFlight(d.threads, c) {
      StillInFlight(s.threads, t, d.threads[t], c);
    }
  }

  lemma ExecutedOk(th: Thread, result: Option<nat>)
    requires ThreadOk(th, result) && th.phase.Running?
    ensures ThreadOk(Executed(th), result) && Executed(th).batch == th.batch
  {
    var k := th.phase.k;
    if th.doWork {
      if k < |th.batch| {
        assert th.batch[k] in th.batch;
        assert th.batch[..k + 1] == th.batch[..k] + [th.batch[k]];
      } else {
        assert th.batch[..k] == th.batch;
      }
    }
  }

  lemma ExecuteInv(s: State, t: nat, nBatchSize: nat)
    requires Inv(s) && Enabled(s, Execute(t))
    ensures Inv(Next(s, Execute(t), nBatchSize))
  {
    var d := Next(s, Execute(t), nBatchSize);
    assert ThreadOk(s.threads[t], s.result);
    ExecutedOk(s.threads[t], s.result);
    SumUpdate(s.threads, t, d.threads[t]);
    forall u | 0 <= u < |d.threads|
      ensures ThreadOk(d.threads[u], d.result) && d.threads[u].batch == s.threads[u].batch
    {
      assert ThreadOk(s.threads[u], s.result);
    }
    forall c | c in d.session && c.outcome.Some? && d.result.None? && c !in d.queue ensures InFlight(d.threads, c) {
      var u :| 0 <= u < |s.threads| && c in s.threads[u].batch;
      assert c in d.threads[u].batch;
    }
  }

  /** Every step keeps the invariant. */
  lemma StepInv(s: State, step: Step, nBatchSize: nat)
    requires Inv(s) && Enabled(s, step)
    ensures Inv(Next(s, step, nBatchSize))
  {
    hide Inv, InvInside, CleanUp, Proceed, Executed;
    match step
    case Add(checks) => AddInv(s, checks, nBatchSize);
    case Enter(t) => EnterInv(s, t, nBatchSize);
    case Top(t) =>
      CleanUpInside(s, t);
      ProceedInv(CleanUp(s, t), t, nBatchSize);
    case Resume(t) =>
      ResumeInside(s, t);
      ProceedInv(s.(nIdle := s.nIdle - 1, threads := s.threads[t := s.threads[t].(phase := AtTop)]), t, nBatchSize);
    case Execute(t) => ExecuteInv(s, t, nBatchSize);
  }

  // ----- over whole runs

  ghost predicate Initial(s: State, n: nat) {
    s == State([], 0, 0, 0, None, seq(n + 1, _ => OUTSIDE), {})
  }

  ghost predicate Run(ss: seq<State>, steps: seq<Step>, nBatchSize: nat) {
    && |ss| == |steps| + 1
    && forall i :: 0 <= i < |steps| ==> Enabled(ss[i], steps[i]) && ss[i + 1] == Next(ss[i], steps[i], nBatchSize)
  }

  lemma {:induction false} InitialSums(n: nat)
    ensures var ts := seq(n, _ => OUTSIDE); SumBatches(ts) == 0 && CountIdle(ts) == 0 && CountIn(ts) == 0
  {
    if n > 0 {
      InitialSums(n - 1);
      assert seq(n, _ => OUTSIDE)[1..] == seq(n - 1, _ => OUTSIDE);
    }
  }

  lemma {:induction false} RunInv(ss: seq<State>, steps: seq<Step>, n: nat, nBatchSize: nat, i: nat)
    requires Run(ss, steps, nBatchSize) && Initial(ss[0], n) && i < |ss|
    ensures Inv(ss[i])
  {
    if i == 0 {
      InitialSums(n + 1);
    } else {
      RunInv(ss, steps, n, nBatchSize, i - 1);
      assert Enabled(ss[i - 1], steps[i - 1]) && ss[i] == Next(ss[i - 1], steps[i - 1], nBatchSize);
      StepInv(ss[i - 1], steps[i - 1], nBatchSize);
    }
  }

  /** Whatever the interleaving: when `Complete` returns, it returns no error exactly when all checks of
      the session pass, and an error of one of them otherwise. */
  lemma CompleteIsExact(ss: seq<State>, steps: seq<Step>, n: nat, nBatchSize: nat, i: nat)
    requires Run(ss, steps, nBatchSize) && Initial(ss[0], n) && i < |steps| && Enabled(ss[i], steps[i])
    requires Returns(ss[i], steps[i])
    ensures var r := Returned(ss[i], steps[i]);
            && (r.None? <==> forall c :: c in ss[i].session ==> c.outcome.None?)
            && (r.Some? ==> exists c :: c in ss[i].session && c.outcome == r)
  {
    RunInv(ss, steps, n, nBatchSize, i);
    var s, step := ss[i], steps[i];
    var d := Deciding(s, step);
    hide Inv, CleanUp;
    if step == Top(0) { CleanUpInside(s, 0); } else { ResumeInside(s, 0); }
    SameSession(s, step);
    ReturnExact(d);
  }

  lemma SameSession(s: State, step: Step)
    requires Enabled(s, step)
    ensures Deciding(s, step).session == s.session
  {
  }

  lemma ReturnExact(d: State)
    requires InvInside(d, 0) && d.queue == [] && d.nTodo == 0
    ensures d.result.None? <==> forall c :: c in d.session ==> c.outcome.None?
    ensures d.result.Some? ==> exists c :: c in d.session && c.outcome == d.result
  {
    NothingInFlight(d, 0);
    if d.result.None? {
      forall c | c in d.session ensures c.outcome.None? {
        if c.outcome.Some? { assert InFlight(d.threads, c); }
      }
    }
  }

  /** After returning, nothing is left of the session. */
  lemma ReturnResets(s: State, step: Step, nBatchSize: nat)
    requires Inv(s) && Enabled(s, step) && Returns(s, step)
    ensures var d := Next(s, step, nBatchSize);
            d.session == {} && d.result.None? && d.queue == [] && d.nTodo == 0 && d.threads[0] == OUTSIDE
  {
  }

  /** No deadlock: as long as the master is in `Complete`, some thread can go on without a spurious
      wakeup. */
  lemma SomethingCanHappen(s: State)
    requires Inv(s) && !s.threads[0].phase.Out?
    ensures exists t :: 0 <= t < |s.threads| &&
                        (s.threads[t].phase.AtTop? || s.threads[t].phase.Running? ||
                        s.threads[t].phase == Waiting(true))
  {
    if s.threads[0].phase == Waiting(false) {
      var t := SomeBatch(s.threads);
      assert ThreadOk(s.threads[t], s.result);
    }
  }

  lemma {:induction false} SomeBatch(ts: seq<Thread>) returns (t: nat)
    requires SumBatches(ts) > 0
    ensures t < |ts| && ts[t].batch != []
    decreases |ts|
  {
    if ts[0].batch != [] {
      t := 0;
    } else {
      var u := SomeBatch(ts[1..]);
      t := u + 1;
    }
  }
}
