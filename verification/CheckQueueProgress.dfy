/** `Complete` returns: a measure of the work left that every step lowers while the master is in the loop
    (src/checkqueue.h). Only a thread that wakes up for nothing leaves it as it is, together with the whole
    state. */
module CheckQueueProgress {
  import opened CheckQueue

  ghost function ThreadWork(th: Thread): nat {
    match th.phase
    case Out => 2
    case AtTop => if th.batch == [] then 1 else 2
    case Waiting(notified) => if notified then 1 else 0
    case Running(k) => 3 + if k <= |th.batch| then |th.batch| - k else 0
  }

  ghost function SumWork(ts: seq<Thread>): nat { if ts == [] then 0 else ThreadWork(ts[0]) + SumWork(ts[1..]) }

  /** The work left. A check in the queue counts for what its batch goes through. */
  ghost function Work(s: State): nat { 5 * |s.queue| + SumWork(s.threads) }

  /** A thread that was not notified wakes up, finds nothing to do, and waits again. */
  predicate Futile(s: State, step: Step)
    requires Enabled(s, step)
  {
    step.Resume? && s.threads[step.t].phase == Waiting(false) && s.queue == [] && !Returns(s, step)
  }

  lemma {:induction false} WorkUpdate(ts: seq<Thread>, t: nat, th: Thread)
    requires t < |ts|
    ensures SumWork(ts[t := th]) == SumWork(ts) - ThreadWork(ts[t]) + ThreadWork(th)
    decreases |ts|
  {
    hide ThreadWork;
    var us := ts[t := th];
    if t > 0 {
      assert us[1..] == ts[1..][t - 1 := th];
      WorkUpdate(ts[1..], t - 1, th);
    } else {
      assert us[1..] == ts[1..];
    }
  }

  lemma NotifyWork(ts: seq<Thread>)
    ensures SumWork(NotifyMaster(ts)) <= SumWork(ts) + 1
  {
    if ts != [] && ts[0].phase.Waiting? { WorkUpdate(ts, 0, ts[0].(phase := Waiting(true))); }
  }

  /** Accounting for a batch pays for waking up the master. */
  lemma CleanUpWork(s: State, t: nat)
    requires Inv(s) && t < |s.threads| && s.threads[t].phase == AtTop
    ensures InvInside(CleanUp(s, t), t)
    ensures Work(CleanUp(s, t)) <= Work(s)
    ensures CleanUp(s, t).queue != [] && s.threads[t].batch != [] ==> Work(CleanUp(s, t)) < Work(s)
  {
    CleanUpInside(s, t);
    hide Inv, InvInside, SumWork;
    var th := s.threads[t];
    if th.batch != [] {
      var publish := th.localResult.Some? && s.result.None?;
      var mid := s.threads[t := Thread(AtTop, [], if publish then s.result else th.localResult, th.doWork)];
      WorkUpdate(s.threads, t, mid[t]);
      NotifyWork(mid);
      if s.queue != [] { QueueIsWork(CleanUp(s, t), t); }
    }
  }

  lemma QueueIsWork(s: State, t: nat)
    requires InvInside(s, t) && s.queue != []
    ensures s.nTodo > 0
  {
  }

  /** Waiting or taking a batch is progress. */
  lemma ProceedWork(s: State, t: nat, nBatchSize: nat)
    requires t < |s.threads| && s.threads[t].phase == AtTop && s.threads[t].batch == []
    requires !(s.queue == [] && t == 0 && s.nTodo == 0)
    ensures Work(Proceed(s, t, nBatchSize)) < Work(s)
    ensures s.queue != [] ==> Work(Proceed(s, t, nBatchSize)) + 1 < Work(s)
  {
    hide SumWork;
    var d := Proceed(s, t, nBatchSize);
    WorkUpdate(s.threads, t, d.threads[t]);
    if s.queue != [] { BatchTaken(s, t, nBatchSize); }
  }

  lemma BatchTaken(s: State, t: nat, nBatchSize: nat)
    requires t < |s.threads| && s.queue != []
    ensures var d := Proceed(s, t, nBatchSize);
            var n := |d.threads[t].batch|;
            n >= 1 && |d.queue| == |s.queue| - n && d.threads[t].phase == Running(0)
  {
  }

  lemma TopWork(s: State, t: nat, nBatchSize: nat)
    requires Inv(s) && Enabled(s, Top(t)) && !Returns(s, Top(t))
    ensures Work(Next(s, Top(t), nBatchSize)) < Work(s)
  {
    CleanUpWork(s, t);
    InsideTop(CleanUp(s, t), t);
    hide Inv, InvInside, CleanUp, Proceed, Work;
    ProceedWork(CleanUp(s, t), t, nBatchSize);
  }

  lemma InsideTop(s: State, t: nat)
    requires InvInside(s, t)
    ensures t < |s.threads| && s.threads[t].phase == AtTop && s.threads[t].batch == []
  {
  }

  lemma ResumeWork(s: State, t: nat, nBatchSize: nat)
    requires Inv(s) && Enabled(s, Resume(t)) && !Returns(s, Resume(t))
    ensures if Futile(s, Resume(t)) then Next(s, Resume(t), nBatchSize) == s
            else Work(Next(s, Resume(t), nBatchSize)) < Work(s)
  {
    assert ThreadOk(s.threads[t], s.result);
    hide Inv, SumWork, ThreadOk;
    var mid := s.(nIdle := s.nIdle - 1, threads := s.threads[t := s.threads[t].(phase := AtTop)]);
    var d := Next(s, Resume(t), nBatchSize);
    if s.queue == [] && s.threads[t].phase == Waiting(false) {
      assert d.threads == s.threads;
    } else if s.queue == [] {
      assert d.threads == s.threads[t := s.threads[t].(phase := Waiting(false))];
      WorkUpdate(s.threads, t, d.threads[t]);
    } else {
      WorkUpdate(s.threads, t, mid.threads[t]);
      ProceedWork(mid, t, nBatchSize);
    }
  }

  lemma ExecuteWork(s: State, t: nat, nBatchSize: nat)
    requires Inv(s) && Enabled(s, Execute(t))
    ensures Work(Next(s, Execute(t), nBatchSize)) < Work(s)
  {
    assert ThreadOk(s.threads[t], s.result);
    hide Inv, SumWork;
    WorkUpdate(s.threads, t, Executed(s.threads[t]));
  }

  /** Every step of a session in `Complete` lowers the work left, up to the one in which it returns, except
      for those that change nothing at all. */
  lemma Progress(s: State, step: Step, nBatchSize: nat)
    requires Inv(s) && Enabled(s, step) && !s.threads[0].phase.Out? && !Returns(s, step)
    ensures if Futile(s, step) then Next(s, step, nBatchSize) == s else Work(Next(s, step, nBatchSize)) < Work(s)
  {
    hide Inv, SumWork, CleanUp, Proceed, Executed;
    match step
    case Add(checks) =>
    case Enter(t) => WorkUpdate(s.threads, t, Next(s, step, nBatchSize).threads[t]);
    case Top(t) => TopWork(s, t, nBatchSize);
    case Resume(t) => ResumeWork(s, t, nBatchSize);
    case Execute(t) => ExecuteWork(s, t, nBatchSize);
  }

  /** The master stays in the loop until then. */
  lemma MasterStays(s: State, step: Step, nBatchSize: nat)
    requires Inv(s) && Enabled(s, step) && !s.threads[0].phase.Out? && !Returns(s, step)
    ensures var d := Next(s, step, nBatchSize); |d.threads| == |s.threads| && !d.threads[0].phase.Out?
  {
    hide Inv, BatchSize;
  }

  /** As long as the master is in the loop, some step makes progress. */
  lemma CanProgress(s: State) returns (step: Step)
    requires Inv(s) && !s.threads[0].phase.Out?
    ensures Enabled(s, step) && !Futile(s, step)
  {
    SomethingCanHappen(s);
    hide Inv;
    var t :| 0 <= t < |s.threads| &&
             (s.threads[t].phase.AtTop? || s.threads[t].phase.Running? || s.threads[t].phase == Waiting(true));
    step := if s.threads[t].phase.AtTop? then Top(t) else if s.threads[t].phase.Running? then Execute(t) else Resume(t);
  }

  // ----- over whole runs

  /** How many of the steps from `i` to `j` are not futile. */
  ghost function Useful(ss: seq<State>, steps: seq<Step>, i: nat, j: nat): nat
    requires i <= j <= |steps| < |ss| && forall k :: 0 <= k < |steps| ==> Enabled(ss[k], steps[k])
    decreases j
  {
    if i == j then 0 else Useful(ss, steps, i, j - 1) + if Futile(ss[j - 1], steps[j - 1]) then 0 else 1
  }

  /** Whatever the interleaving: `Complete` returns before there were more useful steps than work left when it
      began. */
  lemma {:induction false} CompleteReturns(ss: seq<State>, steps: seq<Step>, n: nat, nBatchSize: nat, i: nat, j: nat)
    requires Run(ss, steps, nBatchSize) && Initial(ss[0], n) && i <= j <= |steps|
    requires |ss[i].threads| > 0 && !ss[i].threads[0].phase.Out?
    requires forall k :: i <= k < j ==> Enabled(ss[k], steps[k]) && !Returns(ss[k], steps[k])
    ensures Useful(ss, steps, i, j) + Work(ss[j]) <= Work(ss[i])
    ensures |ss[j].threads| > 0 && !ss[j].threads[0].phase.Out?
    decreases j
  {
    hide Inv, Work, Initial, Next, Enabled, Returns;
    if i < j {
      CompleteReturns(ss, steps, n, nBatchSize, i, j - 1);
      RunInv(ss, steps, n, nBatchSize, j - 1);
      Progress(ss[j - 1], steps[j - 1], nBatchSize);
      MasterStays(ss[j - 1], steps[j - 1], nBatchSize);
    }
  }
}
