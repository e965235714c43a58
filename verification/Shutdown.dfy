/** Once the server stops reading, `run` returns: it is never stuck, and the steps it can take
    are bounded. */
module Shutdown {
  import opened Protocol
  import opened Server
  import opened Control
  import opened SerialReplay
  import opened Cancellation
  import opened Soundness
  import opened Sums
  import P = ThreadPool

  predicate Stopping(pc: ReadPc) {
    pc.StoppingSync? || pc.JoiningSync? || pc.StoppingPool? || pc.JoiningPool? || pc.Returned?
  }

  predicate IsSpurious(l: Label) {
    (l.PoolStep? && l.step.Spurious?) || (l.SyncStep? && l.step.Spurious?)
  }

  /** The steps that bring the end nearer. */
  predicate IsProgress(l: Label) {
    l.StopSync? || l.JoinSync? || l.StopPool? || l.JoinPool?
    || (l.PoolStep? && !l.step.Spurious?) || (l.SyncStep? && !l.step.Spurious?)
    || l.CheckToken? || l.EndHandler? || l.SendReply? || l.EraseToken? || l.RunTask? || l.RunSync?
  }

  // ---------------------------------------------------------------- work left

  function PhaseWeight(w: P.Worker<Job, Phase>): nat {
    if !w.Running? then 0
    else match w.phase case Start => 4 case InHandler => 3 case Replying(_) => 2 case Erasing => 1 case Done => 0
  }

  ghost function PoolWork(p: JobPool): nat {
    6 * P.Measure(p) + Total(p.workers, PhaseWeight)
  }

  /** What stopping a pool adds: a notification and a wakeup for each worker. */
  function StopWork(p: JobPool): nat {
    6 * (|p.workers| + 1)
  }

  function PcWork(s: State): nat {
    match s.pc
    case StoppingSync => 4 + StopWork(s.sync) + StopWork(s.pool)
    case JoiningSync => 3 + StopWork(s.pool)
    case StoppingPool => 2 + StopWork(s.pool)
    case JoiningPool => 1
    case _ => 0
  }

  ghost function Work(s: State): nat {
    PoolWork(s.pool) + PoolWork(s.sync) + PcWork(s)
  }

  lemma OwnStepWork(p: JobPool, step: JobStep)
    requires OwnStep(p, step)
    ensures !step.Spurious? ==> PoolWork(P.Apply(p, step)) < PoolWork(p)
    ensures step.Spurious? ==> PoolWork(P.Apply(p, step)) == PoolWork(p) + 6
    ensures |P.Apply(p, step).workers| == |p.workers|
  {
    var q := P.Apply(p, step);
    P.WorkDecreases(p, step);
    if step.NotifyAll? {
      TotalSame(p.workers, q.workers, PhaseWeight);
    } else {
      TotalUpdate<P.Worker<Job, Phase>>(p.workers, step.w, q.workers[step.w], PhaseWeight);
    }
  }

  lemma AdvanceWork(p: JobPool, w: nat, phase: Phase)
    requires w < |p.workers| && p.workers[w].Running?
    requires PhaseWeight(P.Running(p.workers[w].task, phase)) < PhaseWeight(p.workers[w])
    ensures PoolWork(Advanced(p, w, phase)) < PoolWork(p) && |Advanced(p, w, phase).workers| == |p.workers|
  {
    P.WorkDecreases(p, P.Advance(w, phase));
    TotalUpdate<P.Worker<Job, Phase>>(p.workers, w, P.Running(p.workers[w].task, phase), PhaseWeight);
  }

  lemma StopPoolWork(p: JobPool)
    ensures PoolWork(P.Apply(p, P.BeginShutdown)) <= PoolWork(p) + StopWork(p)
    ensures |P.Apply(p, P.BeginShutdown).workers| == |p.workers|
  {
  }

  predicate InTask(l: Label) {
    l.CheckToken? || l.EndHandler? || l.SendReply? || l.EraseToken? || l.RunTask?
  }

  /** A worker inside a task moves on in it. */
  lemma TaskAdvances(s: State, l: Label)
    requires Enabled(s, l) && InTask(l)
    ensures var w, phase := l.w, PoolStepOf(s, l).value.phase;
      PhaseWeight(P.Running(s.pool.workers[w].task, phase)) < PhaseWeight(s.pool.workers[w])
      && Apply(s, l).pool == Advanced(s.pool, w, phase) && Apply(s, l).sync == s.sync && Apply(s, l).pc == s.pc
  {
  }

  lemma TaskWork(s: State, l: Label)
    requires Enabled(s, l) && InTask(l)
    ensures Work(Apply(s, l)) < Work(s)
  {
    TaskAdvances(s, l);
    AdvanceWork(s.pool, l.w, PoolStepOf(s, l).value.phase);
  }

  lemma SyncTaskWork(s: State)
    requires Enabled(s, RunSync) && |s.sync.workers| == 1
    ensures Work(RunSyncStep(s)) < Work(s)
  {
    AdvanceWork(s.sync, 0, Done);
  }

  lemma StopWorkStep(s: State, l: Label)
    requires Enabled(s, l) && (l.StopSync? || l.JoinSync? || l.StopPool? || l.JoinPool?)
    ensures Work(Apply(s, l)) < Work(s) && Stopping(Apply(s, l).pc)
  {
    StopPoolWork(s.sync);
    StopPoolWork(s.pool);
  }

  lemma PoolStepWork(s: State, step: JobStep)
    requires OwnStep(s.pool, step)
    ensures var t := Apply(s, PoolStep(step)); if step.Spurious? then Work(t) == Work(s) + 6 else Work(t) < Work(s)
  {
    OwnStepWork(s.pool, step);
  }

  lemma SyncStepWork(s: State, step: JobStep)
    requires OwnStep(s.sync, step)
    ensures var t := Apply(s, SyncStep(step)); if step.Spurious? then Work(t) == Work(s) + 6 else Work(t) < Work(s)
  {
    OwnStepWork(s.sync, step);
  }

  lemma QuietPools(s: State, l: Label)
    requires Enabled(s, l) && (l.CancelOwn? || l.BeginCall? || l.RegisterCall? || l.SendCall? || l.SendNotice?)
    ensures Apply(s, l).pool == s.pool && Apply(s, l).sync == s.sync && Apply(s, l).pc == s.pc
  {
  }

  lemma SameWork(s: State, t: State)
    requires t.pool == s.pool && t.sync == s.sync && t.pc == s.pc
    ensures Work(t) == Work(s)
  {
  }

  lemma QuietWork(s: State, l: Label)
    requires Enabled(s, l) && (l.CancelOwn? || l.BeginCall? || l.RegisterCall? || l.SendCall? || l.SendNotice?)
    ensures Work(Apply(s, l)) == Work(s)
  {
    QuietPools(s, l);
    SameWork(s, Apply(s, l));
  }

  lemma OthersWork(s: State, l: Label)
    requires Enabled(s, l) && !IsReadThread(l) && |s.sync.workers| == 1
    ensures IsProgress(l) ==> Work(Apply(s, l)) < Work(s)
    ensures !IsProgress(l) ==> Work(Apply(s, l)) == Work(s) + if IsSpurious(l) then 6 else 0
  {
    if l.PoolStep? {
      PoolStepWork(s, l.step);
    } else if l.SyncStep? {
      SyncStepWork(s, l.step);
    } else if l.RunSync? {
      SyncTaskWork(s);
    } else if InTask(l) {
      TaskWork(s, l);
    } else {
      QuietWork(s, l);
    }
  }

  /** A server that stops reading goes on stopping, and its steps use up the work left; only
      spurious wakeups add to it. */
  lemma WorkStep(s: State, l: Label)
    requires Enabled(s, l) && Stopping(s.pc) && |s.sync.workers| == 1
    ensures Stopping(Apply(s, l).pc)
    ensures IsProgress(l) ==> Work(Apply(s, l)) < Work(s)
    ensures !IsProgress(l) ==> Work(Apply(s, l)) == Work(s) + if IsSpurious(l) then 6 else 0
  {
    if IsReadThread(l) {
      StopWorkStep(s, l);
    } else {
      KeepsReadThread(s, l);
      OthersWork(s, l);
    }
  }

  function CountProgress(labels: seq<Label>): nat {
    if labels == [] then 0 else CountProgress(labels[1..]) + if IsProgress(labels[0]) then 1 else 0
  }

  function CountSpurious(labels: seq<Label>): nat {
    if labels == [] then 0 else CountSpurious(labels[1..]) + if IsSpurious(labels[0]) then 1 else 0
  }

  /** However threads interleave, a stopping server takes only so many steps. */
  lemma {:induction false} StepsAreBounded(s: State, labels: seq<Label>, t: State)
    requires Reachable(s) && Stopping(s.pc) && IsRun(s, labels, t)
    ensures Work(t) + CountProgress(labels) <= Work(s) + 6 * CountSpurious(labels)
    decreases |labels|
  {
    if labels == [] {
    } else {
      OneSyncWorker(s);
      WorkStep(s, labels[0]);
      ReachableStep(s, labels[0]);
      StepsAreBounded(Apply(s, labels[0]), labels[1..], t);
    }
  }

  lemma OneSyncWorker(s: State)
    requires Reachable(s)
    ensures |s.sync.workers| == 1
  {
    ReachableOrderly(s);
  }

  // ---------------------------------------------------------------- never stuck

  /** A pool that still has to drain always has something to do, or a task in progress. */
  lemma PoolCanMove(p: JobPool) returns (step: JobStep)
    requires P.Inv(p) && p.stopping && !P.AllExited(p)
    ensures P.Enabled(p, step) && (OwnStep(p, step) || (step.Finish? && p.workers[step.w].phase != Done))
    ensures !step.Spurious?
  {
    if P.Quiescent(p) {
      P.QuiescentDrained(p, Start);
    }
    var s: JobStep :| P.IsWork(s) && P.Enabled(p, s);
    step := if s.Lock? then P.Lock(s.w, Start) else s;
  }

  /** The next label of a worker inside a task. */
  function TaskLabel(w: nat, job: Job, phase: Phase): Label {
    if !job.RequestJob? then RunTask(w)
    else match phase
      case Start => CheckToken(w)
      case InHandler => EndHandler(w, ThrowsOther)
      case Replying(_) => SendReply(w)
      case _ => EraseToken(w)
  }

  lemma TaskFacts(s: State, w: nat)
    requires Reachable(s) && w < |s.pool.workers| && s.pool.workers[w].Running?
    ensures var worker := s.pool.workers[w];
      if worker.task.RequestJob? then worker.task.token < |s.flags| else worker.phase.Start? || worker.phase.Done?
  {
    ReachableSound(s);
    RunningStarted(s.pool, w);
    assert PhaseOk(s.verdicts, s.pool.workers[w].task, s.pool.workers[w].phase);
    assert TokenOk(s.owners, s.pool.workers[w].task);
  }

  lemma TaskCanMove(s: State, w: nat)
    requires Reachable(s) && w < |s.pool.workers| && s.pool.workers[w].Running? && s.pool.workers[w].phase != Done
    ensures var l := TaskLabel(w, s.pool.workers[w].task, s.pool.workers[w].phase); Enabled(s, l) && IsProgress(l)
  {
    TaskFacts(s, w);
  }

  lemma PoolLabel(s: State) returns (l: Label)
    requires Reachable(s) && s.pool.stopping && !P.AllExited(s.pool)
    ensures Enabled(s, l) && IsProgress(l)
  {
    assert P.Inv(s.pool) by {
      ReachableOrderly(s);
    }
    var step := PoolCanMove(s.pool);
    if OwnStep(s.pool, step) {
      l := PoolStep(step);
    } else {
      TaskCanMove(s, step.w);
      l := TaskLabel(step.w, s.pool.workers[step.w].task, s.pool.workers[step.w].phase);
    }
  }

  lemma SyncLabel(s: State) returns (l: Label)
    requires Reachable(s) && s.sync.stopping && !P.AllExited(s.sync)
    ensures Enabled(s, l) && IsProgress(l)
  {
    assert P.Inv(s.sync) && |s.sync.workers| == 1 && StartOrDone(s.sync.workers[0]) by {
      ReachableSound(s);
    }
    var step := PoolCanMove(s.sync);
    l := if OwnStep(s.sync, step) then SyncStep(step) else RunSync;
  }

  /** There is no deadlock: until `run` returns some thread can take a step. */
  lemma NotStuck(s: State) returns (l: Label)
    requires Reachable(s) && Stopping(s.pc) && !s.pc.Returned?
    ensures Enabled(s, l) && IsProgress(l)
  {
    ReachableOrderly(s);
    if s.pc.StoppingSync? {
      l := StopSync;
    } else if s.pc.StoppingPool? {
      l := StopPool;
    } else if s.pc.JoiningSync? {
      if P.AllExited(s.sync) {
        l := JoinSync;
      } else {
        l := SyncLabel(s);
      }
    } else if P.AllExited(s.pool) {
      l := JoinPool;
    } else {
      l := PoolLabel(s);
    }
  }

  /** So `run` returns, whatever steps are chosen: a run of progress steps is no longer than the
      work left, and one that cannot go on has returned. */
  lemma AnyChoiceReturns(s: State, labels: seq<Label>, t: State)
    requires Reachable(s) && Stopping(s.pc) && IsRun(s, labels, t)
    requires forall k | 0 <= k < |labels| :: IsProgress(labels[k])
    ensures |labels| <= Work(s)
    ensures (forall l | IsProgress(l) :: !Enabled(t, l)) ==> t.pc.Returned?
  {
    StepsAreBounded(s, labels, t);
    OnlyProgress(labels);
    ReachableRun(s, labels, t);
    StaysStopping(s, labels, t);
    if !t.pc.Returned? {
      var l := NotStuck(t);
    }
  }

  lemma {:induction false} OnlyProgress(labels: seq<Label>)
    requires forall k | 0 <= k < |labels| :: IsProgress(labels[k])
    ensures CountProgress(labels) == |labels| && CountSpurious(labels) == 0
  {
    if labels == [] {
    } else {
      OnlyProgress(labels[1..]);
    }
  }

  lemma {:induction false} StaysStopping(s: State, labels: seq<Label>, t: State)
    requires Reachable(s) && Stopping(s.pc) && IsRun(s, labels, t)
    ensures Stopping(t.pc)
    decreases |labels|
  {
    if labels == [] {
    } else {
      OneSyncWorker(s);
      WorkStep(s, labels[0]);
      ReachableStep(s, labels[0]);
      StaysStopping(Apply(s, labels[0]), labels[1..], t);
    }
  }

  /** And such a run exists. */
  lemma {:induction false} RunReturns(s: State) returns (labels: seq<Label>, t: State)
    requires Reachable(s) && Stopping(s.pc)
    ensures IsRun(s, labels, t) && t.pc.Returned? && |labels| <= Work(s)
    decreases Work(s)
  {
    if s.pc.Returned? {
      labels, t := [], s;
    } else {
      var l := NotStuck(s);
      OneSyncWorker(s);
      WorkStep(s, l);
      ReachableStep(s, l);
      var rest;
      rest, t := RunReturns(Apply(s, l));
      labels := [l] + rest;
      assert labels[1..] == rest;
    }
  }
}
