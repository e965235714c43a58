/** What every step keeps about the read thread, the lifecycle and the pools. */
module Control {
  import opened Options
  import opened Protocol
  import opened Dispatch
  import opened Server
  import opened Sums
  import P = ThreadPool

  // ---------------------------------------------------------------- pool steps behind labels

  /** The step a label takes on the worker pool, if any. */
  function PoolStepOf(s: State, l: Label): Option<JobStep>
    requires Enabled(s, l)
  {
    match l
    case SubmitJob => if s.pc.Submitting? then Some(P.Submit(s.pc.job)) else None
    case StopPool => Some(P.BeginShutdown)
    case PoolStep(step) => Some(step)
    case CheckToken(w) =>
      Some(P.Advance(w, if s.flags[s.pool.workers[w].task.token] then Replying(Error(RequestCancelled)) else InHandler))
    case EndHandler(w, outcome) => Some(P.Advance(w, Replying(ReplyOf(outcome))))
    case SendReply(w) => Some(P.Advance(w, Erasing))
    case EraseToken(w) => Some(P.Advance(w, Done))
    case RunTask(w) => Some(P.Advance(w, Done))
    case _ => None
  }

  /** The step a label takes on the serial executor, if any. */
  function SyncStepOf(s: State, l: Label): Option<JobStep>
    requires Enabled(s, l)
  {
    match l
    case SubmitJob => if s.pc.SubmittingSync? then Some(P.Submit(s.pc.job)) else None
    case StopSync => Some(P.BeginShutdown)
    case SyncStep(step) => Some(step)
    case RunSync => Some(P.Advance(0, Done))
    case _ => None
  }

  predicate Moves(p: JobPool, step: Option<JobStep>, q: JobPool) {
    match step
    case None => q == p
    case Some(st) => P.Enabled(p, st) && q == P.Apply(p, st)
  }

  lemma PoolMovesReadThread(s: State, l: Label)
    requires Enabled(s, l) && IsReadThread(l)
    ensures Moves(s.pool, PoolStepOf(s, l), Apply(s, l).pool)
  {
  }

  lemma PoolMovesOthers(s: State, l: Label)
    requires Enabled(s, l) && !IsReadThread(l)
    ensures Moves(s.pool, PoolStepOf(s, l), Apply(s, l).pool)
  {
  }

  lemma SyncMovesReadThread(s: State, l: Label)
    requires Enabled(s, l) && IsReadThread(l)
    ensures Moves(s.sync, SyncStepOf(s, l), Apply(s, l).sync)
  {
  }

  lemma SyncMovesOthers(s: State, l: Label)
    requires Enabled(s, l) && !IsReadThread(l)
    ensures Moves(s.sync, SyncStepOf(s, l), Apply(s, l).sync)
  {
  }

  lemma LabelMoves(s: State, l: Label)
    requires Enabled(s, l)
    ensures Moves(s.pool, PoolStepOf(s, l), Apply(s, l).pool)
    ensures Moves(s.sync, SyncStepOf(s, l), Apply(s, l).sync)
  {
    if IsReadThread(l) {
      PoolMovesReadThread(s, l);
      SyncMovesReadThread(s, l);
    } else {
      PoolMovesOthers(s, l);
      SyncMovesOthers(s, l);
    }
  }

  lemma MovesInv(p: JobPool, step: Option<JobStep>, q: JobPool)
    requires P.Inv(p) && Moves(p, step, q)
    ensures P.Inv(q) && |q.workers| == |p.workers|
    ensures P.AllExited(p) ==> P.AllExited(q)
  {
    if step.Some? {
      P.InvStep(p, step.value);
      if P.AllExited(p) {
        ExitedStay(p, step.value);
      }
    }
  }

  lemma ExitedStay(p: JobPool, step: JobStep)
    requires P.Inv(p) && P.Enabled(p, step) && P.AllExited(p)
    ensures P.AllExited(P.Apply(p, step))
  {
  }

  lemma MovesFields(p: JobPool, step: Option<JobStep>, q: JobPool)
    requires Moves(p, step, q)
    ensures q.accepted
         == if step.Some? && step.value.Submit? && !p.stopping then p.accepted + [step.value.task] else p.accepted
    ensures q.stopping <==> p.stopping || (step.Some? && step.value.BeginShutdown?)
  {
  }

  // ---------------------------------------------------------------- the invariant

  /** A job is the one its message calls for. */
  ghost predicate JobOk(h: Handlers, read: seq<Message>, job: Job) {
    && job.index < |read|
    && match job
       case RequestJob(i, id, name, params, _) =>
         read[i] == Request(id, name, params) && DispositionAt(h, read, i).RunAsync?
       case NotifyJob(i, name, params) =>
         read[i] == Notification(name, params)
         && (DispositionAt(h, read, i).QueuePool? || DispositionAt(h, read, i).QueueSync?)
       case CallbackJob(i, _, payload, isError) =>
         read[i].Response? && read[i].payload == payload && read[i].isError == isError
  }

  /** A rejected request gets the error it was rejected with. */
  predicate RejectedAs(d: Disposition, reply: Reply) {
    d.Reject? ==> reply == Error(d.code)
  }

  ghost predicate PcOk(h: Handlers, read: seq<Message>, pc: ReadPc) {
    var last := |read| - 1;
    Busy(pc) ==> last >= 0 && (match pc
      case Answering(index, id, reply) =>
        index == last && read[last].Request? && read[last].id == id
        && !DispositionAt(h, read, last).RunAsync? && RejectedAs(DispositionAt(h, read, last), reply)
      case Complaining(index, code) => index == last && read[last] == Invalid(code)
      case Inline(index, id, name) =>
        index == last && read[last].Request? && read[last].id == id && read[last].name == name
        && DispositionAt(h, read, last).RunInline?
      case Storing(index, id, name, params) =>
        index == last && read[last] == Request(id, name, params) && DispositionAt(h, read, last).RunAsync?
      case Submitting(job) =>
        job.index == last && JobOk(h, read, job) && (job.NotifyJob? ==> DispositionAt(h, read, last).QueuePool?)
      case SubmittingSync(job) =>
        job.index == last && job.NotifyJob? && JobOk(h, read, job) && DispositionAt(h, read, last).QueueSync?
      case Cancelling(id) => DispositionAt(h, read, last) == Cancel(id)
      case Matching(index, n, payload, isError) =>
        index == last && read[last] == Response(IntId(n), payload, isError)
      case _ => true)
  }

  /** Jobs are accepted in the order of their messages, at most one for each. */
  ghost predicate Increasing(jobs: seq<Job>) {
    forall a, b | 0 <= a < b < |jobs| :: jobs[a].index < jobs[b].index
  }

  ghost predicate JobsOk(h: Handlers, read: seq<Message>, jobs: seq<Job>, limit: int) {
    Increasing(jobs) && forall k | 0 <= k < |jobs| :: jobs[k].index < limit && JobOk(h, read, jobs[k])
  }

  function Limit(s: State): int {
    if Busy(s.pc) then |s.read| - 1 else |s.read|
  }

  ghost predicate Traced(s: State) {
    && BuiltIn(s.handlers) && Readable(s.handlers, s.read)
    && s.lifecycle == StateAfter(s.handlers, s.read)
    && s.shutdownRequested == ShutdownAfter(s.handlers, s.read)
  }

  ghost predicate StopsInOrder(s: State) {
    && (s.sync.stopping <==> s.pc.JoiningSync? || s.pc.StoppingPool? || s.pc.JoiningPool? || s.pc.Returned?)
    && (s.pool.stopping <==> s.pc.JoiningPool? || s.pc.Returned?)
    && (s.pc.StoppingPool? || s.pc.JoiningPool? || s.pc.Returned? ==> P.AllExited(s.sync))
    && (s.pc.Returned? ==> P.AllExited(s.pool) && s.pc.exitCode == if s.shutdownRequested then 0 else 1)
  }

  ghost predicate PoolsOk(s: State) {
    P.Inv(s.pool) && P.Inv(s.sync) && |s.sync.workers| == 1
  }

  ghost predicate JobsInOrder(s: State) {
    && PcOk(s.handlers, s.read, s.pc)
    && JobsOk(s.handlers, s.read, s.pool.accepted, Limit(s))
    && JobsOk(s.handlers, s.read, s.sync.accepted, Limit(s))
    && forall k | 0 <= k < |s.sync.accepted| :: s.sync.accepted[k].NotifyJob?
  }

  ghost predicate Orderly(s: State) {
    PoolsOk(s) && Traced(s) && StopsInOrder(s) && JobsInOrder(s)
  }

  lemma InitOrderly(h: Handlers, numWorkers: nat)
    requires BuiltIn(h)
    ensures Orderly(Init(h, numWorkers))
  {
    P.InitInv<Job, Phase>(numWorkers);
    P.InitInv<Job, Phase>(1);
  }

  // ---------------------------------------------------------------- steps keep it

  lemma PoolsOkStep(s: State, l: Label)
    requires PoolsOk(s) && Enabled(s, l)
    ensures PoolsOk(Apply(s, l))
  {
    LabelMoves(s, l);
    MovesInv(s.pool, PoolStepOf(s, l), Apply(s, l).pool);
    MovesInv(s.sync, SyncStepOf(s, l), Apply(s, l).sync);
  }

  lemma TracedRead(s: State, m: Message)
    requires Traced(s) && s.lifecycle != Exited
    ensures Traced(ReadStep(s, m))
  {
    var read := s.read + [m];
    assert read[..|s.read|] == s.read;
    forall k | 0 <= k < |read| ensures StateAfter(s.handlers, read[..k]) != Exited {
      if k < |s.read| {
        assert read[..k] == s.read[..k];
      }
    }
  }

  lemma TracedStep(s: State, l: Label)
    requires Traced(s) && Enabled(s, l)
    ensures Traced(Apply(s, l))
  {
    if l.Read? {
      TracedRead(s, l.message);
    } else if !IsReadThread(l) {
      KeepsReadThread(s, l);
    }
  }

  lemma StopsInOrderStep(s: State, l: Label)
    requires PoolsOk(s) && StopsInOrder(s) && Enabled(s, l)
    ensures StopsInOrder(Apply(s, l))
  {
    if IsReadThread(l) {
      StopsReadThread(s, l);
    } else {
      LabelMoves(s, l);
      KeepsReadThread(s, l);
      StopsOthers(s, PoolStepOf(s, l), SyncStepOf(s, l), Apply(s, l));
    }
  }

  lemma StopsReadThread(s: State, l: Label)
    requires PoolsOk(s) && StopsInOrder(s) && Enabled(s, l) && IsReadThread(l)
    ensures StopsInOrder(Apply(s, l))
  {
    if l.StopSync? || l.JoinSync? || l.StopPool? || l.JoinPool? {
      StopsStopping(s, l);
    } else {
      StopsWorking(s, l);
    }
  }

  lemma StopsStopping(s: State, l: Label)
    requires PoolsOk(s) && StopsInOrder(s) && Enabled(s, l)
    requires l.StopSync? || l.JoinSync? || l.StopPool? || l.JoinPool?
    ensures StopsInOrder(Apply(s, l))
  {
  }

  predicate ReadingPc(pc: ReadPc) {
    pc == Ready || Busy(pc) || pc == StoppingSync
  }

  lemma ReadingFrame(s: State, l: Label)
    requires Enabled(s, l) && IsReadThread(l) && !l.StopSync? && !l.JoinSync? && !l.StopPool? && !l.JoinPool?
    ensures ReadingPc(s.pc) && ReadingPc(Apply(s, l).pc)
    ensures Apply(s, l).pool.stopping == s.pool.stopping && Apply(s, l).sync.stopping == s.sync.stopping
  {
  }

  lemma StopsWorking(s: State, l: Label)
    requires StopsInOrder(s) && Enabled(s, l) && IsReadThread(l)
    requires !l.StopSync? && !l.JoinSync? && !l.StopPool? && !l.JoinPool?
    ensures StopsInOrder(Apply(s, l))
  {
    ReadingFrame(s, l);
  }

  predicate NoSubmission(step: Option<JobStep>) {
    step.None? || (!step.value.Submit? && !step.value.BeginShutdown?)
  }

  lemma StopsOthers(s: State, poolStep: Option<JobStep>, syncStep: Option<JobStep>, t: State)
    requires PoolsOk(s) && StopsInOrder(s) && Moves(s.pool, poolStep, t.pool) && Moves(s.sync, syncStep, t.sync)
    requires NoSubmission(poolStep) && NoSubmission(syncStep)
    requires t.pc == s.pc && t.shutdownRequested == s.shutdownRequested
    ensures StopsInOrder(t)
  {
    MovesInv(s.pool, poolStep, t.pool);
    MovesInv(s.sync, syncStep, t.sync);
    MovesFields(s.pool, poolStep, t.pool);
    MovesFields(s.sync, syncStep, t.sync);
  }

  /** Steps of the other threads leave the read thread and what only it writes. */
  lemma KeepsReadThread(s: State, l: Label)
    requires Enabled(s, l) && !IsReadThread(l)
    ensures var t := Apply(s, l);
      && t.handlers == s.handlers && t.pc == s.pc && t.lifecycle == s.lifecycle
      && t.shutdownRequested == s.shutdownRequested && t.read == s.read && t.encoding == s.encoding
      && t.owners == s.owners && t.lookups == s.lookups && t.matched == s.matched
    ensures NoSubmission(PoolStepOf(s, l)) && NoSubmission(SyncStepOf(s, l))
  {
  }

  /** The read thread leaves what only the other threads write. */
  lemma KeepsOthers(s: State, l: Label)
    requires Enabled(s, l) && IsReadThread(l)
    ensures var t := Apply(s, l);
      && t.handlers == s.handlers && t.verdicts == s.verdicts && t.entered == s.entered && t.ran == s.ran
  {
    assert Apply(s, l) == ReadThreadStep(s, l);
  }

  /** Reading one more message leaves what was said about the earlier ones. */
  lemma DispositionStable(h: Handlers, read: seq<Message>, m: Message, i: nat)
    requires i < |read|
    ensures DispositionAt(h, read + [m], i) == DispositionAt(h, read, i)
  {
    assert (read + [m])[..i] == read[..i];
  }

  lemma JobsOkRead(h: Handlers, read: seq<Message>, jobs: seq<Job>, m: Message)
    requires JobsOk(h, read, jobs, |read|)
    ensures JobsOk(h, read + [m], jobs, |read|)
  {
    forall k | 0 <= k < |jobs| ensures JobOk(h, read + [m], jobs[k]) {
      DispositionStable(h, read, m, jobs[k].index);
    }
  }

  lemma PcOkRead(h: Handlers, read: seq<Message>, m: Message)
    ensures PcOk(h, read + [m], AfterRead(Classify(StateAfter(h, read), h, m), |read|, m))
  {
    assert (read + [m])[..|read|] == read;
  }

  /** Accepting the job of the last message. */
  lemma JobsOkAccept(h: Handlers, read: seq<Message>, jobs: seq<Job>, job: Job)
    requires JobsOk(h, read, jobs, |read| - 1) && job.index == |read| - 1 && JobOk(h, read, job)
    ensures JobsOk(h, read, jobs + [job], |read|)
  {
  }

  lemma JobsInOrderRead(s: State, m: Message)
    requires Orderly(s) && Enabled(s, Read(m))
    ensures JobsInOrder(ReadStep(s, m))
  {
    PcOkRead(s.handlers, s.read, m);
    JobsOkRead(s.handlers, s.read, s.pool.accepted, m);
    JobsOkRead(s.handlers, s.read, s.sync.accepted, m);
  }

  lemma JobsInOrderSubmit(s: State)
    requires Orderly(s) && Enabled(s, SubmitJob)
    ensures JobsInOrder(SubmitStep(s))
  {
    JobsOkAccept(s.handlers, s.read, if s.pc.Submitting? then s.pool.accepted else s.sync.accepted, s.pc.job);
  }

  lemma JobsInOrderOthers(s: State, poolStep: Option<JobStep>, syncStep: Option<JobStep>, t: State)
    requires JobsInOrder(s) && Moves(s.pool, poolStep, t.pool) && Moves(s.sync, syncStep, t.sync)
    requires NoSubmission(poolStep) && NoSubmission(syncStep)
    requires t.handlers == s.handlers && t.pc == s.pc && t.read == s.read
    ensures JobsInOrder(t)
  {
    MovesFields(s.pool, poolStep, t.pool);
    MovesFields(s.sync, syncStep, t.sync);
  }

  /** The read thread goes on with the same message, or is done with it. */
  lemma PcOkReadThread(s: State, l: Label)
    requires PcOk(s.handlers, s.read, s.pc) && Enabled(s, l) && IsReadThread(l) && !l.Read? && !l.SubmitJob?
    ensures var t := Apply(s, l);
      && PcOk(s.handlers, s.read, t.pc) && t.handlers == s.handlers && t.read == s.read && Limit(s) <= Limit(t)
      && t.pool.accepted == s.pool.accepted && t.sync.accepted == s.sync.accepted
  {
    if l.EndInline? || l.StoreToken? || l.LookUpCall? {
      PcOkOnward(s, l);
    } else {
      assert !Busy(Apply(s, l).pc);
    }
  }

  /** The message in hand, whatever is left to do about it. */
  lemma PcOkOnward(s: State, l: Label)
    requires PcOk(s.handlers, s.read, s.pc) && Enabled(s, l) && (l.EndInline? || l.StoreToken? || l.LookUpCall?)
    ensures PcOk(s.handlers, s.read, Apply(s, l).pc) && Busy(s.pc)
  {
  }

  lemma JobsInOrderKept(s: State, t: State)
    requires JobsInOrder(s) && PcOk(s.handlers, s.read, t.pc)
    requires t.handlers == s.handlers && t.read == s.read && Limit(s) <= Limit(t)
    requires t.pool.accepted == s.pool.accepted && t.sync.accepted == s.sync.accepted
    ensures JobsInOrder(t)
  {
  }

  lemma JobsInOrderStep(s: State, l: Label)
    requires Orderly(s) && Enabled(s, l)
    ensures JobsInOrder(Apply(s, l))
  {
    if l.Read? {
      JobsInOrderRead(s, l.message);
    } else if l.SubmitJob? {
      JobsInOrderSubmit(s);
    } else if IsReadThread(l) {
      PcOkReadThread(s, l);
      JobsInOrderKept(s, Apply(s, l));
    } else {
      LabelMoves(s, l);
      KeepsReadThread(s, l);
      JobsInOrderOthers(s, PoolStepOf(s, l), SyncStepOf(s, l), Apply(s, l));
    }
  }

  lemma OrderlyStep(s: State, l: Label)
    requires Orderly(s) && Enabled(s, l)
    ensures Orderly(Apply(s, l))
  {
    PoolsOkStep(s, l);
    TracedStep(s, l);
    StopsInOrderStep(s, l);
    JobsInOrderStep(s, l);
  }

  // ---------------------------------------------------------------- who holds a job

  /** A running task was started. */
  lemma RunningStarted(p: JobPool, w: nat)
    requires P.Inv(p) && w < |p.workers| && p.workers[w].Running?
    ensures p.workers[w].task in p.started && p.workers[w].task in p.accepted
  {
    GatherMember<P.Worker<Job, Phase>, Job>(p.workers, w, P.TaskOf);
    assert p.workers[w].task in P.RunningTasks(p);
    assert p.workers[w].task in multiset(p.started);
  }

  lemma {:induction false} IncreasingOnce(jobs: seq<Job>, job: Job)
    requires Increasing(jobs)
    ensures multiset(jobs)[job] <= 1
  {
    if jobs == [] {
    } else {
      var n := |jobs| - 1;
      assert jobs == jobs[..n] + [jobs[n]];
      IncreasingOnce(jobs[..n], job);
      assert forall k | 0 <= k < n :: jobs[k] != jobs[n];
    }
  }

  lemma SameIndexSameJob(jobs: seq<Job>, a: Job, b: Job)
    requires Increasing(jobs) && a in jobs && b in jobs && a.index == b.index
    ensures a == b
  {
    var i, j :| 0 <= i < |jobs| && 0 <= j < |jobs| && jobs[i] == a && jobs[j] == b;
  }

  /** No two workers run jobs of the same message. */
  lemma RunningDistinct(p: JobPool, v: nat, w: nat)
    requires P.Inv(p) && Increasing(p.accepted)
    requires v < |p.workers| && w < |p.workers| && v != w && p.workers[v].Running? && p.workers[w].Running?
    ensures p.workers[v].task.index != p.workers[w].task.index
  {
    var a, b := p.workers[v].task, p.workers[w].task;
    RunningStarted(p, v);
    RunningStarted(p, w);
    GatherPair<P.Worker<Job, Phase>, Job>(p.workers, if v < w then v else w, if v < w then w else v, P.TaskOf);
    assert multiset{a, b} <= P.RunningTasks(p) <= multiset(p.started) <= multiset(p.accepted);
    IncreasingOnce(p.accepted, a);
    assert multiset{a, b}[a] <= 1;
    assert a.index == b.index ==> a == b by {
      if a.index == b.index {
        SameIndexSameJob(p.accepted, a, b);
      }
    }
  }

  /** A queued job is not of the message of a running one. */
  lemma QueuedNotRunning(p: JobPool, w: nat, k: nat)
    requires P.Inv(p) && Increasing(p.accepted)
    requires w < |p.workers| && p.workers[w].Running? && k < |p.tasks|
    ensures p.workers[w].task.index != p.tasks[k].index
  {
    RunningStarted(p, w);
    var i :| 0 <= i < |p.started| && p.started[i] == p.workers[w].task;
    assert p.accepted[i] == p.started[i] && p.accepted[|p.started| + k] == p.tasks[k];
  }
}
