/** Every duty the server takes on is discharged once: each request is answered by one frame,
    each malformed message reported by one, each notification handler and callback run once. */
module Duties {
  import opened Options
  import opened Protocol
  import opened Dispatch
  import opened Server
  import opened Control
  import opened Sums
  import P = ThreadPool

  // ---------------------------------------------------------------- taken on

  /** What a message obliges the server to do, by its disposition. A response that matches a
      call is counted where it is looked up. */
  function MessageDuties(d: Disposition, index: nat, m: Message): multiset<Duty> {
    match m
    case Request(id, _, _) => multiset{Answer(index, id)}
    case Invalid(_) => multiset{Report(index)}
    case Notification(_, _) => if d.QueueSync? || d.QueuePool? then multiset{Notify(index)} else multiset{}
    case Response(_, _, _) => multiset{}
  }

  function ReadDuties(h: Handlers, read: seq<Message>): multiset<Duty> {
    if read == [] then multiset{}
    else
      var i := |read| - 1;
      ReadDuties(h, read[..i]) + MessageDuties(DispositionAt(h, read, i), i, read[i])
  }

  function MatchDuty(m: Match): multiset<Duty> {
    multiset{Callback(m.call)}
  }

  ghost function Incurred(s: State): multiset<Duty> {
    ReadDuties(s.handlers, s.read) + Gather(s.matched, MatchDuty)
  }

  // ---------------------------------------------------------------- discharged

  function SentDuty(x: Sent): multiset<Duty> {
    match x
    case InReply(index, ReplyFrame(id, _)) => multiset{Answer(index, id)}
    case InReply(index, NullIdError(_)) => multiset{Report(index)}
    case _ => multiset{}
  }

  ghost function Discharged(s: State): multiset<Duty> {
    Gather(s.sent, SentDuty) + multiset(s.ran)
  }

  // ---------------------------------------------------------------- still owed

  function PcOwes(pc: ReadPc): multiset<Duty> {
    match pc
    case Answering(index, id, _) => multiset{Answer(index, id)}
    case Complaining(index, _) => multiset{Report(index)}
    case Inline(index, id, _) => multiset{Answer(index, id)}
    case Storing(index, id, _, _) => multiset{Answer(index, id)}
    case Submitting(job) => JobOwes(job)
    case SubmittingSync(job) => JobOwes(job)
    case _ => multiset{}
  }

  function JobOwes(job: Job): multiset<Duty> {
    multiset{DutyOf(job)}
  }

  /** A request is owed until its reply is sent, any other task until it has run. */
  predicate Owing(job: Job, phase: Phase) {
    phase.Start? || (job.RequestJob? && (phase.InHandler? || phase.Replying?))
  }

  function WorkerOwes(w: P.Worker<Job, Phase>): multiset<Duty> {
    if w.Running? && Owing(w.task, w.phase) then JobOwes(w.task) else multiset{}
  }

  ghost function PoolOwes(p: JobPool): multiset<Duty> {
    Gather(p.tasks, JobOwes) + Gather(p.workers, WorkerOwes)
  }

  ghost function Owed(s: State): multiset<Duty> {
    PcOwes(s.pc) + PoolOwes(s.pool) + PoolOwes(s.sync)
  }

  ghost predicate Balanced(s: State) {
    Incurred(s) == Discharged(s) + Owed(s)
  }

  // ---------------------------------------------------------------- pools

  lemma OwesSubmit(p: JobPool, job: Job)
    requires !p.stopping
    ensures PoolOwes(P.Apply(p, P.Submit(job))) == PoolOwes(p) + JobOwes(job)
  {
    GatherAppend(p.tasks, job, JobOwes);
    Exchange(Gather(p.tasks, JobOwes), JobOwes(job), Gather(p.workers, WorkerOwes));
  }

  lemma OwesIdleLock(p: JobPool, w: nat)
    requires P.Enabled(p, P.Step<Job, Phase>.Lock(w, Start)) && p.tasks == []
    ensures PoolOwes(P.Apply(p, P.Lock(w, Start))) == PoolOwes(p)
  {
    GatherKeep(p.workers, w, P.AfterLock(p, Start), WorkerOwes);
  }

  lemma OwesPop(p: JobPool, w: nat)
    requires P.Enabled(p, P.Step<Job, Phase>.Lock(w, Start)) && p.tasks != []
    ensures PoolOwes(P.Apply(p, P.Lock(w, Start))) == PoolOwes(p)
  {
    var rest, first := Gather(p.tasks[1..], JobOwes), JobOwes(p.tasks[0]);
    GatherAdd(p.workers, w, P.AfterLock(p, Start), WorkerOwes);
    Exchange(first, rest, Gather(p.workers, WorkerOwes));
    Exchange(rest, Gather(p.workers, WorkerOwes), first);
  }

  lemma OwesLock(p: JobPool, w: nat)
    requires P.Enabled(p, P.Step<Job, Phase>.Lock(w, Start))
    ensures PoolOwes(P.Apply(p, P.Lock(w, Start))) == PoolOwes(p)
  {
    if p.tasks == [] {
      OwesIdleLock(p, w);
    } else {
      OwesPop(p, w);
    }
  }

  /** The pool's own steps move duties about inside it. */
  lemma OwesOwnStep(p: JobPool, step: JobStep)
    requires OwnStep(p, step)
    ensures PoolOwes(P.Apply(p, step)) == PoolOwes(p)
  {
    match step
    case Lock(w, _) => OwesLock(p, w);
    case Finish(w) => GatherKeep(p.workers, w, P.Awake, WorkerOwes);
    case NotifyOne(w) => GatherKeep(p.workers, w, P.Wake(p.workers[w]), WorkerOwes);
    case NotifyAll => GatherSame(p.workers, P.Apply(p, step).workers, WorkerOwes);
    case Spurious(w) => GatherKeep(p.workers, w, P.Awake, WorkerOwes);
    case _ => assert false;
  }

  /** A worker that goes on without discharging its duty. */
  lemma OwesOnward(p: JobPool, w: nat, phase: Phase)
    requires w < |p.workers| && p.workers[w].Running?
    requires Owing(p.workers[w].task, p.workers[w].phase) == Owing(p.workers[w].task, phase)
    ensures PoolOwes(Advanced(p, w, phase)) == PoolOwes(p)
  {
    var x := P.Running(p.workers[w].task, phase);
    assert WorkerOwes(x) == WorkerOwes(p.workers[w]);
    GatherKeep(p.workers, w, x, WorkerOwes);
    assert Advanced(p, w, phase) == p.(workers := p.workers[w := x]);
  }

  /** A worker that discharges its duty. */
  lemma OwesLess(p: JobPool, w: nat, phase: Phase)
    requires w < |p.workers| && p.workers[w].Running?
    requires Owing(p.workers[w].task, p.workers[w].phase) && !Owing(p.workers[w].task, phase)
    ensures PoolOwes(Advanced(p, w, phase)) + JobOwes(p.workers[w].task) == PoolOwes(p)
  {
    GatherDrop(p.workers, w, P.Running(p.workers[w].task, phase), WorkerOwes);
    var rest := Gather(Advanced(p, w, phase).workers, WorkerOwes);
    Exchange(Gather(p.tasks, JobOwes), rest, JobOwes(p.workers[w].task));
  }

  lemma PoolOwesNothing(p: JobPool)
    requires P.Inv(p) && P.AllExited(p)
    ensures PoolOwes(p) == multiset{}
  {
    P.AllExitedDrained(p);
    GatherEmpty(p.workers, WorkerOwes);
  }

  // ---------------------------------------------------------------- steps

  lemma InitBalanced(h: Handlers, numWorkers: nat)
    ensures Balanced(Init(h, numWorkers))
  {
    var s := Init(h, numWorkers);
    GatherEmpty(s.pool.workers, WorkerOwes);
    GatherEmpty(s.sync.workers, WorkerOwes);
  }

  lemma RequestOwes(h: Handlers, l: ServerState, index: nat, m: Message)
    requires m.Request?
    ensures PcOwes(AfterRead(Classify(l, h, m), index, m)) == MessageDuties(Classify(l, h, m), index, m)
  {
    var d := Classify(l, h, m);
    if d.RunInline? {
    } else if d.RunAsync? {
    } else {
      assert d.Reject?;
    }
  }

  lemma NotificationOwes(h: Handlers, l: ServerState, index: nat, m: Message)
    requires m.Notification?
    ensures PcOwes(AfterRead(Classify(l, h, m), index, m)) == MessageDuties(Classify(l, h, m), index, m)
  {
    var d := Classify(l, h, m);
    if d.QueueSync? {
    } else if d.QueuePool? {
    } else {
      assert d.Leave? || d.Drop? || d.SetRunning? || d.Cancel?;
    }
  }

  /** The read thread takes on exactly what the message calls for. */
  lemma ReadOwes(h: Handlers, l: ServerState, index: nat, m: Message)
    ensures PcOwes(AfterRead(Classify(l, h, m), index, m)) == MessageDuties(Classify(l, h, m), index, m)
  {
    if m.Request? {
      RequestOwes(h, l, index, m);
    } else if m.Notification? {
      NotificationOwes(h, l, index, m);
    }
  }

  /** A duty is taken on. */
  lemma BalancedMore(s: State, t: State, d: multiset<Duty>)
    requires Balanced(s) && Incurred(t) == Incurred(s) + d && Discharged(t) == Discharged(s) && Owed(t) == Owed(s) + d
    ensures Balanced(t)
  {
    Exchange(Discharged(s), Owed(s), d);
  }

  lemma OwedPc(s: State, t: State, d: multiset<Duty>)
    requires PcOwes(s.pc) == multiset{} && PcOwes(t.pc) == d && t.pool == s.pool && t.sync == s.sync
    ensures Owed(t) == Owed(s) + d
  {
    Exchange(PcOwes(s.pc), d, PoolOwes(s.pool));
    Exchange(PcOwes(s.pc) + PoolOwes(s.pool), d, PoolOwes(s.sync));
  }

  lemma BalancedRead(s: State, m: Message)
    requires Traced(s) && Balanced(s) && Enabled(s, Read(m))
    ensures Balanced(Apply(s, Read(m)))
  {
    var t := ReadStep(s, m);
    assert t.read[..|s.read|] == s.read;
    var d := Classify(s.lifecycle, s.handlers, m);
    var duties := MessageDuties(d, |s.read|, m);
    ReadOwes(s.handlers, s.lifecycle, |s.read|, m);
    assert ReadDuties(t.handlers, t.read) == ReadDuties(s.handlers, s.read) + duties;
    Exchange(ReadDuties(s.handlers, s.read), duties, Gather(s.matched, MatchDuty));
    OwedPc(s, t, duties);
    BalancedMore(s, t, duties);
  }

  /** A reply goes out and is no longer owed. */
  lemma BalancedSend(s: State, t: State, x: Sent)
    requires Balanced(s) && Incurred(t) == Incurred(s)
    requires t.sent == s.sent + [x] && t.ran == s.ran && Owed(t) + SentDuty(x) == Owed(s)
    ensures Balanced(t)
  {
    GatherAppend(s.sent, x, SentDuty);
    var before, d := Gather(s.sent, SentDuty), SentDuty(x);
    Exchange(before, d, multiset(s.ran));
    Exchange(before + multiset(s.ran), d, Owed(t));
    Exchange(before + multiset(s.ran), Owed(t), d);
  }

  /** A handler or callback has run and is no longer owed. */
  lemma BalancedRan(s: State, t: State, d: Duty)
    requires Balanced(s) && Incurred(t) == Incurred(s)
    requires t.sent == s.sent && t.ran == s.ran + [d] && Owed(t) + multiset{d} == Owed(s)
    ensures Balanced(t)
  {
    Exchange(Gather(s.sent, SentDuty), multiset(s.ran), multiset{d});
    Exchange(Discharged(s), multiset{d}, Owed(t));
    Exchange(Discharged(s), Owed(t), multiset{d});
  }

  lemma BalancedKept(s: State, t: State)
    requires Balanced(s) && Incurred(t) == Incurred(s) && Discharged(t) == Discharged(s) && Owed(t) == Owed(s)
    ensures Balanced(t)
  {
  }

  lemma MatchIncurs(s: State, m: Match)
    requires s.pc.Matching? && s.pc.number in s.pending && m == Match(s.pending[s.pc.number], |s.lookups|)
    ensures Incurred(LookUpStep(s)) == Incurred(s) + MatchDuty(m)
  {
    GatherAppend(s.matched, m, MatchDuty);
    Exchange(ReadDuties(s.handlers, s.read), Gather(s.matched, MatchDuty), MatchDuty(m));
  }

  lemma MatchOwes(s: State, m: Match)
    requires s.pc.Matching? && s.pc.number in s.pending && m == Match(s.pending[s.pc.number], |s.lookups|)
    ensures Owed(LookUpStep(s)) == Owed(s) + MatchDuty(m)
  {
    OwedPc(s, LookUpStep(s), MatchDuty(m));
  }

  lemma MatchIsBalanced(s: State, t: State, m: Match)
    requires Balanced(s) && Incurred(t) == Incurred(s) + MatchDuty(m) && Owed(t) == Owed(s) + MatchDuty(m)
    requires t.sent == s.sent && t.ran == s.ran
    ensures Balanced(t)
  {
    BalancedMore(s, t, MatchDuty(m));
  }

  lemma BalancedLookUp(s: State)
    requires Balanced(s) && Enabled(s, LookUpCall)
    ensures Balanced(Apply(s, LookUpCall))
  {
    if s.pc.number in s.pending {
      var m := Match(s.pending[s.pc.number], |s.lookups|);
      MatchIncurs(s, m);
      MatchOwes(s, m);
      MatchIsBalanced(s, LookUpStep(s), m);
    } else {
      BalancedSame(s, LookUpStep(s));
    }
  }

  lemma SubmitPoolOwes(s: State)
    requires s.pc.Submitting? && !s.pool.stopping
    ensures Owed(SubmitStep(s)) == Owed(s)
  {
    OwesSubmit(s.pool, s.pc.job);
    Rotate(JobOwes(s.pc.job), PoolOwes(s.pool), PoolOwes(s.sync));
  }

  lemma SubmitSyncOwes(s: State)
    requires s.pc.SubmittingSync? && !s.sync.stopping
    ensures Owed(SubmitStep(s)) == Owed(s)
  {
    OwesSubmit(s.sync, s.pc.job);
    OwedToSync(s, SubmitStep(s), JobOwes(s.pc.job));
  }

  /** A debt of the read thread becomes one of the serial executor. */
  lemma OwedToSync(s: State, t: State, d: multiset<Duty>)
    requires PcOwes(s.pc) == d && PcOwes(t.pc) == multiset{}
    requires t.pool == s.pool && PoolOwes(t.sync) == PoolOwes(s.sync) + d
    ensures Owed(t) == Owed(s)
  {
    Rotate(d, PoolOwes(s.pool), PoolOwes(s.sync));
  }

  lemma BalancedSubmit(s: State)
    requires Orderly(s) && Balanced(s) && Enabled(s, SubmitJob)
    ensures Balanced(Apply(s, SubmitJob))
  {
    if s.pc.Submitting? {
      SubmitPoolOwes(s);
    } else {
      SubmitSyncOwes(s);
    }
    BalancedKept(s, SubmitStep(s));
  }

  lemma BalancedAnswer(s: State)
    requires Balanced(s) && Enabled(s, SendAnswer)
    ensures Balanced(Apply(s, SendAnswer))
  {
    var t := SendAnswerStep(s);
    OwedPc(t, s, PcOwes(s.pc));
    BalancedSend(s, t, t.sent[|s.sent|]);
  }

  /** Steps that move no duty: the pools keep their tasks and workers, the read thread its debt. */
  lemma BalancedSame(s: State, t: State)
    requires Balanced(s) && PcOwes(t.pc) == PcOwes(s.pc)
    requires t.pool.tasks == s.pool.tasks && t.pool.workers == s.pool.workers
    requires t.sync.tasks == s.sync.tasks && t.sync.workers == s.sync.workers
    requires t.handlers == s.handlers && t.read == s.read && t.matched == s.matched && t.sent == s.sent
    requires t.ran == s.ran
    ensures Balanced(t)
  {
    BalancedKept(s, t);
  }

  lemma OwedPool(s: State, t: State, d: multiset<Duty>)
    requires t.pc == s.pc && PoolOwes(t.pool) + d == PoolOwes(s.pool) && PoolOwes(t.sync) == PoolOwes(s.sync)
    ensures Owed(t) + d == Owed(s)
  {
    Exchange(PcOwes(s.pc), PoolOwes(t.pool), d);
    Exchange(PcOwes(s.pc) + PoolOwes(t.pool), PoolOwes(s.sync), d);
  }

  lemma BalancedReply(s: State, w: nat)
    requires Balanced(s) && Enabled(s, SendReply(w))
    ensures Balanced(Apply(s, SendReply(w)))
  {
    var t, job := SendReplyStep(s, w), s.pool.workers[w].task;
    OwesLess(s.pool, w, Erasing);
    OwedPool(s, t, JobOwes(job));
    BalancedSend(s, t, t.sent[|s.sent|]);
  }

  lemma BalancedRunTask(s: State, w: nat)
    requires Balanced(s) && Enabled(s, RunTask(w))
    ensures Balanced(Apply(s, RunTask(w)))
  {
    var t, job := RunTaskStep(s, w), s.pool.workers[w].task;
    OwesLess(s.pool, w, Done);
    OwedPool(s, t, JobOwes(job));
    BalancedRan(s, t, DutyOf(job));
  }

  lemma BalancedRunSync(s: State)
    requires Balanced(s) && Enabled(s, RunSync)
    ensures Balanced(Apply(s, RunSync))
  {
    var t, job := RunSyncStep(s), s.sync.workers[0].task;
    OwesLess(s.sync, 0, Done);
    Exchange(PcOwes(s.pc) + PoolOwes(s.pool), PoolOwes(t.sync), JobOwes(job));
    BalancedRan(s, t, DutyOf(job));
  }

  lemma BalancedUnasked(s: State, t: State, frame: Frame)
    requires Balanced(s) && t == s.(sent := s.sent + [Unasked(frame)], calls := t.calls) && !frame.ReplyFrame?
    ensures Balanced(t)
  {
    assert Owed(t) + multiset{} == Owed(s);
    BalancedSend(s, t, Unasked(frame));
  }

  lemma BalancedOnward(s: State, w: nat, phase: Phase, t: State)
    requires Balanced(s) && w < |s.pool.workers| && s.pool.workers[w].Running?
    requires Owing(s.pool.workers[w].task, s.pool.workers[w].phase) == Owing(s.pool.workers[w].task, phase)
    requires t.pc == s.pc && t.handlers == s.handlers && t.read == s.read && t.matched == s.matched
    requires t.sent == s.sent && t.ran == s.ran && t.sync == s.sync && t.pool == Advanced(s.pool, w, phase)
    ensures Balanced(t)
  {
    OwesOnward(s.pool, w, phase);
    BalancedKept(s, t);
  }

  lemma BalancedPools(s: State, t: State)
    requires Balanced(s) && PoolOwes(t.pool) == PoolOwes(s.pool) && PoolOwes(t.sync) == PoolOwes(s.sync)
    requires t.pc == s.pc && t.handlers == s.handlers && t.read == s.read && t.matched == s.matched
    requires t.sent == s.sent && t.ran == s.ran
    ensures Balanced(t)
  {
    BalancedKept(s, t);
  }

  lemma BalancedPoolStep(s: State, step: JobStep)
    requires Balanced(s) && OwnStep(s.pool, step)
    ensures Balanced(Apply(s, PoolStep(step)))
  {
    OwesOwnStep(s.pool, step);
    BalancedPools(s, Apply(s, PoolStep(step)));
  }

  lemma BalancedSyncStep(s: State, step: JobStep)
    requires Balanced(s) && OwnStep(s.sync, step)
    ensures Balanced(Apply(s, SyncStep(step)))
  {
    OwesOwnStep(s.sync, step);
    BalancedPools(s, Apply(s, SyncStep(step)));
  }

  /** Steps of the read thread that neither take on, move nor discharge a duty. */
  lemma QuietReadThread(s: State, l: Label)
    requires Enabled(s, l) && IsReadThread(l) && !l.Read? && !l.SendAnswer? && !l.SubmitJob? && !l.LookUpCall?
    ensures PcOwes(Apply(s, l).pc) == PcOwes(s.pc)
  {
    match l
    case StopReading =>
    case EndInline(outcome, encoding) => assert Apply(s, l) == EndInlineStep(s, outcome, encoding);
    case StoreToken => assert Apply(s, l) == StoreTokenStep(s);
    case CancelToken => assert Apply(s, l) == CancelStep(s);
    case StopSync =>
    case JoinSync =>
    case StopPool =>
    case JoinPool =>
  }

  lemma QuietFields(s: State, l: Label)
    requires Enabled(s, l) && IsReadThread(l) && !l.Read? && !l.SendAnswer? && !l.SubmitJob? && !l.LookUpCall?
    ensures var t := Apply(s, l);
      && t.pool.tasks == s.pool.tasks && t.pool.workers == s.pool.workers
      && t.sync.tasks == s.sync.tasks && t.sync.workers == s.sync.workers
      && t.read == s.read && t.matched == s.matched && t.sent == s.sent
  {
    match l
    case StopReading =>
    case EndInline(_, _) =>
    case StoreToken =>
    case CancelToken =>
    case StopSync =>
    case JoinSync =>
    case StopPool =>
    case JoinPool =>
  }

  lemma BalancedReadThread(s: State, l: Label)
    requires Orderly(s) && Balanced(s) && Enabled(s, l) && IsReadThread(l)
    ensures Balanced(Apply(s, l))
  {
    if l.Read? {
      BalancedRead(s, l.message);
    } else if l.SendAnswer? {
      BalancedAnswer(s);
    } else if l.SubmitJob? {
      BalancedSubmit(s);
    } else if l.LookUpCall? {
      BalancedLookUp(s);
    } else {
      KeepsOthers(s, l);
      QuietReadThread(s, l);
      QuietFields(s, l);
      BalancedSame(s, Apply(s, l));
    }
  }

  /** A worker's steps inside a request, short of sending the reply. */
  lemma RequestOnward(s: State, l: Label, phase: Phase)
    requires Enabled(s, l) && (l.CheckToken? || l.EndHandler? || l.EraseToken?)
    requires PoolStepOf(s, l) == Some(P.Advance(l.w, phase))
    ensures var t := Apply(s, l);
      && t.pc == s.pc && t.handlers == s.handlers && t.read == s.read && t.matched == s.matched
      && t.sent == s.sent && t.ran == s.ran && t.sync == s.sync && t.pool == Advanced(s.pool, l.w, phase)
    ensures Owing(s.pool.workers[l.w].task, s.pool.workers[l.w].phase) == Owing(s.pool.workers[l.w].task, phase)
  {
  }

  lemma BalancedRequest(s: State, l: Label)
    requires Balanced(s) && Enabled(s, l) && (l.CheckToken? || l.EndHandler? || l.EraseToken?)
    ensures Balanced(Apply(s, l))
  {
    var phase := PoolStepOf(s, l).value.phase;
    RequestOnward(s, l, phase);
    BalancedOnward(s, l.w, phase, Apply(s, l));
  }

  lemma BalancedOutgoing(s: State, l: Label)
    requires Balanced(s) && Enabled(s, l)
    requires (l.BeginCall? || l.RegisterCall? || l.SendCall? || l.SendNotice? || l.CancelOwn?)
    ensures Balanced(Apply(s, l))
  {
    var t := Apply(s, l);
    if l.SendCall? {
      BalancedUnasked(s, t, CallFrame(s.calls[l.c].id, l.request, l.params));
    } else if l.SendNotice? {
      BalancedUnasked(s, t, NoticeFrame(l.notice, l.params));
    } else {
      BalancedSame(s, t);
    }
  }

  lemma BalancedStep(s: State, l: Label)
    requires Orderly(s) && Balanced(s) && Enabled(s, l)
    ensures Balanced(Apply(s, l))
  {
    if l.PoolStep? {
      BalancedPoolStep(s, l.step);
    } else if l.SyncStep? {
      BalancedSyncStep(s, l.step);
    } else if l.SendReply? {
      BalancedReply(s, l.w);
    } else if l.RunTask? {
      BalancedRunTask(s, l.w);
    } else if l.RunSync? {
      BalancedRunSync(s);
    } else if l.CheckToken? || l.EndHandler? || l.EraseToken? {
      BalancedRequest(s, l);
    } else if IsReadThread(l) {
      BalancedReadThread(s, l);
    } else {
      BalancedOutgoing(s, l);
    }
  }

  // ---------------------------------------------------------------- what tasks can discharge

  /** No task other than a request's answers a request. */
  ghost predicate RanOk(ran: seq<Duty>) {
    forall k | 0 <= k < |ran| :: ran[k].Notify? || ran[k].Callback?
  }

  lemma RanOkStep(s: State, l: Label)
    requires Orderly(s) && RanOk(s.ran) && Enabled(s, l)
    ensures RanOk(Apply(s, l).ran)
  {
    if l.RunSync? {
      RunningStarted(s.sync, 0);
    } else if IsReadThread(l) {
      KeepsOthers(s, l);
    } else if !l.RunTask? {
      RanSame(s, l);
    }
  }

  lemma RanSame(s: State, l: Label)
    requires Enabled(s, l) && !IsReadThread(l) && !l.RunSync? && !l.RunTask?
    ensures Apply(s, l).ran == s.ran
  {
  }
}
