/** Cancellation: what a token's flag does to its request, and who can set it. */
module Cancellation {
  import opened Protocol
  import opened Dispatch
  import opened Server
  import opened Control
  import P = ThreadPool

  // ---------------------------------------------------------------- tokens belong to requests

  ghost predicate TokenOk(owners: seq<nat>, job: Job) {
    job.RequestJob? ==> job.token < |owners| && owners[job.token] == job.index
  }

  ghost predicate Ascending(owners: seq<nat>, limit: int) {
    (forall a, b | 0 <= a < b < |owners| :: owners[a] < owners[b]) && forall t | 0 <= t < |owners| :: owners[t] < limit
  }

  /** Each token was made for one request, and the request's job carries it. */
  ghost predicate TokensOwned(s: State) {
    && |s.flags| == |s.owners|
    && Ascending(s.owners, if s.pc.Storing? then |s.read| - 1 else |s.read|)
    && (s.pc.Submitting? ==> TokenOk(s.owners, s.pc.job))
    && (forall k | 0 <= k < |s.pool.accepted| :: TokenOk(s.owners, s.pool.accepted[k]))
  }

  /** What a step must leave alone to leave the tokens with their owners. */
  ghost predicate SameOwners(s: State, t: State) {
    && t.owners == s.owners && |t.flags| == |s.flags| && t.pool.accepted == s.pool.accepted
    && |s.read| <= |t.read| && (t.pc.Storing? ==> |s.read| < |t.read| || (t.pc == s.pc && t.read == s.read))
    && (t.pc.Submitting? ==> t.pc == s.pc || !t.pc.job.RequestJob?)
  }

  lemma KeepsOwners(s: State, l: Label)
    requires Enabled(s, l) && !l.StoreToken? && !l.SubmitJob?
    ensures SameOwners(s, Apply(s, l))
  {
    if !IsReadThread(l) {
      KeepsReadThread(s, l);
      LabelMoves(s, l);
      MovesFields(s.pool, PoolStepOf(s, l), Apply(s, l).pool);
    }
  }

  lemma OwnedKept(s: State, t: State)
    requires TokensOwned(s) && SameOwners(s, t)
    ensures TokensOwned(t)
  {
  }

  lemma OwnedStore(s: State)
    requires Orderly(s) && TokensOwned(s) && s.pc.Storing?
    ensures TokensOwned(StoreTokenStep(s))
  {
    var t := StoreTokenStep(s);
    forall k | 0 <= k < |t.pool.accepted| ensures TokenOk(t.owners, t.pool.accepted[k]) {
      assert TokenOk(s.owners, s.pool.accepted[k]);
    }
  }

  lemma OwnedSubmit(s: State)
    requires Orderly(s) && TokensOwned(s) && Enabled(s, SubmitJob)
    ensures TokensOwned(SubmitStep(s))
  {
    MovesFields(s.pool, PoolStepOf(s, SubmitJob), SubmitStep(s).pool);
  }

  lemma TokensOwnedStep(s: State, l: Label)
    requires Orderly(s) && TokensOwned(s) && Enabled(s, l)
    ensures TokensOwned(Apply(s, l))
  {
    if l.StoreToken? {
      OwnedStore(s);
    } else if l.SubmitJob? {
      OwnedSubmit(s);
    } else {
      KeepsOwners(s, l);
      OwnedKept(s, Apply(s, l));
    }
  }

  /** One token, one request: no two requests share a flag. */
  lemma OwnerUnique(s: State, a: nat, b: nat)
    requires TokensOwned(s) && a < |s.owners| && b < |s.owners| && s.owners[a] == s.owners[b]
    ensures a == b
  {
  }

  // ---------------------------------------------------------------- what the worker saw

  const CANCELLED: Reply := Error(RequestCancelled)

  /** A request's phase agrees with what its worker saw at the check; other tasks just run. */
  ghost predicate PhaseOk(verdicts: map<nat, bool>, job: Job, phase: Phase) {
    if !job.RequestJob? then phase.Start? || phase.Done?
    else
      match phase
      case Start => job.index !in verdicts
      case InHandler => job.index in verdicts && !verdicts[job.index]
      case Replying(reply) => job.index in verdicts && (verdicts[job.index] ==> reply == CANCELLED)
      case _ => job.index in verdicts
  }

  /** A reply to a request that was seen cancelled says so; the other asynchronous replies come
      from handlers, and those of the read thread give the reason for the rejection. */
  ghost predicate SentOk(h: Handlers, read: seq<Message>, verdicts: map<nat, bool>, x: Sent) {
    match x
    case Unasked(frame) => frame.CallFrame? || frame.NoticeFrame?
    case InReply(i, ReplyFrame(id, reply)) =>
      && i < |read| && read[i].Request? && read[i].id == id
      && RejectedAs(DispositionAt(h, read, i), reply)
      && if i in verdicts then verdicts[i] ==> reply == CANCELLED else !DispositionAt(h, read, i).RunAsync?
    case InReply(i, NullIdError(code)) => i < |read| && read[i] == Invalid(code)
    case _ => false
  }

  ghost predicate WorkersJudged(verdicts: map<nat, bool>, p: JobPool) {
    && (forall w | 0 <= w < |p.workers| && p.workers[w].Running? ::
          PhaseOk(verdicts, p.workers[w].task, p.workers[w].phase))
    && (forall k | 0 <= k < |p.tasks| && p.tasks[k].RequestJob? :: p.tasks[k].index !in verdicts)
    && (forall k | 0 <= k < |p.finished| && p.finished[k].RequestJob? :: p.finished[k].index in verdicts)
  }

  ghost predicate Judged(s: State) {
    && (forall i | i in s.verdicts :: i < Limit(s))
    && WorkersJudged(s.verdicts, s.pool)
    && (forall k | 0 <= k < |s.entered| :: s.entered[k] in s.verdicts && !s.verdicts[s.entered[k]])
    && (forall k | 0 <= k < |s.sent| :: SentOk(s.handlers, s.read, s.verdicts, s.sent[k]))
  }

  lemma InitJudged(h: Handlers, numWorkers: nat)
    ensures Judged(Init(h, numWorkers)) && TokensOwned(Init(h, numWorkers))
  {
  }

  lemma JudgedOwnStep(verdicts: map<nat, bool>, p: JobPool, step: JobStep)
    requires WorkersJudged(verdicts, p) && OwnStep(p, step)
    ensures WorkersJudged(verdicts, P.Apply(p, step))
  {
  }

  lemma JudgedAdvance(verdicts: map<nat, bool>, p: JobPool, w: nat, phase: Phase)
    requires WorkersJudged(verdicts, p) && w < |p.workers| && p.workers[w].Running?
    requires PhaseOk(verdicts, p.workers[w].task, phase)
    ensures WorkersJudged(verdicts, Advanced(p, w, phase))
  {
  }

  lemma JudgedSubmit(verdicts: map<nat, bool>, p: JobPool, job: Job)
    requires WorkersJudged(verdicts, p) && job.index !in verdicts
    ensures WorkersJudged(verdicts, P.Apply(p, P.Submit(job)))
  {
  }

  /** The check itself: the verdict concerns this worker's request alone. */
  lemma JudgedCheck(verdicts: map<nat, bool>, p: JobPool, w: nat, seen: bool)
    requires P.Inv(p) && Increasing(p.accepted) && WorkersJudged(verdicts, p)
    requires w < |p.workers| && p.workers[w].Running? && p.workers[w].phase == Start && p.workers[w].task.RequestJob?
    ensures WorkersJudged(verdicts[p.workers[w].task.index := seen],
                          Advanced(p, w, if seen then Replying(CANCELLED) else InHandler))
  {
    var i, q := p.workers[w].task.index, Advanced(p, w, if seen then Replying(CANCELLED) else InHandler);
    forall v | 0 <= v < |q.workers| && q.workers[v].Running?
      ensures PhaseOk(verdicts[i := seen], q.workers[v].task, q.workers[v].phase)
    {
      if v != w {
        RunningDistinct(p, v, w);
      }
    }
    forall k | 0 <= k < |q.tasks| ensures q.tasks[k].index != i {
      QueuedNotRunning(p, w, k);
    }
  }

  lemma SentCheck(s: State, w: nat)
    requires Orderly(s) && Judged(s) && Enabled(s, CheckToken(w))
    ensures var t := CheckTokenStep(s, w);
      forall k | 0 <= k < |t.sent| :: SentOk(t.handlers, t.read, t.verdicts, t.sent[k])
  {
    var job, t := s.pool.workers[w].task, CheckTokenStep(s, w);
    RunningStarted(s.pool, w);
    assert JobOk(s.handlers, s.read, job);
    forall k | 0 <= k < |t.sent| ensures SentOk(t.handlers, t.read, t.verdicts, t.sent[k]) {
      assert SentOk(s.handlers, s.read, s.verdicts, s.sent[k]);
    }
  }

  lemma JudgedVerdict(s: State, t: State, i: nat, seen: bool)
    requires Judged(s) && i < Limit(t) && Limit(t) == Limit(s) && i !in s.verdicts
    requires t.verdicts == s.verdicts[i := seen] && t.entered == if seen then s.entered else s.entered + [i]
    requires WorkersJudged(t.verdicts, t.pool)
    requires forall k | 0 <= k < |t.sent| :: SentOk(t.handlers, t.read, t.verdicts, t.sent[k])
    ensures Judged(t)
  {
  }

  lemma JudgedCheckToken(s: State, w: nat)
    requires Orderly(s) && Judged(s) && Enabled(s, CheckToken(w))
    ensures Judged(Apply(s, CheckToken(w)))
  {
    var job := s.pool.workers[w].task;
    RunningStarted(s.pool, w);
    assert PhaseOk(s.verdicts, job, Start);
    JudgedCheck(s.verdicts, s.pool, w, s.flags[job.token]);
    SentCheck(s, w);
    JudgedVerdict(s, CheckTokenStep(s, w), job.index, s.flags[job.token]);
  }

  lemma JudgedRead(s: State, m: Message)
    requires Judged(s) && Enabled(s, Read(m))
    ensures Judged(Apply(s, Read(m)))
  {
    var t := ReadStep(s, m);
    forall k | 0 <= k < |t.sent| ensures SentOk(t.handlers, t.read, t.verdicts, t.sent[k]) {
      assert SentOk(s.handlers, s.read, s.verdicts, s.sent[k]);
      if s.sent[k].InReply? && s.sent[k].frame.ReplyFrame? {
        DispositionStable(s.handlers, s.read, m, s.sent[k].index);
      }
    }
  }

  lemma JudgedKept(s: State, t: State)
    requires Judged(s) && t.handlers == s.handlers && t.read == s.read
    requires t.verdicts == s.verdicts && t.entered == s.entered
    requires Limit(s) <= Limit(t) && WorkersJudged(t.verdicts, t.pool) && s.sent <= t.sent
    requires forall k | |s.sent| <= k < |t.sent| :: SentOk(t.handlers, t.read, t.verdicts, t.sent[k])
    ensures Judged(t)
  {
    forall k | 0 <= k < |t.sent| ensures SentOk(t.handlers, t.read, t.verdicts, t.sent[k]) {
      if k < |s.sent| {
        assert t.sent[k] == s.sent[k];
      }
    }
  }

  lemma JudgedAnswer(s: State)
    requires Orderly(s) && Judged(s) && Enabled(s, SendAnswer)
    ensures Judged(Apply(s, SendAnswer))
  {
    var t := SendAnswerStep(s);
    assert SentOk(t.handlers, t.read, t.verdicts, t.sent[|s.sent|]);
    JudgedKept(s, t);
  }

  /** The rest of what the read thread does concerns neither verdicts nor replies. */
  lemma QuietReadThread(s: State, l: Label)
    requires Enabled(s, l) && IsReadThread(l) && !l.Read? && !l.SubmitJob? && !l.SendAnswer? && !l.StopPool?
    ensures var t := Apply(s, l);
      t.read == s.read && t.sent == s.sent && Limit(s) <= Limit(t) && t.pool == s.pool
  {
    match l
    case StopReading =>
    case EndInline(_, _) =>
    case StoreToken =>
    case CancelToken =>
    case LookUpCall =>
    case StopSync =>
    case JoinSync =>
    case JoinPool =>
  }

  lemma JudgedWorker(s: State, w: nat, phase: Phase, t: State)
    requires Judged(s) && w < |s.pool.workers| && s.pool.workers[w].Running?
    requires PhaseOk(s.verdicts, s.pool.workers[w].task, phase)
    requires t.pool == Advanced(s.pool, w, phase) && t.pc == s.pc
    requires t.handlers == s.handlers && t.read == s.read && t.verdicts == s.verdicts
    requires t.entered == s.entered && s.sent <= t.sent
    requires forall k | |s.sent| <= k < |t.sent| :: SentOk(t.handlers, t.read, t.verdicts, t.sent[k])
    ensures Judged(t)
  {
    JudgedAdvance(s.verdicts, s.pool, w, phase);
    JudgedKept(s, t);
  }

  lemma JudgedReply(s: State, w: nat)
    requires Orderly(s) && Judged(s) && Enabled(s, SendReply(w))
    ensures Judged(Apply(s, SendReply(w)))
  {
    var job := s.pool.workers[w].task;
    RunningStarted(s.pool, w);
    assert JobOk(s.handlers, s.read, job) && PhaseOk(s.verdicts, job, s.pool.workers[w].phase);
    JudgedWorker(s, w, Erasing, SendReplyStep(s, w));
  }

  lemma JudgedTask(s: State, l: Label)
    requires Orderly(s) && Judged(s) && Enabled(s, l) && (l.EndHandler? || l.EraseToken? || l.RunTask?)
    ensures Judged(Apply(s, l))
  {
    assert PhaseOk(s.verdicts, s.pool.workers[l.w].task, s.pool.workers[l.w].phase);
    JudgedWorker(s, l.w, Apply(s, l).pool.workers[l.w].phase, Apply(s, l));
  }

  lemma JudgedOthers(s: State, l: Label)
    requires Judged(s) && Enabled(s, l) && !IsReadThread(l) && PoolStepOf(s, l).None?
    ensures Judged(Apply(s, l))
  {
    KeepsReadThread(s, l);
    LabelMoves(s, l);
    JudgedKept(s, Apply(s, l));
  }

  lemma JudgedSubmission(s: State)
    requires Judged(s) && Enabled(s, SubmitJob) && (s.pc.Submitting? ==> s.pc.job.index == |s.read| - 1)
    ensures Judged(Apply(s, SubmitJob))
  {
    if s.pc.Submitting? {
      JudgedSubmit(s.verdicts, s.pool, s.pc.job);
    }
    JudgedKept(s, SubmitStep(s));
  }

  lemma JudgedPoolStep(s: State, step: JobStep)
    requires Judged(s) && OwnStep(s.pool, step)
    ensures Judged(Apply(s, PoolStep(step)))
  {
    JudgedOwnStep(s.verdicts, s.pool, step);
    JudgedKept(s, s.(pool := P.Apply(s.pool, step)));
  }

  lemma JudgedQuiet(s: State, l: Label)
    requires Judged(s) && Enabled(s, l) && !l.Read? && !l.SubmitJob? && !l.SendAnswer? && PoolStepOf(s, l).None?
    ensures Judged(Apply(s, l))
  {
    if IsReadThread(l) {
      KeepsOthers(s, l);
      QuietReadThread(s, l);
      JudgedKept(s, Apply(s, l));
    } else {
      JudgedOthers(s, l);
    }
  }

  lemma JudgedInTask(s: State, l: Label)
    requires Orderly(s) && Judged(s) && Enabled(s, l)
    requires l.CheckToken? || l.SendReply? || l.EndHandler? || l.EraseToken? || l.RunTask?
    ensures Judged(Apply(s, l))
  {
    if l.CheckToken? {
      JudgedCheckToken(s, l.w);
    } else if l.SendReply? {
      JudgedReply(s, l.w);
    } else {
      JudgedTask(s, l);
    }
  }

  lemma JudgedStep(s: State, l: Label)
    requires Orderly(s) && Judged(s) && Enabled(s, l)
    ensures Judged(Apply(s, l))
  {
    if l.Read? {
      JudgedRead(s, l.message);
    } else if l.SubmitJob? {
      JudgedSubmission(s);
    } else if l.SendAnswer? {
      JudgedAnswer(s);
    } else if l.PoolStep? {
      JudgedPoolStep(s, l.step);
    } else if l.StopPool? {
      JudgedKept(s, Apply(s, l));
    } else if PoolStepOf(s, l).None? {
      JudgedQuiet(s, l);
    } else {
      JudgedInTask(s, l);
    }
  }

  // ---------------------------------------------------------------- what cancelling does

  /** Request i, of token t, was cancelled before its worker looked, and nobody has looked
      since without seeing it. */
  ghost predicate Doomed(s: State, i: nat, t: nat) {
    && t < |s.flags| && t < |s.owners| && s.owners[t] == i && s.flags[t]
    && (i in s.verdicts ==> s.verdicts[i])
  }

  ghost predicate FlagsUp(before: seq<bool>, after: seq<bool>) {
    |before| <= |after| && forall k | 0 <= k < |before| && before[k] :: after[k]
  }

  /** Flags stay up, and only the check gives a verdict. */
  lemma FlagsReadThread(s: State, l: Label)
    requires Enabled(s, l) && IsReadThread(l)
    ensures FlagsUp(s.flags, Apply(s, l).flags)
    ensures !l.CancelToken? ==> s.flags <= Apply(s, l).flags
  {
    match l
    case Read(_) =>
    case StopReading =>
    case SendAnswer =>
    case EndInline(_, _) =>
    case StoreToken =>
    case SubmitJob =>
    case CancelToken =>
    case LookUpCall =>
    case StopSync =>
    case JoinSync =>
    case StopPool =>
    case JoinPool =>
  }

  lemma FlagsOthers(s: State, l: Label)
    requires Enabled(s, l) && !IsReadThread(l)
    ensures FlagsUp(s.flags, Apply(s, l).flags)
    ensures !l.CancelOwn? ==> s.flags == Apply(s, l).flags
    ensures !l.CheckToken? ==> Apply(s, l).verdicts == s.verdicts
  {
  }

  lemma OwnersStay(s: State, l: Label)
    requires Enabled(s, l)
    ensures s.owners <= Apply(s, l).owners
  {
    if !l.StoreToken? && !l.SubmitJob? {
      KeepsOwners(s, l);
    }
  }

  lemma DoomedStep(s: State, l: Label, i: nat, t: nat)
    requires Orderly(s) && TokensOwned(s) && Doomed(s, i, t) && Enabled(s, l)
    ensures Doomed(Apply(s, l), i, t)
  {
    OwnersStay(s, l);
    if IsReadThread(l) {
      FlagsReadThread(s, l);
      KeepsOthers(s, l);
    } else {
      FlagsOthers(s, l);
      if l.CheckToken? {
        DoomedCheck(s, l.w, i, t);
      }
    }
  }

  lemma DoomedCheck(s: State, w: nat, i: nat, t: nat)
    requires Orderly(s) && TokensOwned(s) && Doomed(s, i, t) && Enabled(s, CheckToken(w))
    ensures var v := CheckTokenStep(s, w).verdicts; i in v ==> v[i]
  {
    var job := s.pool.workers[w].task;
    RunningStarted(s.pool, w);
    assert TokenOk(s.owners, job);
    if job.index == i {
      OwnerUnique(s, job.token, t);
    }
  }

  /** Such a request never enters its handler, and any reply to it says it was cancelled. */
  lemma DoomedRefused(s: State, i: nat, t: nat)
    requires Orderly(s) && TokensOwned(s) && Judged(s) && Doomed(s, i, t)
    requires i < |s.read| && DispositionAt(s.handlers, s.read, i).RunAsync?
    ensures i !in s.entered
    ensures forall k | 0 <= k < |s.sent| && s.sent[k].InReply? && s.sent[k].index == i && s.sent[k].frame.ReplyFrame? ::
      s.sent[k].frame.reply == CANCELLED
  {
    assert forall k | 0 <= k < |s.entered| :: s.entered[k] != i;
    forall k | 0 <= k < |s.sent| && s.sent[k].InReply? && s.sent[k].index == i && s.sent[k].frame.ReplyFrame?
      ensures s.sent[k].frame.reply == CANCELLED
    {
      assert SentOk(s.handlers, s.read, s.verdicts, s.sent[k]);
    }
  }

  /** A flag is raised only by a cancellation that finds the token in the map under its id, or
      by the request that holds it. */
  lemma RaisedBy(s: State, l: Label, t: nat)
    requires Enabled(s, l) && t < |s.flags| && !s.flags[t] && t < |Apply(s, l).flags| && Apply(s, l).flags[t]
    ensures (l.CancelToken? && s.pc.target in s.tokens && s.tokens[s.pc.target] == t)
         || (l.CancelOwn? && s.pool.workers[l.w].task.token == t)
  {
    if IsReadThread(l) {
      FlagsReadThread(s, l);
    } else {
      FlagsOthers(s, l);
    }
  }
}
