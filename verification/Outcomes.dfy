/** How a handler ends decides the answer to its request, and nothing else does. */
module Outcomes {
  import opened Options
  import opened Protocol
  import opened Unicode
  import opened Dispatch
  import opened Server
  import opened Control
  import opened Cancellation
  import P = ThreadPool

  type Ended = map<nat, Outcome>

  // ---------------------------------------------------------------- the invariant

  ghost predicate PcEnded(h: Handlers, read: seq<Message>, ended: Ended, pc: ReadPc) {
    match pc
    case Answering(i, _, reply) =>
      && (i in ended ==> reply == ReplyOf(ended[i]))
      && (i < |read| && DispositionAt(h, read, i).RunInline? ==> i in ended)
    case Inline(i, _, _) => i !in ended
    case Storing(i, _, _, _) => i !in ended
    case Submitting(job) => job.RequestJob? ==> job.index !in ended
    case _ => true
  }

  /** A request's handler has ended when its worker replies, unless the worker refused it. */
  ghost predicate PhaseEnded(ended: Ended, verdicts: map<nat, bool>, job: Job, phase: Phase) {
    job.RequestJob? ==>
      match phase
      case Start => job.index !in ended
      case InHandler => job.index !in ended
      case Replying(reply) =>
        job.index in verdicts
        && if verdicts[job.index] then job.index !in ended
           else job.index in ended && reply == ReplyOf(ended[job.index])
      case _ => true
  }

  ghost predicate SentEnded(h: Handlers, read: seq<Message>, ended: Ended, verdicts: map<nat, bool>, x: Sent) {
    x.InReply? && x.frame.ReplyFrame? ==>
      && (x.index in ended ==> x.frame.reply == ReplyOf(ended[x.index]))
      && (x.index in verdicts && !verdicts[x.index] ==> x.index in ended)
      && (x.index < |read| && DispositionAt(h, read, x.index).RunInline? ==> x.index in ended)
  }

  ghost predicate WorkersEnded(ended: Ended, verdicts: map<nat, bool>, p: JobPool) {
    && (forall w | 0 <= w < |p.workers| && p.workers[w].Running? ::
          PhaseEnded(ended, verdicts, p.workers[w].task, p.workers[w].phase))
    && (forall k | 0 <= k < |p.tasks| && p.tasks[k].RequestJob? :: p.tasks[k].index !in ended)
  }

  /** Only handlers that were to run have ended. */
  ghost predicate AllRun(h: Handlers, read: seq<Message>, ended: Ended) {
    forall i | i in ended ::
      i < |read| && (DispositionAt(h, read, i).RunInline? || DispositionAt(h, read, i).RunAsync?)
  }

  ghost predicate AllSentEnded(s: State) {
    forall k | 0 <= k < |s.sent| :: SentEnded(s.handlers, s.read, s.log.ended, s.verdicts, s.sent[k])
  }

  ghost predicate EndedOk(s: State) {
    && AllRun(s.handlers, s.read, s.log.ended)
    && PcEnded(s.handlers, s.read, s.log.ended, s.pc)
    && WorkersEnded(s.log.ended, s.verdicts, s.pool)
    && AllSentEnded(s)
  }

  lemma InitEndedOk(h: Handlers, numWorkers: nat)
    ensures EndedOk(Init(h, numWorkers)) && EncodingOk(Init(h, numWorkers))
  {
  }

  // ---------------------------------------------------------------- pools

  lemma EndedOwnStep(ended: Ended, verdicts: map<nat, bool>, p: JobPool, step: JobStep)
    requires WorkersEnded(ended, verdicts, p) && OwnStep(p, step)
    ensures WorkersEnded(ended, verdicts, P.Apply(p, step))
  {
  }

  lemma EndedPush(ended: Ended, verdicts: map<nat, bool>, p: JobPool, job: Job)
    requires WorkersEnded(ended, verdicts, p) && (job.RequestJob? ==> job.index !in ended)
    ensures WorkersEnded(ended, verdicts, P.Apply(p, P.Submit(job)))
  {
  }

  lemma EndedAdvance(ended: Ended, verdicts: map<nat, bool>, p: JobPool, w: nat, phase: Phase)
    requires WorkersEnded(ended, verdicts, p) && w < |p.workers| && p.workers[w].Running?
    requires PhaseEnded(ended, verdicts, p.workers[w].task, phase)
    ensures WorkersEnded(ended, verdicts, Advanced(p, w, phase))
  {
  }

  /** The check concerns this worker's request alone. */
  lemma EndedVerdict(ended: Ended, verdicts: map<nat, bool>, p: JobPool, w: nat, seen: bool)
    requires P.Inv(p) && Increasing(p.accepted) && WorkersEnded(ended, verdicts, p)
    requires w < |p.workers| && p.workers[w].Running? && p.workers[w].phase == Start && p.workers[w].task.RequestJob?
    ensures WorkersEnded(ended, verdicts[p.workers[w].task.index := seen],
                         Advanced(p, w, if seen then Replying(CANCELLED) else InHandler))
  {
    var i, q := p.workers[w].task.index, Advanced(p, w, if seen then Replying(CANCELLED) else InHandler);
    forall v | 0 <= v < |q.workers| && q.workers[v].Running?
      ensures PhaseEnded(ended, verdicts[i := seen], q.workers[v].task, q.workers[v].phase)
    {
      assert PhaseEnded(ended, verdicts, p.workers[v].task, p.workers[v].phase);
      if v != w {
        RunningDistinct(p, v, w);
      }
    }
  }

  /** So does the end of its handler. */
  lemma EndedHandler(ended: Ended, verdicts: map<nat, bool>, p: JobPool, w: nat, outcome: Outcome)
    requires P.Inv(p) && Increasing(p.accepted) && WorkersEnded(ended, verdicts, p)
    requires w < |p.workers| && p.workers[w].Running?
    requires p.workers[w].phase == InHandler && p.workers[w].task.RequestJob?
    requires p.workers[w].task.index in verdicts && !verdicts[p.workers[w].task.index]
    ensures WorkersEnded(ended[p.workers[w].task.index := outcome], verdicts,
                         Advanced(p, w, Replying(ReplyOf(outcome))))
  {
    var i, q := p.workers[w].task.index, Advanced(p, w, Replying(ReplyOf(outcome)));
    forall v | 0 <= v < |q.workers| && q.workers[v].Running?
      ensures PhaseEnded(ended[i := outcome], verdicts, q.workers[v].task, q.workers[v].phase)
    {
      assert PhaseEnded(ended, verdicts, p.workers[v].task, p.workers[v].phase);
      if v != w {
        RunningDistinct(p, v, w);
      }
    }
    forall k | 0 <= k < |q.tasks| ensures q.tasks[k].index != i {
      QueuedNotRunning(p, w, k);
    }
  }

  /** The end of a handler on the read thread concerns no job. */
  lemma EndedElsewhere(ended: Ended, verdicts: map<nat, bool>, p: JobPool, i: nat, outcome: Outcome)
    requires P.Inv(p) && WorkersEnded(ended, verdicts, p) && forall k | 0 <= k < |p.accepted| :: p.accepted[k].index < i
    ensures WorkersEnded(ended[i := outcome], verdicts, p)
  {
    forall w | 0 <= w < |p.workers| && p.workers[w].Running?
      ensures PhaseEnded(ended[i := outcome], verdicts, p.workers[w].task, p.workers[w].phase)
    {
      assert PhaseEnded(ended, verdicts, p.workers[w].task, p.workers[w].phase);
      RunningStarted(p, w);
    }
    forall k | 0 <= k < |p.tasks| ensures p.tasks[k].index < i {
      assert p.accepted[|p.started| + k] == p.tasks[k];
    }
  }

  // ---------------------------------------------------------------- steps

  /** Nothing ends, and what is sent is in order. */
  lemma EndedKept(s: State, t: State)
    requires EndedOk(s) && t.handlers == s.handlers && t.read == s.read && t.log.ended == s.log.ended
    requires t.verdicts == s.verdicts && PcEnded(t.handlers, t.read, t.log.ended, t.pc)
    requires WorkersEnded(t.log.ended, t.verdicts, t.pool) && s.sent <= t.sent
    requires forall k | |s.sent| <= k < |t.sent| ::
      SentEnded(t.handlers, t.read, t.log.ended, t.verdicts, t.sent[k])
    ensures EndedOk(t)
  {
    forall k | 0 <= k < |t.sent| ensures SentEnded(t.handlers, t.read, t.log.ended, t.verdicts, t.sent[k]) {
      if k < |s.sent| {
        assert t.sent[k] == s.sent[k];
      }
    }
  }

  lemma EndedRead(s: State, m: Message)
    requires Orderly(s) && Judged(s) && EndedOk(s) && Enabled(s, Read(m))
    ensures EndedOk(Apply(s, Read(m)))
  {
    var t := ReadStep(s, m);
    AllRunRead(s, m);
    EndedReadSent(s, m);
    AfterReadEnded(s.handlers, t.read, s.log.ended, Classify(s.lifecycle, s.handlers, m), m);
  }

  lemma AfterReadEnded(h: Handlers, read: seq<Message>, ended: Ended, d: Disposition, m: Message)
    requires read != [] && |read| - 1 !in ended && DispositionAt(h, read, |read| - 1) == d
    ensures PcEnded(h, read, ended, AfterRead(d, |read| - 1, m))
  {
  }

  lemma AllRunRead(s: State, m: Message)
    requires AllRun(s.handlers, s.read, s.log.ended)
    ensures AllRun(s.handlers, s.read + [m], s.log.ended) && |s.read| !in s.log.ended
  {
    forall i | i in s.log.ended
      ensures DispositionAt(s.handlers, s.read + [m], i) == DispositionAt(s.handlers, s.read, i)
    {
      DispositionStable(s.handlers, s.read, m, i);
    }
  }

  lemma EndedReadSent(s: State, m: Message)
    requires Judged(s) && AllSentEnded(s)
    ensures forall k | 0 <= k < |s.sent| ::
      SentEnded(s.handlers, s.read + [m], s.log.ended, s.verdicts, s.sent[k])
  {
    forall k | 0 <= k < |s.sent| ensures SentEnded(s.handlers, s.read + [m], s.log.ended, s.verdicts, s.sent[k]) {
      assert SentEnded(s.handlers, s.read, s.log.ended, s.verdicts, s.sent[k]);
      assert SentOk(s.handlers, s.read, s.verdicts, s.sent[k]);
      if s.sent[k].InReply? {
        DispositionStable(s.handlers, s.read, m, s.sent[k].index);
      }
    }
  }

  lemma EndedAnswer(s: State)
    requires Orderly(s) && Judged(s) && EndedOk(s) && Enabled(s, SendAnswer)
    ensures EndedOk(Apply(s, SendAnswer))
  {
    var t := SendAnswerStep(s);
    assert SentEnded(t.handlers, t.read, t.log.ended, t.verdicts, t.sent[|s.sent|]);
    EndedKept(s, t);
  }

  lemma EndedInline(s: State, outcome: Outcome, encoding: Option<PositionEncoding>)
    requires Orderly(s) && Judged(s) && EndedOk(s) && s.pc.Inline?
    ensures EndedOk(Apply(s, EndInline(outcome, encoding)))
  {
    var t, i := EndInlineStep(s, outcome, encoding), s.pc.index;
    EndedElsewhere(s.log.ended, s.verdicts, s.pool, i, outcome);
    forall k | 0 <= k < |t.sent| ensures SentEnded(t.handlers, t.read, t.log.ended, t.verdicts, t.sent[k]) {
      assert SentEnded(s.handlers, s.read, s.log.ended, s.verdicts, s.sent[k]);
    }
  }

  lemma EndedSubmit(s: State)
    requires EndedOk(s) && Enabled(s, SubmitJob)
    ensures EndedOk(Apply(s, SubmitJob))
  {
    if s.pc.Submitting? {
      EndedPush(s.log.ended, s.verdicts, s.pool, s.pc.job);
    }
    EndedKept(s, SubmitStep(s));
  }

  lemma EndedStore(s: State)
    requires EndedOk(s) && s.pc.Storing?
    ensures EndedOk(Apply(s, StoreToken))
  {
    EndedKept(s, StoreTokenStep(s));
  }

  lemma EndedCheck(s: State, w: nat)
    requires Orderly(s) && Judged(s) && EndedOk(s) && Enabled(s, CheckToken(w))
    ensures EndedOk(Apply(s, CheckToken(w)))
  {
    var t, job := CheckTokenStep(s, w), s.pool.workers[w].task;
    RunningStarted(s.pool, w);
    assert JobOk(s.handlers, s.read, job) && PhaseOk(s.verdicts, job, Start);
    EndedVerdict(s.log.ended, s.verdicts, s.pool, w, s.flags[job.token]);
    forall k | 0 <= k < |t.sent| ensures SentEnded(t.handlers, t.read, t.log.ended, t.verdicts, t.sent[k]) {
      assert SentEnded(s.handlers, s.read, s.log.ended, s.verdicts, s.sent[k]);
      assert SentOk(s.handlers, s.read, s.verdicts, s.sent[k]);
    }
  }

  lemma EndedEnd(s: State, w: nat, outcome: Outcome)
    requires Orderly(s) && Judged(s) && EndedOk(s) && Enabled(s, EndHandler(w, outcome))
    ensures EndedOk(Apply(s, EndHandler(w, outcome)))
  {
    var t, job := EndHandlerStep(s, w, outcome), s.pool.workers[w].task;
    RunningStarted(s.pool, w);
    assert JobOk(s.handlers, s.read, job);
    assert PhaseOk(s.verdicts, job, InHandler) && PhaseEnded(s.log.ended, s.verdicts, job, InHandler);
    EndedHandler(s.log.ended, s.verdicts, s.pool, w, outcome);
    forall k | 0 <= k < |t.sent| ensures SentEnded(t.handlers, t.read, t.log.ended, t.verdicts, t.sent[k]) {
      assert SentEnded(s.handlers, s.read, s.log.ended, s.verdicts, s.sent[k]);
    }
  }

  lemma EndedReply(s: State, w: nat)
    requires Orderly(s) && EndedOk(s) && Enabled(s, SendReply(w))
    ensures EndedOk(Apply(s, SendReply(w)))
  {
    var t, job := SendReplyStep(s, w), s.pool.workers[w].task;
    RunningStarted(s.pool, w);
    assert JobOk(s.handlers, s.read, job) && PhaseEnded(s.log.ended, s.verdicts, job, s.pool.workers[w].phase);
    EndedAdvance(s.log.ended, s.verdicts, s.pool, w, Erasing);
    assert SentEnded(t.handlers, t.read, t.log.ended, t.verdicts, t.sent[|s.sent|]);
    EndedKept(s, t);
  }

  lemma EndedDone(s: State, l: Label)
    requires EndedOk(s) && Enabled(s, l) && (l.EraseToken? || l.RunTask?)
    ensures EndedOk(Apply(s, l))
  {
    EndedAdvance(s.log.ended, s.verdicts, s.pool, l.w, Done);
    EndedKept(s, Apply(s, l));
  }

  lemma EndedPoolStep(s: State, step: JobStep)
    requires EndedOk(s) && OwnStep(s.pool, step)
    ensures EndedOk(Apply(s, PoolStep(step)))
  {
    EndedOwnStep(s.log.ended, s.verdicts, s.pool, step);
    EndedKept(s, Apply(s, PoolStep(step)));
  }

  ghost predicate QuietEnded(s: State, t: State) {
    && t.handlers == s.handlers && t.read == s.read && t.log == s.log && t.verdicts == s.verdicts
    && t.pool.workers == s.pool.workers && t.pool.tasks == s.pool.tasks
    && (t.pc == s.pc || t.pc == Ready || t.pc.Submitting? || Stopped(t.pc))
    && (t.pc.Submitting? ==> t.pc == s.pc || !t.pc.job.RequestJob?)
  }

  predicate Stopped(pc: ReadPc) {
    pc.StoppingSync? || pc.JoiningSync? || pc.StoppingPool? || pc.JoiningPool? || pc.Returned?
  }

  lemma QuietReadThread(s: State, l: Label)
    requires Enabled(s, l) && (l.CancelToken? || l.LookUpCall?)
    ensures QuietEnded(s, Apply(s, l)) && Apply(s, l).sent == s.sent
  {
    if l.CancelToken? {
      assert Apply(s, l) == CancelStep(s);
    } else {
      assert Apply(s, l) == LookUpStep(s);
    }
  }

  lemma QuietStopping(s: State, l: Label)
    requires Enabled(s, l) && (l.StopReading? || l.StopSync? || l.JoinSync? || l.StopPool? || l.JoinPool?)
    ensures QuietEnded(s, Apply(s, l)) && Apply(s, l).sent == s.sent
  {
    match l
    case StopReading =>
    case StopSync =>
    case JoinSync =>
    case StopPool =>
    case JoinPool =>
  }

  lemma QuietOthers(s: State, l: Label)
    requires Enabled(s, l) && (l.SyncStep? || l.CancelOwn? || l.RunSync? || l.BeginCall? || l.RegisterCall?)
    ensures QuietEnded(s, Apply(s, l)) && Apply(s, l).sent == s.sent
  {
    match l
    case SyncStep(_) =>
    case CancelOwn(_) =>
    case RunSync =>
    case BeginCall =>
    case RegisterCall(_) =>
  }

  lemma QuietSenders(s: State, l: Label)
    requires Enabled(s, l) && (l.SendCall? || l.SendNotice?)
    ensures QuietEnded(s, Apply(s, l)) && s.sent <= Apply(s, l).sent
    ensures forall k | |s.sent| <= k < |Apply(s, l).sent| :: Apply(s, l).sent[k].Unasked?
  {
  }

  lemma EndedQuiet(s: State, t: State)
    requires EndedOk(s) && QuietEnded(s, t)
    requires s.sent <= t.sent && forall k | |s.sent| <= k < |t.sent| :: t.sent[k].Unasked?
    ensures EndedOk(t)
  {
    EndedKept(s, t);
  }

  lemma EndedReadThread(s: State, l: Label)
    requires Orderly(s) && Judged(s) && EndedOk(s) && Enabled(s, l) && IsReadThread(l)
    ensures EndedOk(Apply(s, l))
  {
    if l.Read? {
      EndedRead(s, l.message);
    } else if l.SendAnswer? {
      EndedAnswer(s);
    } else if l.EndInline? {
      EndedInline(s, l.outcome, l.encoding);
    } else if l.SubmitJob? {
      EndedSubmit(s);
    } else if l.StoreToken? {
      EndedStore(s);
    } else {
      if l.CancelToken? || l.LookUpCall? {
        QuietReadThread(s, l);
      } else {
        QuietStopping(s, l);
      }
      EndedQuiet(s, Apply(s, l));
    }
  }

  lemma EndedOthers(s: State, l: Label)
    requires Orderly(s) && Judged(s) && EndedOk(s) && Enabled(s, l) && !IsReadThread(l)
    ensures EndedOk(Apply(s, l))
  {
    if l.CheckToken? {
      EndedCheck(s, l.w);
    } else if l.EndHandler? {
      EndedEnd(s, l.w, l.outcome);
    } else if l.SendReply? {
      EndedReply(s, l.w);
    } else if l.EraseToken? || l.RunTask? {
      EndedDone(s, l);
    } else if l.PoolStep? {
      EndedPoolStep(s, l.step);
    } else {
      if l.SendCall? || l.SendNotice? {
        QuietSenders(s, l);
      } else {
        QuietOthers(s, l);
      }
      EndedQuiet(s, Apply(s, l));
    }
  }

  lemma EndedOkStep(s: State, l: Label)
    requires Orderly(s) && Judged(s) && EndedOk(s) && Enabled(s, l)
    ensures EndedOk(Apply(s, l))
  {
    if IsReadThread(l) {
      EndedReadThread(s, l);
    } else {
      EndedOthers(s, l);
    }
  }

  // ---------------------------------------------------------------- the position encoding

  /** The handler of `initialize` request i returned a result with this encoding. */
  ghost predicate Chose(s: State, i: nat, enc: PositionEncoding) {
    && i < |s.read| && IsRequestFor(s.read[i], Initialize)
    && i in s.log.ended && s.log.ended[i].Returns? && i in s.log.offered && s.log.offered[i] == Some(enc)
  }

  /** The encoding is the one chosen, and UTF-16 if none was. */
  ghost predicate EncodingOk(s: State) {
    && (forall i, enc | Chose(s, i, enc) :: s.encoding == enc)
    && (s.encoding == UTF16 || exists i :: Chose(s, i, s.encoding))
    && (forall i | i in s.log.offered :: i in s.log.ended)
  }

  lemma ChoiceKept(s: State, t: State)
    requires EncodingOk(s) && EndedOk(s) && t.log == s.log && t.encoding == s.encoding && s.read <= t.read
    ensures EncodingOk(t)
  {
    forall i: nat, enc ensures Chose(t, i, enc) <==> Chose(s, i, enc) {
      assert i in s.log.ended ==> i < |s.read|;
    }
  }

  /** Only the first `initialize` request is run, so nothing was chosen before it. */
  lemma NothingChosen(s: State)
    requires Orderly(s) && EndedOk(s) && s.pc.Inline? && s.pc.name == Initialize
    ensures forall i, enc :: !Chose(s, i, enc)
  {
    var last := |s.read| - 1;
    InitializeFirst(s.handlers, s.read, last);
  }

  lemma ChoiceInline(s: State, outcome: Outcome, encoding: Option<PositionEncoding>)
    requires Orderly(s) && EndedOk(s) && EncodingOk(s) && s.pc.Inline?
    ensures EncodingOk(Apply(s, EndInline(outcome, encoding)))
  {
    var t, last := EndInlineStep(s, outcome, encoding), |s.read| - 1;
    if s.pc.name == Initialize {
      NothingChosen(s);
      assert IsRequestFor(s.read[last], Initialize);
      forall i: nat, enc ensures Chose(t, i, enc) <==> i == last && outcome.Returns? && encoding == Some(enc) {
        assert !Chose(s, i, enc);
      }
      if outcome.Returns? && encoding.Some? {
        assert Chose(t, last, t.encoding);
      }
    } else {
      forall i: nat, enc ensures Chose(t, i, enc) <==> Chose(s, i, enc) {
      }
    }
  }

  lemma ChoiceHandler(s: State, w: nat, outcome: Outcome)
    requires EndedOk(s) && EncodingOk(s) && Enabled(s, EndHandler(w, outcome))
    ensures EncodingOk(Apply(s, EndHandler(w, outcome)))
  {
    var t, job := EndHandlerStep(s, w, outcome), s.pool.workers[w].task;
    assert PhaseEnded(s.log.ended, s.verdicts, job, InHandler);
    forall i: nat, enc ensures Chose(t, i, enc) <==> Chose(s, i, enc) {
    }
  }

  lemma ChoiceCheck(s: State, w: nat)
    requires EndedOk(s) && EncodingOk(s) && Enabled(s, CheckToken(w))
    ensures EncodingOk(Apply(s, CheckToken(w)))
  {
    forall i: nat, enc ensures Chose(CheckTokenStep(s, w), i, enc) <==> Chose(s, i, enc) {
    }
  }

  lemma SameChoiceReadThread(s: State, l: Label)
    requires Enabled(s, l) && IsReadThread(l) && !l.EndInline?
    ensures var t := Apply(s, l); t.log == s.log && t.encoding == s.encoding && s.read <= t.read
  {
    if l.Read? {
    } else {
      match l
      case StopReading =>
      case SendAnswer =>
      case StoreToken =>
      case SubmitJob =>
      case CancelToken =>
      case LookUpCall =>
      case StopSync =>
      case JoinSync =>
      case StopPool =>
      case JoinPool =>
    }
  }

  lemma SameLogOthers(s: State, l: Label)
    requires Enabled(s, l) && !IsReadThread(l) && !l.EndHandler? && !l.CheckToken?
    ensures Apply(s, l).log == s.log
  {
  }

  lemma EncodingOkStep(s: State, l: Label)
    requires Orderly(s) && EndedOk(s) && EncodingOk(s) && Enabled(s, l)
    ensures EncodingOk(Apply(s, l))
  {
    if l.EndInline? {
      ChoiceInline(s, l.outcome, l.encoding);
    } else if l.EndHandler? {
      ChoiceHandler(s, l.w, l.outcome);
    } else if l.CheckToken? {
      ChoiceCheck(s, l.w);
    } else if IsReadThread(l) {
      SameChoiceReadThread(s, l);
      ChoiceKept(s, Apply(s, l));
    } else {
      KeepsReadThread(s, l);
      SameLogOthers(s, l);
      ChoiceKept(s, Apply(s, l));
    }
  }
}
