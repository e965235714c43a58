/** The document store is always a serial replay of the synchronisation notifications. */
module SerialReplay {
  import opened Options
  import opened Protocol
  import opened Unicode
  import opened DocumentStore
  import opened Dispatch
  import opened Server
  import opened Control
  import P = ThreadPool

  function OpOf(job: Job): DocumentOp {
    if job.NotifyJob? then DocumentOpOf(job.name, job.params) else Nothing
  }

  function OpsOf(jobs: seq<Job>): seq<DocumentOp> {
    seq(|jobs|, i requires 0 <= i < |jobs| => OpOf(jobs[i]))
  }

  /** The synchronisation jobs whose handler has run. */
  function Applied(p: JobPool): seq<Job>
    requires |p.workers| == 1
  {
    p.finished + if p.workers[0].Running? && !p.workers[0].phase.Start? then [p.workers[0].task] else []
  }

  function PcOps(pc: ReadPc): seq<DocumentOp> {
    if pc.SubmittingSync? then [OpOf(pc.job)] else []
  }

  predicate StartOrDone(w: P.Worker<Job, Phase>) {
    w.Running? ==> w.phase.Start? || w.phase.Done?
  }

  /** Jobs are queued as the trace says; the store is the replay of those that have run. */
  ghost predicate Replayed(s: State) {
    && |s.sync.workers| == 1
    && StartOrDone(s.sync.workers[0])
    && OpsOf(s.sync.accepted) + PcOps(s.pc) == SyncOps(s.handlers, s.read)
    && s.documents == Replay(OpsOf(Applied(s.sync)), s.encoding)
    && (s.pc.Inline? && s.pc.name == Initialize ==> SyncOps(s.handlers, s.read) == [])
  }

  lemma InitReplayed(h: Handlers, numWorkers: nat)
    ensures Replayed(Init(h, numWorkers))
  {
  }

  /** With one worker, what has run is a prefix of what was accepted. */
  lemma AppliedPrefix(p: JobPool)
    requires P.Inv(p) && |p.workers| == 1
    ensures Applied(p) <= p.accepted
    ensures P.AllExited(p) ==> Applied(p) == p.accepted
  {
    assert Applied(p) <= p.started <= p.accepted;
    if P.AllExited(p) {
      P.AllExitedDrained(p);
    }
  }

  /** A message is queued for the serial executor exactly when the trace counts it. */
  lemma ReadOps(h: Handlers, l: ServerState, index: nat, m: Message)
    ensures var d := Classify(l, h, m);
      && PcOps(AfterRead(d, index, m)) == (if d.QueueSync? then [DocumentOpOf(m.name, m.params)] else [])
      && (AfterRead(d, index, m).Inline? ==>
            d.RunInline? && (AfterRead(d, index, m).name == Initialize ==> l == Uninitialized))
  {
  }

  lemma ReplayedRead(s: State, m: Message)
    requires Orderly(s) && Replayed(s) && Enabled(s, Read(m))
    ensures Replayed(Apply(s, Read(m)))
  {
    var t := ReadStep(s, m);
    assert t.read[..|s.read|] == s.read;
    UninitializedTrace(s.handlers, s.read);
    ReadOps(s.handlers, s.lifecycle, |s.read|, m);
    assert OpsOf(s.sync.accepted) + PcOps(s.pc) == OpsOf(s.sync.accepted);
  }

  lemma OpsAppend(jobs: seq<Job>, job: Job)
    ensures OpsOf(jobs + [job]) == OpsOf(jobs) + [OpOf(job)]
  {
  }

  lemma ReplayedSubmitSync(s: State)
    requires Replayed(s) && s.pc.SubmittingSync? && !s.sync.stopping
    ensures Replayed(Apply(s, SubmitJob))
  {
    OpsAppend(s.sync.accepted, s.pc.job);
    var ops := OpsOf(s.sync.accepted) + [OpOf(s.pc.job)];
    assert ops + [] == ops;
  }

  lemma NothingApplied(s: State)
    requires Orderly(s) && Replayed(s) && s.pc.Inline? && s.pc.name == Initialize
    ensures OpsOf(Applied(s.sync)) == []
  {
    AppliedPrefix(s.sync);
    assert |OpsOf(s.sync.accepted)| == |s.sync.accepted| == 0;
  }

  lemma ReplayedInline(s: State, outcome: Outcome, encoding: Option<PositionEncoding>)
    requires Orderly(s) && Replayed(s) && s.pc.Inline?
    ensures Replayed(Apply(s, EndInline(outcome, encoding)))
  {
    var t := EndInlineStep(s, outcome, encoding);
    if s.pc.name == Initialize {
      NothingApplied(s);
    }
    assert t.documents == Replay(OpsOf(Applied(t.sync)), t.encoding);
  }

  /** Stepping the queue applies nothing. */
  lemma AppliedOwnStep(p: JobPool, step: JobStep)
    requires OwnStep(p, step) && |p.workers| == 1
    ensures var q := P.Apply(p, step);
      && |q.workers| == 1 && (StartOrDone(p.workers[0]) ==> StartOrDone(q.workers[0]))
      && Applied(q) == Applied(p) && q.accepted == p.accepted
  {
    match step
    case Lock(w, _) => assert p.finished + [] == p.finished;
    case Finish(w) =>
      var q := P.Apply(p, step);
      assert q.finished == p.finished + [p.workers[0].task];
      assert q.finished + [] == q.finished;
    case _ =>
  }

  lemma ReplayAppend(jobs: seq<Job>, job: Job, enc: PositionEncoding)
    ensures Replay(OpsOf(jobs + [job]), enc) == ApplyOp(Replay(OpsOf(jobs), enc), OpOf(job), enc)
  {
    OpsAppend(jobs, job);
    var ops := OpsOf(jobs) + [OpOf(job)];
    assert ops[..|ops| - 1] == OpsOf(jobs);
  }

  lemma RunSyncApplies(s: State)
    requires |s.sync.workers| == 1 && Enabled(s, RunSync)
    ensures var q := RunSyncStep(s).sync;
      && |q.workers| == 1 && Applied(q) == Applied(s.sync) + [s.sync.workers[0].task]
      && q.accepted == s.sync.accepted && StartOrDone(q.workers[0])
  {
  }

  lemma ReplayedRunSync(s: State)
    requires Replayed(s) && Enabled(s, RunSync)
    ensures Replayed(Apply(s, RunSync))
  {
    RunSyncApplies(s);
    ReplayAppend(Applied(s.sync), s.sync.workers[0].task, s.encoding);
  }

  lemma ReplayedKept(s: State, t: State)
    requires Replayed(s) && t.handlers == s.handlers && t.read == s.read && t.encoding == s.encoding
    requires t.documents == s.documents && t.sync.accepted == s.sync.accepted
    requires |t.sync.workers| == 1 && StartOrDone(t.sync.workers[0]) && Applied(t.sync) == Applied(s.sync)
    requires PcOps(t.pc) == PcOps(s.pc) && (t.pc.Inline? ==> t.pc == s.pc)
    ensures Replayed(t)
  {
  }

  /** What a step must leave alone to leave the replay alone. */
  ghost predicate SameForReplay(s: State, t: State) {
    && t.handlers == s.handlers && t.read == s.read && t.encoding == s.encoding && t.documents == s.documents
    && t.sync.accepted == s.sync.accepted && t.sync.finished == s.sync.finished && t.sync.workers == s.sync.workers
    && PcOps(t.pc) == PcOps(s.pc) && (t.pc.Inline? ==> t.pc == s.pc)
  }

  lemma QuietReadThread(s: State, l: Label)
    requires Enabled(s, l) && IsReadThread(l) && !l.Read? && !l.EndInline?
    requires l.SubmitJob? ==> s.pc.Submitting?
    ensures SameForReplay(s, Apply(s, l))
  {
    TraceSame(s, l);
    QuietSync(s, l);
    match l
    case StopReading =>
    case SendAnswer =>
    case StoreToken =>
    case SubmitJob =>
    case CancelToken =>
    case LookUpCall =>
    case StopSync =>
    case JoinSync =>
    case StopPool =>
    case JoinPool =>
  }

  lemma QuietSync(s: State, l: Label)
    requires Enabled(s, l) && IsReadThread(l) && (l.SubmitJob? ==> s.pc.Submitting?)
    ensures var p, q := s.sync, Apply(s, l).sync;
      q.accepted == p.accepted && q.finished == p.finished && q.workers == p.workers
    ensures Apply(s, l).documents == s.documents
  {
    match l
    case Read(_) =>
    case StopReading =>
    case SendAnswer =>
    case EndInline(_, _) =>
    case StoreToken =>
    case SubmitJob =>
    case CancelToken =>
    case LookUpCall =>
    case StopSync =>
    case JoinSync =>
    case StopPool =>
    case JoinPool =>
  }

  lemma QuietOthers(s: State, l: Label)
    requires Enabled(s, l) && !IsReadThread(l) && !l.SyncStep? && !l.RunSync?
    ensures SameForReplay(s, Apply(s, l))
  {
  }

  lemma ReplayedSync(s: State, l: Label)
    requires Orderly(s) && Replayed(s) && Enabled(s, l)
    requires l.SyncStep? || l.RunSync? || (l.SubmitJob? && s.pc.SubmittingSync?)
    ensures Replayed(Apply(s, l))
  {
    match l
    case SyncStep(step) =>
      AppliedOwnStep(s.sync, step);
      ReplayedKept(s, s.(sync := P.Apply(s.sync, step)));
    case RunSync => ReplayedRunSync(s);
    case SubmitJob => ReplayedSubmitSync(s);
  }

  lemma ReplayedOthers(s: State, l: Label)
    requires Orderly(s) && Replayed(s) && Enabled(s, l) && !l.SyncStep? && !l.RunSync?
    requires l.SubmitJob? ==> s.pc.Submitting?
    ensures Replayed(Apply(s, l))
  {
    if l.Read? {
      ReplayedRead(s, l.message);
    } else if l.EndInline? {
      ReplayedInline(s, l.outcome, l.encoding);
    } else {
      ReplayedQuiet(s, l);
    }
  }

  lemma ReplayedQuiet(s: State, l: Label)
    requires Replayed(s) && Enabled(s, l) && !l.Read? && !l.EndInline? && !l.SyncStep? && !l.RunSync?
    requires l.SubmitJob? ==> s.pc.Submitting?
    ensures Replayed(Apply(s, l))
  {
    if IsReadThread(l) {
      QuietReadThread(s, l);
    } else {
      QuietOthers(s, l);
    }
    ReplayedKept(s, Apply(s, l));
  }

  lemma ReplayedStep(s: State, l: Label)
    requires Orderly(s) && Replayed(s) && Enabled(s, l)
    ensures Replayed(Apply(s, l))
  {
    if l.SyncStep? || l.RunSync? || (l.SubmitJob? && s.pc.SubmittingSync?) {
      ReplayedSync(s, l);
    } else {
      ReplayedOthers(s, l);
    }
  }

  /** Once a synchronisation notification counts, the position encoding is settled. */
  lemma EncodingSettled(s: State, l: Label)
    requires Replayed(s) && Enabled(s, l) && SyncOps(s.handlers, s.read) != []
    ensures Apply(s, l).encoding == s.encoding
    ensures SyncOps(s.handlers, s.read) <= SyncOps(Apply(s, l).handlers, Apply(s, l).read)
  {
    if l.Read? {
      assert (s.read + [l.message])[..|s.read|] == s.read;
    } else if l.EndInline? {
      assert s.pc.name != Initialize;
    } else if IsReadThread(l) {
      TraceSame(s, l);
    } else {
      KeepsReadThread(s, l);
    }
  }

  lemma TraceSame(s: State, l: Label)
    requires Enabled(s, l) && IsReadThread(l) && !l.Read? && !l.EndInline?
    ensures Apply(s, l).encoding == s.encoding && Apply(s, l).handlers == s.handlers && Apply(s, l).read == s.read
  {
    match l
    case SubmitJob =>
    case LookUpCall =>
    case StoreToken =>
    case CancelToken =>
    case SendAnswer =>
    case StopReading =>
    case StopSync =>
    case JoinSync =>
    case StopPool =>
    case JoinPool =>
  }
}
