/** Jobs are on the right pool, and callbacks get the response to their own call. */
module Jobs {
  import opened Protocol
  import opened Dispatch
  import opened Server
  import opened Control
  import P = ThreadPool

  // ---------------------------------------------------------------- which pool

  ghost predicate Placed(h: Handlers, read: seq<Message>, jobs: seq<Job>, sync: bool) {
    forall k | 0 <= k < |jobs| && jobs[k].NotifyJob? ::
      jobs[k].index < |read| && (DispositionAt(h, read, jobs[k].index).QueueSync? <==> sync)
  }

  ghost predicate PlacedOk(s: State) {
    Placed(s.handlers, s.read, s.pool.accepted, false) && Placed(s.handlers, s.read, s.sync.accepted, true)
  }

  lemma InitPlacedOk(h: Handlers, numWorkers: nat)
    ensures PlacedOk(Init(h, numWorkers)) && CallbacksFit(Init(h, numWorkers))
  {
  }

  lemma PlacedRead(h: Handlers, read: seq<Message>, jobs: seq<Job>, sync: bool, m: Message)
    requires Placed(h, read, jobs, sync)
    ensures Placed(h, read + [m], jobs, sync)
  {
    forall k | 0 <= k < |jobs| && jobs[k].NotifyJob?
      ensures jobs[k].index < |read + [m]| && (DispositionAt(h, read + [m], jobs[k].index).QueueSync? <==> sync)
    {
      DispositionStable(h, read, m, jobs[k].index);
    }
  }

  lemma PlacedPush(h: Handlers, read: seq<Message>, p: JobPool, sync: bool, job: Job)
    requires Placed(h, read, p.accepted, sync) && job.index < |read|
    requires job.NotifyJob? ==> (DispositionAt(h, read, job.index).QueueSync? <==> sync)
    ensures Placed(h, read, P.Apply(p, P.Submit(job)).accepted, sync)
  {
  }

  lemma PlacedSubmit(s: State)
    requires Orderly(s) && PlacedOk(s) && Enabled(s, SubmitJob)
    ensures PlacedOk(Apply(s, SubmitJob))
  {
    var t := SubmitStep(s);
    assert PcOk(s.handlers, s.read, s.pc);
    if s.pc.Submitting? {
      PlacedPush(s.handlers, s.read, s.pool, false, s.pc.job);
    } else {
      PlacedPush(s.handlers, s.read, s.sync, true, s.pc.job);
    }
  }

  /** Only submissions change what the pools have accepted. */
  lemma AcceptedStays(s: State, l: Label)
    requires Enabled(s, l) && !l.SubmitJob?
    ensures Apply(s, l).pool.accepted == s.pool.accepted && Apply(s, l).sync.accepted == s.sync.accepted
  {
    LabelMoves(s, l);
    MovesFields(s.pool, PoolStepOf(s, l), Apply(s, l).pool);
    MovesFields(s.sync, SyncStepOf(s, l), Apply(s, l).sync);
  }

  lemma ReadStays(s: State, l: Label)
    requires Enabled(s, l) && !l.Read?
    ensures Apply(s, l).read == s.read && Apply(s, l).handlers == s.handlers
  {
    if IsReadThread(l) {
      ReadThreadReads(s, l);
    } else {
      KeepsReadThread(s, l);
    }
  }

  lemma ReadThreadReads(s: State, l: Label)
    requires Enabled(s, l) && IsReadThread(l) && !l.Read?
    ensures Apply(s, l).read == s.read && Apply(s, l).handlers == s.handlers
  {
    match l
    case StopReading =>
    case SendAnswer =>
    case EndInline(_, _) =>
    case StoreToken =>
    case SubmitJob =>
    case CancelToken =>
    case LookUpCall =>
    case StopSync =>
    case JoinSync =>
    case StopPool =>
    case JoinPool =>
  }

  lemma PlacedOkStep(s: State, l: Label)
    requires Orderly(s) && PlacedOk(s) && Enabled(s, l)
    ensures PlacedOk(Apply(s, l))
  {
    if l.SubmitJob? {
      PlacedSubmit(s);
    } else {
      AcceptedStays(s, l);
      if l.Read? {
        PlacedRead(s.handlers, s.read, s.pool.accepted, false, l.message);
        PlacedRead(s.handlers, s.read, s.sync.accepted, true, l.message);
      } else {
        ReadStays(s, l);
      }
    }
  }

  // ---------------------------------------------------------------- whose response

  /** A callback's response answers its call. */
  ghost predicate Fits(read: seq<Message>, calls: seq<Call>, job: Job) {
    job.CallbackJob? ==>
      && job.call < |calls| && job.index < |read|
      && read[job.index] == Response(IntId(calls[job.call].id), job.payload, job.isError)
  }

  ghost predicate PendingFits(s: State) {
    forall n | n in s.pending :: s.pending[n] < |s.calls| && s.calls[s.pending[n]].id == n
  }

  ghost predicate CallbacksFit(s: State) {
    && PendingFits(s)
    && (s.pc.Submitting? ==> Fits(s.read, s.calls, s.pc.job))
    && (forall k | 0 <= k < |s.pool.accepted| :: Fits(s.read, s.calls, s.pool.accepted[k]))
  }

  /** Calls keep their ids. */
  ghost predicate SameIds(before: seq<Call>, after: seq<Call>) {
    |before| <= |after| && forall c | 0 <= c < |before| :: after[c].id == before[c].id
  }

  lemma FitsKept(read: seq<Message>, calls: seq<Call>, more: seq<Message>, later: seq<Call>, job: Job)
    requires Fits(read, calls, job) && read <= more && SameIds(calls, later)
    ensures Fits(more, later, job)
  {
  }

  lemma CallbacksKept(s: State, t: State)
    requires CallbacksFit(s) && s.read <= t.read && SameIds(s.calls, t.calls) && t.pool.accepted == s.pool.accepted
    requires PendingFits(t) && (t.pc.Submitting? ==> t.pc == s.pc || Fits(t.read, t.calls, t.pc.job))
    ensures CallbacksFit(t)
  {
    forall k | 0 <= k < |t.pool.accepted| ensures Fits(t.read, t.calls, t.pool.accepted[k]) {
      FitsKept(s.read, s.calls, t.read, t.calls, s.pool.accepted[k]);
    }
    if s.pc.Submitting? {
      FitsKept(s.read, s.calls, t.read, t.calls, s.pc.job);
    }
  }

  lemma CallbacksLookUp(s: State)
    requires Orderly(s) && CallbacksFit(s) && s.pc.Matching?
    ensures CallbacksFit(Apply(s, LookUpCall))
  {
    CallbacksKept(s, LookUpStep(s));
  }

  lemma CallbacksSubmit(s: State)
    requires CallbacksFit(s) && Enabled(s, SubmitJob)
    ensures CallbacksFit(Apply(s, SubmitJob))
  {
  }

  lemma CallbacksCalls(s: State, l: Label)
    requires CallbacksFit(s) && Enabled(s, l) && (l.BeginCall? || l.RegisterCall? || l.SendCall?)
    ensures CallbacksFit(Apply(s, l))
  {
    var t := Apply(s, l);
    assert SameIds(s.calls, t.calls) && t.pool == s.pool && t.pc == s.pc && t.read == s.read;
    assert PendingFits(t);
    CallbacksKept(s, t);
  }

  lemma CallsStay(s: State, l: Label)
    requires Enabled(s, l) && !IsReadThread(l) && !l.BeginCall? && !l.RegisterCall? && !l.SendCall?
    ensures Apply(s, l).calls == s.calls && Apply(s, l).pending == s.pending
  {
  }

  lemma CallsStayReadThread(s: State, l: Label)
    requires Enabled(s, l) && IsReadThread(l) && !l.LookUpCall? && !l.SubmitJob?
    ensures var t := Apply(s, l);
      && t.calls == s.calls && t.pending == s.pending && s.read <= t.read
      && (t.pc.Submitting? ==> t.pc == s.pc || !t.pc.job.CallbackJob?)
  {
    match l
    case Read(_) =>
    case StopReading =>
    case SendAnswer =>
    case EndInline(_, _) =>
    case StoreToken =>
    case CancelToken =>
    case StopSync =>
    case JoinSync =>
    case StopPool =>
    case JoinPool =>
  }

  lemma CallbacksFitStep(s: State, l: Label)
    requires Orderly(s) && CallbacksFit(s) && Enabled(s, l)
    ensures CallbacksFit(Apply(s, l))
  {
    if l.LookUpCall? {
      CallbacksLookUp(s);
    } else if l.SubmitJob? {
      CallbacksSubmit(s);
    } else if l.BeginCall? || l.RegisterCall? || l.SendCall? {
      CallbacksCalls(s, l);
    } else {
      AcceptedStays(s, l);
      if IsReadThread(l) {
        CallsStayReadThread(s, l);
      } else {
        KeepsReadThread(s, l);
        CallsStay(s, l);
      }
      CallbacksKept(s, Apply(s, l));
    }
  }
}
