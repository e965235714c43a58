/** A request is refused as cancelled only if the client did cancel it. */
module CancelCause {
  import opened Protocol
  import opened Dispatch
  import opened Reference
  import opened Server
  import opened Control
  import opened Cancellation
  import opened TokenMap

  /** Raised flags are of requests that had entered their handler, or that were cancelled by a
      message dealt with; a request judged was cancelled by then if it was refused, and entered
      its handler if not. */
  ghost predicate Caused(s: State) {
    && |s.flags| == |s.owners|
    && (forall t | 0 <= t < |s.flags| && s.flags[t] ::
          s.owners[t] in s.entered || CancelRead(s.read[..Dealt(s)], s.owners[t]))
    && (forall i | i in s.verdicts :: VerdictCaused(s, i))
  }

  ghost predicate VerdictCaused(s: State, i: nat)
    requires i in s.verdicts
  {
    && i in s.log.judgedAt && s.log.judgedAt[i] <= Dealt(s)
    && if s.verdicts[i] then CancelRead(s.read[..s.log.judgedAt[i]], i) else i in s.entered
  }

  lemma InitCaused(h: Handlers, numWorkers: nat)
    ensures Caused(Init(h, numWorkers))
  {
  }

  lemma CancelReadKept(read: seq<Message>, more: seq<Message>, i: nat)
    requires CancelRead(read, i) && read <= more
    ensures CancelRead(more, i)
  {
    var j :| Cancelled(read, i, j);
    assert Cancelled(more, i, j);
  }

  ghost predicate SameForCauses(s: State, t: State) {
    && t.flags == s.flags && t.owners == s.owners && t.verdicts == s.verdicts && t.entered == s.entered
    && t.log.judgedAt == s.log.judgedAt && s.read <= t.read && Dealt(s) <= Dealt(t)
  }

  lemma DealtPrefix(s: State, t: State)
    requires s.read <= t.read && Dealt(s) <= Dealt(t)
    ensures s.read[..Dealt(s)] <= t.read[..Dealt(t)]
    ensures forall n | 0 <= n <= |s.read| :: s.read[..n] == t.read[..n]
  {
  }

  lemma CausedKept(s: State, t: State)
    requires Caused(s) && SameForCauses(s, t)
    ensures Caused(t)
  {
    DealtPrefix(s, t);
    forall k | 0 <= k < |t.flags| && t.flags[k]
      ensures t.owners[k] in t.entered || CancelRead(t.read[..Dealt(t)], t.owners[k])
    {
      if CancelRead(s.read[..Dealt(s)], s.owners[k]) {
        CancelReadKept(s.read[..Dealt(s)], t.read[..Dealt(t)], s.owners[k]);
      }
    }
    forall i | i in t.verdicts ensures VerdictCaused(t, i) {
      assert VerdictCaused(s, i);
    }
  }

  lemma CausedStore(s: State)
    requires Caused(s) && s.pc.Storing?
    ensures Caused(Apply(s, StoreToken))
  {
    var t := StoreTokenStep(s);
    forall i | i in t.verdicts ensures VerdictCaused(t, i) {
      assert VerdictCaused(s, i);
    }
  }

  lemma FlightBefore(s: State, job: Job)
    requires Orderly(s) && s.pc.Cancelling? && InFlight(s, job)
    ensures job.index < |s.read| - 1 && s.read[job.index] == Request(job.id, job.name, job.params)
    ensures Cancels(s.read[|s.read| - 1], s.pc.target)
  {
    FlightIndex(s, job);
    LiveAccepted(s.pool, job);
  }

  /** What a cancellation hits was read earlier under that very id. */
  lemma CancelHits(s: State)
    requires Orderly(s) && TokensOwned(s) && MapOk(s) && s.pc.Cancelling? && s.pc.target in s.tokens
    ensures var t := s.tokens[s.pc.target]; t < |s.owners| && CancelRead(s.read, s.owners[t])
  {
    var id := s.pc.target;
    assert HeldBy(s, id, s.tokens[id]);
    var job :| InFlight(s, job) && job.id == id && job.token == s.tokens[id];
    FlightOwns(s, job);
    FlightBefore(s, job);
    assert Cancelled(s.read, job.index, |s.read| - 1);
  }

  lemma CausedCancel(s: State)
    requires Orderly(s) && TokensOwned(s) && MapOk(s) && Caused(s) && s.pc.Cancelling?
    ensures Caused(Apply(s, CancelToken))
  {
    var t, id := CancelStep(s), s.pc.target;
    assert t.read[..Dealt(t)] == s.read;
    if id in s.tokens {
      CancelHits(s);
    }
    forall k | 0 <= k < |t.flags| && t.flags[k]
      ensures t.owners[k] in t.entered || CancelRead(t.read[..Dealt(t)], t.owners[k])
    {
      if CancelRead(s.read[..Dealt(s)], s.owners[k]) {
        CancelReadKept(s.read[..Dealt(s)], s.read, s.owners[k]);
      }
    }
    forall i | i in t.verdicts ensures VerdictCaused(t, i) {
      assert VerdictCaused(s, i);
    }
  }

  lemma CausedOwn(s: State, w: nat)
    requires Orderly(s) && TokensOwned(s) && Judged(s) && Caused(s) && Enabled(s, CancelOwn(w))
    ensures Caused(Apply(s, CancelOwn(w)))
  {
    var t, job := Apply(s, CancelOwn(w)), s.pool.workers[w].task;
    RunningStarted(s.pool, w);
    assert TokenOk(s.owners, job) && PhaseOk(s.verdicts, job, InHandler) && VerdictCaused(s, job.index);
    forall i | i in t.verdicts ensures VerdictCaused(t, i) {
      assert VerdictCaused(s, i);
    }
  }

  /** A flag that is up at the check was raised by the client. */
  lemma CheckCause(s: State, w: nat)
    requires Orderly(s) && TokensOwned(s) && Judged(s) && Caused(s) && Enabled(s, CheckToken(w))
    ensures var job := s.pool.workers[w].task; s.flags[job.token] ==> CancelRead(s.read[..Dealt(s)], job.index)
  {
    var job := s.pool.workers[w].task;
    RunningStarted(s.pool, w);
    assert TokenOk(s.owners, job) && PhaseOk(s.verdicts, job, Start);
  }

  lemma CausedVerdict(s: State, t: State, i: nat, seen: bool)
    requires Caused(s) && (seen ==> CancelRead(s.read[..Dealt(s)], i))
    requires t.flags == s.flags && t.owners == s.owners && t.read == s.read && Dealt(t) == Dealt(s)
    requires t.verdicts == s.verdicts[i := seen] && t.entered == if seen then s.entered else s.entered + [i]
    requires t.log.judgedAt == s.log.judgedAt[i := Dealt(s)]
    ensures Caused(t)
  {
    forall k | k in t.verdicts ensures VerdictCaused(t, k) {
      if k != i {
        assert VerdictCaused(s, k);
      }
    }
  }

  lemma CausedCheck(s: State, w: nat)
    requires Orderly(s) && TokensOwned(s) && Judged(s) && Caused(s) && Enabled(s, CheckToken(w))
    ensures Caused(Apply(s, CheckToken(w)))
  {
    var job := s.pool.workers[w].task;
    CheckCause(s, w);
    CausedVerdict(s, CheckTokenStep(s, w), job.index, s.flags[job.token]);
  }

  lemma QuietReadThread(s: State, l: Label)
    requires Enabled(s, l) && IsReadThread(l) && !l.Read? && !l.StoreToken? && !l.CancelToken?
    ensures var t := Apply(s, l);
      t.flags == s.flags && t.owners == s.owners && t.read == s.read && t.log.judgedAt == s.log.judgedAt
  {
    match l
    case StopReading =>
    case SendAnswer =>
    case EndInline(_, _) =>
    case SubmitJob =>
    case LookUpCall =>
    case StopSync =>
    case JoinSync =>
    case StopPool =>
    case JoinPool =>
  }

  lemma QuietRead(s: State, m: Message)
    requires Enabled(s, Read(m))
    ensures SameForCauses(s, ReadStep(s, m))
  {
  }

  lemma QuietOthers(s: State, l: Label)
    requires Enabled(s, l) && !IsReadThread(l) && !l.CancelOwn? && !l.CheckToken?
    ensures SameForCauses(s, Apply(s, l))
  {
    KeepsReadThread(s, l);
  }

  /** The read thread never goes back on a message. */
  lemma DealtGrows(s: State, l: Label)
    requires Enabled(s, l) && IsReadThread(l)
    ensures Dealt(s) <= Dealt(Apply(s, l))
  {
    match l
    case Read(_) =>
    case StopReading =>
    case SendAnswer =>
    case EndInline(_, _) =>
    case StoreToken =>
    case SubmitJob =>
    case CancelToken =>
    case LookUpCall =>
    case StopSync =>
    case JoinSync =>
    case StopPool =>
    case JoinPool =>
  }

  lemma QuietForCauses(s: State, l: Label)
    requires Enabled(s, l) && !l.StoreToken? && !l.CancelToken? && !l.CancelOwn? && !l.CheckToken?
    ensures SameForCauses(s, Apply(s, l))
  {
    if l.Read? {
      QuietRead(s, l.message);
    } else if IsReadThread(l) {
      KeepsOthers(s, l);
      DealtGrows(s, l);
      QuietReadThread(s, l);
    } else {
      QuietOthers(s, l);
    }
  }

  lemma CausedStep(s: State, l: Label)
    requires Orderly(s) && TokensOwned(s) && Judged(s) && MapOk(s) && Caused(s) && Enabled(s, l)
    ensures Caused(Apply(s, l))
  {
    if l.StoreToken? {
      CausedStore(s);
    } else if l.CancelToken? {
      CausedCancel(s);
    } else if l.CancelOwn? {
      CausedOwn(s, l.w);
    } else if l.CheckToken? {
      CausedCheck(s, l.w);
    } else {
      QuietForCauses(s, l);
      CausedKept(s, Apply(s, l));
    }
  }
}
