/** A cancellation the read thread has dealt with takes effect: every one, on its own request. */
module CancelEffect {
  import opened Protocol
  import opened Dispatch
  import opened Reference
  import opened Server
  import opened Control
  import opened Cancellation
  import opened TokenMap
  import opened CancelCause

  // ---------------------------------------------------------------- the invariant

  /** Each asynchronous request read has its token, but for one about to be stored. */
  ghost predicate TokensComplete(s: State) {
    forall i | 0 <= i < |s.read| && DispositionAt(s.handlers, s.read, i).RunAsync? ::
      i in s.owners || (s.pc.Storing? && i == |s.read| - 1)
  }

  /** Request i was judged before message j was dealt with. */
  ghost predicate JudgedBefore(s: State, i: nat, j: int) {
    i in s.log.judgedAt && s.log.judgedAt[i] <= j
  }

  /** A cancellation by message j has raised the flag of token t, or came too late. */
  ghost predicate Felt(s: State, t: nat, j: int)
    requires t < |s.owners|
  {
    (t < |s.flags| && s.flags[t]) || JudgedBefore(s, s.owners[t], j)
  }

  /** Every cancellation dealt with is felt. */
  ghost predicate FlagsFollow(s: State) {
    forall t, j | 0 <= t < |s.owners| && j < Dealt(s) && Cancelled(s.read, s.owners[t], j) :: Felt(s, t, j)
  }

  /** A request cancelled in time was refused. */
  ghost predicate VerdictsFollow(s: State) {
    forall i, j | i in s.log.judgedAt && j < s.log.judgedAt[i] && Cancelled(s.read, i, j) ::
      i in s.verdicts && s.verdicts[i]
  }

  ghost predicate Effective(s: State) {
    && TokensComplete(s)
    && (forall i | i in s.log.judgedAt :: i in s.verdicts && s.log.judgedAt[i] <= |s.read|)
    && (NoReuse(s.read) ==> FlagsFollow(s) && VerdictsFollow(s))
  }

  lemma InitEffective(h: Handlers, numWorkers: nat)
    ensures Effective(Init(h, numWorkers))
  {
  }

  // ---------------------------------------------------------------- a cancellation is never dropped

  /** The request of a token was taken after `initialize`. */
  lemma OwnerAsked(s: State, t: nat)
    requires Orderly(s) && TokensCarried(s) && t < |s.owners|
    ensures s.owners[t] < |s.read| && Asked(s.read[..s.owners[t]], Initialize)
  {
    var job: Job;
    if s.pc.Submitting? && Carries(s.pc.job, t, s.owners[t]) {
      job := s.pc.job;
    } else {
      var k :| 0 <= k < |s.pool.accepted| && Carries(s.pool.accepted[k], t, s.owners[t]);
      job := s.pool.accepted[k];
    }
    assert JobOk(s.handlers, s.read, job);
    RequestTable(s.handlers, s.read, job.index);
  }

  lemma AskedLater(read: seq<Message>, i: nat, j: nat)
    requires i <= j <= |read| && Asked(read[..i], Initialize)
    ensures Asked(read[..j], Initialize)
  {
    var k :| 0 <= k < i && IsRequestFor(read[..i][k], Initialize);
    assert IsRequestFor(read[..j][k], Initialize);
  }

  /** The read thread deals with a cancellation of a request that has a token by cancelling. */
  lemma CancelDisposition(s: State, t: nat, j: nat)
    requires Orderly(s) && TokensCarried(s) && t < |s.owners| && Cancelled(s.read, s.owners[t], j)
    ensures DispositionAt(s.handlers, s.read, j) == Cancel(s.read[s.owners[t]].id)
  {
    OwnerAsked(s, t);
    AskedLater(s.read, s.owners[t], j);
    NoticeTable(s.handlers, s.read, j);
  }

  /** While the last message is in hand for anything else, it is no such cancellation. */
  lemma LastIsNoCancel(s: State, t: nat)
    requires Orderly(s) && TokensCarried(s) && t < |s.owners| && Busy(s.pc) && !s.pc.Cancelling?
    ensures !Cancelled(s.read, s.owners[t], |s.read| - 1)
  {
    if Cancelled(s.read, s.owners[t], |s.read| - 1) {
      CancelDisposition(s, t, |s.read| - 1);
    }
  }

  /** Nor is a message that is dealt with as soon as it is read. */
  lemma ReadIsNoCancel(s: State, m: Message, t: nat)
    requires Orderly(s) && TokensCarried(s) && t < |s.owners| && Enabled(s, Read(m)) && ReadStep(s, m).pc == Ready
    ensures !Cancelled(s.read + [m], s.owners[t], |s.read|)
  {
    var read := s.read + [m];
    if Cancelled(read, s.owners[t], |s.read|) {
      OwnerAsked(s, t);
      AskedLater(s.read, s.owners[t], |s.read|);
      assert s.read[..|s.read|] == s.read;
      StateReference(s.handlers, s.read);
    }
  }

  // ---------------------------------------------------------------- steps

  ghost predicate FlagsGrow(s: State, t: State) {
    && FlagsUp(s.flags, t.flags) && t.owners == s.owners && t.log.judgedAt == s.log.judgedAt && t.verdicts == s.verdicts
  }

  lemma TokensCompleteKept(s: State, t: State)
    requires TokensComplete(s) && t.handlers == s.handlers && t.read == s.read && s.owners <= t.owners
    requires s.pc.Storing? ==> t.pc == s.pc || |s.read| - 1 in t.owners
    ensures TokensComplete(t)
  {
    forall i | i in s.owners ensures i in t.owners {
      var k :| 0 <= k < |s.owners| && s.owners[k] == i;
      assert t.owners[k] == i;
    }
  }

  /** No further message is dealt with. */
  lemma FollowSame(s: State, t: State)
    requires FlagsFollow(s) && VerdictsFollow(s) && FlagsGrow(s, t) && t.read == s.read && Dealt(t) == Dealt(s)
    ensures FlagsFollow(t) && VerdictsFollow(t)
  {
    forall k, j | 0 <= k < |t.owners| && j < Dealt(t) && Cancelled(t.read, t.owners[k], j)
      ensures Felt(t, k, j)
    {
      assert Felt(s, k, j);
    }
  }

  /** One more message is dealt with; it cancels nothing, or raises what it should. */
  lemma FollowMore(s: State, t: State, last: nat)
    requires FlagsFollow(s) && VerdictsFollow(s) && FlagsGrow(s, t) && t.read == s.read
    requires Dealt(t) <= last + 1 && Dealt(s) == last
    requires forall k | 0 <= k < |t.owners| && Cancelled(t.read, t.owners[k], last) ::
      Felt(t, k, last)
    ensures FlagsFollow(t) && VerdictsFollow(t)
  {
    forall k, j | 0 <= k < |t.owners| && j < Dealt(t) && Cancelled(t.read, t.owners[k], j)
      ensures Felt(t, k, j)
    {
      if j < last {
        assert Felt(s, k, j);
      }
    }
  }

  lemma EffectiveRead(s: State, m: Message)
    requires Orderly(s) && TokensOwned(s) && MapOk(s) && Effective(s) && Enabled(s, Read(m))
    ensures Effective(Apply(s, Read(m)))
  {
    var t := ReadStep(s, m);
    CompleteRead(s, m);
    if NoReuse(t.read) {
      assert NoReuse(s.read) by {
        assert forall i | 0 <= i < |s.read| :: s.read[i] == t.read[i];
      }
      FollowRead(s, m);
    }
  }

  lemma CompleteRead(s: State, m: Message)
    requires Orderly(s) && TokensComplete(s) && Enabled(s, Read(m))
    ensures TokensComplete(ReadStep(s, m))
  {
    var t := ReadStep(s, m);
    assert t.read[..|s.read|] == s.read;
    forall i | 0 <= i < |t.read| && DispositionAt(t.handlers, t.read, i).RunAsync?
      ensures i in t.owners || (t.pc.Storing? && i == |t.read| - 1)
    {
      if i < |s.read| {
        DispositionStable(s.handlers, s.read, m, i);
      }
    }
  }

  lemma CancelledEarlier(read: seq<Message>, m: Message, i: int, j: int)
    requires j < |read| && Cancelled(read + [m], i, j)
    ensures Cancelled(read, i, j)
  {
  }

  lemma FollowRead(s: State, m: Message)
    requires Orderly(s) && TokensCarried(s) && FlagsFollow(s) && VerdictsFollow(s) && Enabled(s, Read(m))
    requires forall i | i in s.log.judgedAt :: s.log.judgedAt[i] <= |s.read|
    ensures FlagsFollow(ReadStep(s, m)) && VerdictsFollow(ReadStep(s, m))
  {
    var t := ReadStep(s, m);
    forall i, j | i in t.log.judgedAt && j < t.log.judgedAt[i] && Cancelled(t.read, i, j)
      ensures i in t.verdicts && t.verdicts[i]
    {
      CancelledEarlier(s.read, m, i, j);
    }
    forall k, j | 0 <= k < |t.owners| && j < Dealt(t) && Cancelled(t.read, t.owners[k], j) ensures Felt(t, k, j) {
      FeltRead(s, m, k, j);
    }
  }

  lemma FeltRead(s: State, m: Message, k: nat, j: int)
    requires Orderly(s) && TokensCarried(s) && FlagsFollow(s) && Enabled(s, Read(m)) && k < |s.owners|
    requires j < Dealt(ReadStep(s, m)) && Cancelled(s.read + [m], s.owners[k], j)
    ensures Felt(ReadStep(s, m), k, j)
  {
    if j < |s.read| {
      CancelledEarlier(s.read, m, s.owners[k], j);
      assert Felt(s, k, j);
    } else {
      ReadIsNoCancel(s, m, k);
    }
  }

  /** The cancellation in hand is felt by the token of its request. */
  lemma FeltCancel(s: State, k: nat)
    requires Orderly(s) && TokensOwned(s) && Judged(s) && MapOk(s) && Caused(s) && NoReuse(s.read) && s.pc.Cancelling?
    requires k < |s.owners| && Cancelled(s.read, s.owners[k], |s.read| - 1)
    ensures Felt(CancelStep(s), k, |s.read| - 1)
  {
    CancelDisposition(s, k, |s.read| - 1);
    if s.owners[k] in s.verdicts {
      assert VerdictCaused(s, s.owners[k]);
    } else {
      CancelReaches(s, k);
    }
  }

  lemma EffectiveCancel(s: State)
    requires Orderly(s) && TokensOwned(s) && Judged(s) && MapOk(s) && Caused(s) && Effective(s) && s.pc.Cancelling?
    ensures Effective(Apply(s, CancelToken))
  {
    var t := CancelStep(s);
    TokensCompleteKept(s, t);
    if NoReuse(s.read) {
      forall k | 0 <= k < |t.owners| && Cancelled(t.read, t.owners[k], |s.read| - 1)
        ensures Felt(t, k, |s.read| - 1)
      {
        FeltCancel(s, k);
      }
      FollowMore(s, t, |s.read| - 1);
    }
  }

  lemma EffectiveStore(s: State)
    requires Orderly(s) && TokensOwned(s) && Effective(s) && s.pc.Storing?
    ensures Effective(Apply(s, StoreToken))
  {
    var t := StoreTokenStep(s);
    assert t.owners[|s.owners|] == |s.read| - 1;
    TokensCompleteKept(s, t);
    if NoReuse(s.read) {
      forall k, j | 0 <= k < |t.owners| && j < Dealt(t) && Cancelled(t.read, t.owners[k], j)
        ensures Felt(t, k, j)
      {
        assert k < |s.owners|;
        assert Felt(s, k, j);
      }
    }
  }

  lemma FeltCheck(s: State, w: nat)
    requires FlagsFollow(s) && Enabled(s, CheckToken(w)) && s.pool.workers[w].task.index !in s.log.judgedAt
    ensures FlagsFollow(CheckTokenStep(s, w))
  {
    var t := CheckTokenStep(s, w);
    forall k, j | 0 <= k < |t.owners| && j < Dealt(t) && Cancelled(t.read, t.owners[k], j) ensures Felt(t, k, j) {
      assert Felt(s, k, j);
    }
  }

  lemma VerdictCheck(s: State, w: nat)
    requires FlagsFollow(s) && VerdictsFollow(s)
    requires Enabled(s, CheckToken(w)) && TokenOk(s.owners, s.pool.workers[w].task)
    requires s.pool.workers[w].task.index !in s.log.judgedAt
    ensures VerdictsFollow(CheckTokenStep(s, w))
  {
    var t, job := CheckTokenStep(s, w), s.pool.workers[w].task;
    forall i, j | i in t.log.judgedAt && j < t.log.judgedAt[i] && Cancelled(t.read, i, j)
      ensures i in t.verdicts && t.verdicts[i]
    {
      if i == job.index {
        assert Felt(s, job.token, j);
      }
    }
  }

  /** The check: what the worker sees is whether its request was cancelled by now. */
  lemma EffectiveCheck(s: State, w: nat)
    requires Orderly(s) && TokensOwned(s) && Judged(s) && Effective(s) && Enabled(s, CheckToken(w))
    ensures Effective(Apply(s, CheckToken(w)))
  {
    var t, job := CheckTokenStep(s, w), s.pool.workers[w].task;
    RunningStarted(s.pool, w);
    assert TokenOk(s.owners, job) && PhaseOk(s.verdicts, job, Start);
    TokensCompleteKept(s, t);
    if NoReuse(s.read) {
      FeltCheck(s, w);
      VerdictCheck(s, w);
    }
  }

  /** The steps by which the read thread is done with a message, cancellations apart. */
  lemma EffectiveDone(s: State, l: Label)
    requires Orderly(s) && TokensOwned(s) && MapOk(s) && Effective(s) && Enabled(s, l)
    requires l.SendAnswer? || l.SubmitJob? || l.LookUpCall?
    ensures Effective(Apply(s, l))
  {
    var t := Apply(s, l);
    DoneFrame(s, l);
    TokensCompleteKept(s, t);
    if NoReuse(s.read) {
      forall k | 0 <= k < |t.owners| ensures !Cancelled(t.read, t.owners[k], |s.read| - 1) {
        LastIsNoCancel(s, k);
      }
      FollowMore(s, t, |s.read| - 1);
    }
  }

  lemma DoneFrame(s: State, l: Label)
    requires Enabled(s, l) && PcOk(s.handlers, s.read, s.pc) && (l.SendAnswer? || l.SubmitJob? || l.LookUpCall?)
    ensures var t := Apply(s, l);
      && t.handlers == s.handlers && t.read == s.read && t.flags == s.flags && t.owners == s.owners
      && t.log == s.log && t.verdicts == s.verdicts && Dealt(s) == |s.read| - 1 && Dealt(t) <= |s.read|
      && Busy(s.pc) && !s.pc.Cancelling? && !s.pc.Storing?
  {
    if l.SendAnswer? {
      AnswerFrame(s);
    } else if l.SubmitJob? {
      SubmitFrame(s);
    } else {
      LookUpFrame(s);
    }
  }

  ghost predicate SameTokens(s: State, t: State) {
    && t.handlers == s.handlers && t.read == s.read && t.flags == s.flags && t.owners == s.owners
    && t.log == s.log && t.verdicts == s.verdicts
  }

  lemma AnswerFrame(s: State)
    requires Enabled(s, SendAnswer)
    ensures SameTokens(s, Apply(s, SendAnswer)) && Busy(s.pc) && !s.pc.Cancelling? && !s.pc.Storing?
  {
  }

  lemma SubmitFrame(s: State)
    requires Enabled(s, SubmitJob)
    ensures SameTokens(s, Apply(s, SubmitJob)) && Busy(s.pc) && !s.pc.Cancelling? && !s.pc.Storing?
  {
  }

  lemma LookUpFrame(s: State)
    requires Enabled(s, LookUpCall)
    ensures SameTokens(s, Apply(s, LookUpCall)) && Busy(s.pc) && !s.pc.Cancelling? && !s.pc.Storing?
  {
  }

  ghost predicate SameForEffect(s: State, t: State) {
    && t.handlers == s.handlers && t.read == s.read && Dealt(t) == Dealt(s) && FlagsGrow(s, t)
    && (s.pc.Storing? ==> t.pc == s.pc)
  }

  lemma EffectiveKept(s: State, t: State)
    requires Effective(s) && SameForEffect(s, t)
    ensures Effective(t)
  {
    TokensCompleteKept(s, t);
    if NoReuse(s.read) {
      FollowSame(s, t);
    }
  }

  lemma QuietReadThread(s: State, l: Label)
    requires Enabled(s, l)
    requires l.StopReading? || l.EndInline? || l.StopSync? || l.JoinSync? || l.StopPool? || l.JoinPool?
    ensures SameForEffect(s, Apply(s, l))
  {
    match l
    case StopReading =>
    case EndInline(_, _) =>
    case StopSync =>
    case JoinSync =>
    case StopPool =>
    case JoinPool =>
  }

  lemma JudgedAtStays(s: State, l: Label)
    requires Enabled(s, l) && !IsReadThread(l) && !l.CheckToken?
    ensures Apply(s, l).log.judgedAt == s.log.judgedAt
  {
  }

  lemma EffectiveOthers(s: State, l: Label)
    requires Effective(s) && Enabled(s, l) && !IsReadThread(l) && !l.CheckToken?
    ensures Effective(Apply(s, l))
  {
    KeepsReadThread(s, l);
    FlagsOthers(s, l);
    JudgedAtStays(s, l);
    EffectiveKept(s, Apply(s, l));
  }

  lemma EffectiveReadThread(s: State, l: Label)
    requires Orderly(s) && TokensOwned(s) && Judged(s) && MapOk(s) && Caused(s) && Effective(s)
    requires Enabled(s, l) && IsReadThread(l)
    ensures Effective(Apply(s, l))
  {
    if l.Read? {
      EffectiveRead(s, l.message);
    } else if l.CancelToken? {
      EffectiveCancel(s);
    } else if l.StoreToken? {
      EffectiveStore(s);
    } else if l.SendAnswer? || l.SubmitJob? || l.LookUpCall? {
      EffectiveDone(s, l);
    } else {
      QuietReadThread(s, l);
      EffectiveKept(s, Apply(s, l));
    }
  }

  lemma EffectiveStep(s: State, l: Label)
    requires Orderly(s) && TokensOwned(s) && Judged(s) && MapOk(s) && Caused(s) && Effective(s) && Enabled(s, l)
    ensures Effective(Apply(s, l))
  {
    if IsReadThread(l) {
      EffectiveReadThread(s, l);
    } else if l.CheckToken? {
      EffectiveCheck(s, l.w);
    } else {
      EffectiveOthers(s, l);
    }
  }

  // ---------------------------------------------------------------- what it means

  /** A cancellation dealt with before its request was judged dooms the request. */
  lemma CancelDoomsInTime(s: State, i: nat, j: nat) returns (t: nat)
    requires Orderly(s) && TokensOwned(s) && Effective(s) && NoReuse(s.read)
    requires i < |s.read| && DispositionAt(s.handlers, s.read, i).RunAsync?
    requires Cancelled(s.read, i, j) && j < Dealt(s) && !JudgedBefore(s, i, j)
    requires forall k | k in s.verdicts :: k in s.log.judgedAt
    ensures Doomed(s, i, t)
  {
    assert i in s.owners;
    t :| 0 <= t < |s.owners| && s.owners[t] == i;
    assert Cancelled(s.read, s.owners[t], j);
  }
}
