/** What a client of the server can rely on, over every interleaving. */
module Guarantees {
  import opened Protocol
  import opened Unicode
  import opened DocumentStore
  import opened Dispatch
  import opened Server
  import opened Control
  import opened SerialReplay
  import opened Convergence
  import opened TextSafety
  import opened OutgoingCalls
  import opened Cancellation
  import opened TokenMap
  import opened CancelCause
  import opened CancelEffect
  import opened Entries
  import opened Outcomes
  import opened Reference
  import opened ExactlyOnce
  import opened Soundness

  // ---------------------------------------------------------------- documents

  lemma StoreIsReplay(s: State) returns (n: nat)
    requires Reachable(s)
    ensures n <= |SyncOps(s.handlers, s.read)|
    ensures s.documents == Replay(SyncOps(s.handlers, s.read)[..n], s.encoding)
    ensures s.pc.Returned? ==> n == |SyncOps(s.handlers, s.read)|
  {
    ReachableSound(s);
    AppliedPrefix(s.sync);
    n := |SerialReplay.Applied(s.sync)|;
    PrefixOps(SerialReplay.Applied(s.sync), s.sync.accepted, PcOps(s.pc));
    assert s.pc.Returned? ==> PcOps(s.pc) == [];
  }

  /** The store holds the effect, in read order, of the first notices about documents read; when
      `run` returns, of all of them. */
  lemma DocumentsAreReplay(s: State) returns (n: nat)
    requires Reachable(s)
    ensures n <= |DocumentNotices(s.read)|
    ensures s.documents == NoticeReplay(DocumentNotices(s.read)[..n], s.encoding)
    ensures s.pc.Returned? ==> n == |DocumentNotices(s.read)|
  {
    TraceFacts(s);
    var k := StoreIsReplay(s);
    n := PrefixIsNotices(s.handlers, s.read, k, s.encoding);
  }

  lemma PrefixOps(jobs: seq<Job>, all: seq<Job>, more: seq<DocumentOp>)
    requires jobs <= all
    ensures OpsOf(jobs) == (OpsOf(all) + more)[..|jobs|]
  {
  }

  /** The position encoding is the one `initialize` chose, UTF-16 if it chose none. */
  lemma EncodingIsChosen(s: State)
    requires Reachable(s)
    ensures forall i, enc | Chose(s, i, enc) :: s.encoding == enc
    ensures s.encoding == UTF16 || exists i :: Chose(s, i, s.encoding)
  {
    ReachableSound(s);
  }

  /** From the first notice about a document on, it is fixed. */
  lemma EncodingFixed(s: State, labels: seq<Label>, t: State)
    requires Reachable(s) && IsRun(s, labels, t) && DocumentNotices(s.read) != []
    ensures t.encoding == s.encoding
  {
    TraceFacts(s);
    NoticesCount(s.handlers, s.read);
    EncodingStays(s, labels, t);
  }

  lemma {:induction false} EncodingStays(s: State, labels: seq<Label>, t: State)
    requires Reachable(s) && IsRun(s, labels, t) && SyncOps(s.handlers, s.read) != []
    ensures t.encoding == s.encoding
    decreases |labels|
  {
    if labels == [] {
    } else {
      EncodingKept(s, labels[0]);
      ReachableStep(s, labels[0]);
      EncodingStays(Apply(s, labels[0]), labels[1..], t);
    }
  }

  lemma EncodingKept(s: State, l: Label)
    requires Reachable(s) && Enabled(s, l) && SyncOps(s.handlers, s.read) != []
    ensures Apply(s, l).encoding == s.encoding && SyncOps(Apply(s, l).handlers, Apply(s, l).read) != []
  {
    ReachableSound(s);
    EncodingSettled(s, l);
  }

  /** If the notices about documents are the messages of a well-behaved client's history, the
      client and the server hold the same documents: at any time the server has those of some
      earlier point of the history, when `run` returns the latest. */
  lemma ServerMatchesClient(s: State, ops: seq<ClientOp>) returns (n: nat)
    requires Reachable(s) && DocumentNotices(s.read) == ClientMessages(ops) && ValidOps(ops, s.encoding)
    ensures n <= |ops| && s.documents == EncodeAll(ClientReplay(ops[..n], s.encoding))
    ensures s.pc.Returned? ==> s.documents == EncodeAll(ClientReplay(ops, s.encoding))
    ensures forall uri | uri in s.documents :: WellFormed(s.documents[uri].text)
  {
    n := DocumentsAreReplay(s);
    ClientMessagesPrefix(ops, n);
    NoticesOfClient(ops[..n], s.encoding);
    ValidOpsPrefix(ops, n, s.encoding);
    ReplayConverges(ops[..n], s.encoding);
    TakeAll(ops);
    forall uri | uri in s.documents ensures WellFormed(s.documents[uri].text) {
      ReplayWellFormed(ops[..n], s.encoding, uri);
    }
  }

  lemma ClientMessagesPrefix(ops: seq<ClientOp>, n: nat)
    requires n <= |ops|
    ensures ClientMessages(ops)[..n] == ClientMessages(ops[..n])
  {
  }

  // ---------------------------------------------------------------- well-formed documents

  /** The texts a message carries are well-formed; its ranges may be anything. */
  ghost predicate CarriesText(m: Message) {
    && (m.Notification? && m.params.OpenParams? ==> WellFormed(m.params.item.text))
    && (m.Notification? && m.params.ChangeParams? ==>
          forall k | 0 <= k < |m.params.changes| :: WellFormed(m.params.changes[k].text))
  }

  /** No text outgrows the machine along the edits of a message. */
  ghost predicate NoticeFits(docs: Documents, m: Message, enc: PositionEncoding) {
    m.Notification? && m.params.ChangeParams? && m.params.uri in docs ==>
      Fits(docs[m.params.uri].text, m.params.changes, enc)
  }

  ghost predicate NoticesFit(notices: seq<Message>, enc: PositionEncoding) {
    forall i | 0 <= i < |notices| :: NoticeFits(NoticeReplay(notices[..i], enc), notices[i], enc)
  }

  lemma NoticeKeepsWellFormed(docs: Documents, m: Message, enc: PositionEncoding)
    requires enc != UTF8 && AllWellFormed(docs) && CarriesText(m) && NoticeFits(docs, m, enc)
    ensures AllWellFormed(Effect(docs, m, enc))
  {
    if m.Notification? && m.params.ChangeParams? && m.params.uri in docs {
      EditsKeepWellFormed(docs[m.params.uri].text, m.params.changes, enc);
    }
  }

  lemma {:induction false} NoticesKeepWellFormed(notices: seq<Message>, n: nat, enc: PositionEncoding)
    requires enc != UTF8 && n <= |notices| && NoticesFit(notices, enc)
    requires forall i | 0 <= i < |notices| :: CarriesText(notices[i])
    ensures AllWellFormed(NoticeReplay(notices[..n], enc))
    decreases n
  {
    if n == 0 {
    } else {
      NoticesKeepWellFormed(notices, n - 1, enc);
      NoticeKeepsWellFormed(NoticeReplay(notices[..n - 1], enc), notices[n - 1], enc);
      NoticeReplaySnoc(notices[..n - 1], notices[n - 1], enc);
      assert notices[..n] == notices[..n - 1] + [notices[n - 1]];
    }
  }

  /** UTF-16 and UTF-32: if the texts received are well-formed, so is every document in every
      reachable state, whatever ranges the client sent. */
  lemma DocumentsStayWellFormed(s: State)
    requires Reachable(s) && s.encoding != UTF8 && NoticesFit(DocumentNotices(s.read), s.encoding)
    requires forall i | 0 <= i < |DocumentNotices(s.read)| :: CarriesText(DocumentNotices(s.read)[i])
    ensures AllWellFormed(s.documents)
  {
    var n := DocumentsAreReplay(s);
    NoticesKeepWellFormed(DocumentNotices(s.read), n, s.encoding);
  }

  // ---------------------------------------------------------------- lifecycle

  /** `run` returns 0 exactly if `shutdown` was asked after `initialize`; else it returns 1. */
  lemma ExitCode(s: State)
    requires Reachable(s) && s.pc.Returned?
    ensures s.pc.exitCode == if ShutdownAfterInitialize(s.read) then 0 else 1
  {
    ReachableSound(s);
    ShutdownTrace(s.handlers, s.read);
  }

  /** Nothing is read after `exit`. */
  lemma StopsAtExit(s: State, k: nat)
    requires Reachable(s) && k < |s.read| && s.read[k].Notification? && s.read[k].name == Exit
    ensures k == |s.read| - 1
  {
    ReachableOrderly(s);
    ExitIsLast(s.handlers, s.read, k);
  }

  /** The server has left its loop for good only because it read `exit`. */
  lemma ExitedMeansExit(s: State)
    requires Reachable(s)
    ensures s.lifecycle == Exited <==> s.read != [] && IsNotice(s.read[|s.read| - 1], Exit)
  {
    ReachableOrderly(s);
    StateReference(s.handlers, s.read);
  }

  lemma TraceFacts(s: State)
    requires Reachable(s)
    ensures BuiltIn(s.handlers) && Readable(s.handlers, s.read)
    ensures s.pc.Inline? ==> s.read != [] && s.read[|s.read| - 1].Request? && s.pc.name == s.read[|s.read| - 1].name
                             && DispositionAt(s.handlers, s.read, |s.read| - 1).RunInline?
  {
    ReachableOrderly(s);
  }

  /** The handler of `initialize` runs for the first such request and no other. */
  lemma InitializeRunsOnce(s: State)
    requires Reachable(s) && s.pc.Inline? && s.pc.name == Initialize
    ensures forall i | 0 <= i < |s.read| - 1 :: !IsRequestFor(s.read[i], Initialize)
  {
    TraceFacts(s);
    InitializeFirst(s.handlers, s.read, |s.read| - 1);
  }

  lemma JobFacts(s: State, job: Job)
    requires Reachable(s) && (job in s.pool.accepted || job in s.sync.accepted)
    ensures JobOk(s.handlers, s.read, job) && (job in s.sync.accepted ==> job.NotifyJob?)
  {
    ReachableOrderly(s);
  }

  /** Before the first `initialize` request no handler runs: no request or notification is
      handed to a pool, no lifecycle handler is entered, no document is stored. */
  lemma NothingRunsBeforeInitialize(s: State)
    requires Reachable(s) && !Asked(s.read, Initialize)
    ensures forall k | 0 <= k < |s.pool.accepted| :: s.pool.accepted[k].CallbackJob?
    ensures s.sync.accepted == [] && s.documents == map[] && !s.pc.Inline?
  {
    TraceFacts(s);
    forall k | 0 <= k < |s.pool.accepted| ensures s.pool.accepted[k].CallbackJob? {
      JobFacts(s, s.pool.accepted[k]);
      IdleJob(s.handlers, s.read, s.pool.accepted[k]);
    }
    IdleSync(s);
    if s.read != [] {
      Idle(s.handlers, s.read, |s.read| - 1);
    }
    var n := StoreIsReplay(s);
    IdleOps(s.handlers, s.read);
  }

  lemma IdleJob(h: Handlers, read: seq<Message>, job: Job)
    requires BuiltIn(h) && Readable(h, read) && !Asked(read, Initialize) && JobOk(h, read, job)
    ensures job.CallbackJob?
  {
    Idle(h, read, job.index);
  }

  lemma IdleSync(s: State)
    requires Reachable(s) && !Asked(s.read, Initialize)
    ensures s.sync.accepted == []
  {
    TraceFacts(s);
    if s.sync.accepted != [] {
      JobFacts(s, s.sync.accepted[0]);
      IdleJob(s.handlers, s.read, s.sync.accepted[0]);
    }
  }

  // ---------------------------------------------------------------- cancellation

  /** While ids are not reused the token map holds exactly the requests in flight, each under
      its id with its own token; once `run` returns it is empty, ids reused or not. */
  lemma TokenMapExact(s: State)
    requires Reachable(s)
    ensures NoReuse(s.read) ==>
      && (forall id :: id in s.tokens <==> exists job :: InFlight(s, job) && job.id == id)
      && (forall job | InFlight(s, job) :: job.id in s.tokens && s.tokens[job.id] == job.token)
      && (forall a, b | a in s.tokens && b in s.tokens && s.tokens[a] == s.tokens[b] :: a == b)
    ensures s.pc.Returned? ==> s.tokens == map[]
  {
    ReachableSound(s);
    if NoReuse(s.read) {
      MapExact(s);
    }
    if s.pc.Returned? {
      MapEmpty(s);
    }
  }

  lemma {:induction false} DoomedRun(s: State, labels: seq<Label>, t: State, i: nat, token: nat)
    requires Reachable(s) && IsRun(s, labels, t) && Doomed(s, i, token)
    ensures Doomed(t, i, token)
    decreases |labels|
  {
    if labels == [] {
    } else {
      DoomedOneStep(s, labels[0], i, token);
      ReachableStep(s, labels[0]);
      DoomedRun(Apply(s, labels[0]), labels[1..], t, i, token);
    }
  }

  lemma DoomedOneStep(s: State, l: Label, i: nat, token: nat)
    requires Reachable(s) && Enabled(s, l) && Doomed(s, i, token)
    ensures Doomed(Apply(s, l), i, token)
  {
    ReachableSound(s);
    DoomedStep(s, l, i, token);
  }

  /** A request cancelled after it was accepted and before its worker looked is doomed. */
  lemma CancelDooms(s: State, job: Job)
    requires Reachable(s) && NoReuse(s.read) && s.pc.Cancelling?
    requires job in s.pool.accepted && job.RequestJob? && job.id == s.pc.target && job.index !in s.verdicts
    ensures Doomed(CancelStep(s), job.index, job.token)
    ensures job.index < |s.read| && DispositionAt(s.handlers, s.read, job.index).RunAsync?
  {
    ReachableSound(s);
    assert TokenOk(s.owners, job) && JobOk(s.handlers, s.read, job);
    CancelReaches(s, job.token);
  }

  lemma DoomedNeverRuns(s: State, i: nat, token: nat)
    requires Reachable(s) && Doomed(s, i, token) && i < |s.read| && DispositionAt(s.handlers, s.read, i).RunAsync?
    ensures i !in s.entered
    ensures forall k | 0 <= k < |s.sent| && IsReply(s.sent[k], i) :: s.sent[k].frame.reply == CANCELLED
  {
    ReachableSound(s);
    DoomedRefused(s, i, token);
  }

  /** Whatever happens after such a cancellation, the request's handler is never entered, and
      any answer to it is RequestCancelled. */
  lemma CancelledNeverRuns(s: State, job: Job, labels: seq<Label>, t: State)
    requires Reachable(s) && NoReuse(s.read) && s.pc.Cancelling?
    requires job in s.pool.accepted && job.RequestJob? && job.id == s.pc.target && job.index !in s.verdicts
    requires IsRun(CancelStep(s), labels, t)
    ensures job.index !in t.entered
    ensures forall k | 0 <= k < |t.sent| && IsReply(t.sent[k], job.index) :: t.sent[k].frame.reply == CANCELLED
  {
    var u := CancelStep(s);
    CancelDooms(s, job);
    ReachableStep(s, CancelToken);
    DoomedRun(u, labels, t, job.index, job.token);
    ReachableRun(u, labels, t);
    RunReads(u, labels, t);
    assert t.read[..job.index] == s.read[..job.index];
    DoomedNeverRuns(t, job.index, job.token);
  }

  /** Messages are only added to those read. */
  lemma {:induction false} RunReads(s: State, labels: seq<Label>, t: State)
    requires IsRun(s, labels, t)
    ensures s.read <= t.read && t.handlers == s.handlers
    decreases |labels|
  {
    if labels == [] {
    } else {
      StepReads(s, labels[0]);
      RunReads(Apply(s, labels[0]), labels[1..], t);
    }
  }

  lemma StepReads(s: State, l: Label)
    requires Enabled(s, l)
    ensures s.read <= Apply(s, l).read && Apply(s, l).handlers == s.handlers
  {
    if l.Read? {
    } else if IsReadThread(l) {
      assert Apply(s, l).read == s.read;
    } else {
      KeepsReadThread(s, l);
    }
  }

  /** A cancellation the read thread has dealt with takes effect, whatever the kind of its id:
      unless its request had been judged before, the request's flag is up, its handler is never
      entered, and every answer to it is RequestCancelled. */
  lemma CancellationHonoured(s: State, i: nat, j: nat) returns (token: nat)
    requires Reachable(s) && NoReuse(s.read) && ForWorker(s.handlers, s.read, i)
    requires Cancelled(s.read, i, j) && j < Dealt(s) && !JudgedBefore(s, i, j)
    ensures Doomed(s, i, token) && i !in s.entered
    ensures forall k | 0 <= k < |s.sent| && IsReply(s.sent[k], i) :: s.sent[k].frame.reply == CANCELLED
  {
    TraceFacts(s);
    RequestTable(s.handlers, s.read, i);
    token := InTimeDooms(s, i, j);
    DoomedNeverRuns(s, i, token);
  }

  lemma InTimeDooms(s: State, i: nat, j: nat) returns (token: nat)
    requires Reachable(s) && NoReuse(s.read) && i < |s.read| && DispositionAt(s.handlers, s.read, i).RunAsync?
    requires Cancelled(s.read, i, j) && j < Dealt(s) && !JudgedBefore(s, i, j)
    ensures Doomed(s, i, token)
  {
    ReachableSound(s);
    forall k | k in s.verdicts ensures k in s.log.judgedAt {
      assert VerdictCaused(s, k);
    }
    token := CancelDoomsInTime(s, i, j);
  }

  /** A worker refuses a request exactly if the client's cancellation of it had been dealt with
      when the worker looked; a request not refused enters its handler. */
  lemma VerdictExact(s: State, i: nat)
    requires Reachable(s) && NoReuse(s.read) && i in s.verdicts
    ensures i in s.log.judgedAt
    ensures s.verdicts[i] <==> exists j :: j < s.log.judgedAt[i] && Cancelled(s.read, i, j)
    ensures i in s.entered <==> !s.verdicts[i]
  {
    RefusedWasCancelled(s, i);
    CancelledWasRefused(s, i);
  }

  lemma CancelledWasRefused(s: State, i: nat)
    requires Reachable(s) && NoReuse(s.read) && i in s.verdicts && i in s.log.judgedAt
    ensures (exists j :: j < s.log.judgedAt[i] && Cancelled(s.read, i, j)) ==> s.verdicts[i]
  {
    ReachableSound(s);
  }

  /** Even with reused ids a worker that refuses a request does so because the client had
      cancelled its id by then; a worker that does not, enters the handler. */
  lemma RefusedWasCancelled(s: State, i: nat)
    requires Reachable(s) && i in s.verdicts
    ensures i in s.log.judgedAt
    ensures s.verdicts[i] ==> exists j :: j < s.log.judgedAt[i] && Cancelled(s.read, i, j)
    ensures i in s.entered <==> !s.verdicts[i]
  {
    VerdictFacts(s, i);
    if s.verdicts[i] {
      var n := s.log.judgedAt[i];
      var j :| Cancelled(s.read[..n], i, j);
      assert Cancelled(s.read, i, j);
    }
  }

  lemma VerdictFacts(s: State, i: nat)
    requires Reachable(s) && i in s.verdicts
    ensures VerdictCaused(s, i) && Dealt(s) <= |s.read| && (i in s.entered <==> !s.verdicts[i])
  {
    ReachableSound(s);
    assert VerdictCaused(s, i);
    if i in s.entered {
      var k :| 0 <= k < |s.entered| && s.entered[k] == i;
    }
  }

  /** A flag goes up only through a cancellation for its request's own id, or by the worker
      inside that request. */
  lemma FlagRaisedByOwnId(s: State, l: Label, token: nat)
    requires Reachable(s) && Enabled(s, l)
    requires token < |s.flags| && !s.flags[token] && token < |Apply(s, l).flags| && Apply(s, l).flags[token]
    ensures token < |s.owners| && s.owners[token] < |s.read| && s.read[s.owners[token]].Request?
    ensures (l.CancelToken? && s.pc.target == s.read[s.owners[token]].id)
         || (l.CancelOwn? && s.pool.workers[l.w].task.index == s.owners[token])
  {
    ReachableSound(s);
    RaisedByOwnId(s, l, token);
  }

  /** With reused ids the flag that goes up is that of the last request accepted under the id. */
  lemma LastUnderIdCancelled(s: State, token: nat)
    requires Reachable(s) && s.pc.Cancelling?
    requires token < |s.flags| && !s.flags[token] && CancelStep(s).flags[token]
    ensures MadeFor(s, token, s.pc.target) && forall t | MadeFor(s, t, s.pc.target) :: t <= token
  {
    ReachableSound(s);
    RaisedByOwnId(s, CancelToken, token);
  }

  // ---------------------------------------------------------------- outgoing calls

  /** The first response to a call the client has seen reaches its callback. */
  lemma FirstAnswerReaches(s: State, k: nat)
    requires Reachable(s) && |s.calls| <= WORD && s.pc.Matching?
    requires k < |s.sent| && s.sent[k].Unasked? && s.sent[k].frame.CallFrame? && s.sent[k].frame.number == s.pc.number
    requires forall i | 0 <= i < |Responses(s.read)| - 1 :: Responses(s.read)[i] != s.pc.number
    ensures var pc := LookUpStep(s).pc;
      pc.Submitting? && pc.job.CallbackJob? && pc.job.call < |s.calls| && s.calls[pc.job.call].id == s.pc.number
  {
    ReachableSound(s);
    FirstAnswerDelivered(s, k);
  }
}
