/** The server as an object. Its methods are the source's, cut where a lock is taken or
    released; between two cuts `Interfere` lets the other threads take any steps they can. The
    trace records every step, so whatever holds over the runs of the step system holds of it. */
module LanguageServer {
  import opened Options
  import opened Protocol
  import opened Unicode
  import opened Dispatch
  import opened Reference
  import opened Server
  import opened Control
  import opened Soundness
  import opened Shutdown
  import opened ExactlyOnce
  import opened Guarantees
  import opened Sums
  import P = ThreadPool
  import D = DocumentStore
  import W = WorkerPool

  class LanguageServer {
    const handlers: Handlers
    const numWorkers: nat
    const workerPool: W.ThreadPool<Job, Phase>
    const syncExecutor: W.ThreadPool<Job, Phase>
    const documents: D.DocumentStore

    var pc: ReadPc
    var state: ServerState
    var shutdownRequested: bool
    var cancellationTokens: map<RequestId, nat>
    var flags: seq<bool>
    var pendingRequests: map<int, nat>
    var nextOutgoingId: int
    var calls: seq<Call>
    // histories
    var read: seq<Message>
    var sent: seq<Sent>
    var ran: seq<Duty>
    var owners: seq<nat>
    var verdicts: map<nat, bool>
    var entered: seq<nat>
    var log: Log
    var lookups: seq<int>
    var matched: seq<Match>
    ghost var trace: seq<Label>

    function View(): State
      reads this, workerPool, syncExecutor, documents
    {
      State(handlers, pc, state, shutdownRequested, cancellationTokens, flags, pendingRequests, nextOutgoingId, calls,
            workerPool.View(), syncExecutor.View(), documents.encoding, documents.documents,
            read, sent, ran, owners, verdicts, entered, log, lookups, matched)
    }

    ghost predicate Valid()
      reads this, workerPool, syncExecutor, documents
    {
      BuiltIn(handlers) && workerPool != syncExecutor && IsRun(Init(handlers, numWorkers), trace, View())
    }

    /** The user's handlers are registered beside the built-in ones. */
    constructor (userRequests: set<Method>, userNotifications: set<Method>, workerThreads: nat)
      ensures Valid() && View() == Init(handlers, workerThreads)
      ensures handlers.requests == userRequests + BUILT_IN_REQUESTS
      ensures handlers.notifications == userNotifications + BUILT_IN_NOTIFICATIONS
      ensures fresh(workerPool) && fresh(syncExecutor) && fresh(documents)
    {
      handlers := Handlers(userRequests + BUILT_IN_REQUESTS, userNotifications + BUILT_IN_NOTIFICATIONS);
      numWorkers := workerThreads;
      workerPool := new W.ThreadPool(workerThreads, Start);
      syncExecutor := new W.ThreadPool(1, Start);
      documents := new D.DocumentStore();
      pc, state, shutdownRequested := Ready, Uninitialized, false;
      cancellationTokens, flags, pendingRequests, nextOutgoingId, calls := map[], [], map[], 1, [];
      read, sent, ran, owners, lookups, matched := [], [], [], [], [], [];
      verdicts, entered, log := map[], [], Log(map[], map[], map[]);
      trace := [];
    }

    /** Adds a step just taken to the trace. */
    ghost method Record(before: State, l: Label)
      requires BuiltIn(handlers) && workerPool != syncExecutor && IsRun(Init(handlers, numWorkers), trace, before)
      requires Enabled(before, l) && View() == Apply(before, l)
      modifies this`trace
      ensures Valid() && trace == old(trace) + [l] && View() == old(View())
    {
      RunAppend(Init(handlers, numWorkers), trace, before, l);
      trace := trace + [l];
    }

    // -------------------------------------------------------------- steps of the other threads

    /** isCancelled, at the start of runRequestHandler. */
    method CheckToken(w: nat)
      requires workerPool != syncExecutor && Enabled(View(), Label.CheckToken(w))
      modifies this, workerPool
      ensures View() == CheckTokenStep(old(View()), w) && trace == old(trace)
    {
      var job := workerPool.workers[w].task;
      var cancelled := flags[job.token];
      NoteVerdict(job.index, cancelled);
      workerPool.MoveOn(w, if cancelled then Replying(Error(RequestCancelled)) else InHandler);
    }

    method NoteVerdict(index: nat, cancelled: bool)
      modifies this`verdicts, this`entered, this`log
      ensures View() == old(View()).(verdicts := old(verdicts)[index := cancelled],
                                     log := old(log).(judgedAt := old(log).judgedAt[index := old(Dealt(View()))]),
                                     entered := if cancelled then old(entered) else old(entered) + [index])
    {
      verdicts, entered, log :=
        verdicts[index := cancelled], if cancelled then entered else entered + [index],
        log.(judgedAt := log.judgedAt[index := Dealt(View())]);
    }

    /** The handler returns or throws, and each way has its reply. */
    method EndHandler(w: nat, outcome: Outcome)
      requires workerPool != syncExecutor && Enabled(View(), Label.EndHandler(w, outcome))
      modifies this, workerPool
      ensures View() == EndHandlerStep(old(View()), w, outcome) && trace == old(trace)
    {
      log := log.(ended := log.ended[workerPool.workers[w].task.index := outcome]);
      var reply := match outcome
        case Returns(json) => Result(json)
        case ThrowsCancelled => Error(RequestCancelled)
        case ThrowsRpc(code) => Error(code)
        case ThrowsOther => Error(InternalError);
      workerPool.MoveOn(w, Replying(reply));
    }

    /** sendFrame, at the end of runRequestHandler. */
    method SendReply(w: nat)
      requires workerPool != syncExecutor && Enabled(View(), Label.SendReply(w))
      modifies this, workerPool
      ensures View() == SendReplyStep(old(View()), w) && trace == old(trace)
    {
      var worker := workerPool.workers[w];
      sent := sent + [InReply(worker.task.index, ReplyFrame(worker.task.id, worker.phase.reply))];
      workerPool.MoveOn(w, Erasing);
    }

    /** The locked end of a request's task. */
    method EraseToken(w: nat)
      requires workerPool != syncExecutor && Enabled(View(), Label.EraseToken(w))
      modifies this, workerPool
      ensures View() == EraseTokenStep(old(View()), w) && trace == old(trace)
    {
      cancellationTokens := cancellationTokens - {workerPool.workers[w].task.id};
      workerPool.MoveOn(w, Done);
    }

    /** A handler cancels its own token. */
    method CancelOwn(w: nat)
      requires workerPool != syncExecutor && Enabled(View(), Label.CancelOwn(w))
      modifies this
      ensures View() == Apply(old(View()), Label.CancelOwn(w)) && trace == old(trace)
    {
      flags := flags[workerPool.workers[w].task.token := true];
    }

    /** A notification handler or a response callback, on the worker pool. */
    method RunTask(w: nat)
      requires workerPool != syncExecutor && Enabled(View(), Label.RunTask(w))
      modifies this, workerPool
      ensures View() == RunTaskStep(old(View()), w) && trace == old(trace)
    {
      ran := ran + [DutyOf(workerPool.workers[w].task)];
      workerPool.MoveOn(w, Done);
    }

    /** The handler of a synchronisation notification, on the serial executor. */
    method RunSync()
      requires workerPool != syncExecutor && Enabled(View(), Label.RunSync)
      modifies this, syncExecutor, documents
      ensures View() == RunSyncStep(old(View())) && trace == old(trace)
    {
      var job := syncExecutor.workers[0].task;
      if job.NotifyJob? {
        match DocumentOpOf(job.name, job.params)
        case Open(item) => documents.OpenDocument(item);
        case Change(uri, version, changes) => var _ := documents.ApplyChange(uri, version, changes);
        case Close(uri) => var _ := documents.CloseDocument(uri);
        case Nothing =>
      }
      ran := ran + [DutyOf(job)];
      syncExecutor.MoveOn(0, Done);
    }

    /** fetch_add on the id counter; ids wrap in 32 bits. */
    method AllocateId() returns (call: nat)
      modifies this`calls, this`nextOutgoingId
      ensures call == old(|calls|) && View() == BeginStep(old(View()))
    {
      call := |calls|;
      calls, nextOutgoingId := calls + [Call(nextOutgoingId, Allocated, 0)], Wrap32(nextOutgoingId + 1);
    }

    /** The locked part of sendRequest: emplace leaves an entry that is there. */
    method RegisterCallback(c: nat)
      requires Enabled(View(), RegisterCall(c))
      modifies this`calls, this`pendingRequests
      ensures View() == RegisterStep(old(View()), c)
    {
      var id := calls[c].id;
      if id !in pendingRequests {
        pendingRequests := pendingRequests[id := c];
      }
      calls := calls[c := Call(id, Registered, |lookups|)];
    }

    method SendFrame(frame: Frame)
      modifies this`sent
      ensures View() == old(View()).(sent := old(sent) + [Unasked(frame)])
    {
      sent := sent + [Unasked(frame)];
    }

    method MarkSent(c: nat)
      requires c < |calls|
      modifies this`calls
      ensures View() == old(View()).(calls := old(calls)[c := old(calls)[c].(stage := SentOut)])
    {
      calls := calls[c := calls[c].(stage := SentOut)];
    }

    method SendCallFrame(c: nat, request: string, params: Json)
      requires Enabled(View(), SendCall(c, request, params))
      modifies this`calls, this`sent
      ensures View() == SendCallStep(old(View()), c, request, params)
    {
      SendFrame(CallFrame(calls[c].id, request, params));
      MarkSent(c);
    }

    /** A worker goes on inside its task. */
    method WorkerTurn(l: Label)
      requires workerPool != syncExecutor && Enabled(View(), l) && (InTask(l) || l.CancelOwn? || l.RunSync?)
      modifies this, workerPool, syncExecutor, documents
      ensures View() == Apply(old(View()), l) && trace == old(trace)
    {
      match l
      case CheckToken(w) => CheckToken(w);
      case EndHandler(w, outcome) => EndHandler(w, outcome);
      case SendReply(w) => SendReply(w);
      case EraseToken(w) => EraseToken(w);
      case CancelOwn(w) => CancelOwn(w);
      case RunTask(w) => RunTask(w);
      case RunSync => RunSync();
    }

    /** A thread gets the id of a call, or registers its callback. */
    method CallerTurn(l: Label)
      requires Enabled(View(), l) && (l.BeginCall? || l.RegisterCall?)
      modifies this`calls, this`nextOutgoingId, this`pendingRequests
      ensures View() == OtherStep(old(View()), l)
    {
      if l.BeginCall? {
        var _ := AllocateId();
      } else {
        RegisterCallback(l.c);
      }
    }

    /** A thread sends a call or a notification. */
    method SenderTurn(l: Label)
      requires Enabled(View(), l) && (l.SendCall? || l.SendNotice?)
      modifies this`calls, this`sent
      ensures View() == OtherStep(old(View()), l)
    {
      if l.SendCall? {
        SendCallFrame(l.c, l.request, l.params);
      } else {
        SendFrame(NoticeFrame(l.notice, l.params));
      }
    }

    /** Any one step of another thread. */
    method Perform(l: Label)
      requires Valid() && Enabled(View(), l) && !IsReadThread(l)
      modifies this, workerPool, syncExecutor, documents
      ensures Valid() && trace == old(trace) + [l] && View() == Apply(old(View()), l)
    {
      ghost var before := View();
      if l.PoolStep? {
        workerPool.Perform(l.step);
      } else if l.SyncStep? {
        syncExecutor.Perform(l.step);
      } else if InTask(l) || l.CancelOwn? || l.RunSync? {
        WorkerTurn(l);
      } else if l.BeginCall? || l.RegisterCall? {
        CallerTurn(l);
      } else {
        SenderTurn(l);
      }
      Record(before, l);
    }

    /** No step of the trace since length n is the read thread's. */
    ghost predicate OthersSince(n: nat)
      reads this`trace
    {
      forall k | n <= k < |trace| :: !IsReadThread(trace[k])
    }

    /** The other threads run for a while; none of them steps inside the calls given. */
    method Interfere(mine: set<nat>)
      requires Valid() && forall c | c in mine :: c < |calls|
      modifies this, workerPool, syncExecutor, documents
      ensures Undisturbed(mine)
    {
      var steps: nat := *;
      while steps > 0
        invariant Undisturbed(mine)
      {
        var l: Label := *;
        if !IsReadThread(l) && Enabled(View(), l) && !((l.RegisterCall? || l.SendCall?) && l.c in mine) {
          InterfereOnce(l, mine);
        }
        steps := steps - 1;
      }
    }

    method InterfereOnce(l: Label, mine: set<nat>)
      requires Valid() && forall c | c in mine :: c < |calls|
      requires !IsReadThread(l) && Enabled(View(), l) && !((l.RegisterCall? || l.SendCall?) && l.c in mine)
      modifies this, workerPool, syncExecutor, documents
      ensures Undisturbed(mine)
    {
      KeepsReadThread(View(), l);
      KeepsCalls(View(), l, mine);
      KeepsExited(View(), l);
      Perform(l);
    }

    /** The other threads have left the read thread, the calls given and the workers that have
        returned as they were. */
    twostate predicate Undisturbed(mine: set<nat>)
      reads this, workerPool, syncExecutor, documents
    {
      && Valid() && old(trace) <= trace && OthersSince(|old(trace)|)
      && pc == old(pc) && state == old(state) && shutdownRequested == old(shutdownRequested) && read == old(read)
      && |old(calls)| <= |calls| && (forall c | c in mine && c < |old(calls)| :: calls[c] == old(calls)[c])
      && old(sent) <= sent
      && StillExited()
    }

    /** Workers that have returned stay so. */
    twostate predicate StillExited()
      reads this, workerPool, syncExecutor, documents
    {
      && (P.AllExited(old(syncExecutor.View())) ==> P.AllExited(syncExecutor.View()))
      && (P.AllExited(old(workerPool.View())) ==> P.AllExited(workerPool.View()))
    }

    static lemma KeepsExited(s: State, l: Label)
      requires Reachable(s) && Enabled(s, l)
      ensures P.AllExited(s.sync) ==> P.AllExited(Apply(s, l).sync)
      ensures P.AllExited(s.pool) ==> P.AllExited(Apply(s, l).pool)
    {
      ReachableOrderly(s);
      LabelMoves(s, l);
      MovesInv(s.pool, PoolStepOf(s, l), Apply(s, l).pool);
      MovesInv(s.sync, SyncStepOf(s, l), Apply(s, l).sync);
    }

    static lemma KeepsCalls(s: State, l: Label, mine: set<nat>)
      requires Enabled(s, l) && (l.RegisterCall? || l.SendCall? ==> l.c !in mine)
      requires forall c | c in mine :: c < |s.calls|
      ensures var t := Apply(s, l);
        |s.calls| <= |t.calls| && (forall c | c in mine :: t.calls[c] == s.calls[c]) && s.sent <= t.sent
    {
      if IsReadThread(l) {
        assert Apply(s, l) == ReadThreadStep(s, l);
      } else {
        assert Apply(s, l) == OtherStep(s, l);
      }
    }

    // -------------------------------------------------------------- the read thread, step by step

    method NoteMessage(m: Message, next: ReadPc)
      modifies this`pc, this`read
      ensures View() == old(View()).(pc := next, read := old(read) + [m])
    {
      read, pc := read + [m], next;
    }

    method EnterState(newState: ServerState, stopRequested: bool)
      modifies this`state, this`shutdownRequested
      ensures View() == old(View()).(lifecycle := newState,
                                     shutdownRequested := old(shutdownRequested) || stopRequested)
    {
      state, shutdownRequested := newState, shutdownRequested || stopRequested;
    }

    /** A message is read and disposed of as far as the first lock. */
    method Receive(m: Message, next: ReadPc, newState: ServerState, stopRequested: bool)
      requires Valid() && pc == Ready && state != Exited
      requires next == AfterRead(Classify(state, handlers, m), |read|, m) && newState == NextState(state, handlers, m)
      requires stopRequested == SetsShutdown(state, handlers, m)
      modifies this
      ensures Valid() && trace == old(trace) + [Read(m)]
      ensures pc == next && state == newState && shutdownRequested == (old(shutdownRequested) || stopRequested)
      ensures read == old(read) + [m]
    {
      ghost var before := View();
      NoteMessage(m, next);
      EnterState(newState, stopRequested);
      Record(before, Read(m));
    }

    /** sendFrame with the answer at hand. */
    method Answer()
      requires pc.Answering? || pc.Complaining?
      modifies this`pc, this`sent
      ensures View() == SendAnswerStep(old(View()))
    {
      var frame := if pc.Answering? then ReplyFrame(pc.id, pc.reply) else NullIdError(pc.code);
      sent, pc := sent + [InReply(pc.index, frame)], Ready;
    }

    method SendAnswerFrame()
      requires Valid() && (pc.Answering? || pc.Complaining?)
      modifies this
      ensures Valid() && trace == old(trace) + [SendAnswer]
      ensures pc == Ready && state == old(state) && shutdownRequested == old(shutdownRequested) && read == old(read)
    {
      ghost var before := View();
      Answer();
      Record(before, SendAnswer);
    }

    /** A lifecycle handler ends, however it does; `initialize` may choose the encoding. */
    method LeaveInline(outcome: Outcome, encoding: Option<PositionEncoding>)
      requires pc.Inline?
      modifies this`pc, this`log, documents
      ensures View() == EndInlineStep(old(View()), outcome, encoding)
    {
      if pc.name == Initialize && outcome.Returns? && encoding.Some? {
        documents.SetPositionEncoding(encoding.value);
      }
      NoteOutcome(outcome, encoding);
    }

    method NoteOutcome(outcome: Outcome, encoding: Option<PositionEncoding>)
      requires pc.Inline?
      modifies this`pc, this`log
      ensures View() == old(View()).(pc := Answering(old(pc).index, old(pc).id, ReplyOf(outcome)),
                                     log := old(log).(ended := old(log).ended[old(pc).index := outcome],
                                                      offered := old(log).offered[old(pc).index := encoding]))
    {
      log, pc :=
        log.(ended := log.ended[pc.index := outcome], offered := log.offered[pc.index := encoding]),
        Answering(pc.index, pc.id, ReplyOf(outcome));
    }

    method FinishInline(outcome: Outcome, encoding: Option<PositionEncoding>)
      requires Valid() && pc.Inline?
      modifies this, documents
      ensures Valid() && trace == old(trace) + [EndInline(outcome, encoding)]
      ensures pc.Answering? && pc.index == old(pc).index && pc.id == old(pc).id
      ensures state == old(state) && shutdownRequested == old(shutdownRequested) && read == old(read)
    {
      ghost var before := View();
      LeaveInline(outcome, encoding);
      Record(before, EndInline(outcome, encoding));
    }

    /** The locked part of handleRequest: a new token goes into the map. */
    method EnterToken()
      requires pc.Storing?
      modifies this`pc, this`flags, this`owners, this`cancellationTokens
      ensures View() == StoreTokenStep(old(View()))
    {
      var token, index, id := |flags|, pc.index, pc.id;
      flags, owners, cancellationTokens, pc :=
        flags + [false], owners + [index], cancellationTokens[id := token],
        Submitting(RequestJob(index, id, pc.name, pc.params, token));
    }

    method StoreNewToken()
      requires Valid() && pc.Storing?
      modifies this
      ensures Valid() && trace == old(trace) + [StoreToken] && pc.Submitting?
      ensures state == old(state) && shutdownRequested == old(shutdownRequested) && read == old(read)
    {
      ghost var before := View();
      EnterToken();
      Record(before, StoreToken);
    }

    /** The locked part of ThreadPool::submit. */
    method Push()
      requires workerPool != syncExecutor && (pc.Submitting? || pc.SubmittingSync?)
      modifies this`pc, workerPool, syncExecutor
      ensures View() == SubmitStep(old(View()))
    {
      if pc.Submitting? {
        workerPool.Push(pc.job);
      } else {
        syncExecutor.Push(pc.job);
      }
      pc := Ready;
    }

    method Submit()
      requires Valid() && (pc.Submitting? || pc.SubmittingSync?)
      modifies this, workerPool, syncExecutor
      ensures Valid() && trace == old(trace) + [SubmitJob]
      ensures pc == Ready && state == old(state) && shutdownRequested == old(shutdownRequested) && read == old(read)
    {
      ghost var before := View();
      Push();
      Record(before, SubmitJob);
    }

    /** The locked part of the cancellation handler. */
    method RaiseFlag()
      requires pc.Cancelling?
      modifies this`pc, this`flags
      ensures View() == CancelStep(old(View()))
    {
      if pc.target in cancellationTokens && cancellationTokens[pc.target] < |flags| {
        flags := flags[cancellationTokens[pc.target] := true];
      }
      pc := Ready;
    }

    method FlipToken()
      requires Valid() && pc.Cancelling?
      modifies this
      ensures Valid() && trace == old(trace) + [CancelToken]
      ensures pc == Ready && state == old(state) && shutdownRequested == old(shutdownRequested) && read == old(read)
    {
      ghost var before := View();
      RaiseFlag();
      Record(before, CancelToken);
    }

    /** The locked part of handleResponse. */
    method FindCallback()
      requires pc.Matching?
      modifies this`pc, this`pendingRequests, this`matched, this`lookups
      ensures View() == LookUpStep(old(View()))
    {
      var n := pc.number;
      if n !in pendingRequests {
        pc, lookups := Ready, lookups + [n];
      } else {
        var call := pendingRequests[n];
        pc, pendingRequests, lookups, matched :=
          Submitting(CallbackJob(pc.index, call, pc.payload, pc.isError)), pendingRequests - {n},
          lookups + [n], matched + [Match(call, |lookups|)];
      }
    }

    method TakeCallback()
      requires Valid() && pc.Matching?
      modifies this
      ensures Valid() && trace == old(trace) + [LookUpCall]
      ensures pc == Ready || (pc.Submitting? && pc.job.CallbackJob?)
      ensures state == old(state) && shutdownRequested == old(shutdownRequested) && read == old(read)
    {
      ghost var before := View();
      FindCallback();
      Record(before, LookUpCall);
    }

    // -------------------------------------------------------------- sendRequest

    method StartCall() returns (call: nat)
      requires Valid()
      modifies this
      ensures Valid() && call == old(|calls|) && |calls| == call + 1 && calls[call].stage == Allocated
      ensures pc == old(pc) && read == old(read) && sent == old(sent) && trace == old(trace) + [BeginCall]
    {
      ghost var before := View();
      call := AllocateId();
      Record(before, BeginCall);
    }

    method EnterCallback(c: nat)
      requires Valid() && c < |calls| && calls[c].stage == Allocated
      modifies this
      ensures Valid() && |calls| == old(|calls|) && calls[c] == old(calls[c]).(stage := Registered, since := |lookups|)
      ensures pc == old(pc) && read == old(read) && sent == old(sent) && trace == old(trace) + [RegisterCall(c)]
    {
      ghost var before := View();
      RegisterCallback(c);
      Record(before, RegisterCall(c));
    }

    method EmitCall(c: nat, request: string, params: Json)
      requires Valid() && c < |calls| && calls[c].stage == Registered
      modifies this
      ensures Valid() && |calls| == old(|calls|) && calls[c] == old(calls[c]).(stage := SentOut)
      ensures sent == old(sent) + [Unasked(CallFrame(calls[c].id, request, params))]
      ensures pc == old(pc) && read == old(read) && trace == old(trace) + [SendCall(c, request, params)]
    {
      ghost var before := View();
      SendCallFrame(c, request, params);
      Record(before, SendCall(c, request, params));
    }

    /** The calling thread is any thread: in the gaps the read thread may run too. */
    method InterfereAll(mine: set<nat>)
      requires Valid() && forall c | c in mine :: c < |calls|
      modifies this, workerPool, syncExecutor, documents
      ensures Valid() && old(trace) <= trace && old(read) <= read
      ensures |old(calls)| <= |calls| && (forall c | c in mine :: calls[c] == old(calls)[c]) && old(sent) <= sent
    {
      var steps: nat := *;
      while steps > 0
        invariant Valid() && old(trace) <= trace && old(read) <= read
        invariant |old(calls)| <= |calls| && (forall c | c in mine :: calls[c] == old(calls)[c]) && old(sent) <= sent
      {
        var l: Label := *;
        if Enabled(View(), l) && !((l.RegisterCall? || l.SendCall?) && l.c in mine) {
          KeepsCalls(View(), l, mine);
          StepReads(View(), l);
          if IsReadThread(l) {
            ReadThreadTurn(l);
          } else {
            Perform(l);
          }
        }
        steps := steps - 1;
      }
    }

    /** Any one step of the read thread. */
    method ReadThreadTurn(l: Label)
      requires Valid() && Enabled(View(), l) && IsReadThread(l)
      modifies this, workerPool, syncExecutor, documents
      ensures Valid() && trace == old(trace) + [l] && View() == Apply(old(View()), l)
    {
      ghost var before := View();
      if l.StopReading? || l.StopSync? || l.JoinSync? || l.StopPool? || l.JoinPool? {
        StoppingTurn(l);
      } else {
        MessageTurn(l);
      }
      Record(before, l);
    }

    method MessageTurn(l: Label)
      requires workerPool != syncExecutor && Enabled(View(), l)
      requires l.Read? || l.SendAnswer? || l.EndInline? || l.StoreToken? || l.SubmitJob? || l.CancelToken?
            || l.LookUpCall?
      modifies this, workerPool, syncExecutor, documents
      ensures View() == ReadThreadStep(old(View()), l) && trace == old(trace)
    {
      match l
      case Read(m) =>
        var newState, stopRequested := NextState(state, handlers, m), SetsShutdown(state, handlers, m);
        NoteMessage(m, AfterRead(Classify(state, handlers, m), |read|, m));
        EnterState(newState, stopRequested);
      case SendAnswer => Answer();
      case EndInline(outcome, encoding) => LeaveInline(outcome, encoding);
      case StoreToken => EnterToken();
      case SubmitJob => Push();
      case CancelToken => RaiseFlag();
      case LookUpCall => FindCallback();
    }

    method StoppingTurn(l: Label)
      requires workerPool != syncExecutor && Enabled(View(), l)
      requires l.StopReading? || l.StopSync? || l.JoinSync? || l.StopPool? || l.JoinPool?
      modifies this, workerPool, syncExecutor
      ensures View() == ReadThreadStep(old(View()), l) && trace == old(trace)
    {
      match l
      case StopReading => pc := StoppingSync;
      case StopSync =>
        var _ := syncExecutor.BeginStop();
        pc := JoiningSync;
      case JoinSync => pc := StoppingPool;
      case StopPool =>
        var _ := workerPool.BeginStop();
        pc := JoiningPool;
      case JoinPool => pc := Returned(if shutdownRequested then 0 else 1);
    }

    /** The callback is registered before the call goes out. */
    method SendRequest(request: string, params: Json) returns (call: nat)
      requires Valid()
      modifies this, workerPool, syncExecutor, documents
      ensures Valid() && call == old(|calls|) && call < |calls| && calls[call].stage == SentOut
      ensures |sent| > old(|sent|) && sent[|sent| - 1] == Unasked(CallFrame(calls[call].id, request, params))
      ensures old(read) <= read
    {
      call := StartCall();
      InterfereAll({call});
      EnterCallback(call);
      InterfereAll({call});
      EmitCall(call, request, params);
    }

    // -------------------------------------------------------------- sendNotification

    method SendNotification(notice: string, params: Json)
      requires Valid()
      modifies this`sent, this`trace
      ensures Valid() && trace == old(trace) + [SendNotice(notice, params)]
      ensures sent == old(sent) + [Unasked(NoticeFrame(notice, params))]
    {
      ghost var before := View();
      SendFrame(NoticeFrame(notice, params));
      Record(before, SendNotice(notice, params));
    }

    // -------------------------------------------------------------- handling a message

    /** No message was read since the trace had length n. */
    ghost predicate NoReadSince(n: nat)
      reads this`trace
    {
      forall k | n <= k < |trace| :: !trace[k].Read?
    }

    /** Message m was read, dealt with, and nothing else was read. */
    twostate predicate Handled(m: Message)
      reads this, workerPool, syncExecutor, documents
    {
      && Valid() && pc == Ready && read == old(read) + [m]
      && old(trace) + [Read(m)] <= trace && NoReadSince(old(|trace|) + 1)
      && state == NextState(old(state), handlers, m)
      && shutdownRequested == (old(shutdownRequested) || SetsShutdown(old(state), handlers, m))
    }

    method Refuse(id: RequestId, name: Method, params: Params, code: ErrorCode)
      requires Valid() && pc == Ready && state != Exited
      requires Classify(state, handlers, Request(id, name, params)) == Reject(code)
      modifies this, workerPool, syncExecutor, documents
      ensures Handled(Request(id, name, params))
    {
      Receive(Request(id, name, params), Answering(|read|, id, Error(code)), state, false);
      AnswerLater();
    }

    /** A lifecycle request runs on the read thread; what its handler returns is up to the user. */
    method RunInlineRequest(id: RequestId, name: Method, params: Params)
      requires Valid() && pc == Ready && state != Exited
      requires Classify(state, handlers, Request(id, name, params)) == RunInline
      modifies this, workerPool, syncExecutor, documents
      ensures Handled(Request(id, name, params))
    {
      var next := Inline(|read|, id, name);
      if name == Initialize {
        Receive(Request(id, name, params), next, Initializing, false);
      } else {
        Receive(Request(id, name, params), next, ShuttingDown, true);
      }
      EndInlineRequest();
    }

    /** The read thread has come to rest without reading anything else. */
    twostate predicate Settled()
      reads this, workerPool, syncExecutor, documents
    {
      && Valid() && pc == Ready && read == old(read) && state == old(state)
      && shutdownRequested == old(shutdownRequested)
      && old(trace) <= trace && NoReadSince(old(|trace|))
    }

    method AnswerLater()
      requires Valid() && (pc.Answering? || pc.Complaining?)
      modifies this, workerPool, syncExecutor, documents
      ensures Settled()
    {
      Interfere({});
      SendAnswerFrame();
    }

    method EndInlineRequest()
      requires Valid() && pc.Inline?
      modifies this, workerPool, syncExecutor, documents
      ensures Settled()
    {
      Interfere({});
      var outcome: Outcome := *;
      var encoding: Option<PositionEncoding> := *;
      FinishInline(outcome, encoding);
      AnswerLater();
    }

    method RunAsyncRequest(id: RequestId, name: Method, params: Params)
      requires Valid() && pc == Ready && state != Exited
      requires Classify(state, handlers, Request(id, name, params)) == RunAsync
      modifies this, workerPool, syncExecutor, documents
      ensures Handled(Request(id, name, params))
    {
      Receive(Request(id, name, params), Storing(|read|, id, name, params), state, false);
      AcceptRequest();
    }

    method AcceptRequest()
      requires Valid() && pc.Storing?
      modifies this, workerPool, syncExecutor, documents
      ensures Settled()
    {
      Interfere({});
      StoreNewToken();
      SubmitLater();
    }

    method HandleRequest(id: RequestId, name: Method, params: Params)
      requires Valid() && pc == Ready && state != Exited
      modifies this, workerPool, syncExecutor, documents
      ensures Handled(Request(id, name, params))
    {
      if state == Uninitialized && name != Initialize {
        Refuse(id, name, params, ServerNotInitialized);
      } else if state == ShuttingDown {
        Refuse(id, name, params, InvalidRequest);
      } else if state != Uninitialized && name == Initialize {
        Refuse(id, name, params, InvalidRequest);
      } else if name !in handlers.requests {
        Refuse(id, name, params, MethodNotFound);
      } else if name == Initialize || name == Shutdown {
        RunInlineRequest(id, name, params);
      } else {
        RunAsyncRequest(id, name, params);
      }
    }

    method HandleNotification(name: Method, params: Params)
      requires Valid() && pc == Ready && state != Exited
      modifies this, workerPool, syncExecutor, documents
      ensures Handled(Notification(name, params))
    {
      var m := Notification(name, params);
      if name == Exit {
        Receive(m, Ready, Exited, false);
      } else if state == Uninitialized || name !in handlers.notifications {
        Receive(m, Ready, state, false);
      } else if name == Initialized {
        Receive(m, Ready, Running, false);
      } else if name == CancelRequest {
        CancelRequestById(params);
      } else {
        QueueNotification(name, params);
      }
    }

    method CancelRequestById(params: Params)
      requires Valid() && pc == Ready && state != Exited && state != Uninitialized
      modifies this, workerPool, syncExecutor, documents
      ensures Handled(Notification(CancelRequest, params))
    {
      if params.CancelParams? {
        Receive(Notification(CancelRequest, params), Cancelling(params.id), state, false);
        FlipLater();
      } else {
        Receive(Notification(CancelRequest, params), Ready, state, false);
      }
    }

    method FlipLater()
      requires Valid() && pc.Cancelling?
      modifies this, workerPool, syncExecutor, documents
      ensures Settled()
    {
      Interfere({});
      FlipToken();
    }

    /** Synchronisation goes to the serial executor, the rest to the pool. */
    method QueueNotification(name: Method, params: Params)
      requires Valid() && pc == Ready && state != Exited && state != Uninitialized && name in handlers.notifications
      requires name != Exit && name != Initialized && name != CancelRequest
      modifies this, workerPool, syncExecutor, documents
      ensures Handled(Notification(name, params))
    {
      var job := NotifyJob(|read|, name, params);
      if IsSync(name) {
        Receive(Notification(name, params), SubmittingSync(job), state, false);
      } else {
        Receive(Notification(name, params), Submitting(job), state, false);
      }
      SubmitLater();
    }

    method SubmitLater()
      requires Valid() && (pc.Submitting? || pc.SubmittingSync?)
      modifies this, workerPool, syncExecutor, documents
      ensures Settled()
    {
      Interfere({});
      Submit();
    }

    method HandleResponse(id: RequestId, payload: Json, isError: bool)
      requires Valid() && pc == Ready && state != Exited
      modifies this, workerPool, syncExecutor, documents
      ensures Handled(Response(id, payload, isError))
    {
      var m := Response(id, payload, isError);
      if !id.IntId? {
        Receive(m, Ready, state, false);
        return;
      }
      Receive(m, Matching(|read|, id.n, payload, isError), state, false);
      DeliverResponse();
    }

    method DeliverResponse()
      requires Valid() && pc.Matching?
      modifies this, workerPool, syncExecutor, documents
      ensures Settled()
    {
      Interfere({});
      TakeCallback();
      if pc.Submitting? {
        SubmitLater();
      }
    }

    method ReportError(code: ErrorCode)
      requires Valid() && pc == Ready && state != Exited
      modifies this, workerPool, syncExecutor, documents
      ensures Handled(Invalid(code))
    {
      Receive(Invalid(code), Complaining(|read|, code), state, false);
      AnswerLater();
    }

    method HandleMessage(m: Message)
      requires Valid() && pc == Ready && state != Exited
      modifies this, workerPool, syncExecutor, documents
      ensures Handled(m)
    {
      match m
      case Request(id, name, params) => HandleRequest(id, name, params);
      case Notification(name, params) => HandleNotification(name, params);
      case Response(id, payload, isError) => HandleResponse(id, payload, isError);
      case Invalid(code) => ReportError(code);
    }

    // -------------------------------------------------------------- stopping

    /** Stopping leaves what was read as it is. */
    twostate predicate StillRead()
      reads this, workerPool, syncExecutor, documents
    {
      && Valid() && read == old(read) && state == old(state) && shutdownRequested == old(shutdownRequested)
      && old(trace) <= trace
    }

    /** One step of the read thread towards the end. */
    method StopStep(l: Label)
      requires Valid() && Enabled(View(), l)
      requires l.StopReading? || l.StopSync? || l.JoinSync? || l.StopPool? || l.JoinPool?
      modifies this, workerPool, syncExecutor
      ensures StillRead() && View() == Apply(old(View()), l)
    {
      ghost var before := View();
      StoppingTurn(l);
      Record(before, l);
    }

    method StopSyncExecutor()
      requires Valid() && pc == Ready
      modifies this, workerPool, syncExecutor, documents
      ensures StillRead() && pc == JoiningSync
    {
      StopStep(StopReading);
      Interfere({});
      StopStep(StopSync);
    }

    method StopWorkerPool()
      requires Valid() && pc == JoiningSync && P.AllExited(syncExecutor.View())
      modifies this, workerPool, syncExecutor, documents
      ensures StillRead() && pc == JoiningPool
    {
      Interfere({});
      StopStep(JoinSync);
      Interfere({});
      StopStep(StopPool);
    }

    /** The read thread waits for the workers of a pool: they, or any other thread, go on, in
        any order, and the wait ends. */
    method JoinSyncExecutor()
      requires Valid() && pc == JoiningSync
      modifies this, workerPool, syncExecutor, documents
      ensures StillRead() && pc == JoiningSync && P.AllExited(syncExecutor.View())
    {
      var spare: nat := *;
      while !P.AllExited(syncExecutor.View())
        invariant StillRead() && pc == JoiningSync
        decreases spare, Work(View())
      {
        if spare > 0 {
          spare := spare - 1;
          Interfere({});
        } else {
          ghost var some := SyncLabelHere();
          var l: Label :| !IsReadThread(l) && IsProgress(l) && Enabled(View(), l);
          Progress(l);
        }
      }
    }

    lemma SyncLabelHere() returns (l: Label)
      requires Valid() && pc == JoiningSync && !P.AllExited(syncExecutor.View())
      ensures !IsReadThread(l) && IsProgress(l) && Enabled(View(), l)
    {
      ReachableOrderly(View());
      l := SyncLabel(View());
    }

    method JoinWorkerPool()
      requires Valid() && pc == JoiningPool
      modifies this, workerPool, syncExecutor, documents
      ensures StillRead() && pc == JoiningPool && P.AllExited(workerPool.View())
    {
      var spare: nat := *;
      while !P.AllExited(workerPool.View())
        invariant StillRead() && pc == JoiningPool
        decreases spare, Work(View())
      {
        if spare > 0 {
          spare := spare - 1;
          Interfere({});
        } else {
          ghost var some := PoolLabelHere();
          var l: Label :| !IsReadThread(l) && IsProgress(l) && Enabled(View(), l);
          Progress(l);
        }
      }
    }

    lemma PoolLabelHere() returns (l: Label)
      requires Valid() && pc == JoiningPool && !P.AllExited(workerPool.View())
      ensures !IsReadThread(l) && IsProgress(l) && Enabled(View(), l)
    {
      ReachableOrderly(View());
      l := PoolLabel(View());
    }

    /** A step that brings the end nearer. */
    method Progress(l: Label)
      requires Valid() && Stopping(pc) && !IsReadThread(l) && IsProgress(l) && Enabled(View(), l)
      modifies this, workerPool, syncExecutor, documents
      ensures StillRead() && pc == old(pc) && Work(View()) < old(Work(View()))
    {
      OneSyncWorker(View());
      WorkStep(View(), l);
      KeepsReadThread(View(), l);
      Perform(l);
    }

    // -------------------------------------------------------------- run

    method Return() returns (exitCode: int)
      requires Valid() && pc == JoiningPool && P.AllExited(workerPool.View())
      modifies this, workerPool, syncExecutor, documents
      ensures StillRead() && pc == Returned(exitCode)
    {
      Interfere({});
      exitCode := if shutdownRequested then 0 else 1;
      StopStep(JoinPool);
    }

    /** The whole life of a server, which may have made calls and sent notifications before: it
        reads the input, or as far as `exit`, and when it returns, whatever the other threads did
        meanwhile, every request read has its answer, the store is
        the replay of every synchronisation notification, no token is left, and the exit code
        tells whether `shutdown` was asked after `initialize`. */
    method Run(input: seq<Message>) returns (exitCode: int)
      requires Valid() && pc == Ready && read == []
      modifies this, workerPool, syncExecutor, documents
      ensures Valid() && pc == Returned(exitCode)
      ensures read <= input && (read == input || (read != [] && IsNotice(read[|read| - 1], Exit)))
      ensures exitCode == if ShutdownAfterInitialize(read) then 0 else 1
      ensures Gather(read, RequestIds) == Gather(sent, ReplyIds)
      ensures documents.documents == NoticeReplay(DocumentNotices(read), documents.encoding)
      ensures cancellationTokens == map[]
    {
      ReadAll(input);
      StopSyncExecutor();
      JoinSyncExecutor();
      StopWorkerPool();
      JoinWorkerPool();
      exitCode := Return();
      ExitedMeansExit(View());
      AtReturn(View());
    }

    method ReadAll(input: seq<Message>)
      requires Valid() && pc == Ready && read == []
      modifies this, workerPool, syncExecutor, documents
      ensures Valid() && pc == Ready && read <= input && (read == input || state == Exited)
    {
      NothingReadYet(View());
      var i := 0;
      while state != Exited && i < |input|
        invariant Valid() && pc == Ready && i <= |input| && read == input[..i]
      {
        ReadOne(input[i]);
        i := i + 1;
      }
      Interfere({});
    }

    method ReadOne(m: Message)
      requires Valid() && pc == Ready && state != Exited
      modifies this, workerPool, syncExecutor, documents
      ensures Valid() && pc == Ready && read == old(read) + [m]
    {
      Interfere({});
      HandleMessage(m);
    }

    static lemma NothingReadYet(s: State)
      requires Reachable(s) && s.read == []
      ensures s.lifecycle == Uninitialized
    {
      ReachableOrderly(s);
    }

    static lemma AtReturn(s: State)
      requires Reachable(s) && s.pc.Returned?
      ensures s.pc.exitCode == if ShutdownAfterInitialize(s.read) then 0 else 1
      ensures Gather(s.read, RequestIds) == Gather(s.sent, ReplyIds)
      ensures s.documents == NoticeReplay(DocumentNotices(s.read), s.encoding)
      ensures s.tokens == map[]
    {
      ExitCode(s);
      ResponseIds(s);
      TokenMapExact(s);
      var n := DocumentsAreReplay(s);
      assert DocumentNotices(s.read)[..n] == DocumentNotices(s.read);
    }
  }
}
