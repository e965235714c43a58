/** The language server as a system of atomic steps.

    The actors are the read thread, one serial worker for document synchronisation, the pool
    workers, and any number of threads making outgoing calls. A step is what one of them does
    inside one lock scope, or between two. */
module Server {
  import opened Options
  import opened Protocol
  import opened Unicode
  import opened DocumentStore
  import opened Dispatch
  import P = ThreadPool

  // ---------------------------------------------------------------- tasks

  /** A task on a pool, with the index of the message it was made for. */
  datatype Job =
    | RequestJob(index: nat, id: RequestId, name: Method, params: Params, token: nat)
    | NotifyJob(index: nat, name: Method, params: Params)
    | CallbackJob(index: nat, call: nat, payload: Json, isError: bool)

  /** How far a task has got: a request checks its token, runs its handler, sends the reply and
      erases its token; the others just run. */
  datatype Phase = Start | InHandler | Replying(reply: Reply) | Erasing | Done

  type JobPool = P.Pool<Job, Phase>
  type JobStep = P.Step<Job, Phase>

  // ---------------------------------------------------------------- the read thread

  datatype ReadPc =
    | Ready
    | Answering(index: nat, id: RequestId, reply: Reply)  // about to send
    | Complaining(index: nat, code: ErrorCode)            // about to send
    | Inline(index: nat, id: RequestId, name: Method)     // inside a lifecycle handler
    | Storing(index: nat, id: RequestId, name: Method, params: Params)  // about to store a token
    | Submitting(job: Job)
    | SubmittingSync(job: Job)
    | Cancelling(target: RequestId)
    | Matching(index: nat, number: int, payload: Json, isError: bool)
    | StoppingSync | JoiningSync | StoppingPool | JoiningPool
    | Returned(exitCode: int)

  // ---------------------------------------------------------------- outgoing calls

  datatype Stage = Allocated | Registered | SentOut

  /** An outgoing call: its id, how far it has got, and how many responses had been looked up
      when its callback was registered. */
  datatype Call = Call(id: int, stage: Stage, since: nat)

  /** Lookup number `lookup` found the callback of call number `call`. */
  datatype Match = Match(call: nat, lookup: nat)

  /** Signed 32-bit wrap-around. */
  function Wrap32(n: int): int {
    (n + 0x8000_0000) % 0x1_0000_0000 - 0x8000_0000
  }

  // ---------------------------------------------------------------- duties

  /** What reading a message obliges the server to do, once. */
  datatype Duty =
    | Answer(index: nat, id: RequestId)
    | Report(index: nat)
    | Notify(index: nat)
    | Callback(call: nat)

  /** A frame sent, and the message it replies to. */
  datatype Sent = InReply(index: nat, frame: Frame) | Unasked(frame: Frame)

  // ---------------------------------------------------------------- the state

  /** What is remembered of each request: how many messages had been dealt with when its worker
      checked its token, how its handler ended, and the encoding in a lifecycle result. */
  datatype Log = Log(judgedAt: map<nat, nat>, ended: map<nat, Outcome>, offered: map<nat, Option<PositionEncoding>>)

  datatype State = State(
    handlers: Handlers,
    pc: ReadPc,
    lifecycle: ServerState,
    shutdownRequested: bool,
    tokens: map<RequestId, nat>,   // cancellationTokens_, by number of the token
    flags: seq<bool>,              // the shared flag of each token
    pending: map<int, nat>,        // pendingRequests_, by number of the call
    next: int,                     // nextOutgoingId_
    calls: seq<Call>,
    pool: JobPool,
    sync: JobPool,
    encoding: PositionEncoding,
    documents: Documents,
    // histories
    read: seq<Message>,
    sent: seq<Sent>,
    ran: seq<Duty>,                // notification handlers and callbacks run
    owners: seq<nat>,              // the request each token was made for
    verdicts: map<nat, bool>,      // request -> what its worker saw when it checked the token
    entered: seq<nat>,             // asynchronous requests whose handler was entered
    log: Log,
    lookups: seq<int>,             // ids of responses looked up
    matched: seq<Match>)

  function Init(h: Handlers, numWorkers: nat): State {
    State(h, Ready, Uninitialized, false, map[], [], map[], 1, [],
          P.Init(numWorkers), P.Init(1), UTF16, map[], [], [], [], [], map[], [], Log(map[], map[], map[]), [], [])
  }

  /** The read thread is in the middle of handling the last message read. */
  predicate Busy(pc: ReadPc) {
    pc.Answering? || pc.Complaining? || pc.Inline? || pc.Storing? || pc.Submitting? || pc.SubmittingSync?
    || pc.Cancelling? || pc.Matching?
  }

  /** How many of the messages read the read thread has dealt with. */
  function Dealt(s: State): nat {
    if Busy(s.pc) && s.read != [] then |s.read| - 1 else |s.read|
  }

  // ---------------------------------------------------------------- steps

  datatype Label =
    // the read thread
    | Read(message: Message)
    | StopReading
    | SendAnswer
    | EndInline(outcome: Outcome, encoding: Option<PositionEncoding>)
    | StoreToken
    | SubmitJob
    | CancelToken
    | LookUpCall
    | StopSync | JoinSync | StopPool | JoinPool
    // the pools' own steps
    | PoolStep(step: JobStep)
    | SyncStep(step: JobStep)
    // workers inside a task
    | CheckToken(w: nat)
    | EndHandler(w: nat, outcome: Outcome)
    | SendReply(w: nat)
    | EraseToken(w: nat)
    | CancelOwn(w: nat)
    | RunTask(w: nat)
    | RunSync
    // outgoing calls and notifications, from any thread
    | BeginCall
    | RegisterCall(c: nat)
    | SendCall(c: nat, request: string, params: Json)
    | SendNotice(notice: string, params: Json)

  predicate IsReadThread(l: Label) {
    l.Read? || l.StopReading? || l.SendAnswer? || l.EndInline? || l.StoreToken? || l.SubmitJob?
    || l.CancelToken? || l.LookUpCall? || l.StopSync? || l.JoinSync? || l.StopPool? || l.JoinPool?
  }

  /** Worker w of the pool is inside a request. */
  predicate InRequest(s: State, w: nat, phase: Phase) {
    w < |s.pool.workers| && s.pool.workers[w].Running? && s.pool.workers[w].task.RequestJob?
    && s.pool.workers[w].phase == phase
  }

  /** The steps a pool takes by itself: a task starts at its beginning and ends when it is done. */
  predicate OwnStep(p: JobPool, step: JobStep) {
    && P.Enabled(p, step)
    && match step
       case Lock(_, start) => start == Start
       case Finish(w) => p.workers[w].phase == Done
       case NotifyOne(_) => true
       case NotifyAll => true
       case Spurious(_) => true
       case _ => false
  }

  predicate Enabled(s: State, l: Label) {
    match l
    case Read(_) => s.pc == Ready && s.lifecycle != Exited
    case StopReading => s.pc == Ready
    case SendAnswer => s.pc.Answering? || s.pc.Complaining?
    case EndInline(_, _) => s.pc.Inline?
    case StoreToken => s.pc.Storing?
    case SubmitJob => s.pc.Submitting? || s.pc.SubmittingSync?
    case CancelToken => s.pc.Cancelling?
    case LookUpCall => s.pc.Matching?
    case StopSync => s.pc == StoppingSync
    case JoinSync => s.pc == JoiningSync && P.AllExited(s.sync)
    case StopPool => s.pc == StoppingPool
    case JoinPool => s.pc == JoiningPool && P.AllExited(s.pool)
    case PoolStep(step) => OwnStep(s.pool, step)
    case SyncStep(step) => OwnStep(s.sync, step)
    case CheckToken(w) => InRequest(s, w, Start) && s.pool.workers[w].task.token < |s.flags|
    case EndHandler(w, _) => InRequest(s, w, InHandler)
    case SendReply(w) => w < |s.pool.workers| && s.pool.workers[w].Running? && s.pool.workers[w].phase.Replying?
                         && s.pool.workers[w].task.RequestJob?
    case EraseToken(w) => InRequest(s, w, Erasing)
    case CancelOwn(w) => InRequest(s, w, InHandler) && s.pool.workers[w].task.token < |s.flags|
    case RunTask(w) => w < |s.pool.workers| && s.pool.workers[w].Running? && s.pool.workers[w].phase == Start
                       && !s.pool.workers[w].task.RequestJob?
    case RunSync => |s.sync.workers| > 0 && s.sync.workers[0].Running? && s.sync.workers[0].phase == Start
    case BeginCall => true
    case RegisterCall(c) => c < |s.calls| && s.calls[c].stage == Allocated
    case SendCall(c, _, _) => c < |s.calls| && s.calls[c].stage == Registered
    case SendNotice(_, _) => true
  }

  /** handleRequest, handleNotification and handleResponse up to their first lock. */
  function AfterRead(d: Disposition, index: nat, m: Message): ReadPc {
    match m
    case Request(id, name, params) =>
      (match d
       case Reject(code) => Answering(index, id, Error(code))
       case RunInline => Inline(index, id, name)
       case RunAsync => Storing(index, id, name, params)
       case _ => Ready)
    case Notification(name, params) =>
      (match d
       case Cancel(id) => Cancelling(id)
       case QueueSync => SubmittingSync(NotifyJob(index, name, params))
       case QueuePool => Submitting(NotifyJob(index, name, params))
       case _ => Ready)
    case Response(id, payload, isError) => if d.LookUp? then Matching(index, d.n, payload, isError) else Ready
    case Invalid(code) => Complaining(index, code)
  }

  function ReadStep(s: State, m: Message): State {
    s.(pc := AfterRead(Classify(s.lifecycle, s.handlers, m), |s.read|, m),
       lifecycle := NextState(s.lifecycle, s.handlers, m),
       shutdownRequested := s.shutdownRequested || SetsShutdown(s.lifecycle, s.handlers, m),
       read := s.read + [m])
  }

  function SendAnswerStep(s: State): State
    requires Enabled(s, SendAnswer)
  {
    var frame := if s.pc.Answering? then ReplyFrame(s.pc.id, s.pc.reply) else NullIdError(s.pc.code);
    s.(pc := Ready, sent := s.sent + [InReply(s.pc.index, frame)])
  }

  /** A lifecycle handler ends; a successful `initialize` may choose the position encoding. */
  function EndInlineStep(s: State, outcome: Outcome, encoding: Option<PositionEncoding>): State
    requires s.pc.Inline?
  {
    s.(pc := Answering(s.pc.index, s.pc.id, ReplyOf(outcome)),
       log := s.log.(ended := s.log.ended[s.pc.index := outcome], offered := s.log.offered[s.pc.index := encoding]),
       encoding := if s.pc.name == Initialize && outcome.Returns? && encoding.Some? then encoding.value else s.encoding)
  }

  function StoreTokenStep(s: State): State
    requires s.pc.Storing?
  {
    var t := |s.flags|;
    s.(tokens := s.tokens[s.pc.id := t], flags := s.flags + [false], owners := s.owners + [s.pc.index],
       pc := Submitting(RequestJob(s.pc.index, s.pc.id, s.pc.name, s.pc.params, t)))
  }

  function SubmitStep(s: State): State
    requires Enabled(s, SubmitJob)
  {
    if s.pc.Submitting? then s.(pc := Ready, pool := P.Apply(s.pool, P.Submit(s.pc.job)))
    else s.(pc := Ready, sync := P.Apply(s.sync, P.Submit(s.pc.job)))
  }

  function CancelStep(s: State): State
    requires s.pc.Cancelling?
  {
    var id := s.pc.target;
    s.(pc := Ready,
       flags := if id in s.tokens && s.tokens[id] < |s.flags| then s.flags[s.tokens[id] := true] else s.flags)
  }

  function LookUpStep(s: State): State
    requires s.pc.Matching?
  {
    var n := s.pc.number;
    var s1 := s.(lookups := s.lookups + [n]);
    if n !in s.pending then s1.(pc := Ready)
    else
      s1.(pc := Submitting(CallbackJob(s.pc.index, s.pending[n], s.pc.payload, s.pc.isError)),
          pending := s.pending - {n}, matched := s.matched + [Match(s.pending[n], |s.lookups|)])
  }

  /** Worker w goes on to a later phase of its task. */
  function Advanced(p: JobPool, w: nat, phase: Phase): JobPool
    requires w < |p.workers| && p.workers[w].Running?
  {
    P.Apply(p, P.Advance(w, phase))
  }

  function CheckTokenStep(s: State, w: nat): State
    requires Enabled(s, CheckToken(w))
  {
    var job := s.pool.workers[w].task;
    var cancelled := s.flags[job.token];
    s.(verdicts := s.verdicts[job.index := cancelled],
       log := s.log.(judgedAt := s.log.judgedAt[job.index := Dealt(s)]),
       entered := if cancelled then s.entered else s.entered + [job.index],
       pool := Advanced(s.pool, w, if cancelled then Replying(Error(RequestCancelled)) else InHandler))
  }

  function EndHandlerStep(s: State, w: nat, outcome: Outcome): State
    requires Enabled(s, EndHandler(w, outcome))
  {
    s.(log := s.log.(ended := s.log.ended[s.pool.workers[w].task.index := outcome]),
       pool := Advanced(s.pool, w, Replying(ReplyOf(outcome))))
  }

  function SendReplyStep(s: State, w: nat): State
    requires Enabled(s, SendReply(w))
  {
    var job := s.pool.workers[w].task;
    s.(sent := s.sent + [InReply(job.index, ReplyFrame(job.id, s.pool.workers[w].phase.reply))],
       pool := Advanced(s.pool, w, Erasing))
  }

  function EraseTokenStep(s: State, w: nat): State
    requires Enabled(s, EraseToken(w))
  {
    s.(tokens := s.tokens - {s.pool.workers[w].task.id}, pool := Advanced(s.pool, w, Done))
  }

  function RunTaskStep(s: State, w: nat): State
    requires Enabled(s, RunTask(w))
  {
    s.(ran := s.ran + [DutyOf(s.pool.workers[w].task)], pool := Advanced(s.pool, w, Done))
  }

  /** The serial worker runs the handler of a synchronisation notification. */
  function RunSyncStep(s: State): State
    requires Enabled(s, RunSync)
  {
    var job := s.sync.workers[0].task;
    s.(ran := s.ran + [DutyOf(job)], sync := Advanced(s.sync, 0, Done),
       documents := if job.NotifyJob? then ApplyOp(s.documents, DocumentOpOf(job.name, job.params), s.encoding)
                    else s.documents)
  }

  function BeginStep(s: State): State {
    s.(calls := s.calls + [Call(s.next, Allocated, 0)], next := Wrap32(s.next + 1))
  }

  function SendCallStep(s: State, c: nat, request: string, params: Json): State
    requires c < |s.calls|
  {
    s.(calls := s.calls[c := s.calls[c].(stage := SentOut)],
       sent := s.sent + [Unasked(CallFrame(s.calls[c].id, request, params))])
  }

  function RegisterStep(s: State, c: nat): State
    requires Enabled(s, RegisterCall(c))
  {
    var id := s.calls[c].id;
    s.(calls := s.calls[c := Call(id, Registered, |s.lookups|)],
       pending := if id in s.pending then s.pending else s.pending[id := c])
  }

  function ReadThreadStep(s: State, l: Label): State
    requires Enabled(s, l) && IsReadThread(l)
  {
    match l
    case Read(m) => ReadStep(s, m)
    case StopReading => s.(pc := StoppingSync)
    case SendAnswer => SendAnswerStep(s)
    case EndInline(outcome, encoding) => EndInlineStep(s, outcome, encoding)
    case StoreToken => StoreTokenStep(s)
    case SubmitJob => SubmitStep(s)
    case CancelToken => CancelStep(s)
    case LookUpCall => LookUpStep(s)
    case StopSync => s.(pc := JoiningSync, sync := P.Apply(s.sync, P.BeginShutdown))
    case JoinSync => s.(pc := StoppingPool)
    case StopPool => s.(pc := JoiningPool, pool := P.Apply(s.pool, P.BeginShutdown))
    case JoinPool => s.(pc := Returned(if s.shutdownRequested then 0 else 1))
  }

  function OtherStep(s: State, l: Label): State
    requires Enabled(s, l) && !IsReadThread(l)
  {
    match l
    case PoolStep(step) => s.(pool := P.Apply(s.pool, step))
    case SyncStep(step) => s.(sync := P.Apply(s.sync, step))
    case CheckToken(w) => CheckTokenStep(s, w)
    case EndHandler(w, outcome) => EndHandlerStep(s, w, outcome)
    case SendReply(w) => SendReplyStep(s, w)
    case EraseToken(w) => EraseTokenStep(s, w)
    case CancelOwn(w) => s.(flags := s.flags[s.pool.workers[w].task.token := true])
    case RunTask(w) => RunTaskStep(s, w)
    case RunSync => RunSyncStep(s)
    case BeginCall => BeginStep(s)
    case RegisterCall(c) => RegisterStep(s, c)
    case SendCall(c, request, params) => SendCallStep(s, c, request, params)
    case SendNotice(notice, params) => s.(sent := s.sent + [Unasked(NoticeFrame(notice, params))])
  }

  function Apply(s: State, l: Label): State
    requires Enabled(s, l)
  {
    if IsReadThread(l) then ReadThreadStep(s, l) else OtherStep(s, l)
  }

  function DutyOf(job: Job): Duty {
    match job
    case RequestJob(index, id, _, _, _) => Answer(index, id)
    case NotifyJob(index, _, _) => Notify(index)
    case CallbackJob(_, call, _, _) => Callback(call)
  }

  // ---------------------------------------------------------------- runs

  ghost predicate IsRun(s: State, labels: seq<Label>, t: State)
    decreases |labels|
  {
    if labels == [] then s == t
    else Enabled(s, labels[0]) && IsRun(Apply(s, labels[0]), labels[1..], t)
  }

  ghost predicate Reachable(s: State) {
    exists h, numWorkers, labels :: BuiltIn(h) && IsRun(Init(h, numWorkers), labels, s)
  }

  lemma {:induction false} RunAppend(s: State, labels: seq<Label>, t: State, l: Label)
    requires IsRun(s, labels, t) && Enabled(t, l)
    ensures IsRun(s, labels + [l], Apply(t, l))
    decreases |labels|
  {
    if labels == [] {
      assert ([] + [l])[1..] == [];
      assert IsRun(Apply(t, l), [], Apply(t, l));
    } else {
      RunAppend(Apply(s, labels[0]), labels[1..], t, l);
      assert (labels + [l])[1..] == labels[1..] + [l];
    }
  }
}
