/** How the read thread disposes of each message, and what a trace of messages amounts to. */
module Dispatch {
  import opened Protocol
  import opened DocumentStore

  datatype ServerState = Uninitialized | Initializing | Running | ShuttingDown | Exited

  /** The methods handlers are registered for. */
  datatype Handlers = Handlers(requests: set<Method>, notifications: set<Method>)

  const BUILT_IN_REQUESTS: set<Method> := {Initialize, Shutdown}
  const BUILT_IN_NOTIFICATIONS: set<Method> :=
    {Initialized, Exit, CancelRequest, DidOpen, DidChange, DidClose, DidSave}

  predicate BuiltIn(h: Handlers) {
    BUILT_IN_REQUESTS <= h.requests && BUILT_IN_NOTIFICATIONS <= h.notifications
  }

  predicate IsSync(m: Method) {
    m.DidOpen? || m.DidChange? || m.DidClose? || m.DidSave?
  }

  datatype Disposition =
    | Reject(code: ErrorCode)    // answer the request with an error
    | RunInline                  // a lifecycle request, on the read thread
    | RunAsync                   // a request, on the worker pool
    | Complain(code: ErrorCode)  // an error frame with a null id
    | SetRunning                 // the `initialized` notification
    | Leave                      // the `exit` notification
    | Cancel(id: RequestId)
    | QueueSync                  // a notification, on the serial executor
    | QueuePool                  // a notification, on the worker pool
    | LookUp(n: int)             // a response to an outgoing request
    | Drop

  function Classify(l: ServerState, h: Handlers, m: Message): Disposition {
    match m
    case Invalid(code) => Complain(code)
    case Response(id, _, _) => if id.IntId? then LookUp(id.n) else Drop
    case Request(_, name, _) =>
      if l == Uninitialized && name != Initialize then Reject(ServerNotInitialized)
      else if l == ShuttingDown then Reject(InvalidRequest)
      else if l != Uninitialized && name == Initialize then Reject(InvalidRequest)
      else if name !in h.requests then Reject(MethodNotFound)
      else if name == Initialize || name == Shutdown then RunInline
      else RunAsync
    case Notification(name, params) =>
      if name == Exit then Leave
      else if l == Uninitialized || name !in h.notifications then Drop
      else if name == Initialized then SetRunning
      else if name == CancelRequest then if params.CancelParams? then Cancel(params.id) else Drop
      else if IsSync(name) then QueueSync
      else QueuePool
  }

  function NextState(l: ServerState, h: Handlers, m: Message): ServerState {
    match Classify(l, h, m)
    case RunInline => if m.name == Initialize then Initializing else ShuttingDown
    case SetRunning => Running
    case Leave => Exited
    case _ => l
  }

  predicate SetsShutdown(l: ServerState, h: Handlers, m: Message) {
    Classify(l, h, m).RunInline? && m.name == Shutdown
  }

  // ---------------------------------------------------------------- traces

  /** The lifecycle state after reading a trace. */
  function StateAfter(h: Handlers, read: seq<Message>): ServerState {
    if read == [] then Uninitialized else NextState(StateAfter(h, read[..|read| - 1]), h, read[|read| - 1])
  }

  function ShutdownAfter(h: Handlers, read: seq<Message>): bool {
    read != []
      && (ShutdownAfter(h, read[..|read| - 1]) || SetsShutdown(StateAfter(h, read[..|read| - 1]), h, read[|read| - 1]))
  }

  /** The disposition of message i of a trace. */
  function DispositionAt(h: Handlers, read: seq<Message>, i: nat): Disposition
    requires i < |read|
  {
    Classify(StateAfter(h, read[..i]), h, read[i])
  }

  /** A trace as the read loop produces it: nothing is read after `exit`. */
  ghost predicate Readable(h: Handlers, read: seq<Message>) {
    forall k | 0 <= k < |read| :: StateAfter(h, read[..k]) != Exited
  }

  predicate IsRequestFor(m: Message, name: Method) {
    m.Request? && m.name == name
  }

  ghost predicate Asked(read: seq<Message>, name: Method) {
    exists i :: 0 <= i < |read| && IsRequestFor(read[i], name)
  }

  /** The document operations of the synchronisation notifications that count, in read order. */
  function SyncOps(h: Handlers, read: seq<Message>): seq<DocumentOp> {
    if read == [] then []
    else
      var init, m := read[..|read| - 1], read[|read| - 1];
      SyncOps(h, init) + if DispositionAt(h, read, |init|).QueueSync? then [DocumentOpOf(m.name, m.params)] else []
  }

  // ---------------------------------------------------------------- lifecycle

  /** The server is uninitialised exactly as long as nobody asked `initialize` (or left). */
  lemma {:induction false} UninitializedTrace(h: Handlers, read: seq<Message>)
    requires BuiltIn(h) && Readable(h, read)
    ensures StateAfter(h, read) != Exited ==> (StateAfter(h, read) == Uninitialized <==> !Asked(read, Initialize))
    ensures StateAfter(h, read) == Uninitialized ==> SyncOps(h, read) == []
    decreases |read|
  {
    if read == [] {
    } else {
      var init, m := read[..|read| - 1], read[|read| - 1];
      ReadablePrefix(h, read, |init|);
      UninitializedTrace(h, init);
      assert read == init + [m];
      AskedAppend(init, m, Initialize);
    }
  }

  lemma ReadablePrefix(h: Handlers, read: seq<Message>, n: nat)
    requires Readable(h, read) && n <= |read|
    ensures Readable(h, read[..n])
    ensures n < |read| ==> StateAfter(h, read[..n]) != Exited
  {
    forall k | 0 <= k < n ensures StateAfter(h, read[..n][..k]) != Exited {
      assert read[..n][..k] == read[..k];
    }
  }

  /** Nothing is read after `exit`. */
  lemma ExitIsLast(h: Handlers, read: seq<Message>, k: nat)
    requires Readable(h, read) && k < |read| && read[k].Notification? && read[k].name == Exit
    ensures k == |read| - 1
  {
    assert read[..k + 1][..k] == read[..k];
    assert StateAfter(h, read[..k + 1]) == Exited;
  }

  lemma AskedAppend(read: seq<Message>, m: Message, name: Method)
    ensures Asked(read + [m], name) <==> Asked(read, name) || IsRequestFor(m, name)
  {
    if Asked(read, name) {
      var i :| 0 <= i < |read| && IsRequestFor(read[i], name);
      assert IsRequestFor((read + [m])[i], name);
    }
    if IsRequestFor(m, name) {
      assert IsRequestFor((read + [m])[|read|], name);
    }
  }

  /** `shutdown` asked after `initialize`, whatever came between and however handlers ended. */
  ghost predicate ShutdownAfterInitialize(read: seq<Message>) {
    exists i, j :: 0 <= i < j < |read| && IsRequestFor(read[i], Initialize) && IsRequestFor(read[j], Shutdown)
  }

  lemma ShutdownAppend(read: seq<Message>, m: Message)
    ensures ShutdownAfterInitialize(read + [m])
       <==> ShutdownAfterInitialize(read) || (Asked(read, Initialize) && IsRequestFor(m, Shutdown))
  {
    var all := read + [m];
    if ShutdownAfterInitialize(read) {
      var i, j :| 0 <= i < j < |read| && IsRequestFor(read[i], Initialize) && IsRequestFor(read[j], Shutdown);
      assert IsRequestFor(all[i], Initialize) && IsRequestFor(all[j], Shutdown);
    }
    if Asked(read, Initialize) && IsRequestFor(m, Shutdown) {
      var i :| 0 <= i < |read| && IsRequestFor(read[i], Initialize);
      assert IsRequestFor(all[i], Initialize) && IsRequestFor(all[|read|], Shutdown);
    }
    if ShutdownAfterInitialize(all) {
      var i, j :| 0 <= i < j < |all| && IsRequestFor(all[i], Initialize) && IsRequestFor(all[j], Shutdown);
      assert IsRequestFor(read[i], Initialize);
      if j < |read| {
        assert IsRequestFor(read[j], Shutdown);
      }
    }
  }

  /** The shutdown flag says exactly that. */
  lemma {:induction false} ShutdownTrace(h: Handlers, read: seq<Message>)
    requires BuiltIn(h) && Readable(h, read)
    ensures ShutdownAfter(h, read) <==> ShutdownAfterInitialize(read)
    ensures StateAfter(h, read) == ShuttingDown ==> ShutdownAfter(h, read)
    decreases |read|
  {
    if read == [] {
    } else {
      var init, m := read[..|read| - 1], read[|read| - 1];
      ReadablePrefix(h, read, |init|);
      ShutdownTrace(h, init);
      UninitializedTrace(h, init);
      assert read == init + [m];
      ShutdownAppend(init, m);
    }
  }

  /** Only the first `initialize` request reaches its handler; before it, no handler runs but
      that of `exit`. */
  lemma InitializeOnce(h: Handlers, read: seq<Message>, i: nat)
    requires BuiltIn(h) && Readable(h, read) && i < |read|
    ensures DispositionAt(h, read, i).RunInline? && read[i].name == Initialize
       <==> IsRequestFor(read[i], Initialize) && !Asked(read[..i], Initialize)
    ensures !Asked(read[..i], Initialize) && !IsRequestFor(read[i], Initialize)
        ==> var d := DispositionAt(h, read, i); d.Reject? || d.Complain? || d.Leave? || d.LookUp? || d.Drop?
  {
    ReadablePrefix(h, read, i);
    UninitializedTrace(h, read[..i]);
  }

  lemma InitializeFirst(h: Handlers, read: seq<Message>, i: nat)
    requires BuiltIn(h) && Readable(h, read) && i < |read|
    requires DispositionAt(h, read, i).RunInline? && read[i].name == Initialize
    ensures forall j | 0 <= j < i :: !IsRequestFor(read[j], Initialize)
  {
    InitializeOnce(h, read, i);
    forall j | 0 <= j < i ensures !IsRequestFor(read[j], Initialize) {
      assert read[..i][j] == read[j];
    }
  }

  /** Before `initialize` is asked every message is dropped, refused, or a response or `exit`. */
  lemma Idle(h: Handlers, read: seq<Message>, i: nat)
    requires BuiltIn(h) && Readable(h, read) && !Asked(read, Initialize) && i < |read|
    ensures var d := DispositionAt(h, read, i); d.Reject? || d.Complain? || d.Leave? || d.LookUp? || d.Drop?
  {
    assert forall j | 0 <= j < i :: read[..i][j] == read[j];
    InitializeOnce(h, read, i);
  }

  lemma {:induction false} IdleOps(h: Handlers, read: seq<Message>)
    requires BuiltIn(h) && Readable(h, read) && !Asked(read, Initialize)
    ensures SyncOps(h, read) == []
    decreases |read|
  {
    if read == [] {
    } else {
      var init, m := read[..|read| - 1], read[|read| - 1];
      ReadablePrefix(h, read, |init|);
      assert read == init + [m];
      AskedAppend(init, m, Initialize);
      IdleOps(h, init);
      Idle(h, read, |init|);
    }
  }
}
