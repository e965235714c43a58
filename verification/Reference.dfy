/** What the messages read and the handlers registered determine by themselves: which requests
    are refused and why, which notifications are handled, and what becomes of the documents. The
    dispatcher is measured against these definitions, which do not mention it. */
module Reference {
  import opened Options
  import opened Protocol
  import opened Unicode
  import opened DocumentStore
  import opened Convergence
  import opened Dispatch

  predicate IsNotice(m: Message, name: Method) {
    m.Notification? && m.name == name
  }

  // ---------------------------------------------------------------- requests

  ghost predicate TakesShutdown(read: seq<Message>, j: nat)
    requires j < |read|
  {
    IsRequestFor(read[j], Shutdown) && Asked(read[..j], Initialize)
  }

  /** `shutdown` was asked after `initialize`, and no `initialized` came since. */
  ghost predicate Refusing(read: seq<Message>) {
    exists j :: 0 <= j < |read| && TakesShutdown(read, j) && NoNotice(read, j, Initialized)
  }

  ghost predicate NoNotice(read: seq<Message>, j: nat, name: Method) {
    forall k | j < k < |read| :: !IsNotice(read[k], name)
  }

  /** Why request i is refused, if it is. */
  ghost function Refusal(h: Handlers, read: seq<Message>, i: nat): Option<ErrorCode>
    requires i < |read| && read[i].Request?
  {
    if !Asked(read[..i], Initialize) then
      if read[i].name == Initialize then None else Some(ServerNotInitialized)
    else if Refusing(read[..i]) || read[i].name == Initialize then Some(InvalidRequest)
    else if read[i].name !in h.requests then Some(MethodNotFound)
    else None
  }

  predicate IsLifecycle(name: Method) {
    name == Initialize || name == Shutdown
  }

  /** Request i goes to a worker. */
  ghost predicate ForWorker(h: Handlers, read: seq<Message>, i: nat) {
    i < |read| && read[i].Request? && Refusal(h, read, i) == None && !IsLifecycle(read[i].name)
  }

  // ---------------------------------------------------------------- notifications

  predicate IsDocumentName(name: Method) {
    name == DidOpen || name == DidChange || name == DidClose || name == DidSave
  }

  /** Notification i is handled on a pool: on the serial executor if it concerns a document. */
  ghost predicate ForPool(h: Handlers, read: seq<Message>, i: nat) {
    && i < |read| && read[i].Notification? && Asked(read[..i], Initialize) && read[i].name in h.notifications
    && read[i].name != Exit && read[i].name != Initialized && read[i].name != CancelRequest
  }

  /** The cancellation of a request id. */
  predicate Cancels(m: Message, id: RequestId) {
    m == Notification(CancelRequest, CancelParams(id))
  }

  /** Message j cancels request i. */
  predicate Cancelled(read: seq<Message>, i: int, j: int) {
    0 <= i < j < |read| && read[i].Request? && Cancels(read[j], read[i].id)
  }

  /** The client cancelled request i, after sending it. */
  ghost predicate CancelRead(read: seq<Message>, i: nat) {
    exists j :: Cancelled(read, i, j)
  }

  // ---------------------------------------------------------------- documents

  /** The notifications about documents read after `initialize` was asked, in order. */
  ghost function DocumentNotices(read: seq<Message>): seq<Message> {
    if read == [] then []
    else
      var init, m := read[..|read| - 1], read[|read| - 1];
      var counts :=
        Asked(init, Initialize) && m.Notification?
        && (m.name == DidOpen || m.name == DidChange || m.name == DidClose);
      DocumentNotices(init) + if counts then [m] else []
  }

  /** What one notification does to the documents. */
  function Effect(docs: Documents, m: Message, enc: PositionEncoding): Documents {
    if !m.Notification? then docs
    else if m.name == DidOpen && m.params.OpenParams? then docs[m.params.item.uri := m.params.item]
    else if m.name == DidClose && m.params.CloseParams? then docs - {m.params.uri}
    else if m.name == DidChange && m.params.ChangeParams? && m.params.uri in docs then
      var item := docs[m.params.uri];
      var edited := ApplyEdits(item.text, m.params.changes, enc);
      var version := if edited.complete then m.params.version else item.version;
      docs[m.params.uri := item.(text := edited.text, version := version)]
    else docs
  }

  function NoticeReplay(notices: seq<Message>, enc: PositionEncoding): Documents {
    if notices == [] then map[]
    else Effect(NoticeReplay(notices[..|notices| - 1], enc), notices[|notices| - 1], enc)
  }

  /** What a client sends for each thing it does with a document. */
  function ClientMessage(op: ClientOp): Message {
    match op
    case OpenText(uri, document) => Notification(DidOpen, OpenParams(EncodeDocument(uri, document)))
    case ChangeText(uri, version, changes) =>
      Notification(DidChange, ChangeParams(uri, version, EncodeChanges(changes)))
    case CloseText(uri) => Notification(DidClose, CloseParams(uri))
  }

  function ClientMessages(ops: seq<ClientOp>): seq<Message> {
    seq(|ops|, i requires 0 <= i < |ops| => ClientMessage(ops[i]))
  }

  // ---------------------------------------------------------------- the dispatcher agrees: states

  lemma RefusingAppend(read: seq<Message>, m: Message)
    ensures Refusing(read + [m])
       <==> (IsRequestFor(m, Shutdown) && Asked(read, Initialize)) || (Refusing(read) && !IsNotice(m, Initialized))
  {
    var all := read + [m];
    assert all[..|read|] == read && all[|read|] == m;
    forall j | 0 <= j < |read| ensures TakesShutdown(all, j) <==> TakesShutdown(read, j) {
      assert all[..j] == read[..j];
    }
    if Refusing(read) && !IsNotice(m, Initialized) {
      var j :| 0 <= j < |read| && TakesShutdown(read, j) && NoNotice(read, j, Initialized);
      assert TakesShutdown(all, j) && NoNotice(all, j, Initialized);
    }
    if IsRequestFor(m, Shutdown) && Asked(read, Initialize) {
      assert TakesShutdown(all, |read|) && NoNotice(all, |read|, Initialized);
    }
    if Refusing(all) {
      var j :| 0 <= j < |all| && TakesShutdown(all, j) && NoNotice(all, j, Initialized);
      if j < |read| {
        assert forall k | j < k < |read| :: all[k] == read[k];
        assert TakesShutdown(read, j) && NoNotice(read, j, Initialized);
        assert !IsNotice(all[|read|], Initialized);
      }
    }
  }

  /** The lifecycle state is what the messages say. */
  lemma {:induction false} StateReference(h: Handlers, read: seq<Message>)
    requires BuiltIn(h) && Readable(h, read)
    ensures StateAfter(h, read) == Exited <==> read != [] && IsNotice(read[|read| - 1], Exit)
    ensures StateAfter(h, read) != Exited ==>
      (StateAfter(h, read) == Uninitialized <==> !Asked(read, Initialize))
      && (StateAfter(h, read) == ShuttingDown <==> Refusing(read))
    decreases |read|
  {
    UninitializedTrace(h, read);
    if read == [] {
    } else {
      var init, m := read[..|read| - 1], read[|read| - 1];
      ReadablePrefix(h, read, |init|);
      StateReference(h, init);
      assert read == init + [m];
      RefusingAppend(init, m);
    }
  }

  // ---------------------------------------------------------------- dispositions

  /** What the dispatcher does with a request is what the table says. */
  lemma RequestTable(h: Handlers, read: seq<Message>, i: nat)
    requires BuiltIn(h) && Readable(h, read) && i < |read| && read[i].Request?
    ensures DispositionAt(h, read, i)
         == match Refusal(h, read, i)
            case Some(code) => Reject(code)
            case None => if IsLifecycle(read[i].name) then RunInline else RunAsync
  {
    ReadablePrefix(h, read, i);
    StateReference(h, read[..i]);
  }

  lemma NoticeTable(h: Handlers, read: seq<Message>, i: nat)
    requires BuiltIn(h) && Readable(h, read) && i < |read| && read[i].Notification?
    ensures DispositionAt(h, read, i).QueueSync? <==> ForPool(h, read, i) && IsDocumentName(read[i].name)
    ensures DispositionAt(h, read, i).QueuePool? <==> ForPool(h, read, i) && !IsDocumentName(read[i].name)
    ensures forall id | Cancels(read[i], id) && Asked(read[..i], Initialize) :: DispositionAt(h, read, i) == Cancel(id)
  {
    ReadablePrefix(h, read, i);
    StateReference(h, read[..i]);
  }

  // ---------------------------------------------------------------- documents

  lemma EffectIsOp(docs: Documents, m: Message, enc: PositionEncoding)
    requires m.Notification? && IsDocumentName(m.name)
    ensures ApplyOp(docs, DocumentOpOf(m.name, m.params), enc) == Effect(docs, m, enc)
  {
  }

  /** One more message: the operations and the notices grow together, but for a save. */
  lemma NoticesGrow(h: Handlers, read: seq<Message>, n: nat)
    requires BuiltIn(h) && Readable(h, read) && |read| == n + 1
    ensures var m, counts := read[n], DispositionAt(h, read, n).QueueSync?;
      && SyncOps(h, read) == SyncOps(h, read[..n]) + (if counts then [DocumentOpOf(m.name, m.params)] else [])
      && DocumentNotices(read) == DocumentNotices(read[..n]) + (if counts && m.name != DidSave then [m] else [])
      && (counts ==> m.Notification? && IsDocumentName(m.name))
  {
    if read[n].Notification? {
      NoticeTable(h, read, n);
    }
  }

  lemma ReplaySnoc(ops: seq<DocumentOp>, op: DocumentOp, enc: PositionEncoding)
    ensures Replay(ops + [op], enc) == ApplyOp(Replay(ops, enc), op, enc)
  {
    assert (ops + [op])[..|ops|] == ops;
  }

  lemma NoticeReplaySnoc(notices: seq<Message>, m: Message, enc: PositionEncoding)
    ensures NoticeReplay(notices + [m], enc) == Effect(NoticeReplay(notices, enc), m, enc)
  {
    assert (notices + [m])[..|notices|] == notices;
  }

  lemma ReplayTogether(ops: seq<DocumentOp>, notices: seq<Message>, m: Message, enc: PositionEncoding)
    requires Replay(ops, enc) == NoticeReplay(notices, enc) && m.Notification? && IsDocumentName(m.name)
    ensures Replay(ops + [DocumentOpOf(m.name, m.params)], enc)
         == NoticeReplay(notices + (if m.name != DidSave then [m] else []), enc)
  {
    ReplaySnoc(ops, DocumentOpOf(m.name, m.params), enc);
    EffectIsOp(Replay(ops, enc), m, enc);
    NoticeReplaySnoc(notices, m, enc);
    assert notices + [] == notices;
  }

  /** Replaying all the operations counted is replaying the notices. */
  lemma {:induction false} ReplayIsNotices(h: Handlers, read: seq<Message>, enc: PositionEncoding)
    requires BuiltIn(h) && Readable(h, read)
    ensures Replay(SyncOps(h, read), enc) == NoticeReplay(DocumentNotices(read), enc)
    decreases |read|
  {
    if read == [] {
    } else {
      var n := |read| - 1;
      var m, ops, notices := read[n], SyncOps(h, read[..n]), DocumentNotices(read[..n]);
      ReadablePrefix(h, read, n);
      ReplayIsNotices(h, read[..n], enc);
      NoticesGrow(h, read, n);
      if DispositionAt(h, read, n).QueueSync? {
        ReplayTogether(ops, notices, m, enc);
      } else {
        assert ops + [] == ops && notices + [] == notices;
      }
    }
  }

  lemma {:induction false} NoticesCount(h: Handlers, read: seq<Message>)
    requires BuiltIn(h) && Readable(h, read) && DocumentNotices(read) != []
    ensures SyncOps(h, read) != []
    decreases |read|
  {
    var n := |read| - 1;
    ReadablePrefix(h, read, n);
    NoticesGrow(h, read, n);
    if DocumentNotices(read[..n]) != [] {
      NoticesCount(h, read[..n]);
    }
  }

  /** Any first part of the operations stands for a first part of the notices. */
  lemma {:induction false} PrefixIsNotices(h: Handlers, read: seq<Message>, n: nat, enc: PositionEncoding)
    returns (k: nat)
    requires BuiltIn(h) && Readable(h, read) && n <= |SyncOps(h, read)|
    ensures k <= |DocumentNotices(read)|
    ensures Replay(SyncOps(h, read)[..n], enc) == NoticeReplay(DocumentNotices(read)[..k], enc)
    ensures n == |SyncOps(h, read)| ==> k == |DocumentNotices(read)|
    decreases |read|
  {
    TakeAll(SyncOps(h, read));
    TakeAll(DocumentNotices(read));
    if n == |SyncOps(h, read)| {
      ReplayIsNotices(h, read, enc);
      k := |DocumentNotices(read)|;
    } else {
      var init := read[..|read| - 1];
      ReadablePrefix(h, read, |init|);
      NoticesGrow(h, read, |init|);
      k := PrefixIsNotices(h, init, n, enc);
      assert SyncOps(h, read)[..n] == SyncOps(h, init)[..n];
      assert DocumentNotices(read)[..k] == DocumentNotices(init)[..k];
    }
  }

  lemma ClientEffect(docs: Documents, op: ClientOp, enc: PositionEncoding)
    ensures Effect(docs, ClientMessage(op), enc) == ApplyOp(docs, EncodeOp(op), enc)
  {
  }

  /** The notices of a client's history are its operations, encoded. */
  lemma {:induction false} NoticesOfClient(ops: seq<ClientOp>, enc: PositionEncoding)
    ensures NoticeReplay(ClientMessages(ops), enc) == Replay(EncodeOps(ops), enc)
    decreases |ops|
  {
    if ops == [] {
    } else {
      var n := |ops| - 1;
      NoticesOfClient(ops[..n], enc);
      assert ClientMessages(ops) == ClientMessages(ops[..n]) + [ClientMessage(ops[n])];
      NoticeReplaySnoc(ClientMessages(ops[..n]), ClientMessage(ops[n]), enc);
      ClientEffect(Replay(EncodeOps(ops[..n]), enc), ops[n], enc);
      EncodeOpsPrefix(ops, n);
      ReplayLast(EncodeOps(ops), n, enc);
    }
  }
}
