/** The messages a server reads and the frames it sends. JSON values are opaque texts; the
    parameters of the built-in notifications are given as their handlers decode them. */
module Protocol {
  import opened DocumentStore

  type Json = string

  datatype RequestId = IntId(n: int) | StringId(s: string)

  datatype Method =
    | Initialize | Shutdown | Initialized | Exit | CancelRequest
    | DidOpen | DidChange | DidClose | DidSave
    | Custom(text: string)

  datatype Params =
    | OpenParams(item: TextDocumentItem)
    | ChangeParams(uri: DocumentUri, version: int, changes: seq<ChangeEvent>)
    | CloseParams(uri: DocumentUri)
    | CancelParams(id: RequestId)
    | OtherParams(json: Json)

  datatype ErrorCode =
    | ParseError | InvalidRequest | MethodNotFound | InternalError
    | ServerNotInitialized | RequestCancelled | UserCode(n: int)

  /** What parsing a message can give: the invalid ones carry the error to report. */
  datatype Message =
    | Request(id: RequestId, name: Method, params: Params)
    | Notification(name: Method, params: Params)
    | Invalid(code: ErrorCode)
    | Response(id: RequestId, payload: Json, isError: bool)

  datatype Reply = Result(json: Json) | Error(code: ErrorCode)

  datatype Frame =
    | ReplyFrame(id: RequestId, reply: Reply)
    | NullIdError(code: ErrorCode)
    | CallFrame(number: int, request: string, params: Json)
    | NoticeFrame(notice: string, params: Json)

  /** How a request handler ends. */
  datatype Outcome = Returns(json: Json) | ThrowsCancelled | ThrowsRpc(code: ErrorCode) | ThrowsOther

  function ReplyOf(outcome: Outcome): Reply {
    match outcome
    case Returns(json) => Result(json)
    case ThrowsCancelled => Error(RequestCancelled)
    case ThrowsRpc(code) => Error(code)
    case ThrowsOther => Error(InternalError)
  }

  /** The document operation of a synchronisation notification. Parameters that do not decode
      make the handler throw before it touches the store; a save changes nothing. */
  function DocumentOpOf(name: Method, params: Params): DocumentOp {
    match (name, params)
    case (DidOpen, OpenParams(item)) => Open(item)
    case (DidChange, ChangeParams(uri, version, changes)) => Change(uri, version, changes)
    case (DidClose, CloseParams(uri)) => Close(uri)
    case _ => Nothing
  }
}
