/** Client and server hold the same text.

    The client's text is a sequence of Unicode scalars, edited by index. The server's is the
    UTF-8 bytes, edited by the store. */
module Convergence {
  import opened Options
  import opened Words
  import opened Unicode
  import opened Positions
  import opened DocumentStore

  datatype ClientChange = Splice(range: Range, text: seq<Scalar>) | Whole(text: seq<Scalar>)

  datatype ClientDocument = ClientDocument(languageId: string, version: int, text: seq<Scalar>)
  type ClientDocuments = map<DocumentUri, ClientDocument>

  datatype ClientOp =
    | OpenText(uri: DocumentUri, document: ClientDocument)
    | ChangeText(uri: DocumentUri, version: int, changes: seq<ClientChange>)
    | CloseText(uri: DocumentUri)

  // ---------------------------------------------------------------- the client

  function ClientEdit(doc: seq<Scalar>, change: ClientChange, enc: PositionEncoding): seq<Scalar> {
    match change
    case Whole(text) => text
    case Splice(range, text) => doc[..Index(doc, range.start, enc)] + text + doc[Index(doc, range.end, enc)..]
  }

  function ClientEdits(doc: seq<Scalar>, changes: seq<ClientChange>, enc: PositionEncoding): seq<Scalar>
    decreases |changes|
  {
    if changes == [] then doc else ClientEdits(ClientEdit(doc, changes[0], enc), changes[1..], enc)
  }

  function ClientApply(docs: ClientDocuments, op: ClientOp, enc: PositionEncoding): ClientDocuments {
    match op
    case OpenText(uri, document) => docs[uri := document]
    case CloseText(uri) => docs - {uri}
    case ChangeText(uri, version, changes) =>
      if uri !in docs then docs
      else docs[uri := docs[uri].(version := version, text := ClientEdits(docs[uri].text, changes, enc))]
  }

  function ClientReplay(ops: seq<ClientOp>, enc: PositionEncoding): ClientDocuments {
    if ops == [] then map[] else ClientApply(ClientReplay(ops[..|ops| - 1], enc), ops[|ops| - 1], enc)
  }

  // ---------------------------------------------------------------- what travels

  function EncodeChange(change: ClientChange): ChangeEvent {
    match change
    case Whole(text) => ChangeEvent(None, Encode(text))
    case Splice(range, text) => ChangeEvent(Some(range), Encode(text))
  }

  function EncodeChanges(changes: seq<ClientChange>): seq<ChangeEvent> {
    if changes == [] then [] else [EncodeChange(changes[0])] + EncodeChanges(changes[1..])
  }

  function EncodeDocument(uri: DocumentUri, d: ClientDocument): TextDocumentItem {
    TextDocumentItem(uri, d.languageId, d.version, Encode(d.text))
  }

  function EncodeOp(op: ClientOp): DocumentOp {
    match op
    case OpenText(uri, document) => Open(EncodeDocument(uri, document))
    case ChangeText(uri, version, changes) => Change(uri, version, EncodeChanges(changes))
    case CloseText(uri) => Close(uri)
  }

  function EncodeOps(ops: seq<ClientOp>): seq<DocumentOp> {
    seq(|ops|, i requires 0 <= i < |ops| => EncodeOp(ops[i]))
  }

  function EncodeAll(docs: ClientDocuments): Documents {
    map uri | uri in docs :: EncodeDocument(uri, docs[uri])
  }

  // ---------------------------------------------------------------- well-behaved clients

  /** The client sends forward ranges whose ends the scanner gets right. */
  ghost predicate ValidChange(doc: seq<Scalar>, change: ClientChange, enc: PositionEncoding) {
    change.Splice? ==>
      && PositionLeq(change.range.start, change.range.end)
      && Exact(doc, change.range.start, enc) && Exact(doc, change.range.end, enc)
  }

  ghost predicate ValidChanges(doc: seq<Scalar>, changes: seq<ClientChange>, enc: PositionEncoding)
    decreases |changes|
  {
    changes == [] ||
    (ValidChange(doc, changes[0], enc) && ValidChanges(ClientEdit(doc, changes[0], enc), changes[1..], enc))
  }

  ghost predicate ValidOp(docs: ClientDocuments, op: ClientOp, enc: PositionEncoding) {
    op.ChangeText? && op.uri in docs ==> ValidChanges(docs[op.uri].text, op.changes, enc)
  }

  ghost predicate ValidOps(ops: seq<ClientOp>, enc: PositionEncoding) {
    forall i | 0 <= i < |ops| :: ValidOp(ClientReplay(ops[..i], enc), ops[i], enc)
  }

  // ---------------------------------------------------------------- convergence

  /** One edit: the bytes the server is left with are the bytes of the client's new text. */
  lemma EditConverges(doc: seq<Scalar>, change: ClientChange, enc: PositionEncoding)
    requires ValidChange(doc, change, enc)
    ensures ApplyEdit(Encode(doc), EncodeChange(change), enc) == Some(Encode(ClientEdit(doc, change, enc)))
  {
    if change.Splice? {
      var a, b := change.range.start, change.range.end;
      var i, j := Index(doc, a, enc), Index(doc, b, enc);
      OffsetIsIndex(doc, a, enc);
      OffsetIsIndex(doc, b, enc);
      IndexMonotone(doc, a, b, enc);
      SpliceBytes(doc, i, j, change.text);
    }
  }

  lemma SpliceBytes(doc: seq<Scalar>, i: nat, j: nat, ins: seq<Scalar>)
    requires i <= j <= |doc|
    ensures var o, p := ByteOffset(doc, i), ByteOffset(doc, j);
      o <= p && Replace(Encode(doc), o, Sub64(p, o), Encode(ins)) == Some(Encode(doc[..i] + ins + doc[j..]))
  {
    ByteOffsetMonotone(doc, i, j);
    SplitAt(doc, i);
    SplitAt(doc, j);
    EncodeConcat(doc[..i], ins);
    EncodeConcat(doc[..i] + ins, doc[j..]);
    ReplaceForward(Encode(doc), ByteOffset(doc, i), ByteOffset(doc, j), Encode(ins));
  }

  lemma ReplaceForward(text: seq<byte>, start: nat, end: nat, ins: seq<byte>)
    requires start <= end <= |text|
    ensures Replace(text, start, Sub64(end, start), ins) == Some(text[..start] + ins + text[end..])
  {
    if end == |text| {
      assert text[..start] + ins + text[end..] == text[..start] + ins;
    }
  }

  lemma {:induction false} EditsConverge(doc: seq<Scalar>, changes: seq<ClientChange>, enc: PositionEncoding)
    requires ValidChanges(doc, changes, enc)
    ensures ApplyEdits(Encode(doc), EncodeChanges(changes), enc) == Edited(Encode(ClientEdits(doc, changes, enc)), true)
    decreases |changes|
  {
    if changes == [] {
    } else {
      EditConverges(doc, changes[0], enc);
      EditsConverge(ClientEdit(doc, changes[0], enc), changes[1..], enc);
    }
  }

  lemma ChangeConverges(docs: ClientDocuments, uri: DocumentUri, version: int, changes: seq<ClientChange>,
          enc: PositionEncoding)
    requires uri in docs && ValidChanges(docs[uri].text, changes, enc)
    ensures ApplyOp(EncodeAll(docs), Change(uri, version, EncodeChanges(changes)), enc)
         == EncodeAll(ClientApply(docs, ChangeText(uri, version, changes), enc))
  {
    EditsConverge(docs[uri].text, changes, enc);
  }

  lemma OpConverges(docs: ClientDocuments, op: ClientOp, enc: PositionEncoding)
    requires ValidOp(docs, op, enc)
    ensures ApplyOp(EncodeAll(docs), EncodeOp(op), enc) == EncodeAll(ClientApply(docs, op, enc))
  {
    if op.ChangeText? && op.uri in docs {
      ChangeConverges(docs, op.uri, op.version, op.changes, enc);
    }
  }

  lemma ValidOpsPrefix(ops: seq<ClientOp>, n: nat, enc: PositionEncoding)
    requires ValidOps(ops, enc) && n <= |ops|
    ensures ValidOps(ops[..n], enc)
  {
    forall i | 0 <= i < n ensures ValidOp(ClientReplay(ops[..n][..i], enc), ops[..n][i], enc) {
      assert ops[..n][..i] == ops[..i];
    }
  }

  lemma EncodeOpsPrefix(ops: seq<ClientOp>, n: nat)
    requires n <= |ops|
    ensures EncodeOps(ops)[..n] == EncodeOps(ops[..n])
  {
  }

  lemma ReplayLast(ops: seq<DocumentOp>, n: nat, enc: PositionEncoding)
    requires |ops| == n + 1
    ensures Replay(ops, enc) == ApplyOp(Replay(ops[..n], enc), ops[n], enc)
  {
  }

  lemma ClientReplayLast(ops: seq<ClientOp>, n: nat, enc: PositionEncoding)
    requires |ops| == n + 1
    ensures ClientReplay(ops, enc) == ClientApply(ClientReplay(ops[..n], enc), ops[n], enc)
  {
  }

  /** Any run of notifications: every document of the server is, byte for byte, the client's. */
  lemma {:induction false} ReplayConverges(ops: seq<ClientOp>, enc: PositionEncoding)
    requires ValidOps(ops, enc)
    ensures Replay(EncodeOps(ops), enc) == EncodeAll(ClientReplay(ops, enc))
    decreases |ops|
  {
    if ops == [] {
    } else {
      var n := |ops| - 1;
      ValidOpsPrefix(ops, n, enc);
      ReplayConverges(ops[..n], enc);
      EncodeOpsPrefix(ops, n);
      OpConverges(ClientReplay(ops[..n], enc), ops[n], enc);
      ReplayLast(EncodeOps(ops), n, enc);
      ClientReplayLast(ops, n, enc);
    }
  }

  /** So every document the server holds is well-formed UTF-8. */
  lemma ReplayWellFormed(ops: seq<ClientOp>, enc: PositionEncoding, uri: DocumentUri)
    requires ValidOps(ops, enc) && uri in Replay(EncodeOps(ops), enc)
    ensures WellFormed(Replay(EncodeOps(ops), enc)[uri].text)
  {
    ReplayConverges(ops, enc);
    assert Encode(ClientReplay(ops, enc)[uri].text) == Replay(EncodeOps(ops), enc)[uri].text;
  }

  /** A backward range is not swapped: the length wraps and the rest of the text is lost. */
  lemma BackwardRangeTruncates(doc: seq<Scalar>, range: Range, ins: seq<Scalar>, enc: PositionEncoding)
    requires Exact(doc, range.start, enc) && Exact(doc, range.end, enc)
    requires Index(doc, range.end, enc) < Index(doc, range.start, enc)
    requires |Encode(doc)| < 0x1_0000_0000_0000_0000
    ensures ApplyEdit(Encode(doc), ChangeEvent(Some(range), Encode(ins)), enc)
         == Some(Encode(doc[..Index(doc, range.start, enc)] + ins))
  {
    var i, j := Index(doc, range.start, enc), Index(doc, range.end, enc);
    OffsetIsIndex(doc, range.start, enc);
    OffsetIsIndex(doc, range.end, enc);
    ByteOffsetMonotone(doc, j, i);
    SplitAt(doc, i);
    EncodeConcat(doc[..i], ins);
    BackwardReplace(Encode(doc), ByteOffset(doc, i), ByteOffset(doc, j), Encode(ins));
  }

  /** An edit at positions the scanner gets right leaves the client's text exactly if the range
      runs forward. */
  lemma SpliceConverges(doc: seq<Scalar>, range: Range, ins: seq<Scalar>, enc: PositionEncoding)
    requires Exact(doc, range.start, enc) && Exact(doc, range.end, enc)
    requires |Encode(doc)| < 0x1_0000_0000_0000_0000
    ensures ApplyEdit(Encode(doc), EncodeChange(Splice(range, ins)), enc)
            == Some(Encode(ClientEdit(doc, Splice(range, ins), enc)))
       <==> Index(doc, range.start, enc) <= Index(doc, range.end, enc)
  {
    var i, j := Index(doc, range.start, enc), Index(doc, range.end, enc);
    OffsetIsIndex(doc, range.start, enc);
    OffsetIsIndex(doc, range.end, enc);
    if i <= j {
      SpliceBytes(doc, i, j, ins);
    } else {
      BackwardRangeTruncates(doc, range, ins, enc);
      if Encode(doc[..i] + ins) == Encode(doc[..i] + ins + doc[j..]) {
        EncodeInjective(doc[..i] + ins, doc[..i] + ins + doc[j..]);
      }
    }
  }

  const ABC: seq<Scalar> := [97, 98, 99]

  lemma PositionInAbc(character: uint32, enc: PositionEncoding)
    requires character <= 2
    ensures Index(ABC, Position(0, character), enc) == character && Exact(ABC, Position(0, character), enc)
  {
    var pos := Position(0, character);
    AsciiUnits(ABC, 0, character, enc);
    if character > 0 {
      AsciiUnits(ABC, 0, character - 1, enc);
    }
    assert IsLineStart(ABC, 0, 0) && IsColumn(ABC, 0, character, enc, character);
    IndexUnique(ABC, pos, enc, character);
    NoOverrun(ABC, pos, enc);
    assert LineStart(ABC, 0) == 0;
  }

  /** In "abc", deleting from character 2 back to character 1 leaves "ab" where the client has
      "abbc". */
  lemma BackwardRangeDiverges(enc: PositionEncoding)
    ensures var range := Range(Position(0, 2), Position(0, 1));
      && ApplyEdit(Encode(ABC), EncodeChange(Splice(range, [])), enc) == Some(Encode(ABC[..2]))
      && ClientEdit(ABC, Splice(range, []), enc) == [97, 98, 98, 99]
  {
    PositionInAbc(2, enc);
    PositionInAbc(1, enc);
    assert Encode(ABC) == [97, 98, 99];
    BackwardRangeTruncates(ABC, Range(Position(0, 2), Position(0, 1)), [], enc);
    assert ABC[..2] + [] == ABC[..2];
    assert ABC[..2] + [] + ABC[1..] == [97, 98, 98, 99];
  }

  lemma BackwardReplace(text: seq<byte>, start: nat, end: nat, ins: seq<byte>)
    requires end < start <= |text| < 0x1_0000_0000_0000_0000
    ensures Replace(text, start, Sub64(end, start), ins) == Some(text[..start] + ins)
  {
    assert (start - end) % 0x1_0000_0000_0000_0000 == start - end;
  }
}
