/** The server's document store: open texts as UTF-8 bytes, edited in place. */
module DocumentStore {
  import opened Options
  import opened Words
  import opened Unicode
  import opened Positions

  type DocumentUri = string

  datatype TextDocumentItem =
    TextDocumentItem(uri: DocumentUri, languageId: string, version: int, text: seq<byte>)
  datatype Range = Range(start: Position, end: Position)
  datatype ChangeEvent = ChangeEvent(range: Option<Range>, text: seq<byte>)

  type Documents = map<DocumentUri, TextDocumentItem>

  // ---------------------------------------------------------------- specification

  /** std::string::replace(start, count, ins): it throws when `start` is past the end, and cuts
      `count` at the end. */
  function Replace(text: seq<byte>, start: nat, count: nat, ins: seq<byte>): Option<seq<byte>> {
    if start > |text| then None
    else if count >= |text| - start then Some(text[..start] + ins)
    else Some(text[..start] + ins + text[start + count..])
  }

  function ApplyEdit(text: seq<byte>, change: ChangeEvent, enc: PositionEncoding): Option<seq<byte>> {
    match change.range
    case None => Some(change.text)
    case Some(range) =>
      var start, end := Offset(text, range.start, enc), Offset(text, range.end, enc);
      Replace(text, start, Sub64(end, start), change.text)
  }

  /** The text after a list of edits, and whether they all went through. An edit that throws
      leaves the edits before it in place. */
  datatype Edited = Edited(text: seq<byte>, complete: bool)

  function ApplyEdits(text: seq<byte>, changes: seq<ChangeEvent>, enc: PositionEncoding): Edited
    decreases |changes|
  {
    if changes == [] then Edited(text, true)
    else
      match ApplyEdit(text, changes[0], enc)
      case None => Edited(text, false)
      case Some(text') => ApplyEdits(text', changes[1..], enc)
  }

  /** What one synchronisation notification asks of the store. */
  datatype DocumentOp =
    | Open(item: TextDocumentItem)
    | Change(uri: DocumentUri, version: int, changes: seq<ChangeEvent>)
    | Close(uri: DocumentUri)
    | Nothing

  function ApplyOp(docs: Documents, op: DocumentOp, enc: PositionEncoding): Documents {
    match op
    case Open(item) => docs[item.uri := item]
    case Close(uri) => docs - {uri}
    case Nothing => docs
    case Change(uri, version, changes) =>
      if uri !in docs then docs
      else
        var edited := ApplyEdits(docs[uri].text, changes, enc);
        docs[uri := docs[uri].(text := edited.text, version := if edited.complete then version else docs[uri].version)]
  }

  /** The store after a list of notifications, in order. */
  function Replay(ops: seq<DocumentOp>, enc: PositionEncoding): Documents {
    if ops == [] then map[] else ApplyOp(Replay(ops[..|ops| - 1], enc), ops[|ops| - 1], enc)
  }

  // ---------------------------------------------------------------- the class

  datatype ChangeOutcome = Applied | NotOpen | OutOfRange

  class DocumentStore {
    var documents: Documents
    var encoding: PositionEncoding

    constructor ()
      ensures documents == map[] && encoding == UTF16
    {
      documents := map[];
      encoding := UTF16;
    }

    method SetPositionEncoding(e: PositionEncoding)
      modifies this`encoding
      ensures encoding == e
    {
      encoding := e;
    }

    method DecodeUtf8(text: seq<byte>, offset: nat) returns (byteLen: nat, utf16Units: nat)
      requires offset < |text|
      ensures (byteLen, utf16Units) == Positions.DecodeUtf8(text, offset)
    {
      var b0 := text[offset];
      if b0 < 0x80 {
        byteLen, utf16Units := 1, 1;
      } else if 0xC0 <= b0 < 0xE0 {
        byteLen, utf16Units := 2, 1;
      } else if 0xE0 <= b0 < 0xF0 {
        byteLen, utf16Units := 3, 1;
      } else if 0xF0 <= b0 < 0xF8 {
        byteLen, utf16Units := 4, 2;
      } else {
        byteLen, utf16Units := 1, 1;
      }
      if offset + byteLen > |text| {
        var left: int := |text| - offset;
        if left == 0 {
          left := 1;
        }
        byteLen := left;
      }
    }

    method PositionToOffset(text: seq<byte>, pos: Position) returns (offset: nat)
      ensures offset == Offset(text, pos, encoding)
    {
      offset := 0;
      var line: uint32 := 0;
      while line < pos.line && offset < |text|
        invariant offset <= |text| && line <= pos.line
        invariant SkipLines(text, 0, pos.line) == SkipLines(text, offset, pos.line - line)
        decreases |text| - offset
      {
        if text[offset] == LF {
          line := line + 1;
        }
        offset := offset + 1;
      }
      if encoding == UTF8 {
        return offset + pos.character;
      }

      var consumed: uint32 := 0;
      ghost var start := offset;
      while consumed < pos.character && offset < |text| && text[offset] != LF
        invariant offset <= |text|
        invariant Scan(text, start, 0, pos.character, encoding) == Scan(text, offset, consumed, pos.character, encoding)
        decreases |text| - offset
      {
        var byteLen, units := DecodeUtf8(text, offset);
        if encoding == UTF16 {
          consumed := Add32(consumed, units);
        } else {
          consumed := Add32(consumed, 1);
        }
        offset := offset + byteLen;
      }
    }

    method OpenDocument(item: TextDocumentItem)
      modifies this`documents
      ensures documents == ApplyOp(old(documents), Open(item), encoding)
    {
      documents := documents[item.uri := item];
    }

    method ApplyChange(uri: DocumentUri, version: int, changes: seq<ChangeEvent>) returns (outcome: ChangeOutcome)
      modifies this`documents
      ensures documents == ApplyOp(old(documents), Change(uri, version, changes), encoding)
      ensures outcome == NotOpen <==> uri !in old(documents)
      ensures outcome == Applied
         <==> uri in old(documents) && ApplyEdits(old(documents)[uri].text, changes, encoding).complete
    {
      if uri !in documents {
        return NotOpen;
      }
      ghost var before := documents[uri];
      var i := 0;
      while i < |changes|
        invariant 0 <= i <= |changes|
        invariant uri in documents
        invariant documents == old(documents)[uri := before.(text := documents[uri].text)]
        invariant ApplyEdits(before.text, changes, encoding) == ApplyEdits(documents[uri].text, changes[i..], encoding)
      {
        var change, text := changes[i], documents[uri].text;
        if change.range.Some? {
          var start := PositionToOffset(text, change.range.value.start);
          var end := PositionToOffset(text, change.range.value.end);
          var replaced := Replace(text, start, Sub64(end, start), change.text);
          if replaced.None? {
            return OutOfRange;
          }
          documents := documents[uri := documents[uri].(text := replaced.value)];
        } else {
          documents := documents[uri := documents[uri].(text := change.text)];
        }
        i := i + 1;
      }
      documents := documents[uri := documents[uri].(version := version)];
      return Applied;
    }

    method CloseDocument(uri: DocumentUri) returns (removed: bool)
      modifies this`documents
      ensures documents == ApplyOp(old(documents), Close(uri), encoding)
      ensures removed <==> uri in old(documents)
    {
      removed := uri in documents;
      documents := documents - {uri};
    }

    method Get(uri: DocumentUri) returns (item: Option<TextDocumentItem>)
      ensures item == if uri in documents then Some(documents[uri]) else None
    {
      item := if uri in documents then Some(documents[uri]) else None;
    }
  }
}
