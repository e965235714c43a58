/** What every edit does to a text, whether the client behaves or not: when it throws, and that
    in UTF-16 and UTF-32 it never splits a character. */
module TextSafety {
  import opened Options
  import opened Words
  import opened Unicode
  import opened Positions
  import opened DocumentStore

  /** Sizes are 64 bits wide, so no text is longer. */
  const SIZE_LIMIT: int := 0x1_0000_0000_0000_0000

  // ---------------------------------------------------------------- when an edit throws

  /** An edit throws exactly if its start, in byte columns, is past the end of the text. */
  lemma EditThrows(text: seq<byte>, change: ChangeEvent, enc: PositionEncoding)
    ensures ApplyEdit(text, change, enc) == None
       <==> change.range.Some? && enc == UTF8
            && SkipLines(text, 0, change.range.value.start.line) + change.range.value.start.character > |text|
  {
    if change.range.Some? {
      assert Offset(text, change.range.value.start, enc) > |text| ==> enc == UTF8;
    }
  }

  /** So in UTF-16 and UTF-32 every list of edits goes through. */
  lemma {:induction false} EditsNeverThrow(text: seq<byte>, changes: seq<ChangeEvent>, enc: PositionEncoding)
    requires enc != UTF8
    ensures ApplyEdits(text, changes, enc).complete
    decreases |changes|
  {
    if changes == [] {
    } else {
      EditThrows(text, changes[0], enc);
      EditsNeverThrow(ApplyEdit(text, changes[0], enc).value, changes[1..], enc);
    }
  }

  /** A list of edits is its parts, one after the other, up to the first that throws. */
  lemma {:induction false} EditsConcat(text: seq<byte>, a: seq<ChangeEvent>, b: seq<ChangeEvent>, enc: PositionEncoding)
    ensures var first := ApplyEdits(text, a, enc);
      ApplyEdits(text, a + b, enc) == if first.complete then ApplyEdits(first.text, b, enc) else first
    decreases |a|
  {
    if a == [] {
      assert a + b == b;
    } else {
      assert (a + b)[1..] == a[1..] + b;
      if ApplyEdit(text, a[0], enc).Some? {
        EditsConcat(ApplyEdit(text, a[0], enc).value, a[1..], b, enc);
      }
    }
  }

  /** An edit that throws leaves the text with the edits before it, the version as it was, the
      edits after it undone and the other documents alone. */
  lemma ThrowKeepsEarlierEdits(docs: Documents, uri: string, version: int, before: seq<ChangeEvent>,
                               bad: ChangeEvent, after: seq<ChangeEvent>, enc: PositionEncoding)
    requires uri in docs && ApplyEdits(docs[uri].text, before, enc).complete
    requires ApplyEdit(ApplyEdits(docs[uri].text, before, enc).text, bad, enc) == None
    ensures var docs' := ApplyOp(docs, Change(uri, version, before + [bad] + after), enc);
      && docs'.Keys == docs.Keys
      && (forall other | other in docs && other != uri :: docs'[other] == docs[other])
      && docs'[uri] == docs[uri].(text := ApplyEdits(docs[uri].text, before, enc).text)
  {
    EditsConcat(docs[uri].text, before, [bad] + after, enc);
    assert before + [bad] + after == before + ([bad] + after);
  }

  const TWO_LINES: seq<Scalar> := [97, 10, 98]

  /** A byte column is not cut at the end of its line, nor at the end of the text: in "a\nb"
      column 5 of the first line is offset 5, where an edit throws. */
  lemma ByteColumnPastTheEnd(ins: seq<byte>)
    ensures var text, pos := Encode(TWO_LINES), Position(0, 5);
      && Offset(text, pos, UTF8) == 5 && |text| == 3 && Index(TWO_LINES, pos, UTF8) == 1
      && ApplyEdit(text, ChangeEvent(Some(Range(pos, pos)), ins), UTF8) == None
  {
    assert Encode(TWO_LINES) == [97, 10, 98];
    assert UnitCount(TWO_LINES, 0, 0, UTF8) == 0 && UnitCount(TWO_LINES, 0, 1, UTF8) == 1;
    assert IsLineStart(TWO_LINES, 0, 0) && IsColumn(TWO_LINES, 0, 5, UTF8, 1);
    IndexUnique(TWO_LINES, Position(0, 5), UTF8, 1);
  }

  // ---------------------------------------------------------------- characters stay whole

  /** The offset falls between two characters. */
  ghost predicate IsBoundary(text: seq<byte>, offset: nat) {
    offset <= |text| && WellFormed(text[..offset]) && WellFormed(text[offset..])
  }

  lemma WellFormedConcat(a: seq<byte>, b: seq<byte>)
    requires WellFormed(a) && WellFormed(b)
    ensures WellFormed(a + b)
  {
    var x: seq<Scalar> :| Encode(x) == a;
    var y: seq<Scalar> :| Encode(y) == b;
    EncodeConcat(x, y);
  }

  /** UTF-16 and UTF-32: every position, however far out, leads to a boundary. */
  lemma OffsetIsBoundary(text: seq<byte>, pos: Position, enc: PositionEncoding)
    requires enc != UTF8 && WellFormed(text)
    ensures IsBoundary(text, Offset(text, pos, enc))
  {
    var doc: seq<Scalar> :| Encode(doc) == text;
    var j := OffsetOnBoundary(doc, pos, enc);
    SplitAt(doc, j);
  }

  /** Replacing between boundaries, in whichever order they come. */
  lemma ReplaceKeepsWellFormed(text: seq<byte>, start: nat, end: nat, ins: seq<byte>)
    requires IsBoundary(text, start) && IsBoundary(text, end) && WellFormed(ins) && |text| < SIZE_LIMIT
    ensures var r := Replace(text, start, Sub64(end, start), ins); r.Some? && WellFormed(r.value)
  {
    WellFormedConcat(text[..start], ins);
    if start <= end {
      WellFormedConcat(text[..start] + ins, text[end..]);
    } else {
      assert (start - end) % SIZE_LIMIT == start - end;
    }
  }

  /** One edit, with any range at all, leaves a well-formed text well-formed. */
  lemma EditKeepsWellFormed(text: seq<byte>, change: ChangeEvent, enc: PositionEncoding)
    requires enc != UTF8 && WellFormed(text) && WellFormed(change.text) && |text| < SIZE_LIMIT
    ensures var r := ApplyEdit(text, change, enc); r.Some? && WellFormed(r.value)
  {
    if change.range.Some? {
      var range := change.range.value;
      OffsetIsBoundary(text, range.start, enc);
      OffsetIsBoundary(text, range.end, enc);
      ReplaceKeepsWellFormed(text, Offset(text, range.start, enc), Offset(text, range.end, enc), change.text);
    }
  }

  /** No text along a list of edits outgrows the machine. */
  ghost predicate Fits(text: seq<byte>, changes: seq<ChangeEvent>, enc: PositionEncoding)
    decreases |changes|
  {
    && |text| < SIZE_LIMIT
    && (changes != [] && ApplyEdit(text, changes[0], enc).Some? ==>
          Fits(ApplyEdit(text, changes[0], enc).value, changes[1..], enc))
  }

  lemma {:induction false} EditsKeepWellFormed(text: seq<byte>, changes: seq<ChangeEvent>, enc: PositionEncoding)
    requires enc != UTF8 && WellFormed(text) && Fits(text, changes, enc)
    requires forall k | 0 <= k < |changes| :: WellFormed(changes[k].text)
    ensures WellFormed(ApplyEdits(text, changes, enc).text)
    decreases |changes|
  {
    if changes == [] {
    } else {
      EditKeepsWellFormed(text, changes[0], enc);
      EditsKeepWellFormed(ApplyEdit(text, changes[0], enc).value, changes[1..], enc);
    }
  }

  // ---------------------------------------------------------------- runs of notifications

  /** The texts a notification carries are well-formed; its ranges may be anything. */
  ghost predicate CarriesWellFormed(op: DocumentOp) {
    match op
    case Open(item) => WellFormed(item.text)
    case Change(_, _, changes) => forall k | 0 <= k < |changes| :: WellFormed(changes[k].text)
    case _ => true
  }

  ghost predicate OpFits(docs: Documents, op: DocumentOp, enc: PositionEncoding) {
    op.Change? && op.uri in docs ==> Fits(docs[op.uri].text, op.changes, enc)
  }

  ghost predicate ReplayFits(ops: seq<DocumentOp>, enc: PositionEncoding) {
    forall i | 0 <= i < |ops| :: OpFits(Replay(ops[..i], enc), ops[i], enc)
  }

  ghost predicate AllWellFormed(docs: Documents) {
    forall uri | uri in docs :: WellFormed(docs[uri].text)
  }

  lemma OpKeepsWellFormed(docs: Documents, op: DocumentOp, enc: PositionEncoding)
    requires enc != UTF8 && AllWellFormed(docs) && CarriesWellFormed(op) && OpFits(docs, op, enc)
    ensures AllWellFormed(ApplyOp(docs, op, enc))
  {
    if op.Change? && op.uri in docs {
      EditsKeepWellFormed(docs[op.uri].text, op.changes, enc);
    }
  }

  lemma ReplayFitsPrefix(ops: seq<DocumentOp>, n: nat, enc: PositionEncoding)
    requires ReplayFits(ops, enc) && n <= |ops|
    ensures ReplayFits(ops[..n], enc)
  {
    forall i | 0 <= i < n ensures OpFits(Replay(ops[..n][..i], enc), ops[..n][i], enc) {
      assert ops[..n][..i] == ops[..i];
    }
  }

  /** Every run of notifications with well-formed texts keeps every document well-formed. */
  lemma {:induction false} ReplayKeepsWellFormed(ops: seq<DocumentOp>, enc: PositionEncoding)
    requires enc != UTF8 && ReplayFits(ops, enc) && forall i | 0 <= i < |ops| :: CarriesWellFormed(ops[i])
    ensures AllWellFormed(Replay(ops, enc))
    decreases |ops|
  {
    if ops == [] {
    } else {
      var n := |ops| - 1;
      ReplayFitsPrefix(ops, n, enc);
      ReplayKeepsWellFormed(ops[..n], enc);
      OpKeepsWellFormed(Replay(ops[..n], enc), ops[n], enc);
    }
  }

  // ---------------------------------------------------------------- a bound that is enough

  function ChangeBytes(changes: seq<ChangeEvent>): nat {
    if changes == [] then 0 else |changes[0].text| + ChangeBytes(changes[1..])
  }

  function OpBytes(op: DocumentOp): nat {
    match op
    case Open(item) => |item.text|
    case Change(_, _, changes) => ChangeBytes(changes)
    case _ => 0
  }

  /** All the text a run of notifications carries. */
  function Received(ops: seq<DocumentOp>): nat {
    if ops == [] then 0 else Received(ops[..|ops| - 1]) + OpBytes(ops[|ops| - 1])
  }

  lemma {:induction false} EditsBounded(text: seq<byte>, changes: seq<ChangeEvent>, enc: PositionEncoding)
    requires |text| + ChangeBytes(changes) < SIZE_LIMIT
    ensures Fits(text, changes, enc) && |ApplyEdits(text, changes, enc).text| <= |text| + ChangeBytes(changes)
    decreases |changes|
  {
    if changes == [] {
    } else if ApplyEdit(text, changes[0], enc).Some? {
      EditsBounded(ApplyEdit(text, changes[0], enc).value, changes[1..], enc);
    }
  }

  lemma OpBounded(docs: Documents, op: DocumentOp, enc: PositionEncoding, size: nat)
    requires size + OpBytes(op) < SIZE_LIMIT && forall uri | uri in docs :: |docs[uri].text| <= size
    ensures OpFits(docs, op, enc)
    ensures forall uri | uri in ApplyOp(docs, op, enc) :: |ApplyOp(docs, op, enc)[uri].text| <= size + OpBytes(op)
  {
    if op.Change? && op.uri in docs {
      EditsBounded(docs[op.uri].text, op.changes, enc);
    }
  }

  lemma ReplayFitsSnoc(ops: seq<DocumentOp>, n: nat, enc: PositionEncoding)
    requires |ops| == n + 1 && ReplayFits(ops[..n], enc) && OpFits(Replay(ops[..n], enc), ops[n], enc)
    ensures ReplayFits(ops, enc)
  {
    forall i | 0 <= i < n ensures OpFits(Replay(ops[..i], enc), ops[i], enc) {
      assert ops[..n][..i] == ops[..i] && OpFits(Replay(ops[..n][..i], enc), ops[..n][i], enc);
    }
  }

  /** Nothing outgrows the machine while fewer than 2^64 bytes of text have been received. */
  lemma {:induction false} SmallRunsFit(ops: seq<DocumentOp>, enc: PositionEncoding)
    requires Received(ops) < SIZE_LIMIT
    ensures ReplayFits(ops, enc)
    ensures forall uri | uri in Replay(ops, enc) :: |Replay(ops, enc)[uri].text| <= Received(ops)
    decreases |ops|
  {
    if ops == [] {
    } else {
      var n := |ops| - 1;
      SmallRunsFit(ops[..n], enc);
      OpBounded(Replay(ops[..n], enc), ops[n], enc, Received(ops[..n]));
      ReplayFitsSnoc(ops, n, enc);
    }
  }
}
