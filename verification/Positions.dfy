/** Turning a (line, character) position into a byte offset.

    The scanner of DocumentStore walks bytes. Here its result is compared with the index a
    client holding the same text as Unicode scalars would compute. */
module Positions {
  import opened Words
  import opened Unicode

  datatype Position = Position(line: uint32, character: uint32)

  ghost predicate PositionLeq(a: Position, b: Position) {
    a.line < b.line || (a.line == b.line && a.character <= b.character)
  }

  // ---------------------------------------------------------------- the byte scanner

  /** One decoding step: the bytes and the UTF-16 units the lead byte announces, the bytes cut
      off at the end of the text. The lead bytes 110xxxxx, 1110xxxx and 11110xxx are ranges. */
  function DecodeUtf8(text: seq<byte>, offset: nat): (r: (nat, nat))
    requires offset < |text|
    ensures 1 <= r.0 <= |text| - offset && 1 <= r.1 <= 2
  {
    var b0 := text[offset];
    var announced :=
      if b0 < 0x80 then 1
      else if 0xC0 <= b0 < 0xE0 then 2
      else if 0xE0 <= b0 < 0xF0 then 3
      else if 0xF0 <= b0 < 0xF8 then 4
      else 1;
    (if offset + announced > |text| then |text| - offset else announced,
     if announced == 4 then 2 else 1)
  }

  /** The masks of the source are those ranges. */
  lemma LeadByteMasks(b: bv8)
    ensures b & 0xE0 == 0xC0 <==> 0xC0 <= b < 0xE0
    ensures b & 0xF0 == 0xE0 <==> 0xE0 <= b < 0xF0
    ensures b & 0xF8 == 0xF0 <==> 0xF0 <= b < 0xF8
  {
  }

  /** Moves past `lines` newline bytes, or to the end of the text. */
  function SkipLines(text: seq<byte>, offset: nat, lines: nat): (r: nat)
    requires offset <= |text|
    ensures offset <= r <= |text|
    decreases |text| - offset
  {
    if lines == 0 || offset == |text| then offset
    else SkipLines(text, offset + 1, if text[offset] == LF then lines - 1 else lines)
  }

  /** Moves along a line until `character` units are consumed. The counter is 32 bits wide. */
  function Scan(text: seq<byte>, offset: nat, consumed: uint32, character: uint32, enc: PositionEncoding): (r: nat)
    requires offset <= |text|
    ensures offset <= r <= |text|
    decreases |text| - offset
  {
    if consumed < character && offset < |text| && text[offset] != LF then
      var (len, units) := DecodeUtf8(text, offset);
      var step := if enc == UTF16 then units else 1;
      Scan(text, offset + len, Add32(consumed, step), character, enc)
    else
      offset
  }

  /** What positionToOffset computes. Byte columns are added without looking at the line. */
  function Offset(text: seq<byte>, pos: Position, enc: PositionEncoding): (r: nat)
    ensures enc != UTF8 ==> r <= |text|
  {
    var start := SkipLines(text, 0, pos.line);
    if enc == UTF8 then start + pos.character else Scan(text, start, 0, pos.character, enc)
  }

  // ---------------------------------------------------------------- the client's index

  /** Index `i` is where line number `line` of the client's text begins; a line the text does
      not have begins at the end. */
  ghost predicate IsLineStart(doc: seq<Scalar>, line: nat, i: nat) {
    i <= |doc| &&
    if Newlines(doc, |doc|) < line then i == |doc|
    else Newlines(doc, i) == line && (i == 0 || doc[i - 1] == LF)
  }

  ghost predicate AtLineEnd(doc: seq<Scalar>, i: nat) {
    i == |doc| || (i < |doc| && doc[i] == LF)
  }

  ghost predicate InColumn(doc: seq<Scalar>, start: nat, character: nat, enc: PositionEncoding, i: nat) {
    && start <= i <= |doc|
    && (forall k | start <= k < i :: doc[k] != LF)
    && (start < i ==> UnitCount(doc, start, i - 1, enc) < character)
  }

  /** Index `i` ends the shortest stretch from `start`, within one line, that has at least
      `character` units; it is the end of the line if no stretch has that many. Every scalar
      has a unit, so a stretch is shortest when one scalar less has too few. */
  ghost predicate IsColumn(doc: seq<Scalar>, start: nat, character: nat, enc: PositionEncoding, i: nat) {
    InColumn(doc, start, character, enc, i) &&
    (UnitCount(doc, start, i, enc) >= character || AtLineEnd(doc, i))
  }

  ghost predicate IsIndex(doc: seq<Scalar>, pos: Position, enc: PositionEncoding, i: nat) {
    exists start :: IsLineStart(doc, pos.line, start) && IsColumn(doc, start, pos.character, enc, i)
  }

  /** The client's index of a position, by walking its scalars. */
  function Index(doc: seq<Scalar>, pos: Position, enc: PositionEncoding): (i: nat)
    ensures IsIndex(doc, pos, enc, i) && i <= |doc|
  {
    var start := LineStart(doc, pos.line);
    ColumnFromIsColumn(doc, start, start, 0, pos.character, enc);
    ColumnFrom(doc, start, 0, pos.character, enc)
  }

  function LineStart(doc: seq<Scalar>, line: nat): (start: nat)
    ensures IsLineStart(doc, line, start)
  {
    LineFromIsLineStart(doc, 0, line, line);
    LineFrom(doc, 0, line)
  }

  function LineFrom(doc: seq<Scalar>, i: nat, lines: nat): (r: nat)
    requires i <= |doc|
    ensures i <= r <= |doc|
    decreases |doc| - i
  {
    if lines == 0 || i == |doc| then i
    else LineFrom(doc, i + 1, if doc[i] == LF then lines - 1 else lines)
  }

  function ColumnFrom(doc: seq<Scalar>, i: nat, consumed: nat, character: nat, enc: PositionEncoding): (r: nat)
    requires i <= |doc|
    ensures i <= r <= |doc|
    decreases |doc| - i
  {
    if consumed < character && i < |doc| && doc[i] != LF then
      ColumnFrom(doc, i + 1, consumed + Units(doc[i], enc), character, enc)
    else
      i
  }

  lemma {:induction false} LineFromIsLineStart(doc: seq<Scalar>, i: nat, lines: nat, line: nat)
    requires i <= |doc| && Newlines(doc, i) + lines == line
    requires lines > 0 || i == 0 || doc[i - 1] == LF
    ensures IsLineStart(doc, line, LineFrom(doc, i, lines))
    decreases |doc| - i
  {
    if lines == 0 {
      NewlinesMonotone(doc, i, |doc|);
      assert doc[..|doc|] == doc;
    } else if i == |doc| {
      assert doc[..i] == doc;
    } else {
      LineFromIsLineStart(doc, i + 1, if doc[i] == LF then lines - 1 else lines, line);
    }
  }

  lemma {:induction false} ColumnFromIsColumn(doc: seq<Scalar>, start: nat, i: nat, consumed: nat, character: nat,
          enc: PositionEncoding)
    requires InColumn(doc, start, character, enc, i) && consumed == UnitCount(doc, start, i, enc)
    ensures IsColumn(doc, start, character, enc, ColumnFrom(doc, i, consumed, character, enc))
    decreases |doc| - i
  {
    if consumed < character && i < |doc| && doc[i] != LF {
      ColumnFromIsColumn(doc, start, i + 1, consumed + Units(doc[i], enc), character, enc);
    }
  }

  lemma {:induction false} NewlinesMonotone(doc: seq<Scalar>, i: nat, j: nat)
    requires i <= j <= |doc|
    ensures Newlines(doc, i) <= Newlines(doc, j)
    ensures i < j && doc[j - 1] == LF ==> Newlines(doc, i) < Newlines(doc, j)
    decreases j - i
  {
    if i < j {
      NewlinesMonotone(doc, i, j - 1);
    }
  }

  lemma {:induction false} UnitCountMonotone(doc: seq<Scalar>, start: nat, i: nat, j: nat, enc: PositionEncoding)
    requires start <= i <= j <= |doc|
    ensures UnitCount(doc, start, i, enc) + (j - i) <= UnitCount(doc, start, j, enc)
    decreases j - i
  {
    if i < j {
      UnitCountMonotone(doc, start, i, j - 1, enc);
    }
  }

  lemma LineStartUnique(doc: seq<Scalar>, line: nat, i: nat, j: nat)
    requires IsLineStart(doc, line, i) && IsLineStart(doc, line, j)
    ensures i == j
  {
    if i < j { NewlinesMonotone(doc, i, j); }
    if j < i { NewlinesMonotone(doc, j, i); }
  }

  lemma ColumnUnique(doc: seq<Scalar>, start: nat, character: nat, enc: PositionEncoding, i: nat, j: nat)
    requires IsColumn(doc, start, character, enc, i) && IsColumn(doc, start, character, enc, j)
    ensures i == j
  {
    if i < j {
      UnitCountMonotone(doc, start, i, j - 1, enc);
    }
    if j < i {
      UnitCountMonotone(doc, start, j, i - 1, enc);
    }
  }

  /** A position names one index of the client's text. */
  lemma IndexUnique(doc: seq<Scalar>, pos: Position, enc: PositionEncoding, i: nat)
    ensures IsIndex(doc, pos, enc, i) <==> i == Index(doc, pos, enc)
  {
    if IsIndex(doc, pos, enc, i) {
      var j := Index(doc, pos, enc);
      var s :| IsLineStart(doc, pos.line, s) && IsColumn(doc, s, pos.character, enc, i);
      var t :| IsLineStart(doc, pos.line, t) && IsColumn(doc, t, pos.character, enc, j);
      LineStartUnique(doc, pos.line, s, t);
      ColumnUnique(doc, s, pos.character, enc, i, j);
    }
  }

  // ---------------------------------------------------------------- refinement

  /** Bytes that are not newlines are skipped in one go. */
  lemma {:induction false} SkipPlain(text: seq<byte>, offset: nat, n: nat, lines: nat)
    requires offset + n <= |text| && lines > 0
    requires forall k | offset <= k < offset + n :: text[k] != LF
    ensures SkipLines(text, offset, lines) == SkipLines(text, offset + n, lines)
    decreases n
  {
    if n > 0 {
      SkipPlain(text, offset + 1, n - 1, lines);
    }
  }

  lemma LeadByte(c: Scalar)
    ensures var e := EncodeScalar(c);
      && (|e| == 1 <==> e[0] < 0x80) && (|e| == 2 <==> 0xC0 <= e[0] < 0xE0)
      && (|e| == 3 <==> 0xE0 <= e[0] < 0xF0) && (|e| == 4 <==> 0xF0 <= e[0] < 0xF8)
      && (|e| == 4 <==> Units(c, UTF16) == 2)
  {
  }

  /** Reading the scalar at index i from the bytes. */
  lemma ReadScalar(doc: seq<Scalar>, i: nat)
    requires i < |doc|
    ensures var text, o := Encode(doc), ByteOffset(doc, i);
      && o < |text|
      && (text[o] == LF <==> doc[i] == LF)
      && DecodeUtf8(text, o) == (|EncodeScalar(doc[i])|, Units(doc[i], UTF16))
      && (doc[i] != LF ==> forall k | o <= k < o + |EncodeScalar(doc[i])| :: text[k] != LF)
  {
    var text, o, e := Encode(doc), ByteOffset(doc, i), EncodeScalar(doc[i]);
    ScalarBytes(doc, i);
    LeadByte(doc[i]);
    assert text[o..o + |e|] == e;
    assert text[o] == e[0];
    if doc[i] != LF {
      forall k | o <= k < o + |e| ensures text[k] != LF {
        assert text[k] == text[o..o + |e|][k - o];
      }
    }
  }

  /** A newline, or n bytes of something else. */
  lemma SkipOne(text: seq<byte>, offset: nat, n: nat, newline: bool, lines: nat)
    requires offset + n <= |text| && lines > 0
    requires if newline then n == 1 && text[offset] == LF else forall k | offset <= k < offset + n :: text[k] != LF
    ensures SkipLines(text, offset, lines) == SkipLines(text, offset + n, if newline then lines - 1 else lines)
  {
    if !newline {
      SkipPlain(text, offset, n, lines);
    }
  }

  /** Skipping from one scalar to the next. */
  lemma SkipScalar(doc: seq<Scalar>, i: nat, lines: nat)
    requires i < |doc| && lines > 0
    ensures ByteOffset(doc, i) < ByteOffset(doc, i + 1) <= |Encode(doc)|
    ensures SkipLines(Encode(doc), ByteOffset(doc, i), lines)
         == SkipLines(Encode(doc), ByteOffset(doc, i + 1), if doc[i] == LF then lines - 1 else lines)
  {
    ScalarBytes(doc, i);
    ReadScalar(doc, i);
    SkipOne(Encode(doc), ByteOffset(doc, i), |EncodeScalar(doc[i])|, doc[i] == LF, lines);
  }

  lemma {:induction false} SkipLinesRefines(doc: seq<Scalar>, i: nat, lines: nat)
    requires i <= |doc|
    ensures ByteOffset(doc, i) <= |Encode(doc)|
    ensures SkipLines(Encode(doc), ByteOffset(doc, i), lines) == ByteOffset(doc, LineFrom(doc, i, lines))
    decreases |doc| - i
  {
    ByteOffsetMonotone(doc, i, |doc|);
    if i == |doc| {
      assert doc[..i] == doc;
    } else if lines > 0 {
      SkipScalar(doc, i, lines);
      SkipLinesRefines(doc, i + 1, if doc[i] == LF then lines - 1 else lines);
    }
  }

  /** The 32-bit counter comes round to zero on the scalar at index k, and the line goes on. */
  ghost predicate WrapsAt(doc: seq<Scalar>, start: nat, pos: Position, enc: PositionEncoding, k: nat) {
    && start <= k < |doc| && enc == UTF16 && pos.character == 0xFFFF_FFFF
    && UnitCount(doc, start, k, enc) == 0xFFFF_FFFE && doc[k] >= 0x10000
    && (forall j | start <= j <= k :: doc[j] != LF)
    && !AtLineEnd(doc, k + 1)
  }

  /** The one family of positions the scanner overruns. */
  ghost predicate Overruns(doc: seq<Scalar>, pos: Position, enc: PositionEncoding) {
    exists k :: WrapsAt(doc, LineStart(doc, pos.line), pos, enc, k)
  }

  /** Whether the scanner goes on at a scalar, and where it goes. */
  lemma ScanOne(text: seq<byte>, offset: nat, len: nat, units: nat, consumed: uint32, character: uint32,
                enc: PositionEncoding)
    requires offset < |text| && text[offset] != LF && consumed < character && DecodeUtf8(text, offset) == (len, units)
    ensures offset + len <= |text| && (units == 1 || units == 2)
    ensures Scan(text, offset, consumed, character, enc)
         == Scan(text, offset + len, Add32(consumed, if enc == UTF16 then units else 1), character, enc)
  {
  }

  lemma ScanScalar(doc: seq<Scalar>, i: nat, consumed: uint32, character: uint32, enc: PositionEncoding)
    requires i <= |doc| && enc != UTF8
    ensures ByteOffset(doc, i) <= |Encode(doc)|
    ensures consumed >= character || AtLineEnd(doc, i)
        ==> Scan(Encode(doc), ByteOffset(doc, i), consumed, character, enc) == ByteOffset(doc, i)
    ensures consumed < character && !AtLineEnd(doc, i)
        ==> ByteOffset(doc, i) < ByteOffset(doc, i + 1) <= |Encode(doc)|
    ensures consumed < character && !AtLineEnd(doc, i)
        ==> (Scan(Encode(doc), ByteOffset(doc, i), consumed, character, enc)
             == Scan(Encode(doc), ByteOffset(doc, i + 1), Add32(consumed, Units(doc[i], enc)), character, enc))
  {
    if i == |doc| {
      TakeAll(doc);
    } else {
      ScalarBytes(doc, i);
      ReadScalar(doc, i);
      if consumed < character && doc[i] != LF {
        var len, units := |EncodeScalar(doc[i])|, Units(doc[i], UTF16);
        ScanOne(Encode(doc), ByteOffset(doc, i), len, units, consumed, character, enc);
      }
    }
  }

  ghost predicate NoWrapFrom(doc: seq<Scalar>, start: nat, pos: Position, enc: PositionEncoding, i: nat) {
    forall k | k >= i :: !WrapsAt(doc, start, pos, enc, k)
  }

  /** From scalar i on, the scanner and the client stop at the same place. */
  ghost predicate SameStop(doc: seq<Scalar>, i: nat, consumed: uint32, character: uint32, enc: PositionEncoding)
    requires i <= |doc|
  {
    ByteOffset(doc, i) <= |Encode(doc)| &&
    Scan(Encode(doc), ByteOffset(doc, i), consumed, character, enc)
      == ByteOffset(doc, ColumnFrom(doc, i, consumed, character, enc))
  }

  lemma {:induction false} ScanRefines(doc: seq<Scalar>, start: nat, i: nat, consumed: uint32, pos: Position,
          enc: PositionEncoding)
    requires InColumn(doc, start, pos.character, enc, i) && enc != UTF8
    requires consumed == UnitCount(doc, start, i, enc)
    ensures SameStop(doc, i, consumed, pos.character, enc) <==> NoWrapFrom(doc, start, pos, enc, i)
    decreases |doc| - i
  {
    if consumed >= pos.character || AtLineEnd(doc, i) {
      ScanScalar(doc, i, consumed, pos.character, enc);
      NoWrapAfterStop(doc, start, i, pos, enc);
    } else if consumed + Units(doc[i], enc) < 0x1_0000_0000 {
      ScanGoesOn(doc, i, consumed, pos.character, enc);
      NoWrapHere(doc, start, i, pos, enc);
      NoWrapStep(doc, start, pos, enc, i);
      ScanRefines(doc, start, i + 1, consumed + Units(doc[i], enc), pos, enc);
    } else {
      ScanWraps(doc, start, i, consumed, pos, enc);
    }
  }

  lemma ScanGoesOn(doc: seq<Scalar>, i: nat, consumed: uint32, character: uint32, enc: PositionEncoding)
    requires i <= |doc| && enc != UTF8 && consumed < character && !AtLineEnd(doc, i)
    requires consumed + Units(doc[i], enc) < 0x1_0000_0000
    ensures SameStop(doc, i, consumed, character, enc)
       <==> SameStop(doc, i + 1, consumed + Units(doc[i], enc), character, enc)
  {
    ScanScalar(doc, i, consumed, character, enc);
    assert Add32(consumed, Units(doc[i], enc)) == consumed + Units(doc[i], enc);
  }

  /** After the counter comes round to zero the scanner goes on if the line does. */
  lemma ScanWraps(doc: seq<Scalar>, start: nat, i: nat, consumed: uint32, pos: Position, enc: PositionEncoding)
    requires InColumn(doc, start, pos.character, enc, i) && enc != UTF8 && !AtLineEnd(doc, i)
    requires consumed == UnitCount(doc, start, i, enc) < pos.character
    requires consumed + Units(doc[i], enc) >= 0x1_0000_0000
    ensures SameStop(doc, i, consumed, pos.character, enc) <==> NoWrapFrom(doc, start, pos, enc, i)
  {
    assert Add32(consumed, Units(doc[i], enc)) == 0;
    assert ColumnFrom(doc, i, consumed, pos.character, enc) == i + 1;
    ScanScalar(doc, i, consumed, pos.character, enc);
    ScanScalar(doc, i + 1, 0, pos.character, enc);
    WrapHere(doc, start, i, consumed, pos, enc);
    NoLaterWrap(doc, start, i, pos, enc);
    NoWrapStep(doc, start, pos, enc, i);
  }

  lemma NoWrapStep(doc: seq<Scalar>, start: nat, pos: Position, enc: PositionEncoding, i: nat)
    ensures NoWrapFrom(doc, start, pos, enc, i)
       <==> !WrapsAt(doc, start, pos, enc, i) && NoWrapFrom(doc, start, pos, enc, i + 1)
  {
  }

  lemma NoWrapHere(doc: seq<Scalar>, start: nat, i: nat, pos: Position, enc: PositionEncoding)
    requires start <= i < |doc| && UnitCount(doc, start, i, enc) + Units(doc[i], enc) < 0x1_0000_0000
    ensures !WrapsAt(doc, start, pos, enc, i)
  {
  }

  lemma WrapHere(doc: seq<Scalar>, start: nat, i: nat, consumed: uint32, pos: Position, enc: PositionEncoding)
    requires start <= i < |doc| && (forall j | start <= j <= i :: doc[j] != LF) && enc != UTF8
    requires consumed == UnitCount(doc, start, i, enc) && consumed < pos.character
    requires consumed + Units(doc[i], enc) >= 0x1_0000_0000
    ensures WrapsAt(doc, start, pos, enc, i) <==> !AtLineEnd(doc, i + 1)
  {
  }

  lemma NoLaterWrap(doc: seq<Scalar>, start: nat, i: nat, pos: Position, enc: PositionEncoding)
    requires start <= i < |doc| && UnitCount(doc, start, i + 1, enc) >= 0x1_0000_0000
    ensures NoWrapFrom(doc, start, pos, enc, i + 1)
  {
    forall k | k >= i + 1 ensures !WrapsAt(doc, start, pos, enc, k) {
      if k < |doc| {
        UnitCountMonotone(doc, start, i + 1, k, enc);
      }
    }
  }

  lemma NoWrapAfterStop(doc: seq<Scalar>, start: nat, i: nat, pos: Position, enc: PositionEncoding)
    requires start <= i <= |doc|
    requires UnitCount(doc, start, i, enc) >= pos.character || AtLineEnd(doc, i)
    ensures NoWrapFrom(doc, start, pos, enc, i)
  {
    forall k | k >= i ensures !WrapsAt(doc, start, pos, enc, k) {
      if k < |doc| {
        UnitCountMonotone(doc, start, i, k, enc);
      }
    }
  }

  /** UTF-16 and UTF-32: the scanner stops at the client's index, except where it overruns. */
  lemma OffsetRefinesIndex(doc: seq<Scalar>, pos: Position, enc: PositionEncoding)
    requires enc != UTF8
    ensures Offset(Encode(doc), pos, enc) == ByteOffset(doc, Index(doc, pos, enc)) <==> !Overruns(doc, pos, enc)
  {
    var start := LineStart(doc, pos.line);
    assert doc[..0] == [];
    SkipLinesRefines(doc, 0, pos.line);
    ScanRefines(doc, start, start, 0, pos, enc);
    if Overruns(doc, pos, enc) {
      var k :| WrapsAt(doc, start, pos, enc, k);
      assert k >= start;
    }
  }

  /** No overrun in UTF-32, below the largest column, or in a text of fewer than 2^32 - 1 bytes. */
  lemma NoOverrun(doc: seq<Scalar>, pos: Position, enc: PositionEncoding)
    requires enc == UTF32 || pos.character < 0xFFFF_FFFF || |Encode(doc)| < 0xFFFF_FFFF
    ensures !Overruns(doc, pos, enc)
  {
    if Overruns(doc, pos, enc) {
      var start := LineStart(doc, pos.line);
      var k :| WrapsAt(doc, start, pos, enc, k);
      UnitsWithinBytes(doc, start, k);
      ByteOffsetMonotone(doc, k, |doc|);
      ScalarBytes(doc, k);
    }
  }

  lemma {:induction false} UnitsWithinBytes(doc: seq<Scalar>, start: nat, i: nat)
    requires start <= i <= |doc|
    ensures UnitCount(doc, start, i, UTF16) <= ByteOffset(doc, i)
    ensures ByteOffset(doc, start) + UnitCount(doc, start, i, UTF8) == ByteOffset(doc, i)
    decreases i - start
  {
    if start < i {
      UnitsWithinBytes(doc, start, i - 1);
      ScalarBytes(doc, i - 1);
    }
  }

  /** Byte columns: `character` bytes into the line lies a scalar boundary of that line. */
  ghost predicate OnBoundary(doc: seq<Scalar>, pos: Position) {
    UnitCount(doc, LineStart(doc, pos.line), Index(doc, pos, UTF8), UTF8) == pos.character
  }

  ghost predicate Exact(doc: seq<Scalar>, pos: Position, enc: PositionEncoding) {
    if enc == UTF8 then OnBoundary(doc, pos) else !Overruns(doc, pos, enc)
  }

  lemma IndexFromLineStart(doc: seq<Scalar>, pos: Position, enc: PositionEncoding)
    ensures IsColumn(doc, LineStart(doc, pos.line), pos.character, enc, Index(doc, pos, enc))
  {
    ColumnFromIsColumn(doc, LineStart(doc, pos.line), LineStart(doc, pos.line), 0, pos.character, enc);
  }

  /** In every encoding the byte offset is the client's index, exactly when the position is
      one the scanner gets right. */
  lemma OffsetIsIndex(doc: seq<Scalar>, pos: Position, enc: PositionEncoding)
    ensures Offset(Encode(doc), pos, enc) == ByteOffset(doc, Index(doc, pos, enc)) <==> Exact(doc, pos, enc)
  {
    if enc == UTF8 {
      var start := LineStart(doc, pos.line);
      assert doc[..0] == [];
      SkipLinesRefines(doc, 0, pos.line);
      IndexFromLineStart(doc, pos, enc);
      UnitsWithinBytes(doc, start, Index(doc, pos, enc));
    } else {
      OffsetRefinesIndex(doc, pos, enc);
    }
  }

  // ---------------------------------------------------------------- order

  lemma {:induction false} NewlinesConstant(doc: seq<Scalar>, i: nat, j: nat)
    requires i <= j <= |doc| && forall k | i <= k < j :: doc[k] != LF
    ensures Newlines(doc, i) == Newlines(doc, j)
    decreases j - i
  {
    if i < j {
      NewlinesConstant(doc, i, j - 1);
    }
  }

  lemma ColumnMonotone(doc: seq<Scalar>, start: nat, a: nat, b: nat, enc: PositionEncoding, i: nat, j: nat)
    requires a <= b && IsColumn(doc, start, a, enc, i) && IsColumn(doc, start, b, enc, j)
    ensures i <= j
  {
    if j < i {
      UnitCountMonotone(doc, start, j, i - 1, enc);
    }
  }

  lemma IndexMonotone(doc: seq<Scalar>, a: Position, b: Position, enc: PositionEncoding)
    requires PositionLeq(a, b)
    ensures Index(doc, a, enc) <= Index(doc, b, enc)
  {
    var s, i, t, j := LineStart(doc, a.line), Index(doc, a, enc), LineStart(doc, b.line), Index(doc, b, enc);
    IndexFromLineStart(doc, a, enc);
    IndexFromLineStart(doc, b, enc);
    if a.line == b.line {
      ColumnMonotone(doc, s, a.character, b.character, enc, i, j);
    } else if t < i {
      NewlinesConstant(doc, s, i);
      NewlinesMonotone(doc, t, i);
    }
  }

  /** In any encoding, the offsets of positions the scanner gets right follow the order of the
      positions, stay in the text and fall between scalars. */
  lemma OffsetsOrdered(doc: seq<Scalar>, a: Position, b: Position, enc: PositionEncoding)
    requires PositionLeq(a, b) && Exact(doc, a, enc) && Exact(doc, b, enc)
    ensures Offset(Encode(doc), a, enc) <= Offset(Encode(doc), b, enc) <= |Encode(doc)|
    ensures WellFormed(Encode(doc)[..Offset(Encode(doc), a, enc)])
    ensures WellFormed(Encode(doc)[Offset(Encode(doc), a, enc)..])
  {
    OffsetIsIndex(doc, a, enc);
    OffsetIsIndex(doc, b, enc);
    IndexMonotone(doc, a, b, enc);
    ByteOffsetMonotone(doc, Index(doc, a, enc), Index(doc, b, enc));
    SplitAt(doc, Index(doc, a, enc));
  }

  /** From scalar i on, the scanner stops between two scalars of the same line, wherever the
      column is and even if the counter comes round. */
  lemma {:induction false} ScanOnBoundary(doc: seq<Scalar>, i: nat, consumed: uint32, character: uint32,
          enc: PositionEncoding)
      returns (j: nat)
    requires i <= |doc| && enc != UTF8
    ensures i <= j <= |doc| && forall k | i <= k < j :: doc[k] != LF
    ensures ByteOffset(doc, i) <= |Encode(doc)|
    ensures Scan(Encode(doc), ByteOffset(doc, i), consumed, character, enc) == ByteOffset(doc, j)
    decreases |doc| - i
  {
    ScanScalar(doc, i, consumed, character, enc);
    if consumed >= character || AtLineEnd(doc, i) {
      j := i;
    } else {
      j := ScanOnBoundary(doc, i + 1, Add32(consumed, Units(doc[i], enc)), character, enc);
    }
  }

  /** UTF-16 and UTF-32: every position, in the text or not, leads to a scalar boundary of the
      line it names. */
  lemma OffsetOnBoundary(doc: seq<Scalar>, pos: Position, enc: PositionEncoding) returns (j: nat)
    requires enc != UTF8
    ensures LineStart(doc, pos.line) <= j <= |doc| && forall k | LineStart(doc, pos.line) <= k < j :: doc[k] != LF
    ensures Offset(Encode(doc), pos, enc) == ByteOffset(doc, j)
  {
    LineOffset(doc, pos.line);
    j := ScanOnBoundary(doc, LineStart(doc, pos.line), 0, pos.character, enc);
  }

  lemma LineOffset(doc: seq<Scalar>, line: nat)
    ensures SkipLines(Encode(doc), 0, line) == ByteOffset(doc, LineStart(doc, line))
  {
    SkipLinesRefines(doc, 0, line);
    assert doc[..0] == [];
  }

  /** A larger column is never reached sooner. */
  lemma {:induction false} ScanMonotone(text: seq<byte>, offset: nat, consumed: uint32, a: uint32, b: uint32,
          enc: PositionEncoding)
    requires offset <= |text| && a <= b
    ensures Scan(text, offset, consumed, a, enc) <= Scan(text, offset, consumed, b, enc)
    decreases |text| - offset
  {
    if consumed < a && offset < |text| && text[offset] != LF {
      var (len, units) := DecodeUtf8(text, offset);
      ScanMonotone(text, offset + len, Add32(consumed, if enc == UTF16 then units else 1), a, b, enc);
    }
  }

  /** A line without newlines ends before a later one starts. */
  lemma LineBefore(doc: seq<Scalar>, line: nat, later: nat, j: nat)
    requires line < later && LineStart(doc, line) <= j <= |doc|
    requires forall k | LineStart(doc, line) <= k < j :: doc[k] != LF
    ensures j <= LineStart(doc, later)
  {
    var s, t := LineStart(doc, line), LineStart(doc, later);
    if t < j {
      NewlinesMonotone(doc, j, |doc|);
      NewlinesConstant(doc, s, j);
      if t < s {
        NewlinesMonotone(doc, t, s);
      } else {
        NewlinesMonotone(doc, s, t);
        NewlinesMonotone(doc, t, j);
      }
    }
  }

  /** UTF-16 and UTF-32: offsets follow the lexicographic order of positions and stay in the
      text, for every two positions; so the length of a forward range never underflows. */
  lemma OffsetsMonotone(doc: seq<Scalar>, a: Position, b: Position, enc: PositionEncoding)
    requires enc != UTF8 && PositionLeq(a, b)
    ensures Offset(Encode(doc), a, enc) <= Offset(Encode(doc), b, enc) <= |Encode(doc)|
  {
    if a.line == b.line {
      ScanMonotone(Encode(doc), SkipLines(Encode(doc), 0, a.line), 0, a.character, b.character, enc);
    } else {
      var i := OffsetOnBoundary(doc, a, enc);
      var j := OffsetOnBoundary(doc, b, enc);
      LineBefore(doc, a.line, b.line, i);
      ByteOffsetMonotone(doc, i, j);
    }
  }

  lemma SplitAt(doc: seq<Scalar>, i: nat)
    requires i <= |doc|
    ensures ByteOffset(doc, i) <= |Encode(doc)|
    ensures Encode(doc)[..ByteOffset(doc, i)] == Encode(doc[..i])
    ensures Encode(doc)[ByteOffset(doc, i)..] == Encode(doc[i..])
  {
    EncodeSplit(doc, i);
  }

  // ---------------------------------------------------------------- round trip

  function LastLineStart(doc: seq<Scalar>, k: nat): (s: nat)
    requires k <= |doc|
    ensures s <= k && forall j | s <= j < k :: doc[j] != LF
    ensures s == 0 || doc[s - 1] == LF
  {
    if k == 0 || doc[k - 1] == LF then k else LastLineStart(doc, k - 1)
  }

  lemma {:induction false} UnitsBounded(doc: seq<Scalar>, start: nat, k: nat, enc: PositionEncoding)
    requires start <= k <= |doc|
    ensures UnitCount(doc, start, k, enc) <= |Encode(doc)| && Newlines(doc, k) <= |Encode(doc)|
    ensures UnitCount(doc, start, k, enc) <= ByteOffset(doc, k) && Newlines(doc, k) <= ByteOffset(doc, k)
    decreases k
  {
    ByteOffsetMonotone(doc, k, |doc|);
    if k > 0 {
      ScalarBytes(doc, k - 1);
      UnitsBounded(doc, if start < k then start else k - 1, k - 1, enc);
    }
  }

  /** The position a client gives to the boundary before scalar k. */
  function Canonical(doc: seq<Scalar>, k: nat, enc: PositionEncoding): Position
    requires k <= |doc| && |Encode(doc)| < 0xFFFF_FFFF
  {
    UnitsBounded(doc, LastLineStart(doc, k), k, enc);
    Position(Newlines(doc, k), UnitCount(doc, LastLineStart(doc, k), k, enc))
  }

  /** Every scalar boundary has a position, and the scanner maps the position back to it. */
  lemma OffsetRoundTrip(doc: seq<Scalar>, k: nat, enc: PositionEncoding)
    requires k <= |doc| && |Encode(doc)| < 0xFFFF_FFFF
    ensures Index(doc, Canonical(doc, k, enc), enc) == k
    ensures Offset(Encode(doc), Canonical(doc, k, enc), enc) == ByteOffset(doc, k)
  {
    var pos, s := Canonical(doc, k, enc), LastLineStart(doc, k);
    NewlinesConstant(doc, s, k);
    NewlinesMonotone(doc, k, |doc|);
    assert IsLineStart(doc, pos.line, s);
    assert IsColumn(doc, s, pos.character, enc, k);
    IndexUnique(doc, pos, enc, k);
    LineStartUnique(doc, pos.line, s, LineStart(doc, pos.line));
    NoOverrunUnless8(doc, pos, enc);
    OffsetIsIndex(doc, pos, enc);
  }

  lemma NoOverrunUnless8(doc: seq<Scalar>, pos: Position, enc: PositionEncoding)
    requires |Encode(doc)| < 0xFFFF_FFFF
    ensures enc != UTF8 ==> !Overruns(doc, pos, enc)
  {
    if enc != UTF8 {
      NoOverrun(doc, pos, enc);
    }
  }

  // ---------------------------------------------------------------- ASCII

  ghost predicate Ascii(doc: seq<Scalar>) {
    forall k | 0 <= k < |doc| :: doc[k] < 0x80
  }

  lemma {:induction false} AsciiUnits(doc: seq<Scalar>, start: nat, i: nat, enc: PositionEncoding)
    requires start <= i <= |doc| && forall k | start <= k < i :: doc[k] < 0x80
    ensures UnitCount(doc, start, i, enc) == i - start
    decreases i
  {
    if start < i {
      AsciiUnits(doc, start, i - 1, enc);
    }
  }

  /** The overrun is real: 2^32 - 2 letters, one scalar of two units, one more letter. */
  lemma OverrunExists() returns (doc: seq<Scalar>, pos: Position)
    ensures Overruns(doc, pos, UTF16)
    ensures Offset(Encode(doc), pos, UTF16) != ByteOffset(doc, Index(doc, pos, UTF16))
  {
    var n, letter: Scalar := 0xFFFF_FFFE, 97;
    doc := seq(n, _ => letter) + [0x10000, letter];
    pos := Position(0, 0xFFFF_FFFF);
    AsciiUnits(doc, 0, n, UTF16);
    assert LineStart(doc, 0) == 0;
    assert WrapsAt(doc, 0, pos, UTF16, n);
    OffsetIsIndex(doc, pos, UTF16);
  }

  lemma AsciiSameIndex(doc: seq<Scalar>, pos: Position, a: PositionEncoding, b: PositionEncoding)
    requires Ascii(doc)
    ensures Index(doc, pos, a) == Index(doc, pos, b)
  {
    var s, i := LineStart(doc, pos.line), Index(doc, pos, a);
    IndexFromLineStart(doc, pos, a);
    AsciiUnits(doc, s, i, a);
    AsciiUnits(doc, s, i, b);
    if s < i {
      AsciiUnits(doc, s, i - 1, a);
      AsciiUnits(doc, s, i - 1, b);
    }
    assert IsColumn(doc, s, pos.character, b, i);
    IndexUnique(doc, pos, b, i);
  }

  /** On ASCII text the three encodings agree on every column inside its line. */
  lemma AsciiAgreement(doc: seq<Scalar>, pos: Position, enc: PositionEncoding)
    requires Ascii(doc) && OnBoundary(doc, pos)
    ensures Offset(Encode(doc), pos, enc) == Offset(Encode(doc), pos, UTF8)
    ensures Offset(Encode(doc), pos, enc) == ByteOffset(doc, LineStart(doc, pos.line)) + pos.character
  {
    AsciiSameIndex(doc, pos, enc, UTF8);
    IndexFromLineStart(doc, pos, UTF8);
    UnitsWithinBytes(doc, LineStart(doc, pos.line), Index(doc, pos, UTF8));
    OffsetIsIndex(doc, pos, UTF8);
    OffsetIsIndex(doc, pos, enc);
  }
}
