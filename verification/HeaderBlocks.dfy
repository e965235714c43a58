/** What the reader makes of any block of header lines, not only of the one line the server
    itself writes: which line decides, and when a message comes out. */
module HeaderBlocks {
  import opened Options
  import opened Words
  import opened StdioTransport

  const CR: string := "\r"
  const CRLF: string := "\r\n"

  /** A header line without the CR LF that ends it. */
  predicate IsLine(line: string) {
    line != "" && '\r' !in line
  }

  predicate HoldsKey(line: string) {
    exists j | 0 <= j < |line| :: At(line, j, KEY)
  }

  function Block(lines: seq<string>): string {
    if lines == [] then "" else lines[0] + (CRLF + Block(lines[1..]))
  }

  /** The header block, the blank line and what follows. */
  function Stream(lines: seq<string>, after: string): string {
    Block(lines) + (CRLF + after)
  }

  // ---------------------------------------------------------------- searching behind a prefix

  lemma AtShift(a: string, s: string, key: string, j: nat)
    ensures At(a + s, |a| + j, key) <==> At(s, j, key)
  {
    if |a| + j + |key| <= |a + s| {
      assert (a + s)[|a| + j..|a| + j + |key|] == s[j..j + |key|];
    }
  }

  lemma AtPrefix(a: string, s: string, key: string, j: nat)
    requires j + |key| <= |a|
    ensures At(a + s, j, key) <==> At(a, j, key)
  {
    assert (a + s)[j..j + |key|] == a[j..j + |key|];
  }

  /** One character that differs is enough. */
  lemma NotAt(s: string, key: string, j: nat, i: nat)
    requires i < |key| && j + i < |s| && s[j + i] != key[i]
    ensures !At(s, j, key)
  {
    if j + |key| <= |s| {
      assert s[j..j + |key|][i] == s[j + i];
    }
  }

  lemma FindIs(s: string, key: string, k: nat, p: nat)
    requires k <= p && At(s, p, key) && forall j | k <= j < p :: !At(s, j, key)
    ensures k <= |s| && Find(s, key, k) == Some(p)
  {
  }

  lemma NoneBetween(a: string, s: string, key: string, k: nat, p: nat)
    requires forall j | k <= j < p :: !At(s, j, key)
    ensures forall j | |a| + k <= j < |a| + p :: !At(a + s, j, key)
  {
    forall j | |a| + k <= j < |a| + p ensures !At(a + s, j, key) {
      AtShift(a, s, key, j - |a|);
    }
  }

  lemma FindNone(s: string, key: string, k: nat)
    requires k <= |s| && forall j | k <= j <= |s| :: !At(s, j, key)
    ensures Find(s, key, k) == None
  {
  }

  lemma FindShift(a: string, s: string, key: string, k: nat)
    requires k <= |s|
    ensures Find(a + s, key, |a| + k)
         == match Find(s, key, k) case None => None case Some(p) => Some(|a| + p)
  {
    match Find(s, key, k)
    case Some(p) =>
      NoneBetween(a, s, key, k, p);
      AtShift(a, s, key, p);
      FindIs(a + s, key, |a| + k, |a| + p);
    case None =>
      NoneBetween(a, s, key, k, |s| + 1);
      FindNone(a + s, key, |a| + k);
  }

  lemma FindSkip(a: string, s: string, key: string)
    requires forall j | 0 <= j < |a| :: !At(a + s, j, key)
    ensures Find(a + s, key, 0)
         == match Find(s, key, 0) case None => None case Some(p) => Some(|a| + p)
  {
    FindShift(a, s, key, 0);
    match Find(a + s, key, |a|)
    case Some(p) => FindIs(a + s, key, 0, p);
    case None =>
  }

  // ---------------------------------------------------------------- where the block ends

  lemma NoBlankInLine(line: string, after: string, j: nat)
    requires IsLine(line) && j < |line| + 2
    requires j == |line| ==> after != "" && after[0] != '\r'
    ensures !At(line + (CRLF + after), j, CRLF2)
  {
    var s := line + (CRLF + after);
    if j < |line| {
      assert s[j] == line[j];
      NotAt(s, CRLF2, j, 0);
    } else if j == |line| {
      NotAt(s, CRLF2, j, 2);
    } else {
      NotAt(s, CRLF2, j, 0);
    }
  }

  /** The first blank line is the one after the last header line. */
  lemma {:induction false} BlankFound(lines: seq<string>, after: string)
    requires lines != [] && forall i | 0 <= i < |lines| :: IsLine(lines[i])
    ensures |Block(lines)| >= 2 && Find(Stream(lines, after), CRLF2, 0) == Some(|Block(lines)| - 2)
    decreases |lines|
  {
    var line, more := lines[0], lines[1..];
    StreamStep(lines, after);
    assert |Block(lines)| == |line| + 2 + |Block(more)|;
    if more == [] {
      NoLines(after);
      BlankAfterLine(line, after);
    } else {
      BlankFound(more, after);
      StreamFirst(more, after);
      BlankBehindLine(line, Stream(more, after));
    }
  }

  lemma StreamStep(lines: seq<string>, after: string)
    requires lines != []
    ensures Stream(lines, after) == lines[0] + (CRLF + Stream(lines[1..], after))
  {
    var more := Block(lines[1..]);
    Associative(lines[0], CRLF + more, CRLF + after);
    Associative(CRLF, more, CRLF + after);
  }

  lemma NoLines(after: string)
    ensures Block([]) == "" && Stream([], after) == CRLF + after
  {
  }

  lemma StreamFirst(lines: seq<string>, after: string)
    requires lines != [] && IsLine(lines[0])
    ensures Stream(lines, after) != "" && Stream(lines, after)[0] != '\r'
  {
    StreamStep(lines, after);
  }

  lemma BlankAfterLine(line: string, after: string)
    requires IsLine(line)
    ensures Find(line + (CRLF + (CRLF + after)), CRLF2, 0) == Some(|line|)
  {
    var s := line + (CRLF + (CRLF + after));
    forall j | 0 <= j < |line| ensures !At(s, j, CRLF2) {
      NoBlankInLine(line, CRLF + after, j);
    }
    assert s[|line|..|line| + 4] == CRLF2;
    FindIs(s, CRLF2, 0, |line|);
  }

  lemma BlankBehindLine(line: string, more: string)
    requires IsLine(line) && more != "" && more[0] != '\r'
    ensures Find(line + (CRLF + more), CRLF2, 0)
         == match Find(more, CRLF2, 0) case None => None case Some(p) => Some(|line| + 2 + p)
  {
    Associative(line, CRLF, more);
    forall j | 0 <= j < |line + CRLF| ensures !At(line + CRLF + more, j, CRLF2) {
      NoBlankInLine(line, more, j);
    }
    FindSkip(line + CRLF, more, CRLF2);
  }

  // ---------------------------------------------------------------- which line decides

  lemma NoKeyInLine(line: string, after: string, j: nat)
    requires j < |line| + 2 && !HoldsKey(line)
    ensures !At(line + CRLF + after, j, KEY)
  {
    var s := line + CRLF + after;
    if j + |KEY| <= |line| {
      AtPrefix(line, CRLF + after, KEY, j);
      assert s == line + (CRLF + after);
    } else if j <= |line| {
      assert '\r' !in KEY;
      NotAt(s, KEY, j, |line| - j);
    } else {
      NotAt(s, KEY, j, 0);
    }
  }

  /** A prefix without the key does not change what is parsed. */
  lemma ParseBehind(a: string, headers: string)
    requires forall j | 0 <= j < |a| :: !At(a + headers, j, KEY)
    ensures ParseHeaders(a + headers) == ParseHeaders(headers)
  {
    FindSkip(a, headers, KEY);
    match Find(headers, KEY, 0)
    case None =>
    case Some(p) => ParseShift(a, headers, a + headers, p);
  }

  lemma ParseShift(a: string, headers: string, all: string, p: nat)
    requires all == a + headers && Find(headers, KEY, 0) == Some(p) && Find(all, KEY, 0) == Some(|a| + p)
    ensures ParseHeaders(all) == ParseHeaders(headers)
  {
    ParseAt(headers, p);
    ParseAt(all, |a| + p);
    ValueShift(a, headers, p + |KEY|);
  }

  lemma ValueShift(a: string, headers: string, start: nat)
    requires start <= |headers|
    ensures (a + headers)[|a| + start..ValueEnd(a + headers, |a| + start)] == headers[start..ValueEnd(headers, start)]
  {
    ValueEndShift(a, headers, start);
    SliceShift(a, headers, start, ValueEnd(headers, start));
  }

  function ValueEnd(headers: string, start: nat): (end: nat)
    requires start <= |headers|
    ensures start <= end <= |headers|
  {
    match Find(headers, CR, start) case None => |headers| case Some(e) => e
  }

  lemma ValueEndShift(a: string, headers: string, start: nat)
    requires start <= |headers|
    ensures ValueEnd(a + headers, |a| + start) == |a| + ValueEnd(headers, start)
  {
    FindShift(a, headers, CR, start);
  }

  lemma ParseAt(headers: string, p: nat)
    requires Find(headers, KEY, 0) == Some(p)
    ensures p + |KEY| <= |headers|
    ensures ParseHeaders(headers) == ValueLength(headers[p + |KEY|..ValueEnd(headers, p + |KEY|)])
  {
  }

  function ValueLength(value: string): HeaderLength {
    if value == "" then Missing else ScanDigits(value, 0)
  }

  lemma SliceShift(a: string, s: string, i: nat, j: nat)
    requires i <= j <= |s|
    ensures (a + s)[|a| + i..|a| + j] == s[i..j]
  {
  }

  /** The text after the key, up to the end of the line, is what is read as the length. */
  lemma ParseLine(line: string, p: nat, after: string)
    requires IsLine(line) && Find(line, KEY, 0) == Some(p)
    ensures var value := line[p + |KEY|..];
      ParseHeaders(line + (CRLF + after)) == if value == "" then Missing else ScanDigits(value, 0)
  {
    var headers, start := line + (CRLF + after), p + |KEY|;
    forall j | 0 <= j <= p ensures At(headers, j, KEY) <==> At(line, j, KEY) {
      AtPrefix(line, CRLF + after, KEY, j);
    }
    FindIs(headers, KEY, 0, p);
    forall j | start <= j < |line| ensures !At(headers, j, CR) {
      assert headers[j..j + 1][0] == line[j];
    }
    assert headers[|line|..|line| + 1] == CR;
    FindIs(headers, CR, start, |line|);
    assert headers[start..|line|] == line[start..];
  }

  /** A block without the key has no length. */
  lemma {:induction false} NoKeyMissing(lines: seq<string>)
    requires forall i | 0 <= i < |lines| :: !HoldsKey(lines[i])
    ensures ParseHeaders(Block(lines) + CRLF) == Missing
    decreases |lines|
  {
    if lines == [] {
      assert Block(lines) + CRLF == CRLF;
      assert forall j | 0 <= j :: !At(CRLF, j, KEY);
    } else {
      var line, tail := lines[0], Block(lines[1..]) + CRLF;
      assert Block(lines) + CRLF == line + CRLF + tail;
      forall j | 0 <= j < |line + CRLF| ensures !At(line + CRLF + tail, j, KEY) {
        NoKeyInLine(line, tail, j);
      }
      ParseBehind(line + CRLF, tail);
      NoKeyMissing(lines[1..]);
    }
  }

  /** The first line with the key decides, wherever it stands and whatever comes after it. */
  lemma {:induction false} FirstKeyDecides(lines: seq<string>, k: nat, p: nat)
    requires k < |lines| && IsLine(lines[k]) && Find(lines[k], KEY, 0) == Some(p)
    requires forall i | 0 <= i < k :: !HoldsKey(lines[i])
    ensures var value := lines[k][p + |KEY|..];
      ParseHeaders(Block(lines) + CRLF) == if value == "" then Missing else ScanDigits(value, 0)
    decreases k
  {
    var line, tail := lines[0], Block(lines[1..]) + CRLF;
    if k == 0 {
      assert Block(lines) + CRLF == line + (CRLF + tail);
      ParseLine(line, p, tail);
    } else {
      assert Block(lines) + CRLF == line + CRLF + tail;
      forall j | 0 <= j < |line + CRLF| ensures !At(line + CRLF + tail, j, KEY) {
        NoKeyInLine(line, tail, j);
      }
      ParseBehind(line + CRLF, tail);
      FirstKeyDecides(lines[1..], k - 1, p);
    }
  }

  // ---------------------------------------------------------------- reading a message

  lemma ReceiveIs(lines: seq<string>, after: string)
    requires lines != [] && forall i | 0 <= i < |lines| :: IsLine(lines[i])
    ensures Receive(Stream(lines, after))
         == match ParseHeaders(Block(lines) + CRLF)
            case Missing => NoMessage
            case Overflow => Undefined
            case Length(n) => if n > |after| then NoMessage else Message(after[..n], after[n..])
  {
    BlankFound(lines, after);
    Associative(Block(lines), CRLF, after);
    ReceiveBehind(Block(lines) + CRLF, after);
  }

  /** Reading behind a header block that ends at the first blank line. */
  lemma ReceiveBehind(headers: string, after: string)
    requires |headers| >= 4 && Find(headers + after, CRLF2, 0) == Some(|headers| - 4)
    ensures Receive(headers + after)
         == match ParseHeaders(headers)
            case Missing => NoMessage
            case Overflow => Undefined
            case Length(n) => if n > |after| then NoMessage else Message(after[..n], after[n..])
  {
    assert (headers + after)[..|headers|] == headers;
    if ParseHeaders(headers).Length? && ParseHeaders(headers).n <= |after| {
      CutBehind(headers, after, ParseHeaders(headers).n);
    }
  }

  lemma CutBehind(a: string, s: string, n: nat)
    requires n <= |s|
    ensures (a + s)[|a|..|a| + n] == s[..n] && (a + s)[|a| + n..] == s[n..]
  {
  }

  /** Without a Content-Length line there is no message. */
  lemma ReceiveWithoutKey(lines: seq<string>, after: string)
    requires lines != [] && forall i | 0 <= i < |lines| :: IsLine(lines[i]) && !HoldsKey(lines[i])
    ensures Receive(Stream(lines, after)) == NoMessage
  {
    ReceiveIs(lines, after);
    NoKeyMissing(lines);
  }

  /** With one, in any place among the others, the reader hands out exactly the bytes it names
      and leaves the rest, if its value is a decimal within 31 bits and that many bytes are
      there. Otherwise no message comes out. */
  lemma ReceiveBlock(lines: seq<string>, k: nat, p: nat, after: string)
    requires k < |lines| && forall i | 0 <= i < |lines| :: IsLine(lines[i])
    requires Find(lines[k], KEY, 0) == Some(p) && forall i | 0 <= i < k :: !HoldsKey(lines[i])
    ensures var value, received := lines[k][p + |KEY|..], Receive(Stream(lines, after));
      if value != "" && AllDigits(value) && Decimal(0, value) <= INT32_MAX && Decimal(0, value) <= |after| then
        received == Message(after[..Decimal(0, value)], after[Decimal(0, value)..])
      else if value != "" && AllDigits(value) && Decimal(0, value) <= INT32_MAX then
        received == NoMessage
      else
        received == NoMessage || received == Undefined
  {
    ReceiveIs(lines, after);
    FirstKeyDecides(lines, k, p);
    ScanDigitsAccepts(lines[k][p + |KEY|..], 0);
  }

  /** The usual form: one line is the key and the digits, the others do not hold the key. */
  lemma ReceiveAmongHeaders(before: seq<string>, digits: string, others: seq<string>, body: string, rest: string)
    requires digits != "" && AllDigits(digits) && Decimal(0, digits) == |body| <= INT32_MAX
    requires forall i | 0 <= i < |before| :: IsLine(before[i]) && !HoldsKey(before[i])
    requires forall i | 0 <= i < |others| :: IsLine(others[i])
    ensures Receive(Stream(before + [KEY + digits] + others, body + rest)) == Message(body, rest)
  {
    var lines, line := before + [KEY + digits] + others, KEY + digits;
    assert At(line, 0, KEY);
    FindIs(line, KEY, 0, 0);
    assert line[|KEY|..] == digits;
    forall i | 0 <= i < |lines| ensures IsLine(lines[i]) {
      if i == |before| {
        assert '\r' !in KEY;
      }
    }
    ReceiveBlock(lines, |before|, 0, body + rest);
    assert (body + rest)[..|body|] == body && (body + rest)[|body|..] == rest;
  }
}
