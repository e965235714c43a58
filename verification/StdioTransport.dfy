/** Content-Length framing over a byte stream (LSP 3.17 Base Protocol, "Header Part"). */
module StdioTransport {
  import opened Options
  import opened Words

  const CRLF2: string := "\r\n\r\n"
  const KEY: string := "Content-Length: "

  // ---------------------------------------------------------------- what is on the wire

  function Print(n: nat): (s: string)
    ensures |s| >= 1 && AllDigits(s)
  {
    var last := ['0' + (n % 10) as char];
    if n < 10 then last else Print(n / 10) + last
  }

  predicate AllDigits(s: string) {
    forall k | 0 <= k < |s| :: '0' <= s[k] <= '9'
  }

  function Digit(c: char): nat
    requires '0' <= c <= '9'
  {
    c as int - '0' as int
  }

  /** The value of a decimal, its digits read from the left. */
  function Decimal(acc: nat, s: string): (n: nat)
    requires AllDigits(s)
    ensures acc <= n
    decreases |s|
  {
    if s == [] then acc else Decimal(acc * 10 + Digit(s[0]), s[1..])
  }

  lemma {:induction false} DecimalConcat(acc: nat, a: string, b: string)
    requires AllDigits(a) && AllDigits(b)
    ensures AllDigits(a + b) && Decimal(acc, a + b) == Decimal(Decimal(acc, a), b)
    decreases |a|
  {
    if a == [] {
      assert a + b == b;
    } else {
      assert (a + b)[1..] == a[1..] + b;
      DecimalConcat(acc * 10 + Digit(a[0]), a[1..], b);
    }
  }

  /** Printing and reading a length are inverse. */
  lemma {:induction false} DecimalPrint(n: nat)
    ensures Decimal(0, Print(n)) == n
    decreases n
  {
    var last := ['0' + (n % 10) as char];
    assert last[1..] == [];
    if n >= 10 {
      DecimalPrint(n / 10);
      DecimalConcat(0, Print(n / 10), last);
    }
  }

  function Frame(body: string): string {
    KEY + Print(|body|) + CRLF2 + body
  }

  function Wire(bodies: seq<string>): string {
    if bodies == [] then [] else Wire(bodies[..|bodies| - 1]) + Frame(bodies[|bodies| - 1])
  }

  // ---------------------------------------------------------------- specification of reading

  predicate At(s: string, k: nat, key: string) {
    k + |key| <= |s| && s[k..k + |key|] == key
  }

  /** The first place, from k on, where the key occurs. */
  function Find(s: string, key: string, k: nat): (r: Option<nat>)
    requires k <= |s|
    ensures r.None? ==> forall j | k <= j :: !At(s, j, key)
    ensures r.Some? ==> k <= r.value && At(s, r.value, key) && forall j | k <= j < r.value :: !At(s, j, key)
    decreases |s| - k
  {
    if At(s, k, key) then Some(k) else if k == |s| then None else Find(s, key, k + 1)
  }

  /** Overflow is where the source's signed arithmetic leaves 32 bits. */
  datatype HeaderLength = Missing | Length(n: nat) | Overflow

  function ScanDigits(s: string, acc: nat): HeaderLength
    decreases |s|
  {
    if s == [] then Length(acc)
    else if !('0' <= s[0] <= '9') then Missing
    else if acc * 10 + Digit(s[0]) > INT32_MAX then Overflow
    else ScanDigits(s[1..], acc * 10 + Digit(s[0]))
  }

  function ParseHeaders(headers: string): HeaderLength {
    match Find(headers, KEY, 0)
    case None => Missing
    case Some(p) =>
      var start := p + |KEY|;
      var end := match Find(headers, "\r", start) case None => |headers| case Some(e) => e;
      if end == start then Missing else ScanDigits(headers[start..end], 0)
  }

  /** Stuck is the header loop that never sees the blank line. */
  datatype Received = Stuck | NoMessage | Undefined | Message(body: string, rest: string)

  function Receive(stream: string): Received {
    match Find(stream, CRLF2, 0)
    case None => Stuck
    case Some(e) =>
      match ParseHeaders(stream[..e + 4])
      case Missing => NoMessage
      case Overflow => Undefined
      case Length(n) =>
        if e + 4 + n > |stream| then NoMessage
        else Message(stream[e + 4..e + 4 + n], stream[e + 4 + n..])
  }

  /** A header value is accepted exactly when it is a decimal that fits 32 signed bits. */
  lemma {:induction false} ScanDigitsAccepts(s: string, acc: nat)
    requires acc <= INT32_MAX
    ensures ScanDigits(s, acc).Length? <==> AllDigits(s) && Decimal(acc, s) <= INT32_MAX
    ensures AllDigits(s) && Decimal(acc, s) <= INT32_MAX ==> ScanDigits(s, acc) == Length(Decimal(acc, s))
    decreases |s|
  {
    if s != [] && '0' <= s[0] <= '9' {
      assert AllDigits(s) <==> AllDigits(s[1..]) by { assert s == [s[0]] + s[1..]; }
      var next := acc * 10 + Digit(s[0]);
      if next <= INT32_MAX {
        ScanDigitsAccepts(s[1..], next);
      }
    }
  }

  // ---------------------------------------------------------------- round trip

  lemma FindAt(s: string, key: string, k: nat)
    requires At(s, k, key) && forall j | 0 <= j < k :: !At(s, j, key)
    ensures Find(s, key, 0) == Some(k)
  {
  }

  lemma FrameEndsHeader(body: string, rest: string)
    ensures var e := |KEY| + |Print(|body|)|;
      Find(Frame(body) + rest, CRLF2, 0) == Some(e) && (Frame(body) + rest)[..e + 4] == KEY + Print(|body|) + CRLF2
  {
    var head, stream := KEY + Print(|body|), Frame(body) + rest;
    Associative(head + CRLF2, body, rest);
    forall j | 0 <= j < |head| ensures !At(stream, j, CRLF2) {
      assert stream[j] == head[j] != '\r';
      assert j + 4 <= |stream| ==> stream[j..j + 4][0] == stream[j];
    }
    assert stream[|head|..|head| + 4] == CRLF2;
    FindAt(stream, CRLF2, |head|);
  }

  lemma ParseFrameHeader(n: nat)
    requires n <= INT32_MAX
    ensures ParseHeaders(KEY + Print(n) + CRLF2) == Length(n)
  {
    var digits := Print(n);
    var h := KEY + digits + CRLF2;
    assert At(h, 0, KEY);
    var end := |KEY| + |digits|;
    forall j | |KEY| <= j < end ensures !At(h, j, "\r") {
      assert h[j] == digits[j - |KEY|];
      assert h[j..j + 1][0] == h[j];
    }
    assert At(h, end, "\r") by { assert h[end..end + 1] == ['\r']; }
    assert h[|KEY|..end] == digits;
    DecimalPrint(n);
    ScanDigitsAccepts(digits, 0);
  }

  /** Reading a frame gives back its body and leaves what follows. */
  lemma ReceiveFrame(body: string, rest: string)
    requires |body| <= INT32_MAX
    ensures Receive(Frame(body) + rest) == Message(body, rest)
  {
    FrameEndsHeader(body, rest);
    ParseFrameHeader(|body|);
    var e, stream := |KEY| + |Print(|body|)| + 4, Frame(body) + rest;
    assert stream[..e] + (body + rest) == stream;
    assert stream[e..e + |body|] == body && stream[e + |body|..] == rest;
  }

  /** Reads messages until the stream is used up; None if a read fails. */
  function ReceiveAll(stream: string, count: nat): Option<(seq<string>, string)>
    decreases count
  {
    if count == 0 then Some(([], stream))
    else
      match Receive(stream)
      case Message(body, rest) =>
        (match ReceiveAll(rest, count - 1)
         case None => None
         case Some((bodies, left)) => Some(([body] + bodies, left)))
      case _ => None
  }

  lemma Associative(a: string, b: string, c: string)
    ensures (a + b) + c == a + (b + c)
  {
  }

  lemma {:induction false} WireFirst(bodies: seq<string>)
    requires bodies != []
    ensures Wire(bodies) == Frame(bodies[0]) + Wire(bodies[1..])
    decreases |bodies|
  {
    if |bodies| == 1 {
      assert bodies[..0] == [] && bodies[1..] == [];
    } else {
      var init, last := bodies[..|bodies| - 1], Frame(bodies[|bodies| - 1]);
      WireFirst(init);
      assert bodies[1..][..|bodies| - 2] == init[1..];
      assert Wire(bodies[1..]) == Wire(init[1..]) + last;
      Associative(Frame(bodies[0]), Wire(init[1..]), last);
    }
  }

  lemma ReceiveAllStep(stream: string, count: nat, body: string, rest: string, bodies: seq<string>, left: string)
    requires count > 0 && Receive(stream) == Message(body, rest) && ReceiveAll(rest, count - 1) == Some((bodies, left))
    ensures ReceiveAll(stream, count) == Some(([body] + bodies, left))
  {
  }

  /** The frame stream: every body comes back, in the order sent, and nothing is left over. */
  lemma {:induction false} FrameStream(bodies: seq<string>)
    requires forall k | 0 <= k < |bodies| :: |bodies[k]| <= INT32_MAX
    ensures ReceiveAll(Wire(bodies), |bodies|) == Some((bodies, ""))
    decreases |bodies|
  {
    if bodies == [] {
    } else {
      WireFirst(bodies);
      ReceiveFrame(bodies[0], Wire(bodies[1..]));
      FrameStream(bodies[1..]);
      ReceiveAllStep(Wire(bodies), |bodies|, bodies[0], Wire(bodies[1..]), bodies[1..], "");
      assert [bodies[0]] + bodies[1..] == bodies;
    }
  }

  // ---------------------------------------------------------------- the loop that does not end

  /** The header buffer after n reads. A read past the end leaves the character as it was. */
  function HeaderBuffer(stream: string, initial: char, n: nat): string {
    if n <= |stream| then stream[..n]
    else stream + seq(n - |stream|, _ => if stream == [] then initial else stream[|stream| - 1])
  }

  predicate EndsHeader(headers: string) {
    |headers| >= 4 && headers[|headers| - 4..] == CRLF2
  }

  /** The header loop ends exactly when the blank line is still in the stream. */
  lemma HeaderLoopEnds(stream: string, initial: char)
    ensures (exists n: nat :: EndsHeader(HeaderBuffer(stream, initial, n))) <==> Find(stream, CRLF2, 0).Some?
  {
    match Find(stream, CRLF2, 0)
    case Some(e) =>
      assert stream[..e + 4][e..] == stream[e..e + 4];
      assert EndsHeader(HeaderBuffer(stream, initial, e + 4));
    case None =>
      forall n: nat ensures !EndsHeader(HeaderBuffer(stream, initial, n)) {
        var b := HeaderBuffer(stream, initial, n);
        if 4 <= n <= |stream| {
          assert b[n - 4..] == stream[n - 4..n];
          assert !At(stream, n - 4, CRLF2);
        } else if n >= 4 {
          assert b[n - 1] == b[n - 2];
          assert b[n - 4..][3] == b[n - 1] && b[n - 4..][2] == b[n - 2];
        }
      }
  }

  // ---------------------------------------------------------------- the class

  datatype ReadResult = Body(body: string) | NoBody | Unspecified

  class StdioTransport {
    const input: string
    var pos: nat
    /** The input stream's fail and eof bits, which a short read sets together. */
    var failed: bool
    var output: string
    /** The bodies sent so far. */
    ghost var sent: seq<string>

    ghost predicate Valid()
      reads this
    {
      pos <= |input| && output == Wire(sent)
    }

    /** What is left to read. */
    ghost function Rest(): string
      requires Valid()
      reads this
    {
      input[pos..]
    }

    constructor (input: string)
      ensures Valid() && Rest() == input && !failed && sent == []
    {
      this.input := input;
      pos, failed, output, sent := 0, false, "", [];
    }

    method ReadHeaders() returns (length: HeaderLength)
      requires Valid() && (failed || Find(Rest(), CRLF2, 0).Some?)
      modifies this`pos
      ensures Valid()
      ensures failed ==> length == Missing && pos == old(pos)
      ensures !failed ==> var e := Find(old(Rest()), CRLF2, 0).value + 4;
        length == ParseHeaders(old(Rest())[..e]) && Rest() == old(Rest())[e..]
    {
      if failed {
        return Missing;
      }
      ghost var stream, e := Rest(), Find(Rest(), CRLF2, 0).value + 4;
      var headers := "";
      while !EndsHeader(headers)
        invariant Valid() && |headers| <= e
        invariant headers == stream[..|headers|] && Rest() == stream[|headers|..]
        decreases e - |headers|
      {
        assert |headers| != e by {
          assert stream[..e][e - 4..] == stream[e - 4..e];
        }
        headers := headers + [input[pos]];
        pos := pos + 1;
      }
      assert stream[|headers| - 4..|headers|] == headers[|headers| - 4..];
      assert At(stream, |headers| - 4, CRLF2);
      assert headers == stream[..e];
      length := ParseLength(headers);
    }

    /** The second half of readHeaders: the value of the length header. */
    static method ParseLength(headers: string) returns (length: HeaderLength)
      ensures length == ParseHeaders(headers)
    {
      var key := Find(headers, KEY, 0);
      if key.None? {
        return Missing;
      }
      var valueStart := key.value + |KEY|;
      var valueEnd := Find(headers, "\r", valueStart);
      var value := headers[valueStart..if valueEnd.None? then |headers| else valueEnd.value];
      if value == "" {
        return Missing;
      }
      var contentLength: nat, i := 0, 0;
      while i < |value|
        invariant 0 <= i <= |value| && contentLength <= INT32_MAX
        invariant ScanDigits(value, 0) == ScanDigits(value[i..], contentLength)
      {
        if value[i] < '0' || value[i] > '9' {
          return Missing;
        }
        var next := contentLength * 10 + Digit(value[i]);
        if next > INT32_MAX {
          return Overflow;
        }
        contentLength := next;
        i := i + 1;
      }
      return Length(contentLength);
    }

    method ReadMessage() returns (result: ReadResult)
      requires Valid() && (failed || Find(Rest(), CRLF2, 0).Some?)
      modifies this`pos, this`failed
      ensures Valid()
      ensures old(failed) ==> result == NoBody && failed
      ensures !old(failed) ==>
        match Receive(old(Rest()))
        case Message(body, rest) => result == Body(body) && Rest() == rest && !failed
        case NoMessage => result == NoBody
        case Undefined => result == Unspecified
        case Stuck => false
    {
      ghost var before := Rest();
      var contentLength := ReadHeaders();
      match contentLength
      case Missing =>
        return NoBody;
      case Overflow =>
        return Unspecified;
      case Length(n) =>
        RestSlice(before, |before| - |Rest()|, input, pos, n);
        result := ReadBody(n);
    }

    /** The second half of readMessage: n bytes, or a failed stream. */
    method ReadBody(n: nat) returns (result: ReadResult)
      requires Valid() && !failed
      modifies this`pos, this`failed
      ensures Valid()
      ensures if n <= |old(Rest())| then result == Body(old(Rest())[..n]) && Rest() == old(Rest())[n..] && !failed
              else result == NoBody && failed
    {
      if pos + n > |input| {
        pos, failed := |input|, true;
        return NoBody;
      }
      result := Body(input[pos..pos + n]);
      pos := pos + n;
    }

    static lemma RestSlice(before: string, e: nat, input: string, pos: nat, n: nat)
      requires e <= |before| && pos <= |input| && before[e..] == input[pos..]
      ensures n <= |input| - pos ==> input[pos..][..n] == before[e..e + n] && input[pos..][n..] == before[e + n..]
    {
    }

    method SendMessage(body: string)
      requires Valid()
      modifies this`output, this`sent
      ensures Valid() && sent == old(sent) + [body] && output == old(output) + Frame(body)
    {
      output := output + KEY + Print(|body|) + CRLF2 + body;
      sent := sent + [body];
      assert old(output) + KEY + Print(|body|) + CRLF2 + body == old(output) + Frame(body);
    }
  }
}
