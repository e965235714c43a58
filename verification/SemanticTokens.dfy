/** The builder of the relative token encoding of LSP 3.17 ("Integer Encoding for Tokens"). */
module SemanticTokens {
  import opened Words

  datatype Token = Token(line: nat, startChar: nat, length: nat, tokenType: nat, tokenModifiers: nat)

  ghost predicate Fits(t: Token) {
    t.line < 0x1_0000_0000 && t.startChar < 0x1_0000_0000 && t.length < 0x1_0000_0000
    && t.tokenType < 0x1_0000_0000 && t.tokenModifiers < 0x1_0000_0000
  }

  /** The comparator handed to the sort. */
  predicate Before(a: Token, b: Token) {
    if a.line != b.line then a.line < b.line else a.startChar < b.startChar
  }

  ghost predicate Sorted(tokens: seq<Token>) {
    forall i, j | 0 <= i < j < |tokens| :: !Before(tokens[j], tokens[i])
  }

  // ---------------------------------------------------------------- the client's decoder

  /** What a client reads: each token is placed relative to the one before it. The sums are
      unbounded, so a subtraction that wrapped on the server would show here. */
  function Decode(data: seq<nat>, line: nat, startChar: nat): seq<Token> {
    if |data| < 5 then []
    else
      var t := DecodeOne(data, line, startChar);
      [t] + Decode(data[5..], t.line, t.startChar)
  }

  function DecodeOne(data: seq<nat>, line: nat, startChar: nat): Token
    requires |data| >= 5
  {
    Token(line + data[0], if data[0] == 0 then startChar + data[1] else data[1], data[2], data[3], data[4])
  }

  function LastOf(tokens: seq<Token>, line: nat, startChar: nat): (nat, nat) {
    if tokens == [] then (line, startChar) else (tokens[|tokens| - 1].line, tokens[|tokens| - 1].startChar)
  }

  lemma {:induction false} DecodeAppend(data: seq<nat>, five: seq<nat>, line: nat, startChar: nat)
    requires |data| % 5 == 0 && |five| == 5
    ensures var before := Decode(data, line, startChar);
      var (l, c) := LastOf(before, line, startChar);
      Decode(data + five, line, startChar) == before + [DecodeOne(five, l, c)]
    decreases |data|
  {
    var all := data + five;
    if |data| < 5 {
      assert all == five && five[5..] == [];
    } else {
      assert all[5..] == data[5..] + five;
      var t := DecodeOne(data, line, startChar);
      assert DecodeOne(all, line, startChar) == t;
      var rest := Decode(data[5..], t.line, t.startChar);
      DecodeAppend(data[5..], five, t.line, t.startChar);
      assert LastOf([t] + rest, line, startChar) == LastOf(rest, t.line, t.startChar);
    }
  }

  /** Two different arrays never decode to the same tokens. */
  lemma {:induction false} DecodeInjective(a: seq<nat>, b: seq<nat>, line: nat, startChar: nat)
    requires |a| % 5 == 0 && |b| % 5 == 0
    requires Decode(a, line, startChar) == Decode(b, line, startChar)
    ensures a == b
    decreases |a|
  {
    if a != [] && b != [] {
      var x, y := Decode(a, line, startChar), Decode(b, line, startChar);
      assert x[0] == y[0] && x[1..] == y[1..];
      assert a[..5] == b[..5];
      DecodeInjective(a[5..], b[5..], x[0].line, x[0].startChar);
      assert a == a[..5] + a[5..] && b == b[..5] + b[5..];
    }
  }

  /** Whatever is decoded comes out in document order. */
  lemma {:induction false} DecodeSorted(data: seq<nat>, line: nat, startChar: nat)
    requires |data| % 5 == 0
    ensures Sorted(Decode(data, line, startChar))
    ensures forall t | t in Decode(data, line, startChar) :: !Before(t, Token(line, startChar, 0, 0, 0))
    decreases |data|
  {
    if data == [] {
    } else {
      var t := DecodeOne(data, line, startChar);
      DecodeSorted(data[5..], t.line, t.startChar);
      var rest := Decode(data[5..], t.line, t.startChar);
      assert forall k | 0 <= k < |rest| :: rest[k] in rest;
    }
  }

  /** One more token: the differences a sorted sequence calls for never wrap. */
  lemma DeltaStep(data: seq<nat>, tokens: seq<Token>, i: nat, five: seq<nat>)
    requires i < |tokens| && Sorted(tokens) && |data| == 5 * i && Decode(data, 0, 0) == tokens[..i]
    requires Fits(tokens[i]) && (i > 0 ==> Fits(tokens[i - 1]))
    requires var t, p := tokens[i], LastOf(tokens[..i], 0, 0);
      && p.0 < 0x1_0000_0000 && p.1 < 0x1_0000_0000
      && var deltaLine := if i == 0 then t.line else Sub32(t.line, p.0);
      && var deltaChar := if i == 0 || deltaLine != 0 then t.startChar else Sub32(t.startChar, p.1);
      && five == [deltaLine, deltaChar, t.length, t.tokenType, t.tokenModifiers]
    ensures Decode(data + five, 0, 0) == tokens[..i + 1]
    ensures LastOf(tokens[..i + 1], 0, 0) == (tokens[i].line, tokens[i].startChar)
  {
    var t, p := tokens[i], LastOf(tokens[..i], 0, 0);
    if i > 0 {
      assert p == (tokens[i - 1].line, tokens[i - 1].startChar) && !Before(t, tokens[i - 1]);
    }
    assert DecodeOne(five, p.0, p.1) == t;
    DecodeAppend(data, five, 0, 0);
    assert tokens[..i + 1] == tokens[..i] + [t];
  }

  // ---------------------------------------------------------------- the builder

  class SemanticTokensBuilder {
    var tokens: seq<Token>
    /** The tokens of non-zero length pushed since the last clear. */
    ghost var pushed: multiset<Token>

    ghost predicate Valid()
      reads this
    {
      multiset(tokens) == pushed && forall t | t in pushed :: Fits(t) && t.length != 0
    }

    constructor ()
      ensures Valid() && pushed == multiset{}
    {
      tokens, pushed := [], multiset{};
    }

    method Push(line: uint32, startChar: uint32, length: uint32, tokenType: uint32, tokenModifiers: uint32)
      requires Valid()
      modifies this
      ensures Valid()
      ensures pushed == old(pushed)
        + if length == 0 then multiset{} else multiset{Token(line, startChar, length, tokenType, tokenModifiers)}
    {
      if length == 0 {
        return;
      }
      tokens := tokens + [Token(line, startChar, length, tokenType, tokenModifiers)];
      pushed := pushed + multiset{Token(line, startChar, length, tokenType, tokenModifiers)};
    }

    method Clear()
      modifies this
      ensures Valid() && pushed == multiset{}
    {
      tokens, pushed := [], multiset{};
    }

    /** Stands for std::sort: callers may use only that the result is a sorted permutation. */
    method Sort()
      modifies this`tokens
      ensures Sorted(tokens) && multiset(tokens) == multiset(old(tokens))
    {
      var sorted: seq<Token>, i := [], 0;
      while i < |tokens|
        invariant 0 <= i <= |tokens| && Sorted(sorted) && tokens == old(tokens)
        invariant multiset(sorted) == multiset(tokens[..i])
      {
        assert tokens[..i + 1] == tokens[..i] + [tokens[i]];
        sorted := Insert(sorted, tokens[i]);
        i := i + 1;
      }
      assert tokens[..i] == tokens;
      tokens := sorted;
    }

    static method Insert(sorted: seq<Token>, t: Token) returns (r: seq<Token>)
      requires Sorted(sorted)
      ensures Sorted(r) && multiset(r) == multiset(sorted) + multiset{t}
    {
      var k := |sorted|;
      while k > 0 && Before(t, sorted[k - 1])
        invariant 0 <= k <= |sorted|
        invariant forall j | k <= j < |sorted| :: Before(t, sorted[j])
      {
        k := k - 1;
      }
      InsertedSorted(sorted, k, t);
      r := sorted[..k] + [t] + sorted[k..];
    }

    static lemma InsertedSorted(sorted: seq<Token>, k: nat, t: Token)
      requires Sorted(sorted) && k <= |sorted|
      requires k > 0 ==> !Before(t, sorted[k - 1])
      requires forall j | k <= j < |sorted| :: Before(t, sorted[j])
      ensures Sorted(sorted[..k] + [t] + sorted[k..])
      ensures multiset(sorted[..k] + [t] + sorted[k..]) == multiset(sorted) + multiset{t}
    {
      var r := sorted[..k] + [t] + sorted[k..];
      InsertedMultiset(sorted, k, t);
      forall j | 0 <= j < k ensures !Before(t, sorted[j]) {
        if j < k - 1 {
          assert !Before(sorted[k - 1], sorted[j]);
        }
      }
      forall i, j | 0 <= i < j < |r| ensures !Before(r[j], r[i]) {
        assert r[i] == if i < k then sorted[i] else if i == k then t else sorted[i - 1];
        assert r[j] == if j < k then sorted[j] else if j == k then t else sorted[j - 1];
      }
    }

    static lemma InsertedMultiset(s: seq<Token>, k: nat, t: Token)
      requires k <= |s|
      ensures multiset(s[..k] + [t] + s[k..]) == multiset(s) + multiset{t}
    {
      assert s == s[..k] + s[k..];
    }

    /** The data decodes to the pushed tokens, in document order. */
    method Build() returns (data: seq<uint32>)
      requires Valid()
      modifies this`tokens
      ensures Valid() && pushed == old(pushed)
      ensures |data| == 5 * |pushed|
      ensures Sorted(Decode(data, 0, 0))
      ensures multiset(Decode(data, 0, 0)) == pushed
    {
      Sort();
      forall k | 0 <= k < |tokens| ensures Fits(tokens[k]) {
        assert tokens[k] in multiset(tokens);
      }
      data := Emit(tokens);
    }

    /** The loop of build over the sorted tokens. */
    static method Emit(tokens: seq<Token>) returns (data: seq<uint32>)
      requires Sorted(tokens) && forall k | 0 <= k < |tokens| :: Fits(tokens[k])
      ensures |data| == 5 * |tokens| && Decode(data, 0, 0) == tokens
    {
      data := [];
      var prevLine: uint32, prevChar: uint32, first := 0, 0, true;
      var i := 0;
      while i < |tokens|
        invariant 0 <= i <= |tokens| && first == (i == 0)
        invariant |data| == 5 * i && Decode(data, 0, 0) == tokens[..i]
        invariant (prevLine, prevChar) == LastOf(tokens[..i], 0, 0)
      {
        var t := tokens[i];
        var deltaLine: uint32 := if first then t.line else Sub32(t.line, prevLine);
        var deltaChar: uint32 := if first || deltaLine != 0 then t.startChar else Sub32(t.startChar, prevChar);
        var five: seq<uint32> := [deltaLine, deltaChar, t.length, t.tokenType, t.tokenModifiers];
        DeltaStep(data, tokens, i, five);
        data := data + five;
        prevLine, prevChar, first := t.line, t.startChar, false;
        i := i + 1;
      }
      assert tokens[..i] == tokens;
    }
  }
}
