/** Percent-coding (RFC 3986 sections 2.1 and 3.3) and file URIs, over bytes. */
module Uri {
  import opened Words

  type Bytes = seq<byte>

  const PERCENT: byte := 0x25
  const SLASH: byte := 0x2F
  const COLON: byte := 0x3A
  /** "file://" */
  const FILE_SCHEME: Bytes := [0x66, 0x69, 0x6C, 0x65, COLON, SLASH, SLASH]

  predicate IsAlpha(c: byte) {
    0x41 <= c <= 0x5A || 0x61 <= c <= 0x7A
  }

  predicate IsDigit(c: byte) {
    0x30 <= c <= 0x39
  }

  /** ALPHA, DIGIT, "-", ".", "_" and "~". */
  predicate IsUnreserved(c: byte) {
    IsAlpha(c) || IsDigit(c) || c == 0x2D || c == 0x2E || c == 0x5F || c == 0x7E
  }

  /** The characters of a path: pchar without its percent triples, and the slash. */
  predicate IsPathPassThrough(c: byte) {
    IsUnreserved(c) || c == SLASH || c == COLON || c == 0x40
    || c == 0x21 || c == 0x24 || c == 0x26 || c == 0x27 || c == 0x28 || c == 0x29 || c == 0x2A
    || c == 0x2B || c == 0x2C || c == 0x3B || c == 0x3D
  }

  function HexValue(c: byte): int {
    if 0x30 <= c <= 0x39 then c - 0x30
    else if 0x61 <= c <= 0x66 then 10 + (c - 0x61)
    else if 0x41 <= c <= 0x46 then 10 + (c - 0x41)
    else -1
  }

  /** The digits "0123456789ABCDEF". */
  function HexDigit(v: nat): byte
    requires v < 16
  {
    if v < 10 then 0x30 + v else 0x41 + (v - 10)
  }

  // ---------------------------------------------------------------- specification

  function EncodeByte(c: byte): Bytes {
    if IsPathPassThrough(c) then [c] else [PERCENT, HexDigit(c / 16), HexDigit(c % 16)]
  }

  function Encoded(s: Bytes): Bytes {
    if s == [] then [] else EncodeByte(s[0]) + Encoded(s[1..])
  }

  predicate TripleAt(s: Bytes, i: nat) {
    i + 2 < |s| && s[i] == PERCENT && HexValue(s[i + 1]) >= 0 && HexValue(s[i + 2]) >= 0
  }

  function Decoded(s: Bytes): Bytes {
    if s == [] then []
    else if TripleAt(s, 0) then [HexValue(s[1]) * 16 + HexValue(s[2])] + Decoded(s[3..])
    else [s[0]] + Decoded(s[1..])
  }

  /** What an encoder may write: path characters, and upper-case triples for the others. */
  predicate Canonical(e: Bytes)
    decreases |e|
  {
    e == []
    || (IsPathPassThrough(e[0]) && Canonical(e[1..]))
    || (TripleAt(e, 0) && var v := HexValue(e[1]) * 16 + HexValue(e[2]);
        e[..3] == [PERCENT, HexDigit(v / 16), HexDigit(v % 16)] && !IsPathPassThrough(v) && Canonical(e[3..]))
  }

  function FromPathSpec(path: Bytes): Bytes {
    FILE_SCHEME + (if path != [] && path[0] != SLASH then [SLASH] else []) + Encoded(path)
  }

  /** A slash, a drive letter and a colon. */
  predicate SlashDrive(s: Bytes) {
    |s| >= 3 && s[0] == SLASH && IsAlpha(s[1]) && s[2] == COLON
  }

  predicate Drive(s: Bytes) {
    |s| >= 2 && IsAlpha(s[0]) && s[1] == COLON
  }

  function ToPathSpec(uri: Bytes): Bytes {
    if !(FILE_SCHEME <= uri) then []
    else
      var rest := uri[|FILE_SCHEME|..];
      Decoded(if SlashDrive(rest) then rest[1..] else rest)
  }

  // ---------------------------------------------------------------- the loops

  lemma EncodedStep(s: Bytes, i: nat, out: Bytes)
    requires i < |s|
    ensures out + Encoded(s[i..]) == (out + EncodeByte(s[i])) + Encoded(s[i + 1..])
  {
    assert s[i..][1..] == s[i + 1..];
  }

  lemma DecodedStep(s: Bytes, i: nat, out: Bytes)
    requires i < |s|
    ensures TripleAt(s, i) ==>
      out + Decoded(s[i..]) == (out + [HexValue(s[i + 1]) * 16 + HexValue(s[i + 2])]) + Decoded(s[i + 3..])
    ensures !TripleAt(s, i) ==> out + Decoded(s[i..]) == (out + [s[i]]) + Decoded(s[i + 1..])
  {
    var rest := s[i..];
    assert TripleAt(rest, 0) <==> TripleAt(s, i);
    assert rest[1..] == s[i + 1..];
    if TripleAt(s, i) {
      assert rest[3..] == s[i + 3..];
    }
  }

  method PercentEncode(s: Bytes) returns (out: Bytes)
    ensures out == Encoded(s)
  {
    out := [];
    var i := 0;
    while i < |s|
      invariant 0 <= i <= |s| && Encoded(s) == out + Encoded(s[i..])
    {
      var c := s[i];
      EncodedStep(s, i, out);
      if IsPathPassThrough(c) {
        out := out + [c];
      } else {
        out := out + [PERCENT, HexDigit(c / 16), HexDigit(c % 16)];
      }
      i := i + 1;
    }
  }

  method PercentDecode(s: Bytes) returns (out: Bytes)
    ensures out == Decoded(s)
  {
    out := [];
    var i := 0;
    while i < |s|
      invariant 0 <= i <= |s| && Decoded(s) == out + Decoded(s[i..])
    {
      DecodedStep(s, i, out);
      if s[i] == PERCENT && i + 2 < |s| {
        var hi, lo := HexValue(s[i + 1]), HexValue(s[i + 2]);
        if hi >= 0 && lo >= 0 {
          out := out + [hi * 16 + lo];
          i := i + 3;
          continue;
        }
      }
      out := out + [s[i]];
      i := i + 1;
    }
  }

  method FromPath(path: Bytes) returns (uri: Bytes)
    ensures uri == FromPathSpec(path)
  {
    uri := FILE_SCHEME;
    if path != [] && path[0] != SLASH {
      uri := uri + [SLASH];
    }
    var encoded := PercentEncode(path);
    uri := uri + encoded;
  }

  method ToPath(uri: Bytes) returns (path: Bytes)
    ensures path == ToPathSpec(uri)
  {
    if !(FILE_SCHEME <= uri) {
      return [];
    }
    var rest := uri[|FILE_SCHEME|..];
    if |rest| >= 3 && rest[0] == SLASH && IsAlpha(rest[1]) && rest[2] == COLON {
      rest := rest[1..];
    }
    path := PercentDecode(rest);
  }

  // ---------------------------------------------------------------- percent-coding

  lemma HexRoundTrip(v: nat)
    requires v < 16
    ensures HexValue(HexDigit(v)) == v
  {
  }

  /** Decoding one encoded byte in front of anything. */
  lemma DecodeEncodedByte(c: byte, rest: Bytes)
    ensures Decoded(EncodeByte(c) + rest) == [c] + Decoded(rest)
  {
    var s := EncodeByte(c) + rest;
    if IsPathPassThrough(c) {
      assert s[0] == c && s[1..] == rest;
    } else {
      HexRoundTrip(c / 16);
      HexRoundTrip(c % 16);
      assert s[1] == HexDigit(c / 16) && s[2] == HexDigit(c % 16) && s[3..] == rest;
      assert TripleAt(s, 0);
    }
  }

  lemma {:induction false} DecodeEncode(s: Bytes)
    ensures Decoded(Encoded(s)) == s
  {
    if s == [] {
    } else {
      DecodeEncode(s[1..]);
      DecodeEncodedByte(s[0], Encoded(s[1..]));
    }
  }

  lemma EncodeInjective(a: Bytes, b: Bytes)
    requires Encoded(a) == Encoded(b)
    ensures a == b
  {
    DecodeEncode(a);
    DecodeEncode(b);
  }

  lemma {:induction false} EncodedIsCanonical(s: Bytes)
    ensures Canonical(Encoded(s))
  {
    if s == [] {
    } else {
      var c, e := s[0], Encoded(s);
      EncodedIsCanonical(s[1..]);
      if IsPathPassThrough(c) {
        assert e[1..] == Encoded(s[1..]);
      } else {
        HexRoundTrip(c / 16);
        HexRoundTrip(c % 16);
        assert e[..3] == EncodeByte(c) && e[3..] == Encoded(s[1..]);
        assert e[1] == HexDigit(c / 16) && e[2] == HexDigit(c % 16);
      }
    }
  }

  lemma EncodedCons(c: byte, t: Bytes)
    ensures Encoded([c] + t) == EncodeByte(c) + Encoded(t)
  {
    assert ([c] + t)[1..] == t;
  }

  /** A canonical triple is what the encoder writes for the byte it stands for. */
  lemma CanonicalTriple(e: Bytes) returns (v: byte)
    requires Canonical(e) && e != [] && !IsPathPassThrough(e[0])
    ensures |e| >= 3 && Canonical(e[3..]) && Decoded(e) == [v] + Decoded(e[3..]) && EncodeByte(v) == e[..3]
  {
    v := HexValue(e[1]) * 16 + HexValue(e[2]);
  }

  lemma {:induction false} EncodeDecodeCanonical(e: Bytes)
    requires Canonical(e)
    ensures Encoded(Decoded(e)) == e
    decreases |e|
  {
    if e == [] {
    } else if IsPathPassThrough(e[0]) {
      EncodeDecodeCanonical(e[1..]);
      EncodedCons(e[0], Decoded(e[1..]));
    } else {
      var v := CanonicalTriple(e);
      EncodeDecodeCanonical(e[3..]);
      EncodedCons(v, Decoded(e[3..]));
      assert e == e[..3] + e[3..];
    }
  }

  /** The encoder's range: exactly the canonical strings, and there it inverts the decoder. */
  lemma {:induction false} EncoderRange(e: Bytes)
    ensures Canonical(e) <==> Encoded(Decoded(e)) == e
  {
    if Canonical(e) {
      EncodeDecodeCanonical(e);
    } else {
      EncodedIsCanonical(Decoded(e));
    }
  }

  lemma {:induction false} DecodedShorter(s: Bytes)
    ensures |Decoded(s)| <= |s|
  {
    if s == [] {
    } else {
      if TripleAt(s, 0) {
        DecodedShorter(s[3..]);
      } else {
        DecodedShorter(s[1..]);
      }
    }
  }

  // ---------------------------------------------------------------- the character tables

  const UPPER_HEX: string := "0123456789ABCDEF"
  const LOWER_HEX: string := "0123456789abcdef"

  /** The bytes that stand for themselves: RFC 3986 unreserved, sub-delims, ":" and "@", and "/". */
  lemma PassThroughTable(c: byte)
    ensures IsPathPassThrough(c)
       <==> var ch := c as char;
            'A' <= ch <= 'Z' || 'a' <= ch <= 'z' || '0' <= ch <= '9'
            || ch in "-._~" || ch in "!$&'()*+,;=" || ch in "/:@"
  {
  }

  /** Any other byte is written as a percent sign and two upper-case digits. */
  lemma EscapeTable(c: byte, s: Bytes)
    requires !IsPathPassThrough(c)
    ensures Encoded([c] + s)
         == ['%' as byte, UPPER_HEX[c / 16] as byte, UPPER_HEX[c % 16] as byte] + Encoded(s)
  {
    EncodedCons(c, s);
  }

  predicate IsHexDigit(c: byte) {
    c as char in UPPER_HEX || c as char in LOWER_HEX
  }

  lemma HexTable(c: byte, v: nat)
    requires v < 16
    ensures HexValue(c) == v <==> c == UPPER_HEX[v] as byte || c == LOWER_HEX[v] as byte
  {
  }

  lemma HexDigits(c: byte)
    ensures HexValue(c) >= 0 <==> IsHexDigit(c)
  {
  }

  /** Digits of either case are read. */
  lemma DecodeTriple(hi: nat, lo: nat, c: byte, d: byte, rest: Bytes)
    requires hi < 16 && (c == UPPER_HEX[hi] as byte || c == LOWER_HEX[hi] as byte)
    requires lo < 16 && (d == UPPER_HEX[lo] as byte || d == LOWER_HEX[lo] as byte)
    ensures Decoded(['%' as byte, c, d] + rest) == [hi * 16 + lo] + Decoded(rest)
  {
    HexTable(c, hi);
    HexTable(d, lo);
    TripleDecoded(c, d, rest);
  }

  lemma TripleDecoded(c: byte, d: byte, rest: Bytes)
    requires HexValue(c) >= 0 && HexValue(d) >= 0
    ensures Decoded([PERCENT, c, d] + rest) == [HexValue(c) * 16 + HexValue(d)] + Decoded(rest)
  {
    var s := [PERCENT, c, d] + rest;
    assert s[1] == c && s[2] == d && s[3..] == rest;
  }

  /** A percent sign that two digits do not follow is kept, like any other byte. */
  lemma DecodeOther(c: byte, rest: Bytes)
    requires !(c == '%' as byte && |rest| >= 2 && IsHexDigit(rest[0]) && IsHexDigit(rest[1]))
    ensures Decoded([c] + rest) == [c] + Decoded(rest)
  {
    var s := [c] + rest;
    assert s[1..] == rest;
    if |rest| >= 2 {
      HexDigits(rest[0]);
      HexDigits(rest[1]);
    }
  }

  // ---------------------------------------------------------------- file URIs

  /** A URI of another scheme has no path; one of this scheme has what follows the scheme,
      decoded, without the slash in front of a drive. */
  lemma PathOfUri(uri: Bytes)
    ensures (exists i | 0 <= i < 7 :: i >= |uri| || uri[i] != "file://"[i] as byte) ==> ToPathSpec(uri) == []
    ensures |uri| >= 7 && (forall i | 0 <= i < 7 :: uri[i] == "file://"[i] as byte) ==>
      ToPathSpec(uri) == if SlashDrive(uri[7..]) then Decoded(uri[8..]) else Decoded(uri[7..])
  {
    assert forall i | 0 <= i < 7 :: FILE_SCHEME[i] == "file://"[i] as byte;
    if |uri| >= 7 && forall i | 0 <= i < 7 :: uri[i] == "file://"[i] as byte {
      assert uri[..7] == FILE_SCHEME;
      if SlashDrive(uri[7..]) {
        assert uri[7..][1..] == uri[8..];
      }
    }
  }

  /** The first characters of an encoded path are those of the path where they pass through. */
  lemma EncodedHead(p: Bytes)
    ensures p != [] && IsPathPassThrough(p[0]) ==> Encoded(p) == [p[0]] + Encoded(p[1..])
    ensures p != [] && !IsPathPassThrough(p[0]) ==> Encoded(p) != [] && Encoded(p)[0] == PERCENT
  {
  }

  lemma DriveSurvives(p: Bytes)
    ensures Drive(Encoded(p)) <==> Drive(p)
    ensures SlashDrive(Encoded(p)) <==> SlashDrive(p)
  {
    EncodedHead(p);
    if p != [] {
      EncodedHead(p[1..]);
      if |p| > 1 {
        EncodedHead(p[2..]);
      }
    }
  }

  /** Where a path goes when it is turned into a URI and back. */
  function ThereAndBack(p: Bytes): Bytes {
    if p == [] || Drive(p) then p
    else if SlashDrive(p) then p[1..]
    else if p[0] == SLASH then p
    else [SLASH] + p
  }

  lemma ToFromPath(p: Bytes)
    ensures ToPathSpec(FromPathSpec(p)) == ThereAndBack(p)
  {
    var uri, e := FromPathSpec(p), Encoded(p);
    DecodeEncode(p);
    DriveSurvives(p);
    EncodedHead(p);
    if p == [] || p[0] == SLASH {
      assert uri[|FILE_SCHEME|..] == e;
      if SlashDrive(p) {
        assert e[1..] == Encoded(p[1..]);
        DecodeEncode(p[1..]);
      }
    } else {
      var rest := [SLASH] + e;
      assert uri[|FILE_SCHEME|..] == rest && rest[1..] == e;
      assert SlashDrive(rest) <==> Drive(e);
      assert !TripleAt(rest, 0);
    }
  }

  /** A path comes back from its URI exactly when it is empty, starts with a drive, or starts
      with a slash that no drive follows. */
  lemma PathRoundTrip(p: Bytes)
    ensures ToPathSpec(FromPathSpec(p)) == p <==> p == [] || Drive(p) || (p[0] == SLASH && !SlashDrive(p))
  {
    ToFromPath(p);
    if p != [] && !Drive(p) && p[0] != SLASH {
      assert ([SLASH] + p)[0] != p[0];
    }
  }

  /** Every path has one URI: going there and back again changes nothing more. */
  lemma UriIsCanonical(p: Bytes)
    ensures FromPathSpec(ToPathSpec(FromPathSpec(p))) == FromPathSpec(p)
  {
    ToFromPath(p);
    if p != [] && SlashDrive(p) {
      assert p == [SLASH] + p[1..];
      SameUriWithSlash(p[1..]);
    } else if p != [] && p[0] != SLASH && !Drive(p) {
      SameUriWithSlash(p);
    }
  }

  lemma SameUriWithSlash(p: Bytes)
    requires p != [] && p[0] != SLASH
    ensures FromPathSpec([SLASH] + p) == FromPathSpec(p)
  {
    var q, e := [SLASH] + p, Encoded(p);
    assert q[1..] == p;
    EncodedHead(q);
    assert FILE_SCHEME + [SLASH] + e == FILE_SCHEME + [] + ([SLASH] + e);
  }
}
