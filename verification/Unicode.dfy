/** Unicode scalar values and their encoded sizes.

    This module is the reference the byte scanner is measured against: section 3 of
    RFC 3629 gives the UTF-8 bytes of a scalar value and section 2.1 of RFC 2781 the
    number of UTF-16 code units. */
module Unicode {
  import opened Words

  type Scalar = c: int | 0 <= c <= 0x10FFFF && !(0xD800 <= c <= 0xDFFF)

  const LF: int := 10

  datatype PositionEncoding = UTF8 | UTF16 | UTF32

  function ByteCount(c: Scalar): (n: nat)
    ensures 1 <= n <= 4
  {
    if c < 0x80 then 1 else if c < 0x800 then 2 else if c < 0x10000 then 3 else 4
  }

  /** The UTF-8 bytes of one scalar value. */
  function EncodeScalar(c: Scalar): (r: seq<byte>)
    ensures |r| == ByteCount(c)
    ensures c < 0x80 ==> r == [c]
    ensures c >= 0x80 ==> forall k | 0 <= k < |r| :: r[k] >= 0x80
  {
    if c < 0x80 then [c]
    else if c < 0x800 then [0xC0 + c / 0x40, 0x80 + c % 0x40]
    else if c < 0x10000 then [0xE0 + c / 0x1000, 0x80 + c / 0x40 % 0x40, 0x80 + c % 0x40]
    else [0xF0 + c / 0x40000, 0x80 + c / 0x1000 % 0x40, 0x80 + c / 0x40 % 0x40, 0x80 + c % 0x40]
  }

  /** The UTF-8 bytes of a text. */
  function Encode(cs: seq<Scalar>): seq<byte> {
    if cs == [] then [] else EncodeScalar(cs[0]) + Encode(cs[1..])
  }

  ghost predicate WellFormed(text: seq<byte>) {
    exists cs: seq<Scalar> :: Encode(cs) == text
  }

  /** The number of code units one scalar value takes in each position encoding. */
  function Units(c: Scalar, enc: PositionEncoding): (n: nat)
    ensures n >= 1
  {
    match enc
    case UTF8 => ByteCount(c)
    case UTF16 => if c < 0x10000 then 1 else 2
    case UTF32 => 1
  }

  /** The code units of scalars start .. i of a text. */
  function UnitCount(doc: seq<Scalar>, start: nat, i: nat, enc: PositionEncoding): nat
    requires start <= i <= |doc|
  {
    if i == start then 0 else UnitCount(doc, start, i - 1, enc) + Units(doc[i - 1], enc)
  }

  /** The newlines among the first i scalars of a text. */
  function Newlines(doc: seq<Scalar>, i: nat): nat
    requires i <= |doc|
  {
    if i == 0 then 0 else Newlines(doc, i - 1) + if doc[i - 1] == LF then 1 else 0
  }

  lemma {:induction false} EncodeConcat(a: seq<Scalar>, b: seq<Scalar>)
    ensures Encode(a + b) == Encode(a) + Encode(b)
  {
    if a == [] {
      assert a + b == b;
    } else {
      assert (a + b)[0] == a[0] && (a + b)[1..] == a[1..] + b;
      EncodeConcat(a[1..], b);
    }
  }

  /** The byte offset at which scalar number i of a text starts. */
  ghost function ByteOffset(doc: seq<Scalar>, i: nat): nat
    requires i <= |doc|
  {
    |Encode(doc[..i])|
  }

  lemma EncodeOne(c: Scalar)
    ensures Encode([c]) == EncodeScalar(c)
  {
    assert [c][1..] == [];
  }

  lemma Middle(a: seq<byte>, b: seq<byte>, c: seq<byte>, ab: seq<byte>, all: seq<byte>)
    requires ab == a + b && all == ab + c
    ensures |ab| == |a| + |b| <= |all| && all[|a|..|ab|] == b
  {
  }

  lemma EncodeSnoc(doc: seq<Scalar>, i: nat)
    requires i < |doc|
    ensures Encode(doc[..i + 1]) == Encode(doc[..i]) + EncodeScalar(doc[i])
  {
    EncodeOne(doc[i]);
    EncodeConcat(doc[..i], [doc[i]]);
    assert doc[..i + 1] == doc[..i] + [doc[i]];
  }

  lemma EncodeSplit(doc: seq<Scalar>, i: nat)
    requires i <= |doc|
    ensures Encode(doc) == Encode(doc[..i]) + Encode(doc[i..])
  {
    Rejoin(doc, i);
    EncodeConcat(doc[..i], doc[i..]);
  }

  lemma TakeAll<T>(s: seq<T>)
    ensures s[..|s|] == s
  {
  }

  lemma Rejoin<T>(s: seq<T>, i: nat)
    requires i <= |s|
    ensures s[..i] + s[i..] == s
  {
  }

  /** Where the bytes of scalar i sit inside the encoded text. */
  lemma ScalarBytes(doc: seq<Scalar>, i: nat)
    requires i < |doc|
    ensures ByteOffset(doc, i + 1) == ByteOffset(doc, i) + |EncodeScalar(doc[i])| <= |Encode(doc)|
    ensures Encode(doc)[ByteOffset(doc, i)..ByteOffset(doc, i + 1)] == EncodeScalar(doc[i])
  {
    EncodeSnoc(doc, i);
    EncodeSplit(doc, i + 1);
    Middle(Encode(doc[..i]), EncodeScalar(doc[i]), Encode(doc[i + 1..]), Encode(doc[..i + 1]), Encode(doc));
  }

  lemma {:induction false} ByteOffsetMonotone(doc: seq<Scalar>, i: nat, j: nat)
    requires i <= j <= |doc|
    ensures ByteOffset(doc, i) <= ByteOffset(doc, j) <= |Encode(doc)|
    ensures i < j ==> ByteOffset(doc, i) < ByteOffset(doc, j)
    decreases j - i
  {
    if i < j {
      ScalarBytes(doc, j - 1);
      ByteOffsetMonotone(doc, i, j - 1);
    } else if j < |doc| {
      ScalarBytes(doc, j);
    } else {
      assert doc[..j] == doc;
    }
  }

  /** UTF-8 is uniquely decodable, so a well-formed text stands for one scalar sequence. */
  lemma {:induction false} EncodeInjective(a: seq<Scalar>, b: seq<Scalar>)
    requires Encode(a) == Encode(b)
    ensures a == b
  {
    if a == [] || b == [] {
    } else {
      var t := Encode(a);
      var n, m := |EncodeScalar(a[0])|, |EncodeScalar(b[0])|;
      assert t[..n] == EncodeScalar(a[0]) && t[..m] == EncodeScalar(b[0]);
      ScalarPrefixFree(a[0], b[0], t);
      assert Encode(a[1..]) == t[n..] == Encode(b[1..]);
      EncodeInjective(a[1..], b[1..]);
    }
  }

  /** No scalar's encoding is a prefix of another's. */
  lemma ScalarPrefixFree(a: Scalar, b: Scalar, t: seq<byte>)
    requires EncodeScalar(a) <= t && EncodeScalar(b) <= t
    ensures a == b
  {
    var x, y := EncodeScalar(a), EncodeScalar(b);
    assert x[0] == t[0] == y[0];
    assert |x| == |y|;
    assert x == t[..|x|] == y;
    DecodeScalarInverse(a);
    DecodeScalarInverse(b);
  }

  /** The scalar value spelled by the bytes EncodeScalar produces. */
  function DecodeScalar(x: seq<int>): int
    requires 1 <= |x| <= 4
  {
    if |x| == 1 then x[0]
    else if |x| == 2 then (x[0] - 0xC0) * 0x40 + (x[1] - 0x80)
    else if |x| == 3 then ((x[0] - 0xE0) * 0x40 + (x[1] - 0x80)) * 0x40 + (x[2] - 0x80)
    else (((x[0] - 0xF0) * 0x40 + (x[1] - 0x80)) * 0x40 + (x[2] - 0x80)) * 0x40 + (x[3] - 0x80)
  }

  lemma DecodeScalarInverse(c: Scalar)
    ensures DecodeScalar(EncodeScalar(c)) == c
  {
    var q := c / 0x40;
    assert q / 0x40 == c / 0x1000;
    assert q / 0x40 / 0x40 == c / 0x40000;
  }
}
