/**
 * The UTF-8 encoding (RFC 3629, section 3) in which Go holds the strings that
 * `encoding/json` decodes. It relates the byte length that Go's `len` reports
 * to the number of characters (Unicode scalar values) a string holds.
 */
module Utf8 {
  import opened GoTypes

  /** A Unicode scalar value: a code point that is not a surrogate. */
  type Scalar = c: int | 0 <= c < 0x11_0000 && !(0xD800 <= c < 0xE000)

  /** A byte of the form 10xxxxxx, which never starts a character. */
  predicate IsContinuation(b: byte) {
    0x80 <= b < 0xC0
  }

  /** Number of bytes RFC 3629 uses for the scalar `c`. */
  function EncodedWidth(c: Scalar): (n: nat)
    ensures 1 <= n <= 4
    ensures n == 1 <==> c < 0x80
  {
    if c < 0x80 then 1 else if c < 0x800 then 2 else if c < 0x1_0000 then 3 else 4
  }

  /** The UTF-8 bytes of one scalar value. */
  function EncodeScalar(c: Scalar): (r: GoString)
    ensures |r| == EncodedWidth(c)
    ensures !IsContinuation(r[0])
    ensures forall i :: 1 <= i < |r| ==> IsContinuation(r[i])
  {
    if c < 0x80 then
      [c as byte]
    else if c < 0x800 then
      [(0xC0 + c / 0x40) as byte, (0x80 + c % 0x40) as byte]
    else if c < 0x1_0000 then
      [(0xE0 + c / 0x1000) as byte, (0x80 + c / 0x40 % 0x40) as byte, (0x80 + c % 0x40) as byte]
    else
      [(0xF0 + c / 0x4_0000) as byte, (0x80 + c / 0x1000 % 0x40) as byte,
       (0x80 + c / 0x40 % 0x40) as byte, (0x80 + c % 0x40) as byte]
  }

  /** Reads back the scalar value from the bytes of one encoded character. */
  function DecodeScalar(r: GoString): int
    requires 1 <= |r| <= 4
  {
    if |r| == 1 then
      r[0] as int
    else if |r| == 2 then
      (r[0] as int - 0xC0) * 0x40 + (r[1] as int - 0x80)
    else if |r| == 3 then
      (r[0] as int - 0xE0) * 0x1000 + (r[1] as int - 0x80) * 0x40 + (r[2] as int - 0x80)
    else
      (r[0] as int - 0xF0) * 0x4_0000 + (r[1] as int - 0x80) * 0x1000
        + (r[2] as int - 0x80) * 0x40 + (r[3] as int - 0x80)
  }

  /** Encoding loses nothing: the bytes of a character determine it. */
  lemma DecodeEncodeScalar(c: Scalar)
    ensures DecodeScalar(EncodeScalar(c)) == c
  {
  }

  /** The UTF-8 bytes of a string of characters, in order. */
  function Encode(cs: seq<Scalar>): (r: GoString)
    ensures r == [] <==> cs == []
  {
    if cs == [] then [] else EncodeScalar(cs[0]) + Encode(cs[1..])
  }

  /** The number of characters in a byte string: the bytes that start one. */
  function ScalarCount(s: GoString): nat
  {
    if s == [] then 0
    else (if IsContinuation(s[0]) then 0 else 1) + ScalarCount(s[1..])
  }

  lemma {:induction false} ScalarCountAppend(a: GoString, b: GoString)
    ensures ScalarCount(a + b) == ScalarCount(a) + ScalarCount(b)
  {
    if a != [] {
      assert (a + b)[1..] == a[1..] + b;
      ScalarCountAppend(a[1..], b);
    } else {
      assert a + b == b;
    }
  }

  /** A run of continuation bytes starts no character. */
  lemma {:induction false} ScalarCountContinuations(s: GoString)
    requires forall i :: 0 <= i < |s| ==> IsContinuation(s[i])
    ensures ScalarCount(s) == 0
  {
    if s != [] {
      ScalarCountContinuations(s[1..]);
    }
  }

  /** Every encoded character contributes exactly one starting byte. */
  lemma ScalarCountEncodeScalar(c: Scalar)
    ensures ScalarCount(EncodeScalar(c)) == 1
  {
    var r := EncodeScalar(c);
    ScalarCountContinuations(r[1..]);
  }

  /** Counting the starting bytes of an encoded string recovers its length in characters. */
  lemma {:induction false} ScalarCountEncode(cs: seq<Scalar>)
    ensures ScalarCount(Encode(cs)) == |cs|
  {
    if cs != [] {
      ScalarCountAppend(EncodeScalar(cs[0]), Encode(cs[1..]));
      ScalarCountEncodeScalar(cs[0]);
      ScalarCountEncode(cs[1..]);
    }
  }

  /** Any byte string holds at most as many characters as it has bytes. */
  lemma {:induction false} ScalarCountAtMostLength(s: GoString)
    ensures ScalarCount(s) <= |s|
  {
    if s != [] {
      ScalarCountAtMostLength(s[1..]);
    }
  }

  /** A string of n characters takes between n and 4n bytes. */
  lemma {:induction false} EncodeLength(cs: seq<Scalar>)
    ensures |cs| <= |Encode(cs)| <= 4 * |cs|
  {
    if cs != [] {
      EncodeLength(cs[1..]);
    }
  }

  /** ASCII text takes one byte per character. */
  lemma {:induction false} AsciiEncodeLength(cs: seq<Scalar>)
    requires forall i :: 0 <= i < |cs| ==> cs[i] < 0x80
    ensures |Encode(cs)| == |cs|
  {
    if cs != [] {
      AsciiEncodeLength(cs[1..]);
    }
  }

  /** Text made of characters from U+0080 to U+07FF takes exactly two bytes per character. */
  lemma {:induction false} TwoByteEncodeLength(cs: seq<Scalar>)
    requires forall i :: 0 <= i < |cs| ==> 0x80 <= cs[i] < 0x800
    ensures |Encode(cs)| == 2 * |cs|
  {
    if cs != [] {
      TwoByteEncodeLength(cs[1..]);
    }
  }

  /** Text with no ASCII character takes at least two bytes per character. */
  lemma {:induction false} NonAsciiEncodeLength(cs: seq<Scalar>)
    requires forall i :: 0 <= i < |cs| ==> cs[i] >= 0x80
    ensures |Encode(cs)| >= 2 * |cs|
  {
    if cs != [] {
      NonAsciiEncodeLength(cs[1..]);
    }
  }
}
