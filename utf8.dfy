/**
 * UTF-8 as in RFC 3629, decoded the way Go's `utf8.DecodeRune` does it: the
 * decoder accepts exactly the shortest encodings of Unicode scalar values and
 * answers (U+FFFD, 1) for every byte that does not start one.
 */
module Utf8 {

  newtype byte = x: int | 0 <= x < 256

  const RuneError: int := 0xFFFD
  const ByteOrderMark: int := 0xFEFF

  /** A Unicode scalar value: a code point that is not a surrogate. */
  predicate IsScalar(r: int)
  {
    0 <= r <= 0x10FFFF && !(0xD800 <= r <= 0xDFFF)
  }

  predicate IsContinuation(b: byte)
  {
    0x80 <= b <= 0xBF
  }

  datatype Decoded = Decoded(rune: int, width: nat)

  /** The decoding error `utf8.DecodeRune` reports: U+FFFD consuming one byte. */
  predicate IsError(d: Decoded)
  {
    d.rune == RuneError && d.width == 1
  }

  function DecodeRune(s: seq<byte>): (d: Decoded)
    requires |s| > 0
    ensures 1 <= d.width <= 4 && d.width <= |s|
    ensures IsScalar(d.rune)
    ensures s[0] < 0x80 ==> d == Decoded(s[0] as int, 1)
  {
    var b0 := s[0];
    if b0 < 0x80 then Decoded(b0 as int, 1)
    else if b0 < 0xC2 || b0 > 0xF4 then Decoded(RuneError, 1)
    else
      var size := if b0 < 0xE0 then 2 else if b0 < 0xF0 then 3 else 4;
      if |s| < size then Decoded(RuneError, 1)
      else
        var lo: byte := if b0 == 0xE0 then 0xA0 else if b0 == 0xF0 then 0x90 else 0x80;
        var hi: byte := if b0 == 0xED then 0x9F else if b0 == 0xF4 then 0x8F else 0xBF;
        if s[1] < lo || hi < s[1] then Decoded(RuneError, 1)
        else if size == 2 then
          Decoded((b0 as int - 0xC0) * 64 + (s[1] as int - 0x80), 2)
        else if !IsContinuation(s[2]) then Decoded(RuneError, 1)
        else if size == 3 then
          Decoded((b0 as int - 0xE0) * 4096 + (s[1] as int - 0x80) * 64 + (s[2] as int - 0x80), 3)
        else if !IsContinuation(s[3]) then Decoded(RuneError, 1)
        else
          Decoded((b0 as int - 0xF0) * 262144 + (s[1] as int - 0x80) * 4096
                  + (s[2] as int - 0x80) * 64 + (s[3] as int - 0x80), 4)
  }

  /** The shortest UTF-8 encoding of a scalar value (what `WriteRune` writes). */
  function EncodeRune(r: int): (s: seq<byte>)
    requires IsScalar(r)
    ensures 1 <= |s| <= 4
  {
    if r < 0x80 then [r as byte]
    else if r < 0x800 then [(0xC0 + r / 64) as byte, (0x80 + r % 64) as byte]
    else if r < 0x10000 then
      [(0xE0 + r / 4096) as byte, (0x80 + r / 64 % 64) as byte, (0x80 + r % 64) as byte]
    else
      [(0xF0 + r / 262144) as byte, (0x80 + r / 4096 % 64) as byte,
       (0x80 + r / 64 % 64) as byte, (0x80 + r % 64) as byte]
  }

  /** Decoding the encoding of a scalar value gives it back, with the encoding's width. */
  lemma DecodeEncode(r: int, rest: seq<byte>)
    requires IsScalar(r)
    ensures DecodeRune(EncodeRune(r) + rest) == Decoded(r, |EncodeRune(r)|)
  {
    if r < 0x80 {
    } else if r < 0x800 {
      DecodeEncode2(r, rest);
    } else if r < 0x10000 {
      DecodeEncode3(r, rest);
    } else {
      DecodeEncode4(r, rest);
    }
  }

  lemma DecodeEncode2(r: int, rest: seq<byte>)
    requires 0x80 <= r < 0x800
    ensures DecodeRune(EncodeRune(r) + rest) == Decoded(r, 2)
  {
    var e := EncodeRune(r);
    var s := e + rest;
    assert s[0] == e[0] && s[1] == e[1];
    assert r == 64 * (r / 64) + r % 64;
  }

  lemma DecodeEncode3(r: int, rest: seq<byte>)
    requires 0x800 <= r < 0x10000 && IsScalar(r)
    ensures DecodeRune(EncodeRune(r) + rest) == Decoded(r, 3)
  {
    var e := EncodeRune(r);
    var s := e + rest;
    assert s[0] == e[0] && s[1] == e[1] && s[2] == e[2];
    var q := r / 64;
    assert r == 64 * q + r % 64;
    assert q == 64 * (r / 4096) + q % 64;
  }

  lemma DecodeEncode4(r: int, rest: seq<byte>)
    requires 0x10000 <= r <= 0x10FFFF
    ensures DecodeRune(EncodeRune(r) + rest) == Decoded(r, 4)
  {
    var q := r / 64;
    var q2 := r / 4096;
    assert r == 64 * q + r % 64;
    assert q == 64 * q2 + q % 64;
    assert q2 == 64 * (r / 262144) + q2 % 64;
    assert r / 64 % 64 == q % 64 && r / 4096 % 64 == q2 % 64;
    DecodeFour(r / 262144, q2 % 64, q % 64, r % 64, rest);
  }

  /** A four-byte sequence built from its base-64 digits decodes to their value. */
  lemma DecodeFour(a: int, b: int, c: int, d: int, rest: seq<byte>)
    requires 0 <= a <= 4 && 0 <= b < 64 && 0 <= c < 64 && 0 <= d < 64
    requires a == 0 ==> b >= 16
    requires a == 4 ==> b < 16
    ensures DecodeRune([(0xF0 + a) as byte, (0x80 + b) as byte, (0x80 + c) as byte, (0x80 + d) as byte] + rest)
         == Decoded(a * 262144 + b * 4096 + c * 64 + d, 4)
  {
    var s := [(0xF0 + a) as byte, (0x80 + b) as byte, (0x80 + c) as byte, (0x80 + d) as byte] + rest;
    assert s[0] == (0xF0 + a) as byte && s[1] == (0x80 + b) as byte;
    assert s[2] == (0x80 + c) as byte && s[3] == (0x80 + d) as byte;
  }

  /** Division by the radix 64 of continuation bytes, stated once for the proofs below. */
  lemma DivMod64(x: int, q: int, m: int)
    requires x == 64 * q + m && 0 <= m < 64
    ensures x / 64 == q && x % 64 == m
  {
  }

  lemma DivMod4096(x: int, q: int, m: int)
    requires x == 4096 * q + m && 0 <= m < 4096
    ensures x / 4096 == q
  {
  }

  lemma DivMod262144(x: int, q: int, m: int)
    requires x == 262144 * q + m && 0 <= m < 262144
    ensures x / 262144 == q
  {
  }

  /** Whatever the decoder accepts is the shortest encoding of the rune it returns. */
  lemma EncodeDecode(s: seq<byte>)
    requires |s| > 0 && !IsError(DecodeRune(s))
    ensures EncodeRune(DecodeRune(s).rune) == s[..DecodeRune(s).width]
  {
    var d := DecodeRune(s);
    if s[0] < 0x80 {
    } else if d.width == 2 {
      EncodeDecode2(s);
    } else if d.width == 3 {
      EncodeDecode3(s);
    } else {
      EncodeDecode4(s);
    }
  }

  lemma EncodeDecode2(s: seq<byte>)
    requires |s| > 0 && s[0] >= 0x80 && !IsError(DecodeRune(s)) && DecodeRune(s).width == 2
    ensures EncodeRune(DecodeRune(s).rune) == s[..2]
  {
    var a, b := s[0] as int - 0xC0, s[1] as int - 0x80;
    DivMod64(DecodeRune(s).rune, a, b);
  }

  lemma EncodeDecode3(s: seq<byte>)
    requires |s| > 0 && s[0] >= 0x80 && !IsError(DecodeRune(s)) && DecodeRune(s).width == 3
    ensures EncodeRune(DecodeRune(s).rune) == s[..3]
  {
    var r := DecodeRune(s).rune;
    var a, b, c := s[0] as int - 0xE0, s[1] as int - 0x80, s[2] as int - 0x80;
    DivMod64(r, a * 64 + b, c);
    DivMod64(a * 64 + b, a, b);
    DivMod4096(r, a, b * 64 + c);
  }

  lemma EncodeDecode4(s: seq<byte>)
    requires |s| > 0 && s[0] >= 0x80 && !IsError(DecodeRune(s)) && DecodeRune(s).width == 4
    ensures EncodeRune(DecodeRune(s).rune) == s[..4]
  {
    var r := DecodeRune(s).rune;
    var a, b, c, e := s[0] as int - 0xF0, s[1] as int - 0x80, s[2] as int - 0x80, s[3] as int - 0x80;
    DivMod64(r, (a * 64 + b) * 64 + c, e);
    DivMod64((a * 64 + b) * 64 + c, a * 64 + b, c);
    DivMod4096(r, a * 64 + b, c * 64 + e);
    DivMod64(a * 64 + b, a, b);
    DivMod262144(r, a, (b * 64 + c) * 64 + e);
  }

  /** `s` begins with the encoding of some scalar value. */
  ghost predicate StartsWithEncoding(s: seq<byte>)
  {
    exists r :: IsScalar(r) && EncodeRune(r) <= s
  }

  /**
   * The decoder reports an error (and then consumes exactly one byte) exactly
   * when no valid UTF-8 sequence starts at the front of the input.
   */
  lemma ErrorIffInvalid(s: seq<byte>)
    requires |s| > 0
    ensures IsError(DecodeRune(s)) <==> !StartsWithEncoding(s)
  {
    var d := DecodeRune(s);
    if !IsError(d) {
      EncodeDecode(s);
      assert IsScalar(d.rune) && EncodeRune(d.rune) <= s;
    } else if StartsWithEncoding(s) {
      var r :| IsScalar(r) && EncodeRune(r) <= s;
      var e := EncodeRune(r);
      assert s == e + s[|e|..];
      DecodeEncode(r, s[|e|..]);
      assert false;
    }
  }

  /** The byte-order mark is the three bytes EF BB BF. */
  lemma DecodeByteOrderMark(rest: seq<byte>)
    ensures DecodeRune([0xEF, 0xBB, 0xBF] + rest) == Decoded(ByteOrderMark, 3)
  {
    var s: seq<byte> := [0xEF, 0xBB, 0xBF] + rest;
    assert s[0] == 0xEF && s[1] == 0xBB && s[2] == 0xBF;
  }
}
