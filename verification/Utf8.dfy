/**
 UTF-8 as section 4 of RFC 3629 defines it.  A Dafny `char` is a Unicode scalar
 value, so a Dafny `string` is the text of a Rust `String` and `Encode` gives the
 bytes the Rust value stores.
 */
module Utf8 {
  import opened Wrappers

  function EncodeChar(c: char): seq<byte> {
    var v := c as int;
    if v < 0x80 then
      [v]
    else if v < 0x800 then
      [0xC0 + v / 64, 0x80 + v % 64]
    else if v < 0x1_0000 then
      [0xE0 + v / 4096, 0x80 + v / 64 % 64, 0x80 + v % 64]
    else
      [0xF0 + v / 262144, 0x80 + v / 4096 % 64, 0x80 + v / 64 % 64, 0x80 + v % 64]
  }

  function Encode(s: string): seq<byte> {
    if s == [] then [] else EncodeChar(s[0]) + Encode(s[1..])
  }

  /** Rust's `str::len`. */
  function Length(s: string): nat {
    |Encode(s)|
  }

  predicate Tail(b: byte) {
    0x80 <= b <= 0xBF
  }

  /** The length of the UTF8-char of the RFC's grammar that `bs` starts with, 0 when there is none. */
  function CharLength(bs: seq<byte>): (n: nat)
    ensures n <= |bs| && n <= 4
  {
    if |bs| >= 1 && bs[0] <= 0x7F then
      1
    else if |bs| >= 2 && 0xC2 <= bs[0] <= 0xDF && Tail(bs[1]) then
      2
    else if |bs| >= 3 && Tail(bs[1]) && Tail(bs[2]) && (
        || (bs[0] == 0xE0 && 0xA0 <= bs[1])
        || 0xE1 <= bs[0] <= 0xEC
        || (bs[0] == 0xED && bs[1] <= 0x9F)
        || 0xEE <= bs[0] <= 0xEF)
    then
      3
    else if |bs| >= 4 && Tail(bs[1]) && Tail(bs[2]) && Tail(bs[3]) && (
        || (bs[0] == 0xF0 && 0x90 <= bs[1])
        || 0xF1 <= bs[0] <= 0xF3
        || (bs[0] == 0xF4 && bs[1] <= 0x8F))
    then
      4
    else
      0
  }

  /** The code point of a UTF8-char of the grammar. */
  function CharValue(bs: seq<byte>): char
    requires |bs| > 0 && CharLength(bs) == |bs|
  {
    var v: int :=
      if |bs| == 1 then bs[0]
      else if |bs| == 2 then (bs[0] as int - 0xC0) * 64 + (bs[1] as int - 0x80)
      else if |bs| == 3 then (bs[0] as int - 0xE0) * 4096 + (bs[1] as int - 0x80) * 64 + (bs[2] as int - 0x80)
      else (bs[0] as int - 0xF0) * 262144 + (bs[1] as int - 0x80) * 4096 + (bs[2] as int - 0x80) * 64 + (bs[3] as int - 0x80);
    v as char
  }

  lemma CharLengthOfPrefix(bs: seq<byte>)
    ensures CharLength(bs[..CharLength(bs)]) == CharLength(bs)
  {
  }

  /** `std::str::from_utf8`: the text, or nothing when the bytes are not valid UTF-8. */
  function Decode(bs: seq<byte>): Option<string>
  {
    var n := CharLength(bs);
    if bs == [] then
      Some([])
    else if n == 0 then
      None
    else
      CharLengthOfPrefix(bs);
      match Decode(bs[n..])
      case None => None
      case Some(rest) => Some([CharValue(bs[..n])] + rest)
  }

  /** The base-64 digits of a code point. */
  lemma Digits(v: nat)
    ensures v == v / 64 * 64 + v % 64
    ensures v / 64 == v / 4096 * 64 + v / 64 % 64
    ensures v / 4096 == v / 262144 * 64 + v / 4096 % 64
  {
  }

  lemma EncodedChar(c: char, rest: seq<byte>)
    ensures CharLength(EncodeChar(c) + rest) == |EncodeChar(c)|
    ensures CharLength(EncodeChar(c)) == |EncodeChar(c)| > 0
    ensures CharValue(EncodeChar(c)) == c
  {
    var v: int := c as int;
    Digits(v);
    assert v < 0xD800 || 0xE000 <= v < 0x11_0000;
    var bs := EncodeChar(c);
    assert forall i :: 0 <= i < |bs| ==> (bs + rest)[i] == bs[i];
    if v < 0x80 {
      assert CharLength(bs) == 1;
    } else if v < 0x800 {
      assert CharLength(bs) == 2;
    } else if v < 0x1_0000 {
      assert CharLength(bs) == 3;
    } else {
      assert CharLength(bs) == 4;
    }
  }

  lemma DecodedShortChar(bs: seq<byte>)
    requires 0 < |bs| <= 2 && CharLength(bs) == |bs|
    ensures EncodeChar(CharValue(bs)) == bs
  {
    var v := CharValue(bs) as int;
    if |bs| == 2 {
      assert v / 64 == bs[0] - 0xC0;
    }
  }

  lemma DecodedThreeBytes(bs: seq<byte>)
    requires |bs| == 3 && CharLength(bs) == 3
    ensures EncodeChar(CharValue(bs)) == bs
  {
    var v := CharValue(bs) as int;
    assert v / 64 == (bs[0] as int - 0xE0) * 64 + (bs[1] as int - 0x80);
    assert v / 4096 == bs[0] - 0xE0;
  }

  lemma DecodedFourBytes(bs: seq<byte>)
    requires |bs| == 4 && CharLength(bs) == 4
    ensures EncodeChar(CharValue(bs)) == bs
  {
    var v := CharValue(bs) as int;
    assert v / 64 == (bs[0] as int - 0xF0) * 4096 + (bs[1] as int - 0x80) * 64 + (bs[2] as int - 0x80);
    assert v / 4096 == (bs[0] as int - 0xF0) * 64 + (bs[1] as int - 0x80);
    assert v / 262144 == bs[0] - 0xF0;
  }

  lemma DecodedChar(bs: seq<byte>)
    requires |bs| > 0 && CharLength(bs) == |bs|
    ensures EncodeChar(CharValue(bs)) == bs
  {
    assert CharLength(bs) <= 4;
    hide CharLength, CharValue, EncodeChar;
    if |bs| <= 2 {
      DecodedShortChar(bs);
    } else if |bs| == 3 {
      DecodedThreeBytes(bs);
    } else {
      DecodedFourBytes(bs);
    }
  }

  lemma {:induction false} DecodeOfEncode(s: string)
    ensures Decode(Encode(s)) == Some(s)
  {
    hide CharLength, CharValue, EncodeChar;
    if s != [] {
      var first, rest := EncodeChar(s[0]), Encode(s[1..]);
      EncodedChar(s[0], rest);
      DecodeOfEncode(s[1..]);
      assert (first + rest)[..|first|] == first;
      assert (first + rest)[|first|..] == rest;
      assert Encode(s) == first + rest;
      assert [s[0]] + s[1..] == s;
    }
  }

  lemma {:induction false} EncodeOfDecode(bs: seq<byte>)
    requires Decode(bs).Some?
    ensures Encode(Decode(bs).value) == bs
  {
    hide CharLength, CharValue, EncodeChar;
    if bs != [] {
      var n := CharLength(bs);
      CharLengthOfPrefix(bs);
      EncodeOfDecode(bs[n..]);
      DecodedChar(bs[..n]);
      assert bs == bs[..n] + bs[n..];
    }
  }

  /** Text and valid bytes determine each other: nothing but its encoding decodes to `s`. */
  lemma DecodesExactlyItsEncoding(bs: seq<byte>, s: string)
    ensures Decode(bs) == Some(s) <==> bs == Encode(s)
  {
    DecodeOfEncode(s);
    if Decode(bs) == Some(s) {
      EncodeOfDecode(bs);
    }
  }

  predicate Ascii(s: string) {
    forall i :: 0 <= i < |s| ==> s[i] as int < 0x80
  }

  lemma {:induction false} AsciiLength(s: string)
    requires Ascii(s)
    ensures Length(s) == |s|
  {
    if s != [] {
      AsciiLength(s[1..]);
    }
  }
}
