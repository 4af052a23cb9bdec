/** Well-formed UTF-8, and that it is what encoding sequences of Unicode scalar values gives. */
module Utf8 {
  import opened Basics

  predicate Continuation(b: byte) {
    0x80 <= b <= 0xBF
  }

  /** The well-formed byte sequences (table 3-7 of the Unicode standard). */
  predicate IsUtf8(s: seq<byte>) {
    if s == [] then true
    else if s[0] <= 0x7F then IsUtf8(s[1..])
    else if |s| >= 2 && 0xC2 <= s[0] <= 0xDF && Continuation(s[1]) then IsUtf8(s[2..])
    else if |s| >= 3 && Continuation(s[2])
      && ((s[0] == 0xE0 && 0xA0 <= s[1] <= 0xBF) || (s[0] == 0xED && 0x80 <= s[1] <= 0x9F)
          || ((0xE1 <= s[0] <= 0xEC || 0xEE <= s[0] <= 0xEF) && Continuation(s[1]))) then IsUtf8(s[3..])
    else if |s| >= 4 && Continuation(s[2]) && Continuation(s[3])
      && ((s[0] == 0xF0 && 0x90 <= s[1] <= 0xBF) || (s[0] == 0xF4 && 0x80 <= s[1] <= 0x8F)
          || (0xF1 <= s[0] <= 0xF3 && Continuation(s[1]))) then IsUtf8(s[4..])
    else false
  }

  /** A code point that is not a surrogate. */
  ghost predicate IsScalar(c: int) {
    0 <= c <= 0x10FFFF && !(0xD800 <= c <= 0xDFFF)
  }

  /** The bytes of a scalar value (section 3 of RFC 3629): six bits a byte behind a lead byte. */
  ghost function EncodeScalar(c: int): (r: seq<byte>)
    requires IsScalar(c)
    ensures |r| == if c < 0x80 then 1 else if c < 0x800 then 2 else if c < 0x1_0000 then 3 else 4
  {
    if c < 0x80 then [c]
    else if c < 0x800 then [0xC0 + c / 64, 0x80 + c % 64]
    else if c < 0x1_0000 then [0xE0 + c / 4096, 0x80 + c / 64 % 64, 0x80 + c % 64]
    else [0xF0 + c / 262_144, 0x80 + c / 4096 % 64, 0x80 + c / 64 % 64, 0x80 + c % 64]
  }

  ghost function EncodeScalars(cs: seq<int>): (r: seq<byte>)
    requires forall i :: 0 <= i < |cs| ==> IsScalar(cs[i])
  {
    if cs == [] then [] else EncodeScalar(cs[0]) + EncodeScalars(cs[1..])
  }

  lemma ShortScalarIsUtf8(c: int, rest: seq<byte>)
    requires IsScalar(c) && c < 0x800
    ensures IsUtf8(EncodeScalar(c) + rest) == IsUtf8(rest)
  {
    var s := EncodeScalar(c) + rest;
    if c < 0x80 {
      assert s[1..] == rest;
    } else {
      assert s[2..] == rest;
      assert s[0] == 0xC0 + c / 64 && s[1] == 0x80 + c % 64;
    }
  }

  lemma ThreeByteScalarIsUtf8(c: int, rest: seq<byte>)
    requires IsScalar(c) && 0x800 <= c < 0x1_0000
    ensures IsUtf8(EncodeScalar(c) + rest) == IsUtf8(rest)
  {
    var s := EncodeScalar(c) + rest;
    assert s[3..] == rest;
    assert s[0] == 0xE0 + c / 4096 && s[1] == 0x80 + c / 64 % 64 && s[2] == 0x80 + c % 64;
    assert c / 64 == c / 4096 * 64 + c / 64 % 64;
  }

  lemma FourByteScalarIsUtf8(c: int, rest: seq<byte>)
    requires IsScalar(c) && 0x1_0000 <= c
    ensures IsUtf8(EncodeScalar(c) + rest) == IsUtf8(rest)
  {
    var s := EncodeScalar(c) + rest;
    assert s[4..] == rest;
    assert s[0] == 0xF0 + c / 262_144 && s[1] == 0x80 + c / 4096 % 64;
    assert s[2] == 0x80 + c / 64 % 64 && s[3] == 0x80 + c % 64;
    assert c / 4096 == c / 262_144 * 64 + c / 4096 % 64;
  }

  lemma {:induction false} ScalarsAreUtf8(cs: seq<int>)
    requires forall i :: 0 <= i < |cs| ==> IsScalar(cs[i])
    ensures IsUtf8(EncodeScalars(cs))
  {
    if cs != [] {
      ScalarsAreUtf8(cs[1..]);
      var c, rest := cs[0], EncodeScalars(cs[1..]);
      if c < 0x800 {
        ShortScalarIsUtf8(c, rest);
      } else if c < 0x1_0000 {
        ThreeByteScalarIsUtf8(c, rest);
      } else {
        FourByteScalarIsUtf8(c, rest);
      }
    }
  }

  /** Six bits taken apart again. */
  lemma SixBits(high: int, low: int)
    requires 0 <= low < 64
    ensures (high * 64 + low) / 64 == high && (high * 64 + low) % 64 == low
  {
  }

  lemma TwoBytesEncode(a: byte, b: byte) returns (c: int)
    requires 0xC2 <= a <= 0xDF && Continuation(b)
    ensures IsScalar(c) && EncodeScalar(c) == [a, b]
  {
    c := (a - 0xC0) * 64 + (b - 0x80);
    SixBits(a - 0xC0, b - 0x80);
  }

  lemma ThreeBytesEncode(a: byte, b: byte, d: byte) returns (c: int)
    requires 0xE0 <= a <= 0xEF && Continuation(b) && Continuation(d)
    requires a == 0xE0 ==> b >= 0xA0
    requires a == 0xED ==> b <= 0x9F
    ensures IsScalar(c) && EncodeScalar(c) == [a, b, d]
  {
    var high := (a - 0xE0) * 64 + (b - 0x80);
    c := high * 64 + (d - 0x80);
    SixBits(a - 0xE0, b - 0x80);
    SixBits(high, d - 0x80);
    assert c / 4096 == c / 64 / 64;
  }

  lemma FourBytesEncode(a: byte, b: byte, d: byte, e: byte) returns (c: int)
    requires 0xF0 <= a <= 0xF4 && Continuation(b) && Continuation(d) && Continuation(e)
    requires a == 0xF0 ==> b >= 0x90
    requires a == 0xF4 ==> b <= 0x8F
    ensures IsScalar(c) && EncodeScalar(c) == [a, b, d, e]
  {
    var top := (a - 0xF0) * 64 + (b - 0x80);
    var high := top * 64 + (d - 0x80);
    c := high * 64 + (e - 0x80);
    SixBits(a - 0xF0, b - 0x80);
    SixBits(top, d - 0x80);
    SixBits(high, e - 0x80);
    assert c / 4096 == c / 64 / 64 && c / 262_144 == c / 64 / 64 / 64;
  }

  lemma FirstScalar(s: seq<byte>) returns (c: int)
    requires IsUtf8(s) && s != []
    ensures IsScalar(c) && |EncodeScalar(c)| <= |s| && s[..|EncodeScalar(c)|] == EncodeScalar(c)
    ensures IsUtf8(s[|EncodeScalar(c)|..])
  {
    if s[0] <= 0x7F {
      c := s[0];
    } else if s[0] <= 0xDF {
      c := TwoBytesEncode(s[0], s[1]);
    } else if s[0] <= 0xEF {
      c := ThreeBytesEncode(s[0], s[1], s[2]);
    } else {
      c := FourBytesEncode(s[0], s[1], s[2], s[3]);
    }
  }

  lemma {:induction false} Utf8IsScalars(s: seq<byte>) returns (cs: seq<int>)
    requires IsUtf8(s)
    ensures (forall i :: 0 <= i < |cs| ==> IsScalar(cs[i])) && EncodeScalars(cs) == s
    decreases |s|
  {
    if s == [] {
      cs := [];
    } else {
      var c := FirstScalar(s);
      var n := |EncodeScalar(c)|;
      var rest := Utf8IsScalars(s[n..]);
      cs := [c] + rest;
      assert cs[1..] == rest;
      assert s == s[..n] + s[n..];
    }
  }

  /** A byte string is accepted as UTF-8 if and only if it encodes some sequence of Unicode scalar values. */
  lemma Utf8Iff(s: seq<byte>)
    ensures IsUtf8(s) <==>
      exists cs: seq<int> :: (forall i :: 0 <= i < |cs| ==> IsScalar(cs[i])) && EncodeScalars(cs) == s
  {
    if IsUtf8(s) {
      var cs := Utf8IsScalars(s);
    }
    forall cs: seq<int> | (forall i :: 0 <= i < |cs| ==> IsScalar(cs[i])) && EncodeScalars(cs) == s
      ensures IsUtf8(s)
    {
      ScalarsAreUtf8(cs);
    }
  }
}
