/** Which bytes are text. */
module Utf8 {
  import opened Basics

  predicate Tail(b: Byte) { 0x80 <= b <= 0xBF }

  /** The length of the UTF-8 character this begins with, or 0. */
  function CharLength(s: seq<Byte>): nat
  {
    if |s| >= 1 && s[0] <= 0x7F then 1
    else if |s| >= 2 && 0xC2 <= s[0] <= 0xDF && Tail(s[1]) then 2
    else if |s| >= 3 && Tail(s[1]) && Tail(s[2]) &&
            (|| (s[0] == 0xE0 && s[1] >= 0xA0) || 0xE1 <= s[0] <= 0xEC || (s[0] == 0xED && s[1] <= 0x9F)
             || 0xEE <= s[0] <= 0xEF) then 3
    else if |s| >= 4 && Tail(s[1]) && Tail(s[2]) && Tail(s[3]) &&
            ((s[0] == 0xF0 && s[1] >= 0x90) || 0xF1 <= s[0] <= 0xF3 || (s[0] == 0xF4 && s[1] <= 0x8F)) then 4
    else 0
  }

  predicate IsUtf8(s: seq<Byte>)
    decreases |s|
  {
    s == [] || (CharLength(s) > 0 && IsUtf8(s[CharLength(s)..]))
  }

  /** A Unicode scalar value: a code point that is not a surrogate. */
  predicate IsScalar(cp: nat) { cp < 0xD800 || 0xE000 <= cp <= 0x10FFFF }

  /** The bytes of one character. */
  function CharBytes(cp: nat): seq<Byte>
    requires IsScalar(cp)
  {
    if cp < 0x80 then [cp]
    else if cp < 0x800 then [0xC0 + cp / 64, 0x80 + cp % 64]
    else if cp < 0x10000 then [0xE0 + cp / 4096, 0x80 + cp / 64 % 64, 0x80 + cp % 64]
    else [0xF0 + cp / 262144, 0x80 + cp / 4096 % 64, 0x80 + cp / 64 % 64, 0x80 + cp % 64]
  }

  predicate AllScalars(text: seq<nat>) { forall i :: 0 <= i < |text| ==> IsScalar(text[i]) }

  function TextBytes(text: seq<nat>): seq<Byte>
    requires AllScalars(text)
  {
    if text == [] then [] else CharBytes(text[0]) + TextBytes(text[1..])
  }

  /** Three bytes begin with these. */
  lemma ThreeByteRange(cp: nat)
    requires IsScalar(cp) && 0x800 <= cp < 0x10000
    ensures var a, b := 0xE0 + cp / 4096, 0x80 + cp / 64 % 64;
      (a == 0xE0 && b >= 0xA0) || 0xE1 <= a <= 0xEC || (a == 0xED && b <= 0x9F) || 0xEE <= a <= 0xEF
  {
    var q := cp / 64;
    assert q / 64 == cp / 4096 && q == q / 64 * 64 + q % 64;
  }

  lemma FourByteRange(cp: nat)
    requires 0x10000 <= cp <= 0x10FFFF
    ensures var a, b := 0xF0 + cp / 262144, 0x80 + cp / 4096 % 64;
      (a == 0xF0 && b >= 0x90) || 0xF1 <= a <= 0xF3 || (a == 0xF4 && b <= 0x8F)
  {
    var q := cp / 4096;
    assert q / 64 == cp / 262144 && q == q / 64 * 64 + q % 64;
  }

  lemma CharIsRead(cp: nat, rest: seq<Byte>)
    requires IsScalar(cp)
    ensures CharLength(CharBytes(cp) + rest) == |CharBytes(cp)|
  {
    if cp < 0x80 {
    } else if cp < 0x800 {
      ReadTwo(0xC0 + cp / 64, 0x80 + cp % 64, rest);
    } else if cp < 0x10000 {
      ThreeByteRange(cp);
      ReadThree(0xE0 + cp / 4096, 0x80 + cp / 64 % 64, 0x80 + cp % 64, rest);
    } else {
      FourByteRange(cp);
      ReadFour(0xF0 + cp / 262144, 0x80 + cp / 4096 % 64, 0x80 + cp / 64 % 64, 0x80 + cp % 64, rest);
    }
    hide CharLength;
  }

  lemma ReadTwo(a: Byte, b: Byte, rest: seq<Byte>)
    requires 0xC2 <= a <= 0xDF && Tail(b)
    ensures CharLength([a, b] + rest) == 2
  {}

  lemma ReadThree(a: Byte, b: Byte, c: Byte, rest: seq<Byte>)
    requires Tail(b) && Tail(c)
    requires (a == 0xE0 && b >= 0xA0) || 0xE1 <= a <= 0xEC || (a == 0xED && b <= 0x9F) || 0xEE <= a <= 0xEF
    ensures CharLength([a, b, c] + rest) == 3
  {}

  lemma ReadFour(a: Byte, b: Byte, c: Byte, d: Byte, rest: seq<Byte>)
    requires Tail(b) && Tail(c) && Tail(d)
    requires (a == 0xF0 && b >= 0x90) || 0xF1 <= a <= 0xF3 || (a == 0xF4 && b <= 0x8F)
    ensures CharLength([a, b, c, d] + rest) == 4
  {}

  lemma TwoBytes(a: Byte, b: Byte) returns (cp: nat)
    requires 0xC2 <= a <= 0xDF && Tail(b)
    ensures IsScalar(cp) && CharBytes(cp) == [a, b]
  {
    var x: int, y: int := a - 0xC0, b - 0x80;
    cp := x * 64 + y;
    assert cp / 64 == x && cp % 64 == y;
  }

  lemma ThreeBytes(a: Byte, b: Byte, c: Byte) returns (cp: nat)
    requires Tail(b) && Tail(c)
    requires (a == 0xE0 && b >= 0xA0) || 0xE1 <= a <= 0xEC || (a == 0xED && b <= 0x9F) || 0xEE <= a <= 0xEF
    ensures IsScalar(cp) && CharBytes(cp) == [a, b, c]
  {
    var x: int, y: int, z: int := a - 0xE0, b - 0x80, c - 0x80;
    cp := (x * 64 + y) * 64 + z;
    Shifted(x * 64 + y, z);
    Shifted(x, y);
    assert cp / 4096 == x;
  }

  lemma FourBytes(a: Byte, b: Byte, c: Byte, d: Byte) returns (cp: nat)
    requires Tail(b) && Tail(c) && Tail(d)
    requires (a == 0xF0 && b >= 0x90) || 0xF1 <= a <= 0xF3 || (a == 0xF4 && b <= 0x8F)
    ensures IsScalar(cp) && CharBytes(cp) == [a, b, c, d]
  {
    var x: int, y: int, z: int, w: int := a - 0xF0, b - 0x80, c - 0x80, d - 0x80;
    cp := ((x * 64 + y) * 64 + z) * 64 + w;
    Shifted((x * 64 + y) * 64 + z, w);
    Shifted(x * 64 + y, z);
    Shifted(x, y);
    assert cp / 4096 == x * 64 + y && cp / 262144 == x;
  }

  lemma Shifted(high: nat, low: nat)
    requires low < 64
    ensures (high * 64 + low) / 64 == high && (high * 64 + low) % 64 == low
  {}

  lemma CharIsWritten(s: seq<Byte>) returns (cp: nat)
    requires CharLength(s) > 0
    ensures CharLength(s) <= |s| && IsScalar(cp) && CharBytes(cp) == s[..CharLength(s)]
  {
    hide CharBytes;
    var n := CharLength(s);
    if n == 1 {
      cp := s[0];
      OneByte(s[0]);
      assert s[..1] == [s[0]];
    } else if n == 2 {
      cp := TwoBytes(s[0], s[1]);
      assert s[..2] == [s[0], s[1]];
    } else if n == 3 {
      cp := ThreeBytes(s[0], s[1], s[2]);
      assert s[..3] == [s[0], s[1], s[2]];
    } else {
      cp := FourBytes(s[0], s[1], s[2], s[3]);
      assert s[..4] == [s[0], s[1], s[2], s[3]];
    }
  }

  lemma OneByte(a: Byte)
    requires a <= 0x7F
    ensures IsScalar(a) && CharBytes(a) == [a]
  {}

  /** The bytes accepted as text are exactly the encodings of sequences of Unicode scalar values. */
  lemma {:induction false} TextIsRead(text: seq<nat>)
    requires AllScalars(text)
    ensures IsUtf8(TextBytes(text))
    decreases |text|
  {
    if text != [] {
      var rest := TextBytes(text[1..]);
      CharIsRead(text[0], rest);
      TextIsRead(text[1..]);
      var n := |CharBytes(text[0])|;
      assert (CharBytes(text[0]) + rest)[n..] == rest;
      hide CharLength;
    }
  }

  lemma {:induction false} TextIsWritten(s: seq<Byte>) returns (text: seq<nat>)
    requires IsUtf8(s)
    ensures AllScalars(text) && TextBytes(text) == s
    decreases |s|
  {
    if s == [] {
      text := [];
    } else {
      hide CharLength, CharBytes;
      var n := CharLength(s);
      var cp := CharIsWritten(s);
      var rest := TextIsWritten(s[n..]);
      text := [cp] + rest;
      assert text[1..] == rest && text[0] == cp;
      assert s == s[..n] + s[n..];
    }
  }
}
