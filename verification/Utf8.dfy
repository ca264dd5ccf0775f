/** Bytes, and well-formed UTF-8 (Unicode Standard, table 3-7). */
module Utf8 {

  type byte = x: int | 0 <= x < 256

  predicate Between(lo: int, b: int, hi: int) {
    lo <= b <= hi
  }

  /** `s[k]` exists and continues a sequence. */
  predicate Continues(s: seq<byte>, k: nat) {
    k < |s| && Between(0x80, s[k], 0xBF)
  }

  /** The length of the scalar value `s` starts with; 0 when it starts with none. */
  function ScalarLength(s: seq<byte>): (n: nat)
    ensures n <= |s|
  {
    if |s| == 0 then 0
    else if s[0] < 0x80 then 1
    else if |s| == 1 then 0
    else if Between(0xC2, s[0], 0xDF) && Continues(s, 1) then 2
    else if Between(0xE0, s[0], 0xEF) && Continues(s, 1) && Continues(s, 2)
      && (s[0] == 0xE0 ==> s[1] >= 0xA0) && (s[0] == 0xED ==> s[1] <= 0x9F) then 3
    else if Between(0xF0, s[0], 0xF4) && Continues(s, 1) && Continues(s, 2) && Continues(s, 3)
      && (s[0] == 0xF0 ==> s[1] >= 0x90) && (s[0] == 0xF4 ==> s[1] <= 0x8F) then 4
    else 0
  }

  predicate ValidUtf8(s: seq<byte>)
    decreases |s|
  {
    |s| == 0 || (ScalarLength(s) > 0 && ValidUtf8(s[ScalarLength(s)..]))
  }

  lemma ScalarStays(a: seq<byte>, t: byte, b: seq<byte>)
    requires t < 0x80 && |a| > 0
    ensures ScalarLength(a + [t] + b) == ScalarLength(a)
  {
  }

  /** An ASCII byte separates: text around it is valid exactly when both sides
      are. */
  lemma {:induction false} AsciiSeparates(a: seq<byte>, t: byte, b: seq<byte>)
    requires t < 0x80
    ensures ValidUtf8(a + [t] + b) <==> ValidUtf8(a) && ValidUtf8(b)
    decreases |a|
  {
    var s := a + [t] + b;
    if |a| == 0 {
      assert s[0] == t && s[1..] == b;
    } else {
      ScalarStays(a, t, b);
      var n := ScalarLength(a);
      if n > 0 {
        assert s[n..] == a[n..] + [t] + b;
        AsciiSeparates(a[n..], t, b);
      }
    }
  }

  // ---------------------------------------------------------------------
  // What valid text is.

  /** A Unicode scalar value: a code point that is not a surrogate. */
  predicate IsScalar(c: int) {
    0 <= c < 0xD800 || 0xE000 <= c <= 0x10FFFF
  }

  /** Its UTF-8, from the bits of the code point. */
  function Encode(c: int): seq<byte>
    requires IsScalar(c)
  {
    if c < 0x80 then [c]
    else if c < 0x800 then [0xC0 + c / 64, 0x80 + c % 64]
    else if c < 0x10000 then [0xE0 + c / 4096, 0x80 + c / 64 % 64, 0x80 + c % 64]
    else [0xF0 + c / 262144, 0x80 + c / 4096 % 64, 0x80 + c / 64 % 64, 0x80 + c % 64]
  }

  function EncodeAll(cs: seq<int>): seq<byte>
    requires forall i | 0 <= i < |cs| :: IsScalar(cs[i])
  {
    if |cs| == 0 then [] else Encode(cs[0]) + EncodeAll(cs[1..])
  }

  lemma Continuing(c: int)
    requires IsScalar(c)
    ensures forall k | 1 <= k < |Encode(c)| :: 0x80 <= Encode(c)[k] <= 0xBF
  {
  }

  lemma TwoBytes(c: int)
    requires 0x80 <= c < 0x800
    ensures |Encode(c)| == 2 && 0xC2 <= Encode(c)[0] <= 0xDF
  {
  }

  lemma ThreeBytes(c: int)
    requires 0x800 <= c < 0x10000 && IsScalar(c)
    ensures var e := Encode(c);
            |e| == 3 && 0xE0 <= e[0] <= 0xEF && (e[0] == 0xE0 ==> e[1] >= 0xA0) && (e[0] == 0xED ==> e[1] <= 0x9F)
  {
  }

  lemma FourBytes(c: int)
    requires 0x10000 <= c <= 0x10FFFF
    ensures var e := Encode(c);
            |e| == 4 && 0xF0 <= e[0] <= 0xF4 && (e[0] == 0xF0 ==> e[1] >= 0x90) && (e[0] == 0xF4 ==> e[1] <= 0x8F)
  {
  }

  lemma EncodedIsRead(c: int, rest: seq<byte>)
    requires IsScalar(c)
    ensures ScalarLength(Encode(c) + rest) == |Encode(c)|
  {
    Continuing(c);
    if 0x10000 <= c {
      FourBytes(c);
    } else if 0x800 <= c {
      ThreeBytes(c);
    } else if 0x80 <= c {
      TwoBytes(c);
    }
    ReadOf(Encode(c), rest);
  }

  /** A well-formed sequence is read whole. */
  lemma ReadOf(e: seq<byte>, rest: seq<byte>)
    requires 1 <= |e| <= 4 && forall k | 1 <= k < |e| :: 0x80 <= e[k] <= 0xBF
    requires |e| == 1 ==> e[0] < 0x80
    requires |e| == 2 ==> 0xC2 <= e[0] <= 0xDF
    requires |e| == 3 ==> 0xE0 <= e[0] <= 0xEF && (e[0] == 0xE0 ==> e[1] >= 0xA0) && (e[0] == 0xED ==> e[1] <= 0x9F)
    requires |e| == 4 ==> 0xF0 <= e[0] <= 0xF4 && (e[0] == 0xF0 ==> e[1] >= 0x90) && (e[0] == 0xF4 ==> e[1] <= 0x8F)
    ensures ScalarLength(e + rest) == |e|
  {
    assert forall k | 0 <= k < |e| :: (e + rest)[k] == e[k];
  }

  /** The six-bit parts of a number. */
  lemma SixBits(h: nat, x: nat, y: nat, z: nat)
    requires x < 64 && y < 64 && z < 64
    ensures var c := h * 262144 + x * 4096 + y * 64 + z;
            c / 262144 == h && c / 4096 % 64 == x && c / 64 % 64 == y && c % 64 == z
  {
    var c := h * 262144 + x * 4096 + y * 64 + z;
    assert c / 64 == h * 4096 + x * 64 + y;
    assert c / 4096 == h * 64 + x;
  }

  lemma ReadIsEncoded(s: seq<byte>) returns (c: int)
    requires ScalarLength(s) > 0
    ensures IsScalar(c) && s[..ScalarLength(s)] == Encode(c)
  {
    var n := ScalarLength(s);
    if n == 1 {
      c := s[0];
    } else {
      var part: seq<int> := s[..n];
      var z, y := part[n - 1] - 0x80, if n == 2 then part[0] - 0xC0 else part[n - 2] - 0x80;
      var x := if n < 3 then 0 else if n == 3 then part[0] - 0xE0 else part[1] - 0x80;
      var h := if n < 4 then 0 else part[0] - 0xF0;
      SixBits(h, x, y, z);
      c := h * 262144 + x * 4096 + y * 64 + z;
      assert n < 4 ==> c / 4096 == x;
      assert n < 3 ==> c / 64 == y;
    }
  }

  lemma {:induction false} EncodedIsValid(cs: seq<int>)
    requires forall i | 0 <= i < |cs| :: IsScalar(cs[i])
    ensures ValidUtf8(EncodeAll(cs))
    decreases |cs|
  {
    if |cs| > 0 {
      var s, first := EncodeAll(cs), Encode(cs[0]);
      EncodedIsRead(cs[0], EncodeAll(cs[1..]));
      assert s[|first|..] == EncodeAll(cs[1..]);
      EncodedIsValid(cs[1..]);
    }
  }

  /** Text is valid exactly when it is the UTF-8 of some scalar values. */
  lemma {:induction false} ValidIsEncoded(s: seq<byte>)
    ensures ValidUtf8(s) <==> exists cs: seq<int> :: (forall i | 0 <= i < |cs| :: IsScalar(cs[i])) && EncodeAll(cs) == s
    decreases |s|
  {
    if ValidUtf8(s) {
      var cs := Decoded(s);
      assert EncodeAll(cs) == s;
    }
    forall cs: seq<int> | (forall i | 0 <= i < |cs| :: IsScalar(cs[i])) && EncodeAll(cs) == s ensures ValidUtf8(s) {
      EncodedIsValid(cs);
    }
  }

  lemma {:induction false} Decoded(s: seq<byte>) returns (cs: seq<int>)
    requires ValidUtf8(s)
    ensures forall i | 0 <= i < |cs| :: IsScalar(cs[i])
    ensures EncodeAll(cs) == s
    decreases |s|
  {
    cs := [];
    if |s| > 0 {
      var n := ScalarLength(s);
      var c := ReadIsEncoded(s);
      var rest := Decoded(s[n..]);
      cs := [c] + rest;
      assert cs[1..] == rest && s == s[..n] + s[n..];
    }
  }
}
