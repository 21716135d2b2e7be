/**
 * Bytes and `Data` (voice-memo-app/Services/GPTService.swift): the UTF-8
 * encoding behind `string.data(using: .utf8)` and the decoding behind
 * `String(data:encoding: .utf8)`, and the growable byte buffer with its
 * `append(_ string:)` extension.
 */
module ByteData {
  import opened Wrappers

  newtype Byte = b: int | 0 <= b < 256
  type Bytes = seq<Byte>

  predicate IsContinuation(b: Byte) { 0x80 <= b < 0xC0 }

  /** The UTF-8 form of one Unicode scalar value. */
  function EncodeScalar(c: char): (r: Bytes)
    ensures 1 <= |r| <= 4
    ensures (c as int < 0x80) <==> |r| == 1
    ensures c as int < 0x80 ==> r[0] as int == c as int
    ensures forall i :: 1 <= i < |r| ==> IsContinuation(r[i])
  {
    var v := c as int;
    if v < 0x80 then [v as Byte]
    else if v < 0x800 then [(0xC0 + v / 64) as Byte, (0x80 + v % 64) as Byte]
    else if v < 0x10000 then
      [(0xE0 + v / 4096) as Byte, (0x80 + (v / 64) % 64) as Byte, (0x80 + v % 64) as Byte]
    else
      [(0xF0 + v / 262144) as Byte, (0x80 + (v / 4096) % 64) as Byte,
       (0x80 + (v / 64) % 64) as Byte, (0x80 + v % 64) as Byte]
  }

  /** The UTF-8 bytes of a string; every Dafny string is made of scalar values, so this never fails. */
  function Utf8Encode(s: string): (r: Bytes)
    ensures |r| >= |s|
  {
    if s == [] then [] else EncodeScalar(s[0]) + Utf8Encode(s[1..])
  }

  /** A string of code points below 0x80 encodes to one byte per character, its code. */
  lemma {:induction false} AsciiEncoding(s: string)
    requires forall i :: 0 <= i < |s| ==> s[i] as int < 0x80
    ensures |Utf8Encode(s)| == |s|
    ensures forall i :: 0 <= i < |s| ==> Utf8Encode(s)[i] as int == s[i] as int
  {
    if s != [] {
      AsciiEncoding(s[1..]);
    }
  }

  /** Encoding distributes over concatenation, so text can be appended piece by piece. */
  lemma {:induction false} Utf8Concat(s: string, t: string)
    ensures Utf8Encode(s + t) == Utf8Encode(s) + Utf8Encode(t)
  {
    if s == [] {
      assert s + t == t;
    } else {
      assert (s + t)[1..] == s[1..] + t;
      Utf8Concat(s[1..], t);
    }
  }

  /** One decoded scalar value and the number of bytes it took. */
  datatype Step = Step(c: char, width: nat)

  /**
   * Decodes the first scalar value of `b`; rejects stray continuation
   * bytes, truncated sequences, overlong forms, surrogates and values
   * above 0x10FFFF.
   */
  function DecodeFirst(b: Bytes): (r: Option<Step>)
    requires |b| > 0
    ensures r.Some? ==> 1 <= r.value.width <= |b| && r.value.width <= 4
  {
    var b0 := b[0] as int;
    if b0 < 0x80 then Some(Step(b0 as char, 1))
    else if 0xC2 <= b0 < 0xE0 && |b| >= 2 && IsContinuation(b[1]) then
      Some(Step(((b0 - 0xC0) * 64 + (b[1] as int - 0x80)) as char, 2))
    else if 0xE0 <= b0 < 0xF0 && |b| >= 3 && IsContinuation(b[1]) && IsContinuation(b[2]) then
      var v := (b0 - 0xE0) * 4096 + (b[1] as int - 0x80) * 64 + (b[2] as int - 0x80);
      if 0x800 <= v && !(0xD800 <= v < 0xE000) then Some(Step(v as char, 3)) else None
    else if 0xF0 <= b0 < 0xF5 && |b| >= 4 && IsContinuation(b[1]) && IsContinuation(b[2])
            && IsContinuation(b[3]) then
      var v := (b0 - 0xF0) * 262144 + (b[1] as int - 0x80) * 4096
               + (b[2] as int - 0x80) * 64 + (b[3] as int - 0x80);
      if 0x10000 <= v < 0x110000 then Some(Step(v as char, 4)) else None
    else None
  }

  /** `String(data:encoding: .utf8)`: nil unless the whole buffer is well-formed UTF-8. */
  function Utf8Decode(b: Bytes): (r: Option<string>)
    ensures r.Some? ==> |r.value| <= |b| <= 4 * |r.value|
    decreases |b|
  {
    if b == [] then Some([])
    else
      match DecodeFirst(b)
      case None => None
      case Some(step) =>
        match Utf8Decode(b[step.width..])
        case None => None
        case Some(rest) => Some([step.c] + rest)
  }

  lemma DecodeTwo(c: char, b: Bytes)
    requires 0x80 <= c as int < 0x800 && |b| >= 2
    requires b[0] as int == 0xC0 + c as int / 64 && b[1] as int == 0x80 + c as int % 64
    ensures DecodeFirst(b) == Some(Step(c, 2))
  {
    var v := c as int;
    var q, r := v / 64, v % 64;
    assert v == q * 64 + r && 2 <= q < 32;
  }

  lemma DecodeThree(c: char, b: Bytes)
    requires 0x800 <= c as int < 0x10000 && |b| >= 3
    requires b[0] as int == 0xE0 + c as int / 4096
    requires b[1] as int == 0x80 + (c as int / 64) % 64 && b[2] as int == 0x80 + c as int % 64
    ensures DecodeFirst(b) == Some(Step(c, 3))
  {
    var v := c as int;
    var q, m, r := v / 4096, (v / 64) % 64, v % 64;
    assert v / 64 == q * 64 + m;
    assert v == q * 4096 + m * 64 + r && q < 16;
  }

  lemma DecodeFour(c: char, b: Bytes)
    requires 0x10000 <= c as int && |b| >= 4
    requires b[0] as int == 0xF0 + c as int / 262144
    requires b[1] as int == 0x80 + (c as int / 4096) % 64
    requires b[2] as int == 0x80 + (c as int / 64) % 64 && b[3] as int == 0x80 + c as int % 64
    ensures DecodeFirst(b) == Some(Step(c, 4))
  {
    var v := c as int;
    var q, m1, m2, r := v / 262144, (v / 4096) % 64, (v / 64) % 64, v % 64;
    assert v / 4096 == q * 64 + m1;
    assert v / 64 == (v / 4096) * 64 + m2;
    assert v == q * 262144 + m1 * 4096 + m2 * 64 + r && q < 5;
  }

  lemma DecodeFirstOfEncoded(c: char, rest: Bytes)
    ensures DecodeFirst(EncodeScalar(c) + rest) == Some(Step(c, |EncodeScalar(c)|))
  {
    var v := c as int;
    var b := EncodeScalar(c) + rest;
    if v < 0x80 {
    } else if v < 0x800 {
      DecodeTwo(c, b);
    } else if v < 0x10000 {
      DecodeThree(c, b);
    } else {
      DecodeFour(c, b);
    }
  }

  /** Decoding undoes encoding: what `append(_ string:)` writes reads back as the same text. */
  lemma {:induction false} Utf8RoundTrip(s: string)
    ensures Utf8Decode(Utf8Encode(s)) == Some(s)
  {
    if s != [] {
      var e := EncodeScalar(s[0]);
      var tail := Utf8Encode(s[1..]);
      assert Utf8Encode(s) == e + tail;
      DecodeFirstOfEncoded(s[0], tail);
      assert (e + tail)[|e|..] == tail;
      Utf8RoundTrip(s[1..]);
      assert [s[0]] + s[1..] == s;
    }
  }

  lemma EncodeOfDecodedTwo(b: Bytes)
    requires |b| >= 2 && 0xC2 <= b[0] < 0xE0 && IsContinuation(b[1])
    ensures DecodeFirst(b).Some? && EncodeScalar(DecodeFirst(b).value.c) == b[..2]
  {
    var q, r := b[0] as int - 0xC0, b[1] as int - 0x80;
    var v := q * 64 + r;
    assert v / 64 == q && v % 64 == r;
    assert DecodeFirst(b).value.c as int == v;
  }

  lemma EncodeOfDecodedThree(b: Bytes)
    requires |b| >= 3 && DecodeFirst(b).Some? && 0xE0 <= b[0] < 0xF0
    ensures EncodeScalar(DecodeFirst(b).value.c) == b[..3]
  {
    var q, m, r := b[0] as int - 0xE0, b[1] as int - 0x80, b[2] as int - 0x80;
    var v := q * 4096 + m * 64 + r;
    assert v / 64 == q * 64 + m && v % 64 == r;
    assert (v / 64) % 64 == m && v / 4096 == q;
    assert DecodeFirst(b).value.c as int == v;
  }

  lemma EncodeOfDecodedFour(b: Bytes)
    requires |b| >= 4 && DecodeFirst(b).Some? && 0xF0 <= b[0]
    ensures EncodeScalar(DecodeFirst(b).value.c) == b[..4]
  {
    var q, m1, m2, r := b[0] as int - 0xF0, b[1] as int - 0x80, b[2] as int - 0x80, b[3] as int - 0x80;
    var v := q * 262144 + m1 * 4096 + m2 * 64 + r;
    assert v / 64 == q * 4096 + m1 * 64 + m2 && v % 64 == r;
    assert v / 4096 == q * 64 + m1 && (v / 64) % 64 == m2;
    assert (v / 4096) % 64 == m1 && v / 262144 == q;
    assert DecodeFirst(b).value.c as int == v;
  }

  /** The first decoded scalar re-encodes to exactly the bytes it was read from. */
  lemma EncodeOfDecodedFirst(b: Bytes)
    requires |b| > 0 && DecodeFirst(b).Some?
    ensures EncodeScalar(DecodeFirst(b).value.c) == b[..DecodeFirst(b).value.width]
  {
    if b[0] < 0x80 {
    } else if b[0] < 0xE0 {
      EncodeOfDecodedTwo(b);
    } else if b[0] < 0xF0 {
      EncodeOfDecodedThree(b);
    } else {
      EncodeOfDecodedFour(b);
    }
  }

  /** Encoding undoes decoding: text read from well-formed UTF-8 writes back to the same bytes. */
  lemma {:induction false} DecodeThenEncode(b: Bytes)
    requires Utf8Decode(b).Some?
    ensures Utf8Encode(Utf8Decode(b).value) == b
    decreases |b|
  {
    if b != [] {
      var w, c, rest := DecodeCons(b);
      DecodeThenEncode(b[w..]);
      EncodeOfDecodedFirst(b);
      EncodeCons(c, rest);
      assert b[..w] + b[w..] == b;
    }
  }

  /** A non-empty well-formed buffer decodes to its first scalar followed by the decoding of the rest. */
  lemma DecodeCons(b: Bytes) returns (w: nat, c: char, rest: string)
    requires b != [] && Utf8Decode(b).Some?
    ensures DecodeFirst(b) == Some(Step(c, w)) && w <= |b|
    ensures Utf8Decode(b[w..]) == Some(rest)
    ensures Utf8Decode(b).value == [c] + rest
  {
    var step := DecodeFirst(b).value;
    w, c, rest := step.width, step.c, Utf8Decode(b[step.width..]).value;
  }

  lemma EncodeCons(c: char, rest: string)
    ensures Utf8Encode([c] + rest) == EncodeScalar(c) + Utf8Encode(rest)
  {
    var s := [c] + rest;
    assert s[0] == c && s[1..] == rest;
  }

  /** `Data`: a growable byte buffer, mutated in place. */
  class Data {
    var bytes: Bytes

    constructor ()
      ensures bytes == []
    {
      bytes := [];
    }

    /** `append(_ other: Data)`. */
    method Append(other: Bytes)
      modifies this
      ensures bytes == old(bytes) + other
    {
      bytes := bytes + other;
    }

    /** The `append(_ string:)` extension: the string's UTF-8 bytes go on the end. */
    method AppendString(s: string)
      modifies this
      ensures bytes == old(bytes) + Utf8Encode(s)
    {
      bytes := bytes + Utf8Encode(s);
    }
  }
}
