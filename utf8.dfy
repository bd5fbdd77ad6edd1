/** UTF-8 as Python's `bytes.decode('utf-8', errors='ignore')` reads it.

    The decoder accepts exactly the well-formed sequences of table 3-7 of the
    Unicode Standard (section 3.9): no overlong forms, no surrogates, nothing
    above U+10FFFF.  A byte that cannot start a sequence, or the valid prefix
    of a sequence cut short, is dropped and decoding resumes after it. */
module Utf8 {
  import opened Common

  predicate IsContinuation(b: byte) { 0x80 <= b <= 0xBF }

  /** One decoding step at the start of non-empty input: the character read,
      or `None` for dropped bytes, and how many bytes were used. */
  function DecodeStep(b: seq<byte>): (r: (Option<char>, nat))
    requires |b| > 0
    ensures 1 <= r.1 <= |b|
  {
    var b0 := b[0] as int;
    if b0 < 0x80 then
      (Some(b0 as char), 1)
    else if 0xC2 <= b0 <= 0xDF then
      if |b| < 2 || !IsContinuation(b[1]) then (None, 1)
      else (Some(((b0 - 0xC0) * 64 + (b[1] as int - 0x80)) as char), 2)
    else if 0xE0 <= b0 <= 0xEF then
      var lo := if b0 == 0xE0 then 0xA0 else 0x80;
      var hi := if b0 == 0xED then 0x9F else 0xBF;
      if |b| < 2 || !(lo <= b[1] as int <= hi) then (None, 1)
      else if |b| < 3 || !IsContinuation(b[2]) then (None, 2)
      else
        var v := (b0 - 0xE0) * 4096 + (b[1] as int - 0x80) * 64 + (b[2] as int - 0x80);
        (Some(v as char), 3)
    else if 0xF0 <= b0 <= 0xF4 then
      var lo := if b0 == 0xF0 then 0x90 else 0x80;
      var hi := if b0 == 0xF4 then 0x8F else 0xBF;
      if |b| < 2 || !(lo <= b[1] as int <= hi) then (None, 1)
      else if |b| < 3 || !IsContinuation(b[2]) then (None, 2)
      else if |b| < 4 || !IsContinuation(b[3]) then (None, 3)
      else
        var v := (b0 - 0xF0) * 0x40000 + (b[1] as int - 0x80) * 4096
                 + (b[2] as int - 0x80) * 64 + (b[3] as int - 0x80);
        (Some(v as char), 4)
    else
      (None, 1)
  }

  /** `bytes.decode('utf-8', errors='ignore')`; never longer than its input. */
  function Decode(b: seq<byte>): (s: string)
    ensures |s| <= |b|
    decreases |b|
  {
    if b == [] then ""
    else
      var (c, n) := DecodeStep(b);
      (match c case Some(ch) => [ch] case None => "") + Decode(b[n..])
  }

  /** The UTF-8 encoding of one character (`str.encode('utf-8')`). */
  function EncodeChar(c: char): (r: seq<byte>)
    ensures 1 <= |r| <= 4
  {
    var v := c as int;
    if v < 0x80 then [v as byte]
    else if v < 0x800 then [(0xC0 + v / 64) as byte, (0x80 + v % 64) as byte]
    else if v < 0x10000 then
      [(0xE0 + v / 4096) as byte, (0x80 + (v / 64) % 64) as byte, (0x80 + v % 64) as byte]
    else
      [(0xF0 + v / 0x40000) as byte, (0x80 + (v / 4096) % 64) as byte,
       (0x80 + (v / 64) % 64) as byte, (0x80 + v % 64) as byte]
  }

  function Encode(s: string): seq<byte>
    decreases |s|
  {
    if s == [] then [] else EncodeChar(s[0]) + Encode(s[1..])
  }

  /** Decoding meets the encoding of a character first and reads it back whole. */
  lemma DecodeStepEncoded(c: char, rest: seq<byte>)
    ensures DecodeStep(EncodeChar(c) + rest) == (Some(c), |EncodeChar(c)|)
  {
    var v := c as int;
    if v < 0x80 {
    } else if v < 0x800 {
      DecodeStepTwo(c, rest);
    } else if v < 0x10000 {
      DecodeStepThree(c, rest);
    } else {
      DecodeStepFour(c, rest);
    }
  }

  lemma DecodeStepTwo(c: char, rest: seq<byte>)
    requires 0x80 <= c as int < 0x800
    ensures DecodeStep(EncodeChar(c) + rest) == (Some(c), 2)
  {
    var v := c as int;
    var e := EncodeChar(c);
    var b := e + rest;
    assert b[0] == e[0] && b[1] == e[1];
    assert b[0] as int == 0xC0 + v / 64 && b[1] as int == 0x80 + v % 64;
    assert (v / 64) * 64 + v % 64 == v;
  }

  lemma DecodeStepThree(c: char, rest: seq<byte>)
    requires 0x800 <= c as int < 0x10000
    ensures DecodeStep(EncodeChar(c) + rest) == (Some(c), 3)
  {
    var v := c as int;
    var e := EncodeChar(c);
    var b := e + rest;
    assert b[0] == e[0] && b[1] == e[1] && b[2] == e[2];
    var q, m1, m0 := v / 4096, (v / 64) % 64, v % 64;
    assert b[0] as int == 0xE0 + q && b[1] as int == 0x80 + m1 && b[2] as int == 0x80 + m0;
    assert v == q * 4096 + m1 * 64 + m0;
    assert q == 0 ==> m1 >= 32;
    assert q == 0xD ==> m1 <= 0x1F;
  }

  /** The base 64 digits of a supplementary code point. */
  lemma FourDigits(v: int)
    requires 0x10000 <= v < 0x110000
    ensures var q, m2, m1, m0 := v / 0x40000, (v / 4096) % 64, (v / 64) % 64, v % 64;
      && v == q * 0x40000 + m2 * 4096 + m1 * 64 + m0
      && 0 <= q <= 4 && 0 <= m2 < 64 && 0 <= m1 < 64 && 0 <= m0 < 64
      && (q == 0 ==> m2 >= 0x10)
      && (q == 4 ==> m2 <= 0xF)
  {
    var t1 := v / 64;
    var t2 := t1 / 64;
    assert v == t1 * 64 + v % 64;
    assert t1 == t2 * 64 + t1 % 64;
    assert t2 == (t2 / 64) * 64 + t2 % 64;
    assert v / 4096 == t2;
    assert v / 0x40000 == t2 / 64;
  }

  lemma DecodeStepFour(c: char, rest: seq<byte>)
    requires 0x10000 <= c as int
    ensures DecodeStep(EncodeChar(c) + rest) == (Some(c), 4)
  {
    var v := c as int;
    var e := EncodeChar(c);
    var b := e + rest;
    assert b[0] == e[0] && b[1] == e[1] && b[2] == e[2] && b[3] == e[3];
    FourDigits(v);
    var q, m2, m1, m0 := v / 0x40000, (v / 4096) % 64, (v / 64) % 64, v % 64;
    assert b[0] as int == 0xF0 + q && b[1] as int == 0x80 + m2;
    assert b[2] as int == 0x80 + m1 && b[3] as int == 0x80 + m0;
  }

  /** Lenient decoding is a left inverse of encoding: text that was encoded
      as UTF-8 comes back unchanged. */
  lemma {:induction false} DecodeEncode(s: string)
    ensures Decode(Encode(s)) == s
    decreases |s|
  {
    if s != [] {
      var e, rest := EncodeChar(s[0]), Encode(s[1..]);
      DecodeStepEncoded(s[0], rest);
      assert (e + rest)[|e|..] == rest;
      DecodeEncode(s[1..]);
    }
  }

  /** ASCII bytes decode one character each, to the same code. */
  lemma {:induction false} DecodeAscii(b: seq<byte>)
    requires forall i :: 0 <= i < |b| ==> b[i] < 0x80
    ensures |Decode(b)| == |b|
    ensures forall i :: 0 <= i < |b| ==> Decode(b)[i] as int == b[i] as int
    decreases |b|
  {
    if b != [] {
      DecodeAscii(b[1..]);
    }
  }

  /** `errors='ignore'` drops a byte that cannot start a sequence (a
      continuation byte, 0xC0, 0xC1 or anything above 0xF4) and decodes on
      from the next byte. */
  lemma DecodeDropsInvalidLead(b: byte, rest: seq<byte>)
    requires 0x80 <= b <= 0xC1 || 0xF5 <= b
    ensures Decode([b] + rest) == Decode(rest)
  {
    assert ([b] + rest)[1..] == rest;
  }

  /** A lead byte followed by a byte that is not a continuation byte is
      dropped on its own, and decoding resumes at that byte. */
  lemma DecodeDropsLoneLead(b0: byte, x: byte, rest: seq<byte>)
    requires 0xC2 <= b0 <= 0xF4 && !IsContinuation(x)
    ensures Decode([b0, x] + rest) == Decode([x] + rest)
  {
    assert ([b0, x] + rest)[1..] == [x] + rest;
  }

  /** The valid first two bytes of a three-byte sequence, cut short by a byte
      that is not a continuation byte, are dropped together. */
  lemma DecodeDropsCutShortThree(b0: byte, b1: byte, x: byte, rest: seq<byte>)
    requires 0xE0 <= b0 <= 0xEF
    requires (if b0 == 0xE0 then 0xA0 else 0x80) <= b1 <= (if b0 == 0xED then 0x9F else 0xBF)
    requires !IsContinuation(x)
    ensures Decode([b0, b1, x] + rest) == Decode([x] + rest)
  {
    assert ([b0, b1, x] + rest)[2..] == [x] + rest;
  }

  /** The valid first three bytes of a four-byte sequence, cut short by a
      byte that is not a continuation byte, are dropped together. */
  lemma DecodeDropsCutShortFour(b0: byte, b1: byte, b2: byte, x: byte, rest: seq<byte>)
    requires 0xF0 <= b0 <= 0xF4
    requires (if b0 == 0xF0 then 0x90 else 0x80) <= b1 <= (if b0 == 0xF4 then 0x8F else 0xBF)
    requires IsContinuation(b2) && !IsContinuation(x)
    ensures Decode([b0, b1, b2, x] + rest) == Decode([x] + rest)
  {
    assert ([b0, b1, b2, x] + rest)[3..] == [x] + rest;
  }

  /** Every non-ASCII byte alone at the end of the input is dropped. */
  lemma DecodeDropsFinalByte(b: byte)
    requires 0x80 <= b
    ensures Decode([b]) == ""
  {
    assert [b][1..] == [];
  }
}
