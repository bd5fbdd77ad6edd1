/** The base 64 encoding of section 4 of RFC 4648 (`base64.b64encode`):
    each group of three bytes becomes four characters of the alphabet
    A-Z a-z 0-9 + /, and a final group of one or two bytes is padded with "=". */
module Base64 {
  import opened Common

  /** The character for a 6-bit value (table 1 of RFC 4648). */
  function Digit(v: int): char
    requires 0 <= v < 64
  {
    if v < 26 then ('A' as int + v) as char
    else if v < 52 then ('a' as int + (v - 26)) as char
    else if v < 62 then ('0' as int + (v - 52)) as char
    else if v == 62 then '+'
    else '/'
  }

  /** The 6-bit value of an alphabet character; 0 for anything else. */
  function DigitValue(c: char): (v: int)
    ensures 0 <= v < 64
  {
    if 'A' <= c <= 'Z' then c as int - 'A' as int
    else if 'a' <= c <= 'z' then c as int - 'a' as int + 26
    else if '0' <= c <= '9' then c as int - '0' as int + 52
    else if c == '+' then 62
    else if c == '/' then 63
    else 0
  }

  predicate IsAlphabet(c: char) {
    'A' <= c <= 'Z' || 'a' <= c <= 'z' || '0' <= c <= '9' || c == '+' || c == '/'
  }

  lemma DigitRoundTrip(v: int)
    requires 0 <= v < 64
    ensures IsAlphabet(Digit(v)) && Digit(v) != '=' && DigitValue(Digit(v)) == v
  {
  }

  /** The four characters of a full group of three bytes. */
  function Quad(b0: int, b1: int, b2: int): (g: string)
    requires 0 <= b0 < 256 && 0 <= b1 < 256 && 0 <= b2 < 256
    ensures |g| == 4
  {
    [Digit(b0 / 4), Digit((b0 % 4) * 16 + b1 / 16), Digit((b1 % 16) * 4 + b2 / 64), Digit(b2 % 64)]
  }

  /** The padded group of a final single byte. */
  function PadOne(b0: int): (g: string)
    requires 0 <= b0 < 256
    ensures |g| == 4
  {
    [Digit(b0 / 4), Digit((b0 % 4) * 16), '=', '=']
  }

  /** The padded group of a final pair of bytes. */
  function PadTwo(b0: int, b1: int): (g: string)
    requires 0 <= b0 < 256 && 0 <= b1 < 256
    ensures |g| == 4
  {
    [Digit(b0 / 4), Digit((b0 % 4) * 16 + b1 / 16), Digit((b1 % 16) * 4), '=']
  }

  /** `base64.b64encode(data).decode('utf-8')`. */
  function Encode(data: seq<byte>): (s: string)
    ensures |s| == 4 * ((|data| + 2) / 3)
    decreases |data|
  {
    if |data| == 0 then ""
    else if |data| == 1 then PadOne(data[0] as int)
    else if |data| == 2 then PadTwo(data[0] as int, data[1] as int)
    else Quad(data[0] as int, data[1] as int, data[2] as int) + Encode(data[3..])
  }

  /** Every character of an encoding is of the alphabet or the padding "=". */
  lemma {:induction false} EncodeAlphabet(data: seq<byte>)
    ensures forall i :: 0 <= i < |Encode(data)| ==> IsAlphabet(Encode(data)[i]) || Encode(data)[i] == '='
    decreases |data|
  {
    if |data| == 1 {
      DigitRoundTrip(data[0] as int / 4);
      DigitRoundTrip((data[0] as int % 4) * 16);
    } else if |data| == 2 {
      var b0, b1 := data[0] as int, data[1] as int;
      DigitRoundTrip(b0 / 4);
      DigitRoundTrip((b0 % 4) * 16 + b1 / 16);
      DigitRoundTrip((b1 % 16) * 4);
    } else if |data| >= 3 {
      var b0, b1, b2 := data[0] as int, data[1] as int, data[2] as int;
      DigitRoundTrip(b0 / 4);
      DigitRoundTrip((b0 % 4) * 16 + b1 / 16);
      DigitRoundTrip((b1 % 16) * 4 + b2 / 64);
      DigitRoundTrip(b2 % 64);
      EncodeAlphabet(data[3..]);
      var g, rest := Quad(b0, b1, b2), Encode(data[3..]);
      assert Encode(data) == g + rest;
      forall i | 0 <= i < |g + rest|
        ensures IsAlphabet((g + rest)[i]) || (g + rest)[i] == '='
      {
        if i >= 4 {
          assert (g + rest)[i] == rest[i - 4];
        }
      }
    }
  }

  /** The three bytes that four 6-bit values spell. */
  function GroupBytes(v0: int, v1: int, v2: int, v3: int): (r: seq<byte>)
    requires 0 <= v0 < 64 && 0 <= v1 < 64 && 0 <= v2 < 64 && 0 <= v3 < 64
    ensures |r| == 3
  {
    [(v0 * 4 + v1 / 16) as byte, ((v1 % 16) * 16 + v2 / 4) as byte, ((v2 % 4) * 64 + v3) as byte]
  }

  /** The bytes of one group of four characters: one before "==", two
      before "=", three otherwise. */
  function DecodeGroup(g: string): (r: seq<byte>)
    requires |g| == 4
    ensures |r| <= 3
  {
    var bytes := GroupBytes(DigitValue(g[0]), DigitValue(g[1]), DigitValue(g[2]), DigitValue(g[3]));
    if g[2] == '=' then bytes[..1]
    else if g[3] == '=' then bytes[..2]
    else bytes
  }

  /** Decoding, group by group. */
  function Decode(s: string): seq<byte>
    decreases |s|
  {
    if |s| < 4 then [] else DecodeGroup(s[..4]) + Decode(s[4..])
  }

  /** The 6-bit values of a group of three bytes spell those bytes again. */
  lemma GroupValues(b0: int, b1: int, b2: int)
    requires 0 <= b0 < 256 && 0 <= b1 < 256 && 0 <= b2 < 256
    ensures GroupBytes(b0 / 4, (b0 % 4) * 16 + b1 / 16, (b1 % 16) * 4 + b2 / 64, b2 % 64)
            == [b0 as byte, b1 as byte, b2 as byte]
  {
    var c1, c2 := (b0 % 4) * 16 + b1 / 16, (b1 % 16) * 4 + b2 / 64;
    assert c1 / 16 == b0 % 4 && c1 % 16 == b1 / 16;
    assert c2 / 4 == b1 % 16 && c2 % 4 == b2 / 64;
  }

  lemma DecodeLastOne(b0: int)
    requires 0 <= b0 < 256
    ensures DecodeGroup(PadOne(b0)) == [b0 as byte]
  {
    var c0, c1 := b0 / 4, (b0 % 4) * 16;
    DigitRoundTrip(c0);
    DigitRoundTrip(c1);
    assert DecodeGroup(PadOne(b0)) == GroupBytes(c0, c1, 0, 0)[..1];
    assert c0 * 4 + c1 / 16 == b0;
  }

  lemma DecodeLastTwo(b0: int, b1: int)
    requires 0 <= b0 < 256 && 0 <= b1 < 256
    ensures DecodeGroup(PadTwo(b0, b1)) == [b0 as byte, b1 as byte]
  {
    var c0, c1, c2 := b0 / 4, (b0 % 4) * 16 + b1 / 16, (b1 % 16) * 4;
    DigitRoundTrip(c0);
    DigitRoundTrip(c1);
    DigitRoundTrip(c2);
    assert DecodeGroup(PadTwo(b0, b1)) == GroupBytes(c0, c1, c2, 0)[..2];
    assert c1 / 16 == b0 % 4 && c1 % 16 == b1 / 16;
    assert c2 / 4 == b1 % 16;
  }

  lemma DecodeFull(b0: int, b1: int, b2: int)
    requires 0 <= b0 < 256 && 0 <= b1 < 256 && 0 <= b2 < 256
    ensures DecodeGroup(Quad(b0, b1, b2)) == [b0 as byte, b1 as byte, b2 as byte]
  {
    var c0, c1, c2, c3 := b0 / 4, (b0 % 4) * 16 + b1 / 16, (b1 % 16) * 4 + b2 / 64, b2 % 64;
    DigitRoundTrip(c0);
    DigitRoundTrip(c1);
    DigitRoundTrip(c2);
    DigitRoundTrip(c3);
    assert DecodeGroup(Quad(b0, b1, b2)) == GroupBytes(c0, c1, c2, c3);
    GroupValues(b0, b1, b2);
  }

  /** A leading group of four characters decodes on its own. */
  lemma DecodeCons(g: string, rest: string)
    requires |g| == 4
    ensures Decode(g + rest) == DecodeGroup(g) + Decode(rest)
  {
    var s := g + rest;
    assert s[..4] == g && s[4..] == rest;
  }

  /** A final single byte comes back. */
  lemma DecodeEncodeOne(data: seq<byte>)
    requires |data| == 1
    ensures Decode(Encode(data)) == data
  {
    var g := PadOne(data[0] as int);
    assert Encode(data) == g + "";
    DecodeCons(g, "");
    DecodeLastOne(data[0] as int);
  }

  /** A final pair of bytes comes back. */
  lemma DecodeEncodeTwo(data: seq<byte>)
    requires |data| == 2
    ensures Decode(Encode(data)) == data
  {
    var g := PadTwo(data[0] as int, data[1] as int);
    assert Encode(data) == g + "";
    DecodeCons(g, "");
    DecodeLastTwo(data[0] as int, data[1] as int);
  }

  /** Encoding starts with the group of the first three bytes. */
  lemma EncodeFirstGroup(data: seq<byte>)
    requires |data| >= 3
    ensures Encode(data) == Quad(data[0] as int, data[1] as int, data[2] as int) + Encode(data[3..])
  {
  }

  lemma SplitThree(data: seq<byte>)
    requires |data| >= 3
    ensures data == [data[0] as int as byte, data[1] as int as byte, data[2] as int as byte] + data[3..]
  {
    assert data == [data[0], data[1], data[2]] + data[3..];
  }

  /** Decoding undoes encoding. */
  lemma {:induction false} DecodeEncode(data: seq<byte>)
    ensures Decode(Encode(data)) == data
    decreases |data|
  {
    if |data| == 1 {
      DecodeEncodeOne(data);
    } else if |data| == 2 {
      DecodeEncodeTwo(data);
    } else if |data| >= 3 {
      var b0, b1, b2 := data[0] as int, data[1] as int, data[2] as int;
      EncodeFirstGroup(data);
      DecodeCons(Quad(b0, b1, b2), Encode(data[3..]));
      DecodeFull(b0, b1, b2);
      DecodeEncode(data[3..]);
      SplitThree(data);
    }
  }
}
