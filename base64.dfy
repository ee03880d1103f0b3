/**
 * `base64_encode`, the base 64 encoding of section 4 of RFC 4648, over
 * bytes, and a decoder for unpadded text (whole four-character groups).
 */
module Base64 {
  import opened Wrappers

  newtype uint8 = x: int | 0 <= x < 256

  /** The 64 characters of the alphabet of RFC 4648 section 4 (table 1). */
  predicate IsAlphabetChar(c: char) {
    ('A' <= c <= 'Z') || ('a' <= c <= 'z') || ('0' <= c <= '9') || c == '+' || c == '/'
  }

  /** The character that encodes a 6-bit value. */
  function SextetChar(v: int): (c: char)
    requires 0 <= v < 64
    ensures IsAlphabetChar(c)
  {
    if v < 26 then ('A' as int + v) as char
    else if v < 52 then ('a' as int + (v - 26)) as char
    else if v < 62 then ('0' as int + (v - 52)) as char
    else if v == 62 then '+'
    else '/'
  }

  /** The 6-bit value a character of the alphabet encodes; the inverse of `SextetChar`. */
  function CharSextet(c: char): (v: int)
    requires IsAlphabetChar(c)
    ensures 0 <= v < 64 && SextetChar(v) == c
  {
    if 'A' <= c <= 'Z' then c as int - 'A' as int
    else if 'a' <= c <= 'z' then c as int - 'a' as int + 26
    else if '0' <= c <= '9' then c as int - '0' as int + 52
    else if c == '+' then 62
    else 63
  }

  lemma SextetRoundTrip(v: int)
    requires 0 <= v < 64
    ensures CharSextet(SextetChar(v)) == v
  {
  }

  // Three bytes x0 x1 x2 regroup into four sextets:
  //   x0 / 4,  (x0 % 4) * 16 + x1 / 16,  (x1 % 16) * 4 + x2 / 64,  x2 % 64
  // and four sextets v0 v1 v2 v3 into three bytes:
  //   v0 * 4 + v1 / 16,  (v1 % 16) * 16 + v2 / 4,  (v2 % 4) * 64 + v3

  function Sextet0(x0: int): int { x0 / 4 }
  function Sextet1(x0: int, x1: int): int { (x0 % 4) * 16 + x1 / 16 }
  function Sextet2(x1: int, x2: int): int { (x1 % 16) * 4 + x2 / 64 }
  function Sextet3(x2: int): int { x2 % 64 }

  function Byte0(v0: int, v1: int): int { v0 * 4 + v1 / 16 }
  function Byte1(v1: int, v2: int): int { (v1 % 16) * 16 + v2 / 4 }
  function Byte2(v2: int, v3: int): int { (v2 % 4) * 64 + v3 }

  lemma SextetsInRange(x0: int, x1: int, x2: int)
    requires 0 <= x0 < 256 && 0 <= x1 < 256 && 0 <= x2 < 256
    ensures 0 <= Sextet0(x0) < 64 && 0 <= Sextet1(x0, x1) < 64
    ensures 0 <= Sextet2(x1, x2) < 64 && 0 <= Sextet3(x2) < 64
  {
  }

  lemma BytesInRange(v0: int, v1: int, v2: int, v3: int)
    requires 0 <= v0 < 64 && 0 <= v1 < 64 && 0 <= v2 < 64 && 0 <= v3 < 64
    ensures 0 <= Byte0(v0, v1) < 256 && 0 <= Byte1(v1, v2) < 256 && 0 <= Byte2(v2, v3) < 256
  {
  }

  /** Regrouping bytes as sextets and back gives the bytes again. */
  lemma RegroupBytes(x0: int, x1: int, x2: int)
    requires 0 <= x0 < 256 && 0 <= x1 < 256 && 0 <= x2 < 256
    ensures Byte0(Sextet0(x0), Sextet1(x0, x1)) == x0
    ensures Byte1(Sextet1(x0, x1), Sextet2(x1, x2)) == x1
    ensures Byte2(Sextet2(x1, x2), Sextet3(x2)) == x2
  {
  }

  /** Regrouping sextets as bytes and back gives the sextets again. */
  lemma RegroupSextets(v0: int, v1: int, v2: int, v3: int)
    requires 0 <= v0 < 64 && 0 <= v1 < 64 && 0 <= v2 < 64 && 0 <= v3 < 64
    ensures Sextet0(Byte0(v0, v1)) == v0
    ensures Sextet1(Byte0(v0, v1), Byte1(v1, v2)) == v1
    ensures Sextet2(Byte1(v1, v2), Byte2(v2, v3)) == v2
    ensures Sextet3(Byte2(v2, v3)) == v3
  {
  }

  /** Three bytes as four characters: 8 + 8 + 8 bits regrouped as 6 + 6 + 6 + 6. */
  function EncodeBlock(b0: uint8, b1: uint8, b2: uint8): (s: string)
    ensures |s| == 4 && forall i :: 0 <= i < 4 ==> IsAlphabetChar(s[i])
  {
    var x0, x1, x2 := b0 as int, b1 as int, b2 as int;
    SextetsInRange(x0, x1, x2);
    [SextetChar(Sextet0(x0)), SextetChar(Sextet1(x0, x1)), SextetChar(Sextet2(x1, x2)), SextetChar(Sextet3(x2))]
  }

  /** A last group of one byte: two characters and two `=`. */
  function PadOne(b0: uint8): (s: string)
    ensures |s| == 4 && IsAlphabetChar(s[0]) && IsAlphabetChar(s[1]) && s[2] == '=' && s[3] == '='
  {
    var x0 := b0 as int;
    SextetsInRange(x0, 0, 0);
    [SextetChar(Sextet0(x0)), SextetChar(Sextet1(x0, 0)), '=', '=']
  }

  /** A last group of two bytes: three characters and one `=`. */
  function PadTwo(b0: uint8, b1: uint8): (s: string)
    ensures |s| == 4 && IsAlphabetChar(s[0]) && IsAlphabetChar(s[1]) && IsAlphabetChar(s[2]) && s[3] == '='
  {
    var x0, x1 := b0 as int, b1 as int;
    SextetsInRange(x0, x1, 0);
    [SextetChar(Sextet0(x0)), SextetChar(Sextet1(x0, x1)), SextetChar(Sextet2(x1, 0)), '=']
  }

  /**
   * `base64_encode`: four characters for every three bytes; a last group of
   * one or two bytes is padded with `=` up to four characters.
   */
  function Encode(b: seq<uint8>): (s: string)
    ensures |s| == EncodedLength(|b|)
    decreases |b|
  {
    if |b| == 0 then ""
    else if |b| == 1 then PadOne(b[0])
    else if |b| == 2 then PadTwo(b[0], b[1])
    else EncodeBlock(b[0], b[1], b[2]) + Encode(b[3..])
  }

  /** Four characters for each group of up to three bytes. */
  function EncodedLength(n: nat): nat {
    if n == 0 then 0 else if n <= 3 then 4 else 4 + EncodedLength(n - 3)
  }

  /** The encoded length in closed form: four times the number of three-byte groups, rounded up. */
  lemma {:induction false} EncodeLength(b: seq<uint8>)
    ensures |Encode(b)| == 4 * ((|b| + 2) / 3)
  {
    EncodedLengthClosedForm(|b|);
  }

  lemma {:induction false} EncodedLengthClosedForm(n: nat)
    ensures EncodedLength(n) == 4 * ((n + 2) / 3)
  {
    if n > 3 {
      EncodedLengthClosedForm(n - 3);
      assert (n + 2) / 3 == (n - 1) / 3 + 1;
    }
  }

  /** For more than two bytes, the first block is encoded on its own. */
  lemma EncodeFirstBlock(b: seq<uint8>)
    requires |b| > 2
    ensures Encode(b) == EncodeBlock(b[0], b[1], b[2]) + Encode(b[3..])
  {
  }

  /** The encoding is written in the alphabet, plus the padding character. */
  lemma {:induction false} EncodeAlphabet(b: seq<uint8>)
    ensures forall i :: 0 <= i < |Encode(b)| ==> IsAlphabetChar(Encode(b)[i]) || Encode(b)[i] == '='
    decreases |b|
  {
    if |b| > 2 {
      EncodeAlphabet(b[3..]);
      EncodeFirstBlock(b);
    }
  }

  /** Whole three-byte groups are encoded without any padding. */
  lemma {:induction false} EncodeUnpadded(b: seq<uint8>)
    requires |b| % 3 == 0
    ensures forall i :: 0 <= i < |Encode(b)| ==> Encode(b)[i] != '='
    decreases |b|
  {
    if |b| > 0 {
      var block, rest := EncodeBlock(b[0], b[1], b[2]), Encode(b[3..]);
      assert |b[3..]| % 3 == 0;
      EncodeUnpadded(b[3..]);
      EncodeFirstBlock(b);
      forall i | 0 <= i < |Encode(b)|
        ensures Encode(b)[i] != '='
      {
        if i < 4 {
          assert Encode(b)[i] == block[i];
        } else {
          assert Encode(b)[i] == rest[i - 4];
        }
      }
    }
  }

  /** A last group of one or two bytes leaves padding at the end of the text. */
  lemma {:induction false} EncodePadded(b: seq<uint8>)
    requires |b| % 3 != 0
    ensures |Encode(b)| > 0 && Encode(b)[|Encode(b)| - 1] == '='
    decreases |b|
  {
    if |b| > 2 {
      var block, rest := EncodeBlock(b[0], b[1], b[2]), Encode(b[3..]);
      assert |b[3..]| % 3 == |b| % 3;
      EncodePadded(b[3..]);
      EncodeFirstBlock(b);
      assert Encode(b)[|Encode(b)| - 1] == rest[|rest| - 1];
    }
  }

  /** Four characters of the alphabet as three bytes. */
  function DecodeBlock(c0: char, c1: char, c2: char, c3: char): (b: seq<uint8>)
    requires IsAlphabetChar(c0) && IsAlphabetChar(c1) && IsAlphabetChar(c2) && IsAlphabetChar(c3)
    ensures |b| == 3
  {
    var v0, v1, v2, v3 := CharSextet(c0), CharSextet(c1), CharSextet(c2), CharSextet(c3);
    BytesInRange(v0, v1, v2, v3);
    [Byte0(v0, v1) as uint8, Byte1(v1, v2) as uint8, Byte2(v2, v3) as uint8]
  }

  /** Whole four-character groups of the alphabet; no padding. */
  predicate IsUnpadded(s: string) {
    |s| % 4 == 0 && forall i :: 0 <= i < |s| ==> IsAlphabetChar(s[i])
  }

  /** Decodes unpadded text; anything else is refused. */
  function Decode(s: string): (r: Option<seq<uint8>>)
    ensures r.Some? <==> IsUnpadded(s)
    ensures r.Some? ==> |r.value| == 3 * (|s| / 4)
    decreases |s|
  {
    if |s| == 0 then
      Some([])
    else if |s| < 4 || !(IsAlphabetChar(s[0]) && IsAlphabetChar(s[1]) && IsAlphabetChar(s[2]) && IsAlphabetChar(s[3])) then
      None
    else
      match Decode(s[4..])
      case None => None
      case Some(rest) => Some(DecodeBlock(s[0], s[1], s[2], s[3]) + rest)
  }

  lemma BlockRoundTrip(b0: uint8, b1: uint8, b2: uint8)
    ensures var s := EncodeBlock(b0, b1, b2);
            DecodeBlock(s[0], s[1], s[2], s[3]) == [b0, b1, b2]
  {
    var x0, x1, x2 := b0 as int, b1 as int, b2 as int;
    SextetsInRange(x0, x1, x2);
    SextetRoundTrip(Sextet0(x0));
    SextetRoundTrip(Sextet1(x0, x1));
    SextetRoundTrip(Sextet2(x1, x2));
    SextetRoundTrip(Sextet3(x2));
    RegroupBytes(x0, x1, x2);
  }

  lemma BlockRoundTripBack(c0: char, c1: char, c2: char, c3: char)
    requires IsAlphabetChar(c0) && IsAlphabetChar(c1) && IsAlphabetChar(c2) && IsAlphabetChar(c3)
    ensures var b := DecodeBlock(c0, c1, c2, c3);
            EncodeBlock(b[0], b[1], b[2]) == [c0, c1, c2, c3]
  {
    var v0, v1, v2, v3 := CharSextet(c0), CharSextet(c1), CharSextet(c2), CharSextet(c3);
    BytesInRange(v0, v1, v2, v3);
    RegroupSextets(v0, v1, v2, v3);
  }

  lemma FirstThree<T>(s: seq<T>)
    requires |s| >= 3
    ensures s == [s[0], s[1], s[2]] + s[3..]
  {
  }

  lemma FirstFour<T>(s: seq<T>)
    requires |s| >= 4
    ensures s == [s[0], s[1], s[2], s[3]] + s[4..]
  {
  }

  /** Decoding undoes encoding, for every byte string whose length is a multiple of three. */
  lemma {:induction false} DecodeEncode(b: seq<uint8>)
    requires |b| % 3 == 0
    ensures Decode(Encode(b)) == Some(b)
    decreases |b|
  {
    if |b| > 0 {
      var s := Encode(b);
      var block, rest := EncodeBlock(b[0], b[1], b[2]), Encode(b[3..]);
      EncodeFirstBlock(b);
      assert s[..4] == block && s[4..] == rest;
      assert |b[3..]| % 3 == 0;
      DecodeEncode(b[3..]);
      BlockRoundTrip(b[0], b[1], b[2]);
      assert s[0] == block[0] && s[1] == block[1] && s[2] == block[2] && s[3] == block[3];
      assert Decode(s) == Some(DecodeBlock(s[0], s[1], s[2], s[3]) + b[3..]);
      FirstThree(b);
    }
  }

  /** Encoding undoes decoding: unpadded text is the encoding of exactly one byte string. */
  lemma {:induction false} EncodeDecode(s: string)
    requires IsUnpadded(s)
    ensures Decode(s).Some? && Encode(Decode(s).value) == s
    decreases |s|
  {
    if |s| > 0 {
      var b := Decode(s).value;
      var rest := Decode(s[4..]).value;
      assert b == DecodeBlock(s[0], s[1], s[2], s[3]) + rest;
      EncodeDecode(s[4..]);
      BlockRoundTripBack(s[0], s[1], s[2], s[3]);
      assert b[3..] == rest;
      FirstFour(s);
    }
  }
}
