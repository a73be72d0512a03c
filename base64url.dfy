/**
 * The base64url encoding of section 5 of RFC 4648, without padding, as
 * `Buffer.toString('base64url')` produces it, and its inverse.
 */
module Base64Url {
  import opened Wrappers

  type Sextet = d: int | 0 <= d < 64

  /** The URL- and filename-safe alphabet: A-Z, a-z, 0-9, '-' and '_'. */
  function Digit(d: Sextet): char
  {
    if d < 26 then ('A' as int + d) as char
    else if d < 52 then ('a' as int + d - 26) as char
    else if d < 62 then ('0' as int + d - 52) as char
    else if d == 62 then '-'
    else '_'
  }

  /** The sextet a character of the alphabet stands for, None for any other character. */
  function Value(c: char): (r: Option<Sextet>)
    ensures r.Some? ==> Digit(r.value) == c
  {
    if 'A' <= c <= 'Z' then Some(c as int - 'A' as int)
    else if 'a' <= c <= 'z' then Some(c as int - 'a' as int + 26)
    else if '0' <= c <= '9' then Some(c as int - '0' as int + 52)
    else if c == '-' then Some(62)
    else if c == '_' then Some(63)
    else None
  }

  lemma ValueOfDigit(d: Sextet)
    ensures Value(Digit(d)) == Some(d)
  {
  }

  /** Three bytes become four characters, six bits each, most significant first. */
  function EncodeGroup(b0: Byte, b1: Byte, b2: Byte): string
  {
    [Digit(b0 / 4), Digit((b0 % 4) * 16 + b1 / 16), Digit((b1 % 16) * 4 + b2 / 64), Digit(b2 % 64)]
  }

  /** `toString('base64url')`: a group of four characters per three bytes, two or three for a last one or two. */
  function Encode(b: seq<Byte>): string
  {
    if |b| == 0 then ""
    else if |b| == 1 then [Digit(b[0] / 4), Digit((b[0] % 4) * 16)]
    else if |b| == 2 then [Digit(b[0] / 4), Digit((b[0] % 4) * 16 + b[1] / 16), Digit((b[1] % 16) * 4)]
    else EncodeGroup(b[0], b[1], b[2]) + Encode(b[3..])
  }

  function Decode(s: string): Option<seq<Byte>>
  {
    if |s| == 0 then Some([])
    else if |s| == 1 then None
    else
      var d0, d1 := Value(s[0]), Value(s[1]);
      if d0.None? || d1.None? then None
      else if |s| == 2 then Some([d0.value * 4 + d1.value / 16])
      else
        var d2 := Value(s[2]);
        if d2.None? then None
        else if |s| == 3 then Some([d0.value * 4 + d1.value / 16, (d1.value % 16) * 16 + d2.value / 4])
        else
          var d3 := Value(s[3]);
          if d3.None? then None
          else
            var group := [d0.value * 4 + d1.value / 16, (d1.value % 16) * 16 + d2.value / 4,
                          (d2.value % 4) * 64 + d3.value];
            match Decode(s[4..])
            case None => None
            case Some(rest) => Some(group + rest)
  }

  lemma DecodeGroup(b0: Byte, b1: Byte, b2: Byte, rest: string)
    requires Decode(rest).Some?
    ensures Decode(EncodeGroup(b0, b1, b2) + rest) == Some([b0, b1, b2] + Decode(rest).value)
  {
    var d0, d1, d2, d3 := b0 / 4, (b0 % 4) * 16 + b1 / 16, (b1 % 16) * 4 + b2 / 64, b2 % 64;
    ValueOfDigit(d0);
    ValueOfDigit(d1);
    ValueOfDigit(d2);
    ValueOfDigit(d3);
    var s := EncodeGroup(b0, b1, b2) + rest;
    assert s[..4] == [Digit(d0), Digit(d1), Digit(d2), Digit(d3)];
    assert s[4..] == rest;
    assert d1 / 16 == b0 % 4 && d1 % 16 == b1 / 16;
    assert d2 / 4 == b1 % 16 && d2 % 4 == b2 / 64;
  }

  lemma DecodeTail1(b0: Byte)
    ensures Decode(Encode([b0])) == Some([b0])
  {
    ValueOfDigit(b0 / 4);
    ValueOfDigit((b0 % 4) * 16);
  }

  lemma DecodeTail2(b0: Byte, b1: Byte)
    ensures Decode(Encode([b0, b1])) == Some([b0, b1])
  {
    var d0, d1, d2 := b0 / 4, (b0 % 4) * 16 + b1 / 16, (b1 % 16) * 4;
    ValueOfDigit(d0);
    ValueOfDigit(d1);
    ValueOfDigit(d2);
    var s := Encode([b0, b1]);
    assert s == [Digit(d0), Digit(d1), Digit(d2)];
    assert d1 / 16 == b0 % 4 && d1 % 16 == b1 / 16 && d2 / 4 == b1 % 16;
    assert Decode(s) == Some([d0 * 4 + d1 / 16, (d1 % 16) * 16 + d2 / 4]);
  }

  /** Decoding undoes encoding, for every byte sequence. */
  lemma {:induction false} DecodeEncode(b: seq<Byte>)
    ensures Decode(Encode(b)) == Some(b)
  {
    if |b| == 1 {
      DecodeShort1(b);
    } else if |b| == 2 {
      DecodeShort2(b);
    } else if |b| >= 3 {
      var tail := b[3..];
      DecodeEncode(tail);
      EncodeFront(b);
      DecodeGroup(b[0], b[1], b[2], Encode(tail));
      assert [b[0], b[1], b[2]] + tail == b;
    }
  }

  lemma DecodeShort1(b: seq<Byte>)
    requires |b| == 1
    ensures Decode(Encode(b)) == Some(b)
  {
    assert b == [b[0]];
    DecodeTail1(b[0]);
  }

  lemma DecodeShort2(b: seq<Byte>)
    requires |b| == 2
    ensures Decode(Encode(b)) == Some(b)
  {
    assert b == [b[0], b[1]];
    DecodeTail2(b[0], b[1]);
  }

  /** Three bytes or more encode as a group of four characters followed by the encoding of the rest. */
  lemma EncodeFront(b: seq<Byte>)
    requires |b| >= 3
    ensures Encode(b) == EncodeGroup(b[0], b[1], b[2]) + Encode(b[3..])
  {
  }
}
