/**
 * Base64 with the standard alphabet and `=` padding, as in section 4 of RFC 4648
 * (what Python's `base64.b64encode(...).decode('utf-8')` yields), together with
 * its decoder, which inverts it.
 */
module Base64 {
  import opened Wrappers

  type byte = x: int | 0 <= x < 256

  /** The character that encodes the 6-bit value `v` (Table 1 of RFC 4648:
      `A`-`Z` for 0-25, `a`-`z` for 26-51, `0`-`9` for 52-61, then `+` and `/`). */
  function SextetChar(v: nat): (c: char)
    requires v < 64
    ensures c != '='
  {
    if v < 26 then ('A' as int + v) as char
    else if v < 52 then ('a' as int + (v - 26)) as char
    else if v < 62 then ('0' as int + (v - 52)) as char
    else if v == 62 then '+'
    else '/'
  }

  /** The 6-bit value a character of the alphabet stands for. */
  function SextetValue(c: char): Option<nat> {
    if 'A' <= c <= 'Z' then Some(c as int - 'A' as int)
    else if 'a' <= c <= 'z' then Some(c as int - 'a' as int + 26)
    else if '0' <= c <= '9' then Some(c as int - '0' as int + 52)
    else if c == '+' then Some(62)
    else if c == '/' then Some(63)
    else None
  }

  lemma SextetRoundTrip(v: nat)
    requires v < 64
    ensures SextetValue(SextetChar(v)) == Some(v)
  {
  }

  /** Three bytes become four characters (section 4 of RFC 4648: 24 bits, four 6-bit groups). */
  function EncodeGroup(x: byte, y: byte, z: byte): string {
    [SextetChar(x / 4), SextetChar((x % 4) * 16 + y / 16),
     SextetChar((y % 16) * 4 + z / 64), SextetChar(z % 64)]
  }

  /** `b64encode(data)`: a final quantum of one byte gives two characters and `==`,
      a final quantum of two bytes gives three characters and `=`. */
  function Encode(data: seq<byte>): (r: string)
    ensures |r| == 4 * ((|data| + 2) / 3)
    decreases |data|
  {
    if |data| == 0 then []
    else if |data| == 1 then
      [SextetChar(data[0] / 4), SextetChar((data[0] % 4) * 16), '=', '=']
    else if |data| == 2 then
      [SextetChar(data[0] / 4), SextetChar((data[0] % 4) * 16 + data[1] / 16),
       SextetChar((data[1] % 16) * 4), '=']
    else
      EncodeGroup(data[0], data[1], data[2]) + Encode(data[3..])
  }

  /** Four characters without padding back to three bytes. */
  function DecodeGroup(s: string): Option<seq<byte>>
    requires |s| == 4
  {
    match (SextetValue(s[0]), SextetValue(s[1]), SextetValue(s[2]), SextetValue(s[3]))
    case (Some(a), Some(b), Some(c), Some(d)) =>
      if a < 64 && b < 64 && c < 64 && d < 64 then
        Some([a * 4 + b / 16, (b % 16) * 16 + c / 4, (c % 4) * 64 + d])
      else None
    case _ => None
  }

  /** The last quantum, which may carry one or two padding characters. */
  function DecodeLast(s: string): Option<seq<byte>>
    requires |s| == 4
  {
    if s[2] == '=' && s[3] == '=' then
      match (SextetValue(s[0]), SextetValue(s[1]))
      case (Some(a), Some(b)) =>
        if a < 64 && b < 64 then Some([a * 4 + b / 16]) else None
      case _ => None
    else if s[3] == '=' then
      match (SextetValue(s[0]), SextetValue(s[1]), SextetValue(s[2]))
      case (Some(a), Some(b), Some(c)) =>
        if a < 64 && b < 64 && c < 64 then Some([a * 4 + b / 16, (b % 16) * 16 + c / 4]) else None
      case _ => None
    else DecodeGroup(s)
  }

  /** `b64decode(s)` for padded input; `None` where Python raises `binascii.Error`. */
  function Decode(s: string): Option<seq<byte>>
    decreases |s|
  {
    if |s| == 0 then Some([])
    else if |s| < 4 then None
    else if |s| == 4 then DecodeLast(s)
    else
      match (DecodeGroup(s[..4]), Decode(s[4..]))
      case (Some(g), Some(rest)) => Some(g + rest)
      case _ => None
  }

  lemma GroupRoundTrip(x: byte, y: byte, z: byte)
    ensures DecodeGroup(EncodeGroup(x, y, z)) == Some([x, y, z])
  {
    var a, b, c, d := x / 4, (x % 4) * 16 + y / 16, (y % 16) * 4 + z / 64, z % 64;
    GroupArithmetic(x, y, z);
    SextetRoundTrip(a);
    SextetRoundTrip(b);
    SextetRoundTrip(c);
    SextetRoundTrip(d);
    assert DecodeGroup(EncodeGroup(x, y, z)) == Some([a * 4 + b / 16, (b % 16) * 16 + c / 4, (c % 4) * 64 + d]);
  }

  /** The four sextets of three bytes put back together give the bytes. */
  lemma GroupArithmetic(x: byte, y: byte, z: byte)
    ensures var b, c := (x % 4) * 16 + y / 16, (y % 16) * 4 + z / 64;
      && b < 64 && c < 64
      && (x / 4) * 4 + b / 16 == x
      && (b % 16) * 16 + c / 4 == y
      && (c % 4) * 64 + z % 64 == z
  {
    var b := (x % 4) * 16 + y / 16;
    var c := (y % 16) * 4 + z / 64;
    assert b / 16 == x % 4 && b % 16 == y / 16;
    assert c / 4 == y % 16 && c % 4 == z / 64;
  }

  lemma DecodeEncodeOne(x: byte)
    ensures Decode(Encode([x])) == Some([x])
  {
    SextetRoundTrip(x / 4);
    SextetRoundTrip((x % 4) * 16);
    assert DecodeLast(Encode([x])) == Some([x]);
  }

  lemma DecodeEncodeTwo(x: byte, y: byte)
    ensures Decode(Encode([x, y])) == Some([x, y])
  {
    var e := Encode([x, y]);
    var b := (x % 4) * 16 + y / 16;
    assert (x / 4) * 4 + b / 16 == x;
    assert (b % 16) * 16 + ((y % 16) * 4) / 4 == y;
    assert e[2] != '=' && e[3] == '=';
    SextetRoundTrip(x / 4);
    SextetRoundTrip(b);
    SextetRoundTrip((y % 16) * 4);
    assert DecodeLast(e) == Some([x, y]);
  }

  lemma DecodeEncodeThree(x: byte, y: byte, z: byte)
    ensures Decode(Encode([x, y, z])) == Some([x, y, z])
  {
    var e := Encode([x, y, z]);
    assert e == EncodeGroup(x, y, z);
    GroupRoundTrip(x, y, z);
    assert DecodeLast(e) == DecodeGroup(e);
  }

  /** Decoding inverts encoding, for every byte string. */
  lemma {:induction false} DecodeEncode(data: seq<byte>)
    ensures Decode(Encode(data)) == Some(data)
    decreases |data|
  {
    if |data| == 1 {
      assert data == [data[0]];
      DecodeEncodeOne(data[0]);
    } else if |data| == 2 {
      assert data == [data[0], data[1]];
      DecodeEncodeTwo(data[0], data[1]);
    } else if |data| == 3 {
      assert data == [data[0], data[1], data[2]];
      DecodeEncodeThree(data[0], data[1], data[2]);
    } else if |data| > 3 {
      DecodeEncode(data[3..]);
      DecodeEncodeStep(data, EncodeGroup(data[0], data[1], data[2]), Encode(data[3..]));
    }
  }

  /** One step of the induction: the first three bytes and the rest. */
  lemma DecodeEncodeStep(data: seq<byte>, g: string, t: string)
    requires |data| > 3
    requires g == EncodeGroup(data[0], data[1], data[2]) && t == Encode(data[3..])
    requires Decode(t) == Some(data[3..])
    ensures Decode(Encode(data)) == Some(data)
  {
    EncodeSplit(data);
    GroupRoundTrip(data[0], data[1], data[2]);
    DecodePrefixGroup(g, t, [data[0], data[1], data[2]], data[3..]);
    assert [data[0], data[1], data[2]] + data[3..] == data;
  }

  /** More than three bytes encode as a full group followed by the rest. */
  lemma EncodeSplit(data: seq<byte>)
    requires |data| > 3
    ensures Encode(data) == EncodeGroup(data[0], data[1], data[2]) + Encode(data[3..])
  {
  }

  /** A full unpadded group followed by a non-empty encoding decodes piecewise. */
  lemma DecodePrefixGroup(g: string, t: string, a: seq<byte>, b: seq<byte>)
    requires |g| == 4 && |t| > 0
    requires DecodeGroup(g) == Some(a) && Decode(t) == Some(b)
    ensures Decode(g + t) == Some(a + b)
  {
    var s := g + t;
    assert s[..4] == g && s[4..] == t;
  }

  /** The encoding of a byte string whose length leaves remainder 1 when divided by
      three ends in two padding characters. */
  lemma {:induction false} EncodeEndsWithDoublePad(data: seq<byte>)
    requires |data| % 3 == 1
    ensures var e := Encode(data); |e| >= 2 && e[|e| - 2..] == "=="
    decreases |data|
  {
    if |data| > 3 {
      EncodeEndsWithDoublePad(data[3..]);
      EncodeSplit(data);
      var e := Encode(data);
      var t := Encode(data[3..]);
      assert e[|e| - 2..] == t[|t| - 2..];
    } else {
      assert |data| == 1;
    }
  }
}
