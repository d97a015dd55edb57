/** UTF-8 as Python's str.encode() and bytes.decode("utf-8") (strict) use it: shortest forms
    only, no surrogates, nothing above U+10FFFF. */
module Utf8 {
  import opened Wrappers

  newtype byte = x: int | 0 <= x < 256

  predicate IsCont(b: byte) { 0x80 <= b <= 0xBF }

  function EncodeChar(c: char): (r: seq<byte>)
    ensures 1 <= |r| <= 4
  {
    var n := c as int;
    if n < 0x80 then [n as byte]
    else if n < 0x800 then [(0xC0 + n / 64) as byte, (0x80 + n % 64) as byte]
    else if n < 0x10000 then
      [(0xE0 + n / 4096) as byte, (0x80 + (n / 64) % 64) as byte, (0x80 + n % 64) as byte]
    else
      [(0xF0 + n / 262144) as byte, (0x80 + (n / 4096) % 64) as byte,
       (0x80 + (n / 64) % 64) as byte, (0x80 + n % 64) as byte]
  }

  /** str.encode(): the characters' encodings, concatenated. */
  function Encode(s: string): (r: seq<byte>)
    ensures |s| <= |r| <= 4 * |s|
  {
    if s == [] then [] else EncodeChar(s[0]) + Encode(s[1..])
  }

  function Lo3(b0: int): int { if b0 == 0xE0 then 0xA0 else 0x80 }
  function Hi3(b0: int): int { if b0 == 0xED then 0x9F else 0xBF }
  function Lo4(b0: int): int { if b0 == 0xF0 then 0x90 else 0x80 }
  function Hi4(b0: int): int { if b0 == 0xF4 then 0x8F else 0xBF }

  /** The first character of `b` and the number of bytes it takes, or None when `b` does not
      start with a well-formed sequence. */
  function DecodeFirst(b: seq<byte>): (r: Option<(char, nat)>)
    requires |b| > 0
    ensures r.Some? ==> 1 <= r.value.1 <= |b| && r.value.1 <= 4
  {
    var b0 := b[0] as int;
    if b0 < 0x80 then Some((b0 as char, 1))
    else if 0xC2 <= b0 <= 0xDF then
      if |b| >= 2 && IsCont(b[1]) then
        Some((((b0 - 0xC0) * 64 + (b[1] as int - 0x80)) as char, 2))
      else None
    else if 0xE0 <= b0 <= 0xEF then
      if |b| >= 3 && Lo3(b0) <= b[1] as int <= Hi3(b0) && IsCont(b[2]) then
        Some((((b0 - 0xE0) * 4096 + (b[1] as int - 0x80) * 64 + (b[2] as int - 0x80)) as char, 3))
      else None
    else if 0xF0 <= b0 <= 0xF4 then
      if |b| >= 4 && Lo4(b0) <= b[1] as int <= Hi4(b0) && IsCont(b[2]) && IsCont(b[3]) then
        Some((((b0 - 0xF0) * 262144 + (b[1] as int - 0x80) * 4096 + (b[2] as int - 0x80) * 64
               + (b[3] as int - 0x80)) as char, 4))
      else None
    else None
  }

  /** bytes.decode("utf-8"); None where Python raises UnicodeDecodeError. */
  function Decode(b: seq<byte>): (r: Option<string>)
    ensures r.Some? ==> |r.value| <= |b|
    decreases |b|
  {
    if b == [] then Some([])
    else match DecodeFirst(b)
      case None => None
      case Some((c, n)) =>
        match Decode(b[n..])
        case None => None
        case Some(rest) => Some([c] + rest)
  }

  lemma DivMod64(n: int)
    requires n >= 0
    ensures n == 64 * (n / 64) + n % 64 && 0 <= n % 64 < 64
  { }

  lemma DecodeFirstOfEncoded2(c: char, rest: seq<byte>)
    requires 0x80 <= c as int < 0x800
    ensures DecodeFirst(EncodeChar(c) + rest) == Some((c, 2))
  {
    var n := c as int;
    DivMod64(n);
    var b := EncodeChar(c) + rest;
    assert b[0] as int == 0xC0 + n / 64 && b[1] as int == 0x80 + n % 64;
  }

  lemma DecodeFirstOfEncoded3(c: char, rest: seq<byte>)
    requires 0x800 <= c as int < 0x10000
    ensures DecodeFirst(EncodeChar(c) + rest) == Some((c, 3))
  {
    var n := c as int;
    var q1 := n / 64;
    DivMod64(n);
    DivMod64(q1);
    assert n / 4096 == q1 / 64;
    var b := EncodeChar(c) + rest;
    assert b[0] as int == 0xE0 + q1 / 64 && b[1] as int == 0x80 + q1 % 64 && b[2] as int == 0x80 + n % 64;
    assert (q1 / 64) * 4096 + (q1 % 64) * 64 + n % 64 == n;
  }

  lemma DecodeFirstOfEncoded4(c: char, rest: seq<byte>)
    requires 0x10000 <= c as int
    ensures DecodeFirst(EncodeChar(c) + rest) == Some((c, 4))
  {
    var n := c as int;
    var q1 := n / 64;
    var q2 := q1 / 64;
    DivMod64(n);
    DivMod64(q1);
    DivMod64(q2);
    assert n / 4096 == q2;
    assert n / 262144 == q2 / 64;
    var b := EncodeChar(c) + rest;
    assert b[0] as int == 0xF0 + q2 / 64 && b[1] as int == 0x80 + q2 % 64;
    assert b[2] as int == 0x80 + q1 % 64 && b[3] as int == 0x80 + n % 64;
    assert (q2 / 64) * 262144 + (q2 % 64) * 4096 + (q1 % 64) * 64 + n % 64 == n;
  }

  lemma DecodeFirstOfEncoded(c: char, rest: seq<byte>)
    ensures DecodeFirst(EncodeChar(c) + rest) == Some((c, |EncodeChar(c)|))
  {
    var n := c as int;
    if n < 0x80 {
    } else if n < 0x800 {
      DecodeFirstOfEncoded2(c, rest);
    } else if n < 0x10000 {
      DecodeFirstOfEncoded3(c, rest);
    } else {
      DecodeFirstOfEncoded4(c, rest);
    }
  }

  /** Decoding what was encoded gives the text back. */
  lemma {:induction false} DecodeEncode(s: string)
    ensures Decode(Encode(s)) == Some(s)
  {
    if s != [] {
      var e := EncodeChar(s[0]);
      DecodeFirstOfEncoded(s[0], Encode(s[1..]));
      assert (e + Encode(s[1..]))[|e|..] == Encode(s[1..]);
      DecodeEncode(s[1..]);
      assert s == [s[0]] + s[1..];
    }
  }

  lemma EncodeOfDecoded2(b: seq<byte>)
    requires |b| >= 2 && 0xC2 <= b[0] <= 0xDF && DecodeFirst(b).Some?
    ensures EncodeChar(DecodeFirst(b).value.0) == b[..2]
  {
    var x, y := b[0] as int - 0xC0, b[1] as int - 0x80;
    var n := x * 64 + y;
    assert DecodeFirst(b).value.0 as int == n;
    assert n / 64 == x && n % 64 == y;
  }

  lemma EncodeOfDecoded3(b: seq<byte>)
    requires |b| >= 3 && 0xE0 <= b[0] <= 0xEF && DecodeFirst(b).Some?
    ensures EncodeChar(DecodeFirst(b).value.0) == b[..3]
  {
    var x, y, z := b[0] as int - 0xE0, b[1] as int - 0x80, b[2] as int - 0x80;
    var n := x * 4096 + y * 64 + z;
    assert DecodeFirst(b).value.0 as int == n;
    assert n / 64 == x * 64 + y && n % 64 == z;
    assert (x * 64 + y) % 64 == y && n / 4096 == x;
  }

  lemma EncodeOfDecoded4(b: seq<byte>)
    requires |b| >= 4 && 0xF0 <= b[0] <= 0xF4 && DecodeFirst(b).Some?
    ensures EncodeChar(DecodeFirst(b).value.0) == b[..4]
  {
    var w, x, y, z := b[0] as int - 0xF0, b[1] as int - 0x80, b[2] as int - 0x80, b[3] as int - 0x80;
    var n := w * 262144 + x * 4096 + y * 64 + z;
    assert DecodeFirst(b).value.0 as int == n;
    assert n / 64 == w * 4096 + x * 64 + y && n % 64 == z;
    assert (w * 4096 + x * 64 + y) % 64 == y;
    assert n / 4096 == w * 64 + x && (w * 64 + x) % 64 == x;
    assert n / 262144 == w;
  }

  lemma EncodeOfDecodedFirst(b: seq<byte>)
    requires |b| > 0 && DecodeFirst(b).Some?
    ensures EncodeChar(DecodeFirst(b).value.0) == b[..DecodeFirst(b).value.1]
  {
    var b0 := b[0] as int;
    if b0 < 0x80 {
    } else if 0xC2 <= b0 <= 0xDF {
      EncodeOfDecoded2(b);
    } else if 0xE0 <= b0 <= 0xEF {
      EncodeOfDecoded3(b);
    } else {
      EncodeOfDecoded4(b);
    }
  }

  /** Whatever decodes is the encoding of what it decodes to: the decoder accepts only the
      shortest form of each character. */
  lemma {:induction false} EncodeDecode(b: seq<byte>)
    requires Decode(b).Some?
    ensures Encode(Decode(b).value) == b
    decreases |b|
  {
    if b != [] {
      var c := DecodeFirst(b).value.0;
      var n := DecodeFirst(b).value.1;
      EncodeOfDecodedFirst(b);
      EncodeDecode(b[n..]);
      var s := Decode(b).value;
      assert s == [c] + Decode(b[n..]).value;
      assert s[0] == c && s[1..] == Decode(b[n..]).value;
      assert b == b[..n] + b[n..];
    }
  }
}
