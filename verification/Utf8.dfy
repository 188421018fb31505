/** UTF-8 (RFC 3629): `str::as_bytes` and `String::from_utf8`. */
module Utf8 {
  import opened Common

  function Tail(n: nat): byte {
    (0x80 + n % 64) as byte
  }

  function EncodeChar(c: char): seq<byte> {
    var n := c as int;
    if n < 0x80 then [n as byte]
    else if n < 0x800 then [(0xC0 + n / 64) as byte, Tail(n)]
    else if n < 0x1_0000 then [(0xE0 + n / 4096) as byte, Tail(n / 64), Tail(n)]
    else [(0xF0 + n / 262144) as byte, Tail(n / 4096), Tail(n / 64), Tail(n)]
  }

  function Encode(s: string): seq<byte> {
    if s == "" then [] else EncodeChar(s[0]) + Encode(s[1..])
  }

  predicate IsTail(b: byte) {
    0x80 <= b < 0xC0
  }

  function Bits(b: byte): nat
    requires IsTail(b)
  {
    b as nat - 0x80
  }

  /** The scalar value at the front of `b` and the number of its bytes. Overlong forms, surrogates and values above
      U+10FFFF are not accepted. */
  function DecodeChar(b: seq<byte>): Option<(char, nat)>
    requires b != []
  {
    var lead := b[0] as nat;
    if lead < 0x80 then Some((lead as char, 1))
    else if 0xC0 <= lead < 0xE0 then
      if |b| >= 2 && IsTail(b[1]) then
        var n := (lead - 0xC0) * 64 + Bits(b[1]);
        if n >= 0x80 then Some((n as char, 2)) else None
      else None
    else if 0xE0 <= lead < 0xF0 then
      if |b| >= 3 && IsTail(b[1]) && IsTail(b[2]) then
        var n := (lead - 0xE0) * 4096 + Bits(b[1]) * 64 + Bits(b[2]);
        if n >= 0x800 && !(0xD800 <= n < 0xE000) then Some((n as char, 3)) else None
      else None
    else if 0xF0 <= lead < 0xF8 then
      if |b| >= 4 && IsTail(b[1]) && IsTail(b[2]) && IsTail(b[3]) then
        var n := (lead - 0xF0) * 262144 + Bits(b[1]) * 4096 + Bits(b[2]) * 64 + Bits(b[3]);
        if 0x1_0000 <= n < 0x11_0000 then Some((n as char, 4)) else None
      else None
    else None
  }

  function Decode(b: seq<byte>): Option<string>
    decreases |b|
  {
    if b == [] then Some("")
    else
      match DecodeChar(b)
      case None => None
      case Some((c, n)) =>
        if n == 0 || n > |b| then None
        else
          match Decode(b[n..])
          case None => None
          case Some(rest) => Some([c] + rest)
  }

  lemma TwoDigits(n: nat)
    ensures n / 64 * 64 + n % 64 == n
  {
  }

  lemma ThreeDigits(n: nat)
    ensures n / 4096 * 4096 + n / 64 % 64 * 64 + n % 64 == n
  {
    var q := n / 64;
    assert n / 4096 == q / 64;
    TwoDigits(q);
    TwoDigits(n);
  }

  lemma FourDigits(n: nat)
    ensures n / 262144 * 262144 + n / 4096 % 64 * 4096 + n / 64 % 64 * 64 + n % 64 == n
  {
    var q := n / 4096;
    assert n / 262144 == q / 64;
    TwoDigits(q);
    ThreeDigits(n);
  }

  lemma DecodeTwo(c: char, rest: seq<byte>)
    requires 0x80 <= c as int < 0x800
    ensures DecodeChar(EncodeChar(c) + rest) == Some((c, 2))
  {
    TwoDigits(c as int);
  }

  lemma DecodeThree(c: char, rest: seq<byte>)
    requires 0x800 <= c as int < 0x1_0000
    ensures DecodeChar(EncodeChar(c) + rest) == Some((c, 3))
  {
    ThreeDigits(c as int);
  }

  lemma DecodeFour(c: char, rest: seq<byte>)
    requires 0x1_0000 <= c as int
    ensures DecodeChar(EncodeChar(c) + rest) == Some((c, 4))
  {
    FourDigits(c as int);
  }

  lemma DecodeCharEncode(c: char, rest: seq<byte>)
    ensures DecodeChar(EncodeChar(c) + rest) == Some((c, |EncodeChar(c)|))
  {
    if c as int >= 0x1_0000 {
      DecodeFour(c, rest);
    } else if c as int >= 0x800 {
      DecodeThree(c, rest);
    } else if c as int >= 0x80 {
      DecodeTwo(c, rest);
    }
  }

  /** Decoding undoes encoding. */
  lemma {:induction false} DecodeEncode(s: string)
    ensures Decode(Encode(s)) == Some(s)
    decreases |s|
  {
    if s != "" {
      DecodeCharEncode(s[0], Encode(s[1..]));
      DecodeEncode(s[1..]);
      assert (EncodeChar(s[0]) + Encode(s[1..]))[|EncodeChar(s[0])|..] == Encode(s[1..]);
      assert s == [s[0]] + s[1..];
    }
  }

  lemma {:induction false} EncodeConcat(a: string, b: string)
    ensures Encode(a + b) == Encode(a) + Encode(b)
    decreases |a|
  {
    if a == "" {
      assert a + b == b;
    } else {
      assert (a + b)[1..] == a[1..] + b;
      EncodeConcat(a[1..], b);
    }
  }

  lemma CharOfTwo(b: seq<byte>)
    requires b != [] && DecodeChar(b).Some? && DecodeChar(b).value.1 == 2
    ensures |b| >= 2 && EncodeChar(DecodeChar(b).value.0) == b[..2]
  {
    var n := (b[0] as nat - 0xC0) * 64 + Bits(b[1]);
    assert n / 64 == b[0] as nat - 0xC0 && n % 64 == Bits(b[1]);
  }

  lemma CharOfThree(b: seq<byte>)
    requires b != [] && DecodeChar(b).Some? && DecodeChar(b).value.1 == 3
    ensures |b| >= 3 && EncodeChar(DecodeChar(b).value.0) == b[..3]
  {
    var high := (b[0] as nat - 0xE0) * 64 + Bits(b[1]);
    var n := high * 64 + Bits(b[2]);
    assert n / 64 == high && n % 64 == Bits(b[2]);
    assert n / 4096 == high / 64;
    assert high / 64 == b[0] as nat - 0xE0 && high % 64 == Bits(b[1]);
  }

  lemma CharOfFour(b: seq<byte>)
    requires b != [] && DecodeChar(b).Some? && DecodeChar(b).value.1 == 4
    ensures |b| >= 4 && EncodeChar(DecodeChar(b).value.0) == b[..4]
  {
    var top := (b[0] as nat - 0xF0) * 64 + Bits(b[1]);
    var high := top * 64 + Bits(b[2]);
    var n := high * 64 + Bits(b[3]);
    assert n / 64 == high && n % 64 == Bits(b[3]);
    assert n / 4096 == high / 64 && n / 262144 == high / 4096;
    assert high / 64 == top && high % 64 == Bits(b[2]) && high / 4096 == top / 64;
    assert top / 64 == b[0] as nat - 0xF0 && top % 64 == Bits(b[1]);
  }

  /** What is decoded is what the bytes encode: nothing but well-formed UTF-8 is accepted. */
  lemma {:induction false} EncodeDecode(b: seq<byte>)
    ensures Decode(b).Some? ==> Encode(Decode(b).value) == b
    decreases |b|
  {
    if b != [] && Decode(b).Some? {
      var (c, n) := DecodeChar(b).value;
      if n == 2 {
        CharOfTwo(b);
      } else if n == 3 {
        CharOfThree(b);
      } else if n == 4 {
        CharOfFour(b);
      }
      EncodeDecode(b[n..]);
      var rest := Decode(b[n..]).value;
      assert ([c] + rest)[1..] == rest;
      assert b == b[..n] + b[n..];
    }
  }
}
