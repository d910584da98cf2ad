/** UTF-8 text (RFC 3629): Rust's `str` is a byte string that is the encoding of a character
    sequence, byte offsets index the encoding, and `std::str::from_utf8` is a partial inverse. */
module Utf8 {
  import opened Options

  type Byte = b: int | 0 <= b < 256

  function EncodeChar(c: char): (bytes: seq<Byte>)
    ensures 1 <= |bytes| <= 4
  {
    var n := c as int;
    if n < 0x80 then
      [n]
    else if n < 0x800 then
      [0xC0 + n / 64, 0x80 + n % 64]
    else if n < 0x1_0000 then
      [0xE0 + n / 4096, 0x80 + n / 64 % 64, 0x80 + n % 64]
    else
      [0xF0 + n / 262144, 0x80 + n / 4096 % 64, 0x80 + n / 64 % 64, 0x80 + n % 64]
  }

  function Encode(s: string): seq<Byte> {
    if s == "" then [] else EncodeChar(s[0]) + Encode(s[1..])
  }

  predicate IsScalar(n: int) {
    0 <= n < 0xD800 || 0xE000 <= n < 0x11_0000
  }

  /** The six payload bits of a continuation byte. */
  function Payload(b: Byte): Option<int> {
    if 0x80 <= b < 0xC0 then Some(b - 0x80 as int) else None
  }

  /** The character with number `n`, provided `n` needs as long a sequence as it was given. */
  function Scalar(n: int, least: int): Option<char>
    requires 0 <= least
  {
    if least <= n && IsScalar(n) then Some(n as char) else None
  }

  function DecodeTwo(lead: int, b1: Option<int>): Option<char> {
    if b1.Some? then Scalar(lead * 64 + b1.value, 0x80) else None
  }

  function DecodeThree(lead: int, b1: Option<int>, b2: Option<int>): Option<char> {
    if b1.Some? && b2.Some? then Scalar(lead * 4096 + b1.value * 64 + b2.value, 0x800) else None
  }

  function DecodeFour(lead: int, b1: Option<int>, b2: Option<int>, b3: Option<int>): Option<char> {
    if b1.Some? && b2.Some? && b3.Some? then
      Scalar(lead * 262144 + b1.value * 4096 + b2.value * 64 + b3.value, 0x1_0000)
    else None
  }

  function PayloadAt(b: seq<Byte>, i: nat): Option<int> {
    if i < |b| then Payload(b[i]) else None
  }

  /** The first character of a byte string, or None when the bytes start with no well-formed
      shortest-form sequence. */
  function DecodeFirst(b: seq<Byte>): Option<char> {
    if b == [] then
      None
    else
      var lead: int := b[0];
      if lead < 0x80 then Some(lead as char)
      else if lead < 0xC0 then None
      else if lead < 0xE0 then DecodeTwo(lead - 0xC0, PayloadAt(b, 1))
      else if lead < 0xF0 then DecodeThree(lead - 0xE0, PayloadAt(b, 1), PayloadAt(b, 2))
      else if lead < 0xF8 then DecodeFour(lead - 0xF0, PayloadAt(b, 1), PayloadAt(b, 2), PayloadAt(b, 3))
      else None
  }

  lemma DecodeFirstOfEncodeChar(c: char, rest: seq<Byte>)
    ensures DecodeFirst(EncodeChar(c) + rest) == Some(c)
  {
    var b := EncodeChar(c) + rest;
    var n := c as int;
    if n < 0x80 {
    } else if n < 0x800 {
      assert PayloadAt(b, 1) == Some(n % 64);
    } else if n < 0x1_0000 {
      assert PayloadAt(b, 1) == Some(n / 64 % 64) && PayloadAt(b, 2) == Some(n % 64);
      ThreeDigits(n);
    } else {
      assert PayloadAt(b, 1) == Some(n / 4096 % 64) && PayloadAt(b, 2) == Some(n / 64 % 64)
          && PayloadAt(b, 3) == Some(n % 64);
      ThreeDigits(n);
      DivideTwice(n);
    }
  }

  lemma ThreeDigits(n: nat)
    ensures n / 4096 * 4096 + n / 64 % 64 * 64 + n % 64 == n
  {
    DivideTwice(n);
  }

  lemma SixBitDigits(a: int, b: int, c: int, d: int)
    requires 0 <= a && 0 <= b < 64 && 0 <= c < 64 && 0 <= d < 64
    ensures var n := a * 262144 + b * 4096 + c * 64 + d;
            n / 262144 == a && n / 4096 % 64 == b && n / 64 % 64 == c && n % 64 == d
            && n / 4096 == a * 64 + b && n / 64 == (a * 64 + b) * 64 + c
  {
    var ab := a * 64 + b;
    var abc := ab * 64 + c;
    LastDigit(a, b);
    LastDigit(ab, c);
    LastDigit(abc, d);
    DivideTwice(abc * 64 + d);
  }

  lemma LastDigit(q: int, r: int)
    requires 0 <= r < 64
    ensures (q * 64 + r) / 64 == q && (q * 64 + r) % 64 == r
  {
  }

  lemma DivideTwice(n: int)
    ensures n / 64 / 64 == n / 4096 && n / 4096 / 64 == n / 262144
  {
  }

  lemma EncodeCharOfDecodeFirst(b: seq<Byte>)
    requires DecodeFirst(b).Some?
    ensures EncodeChar(DecodeFirst(b).value) <= b
  {
    var lead: int := b[0];
    if lead < 0x80 {
    } else if lead < 0xE0 {
      SixBitDigits(0, 0, lead - 0xC0, PayloadAt(b, 1).value);
    } else if lead < 0xF0 {
      SixBitDigits(0, lead - 0xE0, PayloadAt(b, 1).value, PayloadAt(b, 2).value);
    } else {
      SixBitDigits(lead - 0xF0, PayloadAt(b, 1).value, PayloadAt(b, 2).value, PayloadAt(b, 3).value);
    }
  }

  /** `std::str::from_utf8` */
  function FromUtf8(b: seq<Byte>): Option<string>
    decreases |b|
  {
    if b == [] then
      Some("")
    else
      match DecodeFirst(b)
      case None => None
      case Some(c) =>
        EncodeCharOfDecodeFirst(b);
        match FromUtf8(b[|EncodeChar(c)|..])
        case None => None
        case Some(s) => Some([c] + s)
  }

  /** Decoding succeeds exactly on encodings, and gives back the encoded text. */
  lemma {:induction false} FromUtf8Inverse(b: seq<Byte>, s: string)
    ensures FromUtf8(b) == Some(s) <==> b == Encode(s)
    decreases |b|, |s|
  {
    if b == Encode(s) {
      if s != "" {
        DecodeFirstOfEncodeChar(s[0], Encode(s[1..]));
        assert b[|EncodeChar(s[0])|..] == Encode(s[1..]);
        FromUtf8Inverse(Encode(s[1..]), s[1..]);
        assert [s[0]] + s[1..] == s;
      }
    }
    if FromUtf8(b) == Some(s) && b != [] {
      var c := DecodeFirst(b).value;
      EncodeCharOfDecodeFirst(b);
      var rest := b[|EncodeChar(c)|..];
      assert s == [c] + FromUtf8(rest).value;
      assert s[1..] == FromUtf8(rest).value;
      FromUtf8Inverse(rest, s[1..]);
      assert b == EncodeChar(c) + rest;
    }
  }

  lemma EncodeCons(c: char, s: string)
    ensures Encode([c] + s) == EncodeChar(c) + Encode(s)
  {
    assert ([c] + s)[1..] == s;
  }

  lemma Associative(a: seq<Byte>, b: seq<Byte>, c: seq<Byte>)
    ensures a + (b + c) == (a + b) + c
  {
  }

  lemma {:induction false} EncodeConcat(s: string, t: string)
    ensures Encode(s + t) == Encode(s) + Encode(t)
  {
    if s == "" {
      assert s + t == t;
    } else {
      var c, rest := s[0], s[1..];
      assert s == [c] + rest && s + t == [c] + (rest + t);
      EncodeConcat(rest, t);
      EncodeCons(c, rest);
      EncodeCons(c, rest + t);
      Associative(EncodeChar(c), Encode(rest), Encode(t));
    }
  }

  lemma EncodeInjective(s: string, t: string)
    requires Encode(s) == Encode(t)
    ensures s == t
  {
    FromUtf8Inverse(Encode(s), s);
    FromUtf8Inverse(Encode(s), t);
  }
}
