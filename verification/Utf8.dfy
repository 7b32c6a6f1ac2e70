/** UTF-8, section 3 of RFC 3629: encoding Unicode scalar values and strict decoding. */
module Utf8 {
  import opened Options

  newtype byte = x: int | 0 <= x < 256

  type bytes = seq<byte>

  function EncodeChar(c: char): (b: bytes)
    ensures 1 <= |b| <= 4
  {
    var n := c as int;
    if n < 0x80 then [n as byte]
    else if n < 0x800 then [(0xC0 + n / 64) as byte, (0x80 + n % 64) as byte]
    else if n < 0x10000 then
      [(0xE0 + n / 4096) as byte, (0x80 + n / 64 % 64) as byte, (0x80 + n % 64) as byte]
    else
      [(0xF0 + n / 262144) as byte, (0x80 + n / 4096 % 64) as byte, (0x80 + n / 64 % 64) as byte,
       (0x80 + n % 64) as byte]
  }

  function Encode(s: string): (b: bytes)
    ensures |s| <= |b| <= 4 * |s|
  {
    if s == "" then [] else EncodeChar(s[0]) + Encode(s[1..])
  }

  predicate Tail(b: byte) {
    0x80 <= b < 0xC0
  }

  predicate IsScalar(n: int) {
    0 <= n < 0xD800 || 0xE000 <= n < 0x110000
  }

  // The first character and how many bytes it takes, unless the bytes start wrongly.
  function DecodeChar(b: bytes): (r: Option<(char, nat)>)
    requires b != []
    ensures r.Some? ==> 1 <= r.value.1 <= |b|
  {
    var lead := b[0] as int;
    if lead < 0x80 then Some((lead as char, 1))
    else if 0xC0 <= lead < 0xE0 && |b| >= 2 && Tail(b[1]) then
      Checked((lead - 0xC0) * 64 + (b[1] as int - 0x80), 0x80, 2)
    else if 0xE0 <= lead < 0xF0 && |b| >= 3 && Tail(b[1]) && Tail(b[2]) then
      Checked((lead - 0xE0) * 4096 + (b[1] as int - 0x80) * 64 + (b[2] as int - 0x80), 0x800, 3)
    else if 0xF0 <= lead < 0xF8 && |b| >= 4 && Tail(b[1]) && Tail(b[2]) && Tail(b[3]) then
      Checked((lead - 0xF0) * 262144 + (b[1] as int - 0x80) * 4096 + (b[2] as int - 0x80) * 64
              + (b[3] as int - 0x80), 0x10000, 4)
    else None
  }

  // Rejects overlong forms, surrogates and values beyond the last code point.
  function Checked(n: int, least: int, size: nat): Option<(char, nat)> {
    if least <= n && IsScalar(n) then Some((n as char, size)) else None
  }

  function Decode(b: bytes): Option<string> {
    if b == [] then Some("")
    else
      match DecodeChar(b)
      case None => None
      case Some((c, size)) =>
        match Decode(b[size..])
        case None => None
        case Some(rest) => Some([c] + rest)
  }

  lemma DecodeCharOfEncode(c: char, rest: bytes)
    ensures DecodeChar(EncodeChar(c) + rest) == Some((c, |EncodeChar(c)|))
  {
    var n := c as int;
    if 0x800 <= n < 0x10000 {
      ThreeParts(n);
    } else if 0x10000 <= n {
      ThreeParts(n);
      assert n / 4096 == n / 262144 * 64 + n / 4096 % 64;
    }
  }

  lemma ThreeParts(n: nat)
    ensures n == n / 4096 * 4096 + n / 64 % 64 * 64 + n % 64
  {
  }

  /** Decoding an encoded text gives the text back. */
  lemma {:induction false} DecodeOfEncode(s: string)
    ensures Decode(Encode(s)) == Some(s)
    decreases |s|
  {
    if s != "" {
      var rest := Encode(s[1..]);
      DecodeCharOfEncode(s[0], rest);
      assert (EncodeChar(s[0]) + rest)[|EncodeChar(s[0])|..] == rest;
      DecodeOfEncode(s[1..]);
      assert [s[0]] + s[1..] == s;
    }
  }

  lemma EncodeCharOfDecode(b: bytes)
    requires b != [] && DecodeChar(b).Some?
    ensures var (c, size) := DecodeChar(b).value; EncodeChar(c) == b[..size]
  {
    var lead := b[0] as int;
    if 0xE0 <= lead < 0xF0 {
      SplitThree(lead - 0xE0, b[1] as int - 0x80, b[2] as int - 0x80);
    } else if 0xF0 <= lead {
      SplitFour(lead - 0xF0, b[1] as int - 0x80, b[2] as int - 0x80, b[3] as int - 0x80);
    }
  }

  lemma SplitThree(x: int, y: int, z: int)
    requires 0 <= x && 0 <= y < 64 && 0 <= z < 64
    ensures var n := x * 4096 + y * 64 + z;
      n / 4096 == x && n / 64 % 64 == y && n % 64 == z
  {
    assert (x * 4096 + y * 64 + z) / 64 == x * 64 + y;
  }

  lemma SplitFour(w: int, x: int, y: int, z: int)
    requires 0 <= w && 0 <= x < 64 && 0 <= y < 64 && 0 <= z < 64
    ensures var n := w * 262144 + x * 4096 + y * 64 + z;
      n / 262144 == w && n / 4096 % 64 == x && n / 64 % 64 == y && n % 64 == z
  {
    SplitThree(w * 64 + x, y, z);
  }

  /** Decoding is strict: what it accepts is the encoding of what it returns. */
  lemma {:induction false} EncodeOfDecode(b: bytes)
    requires Decode(b).Some?
    ensures Encode(Decode(b).value) == b
    decreases |b|
  {
    if b != [] {
      EncodeCharOfDecode(b);
      var (c, size) := DecodeChar(b).value;
      EncodeOfDecode(b[size..]);
      var rest := Decode(b[size..]).value;
      assert ([c] + rest)[1..] == rest && b == b[..size] + b[size..];
    }
  }

  lemma {:induction false} EncodeOfConcat(a: string, b: string)
    ensures Encode(a + b) == Encode(a) + Encode(b)
    decreases |a|
  {
    if a == "" {
      assert a + b == b;
    } else {
      assert (a + b)[1..] == a[1..] + b;
      EncodeOfConcat(a[1..], b);
    }
  }

  /** The examples of section 7 of RFC 3629, character by character. */
  lemma Examples()
    ensures EncodeChar('A') == [0x41] && EncodeChar('\U{2262}') == [0xE2, 0x89, 0xA2]
    ensures EncodeChar('\U{0391}') == [0xCE, 0x91] && EncodeChar('\U{D55C}') == [0xED, 0x95, 0x9C]
    ensures EncodeChar('\U{65E5}') == [0xE6, 0x97, 0xA5] && EncodeChar('\U{233B4}') == [0xF0, 0xA3, 0x8E, 0xB4]
  {
  }

  /** ASCII text takes one byte a character. */
  lemma {:induction false} AsciiIsOneByte(s: string)
    requires forall c :: c in s ==> c as int < 0x80
    ensures |Encode(s)| == |s|
    decreases |s|
  {
    if s != "" {
      assert s[0] in s;
      forall c | c in s[1..] ensures c as int < 0x80 {
        assert c in s;
      }
      AsciiIsOneByte(s[1..]);
    }
  }
}
