/**
 * UTF-8 (RFC 3629) as the `buffer` package behind `Buffer` implements it:
 * `Buffer.from(text)` encodes a text, `buf.toString()` decodes bytes. The
 * decoder never fails: a byte that does not start a well-formed sequence
 * becomes U+FFFD and decoding resumes at the next byte.
 */
module Utf8 {

  type Byte = b: int | 0 <= b < 0x100

  /** The one to four bytes of a character (the shifts and masks of the encoder, as arithmetic). */
  function EncodeChar(c: char): (bytes: seq<Byte>)
    ensures 1 <= |bytes| <= 4
    ensures |bytes| == 1 <==> c as int < 0x80
  {
    var x := c as int;
    if x < 0x80 then [x]
    else if x < 0x800 then [0xC0 + x / 0x40, 0x80 + x % 0x40]
    else if x < 0x1_0000 then [0xE0 + x / 0x1000, 0x80 + x / 0x40 % 0x40, 0x80 + x % 0x40]
    else [0xF0 + x / 0x4_0000, 0x80 + x / 0x1000 % 0x40, 0x80 + x / 0x40 % 0x40, 0x80 + x % 0x40]
  }

  /** `Buffer.from(s)`: the characters' encodings, one after the other. */
  function Encode(s: string): (r: seq<Byte>)
    ensures |s| <= |r|
  {
    if s == [] then [] else EncodeChar(s[0]) + Encode(s[1..])
  }

  const Replacement: char := '\U{FFFD}'

  /** `(b & 0xC0) === 0x80`. */
  predicate IsContinuation(b: Byte)
  {
    0x80 <= b < 0xC0
  }

  /**
   * The character at the start of `bytes` and how many bytes it takes. The
   * length is announced by the first byte; a sequence that is cut short, has a
   * byte that is not a continuation, is overlong, encodes a surrogate or lies
   * beyond U+10FFFF yields U+FFFD and consumes one byte.
   */
  function DecodeFirst(bytes: seq<Byte>): (r: (char, nat))
    requires bytes != []
    ensures 1 <= r.1 <= |bytes|
    ensures r.1 == 1 && bytes[0] < 0x80 ==> r.0 as int == bytes[0]
  {
    var b0: int := bytes[0];
    var n := if b0 > 0xEF then 4 else if b0 > 0xDF then 3 else if b0 > 0xBF then 2 else 1;
    if |bytes| < n then (Replacement, 1)
    else if n == 1 then
      if b0 < 0x80 then (b0 as char, 1) else (Replacement, 1)
    else if n == 2 then
      if IsContinuation(bytes[1]) then
        var cp := (b0 - 0xC0) * 0x40 + (bytes[1] as int - 0x80);
        if cp > 0x7F then (cp as char, 2) else (Replacement, 1)
      else (Replacement, 1)
    else if n == 3 then
      if IsContinuation(bytes[1]) && IsContinuation(bytes[2]) then
        var cp := (b0 - 0xE0) * 0x1000 + (bytes[1] as int - 0x80) * 0x40 + (bytes[2] as int - 0x80);
        if cp > 0x7FF && (cp < 0xD800 || cp > 0xDFFF) then (cp as char, 3) else (Replacement, 1)
      else (Replacement, 1)
    else
      if IsContinuation(bytes[1]) && IsContinuation(bytes[2]) && IsContinuation(bytes[3]) then
        var cp := (b0 - 0xF0) * 0x4_0000 + (bytes[1] as int - 0x80) * 0x1000 + (bytes[2] as int - 0x80) * 0x40 + (bytes[3] as int - 0x80);
        if 0xFFFF < cp < 0x11_0000 then (cp as char, 4) else (Replacement, 1)
      else (Replacement, 1)
  }

  /** `buf.toString()`. */
  function Decode(bytes: seq<Byte>): (s: string)
    ensures |s| <= |bytes|
    decreases |bytes|
  {
    if bytes == [] then []
    else
      var (c, n) := DecodeFirst(bytes);
      [c] + Decode(bytes[n..])
  }

  lemma DivideTwice(x: nat)
    ensures x / 0x1000 == x / 0x40 / 0x40
    ensures x / 0x4_0000 == x / 0x1000 / 0x40
  {
    var q := x / 0x40;
    assert x == 0x1000 * (q / 0x40) + (0x40 * (q % 0x40) + x % 0x40);
    var p := x / 0x1000;
    assert x == 0x4_0000 * (p / 0x40) + (0x1000 * (p % 0x40) + x % 0x1000);
  }

  /** The decoder reads back exactly the character the encoder wrote, whatever follows it. */
  lemma DecodeFirstOfEncoded(c: char, rest: seq<Byte>)
    ensures DecodeFirst(EncodeChar(c) + rest) == (c, |EncodeChar(c)|)
  {
    var x := c as int;
    var bytes := EncodeChar(c) + rest;
    DivideTwice(x);
    if x < 0x80 {
    } else if x < 0x800 {
      assert bytes[0] == 0xC0 + x / 0x40 && bytes[1] == 0x80 + x % 0x40;
    } else if x < 0x1_0000 {
      assert bytes[0] == 0xE0 + x / 0x1000;
      assert bytes[1] == 0x80 + x / 0x40 % 0x40 && bytes[2] == 0x80 + x % 0x40;
      assert x == (x / 0x1000) * 0x1000 + (x / 0x40 % 0x40) * 0x40 + x % 0x40;
    } else {
      assert bytes[0] == 0xF0 + x / 0x4_0000;
      assert bytes[1] == 0x80 + x / 0x1000 % 0x40;
      assert bytes[2] == 0x80 + x / 0x40 % 0x40 && bytes[3] == 0x80 + x % 0x40;
      assert x == (x / 0x4_0000) * 0x4_0000 + (x / 0x1000 % 0x40) * 0x1000
                 + (x / 0x40 % 0x40) * 0x40 + x % 0x40;
    }
  }

  /** Decoding the encoding of a text, followed by anything, gives the text back first. */
  lemma {:induction false} DecodeAfterEncoded(s: string, rest: seq<Byte>)
    ensures Decode(Encode(s) + rest) == s + Decode(rest)
  {
    if s != [] {
      var tail := Encode(s[1..]) + rest;
      EncodeConsAppend(s, rest);
      DecodeEncodedChar(s[0], tail);
      DecodeAfterEncoded(s[1..], rest);
      assert s == [s[0]] + s[1..];
    } else {
      assert Encode(s) + rest == rest;
    }
  }

  lemma EncodeConsAppend(s: string, rest: seq<Byte>)
    requires s != []
    ensures Encode(s) + rest == EncodeChar(s[0]) + (Encode(s[1..]) + rest)
  {
  }

  lemma DecodeEncodedChar(c: char, tail: seq<Byte>)
    ensures Decode(EncodeChar(c) + tail) == [c] + Decode(tail)
  {
    var e := EncodeChar(c);
    DecodeFirstOfEncoded(c, tail);
    assert (e + tail)[|e|..] == tail;
  }

  /** Round trip: `Buffer.from(s).toString() === s` for every text. */
  lemma RoundTrip(s: string)
    ensures Decode(Encode(s)) == s
  {
    DecodeAfterEncoded(s, []);
    assert Encode(s) + [] == Encode(s);
  }

  /** Encoding distributes over concatenation. */
  lemma {:induction false} EncodeAppend(a: string, b: string)
    ensures Encode(a + b) == Encode(a) + Encode(b)
  {
    if a != [] {
      assert (a + b)[0] == a[0] && (a + b)[1..] == a[1..] + b;
      EncodeAppend(a[1..], b);
      assert Encode(a + b) == EncodeChar(a[0]) + Encode(a[1..] + b);
    } else {
      assert a + b == b;
    }
  }
}
