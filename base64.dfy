/**
 * Base64 (section 4 of RFC 4648) as the `buffer` package behind `Buffer`
 * implements it.
 *
 * `buf.toString('base64')` writes four characters of the standard alphabet
 * for every three bytes and pads a final short group with `=`.
 * `Buffer.from(s, 'base64')` never fails: it reads up to the first `=`, skips
 * every character outside the alphabet (it also accepts `-` and `_`, the
 * URL-safe alphabet of section 5), turns each group of four characters into
 * three bytes, a final group of three into two bytes and of two into one byte,
 * and drops a final lone character.
 */
module Base64 {
  import opened Wrappers
  import Utf8

  type Byte = Utf8.Byte

  /** A six-bit value, the payload of one Base64 character. */
  type Sextet = x: int | 0 <= x < 0x40

  /** The character of the standard alphabet `A-Z a-z 0-9 + /` for a six-bit value. */
  function CharOf(v: Sextet): char
  {
    if v < 26 then ('A' as int + v) as char
    else if v < 52 then ('a' as int + (v - 26)) as char
    else if v < 62 then ('0' as int + (v - 52)) as char
    else if v == 62 then '+'
    else '/'
  }

  /** The value the decoder gives a character; `None` for a character it skips. */
  function ValueOf(c: char): Option<Sextet>
  {
    if 'A' <= c <= 'Z' then Some(c as int - 'A' as int)
    else if 'a' <= c <= 'z' then Some(c as int - 'a' as int + 26)
    else if '0' <= c <= '9' then Some(c as int - '0' as int + 52)
    else if c == '+' || c == '-' then Some(62)
    else if c == '/' || c == '_' then Some(63)
    else None
  }

  /** The six-bit groups of a byte sequence, before padding. */
  function Sextets(bytes: seq<Byte>): (v: seq<Sextet>)
    ensures |v| == (4 * |bytes| + 2) / 3
    decreases |bytes|
  {
    if |bytes| >= 3 then
      var b0, b1, b2 := bytes[0], bytes[1], bytes[2];
      [b0 / 4, b0 % 4 * 16 + b1 / 16, b1 % 16 * 4 + b2 / 64, b2 % 64] + Sextets(bytes[3..])
    else if |bytes| == 2 then
      var b0, b1 := bytes[0], bytes[1];
      [b0 / 4, b0 % 4 * 16 + b1 / 16, b1 % 16 * 4]
    else if |bytes| == 1 then
      [bytes[0] / 4, bytes[0] % 4 * 16]
    else []
  }

  function Chars(v: seq<Sextet>): (s: string)
    ensures |s| == |v|
    ensures forall i :: 0 <= i < |s| ==> s[i] == CharOf(v[i])
  {
    if v == [] then [] else [CharOf(v[0])] + Chars(v[1..])
  }

  /** `buf.toString('base64')`: the characters of the six-bit groups, padded to a multiple of four. */
  function Encode(bytes: seq<Byte>): (s: string)
    ensures |s| == (|bytes| + 2) / 3 * 4
    ensures forall i :: 0 <= i < |s| ==> ValueOf(s[i]).Some? || s[i] == '='
  {
    var padding := if |bytes| % 3 == 1 then "==" else if |bytes| % 3 == 2 then "=" else "";
    Chars(Sextets(bytes)) + padding
  }

  /** The values of the alphabet characters before the first `=`, other characters skipped. */
  function Clean(s: string): (r: seq<Sextet>)
    ensures |r| <= |s|
  {
    if s == [] || s[0] == '=' then []
    else match ValueOf(s[0])
      case None => Clean(s[1..])
      case Some(v) => [v] + Clean(s[1..])
  }

  /** Bytes from six-bit groups: three per full group, two from three, one from two, none from one. */
  function DecodeSextets(v: seq<Sextet>): (bytes: seq<Byte>)
    ensures 4 * |bytes| <= 3 * |v|
    decreases |v|
  {
    if |v| < 2 then []
    else
      var s0: int, s1: int := v[0], v[1];
      if |v| == 2 then [s0 * 4 + s1 / 16]
      else
        var s2: int := v[2];
        if |v| == 3 then [s0 * 4 + s1 / 16, s1 % 16 * 16 + s2 / 4]
        else [s0 * 4 + s1 / 16, s1 % 16 * 16 + s2 / 4, s2 % 4 * 64 + v[3]] + DecodeSextets(v[4..])
  }

  /** `Buffer.from(s, 'base64')`. */
  function Decode(s: string): (r: seq<Byte>)
    ensures 4 * |r| <= 3 * |s|
  {
    DecodeSextets(Clean(s))
  }

  /** Every character the encoder writes is read back as the value it was written for. */
  lemma ValueOfCharOf(v: Sextet)
    ensures ValueOf(CharOf(v)) == Some(v)
    ensures CharOf(v) != '='
  {
  }

  lemma {:induction false} CleanOfChars(v: seq<Sextet>, padding: string)
    requires padding == [] || padding[0] == '='
    ensures Clean(Chars(v) + padding) == v
  {
    if v == [] {
      assert Chars(v) + padding == padding;
    } else {
      var s := Chars(v) + padding;
      ValueOfCharOf(v[0]);
      assert s[0] == CharOf(v[0]);
      assert s[1..] == Chars(v[1..]) + padding;
      assert Clean(s) == [v[0]] + Clean(s[1..]);
      CleanOfChars(v[1..], padding);
      assert v == [v[0]] + v[1..];
    }
  }

  lemma {:induction false} DecodeSextetsOfSextets(bytes: seq<Byte>)
    ensures DecodeSextets(Sextets(bytes)) == bytes
    decreases |bytes|
  {
    var v := Sextets(bytes);
    if |bytes| >= 3 {
      var b0, b1, b2 := bytes[0], bytes[1], bytes[2];
      assert v[4..] == Sextets(bytes[3..]);
      assert (b0 % 4 * 16 + b1 / 16) / 16 == b0 % 4 && (b0 % 4 * 16 + b1 / 16) % 16 == b1 / 16;
      assert (b1 % 16 * 4 + b2 / 64) / 4 == b1 % 16 && (b1 % 16 * 4 + b2 / 64) % 4 == b2 / 64;
      DecodeSextetsOfSextets(bytes[3..]);
      assert bytes == [b0, b1, b2] + bytes[3..];
    } else if |bytes| == 2 {
      var b0, b1 := bytes[0], bytes[1];
      assert (b0 % 4 * 16 + b1 / 16) / 16 == b0 % 4 && (b0 % 4 * 16 + b1 / 16) % 16 == b1 / 16;
      assert (b1 % 16 * 4) / 4 == b1 % 16;
    } else if |bytes| == 1 {
      assert (bytes[0] % 4 * 16) / 16 == bytes[0] % 4;
    }
  }

  /** Round trip (section 4 of RFC 4648): decoding the encoding of any bytes gives them back. */
  lemma RoundTrip(bytes: seq<Byte>)
    ensures Decode(Encode(bytes)) == bytes
  {
    var padding := if |bytes| % 3 == 1 then "==" else if |bytes| % 3 == 2 then "=" else "";
    CleanOfChars(Sextets(bytes), padding);
    DecodeSextetsOfSextets(bytes);
  }

  /** The decoder is lenient: a character outside both alphabets, before the first `=`, changes nothing. */
  lemma {:induction false} DecodeSkipsForeign(a: string, c: char, b: string)
    requires ValueOf(c).None? && c != '='
    requires forall i :: 0 <= i < |a| ==> a[i] != '='
    ensures Decode(a + [c] + b) == Decode(a + b)
  {
    CleanSkipsForeign(a, c, b);
  }

  lemma {:induction false} CleanSkipsForeign(a: string, c: char, b: string)
    requires ValueOf(c).None? && c != '='
    requires forall i :: 0 <= i < |a| ==> a[i] != '='
    ensures Clean(a + [c] + b) == Clean(a + b)
  {
    if a == [] {
      assert a + [c] + b == [c] + b && ([c] + b)[1..] == b && a + b == b;
    } else {
      assert (a + [c] + b)[0] == a[0] && (a + [c] + b)[1..] == a[1..] + [c] + b;
      assert (a + b)[0] == a[0] && (a + b)[1..] == a[1..] + b;
      CleanSkipsForeign(a[1..], c, b);
    }
  }
}
