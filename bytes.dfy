/**
 * PHP strings are byte strings. The model's strings are sequences of Unicode
 * characters; this module gives their UTF-8 bytes, which is what `strlen`
 * counts and what `base64_encode` encodes.
 */
module Bytes {

  newtype byte = x: int | 0 <= x < 256

  /** The UTF-8 encoding of one character (section 3 of RFC 3629). */
  function EncodeChar(c: char): (r: seq<byte>)
    ensures 1 <= |r| <= 4
    ensures (c as int < 128) <==> |r| == 1
    ensures c as int < 128 ==> r[0] as int == c as int
  {
    var cp := c as int;
    if cp < 0x80 then [cp as byte]
    else if cp < 0x800 then [(0xC0 + cp / 64) as byte, (0x80 + cp % 64) as byte]
    else if cp < 0x10000 then
      [(0xE0 + cp / 4096) as byte, (0x80 + (cp / 64) % 64) as byte, (0x80 + cp % 64) as byte]
    else
      [(0xF0 + cp / 262144) as byte, (0x80 + (cp / 4096) % 64) as byte,
       (0x80 + (cp / 64) % 64) as byte, (0x80 + cp % 64) as byte]
  }

  /** The UTF-8 bytes of a string. */
  function Utf8(s: string): (r: seq<byte>)
    ensures |s| <= |r| <= 4 * |s|
  {
    if s == [] then [] else EncodeChar(s[0]) + Utf8(s[1..])
  }

  /** PHP's `strlen`: the number of bytes. */
  function Strlen(s: string): nat {
    |Utf8(s)|
  }

  /** Encoding a concatenation concatenates the encodings. */
  lemma {:induction false} Utf8Append(a: string, b: string)
    ensures Utf8(a + b) == Utf8(a) + Utf8(b)
  {
    if a != [] {
      assert (a + b)[0] == a[0];
      assert (a + b)[1..] == a[1..] + b;
      Utf8Append(a[1..], b);
      calc {
        Utf8(a + b);
        EncodeChar(a[0]) + Utf8(a[1..] + b);
        EncodeChar(a[0]) + (Utf8(a[1..]) + Utf8(b));
        (EncodeChar(a[0]) + Utf8(a[1..])) + Utf8(b);
      }
    } else {
      assert a + b == b;
    }
  }

  predicate IsAscii(s: string) {
    forall k :: 0 <= k < |s| ==> s[k] as int < 128
  }

  /** An ASCII string is its own byte string: one byte per character, with the character's code. */
  lemma {:induction false} AsciiBytes(s: string)
    requires IsAscii(s)
    ensures |Utf8(s)| == |s|
    ensures forall k :: 0 <= k < |s| ==> Utf8(s)[k] as int == s[k] as int
  {
    if s != [] {
      assert IsAscii(s[1..]) by {
        forall k | 0 <= k < |s[1..]| ensures s[1..][k] as int < 128 {
          assert s[1..][k] == s[k + 1];
        }
      }
      AsciiBytes(s[1..]);
      var r := Utf8(s);
      assert r == EncodeChar(s[0]) + Utf8(s[1..]);
      forall k | 0 <= k < |s| ensures r[k] as int == s[k] as int {
        if k > 0 {
          assert r[k] == Utf8(s[1..])[k - 1];
          assert s[k] == s[1..][k - 1];
        }
      }
    }
  }
}
