/**
 * Base 64 encoding with the standard alphabet and `=` padding (section 4 of
 * RFC 4648), as PHP's `base64_encode` produces it, and the matching strict
 * decoder, which the round-trip lemma pairs with it.
 */
module Base64 {
  import opened Wrappers
  import opened Bytes

  /** The character for a 6-bit value, per Table 1 of RFC 4648. */
  function Symbol(x: nat): (c: char)
    requires x < 64
    ensures c != '='
  {
    if x < 26 then ('A' as int + x) as char
    else if x < 52 then ('a' as int + (x - 26)) as char
    else if x < 62 then ('0' as int + (x - 52)) as char
    else if x == 62 then '+'
    else '/'
  }

  /** The 6-bit value of an alphabet character; None for any other character, `=` included. */
  function SymbolValue(c: char): (r: Option<nat>)
    ensures r.Some? ==> r.value < 64
  {
    if 'A' <= c <= 'Z' then Some(c as int - 'A' as int)
    else if 'a' <= c <= 'z' then Some(26 + (c as int - 'a' as int))
    else if '0' <= c <= '9' then Some(52 + (c as int - '0' as int))
    else if c == '+' then Some(62)
    else if c == '/' then Some(63)
    else None
  }

  lemma SymbolRoundTrip(x: nat)
    requires x < 64
    ensures SymbolValue(Symbol(x)) == Some(x)
  {
  }

  /** Three bytes as four characters. */
  function Quad3(a: byte, b: byte, c: byte): (q: string)
    ensures |q| == 4
  {
    [Symbol(a as int / 4), Symbol((a as int % 4) * 16 + b as int / 16),
     Symbol((b as int % 16) * 4 + c as int / 64), Symbol(c as int % 64)]
  }

  /** Two final bytes as three characters and one `=`. */
  function Quad2(a: byte, b: byte): (q: string)
    ensures |q| == 4
  {
    [Symbol(a as int / 4), Symbol((a as int % 4) * 16 + b as int / 16), Symbol((b as int % 16) * 4), '=']
  }

  /** One final byte as two characters and two `=`. */
  function Quad1(a: byte): (q: string)
    ensures |q| == 4
  {
    [Symbol(a as int / 4), Symbol((a as int % 4) * 16), '=', '=']
  }

  /** Every input group of three bytes becomes four characters; a final one or two bytes are padded with `=`. */
  function Encode(s: seq<byte>): (r: string)
    ensures |r| == 4 * ((|s| + 2) / 3)
    decreases |s|
  {
    if |s| == 0 then ""
    else if |s| == 1 then Quad1(s[0])
    else if |s| == 2 then Quad2(s[0], s[1])
    else Quad3(s[0], s[1], s[2]) + Encode(s[3..])
  }

  /** One group of four characters; padding is accepted only in the `last` group. */
  function DecodeGroup(q: string, last: bool): Option<seq<byte>>
    requires |q| == 4
  {
    var x0, x1 := SymbolValue(q[0]), SymbolValue(q[1]);
    if x0.None? || x1.None? then None
    else
      var a := (x0.value * 4 + x1.value / 16) as byte;
      if last && q[2] == '=' && q[3] == '=' then Some([a])
      else
        var x2 := SymbolValue(q[2]);
        if x2.None? then None
        else
          var b := ((x1.value % 16) * 16 + x2.value / 4) as byte;
          if last && q[3] == '=' then Some([a, b])
          else
            var x3 := SymbolValue(q[3]);
            if x3.None? then None
            else Some([a, b, ((x2.value % 4) * 64 + x3.value) as byte])
  }

  /** Decodes a whole text; None when its length is not a multiple of four or a character is out of place. */
  function Decode(t: string): Option<seq<byte>>
    decreases |t|
  {
    if |t| == 0 then Some([])
    else if |t| < 4 then None
    else
      match DecodeGroup(t[..4], |t| == 4)
      case None => None
      case Some(g) =>
        match Decode(t[4..])
        case None => None
        case Some(rest) => Some(g + rest)
  }

  lemma Quad3RoundTrip(a: byte, b: byte, c: byte, last: bool)
    ensures DecodeGroup(Quad3(a, b, c), last) == Some([a, b, c])
  {
    var x, y, z := a as int, b as int, c as int;
    SymbolRoundTrip(x / 4);
    SymbolRoundTrip((x % 4) * 16 + y / 16);
    SymbolRoundTrip((y % 16) * 4 + z / 64);
    SymbolRoundTrip(z % 64);
    assert (x / 4) * 4 + ((x % 4) * 16 + y / 16) / 16 == x;
    assert (((x % 4) * 16 + y / 16) % 16) * 16 + ((y % 16) * 4 + z / 64) / 4 == y;
    assert (((y % 16) * 4 + z / 64) % 4) * 64 + z % 64 == z;
  }

  lemma Quad2RoundTrip(a: byte, b: byte)
    ensures DecodeGroup(Quad2(a, b), true) == Some([a, b])
  {
    var x, y := a as int, b as int;
    SymbolRoundTrip(x / 4);
    SymbolRoundTrip((x % 4) * 16 + y / 16);
    SymbolRoundTrip((y % 16) * 4);
    assert (x / 4) * 4 + ((x % 4) * 16 + y / 16) / 16 == x;
    assert (((x % 4) * 16 + y / 16) % 16) * 16 + ((y % 16) * 4) / 4 == y;
  }

  lemma Quad1RoundTrip(a: byte)
    ensures DecodeGroup(Quad1(a), true) == Some([a])
  {
    var x := a as int;
    SymbolRoundTrip(x / 4);
    SymbolRoundTrip((x % 4) * 16);
    assert (x / 4) * 4 + ((x % 4) * 16) / 16 == x;
  }

  lemma DecodeLastGroup(q: string)
    requires |q| == 4 && DecodeGroup(q, true).Some?
    ensures Decode(q) == DecodeGroup(q, true)
  {
    assert q[..4] == q && q[4..] == [];
    var g := DecodeGroup(q, true).value;
    assert g + [] == g;
  }

  lemma DecodeFirstGroup(q: string, t: string, g: seq<byte>, rest: seq<byte>)
    requires |q| == 4 && |t| > 0
    requires DecodeGroup(q, false) == Some(g) && Decode(t) == Some(rest)
    ensures Decode(q + t) == Some(g + rest)
  {
    assert (q + t)[..4] == q;
    assert (q + t)[4..] == t;
  }

  lemma RoundTrip1(s: seq<byte>)
    requires |s| == 1
    ensures Decode(Encode(s)) == Some(s)
  {
    Quad1RoundTrip(s[0]);
    DecodeLastGroup(Quad1(s[0]));
    assert s == [s[0]];
  }

  lemma RoundTrip2(s: seq<byte>)
    requires |s| == 2
    ensures Decode(Encode(s)) == Some(s)
  {
    Quad2RoundTrip(s[0], s[1]);
    DecodeLastGroup(Quad2(s[0], s[1]));
    assert s == [s[0], s[1]];
  }

  lemma RoundTrip3(s: seq<byte>)
    requires |s| == 3
    ensures Decode(Encode(s)) == Some(s)
  {
    Quad3RoundTrip(s[0], s[1], s[2], true);
    DecodeLastGroup(Quad3(s[0], s[1], s[2]));
    assert s[3..] == [];
    assert s == [s[0], s[1], s[2]];
  }

  lemma SplitFirstThree(s: seq<byte>)
    requires |s| >= 3
    ensures [s[0], s[1], s[2]] + s[3..] == s
  {
  }

  /** More than three bytes: a full first group before the encoding of the rest. */
  lemma RoundTripStep(s: seq<byte>)
    requires |s| > 3
    requires Decode(Encode(s[3..])) == Some(s[3..])
    ensures Decode(Encode(s)) == Some(s)
  {
    var q, t := Quad3(s[0], s[1], s[2]), Encode(s[3..]);
    assert Encode(s) == q + t;
    assert |t| > 0 by {
      assert (|s[3..]| + 2) / 3 >= 1;
    }
    Quad3RoundTrip(s[0], s[1], s[2], false);
    DecodeFirstGroup(q, t, [s[0], s[1], s[2]], s[3..]);
    SplitFirstThree(s);
  }

  /** Decoding what was encoded gives back the bytes. */
  lemma {:induction false} RoundTrip(s: seq<byte>)
    ensures Decode(Encode(s)) == Some(s)
    decreases |s|
  {
    if |s| == 1 {
      RoundTrip1(s);
    } else if |s| == 2 {
      RoundTrip2(s);
    } else if |s| == 3 {
      RoundTrip3(s);
    } else if |s| > 3 {
      RoundTrip(s[3..]);
      RoundTripStep(s);
    }
  }

  /** The encoding is injective: different byte strings never share a Base64 text. */
  lemma EncodeInjective(s: seq<byte>, u: seq<byte>)
    requires Encode(s) == Encode(u)
    ensures s == u
  {
    RoundTrip(s);
    RoundTrip(u);
  }
}
