/**
 * The admin form rule `validate-hex-color`: an empty value, or `#` followed by
 * three or six hexadecimal digits of either case (the 3- and 6-digit forms of
 * section 5.2 of CSS Color Module Level 4; the 4- and 8-digit forms with alpha
 * are refused).
 */
module HexColorValidation {

  predicate IsHexDigit(c: char) {
    '0' <= c <= '9' || 'a' <= c <= 'f' || 'A' <= c <= 'F'
  }

  /** `[A-Fa-f0-9]{n}$`: exactly `n` hex digits and nothing more. */
  predicate HexRun(t: string, n: nat)
    decreases n
  {
    if n == 0 then t == [] else |t| > 0 && IsHexDigit(t[0]) && HexRun(t[1..], n - 1)
  }

  /** The rule: `value === ''` or `/^#([A-Fa-f0-9]{6}|[A-Fa-f0-9]{3})$/`. */
  predicate ValidHexColor(v: string) {
    v == [] || (|v| > 0 && v[0] == '#' && (HexRun(v[1..], 6) || HexRun(v[1..], 3)))
  }

  predicate AllHex(t: string) {
    forall k :: 0 <= k < |t| ==> IsHexDigit(t[k])
  }

  lemma {:induction false} HexRunMeaning(t: string, n: nat)
    ensures HexRun(t, n) <==> |t| == n && AllHex(t)
    decreases n
  {
    if n > 0 && |t| > 0 {
      HexRunMeaning(t[1..], n - 1);
      if AllHex(t) {
        assert forall k :: 0 <= k < |t[1..]| ==> t[1..][k] == t[k + 1];
      }
      if IsHexDigit(t[0]) && AllHex(t[1..]) {
        forall k | 0 <= k < |t| ensures IsHexDigit(t[k]) {
          if k > 0 {
            assert t[k] == t[1..][k - 1];
          }
        }
      }
    }
  }

  /**
   * Accepted are exactly the empty value and `#` followed by three or six hex
   * digits; so a missing `#`, a non-hex character or any other digit count
   * (four and eight included) is refused.
   */
  lemma ValidHexColorMeaning(v: string)
    ensures ValidHexColor(v) <==> v == [] || (v[0] == '#' && (|v| == 4 || |v| == 7) && AllHex(v[1..]))
  {
    if |v| > 0 {
      HexRunMeaning(v[1..], 6);
      HexRunMeaning(v[1..], 3);
    }
  }

  /** Examples the error message names, and the alpha forms it refuses. */
  lemma Examples()
    ensures ValidHexColor("#28a745") && ValidHexColor("#fff") && ValidHexColor("#FFF") && ValidHexColor("")
    ensures !ValidHexColor("#ffff") && !ValidHexColor("#28a745ff") && !ValidHexColor("28a745")
    ensures !ValidHexColor("#ggg")
  {
    AcceptedExamples();
    RefusedExamples();
  }

  /** The six- and three-digit forms, in either case, and the empty value are accepted. */
  lemma AcceptedExamples()
    ensures ValidHexColor("#28a745") && ValidHexColor("#fff") && ValidHexColor("#FFF") && ValidHexColor("")
  {
    ValidHexColorMeaning("#28a745");
    ValidHexColorMeaning("#fff");
    ValidHexColorMeaning("#FFF");
  }

  /** Four and eight digits, a missing '#' and a non-hex digit are refused. */
  lemma RefusedExamples()
    ensures !ValidHexColor("#ffff") && !ValidHexColor("#28a745ff") && !ValidHexColor("28a745")
    ensures !ValidHexColor("#ggg")
  {
    ValidHexColorMeaning("#ffff");
    ValidHexColorMeaning("#28a745ff");
    assert "#ggg"[1..][0] == 'g';
    ValidHexColorMeaning("#ggg");
  }
}
