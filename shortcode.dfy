/**
 * Short-code generation: six characters, each picked from a 62-character
 * alphanumeric alphabet by one uniform random draw in [0, 1).
 */
module ShortCode {
  import opened Types

  const LOWER: string := "abcdefghijklmnopqrstuvwxyz"
  const UPPER: string := "ABCDEFGHIJKLMNOPQRSTUVWXYZ"
  const DIGITS: string := "0123456789"
  /** The 62 characters a code is drawn from, in the source's order. */
  const ALPHABET: string := LOWER + UPPER + DIGITS

  /** The shape of every generated code. */
  predicate ValidCode(code: string)
  {
    |code| == CODE_LENGTH && forall i :: 0 <= i < |code| ==> code[i] in ALPHABET
  }

  /** One random draw per character. */
  predicate ValidDraws(draws: seq<real>)
  {
    |draws| == CODE_LENGTH && forall i :: 0 <= i < |draws| ==> 0.0 <= draws[i] < 1.0
  }

  /** `Math.floor(r * chars.length)`: the alphabet index a draw selects. */
  function Pick(r: real): (k: int)
    requires 0.0 <= r < 1.0
    ensures 0 <= k < |ALPHABET|
  {
    (r * 62.0).Floor
  }

  /** The code a sequence of draws spells. */
  function CodeFor(draws: seq<real>): (code: string)
    requires ValidDraws(draws)
    ensures ValidCode(code)
  {
    seq(|draws|, i requires 0 <= i < |draws| => ALPHABET[Pick(draws[i])])
  }

  /** `generateShortCode`: appends one picked character per loop round. */
  method Generate(draws: seq<real>) returns (code: string)
    requires ValidDraws(draws)
    ensures code == CodeFor(draws)
  {
    code := "";
    for i := 0 to CODE_LENGTH
      invariant |code| == i
      invariant forall j :: 0 <= j < i ==> code[j] == ALPHABET[Pick(draws[j])]
    {
      code := code + [ALPHABET[Pick(draws[i])]];
    }
  }

  /**
   * Among the reserved page names only 'signup' has the shape of a code:
   * a link whose code came out as 'signup' could never be resolved, since
   * that path is handed to the page routes first.
   */
  lemma ReservedCodes(code: string)
    requires code in RESERVED_NAMES
    ensures ValidCode(code) <==> code == "signup"
  {
    if code == "signup" {
      assert forall i :: 0 <= i < |code| ==> code[i] in LOWER;
    }
  }
}
