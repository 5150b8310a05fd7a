/** The promo code generator: `gen_promo_code` draws each character of the code
    from a fixed 32-character alphabet. */
module Promo {

  /** The generator's alphabet: upper-case letters and digits without `0`, `O`,
      `1` and `I`. It does contain `L`. */
  const Alphabet: string := "ABCDEFGHJKLMNPQRSTUVWXYZ23456789"

  /** The length the completion step asks for (the parameter's default). */
  const DefaultCodeLength: nat := 8

  /** A string of `n` characters, each from the alphabet. */
  predicate IsPromoCode(code: string, n: nat) {
    |code| == n && forall i :: 0 <= i < |code| ==> code[i] in Alphabet
  }

  /** `gen_promo_code(n)`: `n` independent picks from the alphabet. The
      cryptographic random source is an arbitrary choice here. */
  method GenPromoCode(n: nat) returns (code: string)
    ensures IsPromoCode(code, n)
  {
    code := "";
    var k := 0;
    while k < n
      invariant k <= n
      invariant IsPromoCode(code, k)
    {
      assert Alphabet[0] in Alphabet;
      var c :| c in Alphabet;
      code := code + [c];
      k := k + 1;
    }
  }

  /** The alphabet has 32 distinct characters, so a code of length `n` is one of
      32^n. */
  lemma AlphabetShape()
    ensures |Alphabet| == 32
    ensures forall i, j :: 0 <= i < j < |Alphabet| ==> Alphabet[i] != Alphabet[j]
  {
  }

  /** A promo code never holds the easily confused `0`, `O`, `1` or `I`; it may
      hold `L`. */
  lemma {:induction false} NoConfusableCharacters(code: string, n: nat)
    requires IsPromoCode(code, n)
    ensures '0' !in code && 'O' !in code && '1' !in code && 'I' !in code
  {
    forall i | 0 <= i < |code|
      ensures !Confusable(code[i])
    {
      var j :| 0 <= j < |Alphabet| && Alphabet[j] == code[i];
      AlphabetNotConfusable(j);
    }
  }

  predicate Confusable(c: char) {
    c == '0' || c == 'O' || c == '1' || c == 'I'
  }

  lemma AlphabetNotConfusable(j: nat)
    requires j < |Alphabet|
    ensures !Confusable(Alphabet[j])
  {
  }

  /** `L` is one of the characters a code can contain. */
  lemma AlphabetHasL()
    ensures 'L' in Alphabet && IsPromoCode("L", 1)
  {
    assert Alphabet[10] == 'L';
  }
}
