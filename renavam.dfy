/**
 * RENAVAM, the 11-digit national vehicle registration number: ten base digits
 * and one mod-11 check digit whose weights run from the right.
 */
module Renavam {
  import opened Strings

  /** Weights applied to the base digits read right to left. */
  const Weights: seq<nat> := [2, 3, 4, 5, 6, 7, 8, 9, 2, 3]

  /** The same weights as they fall on the base digits read left to right. */
  const ForwardWeights: seq<nat> := [3, 2, 9, 8, 7, 6, 5, 4, 3, 2]

  /** The first `k` terms of the sum over the reversed digits: `base[9 - i] * Weights[i]`. */
  function ReversedSum(base: string, k: nat): nat
    requires |base| == 10 && AllDigits(base) && k <= 10
  {
    if k == 0 then 0 else ReversedSum(base, k - 1) + DigitValue(base[10 - k]) * Weights[k - 1]
  }

  /** Reading the digits backwards against `Weights` is the forward sum against `ForwardWeights`. */
  lemma ReversedSumForward(base: string)
    requires |base| == 10 && AllDigits(base)
    ensures ReversedSum(base, 10) == WeightedSum(base, ForwardWeights, 10)
  {
    ReversedSumSplit(base, 10);
  }

  /** The last `k` forward terms are the first `k` reversed terms. */
  lemma {:induction false} ReversedSumSplit(base: string, k: nat)
    requires |base| == 10 && AllDigits(base) && k <= 10
    ensures ReversedSum(base, k) + WeightedSum(base, ForwardWeights, 10 - k)
      == WeightedSum(base, ForwardWeights, 10)
  {
    if k > 0 {
      ReversedSumSplit(base, k - 1);
      assert ForwardWeights[10 - k] == Weights[k - 1];
    }
  }

  /**
   * `calculate_checksum`: 0 unless the input is ten characters that are all
   * digits; otherwise 11 minus the sum mod 11, where 10 and 11 become 0. The
   * source filters the reversed characters down to digits and returns 0 unless
   * ten remain, which happens exactly when all ten are digits (the
   * `|OnlyDigits(s)| == |s| <==> AllDigits(s)` postcondition of `OnlyDigits`).
   */
  function CalculateChecksum(baseRenavam: string): (r: nat)
    ensures r < 10
    ensures !(|baseRenavam| == 10 && AllDigits(baseRenavam)) ==> r == 0
    ensures |baseRenavam| == 10 && AllDigits(baseRenavam) ==>
      var sum := WeightedSum(baseRenavam, ForwardWeights, 10);
      (sum % 11 < 2 ==> r == 0) && (sum % 11 >= 2 ==> (sum + r) % 11 == 0)
  {
    if |baseRenavam| != 10 then 0
    else if !AllDigits(baseRenavam) then 0
    else
      var sum := ReversedSum(baseRenavam, 10);
      ReversedSumForward(baseRenavam);
      var checkDigit := 11 - sum % 11;
      if checkDigit >= 10 then 0 else checkDigit
  }

  /** `is_valid`: eleven digits, not all the same, the last being the checksum of the first ten. */
  predicate IsValid(renavam: string) {
    |renavam| == 11 && AllDigits(renavam) && !AllSame(renavam)
    && DigitValue(renavam[10]) == CalculateChecksum(renavam[..10])
  }

  /**
   * `generate` once its loop has drawn a base of ten digits that are not all the
   * same: the base followed by its check digit.
   */
  function Generate(base: string): (renavam: string)
    requires |base| == 10 && AllDigits(base) && !AllSame(base)
    ensures IsValid(renavam)
    ensures renavam[..10] == base
  {
    var checkDigit := CalculateChecksum(base);
    DigitCharValue(checkDigit);
    var renavam := base + [DigitChar(checkDigit)];
    assert renavam[..10] == base;
    assert !AllSame(renavam) by {
      var i :| 0 <= i < 10 && base[i] != base[0];
      assert renavam[i] != renavam[0];
    }
    renavam
  }

  /** Every valid RENAVAM whose base is not one repeated digit is produced by `generate`. */
  lemma GenerateComplete(renavam: string)
    requires IsValid(renavam) && !AllSame(renavam[..10])
    ensures Generate(renavam[..10]) == renavam
  {
    DigitCharValue(DigitValue(renavam[10]));
    assert renavam == renavam[..10] + [renavam[10]];
  }

  /**
   * `is_valid` accepts a repeated-digit base when its check digit differs,
   * although `generate` never draws one: "11111111116" is valid.
   */
  lemma RepeatedBaseAccepted(renavam: string)
    requires renavam == "1111111111" + "6"
    ensures IsValid(renavam) && AllSame(renavam[..10])
  {
    var b := "1111111111";
    assert renavam[..10] == b;
    assert renavam[10] != renavam[0];
    RepeatedOnesChecksum(b);
  }

  lemma RepeatedOnesChecksum(b: string)
    requires b == "1111111111"
    ensures CalculateChecksum(b) == 6
  {
    var ones := "1111111111";
    assert AllDigits(ones);
    assert ReversedSum(ones, 5) == 20;
    assert ReversedSum(ones, 10) == 49;
  }
}

/** The examples of the source's `tests` module. */
module RenavamTests {
  import opened Strings
  import opened Renavam

  /** `calculate_checksum("8676959730") == 8`. */
  lemma ChecksumExampleEight()
    ensures CalculateChecksum("8676959730") == 8
  {
    assert AllDigits("8676959730");
    assert WeightedSum("8676959730", ForwardWeights, 5) == 210;
    assert WeightedSum("8676959730", ForwardWeights, 10) == 322;
  }

  /** `calculate_checksum("0123456789") == 7`. */
  lemma ChecksumExampleSeven()
    ensures CalculateChecksum("0123456789") == 7
  {
    assert AllDigits("0123456789");
    assert WeightedSum("0123456789", ForwardWeights, 5) == 72;
    assert WeightedSum("0123456789", ForwardWeights, 10) == 202;
  }

  /** An all-same RENAVAM and every input of the wrong length are rejected. */
  lemma RejectedExamples()
    ensures !IsValid("11111111111") && !IsValid("123") && !IsValid("")
    ensures CalculateChecksum("123") == 0 && CalculateChecksum("12345678901") == 0
  {
  }
}
