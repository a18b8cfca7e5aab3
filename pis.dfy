/**
 * PIS/PASEP, the 11-digit social-integration number: ten base digits and one
 * mod-11 check digit.
 */
module Pis {
  import opened Strings

  const Weights: seq<nat> := [3, 2, 9, 8, 7, 6, 5, 4, 3, 2]

  const Symbols: set<char> := {'.', '-'}

  /** `remove_symbols`: `replace(".", "")` followed by `replace("-", "")`. */
  function RemoveSymbols(pis: string): (r: string)
    ensures r == RemoveChars(pis, Symbols)
    ensures forall c :: c in r <==> c in pis && c !in Symbols
  {
    var r := RemoveChars(RemoveChars(pis, {'.'}), {'-'});
    RemoveCharsCompose(pis, {'.'}, {'-'});
    assert {'.'} + {'-'} == Symbols;
    forall c ensures c in r <==> c in pis && c !in Symbols { RemoveCharsKeeps(pis, Symbols, c); }
    r
  }

  /** The weighted sum `checksum` forms: the digits of the input, zipped with the ten weights. */
  function ChecksumSum(basePis: string): nat {
    var digits := OnlyDigits(basePis);
    var n := if |digits| < |Weights| then |digits| else |Weights|;
    WeightedSum(digits, Weights, n)
  }

  /**
   * `checksum`: 11 minus the sum mod 11, where 10 and 11 become 0. Non-digits
   * are skipped and digits past the tenth are ignored.
   */
  function Checksum(basePis: string): (r: nat)
    ensures r < 10
    ensures ChecksumSum(basePis) % 11 >= 2 ==> (ChecksumSum(basePis) + r) % 11 == 0
    ensures ChecksumSum(basePis) % 11 < 2 ==> r == 0
  {
    var checkDigit := 11 - ChecksumSum(basePis) % 11;
    if checkDigit == 10 || checkDigit == 11 then 0 else checkDigit
  }

  /** `is_valid`: 11 ASCII digits whose last is the checksum of the first ten; no cleaning. */
  predicate IsValid(pis: string) {
    |pis| == 11 && AllDigits(pis) && DigitValue(pis[10]) == Checksum(pis[..10])
  }

  /** `format_pis`: "XXX.XXXXX.XX-X" for a valid PIS, nothing otherwise. */
  function FormatPis(pis: string): (r: Option<string>)
    ensures r.Some? <==> IsValid(pis)
    ensures r.Some? ==> |r.value| == 14 && RemoveSymbols(r.value) == pis
    ensures r.Some? ==> Masked(pis, r.value)
  {
    if !IsValid(pis) then None
    else
      FormatRoundTrip(pis);
      FormatMask(pis);
      Some(pis[0..3] + "." + pis[3..8] + "." + pis[8..10] + "-" + pis[10..11])
  }

  /**
   * `f` is the eleven characters of `pis` in the mask "XXX.XXXXX.XX-X": dots at
   * 3 and 9, a dash at 12, and the digits in between.
   */
  predicate Masked(pis: string, f: string) {
    && |pis| == 11 && |f| == 14
    && f[3] == '.' && f[9] == '.' && f[12] == '-'
    && f[..3] == pis[..3] && f[4..9] == pis[3..8] && f[10..12] == pis[8..10] && f[13..] == pis[10..]
  }

  lemma FormatMask(pis: string)
    requires |pis| == 11
    ensures Masked(pis, pis[0..3] + "." + pis[3..8] + "." + pis[8..10] + "-" + pis[10..11])
  {
  }

  lemma FormatRoundTrip(pis: string)
    requires |pis| == 11 && AllDigits(pis)
    ensures RemoveChars(pis[0..3] + "." + pis[3..8] + "." + pis[8..10] + "-" + pis[10..11], Symbols) == pis
  {
    var p0, p1, p2, p3 := pis[0..3], pis[3..8], pis[8..10], pis[10..11];
    forall i | 0 <= i < 11 ensures pis[i] !in Symbols { assert IsDigit(pis[i]); }
    RemoveCharsNone(p0, Symbols);
    RemoveCharsNone(p1, Symbols);
    RemoveCharsNone(p2, Symbols);
    RemoveCharsNone(p3, Symbols);
    var a1 := p0 + "." + p1;
    RemoveCharsDrop(p0, '.', p1, Symbols);
    var a2 := a1 + "." + p2;
    RemoveCharsDrop(a1, '.', p2, Symbols);
    RemoveCharsDrop(a2, '-', p3, Symbols);
    assert pis == p0 + p1 + p2 + p3;
  }

  /** `generate`: the random draw `choice` (below 10^10) zero-padded to ten digits, then its checksum. */
  function Generate(choice: nat): (pis: string)
    requires choice < 10000000000
    ensures IsValid(pis)
    ensures Value(pis[..10]) == choice
  {
    var base := Pad(choice, 10);
    PadValue(choice, 10);
    assert Pow10(10) == 10000000000;
    var checkDigit := Checksum(base);
    var pis := base + Decimal(checkDigit);
    DigitCharValue(checkDigit);
    assert pis[..10] == base;
    pis
  }

  /** Every valid PIS is what `generate` produces for the draw equal to its first ten digits. */
  lemma GenerateComplete(pis: string)
    requires IsValid(pis)
    ensures Value(pis[..10]) < 10000000000 && Generate(Value(pis[..10])) == pis
  {
    ValueBound(pis[..10]);
    assert Pow10(10) == 10000000000;
    PadOfValue(pis[..10]);
    DigitCharValue(DigitValue(pis[10]));
    assert pis == pis[..10] + [pis[10]];
  }

  /** A valid PIS may repeat one digit throughout: "00000000000" passes, since `is_valid` has no such test. */
  lemma RepeatedZerosAccepted()
    ensures IsValid("00000000000")
  {
    ZerosSum();
    ChecksumSumOfDigits("0000000000");
    assert "00000000000"[..10] == "0000000000";
  }

  lemma ZerosSum()
    ensures AllDigits("0000000000") && WeightedSum("0000000000", Weights, 10) == 0
  {
    assert AllDigits("0000000000");
    assert WeightedSum("0000000000", Weights, 5) == 0;
  }

  /** On ten ASCII digits the checksum sum is the plain weighted sum. */
  lemma ChecksumSumOfDigits(basePis: string)
    requires |basePis| == 10 && AllDigits(basePis)
    ensures ChecksumSum(basePis) == WeightedSum(basePis, Weights, 10)
  {
  }
}

/** The examples of the source's `tests` module. */
module PisTests {
  import opened Strings
  import opened Pis

  lemma ExampleZeroSum(basePis: string)
    requires basePis == "1234567890"
    ensures AllDigits(basePis) && WeightedSum(basePis, Weights, 10) == 231
  {
    assert AllDigits("1234567890");
    assert WeightedSum("1234567890", Weights, 5) == 101;
  }

  /** `checksum("1234567890") == 0`, one of the source's test vectors. */
  lemma ChecksumExampleZero(basePis: string)
    requires basePis == "1234567890"
    ensures Checksum(basePis) == 0
  {
    ExampleZeroSum(basePis);
    ChecksumSumOfDigits(basePis);
  }

  lemma ExampleSevenSum(basePis: string)
    requires basePis == "8217853746"
    ensures AllDigits(basePis) && WeightedSum(basePis, Weights, 10) == 246
  {
    assert AllDigits("8217853746");
    assert WeightedSum("8217853746", Weights, 5) == 149;
  }

  /** `checksum("8217853746") == 7`, one of the source's test vectors. */
  lemma ChecksumExampleSeven(basePis: string)
    requires basePis == "8217853746"
    ensures Checksum(basePis) == 7
  {
    ExampleSevenSum(basePis);
    ChecksumSumOfDigits(basePis);
  }

  /** "12345678900" is valid: its check digit is that of "1234567890". */
  lemma ValidExampleZero(pis: string)
    requires pis == "12345678900"
    ensures IsValid(pis)
  {
    assert AllDigits(pis) && pis[..10] == "1234567890";
    ChecksumExampleZero(pis[..10]);
  }

  lemma ExampleThreeSum(basePis: string)
    requires basePis == "9876543210"
    ensures AllDigits(basePis) && WeightedSum(basePis, Weights, 10) == 239
  {
    assert AllDigits("9876543210");
    assert WeightedSum("9876543210", Weights, 5) == 189;
  }

  /** "98765432103" is valid: the check digit of "9876543210" is 3. */
  lemma ValidExampleThree(pis: string)
    requires pis == "98765432103"
    ensures IsValid(pis)
  {
    assert AllDigits(pis) && pis[..10] == "9876543210";
    ExampleThreeSum(pis[..10]);
    ChecksumSumOfDigits(pis[..10]);
  }

  /** `format_pis("12345678900") == Some("123.45678.90-0")`. */
  lemma FormatExampleZero(pis: string)
    requires pis == "12345678900"
    ensures FormatPis(pis) == Some("123.45678.90-0")
  {
    ValidExampleZero(pis);
    assert pis[0..3] == "123" && pis[3..8] == "45678" && pis[8..10] == "90" && pis[10..11] == "0";
    assert pis[0..3] + "." + pis[3..8] + "." + pis[8..10] + "-" + pis[10..11] == "123.45678.90-0";
  }

  /** `format_pis("98765432103") == Some("987.65432.10-3")`. */
  lemma FormatExampleThree(pis: string)
    requires pis == "98765432103"
    ensures FormatPis(pis) == Some("987.65432.10-3")
  {
    ValidExampleThree(pis);
    assert pis[0..3] == "987" && pis[3..8] == "65432" && pis[8..10] == "10" && pis[10..11] == "3";
    assert pis[0..3] + "." + pis[3..8] + "." + pis[8..10] + "-" + pis[10..11] == "987.65432.10-3";
  }
}
