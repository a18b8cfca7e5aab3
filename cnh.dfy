/**
 * CNH, the 11-digit driver's-licence registration number in its 2022 form:
 * nine base digits and two mod-11 verification digits. Every non-digit of the
 * input is discarded before the checks.
 */
module Cnh {
  import opened Strings

  /** The numeric values of a digit string, as `to_digit(10).unwrap()` gives them. */
  function DigitValues(s: string): (r: seq<nat>)
    requires AllDigits(s)
    ensures |r| == |s|
    ensures forall i :: 0 <= i < |s| ==> r[i] == DigitValue(s[i]) && r[i] < 10
  {
    seq(|s|, i requires 0 <= i < |s| => DigitValue(s[i]))
  }

  /** Number of digits the sums read: `take(9)`. */
  function Taken(digits: seq<nat>): nat {
    if |digits| < 9 then |digits| else 9
  }

  /** `Σ_{i<n} digits[i] * (9 - i)` */
  function FirstSum(digits: seq<nat>, n: nat): nat
    requires n <= |digits| && n <= 9
  {
    if n == 0 then 0 else FirstSum(digits, n - 1) + digits[n - 1] * (10 - n)
  }

  /** `Σ_{i<n} digits[i] * (i + 1)` */
  function SecondSum(digits: seq<nat>, n: nat): nat
    requires n <= |digits|
  {
    if n == 0 then 0 else SecondSum(digits, n - 1) + digits[n - 1] * n
  }

  /** A remainder above 9 becomes 0. */
  function Clamp(remainder: nat): (r: nat)
    ensures r < 10
    ensures remainder <= 9 ==> r == remainder
    ensures remainder > 9 ==> r == 0
  {
    if remainder > 9 then 0 else remainder
  }

  /** The first verification digit: the first sum mod 11, 10 becoming 0. */
  function FirstVerificator(digits: seq<nat>): (r: nat)
    ensures r < 10
  {
    Clamp(FirstSum(digits, Taken(digits)) % 11)
  }

  /**
   * The second verification digit: the second sum mod 11, shifted down by 2
   * (mod 11) when the first verification digit given exceeds 9, then clamped.
   */
  function SecondVerificator(digits: seq<nat>, firstVerificator: nat): (r: nat)
    ensures r < 10
  {
    var result := SecondSum(digits, Taken(digits)) % 11;
    var shifted := if firstVerificator > 9 then (if result < 2 then result + 9 else result - 2) else result;
    Clamp(shifted)
  }

  /** `check_first_verificator` */
  method CheckFirstVerificator(digits: seq<nat>, firstVerificator: nat) returns (ok: bool)
    ensures ok <==> FirstVerificator(digits) == firstVerificator
  {
    var n := Taken(digits);
    var sum := 0;
    var i := 0;
    while i < n
      invariant 0 <= i <= n
      invariant sum == FirstSum(digits, i)
    {
      sum := sum + digits[i] * (9 - i);
      i := i + 1;
    }
    var remainder := sum % 11;
    var result := if remainder > 9 then 0 else remainder;
    ok := result == firstVerificator;
  }

  /** `check_second_verificator` */
  method CheckSecondVerificator(digits: seq<nat>, secondVerificator: nat, firstVerificator: nat)
    returns (ok: bool)
    ensures ok <==> SecondVerificator(digits, firstVerificator) == secondVerificator
  {
    var n := Taken(digits);
    var sum := 0;
    var i := 0;
    while i < n
      invariant 0 <= i <= n
      invariant sum == SecondSum(digits, i)
    {
      sum := sum + digits[i] * (i + 1);
      i := i + 1;
    }
    var result := sum % 11;
    if firstVerificator > 9 {
      result := if result - 2 < 0 then result + 9 else result - 2;
    }
    if result > 9 {
      result := 0;
    }
    ok := result == secondVerificator;
  }

  /** What `is_valid_cnh` accepts, stated on the digit subsequence of the input. */
  predicate Valid(cnh: string) {
    var d := OnlyDigits(cnh);
    |d| == 11 && !AllSame(d)
    && DigitValue(d[9]) == FirstVerificator(DigitValues(d))
    && DigitValue(d[10]) == SecondVerificator(DigitValues(d), DigitValue(d[9]))
  }

  /** `is_valid_cnh` */
  method IsValidCnh(cnh: string) returns (valid: bool)
    ensures valid <==> Valid(cnh)
  {
    var cnhDigits := OnlyDigits(cnh);
    if |cnhDigits| == 0 {
      return false;
    }
    if |cnhDigits| != 11 {
      return false;
    }
    if AllSame(cnhDigits) {
      return false;
    }
    var digits := DigitValues(cnhDigits);
    var firstVerificator := digits[9];
    var secondVerificator := digits[10];
    var firstOk := CheckFirstVerificator(digits, firstVerificator);
    if !firstOk {
      return false;
    }
    valid := CheckSecondVerificator(digits, secondVerificator, firstVerificator);
  }

  /**
   * Inside `is_valid_cnh` the first verification digit is a digit, so the
   * shift of the second check never applies: both checks are plain clamped
   * remainders.
   */
  lemma ValidSpelledOut(cnh: string)
    ensures Valid(cnh) <==>
      var d := OnlyDigits(cnh);
      |d| == 11 && !AllSame(d)
      && DigitValue(d[9]) == Clamp(FirstSum(DigitValues(d), 9) % 11)
      && DigitValue(d[10]) == Clamp(SecondSum(DigitValues(d), 9) % 11)
  {
  }

  /** The shift taken when the first verification digit exceeds 9 subtracts 2 modulo 11. */
  lemma ShiftSubtractsTwo(digits: seq<nat>, firstVerificator: nat)
    requires firstVerificator > 9
    ensures SecondVerificator(digits, firstVerificator)
      == Clamp((SecondSum(digits, Taken(digits)) + 9) % 11)
  {
  }

  /** Symbols and letters anywhere in the input do not change the verdict. */
  lemma ValidIgnoresNonDigits(a: string, junk: string, b: string)
    requires forall i :: 0 <= i < |junk| ==> !IsDigit(junk[i])
    ensures Valid(a + junk + b) <==> Valid(a + b)
  {
    OnlyDigitsInsert(a, junk, b);
  }

  /** Validity depends on the digit subsequence alone. */
  lemma ValidDependsOnDigits(a: string, b: string)
    requires OnlyDigits(a) == OnlyDigits(b)
    ensures Valid(a) == Valid(b)
  {
  }

  /**
   * Grouping a valid number as "XXX?XXX?XXX?XX" with any non-digit separator
   * keeps it valid ("097.703.047.34", "097-703-047-34", "097 703 047 34").
   */
  lemma ValidGrouped(d: string, sep: char)
    requires |d| == 11 && Valid(d) && !IsDigit(sep)
    ensures Valid(d[..3] + [sep] + d[3..6] + [sep] + d[6..9] + [sep] + d[9..])
  {
    GroupedDigits(d[..3], d[3..6], d[6..9], d[9..], sep);
    assert d[..3] + d[3..6] + d[6..9] + d[9..] == d;
    ValidDependsOnDigits(d[..3] + [sep] + d[3..6] + [sep] + d[6..9] + [sep] + d[9..], d);
  }

  lemma GroupedDigits(p0: string, p1: string, p2: string, p3: string, sep: char)
    requires !IsDigit(sep)
    ensures OnlyDigits(p0 + [sep] + p1 + [sep] + p2 + [sep] + p3) == OnlyDigits(p0 + p1 + p2 + p3)
  {
    var j := [sep];
    OnlyDigitsInsert(p0 + j + p1 + j + p2, j, p3);
    OnlyDigitsInsert(p0 + j + p1, j, p2 + p3);
    assert p0 + j + p1 + j + p2 + p3 == (p0 + j + p1) + j + (p2 + p3);
    assert (p0 + j + p1) + (p2 + p3) == p0 + j + p1 + p2 + p3;
    OnlyDigitsInsert(p0, j, p1 + p2 + p3);
    assert p0 + j + p1 + p2 + p3 == p0 + j + (p1 + p2 + p3);
    assert p0 + (p1 + p2 + p3) == p0 + p1 + p2 + p3;
  }
}

/** The sample numbers of the source's `tests` module. */
module CnhTests {
  import opened Strings
  import opened Cnh

  const ValidSample: seq<nat> := [0, 9, 7, 7, 0, 3, 0, 4, 7, 3, 4]
  const RejectedSample: seq<nat> := [1, 2, 3, 4, 5, 6, 7, 8, 9, 0, 1]

  lemma ValidSampleShape()
    ensures AllDigits("09770304734") && OnlyDigits("09770304734") == "09770304734"
    ensures !AllSame("09770304734")
  {
    assert AllDigits("09770304734");
    assert "09770304734"[1] != "09770304734"[0];
  }

  lemma ValidSampleValues()
    ensures AllDigits("09770304734") && DigitValues("09770304734") == ValidSample
  {
    assert AllDigits("09770304734");
  }

  /** The verification digits of "09770304734" are 3 and 4. */
  lemma ValidSampleDigits()
    ensures FirstVerificator(ValidSample) == 3 && SecondVerificator(ValidSample, 3) == 4
  {
    assert FirstSum(ValidSample, 9) == 190;
    assert SecondSum(ValidSample, 9) == 180;
  }

  /** "09770304734", one of the numbers the source's tests accept. */
  lemma ValidExample()
    ensures Valid("09770304734")
  {
    ValidSampleShape();
    ValidSampleValues();
    ValidSampleDigits();
  }

  lemma RejectedSampleShape()
    ensures AllDigits("12345678901") && OnlyDigits("12345678901") == "12345678901"
  {
    assert AllDigits("12345678901");
  }

  lemma RejectedSampleValues()
    ensures AllDigits("12345678901") && DigitValues("12345678901") == RejectedSample
  {
    assert AllDigits("12345678901");
  }

  /** The second verification digit of "12345678901" is 0, not 1. */
  lemma RejectedSampleDigits()
    ensures FirstVerificator(RejectedSample) == 0 && SecondVerificator(RejectedSample, 0) == 0
  {
    assert FirstSum(RejectedSample, 9) == 165;
    assert SecondSum(RejectedSample, 9) == 285;
  }

  /** A wrong check digit is rejected: "12345678901". */
  lemma RejectedExample()
    ensures !Valid("12345678901")
  {
    RejectedSampleShape();
    RejectedSampleValues();
    RejectedSampleDigits();
  }

  /** Nine digits, or none at all, are too few. */
  lemma RejectedShort()
    ensures !Valid("") && !Valid("123456789")
  {
    assert AllDigits("123456789");
  }

  /** One digit repeated eleven times is rejected. */
  lemma RejectedRepeated(cnh: string)
    requires cnh == "22222222222"
    ensures !Valid(cnh)
  {
    assert AllDigits(cnh);
    assert forall i :: 0 <= i < |cnh| ==> cnh[i] == '2';
  }
}
