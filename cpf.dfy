/**
 * CPF, the 11-digit individual taxpayer number. This version of the library
 * checks only the length and a fixed blacklist: it has no alphabet test and no
 * check-digit test.
 */
module Cpf {
  import opened Strings

  const Size: nat := 11

  /** Indices of the two check digits; declared in the source but not used by `is_valid`. */
  const CheckDigits: seq<nat> := [9, 10]

  const Blacklist: seq<string> := [
    "000",
    "00000000000",
    "11111111111",
    "22222222222",
    "33333333333",
    "44444444444",
    "55555555555",
    "66666666666",
    "77777777777",
    "88888888888",
    "99999999999",
    "999999999999"
  ]

  /** `is_blacklisted` */
  predicate IsBlacklisted(input: string) {
    input in Blacklist
  }

  /** `is_valid`: the length must be 11 and the input must not be blacklisted. */
  function IsValid(input: string): (r: bool)
    ensures r <==> |input| == Size && !(AllDigits(input) && AllSame(input))
  {
    if |input| != Size || IsBlacklisted(input) then
      (if |input| == Size then BlacklistIsRepeatedDigits(input); false else false)
    else
      BlacklistIsRepeatedDigits(input);
      true
  }

  /** The string of eleven copies of `c`. */
  function Repeat11(c: char): (s: string)
    ensures |s| == 11 && AllSame(s)
  {
    seq(11, i => c)
  }

  /**
   * Among 11-character inputs, the blacklist is exactly the ten strings of one
   * repeated ASCII digit; its entries "000" and "999999999999" are never reached
   * because of the length test.
   */
  lemma BlacklistIsRepeatedDigits(input: string)
    requires |input| == Size
    ensures IsBlacklisted(input) <==> AllDigits(input) && AllSame(input)
  {
    if AllDigits(input) && AllSame(input) {
      RepeatedIsBlacklisted(input);
    }
    if IsBlacklisted(input) {
      var k :| 0 <= k < |Blacklist| && Blacklist[k] == input;
      BlacklistEntryRepeated(k);
    }
  }

  lemma RepeatedIsBlacklisted(input: string)
    requires |input| == Size && AllDigits(input) && AllSame(input)
    ensures IsBlacklisted(input)
  {
    var c := input[0];
    assert input == Repeat11(c);
    assert IsDigit(c);
    if c == '0' { assert Repeat11(c) == Blacklist[1]; }
    else if c == '1' { assert Repeat11(c) == Blacklist[2]; }
    else if c == '2' { assert Repeat11(c) == Blacklist[3]; }
    else if c == '3' { assert Repeat11(c) == Blacklist[4]; }
    else if c == '4' { assert Repeat11(c) == Blacklist[5]; }
    else if c == '5' { assert Repeat11(c) == Blacklist[6]; }
    else if c == '6' { assert Repeat11(c) == Blacklist[7]; }
    else if c == '7' { assert Repeat11(c) == Blacklist[8]; }
    else if c == '8' { assert Repeat11(c) == Blacklist[9]; }
    else { assert Repeat11(c) == Blacklist[10]; }
  }

  lemma BlacklistEntryRepeated(k: nat)
    requires k < |Blacklist| && |Blacklist[k]| == Size
    ensures AllDigits(Blacklist[k]) && AllSame(Blacklist[k])
  {
    if k == 1 { assert Blacklist[k] == Repeat11('0'); }
    else if k == 2 { assert Blacklist[k] == Repeat11('1'); }
    else if k == 3 { assert Blacklist[k] == Repeat11('2'); }
    else if k == 4 { assert Blacklist[k] == Repeat11('3'); }
    else if k == 5 { assert Blacklist[k] == Repeat11('4'); }
    else if k == 6 { assert Blacklist[k] == Repeat11('5'); }
    else if k == 7 { assert Blacklist[k] == Repeat11('6'); }
    else if k == 8 { assert Blacklist[k] == Repeat11('7'); }
    else if k == 9 { assert Blacklist[k] == Repeat11('8'); }
    else { assert k == 10 && Blacklist[k] == Repeat11('9'); }
  }

  /** Only the ten 11-character entries can ever match an input that passed the length test. */
  lemma OuterEntriesNeverMatch(input: string)
    requires |input| == Size
    ensures IsBlacklisted(input) <==> input in Blacklist[1..11]
  {
    assert |Blacklist[0]| == 3 && |Blacklist[11]| == 12;
    if IsBlacklisted(input) {
      var k :| 0 <= k < |Blacklist| && Blacklist[k] == input;
      assert Blacklist[1..11][k - 1] == input;
    }
  }
}

/** The examples of the source's `tests` module. */
module CpfTests {
  import opened Strings
  import opened Cpf

  /** The two sample numbers the source's tests accept. */
  lemma ValidExamples()
    ensures IsValid("02287813020") && IsValid("02915205027")
    ensures !IsValid("00000000000") && !IsValid("11111111111")
  {
    assert "02287813020"[1] != "02287813020"[0];
    assert "02915205027"[2] != "02915205027"[0];
    assert "00000000000" == Repeat11('0');
    assert "11111111111" == Repeat11('1');
  }
}
