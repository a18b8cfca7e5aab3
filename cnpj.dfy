/**
 * CNPJ, the 14-digit company registry number: eight base digits, a four-digit
 * branch number and two mod-11 check digits.
 */
module Cnpj {
  import opened Strings

  const Size: nat := 14

  /** The characters `remove_symbols` strips. */
  const Symbols: set<char> := {'.', '/', '-'}

  /** `remove_symbols`: drops every '.', '/' and '-', keeping all other characters in order. */
  function RemoveSymbols(dirty: string): (r: string)
    ensures r == RemoveChars(dirty, Symbols)
    ensures forall c :: c in r <==> c in dirty && c !in Symbols
  {
    var r := RemoveChars(dirty, Symbols);
    assert forall c :: c in r <==> c in dirty && c !in Symbols by {
      forall c ensures c in r <==> c in dirty && c !in Symbols { RemoveCharsKeeps(dirty, Symbols, c); }
    }
    r
  }

  /** The weights `hashdigit` uses for the check digit at 1-based `position`. */
  function Weights(position: nat): (w: seq<nat>)
    ensures |w| == if position == 13 then 12 else 13
  {
    if position == 13 then [5, 4, 3, 2, 9, 8, 7, 6, 5, 4, 3, 2]
    else [6, 5, 4, 3, 2, 9, 8, 7, 6, 5, 4, 3, 2]
  }

  /** How many characters `hashdigit` reads: `take(position - 1)`. */
  function Taken(cnpj: string, position: nat): nat
    requires position >= 1
  {
    if position - 1 <= |cnpj| then position - 1 else |cnpj|
  }

  /**
   * `hashdigit`: the weighted sum of the first `position - 1` digits, reduced
   * mod 11; remainders 0 and 1 give 0, any other remainder r gives 11 - r. The
   * source panics on a non-digit among those characters and when more
   * characters are read than there are weights.
   */
  function HashDigit(cnpj: string, position: nat): (r: nat)
    requires position >= 1
    requires DigitsUpTo(cnpj, Taken(cnpj, position)) && Taken(cnpj, position) <= |Weights(position)|
    ensures r < 10
    ensures var sum := WeightedSum(cnpj, Weights(position), Taken(cnpj, position));
      if sum % 11 < 2 then r == 0 else (sum + r) % 11 == 0
  {
    var sum := WeightedSum(cnpj, Weights(position), Taken(cnpj, position));
    var remainder := sum % 11;
    if remainder < 2 then 0 else 11 - remainder
  }

  /** `validate` / `is_valid`: no cleaning; 14 ASCII digits, not all equal, both check digits right. */
  predicate IsValid(cnpj: string) {
    AllDigits(cnpj) && |cnpj| == Size
    && !AllSame(cnpj)
    && DigitValue(cnpj[12]) == HashDigit(cnpj, 13)
    && DigitValue(cnpj[13]) == HashDigit(cnpj, 14)
  }

  /** `compute_checksum`: the two check digits of a 12-digit base, as text. */
  function ComputeChecksum(basenum: string): (r: string)
    requires var n := if |basenum| < 13 then |basenum| else 13; DigitsUpTo(basenum, n)
    ensures |r| == 2 && AllDigits(r)
    ensures DigitValue(r[0]) == HashDigit(basenum, 13)
  {
    var digit1 := HashDigit(basenum, 13);
    var withDigit1 := basenum + Decimal(digit1);
    assert DigitsUpTo(withDigit1, Taken(withDigit1, 14));
    var digit2 := HashDigit(withDigit1, 14);
    DigitCharValue(digit1);
    Decimal(digit1) + Decimal(digit2)
  }

  /** The two digits `compute_checksum` appends are the ones `is_valid` checks at indices 12 and 13. */
  lemma ChecksumDigits(base: string)
    requires |base| == 12 && AllDigits(base)
    ensures var c := base + ComputeChecksum(base);
      AllDigits(c) && |c| == Size
      && DigitValue(c[12]) == HashDigit(c, 13)
      && DigitValue(c[13]) == HashDigit(c, 14)
  {
    var cs := ComputeChecksum(base);
    var c := base + cs;
    var d1 := HashDigit(base, 13);
    var withDigit1 := base + Decimal(d1);
    DigitCharValue(d1);
    assert withDigit1 == c[..13];
    WeightedSumPrefix(base, c, Weights(13), 12);
    WeightedSumPrefix(withDigit1, c, Weights(14), 13);
    DigitCharValue(HashDigit(withDigit1, 14));
  }

  /** The weights of the first check digit add up to 58. */
  lemma FirstWeightsTotal()
    ensures Total(Weights(13), 12) == 58
  {
    var w := Weights(13);
    assert Total(w, 4) == 14;
    assert Total(w, 8) == 44;
  }

  /**
   * The first check digit of a base made of one repeated non-zero digit is
   * never that digit, so such a base never completes to an all-equal CNPJ.
   */
  lemma RepeatedBaseCheckDiffers(base: string)
    requires |base| == 12 && AllDigits(base) && AllSame(base) && base[0] != '0'
    ensures HashDigit(base, 13) != DigitValue(base[0])
  {
    var w := Weights(13);
    WeightedSumRepeated(base, w, 12);
    FirstWeightsTotal();
    var d := DigitValue(base[0]);
    assert WeightedSum(base, w, 12) == 58 * d;
    assert 1 <= d <= 9;
    if d == 1 { } else if d == 2 { } else if d == 3 { } else if d == 4 { }
    else if d == 5 { } else if d == 6 { } else if d == 7 { } else if d == 8 { } else { }
  }

  /** `compute_checksum` completes every 12-digit base to a valid CNPJ, except the all-zero base. */
  lemma ChecksumCompletes(base: string)
    requires |base| == 12 && AllDigits(base)
    ensures IsValid(base + ComputeChecksum(base)) <==> base != Zeros(12)
  {
    var c := base + ComputeChecksum(base);
    ChecksumDigits(base);
    if base == Zeros(12) {
      ZerosCompleteToZeros(base);
    } else if !AllSame(base) {
      var i :| 0 <= i < 12 && base[i] != base[0];
      assert c[i] != c[0];
    } else {
      RepeatedCompletesBroken(base);
    }
  }

  /** The all-zero base gets the check digits "00". */
  lemma ZerosCompleteToZeros(base: string)
    requires base == Zeros(12)
    ensures AllSame(base + ComputeChecksum(base))
  {
    var c := base + ComputeChecksum(base);
    ChecksumDigits(base);
    assert forall i :: 0 <= i < 12 ==> c[i] == '0';
    ZerosHashDigit(c, 13);
    assert c[12] == DigitChar(0);
    ZerosHashDigit(c, 14);
    assert c[13] == DigitChar(0);
  }

  /** Zeros in every weighted position give the check digit 0. */
  lemma ZerosHashDigit(s: string, position: nat)
    requires 2 <= position <= 14 && position - 1 <= |s|
    requires forall i :: 0 <= i < position - 1 ==> s[i] == '0'
    ensures DigitsUpTo(s, Taken(s, position))
    ensures HashDigit(s, position) == 0
  {
    WeightedSumRepeated(s, Weights(position), position - 1);
  }

  /** A base of one repeated non-zero digit gets a first check digit that differs from it. */
  lemma RepeatedCompletesBroken(base: string)
    requires |base| == 12 && AllDigits(base) && AllSame(base) && base != Zeros(12)
    ensures !AllSame(base + ComputeChecksum(base))
  {
    var c := base + ComputeChecksum(base);
    ChecksumDigits(base);
    assert !(forall i :: 0 <= i < 12 ==> base[i] == Zeros(12)[i]);
    RepeatedBaseCheckDiffers(base);
    DigitCharValue(DigitValue(base[0]));
    DigitCharValue(HashDigit(base, 13));
    assert c[12] != c[0];
  }

  /** `branch.unwrap_or(1) % 10000`, with 0 replaced by 1. */
  function NormalizeBranch(branch: Option<nat>): (b: nat)
    ensures 1 <= b <= 9999
    ensures branch.None? ==> b == 1
    ensures branch.Some? ==> b == (if branch.value % 10000 == 0 then 1 else branch.value % 10000)
  {
    var branchNum := if branch.Some? then branch.value else 1;
    var reduced := branchNum % 10000;
    if reduced == 0 then 1 else reduced
  }

  /**
   * `generate`: an eight-digit base (the random draw `baseChoice`, zero-padded),
   * the normalised branch padded to four digits, and the checksum.
   */
  function Generate(branch: Option<nat>, baseChoice: nat): (cnpj: string)
    requires baseChoice <= 99999999
    ensures |cnpj| == Size && IsValid(cnpj)
    ensures Value(cnpj[..8]) == baseChoice
    ensures cnpj[8..12] == Pad(NormalizeBranch(branch), 4)
  {
    var branchNum := NormalizeBranch(branch);
    var branchStr := Pad(branchNum, 4);
    var baseNum := Pad(baseChoice, 8);
    PadValue(branchNum, 4);
    PadValue(baseChoice, 8);
    var base := baseNum + branchStr;
    GenerateBaseNotZero(baseNum, branchStr);
    ChecksumCompletes(base);
    var cnpj := base + ComputeChecksum(base);
    assert cnpj[..8] == baseNum && cnpj[8..12] == branchStr;
    cnpj
  }

  lemma GenerateBaseNotZero(baseNum: string, branchStr: string)
    requires |baseNum| == 8 && |branchStr| == 4 && AllDigits(branchStr) && Value(branchStr) >= 1
    ensures baseNum + branchStr != Zeros(12)
  {
    if baseNum + branchStr == Zeros(12) {
      assert branchStr == (baseNum + branchStr)[8..12] == Zeros(12)[8..12] == Zeros(4);
      ZerosValue(4);
    }
  }

  /** Two CNPJs whose check digits are right and whose first 12 digits agree are equal. */
  lemma CheckDigitsDetermined(a: string, b: string)
    requires AllDigits(a) && |a| == Size && DigitValue(a[12]) == HashDigit(a, 13) && DigitValue(a[13]) == HashDigit(a, 14)
    requires AllDigits(b) && |b| == Size && DigitValue(b[12]) == HashDigit(b, 13) && DigitValue(b[13]) == HashDigit(b, 14)
    requires a[..12] == b[..12]
    ensures a == b
  {
    WeightedSumPrefix(a, b, Weights(13), 12);
    DigitCharValue(DigitValue(a[12]));
    DigitCharValue(DigitValue(b[12]));
    assert a[..13] == a[..12] + [a[12]] && b[..13] == b[..12] + [b[12]];
    WeightedSumPrefix(a, b, Weights(14), 13);
    DigitCharValue(DigitValue(a[13]));
    DigitCharValue(DigitValue(b[13]));
    assert a == a[..12] + [a[12], a[13]];
    assert b == b[..12] + [b[12], b[13]];
  }

  /**
   * Every valid CNPJ whose branch field is not "0000" is an output of
   * `generate`, for the branch it carries and the base it starts with.
   */
  lemma GenerateComplete(cnpj: string)
    requires IsValid(cnpj) && Value(cnpj[8..12]) != 0
    ensures var base := Value(cnpj[..8]);
      base <= 99999999 && Generate(Some(Value(cnpj[8..12])), base) == cnpj
  {
    GeneratePrefix(cnpj);
    var g := Generate(Some(Value(cnpj[8..12])), Value(cnpj[..8]));
    CheckDigitsDetermined(g, cnpj);
  }

  /** Generating from the base and branch of a CNPJ reproduces its first twelve digits. */
  lemma GeneratePrefix(cnpj: string)
    requires AllDigits(cnpj) && |cnpj| == Size && Value(cnpj[8..12]) != 0
    ensures var base := Value(cnpj[..8]);
      base <= 99999999 && Generate(Some(Value(cnpj[8..12])), base)[..12] == cnpj[..12]
  {
    ValueBound(cnpj[..8]);
    assert Pow10(8) == 100000000;
    var g := Generate(Some(Value(cnpj[8..12])), Value(cnpj[..8]));
    BranchPadded(cnpj[8..12]);
    ValueInjective(g[..8], cnpj[..8]);
    assert g[..12] == g[..8] + g[8..12];
    assert cnpj[..12] == cnpj[..8] + cnpj[8..12];
  }

  /** A non-zero four-digit branch survives normalisation and padding unchanged. */
  lemma BranchPadded(branch: string)
    requires |branch| == 4 && AllDigits(branch) && Value(branch) != 0
    ensures Pad(NormalizeBranch(Some(Value(branch))), 4) == branch
  {
    ValueBound(branch);
    assert Pow10(4) == 10000;
    PadOfValue(branch);
  }

  /** Branch 0 and branch 10000 both become "0001". */
  lemma GenerateBranchWrap(baseChoice: nat)
    requires baseChoice <= 99999999
    ensures Generate(Some(0), baseChoice)[8..12] == "0001"
    ensures Generate(Some(10000), baseChoice)[8..12] == "0001"
    ensures Generate(None, baseChoice)[8..12] == "0001"
  {
    assert Pad(1, 4) == "0001";
  }

  /** `format_cnpj`: "XX.XXX.XXX/XXXX-XX" for a valid CNPJ, nothing otherwise. */
  function FormatCnpj(cnpj: string): (r: Option<string>)
    ensures r.Some? <==> IsValid(cnpj)
    ensures r.Some? ==> |r.value| == 18 && RemoveSymbols(r.value) == cnpj
    ensures r.Some? ==> Masked(cnpj, r.value)
  {
    if !IsValid(cnpj) then None
    else
      var f := cnpj[0..2] + "." + cnpj[2..5] + "." + cnpj[5..8] + "/" + cnpj[8..12] + "-" + cnpj[12..14];
      FormatRoundTrip(cnpj);
      FormatMask(cnpj);
      Some(f)
  }

  /**
   * `f` is the fourteen characters of `cnpj` in the mask "XX.XXX.XXX/XXXX-XX":
   * dots at 2 and 6, a slash at 10, a dash at 15, and the digits in between.
   */
  predicate Masked(cnpj: string, f: string) {
    && |cnpj| == 14 && |f| == 18
    && f[2] == '.' && f[6] == '.' && f[10] == '/' && f[15] == '-'
    && f[..2] == cnpj[..2] && f[3..6] == cnpj[2..5] && f[7..10] == cnpj[5..8]
    && f[11..15] == cnpj[8..12] && f[16..] == cnpj[12..]
  }

  lemma FormatMask(cnpj: string)
    requires |cnpj| == 14
    ensures Masked(cnpj, cnpj[0..2] + "." + cnpj[2..5] + "." + cnpj[5..8] + "/" + cnpj[8..12] + "-" + cnpj[12..14])
  {
  }

  lemma FormatRoundTrip(cnpj: string)
    requires |cnpj| == 14 && AllDigits(cnpj)
    ensures RemoveChars(cnpj[0..2] + "." + cnpj[2..5] + "." + cnpj[5..8] + "/" + cnpj[8..12] + "-" + cnpj[12..14], Symbols) == cnpj
  {
    var p0, p1, p2, p3, p4 := cnpj[0..2], cnpj[2..5], cnpj[5..8], cnpj[8..12], cnpj[12..14];
    forall i | 0 <= i < 14 ensures cnpj[i] !in Symbols { assert IsDigit(cnpj[i]); }
    RemoveCharsNone(p0, Symbols);
    RemoveCharsNone(p1, Symbols);
    RemoveCharsNone(p2, Symbols);
    RemoveCharsNone(p3, Symbols);
    RemoveCharsNone(p4, Symbols);
    var a1 := p0 + "." + p1;
    RemoveCharsDrop(p0, '.', p1, Symbols);
    var a2 := a1 + "." + p2;
    RemoveCharsDrop(a1, '.', p2, Symbols);
    var a3 := a2 + "/" + p3;
    RemoveCharsDrop(a2, '/', p3, Symbols);
    var f := a3 + "-" + p4;
    RemoveCharsDrop(a3, '-', p4, Symbols);
    FormatPieces(cnpj);
  }

  /** The five pieces of the mask put back together give the fourteen digits. */
  lemma FormatPieces(cnpj: string)
    requires |cnpj| == 14
    ensures cnpj == cnpj[0..2] + cnpj[2..5] + cnpj[5..8] + cnpj[8..12] + cnpj[12..14]
  {
    assert cnpj[0..5] == cnpj[0..2] + cnpj[2..5];
    assert cnpj[0..8] == cnpj[0..5] + cnpj[5..8];
    assert cnpj[0..12] == cnpj[0..8] + cnpj[8..12];
    assert cnpj == cnpj[0..12] + cnpj[12..14];
  }

  /** Every all-equal 14-character string is rejected. */
  lemma RepeatedRejected(cnpj: string)
    requires AllSame(cnpj)
    ensures !IsValid(cnpj)
  {
  }
}

/** The examples of the source's `tests` module. */
module CnpjTests {
  import opened Strings
  import opened Cnpj

  lemma FirstDigitExample(base: string)
    requires base == "123456789012"
    ensures AllDigits(base) && HashDigit(base, 13) == 3
  {
    assert AllDigits(base);
    assert Weights(13) == [5, 4, 3, 2, 9, 8, 7, 6, 5, 4, 3, 2];
    assert WeightedSum("123456789012", [5, 4, 3, 2, 9, 8, 7, 6, 5, 4, 3, 2], 6) == 123;
    assert WeightedSum("123456789012", [5, 4, 3, 2, 9, 8, 7, 6, 5, 4, 3, 2], 12) == 272;
  }

  lemma SecondDigitExample(withDigit1: string)
    requires withDigit1 == "1234567890123"
    ensures HashDigit(withDigit1, 14) == 0
  {
    assert AllDigits(withDigit1);
    assert Weights(14) == [6, 5, 4, 3, 2, 9, 8, 7, 6, 5, 4, 3, 2];
    assert WeightedSum("1234567890123", [6, 5, 4, 3, 2, 9, 8, 7, 6, 5, 4, 3, 2], 6) == 104;
    assert WeightedSum("1234567890123", [6, 5, 4, 3, 2, 9, 8, 7, 6, 5, 4, 3, 2], 13) == 286;
  }

  /** `compute_checksum("123456789012") == "30"`, the source's test vector. */
  lemma ChecksumExample(base: string)
    requires base == "123456789012"
    ensures ComputeChecksum(base) == "30"
  {
    FirstDigitExample(base);
    assert Decimal(3) == "3";
    assert base + "3" == "1234567890123";
    SecondDigitExample(base + "3");
    assert Decimal(0) == "0";
  }

  /** "03560714000142", the source's formatting example, is a valid CNPJ: check digits 4 and 2. */
  lemma ValidFormatExample(cnpj: string)
    requires cnpj == "03560714000142"
    ensures IsValid(cnpj)
  {
    FormatExampleFirstDigit(cnpj);
    FormatExampleSecondDigit(cnpj);
    assert cnpj[1] != cnpj[0] && cnpj[12] == '4' && cnpj[13] == '2';
  }

  lemma FormatExampleFirstDigit(cnpj: string)
    requires cnpj == "03560714000142"
    ensures AllDigits(cnpj) && |cnpj| == 14 && HashDigit(cnpj, 13) == 4
  {
    assert AllDigits(cnpj);
    assert Weights(13) == [5, 4, 3, 2, 9, 8, 7, 6, 5, 4, 3, 2];
    assert WeightedSum("03560714000142", [5, 4, 3, 2, 9, 8, 7, 6, 5, 4, 3, 2], 6) == 95;
    assert WeightedSum("03560714000142", [5, 4, 3, 2, 9, 8, 7, 6, 5, 4, 3, 2], 12) == 128;
  }

  lemma FormatExampleSecondDigit(cnpj: string)
    requires cnpj == "03560714000142"
    ensures AllDigits(cnpj) && HashDigit(cnpj, 14) == 2
  {
    assert AllDigits(cnpj);
    assert Weights(14) == [6, 5, 4, 3, 2, 9, 8, 7, 6, 5, 4, 3, 2];
    assert WeightedSum("03560714000142", [6, 5, 4, 3, 2, 9, 8, 7, 6, 5, 4, 3, 2], 6) == 116;
    assert WeightedSum("03560714000142", [6, 5, 4, 3, 2, 9, 8, 7, 6, 5, 4, 3, 2], 13) == 163;
  }

  /** `format_cnpj("03560714000142") == Some("03.560.714/0001-42")`. */
  lemma FormatExample(cnpj: string)
    requires cnpj == "03" + "560" + "714" + "0001" + "42"
    ensures FormatCnpj(cnpj) == Some("03.560.714/0001-42")
  {
    ValidFormatExample(cnpj);
    MaskExample(cnpj);
  }

  lemma MaskExample(cnpj: string)
    requires cnpj == "03" + "560" + "714" + "0001" + "42"
    ensures cnpj[0..2] + "." + cnpj[2..5] + "." + cnpj[5..8] + "/" + cnpj[8..12] + "-" + cnpj[12..14]
      == "03.560.714/0001-42"
  {
    assert cnpj[0..2] == "03" && cnpj[2..5] == "560" && cnpj[5..8] == "714";
    assert cnpj[8..12] == "0001" && cnpj[12..14] == "42";
  }
}
