/**
 * Título de eleitor, the voter registration number: an 8-digit sequential
 * number (9 digits in some SP and MG numbers), a 2-digit federative-union
 * code, and two verifying digits.
 */
module VoterId {
  import opened Strings

  /** `get_uf_map`: state abbreviation to federative-union code; "ZZ" is for foreigners. */
  const UfMap: map<string, string> := map[
    "SP" := "01", "MG" := "02", "RJ" := "03", "RS" := "04", "BA" := "05",
    "PR" := "06", "CE" := "07", "PE" := "08", "SC" := "09", "GO" := "10",
    "MA" := "11", "PB" := "12", "PA" := "13", "ES" := "14", "PI" := "15",
    "RN" := "16", "AL" := "17", "MT" := "18", "MS" := "19", "DF" := "20",
    "SE" := "21", "AM" := "22", "RO" := "23", "AC" := "24", "AP" := "25",
    "RR" := "26", "TO" := "27", "ZZ" := "28"
  ]

  /** The codes of SP and MG, which get the special treatment. */
  predicate IsSpOrMg(federativeUnion: string) {
    federativeUnion == "01" || federativeUnion == "02"
  }

  /** `get_sequential_number`: the first eight characters, whatever the length. */
  function SequentialNumber(voterId: string): string
    requires |voterId| >= 8
  {
    voterId[..8]
  }

  /** `get_federative_union`: the two characters before the last two. */
  function FederativeUnion(voterId: string): string
    requires |voterId| >= 4
  {
    voterId[|voterId| - 4..|voterId| - 2]
  }

  /** `get_verifying_digits`: the last two characters. */
  function VerifyingDigits(voterId: string): string
    requires |voterId| >= 2
  {
    voterId[|voterId| - 2..]
  }

  /**
   * The getters split a 12-character id into its three fields, and a
   * 13-character one into those fields around an extra ninth character that no
   * getter reads.
   */
  lemma FieldsPartition(voterId: string)
    requires |voterId| == 12 || |voterId| == 13
    ensures |voterId| == 12 ==>
      voterId == SequentialNumber(voterId) + FederativeUnion(voterId) + VerifyingDigits(voterId)
    ensures |voterId| == 13 ==>
      voterId == SequentialNumber(voterId) + [voterId[8]] + FederativeUnion(voterId) + VerifyingDigits(voterId)
  {
    if |voterId| == 12 {
      assert voterId == voterId[..8] + voterId[8..10] + voterId[10..];
    } else {
      assert voterId == voterId[..8] + [voterId[8]] + voterId[9..11] + voterId[11..];
    }
  }

  /** `is_length_valid`: 12 characters, or 13 when the code is SP's or MG's. */
  predicate IsLengthValid(voterId: string) {
    |voterId| == 12 || (|voterId| == 13 && IsSpOrMg(FederativeUnion(voterId)))
  }

  /** `is_federative_union_valid`: the code parses as a `u8` between 1 and 28. */
  function IsFederativeUnionValid(federativeUnion: string): (r: bool)
    ensures r <==> (ParseUnsigned(federativeUnion, 256).Some?
      && 1 <= ParseUnsigned(federativeUnion, 256).value <= 28)
  {
    match ParseUnsigned(federativeUnion, 256)
    case Some(num) => 1 <= num <= 28
    case None => false
  }

  lemma {:induction false} ValueOfTwo(s: string)
    requires |s| == 2 && AllDigits(s)
    ensures Value(s) == 10 * DigitValue(s[0]) + DigitValue(s[1])
  {
    var first := s[..1];
    assert first[..0] == [] && first[0] == s[0];
    assert Value(first) == 10 * Value(first[..0]) + DigitValue(first[0]);
  }

  /** On two digits the code is valid exactly when its value lies in 1..28. */
  lemma FederativeUnionRange(federativeUnion: string)
    requires |federativeUnion| == 2 && AllDigits(federativeUnion)
    ensures IsFederativeUnionValid(federativeUnion) <==>
      1 <= 10 * DigitValue(federativeUnion[0]) + DigitValue(federativeUnion[1]) <= 28
  {
    ValueOfTwo(federativeUnion);
  }

  /** Every code in the table is two digits and passes `is_federative_union_valid`. */
  lemma UfMapCodesValid(uf: string)
    requires uf in UfMap
    ensures |UfMap[uf]| == 2 && AllDigits(UfMap[uf]) && IsFederativeUnionValid(UfMap[uf])
  {
    FederativeUnionRange(UfMap[uf]);
  }

  /** Conversely, every two-digit code that passes `is_federative_union_valid` is in the table. */
  lemma FederativeUnionInTable(federativeUnion: string)
    requires |federativeUnion| == 2 && AllDigits(federativeUnion) && IsFederativeUnionValid(federativeUnion)
    ensures federativeUnion in UfMap.Values
  {
    FederativeUnionRange(federativeUnion);
    var tens, ones := DigitValue(federativeUnion[0]), DigitValue(federativeUnion[1]);
    assert federativeUnion == [DigitChar(tens), DigitChar(ones)];
    if tens == 0 {
      TensInTable0(federativeUnion, ones);
    } else if tens == 1 {
      TensInTable1(federativeUnion, ones);
    } else {
      TensInTable2(federativeUnion, ones);
    }
  }

  lemma TensInTable0(federativeUnion: string, ones: nat)
    requires 1 <= ones <= 9 && federativeUnion == ['0', DigitChar(ones)]
    ensures federativeUnion in UfMap.Values
  {
    if ones == 1 {
      assert UfMap["SP"] == federativeUnion;
    } else if ones == 2 {
      assert UfMap["MG"] == federativeUnion;
    } else if ones == 3 {
      assert UfMap["RJ"] == federativeUnion;
    } else if ones == 4 {
      assert UfMap["RS"] == federativeUnion;
    } else if ones == 5 {
      assert UfMap["BA"] == federativeUnion;
    } else if ones == 6 {
      assert UfMap["PR"] == federativeUnion;
    } else if ones == 7 {
      assert UfMap["CE"] == federativeUnion;
    } else if ones == 8 {
      assert UfMap["PE"] == federativeUnion;
    } else {
      assert UfMap["SC"] == federativeUnion;
    }
  }

  lemma TensInTable1(federativeUnion: string, ones: nat)
    requires 0 <= ones <= 9 && federativeUnion == ['1', DigitChar(ones)]
    ensures federativeUnion in UfMap.Values
  {
    if ones == 0 {
      assert UfMap["GO"] == federativeUnion;
    } else if ones == 1 {
      assert UfMap["MA"] == federativeUnion;
    } else if ones == 2 {
      assert UfMap["PB"] == federativeUnion;
    } else if ones == 3 {
      assert UfMap["PA"] == federativeUnion;
    } else if ones == 4 {
      assert UfMap["ES"] == federativeUnion;
    } else if ones == 5 {
      assert UfMap["PI"] == federativeUnion;
    } else if ones == 6 {
      assert UfMap["RN"] == federativeUnion;
    } else if ones == 7 {
      assert UfMap["AL"] == federativeUnion;
    } else if ones == 8 {
      assert UfMap["MT"] == federativeUnion;
    } else {
      assert UfMap["MS"] == federativeUnion;
    }
  }

  lemma TensInTable2(federativeUnion: string, ones: nat)
    requires 0 <= ones <= 8 && federativeUnion == ['2', DigitChar(ones)]
    ensures federativeUnion in UfMap.Values
  {
    if ones == 0 {
      assert UfMap["DF"] == federativeUnion;
    } else if ones == 1 {
      assert UfMap["SE"] == federativeUnion;
    } else if ones == 2 {
      assert UfMap["AM"] == federativeUnion;
    } else if ones == 3 {
      assert UfMap["RO"] == federativeUnion;
    } else if ones == 4 {
      assert UfMap["AC"] == federativeUnion;
    } else if ones == 5 {
      assert UfMap["AP"] == federativeUnion;
    } else if ones == 6 {
      assert UfMap["RR"] == federativeUnion;
    } else if ones == 7 {
      assert UfMap["TO"] == federativeUnion;
    } else {
      assert UfMap["ZZ"] == federativeUnion;
    }
  }

  /** `Σ_{i<n} digit(s[i]) * (i + 2)` */
  function Vd1Sum(s: string, n: nat): nat
    requires n <= |s| && n <= 8
  {
    if n == 0 then 0 else Vd1Sum(s, n - 1) + DigitOr0(s[n - 1]) * (n + 1)
  }

  /** The rest mod 11 made a digit: 0 becomes 1 for SP and MG, 10 becomes 0. */
  function Adjust(rest: nat, federativeUnion: string): (vd: nat)
    requires rest < 11
    ensures vd < 10
    ensures rest == 0 && IsSpOrMg(federativeUnion) ==> vd == 1
    ensures rest == 10 ==> vd == 0
    ensures 0 < rest < 10 || (rest == 0 && !IsSpOrMg(federativeUnion)) ==> vd == rest
  {
    if rest == 0 && IsSpOrMg(federativeUnion) then 1
    else if rest == 10 then 0
    else rest
  }

  /** The first verifying digit: 0 for a sequential number shorter than 8. */
  function Vd1(sequentialNumber: string, federativeUnion: string): (vd: nat)
    ensures vd < 10
  {
    if |sequentialNumber| < 8 then 0
    else Adjust(Vd1Sum(sequentialNumber, 8) % 11, federativeUnion)
  }

  /** The second verifying digit, over the two code digits and the first verifying digit. */
  function Vd2(federativeUnion: string, vd1: nat): (vd: nat)
    ensures vd < 10
  {
    if |federativeUnion| < 2 then 0
    else
      var sum := DigitOr0(federativeUnion[0]) * 7 + DigitOr0(federativeUnion[1]) * 8 + vd1 * 9;
      Adjust(sum % 11, federativeUnion)
  }

  /** `calculate_vd1` */
  method CalculateVd1(sequentialNumber: string, federativeUnion: string) returns (vd1: nat)
    ensures vd1 == Vd1(sequentialNumber, federativeUnion)
  {
    if |sequentialNumber| < 8 {
      return 0;
    }
    var weights := [2, 3, 4, 5, 6, 7, 8, 9];
    var sum := 0;
    var i := 0;
    while i < |weights|
      invariant 0 <= i <= |weights|
      invariant sum == Vd1Sum(sequentialNumber, i)
    {
      if IsDigit(sequentialNumber[i]) {
        sum := sum + DigitValue(sequentialNumber[i]) * weights[i];
      }
      i := i + 1;
    }
    var rest := sum % 11;
    vd1 := rest;
    if rest == 0 && (federativeUnion == "01" || federativeUnion == "02") {
      vd1 := 1;
    }
    if rest == 10 {
      vd1 := 0;
    }
  }

  /** `calculate_vd2` */
  method CalculateVd2(federativeUnion: string, vd1: nat) returns (vd2: nat)
    ensures vd2 == Vd2(federativeUnion, vd1)
  {
    if |federativeUnion| < 2 {
      return 0;
    }
    var weights := [7, 8, 9];
    var sum := 0;
    if IsDigit(federativeUnion[0]) {
      sum := sum + DigitValue(federativeUnion[0]) * weights[0];
    }
    if IsDigit(federativeUnion[1]) {
      sum := sum + DigitValue(federativeUnion[1]) * weights[1];
    }
    sum := sum + vd1 * weights[2];
    var rest := sum % 11;
    vd2 := rest;
    if rest == 0 && (federativeUnion == "01" || federativeUnion == "02") {
      vd2 := 1;
    }
    if rest == 10 {
      vd2 := 0;
    }
  }

  /** What `is_valid` accepts. */
  predicate Valid(voterId: string) {
    AllDigits(voterId) && IsLengthValid(voterId)
    && var uf := FederativeUnion(voterId);
    var vd := VerifyingDigits(voterId);
    IsFederativeUnionValid(uf)
    && DigitValue(vd[0]) == Vd1(SequentialNumber(voterId), uf)
    && DigitValue(vd[1]) == Vd2(uf, Vd1(SequentialNumber(voterId), uf))
  }

  /** `is_valid` */
  method IsValid(voterId: string) returns (valid: bool)
    ensures valid <==> Valid(voterId)
  {
    if !AllDigits(voterId) {
      return false;
    }
    if !IsLengthValid(voterId) {
      return false;
    }
    var sequentialNumber := SequentialNumber(voterId);
    var federativeUnion := FederativeUnion(voterId);
    var verifyingDigits := VerifyingDigits(voterId);
    if !IsFederativeUnionValid(federativeUnion) {
      return false;
    }
    var vd1 := CalculateVd1(sequentialNumber, federativeUnion);
    if vd1 != DigitValue(verifyingDigits[0]) {
      return false;
    }
    var vd2 := CalculateVd2(federativeUnion, vd1);
    if vd2 != DigitValue(verifyingDigits[1]) {
      return false;
    }
    return true;
  }

  /** A 13-digit id is accepted only with the SP or MG code. */
  lemma ThirteenOnlySpMg(voterId: string)
    requires Valid(voterId) && |voterId| == 13
    ensures IsSpOrMg(FederativeUnion(voterId))
  {
  }

  /** The ninth digit of a 13-digit id is never checked: any digit there keeps it valid. */
  lemma NinthDigitUnchecked(voterId: string, c: char)
    requires Valid(voterId) && |voterId| == 13 && IsDigit(c)
    ensures Valid(voterId[8 := c])
  {
    var changed := voterId[8 := c];
    assert SequentialNumber(changed) == SequentialNumber(voterId);
    assert FederativeUnion(changed) == FederativeUnion(voterId);
    assert VerifyingDigits(changed) == VerifyingDigits(voterId);
  }

  /** `format_voter_id`: "XXXX XXXX XX XX" from the first twelve characters of a valid id. */
  function FormatVoterId(voterId: string): (r: Option<string>)
    ensures r.Some? <==> Valid(voterId)
    ensures r.Some? ==> |r.value| == 15 && RemoveChars(r.value, {' '}) == voterId[..12]
    ensures r.Some? ==> Masked(voterId, r.value)
  {
    if !Valid(voterId) then None
    else
      FormatRoundTrip(voterId);
      FormatMask(voterId);
      Some(voterId[0..4] + " " + voterId[4..8] + " " + voterId[8..10] + " " + voterId[10..12])
  }

  /**
   * `f` is the first twelve characters of `voterId` in the mask "XXXX XXXX XX XX":
   * spaces at 4, 9 and 12, and the digit groups in order between them.
   */
  predicate Masked(voterId: string, f: string) {
    && |voterId| >= 12 && |f| == 15
    && f[4] == ' ' && f[9] == ' ' && f[12] == ' '
    && f[..4] == voterId[..4] && f[5..9] == voterId[4..8] && f[10..12] == voterId[8..10]
    && f[13..] == voterId[10..12]
  }

  lemma FormatMask(voterId: string)
    requires |voterId| >= 12
    ensures Masked(voterId, voterId[0..4] + " " + voterId[4..8] + " " + voterId[8..10] + " " + voterId[10..12])
  {
  }

  lemma FormatRoundTrip(voterId: string)
    requires |voterId| >= 12 && AllDigits(voterId)
    ensures RemoveChars(voterId[0..4] + " " + voterId[4..8] + " " + voterId[8..10] + " " + voterId[10..12], {' '})
      == voterId[..12]
  {
    var cs := {' '};
    var p0, p1, p2, p3 := voterId[0..4], voterId[4..8], voterId[8..10], voterId[10..12];
    forall i | 0 <= i < 12 ensures voterId[i] !in cs { assert IsDigit(voterId[i]); }
    RemoveCharsNone(p0, cs);
    RemoveCharsNone(p1, cs);
    RemoveCharsNone(p2, cs);
    RemoveCharsNone(p3, cs);
    var a1 := p0 + " " + p1;
    RemoveCharsDrop(p0, ' ', p1, cs);
    var a2 := a1 + " " + p2;
    RemoveCharsDrop(a1, ' ', p2, cs);
    RemoveCharsDrop(a2, ' ', p3, cs);
    assert voterId[..12] == p0 + p1 + p2 + p3;
  }

  /** A 13-digit id loses its last digit when formatted. */
  lemma FormatDropsThirteenth(voterId: string)
    requires Valid(voterId) && |voterId| == 13
    ensures FormatVoterId(voterId).Some? && RemoveChars(FormatVoterId(voterId).value, {' '}) != voterId
  {
  }

  /** The id `generate` builds from a code and a draw below 10^8. */
  function Generated(ufNumber: string, draw: nat): (voterId: string)
    requires |ufNumber| == 2 && AllDigits(ufNumber) && IsFederativeUnionValid(ufNumber)
    requires draw < 100000000
    ensures |voterId| == 12 && Valid(voterId)
    ensures FederativeUnion(voterId) == ufNumber
    ensures Value(SequentialNumber(voterId)) == draw
  {
    var sequentialNumber := Pad(draw, 8);
    PadValue(draw, 8);
    assert Pow10(8) == 100000000;
    var vd1 := Vd1(sequentialNumber, ufNumber);
    var vd2 := Vd2(ufNumber, vd1);
    DigitCharValue(vd1);
    DigitCharValue(vd2);
    var voterId := sequentialNumber + ufNumber + Decimal(vd1) + Decimal(vd2);
    assert SequentialNumber(voterId) == sequentialNumber;
    assert FederativeUnion(voterId) == ufNumber;
    assert VerifyingDigits(voterId) == Decimal(vd1) + Decimal(vd2);
    voterId
  }

  /** The table key `generate` looks up: the given abbreviation upper-cased, "ZZ" by default. */
  function UfKey(federativeUnion: Option<string>): string {
    match federativeUnion
    case None => "ZZ"
    case Some(uf) => Upper(uf)
  }

  /** `generate`, with the random draw of the sequential number as a parameter. */
  method Generate(federativeUnion: Option<string>, draw: nat) returns (r: Option<string>)
    requires draw < 100000000
    ensures r.Some? <==> UfKey(federativeUnion) in UfMap
    ensures r.Some? ==> (UfMapCodesOk(UfKey(federativeUnion))
      && r.value == Generated(UfMap[UfKey(federativeUnion)], draw))
  {
    var uf := match federativeUnion case None => "ZZ" case Some(s) => Upper(s);
    if uf in UfMap {
      var ufNumber := UfMap[uf];
      UfMapCodesValid(uf);
      if IsFederativeUnionValid(ufNumber) {
        var sequentialNumber := Pad(draw, 8);
        var vd1 := CalculateVd1(sequentialNumber, ufNumber);
        var vd2 := CalculateVd2(ufNumber, vd1);
        return Some(sequentialNumber + ufNumber + Decimal(vd1) + Decimal(vd2));
      }
    }
    return None;
  }

  predicate UfMapCodesOk(uf: string) {
    uf in UfMap && |UfMap[uf]| == 2 && AllDigits(UfMap[uf]) && IsFederativeUnionValid(UfMap[uf])
  }

  /** Every valid 12-digit id is what `generate` builds from its own code and sequential number. */
  lemma GenerateComplete(voterId: string)
    requires Valid(voterId) && |voterId| == 12
    ensures Value(SequentialNumber(voterId)) < 100000000
    ensures Generated(FederativeUnion(voterId), Value(SequentialNumber(voterId))) == voterId
  {
    var s := SequentialNumber(voterId);
    ValueBound(s);
    assert Pow10(8) == 100000000;
    PadOfValue(s);
    var vd := VerifyingDigits(voterId);
    DigitCharValue(DigitValue(vd[0]));
    DigitCharValue(DigitValue(vd[1]));
    assert vd == Decimal(DigitValue(vd[0])) + Decimal(DigitValue(vd[1]));
    FieldsPartition(voterId);
  }
}

/** The sample ids and digits of the source's `tests` module. */
module VoterIdTests {
  import opened Strings
  import opened VoterId

  /** `calculate_vd1("69084709", "28") == 2` and `calculate_vd2("28", 2) == 8`. */
  lemma VerifyingDigitsExample()
    ensures Vd1("69084709", "28") == 2 && Vd2("28", 2) == 8
  {
    assert Vd1Sum("69084709", 4) == 79;
    assert Vd1Sum("69084709", 8) == 233;
  }

  /** `calculate_vd1("16320401", "09") == 2` and `calculate_vd2("09", 2) == 2`. */
  lemma VerifyingDigitsExample2()
    ensures Vd1("16320401", "09") == 2 && Vd2("09", 2) == 2
  {
    assert Vd1Sum("16320401", 4) == 42;
    assert Vd1Sum("16320401", 8) == 79;
  }

  lemma SampleFields()
    ensures AllDigits("690847092828")
    ensures SequentialNumber("690847092828") == "69084709"
    ensures FederativeUnion("690847092828") == "28"
    ensures VerifyingDigits("690847092828") == "28"
  {
    assert AllDigits("690847092828");
  }

  /** "690847092828" is valid. */
  lemma ValidExample()
    ensures Valid("690847092828")
  {
    SampleFields();
    VerifyingDigitsExample();
    FederativeUnionRange("28");
  }

  /** `format_voter_id("690847092828")` is "6908 4709 28 28". */
  lemma FormatExample()
    ensures FormatVoterId("690847092828") == Some("6908 4709 28 28")
  {
    ValidExample();
    var v := "690847092828";
    assert v[0..4] + " " + v[4..8] + " " + v[8..10] + " " + v[10..12] == "6908 4709 28 28";
  }

  /** "123456789012" is rejected: its code "90" is out of range. */
  lemma RejectedExample()
    ensures !Valid("123456789012")
  {
    assert AllDigits("123456789012");
    assert FederativeUnion("123456789012") == "90";
    FederativeUnionRange("90");
  }

  /** Codes outside 01..28 are rejected; the parser's optional `+` lets "+9" through. */
  lemma FederativeUnionExamples()
    ensures IsFederativeUnionValid("01") && IsFederativeUnionValid("28")
    ensures !IsFederativeUnionValid("00") && !IsFederativeUnionValid("29") && !IsFederativeUnionValid("XX")
    ensures IsFederativeUnionValid("+9")
  {
    FederativeUnionRange("01");
    FederativeUnionRange("28");
    FederativeUnionRange("00");
    FederativeUnionRange("29");
    assert UnsignedDigits("+9") == "9";
  }

  /** `generate` looks up "SP" as "01", defaults to "ZZ" = "28", and has no entry for "XX". */
  lemma GenerateKeys()
    ensures UfKey(Some("SP")) == "SP" && UfMap["SP"] == "01"
    ensures UfKey(Some("sp")) == "SP"
    ensures UfKey(None) == "ZZ" && UfMap["ZZ"] == "28"
    ensures UfKey(Some("XX")) !in UfMap
  {
    UpperKey("SP");
    UpperKey("sp");
    UpperKey("XX");
    UnknownKey("XX");
    KnownKeys("SP", "ZZ");
  }

  lemma KnownKeys(sp: string, zz: string)
    requires sp == "SP" && zz == "ZZ"
    ensures sp in UfMap && UfMap[sp] == "01"
    ensures zz in UfMap && UfMap[zz] == "28"
  {
  }

  lemma UpperKey(uf: string)
    requires uf == "SP" || uf == "sp" || uf == "XX"
    ensures UfKey(Some(uf)) == if uf == "XX" then "XX" else "SP"
  {
    var u := Upper(uf);
    assert |u| == 2 && u[0] == UpperChar(uf[0]) && u[1] == UpperChar(uf[1]);
  }

  lemma UnknownKey(key: string)
    requires key == "XX"
    ensures key !in UfMap
  {
  }
}
