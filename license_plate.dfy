/**
 * Brazilian vehicle plates: the old pattern LLLNNNN and the Mercosul
 * pattern LLLNLNN (L an ASCII letter, N an ASCII digit), their validation,
 * formatting, old-to-Mercosul conversion and generation.
 */
module LicensePlate {
  import opened Strings

  /** The pattern strings `get_format` returns and `generate` accepts. */
  const OldFormat: string := "LLLNNNN"
  const MercosulFormat: string := "LLLNLNN"

  /**
   * `plate` follows the pattern string `format`: same length, a letter where
   * the pattern has 'L' and a digit where it has 'N'.
   */
  predicate Matches(plate: string, format: string) {
    |plate| == |format|
    && forall i :: 0 <= i < |format| ==>
         (format[i] == 'L' ==> IsAsciiAlpha(plate[i])) && (format[i] == 'N' ==> IsDigit(plate[i]))
  }

  /** Three letters, then four digits. */
  predicate OldPattern(p: string) {
    |p| == 7 && IsAsciiAlpha(p[0]) && IsAsciiAlpha(p[1]) && IsAsciiAlpha(p[2])
    && IsDigit(p[3]) && IsDigit(p[4]) && IsDigit(p[5]) && IsDigit(p[6])
  }

  /** Three letters, a digit, a letter, two digits. */
  predicate MercosulPattern(p: string) {
    |p| == 7 && IsAsciiAlpha(p[0]) && IsAsciiAlpha(p[1]) && IsAsciiAlpha(p[2])
    && IsDigit(p[3]) && IsAsciiAlpha(p[4]) && IsDigit(p[5]) && IsDigit(p[6])
  }

  /** The two pattern strings describe the two patterns. */
  lemma PatternStrings(p: string)
    ensures Matches(p, OldFormat) <==> OldPattern(p)
    ensures Matches(p, MercosulFormat) <==> MercosulPattern(p)
  {
    if OldPattern(p) {
      forall i | 0 <= i < 7
        ensures (OldFormat[i] == 'L' ==> IsAsciiAlpha(p[i])) && (OldFormat[i] == 'N' ==> IsDigit(p[i]))
      {
      }
    }
    if MercosulPattern(p) {
      forall i | 0 <= i < 7
        ensures (MercosulFormat[i] == 'L' ==> IsAsciiAlpha(p[i])) && (MercosulFormat[i] == 'N' ==> IsDigit(p[i]))
      {
      }
    }
    if Matches(p, OldFormat) {
      assert OldFormat[0] == 'L' && OldFormat[1] == 'L' && OldFormat[2] == 'L';
      assert OldFormat[3] == 'N' && OldFormat[4] == 'N' && OldFormat[5] == 'N' && OldFormat[6] == 'N';
    }
    if Matches(p, MercosulFormat) {
      assert MercosulFormat[0] == 'L' && MercosulFormat[1] == 'L' && MercosulFormat[2] == 'L';
      assert MercosulFormat[3] == 'N' && MercosulFormat[4] == 'L' && MercosulFormat[5] == 'N';
      assert MercosulFormat[6] == 'N';
    }
  }

  /** `remove_symbols`: every '-' deleted. */
  function RemoveSymbols(plate: string): (r: string)
    ensures r == RemoveChars(plate, {'-'})
    ensures forall i :: 0 <= i < |r| ==> r[i] != '-'
    ensures forall c :: c != '-' ==> (c in r <==> c in plate)
  {
    var r := RemoveChars(plate, {'-'});
    forall c | c != '-' ensures c in r <==> c in plate {
      RemoveCharsKeeps(plate, {'-'}, c);
    }
    r
  }

  /**
   * `is_valid_old_format`: after trimming and uppercasing, seven characters,
   * three letters then four digits. Case does not matter, so this is the
   * old pattern on the trimmed text.
   */
  function IsValidOldFormat(plate: string): (r: bool)
    ensures r <==> OldPattern(Trim(plate))
  {
    var p := Upper(Trim(plate));
    if |p| != 7 then false
    else if !(forall i | 0 <= i < 3 :: IsAsciiAlpha(p[i])) then false
    else forall i | 3 <= i < 7 :: IsDigit(p[i])
  }

  /**
   * `is_valid_mercosul`: after trimming and uppercasing, seven characters:
   * three letters, a digit, a letter, two digits.
   */
  function IsValidMercosul(plate: string): (r: bool)
    ensures r <==> MercosulPattern(Trim(plate))
  {
    var p := Upper(Trim(plate));
    if |p| != 7 then false
    else if !(forall i | 0 <= i < 3 :: IsAsciiAlpha(p[i])) then false
    else if !IsDigit(p[3]) then false
    else if !IsAsciiAlpha(p[4]) then false
    else forall i | 5 <= i < 7 :: IsDigit(p[i])
  }

  /** No plate follows both patterns: they differ at index 4. */
  lemma FormatsDisjoint(plate: string)
    ensures !(IsValidOldFormat(plate) && IsValidMercosul(plate))
  {
  }

  /** Uppercasing a plate first changes neither verdict. */
  lemma UpperKeepsVerdicts(plate: string)
    ensures IsValidOldFormat(Upper(plate)) == IsValidOldFormat(plate)
    ensures IsValidMercosul(Upper(plate)) == IsValidMercosul(plate)
  {
    TrimUpper(plate);
  }

  /**
   * `get_format`: the pattern string the plate follows, the old one
   * checked first.
   */
  function GetFormat(plate: string): (r: Option<string>)
    ensures r.Some? ==> Matches(Trim(plate), r.value)
    ensures r == Some(OldFormat) <==> IsValidOldFormat(plate)
    ensures r == Some(MercosulFormat) <==> IsValidMercosul(plate)
    ensures r.None? <==> !Matches(Trim(plate), OldFormat) && !Matches(Trim(plate), MercosulFormat)
  {
    PatternStrings(Trim(plate));
    if IsValidOldFormat(plate) then Some(OldFormat)
    else if IsValidMercosul(plate) then Some(MercosulFormat)
    else None
  }

  /**
   * `is_valid`: "old_format" and "mercosul" select one pattern; no format,
   * or any other string, accepts either. In terms of `GetFormat`: the plate
   * has a format, and it is the selected one when one is selected.
   */
  function IsValid(plate: string, format: Option<string>): (r: bool)
    ensures r <==> GetFormat(plate).Some?
                   && (format == Some("old_format") ==> GetFormat(plate) == Some(OldFormat))
                   && (format == Some("mercosul") ==> GetFormat(plate) == Some(MercosulFormat))
  {
    FormatsDisjoint(plate);
    match format
    case Some(f) =>
      if f == "old_format" then IsValidOldFormat(plate)
      else if f == "mercosul" then IsValidMercosul(plate)
      else IsValidOldFormat(plate) || IsValidMercosul(plate)
    case None => IsValidOldFormat(plate) || IsValidMercosul(plate)
  }

  /**
   * `format_license_plate`: an old plate, uppercased, with a dash after the
   * letters; a Mercosul plate uppercased; anything else rejected. On a plate
   * without surrounding whitespace the dash is the only character added.
   */
  function FormatLicensePlate(plate: string): (r: Option<string>)
    ensures r.Some? <==> IsValid(plate, None)
    ensures IsValidMercosul(plate) ==> r == Some(Upper(plate))
    ensures Trim(plate) == plate && IsValidOldFormat(plate) ==>
              |r.value| == 8 && r.value[3] == '-' && RemoveSymbols(r.value) == Upper(plate)
  {
    var p := Upper(plate);
    UpperKeepsVerdicts(plate);
    FormatsDisjoint(plate);
    OldDashed(plate);
    if IsValidOldFormat(p) then Some(p[0..3] + "-" + p[3..])
    else if IsValidMercosul(p) then Some(p)
    else None
  }

  /** An old-format plate is upper-cased and gets a dash after its three letters. */
  lemma FormatOldPlate(plate: string)
    requires OldPattern(plate)
    ensures FormatLicensePlate(plate) == Some(Upper(plate)[0..3] + "-" + Upper(plate)[3..])
  {
    PatternTrimmed(plate);
    UpperKeepsVerdicts(plate);
  }

  /** A Mercosul plate is only upper-cased. */
  lemma FormatMercosulPlate(plate: string)
    requires MercosulPattern(plate)
    ensures FormatLicensePlate(plate) == Some(Upper(plate))
    ensures GetFormat(plate) == Some(MercosulFormat)
  {
    PatternTrimmed(plate);
  }

  /** On an old plate without surrounding whitespace the dash is the only character inserted. */
  lemma OldDashed(plate: string)
    ensures Trim(plate) == plate && IsValidOldFormat(plate) ==>
              var p := Upper(plate);
              var formatted := p[0..3] + "-" + p[3..];
              |formatted| == 8 && formatted[3] == '-' && RemoveSymbols(formatted) == p
  {
    if Trim(plate) == plate && IsValidOldFormat(plate) {
      assert OldPattern(Trim(plate));
      assert OldPattern(Upper(plate));
      DashRemoved(Upper(plate));
    }
  }

  /** Removing the dash from a dashed old plate gives the plate back. */
  lemma DashRemoved(p: string)
    requires OldPattern(p)
    ensures var formatted := p[0..3] + "-" + p[3..];
      |formatted| == 8 && formatted[3] == '-' && RemoveSymbols(formatted) == p
  {
    RemoveCharsNone(p[0..3], {'-'});
    RemoveCharsNone(p[3..], {'-'});
    RemoveCharsDrop(p[0..3], '-', p[3..], {'-'});
    assert p[0..3] + p[3..] == p;
  }

  /** The letter `char::from_u32('A' as u32 + n)` for n < 26. */
  function LetterOf(n: nat): (c: char)
    requires n < 26
    ensures IsAsciiUpper(c) && IsAsciiAlpha(c)
  {
    ('A' as int + n) as char
  }

  /**
   * The characters of a plate after the conversion's one write: a digit at
   * index 4 becomes the letter with the same rank (0 to 'A', ..., 9 to 'J');
   * anything else there is left as it is.
   */
  function DigitToLetterAt4(chars: string): string
    requires |chars| > 4
  {
    if IsDigit(chars[4]) then chars[4 := LetterOf(DigitValue(chars[4]))] else chars
  }

  /** Every plate that `IsValidOldFormat` accepts has at least seven characters. */
  lemma ValidOldLength(plate: string)
    requires IsValidOldFormat(plate)
    ensures |Upper(plate)| >= 7
  {
  }

  /**
   * `convert_to_mercosul`: rejects a plate that is not old format; otherwise
   * uppercases the characters of the plate as given and overwrites index 4.
   */
  method ConvertToMercosul(plate: string) returns (r: Option<string>)
    ensures r.None? <==> !IsValidOldFormat(plate)
    ensures r.Some? ==> |plate| >= 7 && r.value == DigitToLetterAt4(Upper(plate))
    ensures r.Some? ==> |r.value| == |plate|
                        && forall i :: 0 <= i < |plate| && i != 4 ==> r.value[i] == UpperChar(plate[i])
  {
    if !IsValidOldFormat(plate) {
      return None;
    }
    var chars := Upper(plate);
    if IsDigit(chars[4]) {
      chars := chars[4 := LetterOf(DigitValue(chars[4]))];
    }
    return Some(chars);
  }

  /** A plate following either pattern starts and ends with a letter or digit, so trimming keeps it. */
  lemma PatternTrimmed(p: string)
    requires OldPattern(p) || MercosulPattern(p)
    ensures Trim(p) == p
    ensures IsValidOldFormat(p) == OldPattern(p) && IsValidMercosul(p) == MercosulPattern(p)
  {
    AlnumNotWhitespace(p[0]);
    AlnumNotWhitespace(p[|p| - 1]);
    TrimNoop(p);
    assert OldPattern(Trim(p)) == OldPattern(p);
    assert MercosulPattern(Trim(p)) == MercosulPattern(p);
  }

  /** Rewriting index 4 of an old pattern, uppercased, gives the Mercosul pattern. */
  lemma DigitToLetterOfOld(p: string)
    requires OldPattern(p)
    ensures MercosulPattern(DigitToLetterAt4(Upper(p)))
    ensures DigitToLetterAt4(Upper(p))[4] == LetterOf(DigitValue(p[4]))
  {
    var u := Upper(p);
    assert OldPattern(u) && u[4] == p[4];
  }

  /**
   * On an old plate without surrounding whitespace the conversion yields a
   * Mercosul plate whose index-4 letter encodes the old digit.
   */
  lemma ConvertedIsMercosul(plate: string)
    requires IsValidOldFormat(plate) && Trim(plate) == plate
    ensures IsValidMercosul(DigitToLetterAt4(Upper(plate)))
    ensures DigitToLetterAt4(Upper(plate))[4] == LetterOf(DigitValue(plate[4]))
  {
    DigitToLetterOfOld(plate);
    PatternTrimmed(DigitToLetterAt4(Upper(plate)));
  }

  /**
   * Distinct old plates (up to case) convert to distinct Mercosul plates;
   * the old-pattern plates are the valid ones without surrounding whitespace.
   */
  lemma ConvertInjective(a: string, b: string)
    requires OldPattern(a) && OldPattern(b)
    requires DigitToLetterAt4(Upper(a)) == DigitToLetterAt4(Upper(b))
    ensures Upper(a) == Upper(b)
  {
    DigitToLetterOfOld(a);
    DigitToLetterOfOld(b);
    var ua, ub := Upper(a), Upper(b);
    assert DigitValue(a[4]) == DigitValue(b[4]);
    DigitCharValue(DigitValue(a[4]));
    assert ua[4] == a[4] == b[4] == ub[4];
    forall i | 0 <= i < 7 && i != 4 ensures ua[i] == ub[i] {
      assert ua[i] == DigitToLetterAt4(ua)[i];
      assert ub[i] == DigitToLetterAt4(ub)[i];
    }
  }

  /**
   * The conversion with the plate trimmed before it is rewritten, as the
   * validation that guards it trims: every accepted plate converts to a
   * Mercosul plate.
   */
  method ConvertTrimmedToMercosul(plate: string) returns (r: Option<string>)
    ensures r.None? <==> !IsValidOldFormat(plate)
    ensures r.Some? ==> IsValidMercosul(r.value) && |r.value| == 7
    ensures r.Some? ==> r.value == DigitToLetterAt4(Upper(Trim(plate)))
  {
    if !IsValidOldFormat(plate) {
      return None;
    }
    var trimmed := Trim(plate);
    TrimNoop(trimmed);
    assert IsValidOldFormat(trimmed);
    var chars := Upper(trimmed);
    if IsDigit(chars[4]) {
      chars := chars[4 := LetterOf(DigitValue(chars[4]))];
    }
    ConvertedIsMercosul(trimmed);
    return Some(chars);
  }

  /**
   * As written, conversion rewrites the untrimmed text: an old plate with a
   * leading space passes the (trimming) validation, but the digit replaced
   * is the one at index 4 of the untrimmed text, and the result fails the
   * Mercosul validation.
   */
  lemma ConvertUntrimmedBreaks(plate: string)
    requires plate == " ABC1234"
    ensures IsValidOldFormat(plate)
    ensures DigitToLetterAt4(Upper(plate)) == " ABCB234"
    ensures !IsValidMercosul(DigitToLetterAt4(Upper(plate)))
  {
    LeadingOld(plate, "ABC1234");
    UpperLeadingSpace(plate);
    ConvertedLeading(plate, " ABCB234");
    LeadingNotMercosul(" ABCB234", "ABCB234");
  }

  /** Trimming a single leading space. */
  lemma LeadingSpaceTrimmed(s: string, t: string)
    requires |s| > 1 && s[0] == ' ' && t == s[1..]
    requires !IsWhitespace(t[0]) && !IsWhitespace(t[|t| - 1])
    ensures Trim(s) == t
  {
    TrimNoop(t);
  }

  lemma LeadingOld(plate: string, t: string)
    requires plate == " ABC1234" && t == "ABC1234"
    ensures Trim(plate) == t && IsValidOldFormat(plate)
  {
    assert OldPattern(t);
    LeadingSpaceTrimmed(plate, t);
  }

  lemma UpperLeadingSpace(plate: string)
    requires plate == " ABC1234"
    ensures Upper(plate) == plate
  {
    assert Upper(plate)[..4] == plate[..4];
    assert Upper(plate)[4..] == plate[4..];
    assert plate == plate[..4] + plate[4..];
  }

  lemma ConvertedLeading(plate: string, converted: string)
    requires plate == " ABC1234" && converted == " ABCB234"
    ensures DigitToLetterAt4(plate) == converted
  {
    assert plate[4] == '1' && DigitValue('1') == 1;
  }

  lemma LeadingNotMercosul(converted: string, t: string)
    requires converted == " ABCB234" && t == "ABCB234"
    ensures Trim(converted) == t && !IsValidMercosul(converted)
  {
    assert !MercosulPattern(t);
    LeadingSpaceTrimmed(converted, t);
  }

  /**
   * As written, formatting inserts the dash after index 3 of the untrimmed
   * text, so an old plate with a leading space is dashed inside its letters.
   */
  lemma FormatUntrimmedBreaks(plate: string)
    requires plate == " abc1234"
    ensures IsValidOldFormat(plate)
    ensures FormatLicensePlate(plate) == Some(" AB-C1234")
  {
    LeadingLowerOld(plate, "abc1234");
    UpperLeadingSpaceLower(plate);
    UpperKeepsVerdicts(plate);
    DashedLeadingSpace(Upper(plate));
  }

  lemma LeadingLowerOld(plate: string, t: string)
    requires plate == " abc1234" && t == "abc1234"
    ensures Trim(plate) == t && IsValidOldFormat(plate)
  {
    assert OldPattern(t);
    LeadingSpaceTrimmed(plate, t);
  }

  lemma UpperLeadingSpaceLower(plate: string)
    requires plate == " abc1234"
    ensures Upper(plate) == " ABC1234"
  {
    assert Upper(plate)[..4] == " ABC";
    assert Upper(plate)[4..] == plate[4..];
    assert " ABC1234" == " ABC" + plate[4..];
  }

  lemma DashedLeadingSpace(u: string)
    requires u == " ABC1234"
    ensures u[0..3] + "-" + u[3..] == " AB-C1234"
  {
  }

  /**
   * Formatting the trimmed plate, as evidently intended: an accepted old
   * plate gets its dash right after its three letters, and removing the
   * dash gives back the upper-cased trimmed plate.
   */
  function FormatTrimmedLicensePlate(plate: string): (r: Option<string>)
    ensures r.Some? <==> IsValid(plate, None)
    ensures IsValidOldFormat(plate) ==>
              |r.value| == 8 && r.value[3] == '-' && RemoveSymbols(r.value) == Upper(Trim(plate))
              && IsValidOldFormat(RemoveSymbols(r.value))
    ensures IsValidMercosul(plate) ==> r == Some(Upper(Trim(plate))) && IsValidMercosul(r.value)
  {
    var trimmed := Trim(plate);
    TrimNoop(trimmed);
    UpperKeepsVerdicts(trimmed);
    OldDashed(trimmed);
    FormatsDisjoint(trimmed);
    FormatLicensePlate(trimmed)
  }

  /**
   * `generate`: the pattern, "LLLNLNN" by default, is uppercased and must be
   * one of the two; each 'L' becomes a random letter and each 'N' a random
   * digit. The random draws are parameters: `letters[i]` and `digits[i]` are
   * the values drawn for position i.
   */
  method Generate(format: Option<string>, letters: seq<nat>, digits: seq<nat>) returns (r: Option<string>)
    requires |letters| == 7 && |digits| == 7
    requires forall i :: 0 <= i < 7 ==> letters[i] < 26 && digits[i] < 10
    ensures var f := Upper(if format.Some? then format.value else MercosulFormat);
            (r.Some? <==> f == OldFormat || f == MercosulFormat)
            && (r.Some? ==> Matches(r.value, f) && GetFormat(r.value) == Some(f))
            && (r.Some? ==> |f| == 7 && forall i :: 0 <= i < 7 ==>
                  (f[i] == 'L' ==> r.value[i] == LetterOf(letters[i]))
                  && (f[i] == 'N' ==> r.value[i] == DigitChar(digits[i])))
  {
    var f := Upper(if format.Some? then format.value else MercosulFormat);
    if f != MercosulFormat && f != OldFormat {
      return None;
    }
    PatternAlphabet();
    var result := Fill(f, letters, digits);
    GeneratedFormat(result, f);
    return Some(result);
  }

  /** The loop of `generate`: one drawn letter or digit pushed per pattern character. */
  method Fill(format: string, letters: seq<nat>, digits: seq<nat>) returns (plate: string)
    requires |format| == 7 && forall j :: 0 <= j < 7 ==> format[j] == 'L' || format[j] == 'N'
    requires |letters| == 7 && |digits| == 7
    requires forall i :: 0 <= i < 7 ==> letters[i] < 26 && digits[i] < 10
    ensures Matches(plate, format)
    ensures forall j :: 0 <= j < 7 ==>
              plate[j] == (if format[j] == 'L' then LetterOf(letters[j]) else DigitChar(digits[j]))
  {
    plate := "";
    for i := 0 to 7
      invariant |plate| == i
      invariant forall j :: 0 <= j < i ==>
                  plate[j] == (if format[j] == 'L' then LetterOf(letters[j]) else DigitChar(digits[j]))
    {
      if format[i] == 'L' {
        plate := plate + [LetterOf(letters[i])];
      } else if format[i] == 'N' {
        plate := plate + [DigitChar(digits[i])];
      }
    }
  }

  /** Both pattern strings have seven characters, each 'L' or 'N'. */
  lemma PatternAlphabet()
    ensures |OldFormat| == 7 && forall j :: 0 <= j < 7 ==> OldFormat[j] == 'L' || OldFormat[j] == 'N'
    ensures |MercosulFormat| == 7 && forall j :: 0 <= j < 7 ==> MercosulFormat[j] == 'L' || MercosulFormat[j] == 'N'
  {
  }

  /** A plate that follows one of the two pattern strings has that format. */
  lemma GeneratedFormat(plate: string, format: string)
    requires format == OldFormat || format == MercosulFormat
    requires Matches(plate, format)
    ensures GetFormat(plate) == Some(format)
  {
    PatternStrings(plate);
    PatternTrimmed(plate);
    FormatsDisjoint(plate);
  }
}

module LicensePlateTests {
  import opened Strings
  import opened LicensePlate

  /** Two seven-character strings that agree at every index are equal. */
  lemma SameSeven(s: string, t: string)
    requires |s| == 7 && |t| == 7
    requires s[0] == t[0] && s[1] == t[1] && s[2] == t[2] && s[3] == t[3]
    requires s[4] == t[4] && s[5] == t[5] && s[6] == t[6]
    ensures s == t
  {
    forall i | 0 <= i < 7 ensures s[i] == t[i] {
      if i == 0 {} else if i == 1 {} else if i == 2 {} else if i == 3 {} else if i == 4 {} else if i == 5 {}
    }
  }

  lemma RemoveDash(plate: string)
    requires plate == "ABC-1234"
    ensures RemoveSymbols(plate) == "ABC1234"
  {
    assert plate == "ABC" + ['-'] + "1234";
    RemoveCharsDrop("ABC", '-', "1234", {'-'});
    RemoveCharsNone("ABC", {'-'});
    RemoveCharsNone("1234", {'-'});
  }

  lemma OldPlateFormatted(plate: string)
    requires plate == "abc1234"
    ensures FormatLicensePlate(plate) == Some("ABC-1234")
  {
    assert OldPattern(plate);
    FormatOldPlate(plate);
    UpperAbc(plate);
    Dashed(Upper(plate));
  }

  lemma UpperAbc(plate: string)
    requires plate == "abc1234"
    ensures Upper(plate) == "ABC1234"
  {
    SameSeven(Upper(plate), "ABC1234");
  }

  lemma Dashed(u: string)
    requires u == "ABC1234"
    ensures u[0..3] + "-" + u[3..] == "ABC-1234"
  {
  }

  lemma MercosulPlateFormatted(plate: string)
    requires plate == "abc1e34"
    ensures FormatLicensePlate(plate) == Some("ABC1E34")
    ensures GetFormat(plate) == Some(MercosulFormat)
  {
    assert MercosulPattern(plate);
    FormatMercosulPlate(plate);
    UpperAbcE(plate);
  }

  lemma UpperAbcE(plate: string)
    requires plate == "abc1e34"
    ensures Upper(plate) == "ABC1E34"
  {
    SameSeven(Upper(plate), "ABC1E34");
  }

  lemma ShortPlateRejected(plate: string)
    requires plate == "ABC123"
    ensures FormatLicensePlate(plate) == None && GetFormat(plate) == None
  {
    AlnumNotWhitespace(plate[0]);
    AlnumNotWhitespace(plate[|plate| - 1]);
    TrimNoop(plate);
  }

  lemma MercosulNotOld(plate: string)
    requires plate == "ABC1D23"
    ensures GetFormat(plate) == Some(MercosulFormat)
  {
    assert MercosulPattern(plate);
    PatternTrimmed(plate);
  }

  lemma ConversionExample(plate: string)
    requires plate == "ABC1234"
    ensures IsValidOldFormat(plate) && DigitToLetterAt4(Upper(plate)) == "ABC1C34"
  {
    assert OldPattern(plate);
    PatternTrimmed(plate);
    UpperOfUpper(plate);
    SecondDigitToLetter(plate);
  }

  lemma UpperOfUpper(plate: string)
    requires plate == "ABC1234"
    ensures Upper(plate) == plate
  {
    SameSeven(Upper(plate), plate);
  }

  lemma SecondDigitToLetter(plate: string)
    requires plate == "ABC1234"
    ensures DigitToLetterAt4(plate) == "ABC1C34"
  {
    assert plate[4] == '2' && DigitValue('2') == 2;
    SameSeven(DigitToLetterAt4(plate), "ABC1C34");
  }

  /**
   * The conversion's write turns an old plate into `converted` when that is
   * its upper case with the digit at index 4 replaced by the letter of the
   * same rank.
   */
  lemma ConvertsTo(plate: string, converted: string)
    requires OldPattern(plate) && |converted| == 7
    requires converted[4] == LetterOf(DigitValue(plate[4]))
    requires converted[0] == UpperChar(plate[0]) && converted[1] == UpperChar(plate[1]) && converted[2] == UpperChar(plate[2])
    requires converted[3] == UpperChar(plate[3]) && converted[5] == UpperChar(plate[5]) && converted[6] == UpperChar(plate[6])
    ensures DigitToLetterAt4(Upper(plate)) == converted
  {
    var u := Upper(plate);
    assert u[4] == plate[4] && IsDigit(u[4]);
    var d := u[4 := LetterOf(DigitValue(u[4]))];
    assert DigitToLetterAt4(u) == d;
    assert d[0] == converted[0] && d[1] == converted[1] && d[2] == converted[2] && d[3] == converted[3];
    assert d[5] == converted[5] && d[6] == converted[6];
    SameSeven(d, converted);
  }

  /** A plate of the old pattern is valid in the old format. */
  lemma OldValid(plate: string)
    requires OldPattern(plate)
    ensures IsValidOldFormat(plate)
  {
    PatternTrimmed(plate);
  }

  lemma ConversionFour(plate: string)
    requires plate == "ABC4567"
    ensures IsValidOldFormat(plate) && DigitToLetterAt4(Upper(plate)) == "ABC4F67"
  {
    ConversionFourValid(plate);
    ConversionFourWritten(plate);
  }

  lemma ConversionFourValid(plate: string)
    requires plate == "ABC4567"
    ensures IsValidOldFormat(plate)
  {
    assert OldPattern(plate);
    OldValid(plate);
  }

  lemma ConversionFourWritten(plate: string)
    requires plate == "ABC4567"
    ensures DigitToLetterAt4(Upper(plate)) == "ABC4F67"
  {
    assert OldPattern(plate) && DigitValue(plate[4]) == 5;
    ConvertsTo(plate, "ABC4F67");
  }

  lemma ConversionZeros(plate: string)
    requires plate == "ABC0000"
    ensures IsValidOldFormat(plate) && DigitToLetterAt4(Upper(plate)) == "ABC0A00"
  {
    ConversionZerosValid(plate);
    ConversionZerosWritten(plate);
  }

  lemma ConversionZerosValid(plate: string)
    requires plate == "ABC0000"
    ensures IsValidOldFormat(plate)
  {
    assert OldPattern(plate);
    OldValid(plate);
  }

  lemma ConversionZerosWritten(plate: string)
    requires plate == "ABC0000"
    ensures DigitToLetterAt4(Upper(plate)) == "ABC0A00"
  {
    assert OldPattern(plate) && DigitValue(plate[4]) == 0;
    ConvertsTo(plate, "ABC0A00");
  }

  lemma ConversionNines(plate: string)
    requires plate == "ABC9999"
    ensures IsValidOldFormat(plate) && DigitToLetterAt4(Upper(plate)) == "ABC9J99"
  {
    ConversionNinesValid(plate);
    ConversionNinesWritten(plate);
  }

  lemma ConversionNinesValid(plate: string)
    requires plate == "ABC9999"
    ensures IsValidOldFormat(plate)
  {
    assert OldPattern(plate);
    OldValid(plate);
  }

  lemma ConversionNinesWritten(plate: string)
    requires plate == "ABC9999"
    ensures DigitToLetterAt4(Upper(plate)) == "ABC9J99"
  {
    assert OldPattern(plate) && DigitValue(plate[4]) == 9;
    ConvertsTo(plate, "ABC9J99");
  }

  lemma ConversionLowerCase(plate: string)
    requires plate == "abc1234"
    ensures IsValidOldFormat(plate) && DigitToLetterAt4(Upper(plate)) == "ABC1C34"
  {
    ConversionLowerCaseValid(plate);
    ConversionLowerCaseWritten(plate);
  }

  lemma ConversionLowerCaseValid(plate: string)
    requires plate == "abc1234"
    ensures IsValidOldFormat(plate)
  {
    assert OldPattern(plate);
    OldValid(plate);
  }

  lemma ConversionLowerCaseWritten(plate: string)
    requires plate == "abc1234"
    ensures DigitToLetterAt4(Upper(plate)) == "ABC1C34"
  {
    assert OldPattern(plate) && DigitValue(plate[4]) == 2;
    ConvertsTo(plate, "ABC1C34");
  }

  lemma ConversionRejectsSymbol(plate: string)
    requires plate == "ABC4*67"
    ensures !IsValidOldFormat(plate)
  {
    AlnumNotWhitespace(plate[0]);
    AlnumNotWhitespace(plate[|plate| - 1]);
    TrimNoop(plate);
  }
}
