/**
 * Brazilian phone numbers: a two-digit area code (DDD) followed by a
 * nine-digit mobile number starting with 9 or an eight-digit landline number
 * starting with 2 to 5. Validation takes digits only; formatting, symbol
 * removal, removal of the country code 55 and random generation complete
 * the module.
 */
module Phone {
  import opened Strings

  /** The characters `remove_symbols` deletes, one `replace` call each. */
  const Symbols: set<char> := {'(', ')', '-', '+', ' '}

  /**
   * `remove_symbols`: five successive `replace(x, "")` calls. Their order does
   * not matter: the result is the input with every character of `Symbols`
   * deleted and every other character kept in order.
   */
  function RemoveSymbols(phone: string): (r: string)
    ensures r == RemoveChars(phone, Symbols)
    ensures forall c :: c in r <==> c in phone && c !in Symbols
  {
    var r := RemoveChars(RemoveChars(RemoveChars(RemoveChars(RemoveChars(phone, {'('}), {')'}), {'-'}), {'+'}), {' '});
    ReplacementsCompose(phone);
    forall c ensures c in r <==> c in phone && c !in Symbols { RemoveCharsKeeps(phone, Symbols, c); }
    r
  }

  /** The five single-character deletions together delete `Symbols`. */
  lemma ReplacementsCompose(phone: string)
    ensures RemoveChars(RemoveChars(RemoveChars(RemoveChars(RemoveChars(phone, {'('}), {')'}), {'-'}), {'+'}), {' '})
            == RemoveChars(phone, Symbols)
  {
    var s1 := RemoveChars(phone, {'('});
    RemoveCharsCompose(phone, {'('}, {')'});
    assert {'('} + {')'} == {'(', ')'};
    var s2 := RemoveChars(s1, {')'});
    RemoveCharsCompose(phone, {'(', ')'}, {'-'});
    assert {'(', ')'} + {'-'} == {'(', ')', '-'};
    var s3 := RemoveChars(s2, {'-'});
    RemoveCharsCompose(phone, {'(', ')', '-'}, {'+'});
    assert {'(', ')', '-'} + {'+'} == {'(', ')', '-', '+'};
    RemoveCharsCompose(phone, {'(', ')', '-', '+'}, {' '});
    assert {'(', ')', '-', '+'} + {' '} == Symbols;
  }

  /** Removing symbols twice removes nothing more. */
  lemma RemoveSymbolsIdempotent(phone: string)
    ensures RemoveSymbols(RemoveSymbols(phone)) == RemoveSymbols(phone)
  {
    RemoveCharsIdempotent(phone, Symbols);
  }

  /** An area-code digit: 1 to 9. */
  predicate IsDddDigit(c: char) { '1' <= c <= '9' }

  /** The mobile rule: eleven ASCII digits, an area code of two non-zero digits, then 9. */
  predicate MobileShape(phone: string) {
    |phone| == 11 && AllDigits(phone) && IsDddDigit(phone[0]) && IsDddDigit(phone[1]) && phone[2] == '9'
  }

  /** The landline rule: ten ASCII digits, an area code of two non-zero digits, then 2 to 5. */
  predicate LandlineShape(phone: string) {
    |phone| == 10 && AllDigits(phone) && IsDddDigit(phone[0]) && IsDddDigit(phone[1]) && '2' <= phone[2] <= '5'
  }

  /** `is_valid_mobile`: the length test, the digit test, the area code, then the 9. */
  function IsValidMobile(phone: string): (r: bool)
    ensures r <==> MobileShape(phone)
  {
    if |phone| != 11 then false
    else if !(forall i :: 0 <= i < |phone| ==> IsDigit(phone[i])) then false
    else if phone[0] < '1' || phone[0] > '9' || phone[1] < '1' || phone[1] > '9' then false
    else if phone[2] != '9' then false
    else true
  }

  /** `is_valid_landline`: the length test, the digit test, the area code, then 2 to 5. */
  function IsValidLandline(phone: string): (r: bool)
    ensures r <==> LandlineShape(phone)
  {
    if |phone| != 10 then false
    else if !(forall i :: 0 <= i < |phone| ==> IsDigit(phone[i])) then false
    else if phone[0] < '1' || phone[0] > '9' || phone[1] < '1' || phone[1] > '9' then false
    else if phone[2] < '2' || phone[2] > '5' then false
    else true
  }

  /**
   * `is_valid`: "mobile" and "landline" select one rule; no type, or any
   * other type name, accepts either.
   */
  function IsValid(phone: string, phoneType: Option<string>): (r: bool)
    ensures phoneType == Some("mobile") ==> (r <==> MobileShape(phone))
    ensures phoneType == Some("landline") ==> (r <==> LandlineShape(phone))
    ensures phoneType != Some("mobile") && phoneType != Some("landline") ==>
              (r <==> MobileShape(phone) || LandlineShape(phone))
  {
    match phoneType
    case Some("mobile") => IsValidMobile(phone)
    case Some("landline") => IsValidLandline(phone)
    case _ => IsValidMobile(phone) || IsValidLandline(phone)
  }

  /** A number is never both a mobile and a landline, and an untyped check accepts exactly the union. */
  lemma ValidKinds(phone: string, other: string)
    requires other != "mobile" && other != "landline"
    ensures !(IsValid(phone, Some("mobile")) && IsValid(phone, Some("landline")))
    ensures IsValid(phone, None) <==> IsValid(phone, Some("mobile")) || IsValid(phone, Some("landline"))
    ensures IsValid(phone, Some(other)) == IsValid(phone, None)
  {
  }

  /**
   * `format_phone`: `None` unless the number is valid; otherwise the area
   * code in parentheses, then the subscriber number with a dash before its
   * last four digits. Removing the symbols gives the number back.
   */
  function FormatPhone(phone: string): (r: Option<string>)
    ensures r.Some? <==> IsValid(phone, None)
    ensures r.Some? ==> |r.value| == |phone| + 3 && r.value[0] == '(' && r.value[3] == ')'
                        && r.value[|r.value| - 5] == '-'
                        && r.value[1..3] == phone[..2] && r.value[|r.value| - 4..] == phone[|phone| - 4..]
    ensures r.Some? ==> RemoveSymbols(r.value) == phone
  {
    if !IsValid(phone, None) then None
    else
      var ddd := phone[0..2];
      var number := phone[2..];
      var len := |number|;
      var formatted := "(" + ddd + ")" + number[0..len - 4] + "-" + number[len - 4..];
      FormattedDigits(phone, formatted);
      Some(formatted)
  }

  /** The symbols `format_phone` inserts are the only non-digits of its result. */
  lemma FormattedDigits(phone: string, formatted: string)
    requires |phone| >= 6 && AllDigits(phone)
    requires formatted == "(" + phone[0..2] + ")" + phone[2..][0..|phone| - 6] + "-" + phone[2..][|phone| - 6..]
    ensures RemoveSymbols(formatted) == phone
  {
    var a, b, c := phone[0..2], phone[2..|phone| - 4], phone[|phone| - 4..];
    assert phone[2..][0..|phone| - 6] == b && phone[2..][|phone| - 6..] == c;
    AllDigitsSlice(phone, 0, 2);
    AllDigitsSlice(phone, 2, |phone| - 4);
    AllDigitsSlice(phone, |phone| - 4, |phone|);
    DelimitedDigits(a, b, c);
    assert phone == a + b + c;
  }

  /** Deleting the symbols of "(a)b-c" leaves the digits a, b and c. */
  lemma DelimitedDigits(a: string, b: string, c: string)
    requires AllDigits(a) && AllDigits(b) && AllDigits(c)
    ensures RemoveChars("(" + a + ")" + b + "-" + c, Symbols) == a + b + c
  {
    assert "(" + a + ")" + b + "-" + c == [] + ['('] + (a + [')'] + (b + ['-'] + c));
    DigitsKept(a);
    DigitsKept(b);
    DigitsKept(c);
    RemoveCharsDrop(b, '-', c, Symbols);
    RemoveCharsDrop(a, ')', b + ['-'] + c, Symbols);
    RemoveCharsDrop([], '(', a + [')'] + (b + ['-'] + c), Symbols);
  }

  /** Digits are not symbols. */
  lemma DigitsKept(s: string)
    requires AllDigits(s)
    ensures RemoveChars(s, Symbols) == s
  {
    RemoveCharsNone(s, Symbols);
  }

  // ---------------------------------------------------------------------------
  // Country code

  /**
   * `s.replacen(pat, "", 1)`: the text with the first occurrence of a
   * non-empty `pat` deleted, or unchanged when `pat` does not occur.
   */
  function RemoveFirst(s: string, pat: string): (r: string)
    requires |pat| > 0
    ensures |s| >= |pat| && s[..|pat|] == pat ==> r == s[|pat|..]
    decreases |s|
  {
    if |s| < |pat| then s
    else if s[..|pat|] == pat then s[|pat|..]
    else [s[0]] + RemoveFirst(s[1..], pat)
  }

  /**
   * `remove_international_dialing_code`: once spaces are deleted, a number
   * longer than eleven characters that starts with "+55" or "55" loses its
   * first "55" (so "+55" becomes "+"); any other input comes back unchanged,
   * spaces included.
   */
  function RemoveInternationalDialingCode(phone: string): (r: string)
    ensures var cleaned := RemoveChars(phone, {' '});
      if |cleaned| > 11 && cleaned[..3] == "+55" then r == "+" + cleaned[3..]
      else if |cleaned| > 11 && cleaned[..2] == "55" then r == cleaned[2..]
      else r == phone
  {
    var cleaned := RemoveChars(phone, {' '});
    if |cleaned| > 11 then
      if cleaned[..3] == "+55" then
        PlusCountryCode(cleaned);
        RemoveFirst(cleaned, "55")
      else if cleaned[..2] == "55" then RemoveFirst(cleaned, "55")
      else phone
    else phone
  }

  /** In "+55…" the first "55" is the one right after the plus sign. */
  lemma PlusCountryCode(s: string)
    requires |s| >= 3 && s[..3] == "+55"
    ensures RemoveFirst(s, "55") == "+" + s[3..]
  {
    assert s[0] == '+' && s[1..][..2] == "55";
    assert s[..2] != "55";
    assert s[1..][2..] == s[3..];
  }

  /** Prefixing a valid number with the country code 55, and removing it again, gives the number back. */
  lemma CountryCodeRoundTrip(phone: string)
    requires IsValid(phone, None)
    ensures RemoveInternationalDialingCode("55" + phone) == phone
    ensures RemoveInternationalDialingCode("+55" + phone) == "+" + phone
  {
    NoSpaces(phone);
    NoSpaces("55" + phone);
    NoSpaces("+55" + phone);
    assert ("55" + phone)[..2] == "55" && ("55" + phone)[2..] == phone;
    var plus := "+55" + phone;
    assert plus[..3] == "+55" && plus[3..] == phone;
  }

  /** A valid number, with at most eleven characters and no spaces, is left unchanged. */
  lemma ValidHasNoCountryCode(phone: string)
    requires IsValid(phone, None)
    ensures RemoveInternationalDialingCode(phone) == phone
  {
    NoSpaces(phone);
  }

  lemma NoSpaces(s: string)
    requires forall i :: 0 <= i < |s| ==> s[i] != ' '
    ensures RemoveChars(s, {' '}) == s
  {
    RemoveCharsNone(s, {' '});
  }

  // ---------------------------------------------------------------------------
  // Generation. The random draws are parameters.

  /** `generate_ddd_number`: two digits drawn from 1 to 9. */
  function GenerateDdd(first: nat, second: nat): (r: string)
    requires 1 <= first <= 9 && 1 <= second <= 9
    ensures |r| == 2 && IsDddDigit(r[0]) && IsDddDigit(r[1])
    ensures DigitValue(r[0]) == first && DigitValue(r[1]) == second
  {
    DigitCharValue(first);
    DigitCharValue(second);
    Decimal(first) + Decimal(second)
  }

  /** `generate_mobile_phone`: an area code, a 9, then eight drawn digits. */
  function GenerateMobile(ddd: (nat, nat), client: seq<nat>): (r: string)
    requires 1 <= ddd.0 <= 9 && 1 <= ddd.1 <= 9
    requires |client| == 8 && forall i :: 0 <= i < 8 ==> client[i] < 10
    ensures IsValid(r, Some("mobile"))
    ensures r[..2] == GenerateDdd(ddd.0, ddd.1) && r[3..] == Numerals(client)
  {
    var r := GenerateDdd(ddd.0, ddd.1) + "9" + Numerals(client);
    AllDigitsConcat(GenerateDdd(ddd.0, ddd.1) + "9", Numerals(client));
    r
  }

  /** `generate_landline_phone`: an area code, a digit from 2 to 5, then seven zero-padded digits. */
  function GenerateLandline(ddd: (nat, nat), first: nat, remaining: nat): (r: string)
    requires 1 <= ddd.0 <= 9 && 1 <= ddd.1 <= 9
    requires 2 <= first <= 5 && remaining <= 9999999
    ensures IsValid(r, Some("landline"))
    ensures r[..2] == GenerateDdd(ddd.0, ddd.1) && DigitValue(r[2]) == first && Value(r[3..]) == remaining
  {
    PadValue(remaining, 7);
    DigitCharValue(first);
    assert Pow10(7) == 10000000;
    var r := GenerateDdd(ddd.0, ddd.1) + Decimal(first) + Pad(remaining, 7);
    AllDigitsConcat(GenerateDdd(ddd.0, ddd.1) + Decimal(first), Pad(remaining, 7));
    assert r[3..] == Pad(remaining, 7);
    r
  }

  /**
   * `generate`: a mobile or a landline number as asked; with no type, or an
   * unknown one, the coin `mobile` decides.
   */
  function Generate(phoneType: Option<string>, mobile: bool, ddd: (nat, nat), client: seq<nat>, first: nat, remaining: nat): (r: string)
    requires 1 <= ddd.0 <= 9 && 1 <= ddd.1 <= 9
    requires |client| == 8 && forall i :: 0 <= i < 8 ==> client[i] < 10
    requires 2 <= first <= 5 && remaining <= 9999999
    ensures IsValid(r, phoneType)
    ensures phoneType == Some("mobile") ==> |r| == 11
    ensures phoneType == Some("landline") ==> |r| == 10
    ensures |r| == 10 || |r| == 11
  {
    match phoneType
    case Some("mobile") => GenerateMobile(ddd, client)
    case Some("landline") => GenerateLandline(ddd, first, remaining)
    case _ => if mobile then GenerateMobile(ddd, client) else GenerateLandline(ddd, first, remaining)
  }

  /** Every valid mobile number is the one generated by the draws read off its digits. */
  lemma GenerateMobileComplete(phone: string)
    requires IsValid(phone, Some("mobile"))
    ensures var draws := seq(8, i requires 0 <= i < 8 => DigitValue(phone[3 + i]));
      GenerateMobile((DigitValue(phone[0]), DigitValue(phone[1])), draws) == phone
  {
    var draws := seq(8, i requires 0 <= i < 8 => DigitValue(phone[3 + i]));
    var g := GenerateMobile((DigitValue(phone[0]), DigitValue(phone[1])), draws);
    forall i | 0 <= i < 11 ensures g[i] == phone[i] {
      if i >= 3 {
        assert g[i] == g[3..][i - 3] == Numerals(draws)[i - 3];
        assert DigitValue(g[i]) == DigitValue(phone[i]);
      } else if i < 2 {
        assert g[i] == GenerateDdd(DigitValue(phone[0]), DigitValue(phone[1]))[i];
      }
    }
  }

  /** Every valid landline number is the one generated by the draws read off its digits. */
  lemma GenerateLandlineComplete(phone: string)
    requires IsValid(phone, Some("landline"))
    ensures var rest := phone[3..];
      AllDigits(rest) && Value(rest) <= 9999999
      && GenerateLandline((DigitValue(phone[0]), DigitValue(phone[1])), DigitValue(phone[2]), Value(rest)) == phone
  {
    var rest := phone[3..];
    AllDigitsSlice(phone, 3, 10);
    ValueBound(rest);
    assert Pow10(7) == 10000000;
    var g := GenerateLandline((DigitValue(phone[0]), DigitValue(phone[1])), DigitValue(phone[2]), Value(rest));
    AllDigitsSlice(g, 3, 10);
    ValueInjective(g[3..], rest);
    forall i | 0 <= i < 10 ensures g[i] == phone[i] {
      if i >= 3 {
        assert g[i] == g[3..][i - 3];
      } else if i < 2 {
        assert g[i] == GenerateDdd(DigitValue(phone[0]), DigitValue(phone[1]))[i];
      } else {
        DigitCharValue(DigitValue(phone[2]));
      }
    }
  }
}

module PhoneTests {
  import opened Strings
  import opened Phone

  lemma MobileFormatted(phone: string)
    requires phone == "11994029275"
    ensures FormatPhone(phone) == Some("(11)99402-9275")
  {
    assert MobileShape(phone);
    FormattedMobile(phone, "(11)99402-9275");
  }

  lemma FormattedMobile(phone: string, formatted: string)
    requires phone == "11994029275" && formatted == "(11)99402-9275"
    ensures "(" + phone[0..2] + ")" + phone[2..][0..5] + "-" + phone[2..][5..] == formatted
  {
  }

  lemma LandlineFormatted(phone: string)
    requires phone == "1635014415"
    ensures FormatPhone(phone) == Some("(16)3501-4415")
  {
    assert LandlineShape(phone);
    FormattedLandline(phone, "(16)3501-4415");
  }

  lemma FormattedLandline(phone: string, formatted: string)
    requires phone == "1635014415" && formatted == "(16)3501-4415"
    ensures "(" + phone[0..2] + ")" + phone[2..][0..4] + "-" + phone[2..][4..] == formatted
  {
  }

  lemma ShortNumbersRejected(phone: string)
    requires phone == "333333" || phone == "123"
    ensures FormatPhone(phone) == None
  {
  }

  lemma WrongKindRejected(mobile: string, landline: string)
    requires mobile == "11894029275" && landline == "1665014415"
    ensures !IsValid(mobile, None) && !IsValid(landline, None)
  {
  }

  lemma MobileIsNotLandline(phone: string)
    requires phone == "11994029275"
    ensures IsValid(phone, Some("mobile")) && !IsValid(phone, Some("landline"))
  {
    assert MobileShape(phone);
  }

  lemma CountryCodeRemoved(phone: string)
    requires phone == "5511994029275"
    ensures RemoveInternationalDialingCode(phone) == "11994029275"
  {
    var local := phone[2..];
    assert local == "11994029275" && phone == "55" + local;
    assert MobileShape(local);
    CountryCodeRoundTrip(local);
  }

  lemma PlusCountryCodeRemoved(phone: string)
    requires phone == "+55" + "11994029275"
    ensures RemoveInternationalDialingCode(phone) == "+11994029275"
  {
    PlusLocal(phone, "11994029275");
  }

  lemma PlusLocal(phone: string, local: string)
    requires local == "11994029275" && phone == "+55" + local
    ensures RemoveInternationalDialingCode(phone) == "+" + local
  {
    assert MobileShape(local);
    CountryCodeRoundTrip(local);
  }
}
