/**
 * CNJ legal-process numbers: twenty digits laid out NNNNNNN-DD.AAAA.J.TR.OOOO
 * (sequential number, check digits, year, judicial organ, tribunal, court of
 * origin), with a mod-97 check and a per-organ table of the tribunals and
 * courts that exist.
 */
module LegalProcess {
  import opened Strings

  /** One entry of the organ table: the tribunal ids and court ids it admits. */
  datatype OrgaoData = OrgaoData(idTribunal: seq<nat>, idForo: seq<nat>)

  /**
   * The organ table, keyed by organ number (the source's key is the text
   * "orgao_" followed by that number). Its contents are not part of this
   * model, so every operation takes it as a parameter.
   */
  type Table = map<nat, OrgaoData>

  /** The table's tribunal ids fit two digits, its court ids four, and no list is empty. */
  predicate WellFormedTable(table: Table) {
    forall o :: o in table ==>
      |table[o].idTribunal| > 0 && |table[o].idForo| > 0
      && (forall t :: t in table[o].idTribunal ==> t < 100)
      && (forall f :: f in table[o].idForo ==> f < 10000)
  }

  const U128Limit: nat := 0x1_0000_0000_0000_0000_0000_0000_0000_0000

  const Symbols: set<char> := {'.', '-'}

  /** `remove_symbols`: `replace('.', "")` followed by `replace('-', "")`. */
  function RemoveSymbols(legalProcess: string): (r: string)
    ensures r == RemoveChars(legalProcess, Symbols)
    ensures forall c :: c in r <==> c in legalProcess && c !in Symbols
  {
    var r := RemoveChars(RemoveChars(legalProcess, {'.'}), {'-'});
    RemoveCharsCompose(legalProcess, {'.'}, {'-'});
    assert {'.'} + {'-'} == Symbols;
    forall c ensures c in r <==> c in legalProcess && c !in Symbols {
      RemoveCharsKeeps(legalProcess, Symbols, c);
    }
    r
  }

  /** `format_legal_process`: the NNNNNNN-DD.AAAA.J.TR.OOOO layout of exactly twenty digits. */
  function FormatLegalProcess(legalProcessId: string): (r: Option<string>)
    ensures r.Some? <==> |legalProcessId| == 20 && AllDigits(legalProcessId)
    ensures r.Some? ==> |r.value| == 25 && RemoveSymbols(r.value) == legalProcessId
    ensures r.Some? ==> r.value == Layout(legalProcessId) && Masked(legalProcessId, r.value)
  {
    if |legalProcessId| == 20 && AllDigits(legalProcessId) then
      FormatRoundTrip(legalProcessId);
      FormatMask(legalProcessId);
      Some(Layout(legalProcessId))
    else
      None
  }

  function Layout(id: string): string
    requires |id| == 20
  {
    id[0..7] + "-" + id[7..9] + "." + id[9..13] + "." + id[13..14] + "." + id[14..16] + "." + id[16..20]
  }

  lemma FormatMask(id: string)
    requires |id| == 20
    ensures Masked(id, Layout(id))
  {
  }

  /**
   * `f` is the twenty characters of `id` in the mask "NNNNNNN-DD.AAAA.J.TR.OOOO":
   * a dash at 7, dots at 10, 15, 17 and 20, and the digits in between.
   */
  predicate Masked(id: string, f: string) {
    && |id| == 20 && |f| == 25
    && f[7] == '-' && f[10] == '.' && f[15] == '.' && f[17] == '.' && f[20] == '.'
    && f[..7] == id[..7] && f[8..10] == id[7..9] && f[11..15] == id[9..13]
    && f[16..17] == id[13..14] && f[18..20] == id[14..16] && f[21..] == id[16..]
  }

  lemma FormatRoundTrip(id: string)
    requires |id| == 20 && AllDigits(id)
    ensures RemoveChars(Layout(id), Symbols) == id
  {
    var p0, p1, p2, p3, p4, p5 := id[0..7], id[7..9], id[9..13], id[13..14], id[14..16], id[16..20];
    FieldKept(id, 0, 7);
    FieldKept(id, 7, 9);
    FieldKept(id, 9, 13);
    FieldKept(id, 13, 14);
    FieldKept(id, 14, 16);
    FieldKept(id, 16, 20);
    SeparatorsDropped(p0, p1, p2, p3, p4, p5);
    LayoutPieces(id);
  }

  /** The six fields of the mask put back together give the twenty digits. */
  lemma LayoutPieces(id: string)
    requires |id| == 20
    ensures id == id[0..7] + id[7..9] + id[9..13] + id[13..14] + id[14..16] + id[16..20]
  {
    assert id[0..9] == id[0..7] + id[7..9];
    assert id[0..13] == id[0..9] + id[9..13];
    assert id[0..14] == id[0..13] + id[13..14];
    assert id[0..16] == id[0..14] + id[14..16];
    assert id == id[0..16] + id[16..20];
  }

  lemma FieldKept(id: string, i: nat, j: nat)
    requires AllDigits(id) && i <= j <= |id|
    ensures RemoveChars(id[i..j], Symbols) == id[i..j]
  {
    AllDigitsSlice(id, i, j);
    RemoveSymbolsOfDigits(id[i..j]);
  }

  /** Removing the symbols from the layout leaves the six fields side by side. */
  lemma SeparatorsDropped(p0: string, p1: string, p2: string, p3: string, p4: string, p5: string)
    requires RemoveChars(p0, Symbols) == p0 && RemoveChars(p1, Symbols) == p1 && RemoveChars(p2, Symbols) == p2
    requires RemoveChars(p3, Symbols) == p3 && RemoveChars(p4, Symbols) == p4 && RemoveChars(p5, Symbols) == p5
    ensures RemoveChars(p0 + "-" + p1 + "." + p2 + "." + p3 + "." + p4 + "." + p5, Symbols)
      == p0 + p1 + p2 + p3 + p4 + p5
  {
    var a1 := p0 + "-" + p1;
    RemoveCharsDrop(p0, '-', p1, Symbols);
    var a2 := a1 + "." + p2;
    RemoveCharsDrop(a1, '.', p2, Symbols);
    var a3 := a2 + "." + p3;
    RemoveCharsDrop(a2, '.', p3, Symbols);
    var a4 := a3 + "." + p4;
    RemoveCharsDrop(a3, '.', p4, Symbols);
    RemoveCharsDrop(a4, '.', p5, Symbols);
  }


  /** The powers of ten the bounds below need. */
  lemma Pow10Values()
    ensures Pow10(2) == 100 && Pow10(4) == 10000 && Pow10(7) == 10000000
    ensures Pow10(18) == 1000000000000000000
    ensures Pow10(24) == 1000000000000000000000000
  {
    assert Pow10(8) == 100000000;
    assert Pow10(10) == 10000000000;
    Pow10Add(8, 10);
    Pow10Add(10, 10);
    Pow10Add(20, 4);
  }

  /** `num * 100` does not overflow `u128` for the number `basenum` parses to. */
  predicate ChecksumFits(basenum: string) {
    match ParseUnsigned(basenum, U128Limit)
    case Some(num) => num * 100 < U128Limit
    case None => true
  }

  /** `97 - (num * 100) % 97`: the value in 1..97 that completes `num * 100` to a multiple of 97. */
  function CheckValue(num: nat): (r: nat)
    ensures 1 <= r <= 97 && (num * 100 + r) % 97 == 0
  {
    var m := num * 100;
    var q := m / 97;
    assert m + (97 - m % 97) == 97 * (q + 1);
    97 - m % 97
  }

  /** Exactly one value in 1..97 completes a number to a multiple of 97. */
  lemma {:induction false} CheckValueUnique(num: nat, v: nat)
    requires 1 <= v <= 97 && (num * 100 + v) % 97 == 0
    ensures v == CheckValue(num)
  {
    var r := CheckValue(num);
    var m := num * 100;
    var a, b := (m + v) / 97, (m + r) / 97;
    assert m + v == 97 * a;
    assert m + r == 97 * b;
    assert v - r == 97 * (a - b);
  }

  /**
   * `checksum`: `97 - (num * 100) mod 97` zero-padded to two digits when the
   * base parses as a `u128`, and "00" otherwise.
   */
  function Checksum(basenum: string): (r: string)
    requires ChecksumFits(basenum)
    ensures |r| == 2 && AllDigits(r)
    ensures ParseUnsigned(basenum, U128Limit).None? ==> r == "00"
    ensures ParseUnsigned(basenum, U128Limit).Some? ==>
      Value(r) == CheckValue(ParseUnsigned(basenum, U128Limit).value)
  {
    match ParseUnsigned(basenum, U128Limit)
    case Some(num) =>
      var result := CheckValue(num);
      PadValue(result, 2);
      Pow10Values();
      Pad(result, 2)
    case None => "00"
  }

  /**
   * The two check digits are determined: a two-digit string is the checksum of
   * a base that parses iff its value is in 1..97 and completes the multiple of 97.
   */
  lemma ChecksumUnique(basenum: string, dd: string)
    requires ChecksumFits(basenum) && ParseUnsigned(basenum, U128Limit).Some?
    requires |dd| == 2 && AllDigits(dd)
    ensures dd == Checksum(basenum) <==>
      1 <= Value(dd) <= 97 && (ParseUnsigned(basenum, U128Limit).value * 100 + Value(dd)) % 97 == 0
  {
    var num := ParseUnsigned(basenum, U128Limit).value;
    var r := Checksum(basenum);
    if 1 <= Value(dd) <= 97 && (num * 100 + Value(dd)) % 97 == 0 {
      CheckValueUnique(num, Value(dd));
      ValueInjective(dd, r);
    }
  }

  /** The digits the checksum covers: every field but DD, in order. */
  function BaseForChecksum(clean: string): (b: string)
    requires |clean| == 20
    ensures b == clean[..7] + clean[9..] && |b| == 18
    ensures AllDigits(clean) ==> AllDigits(b)
  {
    var b := clean[0..7] + clean[9..13] + clean[13..14] + clean[14..16] + clean[16..20];
    assert clean[9..] == clean[9..13] + clean[13..14] + clean[14..16] + clean[16..20];
    assert AllDigits(clean) ==> AllDigits(b) by {
      if AllDigits(clean) {
        forall i | 0 <= i < 18 ensures IsDigit(b[i]) {
          if i < 7 { assert b[i] == clean[i]; } else { assert b[i] == clean[i + 2]; }
        }
      }
    }
    b
  }

  /** An 18-digit base parses to its value, and `num * 100` stays within `u128`. */
  lemma EighteenDigitsFit(b: string)
    requires |b| == 18 && AllDigits(b)
    ensures ParseUnsigned(b, U128Limit) == Some(Value(b)) && ChecksumFits(b)
  {
    ValueBound(b);
    Pow10Values();
  }

  /** The check digits `checksum` gives an eighteen-digit base complete it to a multiple of 97. */
  lemma EighteenDigitChecksum(b: string)
    requires |b| == 18 && AllDigits(b)
    ensures ChecksumFits(b) && CheckDigitsHold(Value(b), Value(Checksum(b)))
  {
    EighteenDigitsFit(b);
    assert Value(Checksum(b)) == CheckValue(Value(b));
  }

  /** `is_valid` with the organ table given. */
  function IsValid(table: Table, legalProcessId: string): (r: bool)
    ensures r ==> |RemoveSymbols(legalProcessId)| == 20 && AllDigits(RemoveSymbols(legalProcessId))
  {
    var clean := RemoveSymbols(legalProcessId);
    if |clean| != 20 || !AllDigits(clean) then false
    else
      match (ParseUnsigned(clean[13..14], 0x1_0000_0000), ParseUnsigned(clean[14..16], 0x1_0000_0000),
             ParseUnsigned(clean[16..20], 0x1_0000_0000))
      case (Some(j), Some(tr), Some(oooo)) =>
        if j !in table then false
        else if !(tr in table[j].idTribunal && oooo in table[j].idForo) then false
        else
          var b := BaseForChecksum(clean);
          EighteenDigitsFit(b);
          clean[7..9] == Checksum(b)
      case _ => false
  }

  /** The J, TR and OOOO fields of twenty digits always parse as `u32`. */
  lemma FieldsParse(clean: string)
    requires |clean| == 20 && AllDigits(clean)
    ensures ParseUnsigned(clean[13..14], 0x1_0000_0000) == Some(Value(clean[13..14]))
    ensures ParseUnsigned(clean[14..16], 0x1_0000_0000) == Some(Value(clean[14..16]))
    ensures ParseUnsigned(clean[16..20], 0x1_0000_0000) == Some(Value(clean[16..20]))
  {
    ValueBound(clean[13..14]);
    ValueBound(clean[14..16]);
    ValueBound(clean[16..20]);
    Pow10Values();
    ParseUnsignedDigits(clean[13..14], 0x1_0000_0000);
    ParseUnsignedDigits(clean[14..16], 0x1_0000_0000);
    ParseUnsignedDigits(clean[16..20], 0x1_0000_0000);
  }

  /** The checksum comparison of `is_valid`, stated on the values of the fields. */
  lemma ChecksumMatches(clean: string)
    requires |clean| == 20 && AllDigits(clean)
    ensures var b := BaseForChecksum(clean);
      ChecksumFits(b)
      && (clean[7..9] == Checksum(b) <==> CheckDigitsHold(Value(b), Value(clean[7..9])))
  {
    var b := BaseForChecksum(clean);
    var dd := clean[7..9];
    assert AllDigits(dd) by {
      forall i | 0 <= i < 2 ensures IsDigit(dd[i]) { assert dd[i] == clean[i + 7]; }
    }
    EighteenDigitsFit(b);
    ChecksumUnique(b, dd);
  }

  /**
   * The field checks of `is_valid` on twenty digits: an organ J in the table
   * admitting the tribunal TR and the court OOOO, and check digits DD in 1..97
   * that make the number NNNNNNN AAAA J TR OOOO DD a multiple of 97.
   */
  predicate FieldsValid(table: Table, clean: string)
    requires |clean| == 20 && AllDigits(clean)
  {
    var j := Value(clean[13..14]);
    j in table
    && Value(clean[14..16]) in table[j].idTribunal
    && Value(clean[16..20]) in table[j].idForo
    && CheckDigitsHold(Value(BaseForChecksum(clean)), Value(clean[7..9]))
  }

  /** Check digits `dd` in 1..97 that make `base` followed by them a multiple of 97. */
  predicate CheckDigitsHold(base: nat, dd: nat) {
    1 <= dd <= 97 && (base * 100 + dd) % 97 == 0
  }

  /** `is_valid` accepts exactly the ids that are twenty digits once the symbols are gone and pass the field checks. */
  lemma IsValidFields(table: Table, legalProcessId: string)
    ensures IsValid(table, legalProcessId) <==>
      (var clean := RemoveSymbols(legalProcessId);
       |clean| == 20 && AllDigits(clean) && FieldsValid(table, clean))
  {
    var clean := RemoveSymbols(legalProcessId);
    if |clean| == 20 && AllDigits(clean) {
      ValidOnDigits(table, legalProcessId);
    }
  }

  lemma ValidOnDigits(table: Table, legalProcessId: string)
    requires var clean := RemoveSymbols(legalProcessId); |clean| == 20 && AllDigits(clean)
    ensures IsValid(table, legalProcessId) <==> FieldsValid(table, RemoveSymbols(legalProcessId))
  {
    var clean := RemoveSymbols(legalProcessId);
    ValidLooksUp(table, legalProcessId);
    ChecksumMatches(clean);
  }

  /** On twenty digits `is_valid` looks up the parsed fields and compares DD with the checksum. */
  lemma ValidLooksUp(table: Table, legalProcessId: string)
    requires var clean := RemoveSymbols(legalProcessId); |clean| == 20 && AllDigits(clean)
    ensures var clean := RemoveSymbols(legalProcessId);
      var j := Value(clean[13..14]);
      ChecksumFits(BaseForChecksum(clean))
      && (IsValid(table, legalProcessId) <==>
          j in table && Value(clean[14..16]) in table[j].idTribunal && Value(clean[16..20]) in table[j].idForo
          && clean[7..9] == Checksum(BaseForChecksum(clean)))
  {
    var clean := RemoveSymbols(legalProcessId);
    FieldsParse(clean);
    EighteenDigitsFit(BaseForChecksum(clean));
  }

  /** Formatting does not change validity: `is_valid` strips the symbols it inserts. */
  lemma FormattedValid(table: Table, legalProcessId: string)
    requires |legalProcessId| == 20 && AllDigits(legalProcessId)
    ensures IsValid(table, FormatLegalProcess(legalProcessId).value) == IsValid(table, legalProcessId)
  {
    RemoveSymbolsOfDigits(legalProcessId);
  }

  /** How `{}` prints an `i32` year. */
  function YearText(year: int): (s: string)
    ensures year >= 0 ==> AllDigits(s) && |s| >= 1 && Value(s) == year
    ensures year < 0 ==> |s| >= 2 && s[0] == '-'
  {
    DecimalValue(if year < 0 then -year else year);
    if year < 0 then "-" + Decimal(-year) else Decimal(year)
  }

  /** The organ `generate` uses: the one given, or the random draw in 1..9. */
  function ChosenOrgao(orgao: Option<nat>, drawOrgao: nat): nat {
    match orgao
    case Some(o) => o
    case None => drawOrgao
  }

  /** The random draws are in the ranges `generate` draws them from. */
  predicate DrawsInRange(table: Table, orgao: Option<nat>, drawOrgao: nat, drawNumber: nat, trIdx: nat, foroIdx: nat) {
    1 <= drawOrgao <= 9 && drawNumber < 10000000
    && (var o := ChosenOrgao(orgao, drawOrgao);
        o in table ==> trIdx < |table[o].idTribunal| && foroIdx < |table[o].idForo|)
  }

  /** The text `generate` checksums: NNNNNNN, the year as printed, J, TR and OOOO. */
  function GeneratedBase(n: nat, y: int, o: nat, t: nat, f: nat): string {
    Pad(n, 7) + YearText(y) + Decimal(o) + Pad(t, 2) + Pad(f, 4)
  }

  /** The id `generate` assembles: the base with the check digits after NNNNNNN. */
  function GeneratedId(n: nat, y: int, o: nat, t: nat, f: nat): string
    requires ChecksumFits(GeneratedBase(n, y, o, t, f))
  {
    Pad(n, 7) + Checksum(GeneratedBase(n, y, o, t, f)) + YearText(y) + Decimal(o) + Pad(t, 2) + Pad(f, 4)
  }

  /**
   * `generate` as written, with the clock's year and the random draws as
   * parameters: None for a year before the current one or an organ outside
   * 1..9 or missing from the table, otherwise the id built from the draws.
   */
  function Generate(table: Table, currentYear: int, year: Option<int>, orgao: Option<nat>,
                    drawOrgao: nat, drawNumber: nat, trIdx: nat, foroIdx: nat): (r: Option<string>)
    requires WellFormedTable(table)
    requires DrawsInRange(table, orgao, drawOrgao, drawNumber, trIdx, foroIdx)
    requires I32Min <= currentYear <= I32Max
    requires year.Some? ==> I32Min <= year.value <= I32Max
    ensures r.Some? <==>
      (var y := if year.Some? then year.value else currentYear;
       var o := ChosenOrgao(orgao, drawOrgao);
       y >= currentYear && 1 <= o <= 9 && o in table)
  {
    var y := if year.Some? then year.value else currentYear;
    if y < currentYear then None
    else
      var o := ChosenOrgao(orgao, drawOrgao);
      if !(1 <= o <= 9) then None
      else if o !in table then None
      else
        var t, f := table[o].idTribunal[trIdx], table[o].idForo[foroIdx];
        assert t in table[o].idTribunal && f in table[o].idForo;
        BaseFits(drawNumber, y, o, t, f);
        Some(GeneratedId(drawNumber, y, o, t, f))
  }

  /** The base `generate` checksums has at most 24 digits, so it parses and `* 100` fits. */
  lemma BaseFits(n: nat, y: int, o: nat, t: nat, f: nat)
    requires n < 10000000 && I32Min <= y <= I32Max && 1 <= o <= 9 && t < 100 && f < 10000
    ensures ChecksumFits(GeneratedBase(n, y, o, t, f))
  {
    if y >= 0 {
      BaseFitsYear(n, y, o, t, f);
    } else {
      BaseNegativeYear(n, y, o, t, f);
    }
  }

  lemma BaseFitsYear(n: nat, y: int, o: nat, t: nat, f: nat)
    requires n < 10000000 && 0 <= y <= I32Max && 1 <= o <= 9 && t < 100 && f < 10000
    ensures ChecksumFits(GeneratedBase(n, y, o, t, f))
  {
    var b := GeneratedBase(n, y, o, t, f);
    BaseLength(n, y, o, t, f);
    Pow10Values();
    ValueBound(b);
    Pow10Monotone(|b|, 24);
    assert Value(b) < 1000000000000000000000000;
  }

  /** A negative year puts a '-' in the base, which then does not parse. */
  lemma BaseNegativeYear(n: nat, y: int, o: nat, t: nat, f: nat)
    requires n < 10000000 && y < 0
    ensures ParseUnsigned(GeneratedBase(n, y, o, t, f), U128Limit).None?
  {
    var b := GeneratedBase(n, y, o, t, f);
    PadValue(n, 7);
    Pow10Values();
    assert b[7] == '-';
    assert UnsignedDigits(b) == b;
  }

  /** With a year that is not negative, the base is all digits and at most 24 of them. */
  lemma BaseLength(n: nat, y: int, o: nat, t: nat, f: nat)
    requires n < 10000000 && 0 <= y <= I32Max && 1 <= o <= 9 && t < 100 && f < 10000
    ensures var b := GeneratedBase(n, y, o, t, f); AllDigits(b) && |b| <= 24
  {
    Pow10Values();
    PadValue(n, 7);
    PadValue(t, 2);
    PadValue(f, 4);
    DecimalWidth(o, 1);
    DecimalWidth(y, 10);
    assert Pow10(10) == 10000000000;
    AllDigitsConcatFive(Pad(n, 7), YearText(y), Decimal(o), Pad(t, 2), Pad(f, 4));
  }

  /** Where each field of a twenty-character id sits. */
  lemma IdSlices(p0: string, p1: string, p2: string, p3: string, p4: string, p5: string)
    requires |p0| == 7 && |p1| == 2 && |p2| == 4 && |p3| == 1 && |p4| == 2 && |p5| == 4
    ensures var id := p0 + p1 + p2 + p3 + p4 + p5;
      |id| == 20 && id[7..9] == p1 && id[13..14] == p3 && id[14..16] == p4 && id[16..20] == p5
      && id[..7] + id[9..] == p0 + p2 + p3 + p4 + p5
  {
    var id := p0 + p1 + p2 + p3 + p4 + p5;
    assert id[..7] == p0;
    assert id[9..] == p2 + p3 + p4 + p5;
  }

  /** A string of digits has no symbols to remove. */
  lemma RemoveSymbolsOfDigits(s: string)
    requires AllDigits(s)
    ensures RemoveSymbols(s) == s
  {
    forall i | 0 <= i < |s| ensures s[i] !in Symbols { assert IsDigit(s[i]); }
    RemoveCharsNone(s, Symbols);
  }

  /** Twenty digits assembled from fields that pass the field checks pass `is_valid`. */
  lemma AssembledValid(table: Table, p0: string, dd: string, p2: string, p3: string, p4: string, p5: string)
    requires |p0| == 7 && |dd| == 2 && |p2| == 4 && |p3| == 1 && |p4| == 2 && |p5| == 4
    requires AllDigits(p0) && AllDigits(dd) && AllDigits(p2) && AllDigits(p3) && AllDigits(p4) && AllDigits(p5)
    requires Value(p3) in table && Value(p4) in table[Value(p3)].idTribunal && Value(p5) in table[Value(p3)].idForo
    requires AllDigits(p0 + p2 + p3 + p4 + p5) && CheckDigitsHold(Value(p0 + p2 + p3 + p4 + p5), Value(dd))
    ensures IsValid(table, p0 + dd + p2 + p3 + p4 + p5)
  {
    var id := p0 + dd + p2 + p3 + p4 + p5;
    AllDigitsConcat(p0, dd);
    AllDigitsConcat(p0 + dd, p2);
    AllDigitsConcat(p0 + dd + p2, p3);
    AllDigitsConcat(p0 + dd + p2 + p3, p4);
    AllDigitsConcat(p0 + dd + p2 + p3 + p4, p5);
    IdSlices(p0, dd, p2, p3, p4, p5);
    RemoveSymbolsOfDigits(id);
    assert FieldsValid(table, id);
    IsValidFields(table, id);
  }

  /** The fields `generate` prints for a four-digit year have the widths of the CNJ layout. */
  lemma GeneratedFields(n: nat, y: int, o: nat, t: nat, f: nat)
    requires n < 10000000 && 1000 <= y <= 9999 && 1 <= o <= 9 && t < 100 && f < 10000
    ensures |Pad(n, 7)| == 7 && |YearText(y)| == 4 && |Decimal(o)| == 1 && |Pad(t, 2)| == 2 && |Pad(f, 4)| == 4
    ensures AllDigits(YearText(y)) && Value(Decimal(o)) == o && Value(Pad(t, 2)) == t && Value(Pad(f, 4)) == f
  {
    Pow10Values();
    PadValue(n, 7);
    PadValue(t, 2);
    PadValue(f, 4);
    DecimalValue(o);
    DecimalWidth(o, 1);
    DecimalWidth(y, 4);
    assert !(y < Pow10(3)) by { assert Pow10(3) == 1000; }
    DecimalWidth(y, 3);
  }

  /** The id assembled from table entries and a four-digit year passes `is_valid`. */
  lemma GeneratedValid(table: Table, n: nat, y: int, o: nat, t: nat, f: nat)
    requires n < 10000000 && 1000 <= y <= 9999 && 1 <= o <= 9 && o in table
    requires t < 100 && f < 10000 && t in table[o].idTribunal && f in table[o].idForo
    ensures ChecksumFits(GeneratedBase(n, y, o, t, f))
    ensures |GeneratedId(n, y, o, t, f)| == 20 && IsValid(table, GeneratedId(n, y, o, t, f))
  {
    GeneratedFields(n, y, o, t, f);
    var b := GeneratedBase(n, y, o, t, f);
    var p0, p2, p3, p4, p5 := Pad(n, 7), YearText(y), Decimal(o), Pad(t, 2), Pad(f, 4);
    AllDigitsConcatFive(p0, p2, p3, p4, p5);
    EighteenDigitChecksum(b);
    AssembledValid(table, p0, Checksum(b), p2, p3, p4, p5);
  }

  /** Every id `generate` returns for a four-digit year passes `is_valid`. */
  lemma GenerateSound(table: Table, currentYear: int, year: Option<int>, orgao: Option<nat>,
                      drawOrgao: nat, drawNumber: nat, trIdx: nat, foroIdx: nat)
    requires WellFormedTable(table)
    requires DrawsInRange(table, orgao, drawOrgao, drawNumber, trIdx, foroIdx)
    requires I32Min <= currentYear <= I32Max
    requires year.Some? ==> I32Min <= year.value <= I32Max
    requires var y := if year.Some? then year.value else currentYear; 1000 <= y <= 9999
    ensures var r := Generate(table, currentYear, year, orgao, drawOrgao, drawNumber, trIdx, foroIdx);
      r.Some? ==> |r.value| == 20 && IsValid(table, r.value)
  {
    var r := Generate(table, currentYear, year, orgao, drawOrgao, drawNumber, trIdx, foroIdx);
    if r.Some? {
      var y := if year.Some? then year.value else currentYear;
      var o := ChosenOrgao(orgao, drawOrgao);
      var t, f := table[o].idTribunal[trIdx], table[o].idForo[foroIdx];
      assert t in table[o].idTribunal && f in table[o].idForo;
      GeneratedValid(table, drawNumber, y, o, t, f);
    }
  }

  /**
   * Where the id assembled from a four-digit year puts each field: NNNNNNN at
   * [0,7), the checksum of the other eighteen digits at [7,9), the year at
   * [9,13), the organ at [13,14), the tribunal at [14,16) and the court at
   * [16,20).
   */
  lemma GeneratedLayout(n: nat, y: int, o: nat, t: nat, f: nat)
    requires n < 10000000 && 1000 <= y <= 9999 && 1 <= o <= 9 && t < 100 && f < 10000
    ensures ChecksumFits(GeneratedBase(n, y, o, t, f))
    ensures var id, b := GeneratedId(n, y, o, t, f), GeneratedBase(n, y, o, t, f);
      |id| == 20 && AllDigits(id)
      && id[..7] + id[9..] == b && id[7..9] == Checksum(b)
      && id[..7] == Pad(n, 7) && Value(id[..7]) == n
      && id[9..13] == YearText(y) && Value(id[9..13]) == y
      && id[13..14] == Decimal(o) && Value(id[13..14]) == o
      && id[14..16] == Pad(t, 2) && Value(id[14..16]) == t
      && id[16..20] == Pad(f, 4) && Value(id[16..20]) == f
  {
    GeneratedFields(n, y, o, t, f);
    PadValue(n, 7);
    var b := GeneratedBase(n, y, o, t, f);
    var p0, p2, p3, p4, p5 := Pad(n, 7), YearText(y), Decimal(o), Pad(t, 2), Pad(f, 4);
    AllDigitsConcatFive(p0, p2, p3, p4, p5);
    EighteenDigitChecksum(b);
    var dd := Checksum(b);
    assert GeneratedId(n, y, o, t, f) == p0 + dd + p2 + p3 + p4 + p5;
    AssembledPieces(p0, dd, p2, p3, p4, p5);
  }

  /** Twenty digits assembled from six digit fields: each slice is its field. */
  lemma AssembledPieces(p0: string, dd: string, p2: string, p3: string, p4: string, p5: string)
    requires |p0| == 7 && |dd| == 2 && |p2| == 4 && |p3| == 1 && |p4| == 2 && |p5| == 4
    requires AllDigits(p0) && AllDigits(dd) && AllDigits(p2) && AllDigits(p3) && AllDigits(p4) && AllDigits(p5)
    ensures var id := p0 + dd + p2 + p3 + p4 + p5;
      |id| == 20 && AllDigits(id) && id[..7] + id[9..] == p0 + p2 + p3 + p4 + p5
      && id[..7] == p0 && id[7..9] == dd && id[9..13] == p2
      && id[13..14] == p3 && id[14..16] == p4 && id[16..20] == p5
  {
    var id := p0 + dd + p2 + p3 + p4 + p5;
    AllDigitsConcat(p0, dd);
    AllDigitsConcat(p0 + dd, p2);
    AllDigitsConcat(p0 + dd + p2, p3);
    AllDigitsConcat(p0 + dd + p2 + p3, p4);
    AllDigitsConcat(p0 + dd + p2 + p3 + p4, p5);
    IdSlices(p0, dd, p2, p3, p4, p5);
    assert id[..7] == p0;
    assert id[9..13] == p2;
  }

  /**
   * Every id `generate` returns for a four-digit year passes the field checks
   * of `is_valid` and carries its draws where the layout puts them.
   */
  lemma GenerateLayout(table: Table, currentYear: int, year: Option<int>, orgao: Option<nat>,
                       drawOrgao: nat, drawNumber: nat, trIdx: nat, foroIdx: nat)
    requires WellFormedTable(table)
    requires DrawsInRange(table, orgao, drawOrgao, drawNumber, trIdx, foroIdx)
    requires I32Min <= currentYear <= I32Max
    requires year.Some? ==> I32Min <= year.value <= I32Max
    requires var y := if year.Some? then year.value else currentYear; 1000 <= y <= 9999
    ensures var r := Generate(table, currentYear, year, orgao, drawOrgao, drawNumber, trIdx, foroIdx);
      r.Some? ==>
        var y := if year.Some? then year.value else currentYear;
        var o := ChosenOrgao(orgao, drawOrgao);
        var t, f := table[o].idTribunal[trIdx], table[o].idForo[foroIdx];
        |r.value| == 20 && AllDigits(r.value) && FieldsValid(table, r.value)
        && r.value[..7] == Pad(drawNumber, 7) && Value(r.value[..7]) == drawNumber
        && r.value[9..13] == YearText(y) && Value(r.value[9..13]) == y
        && r.value[13..14] == Decimal(o) && Value(r.value[13..14]) == o
        && r.value[14..16] == Pad(t, 2) && Value(r.value[14..16]) == t
        && r.value[16..20] == Pad(f, 4) && Value(r.value[16..20]) == f
  {
    var r := Generate(table, currentYear, year, orgao, drawOrgao, drawNumber, trIdx, foroIdx);
    if r.Some? {
      var y := if year.Some? then year.value else currentYear;
      var o := ChosenOrgao(orgao, drawOrgao);
      var t, f := table[o].idTribunal[trIdx], table[o].idForo[foroIdx];
      assert t in table[o].idTribunal && f in table[o].idForo;
      GeneratedLayout(drawNumber, y, o, t, f);
      GeneratedValid(table, drawNumber, y, o, t, f);
      assert r.value == GeneratedId(drawNumber, y, o, t, f);
      RemoveSymbolsOfDigits(r.value);
      IsValidFields(table, r.value);
    }
  }

  /**
   * `generate` as written accepts any year from the current one on: a year of
   * five or more digits yields an id of 21 or more digits, which `is_valid`
   * rejects.
   */
  lemma GenerateLongYearInvalid(table: Table, currentYear: int, year: Option<int>, orgao: Option<nat>,
                                drawOrgao: nat, drawNumber: nat, trIdx: nat, foroIdx: nat)
    requires WellFormedTable(table)
    requires DrawsInRange(table, orgao, drawOrgao, drawNumber, trIdx, foroIdx)
    requires I32Min <= currentYear <= I32Max
    requires year.Some? ==> I32Min <= year.value <= I32Max
    requires var y := if year.Some? then year.value else currentYear; y >= 10000
    ensures var r := Generate(table, currentYear, year, orgao, drawOrgao, drawNumber, trIdx, foroIdx);
      r.Some? ==> |r.value| > 20 && !IsValid(table, r.value)
  {
    var r := Generate(table, currentYear, year, orgao, drawOrgao, drawNumber, trIdx, foroIdx);
    if r.Some? {
      var y := if year.Some? then year.value else currentYear;
      var o := ChosenOrgao(orgao, drawOrgao);
      var t, f := table[o].idTribunal[trIdx], table[o].idForo[foroIdx];
      assert t in table[o].idTribunal && f in table[o].idForo;
      BaseFits(drawNumber, y, o, t, f);
      var p0, dd, p2, p3, p4, p5 := Pad(drawNumber, 7), Checksum(GeneratedBase(drawNumber, y, o, t, f)),
        YearText(y), Decimal(o), Pad(t, 2), Pad(f, 4);
      PadValue(drawNumber, 7);
      PadValue(t, 2);
      PadValue(f, 4);
      DecimalWidth(y, 4);
      assert Pow10(4) == 10000;
      AllDigitsConcat(p0, dd);
      AllDigitsConcat(p0 + dd, p2);
      AllDigitsConcat(p0 + dd + p2, p3);
      AllDigitsConcat(p0 + dd + p2 + p3, p4);
      AllDigitsConcat(p0 + dd + p2 + p3 + p4, p5);
      assert r.value == p0 + dd + p2 + p3 + p4 + p5;
      RemoveSymbolsOfDigits(r.value);
    }
  }

  /**
   * `generate` restricted to the four-digit years the CNJ layout has room
   * for: None also for a year outside 1000..9999, and every id it returns
   * passes `is_valid`.
   */
  function GenerateFourDigitYear(table: Table, currentYear: int, year: Option<int>, orgao: Option<nat>,
                                 drawOrgao: nat, drawNumber: nat, trIdx: nat, foroIdx: nat): (r: Option<string>)
    requires WellFormedTable(table)
    requires DrawsInRange(table, orgao, drawOrgao, drawNumber, trIdx, foroIdx)
    requires I32Min <= currentYear <= I32Max
    requires year.Some? ==> I32Min <= year.value <= I32Max
    ensures r.Some? <==>
      (var y := if year.Some? then year.value else currentYear;
       var o := ChosenOrgao(orgao, drawOrgao);
       y >= currentYear && 1000 <= y <= 9999 && 1 <= o <= 9 && o in table)
    ensures r.Some? ==> |r.value| == 20 && IsValid(table, r.value)
  {
    var y := if year.Some? then year.value else currentYear;
    if !(1000 <= y <= 9999) then None
    else
      GenerateSound(table, currentYear, year, orgao, drawOrgao, drawNumber, trIdx, foroIdx);
      Generate(table, currentYear, year, orgao, drawOrgao, drawNumber, trIdx, foroIdx)
  }
}

/** The examples of the source's `tests` module. */
module LegalProcessTests {
  import opened Strings
  import opened LegalProcess

  lemma FormatExampleShape(id: string)
    requires id == "12345678901234567890"
    ensures |id| == 20 && AllDigits(id)
    ensures Layout(id) == "1234567-89.0123.4.56.7890"
  {
    assert AllDigits(id);
    assert id[0..7] == "1234567" && id[7..9] == "89" && id[9..13] == "0123";
    assert id[13..14] == "4" && id[14..16] == "56" && id[16..20] == "7890";
  }

  /** `format_legal_process("12345678901234567890")`. */
  lemma FormatExample(id: string)
    requires id == "12345678901234567890"
    ensures FormatLegalProcess(id) == Some("1234567-89.0123.4.56.7890")
  {
    FormatExampleShape(id);
  }

  /** `format_legal_process("123")` is None. */
  lemma FormatRejectsShort()
    ensures FormatLegalProcess("123") == None
  {
  }

  lemma ValueOfTwo(s: string)
    requires |s| == 2 && AllDigits(s)
    ensures Value(s) == 10 * DigitValue(s[0]) + DigitValue(s[1])
  {
    assert Value(s[..1]) == DigitValue(s[0]) by {
      assert s[..1][..0] == [];
    }
  }

  lemma ValueAppendTwo(a: string, b: string)
    requires |b| == 2 && AllDigits(a) && AllDigits(b)
    ensures AllDigits(a + b) && Value(a + b) == Value(a) * 100 + Value(b)
  {
    ValueConcat(a, b);
    assert Pow10(|b|) == 100;
  }



  lemma FirstChunk()
    ensures AllDigits("546611") && Value("546611") == 546611
  {
    ValueOfTwo("54");
    ValueOfTwo("66");
    ValueOfTwo("11");
    assert "54" + "66" == "5466" && "5466" + "11" == "546611";
    ValueAppendTwo("54", "66");
    ValueAppendTwo("5466", "11");
  }

  lemma SecondChunk()
    ensures AllDigits("720238") && Value("720238") == 720238
  {
    ValueOfTwo("72");
    ValueOfTwo("02");
    ValueOfTwo("38");
    assert "72" + "02" == "7202" && "7202" + "38" == "720238";
    ValueAppendTwo("72", "02");
    ValueAppendTwo("7202", "38");
  }

  lemma ThirdChunk()
    ensures AllDigits("150014") && Value("150014") == 150014
  {
    ValueOfTwo("15");
    ValueOfTwo("00");
    ValueOfTwo("14");
    assert "15" + "00" == "1500" && "1500" + "14" == "150014";
    ValueAppendTwo("15", "00");
    ValueAppendTwo("1500", "14");
  }

  lemma ExampleBaseValue()
    ensures AllDigits("546611720238150014") && Value("546611720238150014") == 546611720238150014
  {
    var a, b, c := "546611", "720238", "150014";
    FirstChunk();
    SecondChunk();
    ThirdChunk();
    ValueConcat(a, b);
    ValueConcat(a + b, c);
    assert a + b + c == "546611720238150014";
    assert Pow10(6) == 1000000;
    Pow10Add(6, 6);
  }

  /** Check digits 00 are never in 1..97, so a number that has them is rejected whatever the table. */
  lemma ZeroCheckDigitsRejected(table: Table, id: string)
    requires |id| == 20 && AllDigits(id) && id[7] == '0' && id[8] == '0'
    ensures !IsValid(table, id)
  {
    RemoveCharsNone(id, Symbols);
    IsValidFields(table, id);
    ValueOfTwo(id[7..9]);
  }

  /** `is_valid("00000000000000000000")` is false. */
  lemma AllZerosRejected(table: Table, id: string)
    requires id == "00000000000000000000"
    ensures !IsValid(table, id)
  {
    assert forall i :: 0 <= i < |id| ==> id[i] == '0';
    ZeroCheckDigitsRejected(table, id);
  }

  /**
   * `generate(Some(3000), None)`: an id is produced exactly when the drawn
   * organ is in the table, and its year field is "3000".
   */
  lemma GenerateYear3000(table: Table, currentYear: int, drawOrgao: nat, drawNumber: nat, trIdx: nat, foroIdx: nat)
    requires WellFormedTable(table) && DrawsInRange(table, None, drawOrgao, drawNumber, trIdx, foroIdx)
    requires I32Min <= currentYear <= 3000
    ensures var r := Generate(table, currentYear, Some(3000), None, drawOrgao, drawNumber, trIdx, foroIdx);
      (r.Some? <==> drawOrgao in table) && (r.Some? ==> |r.value| == 20 && r.value[9..13] == "3000")
  {
    GenerateLayout(table, currentYear, Some(3000), None, drawOrgao, drawNumber, trIdx, foroIdx);
    assert YearText(3000) == "3000";
  }

  /**
   * `generate(None, Some(4))`: an id is produced exactly when organ 4 is in the
   * table; its year field is the current year and its organ field is "4".
   */
  lemma GenerateOrgao4(table: Table, currentYear: int, drawOrgao: nat, drawNumber: nat, trIdx: nat, foroIdx: nat)
    requires WellFormedTable(table) && DrawsInRange(table, Some(4), drawOrgao, drawNumber, trIdx, foroIdx)
    requires 1000 <= currentYear <= 9999
    ensures var r := Generate(table, currentYear, None, Some(4), drawOrgao, drawNumber, trIdx, foroIdx);
      (r.Some? <==> 4 in table)
      && (r.Some? ==> |r.value| == 20 && r.value[9..13] == YearText(currentYear) && r.value[13..14] == "4")
  {
    GenerateLayout(table, currentYear, None, Some(4), drawOrgao, drawNumber, trIdx, foroIdx);
    assert Decimal(4) == "4";
  }

  /** `checksum("546611720238150014") == "77"`, one of the source's test vectors. */
  lemma ChecksumExample()
    ensures ChecksumFits("546611720238150014") && Checksum("546611720238150014") == "77"
  {
    ExampleBaseValue();
    EighteenDigitsFit("546611720238150014");
    assert CheckValue(546611720238150014) == 77;
    ValueOfTwo("77");
    ValueInjective(Checksum("546611720238150014"), "77");
  }
}
