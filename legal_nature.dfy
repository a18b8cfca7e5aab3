/**
 * The legal-nature ("natureza jurídica") codes of the federal revenue service:
 * a fixed table from four-digit codes to descriptions, looked up after the
 * input has been reduced to its ASCII digits.
 */
module LegalNature {
  import opened Strings

  // The table is filled once, section by section, and only read afterwards.
  // It is kept here as the set of codes of each section and a function giving
  // each code's description; `Table` pairs them into the string-to-string map
  // the lookups read.

  /** The codes of section 1: public administration. */
  const PublicAdministration: set<string> := {
    "1015", "1023", "1031", "1040", "1058", "1066", "1074", "1082", "1104", "1112", "1120", "1139",
    "1147", "1155", "1163", "1171", "1180"
  }

  /** The codes of section 2: business entities. */
  const BusinessEntities: set<string> := {
    "2011", "2038", "2046", "2054", "2062", "2070", "2089", "2097", "2100", "2127", "2135", "2143",
    "2151", "2160", "2178", "2194", "2208", "2216", "2224", "2232", "2240", "2259", "2267", "2275",
    "2305"
  }

  /** The codes of section 3: non-profit entities. */
  const NonProfitEntities: set<string> := {
    "3034", "3042", "3050", "3069", "3077", "3085", "3093", "3107", "3115", "3123", "3131", "3204",
    "3212", "3999"
  }

  /** The codes of section 4: natural persons. */
  const NaturalPersons: set<string> := {
    "4014", "4022", "4081"
  }

  /** The codes of section 5: international organisations and other extraterritorial institutions. */
  const InternationalOrganizations: set<string> := {
    "5002"
  }

  /** The codes of the whole table. */
  const Codes: set<string> :=
    PublicAdministration + BusinessEntities + NonProfitEntities + NaturalPersons + InternationalOrganizations

  /** The description inserted with the code whose digits spell `number`. */
  function Description(number: nat): string {
    match number
    case 1015 => "Órgão Público do Poder Executivo Federal"
    case 1023 => "Órgão Público do Poder Executivo Estadual ou do Distrito Federal"
    case 1031 => "Órgão Público do Poder Executivo Municipal"
    case 1040 => "Órgão Público do Poder Legislativo Federal"
    case 1058 => "Órgão Público do Poder Legislativo Estadual ou do Distrito Federal"
    case 1066 => "Órgão Público do Poder Legislativo Municipal"
    case 1074 => "Órgão Público do Poder Judiciário Federal"
    case 1082 => "Órgão Público do Poder Judiciário Estadual"
    case 1104 => "Autarquia Federal"
    case 1112 => "Autarquia Estadual ou do Distrito Federal"
    case 1120 => "Autarquia Municipal"
    case 1139 => "Fundação Federal"
    case 1147 => "Fundação Estadual ou do Distrito Federal"
    case 1155 => "Fundação Municipal"
    case 1163 => "Órgão Público Autônomo da União"
    case 1171 => "Órgão Público Autônomo Estadual ou do Distrito Federal"
    case 1180 => "Órgão Público Autônomo Municipal"
    case 2011 => "Empresa Pública"
    case 2038 => "Sociedade de Economia Mista"
    case 2046 => "Sociedade Anônima Aberta"
    case 2054 => "Sociedade Anônima Fechada"
    case 2062 => "Sociedade Empresária Limitada"
    case 2070 => "Sociedade Empresária em Nome Coletivo"
    case 2089 => "Sociedade Empresária em Comandita Simples"
    case 2097 => "Sociedade Empresária em Comandita por Ações"
    case 2100 => "Sociedade Mercantil de Capital e Indústria (extinta pelo NCC/2002)"
    case 2127 => "Sociedade Empresária em Conta de Participação"
    case 2135 => "Empresário (Individual)"
    case 2143 => "Cooperativa"
    case 2151 => "Consórcio de Sociedades"
    case 2160 => "Grupo de Sociedades"
    case 2178 => "Estabelecimento, no Brasil, de Sociedade Estrangeira"
    case 2194 => "Estabelecimento, no Brasil, de Empresa Binacional Argentino-Brasileira"
    case 2208 => "Entidade Binacional Itaipu"
    case 2216 => "Empresa Domiciliada no Exterior"
    case 2224 => "Clube/Fundo de Investimento"
    case 2232 => "Sociedade Simples Pura"
    case 2240 => "Sociedade Simples Limitada"
    case 2259 => "Sociedade em Nome Coletivo"
    case 2267 => "Sociedade em Comandita Simples"
    case 2275 => "Sociedade Simples em Conta de Participação"
    case 2305 => "Empresa Individual de Responsabilidade Limitada"
    case 3034 => "Serviço Notarial e Registral (Cartório)"
    case 3042 => "Organização Social"
    case 3050 => "Organização da Sociedade Civil de Interesse Público (Oscip)"
    case 3069 => "Outras Formas de Fundações Mantidas com Recursos Privados"
    case 3077 => "Serviço Social Autônomo"
    case 3085 => "Condomínio Edilícios"
    case 3093 => "Unidade Executora (Programa Dinheiro Direto na Escola)"
    case 3107 => "Comissão de Conciliação Prévia"
    case 3115 => "Entidade de Mediação e Arbitragem"
    case 3123 => "Partido Político"
    case 3131 => "Entidade Sindical"
    case 3204 => "Estabelecimento, no Brasil, de Fundação ou Associação Estrangeiras"
    case 3212 => "Fundação ou Associação Domiciliada no Exterior"
    case 3999 => "Outras Formas de Associação"
    case 4014 => "Empresa Individual Imobiliária"
    case 4022 => "Segurado Especial"
    case 4081 => "Contribuinte individual"
    case 5002 => "Organização Internacional e Outras Instituições Extraterritoriais"
    case _ => ""
  }

  /** The number a code's digits spell (0 for a string that is not all digits). */
  function CodeNumber(code: string): nat {
    if AllDigits(code) then Value(code) else 0
  }

  /** `legal_nature_table`: each code mapped to its description. */
  const Table: map<string, string> := map code | code in Codes :: Description(CodeNumber(code))

  /** A code of section `first`: four ASCII digits, the first of which names the section. */
  predicate SectionCode(code: string, first: char) {
    |code| == 4 && code[0] == first && IsDigit(code[1]) && IsDigit(code[2]) && IsDigit(code[3])
  }

  lemma PublicAdministrationCodes(code: string)
    requires code in PublicAdministration
    ensures SectionCode(code, '1')
  {
  }

  lemma BusinessEntitiesCodes(code: string)
    requires code in BusinessEntities
    ensures SectionCode(code, '2')
  {
  }

  lemma NonProfitEntitiesCodes(code: string)
    requires code in NonProfitEntities
    ensures SectionCode(code, '3')
  {
  }

  lemma NaturalPersonsCodes(code: string)
    requires code in NaturalPersons
    ensures SectionCode(code, '4')
  {
  }

  lemma InternationalOrganizationsCodes(code: string)
    requires code in InternationalOrganizations
    ensures SectionCode(code, '5')
  {
  }

  /** Every code of the table is four ASCII digits whose first digit, the section, is 1..5. */
  lemma TableCodes(code: string)
    requires code in Codes
    ensures |code| == 4 && AllDigits(code) && '1' <= code[0] <= '5'
  {
    if code in PublicAdministration {
      PublicAdministrationCodes(code);
    } else if code in BusinessEntities {
      BusinessEntitiesCodes(code);
    } else if code in NonProfitEntities {
      NonProfitEntitiesCodes(code);
    } else if code in NaturalPersons {
      NaturalPersonsCodes(code);
    } else {
      InternationalOrganizationsCodes(code);
    }
  }

  /** A code of the table, written as it is, has the description inserted with it. */
  lemma TableCodeDescribed(code: string)
    requires code in Codes
    ensures GetDescription(code) == Some(Description(CodeNumber(code)))
  {
    TableCodes(code);
  }

  /** `normalize`: the ASCII digits of `code`, when there are exactly four of them. */
  function Normalize(code: string): (r: Option<string>)
    ensures r.Some? <==> |OnlyDigits(code)| == 4
    ensures r.Some? ==> |r.value| == 4 && AllDigits(r.value) && r.value == OnlyDigits(code)
  {
    var digits := OnlyDigits(code);
    if |digits| == 4 then Some(digits) else None
  }

  /** Separators anywhere in a code are ignored: only the digit subsequence counts. */
  lemma NormalizeIgnoresSeparators(a: string, separators: string, b: string)
    requires forall i :: 0 <= i < |separators| ==> !IsDigit(separators[i])
    ensures Normalize(a + separators + b) == Normalize(a + b)
  {
    OnlyDigitsInsert(a, separators, b);
  }

  /** A four-digit code normalises to itself, so normalising twice changes nothing. */
  lemma NormalizeFixed(code: string)
    ensures |code| == 4 && AllDigits(code) ==> Normalize(code) == Some(code)
    ensures Normalize(code).Some? ==> Normalize(Normalize(code).value) == Normalize(code)
  {
  }

  /** `is_valid`: the normalised code is a key of the table. */
  function IsValid(code: string): bool {
    match Normalize(code)
    case Some(normalized) => normalized in Table
    case None => false
  }

  /**
   * A valid code has exactly four digits, and the first of them is a
   * section number 1..5.
   */
  lemma ValidShape(code: string)
    requires IsValid(code)
    ensures var digits := OnlyDigits(code); |digits| == 4 && '1' <= digits[0] <= '5'
  {
    TableCodes(Normalize(code).value);
  }

  /** `get_description`: the table's description of the normalised code. */
  function GetDescription(code: string): (r: Option<string>)
    ensures r.Some? <==> IsValid(code)
    ensures r.Some? ==> r.value == Table[Normalize(code).value]
  {
    match Normalize(code)
    case Some(normalized) => if normalized in Table then Some(Table[normalized]) else None
    case None => None
  }

  /** Codes with the same normal form have the same description. */
  lemma SameNormalForm(a: string, b: string)
    requires Normalize(a) == Normalize(b)
    ensures GetDescription(a) == GetDescription(b)
  {
  }

  /**
   * `list_all`: the whole table as a new map. Every code it lists has the
   * description `GetDescription` gives, and every code with a description
   * is listed.
   */
  function ListAll(): (r: map<string, string>)
    ensures r.Keys == Table.Keys
    ensures forall code :: code in r ==> GetDescription(code) == Some(r[code])
    ensures forall code :: GetDescription(code).Some? ==> OnlyDigits(code) in r
  {
    TableLooksUpItself();
    map code | code in Table :: Table[code]
  }

  /** Looking up a code of the table, as written, gives its entry. */
  lemma TableLooksUpItself()
    ensures forall code :: code in Table ==> GetDescription(code) == Some(Table[code])
  {
    forall code | code in Table ensures GetDescription(code) == Some(Table[code]) {
      TableCodeDescribed(code);
    }
  }
}

module LegalNatureTests {
  import opened Strings
  import opened LegalNature

  lemma {:induction false} ValueOfFour(code: string)
    requires |code| == 4 && AllDigits(code)
    ensures Value(code) == 1000 * DigitValue(code[0]) + 100 * DigitValue(code[1]) + 10 * DigitValue(code[2]) + DigitValue(code[3])
  {
    var three, two, one := code[..3], code[..2], code[..1];
    assert three[..2] == two && two[..1] == one && one[..0] == [];
    assert Value(one) == DigitValue(code[0]);
    assert Value(two) == 10 * DigitValue(code[0]) + DigitValue(code[1]);
    assert Value(three) == 100 * DigitValue(code[0]) + 10 * DigitValue(code[1]) + DigitValue(code[2]);
  }

  lemma LimitedCompanyDescription(number: nat)
    requires number == 2062
    ensures Description(number) == "Sociedade Empresária Limitada"
  {
  }

  lemma DescriptionOfLimitedCompany(code: string)
    requires code == "2062"
    ensures GetDescription(code) == Some("Sociedade Empresária Limitada")
  {
    assert code in BusinessEntities;
    TableCodeDescribed(code);
    ValueOfFour(code);
    LimitedCompanyDescription(CodeNumber(code));
  }

  lemma FederalExecutiveDescription(number: nat)
    requires number == 1015
    ensures Description(number) == "Órgão Público do Poder Executivo Federal"
  {
  }

  lemma DescriptionWithHyphen(code: string)
    requires code == "101" + "-" + "5"
    ensures GetDescription(code) == Some("Órgão Público do Poder Executivo Federal")
  {
    NormalizeIgnoresSeparators("101", "-", "5");
    SameNormalForm(code, "101" + "5");
    FederalExecutiveCode("101" + "5");
  }

  lemma FederalExecutiveCode(code: string)
    requires code == "1015"
    ensures GetDescription(code) == Some("Órgão Público do Poder Executivo Federal")
  {
    assert code in PublicAdministration;
    TableCodeDescribed(code);
    ValueOfFour(code);
    FederalExecutiveDescription(CodeNumber(code));
  }

  lemma SpacedCodeNormalized(code: string)
    requires code == "2 0 6 2"
    ensures Normalize(code) == Some("2062")
  {
    OnlyDigitsSeparated(code, '2', '0', '6', '2', ' ');
    assert ['2', '0', '6', '2'] == "2062";
  }

  lemma UnknownCodes(code: string)
    requires code == "9999" || code == "0000"
    ensures GetDescription(code) == None
  {
    assert |code| == 4 && IsDigit(code[0]) && IsDigit(code[1]) && IsDigit(code[2]) && IsDigit(code[3]);
    OutsideSectionsUndescribed(code);
  }

  /** A four-digit code whose first digit names no section is not in the table. */
  lemma OutsideSectionsUndescribed(code: string)
    requires |code| == 4 && IsDigit(code[0]) && IsDigit(code[1]) && IsDigit(code[2]) && IsDigit(code[3])
    requires !('1' <= code[0] <= '5')
    ensures !IsValid(code)
  {
    if IsValid(code) {
      ValidShape(code);
    }
  }

  lemma LetterInCode(code: string)
    requires code == "20A2"
    ensures GetDescription(code) == None
  {
    NormalizeIgnoresSeparators("20", "A", "2");
    assert code == "20" + "A" + "2";
    assert AllDigits("20" + "2");
  }

  lemma EmptyCode()
    ensures GetDescription("") == None
  {
  }
}
