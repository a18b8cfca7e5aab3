/**
 * CEP, the eight-digit postal code. Validation accepts exactly eight ASCII
 * digits and does no cleaning; formatting puts a dash before the last three
 * digits; symbol removal deletes dots and dashes only.
 */
module Cep {
  import opened Strings

  /** The characters `remove_symbols` deletes. */
  const Symbols: set<char> := {'.', '-'}

  /** `remove_symbols`: every '.' and '-' deleted, every other character kept in order. */
  function RemoveSymbols(dirty: string): (r: string)
    ensures r == RemoveChars(dirty, Symbols)
    ensures forall c :: c in r <==> c in dirty && c !in Symbols
    ensures |r| <= |dirty|
  {
    var r := RemoveChars(dirty, Symbols);
    forall c ensures c in r <==> c in dirty && c !in Symbols { RemoveCharsKeeps(dirty, Symbols, c); }
    r
  }

  /** Removing symbols twice removes nothing more. */
  lemma RemoveSymbolsIdempotent(dirty: string)
    ensures RemoveSymbols(RemoveSymbols(dirty)) == RemoveSymbols(dirty)
  {
    RemoveCharsIdempotent(dirty, Symbols);
  }

  /** Dots and dashes anywhere around the digits of a CEP do not change what is left. */
  lemma RemoveSymbolsKeepsDigits(cep: string, a: string, b: string)
    requires IsValid(cep)
    requires forall i :: 0 <= i < |a| ==> a[i] in Symbols
    requires forall i :: 0 <= i < |b| ==> b[i] in Symbols
    ensures RemoveSymbols(a + cep + b) == cep
  {
    RemoveCharsConcat(a + cep, b, Symbols);
    RemoveCharsConcat(a, cep, Symbols);
    AllSymbols(a);
    AllSymbols(b);
    assert forall i :: 0 <= i < |cep| ==> cep[i] !in Symbols by {
      forall i | 0 <= i < |cep| ensures cep[i] !in Symbols {
        assert IsDigit(cep[i]);
      }
    }
    RemoveCharsNone(cep, Symbols);
    assert RemoveChars(a + cep + b, Symbols) == [] + cep + [];
  }

  lemma {:induction false} AllSymbols(s: string)
    requires forall i :: 0 <= i < |s| ==> s[i] in Symbols
    ensures RemoveChars(s, Symbols) == []
  {
    if |s| > 0 {
      AllSymbols(s[1..]);
    }
  }

  /** `is_valid`: exactly eight characters, all ASCII digits. */
  predicate IsValid(cep: string) {
    |cep| == 8 && forall i :: 0 <= i < |cep| ==> IsDigit(cep[i])
  }

  /**
   * `format_cep`: `None` unless the CEP is valid; otherwise its first five
   * digits, a dash and its last three. The dash is the only character added,
   * and the result is no longer a valid CEP.
   */
  function FormatCep(cep: string): (r: Option<string>)
    ensures r.Some? <==> IsValid(cep)
    ensures r.Some? ==> |r.value| == 9 && r.value[5] == '-' && RemoveSymbols(r.value) == cep
    ensures r.Some? ==> r.value[..5] == cep[..5] && r.value[6..] == cep[5..]
    ensures r.Some? ==> !IsValid(r.value)
  {
    if IsValid(cep) then
      var formatted := cep[0..5] + "-" + cep[5..8];
      DashDropped(cep, formatted);
      Some(formatted)
    else None
  }

  lemma DashDropped(cep: string, formatted: string)
    requires IsValid(cep) && formatted == cep[0..5] + "-" + cep[5..8]
    ensures RemoveSymbols(formatted) == cep
  {
    var a, b := cep[0..5], cep[5..8];
    assert formatted == a + ['-'] + b;
    RemoveCharsDrop(a, '-', b, Symbols);
    RemoveCharsNone(a, Symbols);
    RemoveCharsNone(b, Symbols);
    assert cep == a + b;
  }

  /** Formatting is injective: two CEPs with the same formatted form are equal. */
  lemma FormatInjective(a: string, b: string)
    requires FormatCep(a).Some? && FormatCep(a) == FormatCep(b)
    ensures a == b
  {
  }

  /** A formatted CEP is rejected by formatting again, but its symbols removed it is the original. */
  lemma FormattedNeedsCleaning(cep: string)
    requires IsValid(cep)
    ensures FormatCep(FormatCep(cep).value) == None
    ensures FormatCep(RemoveSymbols(FormatCep(cep).value)) == FormatCep(cep)
  {
  }

  /** `generate`: eight digits drawn from 0 to 9, each written with `to_string`. */
  function Generate(draws: seq<nat>): (r: string)
    requires |draws| == 8 && forall i :: 0 <= i < 8 ==> draws[i] < 10
    ensures IsValid(r)
    ensures forall i :: 0 <= i < 8 ==> DigitValue(r[i]) == draws[i]
  {
    Numerals(draws)
  }

  /** Every valid CEP is the one generated by the draws read off its digits. */
  lemma GenerateComplete(cep: string)
    requires IsValid(cep)
    ensures Generate(seq(8, i requires 0 <= i < 8 => DigitValue(cep[i]))) == cep
  {
    var g := Generate(seq(8, i requires 0 <= i < 8 => DigitValue(cep[i])));
    forall i | 0 <= i < 8 ensures g[i] == cep[i] {
      assert DigitValue(g[i]) == DigitValue(cep[i]);
    }
  }
}

module CepTests {
  import opened Strings
  import opened Cep

  lemma DashRemoved(dirty: string, cep: string)
    requires dirty == "01310-200" && cep == "01310200"
    ensures RemoveSymbols(dirty) == cep
  {
    Formatted(cep);
  }

  lemma OnlySymbolsRemoved(dirty: string)
    requires dirty == "...---..."
    ensures RemoveSymbols(dirty) == ""
  {
    AllSymbols(dirty);
  }

  lemma Formatted(cep: string)
    requires cep == "01310200"
    ensures FormatCep(cep) == Some("01310-200")
  {
    FormattedPieces(cep, "01310-200");
  }

  lemma FormattedPieces(cep: string, formatted: string)
    requires cep == "01310200" && formatted == "01310-200"
    ensures cep[0..5] + "-" + cep[5..8] == formatted
  {
  }

  lemma RejectedInputs(a: string, b: string, c: string, d: string)
    requires a == "12345" && b == "013102009" && c == "1234567-" && d == "01310-200"
    ensures FormatCep(a) == None && FormatCep(b) == None && FormatCep(c) == None && FormatCep(d) == None
  {
    assert !IsDigit(c[7]);
    assert !IsDigit(d[5]);
  }
}
