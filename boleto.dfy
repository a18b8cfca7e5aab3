/**
 * Bank-slip (boleto) digitable lines: 47 digits made of three fields, each
 * closed by a mod-10 check digit, followed by the barcode's general check
 * digit and the due-date/amount field. The 44-digit barcode is rebuilt from
 * five fixed slices of the line and its digit at index 4 is a mod-11 check
 * over the other 43.
 */
module Boleto {
  import opened Strings

  const DigitableLineLength: nat := 47
  const CheckDigitMod11Position: nat := 4
  const Mod10Weights: seq<nat> := [2, 1]
  const Mod11WeightInitial: nat := 2
  const Mod11WeightEnd: nat := 9

  /** Slices of the digitable line that, concatenated, give the barcode. */
  const ConvertPositions: seq<(nat, nat)> := [(0, 4), (32, 47), (4, 9), (10, 20), (21, 31)]

  /** (start, end, check-digit index) of the three mod-10 fields. */
  const PartialsToVerify: seq<(nat, nat, nat)> := [(0, 9, 9), (10, 20, 20), (21, 31, 31)]

  // ---------------------------------------------------------------------------
  // Mod 10

  /** Contribution of digit `d` at position `i` of the reversed field. */
  function Mod10Term(d: nat, i: nat): (t: nat)
    requires d < 10
    ensures t < 10
  {
    var p := d * Mod10Weights[i % 2];
    if p > 9 then 1 + p % 10 else p
  }

  /** Sum of the first `n` terms over the reversed field `t`. */
  function Mod10Sum(t: string, n: nat): nat
    requires n <= |t|
  {
    if n == 0 then 0 else Mod10Sum(t, n - 1) + Mod10Term(DigitOr0(t[n - 1]), n - 1)
  }

  /** The mod-10 check digit of a field: the digit that brings the weighted sum to a multiple of 10. */
  function Mod10(partial: string): (r: nat)
    ensures r < 10
    ensures (Mod10Sum(Reverse(partial), |partial|) + r) % 10 == 0
  {
    var m := Mod10Sum(Reverse(partial), |partial|) % 10;
    if m > 0 then 10 - m else 0
  }

  /** `get_mod10`: the loop over the reversed field with alternating weights 2, 1. */
  method GetMod10(partial: string) returns (r: nat)
    ensures r == Mod10(partial)
  {
    var reversed := Reverse(partial);
    var sum := 0;
    var index := 0;
    while index < |reversed|
      invariant 0 <= index <= |reversed|
      invariant sum == Mod10Sum(reversed, index)
    {
      var digit := DigitOr0(reversed[index]);
      var weight := Mod10Weights[index % 2];
      var multiplier := digit * weight;
      if multiplier > 9 {
        sum := sum + 1 + multiplier % 10;
      } else {
        sum := sum + multiplier;
      }
      index := index + 1;
    }
    var mod10 := sum % 10;
    if mod10 > 0 {
      r := 10 - mod10;
    } else {
      r := 0;
    }
  }

  // ---------------------------------------------------------------------------
  // Mod 11

  /** Weighted sum of the first `n` digits of the reversed value `t`, weights cycling 2..9. */
  function Mod11Sum(t: string, n: nat): nat
    requires n <= |t|
  {
    if n == 0 then 0 else Mod11Sum(t, n - 1) + DigitOr0(t[n - 1]) * (Mod11WeightInitial + (n - 1) % 8)
  }

  /**
   * The mod-11 general check digit: 11 minus the remainder, except that
   * remainders 0 and 1 give 1, so the digit is never 0.
   */
  function Mod11(value: string): (r: nat)
    ensures 1 <= r <= 9
    ensures var m := Mod11Sum(Reverse(value), |value|) % 11;
      if m >= 2 then (Mod11Sum(Reverse(value), |value|) + r) % 11 == 0 else r == 1
  {
    var m := Mod11Sum(Reverse(value), |value|) % 11;
    if m != 0 && m != 1 then 11 - m else 1
  }

  /** The weight after position `i` is the next one in the cycle 2, 3, ..., 9, 2, ... */
  lemma WeightStep(i: nat)
    ensures Mod11WeightInitial + i % 8 < Mod11WeightEnd ==> Mod11WeightInitial + (i + 1) % 8 == Mod11WeightInitial + i % 8 + 1
    ensures Mod11WeightInitial + i % 8 >= Mod11WeightEnd ==> Mod11WeightInitial + (i + 1) % 8 == Mod11WeightInitial
  {
  }

  /** `get_mod11`: the loop over the reversed value, the weight running 2, 3, ..., 9 and back to 2. */
  method GetMod11(value: string) returns (r: nat)
    ensures r == Mod11(value)
  {
    var weight := Mod11WeightInitial;
    var sum := 0;
    var reversed := Reverse(value);
    var i := 0;
    while i < |reversed|
      invariant 0 <= i <= |reversed|
      invariant weight == Mod11WeightInitial + i % 8
      invariant sum == Mod11Sum(reversed, i)
    {
      var digit := DigitOr0(reversed[i]);
      sum := sum + digit * weight;
      WeightStep(i);
      if weight < Mod11WeightEnd {
        weight := weight + 1;
      } else {
        weight := Mod11WeightInitial;
      }
      i := i + 1;
    }
    assert sum == Mod11Sum(Reverse(value), |value|);
    var mod11 := sum % 11;
    if mod11 != 0 && mod11 != 1 {
      r := 11 - mod11;
    } else {
      r := 1;
    }
  }

  // ---------------------------------------------------------------------------
  // Barcode

  predicate SlicesFit(l: string, ps: seq<(nat, nat)>) {
    forall k :: 0 <= k < |ps| ==> ps[k].0 <= ps[k].1 <= |l|
  }

  /** Concatenation of the slices `ps` of `l`, in order. */
  function Slices(l: string, ps: seq<(nat, nat)>): string
    requires SlicesFit(l, ps)
  {
    if |ps| == 0 then []
    else Slices(l, ps[..|ps| - 1]) + l[ps[|ps| - 1].0..ps[|ps| - 1].1]
  }

  /** The 44-digit barcode carried by a digitable line. */
  function Barcode(l: string): (b: string)
    requires |l| >= DigitableLineLength
    ensures b == l[0..4] + l[32..47] + l[4..9] + l[10..20] + l[21..31]
    ensures |b| == 44
  {
    var ps := ConvertPositions;
    assert ps[..1][..0] == [];
    assert Slices(l, ps[..1]) == l[0..4];
    assert ps[..2][..1] == ps[..1];
    assert Slices(l, ps[..2]) == l[0..4] + l[32..47];
    assert ps[..3][..2] == ps[..2];
    assert Slices(l, ps[..3]) == l[0..4] + l[32..47] + l[4..9];
    assert ps[..4][..3] == ps[..3];
    assert Slices(l, ps[..4]) == l[0..4] + l[32..47] + l[4..9] + l[10..20];
    assert ps[..4] == ps[..|ps| - 1];
    Slices(l, ps)
  }

  /** `parse_digitable_line`: appends the five slices to an empty string. */
  method ParseDigitableLine(l: string) returns (result: string)
    requires |l| >= DigitableLineLength
    ensures result == Barcode(l)
  {
    result := [];
    var k := 0;
    while k < |ConvertPositions|
      invariant 0 <= k <= |ConvertPositions|
      invariant result == Slices(l, ConvertPositions[..k])
    {
      var (start, end) := ConvertPositions[k];
      assert ConvertPositions[..k + 1][..k] == ConvertPositions[..k];
      result := result + l[start..end];
      k := k + 1;
    }
    assert ConvertPositions[..k] == ConvertPositions;
  }

  /** The barcode's general check digit sits at index 4 and is the line's digit 32. */
  lemma BarcodeCheckDigit(l: string)
    requires |l| >= DigitableLineLength
    ensures Barcode(l)[CheckDigitMod11Position] == l[32]
    ensures Barcode(l)[..CheckDigitMod11Position] + Barcode(l)[CheckDigitMod11Position + 1..]
         == l[0..4] + l[33..47] + l[4..9] + l[10..20] + l[21..31]
  {
    var b := Barcode(l);
    assert b[..4] == l[0..4];
    assert b[5..] == l[33..47] + l[4..9] + l[10..20] + l[21..31];
  }

  // ---------------------------------------------------------------------------
  // Validation

  predicate PartialValid(l: string, p: (nat, nat, nat))
    requires p.0 <= p.1 <= |l| && p.2 < |l|
  {
    DigitOr0(l[p.2]) == Mod10(l[p.0..p.1])
  }

  /** `validate_digitable_line_partials` */
  predicate PartialsValid(l: string)
    requires |l| == DigitableLineLength
  {
    forall p :: p in PartialsToVerify ==> PartialValid(l, p)
  }

  /** `validate_mod11_check_digit` */
  predicate Mod11CheckValid(l: string)
    requires |l| == DigitableLineLength
  {
    var parsed := Barcode(l);
    var valueWithoutCheckDigit := parsed[..CheckDigitMod11Position] + parsed[CheckDigitMod11Position + 1..];
    DigitOr0(parsed[CheckDigitMod11Position]) == Mod11(valueWithoutCheckDigit)
  }

  /** `is_valid` (and its alias `validate`): only the ASCII digits of the input are looked at. */
  predicate IsValid(digitableLine: string) {
    var l := OnlyDigits(digitableLine);
    |l| == DigitableLineLength && PartialsValid(l) && Mod11CheckValid(l)
  }

  /** The validity test written out position by position. */
  lemma IsValidSpelledOut(line: string)
    ensures var l := OnlyDigits(line);
      IsValid(line) <==>
        |l| == 47
        && DigitValue(l[9]) == Mod10(l[0..9])
        && DigitValue(l[20]) == Mod10(l[10..20])
        && DigitValue(l[31]) == Mod10(l[21..31])
        && DigitValue(l[32]) == Mod11(l[0..4] + l[33..47] + l[4..9] + l[10..20] + l[21..31])
  {
    var l := OnlyDigits(line);
    if |l| == 47 {
      BarcodeCheckDigit(l);
      assert PartialsValid(l) <==>
        PartialValid(l, (0, 9, 9)) && PartialValid(l, (10, 20, 20)) && PartialValid(l, (21, 31, 31));
    }
  }

  /** Punctuation and spaces anywhere in the line never change the verdict. */
  lemma IsValidIgnoresNonDigits(a: string, junk: string, b: string)
    requires forall i :: 0 <= i < |junk| ==> !IsDigit(junk[i])
    ensures IsValid(a + junk + b) == IsValid(a + b)
  {
    OnlyDigitsInsert(a, junk, b);
  }

  /** A line is rejected unless it holds exactly 47 digits. */
  lemma IsValidNeedsLength(line: string)
    requires |OnlyDigits(line)| != DigitableLineLength
    ensures !IsValid(line)
  {
  }

  // ---------------------------------------------------------------------------
  // Single-digit errors in the three fields are always caught

  lemma Mod10TermInjective(d1: nat, d2: nat, i: nat)
    requires d1 < 10 && d2 < 10 && d1 != d2
    ensures Mod10Term(d1, i) != Mod10Term(d2, i)
  {
    if i % 2 == 0 {
      assert Mod10Weights[i % 2] == 2;
      assert Mod10Term(d1, i) == if 2 * d1 > 9 then 2 * d1 - 9 else 2 * d1;
      assert Mod10Term(d2, i) == if 2 * d2 > 9 then 2 * d2 - 9 else 2 * d2;
    } else {
      assert Mod10Weights[i % 2] == 1;
    }
  }

  /** Changing the character at `j` moves the sum by the difference of the two terms. */
  lemma {:induction false} Mod10SumUpdate(t: string, n: nat, j: nat, c: char)
    requires n <= |t| && j < |t|
    ensures j < n ==> Mod10Sum(t[j := c], n) == Mod10Sum(t, n) - Mod10Term(DigitOr0(t[j]), j) + Mod10Term(DigitOr0(c), j)
    ensures j >= n ==> Mod10Sum(t[j := c], n) == Mod10Sum(t, n)
  {
    if n > 0 { Mod10SumUpdate(t, n - 1, j, c); }
  }

  lemma ReverseUpdate(s: string, j: nat, c: char)
    requires j < |s|
    ensures Reverse(s[j := c]) == Reverse(s)[|s| - 1 - j := c]
  {
  }

  /** The check digit of a field changes whenever one of its digits changes. */
  lemma Mod10DetectsSingleChange(p: string, j: nat, c: char)
    requires AllDigits(p) && j < |p| && IsDigit(c) && c != p[j]
    ensures Mod10(p[j := c]) != Mod10(p)
  {
    var t := Reverse(p);
    var k := |p| - 1 - j;
    ReverseUpdate(p, j, c);
    Mod10SumUpdate(t, |p|, k, c);
    var before, after := DigitValue(p[j]), DigitValue(c);
    assert t[k] == p[j] && DigitOr0(t[k]) == before && DigitOr0(c) == after;
    Mod10TermInjective(before, after, k);
    var s1, s2 := Mod10Sum(t, |p|), Mod10Sum(t[k := c], |p|);
    ResidueMoves(s1, s2, Mod10Term(before, k), Mod10Term(after, k));
    if Mod10(p[j := c]) == Mod10(p) {
      SameCheckDigitSameResidue(s1, s2, Mod10(p));
    }
  }

  /** Swapping one term below 10 for a different one changes the sum mod 10. */
  lemma ResidueMoves(s1: int, s2: int, a: int, b: int)
    requires 0 <= a < 10 && 0 <= b < 10 && a != b && s2 == s1 - a + b
    ensures s1 % 10 != s2 % 10
  {
  }

  /** Two sums completed to a multiple of 10 by the same digit agree mod 10. */
  lemma SameCheckDigitSameResidue(s1: int, s2: int, r: int)
    requires (s1 + r) % 10 == 0 && (s2 + r) % 10 == 0
    ensures s1 % 10 == s2 % 10
  {
  }

  lemma SliceUpdate(l: string, j: nat, c: char, s: nat, e: nat)
    requires s <= e <= |l| && j < |l|
    ensures s <= j < e ==> l[j := c][s..e] == l[s..e][j - s := c]
    ensures !(s <= j < e) ==> l[j := c][s..e] == l[s..e]
  {
  }

  /** A field whose check digit matched no longer matches once one of its digits, or the check digit itself, changes. */
  lemma FieldBroken(l: string, j: nat, c: char, s: nat, e: nat)
    requires AllDigits(l) && s <= j <= e < |l| && IsDigit(c) && c != l[j]
    requires DigitValue(l[e]) == Mod10(l[s..e])
    ensures DigitValue(l[j := c][e]) != Mod10(l[j := c][s..e])
  {
    SliceUpdate(l, j, c, s, e);
    if j < e {
      Mod10DetectsSingleChange(l[s..e], j - s, c);
    } else {
      DigitCharValue(DigitValue(c));
    }
  }

  /**
   * Any single wrong digit among the first 32 positions of a valid line (the
   * three fields and their check digits) makes the line invalid.
   */
  lemma SingleDigitErrorDetected(l: string, j: nat, c: char)
    requires AllDigits(l) && IsValid(l)
    requires j < 32 && IsDigit(c) && c != l[j]
    ensures !IsValid(l[j := c])
  {
    var l' := l[j := c];
    assert AllDigits(l');
    IsValidSpelledOut(l);
    IsValidSpelledOut(l');
    if j <= 9 {
      FieldBroken(l, j, c, 0, 9);
    } else if j <= 20 {
      FieldBroken(l, j, c, 10, 20);
    } else {
      FieldBroken(l, j, c, 21, 31);
    }
  }
}

/**
 * The source's test vectors for digitable lines, on the line
 * "00190000090114971860168524522114675860000102656": its three field check
 * digits, its general check digit, the line itself, two lines with one wrong
 * check digit each and the same line written with spaces and dots.
 */
module BoletoTests {
  import opened Strings
  import opened Boleto

  /** The check digit from the weighted sum of the reversed field. */
  lemma Mod10FromSum(s: string, t: string, sum: nat)
    requires Reverse(s) == t && Mod10Sum(t, |t|) == sum
    ensures Mod10(s) == (if sum % 10 > 0 then 10 - sum % 10 else 0)
  {
  }

  /** The weighted sum of the first field "001900000", reversed. */
  lemma FirstFieldSum(t: string)
    requires t == "000009100"
    ensures Mod10Sum(t, |t|) == 11
  {
    var u := "000009100";
    assert Mod10Sum(u, 1) == 0;
    assert Mod10Sum(u, 2) == 0;
    assert Mod10Sum(u, 3) == 0;
    assert Mod10Sum(u, 4) == 0;
    assert Mod10Sum(u, 5) == 0;
    assert Mod10Sum(u, 6) == 9;
    assert Mod10Sum(u, 7) == 11;
    assert Mod10Sum(u, 8) == 11;
    assert Mod10Sum(u, 9) == 11;
    assert t == u;
  }

  /** `get_mod10("001900000")` is 9. */
  lemma FirstFieldCheck(a: string, b: string)
    requires a == "0019" && b == "00000"
    ensures Mod10(a + b) == 9
  {
    var r := Reverse(a + b);
    ReverseConcat(a, b);
    assert forall i :: 0 <= i < 5 ==> Reverse(b)[i] == b[i];
    assert forall i :: 0 <= i < 4 ==> Reverse(a)[i] == "9100"[i];
    assert r == b + "9100";
    FirstFieldSum(r);
    Mod10FromSum(a + b, r, 11);
  }

  /** The weighted sum of the second field "0114971860", reversed. */
  lemma SecondFieldSum(t: string)
    requires t == "0681794110"
    ensures Mod10Sum(t, 10) == 39
  {
    var u := "0681794110";
    assert Mod10Sum(u, 1) == 0;
    assert Mod10Sum(u, 2) == 6;
    assert Mod10Sum(u, 3) == 13;
    assert Mod10Sum(u, 4) == 14;
    assert Mod10Sum(u, 5) == 19;
    assert Mod10Sum(u, 6) == 28;
    assert Mod10Sum(u, 7) == 36;
    assert Mod10Sum(u, 8) == 37;
    assert Mod10Sum(u, 9) == 39;
    assert Mod10Sum(u, 10) == 39;
    assert t == u;
  }

  /** The second field's check digit is 1. */
  lemma SecondFieldCheck(p: string, q: string)
    requires p == "01149" && q == "71860"
    ensures Mod10(p + q) == 1
  {
    var r := Reverse(p + q);
    assert forall i :: 0 <= i < 10 ==> r[i] == "0681794110"[i];
    SecondFieldSum(r);
  }

  /** The weighted sum of the third field "6852452211", reversed. */
  lemma ThirdFieldSum(t: string)
    requires t == "1122542586"
    ensures Mod10Sum(t, 10) == 36
  {
    var u := "1122542586";
    assert Mod10Sum(u, 1) == 2;
    assert Mod10Sum(u, 2) == 3;
    assert Mod10Sum(u, 3) == 7;
    assert Mod10Sum(u, 4) == 9;
    assert Mod10Sum(u, 5) == 10;
    assert Mod10Sum(u, 6) == 14;
    assert Mod10Sum(u, 7) == 18;
    assert Mod10Sum(u, 8) == 23;
    assert Mod10Sum(u, 9) == 30;
    assert Mod10Sum(u, 10) == 36;
    assert t == u;
  }

  /** The third field's check digit is 4. */
  lemma ThirdFieldCheck(r: string, s: string)
    requires r == "68524" && s == "52211"
    ensures Mod10(r + s) == 4
  {
    var t := Reverse(r + s);
    assert forall i :: 0 <= i < 10 ==> t[i] == "1122542586"[i];
    ThirdFieldSum(t);
  }

  /** `Mod11Sum` over the first `n` characters reads only those characters. */
  lemma {:induction false} Mod11SumPrefix(s: string, t: string, n: nat)
    requires n <= |s| && n <= |t| && s[..n] == t[..n]
    ensures Mod11Sum(s, n) == Mod11Sum(t, n)
  {
    if n > 0 {
      assert s[..n - 1] == s[..n][..n - 1] && t[..n - 1] == t[..n][..n - 1];
      assert s[n - 1] == s[..n][n - 1] && t[n - 1] == t[..n][n - 1];
      Mod11SumPrefix(s, t, n - 1);
    }
  }

  lemma PeriodEight(x: nat, y: nat)
    requires x % 8 == 0
    ensures (x + y) % 8 == y % 8
  {
  }

  /** The mod-11 weights repeat every eight digits, so what follows a multiple of eight digits is weighted afresh. */
  lemma {:induction false} Mod11SumShift(a: string, b: string, m: nat)
    requires |a| % 8 == 0 && m <= |b|
    ensures Mod11Sum(a + b, |a| + m) == Mod11Sum(a, |a|) + Mod11Sum(b, m)
  {
    if m == 0 {
      assert (a + b)[..|a|] == a[..|a|];
      Mod11SumPrefix(a + b, a, |a|);
    } else {
      Mod11SumShift(a, b, m - 1);
      assert (a + b)[|a| + m - 1] == b[m - 1];
      PeriodEight(|a|, m - 1);
    }
  }

  /** Reversing six blocks written back to front. */
  lemma ReversedBlocks(v0: string, v1: string, v2: string, v3: string, v4: string, v5: string)
    ensures Reverse(v5 + (v4 + (v3 + (v2 + (v1 + v0)))))
         == Reverse(v0) + Reverse(v1) + Reverse(v2) + Reverse(v3) + Reverse(v4) + Reverse(v5)
  {
    ReverseConcat(v5, v4 + (v3 + (v2 + (v1 + v0))));
    ReverseConcat(v4, v3 + (v2 + (v1 + v0)));
    ReverseConcat(v3, v2 + (v1 + v0));
    ReverseConcat(v2, v1 + v0);
    ReverseConcat(v1, v0);
  }

  /** What follows a multiple of eight digits contributes its own weighted sum. */
  lemma Mod11SumAppend(a: string, b: string)
    requires |a| % 8 == 0
    ensures Mod11Sum(a + b, |a + b|) == Mod11Sum(a, |a|) + Mod11Sum(b, |b|)
  {
    Mod11SumShift(a, b, |b|);
  }

  /** Five blocks of eight and a tail: each contributes its own weighted sum. */
  lemma Mod11SumBlocks(c0: string, c1: string, c2: string, c3: string, c4: string, c5: string)
    requires |c0| == 8 && |c1| == 8 && |c2| == 8 && |c3| == 8 && |c4| == 8
    ensures var t := c0 + c1 + c2 + c3 + c4 + c5;
      Mod11Sum(t, |t|) == Mod11Sum(c0, |c0|) + Mod11Sum(c1, |c1|) + Mod11Sum(c2, |c2|) + Mod11Sum(c3, |c3|)
                          + Mod11Sum(c4, |c4|) + Mod11Sum(c5, |c5|)
  {
    Mod11SumAppend(c0, c1);
    Mod11SumAppend(c0 + c1, c2);
    Mod11SumAppend(c0 + c1 + c2, c3);
    Mod11SumAppend(c0 + c1 + c2 + c3, c4);
    Mod11SumAppend(c0 + c1 + c2 + c3 + c4, c5);
  }

  // The mod-11 weighted sum of each block of the test line's barcode (less its check digit), reversed.

  lemma GeneralBlock0(v: string)
    requires v == "52452211"
    ensures Mod11Sum(Reverse(v), 8) == 142
  {
    var u := "11225425";
    assert forall i :: 0 <= i < 8 ==> Reverse(v)[i] == u[i];
    assert Reverse(v) == u;
    assert Mod11Sum(u, 1) == 2;
    assert Mod11Sum(u, 2) == 5;
    assert Mod11Sum(u, 3) == 13;
    assert Mod11Sum(u, 4) == 23;
    assert Mod11Sum(u, 5) == 53;
    assert Mod11Sum(u, 6) == 81;
    assert Mod11Sum(u, 7) == 97;
    assert Mod11Sum(u, 8) == 142;
  }

  lemma GeneralBlock1(v: string)
    requires v == "97186068"
    ensures Mod11Sum(Reverse(v), 8) == 256
  {
    var u := "86068179";
    assert forall i :: 0 <= i < 8 ==> Reverse(v)[i] == u[i];
    assert Reverse(v) == u;
    assert Mod11Sum(u, 1) == 16;
    assert Mod11Sum(u, 2) == 34;
    assert Mod11Sum(u, 3) == 34;
    assert Mod11Sum(u, 4) == 64;
    assert Mod11Sum(u, 5) == 112;
    assert Mod11Sum(u, 6) == 119;
    assert Mod11Sum(u, 7) == 175;
    assert Mod11Sum(u, 8) == 256;
  }

  lemma GeneralBlock2(v: string)
    requires v == "00000114"
    ensures Mod11Sum(Reverse(v), 8) == 15
  {
    var u := "41100000";
    assert forall i :: 0 <= i < 8 ==> Reverse(v)[i] == u[i];
    assert Reverse(v) == u;
    assert Mod11Sum(u, 1) == 8;
    assert Mod11Sum(u, 2) == 11;
    assert Mod11Sum(u, 3) == 15;
    assert Mod11Sum(u, 4) == 15;
    assert Mod11Sum(u, 5) == 15;
    assert Mod11Sum(u, 6) == 15;
    assert Mod11Sum(u, 7) == 15;
    assert Mod11Sum(u, 8) == 15;
  }

  lemma GeneralBlock3(v: string)
    requires v == "01026560"
    ensures Mod11Sum(Reverse(v), 8) == 88
  {
    var u := "06562010";
    assert forall i :: 0 <= i < 8 ==> Reverse(v)[i] == u[i];
    assert Reverse(v) == u;
    assert Mod11Sum(u, 1) == 0;
    assert Mod11Sum(u, 2) == 18;
    assert Mod11Sum(u, 3) == 38;
    assert Mod11Sum(u, 4) == 68;
    assert Mod11Sum(u, 5) == 80;
    assert Mod11Sum(u, 6) == 80;
    assert Mod11Sum(u, 7) == 88;
    assert Mod11Sum(u, 8) == 88;
  }

  lemma GeneralBlock4(v: string)
    requires v == "97586000"
    ensures Mod11Sum(Reverse(v), 8) == 250
  {
    var u := "00068579";
    assert forall i :: 0 <= i < 8 ==> Reverse(v)[i] == u[i];
    assert Reverse(v) == u;
    assert Mod11Sum(u, 1) == 0;
    assert Mod11Sum(u, 2) == 0;
    assert Mod11Sum(u, 3) == 0;
    assert Mod11Sum(u, 4) == 30;
    assert Mod11Sum(u, 5) == 78;
    assert Mod11Sum(u, 6) == 113;
    assert Mod11Sum(u, 7) == 169;
    assert Mod11Sum(u, 8) == 250;
  }

  lemma GeneralBlock5(v: string)
    requires v == "001"
    ensures Mod11Sum(Reverse(v), 3) == 2
  {
    var u := "100";
    assert forall i :: 0 <= i < 3 ==> Reverse(v)[i] == u[i];
    assert Reverse(v) == u;
    assert Mod11Sum(u, 1) == 2;
    assert Mod11Sum(u, 2) == 2;
    assert Mod11Sum(u, 3) == 2;
  }

  /** The general check digit of the test line's barcode is 6. */
  lemma GeneralCheck(v: string, v0: string, v1: string, v2: string, v3: string, v4: string, v5: string)
    requires v0 == "52452211"
    requires v1 == "97186068"
    requires v2 == "00000114"
    requires v3 == "01026560"
    requires v4 == "97586000"
    requires v5 == "001"
    requires v == v5 + (v4 + (v3 + (v2 + (v1 + v0))))
    ensures Mod11(v) == 6
  {
    ReversedBlocks(v0, v1, v2, v3, v4, v5);
    GeneralBlock0(v0);
    GeneralBlock1(v1);
    GeneralBlock2(v2);
    GeneralBlock3(v3);
    GeneralBlock4(v4);
    GeneralBlock5(v5);
    Mod11SumBlocks(Reverse(v0), Reverse(v1), Reverse(v2), Reverse(v3), Reverse(v4), Reverse(v5));
  }

  lemma RegroupHead(x: string, a: string, b: string, f: string)
    requires a == "0019" && b == "00000" && f == "75860000102656"
    requires x == a + f + b
    ensures x == "001" + "97586000" + "01026560" + "0000"
  {
  }

  lemma RegroupTail(y: string, p: string, q: string, r: string, s: string)
    requires p == "01149" && q == "71860" && r == "68524" && s == "52211"
    requires y == (p + q) + (r + s)
    ensures y == "0114" + "97186068" + "52452211"
  {
  }

  lemma RegroupBlocks(v: string, x: string, y: string)
    requires x == "001" + "97586000" + "01026560" + "0000"
    requires y == "0114" + "97186068" + "52452211"
    requires v == x + y
    ensures v == "001" + ("97586000" + ("01026560" + ("00000114" + ("97186068" + "52452211"))))
  {
  }

  /** The check digits of the test line's three fields and of its barcode. */
  lemma TestLineChecks(a: string, b: string, p: string, q: string, r: string, s: string, f: string)
    requires a == "0019" && b == "00000" && p == "01149" && q == "71860" && r == "68524" && s == "52211"
    requires f == "75860000102656"
    ensures Mod10(a + b) == 9 && Mod10(p + q) == 1 && Mod10(r + s) == 4
    ensures Mod11(a + f + b + (p + q) + (r + s)) == 6
  {
    FirstFieldCheck(a, b);
    SecondFieldCheck(p, q);
    ThirdFieldCheck(r, s);
    var x, y := a + f + b, (p + q) + (r + s);
    RegroupHead(x, a, b, f);
    RegroupTail(y, p, q, r, s);
    var v := a + f + b + (p + q) + (r + s);
    assert v == x + y;
    RegroupBlocks(v, x, y);
    GeneralCheck(v, "52452211", "97186068", "00000114", "01026560", "97586000", "001");
  }

  /**
   * A digitable line laid out by field: the first field in two parts and its
   * check digit, the second and third fields in halves with their check
   * digits, the general check digit and the due-date/amount field.
   */
  lemma LineFields(line: string, a: string, b: string, c1: char, p: string, q: string, c2: char,
                   r: string, s: string, c3: char, g: char, f: string)
    requires |a| == 4 && |b| == 5 && |p| == 5 && |q| == 5 && |r| == 5 && |s| == 5 && |f| == 14
    requires line == (a + b + [c1]) + (p + q + [c2]) + (r + s + [c3]) + ([g] + f)
    ensures |line| == DigitableLineLength
    ensures line[0..4] == a && line[4..9] == b && line[0..9] == a + b && line[9] == c1
    ensures line[10..20] == p + q && line[20] == c2 && line[21..31] == r + s && line[31] == c3
    ensures line[32] == g && line[33..47] == f
  {
  }

  lemma LineDigits(line: string, a: string, b: string, c1: char, p: string, q: string, c2: char,
                   r: string, s: string, c3: char, g: char, f: string)
    requires AllDigits(a) && AllDigits(b) && AllDigits(p) && AllDigits(q) && AllDigits(r) && AllDigits(s) && AllDigits(f)
    requires IsDigit(c1) && IsDigit(c2) && IsDigit(c3) && IsDigit(g)
    requires line == (a + b + [c1]) + (p + q + [c2]) + (r + s + [c3]) + ([g] + f)
    ensures OnlyDigits(line) == line
  {
    AllDigitsConcat(a, b);
    AllDigitsConcat(a + b, [c1]);
    AllDigitsConcat(p, q);
    AllDigitsConcat(p + q, [c2]);
    AllDigitsConcat(r, s);
    AllDigitsConcat(r + s, [c3]);
    AllDigitsConcat([g], f);
    AllDigitsConcat(a + b + [c1], p + q + [c2]);
    AllDigitsConcat((a + b + [c1]) + (p + q + [c2]), r + s + [c3]);
    AllDigitsConcat((a + b + [c1]) + (p + q + [c2]) + (r + s + [c3]), [g] + f);
  }

  lemma PiecesDigits(a: string, b: string, p: string, q: string, r: string, s: string, f: string)
    requires a == "0019" && b == "00000" && p == "01149" && q == "71860" && r == "68524" && s == "52211"
    requires f == "75860000102656"
    ensures AllDigits(a) && AllDigits(b) && AllDigits(p) && AllDigits(q) && AllDigits(r) && AllDigits(s)
    ensures AllDigits(f)
  {
  }

  /** The test line's fields, with `c1` and `g` left open for the rejected variants. */
  lemma TestLine(line: string, a: string, b: string, p: string, q: string, r: string, s: string, f: string,
                 c1: char, g: char)
    requires a == "0019" && b == "00000" && p == "01149" && q == "71860" && r == "68524" && s == "52211"
    requires f == "75860000102656" && IsDigit(c1) && IsDigit(g)
    requires line == (a + b + [c1]) + (p + q + ['1']) + (r + s + ['4']) + ([g] + f)
    ensures OnlyDigits(line) == line && |line| == DigitableLineLength
    ensures IsValid(line) <==> DigitValue(c1) == 9 && DigitValue(g) == 6
  {
    PiecesDigits(a, b, p, q, r, s, f);
    LineFields(line, a, b, c1, p, q, '1', r, s, '4', g, f);
    LineDigits(line, a, b, c1, p, q, '1', r, s, '4', g, f);
    IsValidSpelledOut(line);
    TestLineChecks(a, b, p, q, r, s, f);
  }

  /** `is_valid("00190000090114971860168524522114675860000102656")` holds. */
  lemma ValidLine(line: string)
    requires line == ("0019" + "00000" + "9") + ("01149" + "71860" + "1") + ("68524" + "52211" + "4") + ("6" + "75860000102656")
    ensures IsValid(line)
  {
    TestLine(line, "0019", "00000", "01149", "71860", "68524", "52211", "75860000102656", '9', '6');
  }

  /** A wrong first-field check digit: `is_valid("00190000020114971860168524522114675860000102656")` fails. */
  lemma RejectedFirstCheckDigit(line: string)
    requires line == ("0019" + "00000" + "2") + ("01149" + "71860" + "1") + ("68524" + "52211" + "4") + ("6" + "75860000102656")
    ensures !IsValid(line)
  {
    TestLine(line, "0019", "00000", "01149", "71860", "68524", "52211", "75860000102656", '2', '6');
  }

  /** A wrong general check digit: `is_valid("00190000090114971860168524522114975860000102656")` fails. */
  lemma RejectedGeneralCheckDigit(line: string)
    requires line == ("0019" + "00000" + "9") + ("01149" + "71860" + "1") + ("68524" + "52211" + "4") + ("9" + "75860000102656")
    ensures !IsValid(line)
  {
    TestLine(line, "0019", "00000", "01149", "71860", "68524", "52211", "75860000102656", '9', '9');
  }

  lemma AppendDigits(t: string, x: string)
    requires AllDigits(x)
    ensures OnlyDigits(t + x) == OnlyDigits(t) + x
  {
    OnlyDigitsConcat(t, x);
  }

  lemma AppendDigit(t: string, c: char)
    requires IsDigit(c)
    ensures OnlyDigits(t + [c]) == OnlyDigits(t) + [c]
  {
    OnlyDigitsConcat(t, [c]);
    assert [c][1..] == [];
  }

  lemma AppendSeparator(t: string, c: char)
    requires !IsDigit(c)
    ensures OnlyDigits(t + [c]) == OnlyDigits(t)
  {
    OnlyDigitsConcat(t, [c]);
    assert [c][1..] == [];
  }

  /** A field, a separator inside it, the rest of the field, its check digit and a separator after it. */
  lemma SeparatedField(p: string, x: char, q: string, c: char, y: char)
    requires AllDigits(p) && AllDigits(q) && IsDigit(c) && !IsDigit(x) && !IsDigit(y)
    ensures OnlyDigits(p + [x] + q + [c] + [y]) == p + q + [c]
  {
    assert OnlyDigits(p) == p;
    AppendSeparator(p, x);
    AppendDigits(p + [x], q);
    AppendDigit(p + [x] + q, c);
    AppendSeparator(p + [x] + q + [c], y);
  }

  /** The test line with a separator after the first field, inside and after the second and third, and after the general check digit. */
  lemma SeparatorsDropped(a: string, b: string, c1: char, p: string, q: string, c2: char,
                          r: string, s: string, c3: char, g: char, f: string,
                          x1: char, x2: char, x3: char, x4: char, x5: char, x6: char)
    requires AllDigits(a) && AllDigits(b) && AllDigits(p) && AllDigits(q) && AllDigits(r) && AllDigits(s) && AllDigits(f)
    requires IsDigit(c1) && IsDigit(c2) && IsDigit(c3) && IsDigit(g)
    requires !IsDigit(x1) && !IsDigit(x2) && !IsDigit(x3) && !IsDigit(x4) && !IsDigit(x5) && !IsDigit(x6)
    ensures OnlyDigits((a + b + [c1] + [x1]) + (p + [x2] + q + [c2] + [x3]) + (r + [x4] + s + [c3] + [x5]) + ([g] + [x6] + f))
         == (a + b + [c1]) + (p + q + [c2]) + (r + s + [c3]) + ([g] + f)
  {
    var g1, g2, g3, g4 := a + b + [c1] + [x1], p + [x2] + q + [c2] + [x3], r + [x4] + s + [c3] + [x5], [g] + [x6] + f;
    assert OnlyDigits(a) == a;
    AppendDigits(a, b);
    AppendDigit(a + b, c1);
    AppendSeparator(a + b + [c1], x1);
    SeparatedField(p, x2, q, c2, x3);
    SeparatedField(r, x4, s, c3, x5);
    assert OnlyDigits([g]) == [g];
    AppendSeparator([g], x6);
    AppendDigits([g] + [x6], f);
    OnlyDigitsConcat(g1, g2);
    OnlyDigitsConcat(g1 + g2, g3);
    OnlyDigitsConcat(g1 + g2 + g3, g4);
  }

  /** `is_valid("0019000009 01149.718601 68524.522114 6 75860000102656")`: spaces and dots are ignored. */
  lemma ValidFormattedLine(formatted: string, line: string)
    requires formatted == ("0019" + "00000" + "9" + " ") + ("01149" + "." + "71860" + "1" + " ") + ("68524" + "." + "52211" + "4" + " ")
                       + ("6" + " " + "75860000102656")
    requires line == ("0019" + "00000" + "9") + ("01149" + "71860" + "1") + ("68524" + "52211" + "4") + ("6" + "75860000102656")
    ensures OnlyDigits(formatted) == line
    ensures IsValid(formatted)
  {
    var a, b, p, q, r, s, f := "0019", "00000", "01149", "71860", "68524", "52211", "75860000102656";
    PiecesDigits(a, b, p, q, r, s, f);
    SeparatorsDropped(a, b, '9', p, q, '1', r, s, '4', '6', f, ' ', '.', ' ', '.', ' ', ' ');
    ValidLine(line);
  }
}
