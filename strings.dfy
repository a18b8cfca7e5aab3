/**
 * Character and string helpers shared by every identifier module: ASCII digit
 * tests and values, character filters (Rust's `filter` and `replace(x, "")`),
 * decimal rendering with `{:0w}` zero padding, Rust's `str::parse` for the
 * integer types the library uses, ASCII upper-casing and Rust's `trim`.
 *
 * Strings are sequences of Unicode scalar values; the library's byte-length
 * checks are modelled as `|s|`, which agrees with Rust's `len()` on ASCII text.
 */
module Strings {

  datatype Option<T> = None | Some(value: T)

  // ---------------------------------------------------------------------------
  // Digits

  /** Rust's `char::is_ascii_digit`. */
  predicate IsDigit(c: char) { '0' <= c <= '9' }

  /** Rust's `c.to_digit(10).unwrap()` on an ASCII digit. */
  function DigitValue(c: char): (d: nat)
    requires IsDigit(c)
    ensures d < 10
    ensures DigitChar(d) == c
  {
    c as int - '0' as int
  }

  /** The ASCII digit whose value is `d`. */
  function DigitChar(d: nat): (c: char)
    requires d < 10
    ensures IsDigit(c)
  {
    ('0' as int + d) as char
  }

  lemma DigitCharValue(d: nat)
    requires d < 10
    ensures DigitValue(DigitChar(d)) == d
  {
  }

  /** Rust's `c.to_digit(10).unwrap_or(0)`: the value of a digit, 0 for any other character. */
  function DigitOr0(c: char): (d: nat)
    ensures d < 10
    ensures IsDigit(c) ==> d == DigitValue(c)
    ensures !IsDigit(c) ==> d == 0
  {
    if IsDigit(c) then DigitValue(c) else 0
  }

  predicate AllDigits(s: string) {
    forall i :: 0 <= i < |s| ==> IsDigit(s[i])
  }

  lemma AllDigitsConcat(a: string, b: string)
    requires AllDigits(a) && AllDigits(b)
    ensures AllDigits(a + b)
  {
    forall i | 0 <= i < |a + b| ensures IsDigit((a + b)[i]) {
      if i >= |a| { assert (a + b)[i] == b[i - |a|]; }
    }
  }

  /** Five digit strings in a row are digits, as long as all five together. */
  lemma AllDigitsConcatFive(a: string, b: string, c: string, d: string, e: string)
    requires AllDigits(a) && AllDigits(b) && AllDigits(c) && AllDigits(d) && AllDigits(e)
    ensures AllDigits(a + b + c + d + e) && |a + b + c + d + e| == |a| + |b| + |c| + |d| + |e|
  {
    AllDigitsConcat(a, b);
    AllDigitsConcat(a + b, c);
    AllDigitsConcat(a + b + c, d);
    AllDigitsConcat(a + b + c + d, e);
  }

  lemma AllDigitsSlice(s: string, i: nat, j: nat)
    requires AllDigits(s) && i <= j <= |s|
    ensures AllDigits(s[i..j])
  {
    forall k | 0 <= k < j - i ensures IsDigit(s[i..j][k]) { assert s[i..j][k] == s[i + k]; }
  }

  /** All characters equal the first one (vacuously true of the empty string). */
  predicate AllSame(s: string) {
    forall i :: 0 <= i < |s| ==> s[i] == s[0]
  }

  // ---------------------------------------------------------------------------
  // Filters

  /** `s.chars().filter(|c| c.is_ascii_digit()).collect()` */
  function OnlyDigits(s: string): (r: string)
    ensures AllDigits(r)
    ensures |r| <= |s|
    ensures AllDigits(s) ==> r == s
    ensures |r| == |s| <==> AllDigits(s)
  {
    if |s| == 0 then []
    else (if IsDigit(s[0]) then [s[0]] else []) + OnlyDigits(s[1..])
  }

  /** The digit filter distributes over concatenation. */
  lemma {:induction false} OnlyDigitsConcat(a: string, b: string)
    ensures OnlyDigits(a + b) == OnlyDigits(a) + OnlyDigits(b)
    decreases |a|
  {
    if |a| == 0 {
      assert a + b == b;
    } else {
      assert (a + b)[1..] == a[1..] + b;
      OnlyDigitsConcat(a[1..], b);
    }
  }

  /** Inserting non-digits anywhere leaves the digit subsequence unchanged. */
  lemma OnlyDigitsInsert(a: string, junk: string, b: string)
    requires forall i :: 0 <= i < |junk| ==> !IsDigit(junk[i])
    ensures OnlyDigits(a + junk + b) == OnlyDigits(a + b)
  {
    OnlyDigitsConcat(a + junk, b);
    OnlyDigitsConcat(a, junk);
    OnlyDigitsConcat(a, b);
    NoDigitsFiltered(junk);
  }

  /** Four digits with one non-digit between each pair filter down to the four digits. */
  lemma OnlyDigitsSeparated(s: string, a: char, b: char, c: char, d: char, sep: char)
    requires IsDigit(a) && IsDigit(b) && IsDigit(c) && IsDigit(d) && !IsDigit(sep)
    requires s == [a, sep, b, sep, c, sep, d]
    ensures OnlyDigits(s) == [a, b, c, d]
  {
    var t2 := [c, sep, d];
    var t1 := [b, sep] + t2;
    assert s == [a, sep] + t1;
    assert t2 == [c, sep] + [d];
    PairFiltered(c, sep);
    OnlyDigitsConcat([c, sep], [d]);
    assert OnlyDigits([d]) == [d];
    assert OnlyDigits(t2) == [c, d];
    PairFiltered(b, sep);
    OnlyDigitsConcat([b, sep], t2);
    assert OnlyDigits(t1) == [b, c, d];
    PairFiltered(a, sep);
    OnlyDigitsConcat([a, sep], t1);
  }

  lemma PairFiltered(x: char, y: char)
    requires IsDigit(x) && !IsDigit(y)
    ensures OnlyDigits([x, y]) == [x]
  {
    assert [x, y][1..] == [y];
    assert [y][1..] == [];
  }

  lemma {:induction false} NoDigitsFiltered(s: string)
    requires forall i :: 0 <= i < |s| ==> !IsDigit(s[i])
    ensures OnlyDigits(s) == []
  {
    if |s| > 0 { NoDigitsFiltered(s[1..]); }
  }

  /** `s.replace(x, "")` for every single-character `x` in `cs`. */
  function RemoveChars(s: string, cs: set<char>): (r: string)
    ensures forall i :: 0 <= i < |r| ==> r[i] !in cs
    ensures |r| <= |s|
  {
    if |s| == 0 then []
    else (if s[0] in cs then [] else [s[0]]) + RemoveChars(s[1..], cs)
  }

  lemma {:induction false} RemoveCharsConcat(a: string, b: string, cs: set<char>)
    ensures RemoveChars(a + b, cs) == RemoveChars(a, cs) + RemoveChars(b, cs)
    decreases |a|
  {
    if |a| == 0 {
      assert a + b == b;
    } else {
      assert (a + b)[1..] == a[1..] + b;
      RemoveCharsConcat(a[1..], b, cs);
    }
  }

  /** Removing one set of characters and then another is removing their union. */
  lemma {:induction false} RemoveCharsCompose(s: string, a: set<char>, b: set<char>)
    ensures RemoveChars(RemoveChars(s, a), b) == RemoveChars(s, a + b)
  {
    if |s| > 0 {
      RemoveCharsCompose(s[1..], a, b);
      var head := if s[0] in a then [] else [s[0]];
      RemoveCharsConcat(head, RemoveChars(s[1..], a), b);
      assert [s[0]][1..] == [];
    }
  }

  /** Characters outside `cs` are kept, in order: a string free of them is unchanged. */
  lemma {:induction false} RemoveCharsNone(s: string, cs: set<char>)
    requires forall i :: 0 <= i < |s| ==> s[i] !in cs
    ensures RemoveChars(s, cs) == s
  {
    if |s| > 0 { RemoveCharsNone(s[1..], cs); }
  }

  /** Removing symbols twice is the same as removing them once. */
  lemma RemoveCharsIdempotent(s: string, cs: set<char>)
    ensures RemoveChars(RemoveChars(s, cs), cs) == RemoveChars(s, cs)
  {
    RemoveCharsNone(RemoveChars(s, cs), cs);
  }

  /** Only the listed characters go: each kept character is one of `s`, and each character of `s` outside `cs` is kept. */
  lemma {:induction false} RemoveCharsKeeps(s: string, cs: set<char>, c: char)
    ensures c in RemoveChars(s, cs) <==> c in s && c !in cs
  {
    if |s| > 0 {
      RemoveCharsKeeps(s[1..], cs, c);
      assert s == [s[0]] + s[1..];
    }
  }

  /** `RemoveChars` skips a separator from `cs` between two pieces. */
  lemma RemoveCharsDrop(a: string, c: char, b: string, cs: set<char>)
    requires c in cs
    ensures RemoveChars(a + [c] + b, cs) == RemoveChars(a, cs) + RemoveChars(b, cs)
  {
    RemoveCharsConcat(a + [c], b, cs);
    RemoveCharsConcat(a, [c], cs);
    assert [c][1..] == [];
    assert RemoveChars([c], cs) == [] + RemoveChars([], cs);
    assert RemoveChars(a, cs) + [] == RemoveChars(a, cs);
  }

  // ---------------------------------------------------------------------------
  // Weighted digit sums

  /** The first `n` characters of `s` are ASCII digits. */
  predicate DigitsUpTo(s: string, n: nat) {
    n <= |s| && forall i :: 0 <= i < n ==> IsDigit(s[i])
  }

  /** Sum of `digit(s[i]) * w[i]` over the first `n` positions. */
  function WeightedSum(s: string, w: seq<nat>, n: nat): nat
    requires DigitsUpTo(s, n) && n <= |w|
  {
    if n == 0 then 0 else WeightedSum(s, w, n - 1) + DigitValue(s[n - 1]) * w[n - 1]
  }

  /** Only the first `n` characters take part in the sum. */
  lemma {:induction false} WeightedSumPrefix(s: string, t: string, w: seq<nat>, n: nat)
    requires DigitsUpTo(s, n) && n <= |w| && n <= |t| && s[..n] == t[..n]
    ensures DigitsUpTo(t, n) && WeightedSum(t, w, n) == WeightedSum(s, w, n)
  {
    assert forall i :: 0 <= i < n ==> s[i] == s[..n][i] == t[..n][i] == t[i];
    if n > 0 {
      assert s[..n - 1] == s[..n][..n - 1];
      assert t[..n - 1] == t[..n][..n - 1];
      WeightedSumPrefix(s, t, w, n - 1);
    }
  }

  /** Sum of the first `n` weights. */
  function Total(w: seq<nat>, n: nat): nat
    requires n <= |w|
  {
    if n == 0 then 0 else Total(w, n - 1) + w[n - 1]
  }

  /** A run of one repeated digit contributes that digit times the sum of the weights. */
  lemma {:induction false} WeightedSumRepeated(s: string, w: seq<nat>, n: nat)
    requires DigitsUpTo(s, n) && n <= |w| && n > 0
    requires forall i :: 0 <= i < n ==> s[i] == s[0]
    ensures WeightedSum(s, w, n) == DigitValue(s[0]) * Total(w, n)
  {
    var d := DigitValue(s[0]);
    if n > 1 {
      WeightedSumRepeated(s, w, n - 1);
      calc {
        WeightedSum(s, w, n);
        d * Total(w, n - 1) + d * w[n - 1];
        d * (Total(w, n - 1) + w[n - 1]);
      }
    }
  }

  // ---------------------------------------------------------------------------
  // Decimal numbers

  function Pow10(n: nat): (p: nat)
    ensures p >= 1
  {
    if n == 0 then 1 else 10 * Pow10(n - 1)
  }

  /** The number an all-digit string denotes (leading zeros allowed). */
  function Value(s: string): nat
    requires AllDigits(s)
  {
    if |s| == 0 then 0 else 10 * Value(s[..|s| - 1]) + DigitValue(s[|s| - 1])
  }

  lemma {:induction false} ValueBound(s: string)
    requires AllDigits(s)
    ensures Value(s) < Pow10(|s|)
  {
    if |s| > 0 { ValueBound(s[..|s| - 1]); }
  }

  lemma {:induction false} ValueConcat(a: string, b: string)
    requires AllDigits(a) && AllDigits(b)
    ensures AllDigits(a + b)
    ensures Value(a + b) == Value(a) * Pow10(|b|) + Value(b)
    decreases |b|
  {
    if |b| > 0 {
      var b' := b[..|b| - 1];
      var last := DigitValue(b[|b| - 1]);
      assert (a + b)[..|a + b| - 1] == a + b';
      ValueConcat(a, b');
      calc {
        Value(a + b);
        10 * Value(a + b') + last;
        10 * (Value(a) * Pow10(|b'|) + Value(b')) + last;
        { MulAssoc(Value(a), Pow10(|b'|)); }
        Value(a) * Pow10(|b|) + (10 * Value(b') + last);
      }
    } else {
      assert a + b == a;
    }
  }

  lemma MulAssoc(x: nat, y: nat)
    ensures 10 * (x * y) == x * (10 * y)
  {
  }

  /** Two digit strings of the same length with the same value are the same string. */
  lemma {:induction false} ValueInjective(a: string, b: string)
    requires AllDigits(a) && AllDigits(b) && |a| == |b|
    requires Value(a) == Value(b)
    ensures a == b
  {
    if |a| > 0 {
      var n := |a| - 1;
      DigitCharValue(DigitValue(a[n]));
      DigitCharValue(DigitValue(b[n]));
      assert DigitValue(a[n]) == DigitValue(b[n]);
      ValueInjective(a[..n], b[..n]);
      assert a == a[..n] + [a[n]];
      assert b == b[..n] + [b[n]];
    }
  }

  /** `n.to_string()`: the shortest decimal numeral of `n`. */
  function Decimal(n: nat): (r: string)
    ensures AllDigits(r) && |r| >= 1
    decreases n
  {
    if n < 10 then [DigitChar(n)] else Decimal(n / 10) + [DigitChar(n % 10)]
  }

  lemma {:induction false} DecimalValue(n: nat)
    ensures Value(Decimal(n)) == n
    ensures n < Pow10(|Decimal(n)|)
    ensures |Decimal(n)| > 1 ==> Pow10(|Decimal(n)| - 1) <= n
    decreases n
  {
    var r := Decimal(n);
    if n < 10 {
      DigitCharValue(n);
    } else {
      DecimalValue(n / 10);
      DigitCharValue(n % 10);
      assert r[..|r| - 1] == Decimal(n / 10);
    }
  }

  /** `(0..n).map(|_| d.to_string()).collect()` over single digits `draws`, as the generators do. */
  function Numerals(draws: seq<nat>): (r: string)
    requires forall i :: 0 <= i < |draws| ==> draws[i] < 10
    ensures |r| == |draws| && AllDigits(r)
    ensures forall i :: 0 <= i < |draws| ==> DigitValue(r[i]) == draws[i]
  {
    if |draws| == 0 then ""
    else
      DigitCharValue(draws[0]);
      Decimal(draws[0]) + Numerals(draws[1..])
  }

  /** The numeral of `n` has at most `w` digits exactly when `n < 10^w`. */
  lemma DecimalWidth(n: nat, w: nat)
    requires w >= 1
    ensures |Decimal(n)| <= w <==> n < Pow10(w)
  {
    DecimalValue(n);
    var k := |Decimal(n)|;
    if k <= w { Pow10Monotone(k, w); }
    else { Pow10Monotone(w, k - 1); }
  }

  lemma {:induction false} Pow10Monotone(a: nat, b: nat)
    requires a <= b
    ensures Pow10(a) <= Pow10(b)
    decreases b
  {
    if a < b { Pow10Monotone(a, b - 1); }
  }

  lemma {:induction false} Pow10Add(a: nat, b: nat)
    ensures Pow10(a + b) == Pow10(a) * Pow10(b)
    decreases a
  {
    if a > 0 {
      Pow10Add(a - 1, b);
      MulAssoc(Pow10(b), Pow10(a - 1));
    }
  }

  function Zeros(k: nat): (r: string)
    ensures |r| == k && AllDigits(r)
  {
    seq(k, i => '0')
  }

  lemma {:induction false} ZerosValue(k: nat)
    ensures Value(Zeros(k)) == 0
  {
    if k > 0 {
      assert Zeros(k)[..k - 1] == Zeros(k - 1);
      ZerosValue(k - 1);
    }
  }

  /** `format!("{:0w}", n)`: the numeral of `n`, left-padded with zeros to at least `w` characters. */
  function Pad(n: nat, w: nat): (r: string)
    ensures AllDigits(r)
  {
    var d := Decimal(n);
    if |d| < w then Zeros(w - |d|) + d else d
  }

  /** Below 100, the two-character padded numeral is the tens digit then the units digit. */
  lemma PadTwoDigits(n: nat)
    requires n < 100
    ensures Pad(n, 2) == [DigitChar(n / 10), DigitChar(n % 10)]
  {
    if n < 10 {
      assert Decimal(n) == [DigitChar(n)];
      assert Zeros(1) == [DigitChar(0)];
    } else {
      assert Decimal(n / 10) == [DigitChar(n / 10)];
    }
  }

  /** The numeral of a four-digit number, digit by digit. */
  lemma DecimalFourDigits(n: nat)
    requires 1000 <= n < 10000
    ensures Decimal(n) == [DigitChar(n / 10 / 10 / 10), DigitChar(n / 10 / 10 % 10), DigitChar(n / 10 % 10), DigitChar(n % 10)]
  {
    var q1 := n / 10;
    var q2 := q1 / 10;
    assert 10 <= q1 < 1000 && 1 <= q2 / 10 < 10;
    assert Decimal(q2) == [DigitChar(q2 / 10), DigitChar(q2 % 10)];
  }

  /** A zero-padded numeral still denotes `n`, and has exactly `w` characters when `n < 10^w`. */
  lemma PadValue(n: nat, w: nat)
    ensures Value(Pad(n, w)) == n
    ensures w >= 1 && n < Pow10(w) ==> |Pad(n, w)| == w
    ensures |Pad(n, w)| >= w
  {
    var d := Decimal(n);
    DecimalValue(n);
    if |d| < w {
      var z := Zeros(w - |d|);
      ValueConcat(z, d);
      ZerosValue(w - |d|);
      assert Pad(n, w) == z + d;
      assert Value(z + d) == 0 * Pow10(|d|) + n;
    } else {
      assert Pad(n, w) == d;
      if w >= 1 { DecimalWidth(n, w); }
    }
  }

  /** Padding is the inverse of reading a digit string back: `Pad(Value(s), |s|) == s`. */
  lemma PadOfValue(s: string)
    requires AllDigits(s) && |s| >= 1
    ensures Pad(Value(s), |s|) == s
  {
    ValueBound(s);
    PadValue(Value(s), |s|);
    ValueInjective(Pad(Value(s), |s|), s);
  }

  // ---------------------------------------------------------------------------
  // Rust's `str::parse` for integer types

  /** The digits Rust's integer parser reads once an optional leading `+` is taken off. */
  function UnsignedDigits(s: string): string {
    if |s| > 0 && s[0] == '+' then s[1..] else s
  }

  /**
   * `s.parse::<uN>()` with `bound == 2^N`: an optional `+`, then one or more ASCII
   * digits whose value is below `bound`; an empty string, a lone sign, a `-` or
   * any other character, and an overflow are errors.
   */
  function ParseUnsigned(s: string, bound: nat): (r: Option<nat>)
    ensures r.Some? <==> (var t := UnsignedDigits(s); |t| > 0 && AllDigits(t) && Value(t) < bound)
    ensures r.Some? ==> r.value < bound && r.value == Value(UnsignedDigits(s))
  {
    var t := UnsignedDigits(s);
    if |t| > 0 && AllDigits(t) && Value(t) < bound then Some(Value(t)) else None
  }

  /** A plain numeral within range parses to its value. */
  lemma ParseUnsignedDigits(s: string, bound: nat)
    requires |s| > 0 && AllDigits(s) && Value(s) < bound
    ensures ParseUnsigned(s, bound) == Some(Value(s))
  {
  }

  const I32Min: int := -0x8000_0000
  const I32Max: int := 0x7FFF_FFFF

  /** `s.parse::<i32>()`: like the unsigned parser, but a leading `-` negates. */
  function ParseI32(s: string): (r: Option<int>)
    ensures r.Some? ==> I32Min <= r.value <= I32Max
    ensures r.Some? && |s| > 0 && s[0] == '-' ==> r.value <= 0
    ensures |s| > 0 && AllDigits(s) && Value(s) <= I32Max ==> r == Some(Value(s) as int)
    ensures r.Some? <==>
      if |s| > 0 && s[0] == '-' then |s| > 1 && AllDigits(s[1..]) && Value(s[1..]) <= -I32Min
      else var t := UnsignedDigits(s); |t| > 0 && AllDigits(t) && Value(t) <= I32Max
    ensures r.Some? && |s| > 0 && s[0] == '-' ==> r.value == -(Value(s[1..]) as int)
    ensures r.Some? && !(|s| > 0 && s[0] == '-') ==> r.value == Value(UnsignedDigits(s)) as int
  {
    if |s| > 0 && s[0] == '-' then
      var t := s[1..];
      if |t| > 0 && AllDigits(t) && Value(t) <= -I32Min then Some(0 - Value(t) as int) else None
    else
      match ParseUnsigned(s, I32Max + 1)
      case Some(v) => Some(v as int)
      case None => None
  }

  // ---------------------------------------------------------------------------
  // Letters and case

  /** `char::is_ascii_alphabetic` */
  predicate IsAsciiAlpha(c: char) { 'A' <= c <= 'Z' || 'a' <= c <= 'z' }

  predicate IsAsciiUpper(c: char) { 'A' <= c <= 'Z' }

  /** `char::to_ascii_uppercase`; `to_uppercase` agrees with it on ASCII text. */
  function UpperChar(c: char): (u: char)
    ensures IsAsciiAlpha(c) <==> IsAsciiAlpha(u)
    ensures IsDigit(c) <==> IsDigit(u)
    ensures IsAsciiAlpha(c) ==> IsAsciiUpper(u)
    ensures !('a' <= c <= 'z') ==> u == c
  {
    if 'a' <= c <= 'z' then (c as int - 32) as char else c
  }

  /** `str::to_uppercase`, restricted to its effect on ASCII letters. */
  function Upper(s: string): (r: string)
    ensures |r| == |s|
    ensures forall i :: 0 <= i < |s| ==> r[i] == UpperChar(s[i])
  {
    seq(|s|, i requires 0 <= i < |s| => UpperChar(s[i]))
  }

  /** Text without lower-case ASCII letters is its own upper case. */
  lemma UpperNoop(s: string)
    requires forall i :: 0 <= i < |s| ==> !('a' <= s[i] <= 'z')
    ensures Upper(s) == s
  {
    assert forall i :: 0 <= i < |s| ==> Upper(s)[i] == s[i];
  }

  // ---------------------------------------------------------------------------
  // Whitespace

  /** `char::is_whitespace`: the Unicode White_Space property. */
  predicate IsWhitespace(c: char) {
    var n := c as int;
    (0x09 <= n <= 0x0D) || n == 0x20 || n == 0x85 || n == 0xA0 || n == 0x1680
    || (0x2000 <= n <= 0x200A) || n == 0x2028 || n == 0x2029 || n == 0x202F
    || n == 0x205F || n == 0x3000
  }

  /** Every character of `s` is whitespace. */
  predicate AllWhitespace(s: string) {
    forall k :: 0 <= k < |s| ==> IsWhitespace(s[k])
  }

  /** `r` is `s[i..i + |r|]`, and everything of `s` before and after it is whitespace. */
  predicate Trimmed(s: string, i: nat, r: string) {
    && i + |r| <= |s| && r == s[i..i + |r|]
    && AllWhitespace(s[..i]) && AllWhitespace(s[i + |r|..])
  }

  function TrimStart(s: string): (r: string)
    ensures |r| <= |s| && r == s[|s| - |r|..]
    ensures AllWhitespace(s[..|s| - |r|])
    ensures |r| > 0 ==> !IsWhitespace(r[0])
  {
    if |s| > 0 && IsWhitespace(s[0]) then TrimStart(s[1..]) else s
  }

  function TrimEnd(s: string): (r: string)
    ensures |r| <= |s| && r == s[..|r|]
    ensures AllWhitespace(s[|r|..])
    ensures |r| > 0 ==> !IsWhitespace(r[|r| - 1])
  {
    if |s| > 0 && IsWhitespace(s[|s| - 1]) then TrimEnd(s[..|s| - 1]) else s
  }

  /**
   * `str::trim`: the slice of `s` left once its leading and trailing whitespace
   * is cut off; it neither starts nor ends with whitespace, so (`TrimmedUnique`)
   * it is the only such slice.
   */
  function Trim(s: string): (r: string)
    ensures |r| <= |s|
    ensures Trimmed(s, |s| - |TrimStart(s)|, r)
    ensures |r| > 0 ==> !IsWhitespace(r[0]) && !IsWhitespace(r[|r| - 1])
  {
    var t := TrimStart(s);
    var r := TrimEnd(t);
    TrimSpan(s, t, r);
    r
  }

  /**
   * A slice of `s` between two whitespace runs that neither starts nor ends
   * with whitespace is what `trim` gives.
   */
  lemma TrimmedUnique(s: string, i: nat, r: string)
    requires Trimmed(s, i, r)
    requires |r| > 0 ==> !IsWhitespace(r[0]) && !IsWhitespace(r[|r| - 1])
    ensures r == Trim(s)
  {
    if |r| == 0 {
      assert s == s[..i] + s[i..];
      AllWhitespaceConcat(s[..i], s[i..]);
      TrimStartAt(s, |s|);
    } else {
      TrimStartAt(s, i);
      var t := s[i..];
      assert t[..|r|] == r;
      assert t[|r|..] == s[i + |r|..];
      TrimEndAt(t, |r|);
    }
  }

  lemma AllWhitespaceConcat(a: string, b: string)
    requires AllWhitespace(a) && AllWhitespace(b)
    ensures AllWhitespace(a + b)
  {
    forall k | 0 <= k < |a + b| ensures IsWhitespace((a + b)[k]) {
      if k < |a| { assert (a + b)[k] == a[k]; } else { assert (a + b)[k] == b[k - |a|]; }
    }
  }

  /** Leading whitespace ending at `i`, followed by a non-whitespace character or the end, is what `trim_start` cuts. */
  lemma {:induction false} TrimStartAt(s: string, i: nat)
    requires i <= |s| && AllWhitespace(s[..i])
    requires i < |s| ==> !IsWhitespace(s[i])
    ensures TrimStart(s) == s[i..]
    decreases i
  {
    if i > 0 {
      assert IsWhitespace(s[..i][0]);
      assert s[1..][..i - 1] == s[1..i];
      assert forall k :: 0 <= k < i - 1 ==> s[1..i][k] == s[..i][k + 1];
      assert s[1..][i - 1..] == s[i..];
      TrimStartAt(s[1..], i - 1);
    }
  }

  /** Trailing whitespace starting at `j`, after a non-whitespace character or the start, is what `trim_end` cuts. */
  lemma {:induction false} TrimEndAt(s: string, j: nat)
    requires j <= |s| && AllWhitespace(s[j..])
    requires j > 0 ==> !IsWhitespace(s[j - 1])
    ensures TrimEnd(s) == s[..j]
    decreases |s| - j
  {
    if j < |s| {
      var n := |s| - 1;
      assert IsWhitespace(s[j..][n - j]);
      var u := s[..n];
      assert u[j..] == s[j..n];
      assert forall k :: 0 <= k < |u[j..]| ==> u[j..][k] == s[j..][k];
      assert u[..j] == s[..j];
      TrimEndAt(u, j);
    }
  }

  /**
   * Cutting a whitespace prefix off `s`, leaving `t`, then a whitespace suffix
   * off `t`, leaving `r`, leaves a slice of `s` between two whitespace runs.
   */
  lemma TrimSpan(s: string, t: string, r: string)
    requires |t| <= |s| && t == s[|s| - |t|..] && AllWhitespace(s[..|s| - |t|])
    requires |r| <= |t| && r == t[..|r|] && AllWhitespace(t[|r|..])
    ensures Trimmed(s, |s| - |t|, r)
  {
    var i := |s| - |t|;
    assert r == s[i..i + |r|];
    assert t[|r|..] == s[i + |r|..];
  }

  /** ASCII letters and digits are not whitespace. */
  lemma AlnumNotWhitespace(c: char)
    requires IsAsciiAlpha(c) || IsDigit(c)
    ensures !IsWhitespace(c)
  {
  }

  /** Text that neither starts nor ends with whitespace is left alone by `trim`. */
  lemma TrimNoop(s: string)
    requires |s| > 0 ==> !IsWhitespace(s[0]) && !IsWhitespace(s[|s| - 1])
    ensures Trim(s) == s
  {
  }

  /** Uppercasing a character never turns whitespace into something else, nor the reverse. */
  lemma UpperWhitespace(c: char)
    ensures IsWhitespace(UpperChar(c)) == IsWhitespace(c)
  {
    if 'a' <= c <= 'z' {
      assert 'A' <= UpperChar(c) <= 'Z';
    }
  }

  /** Uppercasing leaves whitespace alone, so it commutes with trimming. */
  lemma {:induction false} TrimStartUpper(s: string)
    ensures TrimStart(Upper(s)) == Upper(TrimStart(s))
    decreases |s|
  {
    if |s| > 0 {
      UpperWhitespace(s[0]);
      assert Upper(s)[0] == UpperChar(s[0]);
      if IsWhitespace(s[0]) {
        assert Upper(s)[1..] == Upper(s[1..]);
        TrimStartUpper(s[1..]);
      }
    }
  }

  lemma {:induction false} TrimEndUpper(s: string)
    ensures TrimEnd(Upper(s)) == Upper(TrimEnd(s))
    decreases |s|
  {
    if |s| > 0 {
      UpperWhitespace(s[|s| - 1]);
      assert Upper(s)[|s| - 1] == UpperChar(s[|s| - 1]);
      if IsWhitespace(s[|s| - 1]) {
        assert Upper(s)[..|s| - 1] == Upper(s[..|s| - 1]);
        TrimEndUpper(s[..|s| - 1]);
      }
    }
  }

  lemma TrimUpper(s: string)
    ensures Trim(Upper(s)) == Upper(Trim(s))
    ensures Upper(Upper(s)) == Upper(s)
  {
    var t := TrimStart(s);
    TrimStartUpper(s);
    TrimEndUpper(t);
    assert Trim(Upper(s)) == TrimEnd(Upper(t));
    assert forall i :: 0 <= i < |s| ==> Upper(Upper(s))[i] == Upper(s)[i];
  }

  /** The characters in reverse order, as `chars().rev().collect()` gives them. */
  function Reverse(s: string): (r: string)
    ensures |r| == |s|
    ensures forall i :: 0 <= i < |s| ==> r[i] == s[|s| - 1 - i]
  {
    if |s| == 0 then [] else Reverse(s[1..]) + [s[0]]
  }

  lemma ReverseInvolution(s: string)
    ensures Reverse(Reverse(s)) == s
  {
  }


  lemma {:induction false} ReverseConcat(a: string, b: string)
    ensures Reverse(a + b) == Reverse(b) + Reverse(a)
  {
    var r := Reverse(a + b);
    assert forall i :: 0 <= i < |r| ==> r[i] == (Reverse(b) + Reverse(a))[i];
  }

  // ---------------------------------------------------------------------------
  // Searching and splitting

  /** The index of the first `c` in `s`, if any. */
  function FirstIndex(s: string, c: char): (r: Option<nat>)
    ensures r.None? <==> c !in s
    ensures r.Some? ==> r.value < |s| && s[r.value] == c && c !in s[..r.value]
  {
    if |s| == 0 then None
    else if s[0] == c then Some(0)
    else match FirstIndex(s[1..], c)
      case None => None
      case Some(i) =>
        assert s[..i + 1] == [s[0]] + s[1..][..i];
        Some(i + 1)
  }

  /** The index of the last `c` in `s`, if any. */
  function LastIndex(s: string, c: char): (r: Option<nat>)
    ensures r.None? <==> c !in s
    ensures r.Some? ==> r.value < |s| && s[r.value] == c && c !in s[r.value + 1..]
  {
    if |s| == 0 then None
    else if s[|s| - 1] == c then Some(|s| - 1)
    else
      var init := s[..|s| - 1];
      match LastIndex(init, c)
      case None =>
        assert s == init + [s[|s| - 1]];
        None
      case Some(i) =>
        assert s[i + 1..] == init[i + 1..] + [s[|s| - 1]];
        Some(i)
  }

  /** `s.split(sep).collect()`: the pieces between the separators, empty pieces included. */
  function Split(s: string, sep: char): (parts: seq<string>)
    ensures |parts| >= 1
    ensures forall k :: 0 <= k < |parts| ==> sep !in parts[k]
    decreases |s|
  {
    if |s| == 0 then [""]
    else
      var rest := Split(s[1..], sep);
      if s[0] == sep then [""] + rest
      else [[s[0]] + rest[0]] + rest[1..]
  }

  /** The pieces joined back with the separator. */
  function Join(parts: seq<string>, sep: char): string
    requires |parts| >= 1
  {
    if |parts| == 1 then parts[0] else parts[0] + [sep] + Join(parts[1..], sep)
  }

  /** Splitting loses nothing: joining the pieces gives the text back. */
  lemma {:induction false} SplitJoin(s: string, sep: char)
    ensures Join(Split(s, sep), sep) == s
    decreases |s|
  {
    if |s| > 0 {
      var rest := Split(s[1..], sep);
      SplitJoin(s[1..], sep);
      if s[0] != sep {
        var parts := Split(s, sep);
        assert parts[1..] == rest[1..];
        if |rest| > 1 {
          assert Join(parts, sep) == [s[0]] + Join(rest, sep);
        }
      }
    }
  }

  /** With exactly one separator there are two pieces: the text before it and the text after it. */
  lemma {:induction false} SplitOnce(s: string, sep: char, i: nat)
    requires i < |s| && s[i] == sep && sep !in s[..i] && sep !in s[i + 1..]
    ensures Split(s, sep) == [s[..i], s[i + 1..]]
    decreases |s|
  {
    if i == 0 {
      NoSeparator(s[1..], sep);
    } else {
      assert s[0] != sep;
      assert s[1..][..i - 1] == s[1..i] && s[1..][i..] == s[i + 1..];
      SplitOnce(s[1..], sep, i - 1);
      assert s[..i] == [s[0]] + s[1..i];
    }
  }

  /** A piece without the separator, then the separator: the piece comes off the front. */
  lemma {:induction false} SplitPrefix(a: string, sep: char, rest: string)
    requires sep !in a
    ensures Split(a + [sep] + rest, sep) == [a] + Split(rest, sep)
    decreases |a|
  {
    var s := a + [sep] + rest;
    if |a| == 0 {
      assert s[1..] == rest;
    } else {
      assert s[1..] == a[1..] + [sep] + rest;
      SplitPrefix(a[1..], sep, rest);
      assert [a[0]] + a[1..] == a;
    }
  }

  /** Three pieces joined by two separators split back into the three pieces. */
  lemma SplitThree(a: string, b: string, c: string, sep: char)
    requires sep !in a && sep !in b && sep !in c
    ensures Split(a + [sep] + b + [sep] + c, sep) == [a, b, c]
  {
    assert a + [sep] + b + [sep] + c == a + [sep] + (b + [sep] + c);
    SplitPrefix(a, sep, b + [sep] + c);
    SplitPrefix(b, sep, c);
    NoSeparator(c, sep);
  }

  /** A text without the separator is one piece. */
  lemma {:induction false} NoSeparator(s: string, sep: char)
    requires sep !in s
    ensures Split(s, sep) == [s]
    decreases |s|
  {
    if |s| > 0 {
      NoSeparator(s[1..], sep);
      assert s == [s[0]] + s[1..];
    }
  }

  /** With two or more separators there are more than two pieces. */
  lemma {:induction false} SplitTwice(s: string, sep: char, i: nat, j: nat)
    requires i < j < |s| && s[i] == sep && s[j] == sep
    ensures |Split(s, sep)| > 2
    decreases |s|
  {
    if i == 0 {
      SplitAtLeastTwo(s[1..], sep, j - 1);
    } else {
      SplitTwice(s[1..], sep, i - 1, j - 1);
    }
  }

  lemma {:induction false} SplitAtLeastTwo(s: string, sep: char, j: nat)
    requires j < |s| && s[j] == sep
    ensures |Split(s, sep)| >= 2
    decreases |s|
  {
    if j > 0 {
      SplitAtLeastTwo(s[1..], sep, j - 1);
    }
  }
}
