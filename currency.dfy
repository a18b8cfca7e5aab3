/**
 * Brazilian currency helpers on integers: Portuguese number words
 * (`number_to_words`) and the thousands separator used for amounts in reais
 * (`format_with_thousands_separator`).
 *
 * The words of a number are proved to denote it: they are the rendering of a
 * sequence of word tokens, and reading those tokens left to right the way a
 * reader of Portuguese numbers does gives the number back.
 */
module Currency {
  import opened Strings

  const I64Max: int := 0x7FFF_FFFF_FFFF_FFFF
  const I64Min: int := -0x8000_0000_0000_0000

  // ---------------------------------------------------------------------------
  // Word tables

  /** `ONES` */
  function Ones(i: nat): string {
    match i
    case 1 => "um" case 2 => "dois" case 3 => "três" case 4 => "quatro" case 5 => "cinco"
    case 6 => "seis" case 7 => "sete" case 8 => "oito" case 9 => "nove"
    case _ => ""
  }

  /** `TENS_TEENS`, indexed by the number minus ten. */
  function TensTeens(i: nat): string {
    match i
    case 1 => "onze" case 2 => "doze" case 3 => "treze" case 4 => "catorze" case 5 => "quinze"
    case 6 => "dezesseis" case 7 => "dezessete" case 8 => "dezoito" case 9 => "dezenove"
    case _ => ""
  }

  /** `TENS` */
  function Tens(i: nat): string {
    match i
    case 1 => "dez" case 2 => "vinte" case 3 => "trinta" case 4 => "quarenta" case 5 => "cinquenta"
    case 6 => "sessenta" case 7 => "setenta" case 8 => "oitenta" case 9 => "noventa"
    case _ => ""
  }

  /** `HUNDREDS` */
  function Hundreds(i: nat): string {
    match i
    case 1 => "cento" case 2 => "duzentos" case 3 => "trezentos" case 4 => "quatrocentos"
    case 5 => "quinhentos" case 6 => "seiscentos" case 7 => "setecentos" case 8 => "oitocentos"
    case 9 => "novecentos"
    case _ => ""
  }

  /** The unit of scale `k`: a million for 2, a billion for 3, a trillion for 4, a quadrillion above. */
  function ScaleUnit(k: nat): (u: nat)
    ensures u >= 1_000_000 && u % 1_000_000 == 0
  {
    match k
    case 2 => 1_000_000
    case 3 => 1_000_000_000
    case 4 => 1_000_000_000_000
    case _ => 1_000_000_000_000_000
  }

  function ScaleSingular(k: nat): string {
    match k case 2 => "milhão" case 3 => "bilhão" case 4 => "trilhão" case _ => "quatrilhão"
  }

  function ScalePlural(k: nat): string {
    match k case 2 => "milhões" case 3 => "bilhões" case 4 => "trilhões" case _ => "quatrilhões"
  }

  /**
   * The largest scale that fits in `n`, tried from the quadrillions down as
   * the four blocks of `number_to_words` are.
   */
  function ScaleOf(n: int): (k: nat)
    requires 1_000_000 <= n <= I64Max
    ensures 2 <= k <= 5 && ScaleUnit(k) <= n
    ensures 1 <= n / ScaleUnit(k) < 1_000_000
  {
    if n >= 1_000_000_000_000_000 then 5
    else if n >= 1_000_000_000_000 then 4
    else if n >= 1_000_000_000 then 3
    else 2
  }

  // ---------------------------------------------------------------------------
  // number_to_words

  /** An `i64` other than the one whose negation overflows. */
  predicate InRange(n: int) { I64Min < n <= I64Max }

  /**
   * `number_to_words`: "zero"; "menos " before the words of a negative
   * number; the quadrillion, trillion, billion and million blocks (one
   * shape, `ScaleWords`, at the largest scale that fits); thousands; hundreds
   * ("cem" for exactly one hundred); tens joined to units by " e "; the
   * teens; ten; the units.
   */
  function NumberToWords(n: int): (r: string)
    requires InRange(n)
    decreases if n < 0 then -n else n, if n < 0 then 2 else 1
  {
    if n == 0 then "zero"
    else if n < 0 then "menos " + NumberToWords(-n)
    else if n >= 1_000_000 then ScaleWords(n, ScaleOf(n))
    else if n >= 1000 then
      var thousands, remainder := n / 1000, n % 1000;
      var text := if thousands == 1 then "mil" else NumberToWords(thousands) + " mil";
      if remainder == 0 then text
      else text + (if remainder % 100 == 0 || remainder < 100 then " e " else ", ") + NumberToWords(remainder)
    else if n >= 100 then
      var text := if n == 100 then "cem" else Hundreds(n / 100);
      var remainder := n % 100;
      if remainder == 0 then text else text + " e " + NumberToWords(remainder)
    else if n >= 20 then
      if n % 10 == 0 then Tens(n / 10) else Tens(n / 10) + " e " + Ones(n % 10)
    else if n >= 11 then TensTeens(n - 10)
    else if n == 10 then "dez"
    else Ones(n)
  }

  /**
   * One of the four large-scale blocks: "um" and the singular name for one
   * unit, the words of the count and the plural name otherwise; then, if
   * something remains, " e " before a remainder below one hundred and ", "
   * before any other.
   */
  function ScaleWords(n: int, k: nat): (r: string)
    requires 1_000_000 <= n <= I64Max && k == ScaleOf(n)
    decreases n, 0
  {
    var count, remainder := n / ScaleUnit(k), n % ScaleUnit(k);
    var text := if count == 1 then "um " + ScaleSingular(k) else NumberToWords(count) + " " + ScalePlural(k);
    if remainder == 0 then text
    else text + (if remainder < 100 then " e " else ", ") + NumberToWords(remainder)
  }

  // ---------------------------------------------------------------------------
  // Word tokens and how a reader evaluates them

  /** The words `number_to_words` writes, with the comma as a token of its own. */
  datatype Token =
    | Zero | Minus | And | Comma
    | Unit(d: nat) | Teen(d: nat) | Ten(d: nat) | Hundred(d: nat) | Cem
    | Thousand | Scale(k: nat, plural: bool)

  function Spell(t: Token): string {
    match t
    case Zero => "zero"
    case Minus => "menos"
    case And => "e"
    case Comma => ","
    case Unit(d) => Ones(d)
    case Teen(d) => TensTeens(d)
    case Ten(d) => Tens(d)
    case Hundred(d) => Hundreds(d)
    case Cem => "cem"
    case Thousand => "mil"
    case Scale(k, plural) => if plural then ScalePlural(k) else ScaleSingular(k)
  }

  /** What precedes a token when the words are written out: nothing before a comma, else a space. */
  function Gap(t: Token): string {
    if t == Comma then "" else " "
  }

  /** The tokens written out. */
  function Render(ts: seq<Token>): string
    requires |ts| > 0
  {
    if |ts| == 1 then Spell(ts[0]) else Spell(ts[0]) + Gap(ts[1]) + Render(ts[1..])
  }

  lemma {:induction false} RenderConcat(a: seq<Token>, b: seq<Token>)
    requires |a| > 0 && |b| > 0
    ensures Render(a + b) == Render(a) + Gap(b[0]) + Render(b)
  {
    if |a| == 1 {
      assert a == [a[0]];
      RenderCons(a[0], b);
    } else {
      var t := a[1..];
      assert a == [a[0]] + t;
      assert a + b == [a[0]] + (t + b);
      assert (t + b)[0] == t[0];
      RenderCons(a[0], t);
      RenderCons(a[0], t + b);
      RenderConcat(t, b);
      RegroupText(Spell(a[0]) + Gap(t[0]), Render(t), Gap(b[0]), Render(b));
    }
  }

  /** Writing out a token followed by more tokens. */
  lemma RenderCons(t: Token, rest: seq<Token>)
    requires |rest| > 0
    ensures Render([t] + rest) == Spell(t) + Gap(rest[0]) + Render(rest)
  {
    assert ([t] + rest)[1..] == rest;
  }

  lemma RegroupText(w: string, x: string, y: string, z: string)
    ensures w + (x + y + z) == (w + x) + y + z
  {
  }

  /** Writing out `a`, a connector and `b`: " e " for "e", ", " for the comma. */
  lemma Joined(a: seq<Token>, connector: Token, b: seq<Token>)
    requires |a| > 0 && |b| > 0 && b[0] != Comma
    requires connector == And || connector == Comma
    ensures Render(a + [connector] + b) == Render(a) + (if connector == And then " e " else ", ") + Render(b)
  {
    RenderConcat(a + [connector], b);
    RenderThenToken(a, connector);
    ConnectorText(Render(a), connector, Render(b));
  }

  lemma RenderThenToken(a: seq<Token>, t: Token)
    requires |a| > 0
    ensures Render(a + [t]) == Render(a) + Gap(t) + Spell(t)
  {
    RenderConcat(a, [t]);
  }

  lemma ConnectorText(x: string, connector: Token, y: string)
    requires connector == And || connector == Comma
    ensures x + Gap(connector) + Spell(connector) + " " + y == x + (if connector == And then " e " else ", ") + y
  {
    if connector == And {
      assert x + " " + "e" + " " + y == x + " e " + y;
    } else {
      assert x + "" + "," + " " + y == x + ", " + y;
    }
  }

  /**
   * One step of the reader, on (total, current): number words add to the
   * current group, "mil" multiplies it by a thousand ("mil" alone is one
   * thousand), a scale name moves the group, times its unit, into the total;
   * "zero", "menos", "e" and "," change nothing.
   */
  function Step(t: Token, total: int, current: int): (int, int) {
    match t
    case Unit(d) => (total, current + d)
    case Teen(d) => (total, current + 10 + d)
    case Ten(d) => (total, current + 10 * d)
    case Hundred(d) => (total, current + 100 * d)
    case Cem => (total, current + 100)
    case Thousand => (total, (if current == 0 then 1 else current) * 1000)
    case Scale(k, _) => (total + current * ScaleUnit(k), 0)
    case _ => (total, current)
  }

  function Run(ts: seq<Token>, total: int, current: int): (int, int) {
    if |ts| == 0 then (total, current)
    else
      var s := Step(ts[0], total, current);
      Run(ts[1..], s.0, s.1)
  }

  lemma {:induction false} RunConcat(a: seq<Token>, b: seq<Token>, total: int, current: int)
    ensures var s := Run(a, total, current); Run(a + b, total, current) == Run(b, s.0, s.1)
  {
    if |a| > 0 {
      var s := Step(a[0], total, current);
      assert (a + b)[1..] == a[1..] + b;
      RunConcat(a[1..], b, s.0, s.1);
    } else {
      assert a + b == b;
    }
  }

  lemma RunOne(t: Token, total: int, current: int)
    ensures Run([t], total, current) == Step(t, total, current)
  {
    var s := Step(t, total, current);
    assert Run([t], total, current) == Run([], s.0, s.1);
  }

  /** The number a reader takes the tokens to denote; "menos" in front negates. */
  function Evaluate(ts: seq<Token>): int {
    if |ts| > 0 && ts[0] == Minus then
      var s := Run(ts[1..], 0, 0); -(s.0 + s.1)
    else
      var s := Run(ts, 0, 0); s.0 + s.1
  }

  // ---------------------------------------------------------------------------
  // The tokens of a number

  /** The tokens `NumberToWords` writes, branch for branch. */
  function Tokens(n: int): (ts: seq<Token>)
    requires InRange(n)
    ensures |ts| > 0 && ts[0] != Comma
    ensures n > 0 ==> ts[0] != Minus
    decreases if n < 0 then -n else n, if n < 0 then 2 else 1
  {
    if n == 0 then [Zero]
    else if n < 0 then [Minus] + Tokens(-n)
    else if n >= 1_000_000 then ScaleTokens(n, ScaleOf(n))
    else if n >= 1000 then
      var thousands, remainder := n / 1000, n % 1000;
      var text := ThousandsHead(thousands);
      if remainder == 0 then text
      else text + [ThousandsConnector(remainder)] + Tokens(remainder)
    else if n >= 100 then
      var text := if n == 100 then [Cem] else [Hundred(n / 100)];
      var remainder := n % 100;
      if remainder == 0 then text else text + [And] + Tokens(remainder)
    else if n >= 20 then
      if n % 10 == 0 then [Ten(n / 10)] else [Ten(n / 10)] + [And] + [Unit(n % 10)]
    else if n >= 11 then [Teen(n - 10)]
    else if n == 10 then [Ten(1)]
    else [Unit(n)]
  }

  /** "e" before a remainder of thousands that is below a hundred or a whole number of hundreds, else ",". */
  function ThousandsConnector(remainder: int): (t: Token)
    ensures t == And || t == Comma
  {
    if remainder % 100 == 0 || remainder < 100 then And else Comma
  }

  /** "e" before a remainder of a large scale that is below a hundred, else ",". */
  function ScaleConnector(remainder: int): (t: Token)
    ensures t == And || t == Comma
  {
    if remainder < 100 then And else Comma
  }

  /** "mil", after the count of thousands unless that is one. */
  function ThousandsHead(thousands: int): (ts: seq<Token>)
    requires 1 <= thousands < 1000
    ensures |ts| > 0 && ts[0] != Comma && ts[0] != Minus
    decreases thousands, 2
  {
    if thousands == 1 then [Thousand] else Tokens(thousands) + [Thousand]
  }

  /** "um" and the singular scale name, or the count's tokens and the plural name. */
  function ScaleHead(count: int, k: nat): (ts: seq<Token>)
    requires 1 <= count < 1_000_000
    ensures |ts| > 0 && ts[0] != Comma && ts[0] != Minus
    decreases count, 2
  {
    if count == 1 then [Unit(1), Scale(k, false)] else Tokens(count) + [Scale(k, true)]
  }

  function ScaleTokens(n: int, k: nat): (ts: seq<Token>)
    requires 1_000_000 <= n <= I64Max && k == ScaleOf(n)
    ensures |ts| > 0 && ts[0] != Comma && ts[0] != Minus
    decreases n, 0
  {
    var count, remainder := n / ScaleUnit(k), n % ScaleUnit(k);
    var text := ScaleHead(count, k);
    if remainder == 0 then text
    else text + [ScaleConnector(remainder)] + Tokens(remainder)
  }

  // ---------------------------------------------------------------------------
  // The words denote the number

  /** `NumberToWords` writes the number's tokens, and a reader takes them to denote the number. */
  lemma WordsDenote(n: int)
    requires InRange(n)
    ensures NumberToWords(n) == Render(Tokens(n))
    ensures Evaluate(Tokens(n)) == n
  {
    WordsSpellTokens(n);
    TokensDenote(n);
  }

  /** Different numbers have different tokens: the tokens of a number determine it. */
  lemma WordsInjective(a: int, b: int)
    requires InRange(a) && InRange(b) && Tokens(a) == Tokens(b)
    ensures a == b
  {
    TokensDenote(a);
    TokensDenote(b);
  }

  lemma TokensDenote(n: int)
    requires InRange(n)
    ensures Evaluate(Tokens(n)) == n
  {
    if n > 0 {
      RunPositive(n, 0);
    } else if n < 0 {
      NegativeTokens(n);
      RunPositive(-n, 0);
      var s := Run(Tokens(-n), 0, 0);
      assert s.0 + s.1 == -n;
    }
  }

  /** The tokens of a negative number are "menos" and the tokens of its negation, which a reader negates. */
  lemma NegativeTokens(n: int)
    requires I64Min < n < 0
    ensures Tokens(n) == [Minus] + Tokens(-n)
    ensures var s := Run(Tokens(-n), 0, 0); Evaluate(Tokens(n)) == -(s.0 + s.1)
  {
    assert ([Minus] + Tokens(-n))[1..] == Tokens(-n);
  }

  /** Reading `a`, a connector and `b` is reading `a` and then `b`. */
  lemma RunJoined(a: seq<Token>, connector: Token, b: seq<Token>, total: int, current: int)
    requires connector == And || connector == Comma
    ensures var s := Run(a, total, current); Run(a + [connector] + b, total, current) == Run(b, s.0, s.1)
  {
    var s := Run(a, total, current);
    RunConcat(a + [connector], b, total, current);
    RunConcat(a, [connector], total, current);
    RunOne(connector, s.0, s.1);
  }

  /** Below a hundred, the tokens add the number to the current group. */
  lemma RunTens(n: int, total: int, current: int)
    requires 0 < n < 100
    ensures Run(Tokens(n), total, current) == (total, current + n)
  {
    if n >= 20 && n % 10 != 0 {
      RunJoined([Ten(n / 10)], And, [Unit(n % 10)], total, current);
      RunOne(Ten(n / 10), total, current);
      RunOne(Unit(n % 10), total, current + 10 * (n / 10));
    } else if n >= 20 {
      RunOne(Ten(n / 10), total, current);
    } else if n >= 11 {
      RunOne(Teen(n - 10), total, current);
    } else if n == 10 {
      RunOne(Ten(1), total, current);
    } else {
      RunOne(Unit(n), total, current);
    }
  }

  /** Below a thousand, the tokens add the number to the current group. */
  lemma RunSmall(n: int, total: int, current: int)
    requires 0 < n < 1000
    ensures Run(Tokens(n), total, current) == (total, current + n)
  {
    if n < 100 {
      RunTens(n, total, current);
    } else {
      var head := if n == 100 then Cem else Hundred(n / 100);
      var remainder := n % 100;
      assert Tokens(n) == if remainder == 0 then [head] else [head] + [And] + Tokens(remainder);
      RunOne(head, total, current);
      if remainder != 0 {
        RunJoined([head], And, Tokens(remainder), total, current);
        RunTens(remainder, total, current + 100 * (n / 100));
      }
    }
  }

  /** Below a million, the tokens read from an empty group leave the number as the current group. */
  lemma RunBelowMillion(n: int, total: int)
    requires 0 < n < 1_000_000
    ensures Run(Tokens(n), total, 0) == (total, n)
  {
    if n < 1000 {
      RunSmall(n, total, 0);
    } else {
      RunThousands(n, total);
    }
  }

  lemma RunThousands(n: int, total: int)
    requires 1000 <= n < 1_000_000
    ensures Run(Tokens(n), total, 0) == (total, n)
  {
    var thousands, remainder := n / 1000, n % 1000;
    assert n == 1000 * thousands + remainder;
    ThousandsText(thousands, total);
    ThousandsShape(n);
    if remainder != 0 {
      var head := ThousandsHead(thousands);
      assert Run(head, total, 0) == (total, 1000 * thousands);
      RunJoined(head, ThousandsConnector(remainder), Tokens(remainder), total, 0);
      RunSmall(remainder, total, 1000 * thousands);
    }
  }

  lemma ThousandsShape(n: int)
    requires 1000 <= n < 1_000_000
    ensures n % 1000 == 0 ==> Tokens(n) == ThousandsHead(n / 1000)
    ensures n % 1000 != 0 ==> Tokens(n) == ThousandsHead(n / 1000) + [ThousandsConnector(n % 1000)] + Tokens(n % 1000)
  {
  }

  /** The count of thousands and "mil" leave a thousand times the count as the current group. */
  lemma ThousandsText(thousands: int, total: int)
    requires 1 <= thousands < 1000
    ensures Run(ThousandsHead(thousands), total, 0) == (total, 1000 * thousands)
  {
    if thousands != 1 {
      RunConcat(Tokens(thousands), [Thousand], total, 0);
      RunSmall(thousands, total, 0);
      RunOne(Thousand, total, thousands);
    } else {
      RunOne(Thousand, total, 0);
    }
  }

  /**
   * Any positive number: everything from the millions up has gone into the
   * total, and what is below a million is the current group.
   */
  lemma RunPositive(n: int, total: int)
    requires 0 < n <= I64Max
    ensures Run(Tokens(n), total, 0) == (total + n - n % 1_000_000, n % 1_000_000)
    decreases n, 2
  {
    if n < 1_000_000 {
      RunBelowMillion(n, total);
    } else {
      RunScale(n, ScaleOf(n), total);
    }
  }

  lemma RunScale(n: int, k: nat, total: int)
    requires 1_000_000 <= n <= I64Max && k == ScaleOf(n)
    ensures Tokens(n) == ScaleTokens(n, k)
    ensures Run(ScaleTokens(n, k), total, 0) == (total + n - n % 1_000_000, n % 1_000_000)
    decreases n, 1
  {
    TokensAboveMillion(n);
    var unit := ScaleUnit(k);
    if n % unit == 0 {
      ScaleText(n / unit, k, total);
      ScaleSplit(n, unit);
      ScaleTokensShape(n, k);
    } else {
      RunScaleRest(n, k, total);
    }
  }

  /** A count of scale units followed by a non-zero remainder. */
  lemma RunScaleRest(n: int, k: nat, total: int)
    requires 1_000_000 <= n <= I64Max && k == ScaleOf(n) && n % ScaleUnit(k) != 0
    ensures Run(ScaleTokens(n, k), total, 0) == (total + n - n % 1_000_000, n % 1_000_000)
    decreases n, 0
  {
    var unit := ScaleUnit(k);
    var count, remainder := n / unit, n % unit;
    ScaleText(count, k, total);
    ScaleSplit(n, unit);
    ScaleTokensShape(n, k);
    RunPositive(remainder, total + count * unit);
    JoinedRun(ScaleHead(count, k), ScaleConnector(remainder), Tokens(remainder), total, count * unit,
      (total + count * unit + remainder - remainder % 1_000_000, remainder % 1_000_000));
  }

  /** Reading a head that moves `moved` into the total, a connector, then the rest. */
  lemma JoinedRun(head: seq<Token>, connector: Token, rest: seq<Token>, total: int, moved: int, after: (int, int))
    requires connector == And || connector == Comma
    requires Run(head, total, 0) == (total + moved, 0)
    requires Run(rest, total + moved, 0) == after
    ensures Run(head + [connector] + rest, total, 0) == after
  {
    RunJoined(head, connector, rest, total, 0);
  }

  lemma TokensAboveMillion(n: int)
    requires 1_000_000 <= n <= I64Max
    ensures Tokens(n) == ScaleTokens(n, ScaleOf(n))
  {
  }

  lemma ScaleTokensShape(n: int, k: nat)
    requires 1_000_000 <= n <= I64Max && k == ScaleOf(n)
    ensures var unit := ScaleUnit(k); var count, remainder := n / unit, n % unit;
      ScaleTokens(n, k) == if remainder == 0 then ScaleHead(count, k)
                           else ScaleHead(count, k) + [ScaleConnector(remainder)] + Tokens(remainder)
  {
  }

  /** Splitting off the count of a scale unit leaves what is below a million unchanged. */
  lemma ScaleSplit(n: int, unit: nat)
    requires 0 <= n && unit > 0 && unit % 1_000_000 == 0
    ensures (n / unit) * unit + n % unit - (n % unit) % 1_000_000 == n - n % 1_000_000
    ensures (n % unit) % 1_000_000 == n % 1_000_000
    ensures 0 <= n % unit < unit
  {
    DivMod(n, unit);
    ModOfMultiple(n / unit, unit, n % unit);
  }

  /** The count and the scale name move the count, times the unit, into the total. */
  lemma ScaleText(count: int, k: nat, total: int)
    requires 1 <= count < 1_000_000
    ensures Run(ScaleHead(count, k), total, 0) == (total + count * ScaleUnit(k), 0)
  {
    if count == 1 {
      RunConcat([Unit(1)], [Scale(k, false)], total, 0);
      RunOne(Unit(1), total, 0);
      RunOne(Scale(k, false), total, 1);
    } else {
      RunConcat(Tokens(count), [Scale(k, true)], total, 0);
      RunBelowMillion(count, total);
      RunOne(Scale(k, true), total, count);
    }
  }

  lemma DivMod(n: int, d: int)
    requires d > 0
    ensures n == (n / d) * d + n % d
  {
  }

  /** A multiple of a million added to `r` leaves the same remainder modulo a million. */
  lemma ModOfMultiple(q: int, unit: nat, r: int)
    requires unit % 1_000_000 == 0 && unit > 0 && 0 <= r
    ensures (q * unit + r) % 1_000_000 == r % 1_000_000
  {
    var m := unit / 1_000_000;
    assert q * unit == (q * m) * 1_000_000;
  }

  /** The words are the tokens written out. */
  lemma WordsSpellTokens(n: int)
    requires InRange(n)
    ensures NumberToWords(n) == Render(Tokens(n))
    decreases if n < 0 then -n else n, if n < 0 then 3 else 2
  {
    if n < 0 {
      WordsSpellTokens(-n);
      RenderConcat([Minus], Tokens(-n));
    } else if n >= 1_000_000 {
      ScaleSpellsTokens(n, ScaleOf(n));
    } else if n >= 1000 {
      ThousandsSpellTokens(n);
    } else if n >= 100 {
      HundredsSpellTokens(n);
    } else if n >= 20 {
      TensSpellTokens(n);
    }
  }

  lemma TensSpellTokens(n: int)
    requires 20 <= n < 100
    ensures NumberToWords(n) == Render(Tokens(n))
  {
    if n % 10 != 0 {
      Joined([Ten(n / 10)], And, [Unit(n % 10)]);
    }
  }

  lemma HundredsSpellTokens(n: int)
    requires 100 <= n < 1000
    ensures NumberToWords(n) == Render(Tokens(n))
    decreases n, 1
  {
    var remainder := n % 100;
    var head := if n == 100 then Cem else Hundred(n / 100);
    assert Tokens(n) == if remainder == 0 then [head] else [head] + [And] + Tokens(remainder);
    assert Render([head]) == if n == 100 then "cem" else Hundreds(n / 100);
    if remainder != 0 {
      WordsSpellTokens(remainder);
      Joined([head], And, Tokens(remainder));
    }
  }

  lemma ThousandsSpellTokens(n: int)
    requires 1000 <= n < 1_000_000
    ensures NumberToWords(n) == Render(Tokens(n))
    decreases n, 1
  {
    var thousands, remainder := n / 1000, n % 1000;
    var text := ThousandsHead(thousands);
    var connector := ThousandsConnector(remainder);
    ThousandsShape(n);
    if thousands != 1 {
      WordsSpellTokens(thousands);
      RenderConcat(Tokens(thousands), [Thousand]);
    }
    assert Render(text) == if thousands == 1 then "mil" else NumberToWords(thousands) + " mil";
    if remainder != 0 {
      WordsSpellTokens(remainder);
      Joined(text, connector, Tokens(remainder));
    }
  }

  lemma ScaleSpellsTokens(n: int, k: nat)
    requires 1_000_000 <= n <= I64Max && k == ScaleOf(n)
    ensures NumberToWords(n) == Render(Tokens(n))
    decreases n, 1
  {
    var unit := ScaleUnit(k);
    var count, remainder := n / unit, n % unit;
    var text := ScaleHead(count, k);
    var connector := ScaleConnector(remainder);
    assert Tokens(n) == ScaleTokens(n, k);
    assert NumberToWords(n) == ScaleWords(n, k);
    if count != 1 {
      WordsSpellTokens(count);
      RenderConcat(Tokens(count), [Scale(k, true)]);
    } else {
      RenderConcat([Unit(1)], [Scale(k, false)]);
    }
    assert Render(text) == if count == 1 then "um " + ScaleSingular(k) else NumberToWords(count) + " " + ScalePlural(k);
    if remainder != 0 {
      WordsSpellTokens(remainder);
      Joined(text, connector, Tokens(remainder));
    }
  }

  // ---------------------------------------------------------------------------
  // format_with_thousands_separator

  /**
   * The numeral of a positive number with a '.' before every group of three
   * digits counted from the right.
   */
  function Grouped(n: nat): (r: string)
    requires n > 0
  {
    if n < 1000 then Decimal(n)
    else
      var tens := n / 10;
      var hundreds := tens / 10;
      Grouped(hundreds / 10) + "." + [DigitChar(hundreds % 10), DigitChar(tens % 10), DigitChar(n % 10)]
  }

  /** Removing the dots gives the plain numeral, which is the text's first digit onwards. */
  lemma {:induction false} GroupedDigits(n: nat)
    requires n > 0
    ensures RemoveChars(Grouped(n), {'.'}) == Decimal(n)
    ensures Grouped(n)[0] == Decimal(n)[0] != '0'
  {
    if n < 1000 {
      RemoveCharsNone(Decimal(n), {'.'});
      LeadingDigit(n);
    } else {
      var tens := n / 10;
      var hundreds := tens / 10;
      GroupedDigits(hundreds / 10);
      var group := [DigitChar(hundreds % 10), DigitChar(tens % 10), DigitChar(n % 10)];
      assert Grouped(n) == Grouped(hundreds / 10) + ['.'] + group;
      RemoveCharsDrop(Grouped(hundreds / 10), '.', group, {'.'});
      RemoveCharsNone(group, {'.'});
      assert Decimal(n) == Decimal(hundreds / 10) + group by {
        assert Decimal(n) == Decimal(tens) + [DigitChar(n % 10)];
        assert Decimal(tens) == Decimal(hundreds) + [DigitChar(tens % 10)];
        assert Decimal(hundreds) == Decimal(hundreds / 10) + [DigitChar(hundreds % 10)];
      }
    }
  }

  lemma {:induction false} LeadingDigit(n: nat)
    requires n > 0
    ensures Decimal(n)[0] != '0'
  {
    if n >= 10 {
      LeadingDigit(n / 10);
    }
  }

  /**
   * What the loop pushes, least significant digit first, from `num` with the
   * group counter at `count`: a '.' whenever three digits have been pushed
   * since the last one.
   */
  function Pushed(num: nat, count: nat): string
    decreases num
  {
    if num == 0 then []
    else
      var mark := if count == 3 then ['.'] else [];
      var next := if count == 3 then 1 else count + 1;
      mark + [DigitChar(num % 10)] + Pushed(num / 10, next)
  }

  /**
   * `format_with_thousands_separator`: "0" for zero; for a positive number
   * the numeral grouped by thousands; a negative number skips the loop and
   * gives the empty text.
   */
  method FormatWithThousandsSeparator(num: int) returns (s: string)
    requires I64Min <= num <= I64Max
    ensures num == 0 ==> s == "0"
    ensures num < 0 ==> s == ""
    ensures num > 0 ==> s == Grouped(num)
  {
    if num == 0 {
      return "0";
    }
    var result: seq<char> := [];
    var count := 0;
    var rest := num;
    while rest > 0
      invariant 0 <= count <= 3
      invariant num > 0 ==> rest >= 0 && result + Pushed(rest, count) == Pushed(num, 0)
      invariant num < 0 ==> rest == num && result == []
      decreases rest
    {
      PushOne(result, rest, count);
      if count == 3 {
        result := result + ['.'];
        count := 0;
      }
      result := result + [DigitChar(rest % 10)];
      rest := rest / 10;
      count := count + 1;
    }
    if num > 0 {
      assert rest == 0 && Pushed(rest, count) == [];
      assert result == Pushed(num, 0) by {
        assert result + [] == result;
      }
      PushedReversed(num);
    }
    s := Reverse(result);
  }

  /** One turn of the loop moves one digit, and the '.' before it if due, from what is left to push to what was pushed. */
  lemma PushOne(result: string, rest: nat, count: nat)
    requires rest > 0 && count <= 3
    ensures var marked := if count == 3 then result + ['.'] else result;
      var next := if count == 3 then 1 else count + 1;
      result + Pushed(rest, count) == marked + [DigitChar(rest % 10)] + Pushed(rest / 10, next)
  {
    var mark := if count == 3 then ['.'] else [];
    var next := if count == 3 then 1 else count + 1;
    assert Pushed(rest, count) == mark + [DigitChar(rest % 10)] + Pushed(rest / 10, next);
    if count != 3 {
      assert mark + [DigitChar(rest % 10)] == [DigitChar(rest % 10)];
    }
  }

  /** Reversed, the pushed characters are the numeral grouped by thousands. */
  lemma {:induction false} PushedReversed(n: nat)
    requires n > 0
    ensures Reverse(Pushed(n, 0)) == Grouped(n)
    decreases n
  {
    if n < 1000 {
      PushedSmall(n, 0);
    } else {
      var tens := n / 10;
      var hundreds := tens / 10;
      var low := [DigitChar(n % 10), DigitChar(tens % 10), DigitChar(hundreds % 10)];
      PushedGroup(n);
      PushedReversed(hundreds / 10);
      ReversedGroup(low, Pushed(hundreds / 10, 0));
    }
  }

  /** From a fresh counter, three digits are pushed and then a '.' before the rest. */
  lemma PushedGroup(n: nat)
    requires n >= 1000
    ensures var tens := n / 10; var hundreds := tens / 10;
      Pushed(n, 0) == [DigitChar(n % 10), DigitChar(tens % 10), DigitChar(hundreds % 10)] + ['.'] + Pushed(hundreds / 10, 0)
  {
    var tens := n / 10;
    var hundreds := tens / 10;
    PushedDigit(n, 0);
    PushedDigit(tens, 1);
    PushedDigit(hundreds, 2);
    PushedMark(hundreds / 10);
    var d0, d1, d2, r := DigitChar(n % 10), DigitChar(tens % 10), DigitChar(hundreds % 10), Pushed(hundreds / 10, 0);
    assert Pushed(n, 0) == [d0] + ([d1] + ([d2] + (['.'] + r)));
    assert [d0] + ([d1] + ([d2] + (['.'] + r))) == [d0, d1, d2] + ['.'] + r;
  }

  /** Below the group size, the counter only advances as a digit is pushed. */
  lemma PushedDigit(num: nat, count: nat)
    requires num > 0 && count < 3
    ensures Pushed(num, count) == [DigitChar(num % 10)] + Pushed(num / 10, count + 1)
  {
  }

  /** A full group puts a '.' before the next digit and restarts the count. */
  lemma PushedMark(num: nat)
    requires num > 0
    ensures Pushed(num, 3) == ['.'] + Pushed(num, 0)
  {
    assert Pushed(num, 3) == ['.'] + [DigitChar(num % 10)] + Pushed(num / 10, 1);
    assert Pushed(num, 0) == [] + [DigitChar(num % 10)] + Pushed(num / 10, 1);
  }

  lemma ReversedGroup(low: string, rest: string)
    requires |low| == 3
    ensures Reverse(low + ['.'] + rest) == Reverse(rest) + "." + [low[2], low[1], low[0]]
  {
    ReverseConcat(low + ['.'], rest);
    ReverseConcat(low, ['.']);
  }

  /** Fewer digits than the counter has room for: no dot, just the digits in reverse. */
  lemma {:induction false} PushedSmall(n: nat, count: nat)
    requires n > 0 && count <= 2 && n < Pow10(3 - count)
    ensures Reverse(Pushed(n, count)) == Decimal(n)
    decreases n
  {
    assert Pushed(n, count) == [DigitChar(n % 10)] + Pushed(n / 10, count + 1);
    if n >= 10 {
      PushedSmall(n / 10, count + 1);
      ReverseConcat([DigitChar(n % 10)], Pushed(n / 10, count + 1));
    } else {
      assert Pushed(n / 10, count + 1) == [];
    }
  }
}

module CurrencyTests {
  import opened Strings
  import opened Currency

  lemma TwentyFive()
    ensures NumberToWords(25) == "vinte e cinco"
  {
  }

  lemma OneHundredAndOne()
    ensures NumberToWords(101) == "cento e um"
  {
  }

  lemma OneThousandOneHundredEleven()
    ensures NumberToWords(1111) == "mil, cento e onze"
  {
  }

  lemma TwoThousandFiveHundred()
    ensures NumberToWords(2500) == "dois mil e quinhentos"
  {
  }

  lemma OneHundredThousand()
    ensures NumberToWords(100000) == "cem mil"
  {
  }

  lemma TwoMillion()
    ensures NumberToWords(2000000) == "dois milhões"
  {
  }

  lemma MinusFortyTwo()
    ensures NumberToWords(-42) == "menos quarenta e dois"
  {
  }

  lemma TwoThousandTwentyFour()
    ensures NumberToWords(2024) == "dois mil e vinte e quatro"
  {
  }

  lemma NineteenNinety(n: int)
    requires n == 1990
    ensures NumberToWords(n) == "mil" + ", " + "novecentos e noventa"
  {
    NineHundredNinety();
    assert n / 1000 == 1 && n % 1000 == 990;
    assert NumberToWords(n) == "mil" + ", " + NumberToWords(990);
  }

  lemma NineHundredNinety()
    ensures NumberToWords(990) == "novecentos e noventa"
  {
    assert NumberToWords(990) == "novecentos" + " e " + "noventa";
  }

  lemma TwoThousand()
    ensures NumberToWords(2000) == "dois mil"
  {
  }

  lemma Fifteen()
    ensures NumberToWords(15) == "quinze"
  {
  }

  method SeparatedMillions() {
    var s := FormatWithThousandsSeparator(1234567);
    GroupedMillions(1234567);
    assert s == "1" + "." + "234" + "." + "567";
  }

  lemma GroupedThousands(n: nat)
    requires n == 1234
    ensures Grouped(n) == "1" + "." + "234"
  {
    assert Grouped(1) == "1";
    assert n / 10 / 10 / 10 == 1;
  }

  lemma GroupedMillions(n: nat)
    requires n == 1234567
    ensures Grouped(n) == "1" + "." + "234" + "." + "567"
  {
    GroupedThousands(1234);
    assert n / 10 / 10 / 10 == 1234;
  }
}
