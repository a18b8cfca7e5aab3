/**
 * Brazilian dates: month names, a `dd/mm/yyyy` date written out in
 * Portuguese words, the date of Easter, and the national and state holiday
 * calendar (municipal holidays are not part of it).
 */
module DateUtils {
  import opened Strings
  import opened Calendar
  import Currency

  /** `get_month_name`: the Portuguese name of months 1 to 12, empty for any other number. */
  function MonthName(month: int): (r: string)
    ensures r != "" <==> 1 <= month <= 12
  {
    match month
    case 1 => "janeiro" case 2 => "fevereiro" case 3 => "março" case 4 => "abril"
    case 5 => "maio" case 6 => "junho" case 7 => "julho" case 8 => "agosto"
    case 9 => "setembro" case 10 => "outubro" case 11 => "novembro" case 12 => "dezembro"
    case _ => ""
  }

  /** Different months have different names. */
  lemma MonthNameInjective(a: int, b: int)
    requires 1 <= a <= 12 && 1 <= b <= 12 && MonthName(a) == MonthName(b)
    ensures a == b
  {
    var na, nb := MonthName(a), MonthName(b);
    assert na[0] == nb[0] && |na| == |nb|;
    if |na| > 3 {
      assert na[2] == nb[2] && na[3] == nb[3];
    }
    if |na| > 4 {
      assert na[4] == nb[4];
    }
  }

  // ---------------------------------------------------------------------------
  // Easter

  /**
   * Rust's `i32` quotient `a / b`, from the floor quotient `q` and remainder `r`
   * of the same division: Rust rounds toward zero, so a negative dividend that
   * leaves a remainder gets one more.
   */
  function TruncQuot(a: int, q: int, r: int): int {
    if a < 0 && r != 0 then q + 1 else q
  }

  /** Rust's `i32` remainder `a % b`, from the floor remainder `r`: it takes the sign of the dividend. */
  function TruncRem(a: int, b: int, r: int): int {
    if a < 0 && r != 0 then r - b else r
  }

  /** Rust's quotient and remainder still split the dividend, and the remainder is below the divisor in size. */
  lemma TruncSplit(a: int, b: int)
    requires b > 0
    ensures a == b * TruncQuot(a, a / b, a % b) + TruncRem(a, b, a % b)
    ensures a >= 0 ==> 0 <= TruncRem(a, b, a % b) < b
    ensures a < 0 ==> -b < TruncRem(a, b, a % b) <= 0
  {
  }

  /** The quantities of the anonymous Gregorian computus (`f` and `g` only feed `h`). */
  datatype Computus = Computus(a: int, b: int, c: int, d: int, e: int, i: int, k: int, h: int, l: int, m: int)

  /** The computus of `calculate_easter`, with Rust's truncating `/` and `%`. */
  function ComputusAsWritten(year: int): Computus
  {
    var a := TruncRem(year, 19, year % 19);
    var b := TruncQuot(year, year / 100, year % 100);
    var c := TruncRem(year, 100, year % 100);
    var d := TruncQuot(b, b / 4, b % 4);
    var e := TruncRem(b, 4, b % 4);
    var f := TruncQuot(b + 8, (b + 8) / 25, (b + 8) % 25);
    var g := TruncQuot(b - f + 1, (b - f + 1) / 3, (b - f + 1) % 3);
    var hn := 19 * a + b - d - g + 15;
    var h := TruncRem(hn, 30, hn % 30);
    var i := TruncQuot(c, c / 4, c % 4);
    var k := TruncRem(c, 4, c % 4);
    var ln := 32 + 2 * e + 2 * i - h - k;
    var l := TruncRem(ln, 7, ln % 7);
    var mn := a + 11 * h + 22 * l;
    var m := TruncQuot(mn, mn / 451, mn % 451);
    Computus(a, b, c, d, e, i, k, h, l, m)
  }

  /** The month and day `calculate_easter` hands to `from_ymd_opt`. */
  function EasterAsWritten(year: int): (monthDay: (int, int))
  {
    var q := ComputusAsWritten(year);
    var n := q.h + q.l - 7 * q.m + 114;
    (TruncQuot(n, n / 31, n % 31), TruncRem(n, 31, n % 31) + 1)
  }

  /** `calculate_easter` as written: `None` where `from_ymd_opt(..).unwrap()` panics. */
  function CalculateEasterAsWritten(year: int): Option<Date>
  {
    var (month, day) := EasterAsWritten(year);
    if ValidDate(Date(year, month, day)) then Some(Date(year, month, day)) else None
  }

  function ComputusOf(year: int): (q: Computus)
    ensures 0 <= q.h < 30 && 0 <= q.l < 7 && 0 <= q.m <= 1
  {
    var a := year % 19;
    var b := year / 100;
    var c := year % 100;
    var d := b / 4;
    var e := b % 4;
    var f := (b + 8) / 25;
    var g := (b - f + 1) / 3;
    var h := (19 * a + b - d - g + 15) % 30;
    var i := c / 4;
    var k := c % 4;
    var l := (32 + 2 * e + 2 * i - h - k) % 7;
    var m := (a + 11 * h + 22 * l) / 451;
    Computus(a, b, c, d, e, i, k, h, l, m)
  }

  /** The days from 22 March to Easter Sunday: `h + l - 7 * m`. */
  function PaschalOffset(year: int): (v: int)
    ensures 0 <= v <= 34
  {
    var q := ComputusOf(year);
    q.h + q.l - 7 * q.m
  }

  /**
   * `calculate_easter` with floor division: Easter Sunday, which falls
   * between 22 March and 25 April.
   */
  function Easter(year: int): (r: Date)
    requires MinYear <= year <= MaxYear
    ensures ValidDate(r) && r.year == year
    ensures (r.month == 3 && 22 <= r.day) || (r.month == 4 && r.day <= 25)
    ensures DayNumber(r) == DayNumber(Date(year, 3, 22)) + PaschalOffset(year)
    ensures IsSunday(r)
  {
    var n := PaschalOffset(year) + 114;
    var r := Date(year, n / 31, n % 31 + 1);
    MonthStep(year, 3);
    EasterIsSunday(year);
    r
  }

  /** The day before 1 March, counted with the leap rules folded into `y / 4 - y / 100 + y / 400`. */
  lemma MarchStart(y: int)
    ensures DaysBeforeYear(y) + DaysBeforeMonth(y, 3) == 365 * (y - 1) + y / 4 - y / 100 + y / 400 + 59
  {
    FloorStep(y, 4);
    FloorStep(y, 100);
    FloorStep(y, 400);
    if y % 100 == 0 {
      assert y % 4 == 0;
    }
    if y % 400 == 0 {
      assert y % 100 == 0;
    }
  }

  /** A year split into centuries and the rest: the quarter and the four centuries follow. */
  lemma CenturySplit(y: int, b: int, c: int, d: int, e: int, i: int, k: int)
    requires y == 100 * b + c && 0 <= c < 100
    requires b == 4 * d + e && 0 <= e < 4
    requires c == 4 * i + k && 0 <= k < 4
    ensures y / 4 == 25 * b + i && y / 100 == b && y / 400 == d
  {
    assert y == 4 * (25 * b + i) + k;
    assert y == 400 * d + (100 * e + c);
  }

  lemma SevenSplit(n: int)
    ensures n == 7 * (n / 7) + n % 7
  {
  }

  /** A multiple of 7 leaves no remainder. */
  lemma MultipleOfSeven(x: int, q: int)
    requires x == 7 * q
    ensures x % 7 == 0
  {
  }

  /** 22 March plus the paschal offset is a Sunday: the day number plus one is a multiple of 7. */
  lemma EasterIsSunday(year: int)
    ensures (DayNumber(Date(year, 3, 22)) + PaschalOffset(year) + 1) % 7 == 0
  {
    var q := ComputusOf(year);
    MarchStart(year);
    var n := 32 + 2 * q.e + 2 * q.i - q.h - q.k;
    var t := n / 7;
    CenturySplit(year, q.b, q.c, q.d, q.e, q.i, q.k);
    assert q.l == n % 7;
    SevenSplit(n);
    var x := DayNumber(Date(year, 3, 22)) + PaschalOffset(year) + 1;
    assert x == 365 * (year - 1) + year / 4 - year / 100 + year / 400 + 81 + q.h + q.l - 7 * q.m;
    MultipleOfSeven(x, 20871 * q.d + 5218 * q.e + 209 * q.i + 52 * q.k - t - q.m - 36);
  }

  /** From year 0 on every dividend is at least zero, so truncating and floor division agree. */
  lemma ComputusAgrees(year: int)
    requires year >= 0
    ensures ComputusAsWritten(year) == ComputusOf(year)
  {
  }

  /** From year 0 on, `calculate_easter` as written gives Easter Sunday. */
  lemma EasterAsWrittenAgrees(year: int)
    requires 0 <= year <= MaxYear
    ensures CalculateEasterAsWritten(year) == Some(Easter(year))
  {
    EasterMonthDayAgrees(year);
    var r := Easter(year);
    assert ValidDate(Date(year, r.month, r.day));
  }

  /** From year 0 on, the month and day handed to `from_ymd_opt` are those of Easter Sunday. */
  lemma EasterMonthDayAgrees(year: int)
    requires 0 <= year <= MaxYear
    ensures EasterAsWritten(year) == (Easter(year).month, Easter(year).day)
  {
    ComputusAgrees(year);
    var n := PaschalOffset(year) + 114;
    assert EasterAsWritten(year) == (TruncQuot(n, n / 31, n % 31), TruncRem(n, 31, n % 31) + 1);
  }

  /** In year -2 the truncating computus gives 31 February, so `unwrap` panics. */
  lemma EasterAsWrittenPanics()
    ensures EasterAsWritten(-2) == (2, 31)
    ensures CalculateEasterAsWritten(-2) == None
  {
    assert -2 % 19 == 17 && -2 / 100 == -1 && -2 % 100 == 98;
    assert TruncRem(-2, 19, 17) == -2 && TruncQuot(-2, -1, 98) == 0 && TruncRem(-2, 100, 98) == -2;
    assert -23 % 30 == 7 && TruncRem(-23, 30, 7) == -23;
    assert -2 / 4 == -1 && -2 % 4 == 2 && TruncQuot(-2, -1, 2) == 0 && TruncRem(-2, 4, 2) == -2;
    assert -233 / 451 == -1 && -233 % 451 == 218 && TruncQuot(-233, -1, 218) == 0;
    var q := ComputusAsWritten(-2);
    assert q.a == -2 && q.b == 0 && q.c == -2;
    assert q.d == 0 && q.e == 0 && q.i == 0 && q.k == -2;
    assert q.h == -23;
    assert q.l == 1;
    assert q.m == 0;
    assert 92 / 31 == 2 && 92 % 31 == 30;
  }

  // ---------------------------------------------------------------------------
  // National holidays

  /** The fixed national holidays, each from the year the law that made it took effect. */
  predicate FixedNationalHoliday(year: int, month: int, day: int) {
    (month == 1 && day == 1)
    || (month == 4 && day == 21 && year != 1931 && year != 1932)
    || (month == 5 && day == 1 && year >= 1925)
    || (month == 9 && day == 7 && year >= 1890)
    || (month == 10 && day == 12 && (year <= 1930 || year >= 1980))
    || (month == 11 && day == 2)
    || (month == 11 && day == 15)
    || (month == 12 && day == 25 && year >= 1922)
  }

  /** Good Friday: the Friday two days before Easter Sunday. */
  function GoodFriday(year: int): (r: Date)
    requires MinYear <= year <= MaxYear
    ensures ValidDate(r) && r.year == year
    ensures DayNumber(r) + 2 == DayNumber(Easter(year))
    ensures (r.month == 3 && 20 <= r.day) || (r.month == 4 && r.day <= 23)
    ensures NumDaysFromSunday(r) == 5
  {
    var easter := Easter(year);
    var r := Shift(easter, -2);
    WeekdayFromSunday(easter, r, -2);
    r
  }

  /** Good Friday is the one date two days before Easter. */
  lemma GoodFridayUnique(date: Date)
    requires ValidDate(date)
    ensures date == GoodFriday(date.year) <==> DayNumber(date) + 2 == DayNumber(Easter(date.year))
  {
    ShiftUnique(Easter(date.year), -2, date);
  }

  /** `is_national_holiday`: a fixed holiday, or Good Friday. */
  predicate IsNationalHoliday(date: Date)
    requires ValidDate(date)
  {
    FixedNationalHoliday(date.year, date.month, date.day) || date == GoodFriday(date.year)
  }

  // ---------------------------------------------------------------------------
  // Federative units

  /** The 27 federative units: 26 states and the Federal District. */
  datatype Uf = AC | AL | AM | AP | BA | CE | DF | ES | GO | MA | MG | MS | MT | PA
              | PB | PE | PI | PR | RJ | RN | RO | RR | RS | SC | SE | SP | TO

  /** The two letters of a unit's code. */
  function UfLetters(u: Uf): (char, char) {
    match u
    case AC => ('A', 'C') case AL => ('A', 'L') case AM => ('A', 'M') case AP => ('A', 'P')
    case BA => ('B', 'A') case CE => ('C', 'E') case DF => ('D', 'F') case ES => ('E', 'S')
    case GO => ('G', 'O') case MA => ('M', 'A') case MG => ('M', 'G') case MS => ('M', 'S')
    case MT => ('M', 'T') case PA => ('P', 'A') case PB => ('P', 'B') case PE => ('P', 'E')
    case PI => ('P', 'I') case PR => ('P', 'R') case RJ => ('R', 'J') case RN => ('R', 'N')
    case RO => ('R', 'O') case RR => ('R', 'R') case RS => ('R', 'S') case SC => ('S', 'C')
    case SE => ('S', 'E') case SP => ('S', 'P') case TO => ('T', 'O')
  }

  /** The unit's two-letter code, as listed in `VALID_UFS`. */
  function UfCode(u: Uf): string {
    [UfLetters(u).0, UfLetters(u).1]
  }

  /** Santa Catarina's code, the one unit whose rules were corrected. */
  lemma SantaCatarinaCode()
    ensures UfCode(SC) == "SC"
  {
    assert UfLetters(SC) == ('S', 'C');
  }

  /** A code is one of `VALID_UFS` when it is the code of some unit. */
  predicate IsUfCode(code: string) {
    exists u: Uf :: UfCode(u) == code
  }

  /** The unit a code names; codes are matched exactly, upper case only. */
  function ParseUf(code: string): (r: Option<Uf>)
    ensures r.Some? ==> UfCode(r.value) == code
  {
    if |code| != 2 then None
    else
      assert code == [code[0], code[1]];
      UfOfLetters(code[0], code[1])
  }

  /** The unit whose two-letter code is `first` then `second`, if any. */
  function UfOfLetters(first: char, second: char): (r: Option<Uf>)
    ensures r.Some? ==> UfLetters(r.value) == (first, second)
  {
    match first
    case 'A' =>
      if second == 'C' then Some(AC) else if second == 'L' then Some(AL)
      else if second == 'M' then Some(AM) else if second == 'P' then Some(AP) else None
    case 'B' => if second == 'A' then Some(BA) else None
    case 'C' => if second == 'E' then Some(CE) else None
    case 'D' => if second == 'F' then Some(DF) else None
    case 'E' => if second == 'S' then Some(ES) else None
    case 'G' => if second == 'O' then Some(GO) else None
    case 'M' =>
      if second == 'A' then Some(MA) else if second == 'G' then Some(MG)
      else if second == 'S' then Some(MS) else if second == 'T' then Some(MT) else None
    case 'P' =>
      if second == 'A' then Some(PA) else if second == 'B' then Some(PB)
      else if second == 'E' then Some(PE) else if second == 'I' then Some(PI)
      else if second == 'R' then Some(PR) else None
    case 'R' =>
      if second == 'J' then Some(RJ) else if second == 'N' then Some(RN)
      else if second == 'O' then Some(RO) else if second == 'R' then Some(RR)
      else if second == 'S' then Some(RS) else None
    case 'S' =>
      if second == 'C' then Some(SC) else if second == 'E' then Some(SE)
      else if second == 'P' then Some(SP) else None
    case 'T' => if second == 'O' then Some(TO) else None
    case _ => None
  }

  /** Every unit's code reads back as that unit. */
  lemma ParseUfCode(u: Uf)
    ensures ParseUf(UfCode(u)) == Some(u)
  {
  }

  /** A code parses exactly when it is one of the 27. */
  lemma ParseUfValid(code: string)
    ensures ParseUf(code).Some? <==> IsUfCode(code)
  {
    if IsUfCode(code) {
      var u: Uf :| UfCode(u) == code;
      ParseUfCode(u);
    }
  }

  // ---------------------------------------------------------------------------
  // State holidays

  /** Our Lady of Penha in Espírito Santo: the Monday eight days after Easter Sunday. */
  function Penha(year: int): (r: Date)
    requires MinYear <= year <= MaxYear
    ensures ValidDate(r) && r.year == year
    ensures DayNumber(r) == DayNumber(Easter(year)) + 8
    ensures NumDaysFromSunday(r) == 1
  {
    var easter := Easter(year);
    var r := Shift(easter, 8);
    WeekdayFromSunday(easter, r, 8);
    r
  }

  /** The Pernambuco Revolution: the first Sunday of March, from 2008. */
  predicate PernambucoRevolution(date: Date)
    requires ValidDate(date)
  {
    date.year >= 2008 && date.month == 3 && date == FirstSundayFrom(Date(date.year, 3, 1))
  }

  /** Santa Catarina's state day: the first Sunday from 11 August from 2005, 11 August itself in 2004. */
  predicate SantaCatarinaDay(date: Date)
    requires ValidDate(date)
  {
    var y := date.year;
    if y >= 2005 then date.month == 8 && date.day >= 11 && date == FirstSundayFrom(Date(y, 8, 11))
    else if y == 2004 then date.month == 8 && date.day == 11
    else false
  }

  /**
   * Saint Catherine of Alexandria in Santa Catarina, as written: in 1999 to
   * 2030 except 2004, the first Sunday from 25 November, looked for only among
   * dates in November from the 25th; 25 November itself in any other year.
   */
  predicate SaintCatherineAsWritten(date: Date)
    requires ValidDate(date)
  {
    var y := date.year;
    if 1999 <= y <= 2030 && y != 2004 then
      date.month == 11 && date.day >= 25 && date == FirstSundayFrom(Date(y, 11, 25))
    else date.month == 11 && date.day == 25
  }

  /** Saint Catherine of Alexandria, with the first Sunday from 25 November found wherever it falls. */
  predicate SaintCatherine(date: Date)
    requires ValidDate(date)
  {
    var y := date.year;
    if 1999 <= y <= 2030 && y != 2004 then date == FirstSundayFrom(Date(y, 11, 25))
    else date.month == 11 && date.day == 25
  }

  /** `is_state_holiday` as written, with Saint Catherine's day looked for only in November. */
  predicate IsStateHoliday(date: Date, uf: Uf)
    requires ValidDate(date)
  {
    var y, m, d := date.year, date.month, date.day;
    if y < 1996 then false
    else match uf
      case AC =>
        (m == 1 && d == 23 && y >= 2005) || (m == 3 && d == 8 && y >= 2002) || (m == 6 && d == 15)
        || (m == 9 && d == 5 && y >= 2004) || (m == 11 && d == 17)
      case AL =>
        (m == 6 && d == 24) || (m == 6 && d == 29) || (m == 9 && d == 16) || (m == 11 && d == 20)
        || (m == 11 && d == 30 && y >= 2013)
      case AM => (m == 9 && d == 5) || (m == 11 && d == 20 && y >= 2010)
      case AP =>
        (m == 3 && d == 19 && y >= 2003) || (m == 7 && d == 25 && y >= 2012) || (m == 9 && d == 13)
        || (m == 11 && d == 20 && y >= 2008)
      case BA => m == 7 && d == 2
      case CE => (m == 3 && d == 19) || (m == 3 && d == 25) || (m == 8 && d == 15 && y >= 2004)
      case DF => (m == 4 && d == 21) || (m == 11 && d == 30)
      case ES => y >= 2020 && date == Penha(y)
      case GO => (m == 7 && d == 26) || (m == 10 && d == 24)
      case MA => m == 7 && d == 28
      case MG => m == 4 && d == 21
      case MS => m == 10 && d == 11
      case MT => m == 11 && d == 20 && y >= 2003
      case PA => m == 8 && d == 15
      case PB => m == 8 && d == 5
      case PE => PernambucoRevolution(date)
      case PI => m == 10 && d == 19
      case PR => m == 12 && d == 19
      case RJ => (m == 4 && d == 23 && y >= 2008) || (m == 11 && d == 20 && y >= 2002)
      case RN => (m == 8 && d == 7 && y >= 2000) || (m == 10 && d == 3 && y >= 2007)
      case RO => (m == 1 && d == 4) || (m == 6 && d == 18 && y >= 2002)
      case RR => m == 10 && d == 5
      case RS => m == 9 && d == 20
      case SC => SantaCatarinaDay(date) || SaintCatherineAsWritten(date)
      case SE => m == 7 && d == 8
      case SP => m == 7 && d == 9 && y >= 1997
      case TO => (m == 3 && d == 18 && y >= 1998) || (m == 9 && d == 8) || (m == 10 && d == 5)
  }

  /** `is_state_holiday` with Saint Catherine's day found even when it falls on 1 December. */
  predicate IsStateHolidayCorrected(date: Date, uf: Uf)
    requires ValidDate(date)
  {
    if uf == SC then date.year >= 1996 && (SantaCatarinaDay(date) || SaintCatherine(date))
    else IsStateHoliday(date, uf)
  }

  /** The Pernambuco Revolution falls on the first Sunday of March, from 2008 on. */
  lemma PernambucoFirstSunday(date: Date, other: Date)
    requires ValidDate(date) && PernambucoRevolution(date)
    requires ValidDate(other) && other.year == date.year && other.month == 3 && other.day < date.day
    ensures IsSunday(date) && date.month == 3 && date.day <= 7
    ensures !IsSunday(other)
  {
    FirstSundayEarliest(Date(date.year, 3, 1), other);
  }

  /** From 2008 on, the guard on March leaves out no first Sunday of March. */
  lemma PernambucoRevolutionIff(date: Date)
    requires ValidDate(date) && date.year >= 2008
    ensures PernambucoRevolution(date) <==> date == FirstSundayFrom(Date(date.year, 3, 1))
  {
  }

  /** From 2005 on, Santa Catarina's day is the first Sunday from 11 August, which lies in 11 to 17 August. */
  lemma SantaCatarinaDayIff(date: Date)
    requires ValidDate(date) && date.year >= 2005
    ensures SantaCatarinaDay(date) <==> date == FirstSundayFrom(Date(date.year, 8, 11))
    ensures SantaCatarinaDay(date) ==> IsSunday(date) && date.month == 8 && 11 <= date.day <= 17
  {
    var first := FirstSundayFrom(Date(date.year, 8, 11));
    assert first.month == 8 && first.day >= 11;
  }

  /** A year's Saint Catherine Sunday lies between 25 November and 1 December. */
  lemma SaintCatherineSunday(y: int)
    requires 1999 <= y <= 2030
    ensures var s := FirstSundayFrom(Date(y, 11, 25));
      IsSunday(s) && s.year == y && ((s.month == 11 && 25 <= s.day) || (s.month == 12 && s.day == 1))
  {
    MonthStep(y, 11);
  }

  /** Every year of the window has its Saint Catherine day, and it is that Sunday. */
  lemma SaintCatherineEveryYear(y: int)
    requires 1999 <= y <= 2030 && y != 2004
    ensures SaintCatherine(FirstSundayFrom(Date(y, 11, 25)))
    ensures forall d: Date :: ValidDate(d) && d.year == y && SaintCatherine(d) ==> d == FirstSundayFrom(Date(y, 11, 25))
  {
    SaintCatherineSunday(y);
  }

  /** The rule as written finds a subset of the corrected days, and all of them when the Sunday is in November. */
  lemma SaintCatherineAsWrittenAgrees(date: Date)
    requires ValidDate(date)
    ensures SaintCatherineAsWritten(date) ==> SaintCatherine(date)
    ensures FirstSundayFrom(Date(date.year, 11, 25)).month == 11 ==> (SaintCatherine(date) <==> SaintCatherineAsWritten(date))
  {
  }

  /** When 25 November is a Monday the Sunday is 1 December, and the rule as written finds no day at all. */
  lemma SaintCatherineAsWrittenMisses(y: int)
    requires 1999 <= y <= 2030 && y != 2004
    requires FirstSundayFrom(Date(y, 11, 25)).month == 12
    ensures forall d: Date :: ValidDate(d) && d.year == y ==> !SaintCatherineAsWritten(d)
  {
  }

  /** In 2024, 25 November is a Monday: Saint Catherine's day is 1 December. */
  lemma SaintCatherine2024()
    ensures FirstSundayFrom(Date(2024, 11, 25)) == Date(2024, 12, 1)
    ensures SaintCatherine(Date(2024, 12, 1))
    ensures forall d: Date :: ValidDate(d) && d.year == 2024 ==> !SaintCatherineAsWritten(d)
  {
    var base := Date(2024, 11, 25);
    assert DaysBeforeYear(2024) == 738885;
    assert DayNumber(base) == 739214;
    assert DayNumber(Date(2024, 12, 1)) == 739220;
    WeekdayFromSunday(Date(2024, 12, 1), base, -6);
    SaintCatherineSunday(2024);
    DayNumberInjective(FirstSundayFrom(base), Date(2024, 12, 1));
    SaintCatherineAsWrittenMisses(2024);
  }

  // ---------------------------------------------------------------------------
  // Holidays

  /**
   * `is_national_holiday` as written: a fixed holiday is found without
   * Easter; any other date is compared with the day two days before the
   * Easter of `calculate_easter`, and there is no answer in the years where
   * that panics.
   */
  function IsNationalHolidayAsWritten(date: Date): (r: Option<bool>)
    requires ValidDate(date)
    ensures r.None? <==> !FixedNationalHoliday(date.year, date.month, date.day) && CalculateEasterAsWritten(date.year).None?
  {
    if FixedNationalHoliday(date.year, date.month, date.day) then Some(true)
    else match CalculateEasterAsWritten(date.year)
      case None => None
      case Some(easter) => Some(DayNumber(date) + 2 == DayNumber(easter))
  }

  /** From year 0 on, `is_national_holiday` as written always answers, and answers as the corrected predicate. */
  lemma NationalAsWrittenAgrees(date: Date)
    requires ValidDate(date) && date.year >= 0
    ensures IsNationalHolidayAsWritten(date) == Some(IsNationalHoliday(date))
  {
    EasterAsWrittenAgrees(date.year);
    GoodFridayUnique(date);
  }

  /**
   * `is_holiday` as written: `None` for a code that names no unit, and `None`
   * where `is_national_holiday` panics; otherwise whether the date is a
   * national holiday or, when a unit is given, one of that unit's holidays.
   */
  function IsHoliday(date: Date, uf: Option<string>): (r: Option<bool>)
    requires ValidDate(date)
    ensures r.None? <==> (uf.Some? && !IsUfCode(uf.value)) || IsNationalHolidayAsWritten(date).None?
    ensures r == Some(false) ==> IsNationalHolidayAsWritten(date) == Some(false)
  {
    match uf
    case None => IsNationalHolidayAsWritten(date)
    case Some(code) =>
      ParseUfValid(code);
      match ParseUf(code)
      case None => None
      case Some(u) =>
        match IsNationalHolidayAsWritten(date)
        case None => None
        case Some(national) => Some(national || IsStateHoliday(date, u))
  }

  /**
   * `is_holiday` with floor-division Easter and the corrected Saint Catherine
   * rule: `None` exactly for a code that names no unit.
   */
  function IsHolidayCorrected(date: Date, uf: Option<string>): (r: Option<bool>)
    requires ValidDate(date)
    ensures r.None? <==> uf.Some? && !IsUfCode(uf.value)
  {
    match uf
    case None => Some(IsNationalHoliday(date))
    case Some(code) =>
      ParseUfValid(code);
      match ParseUf(code)
      case None => None
      case Some(u) => Some(IsNationalHoliday(date) || IsStateHolidayCorrected(date, u))
  }

  /** The corrected state rules keep every state holiday as written, and add only Santa Catarina's 1 December. */
  lemma StateHolidayCorrectedAgrees(date: Date, uf: Uf)
    requires ValidDate(date)
    ensures IsStateHoliday(date, uf) ==> IsStateHolidayCorrected(date, uf)
    ensures !(uf == SC && date.month == 12 && date.day == 1) ==> (IsStateHoliday(date, uf) <==> IsStateHolidayCorrected(date, uf))
  {
    SaintCatherineAsWrittenAgrees(date);
    if uf == SC && 1999 <= date.year <= 2030 {
      SaintCatherineSunday(date.year);
    }
  }

  /** From year 0 on, `is_holiday` as written and the corrected one differ only on Santa Catarina's 1 December. */
  lemma IsHolidayAgrees(date: Date, uf: Option<string>)
    requires ValidDate(date) && date.year >= 0
    requires !(uf == Some("SC") && date.month == 12 && date.day == 1)
    ensures IsHoliday(date, uf) == IsHolidayCorrected(date, uf)
  {
    NationalAsWrittenAgrees(date);
    if uf.Some? && ParseUf(uf.value).Some? {
      var u := ParseUf(uf.value).value;
      SantaCatarinaCode();
      assert !(u == SC && date.month == 12 && date.day == 1);
      StateHolidayCorrectedAgrees(date, u);
    }
  }

  /** In year -2 `calculate_easter` panics, so `is_holiday` as written has no answer for a date that is not a fixed holiday. */
  lemma HolidayPanics(date: Date)
    requires ValidDate(date) && date.year == -2 && !FixedNationalHoliday(date.year, date.month, date.day)
    ensures IsHoliday(date, None) == None
    ensures IsHolidayCorrected(date, None).Some?
  {
    EasterAsWrittenPanics();
  }

  /**
   * 1 December 2024 is Saint Catherine's Sunday in Santa Catarina, but
   * `is_holiday` as written does not count it.
   */
  lemma SaintCatherineHoliday2024(date: Date)
    requires date == Date(2024, 12, 1)
    ensures IsHoliday(date, Some("SC")) == Some(false)
  {
    assert ValidDate(date);
    NotNationalDecemberFirst(date);
    ParseUfCode(SC);
    NoSantaCatarinaDecember(date);
  }

  /** With the corrected rules, 1 December 2024 is a holiday in Santa Catarina. */
  lemma SaintCatherineHolidayCorrected2024(date: Date)
    requires date == Date(2024, 12, 1)
    ensures IsHolidayCorrected(date, Some("SC")) == Some(true)
  {
    ParseUfCode(SC);
    SaintCatherineDecember2024(date);
  }

  /** 1 December of a year from 0 on is no national holiday. */
  lemma NotNationalDecemberFirst(date: Date)
    requires ValidDate(date) && date.year >= 0 && date.month == 12 && date.day == 1
    ensures IsNationalHolidayAsWritten(date) == Some(false)
  {
    NationalAsWrittenAgrees(date);
  }

  /** São Paulo's own holiday is the Constitutionalist Revolution, 9 July, from 1997. */
  lemma SaoPauloHoliday(date: Date)
    requires ValidDate(date)
    ensures IsStateHoliday(date, SP) <==> date.year >= 1997 && date.month == 7 && date.day == 9
  {
  }

  /** As written, Santa Catarina has no holiday of its own in December. */
  lemma NoSantaCatarinaDecember(date: Date)
    requires ValidDate(date) && date.month == 12
    ensures !IsStateHoliday(date, SC)
  {
  }

  /** The corrected rule accepts 1 December 2024. */
  lemma SaintCatherineDecember2024(date: Date)
    requires date == Date(2024, 12, 1)
    ensures IsStateHolidayCorrected(date, SC)
  {
    SaintCatherine2024();
  }

  /** With the corrected rules, every year's Saint Catherine Sunday is a holiday in Santa Catarina. */
  lemma SaintCatherineHolidayCorrected(y: int)
    requires 1999 <= y <= 2030 && y != 2004
    ensures IsHolidayCorrected(FirstSundayFrom(Date(y, 11, 25)), Some("SC")) == Some(true)
  {
    SaintCatherineEveryYear(y);
    ParseUfCode(SC);
  }

  /** From year 0 on, a date that is no national holiday is a holiday exactly when it is one of the unit's own. */
  lemma StateDecides(date: Date, u: Uf)
    requires ValidDate(date) && date.year >= 0 && !IsNationalHoliday(date)
    ensures IsHoliday(date, Some(UfCode(u))) == Some(IsStateHoliday(date, u))
  {
    ParseUfCode(u);
    NationalAsWrittenAgrees(date);
  }

  /** A national holiday is a holiday whichever valid unit is asked about. */
  lemma NationalHolidayEverywhere(date: Date, uf: Option<string>)
    requires ValidDate(date) && IsNationalHolidayAsWritten(date) == Some(true)
    requires uf.Some? ==> IsUfCode(uf.value)
    ensures IsHoliday(date, uf) == Some(true)
  {
  }

  /** Naming a valid unit gives an answer exactly when asking without one does, and never takes a holiday away. */
  lemma HolidayWithUnit(date: Date, code: string)
    requires ValidDate(date) && IsUfCode(code)
    ensures IsHoliday(date, Some(code)).None? <==> IsHoliday(date, None).None?
    ensures IsHoliday(date, None) == Some(true) ==> IsHoliday(date, Some(code)) == Some(true)
  {
  }

  /** A unit's own holiday counts when that unit is asked about: state holidays start in 1996, where Easter never panics. */
  lemma StateHolidayCounts(date: Date, u: Uf)
    requires ValidDate(date) && IsStateHoliday(date, u)
    ensures IsHoliday(date, Some(UfCode(u))) == Some(true)
  {
    ParseUfCode(u);
    assert date.year >= 1996;
    NationalAsWrittenAgrees(date);
  }

  /** Before 1996 no state has holidays of its own: naming a unit changes nothing. */
  lemma NoStateHolidaysBefore1996(date: Date, code: string)
    requires ValidDate(date) && date.year < 1996 && IsUfCode(code)
    ensures IsHoliday(date, Some(code)) == IsHoliday(date, None)
  {
  }

  /**
   * Without a unit: from year 0 on, a date is a holiday exactly when it is a
   * fixed national holiday or lies two days before Easter; there is no answer
   * only for a date that is not a fixed holiday in a year where
   * `calculate_easter` panics.
   */
  lemma NationalOnly(date: Date)
    requires ValidDate(date)
    ensures date.year >= 0 ==> IsHoliday(date, None) == Some(FixedNationalHoliday(date.year, date.month, date.day) || DayNumber(date) + 2 == DayNumber(Easter(date.year)))
    ensures IsHoliday(date, None).None? <==> !FixedNationalHoliday(date.year, date.month, date.day) && CalculateEasterAsWritten(date.year).None?
  {
    if date.year >= 0 {
      EasterAsWrittenAgrees(date.year);
    }
  }

  // ---------------------------------------------------------------------------
  // Writing a date out

  /** The first character in upper case, as `to_uppercase` does for the ASCII letters number words start with. */
  function Capitalize(s: string): (r: string)
    ensures |r| == |s|
  {
    if |s| == 0 then s else [UpperChar(s[0])] + s[1..]
  }

  /** The day in words: "Primeiro" for the first, otherwise the number in words, capitalised. */
  function DayText(day: int): (r: string)
    requires 1 <= day <= 31
  {
    if day == 1 then "Primeiro" else Capitalize(Currency.NumberToWords(day))
  }

  /** `"<day> de <month> de <year>"` with every part in words. */
  function DateText(d: Date): (r: string)
    requires ValidDate(d)
  {
    DayText(d.day) + " de " + MonthName(d.month) + " de " + Currency.NumberToWords(d.year)
  }

  /** `u32::MAX + 1`: the day and the month are parsed as `u32`. */
  const U32Bound: nat := 0x1_0000_0000

  /**
   * The parsing half of `convert_date_to_text`: three fields separated by `/`,
   * the day and the month as `u32`, the year as `i32`, forming a real date.
   */
  function ReadDate(text: string): (r: Option<Date>)
    ensures r.Some? ==> ValidDate(r.value) && |Split(text, '/')| == 3
  {
    var parts := Split(text, '/');
    if |parts| != 3 then None
    else
      match (ParseUnsigned(parts[0], U32Bound), ParseUnsigned(parts[1], U32Bound), ParseI32(parts[2]))
      case (Some(day), Some(month), Some(year)) =>
        if ValidDate(Date(year, month, day)) then Some(Date(year, month, day)) else None
      case _ => None
  }

  /** `convert_date_to_text`: `None` for anything that is not a real `dd/mm/yyyy` date. */
  function ConvertDateToText(text: string): (r: Option<string>)
    ensures r.Some? <==> ReadDate(text).Some?
  {
    match ReadDate(text)
    case None => None
    case Some(d) => Some(DateText(d))
  }

  /** A year as `i32` prints it. */
  function YearNumeral(y: int): string {
    if y < 0 then "-" + Decimal(-y) else Decimal(y)
  }

  /** A date as `dd/mm/yyyy`, day and month padded to two digits. */
  function DateNumeral(d: Date): string
    requires ValidDate(d)
  {
    Pad(d.day, 2) + "/" + Pad(d.month, 2) + "/" + YearNumeral(d.year)
  }

  /** A day or month padded to two digits parses back to its value as a `u32`. */
  lemma PaddedParses(n: nat)
    requires n < U32Bound
    ensures '/' !in Pad(n, 2)
    ensures ParseUnsigned(Pad(n, 2), U32Bound) == Some(n)
  {
    PadValue(n, 2);
    ParseUnsignedDigits(Pad(n, 2), U32Bound);
  }

  /** The numeral of any `i32` year parses back to the year. */
  lemma YearParses(y: int)
    requires I32Min <= y <= I32Max
    ensures '/' !in YearNumeral(y)
    ensures ParseI32(YearNumeral(y)) == Some(y)
  {
    var n := if y < 0 then -y else y;
    DecimalValue(n);
    if y < 0 {
      var s := YearNumeral(y);
      assert s[1..] == Decimal(n);
      assert s[0] == '-';
    } else {
      assert Decimal(n)[0] != '-';
    }
  }

  /** Fields written as numerals are read back, and form a date exactly when the triple is a real date. */
  lemma ReadFields(day: nat, month: nat, year: int)
    requires day < U32Bound && month < U32Bound && I32Min <= year <= I32Max
    ensures ReadDate(Pad(day, 2) + "/" + Pad(month, 2) + "/" + YearNumeral(year))
      == if ValidDate(Date(year, month, day)) then Some(Date(year, month, day)) else None
  {
    PaddedParses(day);
    PaddedParses(month);
    YearParses(year);
    SplitThree(Pad(day, 2), Pad(month, 2), YearNumeral(year), '/');
  }

  /** Reading a date's `dd/mm/yyyy` numeral gives the date back. */
  lemma ReadDateNumeral(d: Date)
    requires ValidDate(d)
    ensures ReadDate(DateNumeral(d)) == Some(d)
  {
    ReadFields(d.day, d.month, d.year);
  }

  /** Every real date's numeral converts, to the day, month and year in words. */
  lemma ConvertDateNumeral(d: Date)
    requires ValidDate(d)
    ensures ConvertDateToText(DateNumeral(d)) == Some(DateText(d))
  {
    ReadDateNumeral(d);
  }

  /** The year words are the spelling of a token sequence that denotes the year. */
  lemma DateTextYear(d: Date)
    requires ValidDate(d)
    ensures DateText(d) == DayText(d.day) + " de " + MonthName(d.month) + " de " + Currency.Render(Currency.Tokens(d.year))
    ensures Currency.Evaluate(Currency.Tokens(d.year)) == d.year
  {
    Currency.WordsDenote(d.year);
  }
}

/** The examples that accompany `date_utils`. */
module DateUtilsTests {
  import opened Strings
  import opened Calendar
  import opened DateUtils
  import CurrencyTests

  lemma MonthNames()
    ensures MonthName(1) == "janeiro" && MonthName(8) == "agosto" && MonthName(12) == "dezembro"
    ensures MonthName(0) == "" && MonthName(13) == ""
  {
  }

  lemma Easter2023()
    ensures Easter(2023) == Date(2023, 4, 9)
  {
    assert 2023 / 100 == 20 && 2023 % 100 == 23 && 2023 % 19 == 9;
    assert ComputusOf(2023) == Computus(9, 20, 23, 5, 0, 5, 3, 15, 3, 0);
  }

  lemma Easter2024()
    ensures Easter(2024) == Date(2024, 3, 31)
  {
    assert 2024 / 100 == 20 && 2024 % 100 == 24 && 2024 % 19 == 10;
    assert ComputusOf(2024) == Computus(10, 20, 24, 5, 0, 6, 0, 4, 5, 0);
  }

  lemma Easter2025()
    ensures Easter(2025) == Date(2025, 4, 20)
  {
    assert 2025 / 100 == 20 && 2025 % 100 == 25 && 2025 % 19 == 11;
    assert ComputusOf(2025) == Computus(11, 20, 25, 5, 0, 6, 1, 23, 6, 0);
  }

  lemma GoodFridays()
    ensures GoodFriday(2024) == Date(2024, 3, 29) && GoodFriday(2023) == Date(2023, 4, 7)
    ensures IsHoliday(Date(2024, 3, 29), None) == Some(true)
    ensures IsHoliday(Date(2023, 4, 7), None) == Some(true)
  {
    Easter2023();
    Easter2024();
    NationalAsWrittenAgrees(Date(2024, 3, 29));
    NationalAsWrittenAgrees(Date(2023, 4, 7));
  }

  lemma NationalDays()
    ensures IsHoliday(Date(2024, 1, 1), None) == Some(true)
    ensures IsHoliday(Date(2024, 1, 2), None) == Some(false)
    ensures IsHoliday(Date(2024, 9, 7), None) == Some(true)
    ensures IsHoliday(Date(2024, 12, 25), None) == Some(true)
  {
    Easter2024();
    NationalAsWrittenAgrees(Date(2024, 1, 2));
  }

  lemma BahiaIndependence()
    ensures IsHoliday(Date(2024, 7, 2), Some("BA")) == Some(true)
  {
    StateHolidayCounts(Date(2024, 7, 2), BA);
  }

  lemma NotInSaoPaulo(date: Date)
    requires date == Date(2024, 7, 2)
    ensures IsHoliday(date, Some("SP")) == Some(false)
  {
    assert ValidDate(date) && !IsNationalHoliday(date);
    assert UfCode(SP) == "SP";
    StateDecides(date, SP);
    SaoPauloHoliday(date);
  }

  lemma ConstitutionalistRevolution()
    ensures IsHoliday(Date(2024, 7, 9), Some("SP")) == Some(true)
  {
    StateHolidayCounts(Date(2024, 7, 9), SP);
  }

  lemma UnknownUnit()
    ensures IsHoliday(Date(2024, 1, 1), Some("XX")) == None
  {
  }

  lemma NewYear2024Words()
    ensures DateText(Date(2024, 1, 1)) == "Primeiro" + " de " + "janeiro" + " de " + "dois mil e vinte e quatro"
  {
    CurrencyTests.TwoThousandTwentyFour();
  }

  lemma NewYear2024Text()
    ensures ConvertDateToText("01/01/2024") == Some("Primeiro" + " de " + "janeiro" + " de " + "dois mil e vinte e quatro")
  {
    assert DateNumeral(Date(2024, 1, 1)) == "01/01/2024";
    ConvertDateNumeral(Date(2024, 1, 1));
    NewYear2024Words();
  }


  lemma FifteenthText()
    ensures DayText(15) == "Quinze"
  {
    CurrencyTests.Fifteen();
    assert "quinze"[1..] == "uinze";
  }

  lemma TwentyFifthText()
    ensures DayText(25) == "Vinte e cinco"
  {
    CurrencyTests.TwentyFive();
    assert "vinte e cinco"[1..] == "inte e cinco";
  }

  lemma August1990Words()
    ensures DateText(Date(1990, 8, 15)) == "Quinze" + " de " + "agosto" + " de " + ("mil" + ", " + "novecentos e noventa")
  {
    FifteenthText();
    CurrencyTests.NineteenNinety(1990);
  }

  lemma August1990Text()
    ensures ConvertDateToText("15/08/1990") == Some("Quinze" + " de " + "agosto" + " de " + ("mil" + ", " + "novecentos e noventa"))
  {
    assert DateNumeral(Date(1990, 8, 15)) == "15/08/1990";
    ConvertDateNumeral(Date(1990, 8, 15));
    August1990Words();
  }


  lemma Christmas2000Words()
    ensures DateText(Date(2000, 12, 25)) == "Vinte e cinco" + " de " + "dezembro" + " de " + "dois mil"
  {
    TwentyFifthText();
    CurrencyTests.TwoThousand();
  }

  lemma Christmas2000Text()
    ensures ConvertDateToText("25/12/2000") == Some("Vinte e cinco" + " de " + "dezembro" + " de " + "dois mil")
  {
    assert DateNumeral(Date(2000, 12, 25)) == "25/12/2000";
    ConvertDateNumeral(Date(2000, 12, 25));
    Christmas2000Words();
  }


  lemma NoSlashes()
    ensures ConvertDateToText("invalid") == None
  {
    NoSeparator("invalid", '/');
  }

  /** A numeral whose fields are not a real date does not convert. */
  lemma FieldsRejected(text: string, day: nat, month: nat, year: int)
    requires day < U32Bound && month < U32Bound && I32Min <= year <= I32Max
    requires text == Pad(day, 2) + "/" + Pad(month, 2) + "/" + YearNumeral(year)
    requires !ValidDate(Date(year, month, day))
    ensures ConvertDateToText(text) == None
  {
    ReadFields(day, month, year);
  }

  lemma DayOutOfRange(text: string)
    requires text == "32" + "/" + "01" + "/" + "2024"
    ensures ConvertDateToText(text) == None
  {
    PadTwoDigits(32);
    PadTwoDigits(1);
    DecimalFourDigits(2024);
    assert Pad(32, 2) == "32" && Pad(1, 2) == "01" && YearNumeral(2024) == "2024";
    assert text == Pad(32, 2) + "/" + Pad(1, 2) + "/" + YearNumeral(2024);
    FieldsRejected(text, 32, 1, 2024);
  }

  lemma MonthOutOfRange(text: string)
    requires text == "01" + "/" + "13" + "/" + "2024"
    ensures ConvertDateToText(text) == None
  {
    PadTwoDigits(1);
    PadTwoDigits(13);
    DecimalFourDigits(2024);
    assert Pad(1, 2) == "01" && Pad(13, 2) == "13" && YearNumeral(2024) == "2024";
    assert text == Pad(1, 2) + "/" + Pad(13, 2) + "/" + YearNumeral(2024);
    FieldsRejected(text, 1, 13, 2024);
  }

  lemma NotALeapYear(text: string)
    requires text == "29" + "/" + "02" + "/" + "2023"
    ensures ConvertDateToText(text) == None
  {
    PadTwoDigits(29);
    PadTwoDigits(2);
    DecimalFourDigits(2023);
    assert Pad(29, 2) == "29" && Pad(2, 2) == "02" && YearNumeral(2023) == "2023";
    assert text == Pad(29, 2) + "/" + Pad(2, 2) + "/" + YearNumeral(2023);
    assert !ValidDate(Date(2023, 2, 29));
    FieldsRejected(text, 29, 2, 2023);
  }
}
