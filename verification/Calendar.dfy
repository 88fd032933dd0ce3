/** Dates as the schedule engine meets them: Postgres keeps a day, prints it with
    `::text` and reads it back with `::date`; the Go handlers compare the printed
    strings byte by byte. A `Day` counts from 0001-01-01 (day 0) in the proleptic
    Gregorian calendar. */
module Calendar {
  import opened Decimals
  import opened Wrappers

  type Day = int

  /** A day written as year, month 1..12 and day of the month. Year 0 is 1 BC. */
  datatype Civil = Civil(year: int, month: int, day: int)

  predicate Leap(y: int) {
    y % 4 == 0 && (y % 100 != 0 || y % 400 == 0)
  }

  function YearLength(y: int): int {
    if Leap(y) then 366 else 365
  }

  function MonthLength(y: int, m: int): int {
    if m == 2 then (if Leap(y) then 29 else 28)
    else if m == 4 || m == 6 || m == 9 || m == 11 then 30
    else 31
  }

  /** Days from 0001-01-01 to the first day of year `y`. */
  function DaysBeforeYear(y: int): int {
    365 * (y - 1) + (y - 1) / 4 - (y - 1) / 100 + (y - 1) / 400
  }

  lemma FourthYear(y: int)
    ensures y / 4 == (y - 1) / 4 + if y % 4 == 0 then 1 else 0
  {
  }

  lemma HundredthYear(y: int)
    ensures y / 100 == (y - 1) / 100 + if y % 100 == 0 then 1 else 0
    ensures y % 100 == 0 ==> y % 4 == 0
  {
  }

  lemma FourHundredthYear(y: int)
    ensures y / 400 == (y - 1) / 400 + if y % 400 == 0 then 1 else 0
    ensures y % 400 == 0 ==> y % 100 == 0
  {
  }

  lemma YearStep(y: int)
    ensures DaysBeforeYear(y + 1) == DaysBeforeYear(y) + YearLength(y)
  {
    FourthYear(y);
    HundredthYear(y);
    FourHundredthYear(y);
  }

  function DaysBeforeMonth(y: int, m: int): int
    requires 1 <= m <= 13
  {
    if m == 1 then 0 else DaysBeforeMonth(y, m - 1) + MonthLength(y, m - 1)
  }

  predicate ValidCivil(c: Civil) {
    1 <= c.month <= 12 && 1 <= c.day <= MonthLength(c.year, c.month)
  }

  function FromCivil(c: Civil): Day
    requires ValidCivil(c)
  {
    DaysBeforeYear(c.year) + DaysBeforeMonth(c.year, c.month) + c.day - 1
  }

  /** The day before which every date is written with a four-digit year. */
  function FirstFiveDigitDay(): Day {
    DaysBeforeYear(10000)
  }

  /** Walks year by year from year `y`, of which `n` is the zero-based day. */
  function YearOf(n: int, y: int): (r: (int, int))
    ensures 0 <= r.1 < YearLength(r.0)
    ensures DaysBeforeYear(r.0) + r.1 == DaysBeforeYear(y) + n
    decreases if n < 0 then 1000 - n else n
  {
    YearStep(y);
    YearStep(y - 1);
    if n < 0 then YearOf(n + YearLength(y - 1), y - 1)
    else if n >= YearLength(y) then YearOf(n - YearLength(y), y + 1)
    else (y, n)
  }

  function MonthOf(y: int, n: int, m: int): (r: (int, int))
    requires 1 <= m <= 12 && 0 <= n < DaysBeforeMonth(y, 13) - DaysBeforeMonth(y, m)
    ensures 1 <= r.0 <= 12 && 0 <= r.1 < MonthLength(y, r.0)
    ensures DaysBeforeMonth(y, r.0) + r.1 == DaysBeforeMonth(y, m) + n
    decreases 12 - m
  {
    if n < MonthLength(y, m) then (m, n)
    else MonthOf(y, n - MonthLength(y, m), m + 1)
  }

  lemma MonthsFillYear(y: int)
    ensures DaysBeforeMonth(y, 13) == YearLength(y)
  {
    assert DaysBeforeMonth(y, 2) == 31;
    assert DaysBeforeMonth(y, 3) == 31 + MonthLength(y, 2);
    assert DaysBeforeMonth(y, 5) == DaysBeforeMonth(y, 3) + 61;
    assert DaysBeforeMonth(y, 7) == DaysBeforeMonth(y, 5) + 61;
    assert DaysBeforeMonth(y, 9) == DaysBeforeMonth(y, 7) + 62;
    assert DaysBeforeMonth(y, 11) == DaysBeforeMonth(y, 9) + 61;
    assert DaysBeforeMonth(y, 13) == DaysBeforeMonth(y, 11) + 61;
  }

  function ToCivil(n: Day): (c: Civil)
    ensures ValidCivil(c) && FromCivil(c) == n
  {
    var (y, k) := YearOf(n, 1);
    MonthsFillYear(y);
    var (m, d) := MonthOf(y, k, 1);
    Civil(y, m, d + 1)
  }

  /** The count and the rules of the calendar: its first day, the Unix epoch, and which centuries leap. */
  lemma KnownDates()
    ensures FromCivil(Civil(1, 1, 1)) == 0 && ToCivil(0) == Civil(1, 1, 1)
    ensures ValidCivil(Civil(1970, 1, 1)) && FromCivil(Civil(1970, 1, 1)) == 719162
    ensures ValidCivil(Civil(2000, 2, 29)) && !ValidCivil(Civil(1900, 2, 29)) && ValidCivil(Civil(2024, 2, 29))
    ensures FromCivil(Civil(2000, 3, 1)) - FromCivil(Civil(2000, 2, 28)) == 2
  {
    assert DaysBeforeMonth(2000, 2) == 31 && DaysBeforeMonth(2000, 3) == 60;
  }

  // ---- calendar order -------------------------------------------------------

  predicate CivilBefore(a: Civil, b: Civil) {
    a.year < b.year
    || (a.year == b.year && (a.month < b.month || (a.month == b.month && a.day < b.day)))
  }

  lemma {:induction false} YearsIncrease(x: int, y: int)
    requires x < y
    ensures DaysBeforeYear(x) + YearLength(x) <= DaysBeforeYear(y)
    decreases y - x
  {
    YearStep(x);
    if x + 1 < y { YearsIncrease(x + 1, y); }
  }

  lemma {:induction false} MonthsIncrease(y: int, m: int, n: int)
    requires 1 <= m < n <= 13
    ensures DaysBeforeMonth(y, m) + MonthLength(y, m) <= DaysBeforeMonth(y, n)
    decreases n
  {
    if m + 1 < n { MonthsIncrease(y, m, n - 1); }
  }

  lemma CivilOrder(a: Civil, b: Civil)
    requires ValidCivil(a) && ValidCivil(b) && CivilBefore(a, b)
    ensures FromCivil(a) < FromCivil(b)
  {
    if a.year < b.year {
      YearsIncrease(a.year, b.year);
      MonthsFillYear(a.year);
      MonthsIncrease(a.year, a.month, 13);
      if b.month > 1 { MonthsIncrease(b.year, 1, b.month); }
    } else if a.month < b.month {
      MonthsIncrease(a.year, a.month, b.month);
    }
  }

  /** Two dates with the same day number are the same date. */
  lemma CivilUnique(a: Civil, b: Civil)
    requires ValidCivil(a) && ValidCivil(b) && FromCivil(a) == FromCivil(b)
    ensures a == b
  {
    if CivilBefore(a, b) { CivilOrder(a, b); }
    if CivilBefore(b, a) { CivilOrder(b, a); }
  }

  lemma FourDigitYears(n: Day)
    ensures 0 <= n < FirstFiveDigitDay() <==> 1 <= ToCivil(n).year <= 9999
  {
    var (y, k) := YearOf(n, 1);
    MonthsFillYear(y);
    if y < 1 { YearsIncrease(y, 1); }
    if y > 1 { YearsIncrease(1, y); }
    if y < 10000 { YearsIncrease(y, 10000); }
    if y > 10000 { YearsIncrease(10000, y); }
  }

  // ---- printing and reading -------------------------------------------------

  function Width(n: int): (w: nat)
    requires 0 <= n
    ensures 4 <= w
  {
    if n < 10000 then 4 else 1 + Width(n / 10)
  }

  lemma {:induction false} WideYears(n: int)
    requires 10000 <= n
    ensures Width(n) >= 5
  {
    assert n / 10 >= 1000;
    if n / 10 >= 10000 { WideYears(n / 10); }
  }

  /** Postgres' `::text` of a date: at least four year digits, " BC" before year 1. */
  function Text(n: Day): string {
    var c := ToCivil(n);
    MonthDigits(c);
    var y := if c.year >= 1 then c.year else 1 - c.year;
    Digits(y, Width(y)) + "-" + Digits(c.month, 2) + "-" + Digits(c.day, 2)
    + (if c.year >= 1 then "" else " BC")
  }

  lemma MonthDigits(c: Civil)
    requires ValidCivil(c)
    ensures 0 <= c.month < 100 && 0 <= c.day < 100
  {
  }

  /** The regular expression both week handlers check dates with. */
  predicate MatchesDateRE(s: string) {
    |s| == 10 && s[4] == '-' && s[7] == '-'
    && forall i | 0 <= i < 10 && i != 4 && i != 7 :: IsDigit(s[i])
  }

  /** The `::date` cast of a string of that shape; `None` is the SQL error. */
  function ParseDate(s: string): Option<Day>
    requires MatchesDateRE(s)
  {
    var c := Civil(Value(s[..4]), Value(s[5..7]), Value(s[8..]));
    if c.year >= 1 && ValidCivil(c) then Some(FromCivil(c)) else None
  }

  lemma FourDigitText(n: Day)
    requires 0 <= n < FirstFiveDigitDay()
    ensures var c := ToCivil(n);
            && 1 <= c.year <= 9999 && 0 <= c.month < 100 && 0 <= c.day < 100
            && Text(n) == Digits(c.year, 4) + "-" + Digits(c.month, 2) + "-" + Digits(c.day, 2)
  {
    hide Digits;
    FourDigitYears(n);
    MonthDigits(ToCivil(n));
  }

  lemma DateParts(y: string, m: string, d: string)
    requires |y| == 4 && |m| == |d| == 2 && forall c | c in y + m + d :: IsDigit(c)
    ensures var s := y + "-" + m + "-" + d;
            MatchesDateRE(s) && s[..4] == y && s[5..7] == m && s[8..] == d
  {
    var s, digits := y + "-" + m + "-" + d, y + m + d;
    forall i | 0 <= i < 10 && i != 4 && i != 7 ensures IsDigit(s[i]) {
      assert s[i] == digits[if i < 4 then i else if i < 7 then i - 1 else i - 2];
    }
  }

  /** Reading undoes printing, for every date the handlers let a client send. */
  lemma ParseText(n: Day)
    requires 0 <= n < FirstFiveDigitDay()
    ensures MatchesDateRE(Text(n)) && ParseDate(Text(n)) == Some(n)
  {
    var c := ToCivil(n);
    SmallPowers();
    FourDigitText(n);
    hide Text, ToCivil, FromCivil, ValidCivil, Digits, Value, Pow10;
    var y, m, d := Digits(c.year, 4), Digits(c.month, 2), Digits(c.day, 2);
    DateParts(y, m, d);
    ValueOfDigits(c.year, 4);
    ValueOfDigits(c.month, 2);
    ValueOfDigits(c.day, 2);
  }

  /** Printing undoes reading, and what was read has a four-digit year. */
  lemma TextOfParsed(s: string)
    requires MatchesDateRE(s) && ParseDate(s).Some?
    ensures 0 <= ParseDate(s).value < FirstFiveDigitDay()
    ensures Text(ParseDate(s).value) == s
  {
    SmallPowers();
    var y, m, d := s[..4], s[5..7], s[8..];
    DigitsOfValue(y);
    DigitsOfValue(m);
    DigitsOfValue(d);
    var c := Civil(Value(y), Value(m), Value(d));
    var n := FromCivil(c);
    CivilUnique(c, ToCivil(n));
    FourDigitYears(n);
    assert s == y + "-" + m + "-" + d;
  }

  lemma TextLength(n: Day)
    ensures |Text(n)| == 10 ==> 0 <= n < FirstFiveDigitDay()
  {
    var c := ToCivil(n);
    FourDigitYears(n);
    if c.year >= 10000 { WideYears(c.year); }
  }

  /** A date a client can send is printed like no other date. */
  lemma TextDistinct(s: string, n: Day)
    requires MatchesDateRE(s)
    ensures s == Text(n) <==> (0 <= n < FirstFiveDigitDay() && ParseDate(s) == Some(n))
  {
    if s == Text(n) {
      TextLength(n);
      ParseText(n);
    } else if ParseDate(s).Some? {
      TextOfParsed(s);
    }
  }

  // ---- every date has a text of its own ----------------------------------------

  lemma {:induction false} WidthSuffices(n: int)
    requires 0 <= n
    ensures n < Pow10(Width(n))
  {
    if n >= 10000 { WidthSuffices(n / 10); } else { SmallPowers(); }
  }

  /** The year as it is printed, before the mark of its era. */
  function PrintedYear(year: int): nat {
    if year >= 1 then year else 1 - year
  }

  lemma PiecesOf(year: string, month: string, day: string, era: string)
    requires |month| == |day| == 2 && day[1] != 'C' && era in ["", " BC"]
    ensures var s, w := year + "-" + month + "-" + day + era, |year|;
            && |s| == w + 6 + |era| && s[..w] == year && s[w + 1..w + 3] == month && s[w + 4..w + 6] == day
            && (s[|s| - 1] == 'C' <==> era != "")
  {
  }

  lemma TextShape(n: Day)
    ensures var c := ToCivil(n);
            var y := PrintedYear(c.year);
            && 0 <= c.month < 100 && 0 <= c.day < 100
            && Text(n) == Digits(y, Width(y)) + "-" + Digits(c.month, 2) + "-" + Digits(c.day, 2)
                          + (if c.year >= 1 then "" else " BC")
  {
    hide Width, Digits;
    MonthDigits(ToCivil(n));
  }

  lemma TextPieces(n: Day)
    ensures var s, c := Text(n), ToCivil(n);
            var w := Width(PrintedYear(c.year));
            && 0 <= c.month < 100 && 0 <= c.day < 100
            && |s| == (if c.year < 1 then w + 9 else w + 6) && (c.year < 1 <==> s[|s| - 1] == 'C')
            && s[..w] == Digits(PrintedYear(c.year), w)
            && s[w + 1..w + 3] == Digits(c.month, 2) && s[w + 4..w + 6] == Digits(c.day, 2)
  {
    var c := ToCivil(n);
    var y := PrintedYear(c.year);
    TextShape(n);
    hide Text, ToCivil, FromCivil, ValidCivil, Width, Digits, PrintedYear;
    var year, month, day, era := Digits(y, Width(y)), Digits(c.month, 2), Digits(c.day, 2),
                                 if c.year >= 1 then "" else " BC";
    assert '0' <= day[1] <= '9';
    PiecesOf(year, month, day, era);
  }

  lemma DigitsInjective(m: int, n: int, w: nat)
    requires 0 <= m < Pow10(w) && 0 <= n < Pow10(w) && Digits(m, w) == Digits(n, w)
    ensures m == n
  {
    ValueOfDigits(m, w);
    ValueOfDigits(n, w);
  }

  /** No two days are printed alike. */
  lemma TextInjective(a: Day, b: Day)
    requires Text(a) == Text(b)
    ensures a == b
  {
    TextPieces(a);
    TextPieces(b);
    var c, d := ToCivil(a), ToCivil(b);
    var y, z := PrintedYear(c.year), PrintedYear(d.year);
    hide Text, Digits, Width, ToCivil, FromCivil, Pow10, PrintedYear;
    WidthSuffices(y);
    WidthSuffices(z);
    HundredIsPow10();
    DigitsInjective(y, z, Width(y));
    DigitsInjective(c.month, d.month, 2);
    DigitsInjective(c.day, d.day, 2);
    SameYear(c.year, d.year);
    assert c == d;
  }

  lemma HundredIsPow10()
    ensures Pow10(2) == 100
  {
    SmallPowers();
  }

  lemma SameYear(a: int, b: int)
    requires PrintedYear(a) == PrintedYear(b) && (a < 1 <==> b < 1)
    ensures a == b
  {
  }

  // ---- string order is calendar order ---------------------------------------

  /** Go's `<` on strings: bytewise lexicographic. */
  predicate Before(a: string, b: string) {
    b != "" && (a == "" || a[0] < b[0] || (a[0] == b[0] && Before(a[1..], b[1..])))
  }

  lemma {:induction false} BeforeAppend(a: string, b: string, x: string, y: string)
    requires |a| == |b|
    ensures Before(a + x, b + y) <==> (Before(a, b) || (a == b && Before(x, y)))
    decreases |a|
  {
    if a == "" {
      assert a + x == x && b + y == y;
    } else {
      BeforeAppend(a[1..], b[1..], x, y);
      assert (a + x)[1..] == a[1..] + x && (b + y)[1..] == b[1..] + y;
      assert a == b <==> (a[0] == b[0] && a[1..] == b[1..]) by {
        assert a == [a[0]] + a[1..] && b == [b[0]] + b[1..];
      }
    }
  }

  lemma {:induction false} DigitOrder(m: int, n: int, w: nat)
    requires 0 <= m < Pow10(w) && 0 <= n < Pow10(w)
    ensures Before(Digits(m, w), Digits(n, w)) <==> m < n
    ensures Digits(m, w) == Digits(n, w) <==> m == n
    decreases w
  {
    ValueOfDigits(m, w);
    ValueOfDigits(n, w);
    if w > 0 {
      DigitOrder(m / 10, n / 10, w - 1);
      var x, y := [DigitChar(m % 10)], [DigitChar(n % 10)];
      BeforeAppend(Digits(m / 10, w - 1), Digits(n / 10, w - 1), x, y);
      assert Before(x, y) <==> m % 10 < n % 10;
    }
  }

  /** Below year 10000 the string comparison the handlers use is the calendar's. */
  lemma StringOrderIsCalendarOrder(a: Day, b: Day)
    requires 0 <= a < FirstFiveDigitDay() && 0 <= b < FirstFiveDigitDay()
    ensures Before(Text(a), Text(b)) <==> a < b
    ensures Text(a) == Text(b) <==> a == b
  {
    TextOrderIsCivilOrder(a, b);
    var c, d := ToCivil(a), ToCivil(b);
    if CivilBefore(c, d) { CivilOrder(c, d); }
    else if CivilBefore(d, c) { CivilOrder(d, c); }
    ParseText(a);
    ParseText(b);
  }

  lemma TextOrderIsCivilOrder(a: Day, b: Day)
    requires 0 <= a < FirstFiveDigitDay() && 0 <= b < FirstFiveDigitDay()
    ensures Before(Text(a), Text(b)) <==> CivilBefore(ToCivil(a), ToCivil(b))
  {
    var c, d := ToCivil(a), ToCivil(b);
    FourDigitText(a);
    FourDigitText(b);
    SmallPowers();
    DigitOrder(c.year, d.year, 4);
    DigitOrder(c.month, d.month, 2);
    DigitOrder(c.day, d.day, 2);
    TextOrderByParts(c, d);
  }

  lemma TextOrderByParts(c: Civil, d: Civil)
    requires ValidCivil(c) && ValidCivil(d) && 0 <= c.year && 0 <= d.year
    ensures var p, q, r := Digits(c.year, 4), Digits(c.month, 2), Digits(c.day, 2);
            var x, y, z := Digits(d.year, 4), Digits(d.month, 2), Digits(d.day, 2);
            Before(p + "-" + q + "-" + r, x + "-" + y + "-" + z)
            <==> (Before(p, x) || (p == x && (Before(q, y) || (q == y && Before(r, z)))))
  {
    var p, q, r := Digits(c.year, 4), Digits(c.month, 2), Digits(c.day, 2);
    var x, y, z := Digits(d.year, 4), Digits(d.month, 2), Digits(d.day, 2);
    hide Digits, Before;
    BeforeAppend(p, x, "-" + (q + ("-" + r)), "-" + (y + ("-" + z)));
    BeforeAppend("-", "-", q + ("-" + r), y + ("-" + z));
    BeforeAppend(q, y, "-" + r, "-" + z);
    BeforeAppend("-", "-", r, z);
    NotBeforeItself("-");
    assert p + "-" + q + "-" + r == p + ("-" + (q + ("-" + r)));
    assert x + "-" + y + "-" + z == x + ("-" + (y + ("-" + z)));
  }

  lemma {:induction false} NotBeforeItself(s: string)
    ensures !Before(s, s)
    decreases |s|
  {
    if s != "" { NotBeforeItself(s[1..]); }
  }

  lemma TurnOfYear(y: int)
    ensures ToCivil(DaysBeforeYear(y + 1) - 1) == Civil(y, 12, 31)
    ensures ToCivil(DaysBeforeYear(y + 1)) == Civil(y + 1, 1, 1)
  {
    MonthsFillYear(y);
    YearsIncrease(y, y + 1);
    var n := DaysBeforeYear(y + 1);
    assert n - 1 == FromCivil(Civil(y, 12, 31)) by {
      assert DaysBeforeMonth(y, 13) == DaysBeforeMonth(y, 12) + 31;
      YearStep(y);
    }
    CivilUnique(Civil(y, 12, 31), ToCivil(n - 1));
    CivilUnique(Civil(y + 1, 1, 1), ToCivil(n));
  }

  /** From year 10000 on it is not: every date of that year sorts before 9999-12-31. */
  lemma StringOrderFailsAtYear10000(last: Day, n: Day)
    requires ToCivil(last) == Civil(9999, 12, 31) && ToCivil(n).year == ToCivil(last).year + 1
    ensures last + 1 == FirstFiveDigitDay()
    ensures Before(Text(n), Text(last)) && !Before(Text(last), Text(n))
  {
    var y := ToCivil(last).year;
    TurnOfYear(y);
    CivilUnique(ToCivil(last), ToCivil(DaysBeforeYear(y + 1) - 1));
    TextStartsWithYear(last);
    TextStartsWithYear(n);
    LeadingDigit(y + 1, 1);
    LeadingDigit(y, 9);
  }

  lemma TextStartsWithYear(n: Day)
    requires ToCivil(n).year >= 1
    ensures |Text(n)| > 0
    ensures Text(n)[0] == Digits(ToCivil(n).year, Width(ToCivil(n).year))[0]
  {
  }

  lemma LeadingDigit(n: int, d: int)
    requires (n == 10000 && d == 1) || (n == 9999 && d == 9)
    ensures Digits(n, Width(n))[0] == DigitChar(d)
  {
    if n == 10000 {
      assert Width(1000) == 4 && Width(10000) == 5;
      hide Digits;
      DropLastDigit(10000, 5);
      DropLastDigit(1000, 4);
      DropLastDigit(100, 3);
      DropLastDigit(10, 2);
      OneDigit(1);
    } else {
      hide Digits;
      DropLastDigit(9999, 4);
      DropLastDigit(999, 3);
      DropLastDigit(99, 2);
      OneDigit(9);
    }
  }

  lemma DropLastDigit(n: nat, w: nat)
    requires w >= 2
    ensures Digits(n, w)[0] == Digits(n / 10, w - 1)[0]
  {
  }

  lemma OneDigit(d: nat)
    requires d < 10
    ensures Digits(d, 1)[0] == DigitChar(d)
  {
  }

  lemma {:induction false} BeforeTotal(a: string, b: string)
    ensures a == b || Before(a, b) || Before(b, a)
    ensures Before(a, b) ==> a != b && !Before(b, a)
    decreases |a|
  {
    if a != "" && b != "" {
      BeforeTotal(a[1..], b[1..]);
      assert a == [a[0]] + a[1..] && b == [b[0]] + b[1..];
    }
  }
}
