/**
 * Calendar dates as `java.time.LocalDate` treats them (proleptic Gregorian calendar), with the
 * few operations the services use: ordering, `plusMonths(1)`, `Period.between(..).getYears()`
 * and the `yyyy-MM-dd` / `yyMMdd` renderings of `SimpleDateFormat`.
 */
module Dates {
  import opened JavaText

  datatype Date = Date(year: nat, month: nat, day: nat)

  predicate IsLeapYear(y: int) {
    y % 4 == 0 && (y % 100 != 0 || y % 400 == 0)
  }

  function DaysInMonth(y: int, m: int): (r: int)
    requires 1 <= m <= 12
    ensures 28 <= r <= 31
    ensures m == 2 ==> (r == 29 <==> IsLeapYear(y))
  {
    if m == 2 then (if IsLeapYear(y) then 29 else 28)
    else if m == 4 || m == 6 || m == 9 || m == 11 then 30
    else 31
  }

  predicate Valid(d: Date) {
    1 <= d.month <= 12 && 1 <= d.day <= DaysInMonth(d.year, d.month)
  }

  /** `a.isBefore(b)`. */
  predicate Before(a: Date, b: Date) {
    a.year < b.year || (a.year == b.year && (a.month < b.month || (a.month == b.month && a.day < b.day)))
  }

  /** `plusMonths(1)`: the next month, with the day clamped to that month's length. */
  function PlusOneMonth(d: Date): (r: Date)
    requires Valid(d)
    ensures Valid(r)
    ensures Before(d, r)
    ensures r.day <= d.day
    ensures d.day <= DaysInMonth(r.year, r.month) ==> r.day == d.day
    ensures d.day > DaysInMonth(r.year, r.month) ==> r.day == DaysInMonth(r.year, r.month)
  {
    var (y, m) := if d.month == 12 then (d.year + 1, 1) else (d.year, d.month + 1);
    var last := DaysInMonth(y, m);
    Date(y, m, if d.day <= last then d.day else last)
  }

  /** The month count `Period.between(start, end)` starts from, before borrowing from the days. */
  function MonthsBetween(start: Date, end: Date): int {
    (end.year * 12 + end.month) - (start.year * 12 + start.month)
  }

  /** `Period.between(start, end).getYears()`, following `LocalDate.until`. */
  function PeriodYears(start: Date, end: Date): int {
    var total := MonthsBetween(start, end);
    var days := end.day - start.day;
    var months := if total > 0 && days < 0 then total - 1 else if total < 0 && days > 0 then total + 1 else total;
    if months >= 0 then months / 12 else -((-months) / 12)
  }

  /** Whether `end`'s month and day come before `start`'s in the calendar year. */
  predicate AnniversaryPending(start: Date, end: Date) {
    end.month < start.month || (end.month == start.month && end.day < start.day)
  }

  /** For an `end` not before `start`, the years counted are the completed anniversaries. */
  lemma PeriodYearsCompleted(start: Date, end: Date)
    requires Valid(start) && Valid(end) && !Before(end, start)
    ensures PeriodYears(start, end) == end.year - start.year - (if AnniversaryPending(start, end) then 1 else 0)
  {
    var total := MonthsBetween(start, end);
    var days := end.day - start.day;
    var months := if total > 0 && days < 0 then total - 1 else total;
    var years := end.year - start.year - (if AnniversaryPending(start, end) then 1 else 0);
    assert total >= 0;
    assert months == years * 12 + (if AnniversaryPending(start, end) then 12 + end.month - start.month - (if days < 0 then 1 else 0)
                                  else end.month - start.month - (if days < 0 then 1 else 0));
  }

  /** For an `end` before `start`, no year is counted. */
  lemma PeriodYearsBackwards(start: Date, end: Date)
    requires Valid(start) && Valid(end) && Before(end, start)
    ensures PeriodYears(start, end) <= 0
  {
  }

  function Pow10(w: nat): (r: nat)
    ensures r >= 1
  {
    if w == 0 then 1 else 10 * Pow10(w - 1)
  }

  /** The last `w` decimal digits of `n`, zero-padded: a fixed-width date field. */
  function Fixed(n: nat, w: nat): (r: string)
    ensures |r| == w
    ensures forall k | 0 <= k < |r| :: '0' <= r[k] <= '9'
  {
    if w == 0 then [] else Fixed(n / 10, w - 1) + [Digit(n % 10)]
  }

  /** Comparing two strings split at the same position: the first parts decide unless they are equal. */
  lemma {:induction false} LexConcat(x: string, y: string, x': string, y': string)
    requires |x| == |x'|
    ensures LexLess(x + y, x' + y') == if x != x' then LexLess(x, x') else LexLess(y, y')
  {
    if x != [] {
      assert (x + y)[0] == x[0] && (x' + y')[0] == x'[0];
      assert (x + y)[1..] == x[1..] + y && (x' + y')[1..] == x'[1..] + y';
      LexConcat(x[1..], y, x'[1..], y');
      if x[0] == x'[0] {
        assert x != x' <==> x[1..] != x'[1..] by {
          assert x == [x[0]] + x[1..] && x' == [x'[0]] + x'[1..];
        }
      }
    } else {
      assert x + y == y && x' + y' == y';
    }
  }

  /** Fixed-width fields of numbers that fit compare as strings exactly as the numbers do. */
  lemma {:induction false} FixedOrder(n: nat, m: nat, w: nat)
    requires n < Pow10(w) && m < Pow10(w)
    ensures LexLess(Fixed(n, w), Fixed(m, w)) <==> n < m
    ensures Fixed(n, w) == Fixed(m, w) <==> n == m
  {
    if w > 0 {
      assert n / 10 < Pow10(w - 1) && m / 10 < Pow10(w - 1);
      FixedOrder(n / 10, m / 10, w - 1);
      var dn, dm := [Digit(n % 10)], [Digit(m % 10)];
      LexConcat(Fixed(n / 10, w - 1), dn, Fixed(m / 10, w - 1), dm);
      assert LexLess(dn, dm) <==> n % 10 < m % 10 by {
        assert dn[1..] == [] && dm[1..] == [];
      }
      if Fixed(n, w) == Fixed(m, w) {
        assert Fixed(n / 10, w - 1) == Fixed(n, w)[..w - 1] && Fixed(m / 10, w - 1) == Fixed(m, w)[..w - 1];
        assert Fixed(n, w)[w - 1] == Digit(n % 10) && Fixed(m, w)[w - 1] == Digit(m % 10);
      }
    }
  }

  /** `SimpleDateFormat`'s `yyyy`: four digits, or all of them for a longer year. */
  function FormatYear(y: nat): (r: string)
    ensures y < 10000 ==> |r| == 4
  {
    if y < 10000 then Fixed(y, 4) else NatToString(y)
  }

  /** `new SimpleDateFormat("yyyy-MM-dd").format(d)`. */
  function FormatIso(d: Date): (r: string)
    ensures d.year < 10000 ==> |r| == 10 && r[4] == '-' && r[7] == '-'
  {
    FormatYear(d.year) + ("-" + (Fixed(d.month, 2) + ("-" + Fixed(d.day, 2))))
  }

  /** `new SimpleDateFormat("yyMMdd").format(d)`: the year cut to its last two digits. */
  function FormatYyMMdd(d: Date): (r: string)
    ensures |r| == 6
  {
    Fixed(d.year % 100, 2) + Fixed(d.month, 2) + Fixed(d.day, 2)
  }

  /** For four-digit years, `yyyy-MM-dd` strings sort as the dates do. */
  lemma IsoOrder(a: Date, b: Date)
    requires Valid(a) && Valid(b) && a.year < 10000 && b.year < 10000
    ensures LexLess(FormatIso(a), FormatIso(b)) <==> Before(a, b)
  {
    assert Pow10(2) == 100 && Pow10(4) == 10000;
    FixedOrder(a.year, b.year, 4);
    FixedOrder(a.month, b.month, 2);
    FixedOrder(a.day, b.day, 2);
    var da, db := "-" + Fixed(a.day, 2), "-" + Fixed(b.day, 2);
    var ma, mb := Fixed(a.month, 2) + da, Fixed(b.month, 2) + db;
    LexConcat(Fixed(a.year, 4), "-" + ma, Fixed(b.year, 4), "-" + mb);
    LexConcat("-", ma, "-", mb);
    LexConcat(Fixed(a.month, 2), da, Fixed(b.month, 2), db);
    LexConcat("-", Fixed(a.day, 2), "-", Fixed(b.day, 2));
  }

  /** For four-digit years, distinct dates render as distinct `yyyy-MM-dd` strings. */
  lemma IsoInjective(a: Date, b: Date)
    requires Valid(a) && Valid(b) && a.year < 10000 && b.year < 10000
    ensures FormatIso(a) == FormatIso(b) <==> a == b
  {
    assert Pow10(2) == 100 && Pow10(4) == 10000;
    if FormatIso(a) == FormatIso(b) {
      assert FormatYear(a.year) == Fixed(a.year, 4) && FormatYear(b.year) == Fixed(b.year, 4);
      IsoPieces(Fixed(a.year, 4), Fixed(a.month, 2), Fixed(a.day, 2), Fixed(b.year, 4), Fixed(b.month, 2), Fixed(b.day, 2));
      FixedOrder(a.year, b.year, 4);
      FixedOrder(a.month, b.month, 2);
      FixedOrder(a.day, b.day, 2);
    }
  }

  /** Two `y-m-d` texts with fields of widths 4, 2 and 2 are equal only when their fields are. */
  lemma IsoPieces(y: string, m: string, d: string, y': string, m': string, d': string)
    requires |y| == |y'| == 4 && |m| == |m'| == 2 && |d| == |d'| == 2
    requires y + ("-" + (m + ("-" + d))) == y' + ("-" + (m' + ("-" + d')))
    ensures y == y' && m == m' && d == d'
  {
    var r, r' := y + ("-" + (m + ("-" + d))), y' + ("-" + (m' + ("-" + d')));
    assert r[..4] == y && r'[..4] == y';
    assert r[5..7] == m && r'[5..7] == m';
    assert r[8..] == d && r'[8..] == d';
  }
}
