/** ISO 8601 week numbering: the program's formulas against the calendar (section 2.2.10 of ISO 8601:2004: the first
    calendar week of a year is the one with its first Thursday). */
module IsoWeek {

  // ---------------------------------------------------------------- the calendar

  predicate Leap(y: int) { y % 4 == 0 && (y % 100 != 0 || y % 400 == 0) }

  function DaysIn(y: int): nat { if Leap(y) then 366 else 365 }

  /** The number of the first day of year `y`. Day 0 is the first of January of year 1, a Monday. */
  function FirstDay(y: int): int
    decreases if y >= 1 then y - 1 else 1 - y
  {
    if y == 1 then 0
    else if y > 1 then FirstDay(y - 1) + DaysIn(y - 1)
    else FirstDay(y + 1) - DaysIn(y)
  }

  lemma YearLength(y: int)
    ensures FirstDay(y + 1) == FirstDay(y) + DaysIn(y)
  {
  }

  lemma Steps(y: int)
    ensures y / 4 == (y - 1) / 4 + if y % 4 == 0 then 1 else 0
    ensures y / 100 == (y - 1) / 100 + if y % 100 == 0 then 1 else 0
    ensures y / 400 == (y - 1) / 400 + if y % 400 == 0 then 1 else 0
    ensures y % 400 == 0 ==> y % 100 == 0
    ensures y % 100 == 0 ==> y % 4 == 0
  {
  }

  /** The days in the years from 1 to `p`, in closed form. */
  lemma {:induction false} ClosedForm(p: nat)
    ensures FirstDay(p + 1) == 365 * p + p / 4 - p / 100 + p / 400
    decreases p
  {
    if p == 0 {
    } else {
      ClosedForm(p - 1);
      Steps(p);
    }
  }

  /** Monday is 0. */
  function Weekday(day: int): nat { day % 7 }

  const THURSDAY := 3

  function ThursdayOfWeek(day: int): int { day - Weekday(day) + THURSDAY }

  predicate InYear(day: int, y: int) { FirstDay(y) <= day < FirstDay(y + 1) }

  lemma {:induction false} YearsInOrder(y: int, z: int)
    requires y <= z
    ensures FirstDay(y) + 365 * (z - y) <= FirstDay(z)
    decreases z - y
  {
    if y == z {
    } else {
      YearsInOrder(y, z - 1);
      YearLength(z - 1);
    }
  }

  /** A day lies in one year. */
  lemma OneYear(day: int, y: int, z: int)
    requires InYear(day, y) && InYear(day, z)
    ensures y == z
  {
    if y < z { YearsInOrder(y + 1, z); }
    if z < y { YearsInOrder(z + 1, y); }
  }

  /** The Thursdays among the days from `lo` up to `hi`. */
  function Thursdays(lo: int, hi: int): nat
    decreases hi - lo
  {
    if hi <= lo then 0 else Thursdays(lo, hi - 1) + if Weekday(hi - 1) == THURSDAY then 1 else 0
  }

  lemma {:induction false} ThursdayCount(lo: int, hi: int)
    requires lo <= hi
    ensures Thursdays(lo, hi) == (hi + 3) / 7 - (lo + 3) / 7
    decreases hi - lo
  {
    if lo == hi {
    } else {
      ThursdayCount(lo, hi - 1);
    }
  }

  /** A year of 53 weeks starts on a Thursday, or on a Wednesday if it is a leap year. */
  predicate Long(y: int) {
    var first := Weekday(FirstDay(y));
    first == 3 || (first == 2 && Leap(y))
  }

  function TrueWeeks(y: int): nat { if Long(y) then 53 else 52 }

  lemma ThursdaysByStart(first: int, length: int)
    requires length == 365 || length == 366
    ensures (first + length + 3) / 7 - (first + 3) / 7
              == (if first % 7 == 3 || (first % 7 == 2 && length == 366) then 53 else 52)
  {
    var q, r := first / 7, first % 7;
    assert first == 7 * q + r;
  }

  lemma LongYears(y: int)
    ensures Thursdays(FirstDay(y), FirstDay(y + 1)) == TrueWeeks(y)
  {
    YearLength(y);
    ThursdayCount(FirstDay(y), FirstDay(y + 1));
    ThursdaysByStart(FirstDay(y), DaysIn(y));
  }

  // ---------------------------------------------------------------- the program's formulas

  /** Division that truncates toward zero, and its remainder. */
  function Quot(a: int, b: nat): int
    requires 0 < b
  {
    if a >= 0 then a / b else -((-a) / b)
  }

  function Rem(a: int, b: nat): int
    requires 0 < b
  {
    a - b * Quot(a, b)
  }

  function P(y: int): int { Rem(y + Quot(y, 4) - Quot(y, 100) + Quot(y, 400), 7) }

  function IsoYearWeeks(y: int): int { 52 + if P(y) == 4 || P(y - 1) == 3 then 1 else 0 }

  /** A broken-down date: day of the year from 0, weekday from 0 for Sunday. */
  datatype Tm = Tm(year: int, yday: int, wday: int)

  function IsoWeekNum(t: Tm): int { Quot(t.yday + 11 - (if t.wday == 0 then 7 else t.wday), 7) }

  /** A week number below 1 or above the weeks of the year belongs to a neighbour. */
  function WeekYear(year: int, w: int, weeks: int): int {
    if w < 1 then year - 1 else if w > weeks then year + 1 else year
  }

  function WeekOfYear(w: int, weeks: int, weeksBefore: int): int {
    if w < 1 then weeksBefore else if w > weeks then 1 else w
  }

  function IsoWeekYear(t: Tm): int { WeekYear(t.year, IsoWeekNum(t), IsoYearWeeks(t.year)) }

  function IsoWeekOfYear(t: Tm): int {
    WeekOfYear(IsoWeekNum(t), IsoYearWeeks(t.year), IsoYearWeeks(t.year - 1))
  }

  function DayOf(t: Tm): int { FirstDay(t.year) + t.yday }

  predicate Consistent(t: Tm) { 0 <= t.yday < DaysIn(t.year) && t.wday == (Weekday(DayOf(t)) + 1) % 7 }

  // ---------------------------------------------------------------- weeks in a year

  lemma MultipleOfSeven(k: int, p: int)
    ensures (7 * k + p) % 7 == p % 7
  {
  }

  /** From year 0 on `P` is the weekday of the next first of January. */
  lemma PIsWeekday(y: int)
    requires y >= 0
    ensures P(y) == Weekday(FirstDay(y + 1))
  {
    var p := y + y / 4 - y / 100 + y / 400;
    ClosedForm(y);
    assert Quot(y, 4) == y / 4 && Quot(y, 100) == y / 100 && Quot(y, 400) == y / 400;
    assert p >= 0;
    MultipleOfSeven(52 * y, p);
    assert FirstDay(y + 1) == 7 * (52 * y) + p;
    assert P(y) == Rem(p, 7) == p % 7;
  }

  lemma LongByEnds(first: int, length: int)
    requires length == 365 || length == 366
    ensures (first % 7 == 3 || (first % 7 == 2 && length == 366)) <==> (first % 7 == 3 || (first + length) % 7 == 4)
  {
  }

  lemma NegativeP(y: int)
    requires y < 0
    ensures P(y) <= 0
  {
  }

  lemma LongByP(y: int)
    requires y > 0
    ensures Long(y) <==> P(y) == 4 || P(y - 1) == 3
  {
    YearLength(y);
    LongByEnds(FirstDay(y), DaysIn(y));
    PIsWeekday(y);
    PIsWeekday(y - 1);
  }

  lemma QuotSmall(a: int, b: nat)
    requires 0 < b && 0 - b < a < b
    ensures Quot(a, b) == 0
  {
  }

  /** Year 0, which the program also gets right, starts on a Saturday. */
  lemma YearZeroStart()
    ensures FirstDay(0) == -366 && Weekday(FirstDay(0)) == 5
  {
  }

  lemma PNearZero(y: int)
    requires -4 < y < 4
    ensures P(y) == y
  {
    QuotSmall(y, 4);
    QuotSmall(y, 100);
    QuotSmall(y, 400);
    QuotSmall(y, 7);
  }

  lemma WeeksNegative(y: int)
    requires y < 0
    ensures IsoYearWeeks(y) == 52
  {
    NegativeP(y);
    NegativeP(y - 1);
  }

  lemma WeeksNearZero(y: int)
    requires -3 < y < 4
    ensures IsoYearWeeks(y) == 52
  {
    PNearZero(y);
    PNearZero(y - 1);
  }

  lemma WeeksPositive(y: int)
    requires y > 0
    ensures IsoYearWeeks(y) == TrueWeeks(y)
  {
    LongByP(y);
  }

  /** From year 0 on the number of weeks is the number of Thursdays; before, it is 52 for every year. */
  lemma WeeksAreThursdays(y: int)
    ensures Thursdays(FirstDay(y), FirstDay(y + 1)) == TrueWeeks(y)
    ensures IsoYearWeeks(y) == if y < 0 then 52 else TrueWeeks(y)
  {
    LongYears(y);
    if y < 0 {
      WeeksNegative(y);
    } else if y == 0 {
      WeeksNearZero(y);
      YearZeroStart();
    } else {
      WeeksPositive(y);
    }
  }

  // ---------------------------------------------------------------- the week of a date

  /** The week year holds the Thursday of the date's week, and the week is counted from its first Thursday. */
  predicate IsWeekOf(t: Tm, year: int, week: int) {
    var th := ThursdayOfWeek(DayOf(t));
    InYear(th, year) && week == (th - FirstDay(year)) / 7 + 1
  }

  /** The week number before it is corrected, from the Thursday. */
  lemma WeekFromThursday(t: Tm)
    requires Consistent(t)
    ensures var th, first := ThursdayOfWeek(DayOf(t)), FirstDay(t.year);
            && -3 <= th - first < DaysIn(t.year) + 3
            && IsoWeekNum(t) == if th < first then 0 else (th - first) / 7 + 1
  {
    var wd := Weekday(DayOf(t));
    assert t.wday == if wd == 6 then 0 else wd + 1;
    assert IsoWeekNum(t) == (t.yday + 10 - wd) / 7;
  }

  /** The Thursdays of a year are numbered up to 52 or 53, and the last one has that number. */
  lemma ThursdayWithin(first: int, length: int, th: int)
    requires (length == 365 || length == 366) && first <= th < first + length && Weekday(th) == THURSDAY
    ensures var last := if first % 7 == 3 || (first % 7 == 2 && length == 366) then 53 else 52;
            var week := (th - first) / 7 + 1;
            week <= last && (th + 7 >= first + length ==> week == last)
  {
    var k, q, r := th / 7, first / 7, first % 7;
    assert th == 7 * k + 3 && first == 7 * q + r;
    if r <= 3 {
      assert (th - first) / 7 == k - q;
    } else {
      assert (th - first) / 7 == k - q - 1;
    }
  }

  /** Whether the program corrects the week number with the length of a long year before year 0, which it takes to have
      52 weeks. */
  predicate Misjudged(t: Tm) {
    var w := IsoWeekNum(t);
    (w < 1 && t.year - 1 < 0 && Long(t.year - 1)) || (w == 53 && t.year < 0 && Long(t.year))
  }

  lemma BeforeTheYear(t: Tm)
    requires Consistent(t) && ThursdayOfWeek(DayOf(t)) < FirstDay(t.year)
    ensures IsoWeekNum(t) == 0 && IsWeekOf(t, t.year - 1, if Long(t.year - 1) then 53 else 52)
  {
    var y, th := t.year, ThursdayOfWeek(DayOf(t));
    WeekFromThursday(t);
    YearLength(y - 1);
    ThursdayWithin(FirstDay(y - 1), DaysIn(y - 1), th);
  }

  lemma WithinTheYear(t: Tm)
    requires Consistent(t) && FirstDay(t.year) <= ThursdayOfWeek(DayOf(t)) < FirstDay(t.year + 1)
    ensures IsWeekOf(t, t.year, IsoWeekNum(t)) && 1 <= IsoWeekNum(t) <= if Long(t.year) then 53 else 52
  {
    YearLength(t.year);
    WeekFromThursday(t);
    ThursdayWithin(FirstDay(t.year), DaysIn(t.year), ThursdayOfWeek(DayOf(t)));
  }

  lemma AfterTheYear(t: Tm)
    requires Consistent(t) && FirstDay(t.year + 1) <= ThursdayOfWeek(DayOf(t))
    ensures IsWeekOf(t, t.year + 1, 1) && IsoWeekNum(t) == 53 && !Long(t.year)
  {
    var y, th := t.year, ThursdayOfWeek(DayOf(t));
    YearLength(y);
    YearLength(y + 1);
    WeekFromThursday(t);
  }

  /** The corrections, for any idea of the weeks of this year and the one before that takes long years for short ones
      at worst. */
  lemma CorrectedWeek(t: Tm, weeks: int, weeksBefore: int)
    requires Consistent(t) && 52 <= weeks <= TrueWeeks(t.year) && 52 <= weeksBefore <= TrueWeeks(t.year - 1)
    ensures var w := IsoWeekNum(t);
            IsWeekOf(t, WeekYear(t.year, w, weeks), WeekOfYear(w, weeks, weeksBefore)) <==>
              !(w < 1 && weeksBefore < TrueWeeks(t.year - 1)) && !(w == 53 && weeks < TrueWeeks(t.year))
  {
    var y, th := t.year, ThursdayOfWeek(DayOf(t));
    if th < FirstDay(y) {
      BeforeTheYear(t);
    } else if th < FirstDay(y + 1) {
      WithinTheYear(t);
      if IsoWeekNum(t) > weeks && InYear(th, y + 1) { OneYear(th, y, y + 1); }
    } else {
      AfterTheYear(t);
    }
  }

  /** For every date the week year and the week are those of the Thursday of its week, unless a long year before year 0
      is misjudged. */
  lemma WeekIsThursdays(t: Tm)
    requires Consistent(t)
    ensures IsWeekOf(t, IsoWeekYear(t), IsoWeekOfYear(t)) <==> !Misjudged(t)
  {
    WeeksAreThursdays(t.year);
    WeeksAreThursdays(t.year - 1);
    CorrectedWeek(t, IsoYearWeeks(t.year), IsoYearWeeks(t.year - 1));
  }

  /** In particular for every date from year 0 on. */
  lemma RightFromYearZero(t: Tm)
    requires Consistent(t) && t.year >= 0
    ensures IsWeekOf(t, IsoWeekYear(t), IsoWeekOfYear(t))
  {
    WeekIsThursdays(t);
    assert FirstDay(0) == -366 && FirstDay(-1) == -731;
  }

  /** The first of January of year -1, a Friday, is in week 53 of year -2; the program says week 52. */
  lemma WrongBeforeYearZero()
    ensures var t := Tm(-1, 0, 5); Consistent(t) && IsoWeekOfYear(t) == 52 && IsWeekOf(t, -2, 53)
  {
    assert FirstDay(0) == -366 && FirstDay(-1) == -731 && FirstDay(-2) == -1096;
    NegativeP(-2);
    NegativeP(-3);
  }
}
