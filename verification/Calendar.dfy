/**
 The calendar behind CalculateNextPeriod of internal/billing/domain/service.go: Go's AddDate in UTC.

 AddDate adds to the year and month, keeps the day of the month, and lets a day that the new month does not have run
 over into the month after it.
 */
module Calendar {

  datatype Date = Date(year: int, month: int, day: int)

  predicate Leap(year: int) { year % 4 == 0 && (year % 100 != 0 || year % 400 == 0) }

  function DaysIn(year: int, month: int): int {
    if month == 2 then (if Leap(year) then 29 else 28)
    else if month == 4 || month == 6 || month == 9 || month == 11 then 30
    else 31
  }

  predicate Valid(t: Date) {
    1 <= t.month <= 12 && 1 <= t.day <= DaysIn(t.year, t.month)
  }

  /** Months counted from January of year 0. */
  function MonthIndex(t: Date): int { 12 * t.year + t.month - 1 }

  function LengthOf(index: int): int { DaysIn(index / 12, index % 12 + 1) }

  /** Go's time.Date for a month index and a day: days outside the month run into its neighbours. */
  function FromMonth(index: int, day: int): Date
    decreases day < 1, if day < 1 then -day else day
  {
    if day < 1 then FromMonth(index - 1, day + LengthOf(index - 1))
    else if day > LengthOf(index) then FromMonth(index + 1, day - LengthOf(index))
    else Date(index / 12, index % 12 + 1, day)
  }

  function AddDate(t: Date, years: int, months: int): Date {
    FromMonth(MonthIndex(t) + 12 * years + months, t.day)
  }

  /** `interval` is the plan's; everything but "year" is a month. */
  function Next(t: Date, interval: string): Date {
    if interval == "year" then AddDate(t, 1, 0) else AddDate(t, 0, 1)
  }

  // --- Days ------------------------------------------------------------------------------------

  /** Days from the first of January of year 0 to the first of a month, counted month by month. */
  function MonthStart(index: int): int
    decreases if index < 0 then -index else index
  {
    if index == 0 then 0
    else if index > 0 then MonthStart(index - 1) + LengthOf(index - 1)
    else MonthStart(index + 1) - LengthOf(index)
  }

  function DayNumber(t: Date): int { MonthStart(MonthIndex(t)) + t.day - 1 }

  lemma {:induction false} MonthLength(index: int)
    ensures MonthStart(index + 1) == MonthStart(index) + LengthOf(index)
    ensures 28 <= LengthOf(index) <= 31
  {
  }

  lemma {:induction false} MonthsGrow(i: int, j: int)
    requires i <= j
    ensures MonthStart(i) + 28 * (j - i) <= MonthStart(j)
    decreases j - i
  {
    if i < j {
      MonthLength(j - 1);
      MonthsGrow(i, j - 1);
    }
  }

  lemma {:induction false} DateOfIndex(t: Date)
    requires Valid(t)
    ensures MonthIndex(t) / 12 == t.year && MonthIndex(t) % 12 + 1 == t.month
    ensures LengthOf(MonthIndex(t)) == DaysIn(t.year, t.month)
  {
  }

  // --- The closed form ----------------------------------------------------------------------------

  function DaysBeforeYear(year: int): int {
    365 * year + (year + 3) / 4 - (year + 99) / 100 + (year + 399) / 400
  }

  function DaysBeforeMonth(year: int, month: int): int {
    (if month > 2 && Leap(year) then 1 else 0) +
    (match month
     case 2 => 31 case 3 => 59 case 4 => 90 case 5 => 120 case 6 => 151 case 7 => 181
     case 8 => 212 case 9 => 243 case 10 => 273 case 11 => 304 case 12 => 334 case _ => 0)
  }

  /** The days counted month by month are the usual closed form, over all years. */
  lemma {:induction false} ClosedForm(year: int, month: int)
    requires 1 <= month <= 12
    ensures MonthStart(12 * year + month - 1) == DaysBeforeYear(year) + DaysBeforeMonth(year, month)
  {
    YearStart(year);
    MonthOfYear(year, month);
  }

  lemma {:induction false} MonthOfYear(year: int, month: int)
    requires 1 <= month <= 12
    ensures MonthStart(12 * year + month - 1) == MonthStart(12 * year) + DaysBeforeMonth(year, month)
  {
    if month > 1 {
      MonthOfYear(year, month - 1);
      MonthLength(12 * year + month - 2);
      assert (12 * year + month - 2) / 12 == year && (12 * year + month - 2) % 12 == month - 2;
    }
  }

  lemma {:induction false} YearSpan(year: int)
    ensures MonthStart(12 * (year + 1)) == MonthStart(12 * year) + if Leap(year) then 366 else 365
  {
    MonthOfYear(year, 12);
    MonthLength(12 * year + 11);
    assert (12 * year + 11) / 12 == year && (12 * year + 11) % 12 == 11;
  }

  lemma {:induction false} TwelveMonths(year: int, month: int)
    requires 1 <= month <= 12
    ensures MonthStart(12 * year + month - 1 + 12)
      == MonthStart(12 * year + month - 1) + if Leap(if month <= 2 then year else year + 1) then 366 else 365
  {
    MonthOfYear(year, month);
    MonthOfYear(year + 1, month);
    YearSpan(year);
  }

  lemma {:induction false} YearStart(year: int)
    ensures MonthStart(12 * year) == DaysBeforeYear(year)
    decreases if year < 0 then -year else year
  {
    if year > 0 {
      YearStart(year - 1);
      YearSpan(year - 1);
      YearLength(year - 1);
    } else if year < 0 {
      YearStart(year + 1);
      YearSpan(year);
      YearLength(year);
    }
  }

  lemma {:induction false} FourYears(x: int)
    ensures (x + 4) / 4 == (x + 3) / 4 + if x % 4 == 0 then 1 else 0
  {
  }

  lemma {:induction false} HundredYears(x: int)
    ensures (x + 100) / 100 == (x + 99) / 100 + if x % 100 == 0 then 1 else 0
  {
  }

  lemma {:induction false} FourHundredYears(x: int)
    ensures (x + 400) / 400 == (x + 399) / 400 + if x % 400 == 0 then 1 else 0
  {
  }

  lemma {:induction false} Multiples(year: int)
    ensures year % 400 == 0 ==> year % 100 == 0
    ensures year % 100 == 0 ==> year % 4 == 0
  {
  }

  lemma {:induction false} YearLength(year: int)
    ensures DaysBeforeYear(year + 1) == DaysBeforeYear(year) + if Leap(year) then 366 else 365
  {
    FourYears(year);
    HundredYears(year);
    FourHundredYears(year);
    Multiples(year);
  }

  // --- Order ---------------------------------------------------------------------------------------

  predicate Before(a: Date, b: Date) {
    a.year < b.year || (a.year == b.year && (a.month < b.month || (a.month == b.month && a.day < b.day)))
  }

  /** The day number orders valid dates as the calendar does; in particular no two of them share one. */
  lemma {:induction false} DayNumberOrders(a: Date, b: Date)
    requires Valid(a) && Valid(b)
    ensures DayNumber(a) < DayNumber(b) <==> Before(a, b)
    ensures DayNumber(a) == DayNumber(b) <==> a == b
  {
    DateOfIndex(a);
    DateOfIndex(b);
    if MonthIndex(a) < MonthIndex(b) {
      MonthLength(MonthIndex(a));
      MonthsGrow(MonthIndex(a) + 1, MonthIndex(b));
    } else if MonthIndex(b) < MonthIndex(a) {
      MonthLength(MonthIndex(b));
      MonthsGrow(MonthIndex(b) + 1, MonthIndex(a));
    }
  }

  /** Normalisation keeps the day: the result is the one valid date that many days after the first of the month. */
  lemma {:induction false} FromMonthIsTheDay(index: int, day: int, t: Date)
    ensures Valid(FromMonth(index, day))
    ensures DayNumber(FromMonth(index, day)) == MonthStart(index) + day - 1
    ensures Valid(t) && DayNumber(t) == MonthStart(index) + day - 1 ==> t == FromMonth(index, day)
    decreases day < 1, if day < 1 then -day else day
  {
    MonthLength(index);
    MonthLength(index - 1);
    if day < 1 {
      FromMonthIsTheDay(index - 1, day + LengthOf(index - 1), t);
    } else if day > LengthOf(index) {
      FromMonthIsTheDay(index + 1, day - LengthOf(index), t);
    } else {
      var r := FromMonth(index, day);
      assert r.day <= DaysIn(r.year, r.month);
      if Valid(t) { DayNumberOrders(t, r); }
    }
  }

  // --- Renewal steps ----------------------------------------------------------------------------

  /** A monthly step advances by exactly the length of the month it starts in. */
  lemma {:induction false} MonthlyStep(t: Date)
    ensures Valid(AddDate(t, 0, 1))
    ensures DayNumber(AddDate(t, 0, 1)) == DayNumber(t) + LengthOf(MonthIndex(t))
    ensures 28 <= LengthOf(MonthIndex(t)) <= 31
    ensures Valid(t) ==> LengthOf(MonthIndex(t)) == DaysIn(t.year, t.month)
  {
    MonthLength(MonthIndex(t));
    FromMonthIsTheDay(MonthIndex(t) + 1, t.day, t);
    if Valid(t) { DateOfIndex(t); }
  }

  /** A yearly step advances by 365 days, or by 366 if a leap day lies ahead of the first of the month. */
  lemma {:induction false} YearlyStep(t: Date)
    requires 1 <= t.month <= 12
    ensures Valid(AddDate(t, 1, 0))
    ensures DayNumber(AddDate(t, 1, 0)) == DayNumber(t) + if Leap(if t.month <= 2 then t.year else t.year + 1) then 366 else 365
  {
    FromMonthIsTheDay(MonthIndex(t) + 12, t.day, t);
    TwelveMonths(t.year, t.month);
  }

  /** Where a step lands: on the same day of the target month if it has one, else early in the month after. */
  lemma {:induction false} Landing(index: int, day: int)
    requires 1 <= day <= 31
    ensures var r := FromMonth(index, day);
      && (r.day == day <==> day <= LengthOf(index))
      && (r.day == day ==> MonthIndex(r) == index)
      && (r.day != day ==> MonthIndex(r) == index + 1 && r.day == day - LengthOf(index) && r.day <= 3)
  {
  }

  /** The dates of successive renewals, the interval of each being whatever the plan says at the time. */
  function Renewals(t: Date, intervals: seq<string>): Date {
    if intervals == [] then t
    else Next(Renewals(t, intervals[..|intervals| - 1]), intervals[|intervals| - 1])
  }

  /** Any twelve consecutive months are 365 or 366 days long. */
  lemma {:induction false} YearFromAnyMonth(index: int)
    ensures 365 <= MonthStart(index + 12) - MonthStart(index) <= 366
  {
    TwelveMonths(index / 12, index % 12 + 1);
  }

  lemma {:induction false} NextGrows(t: Date, interval: string)
    ensures Valid(Next(t, interval))
    ensures DayNumber(t) + 28 <= DayNumber(Next(t, interval)) <= DayNumber(t) + 366
  {
    MonthlyStep(t);
    YearFromAnyMonth(MonthIndex(t));
    FromMonthIsTheDay(MonthIndex(t) + 12, t.day, t);
  }

  lemma {:induction false} NextDay(t: Date, interval: string)
    requires Valid(t)
    ensures Valid(Next(t, interval))
    ensures Next(t, interval).day == t.day || Next(t, interval).day <= 3
    ensures t.day <= 28 ==> Next(t, interval).day == t.day
  {
    NextGrows(t, interval);
    var index := if interval == "year" then MonthIndex(t) + 12 else MonthIndex(t) + 1;
    assert Next(t, interval) == FromMonth(index, t.day);
    Landing(index, t.day);
    MonthLength(index);
  }

  /**
   Where a renewal lands: a year ahead if the plan's interval is "year", else a month ahead, on the same day if that month
   has it, else as many days into the month after as are left over.
   */
  lemma {:induction false} NextExact(t: Date, interval: string)
    requires Valid(t)
    ensures var year := if interval == "year" || t.month == 12 then t.year + 1 else t.year;
      var month := if interval == "year" then t.month else if t.month == 12 then 1 else t.month + 1;
      Next(t, interval) ==
        if t.day <= DaysIn(year, month) then Date(year, month, t.day)
        else Date(if month == 12 then year + 1 else year, if month == 12 then 1 else month + 1, t.day - DaysIn(year, month))
  {
    var year := if interval == "year" || t.month == 12 then t.year + 1 else t.year;
    var month := if interval == "year" then t.month else if t.month == 12 then 1 else t.month + 1;
    assert Next(t, interval) == FromMonth(12 * year + month - 1, t.day);
    LandsOn(year, month, t.day);
  }

  lemma {:induction false} LandsOn(year: int, month: int, day: int)
    requires 1 <= month <= 12 && 1 <= day <= 31
    ensures FromMonth(12 * year + month - 1, day) ==
      if day <= DaysIn(year, month) then Date(year, month, day)
      else Date(if month == 12 then year + 1 else year, if month == 12 then 1 else month + 1, day - DaysIn(year, month))
  {
    var index := 12 * year + month - 1;
    var after := Date(if month == 12 then year + 1 else year, if month == 12 then 1 else month + 1, 1);
    DateOfIndex(Date(year, month, 1));
    DateOfIndex(after);
    assert MonthIndex(after) == index + 1;
    MonthLength(index);
    MonthLength(index + 1);
    if day > DaysIn(year, month) {
      var left := day - DaysIn(year, month);
      assert FromMonth(index, day) == FromMonth(index + 1, left);
      assert FromMonth(index + 1, left) == Date(after.year, after.month, left);
    }
  }

  /**
   Over any renewals the day of the month changes at most once: once it differs from the day of the start it is at most
   3 and stays what it is, and it never changes if the start is at most the 28th.
   */
  lemma {:induction false} DayOfMonthChangesOnce(t: Date, intervals: seq<string>, i: nat)
    requires Valid(t) && i <= |intervals|
    ensures Valid(Renewals(t, intervals))
    ensures var early, late := Renewals(t, intervals[..i]).day, Renewals(t, intervals).day;
      && (early != t.day ==> early <= 3 && late == early)
      && (t.day <= 28 ==> late == t.day)
    decreases |intervals|
  {
    if i == |intervals| {
      assert intervals[..i] == intervals;
      if intervals != [] {
        var init := intervals[..i - 1];
        DayOfMonthChangesOnce(t, init, i - 1);
        assert init[..i - 1] == init;
        NextDay(Renewals(t, init), intervals[i - 1]);
      }
    } else {
      var init := intervals[..|intervals| - 1];
      DayOfMonthChangesOnce(t, init, i);
      assert init[..i] == intervals[..i];
      NextDay(Renewals(t, init), intervals[|intervals| - 1]);
    }
  }

  /** It does change: a renewal on the 31st of January bills next on the 3rd of March, or the 2nd in leap years. */
  lemma {:induction false} EndOfJanuarySkipsFebruary(year: int)
    ensures Next(Date(year, 1, 31), "month") == Date(year, 3, if Leap(year) then 2 else 3)
  {
  }

  function Months(n: nat): (s: seq<string>)
    ensures |s| == n && forall i | 0 <= i < n :: s[i] == "month"
  {
    seq(n, i => "month")
  }

  lemma {:induction false} MonthsForward(t: Date, n: nat)
    requires Valid(t) && t.day <= 28
    ensures MonthIndex(Renewals(t, Months(n))) == MonthIndex(t) + n && Renewals(t, Months(n)).day == t.day
    ensures Valid(Renewals(t, Months(n)))
  {
    if n > 0 {
      MonthsForward(t, n - 1);
      assert Months(n)[..n - 1] == Months(n - 1);
      var prev := Renewals(t, Months(n - 1));
      Landing(MonthIndex(prev) + 1, prev.day);
      MonthLength(MonthIndex(prev) + 1);
      NextGrows(prev, "month");
    }
  }

  /** Twelve monthly renewals from a day up to the 28th are one yearly renewal. */
  lemma {:induction false} TwelveMonthsAreAYear(t: Date)
    requires Valid(t) && t.day <= 28
    ensures Renewals(t, Months(12)) == AddDate(t, 1, 0)
  {
    MonthsForward(t, 12);
    YearlyStep(t);
    var r, y := Renewals(t, Months(12)), AddDate(t, 1, 0);
    Landing(MonthIndex(t) + 12, t.day);
    MonthLength(MonthIndex(t) + 12);
    DateOfIndex(r);
    DateOfIndex(y);
  }
}
