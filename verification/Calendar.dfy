/** The proleptic Gregorian calendar the billing periods are computed on.
    Instants count nanoseconds from 0000-01-01T00:00:00Z; only their order and their
    differences matter, so the choice of origin does not. */
module Calendar {
  import opened Measures

  /** The first instant of day `n` (a day is 86 400 s of 10^9 ns). */
  function DayStart(n: int): int { n * 86_400_000_000_000 }

  function DayOf(t: nat): nat { t / 86_400_000_000_000 }

  function TimeOfDay(t: nat): nat { t % 86_400_000_000_000 }

  datatype Date = Date(year: nat, month: nat, day: nat) {
    predicate Valid() {
      1 <= month <= 12 && 1 <= day <= DaysInMonth(year, month)
    }
  }

  datatype Cadence = Weekly | Monthly | Annual

  predicate IsLeap(y: nat) {
    y % 4 == 0 && (y % 100 != 0 || y % 400 == 0)
  }

  function DaysInYear(y: nat): (n: nat)
  {
    if IsLeap(y) then 366 else 365
  }

  function DaysInMonth(y: nat, m: nat): (n: nat)
    requires 1 <= m <= 12
  {
    if m == 2 then (if IsLeap(y) then 29 else 28)
    else if m == 4 || m == 6 || m == 9 || m == 11 then 30
    else 31
  }

  function DaysBeforeYear(y: nat): nat {
    if y == 0 then 0 else DaysBeforeYear(y - 1) + DaysInYear(y - 1)
  }

  function DaysBeforeMonth(y: nat, m: nat): nat
    requires 1 <= m <= 13
  {
    if m == 1 then 0 else DaysBeforeMonth(y, m - 1) + DaysInMonth(y, m - 1)
  }

  /** Days from 0000-01-01 to `d`. */
  function DayNumber(d: Date): nat
    requires d.Valid()
  {
    DaysBeforeYear(d.year) + DaysBeforeMonth(d.year, d.month) + d.day - 1
  }

  /** Calendar order, field by field. */
  predicate Earlier(a: Date, b: Date) {
    a.year < b.year
    || (a.year == b.year && (a.month < b.month || (a.month == b.month && a.day < b.day)))
  }

  /** Thirty days hath September. */
  lemma MonthLengths(d: Date)
    ensures d.Valid() <==>
              1 <= d.day && ((d.month in {1, 3, 5, 7, 8, 10, 12} && d.day <= 31)
                             || (d.month in {4, 6, 9, 11} && d.day <= 30)
                             || (d.month == 2 && d.day <= if IsLeap(d.year) then 29 else 28))
  {
  }

  lemma LeapYears(y: nat)
    ensures DaysInYear(y) == 366 <==> y % 400 == 0 || (y % 4 == 0 && y % 100 != 0)
    ensures DaysInYear(y) == 365 || DaysInYear(y) == 366
  {
    if y % 400 == 0 { MultiplesOfFour(y, y / 400 * 4); }
  }

  // ---- day counts and dates are the same order ----------------------------------

  lemma {:induction false} YearIsSumOfMonths(y: nat)
    ensures DaysBeforeMonth(y, 13) == DaysInYear(y)
  {
    assert DaysBeforeMonth(y, 2) == 31;
    assert DaysBeforeMonth(y, 3) == 31 + DaysInMonth(y, 2);
    assert DaysBeforeMonth(y, 5) == DaysBeforeMonth(y, 3) + 61;
    assert DaysBeforeMonth(y, 7) == DaysBeforeMonth(y, 5) + 61;
    assert DaysBeforeMonth(y, 9) == DaysBeforeMonth(y, 7) + 62;
    assert DaysBeforeMonth(y, 11) == DaysBeforeMonth(y, 9) + 61;
    assert DaysBeforeMonth(y, 13) == DaysBeforeMonth(y, 11) + 61;
  }

  lemma {:induction false} MonthsMonotone(y: nat, m: nat, n: nat)
    requires 1 <= m <= n <= 13
    ensures DaysBeforeMonth(y, m) <= DaysBeforeMonth(y, n)
    decreases n - m
  {
    if m < n { MonthsMonotone(y, m, n - 1); }
  }

  lemma {:induction false} YearsMonotone(a: nat, b: nat)
    requires a <= b
    ensures DaysBeforeYear(a) <= DaysBeforeYear(b)
    decreases b - a
  {
    if a < b { YearsMonotone(a, b - 1); }
  }

  lemma FourthYears(z: nat)
    ensures (z + 4) / 4 == (z + 3) / 4 + (if z % 4 == 0 then 1 else 0)
  {
  }

  lemma Centuries(z: nat)
    ensures (z + 100) / 100 == (z + 99) / 100 + (if z % 100 == 0 then 1 else 0)
  {
  }

  lemma FourthCenturies(z: nat)
    ensures (z + 400) / 400 == (z + 399) / 400 + (if z % 400 == 0 then 1 else 0)
  {
  }

  lemma MultiplesOfFour(z: nat, m: nat)
    requires z == m * 100
    ensures z % 4 == 0
  {
    assert z == (m * 25) * 4;
  }

  lemma MultiplesOfHundred(z: nat, m: nat)
    requires z == m * 400
    ensures z % 100 == 0
  {
    assert z == (m * 4) * 100;
  }

  lemma LeapDays(z: nat)
    ensures DaysInYear(z) == 365 + (if z % 4 == 0 then 1 else 0) - (if z % 100 == 0 then 1 else 0)
                                 + (if z % 400 == 0 then 1 else 0)
  {
    if z % 400 == 0 { MultiplesOfHundred(z, z / 400); }
    if z % 100 == 0 { MultiplesOfFour(z, z / 100); }
  }

  /** The Gregorian rule in closed form: a leap day every fourth year but for centuries not
      divisible by 400. */
  lemma {:induction false} YearsInClosedForm(y: nat)
    ensures DaysBeforeYear(y) == 365 * y + (y + 3) / 4 - (y + 99) / 100 + (y + 399) / 400
  {
    if y > 0 {
      var z := y - 1;
      YearsInClosedForm(z);
      FourthYears(z);
      Centuries(z);
      FourthCenturies(z);
      LeapDays(z);
    }
  }

  lemma DayNumberInYear(d: Date)
    requires d.Valid()
    ensures DaysBeforeYear(d.year) <= DayNumber(d) < DaysBeforeYear(d.year + 1)
  {
    MonthsMonotone(d.year, d.month + 1, 13);
    YearIsSumOfMonths(d.year);
  }

  lemma EarlierMeansFewerDays(a: Date, b: Date)
    requires a.Valid() && b.Valid() && Earlier(a, b)
    ensures DayNumber(a) < DayNumber(b)
  {
    if a.year < b.year {
      DayNumberInYear(a);
      DayNumberInYear(b);
      YearsMonotone(a.year + 1, b.year);
    } else if a.month < b.month {
      MonthsMonotone(a.year, a.month + 1, b.month);
    }
  }

  /** Counting days is an order isomorphism from calendar dates. */
  lemma DayNumberOrder(a: Date, b: Date)
    requires a.Valid() && b.Valid()
    ensures DayNumber(a) < DayNumber(b) <==> Earlier(a, b)
    ensures DayNumber(a) == DayNumber(b) <==> a == b
  {
    if Earlier(a, b) {
      EarlierMeansFewerDays(a, b);
    } else if Earlier(b, a) {
      EarlierMeansFewerDays(b, a);
    }
  }

  // ---- dates from day counts -----------------------------------------------------

  function YearFrom(n: nat, y: nat): (r: nat)
    requires DaysBeforeYear(y) <= n
    ensures y <= r && DaysBeforeYear(r) <= n < DaysBeforeYear(r + 1)
    decreases n - DaysBeforeYear(y)
  {
    if n < DaysBeforeYear(y + 1) then y else YearFrom(n, y + 1)
  }

  function MonthFrom(y: nat, rest: nat, m: nat): (r: nat)
    requires 1 <= m <= 12 && DaysBeforeMonth(y, m) <= rest < DaysBeforeMonth(y, 13)
    ensures m <= r <= 12 && DaysBeforeMonth(y, r) <= rest < DaysBeforeMonth(y, r + 1)
    decreases 12 - m
  {
    if rest < DaysBeforeMonth(y, m + 1) then m else MonthFrom(y, rest, m + 1)
  }

  /** The date `n` days after 0000-01-01. */
  function DateOf(n: nat): (d: Date)
    ensures d.Valid() && DayNumber(d) == n
  {
    var y := YearFrom(n, 0);
    YearIsSumOfMonths(y);
    var rest := n - DaysBeforeYear(y);
    var m := MonthFrom(y, rest, 1);
    Date(y, m, rest - DaysBeforeMonth(y, m) + 1)
  }

  lemma DateOfDayNumber(d: Date)
    requires d.Valid()
    ensures DateOf(DayNumber(d)) == d
  {
    DayNumberOrder(DateOf(DayNumber(d)), d);
  }

  // ---- month arithmetic with month-end clamping ----------------------------------

  /** `d` moved `k` months forward, its day clamped to the target month's last day. */
  function AddMonths(d: Date, k: nat): (r: Date)
    requires d.Valid()
    ensures r.Valid()
  {
    var idx := d.year * 12 + (d.month - 1) + k;
    var y, m := idx / 12, idx % 12 + 1;
    Date(y, m, Min(d.day, DaysInMonth(y, m)))
  }

  /** The next billing anchor. */
  function PeriodAdvance(start: nat, cadence: Cadence): nat {
    match cadence
    case Weekly => start + DayStart(7)
    case Monthly => AdvanceMonths(start, 1)
    case Annual => AdvanceMonths(start, 12)
  }

  function AdvanceMonths(start: nat, k: nat): nat {
    DayStart(DayNumber(AddMonths(DateOf(DayOf(start)), k))) + TimeOfDay(start)
  }

  lemma OneMonthStep(d: Date)
    requires d.Valid()
    ensures 28 <= DayNumber(AddMonths(d, 1)) - DayNumber(d) <= 31
    ensures AddMonths(d, 1).month == (if d.month == 12 then 1 else d.month + 1)
    ensures AddMonths(d, 1).year == (if d.month == 12 then d.year + 1 else d.year)
  {
    var r := AddMonths(d, 1);
    if d.month == 12 {
      assert r.year == d.year + 1 && r.month == 1;
      YearIsSumOfMonths(d.year);
      assert DaysBeforeMonth(d.year, 13) == DaysBeforeMonth(d.year, 12) + 31;
    } else {
      assert r.year == d.year && r.month == d.month + 1;
    }
  }

  lemma TwelveMonthsIsNextYear(d: Date)
    requires d.Valid()
    ensures AddMonths(d, 12) == Date(d.year + 1, d.month, Min(d.day, DaysInMonth(d.year + 1, d.month)))
  {
  }

  lemma AnnualStep(d: Date)
    requires d.Valid()
    ensures 365 <= DayNumber(AddMonths(d, 12)) - DayNumber(d) <= 366
  {
    TwelveMonthsIsNextYear(d);
    SameDateNextYear(d.year, d.month);
  }

  lemma {:induction false} SameDateNextYear(y: nat, m: nat)
    requires 1 <= m <= 12
    ensures DaysBeforeMonth(y + 1, m) - DaysBeforeMonth(y, m)
         == (if m <= 2 then 0 else DaysInMonth(y + 1, 2) - DaysInMonth(y, 2))
    decreases m
  {
    if m > 1 { SameDateNextYear(y, m - 1); }
  }

  lemma AdvanceMonthsStep(start: nat, k: nat)
    ensures var d := DateOf(DayOf(start));
            AdvanceMonths(start, k) - start == DayStart(DayNumber(AddMonths(d, k)) - DayNumber(d))
  {
    assert start == DayStart(DayOf(start)) + TimeOfDay(start);
  }

  /** Every cadence moves the anchor strictly forward by a whole number of days: 7,
      28 to 31, or 365 to 366, keeping the time of day. */
  lemma PeriodAdvanceStep(start: nat, cadence: Cadence) returns (days: nat)
    ensures PeriodAdvance(start, cadence) == start + DayStart(days)
    ensures match cadence
            case Weekly => days == 7
            case Monthly => 28 <= days <= 31
            case Annual => 365 <= days <= 366
  {
    var d := DateOf(DayOf(start));
    match cadence
    case Weekly => days := 7;
    case Monthly =>
      OneMonthStep(d);
      AdvanceMonthsStep(start, 1);
      days := DayNumber(AddMonths(d, 1)) - DayNumber(d);
    case Annual =>
      AnnualStep(d);
      AdvanceMonthsStep(start, 12);
      days := DayNumber(AddMonths(d, 12)) - DayNumber(d);
  }

  lemma PeriodAdvanceIncreases(start: nat, cadence: Cadence)
    ensures PeriodAdvance(start, cadence) >= start + DayStart(7)
    ensures TimeOfDay(PeriodAdvance(start, cadence)) == TimeOfDay(start)
  {
    var days := PeriodAdvanceStep(start, cadence);
    assert start == DayStart(DayOf(start)) + TimeOfDay(start);
    assert PeriodAdvance(start, cadence) == DayStart(DayOf(start) + days) + TimeOfDay(start);
  }

  /** Where a monthly or annual period ends: one or twelve months on, at the same time of
      day, on the same day of the month, or on the last one if the month is too short. */
  lemma PeriodAdvanceDate(start: nat, cadence: Cadence)
    requires cadence != Weekly
    ensures var d, r := DateOf(DayOf(start)), DateOf(DayOf(PeriodAdvance(start, cadence)));
            r.year * 12 + r.month == d.year * 12 + d.month + (if cadence == Monthly then 1 else 12)
            && if Date(r.year, r.month, d.day).Valid() then r.day == d.day
               else r.day < d.day && !Date(r.year, r.month, r.day + 1).Valid()
    ensures TimeOfDay(PeriodAdvance(start, cadence)) == TimeOfDay(start)
  {
    var k := if cadence == Monthly then 1 else 12;
    var to := AddMonths(DateOf(DayOf(start)), k);
    assert PeriodAdvance(start, cadence) == DayStart(DayNumber(to)) + TimeOfDay(start);
    assert DayOf(PeriodAdvance(start, cadence)) == DayNumber(to);
    DateOfDayNumber(to);
  }

  // ---- repeated monthly billing --------------------------------------------------

  /** `k` single-month steps in a row, as the scheduler takes them. */
  function MonthlySteps(d: Date, k: nat): (r: Date)
    requires d.Valid()
    ensures r.Valid()
  {
    if k == 0 then d else AddMonths(MonthlySteps(d, k - 1), 1)
  }

  /** The shortest of the `k` months after `d`'s (31 when `k` is 0). */
  function ShortestMonth(d: Date, k: nat): (n: nat)
    requires d.Valid()
  {
    if k == 0 then 31
    else var r := MonthlySteps(d, k); Min(ShortestMonth(d, k - 1), DaysInMonth(r.year, r.month))
  }

  /** Single-month steps visit the same months as one long step, but the day of the
      month is clamped by every month on the way and never recovers. */
  lemma {:induction false} MonthlyStepsClamp(d: Date, k: nat)
    requires d.Valid()
    ensures var r := MonthlySteps(d, k);
            r.year * 12 + r.month == d.year * 12 + d.month + k
            && r.day == Min(d.day, ShortestMonth(d, k))
    ensures MonthlySteps(d, k).day <= d.day
    ensures k > 0 ==> MonthlySteps(d, k).day <= MonthlySteps(d, k - 1).day
  {
    if k > 0 {
      MonthlyStepsClamp(d, k - 1);
      OneMonthStep(MonthlySteps(d, k - 1));
    }
  }

  function NextFebruary(d: Date): nat
  {
    if d.month == 1 then d.year else d.year + 1
  }

  /** How many months after `d` the next February comes (12 when `d` is in February). */
  function MonthsToFebruary(d: Date): nat
    requires d.Valid()
  {
    if d.month == 1 then 1 else 14 - d.month
  }

  lemma MonthAfter(d: Date, r: Date, k: nat)
    requires d.Valid() && r.Valid() && 1 <= k <= 12
    requires r.year * 12 + r.month == d.year * 12 + d.month + k
    ensures if k == MonthsToFebruary(d) then r.month == 2 && r.year == NextFebruary(d)
            else DaysInMonth(r.year, r.month) >= 30
  {
    if d.month + k <= 12 {
      assert r.year == d.year && r.month == d.month + k;
    } else {
      assert r.year == d.year + 1 && r.month == d.month + k - 12;
    }
  }

  lemma {:induction false} ShortestIsFebruary(d: Date, k: nat)
    requires d.Valid() && k <= 12
    ensures if k >= MonthsToFebruary(d)
            then ShortestMonth(d, k) == DaysInMonth(NextFebruary(d), 2)
            else 30 <= ShortestMonth(d, k) <= 31
  {
    if k > 0 {
      ShortestIsFebruary(d, k - 1);
      MonthlyStepsClamp(d, k);
      MonthAfter(d, MonthlySteps(d, k), k);
    }
  }

  lemma SameMonthNextYear(d: Date, r: Date)
    requires d.Valid() && r.Valid() && r.year * 12 + r.month == d.year * 12 + d.month + 12
    requires r.day == Min(d.day, DaysInMonth(NextFebruary(d), 2))
    ensures r == AddMonths(d, 12) <==> d.month == 2 || d.day <= DaysInMonth(NextFebruary(d), 2)
  {
    TwelveMonthsIsNextYear(d);
    assert r.year == d.year + 1 && r.month == d.month;
  }

  /** Twelve monthly renewals land on the annual renewal date exactly when the day of
      the month survives the February in between (or the anchor is itself in February). */
  lemma TwelveMonthlyIsAnnual(d: Date, k: nat)
    requires d.Valid() && k == 12
    ensures MonthlySteps(d, k) == AddMonths(d, 12)
            <==> d.month == 2 || d.day <= DaysInMonth(NextFebruary(d), 2)
    ensures d.day <= 28 ==> MonthlySteps(d, k) == AddMonths(d, 12)
  {
    MonthlyStepsClamp(d, k);
    ShortestIsFebruary(d, k);
    SameMonthNextYear(d, MonthlySteps(d, k));
  }

  /** The two forms differ on 31 January 2023: monthly billing drifts to the 28th. */
  lemma TwelveMonthlyDrifts(d: Date, k: nat)
    requires d == Date(2023, 1, 31) && k == 12
    ensures MonthlySteps(d, k) == Date(2024, 1, 28) && AddMonths(d, 12) == Date(2024, 1, 31)
  {
    MonthlyStepsClamp(d, k);
    ShortestIsFebruary(d, k);
    TwelveMonthsIsNextYear(d);
    JanuaryFollowsJanuary(MonthlySteps(d, k));
  }

  lemma JanuaryFollowsJanuary(r: Date)
    requires r.Valid() && r.year * 12 + r.month == 2023 * 12 + 13
    ensures r.year == 2024 && r.month == 1
  {
  }
}
