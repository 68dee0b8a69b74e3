/** The Gregorian calendar as Go's time package computes it: days are counted from 1 January of year
    0, months from January of year 0. */
module Calendar {
  import opened Common

  predicate Leap(y: nat) { y % 4 == 0 && (y % 100 != 0 || y % 400 == 0) }

  function DaysIn(m: nat): (d: nat)
    ensures 28 <= d <= 31
  {
    var month := m % 12 + 1;
    if month == 2 then (if Leap(m / 12) then 29 else 28)
    else if month == 4 || month == 6 || month == 9 || month == 11 then 30
    else 31
  }

  /** The day number of the first of month m. */
  function FirstDay(m: nat): nat {
    if m == 0 then 0 else FirstDay(m - 1) + DaysIn(m - 1)
  }

  lemma {:induction false} FirstDayGrows(m: nat, n: nat)
    requires m <= n
    ensures FirstDay(m) + 28 * (n - m) <= FirstDay(n) <= FirstDay(m) + 31 * (n - m)
    decreases n
  {
    if m < n {
      FirstDayGrows(m, n - 1);
    }
  }

  function MonthFrom(day: nat, m: nat): (r: nat)
    requires FirstDay(m) <= day
    ensures FirstDay(r) <= day < FirstDay(r + 1)
    decreases day - FirstDay(m)
  {
    if day < FirstDay(m + 1) then m else MonthFrom(day, m + 1)
  }

  function MonthOf(day: nat): (r: nat)
    ensures FirstDay(r) <= day < FirstDay(r + 1)
  {
    MonthFrom(day, 0)
  }

  function DayOfMonth(day: nat): (d: nat)
    ensures 1 <= d <= DaysIn(MonthOf(day))
  {
    day - FirstDay(MonthOf(day)) + 1
  }

  /** Months tile the days: every day lies in exactly one of them. */
  lemma MonthIsUnique(day: nat, m: nat)
    ensures FirstDay(m) <= day < FirstDay(m + 1) <==> m == MonthOf(day)
  {
    var r := MonthOf(day);
    if m < r {
      FirstDayGrows(m + 1, r);
    } else if r < m {
      FirstDayGrows(r + 1, m);
    }
  }

  lemma MonthIsMonotone(d: nat, e: nat)
    requires d <= e
    ensures MonthOf(d) <= MonthOf(e)
  {
    if MonthOf(e) < MonthOf(d) {
      FirstDayGrows(MonthOf(e) + 1, MonthOf(d));
    }
  }

  /** AddDate(0, n, 0) and AddDate(n / 12, 0, 0): same day of another month, spilling over into the
      following month when that month is too short. */
  function AddMonths(day: nat, n: int): nat
    requires 0 <= MonthOf(day) + n
  {
    FirstDay(MonthOf(day) + n) + DayOfMonth(day) - 1
  }

  /** Adding months lands in the month aimed at, on the same day, exactly when that month has such a day;
      otherwise in the month after it, by as many days as it is too short. */
  lemma AddMonthsLands(day: nat, n: int)
    requires 0 <= MonthOf(day) + n
    ensures var m := MonthOf(day) + n;
            var d := DayOfMonth(day);
            && MonthOf(AddMonths(day, n)) == (if d <= DaysIn(m) then m else m + 1)
            && DayOfMonth(AddMonths(day, n)) == if d <= DaysIn(m) then d else d - DaysIn(m)
  {
    var m := MonthOf(day) + n;
    MonthIsUnique(AddMonths(day, n), m);
    MonthIsUnique(AddMonths(day, n), m + 1);
    FirstDayGrows(m + 1, m + 2);
  }

  /** Days of a common year before each month. */
  const DAYS_BEFORE: seq<nat> := [0, 31, 59, 90, 120, 151, 181, 212, 243, 273, 304, 334, 365]

  lemma {:induction false} MonthInYear(y: nat, k: nat)
    requires k <= 12
    ensures FirstDay(12 * y + k) == FirstDay(12 * y) + DAYS_BEFORE[k]
              + if k >= 2 && y % 4 == 0 && (y % 100 != 0 || y % 400 == 0) then 1 else 0
  {
    if k > 0 {
      var m := 12 * y + k - 1;
      MonthInYear(y, k - 1);
      assert m / 12 == y && m % 12 == k - 1;
      assert FirstDay(12 * y + k) == FirstDay(m) + DaysIn(m);
    }
  }

  /** Leap days before year y. */
  function LeapDays(y: nat): int { (y + 3) / 4 - (y + 99) / 100 + (y + 399) / 400 }

  lemma Quarters(y: nat)
    ensures (y + 4) / 4 == (y + 3) / 4 + if y % 4 == 0 then 1 else 0
  {
  }

  lemma Hundreds(y: nat)
    ensures (y + 100) / 100 == (y + 99) / 100 + if y % 100 == 0 then 1 else 0
  {
  }

  lemma FourHundreds(y: nat)
    ensures (y + 400) / 400 == (y + 399) / 400 + if y % 400 == 0 then 1 else 0
    ensures y % 400 == 0 ==> y % 100 == 0
  {
    assert y % 400 == 0 ==> y == 100 * (4 * (y / 400));
  }

  lemma CenturiesAreQuarters(y: nat)
    ensures y % 100 == 0 ==> y % 4 == 0
  {
    assert y % 100 == 0 ==> y == 4 * (25 * (y / 100));
  }

  lemma LeapDaysStep(y: nat)
    ensures LeapDays(y + 1) == LeapDays(y) + if y % 4 == 0 && (y % 100 != 0 || y % 400 == 0) then 1 else 0
  {
    Quarters(y);
    Hundreds(y);
    FourHundreds(y);
    CenturiesAreQuarters(y);
  }

  lemma YearIsLong(y: nat, next: nat)
    requires next == 12 * y + 12
    ensures FirstDay(next) == FirstDay(12 * y) + 365 + LeapDays(y + 1) - LeapDays(y)
  {
    MonthInYear(y, 12);
    LeapDaysStep(y);
  }

  lemma {:induction false} YearStarts(y: nat)
    ensures FirstDay(12 * y) == 365 * y + LeapDays(y)
  {
    if y > 0 {
      YearStarts(y - 1);
      YearIsLong(y - 1, 12 * y);
    }
  }

  /** The running sum of month lengths is the Gregorian calendar in closed form. */
  lemma FirstDayIsClosed(y: nat, k: nat)
    requires k < 12
    ensures FirstDay(12 * y + k)
            == 365 * y + (y + 3) / 4 - (y + 99) / 100 + (y + 399) / 400
               + [0, 31, 59, 90, 120, 151, 181, 212, 243, 273, 304, 334][k]
               + if k >= 2 && y % 4 == 0 && (y % 100 != 0 || y % 400 == 0) then 1 else 0
  {
    YearStarts(y);
    MonthInYear(y, k);
  }
}
