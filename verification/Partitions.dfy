/** The life of the monthly partitions: created by PartitionJob, dropped by CleanupJob
    (jobs/cleanup.go), both fired by the hourly ticker of runScheduler (cmd/server/main.go).
    Instants are seconds of UTC since 1 January of year 0; the jobs see the local clock, which is UTC
    plus a fixed offset, and partition bounds are local midnights. */
module Partitions {
  import opened Common
  import opened Calendar
  import Numerals

  // ---------------------------------------------------------------- names

  const Tables: seq<string> := ["usage_events", "proxy_requests"]

  function FourDigits(y: nat): string {
    if y < 10000
    then [Numerals.DigitChar(y / 1000), Numerals.DigitChar(y / 100 % 10),
          Numerals.DigitChar(y / 10 % 10), Numerals.DigitChar(y % 10)]
    else Numerals.Decimal(y)
  }

  function TwoDigits(n: nat): string
    requires n < 100
  {
    [Numerals.DigitChar(n / 10), Numerals.DigitChar(n % 10)]
  }

  /** Format("2006_01"). */
  function Suffix(m: nat): string { FourDigits(m / 12) + "_" + TwoDigits(m % 12 + 1) }

  function Name(table: string, m: nat): string { table + "_" + Suffix(m) }

  /** `tablename < $2` under the collation of type name: byte by byte. */
  predicate NameLess(s: string, t: string) {
    t != [] && (s == [] || s[0] < t[0] || (s[0] == t[0] && NameLess(s[1..], t[1..])))
  }

  /** `tablename LIKE table || '_%'`, where every underscore stands for any one character. */
  predicate LikeTable(name: string, table: string) {
    && |table| < |name|
    && forall i :: 0 <= i < |table| ==> table[i] == '_' || name[i] == table[i]
  }

  lemma {:induction false} CommonPrefix(p: string, s: string, t: string)
    ensures NameLess(p + s, p + t) <==> NameLess(s, t)
  {
    if p == [] {
      assert p + s == s && p + t == t;
    } else {
      CommonPrefix(p[1..], s, t);
      assert (p + s)[1..] == p[1..] + s && (p + t)[1..] == p[1..] + t;
    }
  }

  /** Comparing two strings of the same length. */
  lemma {:induction false} FirstDifference(s: string, t: string, k: nat)
    requires k < |s| == |t| && s[..k] == t[..k] && s[k] != t[k]
    ensures NameLess(s, t) <==> s[k] < t[k]
  {
    if k > 0 {
      assert s[1..][..k - 1] == s[..k][1..];
      assert t[1..][..k - 1] == t[..k][1..];
      assert s[0] == s[..k][0] && t[0] == t[..k][0];
      FirstDifference(s[1..], t[1..], k - 1);
    }
  }

  /** s and t agree up to k, where s ends or has the smaller character. */
  predicate LessAt(s: string, t: string, k: nat) {
    k <= |s| && k < |t| && s[..k] == t[..k] && (k == |s| || s[k] < t[k])
  }

  lemma LessAtNext(s: string, t: string, k: nat)
    requires s != "" && t != "" && s[0] == t[0]
    ensures LessAt(s[1..], t[1..], k) <==> LessAt(s, t, k + 1)
  {
    if k + 1 <= |s| && k + 1 < |t| {
      assert s[..k + 1] == [s[0]] + s[1..][..k] && t[..k + 1] == [t[0]] + t[1..][..k];
      assert s[1..][..k] == s[..k + 1][1..] && t[1..][..k] == t[..k + 1][1..];
    }
  }

  lemma LessAtAgrees(s: string, t: string, k: nat)
    requires k > 0 && LessAt(s, t, k)
    ensures s != "" && t != "" && s[0] == t[0]
  {
    assert s[0] == s[..k][0] && t[0] == t[..k][0];
  }

  /** The order is the lexicographic one. */
  lemma {:induction false} NameLessExactly(s: string, t: string)
    ensures NameLess(s, t) <==> exists k: nat :: LessAt(s, t, k)
  {
    if s != "" && t != "" && s[0] == t[0] {
      NameLessExactly(s[1..], t[1..]);
      if k: nat :| LessAt(s[1..], t[1..], k) {
        LessAtNext(s, t, k);
      }
      if k: nat :| LessAt(s, t, k) {
        LessAtNext(s, t, k - 1);
      }
    } else {
      assert NameLess(s, t) ==> LessAt(s, t, 0);
      forall k: nat | LessAt(s, t, k) ensures k == 0 {
        if k > 0 {
          LessAtAgrees(s, t, k);
        }
      }
    }
  }

  lemma {:induction false} NotLessThanItself(s: string)
    ensures !NameLess(s, s)
  {
    if s != [] {
      NotLessThanItself(s[1..]);
    }
  }

  /** The digits of YYYYMM. */
  function Digits(m: nat): (ds: seq<Numerals.Digit>)
    requires m < 120000
    ensures |ds| == 6
  {
    var y, month := m / 12, m % 12 + 1;
    [y / 1000, y / 100 % 10, y / 10 % 10, y % 10, month / 10, month % 10]
  }

  function Number(ds: seq<Numerals.Digit>): nat
    requires |ds| == 6
  {
    100000 * (ds[0] as int) + 10000 * (ds[1] as int) + 1000 * (ds[2] as int)
    + 100 * (ds[3] as int) + 10 * (ds[4] as int) + (ds[5] as int)
  }

  lemma NumberOfDigits(m: nat)
    requires m < 120000
    ensures Number(Digits(m)) == 100 * (m / 12) + m % 12 + 1
  {
    var y := m / 12;
    assert y / 100 == 10 * (y / 1000) + y / 100 % 10;
    assert y / 10 == 10 * (y / 100) + y / 10 % 10;
    assert y == 10 * (y / 10) + y % 10;
  }

  /** The names end in YYYY_MM: four digits of the year, an underscore, two digits of the month from 01 on. */
  lemma SuffixIsYearAndMonth(m: nat)
    requires m < 120000
    ensures var s := Suffix(m);
            && |s| == 7 && s[4] == '_' && (forall i :: 0 <= i < 7 && i != 4 ==> '0' <= s[i] <= '9')
            && m / 12 == 1000 * (s[0] - '0') as int + 100 * (s[1] - '0') as int + 10 * (s[2] - '0') as int
                         + (s[3] - '0') as int
            && m % 12 + 1 == 10 * (s[5] - '0') as int + (s[6] - '0') as int
  {
    var y := m / 12;
    assert y / 100 == 10 * (y / 1000) + y / 100 % 10;
    assert y / 10 == 10 * (y / 100) + y / 10 % 10;
    assert y == 10 * (y / 10) + y % 10;
  }

  lemma FirstDigitDecides(a: seq<Numerals.Digit>, b: seq<Numerals.Digit>, k: nat)
    requires |a| == |b| == 6 && k < 6
    requires forall i :: 0 <= i < k ==> a[i] == b[i]
    requires a[k] != b[k]
    ensures Number(a) < Number(b) <==> a[k] < b[k]
  {
  }

  lemma SuffixSpellsDigits(m: nat, i: nat)
    requires m < 120000 && i < 6
    ensures |Suffix(m)| == 7 && Suffix(m)[4] == '_'
    ensures Suffix(m)[if i < 4 then i else i + 1] == Numerals.DigitChar(Digits(m)[i])
  {
  }

  lemma SuffixOrder(m: nat, n: nat, k: nat)
    requires m < 120000 && n < 120000 && k < 6
    requires forall i :: 0 <= i < k ==> Digits(m)[i] == Digits(n)[i]
    requires Digits(m)[k] != Digits(n)[k]
    ensures Suffix(m) != Suffix(n)
    ensures NameLess(Suffix(m), Suffix(n)) <==> Digits(m)[k] < Digits(n)[k]
  {
    var s, t, j := Suffix(m), Suffix(n), if k < 4 then k else k + 1;
    forall i: nat | i < 6
      ensures s[if i < 4 then i else i + 1] == Numerals.DigitChar(Digits(m)[i])
      ensures t[if i < 4 then i else i + 1] == Numerals.DigitChar(Digits(n)[i])
    {
      SuffixSpellsDigits(m, i);
      SuffixSpellsDigits(n, i);
    }
    forall i | 0 <= i < j ensures s[i] == t[i] {
      if i < 4 {
        assert s[i] == Numerals.DigitChar(Digits(m)[i]);
      } else if i == 5 {
        assert s[5] == Numerals.DigitChar(Digits(m)[4]);
      }
    }
    FirstDifference(s, t, j);
  }

  lemma FirstDifferent(a: seq<Numerals.Digit>, b: seq<Numerals.Digit>) returns (k: nat)
    requires |a| == |b| == 6 && Number(a) != Number(b)
    ensures k < 6 && a[k] != b[k] && forall i :: 0 <= i < k ==> a[i] == b[i]
    ensures a[k] < b[k] <==> Number(a) < Number(b)
  {
    k := if a[0] != b[0] then 0 else if a[1] != b[1] then 1 else if a[2] != b[2] then 2
         else if a[3] != b[3] then 3 else if a[4] != b[4] then 4 else 5;
    FirstDigitDecides(a, b, k);
  }

  lemma NumberIsMonotone(m: nat, n: nat)
    requires m < 120000 && n < 120000
    ensures Number(Digits(m)) < Number(Digits(n)) <==> m < n
  {
    NumberOfDigits(m);
    NumberOfDigits(n);
    YearAndMonth(m, n);
  }

  lemma YearAndMonth(m: nat, n: nat)
    ensures 100 * (m / 12) + m % 12 + 1 < 100 * (n / 12) + n % 12 + 1 <==> m < n
  {
    assert m == 12 * (m / 12) + m % 12 && n == 12 * (n / 12) + n % 12;
  }

  /** Different months differ in a digit, and the first such digit orders them. */
  lemma FirstDigit(m: nat, n: nat) returns (k: nat)
    requires m < 120000 && n < 120000 && m != n
    ensures k < 6 && Digits(m)[k] != Digits(n)[k] && forall i :: 0 <= i < k ==> Digits(m)[i] == Digits(n)[i]
    ensures Digits(m)[k] < Digits(n)[k] <==> m < n
  {
    NumberIsMonotone(m, n);
    NumberIsMonotone(n, m);
    k := FirstDifferent(Digits(m), Digits(n));
  }

  lemma SuffixOrderIsDateOrder(m: nat, n: nat)
    requires m < 120000 && n < 120000
    ensures NameLess(Suffix(m), Suffix(n)) <==> m < n
    ensures Suffix(m) == Suffix(n) <==> m == n
  {
    if m == n {
      NotLessThanItself(Suffix(m));
    } else {
      var k := FirstDigit(m, n);
      SuffixOrder(m, n, k);
    }
  }

  /** Up to the year 9999 the names of a table's partitions sort by date. */
  lemma NameOrderIsDateOrder(table: string, m: nat, n: nat)
    requires m < 120000 && n < 120000
    ensures NameLess(Name(table, m), Name(table, n)) <==> m < n
    ensures Name(table, m) == Name(table, n) <==> m == n
  {
    var p, s, t := table + "_", Suffix(m), Suffix(n);
    assert Name(table, m) == p + s && Name(table, n) == p + t;
    CommonPrefix(p, s, t);
    SuffixOrderIsDateOrder(m, n);
    assert (p + s)[|p|..] == s && (p + t)[|p|..] == t;
  }

  // ---------------------------------------------------------------- the two jobs

  /** FROM (inclusive) and TO (exclusive), as day numbers. */
  datatype Range = Range(from: nat, to: nat)

  type Db = map<string, Range>

  function MonthRange(m: nat): Range { Range(FirstDay(m), FirstDay(m + 1)) }

  /** CREATE TABLE IF NOT EXISTS ... PARTITION OF. */
  function Create(db: Db, name: string, r: Range): Db {
    if name in db then db else db[name := r]
  }

  /** The month EnsureNextMonth aims at on a given day. */
  function NextMonth(today: nat): nat { MonthOf(AddMonths(today, 1)) }

  function Ensure(db: Db, today: nat): Db {
    var m := NextMonth(today);
    Create(Create(db, Name(Tables[0], m), MonthRange(m)), Name(Tables[1], m), MonthRange(m))
  }

  /** now.AddDate(-1, 0, 0). */
  function Cutoff(today: nat): nat {
    if MonthOf(today) < 12 then 0 else AddMonths(today, -12)
  }

  predicate Selected(name: string, table: string, cutoff: nat) {
    LikeTable(name, table) && NameLess(name, Name(table, MonthOf(cutoff)))
  }

  function DropOld(db: Db, table: string, cutoff: nat): Db {
    map name | name in db && !Selected(name, table, cutoff) :: db[name]
  }

  function Cleanup(db: Db, today: nat): Db {
    DropOld(DropOld(db, Tables[0], Cutoff(today)), Tables[1], Cutoff(today))
  }

  // ---------------------------------------------------------------- what one cleanup drops

  lemma LikeOwnNames(table: string, m: nat)
    ensures LikeTable(Name(table, m), table)
  {
  }

  lemma NotLikeOtherTable(m: nat)
    ensures !LikeTable(Name(Tables[0], m), Tables[1]) && !LikeTable(Name(Tables[1], m), Tables[0])
  {
    assert Name(Tables[0], m)[0] == 'u' && Name(Tables[1], m)[0] == 'p';
  }

  lemma SelectedIsOld(k: nat, j: nat, m: nat, cutoff: nat)
    requires k < 2 && j < 2 && m < 120000 && MonthOf(cutoff) < 120000
    ensures Selected(Name(Tables[k], m), Tables[j], cutoff) <==> j == k && m < MonthOf(cutoff)
  {
    if j == k {
      NameOrderIsDateOrder(Tables[k], m, MonthOf(cutoff));
      LikeOwnNames(Tables[k], m);
    } else {
      NotLikeOtherTable(m);
    }
  }

  lemma DroppedExactlyWhenOld(db: Db, c: nat, k: nat, m: nat)
    requires k < 2 && m < 120000 && MonthOf(c) < 120000 && Name(Tables[k], m) in db
    ensures var name, db' := Name(Tables[k], m), DropOld(DropOld(db, Tables[0], c), Tables[1], c);
            (name in db' <==> m >= MonthOf(c)) && (name in db' ==> db'[name] == db[name])
  {
    SelectedIsOld(k, 0, m, c);
    SelectedIsOld(k, 1, m, c);
    DropOldKeeps(db, c, Name(Tables[k], m));
  }

  /** Months back to twelve before today's are kept; on a 29 February whose predecessor year has none,
      months back to eleven before. */
  lemma CutoffIsAYearAgo(today: nat)
    ensures MonthOf(today) < 12 ==> MonthOf(Cutoff(today)) == 0
    ensures MonthOf(today) >= 12 ==>
              MonthOf(Cutoff(today))
              == MonthOf(today) - if DayOfMonth(today) <= DaysIn(MonthOf(today) - 12) then 12 else 11
  {
    if MonthOf(today) >= 12 {
      AddMonthsLands(today, -12);
    } else {
      MonthIsUnique(0, 0);
    }
  }

  lemma OldMonthEndsBefore(today: nat, m: nat)
    requires m < MonthOf(Cutoff(today))
    ensures MonthOf(today) >= 12 && FirstDay(m + 1) <= FirstDay(MonthOf(today) - 12) + DayOfMonth(today) - 1
  {
    CutoffIsAYearAgo(today);
    FirstDayGrows(m + 1, MonthOf(Cutoff(today)));
  }

  /** One cleanup drops exactly the partitions more than twelve months before today's month (more than
      eleven on a 29 February whose predecessor year has none), so no dropped row is younger than a year. */
  lemma CleanupDropsExactlyOldMonths(db: Db, today: nat, k: nat, m: nat)
    requires k < 2 && m < 120000 && MonthOf(today) < 120000 && Name(Tables[k], m) in db
    ensures var name, db' := Name(Tables[k], m), Cleanup(db, today);
            var noSuchDay := MonthOf(today) >= 12 && DayOfMonth(today) > DaysIn(MonthOf(today) - 12);
            && (name !in db' <==> if noSuchDay then m + 11 < MonthOf(today) else m + 12 < MonthOf(today))
            && (name in db' ==> db'[name] == db[name])
    ensures Name(Tables[k], m) !in Cleanup(db, today) ==>
              MonthOf(today) >= 12 && FirstDay(m + 1) <= FirstDay(MonthOf(today) - 12) + DayOfMonth(today) - 1
  {
    CutoffIsAYearAgo(today);
    DroppedExactlyWhenOld(db, Cutoff(today), k, m);
    if m < MonthOf(Cutoff(today)) {
      OldMonthEndsBefore(today, m);
    }
  }

  lemma DropOldKeeps(db: Db, c: nat, name: string)
    requires name in db
    ensures var db' := DropOld(DropOld(db, Tables[0], c), Tables[1], c);
            && (name in db' <==> !Selected(name, Tables[0], c) && !Selected(name, Tables[1], c))
            && (name in db' ==> db'[name] == db[name])
  {
  }

  // ---------------------------------------------------------------- the scheduler

  function Hour(t: nat): nat { t / 3600 }

  function UtcDay(t: nat): nat { t / 86400 }

  /** The local day at instant t. */
  function LocalDay(t: nat, offset: int): nat
    requires 0 <= t + offset
  {
    (t + offset) / 86400
  }

  predicate CleanupDue(t: nat) { Hour(t) % 24 == 3 && t / 60 % 60 < 5 }

  predicate CreationDue(t: nat) { DayOfMonth(UtcDay(t)) == 25 && Hour(t) % 24 == 12 }

  function Tick(db: Db, t: nat, offset: int): Db
    requires 0 <= t + offset
  {
    var db' := if CleanupDue(t) then Cleanup(db, LocalDay(t, offset)) else db;
    if CreationDue(t) then Ensure(db', LocalDay(t, offset)) else db'
  }

  /** A clock that is at most 14 hours away from UTC and past the first day of year 0. */
  predicate ClockOk(t: nat, offset: int) { -14 * 3600 <= offset <= 14 * 3600 && 86400 <= t }

  /** The partitions k ticks after a start at t0. */
  function After(db: Db, t0: nat, offset: int, k: nat): Db
    requires ClockOk(t0, offset)
  {
    if k == 0 then Ensure(db, LocalDay(t0, offset))
    else Tick(After(db, t0, offset, k - 1), t0 + 3600 * k, offset)
  }

  // ---------------------------------------------------------------- coverage

  /** Table k has the partition of month m, with the bounds of that month. */
  predicate Has(db: Db, k: nat, m: nat)
    requires k < 2
  {
    Name(Tables[k], m) in db && db[Name(Tables[k], m)] == MonthRange(m)
  }

  /** No partition has the name of a month and other bounds. */
  ghost predicate Honest(db: Db) {
    forall k: nat, m: nat :: k < 2 && m < 120000 && Name(Tables[k], m) in db ==> Has(db, k, m)
  }

  lemma NamesDiffer(k: nat, j: nat, m: nat, n: nat)
    requires k < 2 && j < 2 && m < 120000 && n < 120000
    ensures Name(Tables[k], m) == Name(Tables[j], n) <==> k == j && m == n
  {
    if k == j {
      NameOrderIsDateOrder(Tables[k], m, n);
    } else {
      assert Name(Tables[0], m)[0] == 'u' && Name(Tables[1], m)[0] == 'p';
      assert Name(Tables[0], n)[0] == 'u' && Name(Tables[1], n)[0] == 'p';
    }
  }

  lemma EnsureCreates(db: Db, today: nat)
    requires Honest(db) && NextMonth(today) < 120000
    ensures Has(Ensure(db, today), 0, NextMonth(today)) && Has(Ensure(db, today), 1, NextMonth(today)) &&
            Honest(Ensure(db, today))
    ensures forall name :: name in Ensure(db, today) ==>
              name in db || name == Name(Tables[0], NextMonth(today)) || name == Name(Tables[1], NextMonth(today))
    ensures forall name :: name in db ==> name in Ensure(db, today) && Ensure(db, today)[name] == db[name]
  {
    var n := NextMonth(today);
    var db' := Ensure(db, today);
    NamesDiffer(0, 1, n, n);
    assert Name(Tables[0], n) in db ==> Has(db, 0, n);
    assert Name(Tables[1], n) in db ==> Has(db, 1, n);
    forall k: nat, m: nat | k < 2 && m < 120000 && Name(Tables[k], m) in db'
      ensures Has(db', k, m)
    {
      NamesDiffer(k, 0, m, n);
      NamesDiffer(k, 1, m, n);
    }
  }

  lemma CleanupKeepsRecent(db: Db, today: nat)
    requires Honest(db) && MonthOf(today) < 120000
    ensures Honest(Cleanup(db, today))
    ensures forall k: nat, m: nat ::
              k < 2 && MonthOf(today) <= m < 120000 && Has(db, k, m) ==> Has(Cleanup(db, today), k, m)
    ensures forall name :: name in Cleanup(db, today) ==> name in db && Cleanup(db, today)[name] == db[name]
  {
    forall k: nat, m: nat | k < 2 && MonthOf(today) <= m < 120000 && Has(db, k, m)
      ensures Has(Cleanup(db, today), k, m)
    {
      CleanupDropsExactlyOldMonths(db, today, k, m);
    }
  }

  /** The UTC hour in which the partition of month m + 1 is created. */
  function CreationHour(m: nat): nat { (FirstDay(m) + 24) * 24 + 12 }

  lemma CreationDueIsItsHour(t: nat)
    ensures CreationDue(t) <==> exists m: nat :: Hour(t) == CreationHour(m)
    ensures CreationDue(t) ==> Hour(t) == CreationHour(MonthOf(UtcDay(t)))
  {
    assert UtcDay(t) == Hour(t) / 24;
    assert CreationDue(t) ==> Hour(t) == CreationHour(MonthOf(UtcDay(t)));
    forall m: nat | Hour(t) == CreationHour(m)
      ensures CreationDue(t)
    {
      assert UtcDay(t) == FirstDay(m) + 24;
      FirstDayGrows(m, m + 1);
      MonthIsUnique(UtcDay(t), m);
    }
  }

  /** Hourly ticks, wherever in the hour they fall, visit each creation hour exactly once. */
  lemma CreationHourIsHitOnce(t0: nat, m: nat)
    requires Hour(t0) < CreationHour(m)
    ensures exists k: nat :: k >= 1 && Hour(t0 + 3600 * k) == CreationHour(m)
    ensures forall k: nat, j: nat ::
              Hour(t0 + 3600 * k) == CreationHour(m) && Hour(t0 + 3600 * j) == CreationHour(m) ==> k == j
  {
    forall k: nat ensures Hour(t0 + 3600 * k) == Hour(t0) + k { HourAdvances(t0, k); }
    var k: nat := CreationHour(m) - Hour(t0);
    assert Hour(t0 + 3600 * k) == CreationHour(m);
  }

  lemma HourAdvances(t0: nat, k: nat)
    ensures Hour(t0 + 3600 * k) == Hour(t0) + k
  {
  }

  function LocalMonth(t: nat, offset: int): nat
    requires ClockOk(t, offset)
  {
    MonthOf(LocalDay(t, offset))
  }

  /** The instant at which local month m begins. */
  function Begins(m: nat, offset: int): int { FirstDay(m) * 86400 - offset }

  lemma LocalMonthByInstants(t: nat, offset: int, m: nat)
    requires ClockOk(t, offset)
    ensures LocalMonth(t, offset) == m <==> Begins(m, offset) <= t < Begins(m + 1, offset)
  {
    MonthIsUnique(LocalDay(t, offset), m);
  }

  /** A local month lasts from four weeks to 31 days, and its creation hour leaves three days and
      more before its end whatever the offset. */
  lemma CreationComesInTime(t: nat, offset: int, m: nat)
    requires ClockOk(t, offset)
    ensures Begins(m + 1, offset) - 3600 <= t ==> CreationHour(m) < Hour(t)
    ensures t < Begins(m, offset) + 3600 ==> Hour(t) < CreationHour(m)
    ensures Begins(m, offset) + 28 * 86400 <= Begins(m + 1, offset)
  {
    FirstDayGrows(m, m + 1);
  }

  /** In its creation hour a month's local date is the 24th, 25th or 26th. */
  lemma CreationAims(t: nat, offset: int, m: nat)
    requires ClockOk(t, offset) && Hour(t) == CreationHour(m)
    ensures CreationDue(t) && LocalMonth(t, offset) == m && NextMonth(LocalDay(t, offset)) == m + 1
  {
    var d := LocalDay(t, offset);
    CreationDueIsItsHour(t);
    FirstDayGrows(m, m + 1);
    assert FirstDay(m) + 23 <= d <= FirstDay(m) + 25;
    MonthIsUnique(d, m);
    AddMonthsLands(d, 1);
  }

  lemma NextMonthIsNear(today: nat)
    ensures MonthOf(today) < NextMonth(today) <= MonthOf(today) + 2
  {
    AddMonthsLands(today, 1);
  }

  lemma TickKeeps(db: Db, t: nat, offset: int, k: nat, m: nat)
    requires ClockOk(t, offset) && Honest(db) && LocalMonth(t, offset) + 2 < 120000 && k < 2
    ensures Honest(Tick(db, t, offset))
    ensures LocalMonth(t, offset) <= m < 120000 && Has(db, k, m) ==> Has(Tick(db, t, offset), k, m)
    ensures CreationDue(t) && m == NextMonth(LocalDay(t, offset)) ==> Has(Tick(db, t, offset), k, m)
    ensures Name(Tables[k], m) in Tick(db, t, offset) && m < 120000 ==>
              Name(Tables[k], m) in db || (CreationDue(t) && m == NextMonth(LocalDay(t, offset)))
  {
    var today := LocalDay(t, offset);
    NextMonthIsNear(today);
    CleanupKeepsRecent(db, today);
    var db' := if CleanupDue(t) then Cleanup(db, today) else db;
    if CreationDue(t) {
      EnsureCreates(db', today);
      if m < 120000 {
        NamesDiffer(k, 0, m, NextMonth(today));
        NamesDiffer(k, 1, m, NextMonth(today));
      }
    }
  }

  /** The months that table k has. */
  ghost function Months(db: Db, k: nat): iset<nat>
    requires k < 2
  {
    iset m: nat | m < 120000 && Has(db, k, m)
  }

  /** What a tick at t does to the months of a table. */
  ghost predicate TickFacts(months: iset<nat>, months': iset<nat>, t: nat, offset: int)
    requires ClockOk(t, offset)
  {
    && (forall m :: m in months && LocalMonth(t, offset) <= m ==> m in months')
    && (CreationDue(t) ==> NextMonth(LocalDay(t, offset)) in months')
    && (forall m :: m in months' ==> m in months || (CreationDue(t) && m == NextMonth(LocalDay(t, offset))))
  }

  lemma TickMonths(db: Db, t: nat, offset: int, k: nat)
    requires ClockOk(t, offset) && Honest(db) && LocalMonth(t, offset) + 2 < 120000 && k < 2
    ensures Honest(Tick(db, t, offset))
    ensures TickFacts(Months(db, k), Months(Tick(db, t, offset), k), t, offset)
  {
    TickKeeps(db, t, offset, k, 0);
    NextMonthIsNear(LocalDay(t, offset));
    forall m: nat | m < 120000
      ensures m in Months(db, k) && LocalMonth(t, offset) <= m ==> m in Months(Tick(db, t, offset), k)
      ensures CreationDue(t) && m == NextMonth(LocalDay(t, offset)) ==> m in Months(Tick(db, t, offset), k)
      ensures m in Months(Tick(db, t, offset), k) ==>
                m in Months(db, k) || (CreationDue(t) && m == NextMonth(LocalDay(t, offset)))
    {
      TickKeeps(db, t, offset, k, m);
    }
  }

  lemma EnsureMonths(db: Db, today: nat, k: nat)
    requires Honest(db) && NextMonth(today) < 120000 && k < 2
    ensures Honest(Ensure(db, today))
    ensures Months(Ensure(db, today), k) == Months(db, k) + iset{NextMonth(today)}
  {
    EnsureCreates(db, today);
    forall m: nat | m < 120000
      ensures m in Months(Ensure(db, today), k) <==> m in Months(db, k) || m == NextMonth(today)
    {
      NamesDiffer(k, 0, m, NextMonth(today));
      NamesDiffer(k, 1, m, NextMonth(today));
    }
  }

  /** The months of table k after each tick. */
  ghost function History(db: Db, k: nat, t0: nat, offset: int): nat -> iset<nat>
    requires k < 2 && ClockOk(t0, offset)
  {
    (n: nat) => Months(After(db, t0, offset, n), k)
  }

  /** A history of months that starts from `initial` and follows the ticks up to the last months of
      the year 9999. */
  ghost predicate Follows(ms: nat -> iset<nat>, initial: iset<nat>, t0: nat, offset: int)
    requires ClockOk(t0, offset)
  {
    && ms(0) == initial + iset{NextMonth(LocalDay(t0, offset))}
    && (forall n: nat :: FollowsAt(ms, t0, offset, n))
  }

  ghost predicate FollowsAt(ms: nat -> iset<nat>, t0: nat, offset: int, n: nat)
    requires ClockOk(t0, offset)
  {
    n > 0 && LocalMonth(t0 + 3600 * n, offset) + 2 < 120000 ==> TickFacts(ms(n - 1), ms(n), t0 + 3600 * n, offset)
  }

  lemma TickIsHonest(db: Db, t: nat, offset: int)
    requires ClockOk(t, offset) && Honest(db) && LocalMonth(t, offset) + 2 < 120000
    ensures Honest(Tick(db, t, offset))
  {
    TickKeeps(db, t, offset, 0, 0);
  }

  lemma EnsureIsHonest(db: Db, today: nat)
    requires Honest(db) && NextMonth(today) < 120000
    ensures Honest(Ensure(db, today))
  {
    EnsureCreates(db, today);
  }

  lemma StartIsHonest(db: Db, t0: nat, offset: int)
    requires ClockOk(t0, offset) && Honest(db) && LocalMonth(t0, offset) + 2 < 120000
    ensures Honest(After(db, t0, offset, 0))
  {
    NextMonthIsNear(LocalDay(t0, offset));
    EnsureIsHonest(db, LocalDay(t0, offset));
  }

  lemma HonestNext(db: Db, t0: nat, offset: int, n: nat) returns (after: Db)
    requires ClockOk(t0, offset) && n > 0 && Honest(After(db, t0, offset, n - 1))
    requires LocalMonth(t0 + 3600 * n, offset) + 2 < 120000
    ensures after == After(db, t0, offset, n) && Honest(after)
  {
    after := Tick(After(db, t0, offset, n - 1), t0 + 3600 * n, offset);
    TickIsHonest(After(db, t0, offset, n - 1), t0 + 3600 * n, offset);
  }

  lemma {:induction false} StaysHonest(db: Db, t0: nat, offset: int, n: nat)
    requires ClockOk(t0, offset) && Honest(db) && LocalMonth(t0 + 3600 * n, offset) + 2 < 120000
    ensures Honest(After(db, t0, offset, n))
  {
    if n == 0 {
      StartIsHonest(db, t0, offset);
    } else {
      MonthsGoOn(t0 + 3600 * (n - 1), offset, t0 + 3600 * n);
      StaysHonest(db, t0, offset, n - 1);
      var after := HonestNext(db, t0, offset, n);
    }
  }

  lemma HistoryFollows(db: Db, k: nat, t0: nat, offset: int)
    requires k < 2 && ClockOk(t0, offset) && Honest(db) && LocalMonth(t0, offset) + 2 < 120000
    ensures Follows(History(db, k, t0, offset), Months(db, k), t0, offset)
  {
    NextMonthIsNear(LocalDay(t0, offset));
    EnsureMonths(db, LocalDay(t0, offset), k);
    forall n: nat ensures FollowsAt(History(db, k, t0, offset), t0, offset, n) {
      if n > 0 && LocalMonth(t0 + 3600 * n, offset) + 2 < 120000 {
        HistoryTick(db, k, t0, offset, n);
      }
    }
  }

  lemma HistoryTick(db: Db, k: nat, t0: nat, offset: int, n: nat)
    requires k < 2 && ClockOk(t0, offset) && Honest(db) && n > 0
    requires LocalMonth(t0 + 3600 * n, offset) + 2 < 120000
    ensures TickFacts(History(db, k, t0, offset)(n - 1), History(db, k, t0, offset)(n), t0 + 3600 * n, offset)
  {
    HonestBefore(db, t0, offset, n);
    var before, after := HistoryStep(db, k, t0, offset, n);
    HistoryAt(db, k, t0, offset, n - 1, before);
    HistoryAt(db, k, t0, offset, n, after);
  }

  lemma HistoryAt(db: Db, k: nat, t0: nat, offset: int, n: nat, months: iset<nat>)
    requires k < 2 && ClockOk(t0, offset) && months == Months(After(db, t0, offset, n), k)
    ensures History(db, k, t0, offset)(n) == months
  {
  }

  lemma HonestBefore(db: Db, t0: nat, offset: int, n: nat)
    requires ClockOk(t0, offset) && Honest(db) && n > 0 && LocalMonth(t0 + 3600 * n, offset) + 2 < 120000
    ensures Honest(After(db, t0, offset, n - 1))
  {
    EarlierMonth(t0, offset, n);
    StaysHonest(db, t0, offset, n - 1);
  }

  lemma HistoryStep(db: Db, k: nat, t0: nat, offset: int, n: nat) returns (before: iset<nat>, after: iset<nat>)
    requires k < 2 && ClockOk(t0, offset) && n > 0 && LocalMonth(t0 + 3600 * n, offset) + 2 < 120000
    requires Honest(After(db, t0, offset, n - 1))
    ensures before == Months(After(db, t0, offset, n - 1), k) && after == Months(After(db, t0, offset, n), k)
    ensures TickFacts(before, after, t0 + 3600 * n, offset)
  {
    var was, t := After(db, t0, offset, n - 1), t0 + 3600 * n;
    before, after := TickedMonths(was, t, offset, k);
    assert After(db, t0, offset, n) == Tick(was, t, offset);
  }

  lemma TickedMonths(db: Db, t: nat, offset: int, k: nat) returns (before: iset<nat>, after: iset<nat>)
    requires k < 2 && ClockOk(t, offset) && Honest(db) && LocalMonth(t, offset) + 2 < 120000
    ensures before == Months(db, k) && after == Months(Tick(db, t, offset), k)
    ensures TickFacts(before, after, t, offset)
  {
    TickMonths(db, t, offset, k);
    before, after := Months(db, k), Months(Tick(db, t, offset), k);
  }

  lemma MonthsGoOn(t0: nat, offset: int, t: nat)
    requires ClockOk(t0, offset) && t0 <= t
    ensures LocalMonth(t0, offset) <= LocalMonth(t, offset)
  {
    MonthIsMonotone(LocalDay(t0, offset), LocalDay(t, offset));
  }

  /** This month is there and, from its creation hour on, the next one. */
  ghost predicate Ready(months: iset<nat>, t: nat, offset: int)
    requires ClockOk(t, offset)
  {
    var m := LocalMonth(t, offset);
    m in months && (CreationHour(m) <= Hour(t) ==> m + 1 in months)
  }

  lemma ReadyStep(months: iset<nat>, months': iset<nat>, t: nat, offset: int)
    requires ClockOk(t, offset) && Ready(months, t, offset)
    requires TickFacts(months, months', t + 3600, offset)
    ensures Ready(months', t + 3600, offset)
  {
    var t', m := t + 3600, LocalMonth(t, offset);
    LocalMonthByInstants(t, offset, m);
    if t' < Begins(m + 1, offset) {
      LocalMonthByInstants(t', offset, m);
      ReadyInMonth(months, months', t, offset, m);
    } else {
      NextMonthStarts(t, offset, m);
    }
  }

  lemma ReadyInMonth(months: iset<nat>, months': iset<nat>, t: nat, offset: int, m: nat)
    requires ClockOk(t, offset) && Ready(months, t, offset) && TickFacts(months, months', t + 3600, offset)
    requires m == LocalMonth(t, offset) == LocalMonth(t + 3600, offset)
    requires Begins(m, offset) <= t && t + 3600 < Begins(m + 1, offset)
    ensures Ready(months', t + 3600, offset)
  {
    assert Hour(t + 3600) == Hour(t) + 1;
    if Hour(t + 3600) == CreationHour(m) {
      CreationAims(t + 3600, offset, m);
    }
  }

  /** A tick that crosses into the next month comes after one month's creation hour and before the
      other's. */
  lemma NextMonthStarts(t: nat, offset: int, m: nat)
    requires ClockOk(t, offset) && Begins(m, offset) <= t < Begins(m + 1, offset) <= t + 3600
    ensures LocalMonth(t + 3600, offset) == m + 1 && CreationHour(m) <= Hour(t) && Hour(t + 3600) < CreationHour(m + 1)
  {
    CreationComesInTime(t, offset, m);
    CreationComesInTime(t + 3600, offset, m + 1);
    LocalMonthByInstants(t + 3600, offset, m + 1);
  }

  /** The start-up call reaches the next month, or that month is there already. */
  ghost predicate StartReaches(months: iset<nat>, t0: nat, offset: int)
    requires ClockOk(t0, offset)
  {
    var m := LocalMonth(t0, offset);
    DayOfMonth(LocalDay(t0, offset)) <= DaysIn(m + 1) || m + 1 in months
  }

  lemma ReadyStart(ms: nat -> iset<nat>, initial: iset<nat>, t0: nat, offset: int)
    requires ClockOk(t0, offset) && Follows(ms, initial, t0, offset)
    requires LocalMonth(t0, offset) in initial && StartReaches(initial, t0, offset)
    ensures Ready(ms(0), t0, offset)
  {
    AddMonthsLands(LocalDay(t0, offset), 1);
  }

  lemma {:induction false} ReadyRun(ms: nat -> iset<nat>, initial: iset<nat>, t0: nat, offset: int, n: nat)
    requires ClockOk(t0, offset) && Follows(ms, initial, t0, offset)
    requires LocalMonth(t0, offset) in initial && StartReaches(initial, t0, offset)
    requires LocalMonth(t0 + 3600 * n, offset) + 2 < 120000
    ensures Ready(ms(n), t0 + 3600 * n, offset)
  {
    if n == 0 {
      ReadyStart(ms, initial, t0, offset);
    } else {
      EarlierMonth(t0, offset, n);
      ReadyRun(ms, initial, t0, offset, n - 1);
      ReadyNext(ms, initial, t0, offset, n);
    }
  }

  lemma ReadyNext(ms: nat -> iset<nat>, initial: iset<nat>, t0: nat, offset: int, n: nat)
    requires ClockOk(t0, offset) && Follows(ms, initial, t0, offset) && n > 0
    requires Ready(ms(n - 1), t0 + 3600 * (n - 1), offset) && LocalMonth(t0 + 3600 * n, offset) + 2 < 120000
    ensures Ready(ms(n), t0 + 3600 * n, offset)
  {
    assert FollowsAt(ms, t0, offset, n);
    ReadyStep(ms(n - 1), ms(n), t0 + 3600 * (n - 1), offset);
  }

  lemma EarlierMonth(t0: nat, offset: int, n: nat)
    requires ClockOk(t0, offset) && n > 0
    ensures LocalMonth(t0 + 3600 * (n - 1), offset) <= LocalMonth(t0 + 3600 * n, offset)
  {
    MonthsGoOn(t0 + 3600 * (n - 1), offset, t0 + 3600 * n);
  }

  lemma ReadyCovers(months: iset<nat>, t: nat, offset: int, u: nat)
    requires ClockOk(t, offset) && Ready(months, t, offset) && t <= u < t + 3600
    ensures LocalMonth(u, offset) in months
  {
    var m := LocalMonth(t, offset);
    LocalMonthByInstants(t, offset, m);
    CreationComesInTime(t, offset, m);
    CreationComesInTime(t, offset, m + 1);
    LocalMonthByInstants(u, offset, m);
    LocalMonthByInstants(u, offset, m + 1);
  }

  /** Between tick n and the next, at every instant up to the last months of the year 9999, the
      local month is in the history. */
  ghost predicate Covered(ms: nat -> iset<nat>, t0: nat, offset: int)
    requires ClockOk(t0, offset)
  {
    forall n: nat, t: nat ::
      t0 + 3600 * n <= t < t0 + 3600 * (n + 1) && LocalMonth(t, offset) + 2 < 120000 ==>
        LocalMonth(t, offset) in ms(n)
  }

  lemma StartReachesCovers(ms: nat -> iset<nat>, initial: iset<nat>, t0: nat, offset: int)
    requires ClockOk(t0, offset) && Follows(ms, initial, t0, offset)
    requires LocalMonth(t0, offset) in initial && StartReaches(initial, t0, offset)
    ensures Covered(ms, t0, offset)
  {
    forall n: nat, t: nat | t0 + 3600 * n <= t < t0 + 3600 * (n + 1) && LocalMonth(t, offset) + 2 < 120000
      ensures LocalMonth(t, offset) in ms(n)
    {
      InstantIsCovered(ms, initial, t0, offset, n, t);
    }
  }

  lemma InstantIsCovered(ms: nat -> iset<nat>, initial: iset<nat>, t0: nat, offset: int, n: nat, t: nat)
    requires ClockOk(t0, offset) && Follows(ms, initial, t0, offset)
    requires LocalMonth(t0, offset) in initial && StartReaches(initial, t0, offset)
    requires t0 + 3600 * n <= t < t0 + 3600 * (n + 1) && LocalMonth(t, offset) + 2 < 120000
    ensures LocalMonth(t, offset) in ms(n)
  {
    MonthsGoOn(t0 + 3600 * n, offset, t);
    ReadyRun(ms, initial, t0, offset, n);
    ReadyCovers(ms(n), t0 + 3600 * n, offset, t);
  }

  /** A start that overshoots: nothing creates the skipped month before it begins. */
  lemma {:induction false} SkippedStaysMissing(ms: nat -> iset<nat>, initial: iset<nat>, t0: nat, offset: int, n: nat)
    requires ClockOk(t0, offset) && Follows(ms, initial, t0, offset) && LocalMonth(t0, offset) + 3 < 120000
    requires !StartReaches(initial, t0, offset)
    requires t0 + 3600 * n <= Begins(LocalMonth(t0, offset) + 1, offset)
    ensures LocalMonth(t0, offset) + 1 !in ms(n)
  {
    if n == 0 {
      AddMonthsLands(LocalDay(t0, offset), 1);
    } else {
      var t := t0 + 3600 * n;
      assert FollowsAt(ms, t0, offset, n);
      SkippedStaysMissing(ms, initial, t0, offset, n - 1);
      NoCreationAfterOvershoot(t0, offset, t);
      LocalMonthIsNear(t0, offset, t);
    }
  }

  lemma LocalMonthIsNear(t0: nat, offset: int, t: nat)
    requires ClockOk(t0, offset) && t0 <= t <= Begins(LocalMonth(t0, offset) + 1, offset)
    ensures LocalMonth(t, offset) <= LocalMonth(t0, offset) + 1
  {
    var m := LocalMonth(t0, offset);
    LocalMonthByInstants(t0, offset, m);
    CreationComesInTime(t0, offset, m + 1);
    LocalMonthByInstants(t, offset, m);
    LocalMonthByInstants(t, offset, m + 1);
  }

  lemma NoCreationAfterOvershoot(t0: nat, offset: int, t: nat)
    requires ClockOk(t0, offset) && DayOfMonth(LocalDay(t0, offset)) > 28
    requires t0 <= t <= Begins(LocalMonth(t0, offset) + 1, offset)
    ensures !CreationDue(t)
  {
    var m := LocalMonth(t0, offset);
    CreationComesInTime(t, offset, m + 1);
    assert CreationHour(m) < Hour(t0) <= Hour(t) < CreationHour(m + 1);
    if CreationDue(t) {
      CreationDueIsItsHour(t);
      var n := MonthOf(UtcDay(t));
      if n <= m {
        FirstDayGrows(n, m);
      } else {
        FirstDayGrows(m + 1, n);
      }
    }
  }

  lemma NextMonthBegins(t0: nat, offset: int) returns (t: nat, n: nat)
    requires ClockOk(t0, offset)
    ensures t == Begins(LocalMonth(t0, offset) + 1, offset) && t0 < t
    ensures LocalMonth(t, offset) == LocalMonth(t0, offset) + 1
    ensures t0 + 3600 * n <= t < t0 + 3600 * (n + 1)
  {
    var m := LocalMonth(t0, offset);
    LocalMonthByInstants(t0, offset, m);
    t := Begins(m + 1, offset);
    n := (t - t0) / 3600;
    CreationComesInTime(t, offset, m + 1);
    LocalMonthByInstants(t, offset, m + 1);
  }

  /** The first instant of the skipped month is not covered. */
  lemma OvershootUncovers(ms: nat -> iset<nat>, initial: iset<nat>, t0: nat, offset: int)
    requires ClockOk(t0, offset) && Follows(ms, initial, t0, offset) && LocalMonth(t0, offset) + 3 < 120000
    requires !StartReaches(initial, t0, offset)
    ensures !Covered(ms, t0, offset)
  {
    var t, n := NextMonthBegins(t0, offset);
    SkippedStaysMissing(ms, initial, t0, offset, n);
  }

  /** The partition of the current month is there, with its bounds, at every instant of the run
      exactly when the start-up call reaches the following month: when that month has the day of the
      start, or when its partition was there already. A start on the 28th or before always does. */
  lemma CoveredExactlyWhenStartReaches(db: Db, k: nat, t0: nat, offset: int)
    requires k < 2 && ClockOk(t0, offset) && Honest(db) && LocalMonth(t0, offset) in Months(db, k)
    requires LocalMonth(t0, offset) + 3 < 120000
    ensures Covered(History(db, k, t0, offset), t0, offset) <==> StartReaches(Months(db, k), t0, offset)
    ensures DayOfMonth(LocalDay(t0, offset)) <= 28 ==> StartReaches(Months(db, k), t0, offset)
  {
    HistoryFollows(db, k, t0, offset);
    if StartReaches(Months(db, k), t0, offset) {
      StartReachesCovers(History(db, k, t0, offset), Months(db, k), t0, offset);
    } else {
      OvershootUncovers(History(db, k, t0, offset), Months(db, k), t0, offset);
    }
  }
}
