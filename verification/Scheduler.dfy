/** The two jobs and the ticker loop, as they change the partition table in place. */
module Scheduler {
  import opened Common
  import opened Calendar
  import opened Partitions

  /** Both tables have month m's partition, from its first day to before the next month's; nothing else is
      new, and nothing that was there has changed. */
  ghost predicate CreatesNextMonth(db: Db, db': Db, m: nat) {
    var events, requests := "usage_events_" + Suffix(m), "proxy_requests_" + Suffix(m);
    && (forall name :: name in db' <==> name in db || name == events || name == requests)
    && (forall name :: name in db ==> db'[name] == db[name])
    && (events !in db ==> db'[events] == Range(FirstDay(m), FirstDay(m + 1)))
    && (requests !in db ==> db'[requests] == Range(FirstDay(m), FirstDay(m + 1)))
  }

  lemma EnsureCreatesNextMonth(db: Db, today: nat)
    ensures CreatesNextMonth(db, Ensure(db, today), MonthOf(AddMonths(today, 1)))
  {
    var m := MonthOf(AddMonths(today, 1));
    assert Name(Tables[0], m) == "usage_events_" + Suffix(m) && Name(Tables[1], m) == "proxy_requests_" + Suffix(m);
  }

  class Jobs {
    var partitions: Db

    constructor (db: Db)
      ensures partitions == db
    {
      partitions := db;
    }

    /** PartitionJob.EnsureNextMonth. */
    method EnsureNextMonth(today: nat)
      modifies this
      ensures partitions == Ensure(old(partitions), today)
      ensures CreatesNextMonth(old(partitions), partitions, MonthOf(AddMonths(today, 1)))
    {
      var start := MonthOf(AddMonths(today, 1));
      var r := Range(FirstDay(start), AddMonths(FirstDay(start), 1));
      MonthIsUnique(FirstDay(start), start);
      assert r == MonthRange(start);
      ghost var db := partitions;
      for i := 0 to |Tables|
        invariant i == 0 ==> partitions == db
        invariant i == 1 ==> partitions == Create(db, Name(Tables[0], start), r)
        invariant i == 2 ==> partitions == Ensure(db, today)
      {
        var name := Tables[i] + "_" + Suffix(start);
        assert name == Name(Tables[i], start);
        if name !in partitions {
          partitions := partitions[name := r];
        }
      }
      EnsureCreatesNextMonth(db, today);
    }

    /** CleanupJob.dropOldPartitions: list, then drop one by one. */
    method DropOldPartitions(table: string, cutoff: nat)
      modifies this
      ensures partitions == DropOld(old(partitions), table, cutoff)
      ensures forall name :: name in partitions ==> name in old(partitions) && partitions[name] == old(partitions)[name]
      ensures forall name :: name in old(partitions) ==>
                (name !in partitions <==>
                  && |table| < |name| && (forall i :: 0 <= i < |table| ==> table[i] == '_' || name[i] == table[i])
                  && exists k: nat :: LessAt(name, table + "_" + Suffix(MonthOf(cutoff)), k))
    {
      var last := table + "_" + Suffix(MonthOf(cutoff));
      assert last == Name(table, MonthOf(cutoff));
      var names := set name | name in partitions && LikeTable(name, table) && NameLess(name, last);
      ghost var db := partitions;
      while names != {}
        invariant names <= partitions.Keys <= db.Keys
        invariant forall name :: name in partitions ==> partitions[name] == db[name]
        invariant forall name :: name in names ==> Selected(name, table, cutoff)
        invariant forall name :: name in partitions && name !in names ==> !Selected(name, table, cutoff)
        invariant forall name :: name in db && name !in partitions ==> Selected(name, table, cutoff)
        decreases names
      {
        var name :| name in names;
        partitions := partitions - {name};
        names := names - {name};
      }
      assert partitions == DropOld(db, table, cutoff);
      forall name ensures NameLess(name, last) <==> exists k: nat :: LessAt(name, last, k) {
        NameLessExactly(name, last);
      }
    }

    /** CleanupJob.Run, on the partitioned tables. */
    method CleanupRun(today: nat)
      modifies this
      ensures partitions == Cleanup(old(partitions), today)
      ensures MonthOf(today) < 120000 ==> RetentionIsAYear(old(partitions), partitions, today)
    {
      var cutoff := Cutoff(today);
      DropOldPartitions(Tables[0], cutoff);
      DropOldPartitions(Tables[1], cutoff);
      if MonthOf(today) < 120000 {
        CleanupKeepsAYear(old(partitions), today);
      }
    }

    /** One iteration of the ticker loop. */
    method OnTick(now: nat, offset: int)
      requires 0 <= now + offset
      modifies this
      ensures partitions == Tick(old(partitions), now, offset)
      ensures var today, cleans := (now + offset) / 86400, now / 3600 % 24 == 3 && now / 60 % 60 < 5;
              var creates := DayOfMonth(now / 86400) == 25 && now / 3600 % 24 == 12;
              && (cleans ==> partitions == Cleanup(old(partitions), today))
              && (creates ==> partitions == Ensure(old(partitions), today))
              && (!cleans && !creates ==> partitions == old(partitions))
    {
      if now / 3600 % 24 == 3 && now / 60 % 60 < 5 {
        CleanupRun(LocalDay(now, offset));
      }
      if DayOfMonth(UtcDay(now)) == 25 && now / 3600 % 24 == 12 {
        EnsureNextMonth(LocalDay(now, offset));
      }
    }

    /** The i-th iteration, of a loop entered at t0. */
    method TickAfter(ghost db: Db, t0: nat, offset: int, i: nat)
      requires ClockOk(t0, offset) && partitions == After(db, t0, offset, i)
      modifies this
      ensures partitions == After(db, t0, offset, i + 1)
    {
      OnTick(t0 + 3600 * (i + 1), offset);
    }

    /** runScheduler, up to a given tick. Started with the month's partition in place and a start-up
        call that reaches the next month, it ends with the partition of the month it ends in. */
    method RunScheduler(t0: nat, offset: int, ticks: nat)
      requires ClockOk(t0, offset)
      modifies this
      ensures partitions == After(old(partitions), t0, offset, ticks)
      ensures EndsCovered(old(partitions), partitions, t0, offset, ticks)
    {
      ghost var db := partitions;
      EnsureNextMonth(LocalDay(t0, offset));
      for i := 0 to ticks
        invariant partitions == After(db, t0, offset, i)
      {
        TickAfter(db, t0, offset, i);
      }
      RunEndsCovered(db, t0, offset, ticks);
    }
  }

  /** Of the partitions named after months, those go that are more than twelve months back, or eleven on a
      29 February whose predecessor year has none. */
  ghost predicate RetentionIsAYear(db: Db, db': Db, today: nat) {
    forall table: string, m: nat ::
      var name := table + "_" + Suffix(m);
      table in {"usage_events", "proxy_requests"} && m < 120000 && name in db ==>
        && (name !in db' <==>
              if MonthOf(today) >= 12 && DayOfMonth(today) > DaysIn(MonthOf(today) - 12) then m + 11 < MonthOf(today)
              else m + 12 < MonthOf(today))
        && (name in db' ==> db'[name] == db[name])
  }

  lemma CleanupKeepsAYear(db: Db, today: nat)
    requires MonthOf(today) < 120000
    ensures RetentionIsAYear(db, Cleanup(db, today), today)
  {
    forall table: string, m: nat |
      table in {"usage_events", "proxy_requests"} && m < 120000 && table + "_" + Suffix(m) in db
      ensures var name, db' := table + "_" + Suffix(m), Cleanup(db, today);
              && (name !in db' <==>
                    if MonthOf(today) >= 12 && DayOfMonth(today) > DaysIn(MonthOf(today) - 12)
                    then m + 11 < MonthOf(today) else m + 12 < MonthOf(today))
              && (name in db' ==> db'[name] == db[name])
    {
      var k: nat := if table == "usage_events" then 0 else 1;
      assert Name(Tables[k], m) == table + "_" + Suffix(m);
      CleanupDropsExactlyOldMonths(db, today, k, m);
    }
  }

  /** A run that could start ends with the partition of the month it ends in. */
  ghost predicate EndsCovered(db: Db, db': Db, t0: nat, offset: int, n: nat)
    requires ClockOk(t0, offset)
  {
    forall k: nat ::
      && k < 2 && Honest(db) && LocalMonth(t0, offset) in Months(db, k)
      && StartReaches(Months(db, k), t0, offset) && LocalMonth(t0 + 3600 * n, offset) + 2 < 120000
      ==> LocalMonth(t0 + 3600 * n, offset) in Months(db', k)
  }

  lemma RunEndsCovered(db: Db, t0: nat, offset: int, n: nat)
    requires ClockOk(t0, offset)
    ensures EndsCovered(db, After(db, t0, offset, n), t0, offset, n)
  {
    forall k: nat |
      && k < 2 && Honest(db) && LocalMonth(t0, offset) in Months(db, k)
      && StartReaches(Months(db, k), t0, offset) && LocalMonth(t0 + 3600 * n, offset) + 2 < 120000
      ensures LocalMonth(t0 + 3600 * n, offset) in Months(After(db, t0, offset, n), k)
    {
      TableEndsCovered(db, k, t0, offset, n);
    }
  }

  lemma TableEndsCovered(db: Db, k: nat, t0: nat, offset: int, n: nat)
    requires k < 2 && ClockOk(t0, offset) && Honest(db) && LocalMonth(t0, offset) in Months(db, k)
    requires StartReaches(Months(db, k), t0, offset)
    requires LocalMonth(t0 + 3600 * n, offset) + 2 < 120000
    ensures LocalMonth(t0 + 3600 * n, offset) in Months(After(db, t0, offset, n), k)
  {
    MonthsGoOn(t0, offset, t0 + 3600 * n);
    HistoryFollows(db, k, t0, offset);
    ReadyRun(History(db, k, t0, offset), Months(db, k), t0, offset, n);
  }
}
