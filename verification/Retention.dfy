/** Whether the yearly retention is ever applied. The cleanup runs when an hourly tick falls into the first
    five minutes of the hour 03 UTC (cmd/server/main.go); an hourly ticker keeps the minute of its start. */
module Retention {
  import opened Common
  import opened Calendar
  import opened Partitions

  /** Tick k cleans up exactly when the start was in the first five minutes of an hour and the tick is in
      hour 03. */
  lemma CleanupFollowsStartMinute(t0: nat, k: nat)
    ensures CleanupDue(t0 + 3600 * k) <==> t0 / 60 % 60 < 5 && (t0 / 3600 + k) % 24 == 3
  {
    var m := t0 / 60;
    assert (t0 + 3600 * k) / 60 == m + 60 * k;
    assert (m + 60 * k) % 60 == m % 60;
    HourAdvances(t0, k);
  }

  predicate CleansAt(t0: nat, k: nat) { CleanupDue(t0 + 3600 * k) }

  /** So of any 24 ticks in a row exactly one cleans up, or none ever does. */
  lemma DailyOrNever(t0: nat, n: nat)
    ensures t0 / 60 % 60 < 5 ==>
              exists j: nat :: n <= j < n + 24 && CleansAt(t0, j)
                               && forall i: nat :: n <= i < n + 24 && CleansAt(t0, i) ==> i == j
    ensures t0 / 60 % 60 >= 5 ==> forall j: nat :: !CleansAt(t0, j)
  {
    var h := t0 / 3600 + n;
    var j: nat := n + (27 - h % 24) % 24;
    ThreeOClock(h);
    forall i: nat ensures CleansAt(t0, i) <==> t0 / 60 % 60 < 5 && (t0 / 3600 + i) % 24 == 3 {
      CleanupFollowsStartMinute(t0, i);
    }
    assert t0 / 3600 + j == h + (27 - h % 24) % 24;
    forall i: nat | n <= i < n + 24 && CleansAt(t0, i) ensures t0 / 60 % 60 < 5 ==> i == j {
      SameHourOfDay(t0 / 3600 + i, t0 / 3600 + j);
    }
    assert t0 / 60 % 60 < 5 ==> CleansAt(t0, j);
  }

  lemma ThreeOClock(h: nat)
    ensures (h + (27 - h % 24) % 24) % 24 == 3
  {
  }

  lemma SameHourOfDay(a: nat, b: nat)
    requires a % 24 == b % 24 && -24 < a - b < 24
    ensures a == b
  {
  }

  /** A tick creates no month before the current one. */
  lemma TickCreatesNoOldMonth(db: Db, t: nat, offset: int, k: nat, m: nat)
    requires k < 2 && ClockOk(t, offset) && m <= LocalMonth(t, offset) && LocalMonth(t, offset) + 2 < 120000
    ensures Name(Tables[k], m) in Tick(db, t, offset) ==> Name(Tables[k], m) in db
  {
    var next := NextMonth(LocalDay(t, offset));
    NextMonthIsNear(LocalDay(t, offset));
    NamesDiffer(k, 0, m, next);
    NamesDiffer(k, 1, m, next);
  }

  /** A history of the partitions that follows the ticks. */
  ghost predicate TicksOn(dbs: nat -> Db, t0: nat, offset: int)
    requires ClockOk(t0, offset)
  {
    forall n: nat :: n > 0 ==> TickAt(dbs, t0, offset, n)
  }

  predicate TickAt(dbs: nat -> Db, t0: nat, offset: int, n: nat)
    requires ClockOk(t0, offset) && n > 0
  {
    dbs(n) == Tick(dbs(n - 1), t0 + 3600 * n, offset)
  }

  /** What a cleanup drops stays dropped. */
  lemma {:induction false} OldMonthStaysAway(dbs: nat -> Db, t0: nat, offset: int, k: nat, m: nat, j: nat, n: nat)
    requires k < 2 && ClockOk(t0, offset) && TicksOn(dbs, t0, offset) && j <= n && m <= LocalMonth(t0, offset)
    requires LocalMonth(t0 + 3600 * n, offset) + 2 < 120000
    requires Name(Tables[k], m) !in dbs(j)
    ensures Name(Tables[k], m) !in dbs(n)
    decreases n
  {
    if j < n {
      EarlierMonth(t0, offset, n);
      OldMonthStaysAway(dbs, t0, offset, k, m, j, n - 1);
      OldMonthDoesNotReturn(dbs, t0, offset, k, m, n);
    }
  }

  lemma OldMonthDoesNotReturn(dbs: nat -> Db, t0: nat, offset: int, k: nat, m: nat, n: nat)
    requires k < 2 && ClockOk(t0, offset) && TicksOn(dbs, t0, offset) && n > 0 && m <= LocalMonth(t0, offset)
    requires LocalMonth(t0 + 3600 * n, offset) + 2 < 120000
    ensures Name(Tables[k], m) in dbs(n) ==> Name(Tables[k], m) in dbs(n - 1)
  {
    MonthsGoOn(t0, offset, t0 + 3600 * n);
    TickCreatesNoOldMonth(dbs(n - 1), t0 + 3600 * n, offset, k, m);
    assert TickAt(dbs, t0, offset, n);
  }

  /** A tick that cleans up drops a month more than twelve back. */
  lemma CleaningTickDrops(db: Db, t: nat, offset: int, k: nat, m: nat)
    requires k < 2 && ClockOk(t, offset) && CleanupDue(t) && m + 12 < LocalMonth(t, offset)
    requires LocalMonth(t, offset) + 2 < 120000
    ensures Name(Tables[k], m) !in Tick(db, t, offset)
  {
    var today := LocalDay(t, offset);
    if Name(Tables[k], m) in db {
      CleanupDropsExactlyOldMonths(db, today, k, m);
    } else {
      DropOldAdds(db, Cutoff(today));
    }
    var next := NextMonth(today);
    NextMonthIsNear(today);
    NamesDiffer(k, 0, m, next);
    NamesDiffer(k, 1, m, next);
  }

  lemma DropOldAdds(db: Db, c: nat)
    ensures DropOld(DropOld(db, Tables[0], c), Tables[1], c).Keys <= db.Keys
  {
  }

  lemma DroppedAtTick(dbs: nat -> Db, k: nat, m: nat, t0: nat, offset: int, j: nat)
    requires k < 2 && ClockOk(t0, offset) && TicksOn(dbs, t0, offset) && m + 12 < LocalMonth(t0, offset)
    requires j > 0 && CleansAt(t0, j) && LocalMonth(t0 + 3600 * j, offset) + 2 < 120000
    ensures Name(Tables[k], m) !in dbs(j)
  {
    MonthsGoOn(t0, offset, t0 + 3600 * j);
    CleaningTickDrops(dbs(j - 1), t0 + 3600 * j, offset, k, m);
    assert TickAt(dbs, t0, offset, j);
  }

  lemma StartedEarly(dbs: nat -> Db, k: nat, m: nat, t0: nat, offset: int, n: nat)
    requires k < 2 && ClockOk(t0, offset) && TicksOn(dbs, t0, offset) && m + 12 < LocalMonth(t0, offset)
    requires n >= 24 && LocalMonth(t0 + 3600 * n, offset) + 2 < 120000 && t0 / 60 % 60 < 5
    ensures Name(Tables[k], m) !in dbs(n)
  {
    DailyOrNever(t0, 1);
    var j: nat :| 1 <= j < 25 && CleansAt(t0, j);
    MonthsGoOn(t0 + 3600 * j, offset, t0 + 3600 * n);
    DroppedAtTick(dbs, k, m, t0, offset, j);
    OldMonthStaysAway(dbs, t0, offset, k, m, j, n);
  }

  /** Nothing is dropped without a cleanup. */
  lemma {:induction false} NothingGoes(dbs: nat -> Db, t0: nat, offset: int, n: nat, name: string)
    requires ClockOk(t0, offset) && TicksOn(dbs, t0, offset) && name in dbs(0) && forall j: nat :: !CleansAt(t0, j)
    ensures name in dbs(n)
  {
    if n > 0 {
      NothingGoes(dbs, t0, offset, n - 1, name);
      assert TickAt(dbs, t0, offset, n) && !CleansAt(t0, n);
    }
  }

  lemma Histories(db: Db, t0: nat, offset: int) returns (dbs: nat -> Db)
    requires ClockOk(t0, offset)
    ensures TicksOn(dbs, t0, offset) && forall i: nat :: dbs(i) == After(db, t0, offset, i)
  {
    dbs := (i: nat) => After(db, t0, offset, i);
    assert TicksOn(dbs, t0, offset);
  }

  /** A server whose scheduler starts in the first five minutes of an hour has dropped, a day later, every
      partition that was more than twelve months old at its start; one that starts later in the hour never
      drops any, however long it runs. */
  lemma OldPartitionsGoExactlyWhenStartedEarly(db: Db, k: nat, m: nat, t0: nat, offset: int, n: nat)
    requires k < 2 && ClockOk(t0, offset) && Name(Tables[k], m) in db && m + 12 < LocalMonth(t0, offset)
    requires n >= 24 && LocalMonth(t0 + 3600 * n, offset) + 2 < 120000
    ensures Name(Tables[k], m) !in After(db, t0, offset, n) <==> t0 / 60 % 60 < 5
  {
    var dbs := Histories(db, t0, offset);
    if t0 / 60 % 60 < 5 {
      StartedEarly(dbs, k, m, t0, offset, n);
    } else {
      DailyOrNever(t0, 1);
      NothingGoes(dbs, t0, offset, n, Name(Tables[k], m));
    }
  }
}
