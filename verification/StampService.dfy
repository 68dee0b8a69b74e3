/** The stamp service itself (service/proxy/service.go): the methods of Service over the two stores,
    each proved to take exactly steps of the machine in Ledger, so that a serial execution is one
    of its runs. */
module StampService {
  import opened Common
  import opened MapSum
  import opened Ledger
  import Fifo

  /** How the calls that one request makes turn out; upstream is None when none is configured. */
  datatype Outcome = Outcome(
    quotaFails: bool, quotaPresent: bool, redisOk: bool, dbOk: bool, seedOk: bool,
    upstream: Option<Sent>, millis: int, period: Period,
    insertOk: bool, upsertOk: bool, incrOk: bool)

  /** Send returns a response or an error. */
  predicate SentOk(o: Outcome) {
    o.upstream.Some? && !o.upstream.value.err ==> o.upstream.value.response.Some?
  }

  /** What the requests of one tenant read and write. */
  datatype Stores = Stores(rows: map<Period, Row>, log: seq<UsageEvent>, bundles: seq<nat>, counter: Option<int>,
                           contracted: Option<int>, setters: map<nat, int>)

  /** A total as the gate finds it: cached, else summed, else 0. */
  function Reading(cached: Option<int>, sum: int, o: Outcome): int {
    if o.redisOk && cached.Some? then cached.value else if o.dbOk then sum else 0
  }

  ghost function ContractedOf(s: Stores, o: Outcome): int { Reading(s.contracted, Fifo.Total(s.bundles), o) }

  ghost function ConsumedOf(s: Stores, o: Outcome): int { Reading(s.counter, Sum(s.rows, TotalWeight), o) }

  /** The client's answer as a function of the stores and of how the calls turn out. */
  ghost function ReplyTo(s: Stores, o: Outcome): Reply
    requires SentOk(o)
  {
    if o.quotaFails then InternalError
    else if o.quotaPresent && Rejects(ContractedOf(s, o), ConsumedOf(s, o)) then QuotaExceeded
    else if o.upstream.None? then UpstreamUnavailable
    else ReplyOf(o.upstream.value)
  }

  /** The stores after both readings. */
  ghost function AfterReadings(s: Stores, o: Outcome, setter: nat): Stores {
    s.(counter := if s.counter.Some? || !o.dbOk || !o.seedOk then s.counter else Some(Sum(s.rows, TotalWeight)),
       setters := if (o.redisOk && s.contracted.Some?) || !o.dbOk then s.setters
                  else s.setters[setter := Fifo.Total(s.bundles)])
  }

  /** The stores after one recorded request. */
  function AfterRecording(s: Stores, id: nat, status: Status, latency: Option<int>, o: Outcome): Stores {
    s.(rows := if o.upsertOk then Upsert(s.rows, o.period, status, Millis(latency)) else s.rows,
       log := if o.insertOk then s.log + [UsageEvent(id, o.period, status, latency)] else s.log,
       counter := if o.upsertOk && o.incrOk then Some((if s.counter.Some? then s.counter.value else 0) + 1)
                  else s.counter)
  }

  /** The stores after one request on its own. */
  ghost function Served(s: Stores, id: nat, o: Outcome, setter: nat): Stores
    requires SentOk(o)
  {
    if o.quotaFails then s
    else
      var read := if o.quotaPresent then AfterReadings(s, o, setter) else s;
      if ReplyTo(s, o).QuotaExceeded? then AfterRecording(read, id, Rejected, None, o)
      else if o.upstream.None? then read
      else AfterRecording(read, id, StatusOf(o.upstream.value), Some(o.millis), o)
  }

  lemma Overwrites(m: map<nat, Phase>, id: nat, a: Phase, b: Phase)
    ensures m[id := a][id := b] == m[id := b]
  {
  }

  lemma RunOne(w: World, s: Step)
    ensures Run(w, [s]) == Next(w, s)
  {
    RunSnoc(w, [], s);
    assert [] + [s] == [s];
  }

  /** The same, part by part. */
  lemma ServedInParts(s: Stores, id: nat, o: Outcome, setter: nat)
    requires SentOk(o) && !o.quotaFails && o.quotaPresent
    ensures var read := AfterReadings(s, o, setter);
            if 0 < ContractedOf(s, o) <= ConsumedOf(s, o)
            then
              && ReplyTo(s, o) == QuotaExceeded
              && Served(s, id, o, setter) == AfterRecording(read, id, Rejected, None, o)
            else
              && ReplyTo(s, o) == (if o.upstream.None? then UpstreamUnavailable else ReplyOf(o.upstream.value))
              && Served(s, id, o, setter)
                 == if o.upstream.None? then read
                    else AfterRecording(read, id, if ReplyTo(s, o).Stamped? then Success else Error, Some(o.millis), o)
  {
  }

  /** A request on its own consumes one stamp exactly when it is recorded and its upsert succeeds. */
  lemma ServedConsumesOne(s: Stores, id: nat, o: Outcome, setter: nat)
    requires SentOk(o)
    ensures var reply := ReplyTo(s, o);
            Sum(Served(s, id, o, setter).rows, TotalWeight)
            == Sum(s.rows, TotalWeight)
               + One(o.upsertOk && (reply.QuotaExceeded? || (!reply.InternalError? && o.upstream.Some?)))
  {
    UpsertAddsOne(s.rows, o.period, Rejected, 0);
    if o.upstream.Some? {
      UpsertAddsOne(s.rows, o.period, StatusOf(o.upstream.value), o.millis);
    }
  }

  class Service {
    var rows: map<Period, Row>
    var log: seq<UsageEvent>
    var bundles: seq<nat>
    var counter: Option<int>
    var contracted: Option<int>
    var setters: map<nat, int>
    ghost var reqs: map<nat, Phase>
    ghost var lead: int
    ghost var seedEpoch: Option<nat>
    ghost var disturbances: nat

    ghost function Snapshot(): World
      reads this
    {
      World(rows, log, bundles, counter, contracted, setters, reqs, lead, seedEpoch, disturbances)
    }

    /** The real fields. */
    ghost function Now(): Stores
      reads this
    {
      Stores(rows, log, bundles, counter, contracted, setters)
    }

    constructor ()
      ensures Boot(Snapshot()) && rows == map[] && log == [] && bundles == [] && contracted.None?
    {
      rows, log, bundles, counter, contracted, setters := map[], [], [], None, None, map[];
      reqs, lead, seedEpoch, disturbances := map[], 0, None, 0;
    }

    /** SELECT COALESCE(SUM(total_requests), 0). */
    method GetTotalConsumption() returns (total: int)
      ensures total == Consumed(Snapshot())
    {
      total := 0;
      var rest := rows;
      while rest != map[]
        invariant rest.Keys <= rows.Keys && forall p :: p in rest ==> rest[p] == rows[p]
        invariant total + Sum(rest, TotalWeight) == Sum(rows, TotalWeight)
        decreases |rest|
      {
        var p :| p in rest;
        SumRemove(rest, p, TotalWeight);
        total := total + rest[p].total;
        rest := rest - {p};
      }
    }

    /** SELECT COALESCE(SUM(amount), 0). */
    method GetTotalContracted() returns (total: int)
      ensures total == Fifo.Total(bundles)
    {
      total := 0;
      for i := 0 to |bundles|
        invariant total == Fifo.Total(bundles[..i])
      {
        total := total + bundles[i];
        assert bundles[..i + 1] == bundles[..i] + [bundles[i]];
        Fifo.TotalAppend(bundles[..i], bundles[i]);
      }
      assert bundles[..|bundles|] == bundles;
    }

    method GetCachedContracted(ghost r: nat, o: Outcome, setter: nat) returns (v: int, ghost steps: seq<Step>)
      requires r in reqs && reqs[r].AwaitContracted?
      modifies `reqs, `setters
      ensures Snapshot() == Run(old(Snapshot()), steps)
      ensures v == if o.redisOk && contracted.Some? then contracted.value else if o.dbOk then Fifo.Total(bundles) else 0
      ensures setters == if (o.redisOk && contracted.Some?) || !o.dbOk then old(setters) else old(setters)[setter := v]
      ensures reqs == old(reqs)[r := AwaitConsumed(v)]
    {
      ghost var w := Snapshot();
      if o.redisOk && contracted.Some? {
        v := contracted.value;
        reqs := reqs[r := AwaitConsumed(v)];
        steps := [ContractedHit(r)];
        RunSnoc(w, [], ContractedHit(r));
        assert Next(w, ContractedHit(r)) == GateNext(w, ContractedHit(r));
        return;
      }
      reqs := reqs[r := AwaitContractedSum];
      ghost var w1 := Snapshot();
      assert w1 == GateNext(w, ContractedMiss(r)) == Next(w, ContractedMiss(r));
      v := 0;
      if o.dbOk {
        v := GetTotalContracted();
        setters := setters[setter := v];
      }
      reqs := reqs[r := AwaitConsumed(v)];
      steps := [ContractedMiss(r)] + [ContractedSum(r, o.dbOk, setter)];
      RunSnoc(w, [], ContractedMiss(r));
      RunSnoc(w, [ContractedMiss(r)], ContractedSum(r, o.dbOk, setter));
      assert Snapshot() == GateNext(w1, ContractedSum(r, o.dbOk, setter));
    }

    method GetOrSeedConsumed(ghost r: nat, o: Outcome) returns (v: int, ghost steps: seq<Step>)
      requires r in reqs && reqs[r].AwaitConsumed?
      modifies `reqs, `counter, `lead, `seedEpoch
      ensures Snapshot() == Run(old(Snapshot()), steps)
      ensures v == if o.redisOk && old(counter).Some? then old(counter).value
                   else if o.dbOk then Sum(rows, TotalWeight) else 0
      ensures reqs == old(reqs)[r := AtGate(old(reqs[r].contracted), v)]
      ensures counter == (if old(counter.Some?) || !o.dbOk || !o.seedOk then old(counter) else Some(v))
    {
      ghost var w := Snapshot();
      ghost var c := reqs[r].contracted;
      if o.redisOk && counter.Some? {
        v := counter.value;
        reqs := reqs[r := AtGate(c, v)];
        steps := [ConsumedHit(r)];
        RunSnoc(w, [], ConsumedHit(r));
        assert Snapshot() == ReadingNext(w, ConsumedHit(r));
        return;
      }
      reqs := reqs[r := AwaitConsumedSum(c)];
      steps := [ConsumedMiss(r)];
      RunSnoc(w, [], ConsumedMiss(r));
      assert Snapshot() == ReadingNext(w, ConsumedMiss(r));
      ghost var more;
      v, more := ReadAndSeed(r, o);
      RunConcat(w, steps, more);
      steps := steps + more;
    }

    /** The cache-miss half of GetOrSeedConsumed. */
    method ReadAndSeed(ghost r: nat, o: Outcome) returns (v: int, ghost steps: seq<Step>)
      requires r in reqs && reqs[r].AwaitConsumedSum?
      modifies `reqs, `counter, `lead, `seedEpoch
      ensures Snapshot() == Run(old(Snapshot()), steps)
      ensures v == if o.dbOk then Sum(rows, TotalWeight) else 0
      ensures reqs == old(reqs)[r := AtGate(old(reqs[r].contracted), v)]
      ensures counter == (if old(counter.Some?) || !o.dbOk || !o.seedOk then old(counter) else Some(v))
    {
      ghost var w := Snapshot();
      ghost var c := reqs[r].contracted;
      steps := [ConsumedSum(r, o.dbOk)];
      RunSnoc(w, [], ConsumedSum(r, o.dbOk));
      if !o.dbOk {
        v := 0;
        reqs := reqs[r := AtGate(c, 0)];
        assert Snapshot() == ReadingNext(w, ConsumedSum(r, false));
        return;
      }
      v := GetTotalConsumption();
      reqs := reqs[r := AwaitSeed(c, v, PendingCount(w), disturbances)];
      assert Snapshot() == ReadingNext(w, ConsumedSum(r, true));
      SeedBundleConsumed(r, v, o.seedOk);
      RunSnoc(w, steps, Seed(r, o.seedOk));
      steps := steps + [Seed(r, o.seedOk)];
    }

    /** SETNX without a TTL. */
    method SeedBundleConsumed(ghost r: nat, value: int, ok: bool)
      requires r in reqs && reqs[r].AwaitSeed? && reqs[r].consumed == value
      modifies `reqs, `counter, `lead, `seedEpoch
      ensures Snapshot() == Next(old(Snapshot()), Seed(r, ok))
      ensures counter == (if ok && old(counter).None? then Some(value) else old(counter))
      ensures reqs == old(reqs)[r := AtGate(old(reqs[r].contracted), value)]
    {
      ghost var w, ph := Snapshot(), reqs[r];
      if ok && counter.None? {
        counter := Some(value);
        lead, seedEpoch := ph.pendingAtRead, Some(ph.epoch);
      }
      reqs := reqs[r := AtGate(ph.contracted, value)];
      assert Snapshot() == ReadingNext(w, Seed(r, ok));
    }

    /** INCR: a missing key counts from zero. */
    method IncrBundleConsumed(ghost r: nat, ok: bool)
      requires r in reqs && reqs[r].Pending?
      modifies `reqs, `counter, `lead, `seedEpoch, `disturbances
      ensures Snapshot() == Next(old(Snapshot()), Incr(r, ok))
      ensures ok ==> counter == Some((if old(counter).Some? then old(counter.value) else 0) + 1)
      ensures !ok ==> counter == old(counter)
      ensures reqs == old(reqs)[r := Finished(old(reqs[r].reply), true)]
    {
      ghost var w := Snapshot();
      reqs := reqs[r := Finished(reqs[r].reply, true)];
      if !ok {
        disturbances := disturbances + 1;
      } else if counter.Some? {
        counter := Some(counter.value + 1);
      } else {
        counter := Some(1);
        lead, seedEpoch := 0, None;
      }
      assert Snapshot() == RecorderNext(w, Incr(r, ok));
    }

    method UpsertMonthlyAggregate(ghost r: nat, period: Period, status: Status, millis: int, ok: bool)
      requires r in reqs && reqs[r].Inserted?
      requires reqs[r].period == period && reqs[r].status == status && Millis(reqs[r].latency) == millis
      modifies `reqs, `rows
      ensures Snapshot() == Next(old(Snapshot()), UpsertAggregate(r, ok))
      ensures rows == if ok then Upsert(old(rows), period, status, millis) else old(rows)
      ensures var was := if period in old(rows) then old(rows)[period] else Row(0, 0, 0, 0, 0);
              ok ==> rows == old(rows)[period := Row(was.total + 1,
                                                     if status == Success then was.succeeded + 1 else was.succeeded,
                                                     if status == Error then was.failed + 1 else was.failed,
                                                     if status == Rejected then was.rejected + 1 else was.rejected,
                                                     was.latency + millis)]
      ensures reqs == old(reqs)[r := if ok then Pending(old(reqs[r].reply)) else Finished(old(reqs[r].reply), false)]
    {
      ghost var w := Snapshot();
      if ok {
        rows := Upsert(rows, period, status, millis);
        reqs := reqs[r := Pending(reqs[r].reply)];
      } else {
        reqs := reqs[r := Finished(reqs[r].reply, false)];
      }
      assert Snapshot() == RecorderNext(w, UpsertAggregate(r, ok));
    }

    method InsertEvent(ghost r: nat, event: UsageEvent, ok: bool)
      requires r in reqs && reqs[r].Recording?
      requires event == UsageEvent(r, event.period, reqs[r].status, reqs[r].latency)
      modifies `reqs, `log
      ensures Snapshot() == Next(old(Snapshot()), Step.InsertEvent(r, ok, event.period))
      ensures log == if ok then old(log) + [event] else old(log)
      ensures reqs == old(reqs)[r := Inserted(event.status, old(reqs[r].reply), event.latency, event.period)]
    {
      ghost var w := Snapshot();
      if ok {
        log := log + [event];
      }
      reqs := reqs[r := Inserted(event.status, reqs[r].reply, event.latency, event.period)];
      assert Snapshot() == RecorderNext(w, Step.InsertEvent(r, ok, event.period));
    }

    /** The event, and the month's row. */
    method StoreUsage(ghost r: nat, id: nat, status: Status, latency: Option<int>, o: Outcome)
      returns (ghost steps: seq<Step>)
      requires id == r && r in reqs && reqs[r].Recording?
      requires reqs[r].status == status && reqs[r].latency == latency
      modifies `reqs, `log, `rows
      ensures Snapshot() == Run(old(Snapshot()), steps)
      ensures rows == if o.upsertOk
                      then Upsert(old(rows), o.period, status, if latency.Some? then latency.value else 0)
                      else old(rows)
      ensures log == if o.insertOk then old(log) + [UsageEvent(id, o.period, status, latency)] else old(log)
      ensures reqs == old(reqs)[r := if o.upsertOk then Pending(old(reqs[r].reply))
                                     else Finished(old(reqs[r].reply), false)]
    {
      ghost var w := Snapshot();
      InsertEvent(r, UsageEvent(id, o.period, status, latency), o.insertOk);
      ghost var w1 := Snapshot();
      ghost var insert, upsert := Step.InsertEvent(r, o.insertOk, o.period), UpsertAggregate(r, o.upsertOk);
      UpsertMonthlyAggregate(r, o.period, status, Millis(latency), o.upsertOk);
      RunOne(w, insert);
      RunOne(w1, upsert);
      RunOnto(w, [insert], [upsert], w1, Snapshot());
      steps := [insert] + [upsert];
      Overwrites(old(reqs), r, w1.reqs[r], reqs[r]);
    }

    method RecordUsage(ghost r: nat, id: nat, status: Status, latency: Option<int>, o: Outcome)
      returns (ghost steps: seq<Step>)
      requires id == r && r in reqs && reqs[r].Recording?
      requires reqs[r].status == status && reqs[r].latency == latency
      modifies `reqs, `log, `rows, `counter, `lead, `seedEpoch, `disturbances
      ensures Snapshot() == Run(old(Snapshot()), steps)
      ensures rows == if o.upsertOk
                      then Upsert(old(rows), o.period, status, if latency.Some? then latency.value else 0)
                      else old(rows)
      ensures counter == if o.upsertOk && o.incrOk
                         then Some((if old(counter).Some? then old(counter.value) else 0) + 1) else old(counter)
      ensures log == if o.insertOk then old(log) + [UsageEvent(id, o.period, status, latency)] else old(log)
      ensures Now() == AfterRecording(old(Now()), id, status, latency, o)
      ensures reqs == old(reqs)[r := Finished(old(reqs[r].reply), o.upsertOk)]
    {
      ghost var w := Snapshot();
      steps := StoreUsage(r, id, status, latency, o);
      if o.upsertOk {
        ghost var w1 := Snapshot();
        IncrBundleConsumed(r, o.incrOk);
        RunOne(w1, Incr(r, o.incrOk));
        RunOnto(w, steps, [Incr(r, o.incrOk)], w1, Snapshot());
        steps := steps + [Incr(r, o.incrOk)];
        Overwrites(old(reqs), r, w1.reqs[r], reqs[r]);
      }
    }

    /** Looks the quota row up. */
    method OpenRequest(id: nat, o: Outcome) returns (ghost steps: seq<Step>)
      requires id !in reqs
      modifies `reqs
      ensures Snapshot() == Run(old(Snapshot()), steps)
      ensures reqs == old(reqs)[id := if o.quotaFails then Finished(InternalError, false)
                                      else if o.quotaPresent then AwaitContracted else Sending]
    {
      ghost var w := Snapshot();
      ghost var s := if o.quotaFails then QuotaFails(id) else ReadQuota(id, o.quotaPresent);
      reqs := reqs[id := if o.quotaFails then Finished(InternalError, false)
                         else if o.quotaPresent then AwaitContracted else Sending];
      assert Snapshot() == GateNext(w, s);
      steps := [s];
      RunSnoc(w, [], s);
    }

    /** The comparison. */
    method PassGate(ghost id: nat, contractedTotal: int, consumedTotal: int) returns (rejected: bool)
      requires id in reqs && reqs[id] == AtGate(contractedTotal, consumedTotal)
      modifies `reqs
      ensures Snapshot() == Next(old(Snapshot()), Gate(id))
      ensures rejected <==> 0 < contractedTotal <= consumedTotal
      ensures reqs == old(reqs)[id := if rejected then Recording(Rejected, QuotaExceeded, None) else Sending]
    {
      ghost var w := Snapshot();
      rejected := consumedTotal >= contractedTotal && contractedTotal > 0;
      reqs := reqs[id := if rejected then Recording(Rejected, QuotaExceeded, None) else Sending];
      assert Snapshot() == ReadingNext(w, Gate(id));
    }

    /** Reads both totals and decides. */
    method CheckQuota(id: nat, o: Outcome, setter: nat) returns (rejected: bool, ghost steps: seq<Step>)
      requires id in reqs && reqs[id].AwaitContracted?
      modifies `reqs, `setters, `counter, `lead, `seedEpoch
      ensures Snapshot() == Run(old(Snapshot()), steps)
      ensures var c := if o.redisOk && contracted.Some? then contracted.value
                       else if o.dbOk then Fifo.Total(bundles) else 0;
              var n := if o.redisOk && old(counter).Some? then old(counter).value
                       else if o.dbOk then Sum(rows, TotalWeight) else 0;
              rejected <==> 0 < c <= n
      ensures Now() == AfterReadings(old(Now()), o, setter)
      ensures reqs == old(reqs)[id := if rejected then Recording(Rejected, QuotaExceeded, None) else Sending]
    {
      ghost var w := Snapshot();
      var contractedTotal, consumedTotal;
      ghost var more;
      contractedTotal, steps := GetCachedContracted(id, o, setter);
      consumedTotal, more := GetOrSeedConsumed(id, o);
      RunConcat(w, steps, more);
      steps := steps + more;
      rejected := PassGate(id, contractedTotal, consumedTotal);
      RunSnoc(w, steps, Gate(id));
      steps := steps + [Gate(id)];
    }

    /** The upstream's answer: the status to record and, decided separately, what to tell the client. */
    method SendUpstream(ghost id: nat, sent: Sent, millis: int) returns (status: Status, reply: Reply)
      requires id in reqs && reqs[id].Sending? && (!sent.err ==> sent.response.Some?)
      modifies `reqs
      ensures Snapshot() == Next(old(Snapshot()), Send(id, sent, millis))
      ensures reply == if !sent.err && sent.response.value < 500 then Stamped(sent.response.value)
                       else UpstreamUnavailable
      ensures status == if reply.Stamped? then Success else Error
      ensures reqs == old(reqs)[id := Recording(status, reply, Some(millis))]
    {
      ghost var w := Snapshot();
      status := if sent.err || sent.response.None? || sent.response.value >= 500 then Error else Success;
      if sent.err {
        reply := UpstreamUnavailable;
      } else if sent.response.value >= 500 {
        reply := UpstreamUnavailable;
      } else {
        reply := Stamped(sent.response.value);
      }
      reqs := reqs[id := Recording(status, reply, Some(millis))];
      assert Snapshot() == RecorderNext(w, Send(id, sent, millis));
    }

    /** Calls the upstream and records the outcome. */
    method Forward(id: nat, o: Outcome) returns (reply: Reply, ghost steps: seq<Step>)
      requires id in reqs && reqs[id].Sending? && SentOk(o)
      modifies `reqs, `log, `rows, `counter, `lead, `seedEpoch, `disturbances
      ensures Snapshot() == Run(old(Snapshot()), steps)
      ensures reply == if o.upstream.Some? && !o.upstream.value.err && o.upstream.value.response.value < 500
                       then Stamped(o.upstream.value.response.value) else UpstreamUnavailable
      ensures Now() == if o.upstream.None? then old(Now())
                       else AfterRecording(old(Now()), id, if reply.Stamped? then Success else Error, Some(o.millis), o)
      ensures reqs == old(reqs)[id := Finished(reply, o.upsertOk && o.upstream.Some?)]
    {
      ghost var w := Snapshot();
      if o.upstream.None? {
        reqs := reqs[id := Finished(UpstreamUnavailable, false)];
        steps := [NoUpstream(id)];
        RunSnoc(w, [], NoUpstream(id));
        assert Snapshot() == RecorderNext(w, NoUpstream(id));
        return UpstreamUnavailable, steps;
      }
      var status;
      status, reply := SendUpstream(id, o.upstream.value, o.millis);
      ghost var w1 := Snapshot();
      ghost var step := Send(id, o.upstream.value, o.millis);
      RunOne(w, step);
      ghost var more := RecordUsage(id, id, status, Some(o.millis), o);
      Overwrites(old(reqs), id, w1.reqs[id], reqs[id]);
      RunOnto(w, [step], more, w1, Snapshot());
      steps := [step] + more;
    }

    /** What follows a quota row that is there: the gate, then the recorder or the upstream. */
    method Guarded(id: nat, o: Outcome, setter: nat) returns (reply: Reply, ghost steps: seq<Step>)
      requires id in reqs && reqs[id].AwaitContracted? && SentOk(o) && !o.quotaFails && o.quotaPresent
      modifies this
      ensures Snapshot() == Run(old(Snapshot()), steps)
      ensures reply == ReplyTo(old(Now()), o) && Now() == Served(old(Now()), id, o, setter)
      ensures reqs == old(reqs)[id := Finished(reply, o.upsertOk && (reply.QuotaExceeded? || o.upstream.Some?))]
    {
      ghost var w := Snapshot();
      var rejected;
      ghost var more;
      ghost var s := Now();
      rejected, steps := CheckQuota(id, o, setter);
      ghost var w1 := Snapshot();
      if rejected {
        reply := QuotaExceeded;
        more := RecordUsage(id, id, Rejected, None, o);
      } else {
        reply, more := Forward(id, o);
      }
      ServedInParts(s, id, o, setter);
      Overwrites(old(reqs), id, w1.reqs[id], reqs[id]);
      RunOnto(w, steps, more, w1, Snapshot());
      steps := steps + more;
    }

    /** Process, executed alone, recorder included: the answer, the stores and the request's end. */
    method Process(id: nat, o: Outcome, setter: nat) returns (reply: Reply, ghost steps: seq<Step>)
      requires id !in reqs && SentOk(o)
      modifies this
      ensures Snapshot() == Run(old(Snapshot()), steps)
      ensures var c := if o.redisOk && old(contracted).Some? then old(contracted).value
                       else if o.dbOk then Fifo.Total(old(bundles)) else 0;
              var n := if o.redisOk && old(counter).Some? then old(counter).value
                       else if o.dbOk then Sum(old(rows), TotalWeight) else 0;
              reply == if o.quotaFails then InternalError
                       else if o.quotaPresent && 0 < c <= n then QuotaExceeded
                       else if o.upstream.Some? && !o.upstream.value.err && o.upstream.value.response.value < 500
                       then Stamped(o.upstream.value.response.value) else UpstreamUnavailable
      ensures reply == ReplyTo(old(Now()), o) && Now() == Served(old(Now()), id, o, setter)
      ensures o.quotaFails ==> Now() == old(Now())
      ensures Consumed(Snapshot()) == Consumed(old(Snapshot()))
              + One(o.upsertOk && (reply.QuotaExceeded? || (!reply.InternalError? && o.upstream.Some?)))
      ensures reqs == old(reqs)[id := Finished(reply, o.upsertOk && (reply.QuotaExceeded?
                                                        || (!reply.InternalError? && o.upstream.Some?)))]
    {
      ghost var w := Snapshot();
      ghost var more;
      ServedConsumesOne(Now(), id, o, setter);
      steps := OpenRequest(id, o);
      if o.quotaFails {
        return InternalError, steps;
      }
      ghost var w1 := Snapshot();
      if o.quotaPresent {
        reply, more := Guarded(id, o, setter);
      } else {
        reply, more := Forward(id, o);
      }
      Overwrites(old(reqs), id, w1.reqs[id], reqs[id]);
      RunOnto(w, steps, more, w1, Snapshot());
      steps := steps + more;
    }

    /** The handler that sells a bundle: what it refuses, and the row it inserts. The cached total
        is dropped later, by InvalidateBundleContracted. */
    method AddBundle(amount: int, threshold: Option<int>) returns (created: bool)
      modifies `bundles
      ensures created <==> amount > 0 && (threshold.Some? ==> 1 <= threshold.value <= 99)
      ensures created ==> Snapshot() == Next(old(Snapshot()), Step.AddBundle(amount))
      ensures created ==> bundles == old(bundles) + [amount] && Fifo.Total(bundles) == Fifo.Total(old(bundles)) + amount
      ensures !created ==> bundles == old(bundles)
    {
      if amount <= 0 {
        return false;
      }
      if threshold.Some? && (threshold.value < 1 || threshold.value > 99) {
        return false;
      }
      Fifo.TotalAppend(bundles, amount);
      bundles := bundles + [amount];
      return true;
    }

    method InvalidateBundleContracted()
      modifies `contracted
      ensures contracted.None? && Snapshot() == Next(old(Snapshot()), DropContracted)
    {
      contracted := None;
    }

    /** The goroutine that writes the contracted total it was started with. */
    method SetBundleContracted(setter: nat, ok: bool)
      requires setter in setters
      modifies `contracted, `setters
      ensures Snapshot() == Next(old(Snapshot()), SetContracted(setter, ok))
      ensures contracted == if ok then Some(old(setters)[setter]) else old(contracted)
      ensures setters == old(setters) - {setter}
    {
      if ok {
        contracted := Some(setters[setter]);
      }
      setters := setters - {setter};
    }
  }

  // ---------------------------------------------------------------- requests in series

  /** The quota row is there, an upstream is configured, and the calls that the gate and the recorder
      depend on succeed. */
  predicate Works(o: Outcome) {
    && !o.quotaFails && o.quotaPresent && o.redisOk && o.dbOk && o.seedOk && o.upstream.Some? && SentOk(o)
    && o.upsertOk && o.incrOk
  }

  predicate AllWork(os: seq<Outcome>) { forall i :: 0 <= i < |os| ==> Works(os[i]) }

  /** The answers to requests served one after another; the i-th has number first + i. */
  ghost function Replies(s: Stores, os: seq<Outcome>, first: nat): (replies: seq<Reply>)
    requires AllWork(os)
    ensures |replies| == |os|
    decreases |os|
  {
    if os == [] then [] else [ReplyTo(s, os[0])] + Replies(Served(s, first, os[0], first), os[1..], first + 1)
  }

  /** The totals the gate works with: the cached ones, or the sums if nothing is cached. */
  ghost predicate Totals(s: Stores, c: int, n: int) {
    && c == (if s.contracted.Some? then s.contracted.value else Fifo.Total(s.bundles))
    && n == (if s.counter.Some? then s.counter.value else Sum(s.rows, TotalWeight))
  }

  lemma ServedCounts(s: Stores, id: nat, o: Outcome, setter: nat, c: int, n: int)
    requires Works(o) && Totals(s, c, n)
    ensures Totals(Served(s, id, o, setter), c, n + 1)
    ensures ReplyTo(s, o).QuotaExceeded? <==> 0 < c <= n
  {
  }

  /** Requests served one after another while their calls succeed: with C contracted stamps and n
      consumed ones, request i is refused exactly when 0 < C <= n + i, whatever the upstream answered
      to the others; what is not refused gets the upstream's answer. */
  lemma {:induction false} SerialRequestsAreCounted(s: Stores, os: seq<Outcome>, first: nat, c: int, n: int, i: nat)
    requires AllWork(os) && Totals(s, c, n) && i < |os| && Works(os[i])
    ensures var sent := os[i].upstream.value;
            Replies(s, os, first)[i] == if 0 < c <= n + i then QuotaExceeded
                                        else if !sent.err && sent.response.value < 500 then Stamped(sent.response.value)
                                        else UpstreamUnavailable
    decreases |os|
  {
    ServedCounts(s, first, os[0], first, c, n);
    if i > 0 {
      var s' := Served(s, first, os[0], first);
      SerialRequestsAreCounted(s', os[1..], first + 1, c, n + 1, i - 1);
      assert Replies(s, os, first)[i] == Replies(s', os[1..], first + 1)[i - 1];
    }
  }

  function Stamps(replies: seq<Reply>): nat {
    if replies == [] then 0
    else Stamps(replies[..|replies| - 1]) + if replies[|replies| - 1].Stamped? then 1 else 0
  }

  lemma {:induction false} StampsUpTo(replies: seq<Reply>, most: nat)
    requires forall i :: most <= i < |replies| ==> !replies[i].Stamped?
    ensures Stamps(replies) <= most
  {
    if |replies| > most {
      StampsUpTo(replies[..|replies| - 1], most);
    } else if replies != [] {
      StampsUpTo(replies[..|replies| - 1], |replies| - 1);
    }
  }

  /** So at most C - n of them are stamped. */
  lemma SerialRequestsStampAtMost(s: Stores, os: seq<Outcome>, first: nat, c: int, n: int)
    requires AllWork(os) && Totals(s, c, n) && c > 0
    ensures Stamps(Replies(s, os, first)) <= Max(0, c - n)
  {
    var replies := Replies(s, os, first);
    forall i | Max(0, c - n) <= i < |replies| ensures !replies[i].Stamped? {
      SerialRequestsAreCounted(s, os, first, c, n, i);
    }
    StampsUpTo(replies, Max(0, c - n));
  }
}
