/** The prepaid stamp ledger of one tenant: the gate of Process, the usage recorder, the cached
    counter seeded with SETNX, and the cached contracted total. Every goroutine is a program
    counter in `reqs`; Next is one atomic access to Postgres or Redis, and a step that is not
    enabled leaves the world as it is, so a run is any sequence of steps. */
module Ledger {
  import opened Common
  import opened MapSum
  import Fifo

  // ---------------------------------------------------------------- tables

  type Period = (int, int)

  datatype Status = Success | Error | Rejected

  /** A row of monthly_usage_aggregates. */
  datatype Row = Row(total: int, succeeded: int, failed: int, rejected: int, latency: int)

  /** A row of usage_events; a NULL latency is None. */
  datatype UsageEvent = UsageEvent(req: nat, period: Period, status: Status, latency: Option<int>)

  function Millis(latency: Option<int>): int { if latency.Some? then latency.value else 0 }

  function One(b: bool): int { if b then 1 else 0 }

  /** INSERT ... ON CONFLICT (tenant_id, year, month) DO UPDATE. */
  function Upsert(rows: map<Period, Row>, p: Period, st: Status, millis: int): map<Period, Row> {
    var r := if p in rows then rows[p] else Row(0, 0, 0, 0, 0);
    rows[p := Row(r.total + 1, r.succeeded + One(st.Success?), r.failed + One(st.Error?),
                  r.rejected + One(st.Rejected?), r.latency + millis)]
  }

  // ---------------------------------------------------------------- requests

  /** What the client is told. */
  datatype Reply = Stamped(http: int) | InternalError | QuotaExceeded | UpstreamUnavailable

  /** What the upstream client hands back. */
  datatype Sent = Sent(err: bool, response: Option<int>)

  /** The status recorded for an upstream outcome. */
  function StatusOf(s: Sent): Status {
    if s.err || s.response.None? || s.response.value >= 500 then Error else Success
  }

  /** The reply returned for it: decided separately, further down in Process. */
  function ReplyOf(s: Sent): Reply
    requires !s.err ==> s.response.Some?
  {
    if s.err then UpstreamUnavailable
    else if s.response.value >= 500 then UpstreamUnavailable
    else Stamped(s.response.value)
  }

  datatype Phase =
    | AwaitContracted
    | AwaitContractedSum
    | AwaitConsumed(contracted: int)
    | AwaitConsumedSum(contracted: int)
    | AwaitSeed(contracted: int, consumed: int, pendingAtRead: int, epoch: nat)
    | AtGate(contracted: int, consumed: int)
    | Sending
    | Recording(status: Status, reply: Reply, latency: Option<int>)
    | Inserted(status: Status, reply: Reply, latency: Option<int>, period: Period)
    | Pending(reply: Reply)
    | Finished(reply: Reply, counted: bool)

  function PendingWeight(ph: Phase): int { One(ph.Pending?) }
  function TotalWeight(r: Row): int { r.total }

  /** lead, seedEpoch and disturbances are history: how many recorders were Pending when the live
      counter's seed was read, the number of evictions and failed INCRs up to that read (None if
      the counter was born from an INCR), and that number up to now. No step tests them. */
  datatype World = World(
    rows: map<Period, Row>,
    log: seq<UsageEvent>,
    bundles: seq<nat>,
    counter: Option<int>,
    contracted: Option<int>,
    setters: map<nat, int>,
    reqs: map<nat, Phase>,
    lead: int,
    seedEpoch: Option<nat>,
    disturbances: nat)

  /** SUM(total_requests). */
  ghost function Consumed(w: World): int { Sum(w.rows, TotalWeight) }

  ghost function PendingCount(w: World): int { Sum(w.reqs, PendingWeight) }

  datatype Step =
    | ReadQuota(r: nat, present: bool)
    | QuotaFails(r: nat)
    | ContractedHit(r: nat)
    | ContractedMiss(r: nat)
    | ContractedSum(r: nat, ok: bool, setter: nat)
    | SetContracted(setter: nat, ok: bool)
    | DropContracted
    | ConsumedHit(r: nat)
    | ConsumedMiss(r: nat)
    | ConsumedSum(r: nat, ok: bool)
    | Seed(r: nat, ok: bool)
    | Gate(r: nat)
    | NoUpstream(r: nat)
    | Send(r: nat, sent: Sent, millis: int)
    | InsertEvent(r: nat, ok: bool, period: Period)
    | UpsertAggregate(r: nat, ok: bool)
    | Incr(r: nat, ok: bool)
    | AddBundle(amount: nat)
    | EvictCounter

  function Move(w: World, r: nat, ph: Phase): World { w.(reqs := w.reqs[r := ph]) }

  /** The gate rejects: `consumed >= contracted && contracted > 0`. */
  predicate Rejects(contracted: int, consumed: int) { consumed >= contracted && contracted > 0 }

  /** The steps by who takes them: the gate up to the consumed reading, the reading and the
      decision, the sender and recorder, and everything else. */
  predicate GateStep(s: Step) {
    s.ReadQuota? || s.QuotaFails? || s.ContractedHit? || s.ContractedMiss? || s.ContractedSum?
  }

  predicate ReadingStep(s: Step) {
    s.ConsumedHit? || s.ConsumedMiss? || s.ConsumedSum? || s.Seed? || s.Gate?
  }

  predicate RecorderStep(s: Step) {
    s.NoUpstream? || s.Send? || s.InsertEvent? || s.UpsertAggregate? || s.Incr?
  }

  /** From the quota row to the contracted total. */
  ghost function GateNext(w: World, s: Step): World
    requires GateStep(s)
  {
    match s
    case ReadQuota(r, present) =>
      if r in w.reqs then w else Move(w, r, if present then AwaitContracted else Sending)
    case QuotaFails(r) =>
      if r in w.reqs then w else Move(w, r, Finished(InternalError, false))
    case ContractedHit(r) =>
      if r in w.reqs && w.reqs[r].AwaitContracted? && w.contracted.Some?
      then Move(w, r, AwaitConsumed(w.contracted.value)) else w
    case ContractedMiss(r) =>
      if r in w.reqs && w.reqs[r].AwaitContracted? then Move(w, r, AwaitContractedSum) else w
    case ContractedSum(r, ok, setter) =>
      if !(r in w.reqs && w.reqs[r].AwaitContractedSum?) then w
      else if !ok then Move(w, r, AwaitConsumed(0))
      else Move(w, r, AwaitConsumed(Fifo.Total(w.bundles))).(setters := w.setters[setter := Fifo.Total(w.bundles)])
  }

  /** The consumed total and the decision. */
  ghost function ReadingNext(w: World, s: Step): World
    requires ReadingStep(s)
  {
    match s
    case ConsumedHit(r) =>
      if r in w.reqs && w.reqs[r].AwaitConsumed? && w.counter.Some?
      then Move(w, r, AtGate(w.reqs[r].contracted, w.counter.value)) else w
    case ConsumedMiss(r) =>
      if r in w.reqs && w.reqs[r].AwaitConsumed?
      then Move(w, r, AwaitConsumedSum(w.reqs[r].contracted)) else w
    case ConsumedSum(r, ok) =>
      if !(r in w.reqs && w.reqs[r].AwaitConsumedSum?) then w
      else if !ok then Move(w, r, AtGate(w.reqs[r].contracted, 0))
      else Move(w, r, AwaitSeed(w.reqs[r].contracted, Consumed(w), PendingCount(w), w.disturbances))
    case Seed(r, ok) =>
      if !(r in w.reqs && w.reqs[r].AwaitSeed?) then w
      else
        var ph := w.reqs[r];
        var w' := Move(w, r, AtGate(ph.contracted, ph.consumed));
        if ok && w.counter.None?
        then w'.(counter := Some(ph.consumed), lead := ph.pendingAtRead, seedEpoch := Some(ph.epoch))
        else w'
    case Gate(r) =>
      if !(r in w.reqs && w.reqs[r].AtGate?) then w
      else if Rejects(w.reqs[r].contracted, w.reqs[r].consumed)
      then Move(w, r, Recording(Rejected, QuotaExceeded, None))
      else Move(w, r, Sending)
  }

  /** The upstream call and recordUsage. */
  ghost function RecorderNext(w: World, s: Step): World
    requires RecorderStep(s)
  {
    match s
    case NoUpstream(r) =>
      if r in w.reqs && w.reqs[r].Sending? then Move(w, r, Finished(UpstreamUnavailable, false)) else w
    case Send(r, sent, millis) =>
      if r in w.reqs && w.reqs[r].Sending? && (!sent.err ==> sent.response.Some?)
      then Move(w, r, Recording(StatusOf(sent), ReplyOf(sent), Some(millis))) else w
    case InsertEvent(r, ok, period) =>
      if !(r in w.reqs && w.reqs[r].Recording?) then w
      else
        var ph := w.reqs[r];
        var w' := Move(w, r, Inserted(ph.status, ph.reply, ph.latency, period));
        if ok then w'.(log := w.log + [UsageEvent(r, period, ph.status, ph.latency)]) else w'
    case UpsertAggregate(r, ok) =>
      if !(r in w.reqs && w.reqs[r].Inserted?) then w
      else
        var ph := w.reqs[r];
        if ok
        then Move(w, r, Pending(ph.reply)).(rows := Upsert(w.rows, ph.period, ph.status, Millis(ph.latency)))
        else Move(w, r, Finished(ph.reply, false))
    case Incr(r, ok) =>
      if !(r in w.reqs && w.reqs[r].Pending?) then w
      else
        var w' := Move(w, r, Finished(w.reqs[r].reply, true));
        if !ok then w'.(disturbances := w.disturbances + 1)
        else if w.counter.Some? then w'.(counter := Some(w.counter.value + 1))
        else w'.(counter := Some(1), lead := 0, seedEpoch := None)
  }

  /** The asynchronous SET of the contracted total, its DEL or expiry, purchases, and eviction. */
  ghost function StoreNext(w: World, s: Step): World
    requires !GateStep(s) && !ReadingStep(s) && !RecorderStep(s)
  {
    match s
    case SetContracted(setter, ok) =>
      if setter !in w.setters then w
      else w.(setters := w.setters - {setter},
              contracted := if ok then Some(w.setters[setter]) else w.contracted)
    case DropContracted => w.(contracted := None)
    case AddBundle(amount) =>
      if amount > 0 then w.(bundles := w.bundles + [amount]) else w
    case EvictCounter =>
      w.(counter := None, disturbances := w.disturbances + 1)
  }

  ghost function Next(w: World, s: Step): World {
    if GateStep(s) then GateNext(w, s)
    else if ReadingStep(s) then ReadingNext(w, s)
    else if RecorderStep(s) then RecorderNext(w, s)
    else StoreNext(w, s)
  }

  ghost function Run(w: World, es: seq<Step>): World
  {
    if es == [] then w else Next(Run(w, es[..|es| - 1]), es[|es| - 1])
  }

  lemma RunSnoc(w: World, es: seq<Step>, s: Step)
    ensures Run(w, es + [s]) == Next(Run(w, es), s)
  {
    assert (es + [s])[..|es|] == es;
  }

  lemma {:induction false} RunConcat(w: World, es: seq<Step>, fs: seq<Step>)
    ensures Run(w, es + fs) == Run(Run(w, es), fs)
  {
    if fs == [] {
      assert es + fs == es;
    } else {
      var pre := fs[..|fs| - 1];
      RunConcat(w, es, pre);
      assert (es + fs)[..|es + fs| - 1] == es + pre;
    }
  }

  lemma RunOnto(w: World, es: seq<Step>, fs: seq<Step>, w1: World, w2: World)
    requires Run(w, es) == w1 && Run(w1, fs) == w2
    ensures Run(w, es + fs) == w2
  {
    RunConcat(w, es, fs);
  }

  /** No request in flight, no counter in Redis. */
  ghost predicate Boot(w: World) {
    && w.reqs == map[] && w.setters == map[] && w.counter.None?
    && 0 <= Consumed(w)
  }

  // ---------------------------------------------------------------- accounting of one step

  lemma UpsertAddsOne(rows: map<Period, Row>, p: Period, st: Status, millis: int)
    ensures Sum(Upsert(rows, p, st, millis), TotalWeight) == Sum(rows, TotalWeight) + 1
  {
    SumUpdate(rows, p, Upsert(rows, p, st, millis)[p], TotalWeight);
  }

  ghost predicate SameAccounts(w: World, w': World) {
    Consumed(w') == Consumed(w) && PendingCount(w') == PendingCount(w) && w'.disturbances == w.disturbances
  }

  ghost predicate SameCounter(w: World, w': World) {
    w'.counter == w.counter && w'.lead == w.lead && w'.seedEpoch == w.seedEpoch
  }

  /** What request r holds after reading the sum in w. */
  ghost function SeedRead(w: World, r: nat): Phase
    requires r in w.reqs && w.reqs[r].AwaitConsumedSum?
  {
    AwaitSeed(w.reqs[r].contracted, Consumed(w), PendingCount(w), w.disturbances)
  }

  /** A seed in w' was there before, or has just been read from the sum. */
  ghost predicate SeedsMove(w: World, s: Step, w': World) {
    forall r :: r in w'.reqs && w'.reqs[r].AwaitSeed? ==>
      || (r in w.reqs && w.reqs[r] == w'.reqs[r])
      || (&& s == ConsumedSum(r, true) && r in w.reqs && w.reqs[r].AwaitConsumedSum?
          && w'.reqs[r] == SeedRead(w, r)
          && SameAccounts(w, w') && w'.counter == w.counter)
  }

  ghost predicate UpsertsOne(w: World, w': World) {
    && Consumed(w') == Consumed(w) + 1 && PendingCount(w') == PendingCount(w) + 1
    && w'.disturbances == w.disturbances && SameCounter(w, w')
  }

  ghost predicate IncrsOne(w: World, ok: bool, w': World) {
    && Consumed(w') == Consumed(w) && PendingCount(w') == PendingCount(w) - 1 && 1 <= PendingCount(w)
    && w'.disturbances == w.disturbances + One(!ok)
    && (|| (!ok && SameCounter(w, w'))
        || (&& ok && w.counter.Some? && w'.counter == Some(w.counter.value + 1)
            && w'.lead == w.lead && w'.seedEpoch == w.seedEpoch)
        || (ok && w.counter.None? && w'.counter == Some(1) && w'.lead == 0 && w'.seedEpoch == None))
  }

  ghost predicate SeedsCounter(w: World, r: nat, w': World) {
    && SameAccounts(w, w') && w.counter.None? && r in w.reqs && w.reqs[r].AwaitSeed?
    && w'.counter == Some(w.reqs[r].consumed) && w'.lead == w.reqs[r].pendingAtRead
    && w'.seedEpoch == Some(w.reqs[r].epoch)
  }

  ghost predicate Evicts(w: World, w': World) {
    && Consumed(w') == Consumed(w) && PendingCount(w') == PendingCount(w)
    && w'.disturbances == w.disturbances + 1 && w'.counter == None
  }

  /** All that the accounting needs to know of a step. */
  ghost predicate Accounts(w: World, s: Step, w': World) {
    && SeedsMove(w, s, w')
    && (|| (SameAccounts(w, w') && SameCounter(w, w'))
        || (s.UpsertAggregate? && UpsertsOne(w, w'))
        || (s.Incr? && s.r in w.reqs && w.reqs[s.r].Pending? && IncrsOne(w, s.ok, w'))
        || (s.Seed? && s.ok && SeedsCounter(w, s.r, w'))
        || (s.EvictCounter? && Evicts(w, w')))
  }

  lemma MovePending(w: World, r: nat, ph: Phase)
    ensures PendingCount(Move(w, r, ph)) == PendingCount(w) + PendingWeight(ph)
                                            - (if r in w.reqs then PendingWeight(w.reqs[r]) else 0)
  {
    SumUpdate(w.reqs, r, ph, PendingWeight);
  }

  lemma GateAccounts(w: World, s: Step)
    requires GateStep(s)
    ensures Accounts(w, s, GateNext(w, s))
  {
    var w' := GateNext(w, s);
    if w'.reqs != w.reqs {
      MovePending(w, s.r, w'.reqs[s.r]);
    }
  }

  lemma SumAccounts(w: World, r: nat, ok: bool)
    ensures Accounts(w, ConsumedSum(r, ok), ReadingNext(w, ConsumedSum(r, ok)))
  {
    var w' := ReadingNext(w, ConsumedSum(r, ok));
    if w'.reqs != w.reqs {
      MovePending(w, r, w'.reqs[r]);
    }
  }

  lemma ReadingAccounts(w: World, s: Step)
    requires ReadingStep(s) && !s.ConsumedSum?
    ensures Accounts(w, s, ReadingNext(w, s))
  {
    var w' := ReadingNext(w, s);
    if w'.reqs != w.reqs {
      MovePending(w, s.r, w'.reqs[s.r]);
    }
  }

  lemma RecorderAccounts(w: World, s: Step)
    requires RecorderStep(s) && !s.UpsertAggregate? && !s.Incr?
    ensures Accounts(w, s, RecorderNext(w, s))
  {
    var w' := RecorderNext(w, s);
    if w'.reqs != w.reqs {
      MovePending(w, s.r, w'.reqs[s.r]);
    }
  }

  lemma UpsertAccounts(w: World, s: Step)
    requires s.UpsertAggregate?
    ensures Accounts(w, s, RecorderNext(w, s))
  {
    var w' := RecorderNext(w, s);
    if w'.reqs != w.reqs {
      var ph := w.reqs[s.r];
      MovePending(w, s.r, w'.reqs[s.r]);
      UpsertAddsOne(w.rows, ph.period, ph.status, Millis(ph.latency));
    }
  }

  lemma IncrAccounts(w: World, s: Step)
    requires s.Incr?
    ensures Accounts(w, s, RecorderNext(w, s))
  {
    var w' := RecorderNext(w, s);
    if w'.reqs != w.reqs {
      MovePending(w, s.r, w'.reqs[s.r]);
      SumAtLeast(w.reqs, s.r, PendingWeight);
    }
  }

  lemma StepAccounts(w: World, s: Step)
    ensures Accounts(w, s, Next(w, s))
  {
    if GateStep(s) {
      GateAccounts(w, s);
    } else if s.ConsumedSum? {
      SumAccounts(w, s.r, s.ok);
    } else if ReadingStep(s) {
      ReadingAccounts(w, s);
    } else if s.UpsertAggregate? {
      UpsertAccounts(w, s);
    } else if s.Incr? {
      IncrAccounts(w, s);
    } else if RecorderStep(s) {
      RecorderAccounts(w, s);
    }
  }

  // ---------------------------------------------------------------- the counter against the sum

  ghost predicate SeedFits(w: World, ph: Phase)
    requires ph.AwaitSeed?
  {
    && ph.epoch <= w.disturbances
    && ph.consumed + PendingCount(w) <= Consumed(w) + ph.pendingAtRead
    && (ph.epoch == w.disturbances && w.counter.None? ==>
          ph.consumed + PendingCount(w) == Consumed(w) + ph.pendingAtRead)
  }

  ghost predicate CounterFits(w: World) {
    w.counter.Some? ==>
      && w.counter.value + PendingCount(w) <= Consumed(w) + w.lead
      && (w.seedEpoch.None? ==> w.lead == 0)
      && (w.seedEpoch.Some? ==> w.seedEpoch.value <= w.disturbances)
      && (w.seedEpoch == Some(w.disturbances) ==>
            w.counter.value + PendingCount(w) == Consumed(w) + w.lead)
  }

  ghost predicate CounterInv(w: World) {
    && 0 <= PendingCount(w) <= Consumed(w)
    && CounterFits(w)
    && (forall r :: r in w.reqs && w.reqs[r].AwaitSeed? ==> SeedFits(w, w.reqs[r]))
  }

  lemma CounterInvStep(w: World, s: Step, w': World)
    requires CounterInv(w) && Accounts(w, s, w')
    ensures CounterInv(w')
  {
    forall r | r in w'.reqs && w'.reqs[r].AwaitSeed?
      ensures SeedFits(w', w'.reqs[r])
    {
      if r in w.reqs && w.reqs[r] == w'.reqs[r] {
        assert SeedFits(w, w.reqs[r]);
      }
    }
    if s.Seed? && w.counter.None? && w'.counter.Some? {
      assert SeedFits(w, w.reqs[s.r]);
    }
  }

  lemma {:induction false} CounterInvRun(w0: World, es: seq<Step>)
    requires Boot(w0)
    ensures CounterInv(Run(w0, es))
  {
    if es != [] {
      CounterInvRun(w0, es[..|es| - 1]);
      StepAccounts(Run(w0, es[..|es| - 1]), es[|es| - 1]);
      CounterInvStep(Run(w0, es[..|es| - 1]), es[|es| - 1], Run(w0, es));
    }
  }

  /** The state a run is in before its i-th step. */
  ghost function Before(w0: World, es: seq<Step>, i: nat): World
    requires i <= |es|
  {
    Run(w0, es[..i])
  }

  /** Request r reads the sum at i and holds exactly that reading up to j. */
  ghost predicate HeldTo(w0: World, es: seq<Step>, i: nat, r: nat, j: nat) {
    && i < j <= |es| && es[i] == ConsumedSum(r, true)
    && r in Before(w0, es, i).reqs && Before(w0, es, i).reqs[r].AwaitConsumedSum?
    && forall k :: i < k <= j ==>
         r in Before(w0, es, k).reqs && Before(w0, es, k).reqs[r] == SeedRead(Before(w0, es, i), r)
  }

  predicate UnevictedSince(es: seq<Step>, j: nat) { forall k :: j < k < |es| ==> !es[k].EvictCounter? }

  /** The live counter was seeded at j, by request r, with what r read at i. */
  ghost predicate SeededBy(w0: World, es: seq<Step>, i: nat, j: nat, r: nat) {
    && j < |es| && HeldTo(w0, es, i, r, j) && es[j] == Seed(r, true)
    && Before(w0, es, j).counter.None? && UnevictedSince(es, j)
  }

  /** The live counter was born at i, from an INCR on a missing key. */
  ghost predicate BornFromIncr(w0: World, es: seq<Step>, i: nat) {
    && i < |es| && es[i].Incr? && es[i].ok
    && es[i].r in Before(w0, es, i).reqs && Before(w0, es, i).reqs[es[i].r].Pending?
    && Before(w0, es, i).counter.None? && UnevictedSince(es, i)
  }

  ghost predicate LiveSeed(w0: World, es: seq<Step>, i: nat, j: nat, r: nat, lead: int, epoch: nat) {
    SeededBy(w0, es, i, j, r) && PendingCount(Before(w0, es, i)) == lead && Before(w0, es, i).disturbances == epoch
  }

  /** The history variables mean what they say: each points back to the steps of the run that made it. */
  ghost predicate HistoryIsTrue(w0: World, es: seq<Step>) {
    var w := Run(w0, es);
    && (w.counter.Some? && w.seedEpoch.Some? ==>
          exists i: nat, j: nat, r: nat :: LiveSeed(w0, es, i, j, r, w.lead, w.seedEpoch.value))
    && (w.counter.Some? && w.seedEpoch.None? ==> exists i: nat :: BornFromIncr(w0, es, i))
    && (forall r :: r in w.reqs && w.reqs[r].AwaitSeed? ==> exists i: nat :: HeldTo(w0, es, i, r, |es|))
  }

  lemma BeforeSnoc(w0: World, pre: seq<Step>, s: Step, k: nat)
    requires k <= |pre|
    ensures Before(w0, pre + [s], k) == Before(w0, pre, k)
  {
    assert (pre + [s])[..k] == pre[..k];
  }

  lemma BeforeEnd(w0: World, es: seq<Step>)
    ensures Before(w0, es, |es|) == Run(w0, es)
  {
    assert es[..|es|] == es;
  }

  lemma HeldSnoc(w0: World, pre: seq<Step>, s: Step, i: nat, r: nat, j: nat)
    requires HeldTo(w0, pre, i, r, j)
    ensures HeldTo(w0, pre + [s], i, r, j)
  {
    forall k: nat | k <= |pre| ensures Before(w0, pre + [s], k) == Before(w0, pre, k) {
      BeforeSnoc(w0, pre, s, k);
    }
  }

  /** The reading is still held after one more step. */
  lemma HeldOn(w0: World, pre: seq<Step>, s: Step, i: nat, r: nat)
    requires HeldTo(w0, pre, i, r, |pre|)
    requires r in Run(w0, pre + [s]).reqs && r in Run(w0, pre).reqs &&
             Run(w0, pre + [s]).reqs[r] == Run(w0, pre).reqs[r]
    ensures HeldTo(w0, pre + [s], i, r, |pre| + 1)
  {
    var es := pre + [s];
    HeldSnoc(w0, pre, s, i, r, |pre|);
    BeforeEnd(w0, pre);
    BeforeSnoc(w0, pre, s, |pre|);
    BeforeEnd(w0, es);
    HeldLonger(w0, es, i, r, |pre|);
  }

  lemma HeldLonger(w0: World, es: seq<Step>, i: nat, r: nat, j: nat)
    requires HeldTo(w0, es, i, r, j) && j < |es|
    requires r in Before(w0, es, j).reqs && r in Before(w0, es, j + 1).reqs
    requires Before(w0, es, j + 1).reqs[r] == Before(w0, es, j).reqs[r]
    ensures HeldTo(w0, es, i, r, j + 1)
  {
  }

  lemma SeedHeld(w0: World, pre: seq<Step>, s: Step, w: World, w': World, r: nat, es: seq<Step>, n: nat)
    requires HistoryIsTrue(w0, pre) && w == Run(w0, pre) && w' == Run(w0, es) && SeedsMove(w, s, w')
    requires es == pre + [s] && n == |es| && r in w'.reqs && w'.reqs[r].AwaitSeed?
    ensures exists i: nat :: HeldTo(w0, es, i, r, n)
  {
    if r in w.reqs && w.reqs[r] == w'.reqs[r] {
      var i: nat :| HeldTo(w0, pre, i, r, |pre|);
      HeldOn(w0, pre, s, i, r);
    } else {
      BeforeEnd(w0, pre);
      BeforeSnoc(w0, pre, s, |pre|);
      BeforeEnd(w0, pre + [s]);
      assert HeldTo(w0, es, |pre|, r, n);
    }
  }

  lemma ReadingsHeld(w0: World, pre: seq<Step>, s: Step, w: World, w': World, es: seq<Step>, n: nat)
    requires HistoryIsTrue(w0, pre) && w == Run(w0, pre) && w' == Run(w0, es) && SeedsMove(w, s, w')
    requires es == pre + [s] && n == |es|
    ensures forall r :: r in w'.reqs && w'.reqs[r].AwaitSeed? ==> exists i: nat :: HeldTo(w0, es, i, r, n)
  {
    forall r | r in w'.reqs && w'.reqs[r].AwaitSeed? ensures exists i: nat :: HeldTo(w0, es, i, r, n) {
      SeedHeld(w0, pre, s, w, w', r, es, n);
    }
  }

  lemma EvictEmpties(w: World)
    ensures Next(w, EvictCounter).counter.None?
  {
  }

  lemma LiveSnoc(w0: World, pre: seq<Step>, s: Step, i: nat, j: nat, r: nat, lead: int, epoch: nat)
    requires LiveSeed(w0, pre, i, j, r, lead, epoch) && !s.EvictCounter?
    ensures LiveSeed(w0, pre + [s], i, j, r, lead, epoch)
  {
    HeldSnoc(w0, pre, s, i, r, j);
    BeforeSnoc(w0, pre, s, i);
    BeforeSnoc(w0, pre, s, j);
  }

  /** The counter that is live after one more step. */
  lemma CounterMade(w0: World, pre: seq<Step>, s: Step, w: World, w': World)
    requires HistoryIsTrue(w0, pre) && w == Run(w0, pre) && w' == Run(w0, pre + [s]) == Next(w, s) && Accounts(w, s, w')
    requires w'.counter.Some?
    ensures w'.seedEpoch.Some? ==>
              exists i: nat, j: nat, r: nat :: LiveSeed(w0, pre + [s], i, j, r, w'.lead, w'.seedEpoch.value)
    ensures w'.seedEpoch.None? ==> exists i: nat :: BornFromIncr(w0, pre + [s], i)
  {
    EvictEmpties(w);
    BeforeEnd(w0, pre);
    BeforeSnoc(w0, pre, s, |pre|);
    if w.counter.Some? {
      if w'.seedEpoch.Some? {
        var i: nat, j: nat, r: nat :| LiveSeed(w0, pre, i, j, r, w'.lead, w'.seedEpoch.value);
        LiveSnoc(w0, pre, s, i, j, r, w'.lead, w'.seedEpoch.value);
      } else {
        var i: nat :| BornFromIncr(w0, pre, i);
        BeforeSnoc(w0, pre, s, i);
        assert BornFromIncr(w0, pre + [s], i);
      }
    } else if s.Seed? {
      SeedMade(w0, pre, s, w, w', pre + [s], w'.seedEpoch.value);
    } else {
      assert BornFromIncr(w0, pre + [s], |pre|);
    }
  }

  lemma SeedMade(w0: World, pre: seq<Step>, s: Step, w: World, w': World, es: seq<Step>, epoch: nat)
    requires HistoryIsTrue(w0, pre) && w == Run(w0, pre) && es == pre + [s]
    requires s.Seed? && s.ok && SeedsCounter(w, s.r, w') && w'.seedEpoch == Some(epoch)
    ensures exists i: nat, j: nat, r: nat :: LiveSeed(w0, es, i, j, r, w'.lead, epoch)
  {
    var i: nat :| HeldTo(w0, pre, i, s.r, |pre|);
    HeldSnoc(w0, pre, s, i, s.r, |pre|);
    BeforeEnd(w0, pre);
    BeforeSnoc(w0, pre, s, |pre|);
    BeforeSnoc(w0, pre, s, i);
    assert LiveSeed(w0, es, i, |pre|, s.r, w'.lead, epoch);
  }

  /** One more step keeps the history true. */
  lemma HistoryStep(w0: World, pre: seq<Step>, s: Step, w: World, w': World)
    requires HistoryIsTrue(w0, pre) && w == Run(w0, pre) && w' == Run(w0, pre + [s]) == Next(w, s)
    requires Accounts(w, s, w')
    ensures HistoryIsTrue(w0, pre + [s])
  {
    if w'.counter.Some? {
      CounterMade(w0, pre, s, w, w');
    }
    ReadingsHeld(w0, pre, s, w, w', pre + [s], |pre| + 1);
  }

  lemma {:induction false} HistoryRun(w0: World, es: seq<Step>)
    requires Boot(w0)
    ensures HistoryIsTrue(w0, es)
  {
    if es != [] {
      var pre, s := es[..|es| - 1], es[|es| - 1];
      HistoryRun(w0, pre);
      assert es == pre + [s];
      StepAccounts(Run(w0, pre), s);
      HistoryStep(w0, pre, s, Run(w0, pre), Run(w0, es));
    }
  }

  // ---------------------------------------------------------------- first main result

  /** Eviction of the counter, or an INCR that fails. */
  predicate Disturbs(s: Step) { s.EvictCounter? || (s.Incr? && !s.ok) }

  lemma {:induction false} UndisturbedKeepsEpoch(w0: World, es: seq<Step>, i: nat)
    requires i <= |es|
    requires forall j :: i <= j < |es| ==> !Disturbs(es[j])
    ensures Run(w0, es).disturbances == Before(w0, es, i).disturbances
  {
    if i < |es| {
      var pre := es[..|es| - 1];
      UndisturbedKeepsEpoch(w0, pre, i);
      assert pre[..i] == es[..i];
      StepAccounts(Run(w0, pre), es[|es| - 1]);
      assert !Disturbs(es[|es| - 1]);
    } else {
      assert es[..i] == es;
    }
  }

  /** The live counter was seeded at j with what r read at i, and counts from there. */
  ghost predicate CountsFrom(w0: World, es: seq<Step>, i: nat, j: nat, r: nat) {
    && SeededBy(w0, es, i, j, r)
    && var w := Run(w0, es);
       var pendingAtSeed := PendingCount(Before(w0, es, i));
       && w.counter.Some?
       && w.counter.value + PendingCount(w) <= Consumed(w) + pendingAtSeed
       && ((forall k :: i <= k < |es| ==> !Disturbs(es[k])) ==>
             w.counter.value + PendingCount(w) == Consumed(w) + pendingAtSeed)
  }

  /** In every interleaving, a live counter either was set by the SETNX of a request that held the sum
      as it read it, and then leads the sum by at most the recorders that were between UPSERT and INCR
      at that very read (exactly, when nothing was evicted and no INCR failed since), or was born from
      an INCR on a missing key, and then never exceeds the sum; and it has not been evicted since. */
  lemma CounterFollowsSum(w0: World, es: seq<Step>)
    requires Boot(w0)
    ensures var w := Run(w0, es);
            0 <= PendingCount(w)
    ensures var w := Run(w0, es);
            w.counter.Some? ==>
              || (exists i: nat, j: nat, r: nat :: CountsFrom(w0, es, i, j, r))
              || (w.counter.value + PendingCount(w) <= Consumed(w) && exists i: nat :: BornFromIncr(w0, es, i))
  {
    var w := Run(w0, es);
    CounterInvRun(w0, es);
    HistoryRun(w0, es);
    if w.counter.Some? && w.seedEpoch.Some? {
      var i: nat, j: nat, r: nat :| LiveSeed(w0, es, i, j, r, w.lead, w.seedEpoch.value);
      if forall k :: i <= k < |es| ==> !Disturbs(es[k]) {
        UndisturbedKeepsEpoch(w0, es, i);
      }
      assert CountsFrom(w0, es, i, j, r);
    }
  }

  /** The other side: once the counter exists, evictions and failed INCRs apart, its distance to
      the sum never changes. So a counter that lost its value and was reborn from an INCR stays
      low: nothing corrects it, whatever the comment on IncrBundleConsumed expects. */
  lemma {:induction false} DriftIsConstant(w0: World, es: seq<Step>)
    requires w0.counter.Some?
    requires forall j :: 0 <= j < |es| ==> !Disturbs(es[j])
    ensures var w := Run(w0, es);
            && w.counter.Some?
            && w.counter.value + PendingCount(w) - Consumed(w)
               == w0.counter.value + PendingCount(w0) - Consumed(w0)
  {
    if es != [] {
      var pre := es[..|es| - 1];
      DriftIsConstant(w0, pre);
      StepAccounts(Run(w0, pre), es[|es| - 1]);
      assert !Disturbs(es[|es| - 1]);
    }
  }

  /** The reborn counter: it starts at 1 whatever the sum, and for as long as it lives it stays
      behind the sum by what it lost. */
  lemma RebornCounterStaysLow(w0: World, r: nat, es: seq<Step>)
    requires w0.counter.None? && r in w0.reqs && w0.reqs[r].Pending?
    requires forall j :: 0 <= j < |es| ==> !Disturbs(es[j])
    ensures var w := Run(Next(w0, Incr(r, true)), es);
            && w.counter.Some?
            && w.counter.value == Consumed(w) - PendingCount(w) - (Consumed(w0) - PendingCount(w0))
  {
    var w1 := Next(w0, Incr(r, true));
    IncrAccounts(w0, Incr(r, true));
    MovePending(w0, r, w1.reqs[r]);
    DriftIsConstant(Next(w0, Incr(r, true)), es);
  }
}
