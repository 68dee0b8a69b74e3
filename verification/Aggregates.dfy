/** The monthly aggregates as a fold of the event log, in every interleaving of recorders. */
module Aggregates {
  import opened Common
  import opened MapSum
  import opened Ledger

  // ---------------------------------------------------------------- reading the log

  /** The row that one month of the event log amounts to. */
  function FoldLog(log: seq<UsageEvent>, p: Period): Row {
    if log == [] then Row(0, 0, 0, 0, 0)
    else
      var r := FoldLog(log[..|log| - 1], p);
      var e := log[|log| - 1];
      if e.period == p then AddEvent(r, e.status, Millis(e.latency)) else r
  }

  function AddEvent(r: Row, st: Status, millis: int): Row {
    Row(r.total + 1, r.succeeded + One(st.Success?), r.failed + One(st.Error?),
        r.rejected + One(st.Rejected?), r.latency + millis)
  }

  /** The places in the log of a month's events with this status. */
  function Places(log: seq<UsageEvent>, p: Period, st: Status): set<nat> {
    set i: nat | i < |log| && log[i].period == p && log[i].status == st
  }

  predicate HasPlace(log: seq<UsageEvent>, i: nat, p: Period, st: Status) { i in Places(log, p, st) }

  lemma PlaceStays(log: seq<UsageEvent>, e: UsageEvent, i: nat, p: Period, st: Status)
    ensures HasPlace(log + [e], i, p, st)
            <==> HasPlace(log, i, p, st) || (i == |log| && e.period == p && e.status == st)
  {
    assert i < |log| ==> (log + [e])[i] == log[i];
  }

  lemma PlacesGrow(log: seq<UsageEvent>, e: UsageEvent, p: Period, st: Status)
    ensures |Places(log + [e], p, st)| == |Places(log, p, st)| + if e.period == p && e.status == st then 1 else 0
  {
    var was, all := Places(log, p, st), Places(log + [e], p, st);
    forall i: nat ensures i in all <==> i in was || (i == |log| && e.period == p && e.status == st) {
      PlaceStays(log, e, i, p, st);
      assert HasPlace(log, i, p, st) <==> i in was;
      assert HasPlace(log + [e], i, p, st) <==> i in all;
    }
    assert all == if e.period == p && e.status == st then was + {|log|} else was;
  }

  /** The columns of the fold count the month's events by status; every event of the month is in total. */
  lemma {:induction false} FoldCounts(log: seq<UsageEvent>, p: Period)
    ensures var row := FoldLog(log, p);
            && row.succeeded == |set i: nat | i < |log| && log[i].period == p && log[i].status == Success|
            && row.failed == |set i: nat | i < |log| && log[i].period == p && log[i].status == Error|
            && row.rejected == |set i: nat | i < |log| && log[i].period == p && log[i].status == Rejected|
            && row.total == row.succeeded + row.failed + row.rejected
  {
    assert forall st :: Places(log, p, st) == set i: nat | i < |log| && log[i].period == p && log[i].status == st;
    if log != [] {
      var pre, e := log[..|log| - 1], log[|log| - 1];
      FoldCounts(pre, p);
      assert log == pre + [e];
      PlacesGrow(pre, e, p, Success);
      PlacesGrow(pre, e, p, Error);
      PlacesGrow(pre, e, p, Rejected);
    }
  }

  function RowAt(rows: map<Period, Row>, p: Period): Row {
    if p in rows then rows[p] else Row(0, 0, 0, 0, 0)
  }

  /** Recorders that have inserted their event and not yet upserted it. */
  function StatusWeight(p: Period, st: Status): Phase -> int {
    (ph: Phase) => One(ph.Inserted? && ph.period == p && ph.status == st)
  }

  function LatencyWeight(p: Period): Phase -> int {
    (ph: Phase) => if ph.Inserted? && ph.period == p then Millis(ph.latency) else 0
  }

  ghost function Waiting(w: World, p: Period, st: Status): int { Sum(w.reqs, StatusWeight(p, st)) }

  ghost function WaitingLatency(w: World, p: Period): int { Sum(w.reqs, LatencyWeight(p)) }

  /** Both writes of a recorder succeed. */
  predicate WritesSucceed(s: Step) {
    (s.InsertEvent? ==> s.ok) && (s.UpsertAggregate? ==> s.ok)
  }

  /** Conservation, month by month and column by column: the row plus what is between its two
      writes is the fold of the log. */
  ghost predicate Conserved(w: World, p: Period) {
    var row, fold := RowAt(w.rows, p), FoldLog(w.log, p);
    && row.succeeded + Waiting(w, p, Success) == fold.succeeded
    && row.failed + Waiting(w, p, Error) == fold.failed
    && row.rejected + Waiting(w, p, Rejected) == fold.rejected
    && row.latency + WaitingLatency(w, p) == fold.latency
    && row.total == row.succeeded + row.failed + row.rejected
    && fold.total == fold.succeeded + fold.failed + fold.rejected
  }

  lemma MoveWaiting(w: World, r: nat, ph: Phase, p: Period, st: Status)
    ensures Waiting(Move(w, r, ph), p, st)
            == Waiting(w, p, st) + StatusWeight(p, st)(ph)
               - (if r in w.reqs then StatusWeight(p, st)(w.reqs[r]) else 0)
    ensures WaitingLatency(Move(w, r, ph), p)
            == WaitingLatency(w, p) + LatencyWeight(p)(ph)
               - (if r in w.reqs then LatencyWeight(p)(w.reqs[r]) else 0)
  {
    SumUpdate(w.reqs, r, ph, StatusWeight(p, st));
    SumUpdate(w.reqs, r, ph, LatencyWeight(p));
  }

  /** A step that moves one request between phases other than Inserted, and writes nothing here. */
  ghost predicate Silent(w: World, w': World) {
    && w'.rows == w.rows && w'.log == w.log
    && (w'.reqs == w.reqs
        || exists r: nat, ph {:trigger Move(w, r, ph)} ::
             w'.reqs == Move(w, r, ph).reqs && !ph.Inserted? && (r in w.reqs ==> !w.reqs[r].Inserted?))
  }

  lemma SilentGate(w: World, s: Step)
    requires GateStep(s)
    ensures Silent(w, GateNext(w, s))
  {
    var w' := GateNext(w, s);
    assert w'.reqs != w.reqs ==> w'.reqs == Move(w, s.r, w'.reqs[s.r]).reqs;
  }

  lemma SilentReading(w: World, s: Step)
    requires ReadingStep(s)
    ensures Silent(w, ReadingNext(w, s))
  {
    var w' := ReadingNext(w, s);
    assert w'.reqs != w.reqs ==> w'.reqs == Move(w, s.r, w'.reqs[s.r]).reqs;
  }

  lemma SilentRecorder(w: World, s: Step)
    requires s.NoUpstream? || s.Send? || s.Incr?
    ensures Silent(w, RecorderNext(w, s))
  {
    var w' := RecorderNext(w, s);
    assert w'.reqs != w.reqs ==> w'.reqs == Move(w, s.r, w'.reqs[s.r]).reqs;
  }

  lemma SilentKeeps(w: World, w': World, p: Period)
    requires Conserved(w, p) && Silent(w, w')
    ensures Conserved(w', p)
  {
    if w'.reqs != w.reqs {
      var r: nat, ph :| w'.reqs == Move(w, r, ph).reqs && !ph.Inserted? && (r in w.reqs ==> !w.reqs[r].Inserted?);
      MoveWaiting(w, r, ph, p, Success);
      MoveWaiting(w, r, ph, p, Error);
      MoveWaiting(w, r, ph, p, Rejected);
    }
  }

  lemma InsertKeeps(w: World, r: nat, period: Period, p: Period)
    requires Conserved(w, p) && r in w.reqs && w.reqs[r].Recording?
    ensures Conserved(RecorderNext(w, InsertEvent(r, true, period)), p)
  {
    var w' := RecorderNext(w, InsertEvent(r, true, period));
    var ph := w.reqs[r];
    assert w'.log[..|w.log|] == w.log;
    assert w'.reqs == Move(w, r, w'.reqs[r]).reqs;
    MoveWaiting(w, r, w'.reqs[r], p, Success);
    MoveWaiting(w, r, w'.reqs[r], p, Error);
    MoveWaiting(w, r, w'.reqs[r], p, Rejected);
  }

  lemma UpsertKeeps(w: World, r: nat, p: Period)
    requires Conserved(w, p) && r in w.reqs && w.reqs[r].Inserted?
    ensures Conserved(RecorderNext(w, UpsertAggregate(r, true)), p)
  {
    var w' := RecorderNext(w, UpsertAggregate(r, true));
    MoveWaiting(w, r, w'.reqs[r], p, Success);
    MoveWaiting(w, r, w'.reqs[r], p, Error);
    MoveWaiting(w, r, w'.reqs[r], p, Rejected);
  }

  lemma ConservedStep(w: World, s: Step, p: Period)
    requires Conserved(w, p) && WritesSucceed(s)
    ensures Conserved(Next(w, s), p)
  {
    if GateStep(s) {
      SilentGate(w, s);
      SilentKeeps(w, Next(w, s), p);
    } else if ReadingStep(s) {
      SilentReading(w, s);
      SilentKeeps(w, Next(w, s), p);
    } else if s.InsertEvent? {
      if s.r in w.reqs && w.reqs[s.r].Recording? {
        InsertKeeps(w, s.r, s.period, p);
      }
    } else if s.UpsertAggregate? {
      if s.r in w.reqs && w.reqs[s.r].Inserted? {
        UpsertKeeps(w, s.r, p);
      }
    } else if RecorderStep(s) {
      SilentRecorder(w, s);
      SilentKeeps(w, Next(w, s), p);
    }
  }

  /** Nothing recorded and nobody recording. */
  ghost predicate Clean(w: World) { w.rows == map[] && w.log == [] && w.reqs == map[] }

  lemma {:induction false} ConservedRun(w0: World, es: seq<Step>, p: Period)
    requires Clean(w0)
    requires forall i :: 0 <= i < |es| ==> WritesSucceed(es[i])
    ensures Conserved(Run(w0, es), p)
  {
    if es != [] {
      ConservedRun(w0, es[..|es| - 1], p);
      ConservedStep(Run(w0, es[..|es| - 1]), es[|es| - 1], p);
    }
  }

  /** No recorder is between its two writes. */
  ghost predicate Quiescent(w: World) { forall r :: r in w.reqs ==> !w.reqs[r].Inserted? }

  /** Whatever the order in which recorders insert and upsert, once none is between its two writes
      every monthly row is the fold of that month of the event log: it counts the events by status. */
  lemma AggregatesAreFoldOfLog(w0: World, es: seq<Step>, p: Period)
    requires Clean(w0)
    requires forall i :: 0 <= i < |es| ==> WritesSucceed(es[i])
    requires Quiescent(Run(w0, es))
    ensures RowAt(Run(w0, es).rows, p) == FoldLog(Run(w0, es).log, p)
    ensures var row, log := RowAt(Run(w0, es).rows, p), Run(w0, es).log;
            && row.succeeded == |set i: nat | i < |log| && log[i].period == p && log[i].status == Success|
            && row.failed == |set i: nat | i < |log| && log[i].period == p && log[i].status == Error|
            && row.rejected == |set i: nat | i < |log| && log[i].period == p && log[i].status == Rejected|
  {
    var w := Run(w0, es);
    FoldCounts(w.log, p);
    ConservedRun(w0, es, p);
    SumZero(w.reqs, StatusWeight(p, Success));
    SumZero(w.reqs, StatusWeight(p, Error));
    SumZero(w.reqs, StatusWeight(p, Rejected));
    SumZero(w.reqs, LatencyWeight(p));
  }

  // ---------------------------------------------------------------- one event per request

  function EventsOf(log: seq<UsageEvent>, r: nat): int {
    if log == [] then 0 else EventsOf(log[..|log| - 1], r) + One(log[|log| - 1].req == r)
  }

  /** The recorder of this request has inserted its event. */
  predicate Logged(ph: Phase) { ph.Inserted? || ph.Pending? || (ph.Finished? && ph.counted) }

  /** What is recorded and what the client is told agree. */
  predicate Agree(st: Status, reply: Reply) {
    && (st.Success? <==> reply.Stamped?)
    && (st.Rejected? <==> reply.QuotaExceeded?)
    && (st.Error? <==> reply.UpstreamUnavailable?)
  }

  predicate PhaseAgrees(ph: Phase) {
    && (ph.Recording? || ph.Inserted? ==> Agree(ph.status, ph.reply))
    && (ph.Pending? ==> !ph.reply.InternalError?)
    && (ph.Finished? && ph.counted ==> !ph.reply.InternalError?)
    && (ph.Finished? && !ph.counted ==> ph.reply.InternalError? || ph.reply.UpstreamUnavailable?)
  }

  ghost predicate LogTrue(w: World) {
    && (forall r :: r in w.reqs ==> PhaseAgrees(w.reqs[r]))
    && (forall r: nat :: EventsOf(w.log, r) == One(r in w.reqs && Logged(w.reqs[r])))
    && (forall e :: e in w.log ==>
          e.req in w.reqs && Logged(w.reqs[e.req]) && Agree(e.status, w.reqs[e.req].reply))
  }

  /** A request whose phase changes without a log entry keeps its place before or after the log. */
  ghost predicate Unlogged(w: World, w': World) {
    && w'.log == w.log
    && (w'.reqs == w.reqs
        || exists r: nat, ph {:trigger Move(w, r, ph)} ::
             && w'.reqs == Move(w, r, ph).reqs && ((r in w.reqs ==> PhaseAgrees(w.reqs[r])) ==> PhaseAgrees(ph))
             && (if r in w.reqs && Logged(w.reqs[r]) then Logged(ph) && ph.reply == w.reqs[r].reply
                 else !Logged(ph)))
  }

  lemma UnloggedKeeps(w: World, w': World)
    requires LogTrue(w) && Unlogged(w, w')
    ensures LogTrue(w')
  {
  }

  lemma UnloggedGate(w: World, s: Step)
    requires GateStep(s)
    ensures Unlogged(w, GateNext(w, s))
  {
    var w' := GateNext(w, s);
    assert w'.reqs != w.reqs ==> w'.reqs == Move(w, s.r, w'.reqs[s.r]).reqs;
  }

  lemma UnloggedReading(w: World, s: Step)
    requires ReadingStep(s)
    ensures Unlogged(w, ReadingNext(w, s))
  {
    var w' := ReadingNext(w, s);
    assert w'.reqs != w.reqs ==> w'.reqs == Move(w, s.r, w'.reqs[s.r]).reqs;
  }

  lemma UnloggedRecorder(w: World, s: Step)
    requires RecorderStep(s) && !s.InsertEvent? && WritesSucceed(s)
    ensures Unlogged(w, RecorderNext(w, s))
  {
    var w' := RecorderNext(w, s);
    assert w'.reqs != w.reqs ==> w'.reqs == Move(w, s.r, w'.reqs[s.r]).reqs;
  }

  lemma InsertIsLogged(w: World, r: nat, period: Period)
    requires LogTrue(w) && r in w.reqs && w.reqs[r].Recording?
    ensures LogTrue(RecorderNext(w, InsertEvent(r, true, period)))
  {
    var w' := RecorderNext(w, InsertEvent(r, true, period));
    assert PhaseAgrees(w.reqs[r]);
    assert w'.log[..|w.log|] == w.log;
  }

  lemma {:induction false} LogRun(w0: World, es: seq<Step>)
    requires Clean(w0)
    requires forall i :: 0 <= i < |es| ==> WritesSucceed(es[i])
    ensures LogTrue(Run(w0, es))
  {
    if es != [] {
      var w, s := Run(w0, es[..|es| - 1]), es[|es| - 1];
      LogRun(w0, es[..|es| - 1]);
      assert WritesSucceed(s);
      if s.InsertEvent? {
        if s.r in w.reqs && w.reqs[s.r].Recording? {
          InsertIsLogged(w, s.r, s.period);
        }
      } else {
        if GateStep(s) {
          UnloggedGate(w, s);
        } else if ReadingStep(s) {
          UnloggedReading(w, s);
        } else if RecorderStep(s) {
          UnloggedRecorder(w, s);
        }
        UnloggedKeeps(w, Next(w, s));
      }
    }
  }

  /** Step i sends request r to the upstream; step i finds that there is no upstream for it. */
  ghost predicate SentAt(w0: World, es: seq<Step>, i: nat, r: nat) {
    && i < |es| && es[i].Send? && es[i].r == r && (!es[i].sent.err ==> es[i].sent.response.Some?)
    && r in Before(w0, es, i).reqs && Before(w0, es, i).reqs[r].Sending?
  }

  ghost predicate NoUpstreamAt(w0: World, es: seq<Step>, i: nat, r: nat) {
    && i < |es| && es[i] == NoUpstream(r) && r in Before(w0, es, i).reqs && Before(w0, es, i).reqs[r].Sending?
  }

  /** On its way through the recorder, or through it. */
  predicate Recorded(ph: Phase) { ph.Recording? || Logged(ph) }

  /** A request that is recorded, or over, stays so. */
  ghost predicate StaysRecorded(w: World, w': World, r: nat)
    requires r in w.reqs
  {
    && (Recorded(w.reqs[r]) ==> r in w'.reqs && Recorded(w'.reqs[r]))
    && (w.reqs[r].Finished? ==> r in w'.reqs && w'.reqs[r] == w.reqs[r])
  }

  lemma GateStays(w: World, s: Step, r: nat)
    requires GateStep(s) && r in w.reqs
    ensures StaysRecorded(w, GateNext(w, s), r)
  {
  }

  lemma ReadingStays(w: World, s: Step, r: nat)
    requires ReadingStep(s) && r in w.reqs
    ensures StaysRecorded(w, ReadingNext(w, s), r)
  {
  }

  lemma RecorderStays(w: World, s: Step, r: nat)
    requires RecorderStep(s) && WritesSucceed(s) && r in w.reqs
    ensures StaysRecorded(w, RecorderNext(w, s), r)
  {
  }

  lemma RecordedStays(w: World, s: Step, r: nat)
    requires WritesSucceed(s) && r in w.reqs
    ensures Recorded(w.reqs[r]) ==> r in Next(w, s).reqs && Recorded(Next(w, s).reqs[r])
    ensures w.reqs[r].Finished? ==> r in Next(w, s).reqs && Next(w, s).reqs[r] == w.reqs[r]
  {
    if GateStep(s) {
      GateStays(w, s, r);
    } else if ReadingStep(s) {
      ReadingStays(w, s, r);
    } else if RecorderStep(s) {
      RecorderStays(w, s, r);
    }
  }

  /** Once sent, a request is recorded; once it found no upstream, it is over. */
  lemma {:induction false} SentIsRecorded(w0: World, es: seq<Step>, r: nat, i: nat)
    requires forall n :: 0 <= n < |es| ==> WritesSucceed(es[n])
    ensures SentAt(w0, es, i, r) ==> r in Run(w0, es).reqs && Recorded(Run(w0, es).reqs[r])
    ensures NoUpstreamAt(w0, es, i, r) ==>
              r in Run(w0, es).reqs && Run(w0, es).reqs[r] == Finished(UpstreamUnavailable, false)
  {
    if i < |es| {
      var pre, s := es[..|es| - 1], es[|es| - 1];
      if i < |pre| {
        assert pre[..i] == es[..i];
        SentIsRecorded(w0, pre, r, i);
        if SentAt(w0, es, i, r) || NoUpstreamAt(w0, es, i, r) {
          RecordedStays(Run(w0, pre), s, r);
        }
      } else {
        assert es[..i] == pre;
        if s.Send? || s.NoUpstream? {
          assert Run(w0, es) == RecorderNext(Run(w0, pre), s);
        }
      }
    }
  }

  /** A finished request has exactly one event when it was stamped, rejected at the gate or sent to the
      upstream, whatever came of that; none when the quota lookup failed or no upstream was configured;
      and the event is a success exactly when the client received a stamp, a rejection exactly when the
      gate refused. */
  lemma OneEventPerStampedRequest(w0: World, es: seq<Step>, r: nat)
    requires Clean(w0)
    requires forall i :: 0 <= i < |es| ==> WritesSucceed(es[i])
    requires r in Run(w0, es).reqs && Run(w0, es).reqs[r].Finished?
    ensures var w := Run(w0, es);
            && (w.reqs[r].reply.Stamped? || w.reqs[r].reply.QuotaExceeded? ==> EventsOf(w.log, r) == 1)
            && ((exists i: nat :: SentAt(w0, es, i, r)) ==> EventsOf(w.log, r) == 1)
            && ((exists i: nat :: NoUpstreamAt(w0, es, i, r)) ==> EventsOf(w.log, r) == 0)
            && (w.reqs[r].reply.InternalError? ==> EventsOf(w.log, r) == 0)
            && EventsOf(w.log, r) == One(w.reqs[r].counted)
            && (forall e :: e in w.log && e.req == r ==> Agree(e.status, w.reqs[r].reply))
  {
    LogRun(w0, es);
    assert PhaseAgrees(Run(w0, es).reqs[r]);
    if i: nat :| SentAt(w0, es, i, r) {
      SentIsRecorded(w0, es, r, i);
    }
    if i: nat :| NoUpstreamAt(w0, es, i, r) {
      SentIsRecorded(w0, es, r, i);
    }
  }
}
