/** The alert e-mails: look the pair up in the log, send, insert ON CONFLICT DO NOTHING
    (service/proxy/service.go, repository/postgres/quotas.go). First the check as one goroutine runs
    it, then any number of them interleaved. */
module Notifications {
  import opened Common
  import Fifo

  /** A bundle and the threshold that was crossed. */
  type Pair = (nat, int)

  /** A row of bundle_notification_log. */
  datatype LogRow = LogRow(pair: Pair, message: nat)

  predicate Notified(log: seq<LogRow>, p: Pair) { exists i :: 0 <= i < |log| && log[i].pair == p }

  /** INSERT ... ON CONFLICT (bundle_id, threshold_percent) DO NOTHING. */
  function Record(log: seq<LogRow>, p: Pair, message: nat): seq<LogRow> {
    if Notified(log, p) then log else log + [LogRow(p, message)]
  }

  function Sends(outbox: seq<LogRow>, p: Pair): nat {
    if outbox == [] then 0
    else Sends(outbox[..|outbox| - 1], p) + if outbox[|outbox| - 1].pair == p then 1 else 0
  }

  lemma SendsAppend(outbox: seq<LogRow>, row: LogRow, p: Pair)
    ensures Sends(outbox + [row], p) == Sends(outbox, p) + if row.pair == p then 1 else 0
  {
    assert (outbox + [row])[..|outbox|] == outbox;
  }

  // ---------------------------------------------------------------- interleaved checks

  datatype Checker = Looked(pair: Pair) | Sent(pair: Pair, message: nat)

  /** outbox is everything that was sent; checkers not in the map are between bundles. */
  datatype World = World(log: seq<LogRow>, outbox: seq<LogRow>, checkers: map<nat, Checker>)

  datatype Step =
    | LookUp(c: nat, pair: Pair)
    | Send(c: nat, ok: bool, message: nat)
    | Insert(c: nat, ok: bool)

  /** This step looks p up and finds it missing. */
  predicate FindsMissing(w: World, s: Step, p: Pair) {
    s.LookUp? && s.pair == p && s.c !in w.checkers && !Notified(w.log, p)
  }

  function Next(w: World, s: Step): World {
    match s
    case LookUp(c, p) =>
      if c in w.checkers || Notified(w.log, p) then w else w.(checkers := w.checkers[c := Looked(p)])
    case Send(c, ok, message) =>
      if !(c in w.checkers && w.checkers[c].Looked?) then w
      else if ok
      then w.(outbox := w.outbox + [LogRow(w.checkers[c].pair, message)],
              checkers := w.checkers[c := Sent(w.checkers[c].pair, message)])
      else w.(checkers := w.checkers - {c})
    case Insert(c, ok) =>
      if !(c in w.checkers && w.checkers[c].Sent?) then w
      else
        var w' := w.(checkers := w.checkers - {c});
        if ok then w'.(log := Record(w.log, w.checkers[c].pair, w.checkers[c].message)) else w'
  }

  function Run(w: World, es: seq<Step>): World {
    if es == [] then w else Next(Run(w, es[..|es| - 1]), es[|es| - 1])
  }

  /** The look-ups of p that found it missing: all of them precede the first row for p. */
  function Misses(w0: World, es: seq<Step>, p: Pair): nat {
    if es == [] then 0
    else Misses(w0, es[..|es| - 1], p)
         + if FindsMissing(Run(w0, es[..|es| - 1]), es[|es| - 1], p) then 1 else 0
  }

  ghost predicate OneRowEach(log: seq<LogRow>) {
    forall i, j :: 0 <= i < j < |log| ==> log[i].pair != log[j].pair
  }

  ghost predicate Backed(w: World) {
    && (forall i :: 0 <= i < |w.log| ==> w.log[i] in w.outbox)
    && (forall c :: c in w.checkers && w.checkers[c].Sent? ==>
          LogRow(w.checkers[c].pair, w.checkers[c].message) in w.outbox)
  }

  lemma StepKeepsRows(w: World, s: Step)
    requires OneRowEach(w.log) && Backed(w)
    ensures OneRowEach(Next(w, s).log) && Backed(Next(w, s))
  {
  }

  ghost function LookedAt(w: World, p: Pair): set<nat> {
    set c | c in w.checkers && w.checkers[c] == Looked(p)
  }

  /** Sends of p, plus the checks that are about to send it. */
  ghost function Spent(w: World, p: Pair): int { Sends(w.outbox, p) + |LookedAt(w, p)| }

  lemma LookUpSpends(w: World, c: nat, q: Pair, p: Pair)
    ensures Spent(Next(w, LookUp(c, q)), p) == Spent(w, p) + if FindsMissing(w, LookUp(c, q), p) then 1 else 0
  {
    var w' := Next(w, LookUp(c, q));
    if FindsMissing(w, LookUp(c, q), p) {
      assert LookedAt(w', p) == LookedAt(w, p) + {c};
    } else {
      assert LookedAt(w', p) == LookedAt(w, p);
    }
  }

  lemma SendSpends(w: World, c: nat, ok: bool, m: nat, p: Pair)
    ensures Spent(Next(w, Send(c, ok, m)), p) <= Spent(w, p)
  {
    var w' := Next(w, Send(c, ok, m));
    if c in w.checkers && w.checkers[c].Looked? {
      assert LookedAt(w', p) == LookedAt(w, p) - {c};
      if ok {
        assert w'.outbox[..|w.outbox|] == w.outbox;
      }
    }
  }

  lemma StepSpends(w: World, s: Step, p: Pair)
    ensures Spent(Next(w, s), p) <= Spent(w, p) + if FindsMissing(w, s, p) then 1 else 0
  {
    match s {
      case LookUp(c, q) => LookUpSpends(w, c, q, p);
      case Send(c, ok, m) => SendSpends(w, c, ok, m, p);
      case Insert(c, ok) => assert LookedAt(Next(w, s), p) == LookedAt(w, p);
    }
  }

  ghost predicate Fresh(w: World) { w.log == [] && w.outbox == [] && w.checkers == map[] }

  /** In every interleaving of alert checks the log holds at most one row per bundle and threshold,
      every row follows a successful send for it with that message, and a pair is sent at most as
      often as checks looked it up before its first row. */
  lemma {:induction false} NotificationProtocol(w0: World, es: seq<Step>, p: Pair)
    requires Fresh(w0)
    ensures var w := Run(w0, es);
            && OneRowEach(w.log) && Backed(w)
            && Spent(w, p) <= Misses(w0, es, p)
  {
    if es != [] {
      var pre, s := es[..|es| - 1], es[|es| - 1];
      NotificationProtocol(w0, pre, p);
      StepKeepsRows(Run(w0, pre), s);
      StepSpends(Run(w0, pre), s, p);
    }
  }

  lemma RowStays(w: World, s: Step, p: Pair)
    requires Notified(w.log, p)
    ensures Notified(Next(w, s).log, p)
  {
    var i :| 0 <= i < |w.log| && w.log[i].pair == p;
    assert Next(w, s).log[i].pair == p;
  }

  /** Once p has a row no further look-up misses it, so its sends are bounded for good. */
  lemma {:induction false} RowEndsMisses(w0: World, pre: seq<Step>, es: seq<Step>, p: Pair)
    requires Notified(Run(w0, pre).log, p)
    ensures Notified(Run(w0, pre + es).log, p) && Misses(w0, pre + es, p) == Misses(w0, pre, p)
  {
    if es == [] {
      assert pre + es == pre;
    } else {
      RowEndsMisses(w0, pre, es[..|es| - 1], p);
      assert (pre + es)[..|pre + es| - 1] == pre + es[..|es| - 1];
      RowStays(Run(w0, pre + es[..|es| - 1]), es[|es| - 1], p);
    }
  }

  /** A send that fails leaves no trace but the idle checker: the pair can be retried. */
  lemma FailedSendIsRetried(w: World, c: nat, p: Pair, m: nat)
    requires FindsMissing(w, LookUp(c, p), p)
    ensures var w' := Next(Next(w, LookUp(c, p)), Send(c, false, m));
            w' == w && FindsMissing(w', LookUp(c, p), p)
  {
    assert w.checkers[c := Looked(p)] - {c} == w.checkers;
  }

  // ---------------------------------------------------------------- as many sends as misses

  lemma RunSnoc(w: World, es: seq<Step>, s: Step)
    ensures Run(w, es + [s]) == Next(Run(w, es), s)
  {
    assert (es + [s])[..|es|] == es;
  }

  lemma {:induction false} RunConcat(w: World, es: seq<Step>, fs: seq<Step>)
    ensures Run(w, es + fs) == Run(Run(w, es), fs)
  {
    if fs == [] {
      assert es + fs == es;
    } else {
      RunConcat(w, es, fs[..|fs| - 1]);
      assert (es + fs)[..|es + fs| - 1] == es + fs[..|fs| - 1];
    }
  }

  /** Checks 0 to k - 1 look p up, then all send, then all insert. */
  function LookUps(p: Pair): nat -> Step { (c: nat) => LookUp(c, p) }

  const SENDS: nat -> Step := (c: nat) => Send(c, true, c)

  const INSERTS: nat -> Step := (c: nat) => Insert(c, true)

  function All(step: nat -> Step, k: nat): seq<Step> { if k == 0 then [] else All(step, k - 1) + [step(k - 1)] }

  function Chorus(p: Pair, k: nat): seq<Step> { All(LookUps(p), k) + All(SENDS, k) + All(INSERTS, k) }

  ghost predicate HaveLooked(w: World, p: Pair, i: nat) {
    && w.log == [] && w.outbox == []
    && (forall c: nat :: c in w.checkers <==> c < i) && (forall c: nat :: c < i ==> w.checkers[c] == Looked(p))
  }

  lemma OneLooks(w: World, p: Pair, i: nat)
    requires HaveLooked(w, p, i)
    ensures HaveLooked(Next(w, LookUp(i, p)), p, i + 1) && FindsMissing(w, LookUp(i, p), p)
  {
  }

  lemma {:induction false} AllLook(w: World, p: Pair, i: nat)
    requires Fresh(w)
    ensures HaveLooked(Run(w, All(LookUps(p), i)), p, i) && Misses(w, All(LookUps(p), i), p) == i
  {
    if i > 0 {
      AllLook(w, p, i - 1);
      LooksNext(w, p, i - 1, All(LookUps(p), i - 1), All(LookUps(p), i));
    }
  }

  lemma LooksNext(w: World, p: Pair, i: nat, es: seq<Step>, es': seq<Step>)
    requires HaveLooked(Run(w, es), p, i) && Misses(w, es, p) == i && es' == es + [LookUp(i, p)]
    ensures HaveLooked(Run(w, es'), p, i + 1) && Misses(w, es', p) == i + 1
  {
    OneLooks(Run(w, es), p, i);
    assert es'[..|es|] == es;
  }

  ghost predicate HaveSent(w: World, p: Pair, k: nat, i: nat) {
    && w.log == [] && Sends(w.outbox, p) == i && (forall c: nat :: c in w.checkers <==> c < k)
    && (forall c: nat :: c < k ==> w.checkers[c] == if c < i then Sent(p, c) else Looked(p))
  }

  lemma OneSends(w: World, p: Pair, k: nat, i: nat)
    requires HaveSent(w, p, k, i) && i < k
    ensures HaveSent(Next(w, Send(i, true, i)), p, k, i + 1)
  {
    SendsAppend(w.outbox, LogRow(p, i), p);
  }

  ghost predicate HaveInserted(w: World, outbox: seq<LogRow>, p: Pair, k: nat, i: nat) {
    && w.outbox == outbox && w.log == (if i == 0 then [] else [LogRow(p, 0)])
    && (forall c: nat :: c in w.checkers <==> i <= c < k)
    && (forall c: nat :: i <= c < k ==> w.checkers[c] == Sent(p, c))
  }

  lemma OneInserts(w: World, outbox: seq<LogRow>, p: Pair, k: nat, i: nat)
    requires HaveInserted(w, outbox, p, k, i) && i < k
    ensures HaveInserted(Next(w, Insert(i, true)), outbox, p, k, i + 1)
  {
    assert i > 0 ==> w.log[0].pair == p;
  }

  /** Step j takes q from j to j + 1. */
  ghost predicate Keeps(step: nat -> Step, q: (World, nat) -> bool, u: World, j: nat) {
    q(u, j) ==> q(Next(u, step(j)), j + 1)
  }

  lemma {:induction false} AllKeep(step: nat -> Step, q: (World, nat) -> bool, w: World, k: nat, i: nat)
    requires i <= k && q(w, 0)
    requires forall u: World, j: nat :: j < k ==> Keeps(step, q, u, j)
    ensures q(Run(w, All(step, i)), i)
  {
    if i > 0 {
      AllKeep(step, q, w, k, i - 1);
      assert Keeps(step, q, Run(w, All(step, i - 1)), i - 1);
      RunSnoc(w, All(step, i - 1), step(i - 1));
    }
  }

  lemma AllSend(w: World, p: Pair, k: nat)
    requires HaveSent(w, p, k, 0)
    ensures HaveSent(Run(w, All(SENDS, k)), p, k, k)
  {
    var q := (u: World, i: nat) => HaveSent(u, p, k, i);
    forall u: World, j: nat | j < k ensures Keeps(SENDS, q, u, j) {
      if q(u, j) {
        OneSends(u, p, k, j);
      }
    }
    AllKeep(SENDS, q, w, k, k);
  }

  lemma AllInsert(w: World, outbox: seq<LogRow>, p: Pair, k: nat)
    requires HaveInserted(w, outbox, p, k, 0)
    ensures HaveInserted(Run(w, All(INSERTS, k)), outbox, p, k, k)
  {
    var q := (u: World, i: nat) => HaveInserted(u, outbox, p, k, i);
    forall u: World, j: nat | j < k ensures Keeps(INSERTS, q, u, j) {
      if q(u, j) {
        OneInserts(u, outbox, p, k, j);
      }
    }
    AllKeep(INSERTS, q, w, k, k);
  }

  lemma {:induction false} NoLookUpNoMiss(w: World, step: nat -> Step, k: nat, p: Pair)
    requires forall c: nat :: !step(c).LookUp?
    ensures Misses(w, All(step, k), p) == 0
  {
    if k > 0 {
      NoLookUpNoMiss(w, step, k - 1, p);
      assert All(step, k)[..|All(step, k)| - 1] == All(step, k - 1);
    }
  }

  lemma {:induction false} MissesConcat(w: World, es: seq<Step>, fs: seq<Step>, p: Pair)
    ensures Misses(w, es + fs, p) == Misses(w, es, p) + Misses(Run(w, es), fs, p)
  {
    if fs == [] {
      assert es + fs == es;
    } else {
      MissesConcat(w, es, fs[..|fs| - 1], p);
      RunConcat(w, es, fs[..|fs| - 1]);
      assert (es + fs)[..|es + fs| - 1] == es + fs[..|fs| - 1];
    }
  }

  /** The bound by misses is reached: k checks that all look up before any of them inserts all send,
      for every k, and leave one row. The log protects its rows, not the recipient. */
  lemma InterleavedChecksAllSend(w: World, p: Pair, k: nat)
    requires Fresh(w)
    ensures var es := Chorus(p, k);
            var w' := Run(w, es);
            Sends(w'.outbox, p) == Misses(w, es, p) == k && w'.log == if k == 0 then [] else [LogRow(p, 0)]
  {
    var looks, sends, inserts := All(LookUps(p), k), All(SENDS, k), All(INSERTS, k);
    AllLook(w, p, k);
    var w1 := Run(w, looks);
    AllSend(w1, p, k);
    RunConcat(w, looks, sends);
    MissesConcat(w, looks, sends, p);
    NoLookUpNoMiss(w1, SENDS, k, p);
    var w2 := Run(w1, sends);
    AllInsert(w2, w2.outbox, p, k);
    RunConcat(w, looks + sends, inserts);
    MissesConcat(w, looks + sends, inserts, p);
    NoLookUpNoMiss(w2, INSERTS, k, p);
  }

  // ---------------------------------------------------------------- one check, alone

  /** What GetBundlesForAlertCheck hands over. */
  datatype BundleWithConsumption = BundleWithConsumption(id: nat, amount: nat, consumed: nat, threshold: Option<int>)

  /** How the calls made for one bundle turn out. */
  datatype Outcome = Outcome(lookupOk: bool, sendOk: bool, message: nat, insertOk: bool)

  predicate Due(b: BundleWithConsumption) {
    b.threshold.Some? && b.amount != 0 && Fifo.AlertDue(b.consumed, b.amount, b.threshold.value)
  }

  lemma DueExactly(b: BundleWithConsumption)
    ensures Due(b) <==> b.threshold.Some? && b.amount > 0 && 100 * b.consumed >= b.threshold.value * b.amount
  {
    if b.threshold.Some? && b.amount > 0 {
      Fifo.AlertDueIsExact(b.consumed, b.amount, b.threshold.value);
    }
  }

  /** One send per row and one row per send. */
  ghost predicate Exact(log: seq<LogRow>, outbox: seq<LogRow>) {
    forall p: Pair :: Sends(outbox, p) == if Notified(log, p) then 1 else 0
  }

  lemma RecordNotifies(log: seq<LogRow>, p: Pair, m: nat, q: Pair)
    ensures Notified(Record(log, p, m), q) <==> Notified(log, q) || q == p
  {
    var log' := Record(log, p, m);
    if Notified(log, q) {
      var i :| 0 <= i < |log| && log[i].pair == q;
      assert log'[i].pair == q;
    }
    if q == p && !Notified(log, p) {
      assert log'[|log|].pair == p;
    }
  }

  lemma ExactAfterSend(log: seq<LogRow>, outbox: seq<LogRow>, p: Pair, m: nat)
    requires Exact(log, outbox) && !Notified(log, p)
    ensures Exact(Record(log, p, m), outbox + [LogRow(p, m)])
  {
    assert (outbox + [LogRow(p, m)])[..|outbox|] == outbox;
    forall q: Pair
      ensures Sends(outbox + [LogRow(p, m)], q) == if Notified(Record(log, p, m), q) then 1 else 0
    {
      RecordNotifies(log, p, m, q);
    }
  }

  predicate Delivered(b: BundleWithConsumption, o: Outcome) { Due(b) && o.lookupOk && o.sendOk && o.insertOk }

  /** The rows of the alert query: the bundles with a threshold, and what the loop attributes to them. */
  function ForAlertCheck(table: seq<Fifo.Bundle>, total: nat): seq<BundleWithConsumption> {
    var rows := Fifo.Watched(table);
    seq(|rows|, k requires 0 <= k < |rows| =>
      BundleWithConsumption(rows[k].id, rows[k].amount, Fifo.Share(Fifo.Amounts(rows), total, k), rows[k].threshold))
  }

  lemma AlertRow(table: seq<Fifo.Bundle>, total: nat, i: nat)
    requires i < |table| && table[i].threshold.Some?
    ensures var k := |Fifo.Watched(table[..i])|;
            && k < |ForAlertCheck(table, total)|
            && ForAlertCheck(table, total)[k]
               == BundleWithConsumption(table[i].id, table[i].amount,
                                        Fifo.WatchedShare(table, total, i), table[i].threshold)
  {
    Fifo.WatchedAt(table, i);
  }

  /** A bundle that FIFO has at its threshold is due in the check. */
  lemma FifoDueIsDue(table: seq<Fifo.Bundle>, total: nat, i: nat)
    requires i < |table| && table[i].threshold.Some? && table[i].amount > 0
    requires 100 * Fifo.TrueShare(table, total, i) >= table[i].threshold.value * table[i].amount
    ensures var k := |Fifo.Watched(table[..i])|;
            k < |ForAlertCheck(table, total)| && Due(ForAlertCheck(table, total)[k])
  {
    AlertRow(table, total, i);
    Fifo.AlertIsNeverLate(table, total, total, i);
  }

  /** The loop of GetBundlesForAlertCheck over the rows of its query. */
  method GetBundlesForAlertCheck(table: seq<Fifo.Bundle>, total: nat) returns (result: seq<BundleWithConsumption>)
    ensures result == ForAlertCheck(table, total)
  {
    var rows := Fifo.Watched(table);
    ghost var amounts := Fifo.Amounts(rows);
    result := [];
    var remaining := total;
    assert amounts[..0] == [];
    for i := 0 to |rows|
      invariant |result| == i && forall j :: 0 <= j < i ==> result[j] == ForAlertCheck(table, total)[j]
      invariant remaining == Fifo.Left(amounts, total, i)
    {
      var consumed;
      Fifo.LeftStep(amounts, total, i);
      if remaining >= rows[i].amount {
        consumed := rows[i].amount;
        remaining := remaining - rows[i].amount;
      } else {
        consumed := remaining;
        remaining := 0;
      }
      result := result + [BundleWithConsumption(rows[i].id, rows[i].amount, consumed, rows[i].threshold)];
    }
  }

  /** One of the first k bundles is due and the pair is its. */
  predicate FoundDue(bundles: seq<BundleWithConsumption>, k: nat, p: Pair)
    requires k <= |bundles|
  {
    exists i :: 0 <= i < k && Due(bundles[i]) && p == (bundles[i].id, bundles[i].threshold.value)
  }

  lemma FoundDueLater(bundles: seq<BundleWithConsumption>, k: nat, p: Pair)
    requires k < |bundles|
    ensures FoundDue(bundles, k, p) ==> FoundDue(bundles, k + 1, p)
    ensures Due(bundles[k]) ==> FoundDue(bundles, k + 1, (bundles[k].id, bundles[k].threshold.value))
  {
    if FoundDue(bundles, k, p) {
      var i :| 0 <= i < k && Due(bundles[i]) && p == (bundles[i].id, bundles[i].threshold.value);
      assert 0 <= i < k + 1;
    }
  }

  /** What was sent from n0 on was found due and was not on record. */
  predicate SentDue(bundles: seq<BundleWithConsumption>, k: nat, log0: seq<LogRow>, n0: nat, outbox: seq<LogRow>)
    requires k <= |bundles|
  {
    forall j :: n0 <= j < |outbox| ==> FoundDue(bundles, k, outbox[j].pair) && !Notified(log0, outbox[j].pair)
  }

  lemma NewSendsAreDue(bundles: seq<BundleWithConsumption>, k: nat, log0: seq<LogRow>, log: seq<LogRow>, n0: nat,
                       sent: seq<LogRow>, outbox: seq<LogRow>)
    requires k < |bundles| && n0 <= |sent| && log0 <= log && sent <= outbox
    requires SentDue(bundles, k, log0, n0, sent)
    requires forall j :: |sent| <= j < |outbox| ==>
               Due(bundles[k]) && outbox[j].pair == (bundles[k].id, bundles[k].threshold.value) &&
                !Notified(log, outbox[j].pair)
    ensures SentDue(bundles, k + 1, log0, n0, outbox)
  {
    PrefixNotifies(log0, log);
    forall j | n0 <= j < |outbox| ensures FoundDue(bundles, k + 1, outbox[j].pair) && !Notified(log0, outbox[j].pair) {
      FoundDueLater(bundles, k, outbox[j].pair);
      if j < |sent| {
        assert outbox[j] == sent[j];
      }
    }
  }

  /** Those of the first k bundles whose calls went well are on record. */
  predicate DeliveredOnRecord(bundles: seq<BundleWithConsumption>, os: seq<Outcome>, k: nat, log: seq<LogRow>)
    requires k <= |bundles| == |os|
  {
    forall i :: 0 <= i < k && Delivered(bundles[i], os[i]) ==>
      Notified(log, (bundles[i].id, bundles[i].threshold.value))
  }

  lemma OneMoreDelivered(bundles: seq<BundleWithConsumption>, os: seq<Outcome>, k: nat, before: seq<LogRow>,
                         log: seq<LogRow>)
    requires k < |bundles| == |os| && DeliveredOnRecord(bundles, os, k, before) && before <= log
    requires Delivered(bundles[k], os[k]) ==> Notified(log, (bundles[k].id, bundles[k].threshold.value))
    ensures DeliveredOnRecord(bundles, os, k + 1, log)
  {
    PrefixNotifies(before, log);
  }

  lemma DeliveredIsOnRecord(bundles: seq<BundleWithConsumption>, os: seq<Outcome>, log: seq<LogRow>)
    requires |os| == |bundles| && DeliveredOnRecord(bundles, os, |bundles|, log)
    ensures forall i | 0 <= i < |bundles| && os[i].lookupOk && os[i].sendOk && os[i].insertOk ::
              var b := bundles[i];
              b.threshold.Some? && b.amount > 0 && 100 * b.consumed >= b.threshold.value * b.amount ==>
                exists j :: 0 <= j < |log| && log[j].pair == (b.id, b.threshold.value)
  {
    forall i | 0 <= i < |bundles| {
      DueExactly(bundles[i]);
    }
  }

  class AlertChecker {
    var log: seq<LogRow>
    var outbox: seq<LogRow>

    ghost function Snapshot(): World
      reads this
    {
      World(log, outbox, map[])
    }

    constructor ()
      ensures Fresh(Snapshot())
    {
      log, outbox := [], [];
    }

    /** One bundle of the loop. */
    method CheckBundle(b: BundleWithConsumption, o: Outcome) returns (ghost steps: seq<Step>)
      modifies this
      ensures Snapshot() == Run(old(Snapshot()), steps)
      ensures var sends := Due(b) && o.lookupOk && !Notified(old(log), (b.id, b.threshold.value)) && o.sendOk;
              && outbox == (if sends then old(outbox) + [LogRow((b.id, b.threshold.value), o.message)] else old(outbox))
              && log == (if sends && o.insertOk then Record(old(log), (b.id, b.threshold.value), o.message)
                          else old(log))
      ensures o.insertOk && Exact(old(log), old(outbox)) ==> Exact(log, outbox)
      ensures old(outbox) <= outbox && old(log) <= log
      ensures Delivered(b, o) ==> Notified(log, (b.id, b.threshold.value))
      ensures outbox != old(outbox) <==>
                && b.threshold.Some? && b.amount > 0 && 100 * b.consumed >= b.threshold.value * b.amount
                && o.lookupOk && o.sendOk
                && forall i :: 0 <= i < |old(log)| ==> old(log)[i].pair != (b.id, b.threshold.value)
    {
      steps := [];
      if b.threshold.None? || b.amount == 0 {
        return;
      }
      Fifo.AlertDueIsExact(b.consumed, b.amount, b.threshold.value);
      var threshold := b.threshold.value;
      var pct := b.consumed * 100 / b.amount;
      if pct < threshold {
        return;
      }
      var p := (b.id, threshold);
      var already := Notified(log, p);
      if !o.lookupOk || already {
        return;
      }
      ghost var w := Snapshot();
      RunSnoc(w, [], LookUp(0, p));
      RunSnoc(w, [LookUp(0, p)], Send(0, o.sendOk, o.message));
      if !o.sendOk {
        FailedSendIsRetried(w, 0, p, o.message);
        steps := [LookUp(0, p)] + [Send(0, false, o.message)];
        return;
      }
      outbox := outbox + [LogRow(p, o.message)];
      if o.insertOk {
        ExactOrNot(log, old(outbox), p, o.message);
        RecordNotifies(log, p, o.message, p);
        log := Record(log, p, o.message);
      }
      steps := [LookUp(0, p)] + [Send(0, true, o.message)];
      RunSnoc(w, steps, Insert(0, o.insertOk));
      steps := steps + [Insert(0, o.insertOk)];
      assert map[0 := Looked(p)][0 := Sent(p, o.message)] - {0} == map[];
    }

    /** The loop over the bundles. Whatever is newly sent was due; whatever was due and went well is on
        record; and if no insert fails, sends and rows stay one to one. */
    method CheckAll(bundles: seq<BundleWithConsumption>, os: seq<Outcome>) returns (ghost steps: seq<Step>)
      requires |os| == |bundles|
      modifies this
      ensures Snapshot() == Run(old(Snapshot()), steps)
      ensures old(outbox) <= outbox && old(log) <= log
      ensures forall j :: |old(outbox)| <= j < |outbox| ==>
                FoundDue(bundles, |bundles|, outbox[j].pair) && !Notified(old(log), outbox[j].pair)
      ensures forall i | 0 <= i < |bundles| && os[i].lookupOk && os[i].sendOk && os[i].insertOk ::
                var b := bundles[i];
                b.threshold.Some? && b.amount > 0 && 100 * b.consumed >= b.threshold.value * b.amount ==>
                  exists j :: 0 <= j < |log| && log[j].pair == (b.id, b.threshold.value)
      ensures (forall i :: 0 <= i < |os| ==> os[i].insertOk) && Exact(old(log), old(outbox)) ==> Exact(log, outbox)
    {
      steps := [];
      ghost var w := Snapshot();
      for k := 0 to |bundles|
        invariant Snapshot() == Run(w, steps)
        invariant old(outbox) <= outbox && old(log) <= log
        invariant SentDue(bundles, k, old(log), |old(outbox)|, outbox)
        invariant DeliveredOnRecord(bundles, os, k, log)
        invariant (forall i :: 0 <= i < |os| ==> os[i].insertOk) && Exact(old(log), old(outbox)) ==> Exact(log, outbox)
      {
        ghost var before, sent := log, outbox;
        ghost var more := CheckBundle(bundles[k], os[k]);
        RunConcat(w, steps, more);
        steps := steps + more;
        NewSendsAreDue(bundles, k, old(log), before, |old(outbox)|, sent, outbox);
        OneMoreDelivered(bundles, os, k, before, log);
      }
      DeliveredIsOnRecord(bundles, os, log);
    }

    /** The check of one tenant, throttled to one a minute (a throttle error lets it through), with
        nothing to do when nobody is to be told. What it sends it found due in the alert query, and every
        bundle that FIFO has at its threshold ends up on record if its calls go well. */
    method CheckBundleAlerts(acquired: bool, throttleFails: bool, recipients: nat, loads: bool,
                             table: seq<Fifo.Bundle>, total: nat, os: seq<Outcome>) returns (ghost steps: seq<Step>)
      requires |os| == |ForAlertCheck(table, total)|
      modifies this
      ensures Snapshot() == Run(old(Snapshot()), steps)
      ensures (!throttleFails && !acquired) || recipients == 0 || !loads ==> log == old(log) && outbox == old(outbox)
      ensures old(outbox) <= outbox && old(log) <= log
      ensures forall j :: |old(outbox)| <= j < |outbox| ==>
                FoundDue(ForAlertCheck(table, total), |os|, outbox[j].pair) && !Notified(old(log), outbox[j].pair)
      ensures (throttleFails || acquired) && recipients > 0 && loads ==>
                forall i | 0 <= i < |table| && table[i].threshold.Some? && table[i].amount > 0 ::
                  var k := |Fifo.Watched(table[..i])|;
                  && k < |os|
                  && (os[k].lookupOk && os[k].sendOk && os[k].insertOk
                      && 100 * Fifo.TrueShare(table, total, i) >= table[i].threshold.value * table[i].amount ==>
                        exists j :: 0 <= j < |log| && log[j].pair == (table[i].id, table[i].threshold.value))
      ensures (forall k :: 0 <= k < |os| ==> os[k].insertOk) && Exact(old(log), old(outbox)) ==> Exact(log, outbox)
    {
      steps := [];
      if !throttleFails && !acquired {
        return;
      }
      if recipients == 0 || !loads {
        return;
      }
      var bundles := GetBundlesForAlertCheck(table, total);
      steps := CheckAll(bundles, os);
      forall i | 0 <= i < |table| && table[i].threshold.Some? && table[i].amount > 0
        ensures var k := |Fifo.Watched(table[..i])|;
                && k < |os|
                && (CallsSucceed(os[k]) && AtThreshold(table, total, i) ==>
                      Notified(log, (table[i].id, table[i].threshold.value)))
      {
        AlertRow(table, total, i);
        if AtThreshold(table, total, i) {
          FifoDueIsDue(table, total, i);
          DueExactly(bundles[|Fifo.Watched(table[..i])|]);
        }
      }
    }
  }

  /** FIFO over all bundles has bundle i at its threshold. */
  predicate AtThreshold(table: seq<Fifo.Bundle>, total: nat, i: nat)
    requires i < |table|
  {
    && table[i].threshold.Some? && table[i].amount > 0
    && 100 * Fifo.TrueShare(table, total, i) >= table[i].threshold.value * table[i].amount
  }

  predicate CallsSucceed(o: Outcome) { o.lookupOk && o.sendOk && o.insertOk }

  lemma PrefixNotifies(log: seq<LogRow>, more: seq<LogRow>)
    requires log <= more
    ensures forall p :: Notified(log, p) ==> Notified(more, p)
  {
    forall p | Notified(log, p) ensures Notified(more, p) {
      var i :| 0 <= i < |log| && log[i].pair == p;
      assert more[i].pair == p;
    }
  }

  lemma ExactOrNot(log: seq<LogRow>, outbox: seq<LogRow>, p: Pair, m: nat)
    requires !Notified(log, p)
    ensures Exact(log, outbox) ==> Exact(Record(log, p, m), outbox + [LogRow(p, m)])
  {
    if Exact(log, outbox) {
      ExactAfterSend(log, outbox, p, m);
    }
  }
}
