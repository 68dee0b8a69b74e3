/** How far concurrent requests can oversell a tenant's bundles. */
module Oversell {
  import opened Common
  import opened MapSum
  import opened Ledger
  import Fifo

  /** Between the reading of the consumed total and the INCR. */
  function InFlightWeight(ph: Phase): int {
    One(ph.AwaitSeed? || ph.AtGate? || ph.Sending? || ph.Recording? || ph.Inserted? || ph.Pending?)
  }

  /** Past the gate: being sent, or already sent to the upstream. */
  function AdmittedWeight(ph: Phase): int {
    match ph
    case Sending => 1
    case Recording(_, reply, _) => One(!reply.QuotaExceeded?)
    case Inserted(_, reply, _, _) => One(!reply.QuotaExceeded?)
    case Pending(reply) => One(!reply.QuotaExceeded?)
    case Finished(reply, counted) => One(counted && !reply.QuotaExceeded?)
    case _ => 0
  }

  /** Admitted, or holding a reading that the gate will let through. */
  function ClaimWeight(ph: Phase): int {
    AdmittedWeight(ph)
    + One((ph.AwaitSeed? || ph.AtGate?) && !Rejects(ph.contracted, ph.consumed))
  }

  function DoneWeight(ph: Phase): int { One(ph.Finished? && ph.counted) }

  ghost function InFlight(w: World): int { Sum(w.reqs, InFlightWeight) }
  ghost function Admitted(w: World): int { Sum(w.reqs, AdmittedWeight) }
  ghost function Claims(w: World): int { Sum(w.reqs, ClaimWeight) }
  ghost function Done(w: World): int { Sum(w.reqs, DoneWeight) }
  ghost function Contracted(w: World): int { Fifo.Total(w.bundles) }

  /** The quota row is there, nothing is evicted from the consumed counter, and the reads and
      writes that the gate and the recorder depend on succeed. */
  predicate Calm(s: Step) {
    match s
    case ReadQuota(_, present) => present
    case ContractedSum(_, ok, _) => ok
    case ConsumedSum(_, ok) => ok
    case Seed(_, ok) => ok
    case UpsertAggregate(_, ok) => ok
    case Incr(_, ok) => ok
    case EvictCounter => false
    case _ => true
  }

  // ---------------------------------------------------------------- contracted readings

  /** This request holds a contracted total. */
  predicate HoldsContracted(ph: Phase) {
    ph.AwaitConsumed? || ph.AwaitConsumedSum? || ph.AwaitSeed? || ph.AtGate?
  }

  /** No contracted total anywhere, in the cache, on its way there or in a request, is above the sum. */
  ghost predicate ContractedBelow(w: World) {
    && (w.contracted.Some? ==> w.contracted.value <= Contracted(w))
    && (forall k :: k in w.setters ==> w.setters[k] <= Contracted(w))
    && (forall r :: r in w.reqs && HoldsContracted(w.reqs[r]) ==> w.reqs[r].contracted <= Contracted(w))
  }

  lemma GateBelow(w: World, s: Step)
    requires GateStep(s) && ContractedBelow(w)
    ensures ContractedBelow(GateNext(w, s))
  {
  }

  lemma ReadingBelow(w: World, s: Step)
    requires ReadingStep(s) && ContractedBelow(w)
    ensures ContractedBelow(ReadingNext(w, s))
  {
  }

  lemma RecorderBelow(w: World, s: Step)
    requires RecorderStep(s) && ContractedBelow(w)
    ensures ContractedBelow(RecorderNext(w, s))
  {
  }

  lemma StoreBelow(w: World, s: Step)
    requires !GateStep(s) && !ReadingStep(s) && !RecorderStep(s) && ContractedBelow(w)
    ensures ContractedBelow(StoreNext(w, s))
  {
    if s.AddBundle? {
      Fifo.TotalAppend(w.bundles, s.amount);
    }
  }

  /** In every run whatever, evictions, failures and empty tenants included, the contracted total that
      a request, a setter or the cache holds is at most the sum of the bundles. */
  lemma {:induction false} ContractedNeverAboveSum(w0: World, es: seq<Step>)
    requires ContractedBelow(w0)
    ensures ContractedBelow(Run(w0, es))
  {
    if es != [] {
      var w, s := Run(w0, es[..|es| - 1]), es[|es| - 1];
      ContractedNeverAboveSum(w0, es[..|es| - 1]);
      if GateStep(s) {
        GateBelow(w, s);
      } else if ReadingStep(s) {
        ReadingBelow(w, s);
      } else if RecorderStep(s) {
        RecorderBelow(w, s);
      } else {
        StoreBelow(w, s);
      }
    }
  }

  predicate Reading(c: int, total: int) { 0 < c <= total }

  /** With bundles sold and no failed reads, those totals are positive as well. */
  ghost predicate ContractedInv(w: World) {
    && 0 < Contracted(w)
    && (w.contracted.Some? ==> Reading(w.contracted.value, Contracted(w)))
    && (forall k :: k in w.setters ==> Reading(w.setters[k], Contracted(w)))
    && (forall r :: r in w.reqs && HoldsContracted(w.reqs[r]) ==> Reading(w.reqs[r].contracted, Contracted(w)))
  }

  lemma GateContracted(w: World, s: Step)
    requires GateStep(s) && ContractedInv(w) && Calm(s)
    ensures ContractedInv(GateNext(w, s)) && GateNext(w, s).bundles == w.bundles
  {
  }

  lemma ReadingContracted(w: World, s: Step)
    requires ReadingStep(s) && ContractedInv(w)
    ensures ContractedInv(ReadingNext(w, s)) && ReadingNext(w, s).bundles == w.bundles
  {
  }

  lemma RecorderContracted(w: World, s: Step)
    requires RecorderStep(s) && ContractedInv(w)
    ensures ContractedInv(RecorderNext(w, s)) && RecorderNext(w, s).bundles == w.bundles
  {
  }

  lemma StoreContracted(w: World, s: Step)
    requires !GateStep(s) && !ReadingStep(s) && !RecorderStep(s) && ContractedInv(w)
    ensures ContractedInv(StoreNext(w, s)) && Contracted(w) <= Contracted(StoreNext(w, s))
  {
    if s.AddBundle? {
      Fifo.TotalAppend(w.bundles, s.amount);
    }
  }

  lemma ContractedStep(w: World, s: Step)
    requires ContractedInv(w) && Calm(s)
    ensures ContractedInv(Next(w, s)) && Contracted(w) <= Contracted(Next(w, s))
  {
    if GateStep(s) {
      GateContracted(w, s);
    } else if ReadingStep(s) {
      ReadingContracted(w, s);
    } else if RecorderStep(s) {
      RecorderContracted(w, s);
    } else {
      StoreContracted(w, s);
    }
  }

  // ---------------------------------------------------------------- the weights under a step

  /** The moves that matter: a reading, an INCR, or a move that gains no claim and finishes nothing. */
  ghost predicate MoveKind(w: World, s: Step, r: nat, ph: Phase) {
    var claim := if r in w.reqs then ClaimWeight(w.reqs[r]) else 0;
    var done := if r in w.reqs then DoneWeight(w.reqs[r]) else 0;
    || (ClaimWeight(ph) <= claim && DoneWeight(ph) == done && !s.Incr?)
    || (&& s.Incr? && r in w.reqs && w.reqs[r].Pending? && !ph.Pending?
        && ClaimWeight(ph) == claim && done == 0 && DoneWeight(ph) == 1)
    || (&& r in w.reqs && (w.reqs[r].AwaitConsumed? || w.reqs[r].AwaitConsumedSum?)
        && claim == 0 && done == 0 && DoneWeight(ph) == 0
        && (ph.AtGate? || ph.AwaitSeed?) && ph.contracted == w.reqs[r].contracted
        && (|| (s.ConsumedHit? && w.counter == Some(ph.consumed))
            || (s.ConsumedSum? && ph.consumed == Consumed(w))))
  }

  ghost predicate OneMove(w: World, s: Step, w': World) {
    || w'.reqs == w.reqs
    || exists r: nat, ph {:trigger Move(w, r, ph)} :: w'.reqs == Move(w, r, ph).reqs && MoveKind(w, s, r, ph)
  }

  lemma GateMoves(w: World, s: Step)
    requires Calm(s)
    requires GateStep(s)
    ensures OneMove(w, s, GateNext(w, s))
  {
    var w' := GateNext(w, s);
    if w'.reqs != w.reqs {
      assert w'.reqs == Move(w, s.r, w'.reqs[s.r]).reqs;
      assert MoveKind(w, s, s.r, w'.reqs[s.r]);
    }
  }

  lemma ReadingMoves(w: World, s: Step)
    requires Calm(s)
    requires ReadingStep(s)
    ensures OneMove(w, s, ReadingNext(w, s))
  {
    var w' := ReadingNext(w, s);
    if w'.reqs != w.reqs {
      assert w'.reqs == Move(w, s.r, w'.reqs[s.r]).reqs;
      assert MoveKind(w, s, s.r, w'.reqs[s.r]);
    }
  }

  lemma RecorderMoves(w: World, s: Step)
    requires Calm(s)
    requires RecorderStep(s)
    ensures OneMove(w, s, RecorderNext(w, s))
  {
    var w' := RecorderNext(w, s);
    if w'.reqs != w.reqs {
      assert w'.reqs == Move(w, s.r, w'.reqs[s.r]).reqs;
      assert MoveKind(w, s, s.r, w'.reqs[s.r]);
    }
  }

  lemma StepMoves(w: World, s: Step)
    requires Calm(s)
    ensures OneMove(w, s, Next(w, s))
  {
    if GateStep(s) {
      GateMoves(w, s);
    } else if ReadingStep(s) {
      ReadingMoves(w, s);
    } else if RecorderStep(s) {
      RecorderMoves(w, s);
    }
  }

  // ---------------------------------------------------------------- what a calm run keeps

  predicate Early(ph: Phase) {
    || ph.AwaitContracted? || ph.AwaitContractedSum? || ph.AwaitConsumed? || ph.AwaitConsumedSum?
    || (ph.Finished? && !ph.counted)
  }

  /** Until the counter is seeded nobody has passed the gate, and every seed on its way is the sum. */
  ghost predicate Unseeded(w: World) {
    forall r :: r in w.reqs ==>
      || Early(w.reqs[r])
      || (w.reqs[r].AwaitSeed? && w.reqs[r].consumed == Consumed(w))
  }

  ghost predicate CalmInv(w: World, t0: int) {
    && Consumed(w) == t0 + PendingCount(w) + Done(w)
    && (w.counter.Some? ==> Consumed(w) <= w.counter.value + PendingCount(w))
    && (w.counter.None? ==> Unseeded(w))
  }

  lemma UnseededHasNoPending(w: World)
    requires Unseeded(w)
    ensures PendingCount(w) == 0
  {
    SumZero(w.reqs, PendingWeight);
  }

  lemma UnseededStep(w: World, s: Step)
    requires Unseeded(w) && w.counter.None? && Calm(s) && Next(w, s).counter.None?
    ensures Unseeded(Next(w, s))
  {
    var w' := Next(w, s);
    assert !s.UpsertAggregate? || w' == w;
    assert w'.rows == w.rows;
  }

  lemma DoneStep(w: World, s: Step, w': World)
    requires OneMove(w, s, w') && Accounts(w, s, w')
    ensures Done(w') + PendingCount(w') - Consumed(w') == Done(w) + PendingCount(w) - Consumed(w)
  {
    if w'.reqs != w.reqs {
      var r: nat, ph :| w'.reqs == Move(w, r, ph).reqs && MoveKind(w, s, r, ph);
      SumUpdate(w.reqs, r, ph, DoneWeight);
      SumUpdate(w.reqs, r, ph, PendingWeight);
    }
  }

  lemma CounterCovers(w: World, s: Step, t0: int, w': World)
    requires CalmInv(w, t0) && Accounts(w, s, w') && !s.EvictCounter? && (s.Incr? ==> s.ok)
    requires w'.counter.Some?
    ensures Consumed(w') <= w'.counter.value + PendingCount(w')
  {
    if w.counter.None? {
      UnseededHasNoPending(w);
    }
  }

  lemma CalmInvStep(w: World, s: Step, t0: int)
    requires CalmInv(w, t0) && Calm(s)
    ensures CalmInv(Next(w, s), t0)
  {
    var w' := Next(w, s);
    StepAccounts(w, s);
    StepMoves(w, s);
    DoneStep(w, s, w');
    CalmKeepsCounter(w, s);
    if w'.counter.Some? {
      CounterCovers(w, s, t0, w');
    } else {
      UnseededStep(w, s);
    }
  }

  lemma CalmKeepsCounter(w: World, s: Step)
    requires Calm(s)
    ensures w.counter.Some? ==> Next(w, s).counter.Some?
  {
  }

  // ---------------------------------------------------------------- second main result

  /** A start with bundles sold, nothing in flight, and a counter that is missing or not low. */
  ghost predicate Start(w: World) {
    && w.reqs == map[] && w.setters == map[]
    && 0 < Contracted(w)
    && (w.contracted.Some? ==> Reading(w.contracted.value, Contracted(w)))
    && (w.counter.Some? ==> Consumed(w) <= w.counter.value)
  }

  /** Nobody can claim more than is done or in flight. */
  lemma ClaimsAreBacked(w: World)
    ensures Claims(w) <= Done(w) + InFlight(w)
  {
    var both := (ph: Phase) => DoneWeight(ph) + InFlightWeight(ph);
    SumLe(w.reqs, ClaimWeight, both);
    SumAdd(w.reqs, both, DoneWeight, InFlightWeight);
  }

  /** A reading that the gate will let through proves that there was still room when it was taken. */
  lemma ReadingShowsRoom(w: World, s: Step, r: nat, ph: Phase, t0: int)
    requires CalmInv(w, t0) && ContractedInv(w) && MoveKind(w, s, r, ph)
    requires ClaimWeight(ph) > (if r in w.reqs then ClaimWeight(w.reqs[r]) else 0)
    ensures t0 + Done(w) <= Contracted(w) - 1
    ensures r in w.reqs && DoneWeight(ph) == DoneWeight(w.reqs[r]) == 0
  {
    SumNonNegative(w.reqs, PendingWeight);
    assert Reading(w.reqs[r].contracted, Contracted(w));
    assert !Rejects(ph.contracted, ph.consumed);
  }

  lemma ClaimStep(w: World, s: Step, w': World, t0: int, k: int)
    requires CalmInv(w, t0) && ContractedInv(w) && Contracted(w) <= Contracted(w')
    requires OneMove(w, s, w')
    requires InFlight(w') <= k
    requires t0 + Claims(w) <= Max(t0, Contracted(w) + k - 1)
    ensures t0 + Claims(w') <= Max(t0, Contracted(w') + k - 1)
  {
    if w'.reqs != w.reqs {
      var r: nat, ph :| w'.reqs == Move(w, r, ph).reqs && MoveKind(w, s, r, ph);
      SumUpdate(w.reqs, r, ph, ClaimWeight);
      if ClaimWeight(ph) > (if r in w.reqs then ClaimWeight(w.reqs[r]) else 0) {
        ReadingShowsRoom(w, s, r, ph, t0);
        SumUpdate(w.reqs, r, ph, DoneWeight);
        ClaimsAreBacked(w');
      }
    }
  }

  /** At every point of the run at most k requests are between their reading and their INCR. */
  ghost predicate AtMostInFlight(w0: World, es: seq<Step>, k: int) {
    forall i :: 0 <= i <= |es| ==> InFlight(Before(w0, es, i)) <= k
  }

  ghost predicate AllCalm(es: seq<Step>) { forall i :: 0 <= i < |es| ==> Calm(es[i]) }

  lemma PrefixIsCalm(w0: World, es: seq<Step>, k: int)
    requires es != [] && AllCalm(es) && AtMostInFlight(w0, es, k)
    ensures var pre := es[..|es| - 1];
            AllCalm(pre) && AtMostInFlight(w0, pre, k) && InFlight(Run(w0, es)) <= k
  {
    var pre := es[..|es| - 1];
    forall i | 0 <= i <= |pre|
      ensures InFlight(Before(w0, pre, i)) <= k
    {
      assert pre[..i] == es[..i];
      assert InFlight(Before(w0, es, i)) <= k;
    }
    assert es[..|es|] == es;
    assert InFlight(Before(w0, es, |es|)) <= k;
  }

  lemma {:induction false} CalmRun(w0: World, es: seq<Step>, k: int)
    requires Start(w0) && AllCalm(es) && AtMostInFlight(w0, es, k)
    ensures var w := Run(w0, es);
            && CalmInv(w, Consumed(w0)) && ContractedInv(w)
            && Consumed(w0) + Claims(w) <= Max(Consumed(w0), Contracted(w) + k - 1)
  {
    if es != [] {
      var pre, s := es[..|es| - 1], es[|es| - 1];
      PrefixIsCalm(w0, es, k);
      CalmRun(w0, pre, k);
      var w := Run(w0, pre);
      assert Calm(s);
      ContractedStep(w, s);
      CalmInvStep(w, s, Consumed(w0));
      StepMoves(w, s);
      ClaimStep(w, s, Next(w, s), Consumed(w0), k);
    }
  }

  /** The oversell bound. With at most k requests between their reading of the consumed total and
      their INCR, the initial consumption plus everything let through never exceeds what was
      already consumed or k - 1 stamps more than what was sold; and every contracted total that a
      request, a setter or the cache holds is positive and at most the sum of the bundles. */
  lemma OversellBound(w0: World, es: seq<Step>, k: int)
    requires Start(w0) && AllCalm(es) && AtMostInFlight(w0, es, k)
    ensures var w := Run(w0, es);
            && Consumed(w0) + Admitted(w) <= Max(Consumed(w0), Contracted(w) + k - 1)
            && ContractedInv(w)
  {
    CalmRun(w0, es, k);
    SumLe(Run(w0, es).reqs, AdmittedWeight, ClaimWeight);
  }

  /** One request at a time never oversells. */
  lemma SerialNeverOversells(w0: World, es: seq<Step>)
    requires Start(w0) && AllCalm(es) && AtMostInFlight(w0, es, 1)
    ensures Consumed(w0) + Admitted(Run(w0, es)) <= Max(Consumed(w0), Contracted(Run(w0, es)))
  {
    OversellBound(w0, es, 1);
  }

  // ---------------------------------------------------------------- why the window starts at the reading

  /** Past the decision and not yet INCRed. */
  function DecidedWeight(ph: Phase): int { One(ph.Sending? || ph.Recording? || ph.Inserted? || ph.Pending?) }

  ghost function Decided(w: World): int { Sum(w.reqs, DecidedWeight) }

  /** At every point of the run at most k requests are between their decision and their INCR. */
  ghost predicate AtMostDecided(w0: World, es: seq<Step>, k: int) {
    forall i :: 0 <= i <= |es| ==> Decided(Before(w0, es, i)) <= k
  }

  lemma DecidedConcat(w0: World, es: seq<Step>, fs: seq<Step>, k: int)
    requires AtMostDecided(w0, es, k) && AtMostDecided(Run(w0, es), fs, k)
    ensures AtMostDecided(w0, es + fs, k)
  {
    forall n | 0 <= n <= |es + fs| ensures Decided(Before(w0, es + fs, n)) <= k {
      if n <= |es| {
        assert (es + fs)[..n] == es[..n];
        assert Decided(Before(w0, es, n)) <= k;
      } else {
        assert (es + fs)[..n] == es + fs[..n - |es|];
        RunConcat(w0, es, fs[..n - |es|]);
        assert Decided(Before(Run(w0, es), fs, n - |es|)) <= k;
      }
    }
  }

  // ---------------------------------------------------------------- k readers of one state

  /** Request i reads both cached totals. */
  function ReadBlock(i: nat): seq<Step> { [ReadQuota(i, true), ContractedHit(i), ConsumedHit(i)] }

  /** Request i decides, is stamped and recorded. */
  function StampBlock(i: nat): seq<Step> {
    [Gate(i), Send(i, Sent(false, Some(200)), 5), InsertEvent(i, true, (2025, 1)),
     UpsertAggregate(i, true), Incr(i, true)]
  }

  /** The blocks of requests 0 to k, one after the other. */
  function Blocks(block: nat -> seq<Step>, k: nat): seq<Step> {
    if k == 0 then [] else Blocks(block, k - 1) + block(k - 1)
  }

  /** k requests read before any of them decides; then they run one after the other. */
  function StaleRun(k: nat): seq<Step> { Blocks(ReadBlock, k) + Blocks(StampBlock, k) }

  /** One stamp left, and both caches exact. */
  ghost predicate OneLeft(w: World) {
    && Start(w) && w.contracted == Some(Contracted(w)) && w.counter == Some(Consumed(w))
    && Consumed(w) == Contracted(w) - 1
  }

  /** The steps of these blocks are all calm and belong to requests below k. */
  predicate Tame(s: Step, k: nat) {
    && Calm(s)
    && (s.ReadQuota? || s.ContractedHit? || s.ConsumedHit? || s.Gate? || s.Send? || s.InsertEvent?
        || s.UpsertAggregate? || s.Incr?)
    && s.r < k
  }

  predicate AllTame(es: seq<Step>, k: nat) { forall n :: 0 <= n < |es| ==> Tame(es[n], k) }

  lemma BlocksAreTame(i: nat, k: nat)
    requires i < k
    ensures AllTame(ReadBlock(i), k) && AllTame(StampBlock(i), k)
  {
  }

  lemma {:induction false} BlocksTame(block: nat -> seq<Step>, j: nat, k: nat)
    requires j <= k && forall i: nat :: i < k ==> AllTame(block(i), k)
    ensures AllTame(Blocks(block, j), k)
  {
    if j > 0 {
      BlocksTame(block, j - 1, k);
    }
  }

  lemma StaleIsTame(k: nat)
    ensures AllTame(StaleRun(k), k)
  {
    forall i: nat | i < k ensures AllTame(ReadBlock(i), k) && AllTame(StampBlock(i), k) {
      BlocksAreTame(i, k);
    }
    BlocksTame(ReadBlock, k, k);
    BlocksTame(StampBlock, k, k);
  }

  lemma TameKeys(w: World, s: Step, k: nat)
    requires Tame(s, k) && w.reqs.Keys <= Below(k)
    ensures Next(w, s).reqs.Keys <= Below(k)
  {
    if GateStep(s) {
      assert Next(w, s) == GateNext(w, s);
    } else if ReadingStep(s) {
      assert Next(w, s) == ReadingNext(w, s);
    } else {
      assert Next(w, s) == RecorderNext(w, s);
    }
  }

  lemma {:induction false} TameRunKeys(w: World, es: seq<Step>, k: nat)
    requires AllTame(es, k) && w.reqs.Keys <= Below(k)
    ensures Run(w, es).reqs.Keys <= Below(k)
  {
    if es != [] {
      TameRunKeys(w, es[..|es| - 1], k);
      TameKeys(Run(w, es[..|es| - 1]), es[|es| - 1], k);
    }
  }

  /** So at most k requests are ever in flight. */
  lemma TameInFlight(w0: World, es: seq<Step>, k: nat)
    requires AllTame(es, k) && w0.reqs == map[]
    ensures AllCalm(es) && AtMostInFlight(w0, es, k)
  {
    forall n | 0 <= n <= |es| ensures InFlight(Before(w0, es, n)) <= k {
      TameRunKeys(w0, es[..n], k);
      var m := Before(w0, es, n).reqs;
      SumAtMostSize(m, InFlightWeight);
      SubsetSize(m.Keys, Below(k));
    }
  }

  lemma {:induction false} SumAtMostSize(m: map<nat, Phase>, f: Phase -> int)
    requires forall ph :: f(ph) <= 1
    ensures Sum(m, f) <= |m.Keys|
    decreases |m|
  {
    if m != map[] {
      var r :| r in m;
      SumRemove(m, r, f);
      SumAtMostSize(m - {r}, f);
      assert (m - {r}).Keys == m.Keys - {r};
    }
  }

  lemma {:induction false} SumOfOnes(m: map<nat, Phase>, f: Phase -> int)
    requires forall r :: r in m ==> f(m[r]) == 1
    ensures Sum(m, f) == |m.Keys|
    decreases |m|
  {
    if m != map[] {
      var r :| r in m;
      SumRemove(m, r, f);
      SumOfOnes(m - {r}, f);
      assert (m - {r}).Keys == m.Keys - {r};
    }
  }

  /** Everybody but i is before the decision or done. */
  ghost predicate OnlyDecided(w: World, i: nat) {
    forall r :: r in w.reqs && r != i ==> DecidedWeight(w.reqs[r]) == 0
  }

  lemma OneDecided(w: World, i: nat)
    requires OnlyDecided(w, i)
    ensures Decided(w) <= 1
  {
    if i in w.reqs {
      SumRemove(w.reqs, i, DecidedWeight);
      SumZero(w.reqs - {i}, DecidedWeight);
    } else {
      SumZero(w.reqs, DecidedWeight);
    }
  }

  lemma OwnStep(w: World, s: Step, i: nat, k: nat)
    requires Tame(s, k) && s.r == i && OnlyDecided(w, i)
    ensures OnlyDecided(Next(w, s), i)
  {
    if GateStep(s) {
      assert Next(w, s) == GateNext(w, s);
    } else if ReadingStep(s) {
      assert Next(w, s) == ReadingNext(w, s);
    } else {
      assert Next(w, s) == RecorderNext(w, s);
    }
  }

  lemma {:induction false} OwnSteps(w: World, es: seq<Step>, i: nat, k: nat)
    requires AllTame(es, k) && OnlyDecided(w, i) && forall n :: 0 <= n < |es| ==> es[n].r == i
    ensures OnlyDecided(Run(w, es), i)
  {
    if es != [] {
      OwnSteps(w, es[..|es| - 1], i, k);
      OwnStep(Run(w, es[..|es| - 1]), es[|es| - 1], i, k);
    }
  }

  /** While one request takes its steps at most that one is decided. */
  lemma BlockDecides(w: World, es: seq<Step>, i: nat, k: nat)
    requires AllTame(es, k) && OnlyDecided(w, i) && forall n :: 0 <= n < |es| ==> es[n].r == i
    ensures AtMostDecided(w, es, 1)
  {
    forall n | 0 <= n <= |es| ensures Decided(Before(w, es, n)) <= 1 {
      OwnSteps(w, es[..n], i, k);
      OneDecided(Before(w, es, n), i);
    }
  }

  // ---------------------------------------------------------------- what the blocks do

  /** Requests 0..i have read; nothing else has happened. */
  ghost predicate HaveRead(w0: World, w: World, i: nat) {
    && w.bundles == w0.bundles && w.contracted == Some(Contracted(w0)) && w.counter == Some(Consumed(w0))
    && forall j: nat :: (j in w.reqs <==> j < i) && (j < i ==> w.reqs[j] == AtGate(Contracted(w0), Consumed(w0)))
  }

  /** All k have read, and requests 0..i are stamped and recorded. */
  ghost predicate HaveStamped(w0: World, w: World, k: nat, i: nat) {
    && w.bundles == w0.bundles
    && forall j: nat :: (j in w.reqs <==> j < k)
         && (j < k ==> w.reqs[j] ==
                       if j < i then Finished(Stamped(200), true) else AtGate(Contracted(w0), Consumed(w0)))
  }

  lemma ReadsBoth(w: World, i: nat)
    requires i !in w.reqs && w.contracted.Some? && w.counter.Some?
    ensures Run(w, ReadBlock(i)) == Move(w, i, AtGate(w.contracted.value, w.counter.value))
  {
    RunThree(w, ReadQuota(i, true), ContractedHit(i), ConsumedHit(i));
    var w1 := Next(w, ReadQuota(i, true));
    assert w1 == Move(w, i, AwaitContracted);
    var w2 := Next(w1, ContractedHit(i));
    assert w2 == Move(w1, i, AwaitConsumed(w.contracted.value));
    assert Next(w2, ConsumedHit(i)) == Move(w2, i, AtGate(w.contracted.value, w.counter.value));
    assert w2.reqs[i := AtGate(w.contracted.value, w.counter.value)]
           == w.reqs[i := AtGate(w.contracted.value, w.counter.value)];
  }

  lemma RunThree(w: World, a: Step, b: Step, c: Step)
    ensures Run(w, [a, b, c]) == Next(Next(Next(w, a), b), c)
  {
    RunSnoc(w, [], a);
    RunSnoc(w, [a], b);
    RunSnoc(w, [a, b], c);
    assert [a] + [b] == [a, b] && [a, b] + [c] == [a, b, c] && [] + [a] == [a];
  }

  lemma RunFive(w: World, a: Step, b: Step, c: Step, d: Step, e: Step)
    ensures Run(w, [a, b, c, d, e]) == Next(Next(Next(Next(Next(w, a), b), c), d), e)
  {
    RunThree(w, a, b, c);
    RunSnoc(w, [a, b, c], d);
    RunSnoc(w, [a, b, c, d], e);
    assert [a, b, c] + [d] == [a, b, c, d] && [a, b, c, d] + [e] == [a, b, c, d, e];
  }

  lemma GateOpens(w: World, i: nat)
    requires i in w.reqs && w.reqs[i].AtGate? && !Rejects(w.reqs[i].contracted, w.reqs[i].consumed)
    ensures Next(w, Gate(i)) == Move(w, i, Sending)
  {
    assert Next(w, Gate(i)) == ReadingNext(w, Gate(i));
  }

  lemma SendStamps(w: World, i: nat)
    requires i in w.reqs && w.reqs[i].Sending?
    ensures Next(w, StampBlock(i)[1]) == Move(w, i, Recording(Success, Stamped(200), Some(5)))
  {
    var s := Send(i, Sent(false, Some(200)), 5);
    assert Next(w, s) == RecorderNext(w, s);
  }

  lemma InsertMoves(w: World, i: nat)
    requires i in w.reqs && w.reqs[i] == Recording(Success, Stamped(200), Some(5))
    ensures var w' := Next(w, StampBlock(i)[2]);
            w'.reqs == w.reqs[i := Inserted(Success, Stamped(200), Some(5), (2025, 1))] && w'.bundles == w.bundles
  {
    var s := InsertEvent(i, true, (2025, 1));
    assert Next(w, s) == RecorderNext(w, s);
  }

  lemma UpsertMoves(w: World, i: nat)
    requires i in w.reqs && w.reqs[i] == Inserted(Success, Stamped(200), Some(5), (2025, 1))
    ensures var w' := Next(w, StampBlock(i)[3]);
            w'.reqs == w.reqs[i := Pending(Stamped(200))] && w'.bundles == w.bundles
  {
    var s := UpsertAggregate(i, true);
    assert Next(w, s) == RecorderNext(w, s);
  }

  lemma IncrMoves(w: World, i: nat)
    requires i in w.reqs && w.reqs[i] == Pending(Stamped(200))
    ensures var w' := Next(w, StampBlock(i)[4]);
            w'.reqs == w.reqs[i := Finished(Stamped(200), true)] && w'.bundles == w.bundles
  {
    var s := Incr(i, true);
    assert Next(w, s) == RecorderNext(w, s);
  }

  lemma IsStamped(w: World, i: nat)
    requires i in w.reqs && w.reqs[i].AtGate? && !Rejects(w.reqs[i].contracted, w.reqs[i].consumed)
    ensures var w' := Run(w, StampBlock(i));
            w'.reqs == w.reqs[i := Finished(Stamped(200), true)] && w'.bundles == w.bundles
  {
    var es := StampBlock(i);
    RunFive(w, es[0], es[1], es[2], es[3], es[4]);
    assert es == [es[0], es[1], es[2], es[3], es[4]];
    GateOpens(w, i);
    var w1 := Next(w, es[0]);
    SendStamps(w1, i);
    var w2 := Next(w1, es[1]);
    InsertMoves(w2, i);
    var w3 := Next(w2, es[2]);
    UpsertMoves(w3, i);
    var w4 := Next(w3, es[3]);
    IncrMoves(w4, i);
    assert Next(w4, es[4]).reqs == w.reqs[i := Finished(Stamped(200), true)];
  }

  lemma OneMoreRead(w0: World, w: World, w': World, i: nat)
    requires HaveRead(w0, w, i) && w' == Move(w, i, AtGate(Contracted(w0), Consumed(w0)))
    ensures HaveRead(w0, w', i + 1)
  {
  }

  lemma OneMoreStamped(w0: World, w: World, w': World, k: nat, i: nat)
    requires HaveStamped(w0, w, k, i) && i < k
    requires w'.bundles == w.bundles && w'.reqs == w.reqs[i := Finished(Stamped(200), true)]
    ensures HaveStamped(w0, w', k, i + 1)
  {
  }

  lemma ReadStep(w0: World, w: World, i: nat)
    requires HaveRead(w0, w, i)
    ensures Run(w, ReadBlock(i)) == Move(w, i, AtGate(Contracted(w0), Consumed(w0)))
  {
    ReadsBoth(w, i);
  }

  lemma StampStep(w0: World, w: World, k: nat, i: nat)
    requires OneLeft(w0) && HaveStamped(w0, w, k, i) && i < k
    ensures var w' := Run(w, StampBlock(i));
            w'.bundles == w.bundles && w'.reqs == w.reqs[i := Finished(Stamped(200), true)]
  {
    assert i in w.reqs && w.reqs[i] == AtGate(Contracted(w0), Consumed(w0));
    IsStamped(w, i);
  }

  lemma OneStamped(w0: World, u: World, k: nat, i: nat)
    requires OneLeft(w0) && HaveStamped(w0, u, k, i) && i < k
    ensures HaveStamped(w0, Run(u, StampBlock(i)), k, i + 1)
  {
    StampStep(w0, u, k, i);
    OneMoreStamped(w0, u, Run(u, StampBlock(i)), k, i);
  }

  lemma OneRead(w0: World, u: World, i: nat)
    requires HaveRead(w0, u, i)
    ensures HaveRead(w0, Run(u, ReadBlock(i)), i + 1)
  {
    ReadStep(w0, u, i);
    OneMoreRead(w0, u, Run(u, ReadBlock(i)), i);
  }

  ghost predicate NoneDecided(w: World) { forall r :: r in w.reqs ==> DecidedWeight(w.reqs[r]) == 0 }

  lemma NothingDecides(w: World)
    requires NoneDecided(w)
    ensures AtMostDecided(w, [], 1)
  {
    OneDecided(w, 0);
    assert Before(w, [], 0) == w;
  }

  lemma BlockDecidesOne(w: World, i: nat)
    requires NoneDecided(w)
    ensures AtMostDecided(w, ReadBlock(i), 1) && AtMostDecided(w, StampBlock(i), 1)
  {
    BlocksAreTame(i, i + 1);
    BlockDecides(w, ReadBlock(i), i, i + 1);
    BlockDecides(w, StampBlock(i), i, i + 1);
  }

  /** Block j takes p from j to j + 1, and one request at most is decided on the way. */
  ghost predicate Keeps(block: nat -> seq<Step>, p: (World, nat) -> bool, u: World, j: nat) {
    p(u, j) ==> p(Run(u, block(j)), j + 1) && AtMostDecided(u, block(j), 1)
  }

  lemma {:induction false} BlocksKeep(block: nat -> seq<Step>, p: (World, nat) -> bool, w: World, k: nat, i: nat)
    requires i <= k && p(w, 0) && NoneDecided(w)
    requires forall u: World, j: nat :: j < k ==> Keeps(block, p, u, j)
    ensures p(Run(w, Blocks(block, i)), i) && AtMostDecided(w, Blocks(block, i), 1)
  {
    if i == 0 {
      NothingDecides(w);
    } else {
      BlocksKeep(block, p, w, k, i - 1);
      var u := Run(w, Blocks(block, i - 1));
      assert Keeps(block, p, u, i - 1);
      RunConcat(w, Blocks(block, i - 1), block(i - 1));
      DecidedConcat(w, Blocks(block, i - 1), block(i - 1), 1);
    }
  }

  lemma OneReads(w0: World, u: World, j: nat)
    ensures Keeps(ReadBlock, (v: World, i: nat) => HaveRead(w0, v, i), u, j)
  {
    if HaveRead(w0, u, j) {
      OneRead(w0, u, j);
      BlockDecidesOne(u, j);
    }
  }

  lemma OneIsStamped(w0: World, k: nat, u: World, j: nat)
    requires OneLeft(w0) && j < k
    ensures Keeps(StampBlock, (v: World, i: nat) => HaveStamped(w0, v, k, i), u, j)
  {
    if HaveStamped(w0, u, k, j) {
      OneStamped(w0, u, k, j);
      BlockDecidesOne(u, j);
    }
  }

  lemma ReadersRead(w0: World, k: nat)
    requires OneLeft(w0)
    ensures HaveRead(w0, Run(w0, Blocks(ReadBlock, k)), k) && AtMostDecided(w0, Blocks(ReadBlock, k), 1)
  {
    var p := (v: World, i: nat) => HaveRead(w0, v, i);
    forall u: World, j: nat | j < k ensures Keeps(ReadBlock, p, u, j) {
      OneReads(w0, u, j);
    }
    BlocksKeep(ReadBlock, p, w0, k, k);
  }

  lemma StampsStamp(w0: World, w: World, k: nat)
    requires OneLeft(w0) && HaveRead(w0, w, k)
    ensures HaveStamped(w0, Run(w, Blocks(StampBlock, k)), k, k) && AtMostDecided(w, Blocks(StampBlock, k), 1)
  {
    var p := (v: World, i: nat) => HaveStamped(w0, v, k, i);
    forall u: World, j: nat | j < k ensures Keeps(StampBlock, p, u, j) {
      OneIsStamped(w0, k, u, j);
    }
    BlocksKeep(StampBlock, p, w, k, k);
  }

  /** The bound is reached for every k, and counting only the requests past the decision is not enough:
      with one stamp left, k requests that read before any of them decides are all let through, one
      after the other, although at most one is ever between its decision and its INCR. */
  lemma DecisionWindowIsNotEnough(w0: World, k: nat)
    requires OneLeft(w0) && k >= 1
    ensures var es := StaleRun(k);
            && AllCalm(es) && AtMostInFlight(w0, es, k) && AtMostDecided(w0, es, 1)
            && Contracted(Run(w0, es)) == Contracted(w0)
            && Consumed(w0) + Admitted(Run(w0, es)) == Contracted(w0) + k - 1
  {
    StaleIsTame(k);
    TameInFlight(w0, StaleRun(k), k);
    var w := Run(w0, Blocks(ReadBlock, k));
    ReadersRead(w0, k);
    StampsStamp(w0, w, k);
    DecidedConcat(w0, Blocks(ReadBlock, k), Blocks(StampBlock, k), 1);
    RunConcat(w0, Blocks(ReadBlock, k), Blocks(StampBlock, k));
    AllAdmitted(w0, Run(w, Blocks(StampBlock, k)), k);
  }

  lemma AllAdmitted(w0: World, w: World, k: nat)
    requires HaveStamped(w0, w, k, k)
    ensures Admitted(w) == k
  {
    SumOfOnes(w.reqs, AdmittedWeight);
    assert w.reqs.Keys == Below(k);
  }

  /** No calm run from a proper start with at most k requests in flight oversells. */
  ghost predicate NeverOversells(k: int) {
    forall w0: World, es: seq<Step> {:trigger Run(w0, es)} ::
      Start(w0) && AllCalm(es) && AtMostInFlight(w0, es, k) ==>
        Consumed(w0) + Admitted(Run(w0, es)) <= Max(Consumed(w0), Contracted(Run(w0, es)))
  }

  /** Exactly serial execution never oversells. */
  lemma SafeExactlyWhenSerial(k: int)
    ensures NeverOversells(k) <==> k <= 1
  {
    if k <= 1 {
      forall w0: World, es: seq<Step> | Start(w0) && AllCalm(es) && AtMostInFlight(w0, es, k)
        ensures Consumed(w0) + Admitted(Run(w0, es)) <= Max(Consumed(w0), Contracted(Run(w0, es)))
      {
        SerialNeverOversells(w0, es);
      }
    } else {
      assert [1][..0] == [];
      var w0 := OneLeftSomewhere([1]);
      SafeFails(w0, k);
    }
  }

  lemma OneLeftSomewhere(bundles: seq<nat>) returns (w0: World)
    requires Fifo.Total(bundles) == 1
    ensures OneLeft(w0)
  {
    w0 := World(map[], [], bundles, Some(0), Some(1), map[], map[], 0, None, 0);
  }

  lemma SafeFails(w0: World, k: nat)
    requires OneLeft(w0) && k >= 2
    ensures !NeverOversells(k)
  {
    DecisionWindowIsNotEnough(w0, k);
    var es := StaleRun(k);
    assert Consumed(w0) + Admitted(Run(w0, es)) > Max(Consumed(w0), Contracted(Run(w0, es)));
  }
}
