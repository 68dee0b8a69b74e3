/** FIFO attribution of a tenant's all-time consumption to its prepaid bundles
    (repository/postgres/quotas.go), and the alert condition evaluated on it
    (service/proxy/service.go). Bundles are listed in purchase order. */
module Fifo {
  import opened Common

  // ---------------------------------------------------------------- sums

  /** SUM(amount). */
  function Total(amounts: seq<nat>): nat {
    if amounts == [] then 0 else Total(amounts[..|amounts| - 1]) + amounts[|amounts| - 1]
  }

  lemma TotalAppend(amounts: seq<nat>, a: nat)
    ensures Total(amounts + [a]) == Total(amounts) + a
  {
    assert (amounts + [a])[..|amounts|] == amounts;
  }

  lemma {:induction false} PrefixGrows(amounts: seq<nat>, i: nat, j: nat)
    requires i <= j <= |amounts|
    ensures Total(amounts[..i]) <= Total(amounts[..j])
    ensures i < j ==> Total(amounts[..i]) + amounts[i] <= Total(amounts[..j])
    decreases j
  {
    if i < j {
      assert amounts[..j] == amounts[..j - 1] + [amounts[j - 1]];
      TotalAppend(amounts[..j - 1], amounts[j - 1]);
      PrefixGrows(amounts, i, j - 1);
    }
  }

  // ---------------------------------------------------------------- the allocation

  /** What bundle i consumes of the total: the part of it that lies after the bundles before i. */
  function Share(amounts: seq<nat>, total: nat, i: nat): nat
    requires i < |amounts|
  {
    Min(Max(total - Total(amounts[..i]), 0), amounts[i])
  }

  function Allocation(amounts: seq<nat>, total: nat): seq<nat> {
    seq(|amounts|, i requires 0 <= i < |amounts| => Share(amounts, total, i))
  }

  /** What is left of the total after the first i bundles. */
  function Left(amounts: seq<nat>, total: nat, i: nat): nat
    requires i <= |amounts|
  {
    Max(total - Total(amounts[..i]), 0)
  }

  lemma LeftStep(amounts: seq<nat>, total: nat, i: nat)
    requires i < |amounts|
    ensures Share(amounts, total, i) == Min(Left(amounts, total, i), amounts[i])
    ensures Left(amounts, total, i + 1) == Max(Left(amounts, total, i) - amounts[i], 0)
  {
    assert amounts[..i + 1] == amounts[..i] + [amounts[i]];
    TotalAppend(amounts[..i], amounts[i]);
  }

  /** The loop of GetBundlesWithConsumption. */
  method Allocate(amounts: seq<nat>, total: nat) returns (consumed: seq<nat>)
    ensures consumed == Allocation(amounts, total)
  {
    consumed := [];
    var remaining := total;
    assert amounts[..0] == [];
    for i := 0 to |amounts|
      invariant |consumed| == i && forall j :: 0 <= j < i ==> consumed[j] == Share(amounts, total, j)
      invariant remaining == Left(amounts, total, i)
    {
      LeftStep(amounts, total, i);
      if remaining >= amounts[i] {
        consumed := consumed + [amounts[i]];
        remaining := remaining - amounts[i];
      } else {
        consumed := consumed + [remaining];
        remaining := 0;
      }
    }
  }

  /** Nothing is lost and nothing is invented. */
  lemma {:induction false} AllocationConserves(amounts: seq<nat>, total: nat)
    ensures Total(Allocation(amounts, total)) == Min(total, Total(amounts))
  {
    if amounts != [] {
      var n := |amounts| - 1;
      AllocationConserves(amounts[..n], total);
      assert Allocation(amounts, total) == Allocation(amounts[..n], total) + [Share(amounts, total, n)] by {
        forall i | 0 <= i < n ensures Share(amounts, total, i) == Share(amounts[..n], total, i) {
          assert amounts[..n][..i] == amounts[..i];
        }
      }
      TotalAppend(Allocation(amounts[..n], total), Share(amounts, total, n));
    }
  }

  /** Oldest first: a bundle that has consumed anything has only full bundles before it, and a
      bundle that is not full has only untouched ones after it. */
  lemma OldestFirst(amounts: seq<nat>, total: nat, i: nat, j: nat)
    requires i < j < |amounts|
    ensures Share(amounts, total, j) > 0 ==> Share(amounts, total, i) == amounts[i]
    ensures Share(amounts, total, i) < amounts[i] ==> Share(amounts, total, j) == 0
  {
    PrefixGrows(amounts, i, j);
  }

  lemma ShareIsMonotone(amounts: seq<nat>, total: nat, more: nat, i: nat)
    requires i < |amounts| && total <= more
    ensures Share(amounts, total, i) <= Share(amounts, more, i)
  {
  }

  /** Buying another bundle changes nothing on the old ones. */
  lemma PurchaseKeepsShares(amounts: seq<nat>, total: nat, a: nat, i: nat)
    requires i < |amounts|
    ensures Share(amounts + [a], total, i) == Share(amounts, total, i)
  {
    assert (amounts + [a])[..i] == amounts[..i];
  }

  predicate AllFull(amounts: seq<nat>, total: nat) {
    forall i :: 0 <= i < |amounts| ==> Share(amounts, total, i) == amounts[i]
  }

  /** On fresh readings the gate refuses exactly when there is a bundle and every bundle is full. */
  lemma GateIsAllFull(amounts: seq<nat>, total: nat)
    requires forall i :: 0 <= i < |amounts| ==> amounts[i] > 0
    ensures (total >= Total(amounts) && Total(amounts) > 0) <==> (amounts != [] && AllFull(amounts, total))
  {
    forall i | 0 <= i < |amounts|
      ensures Total(amounts[..i]) + amounts[i] <= Total(amounts)
    {
      PrefixGrows(amounts, i, |amounts|);
      assert amounts[..|amounts|] == amounts;
    }
    if amounts != [] {
      var n := |amounts| - 1;
      assert Share(amounts, total, n) == amounts[n] <==> total >= Total(amounts[..n]) + amounts[n];
    }
  }

  // ---------------------------------------------------------------- the alert side

  datatype Bundle = Bundle(id: nat, amount: nat, threshold: Option<int>)

  function Amounts(bs: seq<Bundle>): seq<nat> {
    seq(|bs|, i requires 0 <= i < |bs| => bs[i].amount)
  }

  /** WHERE alert_threshold_percent IS NOT NULL. */
  function Watched(bs: seq<Bundle>): seq<Bundle> {
    if bs == [] then []
    else
      var w := Watched(bs[..|bs| - 1]);
      if bs[|bs| - 1].threshold.Some? then w + [bs[|bs| - 1]] else w
  }

  /** Amount sold before bundle i, and the part of it that the alert query does not see. */
  function Before(bs: seq<Bundle>, i: nat): nat
    requires i <= |bs|
  {
    Total(Amounts(bs[..i]))
  }

  function Seen(bs: seq<Bundle>, i: nat): nat
    requires i <= |bs|
  {
    Total(Amounts(Watched(bs[..i])))
  }

  lemma AmountsAppend(bs: seq<Bundle>, b: Bundle)
    ensures Amounts(bs + [b]) == Amounts(bs) + [b.amount]
  {
  }

  lemma {:induction false} SeenIsLess(bs: seq<Bundle>, i: nat)
    requires i <= |bs|
    ensures Seen(bs, i) <= Before(bs, i)
  {
    if i > 0 {
      SeenIsLess(bs, i - 1);
      var pre, b := bs[..i - 1], bs[i - 1];
      assert bs[..i] == pre + [b];
      assert bs[..i][..i - 1] == pre;
      AmountsAppend(pre, b);
      TotalAppend(Amounts(pre), b.amount);
      AmountsAppend(Watched(pre), b);
      TotalAppend(Amounts(Watched(pre)), b.amount);
    }
  }

  /** A watched bundle keeps its place: those before it in the query are the watched ones before it. */
  lemma {:induction false} WatchedAt(bs: seq<Bundle>, i: nat)
    requires i < |bs| && bs[i].threshold.Some?
    ensures var k := |Watched(bs[..i])|;
            k < |Watched(bs)| && Watched(bs)[k] == bs[i] && Watched(bs)[..k] == Watched(bs[..i])
    decreases |bs|
  {
    var n := |bs| - 1;
    if i < n {
      assert bs[..n][..i] == bs[..i];
      WatchedAt(bs[..n], i);
      var k := |Watched(bs[..i])|;
      assert Watched(bs[..n]) <= Watched(bs);
      assert Watched(bs)[..k] == Watched(bs[..n])[..k];
    }
  }

  /** What the alert check believes that bundle i has consumed. */
  function WatchedShare(bs: seq<Bundle>, total: nat, i: nat): nat
    requires i < |bs| && bs[i].threshold.Some?
  {
    WatchedAt(bs, i);
    Share(Amounts(Watched(bs)), total, |Watched(bs[..i])|)
  }

  function TrueShare(bs: seq<Bundle>, total: nat, i: nat): nat
    requires i < |bs|
  {
    Share(Amounts(bs), total, i)
  }

  lemma SharesFromSums(bs: seq<Bundle>, total: nat, i: nat)
    requires i < |bs| && bs[i].threshold.Some?
    ensures WatchedShare(bs, total, i) == Min(Max(total - Seen(bs, i), 0), bs[i].amount)
    ensures TrueShare(bs, total, i) == Min(Max(total - Before(bs, i), 0), bs[i].amount)
  {
    WatchedAt(bs, i);
    var k := |Watched(bs[..i])|;
    assert Amounts(Watched(bs))[..k] == Amounts(Watched(bs)[..k]);
    assert Amounts(bs)[..i] == Amounts(bs[..i]);
  }

  /** The alert check never attributes less to a bundle than FIFO does; and it attributes the same
      exactly when it misses nothing before the bundle, or the total has not reached the bundle even
      on its own reckoning, or the bundle is full on the true one. */
  lemma WatchedShareDominates(bs: seq<Bundle>, total: nat, i: nat)
    requires i < |bs| && bs[i].threshold.Some? && bs[i].amount > 0
    ensures WatchedShare(bs, total, i) >= TrueShare(bs, total, i)
    ensures WatchedShare(bs, total, i) == TrueShare(bs, total, i)
            <==> (|| Seen(bs, i) == Before(bs, i)
                  || total <= Seen(bs, i)
                  || total >= Before(bs, i) + bs[i].amount)
  {
    SharesFromSums(bs, total, i);
    SeenIsLess(bs, i);
  }

  /** In particular when the watched bundles come first. */
  lemma {:induction false} WatchedPrefixIsExact(bs: seq<Bundle>, total: nat, i: nat)
    requires i < |bs| && forall j :: 0 <= j <= i ==> bs[j].threshold.Some?
    ensures WatchedShare(bs, total, i) == TrueShare(bs, total, i)
  {
    AllWatched(bs[..i]);
    SharesFromSums(bs, total, i);
  }

  lemma {:induction false} AllWatched(bs: seq<Bundle>)
    requires forall j :: 0 <= j < |bs| ==> bs[j].threshold.Some?
    ensures Watched(bs) == bs
  {
    if bs != [] {
      AllWatched(bs[..|bs| - 1]);
    }
  }

  /** `b.Consumed*100/b.Amount >= threshold`, on a bundle of positive amount. */
  predicate AlertDue(consumed: nat, amount: nat, threshold: int)
    requires amount > 0
  {
    consumed * 100 / amount >= threshold
  }

  /** The truncating division loses nothing. */
  lemma AlertDueIsExact(consumed: nat, amount: nat, threshold: int)
    requires amount > 0
    ensures AlertDue(consumed, amount, threshold) <==> 100 * consumed >= threshold * amount
  {
    var q := consumed * 100 / amount;
    QuotientBounds(consumed * 100, amount);
    if q >= threshold {
      TimesGrows(threshold, q, amount);
    } else {
      TimesGrows(q + 1, threshold, amount);
    }
  }

  lemma QuotientBounds(x: nat, amount: nat)
    requires amount > 0
    ensures (x / amount) * amount <= x < (x / amount + 1) * amount
  {
    assert x == (x / amount) * amount + x % amount;
    assert (x / amount + 1) * amount == (x / amount) * amount + amount;
  }

  lemma TimesGrows(a: int, b: int, c: nat)
    requires a <= b
    ensures a * c <= b * c
  {
    assert (b - a) * c >= 0;
    assert b * c == a * c + (b - a) * c;
  }

  /** The alert never comes late, and once due it stays due: if FIFO at some total has bundle i at
      its threshold, the check finds it due at that total and at every later one. */
  lemma AlertIsNeverLate(bs: seq<Bundle>, total: nat, more: nat, i: nat)
    requires i < |bs| && bs[i].threshold.Some? && bs[i].amount > 0 && total <= more
    requires 100 * TrueShare(bs, total, i) >= bs[i].threshold.value * bs[i].amount
    ensures AlertDue(WatchedShare(bs, more, i), bs[i].amount, bs[i].threshold.value)
  {
    WatchedShareDominates(bs, total, i);
    SharesFromSums(bs, total, i);
    SharesFromSums(bs, more, i);
    AlertDueIsExact(WatchedShare(bs, more, i), bs[i].amount, bs[i].threshold.value);
  }

  /** Once the check finds a bundle due it finds it due at every larger total. */
  lemma AlertStaysDue(bs: seq<Bundle>, total: nat, more: nat, i: nat)
    requires i < |bs| && bs[i].threshold.Some? && bs[i].amount > 0 && total <= more
    requires AlertDue(WatchedShare(bs, total, i), bs[i].amount, bs[i].threshold.value)
    ensures AlertDue(WatchedShare(bs, more, i), bs[i].amount, bs[i].threshold.value)
  {
    SharesFromSums(bs, total, i);
    SharesFromSums(bs, more, i);
    AlertDueIsExact(WatchedShare(bs, total, i), bs[i].amount, bs[i].threshold.value);
    AlertDueIsExact(WatchedShare(bs, more, i), bs[i].amount, bs[i].threshold.value);
  }

  /** A share clipped to 0..amount reaches a threshold of 1 to 99 percent when the unclipped one does. */
  lemma ClippedReaches(x: int, amount: nat, threshold: int)
    requires amount > 0 && 1 <= threshold <= 99
    ensures 100 * Min(Max(x, 0), amount) >= threshold * amount <==> 100 * x >= threshold * amount
  {
    TimesGrows(1, threshold, amount);
    TimesGrows(threshold, 99, amount);
  }

  /** The alert is early, due although FIFO is not at the threshold, exactly when the total reaches the
      threshold counted from the watched bundles before i and does not reach it counted from all. */
  lemma AlertEarlyExactly(bs: seq<Bundle>, total: nat, i: nat)
    requires i < |bs| && bs[i].threshold.Some? && bs[i].amount > 0 && 1 <= bs[i].threshold.value <= 99
    ensures var a, t := bs[i].amount, bs[i].threshold.value;
            AlertDue(WatchedShare(bs, total, i), a, t) && 100 * TrueShare(bs, total, i) < t * a
            <==> 100 * (total - Seen(bs, i)) >= t * a && 100 * (total - Before(bs, i)) < t * a
  {
    var a, t := bs[i].amount, bs[i].threshold.value;
    SharesFromSums(bs, total, i);
    AlertDueIsExact(WatchedShare(bs, total, i), a, t);
    ClippedReaches(total - Seen(bs, i), a, t);
    ClippedReaches(total - Before(bs, i), a, t);
  }

  /** It can come early: an unwatched bundle that is just used up passes for consumption of the
      watched one after it, which is still untouched. */
  lemma AlertCanBeEarly(bs: seq<Bundle>)
    requires |bs| == 2 && bs[0].threshold.None? && bs[0].amount >= bs[1].amount > 0
    requires bs[1].threshold.Some? && 1 <= bs[1].threshold.value <= 99
    ensures TrueShare(bs, bs[0].amount, 1) == 0
    ensures AlertDue(WatchedShare(bs, bs[0].amount, 1), bs[1].amount, bs[1].threshold.value)
  {
    var a, b, t := bs[0].amount, bs[1].amount, bs[1].threshold.value;
    assert bs[..1] == [] + [bs[0]] && bs[..1][..0] == [];
    AmountsAppend([], bs[0]);
    TotalAppend([], a);
    assert Watched(bs[..1]) == [];
    assert Before(bs, 1) == a && Seen(bs, 1) == 0;
    TimesGrows(1, t, b);
    TimesGrows(t, 100, b);
    AlertEarlyExactly(bs, a, 1);
    SharesFromSums(bs, a, 1);
  }
}
