# A verified model of the TSA proxy

This project models the stateful protocols of a Go proxy that stands in front of an RFC 3161
time-stamping authority, and proves what they keep. The proxy lives on two shared stores: Postgres,
which is the truth, and Redis, which is a fast copy. Requests, recorders and jobs run concurrently on
both.

Verify everything with `dafny verify dfyconfig.toml`.

## How the model is built

Every protocol has the same two layers.

- **A machine.** A `World` of tables and keys, a `Step` for each single call to a store, a total
  function `Next`, and `Run` over any sequence of steps. A request in flight is a program counter that
  carries exactly what the code holds in local variables at that point. A step that is not enabled
  leaves the world alone, so a run is any interleaving, and the theorems quantify over all of them.
- **A class** with the tables and keys as fields and the source's methods on it. Each method proves
  that what it does in place is a run of the machine (`Snapshot() == Run(old(Snapshot()), steps)`) and
  says outright, in the fields, what it answers and stores. So the theorems about runs hold of the methods.

| module | what it covers |
|---|---|
| `Ledger`, `Oversell`, `Aggregates`, `StampService` | the prepaid stamp ledger of one tenant |
| `Fifo`, `Notifications` | FIFO attribution to bundles, alert condition, idempotent alert log |
| `RateLimit` | fixed-window limiters and the throttle semaphore |
| `Auth`, `AuthService`, `SingleUse`, `TokenRace`, `ActiveOnly` | mandatory two-factor sessions, how often a token is good for one, and for whom |
| `PasswordHash`, `Base64`, `Numerals` | the password-hash printer and parser |
| `Calendar`, `Partitions`, `Scheduler`, `Retention` | monthly partitions, created and dropped by an hourly ticker |
| `CredentialCache`, `CredentialService` | API keys behind a cache with a TTL |
| `Users`, `UserRaces` | last-superadmin guard and viewer scope |
| `Upstreams` | upstream credentials that belong to the current host, the default upstream |
| `Slug`, `FormatNum` | the two string algorithms |
| `Common`, `MapSum` | shared types, sums over maps |

## What the proofs found

Where a promise is not kept on all inputs, the project proves when it is.

- **The counter does not correct itself.** The comment on `IncrBundleConsumed` expects a counter that
  was born from an INCR to be corrected by the next read. `Ledger.RebornCounterStaysLow` shows that
  it stays behind the sum by what it lost for as long as it lives; `Ledger.DriftIsConstant` is the
  general law. On that point the model follows the code.
- **The oversell window starts at the reading.** Counting only the requests between the gate's decision
  and the INCR is not enough: `Oversell.DecisionWindowIsNotEnough` oversells by k - 1 with one such
  request at a time. Counted from the reading of the consumed total, `Oversell.OversellBound` holds and
  is reached for every k, so exactly serial execution never oversells (`Oversell.SafeExactlyWhenSerial`).
- **Served one after another, requests are counted exactly.** With C contracted stamps and n consumed ones,
  request i of a series whose calls succeed is refused exactly when 0 < C <= n + i
  (`StampService.SerialRequestsAreCounted`).
- **Alerts can come early, never late.** `Fifo.AlertEarlyExactly` says exactly when, and
  `Fifo.AlertCanBeEarly` gives a family of cases.
- **A start late in the month can skip one.** `Partitions.CoveredExactlyWhenStartReaches` is an
  if-and-only-if: the month after the start must have the day of the start, or its partition must be
  there already.
- **The retention may never be applied.** The daily cleanup needs an hourly tick in the first five minutes
  of an hour, and the ticker keeps the minute of its start: old partitions go exactly when the server was
  started in the first five minutes of an hour (`Retention.OldPartitionsGoExactlyWhenStartedEarly`).
- **Reading and deleting a token are two calls**, and the result of the deletion is ignored. With at most
  k requests at a time holding a token and f of its deletions failing it yields at most k + f sessions
  (`SingleUse.SessionsAreBounded`), and for MFA tokens and setup tokens alike no smaller bound holds
  (`TokenRace.SessionsExactly`): with working deletions a token is good for one session exactly when at
  most one request holds it at a time (`TokenRace.SingleUseExactlyWhenSerial`). Every start after a
  successful deletion fails (`Auth.MfaTokenIsUsedUp`).
- **The superadmin guard works exactly when at most one request at a time is past its verdict, and its
  look-ups of the target succeed** (`UserRaces.GuardWorksExactlyWhenSerial`), in every deployment with two
  superadmins or more; however many there are, as many guarded deletions leave none
  (`UserRaces.InterleavedDeletesLeaveNone`).
- **The role and the scope of a user are two writes.** A change whose scope write fails leaves a user well
  scoped exactly when the role did not move in or out of viewer; a viewer created that way has no tenant at
  all, which reads as every tenant (`Users.FailedScopeWrite`).
- **Suspending a tenant** deletes no cached credential; it takes effect within the same bound as a
  revocation (`CredentialCache.SuspendedTenantIsShutOut`). An admission at 59 + d is possible
  (`CredentialCache.FillRacesTheDelete`), one at 60 + d is not.
- **Two upstreams can be the default.** The partial unique index only sees active rows, so a set-default
  that is overtaken by another one, whose upstream is then deleted, leaves two (`Upstreams.TwoDefaults`);
  `Upstreams.OneDefaultExactlyWithoutStrays` and `Upstreams.StrayExactlyWhenOvertaken` say exactly when. At
  most one of them is active in every
  interleaving (`Upstreams.AtMostOneServes`). Set-default on an unknown upstream removes the old default.

## Model

| member | source | states |
|---|---|---|
| Ledger.CounterFollowsSum | backend/internal/service/proxy/service.go:312-376 | in every interleaving a live counter was set by the SETNX of a request that held the sum as it had read it, at an empty key and not evicted since, and leads the sum by at most the recorders between UPSERT and INCR at that very read (exactly, if nothing was evicted and no INCR failed since); or it was born from an INCR on a missing key and never exceeds the sum |
| Ledger.DriftIsConstant | backend/internal/repository/redis/cache.go:234-247 | evictions and failed INCRs apart, counter + pending - SUM never changes, in either direction |
| Ledger.RebornCounterStaysLow | backend/internal/repository/redis/cache.go:240-247 | a counter born from an INCR on a missing key stays behind the sum by all it lost, against the comment |
| Ledger.HistoryRun | backend/internal/service/proxy/service.go:362-376 | the live counter points back to the steps that made it: who read the sum, held that reading, and seeded; or the INCR that created it; and no eviction since |
| Ledger.CounterInvRun | backend/internal/service/proxy/service.go:302-322 | the invariant behind it: the counter plus the recorders in between never exceeds SUM plus the seed's lead, with equality while undisturbed |
| Oversell.OversellBound | backend/internal/service/proxy/service.go:118-133 | with at most k requests between their consumed reading and their INCR, T0 + admitted <= max(T0, C + k - 1), and every contracted total held anywhere is then positive too |
| Oversell.SerialNeverOversells | backend/internal/service/proxy/service.go:118-133 | one such request at a time never oversells |
| Oversell.SafeExactlyWhenSerial | backend/internal/service/proxy/service.go:118-133 | for every k: no calm run with at most k in flight oversells exactly when k <= 1 |
| Oversell.ContractedNeverAboveSum | backend/internal/service/proxy/service.go:339-355 | in every run whatever, evictions and failures included, the contracted total that the cache, a setter or a request holds is at most SUM(amount) |
| Oversell.ContractedStep | backend/internal/service/proxy/service.go:339-355 | when bundles are sold and reads succeed those totals stay positive, and the sum only grows |
| Oversell.DecisionWindowIsNotEnough | backend/internal/service/proxy/service.go:122-125 | for every k the bound C + k - 1 is reached, by k requests that read before any decides, although at most one at a time is past its decision |
| Aggregates.AggregatesAreFoldOfLog | backend/internal/repository/postgres/quotas.go:240-263 | when both writes succeed, in every interleaving of recorders, every monthly row counts the events of its month in the log by status, and sums their latencies |
| Aggregates.FoldCounts | backend/internal/repository/postgres/quotas.go:250-262 | the columns of the fold are the numbers of events with each status, and total is their sum |
| Aggregates.ConservedRun | backend/internal/service/proxy/service.go:302-314 | at every point, row plus what recorders hold between their two writes is the fold of the log, column by column, and total = success + failed + rejected |
| Aggregates.OneEventPerStampedRequest | backend/internal/service/proxy/service.go:125-147 | a stamped, gate-rejected or upstream-sent request has exactly one event, whatever the upstream did; a failed quota lookup or a missing upstream leaves none; and the event says what the client was told |
| Aggregates.LogRun | backend/internal/service/proxy/service.go:185-229 | an event is a success exactly when the client got a result, a rejection exactly when the gate refused |
| StampService.Service.Process | backend/internal/service/proxy/service.go:94-230 | a serial request is a run of the ledger machine; the answer as a function of the two cached or summed totals and the upstream, every field of the two stores afterwards, and one more consumed stamp exactly when its upsert succeeds |
| StampService.SerialRequestsAreCounted | backend/internal/service/proxy/service.go:118-133 | for every series of requests served one after another whose calls succeed, with C contracted stamps and n consumed ones, request i is refused exactly when 0 < C <= n + i, whatever the upstream answered to the others |
| StampService.SerialRequestsStampAtMost | backend/internal/service/proxy/service.go:302-322 | so such a series is stamped at most max(0, C - n) times |
| StampService.Service.CheckQuota | backend/internal/service/proxy/service.go:122-125 | rejects exactly when 0 < contracted <= consumed, each cached or else summed or else 0; the counter is seeded and a setter started only where they were missing |
| StampService.Service.Forward | backend/internal/service/proxy/service.go:173-229 | the client gets the upstream's answer exactly when it came and is below 500; what is recorded says the same, and one more stamp is consumed when it was recorded |
| StampService.Service.RecordUsage | backend/internal/service/proxy/service.go:302-322 | event, upsert and INCR in this order, the INCR only after a successful upsert; the row, the log and the counter, to the last field, for every way these calls can fail |
| StampService.Service.GetOrSeedConsumed | backend/internal/service/proxy/service.go:362-376 | the value answered, and the counter seeded only if it was missing |
| StampService.Service.GetCachedContracted | backend/internal/service/proxy/service.go:339-355 | cached value, else the sum with a setter started for it, else 0 |
| StampService.Service.GetTotalConsumption | backend/internal/repository/postgres/quotas.go:51-61 | the loop over the aggregate rows computes SUM(total_requests) |
| StampService.Service.UpsertMonthlyAggregate | backend/internal/repository/postgres/quotas.go:240-263 | one step of the machine: the month's row, made if missing, grows by one in total and in its status column and by its latency; no other row changes |
| StampService.Service.SeedBundleConsumed | backend/internal/repository/redis/cache.go:236-238 | SETNX: a live counter is left alone |
| StampService.Service.IncrBundleConsumed | backend/internal/repository/redis/cache.go:245-247 | INCR: a missing key counts from zero |
| StampService.Service.AddBundle | backend/internal/handler/admin/quotas.go:133-158 | what the handler refuses (amount, threshold 1..99) and that the sum grows by the amount |
| StampService.Service.InvalidateBundleContracted | backend/internal/handler/admin/quotas.go:160-167 | the later DEL is one step of the machine |
| StampService.Service.SetBundleContracted | backend/internal/service/proxy/service.go:349-353 | the goroutine writes the total it was started with, however late |
| Fifo.Allocate | backend/internal/repository/postgres/quotas.go:143-162 | the loop with a running remainder computes consumed_i = clamp(total - prefix_i, 0, amount_i) |
| Fifo.AllocationConserves | backend/internal/repository/postgres/quotas.go:143-162 | the parts sum to min(total, sum of amounts) |
| Fifo.OldestFirst | backend/internal/repository/postgres/quotas.go:133-162 | full bundles, then at most one partial, then zeros |
| Fifo.PurchaseKeepsShares | backend/internal/repository/postgres/quotas.go:133-162 | another bundle changes nothing on the old ones |
| Fifo.ShareIsMonotone | backend/internal/repository/postgres/quotas.go:152-159 | a share never shrinks as the total grows |
| Fifo.GateIsAllFull | backend/internal/service/proxy/service.go:125-131 | on fresh readings the gate refuses exactly when there is a bundle and all are full |
| Fifo.WatchedShareDominates | backend/internal/repository/postgres/quotas.go:174-200 | the alert side attributes at least what FIFO does, and the same exactly under a stated condition on the sums |
| Fifo.WatchedPrefixIsExact | backend/internal/repository/postgres/quotas.go:174-200 | equality when the bundles with a threshold come first |
| Fifo.AlertIsNeverLate | backend/internal/service/proxy/service.go:453-461 | once FIFO has a bundle at its threshold the check finds it due, then and at every later total |
| Fifo.AlertStaysDue | backend/internal/service/proxy/service.go:453-461 | once the check finds a bundle due it finds it due at every larger total |
| Fifo.AlertEarlyExactly | backend/internal/repository/postgres/quotas.go:174-200 | for thresholds 1..99 the alert comes before FIFO reaches it exactly when the total reaches the threshold counted from the watched bundles before and not when counted from all |
| Fifo.AlertDueIsExact | backend/internal/service/proxy/service.go:457-461 | the truncated percentage reaches the threshold exactly when 100 * consumed >= threshold * amount |
| Fifo.AlertCanBeEarly | backend/internal/repository/postgres/quotas.go:174-200 | a used-up bundle without a threshold makes the next one due while it is untouched |
| Notifications.NotificationProtocol | backend/internal/service/proxy/service.go:463-494 | in every interleaving of checks: at most one row per bundle and threshold, each after a successful send of that message, and no more sends of a pair than look-ups that missed it |
| Notifications.RowEndsMisses | backend/internal/repository/postgres/quotas.go:205-228 | once a pair has a row no later look-up misses it, so its sends are bounded for good |
| Notifications.FailedSendIsRetried | backend/internal/service/proxy/service.go:482-489 | a failed send leaves the pair eligible |
| Notifications.InterleavedChecksAllSend | backend/internal/service/proxy/service.go:463-494 | for every k, k checks that look up before any of them inserts all send, as many as missed it, and leave one row |
| Notifications.AlertChecker.CheckBundle | backend/internal/service/proxy/service.go:453-494 | one bundle: it is sent exactly when 100 * consumed >= threshold * amount, not on record, and look-up and send succeed; what is logged; sends and rows stay one to one when no insert fails |
| Notifications.AlertChecker.CheckAll | backend/internal/service/proxy/service.go:453-494 | the loop: everything newly sent was due and not on record; everything due that went well is on record |
| Notifications.GetBundlesForAlertCheck | backend/internal/repository/postgres/quotas.go:168-202 | the loop over the bundles with a threshold attributes to each its share among those |
| Notifications.FifoDueIsDue | backend/internal/service/proxy/service.go:453-461 | a bundle that FIFO has at its threshold is due in the check |
| Notifications.AlertChecker.CheckBundleAlerts | backend/internal/service/proxy/service.go:419-494 | the whole check from the bundle table and the total: what it sends the alert query found due and not on record, and every bundle that FIFO has at its threshold ends up on record when its calls go well |
| RateLimit.TenantSlidingBound | backend/internal/repository/redis/ratelimit.go:63-85 | in any run of timed calls, any 60k seconds let through at most (k+1)B - 1 requests of a tenant with limit B, and none when k or B is 0 |
| RateLimit.TenantBoundIsReached | backend/internal/repository/redis/ratelimit.go:67-73 | for every B and k a run reaches that bound |
| RateLimit.FirstOnesAreAllowed | backend/internal/repository/redis/ratelimit.go:75-84 | inside a window exactly the first B requests are let through |
| RateLimit.WindowCounts | backend/internal/repository/redis/ratelimit.go:67-73 | inside a window the counter is the number of requests so far and the expiry is the one the first request set |
| RateLimit.GlobalSlidingBound | backend/internal/repository/redis/ratelimit.go:42-58 | any n seconds of clock time let through at most maxRPS requests for each second touched: (n+1) * maxRPS, n * maxRPS from the start of a second, none for n = 0 |
| RateLimit.GlobalBoundIsReached | backend/internal/repository/redis/ratelimit.go:42-58 | for every start, n and maxRPS a run of prompt calls reaches that bound |
| RateLimit.SecondBound | backend/internal/repository/redis/ratelimit.go:43-47 | one second lets through at most maxRPS, because its key outlives every call of that second |
| RateLimit.ThrottleSpacing | backend/internal/repository/redis/cache.go:24-31 | two acquisitions of one throttle are a whole window apart |
| RateLimit.ThrottleIsExact | backend/internal/repository/redis/cache.go:24-31 | in any timed run from a store without its key, a throttle is acquired exactly when the window of every earlier acquisition of it is over |
| RateLimit.KeysAreApart | backend/internal/repository/redis/ratelimit.go:43-64 | the key spaces are disjoint and injective for arbitrary tenants, seconds and throttle keys |
| RateLimit.RateLimiter.CheckGlobal | backend/internal/repository/redis/ratelimit.go:42-58 | INCR then EXPIRE is one step of the machine; the remaining budget is floored at 0; an error lets through |
| RateLimit.RateLimiter.CheckTenant | backend/internal/repository/redis/ratelimit.go:63-85 | the script sets the expiry only when it opened the window; the remaining budget is floored at 0; an error lets through |
| RateLimit.RateLimiter.TryAcquireThrottle | backend/internal/repository/redis/cache.go:29-31 | SETNX with the window as TTL: acquired exactly when the key is missing or expired, and then held for exactly the window |
| RateLimit.Remaining | backend/internal/repository/redis/ratelimit.go:53-57 | never negative, zero exactly when the budget is used up |
| Auth.SpacesAreApart | backend/internal/service/auth/service.go:373-398 | whatever string a caller supplies, its key stays in the namespace it was made for |
| Auth.SessionsAreEarned | backend/internal/service/auth/service.go:74-144 | in every interleaving each access token and each stored refresh token follows a password that matched a hash set for that user and then a code that was valid for a secret generated for that user |
| Auth.RefreshTokensAreEarned | backend/internal/service/auth/service.go:279-300 | a usable refresh token belongs to a user who earned it |
| ActiveOnly.AccessIsForActiveUsers | backend/internal/service/auth/service.go:294-299 | in every interleaving, whenever an access token is handed out, by a verification, an enrolment or a refresh, that very request has looked the user up and found the row there, active and not deleted; a refresh in that very step |
| Auth.EnabledExactlyWithSecret | backend/internal/service/auth/service.go:181-199 | totp_enabled holds exactly when a secret is stored, in every reachable state |
| Auth.LogoutIsFinal | backend/internal/service/auth/service.go:279-305 | after Logout no later refresh with that token succeeds, in every interleaving with fresh tokens |
| Auth.MfaTokenIsUsedUp | backend/internal/service/auth/service.go:112-144 | once a verification has deleted its token every later start with it fails |
| Auth.SetupTokenIsUsedUp | backend/internal/service/auth/service.go:217-231 | the same of the token of a compulsory enrolment |
| SingleUse.SessionsAreBounded | backend/internal/service/auth/service.go:113-144 | in every interleaving with fresh tokens, a token that at most k requests hold at a time, f of its deletions failing, yields at most k + f sessions, whatever runs on other tokens |
| SingleUse.SerialSingleUse | backend/internal/service/auth/service.go:113-144 | one holder of the token at a time and none of its deletions failing: at most one session |
| TokenRace.SessionsExactly | backend/internal/service/auth/service.go:113-144 | for MFA tokens and for setup tokens, for every k, f and n: no run from an empty installation with at most k holders of the token and f failed deletions of it hands out more than n sessions exactly when k + f <= n or nobody ever holds it |
| TokenRace.SingleUseExactlyWhenSerial | backend/internal/service/auth/service.go:113-144 | with working deletions a token of either kind is good for one session exactly when at most one request holds it at a time |
| TokenRace.BoundIsReached | backend/internal/service/auth/service.go:217-231 | the run behind it: a user is created, logs in and gets the token; f requests fail to delete it, then k read it before any deletes it |
| SingleUse.UndeletedTokenStays | backend/internal/service/auth/service.go:140-143 | the result of the deletion is ignored: when it fails the session is handed out and the token stays as good as before |
| Auth.SpentForGood | backend/internal/service/auth/service.go:346-394 | a token handed out and gone from the store never comes back |
| Auth.InterleavedVerifiesBothSucceed | backend/internal/service/auth/service.go:113-143 | why single use needs serial execution |
| Auth.RunKeeps | backend/internal/service/auth/service.go:171-231 | the invariant: who every stored key, every request in flight and every secret rests on |
| AuthService.Service.Login | backend/internal/service/auth/service.go:74-110 | which answer each user and password gets, in the order of the checks, and the one token key it stores |
| AuthService.Service.VerifyTOTP | backend/internal/service/auth/service.go:113-144 | the answer in the order of the checks, active and undeleted included; every refusal leaves the store as it is; success uses the token up and changes no third key |
| AuthService.Service.CheckTOTP | backend/internal/service/auth/service.go:114-138 | whose token it is, whether that row is present, active and undeleted, and why a code is refused, in the order of the checks |
| AuthService.Service.SetupTOTP | backend/internal/service/auth/service.go:147-168 | the pending secret is stored under that user's key only |
| AuthService.Service.SetupTOTPWithToken | backend/internal/service/auth/service.go:205-211 | succeeds exactly for the present, active, undeleted user of a live setup token, and stores the secret under that user's pending key only |
| AuthService.Service.ResolveSetupToken | backend/internal/service/auth/service.go:233-250 | the user of a setup token, or why there is none: no token, or no present, active, undeleted row |
| AuthService.Service.EnableTOTP | backend/internal/service/auth/service.go:171-192 | exactly when it succeeds; a wrong code changes nothing; success stores the very secret the code was valid for |
| AuthService.Service.CompleteTOTPSetup | backend/internal/service/auth/service.go:217-231 | exactly when it succeeds, and both tables afterwards: a wrong code consumes nothing; success enables, uses the setup token up and hands out a session |
| AuthService.Service.AdminResetTOTP | backend/internal/service/auth/service.go:198-200 | one user's factor off, everybody else's as before |
| AuthService.Service.SaveUser | backend/internal/repository/postgres/admin_users.go:255-292 | administration writes exactly one row and leaves both columns of its second factor as they were |
| AuthService.Service.Refresh | backend/internal/service/auth/service.go:279-300 | an access token exactly for a live token of a present, active, undeleted user |
| AuthService.Service.Logout | backend/internal/service/auth/service.go:303-305 | deletes that refresh key and no other |
| PasswordHash.VerifyOfHashed | backend/internal/service/auth/service.go:308-325 | a stored hash of p accepts q exactly when Argon2 with the stored salt agrees on p and q |
| PasswordHash.HashedIsText | backend/internal/service/auth/service.go:308-325 | what HashPassword stores, letter by letter |
| PasswordHash.VerifyArgon2id | backend/internal/service/auth/service.go:401-441 | accepts exactly the texts that spell parameters, a base64 salt and, after the last dollar, a base64 key that Argon2 gives again |
| PasswordHash.SameBytes | backend/internal/service/auth/service.go:436-440 | the XOR/OR loop ends at 0 exactly on equal byte strings |
| PasswordHash.SplitLast | backend/internal/service/auth/service.go:443-455 | the backward loop splits at the last separator |
| PasswordHash.ScanOfPrinted | backend/internal/service/auth/service.go:406-411 | Sscanf reads back what Sprintf printed, for all numbers that fit |
| PasswordHash.ScansExactly | backend/internal/service/auth/service.go:402-411 | which texts Sscanf accepts, and as what: the literals, three numbers of 32, 32 and 8 bits, and a word, with blanks allowed before each verb |
| PasswordHash.LastDollar | backend/internal/service/auth/service.go:414-419 | neither base64 part holds a '$' or a blank, so the last '$' is the printed one |
| Base64.DecodeOfEncode | backend/internal/service/auth/service.go:320-321 | unpadded base64 (RFC 4648, sections 3.2 and 4) round-trips every byte string |
| Base64.DecodesExactly | backend/internal/service/auth/service.go:421-428 | the decoder accepts exactly the strings over the alphabet that leave no single character over |
| Base64.StandardVectors | backend/internal/service/auth/service.go:320-321 | the test vectors of RFC 4648, section 10 |
| Numerals.ValueOfDecimal | backend/internal/service/auth/service.go:323-324 | decimals read back |
| Numerals.DecimalIsBaseTen | backend/internal/service/auth/service.go:323-324 | decimals are the usual ones, digit by digit |
| Partitions.CoveredExactlyWhenStartReaches | backend/cmd/server/main.go:193-214 | over every uninterrupted run the partition of the current month is there at every instant exactly when the start-up call reaches the next month |
| Partitions.CreationHourIsHitOnce | backend/cmd/server/main.go:198-212 | hourly ticks visit hour 12 of each 25th exactly once |
| Partitions.CreationAims | backend/internal/jobs/cleanup.go:103-108 | in that hour the call creates exactly the following local month, for every clock offset |
| Partitions.OvershootUncovers | backend/internal/jobs/cleanup.go:105 | a start that overshoots leaves the next month's first instant without a partition |
| Partitions.NameOrderIsDateOrder | backend/internal/jobs/cleanup.go:43-52 | for four-digit years the order of the names is the order of the months |
| Partitions.SuffixIsYearAndMonth | backend/internal/jobs/cleanup.go:43-52 | the names end in four digits of the year, an underscore and two digits of the month |
| Partitions.NameLessExactly | backend/internal/jobs/cleanup.go:43-52 | the comparison of names is the lexicographic one |
| Partitions.CleanupDropsExactlyOldMonths | backend/internal/jobs/cleanup.go:24-75 | one cleanup drops exactly the months more than twelve before today's (more than eleven on a 29 February whose predecessor year has none) and leaves the others as they were, so no dropped row is younger than a year |
| Partitions.StaysHonest | backend/internal/jobs/cleanup.go:110-118 | no partition ever has the name of one month and the bounds of another |
| Calendar.AddMonthsLands | backend/internal/jobs/cleanup.go:105-107 | AddDate lands on the same day of the month aimed at exactly when that month has the day, else in the next month, by as many days as it is too short |
| Calendar.MonthIsUnique | backend/internal/jobs/cleanup.go:106-117 | month ranges tile the days: no gap, no overlap |
| Calendar.FirstDayIsClosed | backend/internal/jobs/cleanup.go:103-107 | the running sum of month lengths is the Gregorian calendar in closed form |
| Scheduler.Jobs.EnsureNextMonth | backend/internal/jobs/cleanup.go:103-118 | the loop over the two tables creates the month after today's date with its bounds, unless it is there, and changes nothing else |
| Scheduler.Jobs.DropOldPartitions | backend/internal/jobs/cleanup.go:41-75 | exactly the partitions that match the pattern and are less than the cutoff's name are dropped; the others are as before |
| Scheduler.Jobs.CleanupRun | backend/internal/jobs/cleanup.go:24-32 | of the partitions named after months, in both tables, exactly those more than twelve months back go (more than eleven on a 29 February whose predecessor year has none) |
| Scheduler.Jobs.OnTick | backend/cmd/server/main.go:201-213 | what one tick does, by UTC hour, minute and day |
| Scheduler.Jobs.RunScheduler | backend/cmd/server/main.go:193-214 | the loop follows the machine and ends with the partition of the month it ends in |
| Retention.OldPartitionsGoExactlyWhenStartedEarly | backend/cmd/server/main.go:193-214 | over every run of a day or more: a partition that was more than twelve months old at the start is gone exactly when the scheduler was started in the first five minutes of an hour |
| Retention.DailyOrNever | backend/cmd/server/main.go:201-207 | of any 24 ticks in a row exactly one cleans up, or no tick ever does |
| CredentialCache.AdmissionIsFresh | backend/internal/middleware/auth.go:88-139 | every admission rests on a state of Postgres less than 60 + d old in which the credential of the key presented was there, active and, if it expires, not past its expiry at that time, and its tenant there and neither suspended nor deleted |
| CredentialCache.RevokedIsShutOut | backend/internal/service/credential/service.go:118-137 | no admission of a revoked or rotated key from 60 + d on, even when a fill races the delayed delete |
| CredentialCache.SuspendedTenantIsShutOut | backend/internal/middleware/auth.go:129-139 | the same for a tenant that stays suspended, deleted or gone |
| CredentialCache.FillRacesTheDelete | backend/internal/repository/redis/cache.go:51-61 | a fill that comes after the delete still admits at 59 + d, the last unit of time before the bound |
| CredentialCache.EndedStays | backend/internal/repository/postgres/credentials.go:138-151 | no step makes a revoked credential active again |
| CredentialService.Service.Authenticate | backend/internal/middleware/auth.go:77-148 | a hit is decided by the status it holds; a miss is let through exactly when Postgres has an active row of that hash, not past its expiry, of a tenant that is running now; and what is cached, for 60 s |
| CredentialService.Service.LookUp | backend/internal/middleware/auth.go:91-127 | the miss path, row by row: no active row of a present tenant, an expired one, or the answer, and only that is cached, for 60 s |
| CredentialService.Service.FillCache | backend/internal/middleware/auth.go:99-122 | refused exactly when the expiry is before now, and then not cached; any other is cached for 60 s, if the write succeeds |
| CredentialService.Service.CheckTenant | backend/internal/middleware/auth.go:129-139 | a suspended and a deleted tenant get their own answers, cached or not |
| CredentialService.Service.FindByHash | backend/internal/repository/postgres/credentials.go:24-48 | finds a matching row exactly when there is one |
| CredentialService.Service.RevokeCredential | backend/internal/service/credential/service.go:118-137 | each error names its cause and changes nothing; otherwise that row alone becomes revoked |
| CredentialService.Service.Rotate | backend/internal/service/credential/service.go:90-115 | old key revoked first, new one for the same tenant; the old one stays revoked even if storing the new one fails |
| CredentialService.Service.InvalidateCredential | backend/internal/repository/redis/cache.go:59-61 | the delayed delete is one eviction |
| UserRaces.GuardWorksExactlyWhenSerial | backend/internal/handler/admin/users.go:239-290 | in every deployment with two superadmins or more: no run with at most k requests past the guard's verdict and before their deciding write loses the last superadmin exactly when k = 0, or k = 1 and the guard's look-ups of its target succeed |
| UserRaces.RunIsSafe | backend/internal/handler/admin/users.go:239-290 | the invariant behind it, over every interleaving of calls with one request past the guard: a superadmin is left, and what that request is about to write leaves one |
| UserRaces.SuperadminRemains | backend/internal/handler/admin/users.go:239-290 | the case of requests served one after another: an active, undeleted user with the role superadmin remains, wherever failing writes stop a request |
| UserRaces.HandleIsRun | backend/internal/handler/admin/users.go:141-295 | the calls of one request on its own, guard included, are what the handlers do to the tables |
| Users.GuardIsExact | backend/internal/handler/admin/users.go:397-425 | for an active superadmin the guard refuses exactly when no other active, undeleted user has the role; for an inactive one as soon as fewer than two have it |
| UserRaces.InterleavedDeletesLeaveNone | backend/internal/handler/admin/users.go:280-290 | for every number n >= 2 of superadmins, n deletions past the guard before the first of them writes leave none |
| Users.ScopesRemain | backend/internal/handler/admin/users.go:192-202 | every managed user keeps one role, and one tenant if a viewer, none otherwise |
| Users.ErrorFreeRunScopes | backend/internal/handler/admin/users.go:192-266 | in every serial run without database errors, whoever was created or updated has from then on one role, and one tenant if a viewer and none otherwise |
| Users.AcceptedMeansManaged | backend/internal/handler/admin/users.go:258-266 | a request whose writes succeed leaves its user with exactly the role and scope asked for |
| Users.FailedScopeWrite | backend/internal/handler/admin/users.go:193-266 | when the scope write fails an updated user is well scoped exactly if the role stayed on its side of viewer, a created one exactly if not a viewer |
| Users.RowsStayDistinct | backend/internal/repository/postgres/admin_users.go:109-132 | no two rows, deleted ones included, ever share a username or an e-mail address |
| Users.Handlers.ValidateRoleAndScope | backend/internal/handler/admin/users.go:365-392 | accepts exactly known roles with one existing tenant for viewers and none for others |
| Users.Handlers.GuardLastSuperadmin | backend/internal/handler/admin/users.go:397-425 | the loop over the roles and the count decide the guard: it refuses exactly an undeleted superadmin who would cease to be one while at most one active, undeleted user has the role |
| Users.Handlers.CountByRole | backend/internal/repository/postgres/admin_users.go:363-373 | counts the active, undeleted holders of a role |
| Users.Handlers.SetRole | backend/internal/repository/postgres/admin_users.go:295-313 | exactly that role afterwards |
| Users.Handlers.SetTenantScope | backend/internal/repository/postgres/admin_users.go:339-359 | exactly those tenants afterwards, repeated ones once |
| Users.Handlers.CreateUser | backend/internal/handler/admin/users.go:141-206 | refusals in the order of the code, and the tables after each outcome |
| Users.Handlers.UpdateUser | backend/internal/handler/admin/users.go:209-270 | refusals in the order of the code, and the tables after each outcome |
| Users.Handlers.DeleteUser | backend/internal/handler/admin/users.go:273-295 | refusals in the order of the code, and the tables after each outcome; a deleted active superadmin leaves another active, undeleted one behind |
| Upstreams.CredentialsBelongToHost | backend/internal/handler/admin/config.go:209-276 | in every interleaving a stored username or password was entered for this upstream on the host it is on now, up to case |
| Upstreams.EditedKeeps | backend/internal/handler/admin/config.go:215-264 | editing keeps credentials with their host, whether the host changes or not |
| Upstreams.ClearedMoveIsWhole | backend/internal/handler/admin/config.go:236-264 | a move that clears credentials leaves no username without a password, and only what this request entered |
| Upstreams.StayingKeepsCredentials | backend/internal/handler/admin/config.go:243-256 | without a move, what the request does not name is kept and what it empties is cleared |
| Upstreams.AtMostOneServes | backend/internal/repository/postgres/upstreams.go:77-99 | in every interleaving, transactions under READ COMMITTED included, at most one row is the default and active, which is what GetDefault asks for |
| Upstreams.OneDefaultExactlyWithoutStrays | backend/internal/repository/postgres/upstreams.go:185-201 | all states of a run have at most one default row exactly when no commit of the run is stray: one whose first update missed a row that is the default and no longer active |
| Upstreams.StrayOnlyWhenOvertaken | backend/internal/repository/postgres/upstreams.go:185-201 | a commit can be stray only if another set-default committed since its transaction began |
| Upstreams.StrayExactlyWhenOvertaken | backend/internal/repository/postgres/upstreams.go:185-201 | a commit is stray exactly when it goes through although another set-default has committed since its transaction began, on a row it did not clear, which is still the default and was deactivated since |
| Upstreams.TwoDefaults | backend/migrations/001_init.up.sql:198-199 | a run after which two rows are the default and the index has not objected |
| Upstreams.Config.CreateUpstream | backend/internal/handler/admin/config.go:119-172 | what is refused, and the new row with its defaults |
| Upstreams.Config.ApplyEdit | backend/internal/handler/admin/config.go:215-274 | the field-by-field edit, and when credentials were cleared |
| Upstreams.Config.UpdateRow | backend/internal/repository/postgres/upstreams.go:154-183 | the write keeps is_default and succeeds unless the index refuses it |
| Upstreams.Config.UpdateUpstream | backend/internal/handler/admin/config.go:188-276 | read, edit, write is two steps of the machine; when it fails nothing changes, and with one default row it fails only for a missing row or a bad URL |
| Upstreams.Config.DeleteUpstream | backend/internal/handler/admin/config.go:335-352 | only the active flag goes; an unreadable password is lost |
| Upstreams.Config.SetDefaultUpstream | backend/internal/repository/postgres/upstreams.go:185-201 | the transaction executed alone is its three steps; whatever the defaults were, afterwards the row asked for is the only one and active, or there is none when it does not exist |
| Upstreams.Config.GetDefault | backend/internal/repository/postgres/upstreams.go:77-99 | an active default if there is one; with one default row the answer is unique |
| Slug.Slugify | backend/internal/service/tenant/service.go:199-215 | the rewriting loop collapses every dash run to one, in exactly log2 of the longest run passes, rounded up |
| Slug.PassHalves | backend/internal/service/tenant/service.go:211-213 | one left-to-right pass halves the longest dash run, rounding up |
| Slug.PassKeepsCollapse | backend/internal/service/tenant/service.go:211-213 | a pass never changes what the string collapses to |
| Slug.CeilLog2IsLeast | backend/internal/service/tenant/service.go:211-213 | the number of passes is the least k with run <= 2^k |
| Slug.SlugIsASlug | backend/internal/service/tenant/service.go:199-215 | only [a-z0-9-], no "--", no dash at either end |
| Slug.FixedExactlyWhenSlug | backend/internal/service/tenant/service.go:199-215 | slugify leaves exactly the slugs alone |
| Slug.SlugifyIsIdempotent | backend/internal/service/tenant/service.go:199-215 | slugify is idempotent |
| Slug.SlugKeepsLetters | backend/internal/service/tenant/service.go:201-215 | no mapped letter or digit is lost, added or moved |
| FormatNum.FormatNumber | backend/internal/service/notification/service.go:260-274 | the loop prints the dotted form |
| FormatNum.RemovingDots | backend/internal/service/notification/service.go:260-274 | taking the dots out gives the decimal form |
| FormatNum.DotsAreExact | backend/internal/service/notification/service.go:267-272 | a dot stands exactly where an inner digit is followed by a positive multiple of three digits |
| FormatNum.FormattedIsInjective | backend/internal/service/notification/service.go:260-274 | distinct numbers print differently |

## Left out

- Oversell.OversellBound: the quota row is present, the consumed counter is not evicted, the reads and the writes it depends on succeed; the code's fail-open paths beyond that are steps of the ledger machine, but the bound does not hold through them. The bound on contracted totals needs none of this.
- Auth.LogoutIsFinal: speaks of attempts that start after Logout; a refresh that had already read its token still gets its access token, which expires on its own.
- Auth.SpentForGood: assumes that random tokens do not repeat.
- Partitions.CoveredExactlyWhenStartReaches: years up to 9999, a fixed offset of at most 14 hours between the job's clock and UTC, a ticker that misses no hour, and jobs whose statements succeed; a failing one is only logged, and what it would have created or dropped stays as it was.
- Retention.OldPartitionsGoExactlyWhenStartedEarly: the ticks come exactly an hour apart, as the ticker schedules them; a delay that carries one over the five minutes is not modelled.
- Partitions.CreationAims: the partition bounds are midnights at the offset of the job's clock; the deployment gives the database the same time zone (docker-compose.yml), and a database session in another zone, which would read the plain dates there, is not modelled.
- RateLimit.GlobalSlidingBound: Redis runs each call within a second of the clock reading that chose its key, and time is counted by that reading.
- PasswordHash.VerifyArgon2id: Sscanf's skipping of Unicode blanks beyond Latin-1 is not modelled, nor the panic of Argon2 on zero iterations, zero parallelism or an empty key, none of which a printed hash has.
- Base64.DecodeOfEncode: the decoder's tolerance of line breaks is not modelled; no scanned word contains one.
- CredentialCache.AdmissionIsFresh: the burst limit cached beside the status is left out, and so is the extraction of the key from the request.
- UserRaces.SuperadminRemains: the handlers' reads succeed; look-ups that fail are steps of the machine, where the guard then lets its request through.
- Upstreams.CredentialsBelongToHost: credentials taken from environment variables are not part of this model; hostname parsing, case folding and the allow-list are functions of the URL.
- Upstreams.AtMostOneServes: the index holds between committed states, as the database enforces it; a set-default's second update and its commit are one step, since the index and the row locks let nobody in between, and a deadlock shows as an abort.
- StampService.Service.Process: an upstream client that returns neither a response nor an error, on which the code would fault, is excluded.
- One tenant per ledger: the keys carry the tenant's identifier, so tenants do not meet.
- Redis is modelled per key with an expiry, a pipeline or script as one step; Redis and Postgres outages appear as failing calls.
- Hard deletion of tenants in the ledger and the manual clean-up script: both break the assumption that the sums only grow.
- Geolocation, last-used bookkeeping, audit log, e-mail text, HTTP, JSON, routing, the front end and the deployment scripts: no invariant of their own.
- Argon2, TOTP, JWT, SHA-256 and the password encryption are functions of their arguments.
- Unused code: the monthly quota counters, secondsUntilEndOfMonth and the tenant status key.
- IP allow-lists: the logic is in the standard library and in Postgres operators.
