/** API keys behind a 60-second cache (middleware/auth.go, service/credential/service.go): requests,
    revocations, rotations and tenant changes interleave freely, and a revocation deletes the cache
    entry only some time later, if at all. Time is in whole units of one clock. */
module CredentialCache {
  import opened Common

  datatype CredStatus = Active | Revoked | Expired

  datatype TenantStatus = Running | Suspended | Deleted

  datatype Cred = Cred(hash: string, tenant: nat, status: CredStatus, expires: Option<int>)

  datatype Tenant = Tenant(status: TenantStatus, gone: bool)

  /** What the cache keeps of a lookup. */
  datatype Cached = Cached(cred: nat, tenant: nat, status: TenantStatus)

  datatype Entry = Entry(value: Cached, until: int)

  datatype Reason = InvalidKey | CredentialExpired | TenantSuspended

  datatype Phase =
    | Missed(hash: string)
    | Found(hash: string, value: Cached, expires: Option<int>, readAt: int)
    | Admitted(value: Cached)
    | Rejected(reason: Reason)

  datatype World = World(now: int, creds: map<nat, Cred>, tenants: map<nat, Tenant>,
                         cache: map<string, Entry>, reqs: map<nat, Phase>)

  datatype Step =
    | Wait(d: nat)
    | Get(id: nat, hash: string, ok: bool)
    | Find(id: nat, pick: nat, ok: bool)
    | Fill(id: nat, ok: bool)
    | Revoke(cred: nat)
    | AddCred(cred: nat, row: Cred)
    | SetStatus(tenant: nat, status: TenantStatus)
    | SoftDelete(tenant: nat)
    | AddTenant(tenant: nat)
    | DropTenant(tenant: nat)
    | Evict(hash: string)

  predicate Hit(w: World, hash: string) { hash in w.cache && w.now < w.cache[hash].until }

  /** The row FindByHash may return: active, of that hash, its tenant not soft-deleted. */
  predicate Matches(w: World, pick: nat, hash: string) {
    && pick in w.creds && w.creds[pick].hash == hash && w.creds[pick].status.Active?
    && w.creds[pick].tenant in w.tenants && !w.tenants[w.creds[pick].tenant].gone
  }

  function Lookup(w: World, pick: nat): Cached
    requires pick in w.creds && w.creds[pick].tenant in w.tenants
  {
    Cached(pick, w.creds[pick].tenant, w.tenants[w.creds[pick].tenant].status)
  }

  /** The decision on the tenant's status, which both paths share. */
  function Decide(v: Cached): Phase {
    match v.status
    case Suspended => Rejected(TenantSuspended)
    case Deleted => Rejected(InvalidKey)
    case Running => Admitted(v)
  }

  predicate Past(expires: Option<int>, now: int) { expires.Some? && expires.value < now }

  function PhaseAt(w: World, id: nat): Phase { if id in w.reqs then w.reqs[id] else Rejected(InvalidKey) }

  function At(w: World, id: nat, p: Phase): World { w.(reqs := w.reqs[id := p]) }

  /** What a request's next call leads to. */
  function Answer(w: World, s: Step): Phase
    requires s.Get? || s.Find? || s.Fill?
  {
    match s
    case Get(id, hash, ok) =>
      if ok && Hit(w, hash) then Decide(w.cache[hash].value) else Missed(hash)
    case Find(id, pick, ok) =>
      var p := PhaseAt(w, id);
      if !p.Missed? then p
      else if ok && Matches(w, pick, p.hash) then Found(p.hash, Lookup(w, pick), w.creds[pick].expires, w.now)
      else Rejected(InvalidKey)
    case Fill(id, ok) =>
      var p := PhaseAt(w, id);
      if !p.Found? then p else if Past(p.expires, w.now) then Rejected(CredentialExpired) else Decide(p.value)
  }

  /** The fill writes the cache unless the credential has expired. */
  function CacheAfter(w: World, s: Step): map<string, Entry> {
    if s.Fill? && s.ok && PhaseAt(w, s.id).Found? && !Past(PhaseAt(w, s.id).expires, w.now)
    then w.cache[PhaseAt(w, s.id).hash := Entry(PhaseAt(w, s.id).value, w.now + 60)]
    else if s.Evict? then w.cache - {s.hash}
    else w.cache
  }

  function CredsAfter(w: World, s: Step): map<nat, Cred> {
    match s
    case Revoke(cred) =>
      if cred in w.creds && w.creds[cred].status.Active? then w.creds[cred := w.creds[cred].(status := Revoked)]
      else w.creds
    case AddCred(cred, row) =>
      if cred in w.creds then w.creds else w.creds[cred := row.(status := Active)]
    case DropTenant(tenant) =>
      map c | c in w.creds && w.creds[c].tenant != tenant :: w.creds[c]
    case _ => w.creds
  }

  function TenantsAfter(w: World, s: Step): map<nat, Tenant> {
    match s
    case SetStatus(tenant, status) =>
      if tenant in w.tenants && !w.tenants[tenant].gone then w.tenants[tenant := Tenant(status, false)] else w.tenants
    case SoftDelete(tenant) =>
      if tenant in w.tenants then w.tenants[tenant := Tenant(Deleted, true)] else w.tenants
    case AddTenant(tenant) =>
      if tenant in w.tenants then w.tenants else w.tenants[tenant := Tenant(Running, false)]
    case DropTenant(tenant) => w.tenants - {tenant}
    case _ => w.tenants
  }

  function Next(w: World, s: Step): World {
    World(if s.Wait? then w.now + s.d else w.now, CredsAfter(w, s), TenantsAfter(w, s), CacheAfter(w, s),
          if s.Get? || s.Find? || s.Fill? then w.reqs[s.id := Answer(w, s)] else w.reqs)
  }

  /** The world after the first n steps. */
  function After(w: World, es: seq<Step>, n: nat): World
    requires n <= |es|
    decreases n
  {
    if n == 0 then w else Next(After(w, es, n - 1), es[n - 1])
  }

  predicate Boot(w: World) { w.cache == map[] && w.reqs == map[] }

  predicate PromptAt(w: World, es: seq<Step>, n: nat, d: nat)
    requires n < |es|
  {
    var p := if es[n].Fill? then PhaseAt(After(w, es, n), es[n].id) else Missed("");
    p.Found? ==> After(w, es, n).now <= p.readAt + d
  }

  /** No request takes longer than d between reading Postgres and setting the cache. */
  predicate Prompt(w: World, es: seq<Step>, d: nat) {
    forall n :: 0 <= n < |es| ==> PromptAt(w, es, n, d)
  }

  /** The step lets a request with this key through on behalf of v. */
  predicate Admits(w: World, s: Step, hash: string, v: Cached) {
    && (s.Get? || (s.Fill? && PhaseAt(w, s.id).Found?)) && Answer(w, s) == Admitted(v)
    && hash == if s.Get? then s.hash else PhaseAt(w, s.id).hash
  }

  // ---------------------------------------------------------------- what an admission rests on

  /** Postgres says, in w: this credential has this key and is active, and its tenant has this status. */
  predicate Sound(w: World, hash: string, v: Cached) {
    && v.cred in w.creds && w.creds[v.cred].hash == hash && w.creds[v.cred].status.Active?
    && w.creds[v.cred].tenant == v.tenant
    && v.tenant in w.tenants && !w.tenants[v.tenant].gone && w.tenants[v.tenant].status == v.status
  }

  predicate Unexpired(w: World, v: Cached) { v.cred in w.creds && !Past(w.creds[v.cred].expires, w.now) }

  /** A read among the first n steps, at time t or later, found v sound and unexpired. */
  ghost predicate ReadSince(w: World, es: seq<Step>, n: nat, hash: string, v: Cached, t: int)
    requires n <= |es|
  {
    exists j: nat :: j <= n && Sound(After(w, es, j), hash, v) && Unexpired(After(w, es, j), v) &&
      t <= After(w, es, j).now
  }

  /** A lookup in progress: its read is in the history, with the expiry time it returned. */
  ghost predicate ReadFor(w: World, es: seq<Step>, n: nat, p: Phase)
    requires n <= |es| && p.Found?
  {
    && p.readAt <= After(w, es, n).now
    && exists j: nat ::
         && j <= n && Sound(After(w, es, j), p.hash, p.value) && After(w, es, j).now == p.readAt
         && After(w, es, j).creds[p.value.cred].expires == p.expires
  }

  ghost predicate EntryOk(w: World, es: seq<Step>, n: nat, d: nat, hash: string)
    requires n <= |es|
  {
    var c := After(w, es, n).cache;
    hash in c ==> ReadSince(w, es, n, hash, c[hash].value, c[hash].until - 60 - d)
  }

  ghost predicate LookupOk(w: World, es: seq<Step>, n: nat, id: nat)
    requires n <= |es|
  {
    var p := PhaseAt(After(w, es, n), id);
    p.Found? ==> ReadFor(w, es, n, p)
  }

  lemma ReadStays(w: World, es: seq<Step>, n: nat, hash: string, v: Cached, t: int)
    requires n < |es| && ReadSince(w, es, n, hash, v, t)
    ensures ReadSince(w, es, n + 1, hash, v, t)
  {
    var j: nat :| j <= n && Sound(After(w, es, j), hash, v) && Unexpired(After(w, es, j), v) &&
        t <= After(w, es, j).now;
  }

  lemma LookupStays(w: World, es: seq<Step>, n: nat, p: Phase)
    requires n < |es| && p.Found? && ReadFor(w, es, n, p)
    ensures ReadFor(w, es, n + 1, p)
  {
    var j: nat :| && j <= n && Sound(After(w, es, j), p.hash, p.value) && After(w, es, j).now == p.readAt
                  && After(w, es, j).creds[p.value.cred].expires == p.expires;
    assert After(w, es, n + 1) == Next(After(w, es, n), es[n]);
  }

  /** A fill that passes the expiry check rests on a read no older than d. */
  lemma FillRests(w: World, es: seq<Step>, n: nat, d: nat)
    requires n < |es| && es[n].Fill? && Prompt(w, es, d)
    requires var p := PhaseAt(After(w, es, n), es[n].id);
             p.Found? && ReadFor(w, es, n, p) && !Past(p.expires, After(w, es, n).now)
    ensures var p := PhaseAt(After(w, es, n), es[n].id); ReadSince(w, es, n, p.hash, p.value, After(w, es, n).now - d)
  {
    var p := PhaseAt(After(w, es, n), es[n].id);
    var j: nat :| && j <= n && Sound(After(w, es, j), p.hash, p.value) && After(w, es, j).now == p.readAt
                  && After(w, es, j).creds[p.value.cred].expires == p.expires;
    assert Unexpired(After(w, es, j), p.value);
    assert PromptAt(w, es, n, d);
  }

  /** The cache entries after a step: the old ones, and the one a fill wrote. */
  lemma EntryKeeps(w: World, es: seq<Step>, n: nat, d: nat, hash: string)
    requires n < |es| && Prompt(w, es, d) && EntryOk(w, es, n, d, hash)
    requires es[n].Fill? ==> LookupOk(w, es, n, es[n].id)
    ensures EntryOk(w, es, n + 1, d, hash)
  {
    var u, s := After(w, es, n), es[n];
    var c := CacheAfter(u, s);
    if hash in c {
      if s.Fill? && PhaseAt(u, s.id).Found? && !Past(PhaseAt(u, s.id).expires, u.now) {
        FillRests(w, es, n, d);
      }
      assert ReadSince(w, es, n, hash, c[hash].value, c[hash].until - 60 - d);
      ReadStays(w, es, n, hash, c[hash].value, c[hash].until - 60 - d);
    }
  }

  lemma LookupKeeps(w: World, es: seq<Step>, n: nat, id: nat)
    requires n < |es| && LookupOk(w, es, n, id)
    ensures LookupOk(w, es, n + 1, id)
  {
    var u, s := After(w, es, n), es[n];
    var p := PhaseAt(Next(u, s), id);
    if p == PhaseAt(u, id) {
      if p.Found? {
        LookupStays(w, es, n, p);
      }
    } else if p.Found? {
      assert s.Find? && s.id == id && Matches(u, s.pick, p.hash) &&
             p == Found(p.hash, Lookup(u, s.pick), u.creds[s.pick].expires, u.now);
      assert Sound(After(w, es, n), p.hash, p.value);
      assert After(w, es, n + 1) == Next(u, s);
    }
  }

  lemma {:induction false} LookupsOk(w: World, es: seq<Step>, n: nat, id: nat)
    requires n <= |es| && Boot(w)
    ensures LookupOk(w, es, n, id)
    decreases n
  {
    if n > 0 {
      LookupsOk(w, es, n - 1, id);
      LookupKeeps(w, es, n - 1, id);
    }
  }

  lemma {:induction false} EntriesOk(w: World, es: seq<Step>, n: nat, d: nat, hash: string)
    requires n <= |es| && Boot(w) && Prompt(w, es, d)
    ensures EntryOk(w, es, n, d, hash)
    decreases n
  {
    if n > 0 {
      EntriesOk(w, es, n - 1, d, hash);
      if es[n - 1].Fill? {
        LookupsOk(w, es, n - 1, es[n - 1].id);
      }
      EntryKeeps(w, es, n - 1, d, hash);
    }
  }

  lemma AdmissionRests(w: World, es: seq<Step>, n: nat, d: nat, hash: string, v: Cached)
    requires n < |es| && Boot(w) && Prompt(w, es, d) && Admits(After(w, es, n), es[n], hash, v)
    ensures v.status.Running? && ReadSince(w, es, n, hash, v, After(w, es, n).now - 60 - d + 1)
  {
    var u, s := After(w, es, n), es[n];
    if s.Get? {
      EntriesOk(w, es, n, d, s.hash);
    } else {
      LookupsOk(w, es, n, s.id);
      FillRests(w, es, n, d);
    }
  }

  /** Every admission at t rests on a state of Postgres less than 60 + d old in which the credential
      had the key presented, was active and not past its expiry, and its tenant was there and running. */
  lemma AdmissionIsFresh(w: World, es: seq<Step>, n: nat, d: nat, hash: string, v: Cached)
    requires n < |es| && Boot(w) && Prompt(w, es, d) && Admits(After(w, es, n), es[n], hash, v)
    ensures exists j: nat ::
              && j <= n && After(w, es, n).now - 60 - d < After(w, es, j).now
              && var u := After(w, es, j);
                 && v.cred in u.creds && u.creds[v.cred].hash == hash && u.creds[v.cred].status == Active
                 && (u.creds[v.cred].expires.Some? ==> u.now <= u.creds[v.cred].expires.value)
                 && u.creds[v.cred].tenant == v.tenant && v.tenant in u.tenants
                 && u.tenants[v.tenant] == Tenant(Running, false)
  {
    AdmissionRests(w, es, n, d, hash, v);
    var j: nat :| j <= n && Sound(After(w, es, j), hash, v) && Unexpired(After(w, es, j), v) &&
        After(w, es, n).now - 60 - d + 1 <= After(w, es, j).now;
  }

  // ---------------------------------------------------------------- revoked for good

  predicate Ended(w: World, cred: nat) { cred in w.creds ==> !w.creds[cred].status.Active? }

  /** Identifiers are drawn once: no later row gets this one. */
  predicate NotReissued(es: seq<Step>, m: nat, cred: nat) {
    forall n :: m <= n < |es| && es[n].AddCred? ==> es[n].cred != cred
  }

  lemma EndedStep(w: World, s: Step, cred: nat)
    requires Ended(w, cred) || s == Revoke(cred)
    requires s.AddCred? ==> s.cred != cred
    ensures Ended(Next(w, s), cred)
  {
  }

  /** No step makes a revoked credential active again. */
  lemma {:induction false} EndedStays(w: World, es: seq<Step>, m: nat, n: nat, cred: nat)
    requires m < n <= |es| && es[m] == Revoke(cred) && NotReissued(es, m, cred)
    ensures Ended(After(w, es, n), cred)
    decreases n
  {
    if m + 1 < n {
      EndedStays(w, es, m, n - 1, cred);
    }
    EndedStep(After(w, es, n - 1), es[n - 1], cred);
  }

  lemma {:induction false} TimeGoesOn(w: World, es: seq<Step>, m: nat, n: nat)
    requires m <= n <= |es|
    ensures After(w, es, m).now <= After(w, es, n).now
    decreases n
  {
    if m < n {
      TimeGoesOn(w, es, m, n - 1);
    }
  }

  /** If v cannot be sound from step m on, no admission for v comes 60 + d after m or later. */
  lemma ShutOut(w: World, es: seq<Step>, m: nat, n: nat, d: nat, hash: string, v: Cached)
    requires m <= n < |es| && Boot(w) && Prompt(w, es, d) && Admits(After(w, es, n), es[n], hash, v)
    requires forall j :: m <= j <= n ==> !Sound(After(w, es, j), hash, v)
    ensures After(w, es, n).now < After(w, es, m).now + 60 + d
  {
    AdmissionRests(w, es, n, d, hash, v);
    var j: nat :| j <= n && Sound(After(w, es, j), hash, v) && After(w, es, n).now - 60 - d < After(w, es, j).now;
    TimeGoesOn(w, es, j, m);
  }

  /** A credential revoked (or rotated away) at step m is no longer let through from 60 + d after it on,
      even when a lookup that had read it before fills the cache after the delayed delete. */
  lemma RevokedIsShutOut(w: World, es: seq<Step>, m: nat, n: nat, d: nat, hash: string, v: Cached)
    requires m < n < |es| && Boot(w) && Prompt(w, es, d)
    requires es[m] == Revoke(v.cred) && NotReissued(es, m, v.cred)
    requires Admits(After(w, es, n), es[n], hash, v)
    ensures After(w, es, n).now < After(w, es, m).now + 60 + d
  {
    AdmissionRests(w, es, n, d, hash, v);
    var j: nat :| j <= n && Sound(After(w, es, j), hash, v) && After(w, es, n).now - 60 - d < After(w, es, j).now;
    if m < j {
      EndedStays(w, es, m, j, v.cred);
    }
    TimeGoesOn(w, es, j, m);
  }

  /** A tenant that stays suspended, deleted or gone from step m on is shut out just as soon, although
      nothing deletes its credentials' cache entries. */
  lemma SuspendedTenantIsShutOut(w: World, es: seq<Step>, m: nat, n: nat, d: nat, hash: string, v: Cached)
    requires m <= n < |es| && Boot(w) && Prompt(w, es, d) && Admits(After(w, es, n), es[n], hash, v)
    requires forall j :: m <= j <= n ==>
      v.tenant in After(w, es, j).tenants ==> !After(w, es, j).tenants[v.tenant].status.Running?
    ensures After(w, es, n).now < After(w, es, m).now + 60 + d
  {
    AdmissionRests(w, es, n, d, hash, v);
    ShutOut(w, es, m, n, d, hash, v);
  }

  // ---------------------------------------------------------------- the bound is reached

  /** A lookup reads, the key is revoked and its cache entry deleted, the fill comes d later, and
      another request comes 59 after that. */
  predicate Race(es: seq<Step>, hash: string, cred: nat, d: nat) {
    && |es| == 8 && es[0] == Get(1, hash, true) && es[1] == Find(1, cred, true) && es[2] == Revoke(cred)
    && es[3] == Evict(hash) && es[4] == Wait(d) && es[5] == Fill(1, true) && es[6] == Wait(59)
    && es[7] == Get(2, hash, true)
  }

  lemma RaceReads(w: World, es: seq<Step>, hash: string, cred: nat, d: nat)
    requires Race(es, hash, cred, d) && Boot(w) && Matches(w, cred, hash) && w.creds[cred].expires.None?
    ensures var u := After(w, es, 2);
            && PhaseAt(u, 1) == Found(hash, Lookup(w, cred), None, w.now) && u.now == w.now
            && PhaseAt(After(w, es, 1), 1).Missed?
  {
    var u := After(w, es, 1);
    assert u == Next(w, es[0]);
    assert PhaseAt(u, 1) == Missed(hash) && u.creds == w.creds && u.tenants == w.tenants && u.now == w.now;
    assert After(w, es, 2) == Next(u, es[1]);
  }

  /** Other steps leave a lookup alone. */
  lemma LookupWaits(w: World, es: seq<Step>, n: nat)
    requires n < |es| && !es[n].Get? && !es[n].Find? && !es[n].Fill?
    ensures After(w, es, n + 1).reqs == After(w, es, n).reqs
    ensures After(w, es, n + 1).now == After(w, es, n).now + if es[n].Wait? then es[n].d else 0
  {
    assert After(w, es, n + 1) == Next(After(w, es, n), es[n]);
  }

  lemma RaceFills(w: World, es: seq<Step>, hash: string, cred: nat, d: nat, v: Cached)
    requires Race(es, hash, cred, d) && PhaseAt(After(w, es, 2), 1) == Found(hash, v, None, w.now)
    requires After(w, es, 2).now == w.now
    ensures After(w, es, 5).now == w.now + d && PhaseAt(After(w, es, 5), 1) == Found(hash, v, None, w.now)
    ensures hash in After(w, es, 6).cache && After(w, es, 6).cache[hash] == Entry(v, w.now + d + 60)
    ensures After(w, es, 6).now == w.now + d
  {
    LookupWaits(w, es, 2);
    LookupWaits(w, es, 3);
    LookupWaits(w, es, 4);
    var u := After(w, es, 5);
    assert PhaseAt(u, 1) == Found(hash, v, None, w.now);
    assert After(w, es, 6) == Next(u, es[5]);
  }

  /** Nothing smaller would do: the last unit of time before 60 + d still admits. */
  lemma FillRacesTheDelete(w: World, es: seq<Step>, hash: string, cred: nat, d: nat)
    requires Race(es, hash, cred, d) && Boot(w) && Matches(w, cred, hash) && w.creds[cred].expires.None?
    requires Lookup(w, cred).status.Running?
    ensures Prompt(w, es, d) && Admits(After(w, es, 7), es[7], hash, Lookup(w, cred))
    ensures After(w, es, 7).now == After(w, es, 2).now + 59 + d
  {
    RaceReads(w, es, hash, cred, d);
    RaceFills(w, es, hash, cred, d, Lookup(w, cred));
    forall n | 0 <= n < |es| ensures PromptAt(w, es, n, d) {
      RacePrompt(w, es, hash, cred, d, n);
    }
    RaceEnds(After(w, es, 6), es[6], es[7], Lookup(w, cred), hash);
    assert After(w, es, 7) == Next(After(w, es, 6), es[6]);
  }

  lemma RacePrompt(w: World, es: seq<Step>, hash: string, cred: nat, d: nat, n: nat)
    requires Race(es, hash, cred, d) && n < |es| && PhaseAt(After(w, es, 5), 1).Found?
    requires After(w, es, 5).now <= PhaseAt(After(w, es, 5), 1).readAt + d
    ensures PromptAt(w, es, n, d)
  {
    assert es[n].Fill? ==> n == 5;
  }

  lemma RaceEnds(u: World, wait: Step, get: Step, v: Cached, hash: string)
    requires wait == Wait(59) && get == Get(2, hash, true) && v.status.Running?
    requires hash in u.cache && u.cache[hash] == Entry(v, u.now + 60)
    ensures Admits(Next(u, wait), get, hash, v) && Next(u, wait).now == u.now + 59
  {
  }
}
