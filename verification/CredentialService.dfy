/** The middleware and the credential service, as they change the two stores in place; each method is
    proved to take exactly steps of the machine in CredentialCache. */
module CredentialService {
  import opened Common
  import opened CredentialCache

  datatype Error = NotFound | NotActive | DatabaseDown

  ghost function End(w: World, es: seq<Step>): World { After(w, es, |es|) }

  lemma {:induction false} AfterConcat(w: World, es: seq<Step>, fs: seq<Step>, n: nat)
    requires n <= |fs|
    ensures After(w, es + fs, |es| + n) == After(End(w, es), fs, n)
    decreases n
  {
    if n == 0 {
      AfterPrefix(w, es, fs, |es|);
    } else {
      AfterConcat(w, es, fs, n - 1);
    }
  }

  lemma {:induction false} AfterPrefix(w: World, es: seq<Step>, fs: seq<Step>, n: nat)
    requires n <= |es|
    ensures After(w, es + fs, n) == After(w, es, n)
    decreases n
  {
    if n > 0 {
      AfterPrefix(w, es, fs, n - 1);
    }
  }

  lemma EndSnoc(w: World, es: seq<Step>, s: Step)
    ensures End(w, es + [s]) == Next(End(w, es), s)
  {
    AfterConcat(w, es, [s], 1);
    assert After(End(w, es), [s], 1) == Next(End(w, es), s);
  }

  class Service {
    const sha: string -> string
    var now: int
    var creds: map<nat, Cred>
    var tenants: map<nat, Tenant>
    var cache: map<string, Entry>
    ghost var reqs: map<nat, Phase>

    ghost function Snapshot(): World
      reads this
    {
      World(now, creds, tenants, cache, reqs)
    }

    constructor (sha: string -> string, now: int, creds: map<nat, Cred>, tenants: map<nat, Tenant>)
      ensures Boot(Snapshot()) && this.sha == sha && this.creds == creds && this.tenants == tenants
    {
      this.sha, this.now, this.creds, this.tenants, cache, reqs := sha, now, creds, tenants, map[], map[];
    }

    /** The real fields have been changed as step s says; the record of the run follows. */
    ghost method Record(w0: World, pre: seq<Step>, w: World, s: Step) returns (steps: seq<Step>)
      requires w == End(w0, pre) && reqs == w.reqs
      requires Next(w, s).(reqs := reqs) == Snapshot()
      modifies `reqs
      ensures Snapshot() == Next(w, s) == End(w0, steps) && steps == pre + [s]
    {
      EndSnoc(w0, pre, s);
      reqs := Next(w, s).reqs;
      steps := pre + [s];
    }

    /** FindByHash: some active row of this hash whose tenant is not soft-deleted, if there is one. */
    method FindByHash(hash: string, ok: bool) returns (pick: Option<nat>)
      ensures pick.None? && ok ==> forall c :: c in creds && creds[c].hash == hash && creds[c].status == Active ==>
                creds[c].tenant !in tenants || tenants[creds[c].tenant].gone
      ensures pick.Some? ==>
                && ok && pick.value in creds && creds[pick.value].hash == hash && creds[pick.value].status == Active
                && creds[pick.value].tenant in tenants && !tenants[creds[pick.value].tenant].gone
    {
      var rows := set c | c in creds && creds[c].hash == hash && creds[c].status.Active?
                          && creds[c].tenant in tenants && !tenants[creds[c].tenant].gone;
      if !ok || rows == {} {
        forall c | c in creds && creds[c].hash == hash && creds[c].status.Active? && creds[c].tenant in tenants
                   && !tenants[creds[c].tenant].gone
          ensures c in rows
        {
        }
        return None;
      }
      var c :| c in rows;
      return Some(c);
    }

    /** The end of a cache miss: `busy` later the expiry is checked and the cache filled for 60 s. */
    method FillCache(ghost id: nat, hash: string, cached: Cached, expires: Option<int>, ghost readAt: int,
                     busy: nat, setOk: bool)
      returns (r: Result<Cached, Reason>, ghost steps: seq<Step>)
      requires PhaseAt(Snapshot(), id) == Found(hash, cached, expires, readAt)
      modifies `now, `cache, `reqs
      ensures Snapshot() == End(old(Snapshot()), steps)
      ensures now == old(now) + busy
      ensures r == if expires.Some? && expires.value < now then Err(CredentialExpired) else Ok(cached)
      ensures cache == if r.Ok? && setOk then old(cache)[hash := Entry(cached, now + 60)] else old(cache)
    {
      ghost var w := Snapshot();
      now := now + busy;
      steps := Record(w, [], w, Wait(busy));
      ghost var w1 := Snapshot();
      if expires.Some? && expires.value < now {
        steps := Record(w, steps, w1, Fill(id, setOk));
        return Err(CredentialExpired), steps;
      }
      if setOk {
        cache := cache[hash := Entry(cached, now + 60)];
      }
      steps := Record(w, steps, w1, Fill(id, setOk));
      r := Ok(cached);
    }

    /** The path of a cache miss: ask Postgres, check the expiry `busy` later, fill the cache. `who` is
        the row that was found. */
    method LookUp(ghost id: nat, hash: string, dbOk: bool, busy: nat, setOk: bool)
      returns (r: Result<Cached, Reason>, ghost who: Option<nat>, ghost steps: seq<Step>)
      requires PhaseAt(Snapshot(), id) == Missed(hash)
      modifies `now, `cache, `reqs
      ensures Snapshot() == End(old(Snapshot()), steps)
      ensures now == old(now) + if who.Some? then busy else 0
      ensures who.None? && dbOk ==> forall c :: c in creds && creds[c].hash == hash && creds[c].status == Active ==>
                creds[c].tenant !in tenants || tenants[creds[c].tenant].gone
      ensures who.Some? ==>
                && dbOk && who.value in creds && creds[who.value].hash == hash && creds[who.value].status == Active
                && creds[who.value].tenant in tenants && !tenants[creds[who.value].tenant].gone
      ensures r == if who.None? then Err(InvalidKey)
                   else var row := creds[who.value];
                        if row.expires.Some? && row.expires.value < now then Err(CredentialExpired)
                        else Ok(Cached(who.value, row.tenant, tenants[row.tenant].status))
      ensures cache == if r.Ok? && setOk then old(cache)[hash := Entry(r.value, now + 60)] else old(cache)
    {
      ghost var w := Snapshot();
      var pick := FindByHash(hash, dbOk);
      who := pick;
      if pick.None? {
        steps := Record(w, [], w, Find(id, 0, false));
        return Err(InvalidKey), who, steps;
      }
      var cred := pick.value;
      var cached := Cached(cred, creds[cred].tenant, tenants[creds[cred].tenant].status);
      ghost var readAt := now;
      steps := Record(w, [], w, Find(id, cred, true));
      ghost var more;
      r, more := FillCache(id, hash, cached, creds[cred].expires, readAt, busy, setOk);
      AfterConcat(w, steps, more, |more|);
      steps := steps + more;
    }

    /** The tenant's status decides last, for a cached answer and a fresh one alike. */
    method CheckTenant(cached: Cached) returns (r: Result<Cached, Reason>)
      ensures r == match cached.status
                   case Running => Ok(cached)
                   case Suspended => Err(TenantSuspended)
                   case Deleted => Err(InvalidKey)
    {
      if cached.status.Suspended? {
        return Err(TenantSuspended);
      }
      if cached.status.Deleted? {
        return Err(InvalidKey);
      }
      r := Ok(cached);
    }

    /** Authenticate: what the cache answers for is decided by the status it holds; any other key is let
        through exactly when Postgres has an active row of its hash, not past its expiry, of a tenant that
        is running now. */
    method Authenticate(ghost id: nat, apiKey: string, cacheOk: bool, dbOk: bool, busy: nat, setOk: bool)
      returns (r: Result<Cached, Reason>, ghost who: Option<nat>, ghost steps: seq<Step>)
      modifies `now, `cache, `reqs
      ensures Snapshot() == End(old(Snapshot()), steps)
      ensures |apiKey| < 10 ==> r == Err(InvalidKey) && cache == old(cache)
      ensures var key, c := sha(apiKey), old(cache);
              |apiKey| >= 10 && cacheOk && key in c && old(now) < c[key].until ==>
                && cache == c && now == old(now)
                && r == match c[key].value.status
                        case Running => Ok(c[key].value)
                        case Suspended => Err(TenantSuspended)
                        case Deleted => Err(InvalidKey)
      ensures var key, c := sha(apiKey), old(cache);
              |apiKey| >= 10 && !(cacheOk && key in c && old(now) < c[key].until) ==>
                && (who.None? && dbOk ==> forall k ::
                      k in creds && creds[k].hash == key && creds[k].status == Active ==>
                        creds[k].tenant !in tenants || tenants[creds[k].tenant].gone)
                && (who.Some? ==>
                      && dbOk && who.value in creds && creds[who.value].hash == key && creds[who.value].status == Active
                      && creds[who.value].tenant in tenants && !tenants[creds[who.value].tenant].gone)
                && now == old(now) + (if who.Some? then busy else 0)
                && if who.None? then r == Err(InvalidKey) && cache == c
                   else
                     var row := creds[who.value];
                     var found := Cached(who.value, row.tenant, tenants[row.tenant].status);
                     if row.expires.Some? && row.expires.value < now then r == Err(CredentialExpired) && cache == c
                     else
                       && cache == (if setOk then c[key := Entry(found, now + 60)] else c)
                       && r == match found.status
                               case Running => Ok(found)
                               case Suspended => Err(TenantSuspended)
                               case Deleted => Err(InvalidKey)
    {
      who := None;
      if |apiKey| < 10 {
        return Err(InvalidKey), who, [];
      }
      var hash := sha(apiKey);
      ghost var w := Snapshot();
      steps := Record(w, [], w, Get(id, hash, cacheOk));
      var cached;
      if cacheOk && hash in cache && now < cache[hash].until {
        cached := cache[hash].value;
      } else {
        ghost var more;
        var found;
        found, who, more := LookUp(id, hash, dbOk, busy, setOk);
        AfterConcat(w, steps, more, |more|);
        steps := steps + more;
        if found.Err? {
          return Err(found.error), who, steps;
        }
        cached := found.value;
      }
      r := CheckTenant(cached);
    }

    /** The delayed half of a revocation: whenever it comes, it is one eviction. */
    method InvalidateCredential(hash: string) returns (ghost steps: seq<Step>)
      modifies `cache, `reqs
      ensures Snapshot() == End(old(Snapshot()), steps)
      ensures cache == old(cache) - {hash}
    {
      ghost var w := Snapshot();
      cache := cache - {hash};
      steps := Record(w, [], w, Evict(hash));
    }

    /** CredentialRepository.Revoke: only an active row changes. */
    method RevokeRow(cred: nat) returns (changed: bool, ghost steps: seq<Step>)
      modifies `creds, `reqs
      ensures Snapshot() == End(old(Snapshot()), steps) && steps == [Revoke(cred)]
      ensures changed == (cred in old(creds) && old(creds)[cred].status.Active?)
      ensures creds == if changed then old(creds)[cred := old(creds)[cred].(status := Revoked)] else old(creds)
      ensures Ended(Snapshot(), cred)
    {
      ghost var w := Snapshot();
      changed := cred in creds && creds[cred].status.Active?;
      if changed {
        creds := creds[cred := creds[cred].(status := Revoked)];
      }
      steps := Record(w, [], w, Revoke(cred));
    }

    /** Service.Revoke, up to its delayed delete. */
    method RevokeCredential(cred: nat) returns (r: Result<string, Error>, ghost steps: seq<Step>)
      modifies `creds, `reqs
      ensures Snapshot() == End(old(Snapshot()), steps)
      ensures r == if cred !in old(creds) then Err(NotFound)
                   else if old(creds)[cred].status != Active then Err(NotActive) else Ok(old(creds)[cred].hash)
      ensures creds == if r.Ok? then old(creds)[cred := old(creds)[cred].(status := Revoked)] else old(creds)
      ensures Ended(Snapshot(), cred)
    {
      if cred !in creds {
        return Err(NotFound), [];
      }
      var hash := creds[cred].hash;
      var changed;
      changed, steps := RevokeRow(cred);
      r := if changed then Ok(hash) else Err(NotActive);
    }

    /** Service.Rotate, up to its delayed delete: the old key is revoked before the new one exists, and
        stays revoked even if the new one cannot be stored. */
    method Rotate(cred: nat, newId: nat, hash: string, createOk: bool)
      returns (r: Result<nat, Error>, ghost steps: seq<Step>)
      requires newId !in creds
      modifies `creds, `reqs
      ensures Snapshot() == End(old(Snapshot()), steps)
      ensures r == if cred !in old(creds) then Err(NotFound)
                   else if old(creds)[cred].status != Active then Err(NotActive)
                   else if !createOk then Err(DatabaseDown) else Ok(newId)
      ensures creds == if r == Err(NotFound) || r == Err(NotActive) then old(creds)
                       else
                         var row := old(creds)[cred];
                         var revoked := old(creds)[cred := row.(status := Revoked)];
                         if createOk then revoked[newId := Cred(hash, row.tenant, Active, None)] else revoked
      ensures Ended(Snapshot(), cred)
    {
      ghost var w := Snapshot();
      if cred !in creds {
        return Err(NotFound), [];
      }
      var existing := creds[cred];
      if !existing.status.Active? {
        return Err(NotActive), [];
      }
      var changed;
      changed, steps := RevokeRow(cred);
      if !createOk {
        return Err(DatabaseDown), steps;
      }
      ghost var w1 := Snapshot();
      creds := creds[newId := Cred(hash, existing.tenant, Active, None)];
      steps := Record(w, steps, w1, AddCred(newId, Cred(hash, existing.tenant, Active, None)));
      r := Ok(newId);
    }
  }
}
