/** The authentication service itself: its methods over the user table and the token store, each
    proved to take exactly steps of the machine in Auth. */
module AuthService {
  import opened Common
  import opened Auth

  datatype Error =
    | InvalidCredentials | AccountDisabled | InvalidToken | UserGone | NotConfigured
    | InvalidCode | NoPendingSetup | StoreDown | DatabaseDown

  datatype Ticket = TotpRequired(token: string) | SetupRequired(token: string)

  /** The session handed out: an access token names the user. */
  datatype Session = Session(uid: string, refresh: string)

  lemma {:induction false} RunConcat(w: World, es: seq<Step>, fs: seq<Step>)
    ensures Run(w, es + fs) == Run(Run(w, es), fs)
  {
    if fs == [] {
      assert es + fs == es;
    } else {
      RunConcat(w, es, fs[..|fs| - 1]);
      assert (es + fs)[..|es + fs| - 1] == es + fs[..|fs| - 1];
    }
  }

  lemma RunTwo(w: World, a: Step, b: Step)
    ensures Run(w, [a]) == Next(w, a) && Run(w, [a, b]) == Next(Next(w, a), b)
  {
    assert [a][..0] == [] && [a, b][..1] == [a];
  }

  lemma SessionKeysDiffer(token: string, refresh: string)
    ensures RefreshKey(refresh) != MfaKey(token) && RefreshKey(refresh) != SetupKey(token)
  {
    assert RefreshKey(refresh)[0] == 'r' && MfaKey(token)[0] == 'm' && SetupKey(token)[0] == 't';
  }

  class Service {
    const env: Env
    var users: map<string, User>
    var store: map<string, string>
    ghost var ops: map<nat, Phase>
    ghost var log: seq<Event>
    ghost var used: set<string>

    ghost function Snapshot(): World
      reads this
    {
      World(env, users, store, ops, log, used)
    }

    constructor (env: Env)
      ensures Boot(Snapshot()) && this.env == env
    {
      this.env, users, store := env, map[], map[];
      ops, log, used := map[], [], {};
    }

    /** The real fields have been changed as step s says; the record of the run follows. */
    ghost method Record(w: World, s: Step)
      requires Next(w, s).env == env && Next(w, s).users == users && Next(w, s).store == store
      modifies `ops, `log, `used
      ensures Snapshot() == Next(w, s)
    {
      ops, log, used := Next(w, s).ops, Next(w, s).log, Next(w, s).used;
    }

    method Login(ghost id: nat, username: string, password: string, token: string, storeUp: bool)
      returns (r: Result<Ticket, Error>, ghost who: Option<string>, ghost steps: seq<Step>)
      modifies `store, `ops, `log, `used
      ensures Snapshot() == Run(old(Snapshot()), steps)
      ensures who.None? ==> forall uid :: uid in users ==> users[uid].deleted || users[uid].username != username
      ensures who.Some? ==> who.value in users && !users[who.value].deleted && users[who.value].username == username
      ensures r == if who.None? then Err(InvalidCredentials)
                   else if !users[who.value].active then Err(AccountDisabled)
                   else if !env.matches(users[who.value].hash, password) then Err(InvalidCredentials)
                   else if !storeUp then Err(StoreDown)
                   else Ok(if users[who.value].enabled then TotpRequired(token) else SetupRequired(token))
      ensures store == if r.Err? then old(store)
                       else if r.value.TotpRequired? then old(store)[MfaKey(token) := who.value]
                       else old(store)[SetupKey(token) := who.value]
    {
      ghost var w := Snapshot();
      var found := set uid | uid in users && !users[uid].deleted && users[uid].username == username;
      if found == {} {
        assert forall uid :: uid in users && !users[uid].deleted && users[uid].username == username ==> uid in found;
        who, r, steps := None, Err(InvalidCredentials), [];
        return;
      }
      var uid :| uid in found;
      who := Some(uid);
      var user := users[uid];
      ghost var check := InLogin(LoginCheck(id, uid, username, password));
      ghost var failed := InOther(Fail(id));
      RunTwo(w, check, InLogin(LoginStore(id, token)));
      RunTwo(w, check, failed);
      steps := [check];
      Record(w, check);
      if !user.active {
        return Err(AccountDisabled), who, steps;
      }
      if !env.matches(user.hash, password) {
        return Err(InvalidCredentials), who, steps;
      }
      ghost var w1 := Snapshot();
      if !storeUp {
        Record(w1, failed);
        return Err(StoreDown), who, [check, failed];
      }
      if user.enabled {
        store := store[MfaKey(token) := uid];
        r := Ok(TotpRequired(token));
      } else {
        store := store[SetupKey(token) := uid];
        r := Ok(SetupRequired(token));
      }
      steps := [check, InLogin(LoginStore(id, token))];
      Record(w1, steps[1]);
    }

    /** issueTokens, for a request that has earned it. */
    method IssueTokens(ghost id: nat, ghost via: string, uid: string, refresh: string, storeUp: bool)
      returns (r: Result<Session, Error>, ghost steps: seq<Step>)
      requires PhaseAt(Snapshot(), id) == Issuing(uid, via)
      modifies `store, `ops, `log, `used
      ensures Snapshot() == Run(old(Snapshot()), steps)
      ensures r == if storeUp then Ok(Session(uid, refresh)) else Err(StoreDown)
      ensures store == if storeUp then old(store)[RefreshKey(refresh) := uid] else old(store)
      ensures storeUp ==> RefreshStored(uid, refresh, via) in log && Access(uid) in log
    {
      ghost var w := Snapshot();
      ghost var step := if storeUp then InSession(Issue(id, refresh)) else InOther(Fail(id));
      RunTwo(w, step, step);
      steps := [step];
      if storeUp {
        store := store[RefreshKey(refresh) := uid];
        r := Ok(Session(uid, refresh));
      } else {
        r := Err(StoreDown);
      }
      Record(w, step);
      assert storeUp ==> log[|log| - 1] == RefreshStored(uid, refresh, via) && log[|log| - 2] == Access(uid);
    }

    /** VerifyTOTP up to its first write: whose token it is, and whether the code is that user's. */
    method CheckTOTP(ghost id: nat, token: string, code: string, now: int)
      returns (r: Result<string, Error>, ghost steps: seq<Step>)
      modifies `ops, `log, `used
      ensures Snapshot() == Run(old(Snapshot()), steps)
      ensures r == if MfaKey(token) !in store then Err(InvalidToken)
                   else
                     var uid := store[MfaKey(token)];
                     if !(uid in users && users[uid].active && !users[uid].deleted) then Err(UserGone)
                     else if users[uid].secret.None? then Err(NotConfigured)
                     else if !env.validates(code, users[uid].secret.value, now) then Err(InvalidCode)
                     else Ok(uid)
      ensures r.Ok? ==> PhaseAt(Snapshot(), id) == VerifyPassed(token, r.value)
    {
      ghost var w := Snapshot();
      ghost var get, check := InVerify(VerifyGet(id, token, code)), InVerify(VerifyCheck(id, now));
      RunTwo(w, get, check);
      Record(w, get);
      if MfaKey(token) !in store {
        return Err(InvalidToken), [get];
      }
      var uid := store[MfaKey(token)];
      ghost var w1 := Snapshot();
      Record(w1, check);
      steps := [get, check];
      if uid !in users || users[uid].deleted || !users[uid].active {
        return Err(UserGone), steps;
      }
      if users[uid].secret.None? {
        return Err(NotConfigured), steps;
      }
      if !env.validates(code, users[uid].secret.value, now) {
        return Err(InvalidCode), steps;
      }
      r := Ok(uid);
    }

    /** VerifyTOTP: a wrong code, a dead token or an unusable user changes nothing; success uses the
        token up. */
    method VerifyTOTP(ghost id: nat, token: string, code: string, now: int, refresh: string, delOk: bool, storeUp: bool)
      returns (r: Result<Session, Error>, ghost steps: seq<Step>)
      modifies `store, `ops, `log, `used
      ensures Snapshot() == Run(old(Snapshot()), steps)
      ensures r == if MfaKey(token) !in old(store) then Err(InvalidToken)
                   else
                     var uid := old(store)[MfaKey(token)];
                     if !(uid in users && users[uid].active && !users[uid].deleted) then Err(UserGone)
                     else if users[uid].secret.None? then Err(NotConfigured)
                     else if !env.validates(code, users[uid].secret.value, now) then Err(InvalidCode)
                     else if !storeUp then Err(StoreDown)
                     else Ok(Session(uid, refresh))
      ensures store == if r.Err? && r.error != StoreDown then old(store)
                       else
                         var kept := if delOk then old(store) - {MfaKey(token)} else old(store);
                         if r.Ok? then kept[RefreshKey(refresh) := r.value.uid] else kept
      ensures r.Ok? && delOk ==> MfaKey(token) !in store
    {
      ghost var w := Snapshot();
      var checked;
      checked, steps := CheckTOTP(id, token, code, now);
      if checked.Err? {
        return Err(checked.error), steps;
      }
      ghost var w1 := Snapshot();
      ghost var del := InVerify(VerifyDel(id, delOk));
      if delOk {
        store := store - {MfaKey(token)};
      }
      Record(w1, del);
      RunTwo(w1, del, del);
      RunConcat(w, steps, [del]);
      ghost var more;
      r, more := IssueTokens(id, MfaKey(token), checked.value, refresh, storeUp);
      RunConcat(w, steps + [del], more);
      steps := steps + [del] + more;
      SessionKeysDiffer(token, refresh);
    }

    /** SetupTOTP, behind an access token (`session`) or a setup token. */
    method SetupTOTP(ghost id: nat, ghost session: bool, uid: string, secret: string, storeUp: bool)
      returns (r: Result<string, Error>, ghost steps: seq<Step>)
      requires !session ==> PhaseAt(Snapshot(), id) == SetupPassed(uid)
      modifies `store, `ops, `log, `used
      ensures Snapshot() == Run(old(Snapshot()), steps)
      ensures r == if storeUp then Ok(secret) else Err(StoreDown)
      ensures store == if storeUp then old(store)[PendingKey(uid) := secret] else old(store)
    {
      ghost var w := Snapshot();
      ghost var step := if !storeUp then InOther(Fail(id))
                        else if session then InSetup(SetupDirect(uid, secret)) else InSetup(SetupStore(id, secret));
      RunTwo(w, step, step);
      steps := [step];
      if storeUp {
        store := store[PendingKey(uid) := secret];
        r := Ok(secret);
      } else {
        r := Err(StoreDown);
      }
      Record(w, step);
    }

    /** resolveSetupToken, on behalf of SetupTOTPWithToken (code is None) or CompleteTOTPSetup. */
    method ResolveSetupToken(ghost id: nat, token: string, ghost code: Option<string>)
      returns (r: Result<string, Error>, ghost steps: seq<Step>)
      modifies `ops, `log, `used
      ensures Snapshot() == Run(old(Snapshot()), steps)
      ensures r == if SetupKey(token) !in store then Err(InvalidToken)
                   else
                     var uid := store[SetupKey(token)];
                     if !(uid in users && users[uid].active && !users[uid].deleted) then Err(UserGone) else Ok(uid)
      ensures r.Ok? ==>
                PhaseAt(Snapshot(), id)
                == if code.Some? then CompleteFound(token, code.value, r.value) else SetupPassed(r.value)
    {
      ghost var w := Snapshot();
      ghost var get := if code.Some? then InComplete(CompleteGet(id, token, code.value))
                       else InSetup(SetupGet(id, token));
      ghost var find := if code.Some? then InComplete(CompleteFind(id)) else InSetup(SetupFind(id));
      RunTwo(w, get, find);
      Record(w, get);
      if SetupKey(token) !in store {
        return Err(InvalidToken), [get];
      }
      var uid := store[SetupKey(token)];
      ghost var w1 := Snapshot();
      Record(w1, find);
      steps := [get, find];
      if uid !in users || users[uid].deleted || !users[uid].active {
        return Err(UserGone), steps;
      }
      r := Ok(uid);
    }

    method SetupTOTPWithToken(ghost id: nat, token: string, secret: string, storeUp: bool)
      returns (r: Result<string, Error>, ghost steps: seq<Step>)
      modifies `store, `ops, `log, `used
      ensures Snapshot() == Run(old(Snapshot()), steps)
      ensures r == if SetupKey(token) !in old(store) then Err(InvalidToken)
                   else
                     var uid := old(store)[SetupKey(token)];
                     if !(uid in users && users[uid].active && !users[uid].deleted) then Err(UserGone)
                     else if !storeUp then Err(StoreDown) else Ok(secret)
      ensures store == if r.Ok? then old(store)[PendingKey(old(store)[SetupKey(token)]) := secret] else old(store)
    {
      ghost var w := Snapshot();
      var found;
      found, steps := ResolveSetupToken(id, token, None);
      if found.Err? {
        return Err(found.error), steps;
      }
      ghost var more;
      r, more := SetupTOTP(id, false, found.value, secret, storeUp);
      RunConcat(w, steps, more);
      steps := steps + more;
    }

    /** The two writes of EnableTOTP: the row, then the pending secret's key. */
    method SaveTOTP(ghost id: nat, ghost setup: Option<string>, uid: string, secret: string, delOk: bool)
      returns (ghost steps: seq<Step>)
      requires PhaseAt(Snapshot(), id) == EnablePassed(uid, secret, setup)
      modifies `users, `store, `ops, `log, `used
      ensures Snapshot() == Run(old(Snapshot()), steps)
      ensures store == if delOk then old(store) - {PendingKey(uid)} else old(store)
      ensures users == if uid in old(users)
                       then old(users)[uid := old(users)[uid].(secret := Some(secret), enabled := true)] else old(users)
      ensures setup.Some? ==> PhaseAt(Snapshot(), id) == CompleteSaved(setup.value, uid)
    {
      ghost var w := Snapshot();
      ghost var save, del := InEnable(EnableSave(id)), InEnable(EnableDel(id, delOk));
      RunTwo(w, save, del);
      if uid in users {
        users := users[uid := users[uid].(secret := Some(secret), enabled := true)];
      }
      Record(w, save);
      ghost var w1 := Snapshot();
      if delOk {
        store := store - {PendingKey(uid)};
      }
      Record(w1, del);
      steps := [save, del];
    }

    /** EnableTOTP, for a signed-in user or inside CompleteTOTPSetup (then `setup` is its token). */
    method EnableTOTP(ghost id: nat, ghost setup: Option<string>, uid: string, code: string, now: int,
                      dbUp: bool, delOk: bool)
      returns (r: Result<(), Error>, ghost steps: seq<Step>)
      requires setup.Some? ==> PhaseAt(Snapshot(), id) == CompleteFound(setup.value, code, uid)
      modifies `users, `store, `ops, `log, `used
      ensures Snapshot() == Run(old(Snapshot()), steps)
      ensures r == if PendingKey(uid) !in old(store) then Err(NoPendingSetup)
                   else if !env.validates(code, old(store)[PendingKey(uid)], now) then Err(InvalidCode)
                   else if !dbUp then Err(DatabaseDown) else Ok(())
      ensures r.Err? ==> users == old(users) && store == old(store)
      ensures r.Ok? ==> store == if delOk then old(store) - {PendingKey(uid)} else old(store)
      ensures r.Ok? ==>
                var secret := old(store)[PendingKey(uid)];
                users == if uid !in old(users) then old(users)
                         else old(users)[uid := old(users)[uid].(secret := Some(secret), enabled := true)]
      ensures r.Ok? && setup.Some? ==> PhaseAt(Snapshot(), id) == CompleteSaved(setup.value, uid)
    {
      ghost var w := Snapshot();
      ghost var check := if setup.Some? then InComplete(CompleteCheck(id, now))
                         else InEnable(EnableCheck(id, uid, code, now));
      ghost var failed := InOther(Fail(id));
      RunTwo(w, check, failed);
      ConfirmStep(w, check, id, uid, code, now, setup);
      Record(w, check);
      if PendingKey(uid) !in store {
        return Err(NoPendingSetup), [check];
      }
      var secret := store[PendingKey(uid)];
      if !env.validates(code, secret, now) {
        return Err(InvalidCode), [check];
      }
      ghost var w1 := Snapshot();
      if !dbUp {
        Record(w1, failed);
        return Err(DatabaseDown), [check, failed];
      }
      ghost var more := SaveTOTP(id, setup, uid, secret, delOk);
      RunConcat(w, [check], more);
      r, steps := Ok(()), [check] + more;
    }

    /** The end of an enrolment: the setup token is deleted, whatever that call answers, and the
        session is handed out. */
    method FinishSetup(ghost id: nat, token: string, uid: string, refresh: string, delOk: bool, storeUp: bool)
      returns (r: Result<Session, Error>, ghost steps: seq<Step>)
      requires PhaseAt(Snapshot(), id) == CompleteSaved(token, uid)
      modifies `store, `ops, `log, `used
      ensures Snapshot() == Run(old(Snapshot()), steps)
      ensures r == if storeUp then Ok(Session(uid, refresh)) else Err(StoreDown)
      ensures var kept := if delOk then old(store) - {SetupKey(token)} else old(store);
              store == if storeUp then kept[RefreshKey(refresh) := uid] else kept
    {
      ghost var w := Snapshot();
      ghost var del := InComplete(CompleteDel(id, delOk));
      if delOk {
        store := store - {SetupKey(token)};
      }
      Record(w, del);
      RunTwo(w, del, del);
      ghost var more;
      r, more := IssueTokens(id, SetupKey(token), uid, refresh, storeUp);
      RunConcat(w, [del], more);
      steps := [del] + more;
    }

    /** CompleteTOTPSetup: a wrong code consumes nothing, so the caller may try again; success turns
        the second factor on, uses the setup token up and hands out a session. */
    method CompleteTOTPSetup(ghost id: nat, token: string, code: string, now: int, refresh: string,
                             dbUp: bool, delPending: bool, delSetup: bool, storeUp: bool)
      returns (r: Result<Session, Error>, ghost steps: seq<Step>)
      modifies `users, `store, `ops, `log, `used
      ensures Snapshot() == Run(old(Snapshot()), steps)
      ensures r == if SetupKey(token) !in old(store) then Err(InvalidToken)
                   else
                     var uid := old(store)[SetupKey(token)];
                     if !(uid in old(users) && old(users)[uid].active && !old(users)[uid].deleted) then Err(UserGone)
                     else if PendingKey(uid) !in old(store) then Err(NoPendingSetup)
                     else if !env.validates(code, old(store)[PendingKey(uid)], now) then Err(InvalidCode)
                     else if !dbUp then Err(DatabaseDown)
                     else if !storeUp then Err(StoreDown)
                     else Ok(Session(uid, refresh))
      ensures if r.Err? && r.error != StoreDown then users == old(users) && store == old(store)
              else
                var uid := old(store)[SetupKey(token)];
                var secret := old(store)[PendingKey(uid)];
                var unpended := if delPending then old(store) - {PendingKey(uid)} else old(store);
                var kept := if delSetup then unpended - {SetupKey(token)} else unpended;
                && users == old(users)[uid := old(users)[uid].(secret := Some(secret), enabled := true)]
                && store == if r.Ok? then kept[RefreshKey(refresh) := uid] else kept
      ensures r.Ok? && delSetup ==> SetupKey(token) !in store
    {
      ghost var w := Snapshot();
      var found;
      found, steps := ResolveSetupToken(id, token, Some(code));
      if found.Err? {
        return Err(found.error), steps;
      }
      var uid := found.value;
      ghost var more;
      var enabled;
      enabled, more := EnableTOTP(id, Some(token), uid, code, now, dbUp, delPending);
      RunConcat(w, steps, more);
      steps := steps + more;
      if enabled.Err? {
        return Err(enabled.error), steps;
      }
      r, more := FinishSetup(id, token, uid, refresh, delSetup, storeUp);
      RunConcat(w, steps, more);
      steps := steps + more;
      SessionKeysDiffer(token, refresh);
    }

    method AdminResetTOTP(uid: string) returns (ghost steps: seq<Step>)
      modifies `users, `ops, `log, `used
      ensures Snapshot() == Run(old(Snapshot()), steps)
      ensures users == if uid in old(users) then old(users)[uid := old(users)[uid].(secret := None, enabled := false)]
                       else old(users)
    {
      ghost var w := Snapshot();
      if uid in users {
        users := users[uid := users[uid].(secret := None, enabled := false)];
      }
      Record(w, InOther(Reset(uid)));
      RunTwo(w, InOther(Reset(uid)), InOther(Reset(uid)));
      steps := [InOther(Reset(uid))];
    }

    /** What user administration does to the row of a user: everything but the second factor. */
    method SaveUser(uid: string, username: string, hash: string, active: bool, deleted: bool)
      returns (ghost steps: seq<Step>)
      modifies `users, `ops, `log, `used
      ensures Snapshot() == Run(old(Snapshot()), steps)
      ensures users == old(users)[uid := User(username, hash, active, deleted,
                if uid in old(users) then old(users)[uid].secret else None,
                 uid in old(users) && old(users)[uid].enabled)]
    {
      ghost var w := Snapshot();
      ghost var edit := InOther(EditUser(uid, username, hash, active, deleted));
      var secret, enabled := None, false;
      if uid in users {
        secret, enabled := users[uid].secret, users[uid].enabled;
      }
      users := users[uid := User(username, hash, active, deleted, secret, enabled)];
      Record(w, edit);
      RunTwo(w, edit, edit);
      steps := [edit];
    }

    method Refresh(ghost id: nat, token: string) returns (r: Result<string, Error>, ghost steps: seq<Step>)
      modifies `ops, `log, `used
      ensures Snapshot() == Run(old(Snapshot()), steps)
      ensures r == if RefreshKey(token) !in store then Err(InvalidToken)
                   else
                     var uid := store[RefreshKey(token)];
                     if !(uid in users && users[uid].active && !users[uid].deleted) then Err(UserGone) else Ok(uid)
    {
      ghost var w := Snapshot();
      ghost var get, find := InSession(RefreshGet(id, token)), InSession(RefreshFind(id));
      RunTwo(w, get, find);
      Record(w, get);
      if RefreshKey(token) !in store {
        return Err(InvalidToken), [get];
      }
      var uid := store[RefreshKey(token)];
      ghost var w1 := Snapshot();
      Record(w1, find);
      steps := [get, find];
      if uid !in users || users[uid].deleted || !users[uid].active {
        return Err(UserGone), steps;
      }
      r := Ok(uid);
    }

    method Logout(token: string) returns (ghost steps: seq<Step>)
      modifies `store, `ops, `log, `used
      ensures Snapshot() == Run(old(Snapshot()), steps)
      ensures store == old(store) - {RefreshKey(token)}
    {
      ghost var w := Snapshot();
      store := store - {RefreshKey(token)};
      Record(w, InSession(Auth.Logout(token)));
      RunTwo(w, InSession(Auth.Logout(token)), InSession(Auth.Logout(token)));
      steps := [InSession(Auth.Logout(token))];
    }
  }

  /** Both ways into EnableTOTP check the code in the same way. */
  lemma ConfirmStep(w: World, check: Step, id: nat, uid: string, code: string, now: int, setup: Option<string>)
    requires setup.Some? ==> PhaseAt(w, id) == CompleteFound(setup.value, code, uid)
    requires check ==
             if setup.Some? then InComplete(CompleteCheck(id, now)) else InEnable(EnableCheck(id, uid, code, now))
    ensures Next(w, check) == Confirm(w, id, uid, code, now, setup)
  {
  }
}
