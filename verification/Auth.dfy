/** Mandatory two-factor sessions over one string-keyed store (service/auth/service.go). Every request
    is a program counter; between two of its calls to Redis or Postgres any other request may run.
    The caller supplies tokens, codes and passwords as arbitrary strings. */
module Auth {
  import opened Common

  // ---------------------------------------------------------------- keys

  datatype Space = Mfa | Setup | Pending | Refresh | Elsewhere

  function MfaKey(token: string): string { "mfa:" + token }

  function SetupKey(token: string): string { "totp_setup:" + token }

  function PendingKey(uid: string): string { "totp_pending:" + uid }

  function RefreshKey(token: string): string { "refresh:" + token }

  function SpaceOf(key: string): Space {
    if "mfa:" <= key then Mfa
    else if "totp_setup:" <= key then Setup
    else if "totp_pending:" <= key then Pending
    else if "refresh:" <= key then Refresh
    else Elsewhere
  }

  /** Whatever string a caller supplies, its key stays in the space it was made for. */
  lemma SpacesAreApart(text: string)
    ensures SpaceOf(MfaKey(text)) == Mfa
    ensures SpaceOf(SetupKey(text)) == Setup
    ensures SpaceOf(PendingKey(text)) == Pending && PendingKey(text)[13..] == text
    ensures SpaceOf(RefreshKey(text)) == Refresh
  {
    assert SetupKey(text)[0] == 't' && SetupKey(text)[5] == 's' && SetupKey(text)[..11] == "totp_setup:";
    assert PendingKey(text)[0] == 't' && PendingKey(text)[5] == 'p' && PendingKey(text)[..13] == "totp_pending:";
    assert RefreshKey(text)[0] == 'r' && RefreshKey(text)[..8] == "refresh:";
    assert MfaKey(text)[..4] == "mfa:";
  }

  // ---------------------------------------------------------------- the state

  /** A user row; a UUID is modelled by its canonical text, which is also what the store holds. */
  datatype User = User(username: string, hash: string, active: bool, deleted: bool,
                       secret: Option<string>, enabled: bool)

  /** The two cryptographic checks: verifyArgon2id(hash, password) and totp.Validate(code, secret). */
  datatype Env = Env(matches: (string, string) -> bool, validates: (string, string, int) -> bool)

  datatype Event =
    | PasswordSet(uid: string, hash: string)
    | SecretMade(uid: string, secret: string)
    | PasswordOk(uid: string, hash: string, password: string)
    | CodeOk(uid: string, secret: string, code: string, at: int)
    | Access(uid: string)
    | RefreshStored(uid: string, token: string, via: string)

  datatype Phase =
    | LoginPassed(uid: string, enabled: bool)
    | VerifyGot(token: string, code: string, uid: string)
    | VerifyPassed(token: string, uid: string)
    | SetupGot(uid: string)
    | SetupPassed(uid: string)
    | CompleteGot(token: string, code: string, uid: string)
    | CompleteFound(token: string, code: string, uid: string)
    | EnablePassed(uid: string, secret: string, setup: Option<string>)
    | EnableSaved(uid: string, setup: Option<string>)
    | CompleteSaved(token: string, uid: string)
    | Issuing(uid: string, via: string)
    | RefreshGot(uid: string)
    | Done
    | Failed

  datatype World = World(env: Env, users: map<string, User>, store: map<string, string>,
                         ops: map<nat, Phase>, log: seq<Event>, used: set<string>)

  predicate Usable(w: World, uid: string) {
    uid in w.users && !w.users[uid].deleted && w.users[uid].active
  }

  function At(w: World, id: nat, p: Phase): World { w.(ops := w.ops[id := p]) }

  function Put(w: World, key: string, value: string): World {
    w.(store := w.store[key := value], used := w.used + {key})
  }

  function Drop(w: World, key: string): World { w.(store := w.store - {key}) }

  function Note(w: World, e: Event): World { w.(log := w.log + [e]) }

  // ---------------------------------------------------------------- the steps

  /** Each step is one call to a store with what the code computes from the answer. A flag `ok` that
      is false means the call failed. */
  datatype LoginStep =
    | LoginCheck(id: nat, uid: string, username: string, password: string)
    | LoginStore(id: nat, token: string)

  datatype VerifyStep =
    | VerifyGet(id: nat, token: string, code: string)
    | VerifyCheck(id: nat, now: int)
    | VerifyDel(id: nat, ok: bool)

  datatype SetupStep =
    | SetupGet(id: nat, token: string)
    | SetupFind(id: nat)
    | SetupStore(id: nat, secret: string)
    | SetupDirect(uid: string, secret: string)

  datatype EnableStep =
    | EnableCheck(id: nat, uid: string, code: string, now: int)
    | EnableSave(id: nat)
    | EnableDel(id: nat, ok: bool)

  datatype CompleteStep =
    | CompleteGet(id: nat, token: string, code: string)
    | CompleteFind(id: nat)
    | CompleteCheck(id: nat, now: int)
    | CompleteDel(id: nat, ok: bool)

  datatype SessionStep =
    | Issue(id: nat, token: string)
    | RefreshGet(id: nat, token: string)
    | RefreshFind(id: nat)
    | Logout(token: string)

  /** The rest of the system: administrators, expiry, other users of the store, and calls that fail. */
  datatype OtherStep =
    | Reset(uid: string)
    | EditUser(uid: string, username: string, hash: string, active: bool, deleted: bool)
    | Expire(key: string)
    | Foreign(key: string, value: string)
    | Fail(id: nat)

  datatype Step =
    | InLogin(login: LoginStep)
    | InVerify(verify: VerifyStep)
    | InSetup(setup: SetupStep)
    | InEnable(enable: EnableStep)
    | InComplete(complete: CompleteStep)
    | InSession(session: SessionStep)
    | InOther(other: OtherStep)

  function PhaseAt(w: World, id: nat): Phase { if id in w.ops then w.ops[id] else Done }

  function LoginNext(w: World, s: LoginStep): World {
    match s
    case LoginCheck(id, uid, username, password) =>
      if Usable(w, uid) && w.users[uid].username == username && w.env.matches(w.users[uid].hash, password)
      then Note(At(w, id, LoginPassed(uid, w.users[uid].enabled)), PasswordOk(uid, w.users[uid].hash, password))
      else At(w, id, Failed)
    case LoginStore(id, token) =>
      var p := PhaseAt(w, id);
      if !p.LoginPassed? then w
      else At(Put(w, if p.enabled then MfaKey(token) else SetupKey(token), p.uid), id, Done)
  }

  function VerifyNext(w: World, s: VerifyStep): World {
    var p := PhaseAt(w, s.id);
    match s
    case VerifyGet(id, token, code) =>
      At(w, id, if MfaKey(token) in w.store then VerifyGot(token, code, w.store[MfaKey(token)]) else Failed)
    case VerifyCheck(id, now) =>
      if !p.VerifyGot? then w
      else if Usable(w, p.uid) && w.users[p.uid].secret.Some? &&
              w.env.validates(p.code, w.users[p.uid].secret.value, now)
      then Note(At(w, id, VerifyPassed(p.token, p.uid)), CodeOk(p.uid, w.users[p.uid].secret.value, p.code, now))
      else At(w, id, Failed)
    case VerifyDel(id, ok) =>
      if !p.VerifyPassed? then w
      else At(if ok then Drop(w, MfaKey(p.token)) else w, id, Issuing(p.uid, MfaKey(p.token)))
  }

  function SetupNext(w: World, s: SetupStep): World {
    match s
    case SetupGet(id, token) =>
      At(w, id, if SetupKey(token) in w.store then SetupGot(w.store[SetupKey(token)]) else Failed)
    case SetupFind(id) =>
      var p := PhaseAt(w, id);
      if !p.SetupGot? then w else At(w, id, if Usable(w, p.uid) then SetupPassed(p.uid) else Failed)
    case SetupStore(id, secret) =>
      var p := PhaseAt(w, id);
      if !p.SetupPassed? then w else At(NewSecret(w, p.uid, secret), id, Done)
    case SetupDirect(uid, secret) =>
      NewSecret(w, uid, secret)
  }

  function NewSecret(w: World, uid: string, secret: string): World {
    Note(Put(w, PendingKey(uid), secret), SecretMade(uid, secret))
  }

  /** EnableTOTP up to its first write: read the pending secret and check the code against it. */
  function Confirm(w: World, id: nat, uid: string, code: string, now: int, setup: Option<string>): World {
    var key := PendingKey(uid);
    if key in w.store && w.env.validates(code, w.store[key], now)
    then Note(At(w, id, EnablePassed(uid, w.store[key], setup)), CodeOk(uid, w.store[key], code, now))
    else At(w, id, Failed)
  }

  /** UPDATE admin_users SET totp_secret, totp_enabled: the two columns are written together, but by
      separate arguments. */
  function UpdateTOTP(w: World, uid: string, secret: Option<string>, enabled: bool): World {
    if uid in w.users then w.(users := w.users[uid := w.users[uid].(secret := secret, enabled := enabled)]) else w
  }

  function EnableNext(w: World, s: EnableStep): World {
    var p := PhaseAt(w, s.id);
    match s
    case EnableCheck(id, uid, code, now) =>
      Confirm(w, id, uid, code, now, None)
    case EnableSave(id) =>
      if !p.EnablePassed? then w else At(UpdateTOTP(w, p.uid, Some(p.secret), true), id, EnableSaved(p.uid, p.setup))
    case EnableDel(id, ok) =>
      if !p.EnableSaved? then w
      else At(if ok then Drop(w, PendingKey(p.uid)) else w, id,
              if p.setup.Some? then CompleteSaved(p.setup.value, p.uid) else Done)
  }

  function CompleteNext(w: World, s: CompleteStep): World {
    var p := PhaseAt(w, s.id);
    match s
    case CompleteGet(id, token, code) =>
      At(w, id, if SetupKey(token) in w.store then CompleteGot(token, code, w.store[SetupKey(token)]) else Failed)
    case CompleteFind(id) =>
      if !p.CompleteGot? then w
      else At(w, id, if Usable(w, p.uid) then CompleteFound(p.token, p.code, p.uid) else Failed)
    case CompleteCheck(id, now) =>
      if !p.CompleteFound? then w else Confirm(w, id, p.uid, p.code, now, Some(p.token))
    case CompleteDel(id, ok) =>
      if !p.CompleteSaved? then w
      else At(if ok then Drop(w, SetupKey(p.token)) else w, id, Issuing(p.uid, SetupKey(p.token)))
  }

  function SessionNext(w: World, s: SessionStep): World {
    match s
    case Issue(id, token) =>
      var p := PhaseAt(w, id);
      if !p.Issuing? then w
      else Note(Note(At(Put(w, RefreshKey(token), p.uid), id, Done), Access(p.uid)), RefreshStored(p.uid, token, p.via))
    case RefreshGet(id, token) =>
      At(w, id, if RefreshKey(token) in w.store then RefreshGot(w.store[RefreshKey(token)]) else Failed)
    case RefreshFind(id) =>
      var p := PhaseAt(w, id);
      if !p.RefreshGot? then w
      else if Usable(w, p.uid) then Note(At(w, id, Done), Access(p.uid)) else At(w, id, Failed)
    case Logout(token) =>
      Drop(w, RefreshKey(token))
  }

  function OtherNext(w: World, s: OtherStep): World {
    match s
    case Reset(uid) => UpdateTOTP(w, uid, None, false)
    case EditUser(uid, username, hash, active, deleted) =>
      var (secret, enabled) := if uid in w.users then (w.users[uid].secret, w.users[uid].enabled) else (None, false);
      Note(w.(users := w.users[uid := User(username, hash, active, deleted, secret, enabled)]), PasswordSet(uid, hash))
    case Expire(key) => Drop(w, key)
    case Foreign(key, value) => if SpaceOf(key).Elsewhere? then Put(w, key, value) else w
    case Fail(id) => At(w, id, Failed)
  }

  function Next(w: World, s: Step): World {
    match s
    case InLogin(login) => LoginNext(w, login)
    case InVerify(verify) => VerifyNext(w, verify)
    case InSetup(setup) => SetupNext(w, setup)
    case InEnable(enable) => EnableNext(w, enable)
    case InComplete(complete) => CompleteNext(w, complete)
    case InSession(session) => SessionNext(w, session)
    case InOther(other) => OtherNext(w, other)
  }

  function Run(w: World, es: seq<Step>): World {
    if es == [] then w else Next(Run(w, es[..|es| - 1]), es[|es| - 1])
  }

  /** A new installation: no users, no tokens, no requests. */
  predicate Boot(w: World) {
    w.users == map[] && w.store == map[] && w.ops == map[] && w.log == [] && w.used == {}
  }

  // ---------------------------------------------------------------- what every session rests on

  predicate Knows(log: seq<Event>, uid: string) {
    exists k :: 0 <= k < |log| && log[k].PasswordOk? && log[k].uid == uid
  }

  /** A password check and then a valid code, both of this user. */
  predicate Earned(log: seq<Event>, uid: string) {
    exists k, j :: 0 <= k < j < |log| && log[k].PasswordOk? && log[k].uid == uid && log[j].CodeOk? && log[j].uid == uid
  }

  predicate PhaseOk(log: seq<Event>, p: Phase) {
    match p
    case LoginPassed(uid, _) => Knows(log, uid)
    case VerifyGot(_, _, uid) => Knows(log, uid)
    case VerifyPassed(_, uid) => Earned(log, uid)
    case CompleteGot(_, _, uid) => Knows(log, uid)
    case CompleteFound(_, _, uid) => Knows(log, uid)
    case EnablePassed(uid, secret, setup) => SecretMade(uid, secret) in log && (setup.Some? ==> Earned(log, uid))
    case EnableSaved(uid, setup) => setup.Some? ==> Earned(log, uid)
    case CompleteSaved(_, uid) => Earned(log, uid)
    case Issuing(uid, _) => Earned(log, uid)
    case RefreshGot(uid) => Earned(log, uid)
    case _ => true
  }

  predicate KeyOk(log: seq<Event>, key: string, value: string) {
    match SpaceOf(key)
    case Mfa => Knows(log, value)
    case Setup => Knows(log, value)
    case Pending => |key| >= 13 && SecretMade(key[13..], value) in log
    case Refresh => Earned(log, value)
    case Elsewhere => true
  }

  predicate UserOk(log: seq<Event>, uid: string, u: User) {
    && u.enabled == u.secret.Some? && (u.secret.Some? ==> SecretMade(uid, u.secret.value) in log)
    && PasswordSet(uid, u.hash) in log
  }

  predicate EventOk(env: Env, before: seq<Event>, e: Event) {
    match e
    case PasswordOk(uid, hash, password) => env.matches(hash, password) && PasswordSet(uid, hash) in before
    case CodeOk(uid, secret, code, at) => env.validates(code, secret, at) && SecretMade(uid, secret) in before
    case Access(uid) => Earned(before, uid)
    case RefreshStored(uid, _, _) => Earned(before, uid)
    case _ => true
  }

  ghost predicate Inv(w: World) {
    && (forall id :: id in w.ops ==> PhaseOk(w.log, w.ops[id]))
    && (forall key :: key in w.store ==> KeyOk(w.log, key, w.store[key]))
    && (forall uid :: uid in w.users ==> UserOk(w.log, uid, w.users[uid]))
    && (forall i :: 0 <= i < |w.log| ==> EventOk(w.env, w.log[..i], w.log[i]))
  }

  lemma EarnedLater(log: seq<Event>, e: Event, uid: string)
    requires Earned(log, uid)
    ensures Earned(log + [e], uid)
  {
    var k, j :| 0 <= k < j < |log| && log[k].PasswordOk? && log[k].uid == uid && log[j].CodeOk? && log[j].uid == uid;
    assert (log + [e])[k] == log[k] && (log + [e])[j] == log[j];
  }

  lemma KnownLater(log: seq<Event>, e: Event, uid: string)
    requires Knows(log, uid)
    ensures Knows(log + [e], uid)
  {
    var k :| 0 <= k < |log| && log[k].PasswordOk? && log[k].uid == uid;
    assert (log + [e])[k] == log[k];
  }

  lemma EarnedNow(log: seq<Event>, e: Event)
    requires e.CodeOk? && Knows(log, e.uid)
    ensures Earned(log + [e], e.uid)
  {
    var k :| 0 <= k < |log| && log[k].PasswordOk? && log[k].uid == e.uid;
    assert (log + [e])[k] == log[k] && (log + [e])[|log|] == e;
  }

  /** Recording a justified event keeps everything justified. */
  lemma NoteKeeps(w: World, e: Event)
    requires Inv(w) && EventOk(w.env, w.log, e)
    ensures Inv(Note(w, e))
  {
    var log := w.log + [e];
    forall uid | Earned(w.log, uid) ensures Earned(log, uid) { EarnedLater(w.log, e, uid); }
    forall uid | Knows(w.log, uid) ensures Knows(log, uid) { KnownLater(w.log, e, uid); }
    forall i | 0 <= i < |log| ensures EventOk(w.env, log[..i], log[i]) {
      if i < |w.log| {
        assert log[..i] == w.log[..i];
      } else {
        assert log[..i] == w.log;
      }
    }
  }

  lemma AtKeeps(w: World, id: nat, p: Phase)
    requires Inv(w) && PhaseOk(w.log, p)
    ensures Inv(At(w, id, p))
  {
  }

  lemma PutKeeps(w: World, key: string, value: string)
    requires Inv(w) && KeyOk(w.log, key, value)
    ensures Inv(Put(w, key, value))
  {
  }

  lemma DropKeeps(w: World, key: string)
    requires Inv(w)
    ensures Inv(Drop(w, key))
  {
  }

  lemma LoginKeeps(w: World, s: LoginStep)
    requires Inv(w)
    ensures Inv(LoginNext(w, s))
  {
    match s {
      case LoginCheck(id, uid, _, password) =>
        if Usable(w, uid) && w.env.matches(w.users[uid].hash, password) {
          var e := PasswordOk(uid, w.users[uid].hash, password);
          NoteKeeps(w, e);
          assert Note(w, e).log[|w.log|] == e;
          AtKeeps(Note(w, e), id, LoginPassed(uid, w.users[uid].enabled));
        }
        AtKeeps(w, id, Failed);
      case LoginStore(id, token) =>
        var p := PhaseAt(w, id);
        if p.LoginPassed? {
          SpacesAreApart(token);
          var key := if p.enabled then MfaKey(token) else SetupKey(token);
          PutKeeps(w, key, p.uid);
          AtKeeps(Put(w, key, p.uid), id, Done);
        }
    }
  }

  lemma VerifyKeeps(w: World, s: VerifyStep)
    requires Inv(w)
    ensures Inv(VerifyNext(w, s))
  {
    var p := PhaseAt(w, s.id);
    AtKeeps(w, s.id, Failed);
    match s {
      case VerifyGet(id, token, code) =>
        SpacesAreApart(token);
        if MfaKey(token) in w.store {
          AtKeeps(w, id, VerifyGot(token, code, w.store[MfaKey(token)]));
        }
      case VerifyCheck(id, now) =>
        if p.VerifyGot? && Usable(w, p.uid) && w.users[p.uid].secret.Some?
           && w.env.validates(p.code, w.users[p.uid].secret.value, now) {
          var e := CodeOk(p.uid, w.users[p.uid].secret.value, p.code, now);
          NoteKeeps(w, e);
          EarnedNow(w.log, e);
          AtKeeps(Note(w, e), id, VerifyPassed(p.token, p.uid));
        }
      case VerifyDel(id, ok) =>
        if p.VerifyPassed? {
          DropKeeps(w, MfaKey(p.token));
          AtKeeps(if ok then Drop(w, MfaKey(p.token)) else w, id, Issuing(p.uid, MfaKey(p.token)));
        }
    }
  }

  lemma SecretKeeps(w: World, uid: string, secret: string)
    requires Inv(w)
    ensures Inv(NewSecret(w, uid, secret))
  {
    var e := SecretMade(uid, secret);
    SpacesAreApart(uid);
    NoteKeeps(w, e);
    assert Note(w, e).log[|w.log|] == e;
    PutKeeps(Note(w, e), PendingKey(uid), secret);
  }

  lemma SetupKeeps(w: World, s: SetupStep)
    requires Inv(w)
    ensures Inv(SetupNext(w, s))
  {
    match s {
      case SetupGet(id, token) =>
        AtKeeps(w, id, Failed);
        if SetupKey(token) in w.store {
          AtKeeps(w, id, SetupGot(w.store[SetupKey(token)]));
        }
      case SetupFind(id) =>
        var p := PhaseAt(w, id);
        if p.SetupGot? {
          AtKeeps(w, id, if Usable(w, p.uid) then SetupPassed(p.uid) else Failed);
        }
      case SetupStore(id, secret) =>
        var p := PhaseAt(w, id);
        if p.SetupPassed? {
          SecretKeeps(w, p.uid, secret);
          AtKeeps(NewSecret(w, p.uid, secret), id, Done);
        }
      case SetupDirect(uid, secret) =>
        SecretKeeps(w, uid, secret);
    }
  }

  lemma ConfirmKeeps(w: World, id: nat, uid: string, code: string, now: int, setup: Option<string>)
    requires Inv(w) && (setup.Some? ==> Knows(w.log, uid))
    ensures Inv(Confirm(w, id, uid, code, now, setup))
  {
    var key := PendingKey(uid);
    SpacesAreApart(uid);
    if key in w.store && w.env.validates(code, w.store[key], now) {
      var e := CodeOk(uid, w.store[key], code, now);
      assert SecretMade(uid, w.store[key]) in w.log;
      NoteKeeps(w, e);
      if setup.Some? {
        EarnedNow(w.log, e);
      }
      AtKeeps(Note(w, e), id, EnablePassed(uid, w.store[key], setup));
    }
    AtKeeps(w, id, Failed);
  }

  lemma SaveKeeps(w: World, uid: string, secret: Option<string>, enabled: bool)
    requires Inv(w) && (secret.Some? ==> SecretMade(uid, secret.value) in w.log) && enabled == secret.Some?
    ensures Inv(UpdateTOTP(w, uid, secret, enabled))
  {
  }

  lemma EnableKeeps(w: World, s: EnableStep)
    requires Inv(w)
    ensures Inv(EnableNext(w, s))
  {
    var p := PhaseAt(w, s.id);
    match s {
      case EnableCheck(id, uid, code, now) =>
        ConfirmKeeps(w, id, uid, code, now, None);
      case EnableSave(id) =>
        if p.EnablePassed? {
          SaveKeeps(w, p.uid, Some(p.secret), true);
          AtKeeps(UpdateTOTP(w, p.uid, Some(p.secret), true), id, EnableSaved(p.uid, p.setup));
        }
      case EnableDel(id, ok) =>
        if p.EnableSaved? {
          DropKeeps(w, PendingKey(p.uid));
          AtKeeps(if ok then Drop(w, PendingKey(p.uid)) else w, id,
                  if p.setup.Some? then CompleteSaved(p.setup.value, p.uid) else Done);
        }
    }
  }

  lemma CompleteKeeps(w: World, s: CompleteStep)
    requires Inv(w)
    ensures Inv(CompleteNext(w, s))
  {
    var p := PhaseAt(w, s.id);
    match s {
      case CompleteGet(id, token, code) =>
        SpacesAreApart(token);
        AtKeeps(w, id,
                if SetupKey(token) in w.store then CompleteGot(token, code, w.store[SetupKey(token)]) else Failed);
      case CompleteFind(id) =>
        if p.CompleteGot? {
          AtKeeps(w, id, if Usable(w, p.uid) then CompleteFound(p.token, p.code, p.uid) else Failed);
        }
      case CompleteCheck(id, now) =>
        if p.CompleteFound? {
          ConfirmKeeps(w, id, p.uid, p.code, now, Some(p.token));
        }
      case CompleteDel(id, ok) =>
        if p.CompleteSaved? {
          DropKeeps(w, SetupKey(p.token));
          AtKeeps(if ok then Drop(w, SetupKey(p.token)) else w, id, Issuing(p.uid, SetupKey(p.token)));
        }
    }
  }

  lemma IssueKeeps(w: World, id: nat, token: string)
    requires Inv(w)
    ensures Inv(SessionNext(w, Issue(id, token)))
  {
    var p := PhaseAt(w, id);
    if p.Issuing? {
      SpacesAreApart(token);
      PutKeeps(w, RefreshKey(token), p.uid);
      AtKeeps(Put(w, RefreshKey(token), p.uid), id, Done);
      var w1 := At(Put(w, RefreshKey(token), p.uid), id, Done);
      NoteKeeps(w1, Access(p.uid));
      EarnedLater(w.log, Access(p.uid), p.uid);
      NoteKeeps(Note(w1, Access(p.uid)), RefreshStored(p.uid, token, p.via));
    }
  }

  lemma SessionKeeps(w: World, s: SessionStep)
    requires Inv(w)
    ensures Inv(SessionNext(w, s))
  {
    match s {
      case Issue(id, token) =>
        IssueKeeps(w, id, token);
      case RefreshGet(id, token) =>
        SpacesAreApart(token);
        AtKeeps(w, id, if RefreshKey(token) in w.store then RefreshGot(w.store[RefreshKey(token)]) else Failed);
      case RefreshFind(id) =>
        var p := PhaseAt(w, id);
        AtKeeps(w, id, Failed);
        if p.RefreshGot? {
          AtKeeps(w, id, Done);
          NoteKeeps(At(w, id, Done), Access(p.uid));
        }
      case Logout(token) =>
        DropKeeps(w, RefreshKey(token));
    }
  }

  lemma EditKeeps(w: World, s: OtherStep)
    requires Inv(w) && s.EditUser?
    ensures Inv(OtherNext(w, s))
  {
    var e := PasswordSet(s.uid, s.hash);
    NoteKeeps(w, e);
    assert Note(w, e).log[|w.log|] == e;
  }

  lemma OtherKeeps(w: World, s: OtherStep)
    requires Inv(w)
    ensures Inv(OtherNext(w, s))
  {
    match s {
      case Reset(uid) => SaveKeeps(w, uid, None, false);
      case EditUser(uid, username, hash, active, deleted) => EditKeeps(w, s);
      case Expire(key) => DropKeeps(w, key);
      case Foreign(key, value) =>
        if SpaceOf(key).Elsewhere? {
          PutKeeps(w, key, value);
        }
      case Fail(id) => AtKeeps(w, id, Failed);
    }
  }

  lemma NextKeeps(w: World, s: Step)
    requires Inv(w)
    ensures Inv(Next(w, s))
  {
    match s {
      case InLogin(login) => LoginKeeps(w, login);
      case InVerify(verify) => VerifyKeeps(w, verify);
      case InSetup(setup) => SetupKeeps(w, setup);
      case InEnable(enable) => EnableKeeps(w, enable);
      case InComplete(complete) => CompleteKeeps(w, complete);
      case InSession(session) => SessionKeeps(w, session);
      case InOther(other) => OtherKeeps(w, other);
    }
  }

  lemma EnvStays(w: World, s: Step)
    ensures Next(w, s).env == w.env
  {
  }

  lemma {:induction false} RunKeeps(w: World, es: seq<Step>)
    requires Inv(w)
    ensures Inv(Run(w, es)) && Run(w, es).env == w.env
  {
    if es != [] {
      RunKeeps(w, es[..|es| - 1]);
      EnvStays(Run(w, es[..|es| - 1]), es[|es| - 1]);
      NextKeeps(Run(w, es[..|es| - 1]), es[|es| - 1]);
    }
  }

  /** At k a password of this user was right, later at j a code was; and before them the hash was set
      and the secret made, both for this user. */
  predicate Chain(env: Env, log: seq<Event>, uid: string, h: nat, k: nat, m: nat, j: nat) {
    && h < k < j < |log| && m < j
    && log[k].PasswordOk? && log[k].uid == uid && log[h] == PasswordSet(uid, log[k].hash)
    && env.matches(log[k].hash, log[k].password)
    && log[j].CodeOk? && log[j].uid == uid && log[m] == SecretMade(uid, log[j].secret)
    && env.validates(log[j].code, log[j].secret, log[j].at)
  }

  lemma ChainOfEvent(env: Env, log: seq<Event>, i: nat)
    requires i < |log| && (log[i].Access? || log[i].RefreshStored?)
    requires forall n :: 0 <= n < |log| ==> EventOk(env, log[..n], log[n])
    ensures exists h: nat, k: nat, m: nat, j: nat :: j < i && Chain(env, log, log[i].uid, h, k, m, j)
  {
    var uid := log[i].uid;
    var k: nat, j: nat :| k < j < i && log[..i][k].PasswordOk? && log[..i][k].uid == uid &&
                          log[..i][j].CodeOk? && log[..i][j].uid == uid;
    var m: nat :| m < j && log[..j][m] == SecretMade(uid, log[j].secret);
    var h: nat :| h < k && log[..k][h] == PasswordSet(uid, log[k].hash);
    assert Chain(env, log, uid, h, k, m, j);
  }

  /** In every interleaving, an access token handed out and a refresh token stored for a user follow
      a password that matched a hash set for that user and, after that, a code that was valid for a
      secret generated for that same user. */
  lemma SessionsAreEarned(w: World, es: seq<Step>, i: nat)
    requires Boot(w) && i < |Run(w, es).log|
    requires Run(w, es).log[i].Access? || Run(w, es).log[i].RefreshStored?
    ensures exists h: nat, k: nat, m: nat, j: nat ::
              j < i && Chain(w.env, Run(w, es).log, Run(w, es).log[i].uid, h, k, m, j)
  {
    RunKeeps(w, es);
    ChainOfEvent(w.env, Run(w, es).log, i);
  }

  /** A refresh token that can still be used belongs to a user who earned it. */
  lemma RefreshTokensAreEarned(w: World, es: seq<Step>, token: string)
    requires Boot(w) && RefreshKey(token) in Run(w, es).store
    ensures Earned(Run(w, es).log, Run(w, es).store[RefreshKey(token)])
  {
    RunKeeps(w, es);
    SpacesAreApart(token);
  }

  /** Second factor on and secret stored are the same thing, in every reachable state. */
  lemma {:induction false} EnabledExactlyWithSecret(w: World, es: seq<Step>, uid: string)
    requires Boot(w) && uid in Run(w, es).users
    ensures var u := Run(w, es).users[uid]; u.enabled <==> u.secret.Some?
  {
    RunKeeps(w, es);
  }

  // ---------------------------------------------------------------- tokens are used up

  /** The key a step fills with a token drawn at random. */
  function Drawn(w: World, s: Step): Option<string> {
    if s.InLogin? && s.login.LoginStore? && PhaseAt(w, s.login.id).LoginPassed? then
      Some(if PhaseAt(w, s.login.id).enabled then MfaKey(s.login.token) else SetupKey(s.login.token))
    else if s.InSession? && s.session.Issue? && PhaseAt(w, s.session.id).Issuing? then Some(RefreshKey(s.session.token))
    else None
  }

  predicate DrawsNew(w: World, s: Step) { Drawn(w, s).Some? ==> Drawn(w, s).value !in w.used }

  /** Random tokens do not repeat. */
  predicate Fresh(w: World, es: seq<Step>) {
    es == [] || (Fresh(w, es[..|es| - 1]) && DrawsNew(Run(w, es[..|es| - 1]), es[|es| - 1]))
  }

  /** Once handed out and gone from the store. */
  predicate Spent(w: World, key: string) { key in w.used && key !in w.store }

  lemma SetupAdds(w: World, s: SetupStep, key: string)
    requires Spent(w, key) && !SpaceOf(key).Pending?
    ensures Spent(SetupNext(w, s), key)
  {
    match s {
      case SetupStore(id, _) =>
        if PhaseAt(w, id).SetupPassed? {
          SpacesAreApart(PhaseAt(w, id).uid);
        }
      case SetupDirect(uid, _) => SpacesAreApart(uid);
      case _ =>
    }
  }

  lemma OtherAdds(w: World, s: OtherStep, key: string)
    requires Spent(w, key) && !SpaceOf(key).Elsewhere?
    ensures Spent(OtherNext(w, s), key)
  {
  }

  lemma NextSpent(w: World, s: Step, key: string)
    requires Spent(w, key) && !SpaceOf(key).Pending? && !SpaceOf(key).Elsewhere? && DrawsNew(w, s)
    ensures Spent(Next(w, s), key)
  {
    match s {
      case InSetup(setup) => SetupAdds(w, setup, key);
      case InOther(other) => OtherAdds(w, other, key);
      case _ =>
    }
  }

  /** A token that has been spent stays spent, whatever runs next. */
  lemma {:induction false} SpentForGood(w: World, es: seq<Step>, key: string)
    requires Spent(w, key) && !SpaceOf(key).Pending? && !SpaceOf(key).Elsewhere? && Fresh(w, es)
    ensures Spent(Run(w, es), key)
  {
    if es != [] {
      SpentForGood(w, es[..|es| - 1], key);
      NextSpent(Run(w, es[..|es| - 1]), es[|es| - 1], key);
    }
  }

  /** Every key a request can hold was put in the store at some time. */
  predicate PhaseHanded(used: set<string>, p: Phase) {
    match p
    case VerifyGot(token, _, _) => MfaKey(token) in used
    case VerifyPassed(token, _) => MfaKey(token) in used
    case CompleteGot(token, _, _) => SetupKey(token) in used
    case CompleteFound(token, _, _) => SetupKey(token) in used
    case EnablePassed(_, _, setup) => setup.Some? ==> SetupKey(setup.value) in used
    case EnableSaved(_, setup) => setup.Some? ==> SetupKey(setup.value) in used
    case CompleteSaved(token, _) => SetupKey(token) in used
    case Issuing(_, via) => via in used
    case _ => true
  }

  ghost predicate Handed(w: World) {
    w.store.Keys <= w.used && forall id :: id in w.ops ==> PhaseHanded(w.used, w.ops[id])
  }

  lemma NextHanded(w: World, s: Step)
    requires Handed(w)
    ensures Handed(Next(w, s))
  {
    match s {
      case InLogin(login) => HandedLogin(w, login);
      case InVerify(verify) => HandedVerify(w, verify);
      case InSetup(setup) => HandedSetup(w, setup);
      case InEnable(enable) => HandedEnable(w, enable);
      case InComplete(complete) => HandedComplete(w, complete);
      case InSession(session) => HandedSession(w, session);
      case InOther(other) => HandedOther(w, other);
    }
  }

  lemma HandedLogin(w: World, s: LoginStep)
    requires Handed(w)
    ensures Handed(LoginNext(w, s))
  {
  }

  lemma HandedVerify(w: World, s: VerifyStep)
    requires Handed(w)
    ensures Handed(VerifyNext(w, s))
  {
  }

  lemma HandedSetup(w: World, s: SetupStep)
    requires Handed(w)
    ensures Handed(SetupNext(w, s))
  {
  }

  lemma HandedEnable(w: World, s: EnableStep)
    requires Handed(w)
    ensures Handed(EnableNext(w, s))
  {
  }

  lemma HandedComplete(w: World, s: CompleteStep)
    requires Handed(w)
    ensures Handed(CompleteNext(w, s))
  {
  }

  lemma HandedSession(w: World, s: SessionStep)
    requires Handed(w)
    ensures Handed(SessionNext(w, s))
  {
  }

  lemma HandedOther(w: World, s: OtherStep)
    requires Handed(w)
    ensures Handed(OtherNext(w, s))
  {
  }

  lemma {:induction false} RunHanded(w: World, es: seq<Step>)
    requires Handed(w)
    ensures Handed(Run(w, es))
  {
    if es != [] {
      RunHanded(w, es[..|es| - 1]);
      NextHanded(Run(w, es[..|es| - 1]), es[|es| - 1]);
    }
  }

  /** After Logout of a token that was handed out, every later attempt to refresh with it fails, in
      every interleaving. */
  lemma LogoutIsFinal(w: World, token: string, es: seq<Step>, id: nat)
    requires RefreshKey(token) in w.used && Fresh(SessionNext(w, Logout(token)), es)
    ensures var w' := Run(SessionNext(w, Logout(token)), es);
            PhaseAt(SessionNext(w', RefreshGet(id, token)), id) == Failed
  {
    SpacesAreApart(token);
    SpentForGood(Drop(w, RefreshKey(token)), es, RefreshKey(token));
  }

  /** A verification that has deleted its MFA token makes every later start with that token fail. */
  lemma MfaTokenIsUsedUp(start: World, pre: seq<Step>, id: nat, es: seq<Step>, id': nat, code: string)
    requires Boot(start) && PhaseAt(Run(start, pre), id).VerifyPassed?
    requires Fresh(VerifyNext(Run(start, pre), VerifyDel(id, true)), es)
    ensures var w := Run(start, pre);
            var w' := Run(VerifyNext(w, VerifyDel(id, true)), es);
            PhaseAt(VerifyNext(w', VerifyGet(id', PhaseAt(w, id).token, code)), id') == Failed
  {
    RunHanded(start, pre);
    var w := Run(start, pre);
    SpacesAreApart(PhaseAt(w, id).token);
    SpentForGood(VerifyNext(w, VerifyDel(id, true)), es, MfaKey(PhaseAt(w, id).token));
  }

  /** The same of the token of a compulsory enrolment. */
  lemma SetupTokenIsUsedUp(start: World, pre: seq<Step>, id: nat, es: seq<Step>, id': nat, code: string)
    requires Boot(start) && PhaseAt(Run(start, pre), id).CompleteSaved?
    requires Fresh(CompleteNext(Run(start, pre), CompleteDel(id, true)), es)
    ensures var w := Run(start, pre);
            var w' := Run(CompleteNext(w, CompleteDel(id, true)), es);
            PhaseAt(CompleteNext(w', CompleteGet(id', PhaseAt(w, id).token, code)), id') == Failed
  {
    RunHanded(start, pre);
    var w := Run(start, pre);
    SpacesAreApart(PhaseAt(w, id).token);
    SpentForGood(CompleteNext(w, CompleteDel(id, true)), es, SetupKey(PhaseAt(w, id).token));
  }

  // ---------------------------------------------------------------- why "serial" is needed

  /** One verification up to its first write, and the rest of it. */
  function Checked(w: World, id: nat, token: string, code: string, now: int): World {
    VerifyNext(VerifyNext(w, VerifyGet(id, token, code)), VerifyCheck(id, now))
  }

  function Finished(w: World, id: nat, refresh: string): World {
    SessionNext(VerifyNext(w, VerifyDel(id, true)), Issue(id, refresh))
  }

  lemma CheckedPasses(w: World, id: nat, token: string, code: string, now: int)
    requires MfaKey(token) in w.store && Usable(w, w.store[MfaKey(token)])
    requires w.users[w.store[MfaKey(token)]].secret.Some?
    requires w.env.validates(code, w.users[w.store[MfaKey(token)]].secret.value, now)
    ensures var w' := Checked(w, id, token, code, now);
            && w'.store == w.store && w'.users == w.users && w'.env == w.env
            && PhaseAt(w', id) == VerifyPassed(token, w.store[MfaKey(token)])
            && forall other :: other != id ==> PhaseAt(w', other) == PhaseAt(w, other)
  {
  }

  lemma FinishedIssues(w: World, id: nat, refresh: string)
    requires PhaseAt(w, id).VerifyPassed?
    ensures var w', p := Finished(w, id, refresh), PhaseAt(w, id);
            && w'.log == w.log + [Access(p.uid), RefreshStored(p.uid, refresh, MfaKey(p.token))]
            && w'.store == (w.store - {MfaKey(p.token)})[RefreshKey(refresh) := p.uid]
            && forall other :: other != id ==> PhaseAt(w', other) == PhaseAt(w, other)
  {
  }

  /** Two verifications of one MFA token that both read it before either deletes it both end with a
      session: reading and deleting the token are two calls. */
  lemma InterleavedVerifiesBothSucceed(w: World, token: string, code: string, now: int,
                                      a: nat, b: nat, x: string, y: string)
    requires a != b && x != y && MfaKey(token) in w.store && Usable(w, w.store[MfaKey(token)])
    requires w.users[w.store[MfaKey(token)]].secret.Some?
    requires w.env.validates(code, w.users[w.store[MfaKey(token)]].secret.value, now)
    ensures var uid := w.store[MfaKey(token)];
            var w' := Finished(Finished(Checked(Checked(w, a, token, code, now), b, token, code, now), a, x), b, y);
            && RefreshStored(uid, x, MfaKey(token)) in w'.log && RefreshStored(uid, y, MfaKey(token)) in w'.log
            && RefreshKey(x) in w'.store && w'.store[RefreshKey(x)] == uid
            && RefreshKey(y) in w'.store && w'.store[RefreshKey(y)] == uid
  {
    var uid := w.store[MfaKey(token)];
    CheckedPasses(w, a, token, code, now);
    var w1 := Checked(w, a, token, code, now);
    CheckedPasses(w1, b, token, code, now);
    var w2 := Checked(w1, b, token, code, now);
    FinishedIssues(w2, a, x);
    var w3 := Finished(w2, a, x);
    FinishedIssues(w3, b, y);
    assert w3.log[|w3.log| - 1] == RefreshStored(uid, x, MfaKey(token));
    var w4 := Finished(w3, b, y);
    assert w4.log[|w3.log| - 1] == RefreshStored(uid, x, MfaKey(token)) &&
           w4.log[|w3.log| + 1] == RefreshStored(uid, y, MfaKey(token));
    SpacesAreApart(token);
    SpacesAreApart(x);
    assert RefreshKey(x)[8..] == x && RefreshKey(y)[8..] == y;
  }
}
