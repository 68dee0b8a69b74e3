/** How often one MFA or setup token yields a session (service/auth/service.go). Reading a token and
    deleting it are two calls, and the result of the deletion is ignored: with at most k requests at a
    time holding the token, and f deletions of it failing, it yields at most k + f sessions, and no
    smaller bound holds. */
module SingleUse {
  import opened Common
  import opened Auth

  /** Sessions handed out on the strength of the token stored under key. */
  function Sessions(log: seq<Event>, key: string): nat {
    if log == [] then 0
    else Sessions(log[..|log| - 1], key)
         + if log[|log| - 1].RefreshStored? && log[|log| - 1].via == key then 1 else 0
  }

  lemma SessionsNote(w: World, e: Event, key: string)
    ensures Sessions(Note(w, e).log, key) == Sessions(w.log, key) + if e.RefreshStored? && e.via == key then 1 else 0
  {
    assert (w.log + [e])[..|w.log|] == w.log;
  }

  // ---------------------------------------------------------------- who has the token

  /** The request has read the token under key and not yet deleted it. */
  predicate Holds(p: Phase, key: string) {
    match p
    case VerifyGot(token, _, _) => MfaKey(token) == key
    case VerifyPassed(token, _) => MfaKey(token) == key
    case CompleteGot(token, _, _) => SetupKey(token) == key
    case CompleteFound(token, _, _) => SetupKey(token) == key
    case EnablePassed(_, _, setup) => setup.Some? && SetupKey(setup.value) == key
    case EnableSaved(_, setup) => setup.Some? && SetupKey(setup.value) == key
    case CompleteSaved(token, _) => SetupKey(token) == key
    case _ => false
  }

  /** The request is past the deletion and about to hand out its session. */
  predicate Issues(p: Phase, key: string) { p.Issuing? && p.via == key }

  ghost function Issuers(w: World, key: string): set<nat> {
    set id | id in w.ops && Issues(w.ops[id], key)
  }

  /** Everybody between reading the token and handing out a session. */
  ghost function Holders(w: World, key: string): set<nat> {
    set id | id in w.ops && (Holds(w.ops[id], key) || Issues(w.ops[id], key))
  }

  ghost predicate AtMostHolders(w0: World, es: seq<Step>, key: string, k: nat) {
    forall n :: 0 <= n <= |es| ==> |Holders(Run(w0, es[..n]), key)| <= k
  }

  /** This step is a deletion of the token, and it fails. */
  predicate FailsToDelete(w: World, s: Step, key: string) {
    || (&& s.InVerify? && s.verify.VerifyDel? && !s.verify.ok
        && PhaseAt(w, s.verify.id).VerifyPassed? && Holds(PhaseAt(w, s.verify.id), key))
    || (&& s.InComplete? && s.complete.CompleteDel? && !s.complete.ok
        && PhaseAt(w, s.complete.id).CompleteSaved? && Holds(PhaseAt(w, s.complete.id), key))
  }

  function FailedDeletes(w0: World, es: seq<Step>, key: string): nat {
    if es == [] then 0
    else FailedDeletes(w0, es[..|es| - 1], key)
         + if FailsToDelete(Run(w0, es[..|es| - 1]), es[|es| - 1], key) then 1 else 0
  }

  // ---------------------------------------------------------------- what one step moves

  /** Only request id moves, nothing is handed out, the token is read only from the store, and a holder
      comes to issue only when the token is gone or its deletion has failed. */
  ghost predicate Moved(w: World, w': World, id: nat, key: string, failed: bool) {
    && Sessions(w'.log, key) == Sessions(w.log, key)
    && (forall o :: o != id ==> PhaseAt(w', o) == PhaseAt(w, o))
    && var p, p' := PhaseAt(w, id), PhaseAt(w', id);
       && (Holds(p', key) ==> Holds(p, key) || key in w'.store)
       && (Issues(p', key) ==> p' == p || (Holds(p, key) && (failed || key !in w'.store)))
  }

  ghost predicate MovesOne(w: World, w': World, key: string, failed: bool) {
    exists id :: Moved(w, w', id, key, failed)
  }

  lemma LoginMoves(w: World, s: LoginStep, key: string)
    ensures MovesOne(w, LoginNext(w, s), key, false)
  {
    if s.LoginCheck? && s.uid in w.users {
      SessionsNote(w, PasswordOk(s.uid, w.users[s.uid].hash, s.password), key);
    }
    assert Moved(w, LoginNext(w, s), s.id, key, false);
  }

  lemma VerifyMoves(w: World, s: VerifyStep, key: string)
    ensures MovesOne(w, VerifyNext(w, s), key, FailsToDelete(w, InVerify(s), key))
  {
    var p := PhaseAt(w, s.id);
    if s.VerifyCheck? && p.VerifyGot? && p.uid in w.users && w.users[p.uid].secret.Some? {
      SessionsNote(w, CodeOk(p.uid, w.users[p.uid].secret.value, p.code, s.now), key);
    }
    assert Moved(w, VerifyNext(w, s), s.id, key, FailsToDelete(w, InVerify(s), key));
  }

  lemma SecretMoves(w: World, uid: string, secret: string, key: string)
    ensures Sessions(NewSecret(w, uid, secret).log, key) == Sessions(w.log, key)
    ensures NewSecret(w, uid, secret).ops == w.ops
  {
    SessionsNote(Put(w, PendingKey(uid), secret), SecretMade(uid, secret), key);
  }

  lemma SetupMoves(w: World, s: SetupStep, key: string)
    ensures MovesOne(w, SetupNext(w, s), key, false)
  {
    match s {
      case SetupStore(id, secret) =>
        if PhaseAt(w, id).SetupPassed? {
          SecretMoves(w, PhaseAt(w, id).uid, secret, key);
        }
        assert Moved(w, SetupNext(w, s), id, key, false);
      case SetupDirect(uid, secret) =>
        SecretMoves(w, uid, secret, key);
        assert Moved(w, SetupNext(w, s), 0, key, false);
      case _ =>
        assert Moved(w, SetupNext(w, s), s.id, key, false);
    }
  }

  lemma ConfirmMoves(w: World, id: nat, uid: string, code: string, now: int, setup: Option<string>, key: string)
    requires setup.Some? && SetupKey(setup.value) == key ==> Holds(PhaseAt(w, id), key)
    ensures Moved(w, Confirm(w, id, uid, code, now, setup), id, key, false)
  {
    var pending := PendingKey(uid);
    if pending in w.store && w.env.validates(code, w.store[pending], now) {
      var w1 := At(w, id, EnablePassed(uid, w.store[pending], setup));
      SessionsNote(w1, CodeOk(uid, w.store[pending], code, now), key);
    } else {
      assert Confirm(w, id, uid, code, now, setup) == At(w, id, Failed);
    }
  }

  lemma EnableMoves(w: World, s: EnableStep, key: string)
    ensures MovesOne(w, EnableNext(w, s), key, false)
  {
    if s.EnableCheck? {
      ConfirmMoves(w, s.id, s.uid, s.code, s.now, None, key);
    }
    assert Moved(w, EnableNext(w, s), s.id, key, false);
  }

  lemma CompleteMoves(w: World, s: CompleteStep, key: string)
    ensures MovesOne(w, CompleteNext(w, s), key, FailsToDelete(w, InComplete(s), key))
  {
    var p := PhaseAt(w, s.id);
    if s.CompleteCheck? && p.CompleteFound? {
      ConfirmMoves(w, s.id, p.uid, p.code, s.now, Some(p.token), key);
    }
    assert Moved(w, CompleteNext(w, s), s.id, key, FailsToDelete(w, InComplete(s), key));
  }

  lemma RefreshMoves(w: World, id: nat, key: string)
    ensures Moved(w, SessionNext(w, RefreshFind(id)), id, key, false)
  {
    if PhaseAt(w, id).RefreshGot? {
      SessionsNote(At(w, id, Done), Access(PhaseAt(w, id).uid), key);
    }
  }

  lemma SessionMoves(w: World, s: SessionStep, key: string)
    requires !s.Issue?
    ensures MovesOne(w, SessionNext(w, s), key, false)
  {
    match s {
      case RefreshFind(id) =>
        RefreshMoves(w, id, key);
      case RefreshGet(id, _) =>
        assert Moved(w, SessionNext(w, s), id, key, false);
      case Logout(_) =>
        assert Moved(w, SessionNext(w, s), 0, key, false);
    }
  }

  lemma OtherMoves(w: World, s: OtherStep, key: string)
    ensures MovesOne(w, OtherNext(w, s), key, false)
  {
    if s.EditUser? {
      SessionsNote(w, PasswordSet(s.uid, s.hash), key);
    }
    assert Moved(w, OtherNext(w, s), if s.Fail? then s.id else 0, key, false);
  }

  lemma StepMoves(w: World, s: Step, key: string)
    requires !(s.InSession? && s.session.Issue?)
    ensures MovesOne(w, Next(w, s), key, FailsToDelete(w, s, key))
  {
    match s {
      case InLogin(login) => LoginMoves(w, login, key);
      case InVerify(verify) => VerifyMoves(w, verify, key);
      case InSetup(setup) => SetupMoves(w, setup, key);
      case InEnable(enable) => EnableMoves(w, enable, key);
      case InComplete(complete) => CompleteMoves(w, complete, key);
      case InSession(session) => SessionMoves(w, session, key);
      case InOther(other) => OtherMoves(w, other, key);
    }
  }

  /** What a step that hands nothing out does to the two sets. */
  lemma MovedSets(w: World, w': World, id: nat, key: string, failed: bool)
    requires Moved(w, w', id, key, failed)
    ensures Holders(w', key) <= Holders(w, key) || key in w'.store
    ensures |Issuers(w', key)| <= |Issuers(w, key)| + (if failed then 1 else 0) || key !in w'.store
  {
    forall o | o in Holders(w', key) ensures o in Holders(w, key) || key in w'.store {
      assert PhaseAt(w', o) == w'.ops[o];
    }
    if key in w'.store {
      assert Issuers(w', key) <= Issuers(w, key) + (if failed then {id} else {}) by {
        forall o | o in Issuers(w', key) ensures o in Issuers(w, key) || (failed && o == id) {
          assert PhaseAt(w', o) == w'.ops[o];
        }
      }
      SubsetSize(Issuers(w', key), Issuers(w, key) + (if failed then {id} else {}));
    }
  }

  lemma IssueCounts(w: World, id: nat, token: string, key: string)
    requires PhaseAt(w, id).Issuing?
    ensures var w' := SessionNext(w, Issue(id, token));
            && Sessions(w'.log, key) == Sessions(w.log, key) + (if PhaseAt(w, id).via == key then 1 else 0)
            && w'.ops == w.ops[id := Done]
  {
    var p := PhaseAt(w, id);
    var w1 := At(Put(w, RefreshKey(token), p.uid), id, Done);
    SessionsNote(w1, Access(p.uid), key);
    SessionsNote(Note(w1, Access(p.uid)), RefreshStored(p.uid, token, p.via), key);
  }

  lemma DoneLeaves(w: World, w': World, id: nat, key: string)
    requires id in w.ops && w'.ops == w.ops[id := Done]
    ensures Issuers(w', key) == Issuers(w, key) - {id} && Holders(w', key) == Holders(w, key) - {id}
  {
  }

  /** A step that hands out a session takes its request out of both sets. */
  lemma IssueMoves(w: World, id: nat, token: string, key: string)
    ensures var w' := SessionNext(w, Issue(id, token));
            && Sessions(w'.log, key) + |Issuers(w', key)| <= Sessions(w.log, key) + |Issuers(w, key)|
            && Sessions(w'.log, key) + |Holders(w', key)| <= Sessions(w.log, key) + |Holders(w, key)|
  {
    var w' := SessionNext(w, Issue(id, token));
    if PhaseAt(w, id).Issuing? {
      IssueCounts(w, id, token, key);
      DoneLeaves(w, w', id, key);
      if PhaseAt(w, id).via == key {
        assert id in Issuers(w, key) && id in Holders(w, key);
      } else {
        SubsetSize(Issuers(w', key), Issuers(w, key));
        SubsetSize(Holders(w', key), Holders(w, key));
      }
    }
  }

  // ---------------------------------------------------------------- the bound

  predicate TokenSpace(key: string) { SpaceOf(key).Mfa? || SpaceOf(key).Setup? }

  /** With f failed deletions so far: as long as the token is not spent only they can have led to
      sessions; and in any case sessions and those who can still hand one out number at most k + f. */
  ghost predicate Bounded(w: World, key: string, k: nat, f: nat) {
    && (!Spent(w, key) ==> Sessions(w.log, key) + |Issuers(w, key)| <= f)
    && Sessions(w.log, key) + |Holders(w, key)| <= f + k
  }

  lemma UnusedHasNoHolders(w: World, key: string)
    requires Handed(w) && key !in w.used
    ensures Holders(w, key) == {} && Issuers(w, key) == {}
  {
    forall id | id in w.ops ensures !Holds(w.ops[id], key) && !Issues(w.ops[id], key) {
      assert PhaseHanded(w.used, w.ops[id]);
    }
  }

  lemma MoveKeepsBound(w: World, w': World, key: string, k: nat, f: nat, failed: bool)
    requires MovesOne(w, w', key, failed) && Bounded(w, key, k, f) && Handed(w')
    requires Spent(w, key) ==> Spent(w', key)
    requires |Holders(w', key)| <= k
    ensures Bounded(w', key, k, if failed then f + 1 else f)
  {
    var id :| Moved(w, w', id, key, failed);
    MovedSets(w, w', id, key, failed);
    if key !in w'.store {
      SubsetSize(Holders(w', key), Holders(w, key));
      if key !in w'.used {
        UnusedHasNoHolders(w', key);
      }
    }
  }

  lemma StepKeepsBound(w: World, s: Step, key: string, k: nat, f: nat)
    requires Bounded(w, key, k, f) && Handed(w) && TokenSpace(key) && DrawsNew(w, s)
    requires |Holders(Next(w, s), key)| <= k
    ensures Bounded(Next(w, s), key, k, if FailsToDelete(w, s, key) then f + 1 else f)
  {
    NextHanded(w, s);
    if Spent(w, key) {
      NextSpent(w, s, key);
    }
    if s.InSession? && s.session.Issue? {
      IssueMoves(w, s.session.id, s.session.token, key);
      IssueLeavesToken(w, s.session.id, s.session.token, key);
    } else {
      StepMoves(w, s, key);
      MoveKeepsBound(w, Next(w, s), key, k, f, FailsToDelete(w, s, key));
    }
  }

  lemma IssueLeavesToken(w: World, id: nat, token: string, key: string)
    requires TokenSpace(key)
    ensures Spent(w, key) <==> Spent(SessionNext(w, Issue(id, token)), key)
  {
    SpacesAreApart(token);
  }

  lemma {:induction false} BoundRun(w0: World, es: seq<Step>, key: string, k: nat)
    requires Boot(w0) && Fresh(w0, es) && TokenSpace(key) && AtMostHolders(w0, es, key, k)
    ensures Bounded(Run(w0, es), key, k, FailedDeletes(w0, es, key))
  {
    if es == [] {
      assert Holders(w0, key) == {} && Issuers(w0, key) == {};
    } else {
      var pre, s := es[..|es| - 1], es[|es| - 1];
      HoldersPrefix(w0, es, key, k);
      BoundRun(w0, pre, key, k);
      RunHanded(w0, pre);
      StepKeepsBound(Run(w0, pre), s, key, k, FailedDeletes(w0, pre, key));
    }
  }

  lemma HoldersPrefix(w0: World, es: seq<Step>, key: string, k: nat)
    requires AtMostHolders(w0, es, key, k) && es != []
    ensures AtMostHolders(w0, es[..|es| - 1], key, k) && |Holders(Run(w0, es), key)| <= k
  {
    var pre := es[..|es| - 1];
    forall n | 0 <= n <= |pre| ensures |Holders(Run(w0, pre[..n]), key)| <= k {
      assert pre[..n] == es[..n];
    }
    assert es[..|es|] == es;
  }

  /** In every run with fresh tokens, at most k requests holding the token at a time and f of its
      deletions failing, a token yields at most k + f sessions. */
  lemma SessionsAreBounded(w0: World, es: seq<Step>, key: string, k: nat)
    requires Boot(w0) && Fresh(w0, es) && TokenSpace(key) && AtMostHolders(w0, es, key, k)
    ensures Sessions(Run(w0, es).log, key) <= k + FailedDeletes(w0, es, key)
  {
    BoundRun(w0, es, key, k);
  }

  /** So when one request at a time holds it and its deletions succeed, it is good for one session,
      whatever other requests do with other tokens. */
  lemma SerialSingleUse(w0: World, es: seq<Step>, key: string)
    requires Boot(w0) && Fresh(w0, es) && TokenSpace(key) && AtMostHolders(w0, es, key, 1)
    requires FailedDeletes(w0, es, key) == 0
    ensures Sessions(Run(w0, es).log, key) <= 1
  {
    SessionsAreBounded(w0, es, key, 1);
  }

  /** The result of the deletion is ignored: a verification whose deletion fails hands out its session
      and leaves the token as good as before. */
  lemma UndeletedTokenStays(w: World, id: nat, refresh: string)
    requires PhaseAt(w, id).VerifyPassed? && MfaKey(PhaseAt(w, id).token) in w.store
    ensures var p := PhaseAt(w, id);
            var w' := SessionNext(VerifyNext(w, VerifyDel(id, false)), Issue(id, refresh));
            && Sessions(w'.log, MfaKey(p.token)) == Sessions(w.log, MfaKey(p.token)) + 1
            && MfaKey(p.token) in w'.store && w'.store[MfaKey(p.token)] == w.store[MfaKey(p.token)]
  {
    var p := PhaseAt(w, id);
    var w1 := VerifyNext(w, VerifyDel(id, false));
    IssueCounts(w1, id, refresh, MfaKey(p.token));
    assert MfaKey(p.token)[0] == 'm' && RefreshKey(refresh)[0] == 'r';
  }
}
