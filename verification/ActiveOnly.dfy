/** Sessions only for present, active users (service/auth/service.go). The account is looked up once per
    request; what happens to it afterwards does not stop that request. */
module ActiveOnly {
  import opened Common
  import opened Auth

  /** The step in which request id looks its user up. */
  predicate IsLookUp(s: Step, id: nat) {
    || (s.InVerify? && s.verify.VerifyCheck? && s.verify.id == id)
    || (s.InComplete? && s.complete.CompleteFind? && s.complete.id == id)
    || (s.InSession? && s.session.RefreshFind? && s.session.id == id)
  }

  /** Step m is request id's look-up of this user, and finds the row there, active and not deleted. */
  ghost predicate LooksUp(w0: World, es: seq<Step>, m: nat, id: nat, uid: string) {
    && m < |es| && IsLookUp(es[m], id)
    && var users := Run(w0, es[..m]).users;
       uid in users && users[uid].active && !users[uid].deleted
  }

  ghost predicate WasActive(w0: World, es: seq<Step>, id: nat, uid: string) {
    exists m: nat :: LooksUp(w0, es, m, id, uid)
  }

  /** The user on whose behalf a request goes on after its look-up. */
  function OnBehalf(p: Phase): Option<string> {
    match p
    case VerifyPassed(_, uid) => Some(uid)
    case CompleteFound(_, _, uid) => Some(uid)
    case EnablePassed(uid, _, setup) => if setup.Some? then Some(uid) else None
    case EnableSaved(uid, setup) => if setup.Some? then Some(uid) else None
    case CompleteSaved(_, uid) => Some(uid)
    case Issuing(uid, _) => Some(uid)
    case _ => None
  }

  lemma LookUpStays(w0: World, es: seq<Step>, s: Step, id: nat, uid: string)
    requires WasActive(w0, es, id, uid)
    ensures WasActive(w0, es + [s], id, uid)
  {
    var m: nat :| LooksUp(w0, es, m, id, uid);
    assert (es + [s])[m] == es[m] && (es + [s])[..m] == es[..m];
    assert LooksUp(w0, es + [s], m, id, uid);
  }

  /** A request goes on for the same user as before, or has just found an active one. */
  ghost predicate GoesOn(w: World, s: Step, id: nat) {
    var p, p' := OnBehalf(PhaseAt(w, id)), OnBehalf(PhaseAt(Next(w, s), id));
    p'.Some? ==>
      || p' == p
      || (IsLookUp(s, id) && p'.value in w.users && w.users[p'.value].active && !w.users[p'.value].deleted)
  }

  lemma CompleteGoesOn(w: World, s: CompleteStep, id: nat)
    ensures GoesOn(w, InComplete(s), id)
  {
    var w' := CompleteNext(w, s);
    if id != s.id {
      assert PhaseAt(w', id) == PhaseAt(w, id);
    }
  }

  lemma EnableGoesOn(w: World, s: EnableStep, id: nat)
    ensures GoesOn(w, InEnable(s), id)
  {
    var w' := EnableNext(w, s);
    if id != s.id {
      assert PhaseAt(w', id) == PhaseAt(w, id);
    }
  }

  lemma VerifyGoesOn(w: World, s: VerifyStep, id: nat)
    ensures GoesOn(w, InVerify(s), id)
  {
    var w' := VerifyNext(w, s);
    if id != s.id {
      assert PhaseAt(w', id) == PhaseAt(w, id);
    }
  }

  /** These leave the phases of others alone and put their own request on nobody's behalf. */
  lemma LoginGoesOn(w: World, s: LoginStep, id: nat)
    ensures GoesOn(w, InLogin(s), id)
  {
    assert OnBehalf(PhaseAt(LoginNext(w, s), id)).Some? ==> PhaseAt(LoginNext(w, s), id) == PhaseAt(w, id);
  }

  lemma SetupGoesOn(w: World, s: SetupStep, id: nat)
    ensures GoesOn(w, InSetup(s), id)
  {
    assert OnBehalf(PhaseAt(SetupNext(w, s), id)).Some? ==> PhaseAt(SetupNext(w, s), id) == PhaseAt(w, id);
  }

  lemma SessionGoesOn(w: World, s: SessionStep, id: nat)
    ensures GoesOn(w, InSession(s), id)
  {
    assert OnBehalf(PhaseAt(SessionNext(w, s), id)).Some? ==> PhaseAt(SessionNext(w, s), id) == PhaseAt(w, id);
  }

  lemma OtherGoesOn(w: World, s: OtherStep, id: nat)
    ensures GoesOn(w, InOther(s), id)
  {
    assert OnBehalf(PhaseAt(OtherNext(w, s), id)).Some? ==> PhaseAt(OtherNext(w, s), id) == PhaseAt(w, id);
  }

  lemma StepGoesOn(w: World, s: Step, id: nat)
    ensures GoesOn(w, s, id)
  {
    match s {
      case InLogin(login) => LoginGoesOn(w, login, id);
      case InVerify(verify) => VerifyGoesOn(w, verify, id);
      case InSetup(setup) => SetupGoesOn(w, setup, id);
      case InEnable(enable) => EnableGoesOn(w, enable, id);
      case InComplete(complete) => CompleteGoesOn(w, complete, id);
      case InSession(session) => SessionGoesOn(w, session, id);
      case InOther(other) => OtherGoesOn(w, other, id);
    }
  }

  lemma {:induction false} OnBehalfOfActive(w0: World, es: seq<Step>, id: nat)
    requires Boot(w0)
    ensures var p := OnBehalf(PhaseAt(Run(w0, es), id)); p.Some? ==> WasActive(w0, es, id, p.value)
  {
    if es != [] {
      var pre, s := es[..|es| - 1], es[|es| - 1];
      var w := Run(w0, pre);
      OnBehalfOfActive(w0, pre, id);
      StepGoesOn(w, s, id);
      assert pre + [s] == es;
      var p, p' := OnBehalf(PhaseAt(w, id)), OnBehalf(PhaseAt(Next(w, s), id));
      if p'.Some? {
        if p' == p {
          LookUpStays(w0, pre, s, id, p'.value);
        } else {
          assert LooksUp(w0, es, |pre|, id, p'.value);
        }
      }
    }
  }

  /** The step hands an access token out to this user. */
  ghost predicate HandsOut(w: World, s: Step, uid: string) {
    |w.log| < |Next(w, s).log| && Next(w, s).log[|w.log|] == Access(uid)
  }

  lemma OthersHandNothingOut(w: World, s: Step, uid: string)
    requires !(s.InSession? && (s.session.Issue? || s.session.RefreshFind?))
    ensures !HandsOut(w, s, uid)
  {
    var w' := Next(w, s);
    if |w.log| < |w'.log| {
      assert !w'.log[|w.log|].Access?;
    }
  }

  lemma SessionHandsOut(w: World, s: SessionStep, uid: string)
    requires (s.Issue? || s.RefreshFind?) && HandsOut(w, InSession(s), uid)
    ensures s.Issue? ==> PhaseAt(w, s.id).Issuing? && PhaseAt(w, s.id).uid == uid
    ensures s.RefreshFind? ==> uid in w.users && w.users[uid].active && !w.users[uid].deleted
  {
    assert Next(w, InSession(s)) == SessionNext(w, s);
  }

  /** In every interleaving, whenever an access token is handed out, the request it is handed out for has
      looked its user up and found the row there, active and not deleted; a refresh does so in that very
      step. */
  lemma AccessIsForActiveUsers(w0: World, es: seq<Step>, n: nat, uid: string)
    requires Boot(w0) && n < |es| && HandsOut(Run(w0, es[..n]), es[n], uid)
    ensures es[n].InSession? && (es[n].session.Issue? || es[n].session.RefreshFind?)
    ensures exists m: nat ::
              && m <= n && IsLookUp(es[m], es[n].session.id) && (es[n].session.RefreshFind? ==> m == n)
              && var users := Run(w0, es[..m]).users;
                 uid in users && users[uid].active && !users[uid].deleted
  {
    var w := Run(w0, es[..n]);
    if !(es[n].InSession? && (es[n].session.Issue? || es[n].session.RefreshFind?)) {
      OthersHandNothingOut(w, es[n], uid);
    }
    SessionHandsOut(w, es[n].session, uid);
    if es[n].session.Issue? {
      OnBehalfOfActive(w0, es[..n], es[n].session.id);
      EarlierLookUp(w0, es, n, es[n].session.id, uid);
    }
  }

  lemma EarlierLookUp(w0: World, es: seq<Step>, n: nat, id: nat, uid: string)
    requires n <= |es| && WasActive(w0, es[..n], id, uid)
    ensures exists m: nat ::
              && m < n && IsLookUp(es[m], id)
              && var users := Run(w0, es[..m]).users;
                 uid in users && users[uid].active && !users[uid].deleted
  {
    var m: nat :| LooksUp(w0, es[..n], m, id, uid);
    assert es[..n][..m] == es[..m] && es[..n][m] == es[m];
  }
}
