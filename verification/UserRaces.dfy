/** Concurrent requests on platform users (handler/admin/users.go). The guard reads, and the writes it
    lets through come later as calls of their own; between two calls of one request any other request
    may run. The guard keeps the last superadmin exactly as long as at most one request at a time is
    past its verdict. */
module UserRaces {
  import opened Common
  import opened Users

  // ---------------------------------------------------------------- the state

  /** What an update or a deletion is going to write. */
  datatype Change =
    | Upd(id: nat, email: string, active: bool, role: string, tenantIds: seq<nat>)
    | Del(id: nat)

  datatype Phase =
    | Asked(change: Change)
    | Found(change: Change)
    | Guarding(change: Change)
    | Cleared(change: Change)
    | RowDone(id: nat, role: string, tenantIds: seq<nat>, scopeToo: bool)
    | RoleDone(id: nat, tenantIds: seq<nat>)
    | Done

  /** The tables, and the requests under way. */
  datatype System = System(tables: World, ops: map<nat, Phase>)

  /** Each step of request q is one call to the database with what the code computes from the answer.
      A flag `ok` that is false means the call failed. */
  datatype Step =
    | AskUpdate(q: nat, id: nat, email: string, isActive: Option<bool>, role: string, tenantIds: seq<nat>)
    | AskDelete(q: nat, id: nat)
    | FindTarget(q: nat, ok: bool)
    | ReadRoles(q: nat, ok: bool)
    | Count(q: nat, ok: bool)
    | WriteRow(q: nat, ok: bool)
    | Insert(q: nat, id: nat, username: string, email: string, passwordLen: nat, role: string, tenantIds: seq<nat>)
    | WriteRole(q: nat, ok: bool)
    | WriteScope(q: nat, ok: bool)

  function PhaseAt(s: System, q: nat): Phase { if q in s.ops then s.ops[q] else Done }

  function At(s: System, q: nat, p: Phase): System { s.(ops := s.ops[q := p]) }

  /** The target goes on as an active superadmin. */
  predicate Stays(c: Change) { c.Upd? && c.role == SUPERADMIN && c.active }

  // ---------------------------------------------------------------- the steps

  /** Update and SoftDelete: the first looks for an undeleted row and obeys the unique address. */
  function RowWritten(s: System, q: nat, c: Change): System {
    var w := s.tables;
    match c
    case Upd(id, email, active, role, tenantIds) =>
      if Present(w.users, id) && EmailFree(w.users, email, id)
      then At(s.(tables := w.(users := w.users[id := w.users[id].(email := email, active := active)])), q,
              RowDone(id, role, tenantIds, true))
      else At(s, q, Done)
    case Del(id) =>
      At(if id in w.users then s.(tables := w.(users := w.users[id := w.users[id].(deleted := true)])) else s, q, Done)
  }

  function Inserted(s: System, q: nat, id: nat, username: string, email: string, passwordLen: nat, role: string,
                    tenantIds: seq<nat>): System
  {
    var w := s.tables;
    if !Unused(w, id) then s
    else if CreateRefusal(w, id, username, email, passwordLen, role, tenantIds).Some? then At(s, q, Done)
    else At(s.(tables := w.(users := w.users[id := User(username, email, true, false)])), q,
            RowDone(id, role, tenantIds, role == VIEWER))
  }

  function RoleWritten(s: System, q: nat, p: Phase): System
    requires p.RowDone?
  {
    var w := s.tables;
    var managed := if p.scopeToo then w.managed - {p.id} else w.managed + {p.id};
    At(s.(tables := w.(roles := w.roles[p.id := [p.role]], managed := managed)), q,
       if p.scopeToo then RoleDone(p.id, p.tenantIds) else Done)
  }

  function ScopeWritten(s: System, q: nat, p: Phase): System
    requires p.RoleDone?
  {
    var w := s.tables;
    At(s.(tables := w.(scopes := w.scopes[p.id := Toset(p.tenantIds)], managed := w.managed + {p.id})), q, Done)
  }

  function Next(s: System, e: Step): System {
    var w, p := s.tables, PhaseAt(s, e.q);
    match e
    case AskUpdate(q, id, email, isActive, role, tenantIds) =>
      At(s, q, if email == "" || !Acceptable(w.roleNames, w.tenants, role, tenantIds) then Done
               else Asked(Upd(id, email, isActive.None? || isActive.value, role, tenantIds)))
    case AskDelete(q, id) => At(s, q, if Present(w.users, id) then Asked(Del(id)) else Done)
    case FindTarget(q, ok) =>
      if !p.Asked? then s
      else At(s, q, if ok && Present(w.users, p.change.id) then Found(p.change) else Cleared(p.change))
    case ReadRoles(q, ok) =>
      if !p.Found? then s
      else At(s, q, if ok && SUPERADMIN in RolesOf(w.roles, p.change.id) && !Stays(p.change) then Guarding(p.change)
                    else Cleared(p.change))
    case Count(q, ok) =>
      if !p.Guarding? then s else At(s, q, if ok && |Supers(w)| > 1 then Cleared(p.change) else Done)
    case WriteRow(q, ok) =>
      if !p.Cleared? then s else if !ok then At(s, q, Done) else RowWritten(s, q, p.change)
    case Insert(q, id, username, email, passwordLen, role, tenantIds) =>
      Inserted(s, q, id, username, email, passwordLen, role, tenantIds)
    case WriteRole(q, ok) =>
      if !p.RowDone? then s else if !ok then At(s, q, Done) else RoleWritten(s, q, p)
    case WriteScope(q, ok) =>
      if !p.RoleDone? then s else if !ok then At(s, q, Done) else ScopeWritten(s, q, p)
  }

  function Run(s: System, es: seq<Step>): System {
    if es == [] then s else Next(Run(s, es[..|es| - 1]), es[|es| - 1])
  }

  lemma RunSnoc(s: System, es: seq<Step>, e: Step)
    ensures Run(s, es + [e]) == Next(Run(s, es), e)
  {
    assert (es + [e])[..|es|] == es;
  }

  lemma {:induction false} RunIsFold(s: System, es: seq<Step>)
    ensures Run(s, es) == Fold(Next, s, es)
  {
    if es != [] {
      RunIsFold(s, es[..|es| - 1]);
    }
  }

  lemma RunConcat(s: System, es: seq<Step>, fs: seq<Step>)
    ensures Run(s, es + fs) == Run(Run(s, es), fs)
  {
    FoldConcat(Next, s, es, fs);
    RunIsFold(s, es + fs);
    RunIsFold(s, es);
    RunIsFold(Run(s, es), fs);
  }

  // ---------------------------------------------------------------- one request at a time

  /** Past the guard's verdict, and the row or the role still to be written. */
  predicate Passed(p: Phase) { p.Cleared? || p.RowDone? }

  ghost function Window(s: System): set<nat> { set q | q in s.ops && Passed(s.ops[q]) }

  ghost predicate AtMostPassed(s0: System, es: seq<Step>, k: nat) {
    forall n :: 0 <= n <= |es| ==> |Window(Run(s0, es[..n]))| <= k
  }

  /** The guard's look-up of its target fails, and it takes the target for somebody else. */
  predicate MissesTarget(e: Step) { (e.FindTarget? || e.ReadRoles?) && !e.ok }

  predicate LookupsWork(es: seq<Step>) { forall i :: 0 <= i < |es| ==> !MissesTarget(es[i]) }

  /** What a request past the guard may rely on while it is the only one. */
  predicate Safe(w: World, p: Phase) {
    match p
    case Cleared(c) => Guarded(w, c.id, Stays(c))
    case RowDone(id, role, _, _) => role == SUPERADMIN || Supers(w) - {id} != {}
    case _ => true
  }

  ghost predicate SafeInv(s: System) {
    Supers(s.tables) != {} && forall q :: q in s.ops ==> Safe(s.tables, s.ops[q])
  }

  lemma TwoInWindow(s: System, q: nat, r: nat)
    requires q in Window(s) && r in Window(s) && |Window(s)| <= 1
    ensures q == r
  {
    SubsetSize({q, r}, Window(s));
  }

  /** Only request e.q moves, and rows and roles change only if it is in the window, before or after. */
  lemma OnlyOneMoves(s: System, e: Step)
    ensures var s' := Next(s, e);
            && (forall q :: q != e.q ==> PhaseAt(s', q) == PhaseAt(s, q))
            && s'.ops.Keys <= s.ops.Keys + {e.q}
            && (!Passed(PhaseAt(s, e.q)) && !Passed(PhaseAt(s', e.q)) ==>
                  s'.tables.users == s.tables.users && s'.tables.roles == s.tables.roles)
  {
    var s' := Next(s, e);
    if e.Insert? && !Passed(PhaseAt(s', e.q)) {
      assert s'.tables == s.tables;
    }
  }

  lemma RowIsSafe(s: System, q: nat, c: Change)
    requires Supers(s.tables) != {} && Guarded(s.tables, c.id, Stays(c))
    ensures var s' := RowWritten(s, q, c); Supers(s'.tables) != {} && Safe(s'.tables, PhaseAt(s', q))
  {
    var w, w' := s.tables, RowWritten(s, q, c).tables;
    var keeper: nat :| keeper in Supers(w);
    if keeper == c.id && |Supers(w)| > 1 {
      keeper := OneLeft(Supers(w), c.id);
    }
    if keeper != c.id {
      assert keeper in Supers(w') - {c.id};
    } else {
      assert keeper in Supers(w');
    }
  }

  lemma InsertIsSafe(s: System, e: Step)
    requires e.Insert? && Supers(s.tables) != {} && Safe(s.tables, PhaseAt(s, e.q))
    ensures var s' := Next(s, e); Supers(s'.tables) != {} && Safe(s'.tables, PhaseAt(s', e.q))
  {
    var s' := Next(s, e);
    if s'.tables != s.tables {
      var keeper: nat :| keeper in Supers(s.tables);
      assert keeper in Supers(s'.tables) - {e.id};
    }
  }

  lemma RoleIsSafe(s: System, q: nat, p: Phase)
    requires p.RowDone? && Supers(s.tables) != {} && Safe(s.tables, p)
    ensures Supers(RoleWritten(s, q, p).tables) != {}
  {
    var keeper: nat :| keeper in Supers(s.tables) && (p.role == SUPERADMIN || keeper != p.id);
    assert keeper in Supers(RoleWritten(s, q, p).tables);
  }

  lemma MoverIsSafe(s: System, e: Step)
    requires SafeInv(s) && !MissesTarget(e)
    ensures var s' := Next(s, e); Supers(s'.tables) != {} && Safe(s'.tables, PhaseAt(s', e.q))
  {
    var p := PhaseAt(s, e.q);
    assert Safe(s.tables, p);
    match e {
      case WriteRow(q, ok) =>
        if p.Cleared? && ok {
          RowIsSafe(s, q, p.change);
        }
      case Insert(_, _, _, _, _, _, _) => InsertIsSafe(s, e);
      case WriteRole(q, ok) =>
        if p.RowDone? && ok {
          RoleIsSafe(s, q, p);
        }
      case WriteScope(_, _) => assert Supers(Next(s, e).tables) == Supers(s.tables);
      case _ =>
    }
  }

  lemma StepIsSafe(s: System, e: Step)
    requires SafeInv(s) && !MissesTarget(e) && |Window(s)| <= 1 && |Window(Next(s, e))| <= 1
    ensures SafeInv(Next(s, e))
  {
    var s' := Next(s, e);
    MoverIsSafe(s, e);
    OnlyOneMoves(s, e);
    forall q | q in s'.ops ensures Safe(s'.tables, s'.ops[q]) {
      if q != e.q && Passed(s'.ops[q]) {
        assert PhaseAt(s', q) == PhaseAt(s, q);
        assert q in Window(s) && q in Window(s');
        assert !Passed(PhaseAt(s, e.q)) by {
          if Passed(PhaseAt(s, e.q)) {
            TwoInWindow(s, q, e.q);
          }
        }
        assert !Passed(PhaseAt(s', e.q)) by {
          if Passed(PhaseAt(s', e.q)) {
            TwoInWindow(s', q, e.q);
          }
        }
        assert Supers(s'.tables) == Supers(s.tables);
      }
    }
  }

  predicate Idle(s: System) { s.ops == map[] }

  lemma {:induction false} RunIsSafe(s0: System, es: seq<Step>)
    requires Idle(s0) && Supers(s0.tables) != {} && AtMostPassed(s0, es, 1) && LookupsWork(es)
    ensures SafeInv(Run(s0, es)) && |Window(Run(s0, es))| <= 1
  {
    assert es[..|es|] == es;
    if es != [] {
      var pre := es[..|es| - 1];
      forall n | 0 <= n <= |pre| ensures |Window(Run(s0, pre[..n]))| <= 1 {
        assert pre[..n] == es[..n];
      }
      RunIsSafe(s0, pre);
      StepIsSafe(Run(s0, pre), es[|es| - 1]);
    }
  }

  /** All steps are of the first k requests. */
  predicate Within(es: seq<Step>, k: nat) { forall i :: 0 <= i < |es| ==> es[i].q < k }

  lemma WithinConcat(es: seq<Step>, fs: seq<Step>, k: nat)
    requires Within(es, k) && Within(fs, k)
    ensures Within(es + fs, k) && (LookupsWork(es) && LookupsWork(fs) ==> LookupsWork(es + fs))
  {
  }

  lemma {:induction false} FewRequests(s0: System, es: seq<Step>, k: nat)
    requires Idle(s0) && Within(es, k)
    ensures Run(s0, es).ops.Keys <= Below(k)
  {
    if es != [] {
      FewRequests(s0, es[..|es| - 1], k);
      OnlyOneMoves(Run(s0, es[..|es| - 1]), es[|es| - 1]);
    }
  }

  lemma FewPassed(s0: System, es: seq<Step>, k: nat)
    requires Idle(s0) && Within(es, k)
    ensures AtMostPassed(s0, es, k)
  {
    forall n | 0 <= n <= |es| ensures |Window(Run(s0, es[..n]))| <= k {
      FewRequests(s0, es[..n], k);
      SubsetSize(Window(Run(s0, es[..n])), Below(k));
    }
  }

  // ---------------------------------------------------------------- serial requests

  /** From the guard's first look to its verdict. */
  function Verdict(q: nat): seq<Step> { [FindTarget(q, true), ReadRoles(q, true), Count(q, true)] }

  /** The calls of one request, on its own; those it does not get to are not enabled. */
  function Calls(q: nat, r: Request): seq<Step> {
    match r
    case Create(id, username, email, passwordLen, role, tenantIds, roleOk, scopeOk) =>
      [Insert(q, id, username, email, passwordLen, role, tenantIds), WriteRole(q, roleOk), WriteScope(q, scopeOk)]
    case Update(id, email, isActive, role, tenantIds, rowOk, roleOk, scopeOk) =>
      [AskUpdate(q, id, email, isActive, role, tenantIds)] + Verdict(q) + [WriteRow(q, rowOk)]
      + [WriteRole(q, roleOk), WriteScope(q, scopeOk)]
    case Delete(id, rowOk) =>
      [AskDelete(q, id)] + Verdict(q) + [WriteRow(q, rowOk)]
  }

  lemma RunOne(s: System, a: Step)
    ensures Run(s, [a]) == Next(s, a)
  {
    RunSnoc(s, [], a);
    assert [] + [a] == [a];
  }

  lemma RunTwo(s: System, a: Step, b: Step)
    ensures Run(s, [a, b]) == Next(Next(s, a), b)
  {
    RunOne(s, a);
    RunSnoc(s, [a], b);
    assert [a] + [b] == [a, b];
  }

  lemma VerdictIs(s: System, q: nat, c: Change)
    requires PhaseAt(s, q) == Asked(c)
    ensures Run(s, Verdict(q)) == At(s, q, if Guarded(s.tables, c.id, Stays(c)) then Cleared(c) else Done)
  {
    RunVerdict(s, q);
    var s1 := Next(s, FindTarget(q, true));
    var s2 := Next(s1, ReadRoles(q, true));
    var s3 := Next(s2, Count(q, true));
    assert s3.tables == s.tables && s3.ops == s.ops[q := PhaseAt(s3, q)];
  }

  lemma RunVerdict(s: System, q: nat)
    ensures Run(s, Verdict(q)) == Next(Next(Next(s, FindTarget(q, true)), ReadRoles(q, true)), Count(q, true))
  {
    RunTwo(s, FindTarget(q, true), ReadRoles(q, true));
    RunSnoc(s, [FindTarget(q, true), ReadRoles(q, true)], Count(q, true));
    assert [FindTarget(q, true), ReadRoles(q, true)] + [Count(q, true)] == Verdict(q);
  }

  lemma NoVerdict(s: System, q: nat)
    requires q in s.ops && s.ops[q] == Done
    ensures Run(s, Verdict(q)) == s
  {
    RunVerdict(s, q);
  }

  /** The role and scope writes that follow a stored row. */
  lemma AssignIs(s: System, q: nat, p: Phase, roleOk: bool, scopeOk: bool)
    requires p.RowDone? && PhaseAt(s, q) == p
    ensures Run(s, [WriteRole(q, roleOk), WriteScope(q, scopeOk)])
            == System(Assigned(s.tables, p.id, p.role, p.tenantIds, roleOk, scopeOk, p.scopeToo), s.ops[q := Done])
  {
    RunTwo(s, WriteRole(q, roleOk), WriteScope(q, scopeOk));
    var s2 := Run(s, [WriteRole(q, roleOk), WriteScope(q, scopeOk)]);
    assert s2.ops == s.ops[q := Done];
    if roleOk && p.scopeToo && scopeOk {
      assert s.tables.managed - {p.id} + {p.id} == s.tables.managed + {p.id};
    }
  }

  lemma NothingToAssign(s: System, q: nat, roleOk: bool, scopeOk: bool)
    requires q in s.ops && s.ops[q] == Done
    ensures Run(s, [WriteRole(q, roleOk), WriteScope(q, scopeOk)]) == s
  {
    RunTwo(s, WriteRole(q, roleOk), WriteScope(q, scopeOk));
  }

  /** One request on its own is what the handlers do. */
  lemma HandleIsRun(s: System, q: nat, r: Request)
    requires FreshId(s.tables, r)
    ensures Run(s, Calls(q, r)) == System(Handle(s.tables, r), s.ops[q := Done])
  {
    match r {
      case Create(id, username, email, passwordLen, role, tenantIds, roleOk, scopeOk) =>
        CreateIsRun(s, q, r);
      case Update(id, email, isActive, role, tenantIds, rowOk, roleOk, scopeOk) =>
        UpdateIsRun(s, q, r);
      case Delete(id, rowOk) =>
        DeleteIsRun(s, q, r);
    }
  }

  lemma CreateIsRun(s: System, q: nat, r: Request)
    requires r.Create? && FreshId(s.tables, r)
    ensures Run(s, Calls(q, r)) == System(Handle(s.tables, r), s.ops[q := Done])
  {
    var insert := [Insert(q, r.id, r.username, r.email, r.passwordLen, r.role, r.tenantIds)];
    var s1 := InsertRuns(s, q, r);
    if Refusal(s.tables, r).Some? {
      NothingRuns(s, insert, q, s1, r.roleOk, r.scopeOk);
    } else {
      AssignRuns(s, insert, q, s1, s1.ops[q], r.roleOk, r.scopeOk);
    }
    assert insert + [WriteRole(q, r.roleOk), WriteScope(q, r.scopeOk)] == Calls(q, r);
  }

  /** After the row, the role and the scope. */
  lemma AssignRuns(s: System, es: seq<Step>, q: nat, s1: System, p: Phase, roleOk: bool, scopeOk: bool)
    requires s1 == Run(s, es) && p.RowDone? && s1.ops == s.ops[q := p]
    ensures Run(s, es + [WriteRole(q, roleOk), WriteScope(q, scopeOk)])
            == System(Assigned(s1.tables, p.id, p.role, p.tenantIds, roleOk, scopeOk, p.scopeToo), s.ops[q := Done])
  {
    var fs := [WriteRole(q, roleOk), WriteScope(q, scopeOk)];
    var s2 := System(Assigned(s1.tables, p.id, p.role, p.tenantIds, roleOk, scopeOk, p.scopeToo), s1.ops[q := Done]);
    assert Run(s1, fs) == s2 by {
      AssignIs(s1, q, p, roleOk, scopeOk);
    }
    assert s1.ops[q := Done] == s.ops[q := Done];
    RunOnto(s, es, fs, s1, s2);
  }

  lemma RunOnto(s: System, es: seq<Step>, fs: seq<Step>, s1: System, s2: System)
    requires Run(s, es) == s1 && Run(s1, fs) == s2
    ensures Run(s, es + fs) == s2
  {
    RunConcat(s, es, fs);
  }

  lemma NothingRuns(s: System, es: seq<Step>, q: nat, s1: System, roleOk: bool, scopeOk: bool)
    requires s1 == Run(s, es) && s1 == At(s, q, Done)
    ensures Run(s, es + [WriteRole(q, roleOk), WriteScope(q, scopeOk)]) == s1
  {
    RunConcat(s, es, [WriteRole(q, roleOk), WriteScope(q, scopeOk)]);
    NothingToAssign(s1, q, roleOk, scopeOk);
  }

  lemma InsertRuns(s: System, q: nat, r: Request) returns (s1: System)
    requires r.Create? && FreshId(s.tables, r)
    ensures s1 == Run(s, [Insert(q, r.id, r.username, r.email, r.passwordLen, r.role, r.tenantIds)])
    ensures Refusal(s.tables, r).Some? ==> s1 == At(s, q, Done)
    ensures Refusal(s.tables, r).None? ==>
              var users := s.tables.users[r.id := User(r.username, r.email, true, false)];
              s1 == At(s.(tables := s.tables.(users := users)), q, RowDone(r.id, r.role, r.tenantIds, r.role == VIEWER))
  {
    var insert := Insert(q, r.id, r.username, r.email, r.passwordLen, r.role, r.tenantIds);
    RunOne(s, insert);
    s1 := Next(s, insert);
  }

  lemma UpdateIsRun(s: System, q: nat, r: Request)
    requires r.Update?
    ensures Run(s, Calls(q, r)) == System(Handle(s.tables, r), s.ops[q := Done])
  {
    var es := [AskUpdate(q, r.id, r.email, r.isActive, r.role, r.tenantIds)] + Verdict(q) + [WriteRow(q, r.rowOk)];
    var s1 := UpdateRuns(s, q, r);
    if Refusal(s.tables, r).Some? {
      NothingRuns(s, es, q, s1, r.roleOk, r.scopeOk);
    } else {
      AssignRuns(s, es, q, s1, s1.ops[q], r.roleOk, r.scopeOk);
    }
  }

  lemma UpdateRuns(s: System, q: nat, r: Request) returns (s2: System)
    requires r.Update?
    ensures s2 == Run(s, [AskUpdate(q, r.id, r.email, r.isActive, r.role, r.tenantIds)]
                       + Verdict(q) + [WriteRow(q, r.rowOk)])
    ensures Refusal(s.tables, r).Some? ==> s2 == At(s, q, Done)
    ensures Refusal(s.tables, r).None? ==>
              && r.id in s.tables.users
              && var u := s.tables.users[r.id].(email := r.email, active := r.isActive.None? || r.isActive.value);
                 s2 == At(s.(tables := s.tables.(users := s.tables.users[r.id := u])), q,
                          RowDone(r.id, r.role, r.tenantIds, true))
  {
    var ask := [AskUpdate(q, r.id, r.email, r.isActive, r.role, r.tenantIds)];
    var s1 := UpdateAsks(s, q, r);
    s2 := RowRuns(s, ask, q, s1, r.rowOk);
  }

  lemma UpdateAsks(s: System, q: nat, r: Request) returns (s1: System)
    requires r.Update?
    ensures s1 == Run(s, [AskUpdate(q, r.id, r.email, r.isActive, r.role, r.tenantIds)])
    ensures s1 == At(s, q, if r.email == "" || !Acceptable(s.tables.roleNames, s.tables.tenants, r.role, r.tenantIds)
                              then Done
                           else Asked(Upd(r.id, r.email, r.isActive.None? || r.isActive.value, r.role, r.tenantIds)))
  {
    var ask := AskUpdate(q, r.id, r.email, r.isActive, r.role, r.tenantIds);
    RunOne(s, ask);
    s1 := Next(s, ask);
  }

  lemma DeleteAsks(s: System, q: nat, id: nat) returns (s1: System)
    ensures s1 == Run(s, [AskDelete(q, id)])
    ensures s1 == At(s, q, if Present(s.tables.users, id) then Asked(Del(id)) else Done)
  {
    RunOne(s, AskDelete(q, id));
    s1 := Next(s, AskDelete(q, id));
  }

  /** After the question, the guard and the row. */
  lemma RowRuns(s: System, ask: seq<Step>, q: nat, s1: System, ok: bool) returns (s2: System)
    requires s1 == Run(s, ask) && q in s1.ops && s1.ops == s.ops[q := s1.ops[q]] && s1.tables == s.tables
    requires s1.ops[q].Asked? || s1.ops[q].Done?
    ensures s2 == Run(s, ask + Verdict(q) + [WriteRow(q, ok)])
    ensures s2 == if s1.ops[q].Asked? && Guarded(s.tables, s1.ops[q].change.id, Stays(s1.ops[q].change)) && ok
                  then RowWritten(s, q, s1.ops[q].change) else At(s, q, Done)
  {
    RunConcat(s, ask, Verdict(q));
    RunConcat(s, ask + Verdict(q), [WriteRow(q, ok)]);
    if s1.ops[q].Asked? {
      VerdictIs(s1, q, s1.ops[q].change);
    } else {
      NoVerdict(s1, q);
    }
    s2 := WriteRuns(s, Run(s1, Verdict(q)), q, ok);
  }

  lemma WriteRuns(s: System, s1: System, q: nat, ok: bool) returns (s2: System)
    requires q in s1.ops && s1 == At(s, q, s1.ops[q]) && (s1.ops[q].Cleared? || s1.ops[q].Done?)
    ensures s2 == Run(s1, [WriteRow(q, ok)])
    ensures s2 == if s1.ops[q].Cleared? && ok then RowWritten(s, q, s1.ops[q].change) else At(s, q, Done)
  {
    RunOne(s1, WriteRow(q, ok));
    s2 := Next(s1, WriteRow(q, ok));
    assert s2.ops == s.ops[q := s2.ops[q]];
  }

  lemma DeleteIsRun(s: System, q: nat, r: Request)
    requires r.Delete?
    ensures Run(s, Calls(q, r)) == System(Handle(s.tables, r), s.ops[q := Done])
  {
    var s1 := DeleteAsks(s, q, r.id);
    var s2 := RowRuns(s, [AskDelete(q, r.id)], q, s1, r.rowOk);
  }

  function AllCalls(rs: seq<Request>): seq<Step> { if rs == [] then [] else Calls(0, rs[0]) + AllCalls(rs[1..]) }

  lemma {:induction false} SerialIsRun(s: System, rs: seq<Request>)
    requires Serial(s.tables, rs)
    ensures Run(s, AllCalls(rs)).tables == Users.Run(s.tables, rs)
    decreases |rs|
  {
    if rs != [] {
      var s1 := System(Handle(s.tables, rs[0]), s.ops[0 := Done]);
      HandleIsRun(s, 0, rs[0]);
      SerialIsRun(s1, rs[1..]);
      RunAfter(s, Calls(0, rs[0]), AllCalls(rs[1..]), s1);
    }
  }

  lemma RunAfter(s: System, es: seq<Step>, fs: seq<Step>, s1: System)
    requires Run(s, es) == s1
    ensures Run(s, es + fs) == Run(s1, fs)
  {
    RunConcat(s, es, fs);
  }

  lemma CallsAreGood(q: nat, r: Request)
    ensures Within(Calls(q, r), q + 1) && LookupsWork(Calls(q, r))
  {
  }

  lemma {:induction false} CallsWithin(rs: seq<Request>)
    ensures Within(AllCalls(rs), 1) && LookupsWork(AllCalls(rs))
  {
    if rs != [] {
      CallsWithin(rs[1..]);
      CallsAreGood(0, rs[0]);
      WithinConcat(Calls(0, rs[0]), AllCalls(rs[1..]), 1);
    }
  }

  /** Somebody is an active, undeleted superadmin. */
  ghost predicate HasSuperadmin(w: World) {
    exists id :: id in w.users && w.users[id].active && !w.users[id].deleted
                 && id in w.roles && "superadmin" in w.roles[id]
  }

  lemma SomeoneIsSuper(w: World)
    ensures Supers(w) != {} <==> HasSuperadmin(w)
  {
    if Supers(w) != {} {
      var id :| id in Supers(w);
      assert id in w.roles;
    }
    if HasSuperadmin(w) {
      var id :| id in w.users && w.users[id].active && !w.users[id].deleted
                && id in w.roles && "superadmin" in w.roles[id];
      assert id in Supers(w);
    }
  }

  /** A deployment that has an active superadmin always has one while requests are served one after
      another, wherever a failing write stops them. */
  lemma SuperadminRemains(w: World, rs: seq<Request>)
    requires Serial(w, rs)
    requires exists id :: id in w.users && w.users[id].active && !w.users[id].deleted
                          && id in w.roles && "superadmin" in w.roles[id]
    ensures var w' := Users.Run(w, rs);
            exists id :: id in w'.users && w'.users[id].active && !w'.users[id].deleted
                         && id in w'.roles && "superadmin" in w'.roles[id]
  {
    var s0 := System(w, map[]);
    SomeoneIsSuper(w);
    SerialIsRun(s0, rs);
    CallsWithin(rs);
    FewPassed(s0, AllCalls(rs), 1);
    RunIsSafe(s0, AllCalls(rs));
    SomeoneIsSuper(Users.Run(w, rs));
  }

  // ---------------------------------------------------------------- several requests at a time

  /** The guard of a deletion. */
  function Guard(q: nat, id: nat): seq<Step> { [AskDelete(q, id)] + Verdict(q) }

  lemma GuardPasses(s: System, q: nat, id: nat)
    requires id in Supers(s.tables) && |Supers(s.tables)| > 1
    ensures Run(s, Guard(q, id)) == At(s, q, Cleared(Del(id)))
  {
    var s1 := DeleteAsks(s, q, id);
    VerdictPasses(s, [AskDelete(q, id)], q, Del(id), s1);
  }

  lemma VerdictPasses(s: System, ask: seq<Step>, q: nat, c: Change, s1: System)
    requires s1 == Run(s, ask) && s1 == At(s, q, Asked(c)) && Guarded(s.tables, c.id, Stays(c))
    ensures Run(s, ask + Verdict(q)) == At(s, q, Cleared(c))
  {
    RunConcat(s, ask, Verdict(q));
    VerdictIs(s1, q, c);
    assert s1.ops[q := Cleared(c)] == s.ops[q := Cleared(c)];
  }

  lemma DeletionRemoves(s: System, q: nat, id: nat)
    requires PhaseAt(s, q) == Cleared(Del(id))
    ensures var s' := Run(s, [WriteRow(q, true)]);
            Supers(s'.tables) == Supers(s.tables) - {id} && s'.ops == s.ops[q := Done]
  {
    RunOne(s, WriteRow(q, true));
  }

  /** Block j takes p from j to j + 1. */
  ghost predicate Keeps(block: nat -> seq<Step>, p: (System, nat) -> bool, u: System, j: nat) {
    p(u, j) ==> p(Run(u, block(j)), j + 1)
  }

  lemma {:induction false} BlocksKeep(block: nat -> seq<Step>, p: (System, nat) -> bool, s: System, k: nat, i: nat)
    requires i <= k && p(s, 0)
    requires forall u: System, j: nat :: j < k ==> Keeps(block, p, u, j)
    ensures p(Run(s, Blocks(block, i)), i)
  {
    if i > 0 {
      BlocksKeep(block, p, s, k, i - 1);
      assert Keeps(block, p, Run(s, Blocks(block, i - 1)), i - 1);
      RunConcat(s, Blocks(block, i - 1), block(i - 1));
    }
  }

  lemma {:induction false} BlocksWithin(block: nat -> seq<Step>, i: nat, k: nat)
    requires forall j: nat :: j < i ==> Within(block(j), k)
    ensures Within(Blocks(block, i), k)
  {
    if i > 0 {
      BlocksWithin(block, i - 1, k);
    }
  }

  /** Request i asks to delete ids[i] and passes the guard; then all write. */
  function Guards(ids: seq<nat>): nat -> seq<Step> { (i: nat) => if i < |ids| then Guard(i, ids[i]) else [] }

  const DELETIONS: nat -> seq<Step> := (i: nat) => [WriteRow(i, true)]

  function Race(ids: seq<nat>): seq<Step> { Blocks(Guards(ids), |ids|) + Blocks(DELETIONS, |ids|) }

  ghost predicate HavePassed(s: System, w: World, ids: seq<nat>, i: nat) {
    s.tables == w && forall j: nat :: j < i && j < |ids| ==> PhaseAt(s, j) == Cleared(Del(ids[j]))
  }

  lemma OneMorePasses(s: System, w: World, ids: seq<nat>, i: nat)
    requires HavePassed(s, w, ids, i) && i < |ids| && |Supers(w)| > 1 && ids[i] in Supers(w)
    ensures HavePassed(Run(s, Guards(ids)(i)), w, ids, i + 1)
  {
    GuardPasses(s, i, ids[i]);
    PassedOn(s, w, ids, i, At(s, i, Cleared(Del(ids[i]))));
  }

  lemma PassedOn(s: System, w: World, ids: seq<nat>, i: nat, s': System)
    requires HavePassed(s, w, ids, i) && i < |ids| && s' == At(s, i, Cleared(Del(ids[i])))
    ensures HavePassed(s', w, ids, i + 1)
  {
  }

  ghost function PassedBy(w: World, ids: seq<nat>): (System, nat) -> bool {
    (u: System, i: nat) => HavePassed(u, w, ids, i)
  }

  lemma GuardKeeps(w: World, ids: seq<nat>, u: System, j: nat)
    requires |Supers(w)| > 1 && j < |ids| && ids[j] in Supers(w)
    ensures Keeps(Guards(ids), PassedBy(w, ids), u, j)
  {
    if HavePassed(u, w, ids, j) {
      OneMorePasses(u, w, ids, j);
    }
  }

  lemma AllPass(s: System, w: World, ids: seq<nat>)
    requires HavePassed(s, w, ids, 0) && |Supers(w)| > 1 && forall j: nat :: j < |ids| ==> ids[j] in Supers(w)
    ensures HavePassed(Run(s, Blocks(Guards(ids), |ids|)), w, ids, |ids|)
  {
    var p := PassedBy(w, ids);
    forall u: System, j: nat | j < |ids| ensures Keeps(Guards(ids), p, u, j) {
      GuardKeeps(w, ids, u, j);
    }
    assert p(s, 0);
    BlocksKeep(Guards(ids), p, s, |ids|, |ids|);
  }

  /** The first i are gone, and the others about to go. */
  ghost predicate HaveGone(s: System, w: World, ids: seq<nat>, i: nat) {
    && Supers(s.tables) <= Supers(w)
    && (forall j: nat :: j < i && j < |ids| ==> ids[j] !in Supers(s.tables))
    && (forall j: nat :: i <= j < |ids| ==> PhaseAt(s, j) == Cleared(Del(ids[j])))
  }

  lemma OneMoreGoes(s: System, w: World, ids: seq<nat>, i: nat)
    requires HaveGone(s, w, ids, i) && i < |ids|
    ensures HaveGone(Run(s, DELETIONS(i)), w, ids, i + 1)
  {
    DeletionRemoves(s, i, ids[i]);
    GoneOn(s, w, ids, i, Run(s, [WriteRow(i, true)]));
  }

  lemma GoneOn(s: System, w: World, ids: seq<nat>, i: nat, s': System)
    requires HaveGone(s, w, ids, i) && i < |ids|
    requires Supers(s'.tables) == Supers(s.tables) - {ids[i]} && s'.ops == s.ops[i := Done]
    ensures HaveGone(s', w, ids, i + 1)
  {
  }

  ghost function GoneBy(w: World, ids: seq<nat>): (System, nat) -> bool {
    (u: System, i: nat) => HaveGone(u, w, ids, i)
  }

  lemma DeletionKeeps(w: World, ids: seq<nat>, u: System, j: nat)
    requires j < |ids|
    ensures Keeps(DELETIONS, GoneBy(w, ids), u, j)
  {
    if HaveGone(u, w, ids, j) {
      OneMoreGoes(u, w, ids, j);
    }
  }

  lemma AllGo(s: System, w: World, ids: seq<nat>)
    requires HaveGone(s, w, ids, 0)
    ensures HaveGone(Run(s, Blocks(DELETIONS, |ids|)), w, ids, |ids|)
  {
    var p := GoneBy(w, ids);
    forall u: System, j: nat | j < |ids| ensures Keeps(DELETIONS, p, u, j) {
      DeletionKeeps(w, ids, u, j);
    }
    assert p(s, 0);
    BlocksKeep(DELETIONS, p, s, |ids|, |ids|);
  }

  lemma RaceLeavesNone(s: System, ids: seq<nat>)
    requires |Supers(s.tables)| > 1 && forall id :: id in ids <==> id in Supers(s.tables)
    ensures Supers(Run(s, Race(ids)).tables) == {}
  {
    var n := |ids|;
    AllPass(s, s.tables, ids);
    var s1 := Run(s, Blocks(Guards(ids), n));
    AllGo(s1, s.tables, ids);
    RunAfter(s, Blocks(Guards(ids), n), Blocks(DELETIONS, n), s1);
    NobodyLeft(Run(s1, Blocks(DELETIONS, n)), s.tables, ids);
  }

  lemma NobodyLeft(s: System, w: World, ids: seq<nat>)
    requires HaveGone(s, w, ids, |ids|) && forall id :: id in ids <==> id in Supers(w)
    ensures Supers(s.tables) == {}
  {
    forall id | id in Supers(w) ensures id !in Supers(s.tables) {
      var j: nat :| j < |ids| && ids[j] == id;
    }
  }

  lemma RaceWithin(ids: seq<nat>)
    ensures Within(Race(ids), |ids|)
  {
    var n := |ids|;
    forall j: nat | j < n ensures Within(Guards(ids)(j), n) && Within(DELETIONS(j), n) {
    }
    BlocksWithin(Guards(ids), n, n);
    BlocksWithin(DELETIONS, n, n);
  }

  lemma {:induction false} BlocksWork(block: nat -> seq<Step>, i: nat)
    requires forall j: nat :: j < i ==> LookupsWork(block(j))
    ensures LookupsWork(Blocks(block, i))
  {
    if i > 0 {
      BlocksWork(block, i - 1);
    }
  }

  lemma RaceWorks(ids: seq<nat>)
    ensures LookupsWork(Race(ids))
  {
    forall j: nat | j < |ids| ensures LookupsWork(Guards(ids)(j)) && LookupsWork(DELETIONS(j)) {
    }
    BlocksWork(Guards(ids), |ids|);
    BlocksWork(DELETIONS, |ids|);
  }

  /** However many superadmins there are: when as many deletions, one of each, are past the guard before
      the first of them writes, none is left. */
  lemma InterleavedDeletesLeaveNone(s0: System, ids: seq<nat>)
    requires Idle(s0) && |ids| > 1 && forall i, j :: 0 <= i < j < |ids| ==> ids[i] != ids[j]
    requires var w := s0.tables;
             forall id :: id in ids <==> id in w.users && w.users[id].active && !w.users[id].deleted
                                         && id in w.roles && "superadmin" in w.roles[id]
    ensures AtMostPassed(s0, Race(ids), |ids|) && LookupsWork(Race(ids))
    ensures var w := Run(s0, Race(ids)).tables;
            forall id :: id in w.users && w.users[id].active && !w.users[id].deleted ==>
              id !in w.roles || "superadmin" !in w.roles[id]
  {
    assert ids[0] in ids && ids[1] in ids;
    SubsetSize({ids[0], ids[1]}, Supers(s0.tables));
    RaceLeavesNone(s0, ids);
    RaceWithin(ids);
    RaceWorks(ids);
    FewPassed(s0, Race(ids), |ids|);
    SomeoneIsSuper(Run(s0, Race(ids)).tables);
  }

  /** Serially one goes, as long as there is another. */
  lemma OneGoes(s: System, a: nat) returns (es: seq<Step>)
    requires a in Supers(s.tables) && |Supers(s.tables)| > 1
    ensures Within(es, 2) && LookupsWork(es) && Supers(Run(s, es).tables) == Supers(s.tables) - {a}
  {
    var s1 := At(s, 0, Cleared(Del(a)));
    GuardPasses(s, 0, a);
    DeletionRemoves(s1, 0, a);
    es := Guard(0, a) + [WriteRow(0, true)];
    RunAfter(s, Guard(0, a), [WriteRow(0, true)], s1);
    OneIsGood(a);
  }

  lemma OneIsGood(a: nat)
    ensures Within(Guard(0, a) + [WriteRow(0, true)], 2) && LookupsWork(Guard(0, a) + [WriteRow(0, true)])
  {
    WithinConcat(Guard(0, a), [WriteRow(0, true)], 2);
  }

  /** Two at a time are enough to delete them all. */
  lemma {:induction false} TwoAtATime(s: System) returns (es: seq<Step>)
    requires |Supers(s.tables)| > 1
    ensures Within(es, 2) && LookupsWork(es) && Supers(Run(s, es).tables) == {}
    decreases |Supers(s.tables)|
  {
    var a: nat :| a in Supers(s.tables);
    if |Supers(s.tables)| == 2 {
      var b := OneLeft(Supers(s.tables), a);
      assert |Supers(s.tables) - {a} - {b}| == 0;
      assert Supers(s.tables) == {a, b};
      es := Race([a, b]);
      RaceLeavesNone(s, [a, b]);
      RaceWithin([a, b]);
      RaceWorks([a, b]);
    } else {
      var one := OneGoes(s, a);
      var s1 := Run(s, one);
      var rest := TwoAtATime(s1);
      es := one + rest;
      RunAfter(s, one, rest, s1);
      WithinConcat(one, rest, 2);
    }
  }

  /** The guard of a deletion whose first look-up fails, and the deletion. */
  function Unguarded(id: nat): seq<Step> { [AskDelete(0, id)] + [FindTarget(0, false)] + [WriteRow(0, true)] }

  lemma UnguardedGoes(s: System, id: nat)
    requires id in Supers(s.tables)
    ensures Within(Unguarded(id), 1) && Supers(Run(s, Unguarded(id)).tables) == Supers(s.tables) - {id}
  {
    var s1 := DeleteAsks(s, 0, id);
    RunOne(s1, FindTarget(0, false));
    var s2 := At(s1, 0, Cleared(Del(id)));
    RunAfter(s, [AskDelete(0, id)], [FindTarget(0, false)], s1);
    DeletionRemoves(s2, 0, id);
    RunAfter(s, [AskDelete(0, id)] + [FindTarget(0, false)], [WriteRow(0, true)], s2);
  }

  /** One at a time is enough when look-ups fail. */
  lemma {:induction false} AllUnguarded(s: System) returns (es: seq<Step>)
    ensures Within(es, 1) && Supers(Run(s, es).tables) == {}
    decreases |Supers(s.tables)|
  {
    es := [];
    if Supers(s.tables) != {} {
      var a: nat :| a in Supers(s.tables);
      UnguardedGoes(s, a);
      var s1 := Run(s, Unguarded(a));
      var rest := AllUnguarded(s1);
      es := Unguarded(a) + rest;
      RunAfter(s, Unguarded(a), rest, s1);
      WithinConcat(Unguarded(a), rest, 1);
    }
  }

  // ---------------------------------------------------------------- exactly when

  /** No run from here with at most k requests past the guard loses the last superadmin, if look-ups
      must be reliable or not. */
  ghost predicate KeepsSuperadmin(s0: System, k: nat, reliable: bool) {
    forall es: seq<Step> {:trigger Run(s0, es)} ::
      AtMostPassed(s0, es, k) && (reliable ==> LookupsWork(es)) ==> HasSuperadmin(Run(s0, es).tables)
  }

  lemma {:induction false} NobodyPassed(s0: System, es: seq<Step>)
    requires Idle(s0) && AtMostPassed(s0, es, 0)
    ensures Supers(Run(s0, es).tables) == Supers(s0.tables)
  {
    if es != [] {
      var pre, e := es[..|es| - 1], es[|es| - 1];
      forall n | 0 <= n <= |pre| ensures |Window(Run(s0, pre[..n]))| <= 0 {
        assert pre[..n] == es[..n];
      }
      NobodyPassed(s0, pre);
      assert Window(Run(s0, pre)) == {} && Window(Run(s0, es)) == {} by {
        assert es[..|es|] == es;
      }
      OnlyOneMoves(Run(s0, pre), e);
      NotInWindow(Run(s0, pre), e.q);
      NotInWindow(Run(s0, es), e.q);
    }
  }

  lemma NotInWindow(s: System, q: nat)
    requires Window(s) == {}
    ensures !Passed(PhaseAt(s, q))
  {
    assert q !in Window(s);
  }

  /** In every deployment with two superadmins or more, the guard does its work exactly as long as at
      most one request at a time is between its verdict and the last write that matters, and the guard's
      look-ups of its target succeed. */
  lemma GuardWorksExactlyWhenSerial(s0: System, k: nat, reliable: bool)
    requires Idle(s0)
    requires var w := s0.tables;
             exists a, b :: a != b && a in w.users && w.users[a].active && !w.users[a].deleted
                            && a in w.roles && "superadmin" in w.roles[a]
                            && b in w.users && w.users[b].active && !w.users[b].deleted
                            && b in w.roles && "superadmin" in w.roles[b]
    ensures KeepsSuperadmin(s0, k, reliable) <==> k == 0 || (k == 1 && reliable)
  {
    TwoSupers(s0.tables);
    if k == 0 || (k == 1 && reliable) {
      forall es: seq<Step> | AtMostPassed(s0, es, k) && (reliable ==> LookupsWork(es))
        ensures Supers(Run(s0, es).tables) != {}
      {
        if k == 0 {
          NobodyPassed(s0, es);
        } else {
          RunIsSafe(s0, es);
        }
      }
      SupersAreKept(s0, k, reliable);
    } else if k == 1 {
      var es := AllUnguarded(s0);
      FewPassed(s0, es, k);
      SomeoneIsSuper(Run(s0, es).tables);
    } else {
      var es := TwoAtATime(s0);
      FewPassed(s0, es, 2);
      assert AtMostPassed(s0, es, k);
      SomeoneIsSuper(Run(s0, es).tables);
    }
  }

  lemma TwoSupers(w: World)
    requires exists a, b :: a != b && a in w.users && w.users[a].active && !w.users[a].deleted
                            && a in w.roles && "superadmin" in w.roles[a]
                            && b in w.users && w.users[b].active && !w.users[b].deleted
                            && b in w.roles && "superadmin" in w.roles[b]
    ensures |Supers(w)| > 1
  {
    var a, b :| a != b && a in w.users && w.users[a].active && !w.users[a].deleted
                && a in w.roles && "superadmin" in w.roles[a]
                && b in w.users && w.users[b].active && !w.users[b].deleted
                && b in w.roles && "superadmin" in w.roles[b];
    SubsetSize({a, b}, Supers(w));
  }

  lemma SupersAreKept(s0: System, k: nat, reliable: bool)
    requires forall es: seq<Step> {:trigger Run(s0, es)} ::
               AtMostPassed(s0, es, k) && (reliable ==> LookupsWork(es)) ==> Supers(Run(s0, es).tables) != {}
    ensures KeepsSuperadmin(s0, k, reliable)
  {
    forall es: seq<Step> | AtMostPassed(s0, es, k) && (reliable ==> LookupsWork(es))
      ensures HasSuperadmin(Run(s0, es).tables)
    {
      assert Supers(Run(s0, es).tables) != {};
      SomeoneIsSuper(Run(s0, es).tables);
    }
  }
}
