/** Platform users (handler/admin/users.go, repository/postgres/admin_users.go): the guard that keeps a
    superadmin, and the tenant scope of viewers. Requests run one after another; each of their writes
    may fail, and then the request stops there. */
module Users {
  import opened Common

  const SUPERADMIN := "superadmin"
  const VIEWER := "viewer"

  datatype User = User(username: string, email: string, active: bool, deleted: bool)

  /** The three tables, the roles and tenants they refer to, and the users whose role and scope the
      handlers have set. */
  datatype World = World(users: map<nat, User>, roles: map<nat, seq<string>>, scopes: map<nat, set<nat>>,
                         roleNames: set<string>, tenants: set<nat>, managed: set<nat>)

  datatype Error =
    | ValidationError | UsernameTaken | EmailTaken | NotFound | LastSuperadmin | Internal

  /** What a request asks for, and which of its writes succeed. */
  datatype Request =
    | Create(id: nat, username: string, email: string, passwordLen: nat, role: string, tenantIds: seq<nat>,
             roleOk: bool, scopeOk: bool)
    | Update(id: nat, email: string, isActive: Option<bool>, role: string, tenantIds: seq<nat>,
             rowOk: bool, roleOk: bool, scopeOk: bool)
    | Delete(id: nat, rowOk: bool)

  function RolesOf(roles: map<nat, seq<string>>, id: nat): seq<string> { if id in roles then roles[id] else [] }

  function ScopeOf(scopes: map<nat, set<nat>>, id: nat): set<nat> { if id in scopes then scopes[id] else {} }

  predicate Present(users: map<nat, User>, id: nat) { id in users && !users[id].deleted }

  /** The users CountByRole counts. */
  function Holders(users: map<nat, User>, roles: map<nat, seq<string>>, role: string): set<nat> {
    set id | id in users && !users[id].deleted && users[id].active && role in RolesOf(roles, id)
  }

  function Supers(w: World): set<nat> { Holders(w.users, w.roles, SUPERADMIN) }

  /** validateRoleAndScope accepts: a known role, and one existing tenant for viewers, none for others. */
  predicate Acceptable(roleNames: set<string>, tenants: set<nat>, role: string, tenantIds: seq<nat>) {
    && role in roleNames
    && |tenantIds| == (if role == VIEWER then 1 else 0)
    && forall i :: 0 <= i < |tenantIds| ==> tenantIds[i] in tenants
  }

  /** guardLastSuperadmin lets the change through. */
  predicate Guarded(w: World, id: nat, stays: bool) {
    Present(w.users, id) && SUPERADMIN in RolesOf(w.roles, id) && !stays ==> |Supers(w)| > 1
  }

  predicate EmailFree(users: map<nat, User>, email: string, id: nat) {
    forall u :: u in users && u != id ==> users[u].email != email
  }

  predicate UsernameFree(users: map<nat, User>, username: string) {
    forall u :: u in users ==> users[u].username != username
  }

  function Toset(xs: seq<nat>): set<nat> { set x | x in xs }

  /** The role write and, when asked for, the scope write, as far as they succeed. */
  function Assigned(w: World, id: nat, role: string, tenantIds: seq<nat>, roleOk: bool, scopeOk: bool,
                    scopeToo: bool): World
  {
    if !roleOk then w
    else if scopeToo && !scopeOk then w.(roles := w.roles[id := [role]], managed := w.managed - {id})
    else w.(roles := w.roles[id := [role]],
            scopes := if scopeToo then w.scopes[id := Toset(tenantIds)] else w.scopes,
            managed := w.managed + {id})
  }

  function CreateRefusal(w: World, id: nat, username: string, email: string, passwordLen: nat, role: string,
                         tenantIds: seq<nat>): Option<Error>
  {
    if username == "" || email == "" || passwordLen < 8 then Some(ValidationError)
    else if !Acceptable(w.roleNames, w.tenants, role, tenantIds) then Some(ValidationError)
    else if !UsernameFree(w.users, username) then Some(UsernameTaken)
    else if !EmailFree(w.users, email, id) then Some(EmailTaken)
    else None
  }

  /** No row of any table has this identifier. */
  predicate Unused(w: World, id: nat) { id !in w.users && id !in w.roles && id !in w.scopes && id !in w.managed }

  /** Is the request turned down before any write? */
  function Refusal(w: World, r: Request): Option<Error> {
    match r
    case Create(id, username, email, passwordLen, role, tenantIds, _, _) =>
      CreateRefusal(w, id, username, email, passwordLen, role, tenantIds)
    case Update(id, email, isActive, role, tenantIds, rowOk, _, _) =>
      var active := isActive.None? || isActive.value;
      if email == "" || !Acceptable(w.roleNames, w.tenants, role, tenantIds) then Some(ValidationError)
      else if !Guarded(w, id, role == SUPERADMIN && active) then Some(LastSuperadmin)
      else if !rowOk then Some(Internal)
      else if !Present(w.users, id) then Some(NotFound)
      else if !EmailFree(w.users, email, id) then Some(EmailTaken)
      else None
    case Delete(id, rowOk) =>
      if !Present(w.users, id) then Some(NotFound)
      else if !Guarded(w, id, false) then Some(LastSuperadmin)
      else if !rowOk then Some(Internal)
      else None
  }

  /** The tables after the request. */
  function Handle(w: World, r: Request): World {
    if Refusal(w, r).Some? then w
    else
      match r
      case Create(id, username, email, _, role, tenantIds, roleOk, scopeOk) =>
        Assigned(w.(users := w.users[id := User(username, email, true, false)]), id, role, tenantIds,
                 roleOk, scopeOk, role == VIEWER)
      case Update(id, email, isActive, role, tenantIds, _, roleOk, scopeOk) =>
        if id !in w.users then w
        else Assigned(w.(users := w.users[id := w.users[id].(email := email,
                                                                  active := isActive.None? || isActive.value)]),
                      id, role, tenantIds, roleOk, scopeOk, true)
      case Delete(id, _) =>
        if id !in w.users then w else w.(users := w.users[id := w.users[id].(deleted := true)])
  }

  /** New users get new identifiers. */
  predicate FreshId(w: World, r: Request) { r.Create? ==> Unused(w, r.id) }

  predicate Serial(w: World, rs: seq<Request>)
    decreases |rs|
  {
    rs == [] || (FreshId(w, rs[0]) && Serial(Handle(w, rs[0]), rs[1..]))
  }

  function Run(w: World, rs: seq<Request>): World
    decreases |rs|
  {
    if rs == [] then w else Run(Handle(w, rs[0]), rs[1..])
  }

  // ---------------------------------------------------------------- a superadmin remains

  lemma OneLeft(s: set<nat>, id: nat) returns (other: nat)
    requires |s| > 1
    ensures other in s && other != id
  {
    var rest := s - {id};
    if rest == {} {
      assert s <= {id};
      OneAtMost(s, id);
    }
    other :| other in rest;
  }

  lemma OneAtMost(s: set<nat>, id: nat)
    requires s <= {id}
    ensures |s| <= 1
  {
    if s != {} {
      assert s == {id};
    }
  }

  /** For an active superadmin who would cease to be one, the guard refuses exactly when nobody else is an
      active, undeleted superadmin; for an inactive one it refuses as soon as fewer than two are. */
  lemma GuardIsExact(w: World, id: nat)
    requires id in w.users && !w.users[id].deleted && id in w.roles && "superadmin" in w.roles[id]
    ensures w.users[id].active ==>
              (Guarded(w, id, false) <==>
                 exists a :: a != id && a in w.users && w.users[a].active && !w.users[a].deleted
                             && a in w.roles && "superadmin" in w.roles[a])
    ensures !w.users[id].active ==>
              (Guarded(w, id, false) <==>
                 exists a, b :: a != b && a in w.users && w.users[a].active && !w.users[a].deleted
                                && a in w.roles && "superadmin" in w.roles[a]
                                && b in w.users && w.users[b].active && !w.users[b].deleted
                                && b in w.roles && "superadmin" in w.roles[b])
  {
    if |Supers(w)| > 1 {
      var a := OneLeft(Supers(w), id);
      var b := OneLeft(Supers(w), a);
      assert a in w.users && b in w.users && a in w.roles && b in w.roles;
    } else {
      forall a, b | a in Supers(w) && b in Supers(w) ensures a == b {
        AtMostOne(Supers(w), a, b);
      }
      assert w.users[id].active ==> id in Supers(w);
      forall a | a in w.users && w.users[a].active && !w.users[a].deleted && a in w.roles && "superadmin" in w.roles[a]
        ensures a in Supers(w)
      {
      }
    }
  }

  lemma AtMostOne(s: set<nat>, a: nat, b: nat)
    requires |s| <= 1 && a in s && b in s
    ensures a == b
  {
    SubsetSize({a, b}, s);
  }

  // ---------------------------------------------------------------- the scope of viewers

  /** One role; one tenant for a viewer, none for anybody else. */
  ghost predicate Scoped(w: World, id: nat) {
    && |RolesOf(w.roles, id)| == 1
    && (RolesOf(w.roles, id)[0] == VIEWER ==> exists t :: ScopeOf(w.scopes, id) == {t})
    && (RolesOf(w.roles, id)[0] != VIEWER ==> ScopeOf(w.scopes, id) == {})
  }

  ghost predicate AllScoped(w: World) { forall id :: id in w.managed ==> Scoped(w, id) }

  lemma HandleKeepsScopes(w: World, r: Request)
    requires FreshId(w, r) && AllScoped(w)
    ensures AllScoped(Handle(w, r))
  {
    if Refusal(w, r).None? && !r.Delete? {
      var w' := Handle(w, r);
      if |r.tenantIds| == 1 {
        assert r.tenantIds[0] in r.tenantIds;
        assert Toset(r.tenantIds) == {r.tenantIds[0]};
      } else {
        assert Toset(r.tenantIds) == {};
      }
      forall id | id in w'.managed ensures Scoped(w', id) {
        if id != r.id {
          assert Scoped(w, id);
        }
      }
    }
  }

  lemma {:induction false} ScopesRemain(w: World, rs: seq<Request>)
    requires Serial(w, rs) && AllScoped(w)
    ensures AllScoped(Run(w, rs))
    decreases |rs|
  {
    if rs != [] {
      HandleKeepsScopes(w, rs[0]);
      ScopesRemain(Handle(w, rs[0]), rs[1..]);
    }
  }

  /** A request whose writes all succeed makes its user a managed one, with the role and scope asked
      for; so without database errors every user the handlers touched stays well scoped. */
  lemma AcceptedMeansManaged(w: World, r: Request)
    requires FreshId(w, r) && Refusal(w, r).None? && !r.Delete? && r.roleOk && r.scopeOk
    ensures var w' := Handle(w, r);
            && r.id in w'.managed && RolesOf(w'.roles, r.id) == [r.role]
            && ScopeOf(w'.scopes, r.id) == Toset(r.tenantIds)
  {
    if r.Create? && r.role != VIEWER {
      assert r.tenantIds == [];
      assert Toset(r.tenantIds) == {};
    }
  }

  /** The request meets no database error. */
  predicate WritesWork(r: Request) {
    match r
    case Create(_, _, _, _, _, _, roleOk, scopeOk) => roleOk && scopeOk
    case Update(_, _, _, _, _, rowOk, roleOk, scopeOk) => rowOk && roleOk && scopeOk
    case Delete(_, rowOk) => rowOk
  }

  lemma HandledIsScoped(w: World, r: Request)
    requires FreshId(w, r) && Refusal(w, r).None? && !r.Delete? && WritesWork(r)
    ensures Scoped(Handle(w, r), r.id)
  {
    if |r.tenantIds| == 1 {
      assert r.tenantIds[0] in r.tenantIds;
      assert Toset(r.tenantIds) == {r.tenantIds[0]};
    } else {
      assert Toset(r.tenantIds) == {};
    }
  }

  lemma ScopedStays(w: World, r: Request, id: nat)
    requires FreshId(w, r) && WritesWork(r) && Scoped(w, id)
    ensures Scoped(Handle(w, r), id)
  {
    if Refusal(w, r).None? && !r.Delete? && r.id == id {
      HandledIsScoped(w, r);
    }
  }

  lemma {:induction false} ScopedForGood(w: World, rs: seq<Request>, id: nat)
    requires Serial(w, rs) && Scoped(w, id) && forall j :: 0 <= j < |rs| ==> WritesWork(rs[j])
    ensures Scoped(Run(w, rs), id)
    decreases |rs|
  {
    if rs != [] {
      ScopedStays(w, rs[0], id);
      ScopedForGood(Handle(w, rs[0]), rs[1..], id);
    }
  }

  /** In every serial run without database errors, whoever was created or updated at some point has, from
      then on, one role, and one tenant if a viewer and none otherwise. */
  lemma {:induction false} ErrorFreeRunScopes(w: World, rs: seq<Request>, i: nat)
    requires Serial(w, rs) && forall j :: 0 <= j < |rs| ==> WritesWork(rs[j])
    requires i < |rs| && !rs[i].Delete? && Refusal(Run(w, rs[..i]), rs[i]).None?
    ensures Scoped(Run(w, rs), rs[i].id)
    decreases |rs|
  {
    if i == 0 {
      assert rs[..0] == [];
      HandledIsScoped(w, rs[0]);
      ScopedForGood(Handle(w, rs[0]), rs[1..], rs[0].id);
    } else {
      assert rs[..i][1..] == rs[1..][..i - 1];
      ErrorFreeRunScopes(Handle(w, rs[0]), rs[1..], i - 1);
    }
  }

  /** The role and the scope are two writes. When the second fails, an updated user is well scoped exactly
      when the role did not change between viewer and something else; a created one exactly when the role
      is not viewer, for a created viewer is left with no tenant at all, which reads as every tenant. */
  lemma FailedScopeWrite(w: World, r: Request)
    requires FreshId(w, r) && !r.Delete? && Refusal(w, r).None? && r.roleOk && !r.scopeOk
    requires r.Update? ==> Scoped(w, r.id)
    ensures r.Update? ==> (Scoped(Handle(w, r), r.id) <==> (r.role == VIEWER <==> RolesOf(w.roles, r.id)[0] == VIEWER))
    ensures r.Create? ==> (Scoped(Handle(w, r), r.id) <==> r.role != VIEWER) && ScopeOf(Handle(w, r).scopes, r.id) == {}
  {
    if r.Update? {
      if RolesOf(w.roles, r.id)[0] == VIEWER {
        var t :| ScopeOf(w.scopes, r.id) == {t};
        assert t in ScopeOf(w.scopes, r.id);
      } else {
        forall t: nat ensures ScopeOf(w.scopes, r.id) != {t} {
          assert t in {t};
        }
      }
    } else {
      assert r.id !in w.scopes;
      forall t: nat ensures {} != {t} {
        assert t in {t};
      }
    }
  }

  // ---------------------------------------------------------------- names and addresses

  /** No two rows, deleted ones included, share a username or an e-mail address. */
  ghost predicate Distinct(users: map<nat, User>) {
    forall u, v :: u in users && v in users && u != v ==>
      users[u].username != users[v].username && users[u].email != users[v].email
  }

  /** One row is new, or has a new address that no other row has. */
  lemma OneRowChanges(users: map<nat, User>, users': map<nat, User>, id: nat)
    requires Distinct(users) && id in users' &&
             (forall u :: u in users' && u != id ==> u in users && users'[u] == users[u])
    requires EmailFree(users, users'[id].email, id)
    requires if id in users then users'[id].username == users[id].username else UsernameFree(users, users'[id].username)
    ensures Distinct(users')
  {
  }

  lemma HandleKeepsDistinct(w: World, r: Request)
    requires FreshId(w, r) && Distinct(w.users)
    ensures Distinct(Handle(w, r).users)
  {
    if Refusal(w, r).None? {
      var users' := Handle(w, r).users;
      assert EmailFree(w.users, users'[r.id].email, r.id);
      OneRowChanges(w.users, users', r.id);
    }
  }

  lemma {:induction false} RowsStayDistinct(w: World, rs: seq<Request>)
    requires Serial(w, rs) && Distinct(w.users)
    ensures Distinct(Run(w, rs).users)
    decreases |rs|
  {
    if rs != [] {
      HandleKeepsDistinct(w, rs[0]);
      RowsStayDistinct(Handle(w, rs[0]), rs[1..]);
    }
  }

  // ---------------------------------------------------------------- the handlers

  class Handlers {
    const roleNames: set<string>
    const tenants: set<nat>
    var users: map<nat, User>
    var roles: map<nat, seq<string>>
    var scopes: map<nat, set<nat>>
    ghost var managed: set<nat>

    ghost function Snapshot(): World
      reads this
    {
      World(users, roles, scopes, roleNames, tenants, managed)
    }

    constructor (roleNames: set<string>, tenants: set<nat>, users: map<nat, User>, roles: map<nat, seq<string>>)
      ensures Snapshot() == World(users, roles, map[], roleNames, tenants, {}) && AllScoped(Snapshot())
    {
      this.roleNames, this.tenants, this.users, this.roles := roleNames, tenants, users, roles;
      scopes, managed := map[], {};
    }

    /** AdminUserRepository.SetRole: delete, then insert, in one transaction. */
    method SetRole(id: nat, role: string)
      modifies `roles
      ensures roles == old(roles)[id := [role]]
    {
      roles := roles - {id};
      roles := roles[id := [role]];
    }

    /** AdminUserRepository.SetTenantScope: delete, then insert one by one, in one transaction. */
    method SetTenantScope(id: nat, tenantIds: seq<nat>)
      modifies `scopes
      ensures scopes == old(scopes)[id := Toset(tenantIds)]
    {
      scopes := scopes[id := {}];
      assert Toset(tenantIds[..0]) == {};
      for i := 0 to |tenantIds|
        invariant scopes == old(scopes)[id := Toset(tenantIds[..i])]
      {
        scopes := scopes[id := scopes[id] + {tenantIds[i]}];
        assert tenantIds[..i + 1] == tenantIds[..i] + [tenantIds[i]];
        assert Toset(tenantIds[..i + 1]) == Toset(tenantIds[..i]) + {tenantIds[i]};
      }
      assert tenantIds[..|tenantIds|] == tenantIds;
    }

    method CountByRole(role: string) returns (n: nat)
      ensures n == |set id | id in users && users[id].active && !users[id].deleted && id in roles && role in roles[id]|
      ensures n == |Holders(users, roles, role)|
    {
      var holders := set id | id in users && !users[id].deleted && users[id].active && role in RolesOf(roles, id);
      assert holders == Holders(users, roles, role);
      assert holders
             == set id | id in users && users[id].active && !users[id].deleted && id in roles && role in roles[id];
      n := |holders|;
    }

    method ValidateRoleAndScope(role: string, tenantIds: seq<nat>) returns (ok: bool)
      ensures ok <==>
                && role in roleNames && (if role == "viewer" then |tenantIds| == 1 else tenantIds == [])
                && forall t :: t in tenantIds ==> t in tenants
      ensures ok == Acceptable(roleNames, tenants, role, tenantIds)
    {
      if role !in roleNames {
        return false;
      }
      if role != VIEWER && |tenantIds| > 0 {
        return false;
      }
      if role == VIEWER && |tenantIds| != 1 {
        return false;
      }
      for i := 0 to |tenantIds|
        invariant forall j :: 0 <= j < i ==> tenantIds[j] in tenants
      {
        if tenantIds[i] !in tenants {
          return false;
        }
      }
      ok := true;
    }

    /** An empty newRole stands for deletion. */
    method GuardLastSuperadmin(id: nat, newRole: string, newActive: bool) returns (ok: bool)
      ensures ok == Guarded(Snapshot(), id, newRole == SUPERADMIN && newActive)
      ensures var supers := set u | u in users && users[u].active && !users[u].deleted
                                    && u in roles && "superadmin" in roles[u];
              ok <==> !(id in users && !users[id].deleted && id in roles && "superadmin" in roles[id])
                      || (newRole == "superadmin" && newActive) || |supers| > 1
    {
      if id !in users || users[id].deleted {
        return true;
      }
      var wasSuperadmin := false;
      var mine := RolesOf(roles, id);
      for i := 0 to |mine|
        invariant wasSuperadmin <==> SUPERADMIN in mine[..i]
      {
        if mine[i] == SUPERADMIN {
          wasSuperadmin := true;
        }
        assert mine[..i + 1] == mine[..i] + [mine[i]];
      }
      assert mine[..|mine|] == mine;
      if !wasSuperadmin {
        return true;
      }
      var willStaySuperadmin := newRole == SUPERADMIN && newActive;
      if willStaySuperadmin {
        return true;
      }
      var count := CountByRole(SUPERADMIN);
      ok := count > 1;
    }

    /** The two writes that follow a stored row. */
    method Assign(id: nat, role: string, tenantIds: seq<nat>, scopeToo: bool, roleOk: bool, scopeOk: bool)
      returns (r: Result<(), Error>)
      modifies `roles, `scopes, `managed
      ensures Snapshot() == Assigned(old(Snapshot()), id, role, tenantIds, roleOk, scopeOk, scopeToo)
      ensures r == if roleOk && (scopeToo ==> scopeOk) then Ok(()) else Err(Internal)
    {
      if !roleOk {
        return Err(Internal);
      }
      SetRole(id, role);
      if scopeToo {
        if !scopeOk {
          managed := managed - {id};
          return Err(Internal);
        }
        SetTenantScope(id, tenantIds);
      }
      managed := managed + {id};
      r := Ok(());
    }

    method CreateUser(id: nat, username: string, email: string, password: string, role: string, tenantIds: seq<nat>,
                      ghost req: Request, roleOk: bool, scopeOk: bool)
      returns (r: Result<(), Error>)
      requires req == Create(id, username, email, |password|, role, tenantIds, roleOk, scopeOk)
      requires id !in users
      modifies this
      ensures Snapshot() == Handle(old(Snapshot()), req)
      ensures r == if username == "" || email == "" || |password| < 8 then Err(ValidationError)
                   else if !(&& role in roleNames && (if role == "viewer" then |tenantIds| == 1 else tenantIds == [])
                             && forall t :: t in tenantIds ==> t in tenants) then Err(ValidationError)
                   else if exists u :: u in old(users) && old(users)[u].username == username then Err(UsernameTaken)
                   else if exists u :: u in old(users) && old(users)[u].email == email then Err(EmailTaken)
                   else if !roleOk || (role == "viewer" && !scopeOk) then Err(Internal)
                   else Ok(())
      ensures if r.Err? && r.error != Internal then unchanged(this)
              else
                && users == old(users)[id := User(username, email, true, false)]
                && roles == (if roleOk then old(roles)[id := [role]] else old(roles))
                && scopes == if r.Ok? && role == "viewer" then old(scopes)[id := set t | t in tenantIds]
                             else old(scopes)
    {
      if username == "" || email == "" || |password| < 8 {
        return Err(ValidationError);
      }
      var ok := ValidateRoleAndScope(role, tenantIds);
      if !ok {
        return Err(ValidationError);
      }
      if exists u :: u in users && users[u].username == username {
        return Err(UsernameTaken);
      }
      if exists u :: u in users && users[u].email == email {
        return Err(EmailTaken);
      }
      users := users[id := User(username, email, true, false)];
      r := Assign(id, role, tenantIds, role == VIEWER, roleOk, scopeOk);
    }

    method UpdateUser(id: nat, email: string, isActive: Option<bool>, role: string, tenantIds: seq<nat>,
                      ghost req: Request, rowOk: bool, roleOk: bool, scopeOk: bool)
      returns (r: Result<(), Error>)
      requires req == Update(id, email, isActive, role, tenantIds, rowOk, roleOk, scopeOk)
      modifies this
      ensures Snapshot() == Handle(old(Snapshot()), req)
      ensures var active := isActive.None? || isActive.value;
              var target := id in old(users) && !old(users)[id].deleted;
              var supers := set u | u in old(users) && old(users)[u].active && !old(users)[u].deleted
                                    && u in old(roles) && "superadmin" in old(roles)[u];
              r == if email == "" then Err(ValidationError)
                   else if !(&& role in roleNames && (if role == "viewer" then |tenantIds| == 1 else tenantIds == [])
                             && forall t :: t in tenantIds ==> t in tenants) then Err(ValidationError)
                   else if && target && id in old(roles) && "superadmin" in old(roles)[id]
                           && !(role == "superadmin" && active) && |supers| <= 1 then Err(LastSuperadmin)
                   else if !rowOk then Err(Internal)
                   else if !target then Err(NotFound)
                   else if exists u :: u in old(users) && u != id && old(users)[u].email == email then Err(EmailTaken)
                   else if !roleOk || !scopeOk then Err(Internal)
                   else Ok(())
      ensures if r.Err? && !(r.error == Internal && rowOk) then unchanged(this)
              else
                && users == old(users)[id := old(users)[id].(email := email,
                                                             active := isActive.None? || isActive.value)]
                && roles == (if roleOk then old(roles)[id := [role]] else old(roles))
                && scopes == if r.Ok? then old(scopes)[id := set t | t in tenantIds] else old(scopes)
    {
      if email == "" {
        return Err(ValidationError);
      }
      var ok := ValidateRoleAndScope(role, tenantIds);
      if !ok {
        return Err(ValidationError);
      }
      var active := true;
      if isActive.Some? {
        active := isActive.value;
      }
      ok := GuardLastSuperadmin(id, role, active);
      if !ok {
        return Err(LastSuperadmin);
      }
      if !rowOk {
        return Err(Internal);
      }
      if id !in users || users[id].deleted {
        return Err(NotFound);
      }
      if exists u :: u in users && u != id && users[u].email == email {
        return Err(EmailTaken);
      }
      users := users[id := users[id].(email := email, active := active)];
      r := Assign(id, role, tenantIds, true, roleOk, scopeOk);
    }

    method DeleteUser(id: nat, rowOk: bool) returns (r: Result<(), Error>)
      modifies this
      ensures Snapshot() == Handle(old(Snapshot()), Delete(id, rowOk))
      ensures var supers := set u | u in old(users) && old(users)[u].active && !old(users)[u].deleted
                                    && u in old(roles) && "superadmin" in old(roles)[u];
              r == if !(id in old(users) && !old(users)[id].deleted) then Err(NotFound)
                   else if id in roles && "superadmin" in roles[id] && |supers| <= 1 then Err(LastSuperadmin)
                   else if !rowOk then Err(Internal)
                   else Ok(())
      ensures if r.Err? then unchanged(this)
              else
                && users == old(users)[id := old(users)[id].(deleted := true)] && roles == old(roles)
                && scopes == old(scopes)
      ensures r.Ok? && id in roles && "superadmin" in roles[id] ==>
                exists a :: a != id && a in users && users[a].active && !users[a].deleted
                            && a in roles && "superadmin" in roles[a]
    {
      if id !in users || users[id].deleted {
        return Err(NotFound);
      }
      ghost var w := Snapshot();
      if SUPERADMIN in RolesOf(roles, id) {
        GuardIsExact(w, id);
      }
      var ok := GuardLastSuperadmin(id, "", false);
      if !ok {
        return Err(LastSuperadmin);
      }
      if !rowOk {
        return Err(Internal);
      }
      users := users[id := users[id].(deleted := true)];
      r := Ok(());
    }
  }
}
