/** Upstream rows and the credentials stored with them (handler/admin/config.go,
    repository/postgres/upstreams.go, upstream/validate.go). An update reads the row, edits its copy
    and writes the copy back; other requests may run between the read and the write. */
module Upstreams {
  import opened Common

  datatype Row = Row(name: string, url: string, username: Option<string>, password: Option<string>,
                     timeoutMs: int, maxRetries: int, active: bool, isDefault: bool)

  /** An update's body; absent pointers are None. */
  datatype Edit = Edit(name: string, url: string, username: Option<string>, password: Option<string>,
                       timeoutMs: int, maxRetries: int, active: Option<bool>)

  /** How the system reads URLs: the hostname with letter case folded away (None when the URL does not
      parse or names no host), and whether ValidateURL accepts it. */
  datatype Urls = Urls(host: string -> Option<string>, valid: string -> bool)

  /** An administrator entered this text for upstream id, in a request that left it on this host. */
  datatype Entry = Username(id: nat, text: string, host: Option<string>)
                 | Password(id: nat, text: string, host: Option<string>)

  datatype Phase =
    | Editing(id: nat, row: Row, edit: Edit)
    | Deleting(id: nat, row: Row)
    | Clearing(target: nat, seen: set<nat>)
    | Cleared(target: nat, cleared: set<nat>)
    | Done

  datatype World = World(urls: Urls, rows: map<nat, Row>, ops: map<nat, Phase>, entered: set<Entry>)

  predicate SameHost(u: Urls, a: string, b: string) {
    u.host(a).Some? && u.host(b).Some? && u.host(a) == u.host(b)
  }

  /** A text field of a request: absent keeps what is there, empty clears it. */
  function Entered(field: Option<string>, kept: Option<string>): Option<string> {
    if field.None? then kept else if field.value == "" then None else field
  }

  predicate Moves(u: Urls, row: Row, e: Edit) { e.url != "" && !SameHost(u, row.url, e.url) }

  /** The update drops credentials that were stored for another host. */
  predicate Clears(u: Urls, row: Row, e: Edit) { Moves(u, row, e) && (row.username.Some? || row.password.Some?) }

  function Edited(u: Urls, row: Row, e: Edit): Row {
    var moved := Moves(u, row, e);
    var password := Entered(e.password, if moved then None else row.password);
    var username := Entered(e.username, if moved then None else row.username);
    Row(if e.name != "" then e.name else row.name,
        if e.url != "" then e.url else row.url,
        if Clears(u, row, e) && password.None? then None else username,
        password,
        if e.timeoutMs > 0 then e.timeoutMs else row.timeoutMs,
        if e.maxRetries >= 0 then e.maxRetries else row.maxRetries,
        if e.active.Some? then e.active.value else row.active,
        row.isDefault)
  }

  function NewRow(e: Edit): Row {
    Row(e.name, e.url, Entered(e.username, None), Entered(e.password, None),
        if e.timeoutMs <= 0 then 10000 else e.timeoutMs, if e.maxRetries < 0 then 1 else e.maxRetries, true, false)
  }

  /** What a request's body enters for upstream id, on the host its row ends up with. */
  function Entries(u: Urls, id: nat, e: Edit, url: string): set<Entry> {
    (if e.username.Some? then {Username(id, e.username.value, u.host(url))} else {})
    + (if e.password.Some? then {Password(id, e.password.value, u.host(url))} else {})
  }

  // ---------------------------------------------------------------- the steps

  datatype Step =
    | Create(id: nat, edit: Edit)
    | Load(op: nat, id: nat, change: Option<Edit>, decrypts: bool)
    | Store(op: nat)
    | Begin(op: nat, id: nat)
    | Clear(op: nat)
    | Commit(op: nat)
    | Abort(op: nat)

  function PhaseAt(w: World, op: nat): Phase { if op in w.ops then w.ops[op] else Done }

  /** GetByID: a password that cannot be decrypted reads as none. */
  function Loaded(row: Row, decrypts: bool): Row { if decrypts then row else row.(password := None) }

  predicate CreateOk(u: Urls, e: Edit) { e.name != "" && e.url != "" && u.valid(e.url) }

  predicate EditOk(u: Urls, e: Edit) { e.url != "" ==> u.valid(e.url) }

  /** The partial unique index on is_default, over the rows that are the default and active. */
  ghost predicate Indexed(rows: map<nat, Row>) {
    forall a, b :: a in rows && b in rows && Serves(rows[a]) && Serves(rows[b]) ==> a == b
  }

  predicate Serves(row: Row) { row.isDefault && row.active }

  /** Some other row serves already: the index refuses to let id serve as well. */
  predicate Taken(rows: map<nat, Row>, id: nat) { exists r :: r in rows && r != id && Serves(rows[r]) }

  predicate Refused(rows: map<nat, Row>, id: nat, row: Row) {
    id in rows && rows[id].isDefault && row.active && Taken(rows, id)
  }

  /** The write of an update: every column but is_default, unless the index refuses it. */
  function Written(rows: map<nat, Row>, id: nat, row: Row): map<nat, Row> {
    if id !in rows || Refused(rows, id, row) then rows else rows[id := row.(isDefault := rows[id].isDefault)]
  }

  /** Another transaction has cleared this row and not yet committed: writers of the row wait. */
  predicate Locked(w: World, op: nat, id: nat) {
    exists o :: o in w.ops && o != op && w.ops[o].Cleared? && id in w.ops[o].cleared
  }

  function Defaults(rows: map<nat, Row>): set<nat> { set r | r in rows && rows[r].isDefault }

  /** What the first update of SetDefault's transaction does to the rows it reached. */
  function Undefaulted(rows: map<nat, Row>, cleared: set<nat>): map<nat, Row> {
    map r | r in rows :: if r in cleared then rows[r].(isDefault := false) else rows[r]
  }

  /** Its second update: the row asked for is the default, and active. */
  function Marked(rows: map<nat, Row>, id: nat): map<nat, Row> {
    if id in rows then rows[id := rows[id].(isDefault := true, active := true)] else rows
  }

  /** The transaction's effect when it commits; the index can roll it back. */
  function Committed(rows: map<nat, Row>, id: nat, cleared: set<nat>): map<nat, Row> {
    var rows' := Undefaulted(rows, cleared);
    if id in rows && Taken(rows', id) then rows else Marked(rows', id)
  }

  function StoreNext(w: World, op: nat): World {
    match PhaseAt(w, op)
    case Editing(id, row, edit) =>
      var row' := Edited(w.urls, row, edit);
      if Locked(w, op, id) then w
      else if Refused(w.rows, id, row') then w.(ops := w.ops[op := Done])
      else w.(rows := Written(w.rows, id, row'), ops := w.ops[op := Done],
              entered := w.entered + Entries(w.urls, id, edit, row'.url))
    case Deleting(id, row) =>
      if Locked(w, op, id) then w
      else w.(rows := Written(w.rows, id, row.(active := false)), ops := w.ops[op := Done])
    case _ => w
  }

  /** SetDefault under READ COMMITTED. The first update fixes the rows it looks at when it begins, waits
      for those that another transaction holds, and then changes those that are still the default; what
      it did becomes visible at the commit, with the second update. */
  function DefaultNext(w: World, s: Step): World
    requires s.Begin? || s.Clear? || s.Commit?
  {
    match s
    case Begin(op, id) => w.(ops := w.ops[op := Clearing(id, Defaults(w.rows))])
    case Clear(op) =>
      var p := PhaseAt(w, op);
      if !p.Clearing? || exists r :: r in p.seen && Locked(w, op, r) then w
      else w.(ops := w.ops[op := Cleared(p.target, p.seen * Defaults(w.rows))])
    case Commit(op) =>
      var p := PhaseAt(w, op);
      if !p.Cleared? || Locked(w, op, p.target) then w
      else w.(rows := Committed(w.rows, p.target, p.cleared), ops := w.ops[op := Done])
  }

  function Next(w: World, s: Step): World {
    match s
    case Create(id, edit) =>
      if !CreateOk(w.urls, edit) || id in w.rows then w
      else w.(rows := w.rows[id := NewRow(edit)], entered := w.entered + Entries(w.urls, id, edit, edit.url))
    case Load(op, id, change, decrypts) =>
      if id !in w.rows || (change.Some? && !EditOk(w.urls, change.value)) then w.(ops := w.ops[op := Done])
      else
        var row := Loaded(w.rows[id], decrypts);
        w.(ops := w.ops[op := if change.Some? then Editing(id, row, change.value) else Deleting(id, row)])
    case Store(op) => StoreNext(w, op)
    case Begin(_, _) => DefaultNext(w, s)
    case Clear(_) => DefaultNext(w, s)
    case Commit(_) => DefaultNext(w, s)
    case Abort(op) => w.(ops := w.ops[op := Done])
  }

  function Run(w: World, es: seq<Step>): World {
    if es == [] then w else Next(Run(w, es[..|es| - 1]), es[|es| - 1])
  }

  predicate Boot(w: World) {
    && w.ops == map[]
    && forall id :: id in w.rows ==> w.rows[id].username.None? && w.rows[id].password.None?
  }

  // ---------------------------------------------------------------- whose credentials

  predicate RowOk(u: Urls, entered: set<Entry>, id: nat, row: Row) {
    && (row.username.Some? ==> Username(id, row.username.value, u.host(row.url)) in entered)
    && (row.password.Some? ==> Password(id, row.password.value, u.host(row.url)) in entered)
  }

  ghost predicate Inv(w: World) {
    && (forall id :: id in w.rows ==> RowOk(w.urls, w.entered, id, w.rows[id]))
    && (forall op :: op in w.ops && (w.ops[op].Editing? || w.ops[op].Deleting?) ==>
          RowOk(w.urls, w.entered, w.ops[op].id, w.ops[op].row))
  }

  /** Editing a row whose credentials belong to its host gives a row whose credentials belong to its
      host, be it the same one or another. */
  lemma EditedKeeps(u: Urls, entered: set<Entry>, id: nat, row: Row, e: Edit)
    requires RowOk(u, entered, id, row)
    ensures RowOk(u, entered + Entries(u, id, e, Edited(u, row, e).url), id, Edited(u, row, e))
  {
  }

  lemma StoreKeeps(w: World, op: nat)
    requires Inv(w)
    ensures Inv(StoreNext(w, op))
  {
    var p := PhaseAt(w, op);
    if p.Editing? {
      assert RowOk(w.urls, w.entered, p.id, p.row);
      EditedKeeps(w.urls, w.entered, p.id, p.row, p.edit);
    } else if p.Deleting? {
      assert RowOk(w.urls, w.entered, p.id, p.row);
    }
  }

  lemma DefaultKeeps(w: World, s: Step)
    requires Inv(w) && (s.Begin? || s.Clear? || s.Commit?)
    ensures Inv(DefaultNext(w, s))
  {
  }

  lemma NextKeeps(w: World, s: Step)
    requires Inv(w)
    ensures Inv(Next(w, s))
  {
    match s {
      case Store(op) => StoreKeeps(w, op);
      case Begin(_, _) => DefaultKeeps(w, s);
      case Clear(_) => DefaultKeeps(w, s);
      case Commit(_) => DefaultKeeps(w, s);
      case _ =>
    }
  }

  lemma {:induction false} RunKeeps(w: World, es: seq<Step>)
    requires Inv(w)
    ensures Inv(Run(w, es)) && Run(w, es).urls == w.urls
  {
    if es != [] {
      RunKeeps(w, es[..|es| - 1]);
      NextKeeps(Run(w, es[..|es| - 1]), es[|es| - 1]);
    }
  }

  /** In every interleaving, a stored username or password was entered for this very upstream while it
      was, or was being moved, on the host it is on now. */
  lemma CredentialsBelongToHost(w: World, es: seq<Step>, id: nat)
    requires Boot(w) && id in Run(w, es).rows
    ensures var row := Run(w, es).rows[id];
            && (row.username.Some? ==> Username(id, row.username.value, w.urls.host(row.url)) in Run(w, es).entered)
            && (row.password.Some? ==> Password(id, row.password.value, w.urls.host(row.url)) in Run(w, es).entered)
  {
    RunKeeps(w, es);
  }

  /** A move to another host, when there are credentials, leaves both or neither, and those it leaves were
      typed into this very request. */
  lemma ClearedMoveIsWhole(u: Urls, row: Row, e: Edit)
    requires e.url != "" && (u.host(row.url).None? || u.host(e.url) != u.host(row.url))
    requires row.username.Some? || row.password.Some?
    ensures var row' := Edited(u, row, e);
            && row'.url == e.url
            && (row'.username.Some? ==> row'.password.Some?)
            && (row'.username.Some? ==> e.username == row'.username)
            && (row'.password.Some? ==> e.password == row'.password)
  {
  }

  /** Staying on the host changes only the credentials the request names. */
  lemma StayingKeepsCredentials(u: Urls, row: Row, e: Edit)
    requires e.url == "" || (u.host(row.url).Some? && u.host(e.url) == u.host(row.url))
    ensures var row' := Edited(u, row, e);
            && row'.url == (if e.url == "" then row.url else e.url)
            && row'.username == (if e.username.None? then row.username else if e.username == Some("") then None
                                 else e.username)
            && row'.password == (if e.password.None? then row.password else if e.password == Some("") then None
                                 else e.password)
  {
  }

  // ---------------------------------------------------------------- the default upstream

  lemma StoreIndexed(w: World, op: nat)
    requires Indexed(w.rows)
    ensures Indexed(StoreNext(w, op).rows)
  {
  }

  lemma CommitIndexed(rows: map<nat, Row>, id: nat, cleared: set<nat>)
    requires Indexed(rows)
    ensures Indexed(Committed(rows, id, cleared))
  {
  }

  /** In every interleaving at most one row is the default and active: the upstream that GetDefault
      finds is unique. */
  lemma {:induction false} AtMostOneServes(w: World, es: seq<Step>)
    requires Indexed(w.rows)
    ensures Indexed(Run(w, es).rows)
    ensures var rows := Run(w, es).rows;
            forall a, b :: a in rows && b in rows && a != b ==>
              !(rows[a].isDefault && rows[a].active && rows[b].isDefault && rows[b].active)
  {
    if es != [] {
      AtMostOneServes(w, es[..|es| - 1]);
      var u, s := Run(w, es[..|es| - 1]), es[|es| - 1];
      if s.Store? {
        StoreIndexed(u, s.op);
      } else if s.Commit? && PhaseAt(u, s.op).Cleared? {
        CommitIndexed(u.rows, PhaseAt(u, s.op).target, PhaseAt(u, s.op).cleared);
      }
    }
  }

  ghost predicate OneDefault(rows: map<nat, Row>) {
    forall a, b :: a in rows && b in rows && rows[a].isDefault && rows[b].isDefault ==> a == b
  }

  /** The second update of this transaction runs, finds its row, and the index lets it through. */
  predicate Commits(w: World, op: nat) {
    var p := PhaseAt(w, op);
    && p.Cleared? && !Locked(w, op, p.target) && p.target in w.rows
    && !Taken(Undefaulted(w.rows, p.cleared), p.target)
  }

  /** A row that this commit's first update has not cleared is still the default. */
  predicate Stray(w: World, s: Step) {
    && s.Commit? && Commits(w, s.op)
    && var p := PhaseAt(w, s.op);
       exists r :: r in w.rows && r != p.target && r !in p.cleared && w.rows[r].isDefault
  }

  lemma CommitOneDefault(w: World, s: Step)
    requires OneDefault(w.rows) && s.Commit?
    ensures OneDefault(Next(w, s).rows) <==> !Stray(w, s)
  {
    var p := PhaseAt(w, s.op);
    if Commits(w, s.op) {
      var after := Next(w, s).rows;
      assert after[p.target].isDefault;
      if r :| r in w.rows && r != p.target && r !in p.cleared && w.rows[r].isDefault {
        assert after[r].isDefault;
      }
    }
  }

  lemma OthersOneDefault(w: World, s: Step)
    requires OneDefault(w.rows) && !s.Commit?
    ensures OneDefault(Next(w, s).rows)
  {
  }

  /** Without the active flag, uniqueness is lost at stray commits and nowhere else: all states of a run
      have at most one default row exactly when no commit of the run is stray. */
  lemma OneDefaultExactlyWithoutStrays(w: World, es: seq<Step>)
    requires OneDefault(w.rows)
    ensures (forall n: nat :: n <= |es| ==> OneDefault(Run(w, es[..n]).rows))
            <==> (forall n: nat :: n < |es| ==> !Stray(Run(w, es[..n]), es[n]))
  {
    if forall n: nat :: n <= |es| ==> OneDefault(Run(w, es[..n]).rows) {
      forall n: nat | n < |es| ensures !Stray(Run(w, es[..n]), es[n]) {
        assert es[..n + 1][..n] == es[..n];
        if es[n].Commit? {
          CommitOneDefault(Run(w, es[..n]), es[n]);
        }
      }
    }
    if forall n: nat :: n < |es| ==> !Stray(Run(w, es[..n]), es[n]) {
      forall n: nat | n <= |es| ensures OneDefault(Run(w, es[..n]).rows) {
        NoStrays(w, es, n);
      }
    }
  }

  lemma {:induction false} NoStrays(w: World, es: seq<Step>, n: nat)
    requires OneDefault(w.rows) && n <= |es|
    requires forall m: nat :: m < |es| ==> !Stray(Run(w, es[..m]), es[m])
    ensures OneDefault(Run(w, es[..n]).rows)
  {
    if n > 0 {
      NoStrays(w, es, n - 1);
      assert es[..n][..n - 1] == es[..n - 1];
      if es[n - 1].Commit? {
        CommitOneDefault(Run(w, es[..n - 1]), es[n - 1]);
      } else {
        OthersOneDefault(Run(w, es[..n - 1]), es[n - 1]);
      }
    }
  }

  /** What a transaction has seen or cleared is every default row there is. */
  predicate SeesAll(w: World, op: nat) {
    match PhaseAt(w, op)
    case Clearing(_, seen) => seen == Defaults(w.rows)
    case Cleared(_, cleared) => cleared == Defaults(w.rows)
    case _ => true
  }

  lemma DefaultsStay(w: World, s: Step)
    requires !s.Commit?
    ensures Defaults(Next(w, s).rows) == Defaults(w.rows)
  {
    assert forall r :: r in w.rows ==> r in Next(w, s).rows && Next(w, s).rows[r].isDefault == w.rows[r].isDefault;
    assert forall r :: r in Next(w, s).rows && r !in w.rows ==> !Next(w, s).rows[r].isDefault;
  }

  lemma SeesAllStep(w: World, s: Step, op: nat)
    requires SeesAll(w, op) && !s.Commit?
    ensures SeesAll(Next(w, s), op)
  {
    DefaultsStay(w, s);
    if s.Clear? && s.op == op && PhaseAt(w, op).Clearing? {
      assert PhaseAt(w, op).seen * Defaults(w.rows) == Defaults(w.rows);
    }
  }

  /** A commit is stray only if another set-default committed since its transaction began. */
  lemma {:induction false} StrayOnlyWhenOvertaken(w: World, op: nat, id: nat, es: seq<Step>)
    requires forall n :: 0 <= n < |es| ==> !es[n].Commit?
    ensures var u := Run(Next(w, Begin(op, id)), es); SeesAll(u, op) && !Stray(u, Commit(op))
  {
    if es != [] {
      var w1 := Next(w, Begin(op, id));
      StrayOnlyWhenOvertaken(w, op, id, es[..|es| - 1]);
      SeesAllStep(Run(w1, es[..|es| - 1]), es[|es| - 1], op);
    }
  }

  /** This step makes r the default. */
  predicate Marks(w: World, s: Step, r: nat) { s.Commit? && Commits(w, s.op) && PhaseAt(w, s.op).target == r }

  ghost predicate MarkedIn(w: World, es: seq<Step>, r: nat) {
    exists n: nat :: n < |es| && Marks(Run(w, es[..n]), es[n], r)
  }

  /** No other request uses the number of this one. */
  predicate Alone(es: seq<Step>, op: nat) {
    forall n :: 0 <= n < |es| ==> (es[n].Begin? || es[n].Load?) ==> es[n].op != op
  }

  /** The transaction has seen or cleared r, unless it has ended. */
  predicate Saw(w: World, op: nat, r: nat) {
    match PhaseAt(w, op)
    case Clearing(_, seen) => r in seen
    case Cleared(_, cleared) => r in cleared
    case _ => true
  }

  lemma NewDefaultIsMarked(w: World, s: Step, r: nat)
    requires r in Defaults(Next(w, s).rows) && r !in Defaults(w.rows)
    ensures Marks(w, s, r)
  {
    if !s.Commit? {
      DefaultsStay(w, s);
    }
  }

  lemma SawStays(w: World, s: Step, op: nat, r: nat)
    requires r in Defaults(w.rows) && Saw(w, op, r) && (s.Begin? || s.Load? ==> s.op != op)
    ensures Saw(Next(w, s), op, r)
  {
  }

  lemma PhaseMoves(w: World, s: Step, op: nat)
    requires s.Begin? || s.Load? ==> s.op != op
    ensures var p, p' := PhaseAt(w, op), PhaseAt(Next(w, s), op);
            p' == p || p'.Done? || (p.Clearing? && p'.Cleared? && s == Clear(op) && p'.target == p.target)
  {
  }

  lemma {:induction false} SawOrMarked(w: World, op: nat, id: nat, es: seq<Step>, r: nat)
    requires Alone(es, op)
    ensures var u := Run(Next(w, Begin(op, id)), es);
            && (r in Defaults(u.rows) ==> Saw(u, op, r) || MarkedIn(Next(w, Begin(op, id)), es, r))
            && (PhaseAt(u, op).Cleared? || PhaseAt(u, op).Clearing? ==> PhaseAt(u, op).target == id)
  {
    if es != [] {
      var w1, pre, s := Next(w, Begin(op, id)), es[..|es| - 1], es[|es| - 1];
      var v := Run(w1, pre);
      SawOrMarked(w, op, id, pre, r);
      PhaseMoves(v, s, op);
      if r in Defaults(Next(v, s).rows) {
        if r !in Defaults(v.rows) {
          NewDefaultIsMarked(v, s, r);
        } else if Saw(v, op, r) {
          SawStays(v, s, op, r);
        } else {
          MarkedStays(w1, es, r);
        }
      }
    }
  }

  lemma MarkedStays(w: World, es: seq<Step>, r: nat)
    requires es != [] && MarkedIn(w, es[..|es| - 1], r)
    ensures MarkedIn(w, es, r)
  {
    var pre := es[..|es| - 1];
    var n: nat :| n < |pre| && Marks(Run(w, pre[..n]), pre[n], r);
    assert pre[..n] == es[..n] && pre[n] == es[n];
  }

  /** In terms of what happened: a commit is stray exactly when it goes through although another
      set-default has committed since its transaction began, whose row it did not clear, which still is
      the default and has been deactivated since. */
  lemma StrayExactlyWhenOvertaken(w: World, op: nat, id: nat, es: seq<Step>)
    requires Alone(es, op)
    ensures var w1 := Next(w, Begin(op, id));
            var u := Run(w1, es);
            Stray(u, Commit(op)) <==>
              Commits(u, op) && exists r :: r != id && MarkedIn(w1, es, r) && r !in PhaseAt(u, op).cleared
                                            && r in u.rows && u.rows[r].isDefault && !u.rows[r].active
  {
    var w1 := Next(w, Begin(op, id));
    var u := Run(w1, es);
    if Commits(u, op) {
      SawOrMarked(w, op, id, es, id);
      var p := PhaseAt(u, op);
      if r :| r in u.rows && r != p.target && r !in p.cleared && u.rows[r].isDefault {
        SawOrMarked(w, op, id, es, r);
        assert Undefaulted(u.rows, p.cleared)[r] == u.rows[r];
        assert !u.rows[r].active;
      }
    }
  }

  /** b's transaction finds no default to clear, a becomes the default and is deleted, and then b's
      second update runs. */
  predicate Overtaken(es: seq<Step>, a: nat, b: nat) {
    && |es| == 8 && es[0] == Begin(1, b) && es[1] == Clear(1) && es[2] == Begin(2, a) && es[3] == Clear(2)
    && es[4] == Commit(2) && es[5] == Load(3, a, None, true) && es[6] == Store(3) && es[7] == Commit(1)
  }

  /** A stray commit: both rows end up as the default, and the index does not mind, since only b is
      active. */
  lemma TwoDefaults(w: World, es: seq<Step>, a: nat, b: nat)
    requires Overtaken(es, a, b) && a in w.rows && b in w.rows && a != b && w.ops == map[] && Defaults(w.rows) == {}
    ensures var rows := Run(w, es).rows;
            && a in rows && b in rows && rows[a].isDefault && rows[b].isDefault && !rows[a].active && rows[b].active
  {
    var w4, w5 := OvertakenBegins(w, a, b);
    var w7 := OvertakenEnds(w5, a, b);
    EightSteps(w, es, TwoSteps(w, Begin(1, b), Clear(1)), w4, w5, w7);
  }

  lemma OvertakenEnds(w5: World, a: nat, b: nat) returns (w7: World)
    requires a in w5.rows && b in w5.rows && a != b && w5.rows[a].isDefault
    requires w5.ops == map[1 := Cleared(b, {}), 2 := Done]
    requires forall r :: r in w5.rows && w5.rows[r].isDefault ==> r == a
    ensures w7 == TwoSteps(w5, Load(3, a, None, true), Store(3))
    ensures var rows := Next(w7, Commit(1)).rows;
            && a in rows && b in rows && rows[a].isDefault && rows[b].isDefault && !rows[a].active && rows[b].active
  {
    w7 := TwoSteps(w5, Load(3, a, None, true), Store(3));
    DeletedAlone(w5, 3, a);
    CommitOverNothing(w7, 1, b);
  }

  lemma OvertakenBegins(w: World, a: nat, b: nat) returns (w4: World, w5: World)
    requires a in w.rows && a != b && w.ops == map[] && Defaults(w.rows) == {}
    ensures w4 == TwoSteps(TwoSteps(w, Begin(1, b), Clear(1)), Begin(2, a), Clear(2)) && w5 == Next(w4, Commit(2))
    ensures w5.rows == Marked(w.rows, a) && w5.ops == map[1 := Cleared(b, {}), 2 := Done]
    ensures forall r :: r in w5.rows && w5.rows[r].isDefault ==> r == a
  {
    var w2 := TwoSteps(w, Begin(1, b), Clear(1));
    NothingToClear(w, 1, b);
    w4 := TwoSteps(w2, Begin(2, a), Clear(2));
    NothingToClear(w2, 2, a);
    assert w4.ops == map[1 := Cleared(b, {}), 2 := Cleared(a, {})];
    NoneServes(w.rows, a);
    w5 := Next(w4, Commit(2));
    CommitOverNothing(w4, 2, a);
  }

  lemma NoneServes(rows: map<nat, Row>, id: nat)
    requires Defaults(rows) == {}
    ensures !Taken(rows, id) && forall r :: r in rows ==> !rows[r].isDefault
  {
    forall r | r in rows ensures !rows[r].isDefault {
      assert r !in Defaults(rows);
    }
  }

  lemma NothingToClear(w: World, op: nat, id: nat)
    requires Defaults(w.rows) == {}
    ensures TwoSteps(w, Begin(op, id), Clear(op)) == w.(ops := w.ops[op := Cleared(id, {})])
  {
    var w1 := Next(w, Begin(op, id));
    assert PhaseAt(w1, op) == Clearing(id, {}) && {} * Defaults(w.rows) == {};
    assert w1.ops[op := Cleared(id, {})] == w.ops[op := Cleared(id, {})];
  }

  lemma CommitOverNothing(w: World, op: nat, id: nat)
    requires PhaseAt(w, op) == Cleared(id, {}) && id in w.rows && !Taken(w.rows, id)
    requires forall o :: o in w.ops && w.ops[o].Cleared? ==> w.ops[o].cleared == {}
    ensures Next(w, Commit(op)) == w.(rows := Marked(w.rows, id), ops := w.ops[op := Done])
  {
    assert Undefaulted(w.rows, {}) == w.rows;
  }

  lemma DeletedAlone(w: World, op: nat, id: nat)
    requires id in w.rows && forall o :: o in w.ops && w.ops[o].Cleared? ==> w.ops[o].cleared == {}
    ensures TwoSteps(w, Load(op, id, None, true), Store(op))
            == w.(rows := w.rows[id := w.rows[id].(active := false)], ops := w.ops[op := Done])
  {
    var w1 := Next(w, Load(op, id, None, true));
    assert PhaseAt(w1, op) == Deleting(id, w.rows[id]);
    assert w1.ops[op := Done] == w.ops[op := Done];
  }

  function TwoSteps(w: World, s: Step, t: Step): World { Next(Next(w, s), t) }

  lemma EightSteps(w: World, es: seq<Step>, w2: World, w4: World, w5: World, w7: World)
    requires |es| == 8 && w2 == TwoSteps(w, es[0], es[1]) && w4 == TwoSteps(w2, es[2], es[3])
    requires w5 == Next(w4, es[4]) && w7 == TwoSteps(w5, es[5], es[6])
    ensures Run(w, es) == Next(w7, es[7])
  {
    assert forall n :: 0 < n <= 8 ==> es[..n][..n - 1] == es[..n - 1];
    assert es[..8] == es;
    assert Run(w, es[..1]) == Next(w, es[0]);
    assert Run(w, es[..2]) == w2;
    assert Run(w, es[..3]) == Next(w2, es[2]);
    assert Run(w, es[..4]) == w4;
    assert Run(w, es[..5]) == w5;
    assert Run(w, es[..6]) == Next(w5, es[5]);
    assert Run(w, es[..7]) == w7;
  }

  // ---------------------------------------------------------------- the handlers

  lemma RunThree(w: World, a: Step, b: Step, c: Step)
    ensures Run(w, [a]) == Next(w, a) && Run(w, [a, b]) == Next(Next(w, a), b)
    ensures Run(w, [a, b, c]) == Next(Next(Next(w, a), b), c)
  {
    assert [a][..0] == [] && [a, b][..1] == [a] && [a, b, c][..2] == [a, b];
  }

  /** No transaction is between its two updates. */
  predicate Idle(ops: map<nat, Phase>) { forall o :: o in ops ==> !ops[o].Cleared? }

  /** An update with no transaction open, as a whole. */
  lemma UpdateRun(w: World, op: nat, id: nat, e: Edit, decrypts: bool)
    requires Idle(w.ops) && id in w.rows && EditOk(w.urls, e)
    ensures var row := Edited(w.urls, Loaded(w.rows[id], decrypts), e);
            Run(w, [Load(op, id, Some(e), decrypts), Store(op)])
            == w.(rows := Written(w.rows, id, row), ops := w.ops[op := Done],
                  entered := if Refused(w.rows, id, row) then w.entered
                             else w.entered + Entries(w.urls, id, e, row.url))
  {
    var load := Load(op, id, Some(e), decrypts);
    RunThree(w, load, Store(op), Store(op));
    var w1 := Next(w, load);
    assert w1 == w.(ops := w.ops[op := Editing(id, Loaded(w.rows[id], decrypts), e)]);
    EditStores(w1, op);
    assert w1.ops[op := Done] == w.ops[op := Done];
  }

  lemma EditStores(w: World, op: nat)
    requires PhaseAt(w, op).Editing? && forall o :: o in w.ops && o != op ==> !w.ops[o].Cleared?
    ensures var p := PhaseAt(w, op);
            var row := Edited(w.urls, p.row, p.edit);
            StoreNext(w, op)
            == w.(rows := Written(w.rows, p.id, row), ops := w.ops[op := Done],
                  entered := if Refused(w.rows, p.id, row) then w.entered
                             else w.entered + Entries(w.urls, p.id, p.edit, row.url))
  {
  }

  lemma DeleteRun(w: World, op: nat, id: nat, decrypts: bool)
    requires Idle(w.ops) && id in w.rows
    ensures Run(w, [Load(op, id, None, decrypts), Store(op)])
            == w.(rows := Written(w.rows, id, Loaded(w.rows[id], decrypts).(active := false)), ops := w.ops[op := Done])
  {
    var load := Load(op, id, None, decrypts);
    RunThree(w, load, Store(op), Store(op));
    var w1 := Next(w, load);
    assert w1 == w.(ops := w.ops[op := Deleting(id, Loaded(w.rows[id], decrypts))]);
    DeleteStores(w1, op);
    assert w1.ops[op := Done] == w.ops[op := Done];
  }

  lemma DeleteStores(w: World, op: nat)
    requires PhaseAt(w, op).Deleting? && forall o :: o in w.ops && o != op ==> !w.ops[o].Cleared?
    ensures var p := PhaseAt(w, op);
            StoreNext(w, op) == w.(rows := Written(w.rows, p.id, p.row.(active := false)), ops := w.ops[op := Done])
  {
  }

  /** A request that finds no row, or a URL that is not accepted, ends at its read. */
  lemma RefusedRun(w: World, op: nat, id: nat, change: Option<Edit>, decrypts: bool)
    requires id !in w.rows || (change.Some? && !EditOk(w.urls, change.value))
    ensures Run(w, [Load(op, id, change, decrypts), Store(op)]) == w.(ops := w.ops[op := Done])
  {
    RunThree(w, Load(op, id, change, decrypts), Store(op), Store(op));
  }

  lemma DefaultRun(w: World, op: nat, id: nat)
    requires Idle(w.ops)
    ensures Run(w, [Begin(op, id), Clear(op), Commit(op)])
            == w.(rows := Committed(w.rows, id, Defaults(w.rows)), ops := w.ops[op := Done])
  {
    RunThree(w, Begin(op, id), Clear(op), Commit(op));
    ClearAlone(w, op, id);
    CommitAlone(w.(ops := w.ops[op := Cleared(id, Defaults(w.rows))]), op);
    assert w.ops[op := Cleared(id, Defaults(w.rows))][op := Done] == w.ops[op := Done];
  }

  lemma ClearAlone(w: World, op: nat, id: nat)
    requires Idle(w.ops)
    ensures Next(Next(w, Begin(op, id)), Clear(op)) == w.(ops := w.ops[op := Cleared(id, Defaults(w.rows))])
  {
    var was := Defaults(w.rows);
    assert was * was == was;
    var w1 := Next(w, Begin(op, id));
    assert PhaseAt(w1, op) == Clearing(id, was);
    assert w1.ops[op := Cleared(id, was)] == w.ops[op := Cleared(id, was)];
  }

  lemma CommitAlone(w: World, op: nat)
    requires PhaseAt(w, op).Cleared? && forall o :: o in w.ops && o != op ==> !w.ops[o].Cleared?
    ensures Next(w, Commit(op)) == w.(rows := Committed(w.rows, PhaseAt(w, op).target, PhaseAt(w, op).cleared),
                                      ops := w.ops[op := Done])
  {
  }

  class Config {
    const urls: Urls
    var rows: map<nat, Row>
    ghost var ops: map<nat, Phase>
    ghost var entered: set<Entry>

    ghost function Snapshot(): World
      reads this
    {
      World(urls, rows, ops, entered)
    }

    constructor (urls: Urls)
      ensures Boot(Snapshot()) && OneDefault(rows) && Indexed(rows) && this.urls == urls
    {
      this.urls, rows, ops, entered := urls, map[], map[], {};
    }

    method CreateUpstream(id: nat, e: Edit) returns (ok: bool)
      requires id !in rows
      modifies this
      ensures Snapshot() == Run(old(Snapshot()), [Create(id, e)])
      ensures ok <==> e.name != "" && e.url != "" && urls.valid(e.url)
      ensures rows == if !ok then old(rows)
                      else old(rows)[id := Row(e.name, e.url, if e.username == Some("") then None else e.username,
                                               if e.password == Some("") then None else e.password,
                                               if e.timeoutMs <= 0 then 10000 else e.timeoutMs,
                                               if e.maxRetries < 0 then 1 else e.maxRetries, true, false)]
    {
      RunThree(Snapshot(), Create(id, e), Create(id, e), Create(id, e));
      if e.name == "" || e.url == "" || !urls.valid(e.url) {
        return false;
      }
      var timeoutMs, maxRetries, username, password := e.timeoutMs, e.maxRetries, e.username, e.password;
      if timeoutMs <= 0 {
        timeoutMs := 10000;
      }
      if maxRetries < 0 {
        maxRetries := 1;
      }
      if username == Some("") {
        username := None;
      }
      if password == Some("") {
        password := None;
      }
      rows := rows[id := Row(e.name, e.url, username, password, timeoutMs, maxRetries, true, false)];
      entered := entered + Entries(urls, id, e, e.url);
      ok := true;
    }

    /** The editing half of UpdateUpstream: the fields of the copy change one after another. */
    method ApplyEdit(row: Row, e: Edit) returns (current: Row, credentialsCleared: bool)
      ensures current == Edited(urls, row, e)
      ensures credentialsCleared <==>
                && e.url != "" && (urls.host(row.url).None? || urls.host(e.url) != urls.host(row.url))
                && (row.username.Some? || row.password.Some?)
      ensures current.name == (if e.name != "" then e.name else row.name)
      ensures current.url == (if e.url != "" then e.url else row.url)
      ensures current.password == if e.password.Some? then (if e.password.value == "" then None else e.password)
                                  else if credentialsCleared then None else row.password
      ensures current.username == if credentialsCleared && current.password.None? then None
                                  else if e.username.Some? then (if e.username.value == "" then None else e.username)
                                  else if credentialsCleared then None else row.username
      ensures current.timeoutMs == (if e.timeoutMs > 0 then e.timeoutMs else row.timeoutMs)
      ensures current.maxRetries == (if e.maxRetries >= 0 then e.maxRetries else row.maxRetries)
      ensures current.active == (if e.active.Some? then e.active.value else row.active)
      ensures current.isDefault == row.isDefault
    {
      var name, url, username, password := row.name, row.url, row.username, row.password;
      var timeoutMs, maxRetries, active := row.timeoutMs, row.maxRetries, row.active;
      credentialsCleared := false;
      if e.name != "" {
        name := e.name;
      }
      if e.url != "" {
        if !SameHost(urls, row.url, e.url) && (username.Some? || password.Some?) {
          username, password := None, None;
          credentialsCleared := true;
        }
        url := e.url;
      }
      if e.username.Some? {
        username := if e.username.value == "" then None else e.username;
      }
      if e.password.Some? {
        password := if e.password.value == "" then None else e.password;
      }
      if credentialsCleared && password.None? {
        username := None;
      }
      if e.timeoutMs > 0 {
        timeoutMs := e.timeoutMs;
      }
      if e.maxRetries >= 0 {
        maxRetries := e.maxRetries;
      }
      if e.active.Some? {
        active := e.active.value;
      }
      current := Row(name, url, username, password, timeoutMs, maxRetries, active, row.isDefault);
    }

    /** The write of an update, executed with no transaction open: nobody to wait for, but the index may
        refuse it. */
    method UpdateRow(id: nat, row: Row) returns (ok: bool)
      requires id in rows
      modifies `rows
      ensures ok <==> !Refused(old(rows), id, row)
      ensures ok <==> !(&& old(rows)[id].isDefault && row.active
                        && exists r :: r in old(rows) && r != id && old(rows)[r].isDefault && old(rows)[r].active)
      ensures rows == Written(old(rows), id, row)
      ensures rows == if ok then old(rows)[id := row.(isDefault := old(rows)[id].isDefault)] else old(rows)
      ensures Indexed(old(rows)) ==> Indexed(rows)
    {
      if rows[id].isDefault && row.active && exists r :: r in rows && r != id && Serves(rows[r]) {
        return false;
      }
      rows := rows[id := row.(isDefault := rows[id].isDefault)];
      ok := true;
    }

    /** UpdateUpstream: read, edit, write. */
    method UpdateUpstream(ghost op: nat, id: nat, e: Edit, decrypts: bool) returns (ok: bool, credentialsCleared: bool)
      requires Idle(ops)
      modifies this
      ensures Snapshot() == Run(old(Snapshot()), [Load(op, id, Some(e), decrypts), Store(op)]) && Idle(ops)
      ensures ok <==> id in old(rows) && (e.url == "" || urls.valid(e.url))
                      && !Refused(old(rows), id, Edited(urls, Loaded(old(rows)[id], decrypts), e))
      ensures credentialsCleared <==> ok && Clears(urls, Loaded(old(rows)[id], decrypts), e)
      ensures rows == if ok then old(rows)[id := Edited(urls, Loaded(old(rows)[id], decrypts), e)] else old(rows)
      ensures OneDefault(old(rows)) ==>
                OneDefault(rows) && (ok <==> id in old(rows) && (e.url == "" || urls.valid(e.url)))
    {
      ghost var w := Snapshot();
      if id !in rows || (e.url != "" && !urls.valid(e.url)) {
        RefusedRun(w, op, id, Some(e), decrypts);
        ops := ops[op := Done];
        return false, false;
      }
      UpdateRun(w, op, id, e, decrypts);
      var current := if decrypts then rows[id] else rows[id].(password := None);
      current, credentialsCleared := ApplyEdit(current, e);
      ok := UpdateRow(id, current);
      ops := ops[op := Done];
      if !ok {
        return false, false;
      }
      entered := entered + Entries(urls, id, e, current.url);
    }

    /** DeleteUpstream keeps the row and its credentials; the row is only no longer active. */
    method DeleteUpstream(ghost op: nat, id: nat, decrypts: bool) returns (ok: bool)
      requires Idle(ops)
      modifies this
      ensures Snapshot() == Run(old(Snapshot()), [Load(op, id, None, decrypts), Store(op)]) && Idle(ops)
      ensures ok <==> id in old(rows)
      ensures rows == if !ok then old(rows)
                      else
                        var row := old(rows)[id];
                        old(rows)[id := row.(active := false, password := if decrypts then row.password else None)]
    {
      ghost var w := Snapshot();
      if id !in rows {
        RefusedRun(w, op, id, None, decrypts);
        ops := ops[op := Done];
        return false;
      }
      DeleteRun(w, op, id, decrypts);
      var record := if decrypts then rows[id] else rows[id].(password := None);
      record := record.(active := false);
      ok := UpdateRow(id, record);
      ops := ops[op := Done];
    }

    /** SetDefault's transaction, executed alone: whatever the defaults were, the row asked for is the
        only one, and active; when there is no such row, there is none. */
    method SetDefaultUpstream(ghost op: nat, id: nat)
      requires Idle(ops)
      modifies this
      ensures Snapshot() == Run(old(Snapshot()), [Begin(op, id), Clear(op), Commit(op)]) && Idle(ops)
      ensures Defaults(rows) == (if id in old(rows) then {id} else {}) && OneDefault(rows)
      ensures id in rows ==> rows[id].active
      ensures rows.Keys == old(rows).Keys
      ensures forall r :: r in rows ==>
                rows[r] == old(rows)[r].(isDefault := rows[r].isDefault, active := rows[r].active)
                                        && (r != id ==> rows[r].active == old(rows)[r].active)
    {
      ghost var w := Snapshot();
      DefaultRun(w, op, id);
      rows := map r | r in rows :: rows[r].(isDefault := false);
      assert rows == Undefaulted(w.rows, Defaults(w.rows));
      if id in rows {
        rows := rows[id := rows[id].(isDefault := true, active := true)];
      }
      ops := ops[op := Done];
    }

    /** GetDefault: since at most one row is the default and active, the answer does not depend on which
        row is found. */
    method GetDefault() returns (r: Option<nat>)
      ensures r.Some? ==> r.value in rows && rows[r.value].isDefault && rows[r.value].active
      ensures r.None? ==> forall id :: id in rows ==> !(rows[id].isDefault && rows[id].active)
      ensures Indexed(rows) ==> forall id :: id in rows && Serves(rows[id]) ==> r == Some(id)
    {
      var found := set id | id in rows && rows[id].isDefault && rows[id].active;
      if found == {} {
        assert forall id :: id in rows && rows[id].isDefault && rows[id].active ==> id in found;
        return None;
      }
      var id :| id in found;
      return Some(id);
    }
  }
}
