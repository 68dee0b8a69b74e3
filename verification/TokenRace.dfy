/** The bound of SingleUse is exact: for either kind of token and for every k and f a run from an empty
    installation reaches it. */
module TokenRace {
  import opened Common
  import opened Auth
  import opened SingleUse

  // ---------------------------------------------------------------- one token

  /** The MFA token of a login, and the setup token of a compulsory enrolment. */
  datatype Kind = Login | Enrolment

  function KeyFor(kind: Kind, x: string): string { if kind.Login? then MfaKey(x) else SetupKey(x) }

  /** Refresh tokens that differ in length. */
  function Token(i: nat): (s: string)
    ensures |s| == i
  {
    if i == 0 then "" else Token(i - 1) + "x"
  }

  lemma TokensDiffer(i: nat, j: nat)
    requires i != j
    ensures RefreshKey(Token(i)) != RefreshKey(Token(j))
  {
    assert |RefreshKey(Token(i))| == 8 + i && |RefreshKey(Token(j))| == 8 + j;
  }

  /** One active user with the secret that the code is checked against; x is their name, hash, password,
      secret and code alike. */
  predicate Live(kind: Kind, w: World, x: string) {
    && w.env.validates(x, x, 0) && Usable(w, x)
    && (kind.Login? ==> w.users[x].secret == Some(x))
    && (kind.Enrolment? ==> PendingKey(x) in w.store && w.store[PendingKey(x)] == x)
  }

  /** And x is their token, too. */
  predicate Ready(kind: Kind, w: World, x: string) {
    Live(kind, w, x) && KeyFor(kind, x) in w.store && w.store[KeyFor(kind, x)] == x
  }

  ghost predicate NewFrom(w: World, n: nat) { forall j: nat :: n <= j ==> RefreshKey(Token(j)) !in w.used }

  /** n sessions so far, and the tokens from n on are still new. */
  ghost predicate Given(w: World, key: string, n: nat) { Sessions(w.log, key) == n && NewFrom(w, n) }

  // ---------------------------------------------------------------- steps and short runs

  lemma RunSnoc(w: World, es: seq<Step>, s: Step)
    ensures Run(w, es + [s]) == Next(Run(w, es), s)
    ensures Fresh(w, es + [s]) <==> Fresh(w, es) && DrawsNew(Run(w, es), s)
  {
    assert (es + [s])[..|es|] == es;
  }

  lemma RunOne(w: World, s: Step)
    ensures Run(w, [s]) == Next(w, s) && (Fresh(w, [s]) <==> DrawsNew(w, s))
  {
    RunSnoc(w, [], s);
    assert [] + [s] == [s];
  }

  lemma RunPrefix(w: World, es: seq<Step>, n: nat)
    requires n < |es|
    ensures Run(w, es[..n + 1]) == Next(Run(w, es[..n]), es[n])
    ensures Fresh(w, es[..n + 1]) <==> Fresh(w, es[..n]) && DrawsNew(Run(w, es[..n]), es[n])
  {
    assert es[..n + 1][..n] == es[..n];
  }

  lemma TwoMore(w: World, es: seq<Step>, n: nat)
    requires n + 1 < |es|
    ensures Run(w, es[..n + 2]) == Next(Next(Run(w, es[..n]), es[n]), es[n + 1])
    ensures Fresh(w, es[..n + 2]) <==>
              Fresh(w, es[..n]) && DrawsNew(Run(w, es[..n]), es[n]) && DrawsNew(Next(Run(w, es[..n]), es[n]), es[n + 1])
  {
    RunPrefix(w, es, n);
    RunPrefix(w, es, n + 1);
  }

  predicate Draws(s: Step) { (s.InLogin? && s.login.LoginStore?) || (s.InSession? && s.session.Issue?) }

  lemma TwoRun(w: World, es: seq<Step>, w1: World, w2: World)
    requires |es| == 2 && w1 == Next(w, es[0]) && w2 == Next(w1, es[1]) && DrawsNew(w, es[0]) && DrawsNew(w1, es[1])
    ensures w2 == Run(w, es) && Fresh(w, es)
  {
    assert es[..0] == [] && es[..2] == es;
    TwoMore(w, es, 0);
  }

  lemma FourRun(w: World, es: seq<Step>, w2: World, w4: World)
    requires |es| == 4 && forall j :: 0 <= j < 4 ==> !Draws(es[j])
    requires w2 == Next(Next(w, es[0]), es[1]) && w4 == Next(Next(w2, es[2]), es[3])
    ensures w4 == Run(w, es) && Fresh(w, es)
  {
    assert es[..0] == [] && es[..4] == es;
    TwoMore(w, es, 0);
    TwoMore(w, es, 2);
  }

  lemma {:induction false} RunConcat(w: World, es: seq<Step>, fs: seq<Step>)
    ensures Run(w, es + fs) == Run(Run(w, es), fs)
    ensures Fresh(w, es + fs) <==> Fresh(w, es) && Fresh(Run(w, es), fs)
  {
    if fs == [] {
      assert es + fs == es;
    } else {
      RunConcat(w, es, fs[..|fs| - 1]);
      assert (es + fs)[..|es + fs| - 1] == es + fs[..|fs| - 1];
    }
  }

  lemma QuietSessions(w: World, s: Step, key: string)
    requires !(s.InSession? && s.session.Issue?)
    ensures Sessions(Next(w, s).log, key) == Sessions(w.log, key)
  {
    StepMoves(w, s, key);
    var id :| Moved(w, Next(w, s), id, key, FailsToDelete(w, s, key));
  }

  // ---------------------------------------------------------------- reading the token

  /** A request reads the token, and what it then holds. */
  function Reads(kind: Kind, x: string, i: nat): seq<Step> {
    match kind
    case Login => [InVerify(VerifyGet(i, x, x))]
    case Enrolment => [InComplete(CompleteGet(i, x, x)), InComplete(CompleteFind(i))]
  }

  function Holding(kind: Kind, x: string): Phase {
    if kind.Login? then VerifyGot(x, x, x) else CompleteFound(x, x, x)
  }

  lemma TokenIsRead(kind: Kind, w: World, x: string, i: nat)
    requires Ready(kind, w, x)
    ensures Run(w, Reads(kind, x, i)) == At(w, i, Holding(kind, x)) && Fresh(w, Reads(kind, x, i))
  {
    var es := Reads(kind, x, i);
    assert es[..0] == [] && es[..|es|] == es;
    if kind.Login? {
      RunPrefix(w, es, 0);
    } else {
      TwoMore(w, es, 0);
      var w1 := At(w, i, CompleteGot(x, x, x));
      assert Next(w, es[0]) == w1 && PhaseAt(w1, i) == CompleteGot(x, x, x);
      assert w1.ops[i := CompleteFound(x, x, x)] == w.ops[i := CompleteFound(x, x, x)];
    }
  }

  // ---------------------------------------------------------------- the rest of a request

  /** The check of the code, the writes, the deletion, and the session. */
  function Rest(kind: Kind, i: nat, n: nat, ok: bool): seq<Step> {
    Goes(kind, i, ok) + [InSession(Issue(i, Token(n)))]
  }

  function Goes(kind: Kind, i: nat, ok: bool): seq<Step> {
    match kind
    case Login => [InVerify(VerifyCheck(i, 0)), InVerify(VerifyDel(i, ok))]
    case Enrolment =>
      [InComplete(CompleteCheck(i, 0)), InEnable(EnableSave(i)), InEnable(EnableDel(i, false)),
       InComplete(CompleteDel(i, ok))]
  }

  /** What they lead to, before the session is handed out. */
  ghost predicate Gone(kind: Kind, w: World, v: World, x: string, i: nat, ok: bool) {
    && Live(kind, v, x) && v.used == w.used && v.ops == w.ops[i := Issuing(x, KeyFor(kind, x))]
    && v.store == (if ok then w.store - {KeyFor(kind, x)} else w.store)
    && Sessions(v.log, KeyFor(kind, x)) == Sessions(w.log, KeyFor(kind, x))
  }

  lemma CodeIsChecked(w: World, x: string, i: nat) returns (w1: World)
    requires Live(Login, w, x) && PhaseAt(w, i) == VerifyGot(x, x, x)
    ensures w1 == Next(w, InVerify(VerifyCheck(i, 0)))
    ensures Live(Login, w1, x) && w1.used == w.used && w1.store == w.store
    ensures w1.ops == w.ops[i := VerifyPassed(x, x)] && Sessions(w1.log, MfaKey(x)) == Sessions(w.log, MfaKey(x))
  {
    w1 := Next(w, InVerify(VerifyCheck(i, 0)));
    QuietSessions(w, InVerify(VerifyCheck(i, 0)), MfaKey(x));
  }

  lemma MfaTokenGoes(w: World, w1: World, x: string, i: nat, ok: bool) returns (w2: World)
    requires Live(Login, w1, x) && w1.used == w.used && w1.store == w.store
    requires w1.ops == w.ops[i := VerifyPassed(x, x)] && Sessions(w1.log, MfaKey(x)) == Sessions(w.log, MfaKey(x))
    ensures w2 == Next(w1, InVerify(VerifyDel(i, ok))) && Gone(Login, w, w2, x, i, ok)
  {
    w2 := Next(w1, InVerify(VerifyDel(i, ok)));
    QuietSessions(w1, InVerify(VerifyDel(i, ok)), MfaKey(x));
    assert w2.ops == w.ops[i := Issuing(x, MfaKey(x))];
  }

  lemma CodeIsConfirmed(w: World, x: string, i: nat) returns (w2: World)
    requires Live(Enrolment, w, x) && PhaseAt(w, i) == CompleteFound(x, x, x)
    ensures w2 == Next(Next(w, InComplete(CompleteCheck(i, 0))), InEnable(EnableSave(i)))
    ensures Live(Enrolment, w2, x) && w2.used == w.used && w2.store == w.store
    ensures w2.ops == w.ops[i := EnableSaved(x, Some(x))]
    ensures Sessions(w2.log, SetupKey(x)) == Sessions(w.log, SetupKey(x))
  {
    var check, save := InComplete(CompleteCheck(i, 0)), InEnable(EnableSave(i));
    var w1 := Next(w, check);
    QuietSessions(w, check, SetupKey(x));
    assert PhaseAt(w1, i) == EnablePassed(x, x, Some(x));
    w2 := Next(w1, save);
    QuietSessions(w1, save, SetupKey(x));
    assert w2.ops == w.ops[i := EnableSaved(x, Some(x))];
  }

  lemma SetupTokenGoes(w: World, w2: World, x: string, i: nat, ok: bool) returns (w4: World)
    requires Live(Enrolment, w2, x) && w2.used == w.used && w2.store == w.store
    requires w2.ops == w.ops[i := EnableSaved(x, Some(x))]
    requires Sessions(w2.log, SetupKey(x)) == Sessions(w.log, SetupKey(x))
    ensures w4 == Next(Next(w2, InEnable(EnableDel(i, false))), InComplete(CompleteDel(i, ok)))
    ensures Gone(Enrolment, w, w4, x, i, ok)
  {
    var keep, del := InEnable(EnableDel(i, false)), InComplete(CompleteDel(i, ok));
    var w3 := Next(w2, keep);
    QuietSessions(w2, keep, SetupKey(x));
    assert PhaseAt(w3, i) == CompleteSaved(x, x);
    w4 := Next(w3, del);
    QuietSessions(w3, del, SetupKey(x));
    assert w4.ops == w.ops[i := Issuing(x, SetupKey(x))];
    assert SetupKey(x)[5] == 's' && PendingKey(x)[5] == 'p';
  }

  lemma VerifyGoes(w: World, x: string, i: nat, ok: bool) returns (v: World)
    requires Live(Login, w, x) && PhaseAt(w, i) == VerifyGot(x, x, x)
    ensures v == Run(w, Goes(Login, i, ok)) && Fresh(w, Goes(Login, i, ok)) && Gone(Login, w, v, x, i, ok)
  {
    var w1 := CodeIsChecked(w, x, i);
    v := MfaTokenGoes(w, w1, x, i, ok);
    TwoRun(w, Goes(Login, i, ok), w1, v);
  }

  lemma EnrolmentGoes(w: World, x: string, i: nat, ok: bool) returns (v: World)
    requires Live(Enrolment, w, x) && PhaseAt(w, i) == CompleteFound(x, x, x)
    ensures v == Run(w, Goes(Enrolment, i, ok)) && Fresh(w, Goes(Enrolment, i, ok))
    ensures Gone(Enrolment, w, v, x, i, ok)
  {
    var w2 := CodeIsConfirmed(w, x, i);
    v := SetupTokenGoes(w, w2, x, i, ok);
    FourRun(w, Goes(Enrolment, i, ok), w2, v);
  }

  lemma RequestGoes(kind: Kind, w: World, x: string, i: nat, ok: bool) returns (v: World)
    requires Live(kind, w, x) && PhaseAt(w, i) == Holding(kind, x)
    ensures v == Run(w, Goes(kind, i, ok)) && Fresh(w, Goes(kind, i, ok)) && Gone(kind, w, v, x, i, ok)
  {
    if kind.Login? {
      v := VerifyGoes(w, x, i, ok);
    } else {
      v := EnrolmentGoes(w, x, i, ok);
    }
  }

  lemma IssueHands(w: World, x: string, key: string, i: nat, n: nat)
    requires PhaseAt(w, i) == Issuing(x, key) && Given(w, key, n)
    ensures var s := InSession(Issue(i, Token(n)));
            var w' := Next(w, s);
            && DrawsNew(w, s) && w'.env == w.env && w'.users == w.users && w'.ops == w.ops[i := Done]
            && w'.store == w.store[RefreshKey(Token(n)) := x] && Given(w', key, n + 1)
  {
    IssueCounts(w, i, Token(n), key);
    var w' := Next(w, InSession(Issue(i, Token(n))));
    forall j: nat | n + 1 <= j ensures RefreshKey(Token(j)) !in w'.used {
      TokensDiffer(n, j);
    }
  }

  lemma IssueEnds(kind: Kind, w: World, v: World, x: string, i: nat, n: nat, ok: bool)
    requires Gone(kind, w, v, x, i, ok) && Given(w, KeyFor(kind, x), n)
    ensures var s := InSession(Issue(i, Token(n)));
            var w' := Next(v, s);
            && DrawsNew(v, s) && Live(kind, w', x) && Given(w', KeyFor(kind, x), n + 1) && w'.ops == w.ops[i := Done]
            && (!ok && Ready(kind, w, x) ==> Ready(kind, w', x))
  {
    assert Given(v, KeyFor(kind, x), n);
    IssueHands(v, x, KeyFor(kind, x), i, n);
    assert v.ops[i := Done] == w.ops[i := Done];
    assert KeyFor(kind, x)[0] != 'r' && PendingKey(x)[0] == 't' && RefreshKey(Token(n))[0] == 'r';
  }

  lemma RestHands(kind: Kind, w: World, x: string, i: nat, n: nat, ok: bool)
    requires Live(kind, w, x) && PhaseAt(w, i) == Holding(kind, x) && Given(w, KeyFor(kind, x), n)
    ensures var w' := Run(w, Rest(kind, i, n, ok));
            && Fresh(w, Rest(kind, i, n, ok)) && Live(kind, w', x) && Given(w', KeyFor(kind, x), n + 1)
            && w'.ops == w.ops[i := Done] && (!ok && Ready(kind, w, x) ==> Ready(kind, w', x))
  {
    var v := RequestGoes(kind, w, x, i, ok);
    RunSnoc(w, Goes(kind, i, ok), InSession(Issue(i, Token(n))));
    IssueEnds(kind, w, v, x, i, n, ok);
  }

  // ---------------------------------------------------------------- runs in blocks

  /** Block j takes p from j to j + 1. */
  ghost predicate Keeps(block: nat -> seq<Step>, p: (World, nat) -> bool, u: World, j: nat) {
    p(u, j) ==> p(Run(u, block(j)), j + 1) && Fresh(u, block(j))
  }

  lemma {:induction false} BlocksKeep(block: nat -> seq<Step>, p: (World, nat) -> bool, w: World, k: nat, i: nat)
    requires i <= k && p(w, 0)
    requires forall u: World, j: nat :: j < k ==> Keeps(block, p, u, j)
    ensures p(Run(w, Blocks(block, i)), i) && Fresh(w, Blocks(block, i))
  {
    if i > 0 {
      BlocksKeep(block, p, w, k, i - 1);
      assert Keeps(block, p, Run(w, Blocks(block, i - 1)), i - 1);
      RunConcat(w, Blocks(block, i - 1), block(i - 1));
    }
  }

  /** A request alone, whose deletion fails; it hands out the n-th session. */
  function Round(kind: Kind, x: string): nat -> seq<Step> { (n: nat) => Reads(kind, x, 0) + Rest(kind, 0, n, false) }

  function Reading(kind: Kind, x: string): nat -> seq<Step> { (i: nat) => Reads(kind, x, i) }

  /** The rest of request i when f sessions were handed out before. */
  function Finishing(kind: Kind, f: nat): nat -> seq<Step> { (i: nat) => Rest(kind, i, f + i, true) }

  lemma RoundHands(kind: Kind, w: World, x: string, n: nat)
    requires Ready(kind, w, x) && Given(w, KeyFor(kind, x), n)
    ensures var es := Reads(kind, x, 0) + Rest(kind, 0, n, false);
            Fresh(w, es) && Ready(kind, Run(w, es), x) && Given(Run(w, es), KeyFor(kind, x), n + 1)
  {
    var w1 := At(w, 0, Holding(kind, x));
    TokenIsRead(kind, w, x, 0);
    RunConcat(w, Reads(kind, x, 0), Rest(kind, 0, n, false));
    RestHands(kind, w1, x, 0, n, false);
  }

  ghost function HandedBy(kind: Kind, x: string): (World, nat) -> bool {
    (u: World, n: nat) => Ready(kind, u, x) && Given(u, KeyFor(kind, x), n)
  }

  lemma RoundKeeps(kind: Kind, x: string, u: World, j: nat)
    ensures Keeps(Round(kind, x), HandedBy(kind, x), u, j)
  {
    if Ready(kind, u, x) && Given(u, KeyFor(kind, x), j) {
      var block := Reads(kind, x, 0) + Rest(kind, 0, j, false);
      assert Round(kind, x)(j) == block;
      RoundHands(kind, u, x, j);
      assert Ready(kind, Run(u, block), x) && Given(Run(u, block), KeyFor(kind, x), j + 1) && Fresh(u, block);
    }
  }

  /** f serial requests with failing deletions. */
  lemma RoundsHand(kind: Kind, w: World, x: string, f: nat)
    requires HandedBy(kind, x)(w, 0)
    ensures HandedBy(kind, x)(Run(w, Blocks(Round(kind, x), f)), f) && Fresh(w, Blocks(Round(kind, x), f))
  {
    forall u: World, j: nat | j < f ensures Keeps(Round(kind, x), HandedBy(kind, x), u, j) {
      RoundKeeps(kind, x, u, j);
    }
    BlocksKeep(Round(kind, x), HandedBy(kind, x), w, f, f);
  }

  /** Requests 0 to i have read the token. */
  ghost predicate HaveRead(kind: Kind, w: World, x: string, f: nat, i: nat) {
    && Ready(kind, w, x) && Given(w, KeyFor(kind, x), f)
    && forall j: nat :: j < i ==> PhaseAt(w, j) == Holding(kind, x)
  }

  ghost function ReadBy(kind: Kind, x: string, f: nat): (World, nat) -> bool {
    (u: World, i: nat) => HaveRead(kind, u, x, f, i)
  }

  lemma OneMoreRead(kind: Kind, w: World, x: string, f: nat, i: nat, w': World)
    requires HaveRead(kind, w, x, f, i) && w' == At(w, i, Holding(kind, x))
    ensures HaveRead(kind, w', x, f, i + 1)
  {
    forall j: nat | j < i + 1 ensures PhaseAt(w', j) == Holding(kind, x) {
      assert j < i ==> PhaseAt(w, j) == Holding(kind, x);
    }
  }

  lemma ReadingKeeps(kind: Kind, x: string, f: nat, u: World, j: nat)
    ensures Keeps(Reading(kind, x), ReadBy(kind, x, f), u, j)
  {
    if HaveRead(kind, u, x, f, j) {
      TokenIsRead(kind, u, x, j);
      OneMoreRead(kind, u, x, f, j, At(u, j, Holding(kind, x)));
    }
  }

  lemma ReadingsRead(kind: Kind, w: World, x: string, f: nat, k: nat)
    requires HaveRead(kind, w, x, f, 0)
    ensures HaveRead(kind, Run(w, Blocks(Reading(kind, x), k)), x, f, k) && Fresh(w, Blocks(Reading(kind, x), k))
  {
    var p := ReadBy(kind, x, f);
    forall u: World, j: nat | j < k ensures Keeps(Reading(kind, x), p, u, j) {
      ReadingKeeps(kind, x, f, u, j);
    }
    assert p(w, 0);
    BlocksKeep(Reading(kind, x), p, w, k, k);
  }

  /** All k have read the token, and requests 0 to i have handed out their sessions. */
  ghost predicate HaveIssued(kind: Kind, w: World, x: string, f: nat, k: nat, i: nat) {
    && Live(kind, w, x) && Given(w, KeyFor(kind, x), f + i)
    && forall j: nat :: i <= j < k ==> PhaseAt(w, j) == Holding(kind, x)
  }

  lemma OneMoreIssued(kind: Kind, w: World, x: string, f: nat, k: nat, i: nat)
    requires HaveIssued(kind, w, x, f, k, i) && i < k
    ensures var es := Rest(kind, i, f + i, true); HaveIssued(kind, Run(w, es), x, f, k, i + 1) && Fresh(w, es)
  {
    RestHands(kind, w, x, i, f + i, true);
    var w' := Run(w, Rest(kind, i, f + i, true));
    forall j: nat | i + 1 <= j < k ensures PhaseAt(w', j) == Holding(kind, x) {
      assert PhaseAt(w, j) == Holding(kind, x);
    }
    assert f + i + 1 == f + (i + 1);
  }

  ghost function IssuedBy(kind: Kind, x: string, f: nat, k: nat): (World, nat) -> bool {
    (u: World, i: nat) => HaveIssued(kind, u, x, f, k, i)
  }

  lemma FinishKeeps(kind: Kind, x: string, f: nat, k: nat, u: World, j: nat)
    requires j < k
    ensures Keeps(Finishing(kind, f), IssuedBy(kind, x, f, k), u, j)
  {
    if HaveIssued(kind, u, x, f, k, j) {
      var block := Rest(kind, j, f + j, true);
      assert Finishing(kind, f)(j) == block;
      OneMoreIssued(kind, u, x, f, k, j);
      assert HaveIssued(kind, Run(u, block), x, f, k, j + 1) && Fresh(u, block);
    }
  }

  lemma AllIssue(kind: Kind, w: World, x: string, f: nat, k: nat)
    requires HaveIssued(kind, w, x, f, k, 0)
    ensures HaveIssued(kind, Run(w, Blocks(Finishing(kind, f), k)), x, f, k, k)
    ensures Fresh(w, Blocks(Finishing(kind, f), k))
  {
    var p := IssuedBy(kind, x, f, k);
    forall u: World, j: nat | j < k ensures Keeps(Finishing(kind, f), p, u, j) {
      FinishKeeps(kind, x, f, k, u, j);
    }
    assert p(w, 0);
    BlocksKeep(Finishing(kind, f), p, w, k, k);
  }

  // ---------------------------------------------------------------- from an empty installation

  /** A user is created and gets a secret. */
  function Creation(x: string): seq<Step> {
    [InOther(EditUser(x, x, x, true, false)), InSetup(SetupDirect(x, x))]
  }

  /** They enable it. */
  function Enabling(x: string): seq<Step> {
    [InEnable(EnableCheck(0, x, x, 0)), InEnable(EnableSave(0)), InEnable(EnableDel(0, true))]
  }

  /** They log in: with the second factor enabled to an MFA token, else to a setup token. */
  function LoggingIn(x: string): seq<Step> { [InLogin(LoginCheck(0, x, x, x)), InLogin(LoginStore(0, x))] }

  function Prelude(kind: Kind, x: string): seq<Step> {
    Creation(x) + (if kind.Login? then Enabling(x) else []) + LoggingIn(x)
  }

  ghost predicate Known(w: World, x: string, enabled: bool) {
    && w.env.validates(x, x, 0) && w.env.matches(x, x) && w.used == {PendingKey(x)}
    && w.users == map[x := User(x, x, true, false, if enabled then Some(x) else None, enabled)]
    && Sessions(w.log, MfaKey(x)) == 0 && Sessions(w.log, SetupKey(x)) == 0
    && (!enabled ==> w.store == map[PendingKey(x) := x])
  }

  /** A step that hands out nothing leaves both counts alone. */
  lemma QuietStep(w: World, s: Step, x: string)
    requires !Draws(s)
    ensures Sessions(Next(w, s).log, MfaKey(x)) == Sessions(w.log, MfaKey(x))
    ensures Sessions(Next(w, s).log, SetupKey(x)) == Sessions(w.log, SetupKey(x))
    ensures DrawsNew(w, s)
  {
    QuietSessions(w, s, MfaKey(x));
    QuietSessions(w, s, SetupKey(x));
  }

  lemma IsCreated(w0: World, x: string) returns (w2: World)
    requires Boot(w0) && w0.env.validates(x, x, 0) && w0.env.matches(x, x)
    ensures w2 == Run(w0, Creation(x)) && Fresh(w0, Creation(x)) && Known(w2, x, false)
  {
    var es := Creation(x);
    var w1 := Next(w0, es[0]);
    QuietStep(w0, es[0], x);
    QuietStep(w1, es[1], x);
    w2 := Next(w1, es[1]);
    assert Known(w2, x, false);
    TwoRun(w0, es, w1, w2);
  }

  lemma IsConfirmed(w: World, x: string) returns (w1: World)
    requires Known(w, x, false)
    ensures w1 == Next(w, Enabling(x)[0]) && DrawsNew(w, Enabling(x)[0]) && Known(w1, x, false)
    ensures PhaseAt(w1, 0) == EnablePassed(x, x, None)
  {
    w1 := Next(w, Enabling(x)[0]);
    QuietStep(w, Enabling(x)[0], x);
  }

  lemma IsSaved(w1: World, x: string) returns (w3: World)
    requires Known(w1, x, false) && PhaseAt(w1, 0) == EnablePassed(x, x, None)
    ensures w3 == Next(Next(w1, Enabling(x)[1]), Enabling(x)[2]) && Known(w3, x, true)
    ensures DrawsNew(w1, Enabling(x)[1]) && DrawsNew(Next(w1, Enabling(x)[1]), Enabling(x)[2])
  {
    var w2 := Next(w1, Enabling(x)[1]);
    QuietStep(w1, Enabling(x)[1], x);
    assert PhaseAt(w2, 0) == EnableSaved(x, None);
    w3 := Next(w2, Enabling(x)[2]);
    QuietStep(w2, Enabling(x)[2], x);
  }

  lemma IsEnabled(w: World, x: string) returns (w3: World)
    requires Known(w, x, false)
    ensures w3 == Run(w, Enabling(x)) && Fresh(w, Enabling(x)) && Known(w3, x, true)
  {
    var es := Enabling(x);
    var w1 := IsConfirmed(w, x);
    w3 := IsSaved(w1, x);
    assert es[..0] == [] && es[..3] == es;
    RunPrefix(w, es, 0);
    TwoMore(w, es, 1);
  }

  lemma PasswordPasses(w: World, x: string, enabled: bool) returns (w1: World)
    requires Known(w, x, enabled)
    ensures w1 == Next(w, LoggingIn(x)[0]) && Known(w1, x, enabled) && PhaseAt(w1, 0) == LoginPassed(x, enabled)
    ensures DrawsNew(w, LoggingIn(x)[0])
  {
    w1 := Next(w, LoggingIn(x)[0]);
    QuietStep(w, LoggingIn(x)[0], x);
  }

  lemma TokenIsStored(kind: Kind, w1: World, x: string) returns (w2: World)
    requires Known(w1, x, kind.Login?) && PhaseAt(w1, 0) == LoginPassed(x, kind.Login?)
    ensures w2 == Next(w1, LoggingIn(x)[1]) && DrawsNew(w1, LoggingIn(x)[1])
    ensures Ready(kind, w2, x) && w2.used == {PendingKey(x), KeyFor(kind, x)} && Sessions(w2.log, KeyFor(kind, x)) == 0
  {
    w2 := Next(w1, LoggingIn(x)[1]);
    QuietSessions(w1, LoggingIn(x)[1], KeyFor(kind, x));
    assert MfaKey(x)[0] == 'm' && SetupKey(x)[5] == 's' && PendingKey(x)[0] == 't' && PendingKey(x)[5] == 'p';
  }

  lemma NoneDrawn(kind: Kind, w: World, x: string)
    requires w.used == {PendingKey(x), KeyFor(kind, x)}
    ensures NewFrom(w, 0)
  {
    assert KeyFor(kind, x)[0] != 'r' && PendingKey(x)[0] == 't';
    forall j: nat ensures RefreshKey(Token(j)) !in w.used {
      assert RefreshKey(Token(j))[0] == 'r';
    }
  }

  lemma LogsIn(kind: Kind, w: World, x: string) returns (w2: World)
    requires Known(w, x, kind.Login?)
    ensures w2 == Run(w, LoggingIn(x)) && Fresh(w, LoggingIn(x)) && HaveRead(kind, w2, x, 0, 0)
  {
    var w1 := PasswordPasses(w, x, kind.Login?);
    w2 := TokenIsStored(kind, w1, x);
    NoneDrawn(kind, w2, x);
    TwoRun(w, LoggingIn(x), w1, w2);
  }

  lemma PreludeReady(kind: Kind, w0: World, x: string) returns (w: World)
    requires Boot(w0) && w0.env.validates(x, x, 0) && w0.env.matches(x, x)
    ensures w == Run(w0, Prelude(kind, x)) && Fresh(w0, Prelude(kind, x)) && HaveRead(kind, w, x, 0, 0)
  {
    var w2 := IsCreated(w0, x);
    var es := Creation(x) + (if kind.Login? then Enabling(x) else []);
    var w5 := w2;
    if kind.Login? {
      w5 := IsEnabled(w2, x);
      RunConcat(w0, Creation(x), Enabling(x));
    } else {
      assert es == Creation(x);
    }
    w := LogsIn(kind, w5, x);
    RunConcat(w0, es, LoggingIn(x));
  }

  // ---------------------------------------------------------------- the whole race

  /** f requests whose deletions fail, one after another, and then k that all read first. */
  function Race(kind: Kind, x: string, k: nat, f: nat): seq<Step> {
    Prelude(kind, x) + Blocks(Round(kind, x), f) + Blocks(Reading(kind, x), k) + Blocks(Finishing(kind, f), k)
  }

  lemma RaceHands(kind: Kind, w0: World, x: string, k: nat, f: nat)
    requires Boot(w0) && w0.env.validates(x, x, 0) && w0.env.matches(x, x)
    ensures var es := Race(kind, x, k, f);
            Fresh(w0, es) && Sessions(Run(w0, es).log, KeyFor(kind, x)) == k + f
  {
    var rounds, readings, rest := Blocks(Round(kind, x), f), Blocks(Reading(kind, x), k), Blocks(Finishing(kind, f), k);
    var w1 := PreludeReady(kind, w0, x);
    RoundsHand(kind, w1, x, f);
    RunConcat(w0, Prelude(kind, x), rounds);
    var w2 := Run(w1, rounds);
    ReadingsRead(kind, w2, x, f, k);
    RunConcat(w0, Prelude(kind, x) + rounds, readings);
    var w3 := Run(w2, readings);
    assert HaveIssued(kind, w3, x, f, k, 0);
    AllIssue(kind, w3, x, f, k);
    RunConcat(w0, Prelude(kind, x) + rounds + readings, rest);
  }

  /** The request that a step is of; 0 if it is of none. */
  function Mover(s: Step): nat {
    match s
    case InLogin(login) => login.id
    case InVerify(verify) => verify.id
    case InSetup(setup) => if setup.SetupDirect? then 0 else setup.id
    case InEnable(enable) => enable.id
    case InComplete(complete) => complete.id
    case InSession(session) => if session.Logout? then 0 else session.id
    case InOther(other) => if other.Fail? then other.id else 0
  }

  predicate Deletion(s: Step, ok: bool) {
    || (s.InVerify? && s.verify.VerifyDel? && s.verify.ok == ok)
    || (s.InComplete? && s.complete.CompleteDel? && s.complete.ok == ok)
  }

  /** All steps are of the first k requests. */
  predicate Within(es: seq<Step>, k: nat) { forall i :: 0 <= i < |es| ==> Mover(es[i]) < k }

  function Failing(es: seq<Step>): nat {
    if es == [] then 0 else Failing(es[..|es| - 1]) + if Deletion(es[|es| - 1], false) then 1 else 0
  }

  lemma OnlyMover(w: World, s: Step)
    ensures Next(w, s).ops.Keys <= w.ops.Keys + {Mover(s)}
  {
    match s {
      case InLogin(login) => assert LoginNext(w, login).ops.Keys <= w.ops.Keys + {Mover(s)};
      case InVerify(verify) => assert VerifyNext(w, verify).ops.Keys <= w.ops.Keys + {Mover(s)};
      case InSetup(setup) => assert SetupNext(w, setup).ops.Keys <= w.ops.Keys + {Mover(s)};
      case InEnable(enable) => assert EnableNext(w, enable).ops.Keys <= w.ops.Keys + {Mover(s)};
      case InComplete(complete) => assert CompleteNext(w, complete).ops.Keys <= w.ops.Keys + {Mover(s)};
      case InSession(session) => assert SessionNext(w, session).ops.Keys <= w.ops.Keys + {Mover(s)};
      case InOther(other) => assert OtherNext(w, other).ops.Keys <= w.ops.Keys + {Mover(s)};
    }
  }

  lemma {:induction false} FewRequests(w0: World, es: seq<Step>, k: nat)
    requires Boot(w0) && Within(es, k)
    ensures Run(w0, es).ops.Keys <= Below(k)
  {
    if es != [] {
      var w, s := Run(w0, es[..|es| - 1]), es[|es| - 1];
      FewRequests(w0, es[..|es| - 1], k);
      OnlyMover(w, s);
      assert Mover(s) < k;
    }
  }

  lemma FewHolders(w0: World, es: seq<Step>, key: string, k: nat)
    requires Boot(w0) && Within(es, k)
    ensures AtMostHolders(w0, es, key, k)
  {
    forall n | 0 <= n <= |es| ensures |Holders(Run(w0, es[..n]), key)| <= k {
      FewRequests(w0, es[..n], k);
      SubsetSize(Holders(Run(w0, es[..n]), key), Below(k));
    }
  }

  lemma {:induction false} FewFailures(w0: World, es: seq<Step>, key: string)
    ensures FailedDeletes(w0, es, key) <= Failing(es)
  {
    if es != [] {
      FewFailures(w0, es[..|es| - 1], key);
    }
  }

  lemma {:induction false} FailingConcat(es: seq<Step>, fs: seq<Step>)
    ensures Failing(es + fs) == Failing(es) + Failing(fs)
  {
    if fs == [] {
      assert es + fs == es;
    } else {
      FailingConcat(es, fs[..|fs| - 1]);
      assert (es + fs)[..|es + fs| - 1] == es + fs[..|fs| - 1];
    }
  }

  /** At most this many deletions of the block fail, and all its steps are of the first k requests. */
  predicate Modest(es: seq<Step>, k: nat, fails: nat) { Within(es, k) && Failing(es) <= fails }

  lemma ModestConcat(es: seq<Step>, fs: seq<Step>, k: nat, a: nat, b: nat)
    requires Modest(es, k, a) && Modest(fs, k, b)
    ensures Modest(es + fs, k, a + b)
  {
    FailingConcat(es, fs);
  }

  lemma {:induction false} ModestBlocks(block: nat -> seq<Step>, i: nat, k: nat, fail: bool)
    requires forall j: nat :: j < i ==> Modest(block(j), k, if fail then 1 else 0)
    ensures Modest(Blocks(block, i), k, if fail then i else 0)
  {
    if i > 0 {
      ModestBlocks(block, i - 1, k, fail);
      ModestConcat(Blocks(block, i - 1), block(i - 1), k, if fail then i - 1 else 0, if fail then 1 else 0);
    }
  }

  lemma {:induction false} OnlyOneFails(es: seq<Step>, at: nat)
    requires forall i :: 0 <= i < |es| && i != at ==> !Deletion(es[i], false)
    ensures Failing(es) <= if at < |es| then 1 else 0
  {
    if es != [] {
      OnlyOneFails(es[..|es| - 1], at);
    }
  }

  lemma ReadsAreModest(kind: Kind, x: string, i: nat, k: nat)
    requires i < k
    ensures Modest(Reads(kind, x, i), k, 0)
  {
    OnlyOneFails(Reads(kind, x, i), 2);
  }

  lemma RestIsModest(kind: Kind, i: nat, n: nat, ok: bool, k: nat)
    requires i < k
    ensures Modest(Rest(kind, i, n, ok), k, if ok then 0 else 1)
  {
    OnlyOneFails(Rest(kind, i, n, ok), if ok then 5 else if kind.Login? then 1 else 3);
  }

  lemma PreludeIsModest(kind: Kind, x: string, k: nat)
    requires k >= 1
    ensures Modest(Prelude(kind, x), k, 0)
  {
    OnlyOneFails(Prelude(kind, x), 7);
  }

  lemma RoundsAreModest(kind: Kind, x: string, f: nat, k: nat)
    requires k >= 1
    ensures Modest(Blocks(Round(kind, x), f), k, f)
  {
    forall j: nat | j < f ensures Modest(Round(kind, x)(j), k, 1) {
      ReadsAreModest(kind, x, 0, k);
      RestIsModest(kind, 0, j, false, k);
      ModestConcat(Reads(kind, x, 0), Rest(kind, 0, j, false), k, 0, 1);
    }
    ModestBlocks(Round(kind, x), f, k, true);
  }

  lemma ReadingsAreModest(kind: Kind, x: string, k: nat)
    ensures Modest(Blocks(Reading(kind, x), k), k, 0)
  {
    forall j: nat | j < k ensures Modest(Reading(kind, x)(j), k, 0) {
      ReadsAreModest(kind, x, j, k);
    }
    ModestBlocks(Reading(kind, x), k, k, false);
  }

  lemma FinishingIsModest(kind: Kind, f: nat, k: nat)
    ensures Modest(Blocks(Finishing(kind, f), k), k, 0)
  {
    forall j: nat | j < k ensures Modest(Finishing(kind, f)(j), k, 0) {
      RestIsModest(kind, j, f + j, true, k);
    }
    ModestBlocks(Finishing(kind, f), k, k, false);
  }

  lemma RaceIsModest(kind: Kind, x: string, k: nat, f: nat)
    requires k >= 1
    ensures Modest(Race(kind, x, k, f), k, f)
  {
    var rounds, readings, rest := Blocks(Round(kind, x), f), Blocks(Reading(kind, x), k), Blocks(Finishing(kind, f), k);
    PreludeIsModest(kind, x, k);
    RoundsAreModest(kind, x, f, k);
    ReadingsAreModest(kind, x, k);
    FinishingIsModest(kind, f, k);
    ModestConcat(Prelude(kind, x), rounds, k, 0, f);
    ModestConcat(Prelude(kind, x) + rounds, readings, k, f, 0);
    ModestConcat(Prelude(kind, x) + rounds + readings, rest, k, f, 0);
  }

  /** For either kind of token and for every k >= 1 and f a run reaches the bound. */
  lemma BoundIsReached(kind: Kind, w0: World, x: string, k: nat, f: nat)
    requires Boot(w0) && w0.env.validates(x, x, 0) && w0.env.matches(x, x) && k >= 1
    ensures var es, key := Race(kind, x, k, f), KeyFor(kind, x);
            && Fresh(w0, es) && AtMostHolders(w0, es, key, k) && FailedDeletes(w0, es, key) <= f
            && Sessions(Run(w0, es).log, key) == k + f
  {
    RaceHands(kind, w0, x, k, f);
    RaceIsModest(kind, x, k, f);
    FewHolders(w0, Race(kind, x, k, f), KeyFor(kind, x), k);
    FewFailures(w0, Race(kind, x, k, f), KeyFor(kind, x));
  }

  // ---------------------------------------------------------------- exactly when

  predicate OfKind(kind: Kind, key: string) { if kind.Login? then SpaceOf(key).Mfa? else SpaceOf(key).Setup? }

  /** No token of this kind yields more than n sessions with at most k holders of it at a time and at
      most f failed deletions of it. */
  ghost predicate NeverMore(kind: Kind, k: nat, f: nat, n: nat) {
    forall w0: World, es: seq<Step>, key: string {:trigger FailedDeletes(w0, es, key)} ::
      && Boot(w0) && Fresh(w0, es) && OfKind(kind, key)
      && AtMostHolders(w0, es, key, k) && FailedDeletes(w0, es, key) <= f ==>
        Sessions(Run(w0, es).log, key) <= n
  }

  lemma {:induction false} NoHolderNoSession(w0: World, es: seq<Step>, key: string)
    requires Boot(w0) && AtMostHolders(w0, es, key, 0)
    ensures Sessions(Run(w0, es).log, key) == 0
  {
    if es != [] {
      var w, s := Run(w0, es[..|es| - 1]), es[|es| - 1];
      HoldersPrefix(w0, es, key, 0);
      NoHolderNoSession(w0, es[..|es| - 1], key);
      assert |Holders(Run(w0, es[..|es| - 1]), key)| <= 0;
      if s.InSession? && s.session.Issue? {
        IssueMoves(w, s.session.id, s.session.token, key);
      } else {
        QuietSessions(w, s, key);
      }
    }
  }

  /** The bound k + f is the least, for either kind of token and for every k but 0, when nobody ever
      holds the token. */
  lemma SessionsExactly(kind: Kind, k: nat, f: nat, n: nat)
    ensures NeverMore(kind, k, f, n) <==> k == 0 || k + f <= n
  {
    if k == 0 || k + f <= n {
      forall w0: World, es: seq<Step>, key: string
        | && Boot(w0) && Fresh(w0, es) && OfKind(kind, key)
          && AtMostHolders(w0, es, key, k) && FailedDeletes(w0, es, key) <= f
        ensures Sessions(Run(w0, es).log, key) <= n
      {
        if k == 0 {
          NoHolderNoSession(w0, es, key);
        } else {
          SessionsAreBounded(w0, es, key, k);
        }
      }
    } else {
      var env := Env((hash, password) => true, (code, secret, now) => true);
      Overdraws(kind, World(env, map[], map[], map[], [], {}), "x", k, f, n);
    }
  }

  lemma Overdraws(kind: Kind, w0: World, x: string, k: nat, f: nat, n: nat)
    requires Boot(w0) && w0.env.validates(x, x, 0) && w0.env.matches(x, x) && k >= 1 && n < k + f
    ensures !NeverMore(kind, k, f, n)
  {
    BoundIsReached(kind, w0, x, k, f);
    SpacesAreApart(x);
    assert FailedDeletes(w0, Race(kind, x, k, f), KeyFor(kind, x)) <= f;
  }

  /** With working deletions a token of either kind is good for one session exactly when at most one
      request holds it at a time. */
  lemma SingleUseExactlyWhenSerial(kind: Kind, k: nat)
    ensures NeverMore(kind, k, 0, 1) <==> k <= 1
  {
    SessionsExactly(kind, k, 0, 1);
  }
}
