/** Runs from the empty account tables: what the exact conditions of Sessions, Activation and Enrolment leave
    open does happen. */
module AccountRuns {
  import opened JsText
  import opened Accounts
  import opened Sessions
  import opened Activation
  import opened Enrolment

  const NOBODY := AuthSystem(NO_ACCOUNTS, map[], map[], map[])

  lemma {:induction false} TwoSteps(run: seq<AuthAction>, x: AuthAction, y: AuthAction)
    ensures AuthAfter(run + [x] + [y]) == AuthStep(AuthStep(AuthAfter(run), x), y)
  {
    hide AuthStep;
    AuthAfterOne(run, x);
    AuthAfterOne(run + [x], y);
  }

  lemma {:induction false} ThreeSteps(run: seq<AuthAction>, x: AuthAction, y: AuthAction, z: AuthAction)
    ensures AuthAfter(run + [x] + [y] + [z]) == AuthStep(AuthStep(AuthStep(AuthAfter(run), x), y), z)
  {
    hide AuthStep;
    TwoSteps(run, x, y);
    AuthAfterOne(run + [x] + [y], z);
  }

  // ---------- activation ----------

  const PENDING := Account(PendingActivation, None, false, true)

  const FIRST_CODE := Code(1, 7, CODE_TTL, None)

  /** Student 1 has asked for a code and holds 7; the given activations are in progress. */
  function Activating(calls: map<CallId, ActivationCall>): AuthSystem {
    AuthSystem(Auth(0, map[1 := PENDING], map[], {}, map[], [FIRST_CODE], map[]), map[], calls, map[])
  }

  /** The call of a student with code 7 and the given password. */
  function CallWith(password: Secret, phase: ActivationPhase): ActivationCall {
    ActivationCall(1, 7, password, false, phase)
  }

  lemma AskSteps()
    ensures AuthStep(AuthStep(NOBODY, AddUser(1, false, true)), Initiate(1, 7, false)) == Activating(map[])
  {}

  lemma {:induction false} Asked() returns (run: seq<AuthAction>)
    ensures AuthAfter(run) == Activating(map[])
  {
    assert AuthAfter([]) == NOBODY;
    TwoSteps([], AddUser(1, false, true), Initiate(1, 7, false));
    run := [] + [AddUser(1, false, true)] + [Initiate(1, 7, false)];
    hide AuthAfter;
    hide AuthStep;
    AskSteps();
  }

  lemma CheckSteps(calls: map<CallId, ActivationCall>, id: CallId, password: Secret)
    requires id !in calls
    ensures
      AuthStep(AuthStep(Activating(calls), BeginActivation(id, 1, 7, password, false)), AdvanceActivation(id, 0, 0)) ==
        Activating(calls[id := CallWith(password, Consume(0))])
  {}

  /** A call begun with code 7 passes its check. */
  lemma {:induction false} BeganAndChecked(run: seq<AuthAction>, calls: map<CallId, ActivationCall>,
                                           id: CallId, password: Secret)
    requires AuthAfter(run) == Activating(calls) && id !in calls
    ensures
      AuthAfter(run + [BeginActivation(id, 1, 7, password, false)] + [AdvanceActivation(id, 0, 0)]) ==
        Activating(calls[id := CallWith(password, Consume(0))])
  {
    TwoSteps(run, BeginActivation(id, 1, 7, password, false), AdvanceActivation(id, 0, 0));
    hide *;
    CheckSteps(calls, id, password);
  }

  lemma OlderSteps()
    ensures
      var s := Activating(map[0 := CallWith(90, Consume(0))]);
      var a := AuthStep(AuthStep(s, Initiate(1, 8, false)), AdvanceActivation(0, 0, 0)).auth;
      && Opened(a, 1) && |a.codes| == 2 && a.codes[0].user == a.codes[1].user == 1
      && a.codes[0].usedAt.Some? && a.codes[1].usedAt.None?
  {}

  /** The student asks for a second code while a call with the first is past its check: the older code
      opens the account, and the newer one stays unused. */
  lemma {:induction false} OlderCodeOpens() returns (run: seq<AuthAction>)
    ensures
      var a := AuthAfter(run).auth;
      && Opened(a, 1) && |a.codes| == 2 && a.codes[0].user == a.codes[1].user == 1
      && a.codes[0].usedAt.Some? && a.codes[1].usedAt.None?
  {
    var asked := Asked();
    BeganAndChecked(asked, map[], 0, 90);
    var checked := asked + [BeginActivation(0, 1, 7, 90, false)] + [AdvanceActivation(0, 0, 0)];
    TwoSteps(checked, Initiate(1, 8, false), AdvanceActivation(0, 0, 0));
    run := checked + [Initiate(1, 8, false)] + [AdvanceActivation(0, 0, 0)];
    hide AuthAfter;
    hide AuthStep;
    hide Activating;
    OlderSteps();
  }

  /** Two calls with the first code are past their checks. */
  function BothChecked(): AuthSystem {
    Activating(map[0 := CallWith(90, Consume(0)), 1 := CallWith(91, Consume(0))])
  }

  lemma {:induction false} BothCheckedRun() returns (run: seq<AuthAction>)
    ensures AuthAfter(run) == BothChecked()
  {
    var asked := Asked();
    BeganAndChecked(asked, map[], 0, 90);
    var one := asked + [BeginActivation(0, 1, 7, 90, false)] + [AdvanceActivation(0, 0, 0)];
    hide AuthAfter;
    hide Activating;
    BeganAndChecked(one, map[0 := CallWith(90, Consume(0))], 1, 91);
    run := one + [BeginActivation(1, 1, 7, 91, false)] + [AdvanceActivation(1, 0, 0)];
  }

  lemma OpeningSteps()
    ensures
      var s, x, y := BothChecked(), AdvanceActivation(0, 0, 0), AdvanceActivation(1, 0, 0);
      var once, twice := AuthStep(s, x), AuthStep(AuthStep(s, x), y);
      && Opened(once.auth, 1) && once.auth.users[1].password == Some(90)
      && once.activating == s.activating[0 := CallWith(90, Grant)]
      && Opened(twice.auth, 1) && twice.auth.users[1].password == Some(91)
  {}

  /** Two calls with one code are past their checks: both open the account, and the later password stays. */
  lemma {:induction false} OpenedTwice() returns (run: seq<AuthAction>, m: nat, n: nat)
    ensures m < n && OpensAt(run, m, 1) && OpensAt(run, n, 1)
    ensures Opened(AuthAfter(run[..m + 1]).auth, 1) && AuthAfter(run[..m + 1]).auth.users[1].password == Some(90)
    ensures Opened(AuthAfter(run).auth, 1) && AuthAfter(run).auth.users[1].password == Some(91)
  {
    var x, y := AdvanceActivation(0, 0, 0), AdvanceActivation(1, 0, 0);
    var both := BothCheckedRun();
    AuthAfterOne(both, x);
    TwoSteps(both, x, y);
    run, m, n := both + [x] + [y], |both|, |both| + 1;
    assert run[..m] == both && run[..m + 1] == both + [x] && run[..n] == both + [x];
    hide AuthAfter;
    hide AuthStep;
    OpeningSteps();
  }

  // ---------- sessions ----------

  /** Officer 1, without a mandatory second factor, has activated the account and holds token 50. */
  function SignedIn(calls: map<CallId, RefreshCall>): AuthSystem {
    AuthSystem(
      Auth(0, map[1 := Account(ActiveAccount, Some(90), false, false)], map[], {},
           map[50 := RefreshToken(1, 1000, None)], [Code(1, 7, CODE_TTL, Some(0))],
           map[50 := Chain(StaffActivation, 50)]),
      calls, map[0 := ActivationCall(1, 7, 90, true, ActivationPhase.Activated(Authenticated(50)))], map[])
  }

  /** The same officer with a code in hand, the activation in the given phase. */
  function Begun(phase: ActivationPhase): AuthSystem {
    AuthSystem(
      Auth(0, map[1 := Account(PendingActivation, None, false, false)], map[], {}, map[], [FIRST_CODE], map[]),
      map[], map[0 := ActivationCall(1, 7, 90, true, phase)], map[])
  }

  lemma StaffSteps()
    ensures
      AuthStep(AuthStep(AuthStep(NOBODY, AddUser(1, false, false)), Initiate(1, 7, true)),
               BeginActivation(0, 1, 7, 90, true)) == Begun(CheckCode)
  {}

  lemma GrantSteps()
    ensures
      var x := AdvanceActivation(0, 50, 1000);
      && AuthStep(Begun(CheckCode), x) == Begun(Consume(0))
      && AuthStep(AuthStep(Begun(Consume(0)), x), x) == SignedIn(map[])
  {}

  lemma {:induction false} StaffSignsIn() returns (run: seq<AuthAction>)
    ensures AuthAfter(run) == SignedIn(map[])
  {
    var x := AdvanceActivation(0, 50, 1000);
    assert AuthAfter([]) == NOBODY;
    ThreeSteps([], AddUser(1, false, false), Initiate(1, 7, true), BeginActivation(0, 1, 7, 90, true));
    var begun := [] + [AddUser(1, false, false)] + [Initiate(1, 7, true)] + [BeginActivation(0, 1, 7, 90, true)];
    ThreeSteps(begun, x, x, x);
    run := begun + [x] + [x] + [x];
    hide *;
    StaffSteps();
    GrantSteps();
  }

  lemma FindSteps(calls: map<CallId, RefreshCall>, id: CallId)
    requires id !in calls
    ensures
      AuthStep(AuthStep(SignedIn(calls), BeginRefresh(id, 50)), AdvanceRefresh(id, 0, 0)) ==
        SignedIn(calls[id := RefreshCall(50, RevokeOld(1))])
  {}

  /** A refresh begun with token 50 finds it valid. */
  lemma {:induction false} BeganAndFound(run: seq<AuthAction>, calls: map<CallId, RefreshCall>, id: CallId)
    requires AuthAfter(run) == SignedIn(calls) && id !in calls
    ensures
      AuthAfter(run + [BeginRefresh(id, 50)] + [AdvanceRefresh(id, 0, 0)]) ==
        SignedIn(calls[id := RefreshCall(50, RevokeOld(1))])
  {
    TwoSteps(run, BeginRefresh(id, 50), AdvanceRefresh(id, 0, 0));
    hide *;
    FindSteps(calls, id);
  }

  /** Refresh 0 has replaced token 50 by token 51, refresh 1 of token 50 is in the given phase. */
  function Replaced(phase: RefreshPhase): AuthSystem {
    SignedIn(map[0 := RefreshCall(50, Refreshed(Authenticated(51))), 1 := RefreshCall(50, phase)]).(
      auth := SignedIn(map[]).auth.(
        tokens := map[50 := RefreshToken(1, 1000, Some(0)), 51 := RefreshToken(1, 1000, None)],
        chains := map[50 := Chain(StaffActivation, 50), 51 := Chain(StaffActivation, 50)]))
  }

  lemma FirstRefreshSteps()
    ensures
      var s := SignedIn(map[0 := RefreshCall(50, RevokeOld(1)), 1 := RefreshCall(50, RevokeOld(1))]);
      AuthStep(AuthStep(s, AdvanceRefresh(0, 0, 0)), AdvanceRefresh(0, 51, 1000)) == Replaced(RevokeOld(1))
  {}

  lemma SecondRevokeStep()
    ensures AuthStep(Replaced(RevokeOld(1)), AdvanceRefresh(1, 0, 0)) == Replaced(IssueNew(1))
  {}

  lemma SecondIssueStep()
    ensures
      var a := AuthStep(Replaced(IssueNew(1)), AdvanceRefresh(1, 52, 1000)).auth;
      && ValidToken(a, 51) && InChain(a, 51, 50)
      && ValidToken(a, 52) && InChain(a, 52, 50)
  {}

  /** Two refreshes of one token have both found it valid: the chain ends up with two valid tokens. */
  lemma {:induction false} ChainForks() returns (run: seq<AuthAction>)
    ensures
      var a := AuthAfter(run).auth;
      && ValidToken(a, 51) && InChain(a, 51, 50)
      && ValidToken(a, 52) && InChain(a, 52, 50)
  {
    hide AuthAfter;
    hide AuthStep;
    hide SignedIn;
    hide Replaced;
    run := StaffSignsIn();
    BeganAndFound(run, map[], 0);
    run := run + [BeginRefresh(0, 50)] + [AdvanceRefresh(0, 0, 0)];
    BeganAndFound(run, map[0 := RefreshCall(50, RevokeOld(1))], 1);
    run := run + [BeginRefresh(1, 50)] + [AdvanceRefresh(1, 0, 0)];
    TwoSteps(run, AdvanceRefresh(0, 0, 0), AdvanceRefresh(0, 51, 1000));
    FirstRefreshSteps();
    run := run + [AdvanceRefresh(0, 0, 0)] + [AdvanceRefresh(0, 51, 1000)];
    TwoSteps(run, AdvanceRefresh(1, 0, 0), AdvanceRefresh(1, 52, 1000));
    SecondRevokeStep();
    SecondIssueStep();
    run := run + [AdvanceRefresh(1, 0, 0)] + [AdvanceRefresh(1, 52, 1000)];
  }

  /** The chain is logged out; the refresh that had found its token valid is in the given phase. */
  function LoggedOut(phase: RefreshPhase): AuthSystem {
    SignedIn(map[0 := RefreshCall(50, phase)]).(
      auth := SignedIn(map[]).auth.(tokens := map[50 := RefreshToken(1, 1000, Some(0))]))
  }

  lemma LogoutSteps()
    ensures AuthStep(SignedIn(map[0 := RefreshCall(50, RevokeOld(1))]), AuthAction.Logout(50)) ==
            LoggedOut(RevokeOld(1))
    ensures AuthStep(LoggedOut(RevokeOld(1)), AdvanceRefresh(0, 0, 0)) == LoggedOut(IssueNew(1))
    ensures forall h :: !IsHead(LoggedOut(RevokeOld(1)), 50, h)
  {}

  lemma OutrunStep()
    ensures
      var a := AuthStep(LoggedOut(IssueNew(1)), AdvanceRefresh(0, 51, 1000)).auth;
      ValidToken(a, 51) && InChain(a, 51, 50)
  {}

  /** A logout between the find and the revocation of a refresh ends the chain, and then the refresh
      goes on: the user holds a valid token of the chain that was logged out. */
  lemma {:induction false} LogoutOutrun() returns (ended: seq<AuthAction>, run: seq<AuthAction>)
    ensures ended <= run && forall h :: !IsHead(AuthAfter(ended), 50, h)
    ensures ValidToken(AuthAfter(run).auth, 51) && InChain(AuthAfter(run).auth, 51, 50)
  {
    hide AuthAfter;
    hide AuthStep;
    hide SignedIn;
    hide LoggedOut;
    hide IsHead;
    var start := StaffSignsIn();
    BeganAndFound(start, map[], 0);
    var found := start + [BeginRefresh(0, 50)] + [AdvanceRefresh(0, 0, 0)];
    AuthAfterOne(found, AuthAction.Logout(50));
    ended := found + [AuthAction.Logout(50)];
    LogoutSteps();
    TwoSteps(ended, AdvanceRefresh(0, 0, 0), AdvanceRefresh(0, 51, 1000));
    OutrunStep();
    run := ended + [AdvanceRefresh(0, 0, 0)] + [AdvanceRefresh(0, 51, 1000)];
  }

  // ---------- the second factor ----------

  /** User 1 has set up the given secret; the call that checks code 5 is in the given phase. */
  function Enrolling(totp: Totp, phase: ConfirmPhase): AuthSystem {
    AuthSystem(
      Auth(0, map[1 := Account(PendingActivation, None, false, false)], map[1 := totp], {}, map[], [], map[]),
      map[], map[], map[0 := ConfirmCall(1, 5, phase)])
  }

  lemma EnrolSteps()
    ensures
      AuthStep(AuthStep(AuthStep(NOBODY, AddUser(1, false, false)), SetupTotp(1, 5)), BeginConfirm(0, 1, 5)) ==
        Enrolling(Totp(5, false), CheckSecret)
  {}

  lemma ReplaceSteps()
    ensures AuthStep(Enrolling(Totp(5, false), CheckSecret), AdvanceConfirm(0)) ==
            Enrolling(Totp(5, false), MarkVerified)
    ensures AuthStep(Enrolling(Totp(5, false), MarkVerified), SetupTotp(1, 6)) ==
            Enrolling(Totp(6, false), MarkVerified)
    ensures AuthStep(Enrolling(Totp(6, false), MarkVerified), AdvanceConfirm(0)) ==
            Enrolling(Totp(6, true), Confirmed(None))
  {}

  /** A user sets up another secret while the confirmation of the first is past its check: the new secret is
      verified, and no code of it was ever checked. */
  lemma {:induction false} UnprovenSecret() returns (run: seq<AuthAction>)
    ensures HasSecondFactor(AuthAfter(run).auth, 1) && AuthAfter(run).auth.totp[1].secret == 6
    ensures !ProvenSecret(run, 1, 6)
  {
    assert AuthAfter([]) == NOBODY;
    hide AuthAfter;
    hide AuthStep;
    ThreeSteps([], AddUser(1, false, false), SetupTotp(1, 5), BeginConfirm(0, 1, 5));
    var begun := [] + [AddUser(1, false, false)] + [SetupTotp(1, 5)] + [BeginConfirm(0, 1, 5)];
    EnrolSteps();
    TwoSteps(begun, AdvanceConfirm(0), SetupTotp(1, 6));
    var replaced := begun + [AdvanceConfirm(0)] + [SetupTotp(1, 6)];
    ReplaceSteps();
    AuthAfterOne(replaced, AdvanceConfirm(0));
    run := replaced + [AdvanceConfirm(0)];
    assert run[..3] == begun && run[..5] == replaced;
    forall k: nat, id ensures !SecretCheckAt(run, k, id, 1, 6) {
      assert k < |run| && run[k].AdvanceConfirm? ==> k == 3 || k == 5;
    }
  }
}
