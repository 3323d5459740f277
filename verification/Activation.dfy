/** Activation codes: which one opens an account, and how often. */
module Activation {
  import opened JsText
  import opened Accounts
  import opened Sessions

  /** Codes expire in the order of their creation, and only opened accounts have used codes. */
  ghost predicate CodeOk(a: Auth, i: nat)
    requires i < |a.codes|
  {
    && a.codes[i].user in a.users
    && a.codes[i].expiresAt <= a.clock + CODE_TTL
    && (a.codes[i].usedAt.Some? ==> a.users[a.codes[i].user].status != PendingActivation)
  }

  ghost predicate CodesOk(a: Auth) {
    && (forall i: nat | i < |a.codes| :: CodeOk(a, i))
    && (forall i, j | 0 <= i < j < |a.codes| :: a.codes[i].expiresAt <= a.codes[j].expiresAt)
  }

  /** An activation that has passed its check holds a code of its own user. */
  ghost predicate CallOk(a: Auth, c: ActivationCall) {
    && (c.phase.Consume? ==> c.phase.code < |a.codes| && a.codes[c.phase.code].user == c.user && c.user in a.users)
    && (c.phase.Grant? ==> c.user in a.users && a.users[c.user].status != PendingActivation)
  }

  ghost predicate ActivationsOk(s: AuthSystem) {
    CodesOk(s.auth) && forall id | id in s.activating :: CallOk(s.auth, s.activating[id])
  }

  // ---------- what a step does to codes and accounts ----------

  datatype CodeMove =
    | Nothing
    | Waits(dt: nat)
    | Joins(u: UserId, account: Account)
    | Sends(u: UserId, otp: Secret)
    | Opens(i: nat, u: UserId, password: Secret)

  /** The request of a code by or for `u` is granted: the account is pending and of the kind asked for. */
  predicate CodeSent(a: Auth, x: AuthAction, u: UserId) {
    && x.Initiate? && x.u == u && u in a.users
    && a.users[u].status == PendingActivation && a.users[u].student != x.staff
  }

  predicate CodeMoved(a: Auth, m: CodeMove, b: Auth) {
    match m
    case Nothing => b.codes == a.codes && b.users == a.users && b.clock == a.clock
    case Waits(dt) => b.codes == a.codes && b.users == a.users && b.clock == a.clock + dt
    case Joins(u, account) =>
      && u !in a.users && account.status == PendingActivation
      && b.codes == a.codes && b.users == a.users[u := account] && b.clock == a.clock
    case Sends(u, otp) =>
      && u in a.users && a.users[u].status == PendingActivation
      && b.codes == a.codes + [Code(u, otp, a.clock + CODE_TTL, None)] && b.users == a.users && b.clock == a.clock
    case Opens(i, u, password) =>
      && i < |a.codes| && a.codes[i].user == u && u in a.users && b.clock == a.clock
      && b.codes == a.codes[i := a.codes[i].(usedAt := Some(a.clock))]
      && b.users == a.users[u := a.users[u].(status := ActiveAccount, password := Some(password))]
  }

  lemma CommandCodes(a: Auth, x: AuthAction) returns (m: CodeMove)
    ensures CodeMoved(a, m, AuthCommand(a, x)) && !m.Opens?
    ensures forall u :: CodeSent(a, x, u) <==> m.Sends? && m.u == u
  {
    m := Nothing;
    match x {
      case Wait(dt) => m := Waits(dt);
      case AddUser(u, mandatory, student) =>
        if u !in a.users { m := Joins(u, Account(PendingActivation, None, mandatory, student)); }
      case Initiate(u, otp, _) => if CodeSent(a, x, u) { m := Sends(u, otp); }
      case _ =>
    }
  }

  lemma CodeStep(s: AuthSystem, x: AuthAction) returns (m: CodeMove)
    requires ActivationsOk(s)
    ensures CodeMoved(s.auth, m, AuthStep(s, x).auth)
    ensures m.Opens? <==>
              x.AdvanceActivation? && x.id in s.activating && s.activating[x.id].phase.Consume?
    ensures m.Opens? ==> m.u == s.activating[x.id].user
    ensures forall u :: CodeSent(s.auth, x, u) <==> m.Sends? && m.u == u
  {
    m := Nothing;
    if x.AdvanceActivation? {
      if x.id in s.activating {
        var c := s.activating[x.id];
        assert CallOk(s.auth, c);
        if c.phase.Consume? { m := Opens(c.phase.code, c.user, c.password); }
        hide FindCode;
      }
    } else if !x.AdvanceRefresh? && !x.AdvanceConfirm? {
      m := CommandCodes(s.auth, x);
      hide AuthCommand;
      hide CodeSent;
    }
  }

  lemma MoveKeepsCodes(a: Auth, m: CodeMove, b: Auth)
    requires CodeMoved(a, m, b) && CodesOk(a)
    ensures CodesOk(b)
  {
    forall i: nat | i < |b.codes| ensures CodeOk(b, i) {
      if i < |a.codes| { assert CodeOk(a, i); }
    }
    forall i, j | 0 <= i < j < |b.codes| ensures b.codes[i].expiresAt <= b.codes[j].expiresAt {
      assert CodeOk(a, i);
    }
  }

  lemma MoveKeepsCall(a: Auth, m: CodeMove, b: Auth, c: ActivationCall)
    requires CodeMoved(a, m, b) && CallOk(a, c)
    ensures CallOk(b, c)
  {}

  lemma StepKeepsActivations(s: AuthSystem, x: AuthAction)
    requires ActivationsOk(s)
    ensures ActivationsOk(AuthStep(s, x))
  {
    var s' := AuthStep(s, x);
    var m := CodeStep(s, x);
    MoveKeepsCodes(s.auth, m, s'.auth);
    hide CodesOk;
    hide CodeMoved;
    hide AuthCommand;
    hide RefreshStep;
    hide ActivationStep;
    forall id | id in s'.activating ensures CallOk(s'.auth, s'.activating[id]) {
      if x.AdvanceActivation? && x.id == id {
        CallAdvances(s.auth, s.activating[id], x.t, x.ttl);
      } else if id in s.activating {
        MoveKeepsCall(s.auth, m, s'.auth, s.activating[id]);
      }
    }
  }

  lemma CallAdvances(a: Auth, c: ActivationCall, t: TokenId, ttl: nat)
    requires CallOk(a, c)
    ensures CallOk(ActivationStep(a, c, t, ttl).0, ActivationStep(a, c, t, ttl).1)
  {}

  lemma {:induction false} RunKeepsActivations(run: seq<AuthAction>)
    ensures ActivationsOk(AuthAfter(run))
    decreases |run|
  {
    if run != [] {
      RunKeepsActivations(run[..|run| - 1]);
      hide ActivationsOk;
      hide AuthStep;
      StepKeepsActivations(AuthAfter(run[..|run| - 1]), run[|run| - 1]);
    }
  }

  // ---------- only the newest code ----------

  /** The code that the check of an activation accepts is the newest ever sent to its user: an older
      code is passed over even while it has not expired. */
  lemma {:induction false} OnlyTheNewestCode(run: seq<AuthAction>, u: UserId, i: nat)
    requires u in AuthAfter(run).auth.users && AuthAfter(run).auth.users[u].status == PendingActivation
    requires FindCode(AuthAfter(run).auth.codes, u, AuthAfter(run).auth.clock) == Some(i)
    ensures forall j | i < j < |AuthAfter(run).auth.codes| :: AuthAfter(run).auth.codes[j].user != u
  {
    RunKeepsActivations(run);
    var a := AuthAfter(run).auth;
    hide AuthAfter;
    forall j: nat | i < j < |a.codes| ensures a.codes[j].user != u {
      assert CodeOk(a, j);
      assert !Usable(a.codes[j], u, a.clock);
    }
  }

  // ---------- only once ----------

  ghost predicate Opened(a: Auth, u: UserId) {
    u in a.users && a.users[u].status != PendingActivation
  }

  lemma StepKeepsOpened(s: AuthSystem, x: AuthAction, u: UserId)
    requires ActivationsOk(s) && Opened(s.auth, u)
    ensures Opened(AuthStep(s, x).auth, u)
    ensures !(x.AdvanceActivation? && x.id in s.activating && s.activating[x.id].phase.Consume?
              && s.activating[x.id].user == u)
            ==> AuthStep(s, x).auth.users[u] == s.auth.users[u]
  {
    var m := CodeStep(s, x);
    if m.Opens? {
      assert CallOk(s.auth, s.activating[x.id]);
    }
  }

  /** An opened account is never pending again: no check of an activation passes for it any more, and
      no code is sent to it. */
  lemma {:induction false} OpenedForGood(run: seq<AuthAction>, i: nat, u: UserId, c: ActivationCall,
                                         t: TokenId, ttl: nat, otp: Secret, staff: bool)
    requires i <= |run| && Opened(AuthAfter(run[..i]).auth, u)
    requires c.user == u && c.phase.CheckCode?
    ensures Opened(AuthAfter(run).auth, u)
    ensures ActivationStep(AuthAfter(run).auth, c, t, ttl) ==
            (AuthAfter(run).auth, c.(phase := ActivationPhase.Activated(Denied(InvalidCode))))
    ensures InitiateEffect(AuthAfter(run).auth, u, otp, staff) == AuthAfter(run).auth
    decreases |run|
  {
    if i == |run| {
      assert run[..i] == run;
    } else {
      AuthPrefixes(run);
      var shorter := run[..|run| - 1];
      OpenedForGood(shorter, i, u, c, t, ttl, otp, staff);
      RunKeepsActivations(shorter);
      hide ActivationsOk;
      hide AuthAfter;
      StepKeepsOpened(AuthAfter(shorter), run[|run| - 1], u);
      hide AuthStep;
    }
  }

  /** Step `k` of the run is the check of call `id`, and the check passes. */
  ghost predicate ChecksAt(run: seq<AuthAction>, k: nat, id: CallId) {
    && k < |run| && run[k].AdvanceActivation? && run[k].id == id && id in AuthAfter(run[..k]).activating
    && AuthAfter(run[..k]).activating[id].phase.CheckCode?
    && AuthStep(AuthAfter(run[..k]), run[k]).activating[id].phase.Consume?
  }

  /** Step `m` of the run stores a new code for `u`. */
  ghost predicate SendsAt(run: seq<AuthAction>, m: nat, u: UserId) {
    m < |run| && CodeSent(AuthAfter(run[..m]).auth, run[m], u)
  }

  /** Step `m` of the run consumes a code and opens the account of `u`. */
  ghost predicate OpensAt(run: seq<AuthAction>, m: nat, u: UserId) {
    && m < |run| && run[m].AdvanceActivation? && run[m].id in AuthAfter(run[..m]).activating
    && AuthAfter(run[..m]).activating[run[m].id].phase.Consume?
    && AuthAfter(run[..m]).activating[run[m].id].user == u
  }

  /** Call `id` has passed its check and has not consumed its code yet. */
  ghost predicate Waiting(run: seq<AuthAction>, id: CallId) {
    id in AuthAfter(run).activating && AuthAfter(run).activating[id].phase.Consume?
  }

  lemma {:induction false} PastCheck(run: seq<AuthAction>, i: nat, id: CallId)
    requires i <= |run| && id in AuthAfter(run[..i]).activating
    requires !AuthAfter(run[..i]).activating[id].phase.CheckCode?
    ensures id in AuthAfter(run).activating && !AuthAfter(run).activating[id].phase.CheckCode?
    decreases |run|
  {
    hide AuthCommand;
    hide RefreshStep;
    hide ConfirmStep;
    if i == |run| {
      assert run[..i] == run;
    } else {
      AuthPrefixes(run);
      PastCheck(run[..|run| - 1], i, id);
      hide AuthAfter;
    }
  }

  /** A waiting call has made its check, at a step before the last one or at the last one. */
  lemma {:induction false} WaitsSince(run: seq<AuthAction>, id: CallId)
    requires Waiting(run, id)
    ensures run != []
    ensures
      var shorter := run[..|run| - 1];
      if ChecksAt(run, |run| - 1, id) then forall k | ChecksAt(run, k, id) :: k == |run| - 1
      else Waiting(shorter, id) && AuthAfter(shorter).activating[id] == AuthAfter(run).activating[id]
  {
    assert run != [];
    AuthPrefixes(run);
    var shorter := run[..|run| - 1];
    hide AuthCommand;
    hide RefreshStep;
    hide ConfirmStep;
    if ChecksAt(run, |run| - 1, id) {
      forall k: nat | ChecksAt(run, k, id) ensures k == |run| - 1 {
        if k < |run| - 1 {
          assert run[..k + 1] == run[..k] + [run[k]];
          AuthAfterOne(run[..k], run[k]);
          PastCheck(shorter, k + 1, id);
        }
      }
    }
  }

  lemma {:induction false} CheckStep(run: seq<AuthAction>, id: CallId) returns (k: nat)
    requires Waiting(run, id)
    ensures ChecksAt(run, k, id)
    decreases |run|
  {
    WaitsSince(run, id);
    AuthPrefixes(run);
    k := |run| - 1;
    hide Waiting;
    hide AuthStep;
    if !ChecksAt(run, k, id) {
      k := CheckStep(run[..|run| - 1], id);
    }
  }

  /** Code `i` is the newest of user `u`. */
  ghost predicate Newest(a: Auth, i: nat, u: UserId) {
    forall j | i < j < |a.codes| :: a.codes[j].user != u
  }

  lemma {:induction false} NewestUnlessSent(a: Auth, m: CodeMove, b: Auth, i: nat, u: UserId)
    requires CodeMoved(a, m, b) && i < |a.codes|
    ensures Newest(b, i, u) <==> Newest(a, i, u) && !(m.Sends? && m.u == u)
  {
    if Newest(b, i, u) {
      forall j | i < j < |a.codes| ensures a.codes[j].user != u {
        assert b.codes[j].user == a.codes[j].user;
      }
      if m.Sends? {
        assert b.codes[|a.codes|].user == m.u;
      }
    }
  }

  /** The code that a waiting call is about to consume is the newest of its user exactly if no code was
      sent to that user since the check. */
  lemma {:induction false} ConsumesNewestIff(run: seq<AuthAction>, id: CallId, k: nat)
    requires Waiting(run, id) && ChecksAt(run, k, id)
    ensures
      var c := AuthAfter(run).activating[id];
      Newest(AuthAfter(run).auth, c.phase.code, c.user) <==> forall m: nat | k < m :: !SendsAt(run, m, c.user)
    decreases |run|
  {
    hide AuthAfter;
    hide AuthStep;
    hide Newest;
    WaitsSince(run, id);
    var shorter, x := run[..|run| - 1], run[|run| - 1];
    var c := AuthAfter(run).activating[id];
    if k == |run| - 1 {
      CheckedNewest(run, id);
    } else {
      assert shorter[..k] == run[..k];
      ConsumesNewestIff(shorter, id, k);
      StepNewest(shorter, x, id);
      hide *;
      SentSince(shorter, x, k, c.user);
      assert run == shorter + [x];
    }
  }

  lemma {:induction false} CheckedNewest(run: seq<AuthAction>, id: CallId)
    requires run != [] && Waiting(run, id) && ChecksAt(run, |run| - 1, id)
    ensures
      var c := AuthAfter(run).activating[id];
      Newest(AuthAfter(run).auth, c.phase.code, c.user)
  {
    AuthPrefixes(run);
    var shorter := run[..|run| - 1];
    var c := AuthAfter(run).activating[id];
    hide AuthAfter;
    OnlyTheNewestCode(shorter, c.user, c.phase.code);
  }

  lemma {:induction false} StepNewest(run: seq<AuthAction>, x: AuthAction, id: CallId)
    requires Waiting(run, id)
    ensures
      var c := AuthAfter(run).activating[id];
      Newest(AuthAfter(run + [x]).auth, c.phase.code, c.user) <==>
        Newest(AuthAfter(run).auth, c.phase.code, c.user) && !CodeSent(AuthAfter(run).auth, x, c.user)
  {
    AuthAfterOne(run, x);
    RunKeepsActivations(run);
    var s := AuthAfter(run);
    hide AuthAfter;
    assert CallOk(s.auth, s.activating[id]);
    var m := CodeStep(s, x);
    hide AuthStep;
    hide ActivationsOk;
    hide CodeSent;
    NewestUnlessSent(s.auth, m, AuthAfter(run + [x]).auth, s.activating[id].phase.code, s.activating[id].user);
  }

  lemma {:induction false} SentSince(run: seq<AuthAction>, x: AuthAction, k: nat, u: UserId)
    requires k < |run|
    ensures
      (forall m: nat | k < m :: !SendsAt(run + [x], m, u)) <==>
      (forall m: nat | k < m :: !SendsAt(run, m, u)) && !CodeSent(AuthAfter(run).auth, x, u)
  {
    hide AuthAfter;
    hide CodeSent;
    var longer := run + [x];
    assert longer[..|run|] == run;
    forall m: nat
      ensures SendsAt(longer, m, u) <==> SendsAt(run, m, u) || (m == |run| && CodeSent(AuthAfter(run).auth, x, u))
    {
      if m < |run| { assert longer[..m] == run[..m]; }
    }
    if forall m: nat | k < m :: !SendsAt(longer, m, u) {
      assert !SendsAt(longer, |run|, u);
    }
  }

  lemma {:induction false} OpeningOpens(run: seq<AuthAction>, m: nat, u: UserId)
    requires OpensAt(run, m, u)
    ensures Opened(AuthAfter(run[..m + 1]).auth, u)
  {
    RunKeepsActivations(run[..m]);
    assert run[..m + 1] == run[..m] + [run[m]];
    AuthAfterOne(run[..m], run[m]);
    var s := AuthAfter(run[..m]);
    hide AuthAfter;
    assert CallOk(s.auth, s.activating[run[m].id]);
    var move := CodeStep(s, run[m]);
  }

  lemma {:induction false} OpenedStays(run: seq<AuthAction>, i: nat, u: UserId)
    requires i <= |run| && Opened(AuthAfter(run[..i]).auth, u)
    ensures Opened(AuthAfter(run).auth, u)
  {
    hide *;
    OpenedForGood(run, i, u, ActivationCall(u, 0, 0, false, CheckCode), 0, 0, 0, false);
  }

  lemma OpenedSince(run: seq<AuthAction>, x: AuthAction, k: nat, u: UserId)
    requires k < |run|
    ensures forall m: nat | OpensAt(run + [x], m, u) :: OpensAt(run, m, u) || m == |run|
    ensures
      (exists m: nat :: k < m && OpensAt(run + [x], m, u)) <==>
      (exists m: nat :: k < m && OpensAt(run, m, u)) || OpensAt(run + [x], |run|, u)
  {
    hide AuthAfter;
    var longer := run + [x];
    forall m: nat | m < |run| ensures OpensAt(longer, m, u) <==> OpensAt(run, m, u) {
      assert longer[..m] == run[..m];
    }
    if m: nat :| k < m && OpensAt(run, m, u) {
      assert OpensAt(longer, m, u);
    }
  }

  /** A pending account is opened by a step exactly if that consumes a code of its user. */
  lemma {:induction false} OpenedByStep(run: seq<AuthAction>, x: AuthAction, u: UserId)
    requires u in AuthAfter(run).auth.users
    ensures Opened(AuthAfter(run + [x]).auth, u) <==> Opened(AuthAfter(run).auth, u) || OpensAt(run + [x], |run|, u)
  {
    RunKeepsActivations(run);
    AuthAfterOne(run, x);
    assert (run + [x])[..|run|] == run;
    var s := AuthAfter(run);
    hide AuthAfter;
    hide AuthStep;
    var m := CodeStep(s, x);
    if m.Opens? {
      assert CallOk(s.auth, s.activating[x.id]);
    }
  }

  /** When a check passes, the account has not been opened. */
  lemma {:induction false} PendingAtCheck(run: seq<AuthAction>, k: nat, id: CallId)
    requires ChecksAt(run, k, id)
    ensures
      var u := AuthAfter(run[..k]).activating[id].user;
      !Opened(AuthAfter(run[..k]).auth, u) && forall m: nat | OpensAt(run, m, u) :: k <= m
  {
    var u := AuthAfter(run[..k]).activating[id].user;
    var before := run[..k];
    hide AuthAfter;
    forall m: nat | OpensAt(run, m, u) ensures k <= m {
      if m < k {
        OpeningOpens(run, m, u);
        assert before[..m + 1] == run[..m + 1];
        OpenedStays(before, m + 1, u);
        assert false;
      }
    }
  }

  /** A waiting call is about to open an account that is open already exactly if that account was opened
      since the check; before the check it was not. */
  lemma {:induction false} SecondOpeningIff(run: seq<AuthAction>, id: CallId, k: nat)
    requires Waiting(run, id) && ChecksAt(run, k, id)
    ensures
      var u := AuthAfter(run).activating[id].user;
      && (Opened(AuthAfter(run).auth, u) <==> exists m: nat :: k < m && OpensAt(run, m, u))
      && (forall m: nat | OpensAt(run, m, u) :: k < m)
    decreases |run|
  {
    WaitsSince(run, id);
    AuthPrefixes(run);
    var shorter := run[..|run| - 1];
    var x := run[|run| - 1];
    var u := AuthAfter(run).activating[id].user;
    assert run == shorter + [x];
    if k == |run| - 1 {
      PendingAtCheck(run, k, id);
    } else {
      SecondOpeningIff(shorter, id, k);
      WaitingUserKnown(shorter, id);
      hide *;
      OpenedSince(shorter, x, k, u);
      OpenedByStep(shorter, x, u);
    }
  }

  lemma {:induction false} WaitingUserKnown(run: seq<AuthAction>, id: CallId)
    requires Waiting(run, id)
    ensures AuthAfter(run).activating[id].user in AuthAfter(run).auth.users
  {
    RunKeepsActivations(run);
    assert CallOk(AuthAfter(run).auth, AuthAfter(run).activating[id]);
  }

  /** Opening `n` of an account overtakes opening `m`: between its check, at `k`, and its own step the
      account was opened. */
  ghost predicate Overtaken(run: seq<AuthAction>, k: nat, m: nat, n: nat, u: UserId) {
    k < m < n && OpensAt(run, m, u) && OpensAt(run, n, u) && ChecksAt(run, k, run[n].id)
  }

  /** An account is opened at most once in a run exactly if no opening lies between the check of another
      and that other opening. */
  lemma OpenedOnceIff(run: seq<AuthAction>, u: UserId)
    ensures
      (forall m: nat, n: nat | OpensAt(run, m, u) && OpensAt(run, n, u) :: m == n) <==>
      (forall k: nat, m: nat, n: nat :: !Overtaken(run, k, m, n, u))
  {
    hide AuthAfter;
    if forall k: nat, m: nat, n: nat :: !Overtaken(run, k, m, n, u) {
      forall m: nat, n: nat | OpensAt(run, m, u) && OpensAt(run, n, u) ensures m == n {
        if m < n {
          var k := OvertakesIfLater(run, m, n, u);
        } else if n < m {
          var k := OvertakesIfLater(run, n, m, u);
        }
      }
    }
  }

  lemma OvertakesIfLater(run: seq<AuthAction>, m: nat, n: nat, u: UserId) returns (k: nat)
    requires m < n && OpensAt(run, m, u) && OpensAt(run, n, u)
    ensures Overtaken(run, k, m, n, u)
  {
    var before := run[..n];
    var id := run[n].id;
    hide AuthAfter;
    k := CheckStep(before, id);
    SecondOpeningIff(before, id, k);
    assert before[..m] == run[..m] && before[..k] == run[..k];
    assert OpensAt(before, m, u);
    hide AuthStep;
  }

  /** Called alone, an activation succeeds exactly with the newest code sent to a pending account, if that
      is unexpired; it opens the account with the new password, and any further activation changes nothing. */
  lemma {:induction false} ActivatesOnce(run: seq<AuthAction>, u: UserId, otp: Secret,
                                         password: Secret, staff: bool, t: TokenId, ttl: nat,
                            otp': Secret, password': Secret, staff': bool, t': TokenId)
    ensures
      var a := AuthAfter(run).auth;
      var (b, session) := ActivationEffect(a, u, otp, password, staff, t, ttl);
      && (session == Denied(InvalidCode) <==> b == a)
      && (b != a ==> session == SessionOfOpened(a, u, staff, t))
      && (b != a <==>
            && u in a.users && a.users[u].status == PendingActivation && a.users[u].student != staff
            && exists i: nat | i < |a.codes| ::
                 && a.codes[i].user == u && a.codes[i].otp == otp && a.codes[i].expiresAt > a.clock
                 && forall j | i < j < |a.codes| :: a.codes[j].user != u)
      && (b != a ==>
            && u in b.users && b.users[u] == a.users[u].(status := ActiveAccount, password := Some(password))
            && ActivationEffect(b, u, otp', password', staff', t', ttl) == (b, Denied(InvalidCode)))
  {
    RunKeepsActivations(run);
    var a := AuthAfter(run).auth;
    hide AuthAfter;
    if u in a.users && a.users[u].status == PendingActivation {
      var found := FindCode(a.codes, u, a.clock);
      if found.Some? {
        OnlyTheNewestCode(run, u, found.value);
      }
      forall i: nat | i < |a.codes| && a.codes[i].user == u && a.codes[i].expiresAt > a.clock
                      && (forall j | i < j < |a.codes| :: a.codes[j].user != u)
        ensures found == Some(i)
      {
        assert CodeOk(a, i);
        assert Usable(a.codes[i], u, a.clock);
      }
    }
    hide FindCode;
  }

  /** Two activations that have both passed their check both go through: the second sets the password
      of an account that the first has opened. */
  lemma {:induction false} OverlappingActivations(run: seq<AuthAction>, i: CallId, j: CallId, ttl: nat)
    requires i != j && i in AuthAfter(run).activating && j in AuthAfter(run).activating
    requires AuthAfter(run).activating[i].phase.Consume? && AuthAfter(run).activating[j].phase.Consume?
    requires AuthAfter(run).activating[i].user == AuthAfter(run).activating[j].user
    ensures
      var u := AuthAfter(run).activating[j].user;
      var first := AuthAfter(run + [AdvanceActivation(i, 0, ttl)]).auth;
      var second := AuthAfter(run + [AdvanceActivation(i, 0, ttl)] + [AdvanceActivation(j, 0, ttl)]).auth;
      && Opened(first, u) && first.users[u].password == Some(AuthAfter(run).activating[i].password)
      && Opened(second, u) && second.users[u].password == Some(AuthAfter(run).activating[j].password)
  {
    RunKeepsActivations(run);
    var s := AuthAfter(run);
    AuthAfterOne(run, AdvanceActivation(i, 0, ttl));
    AuthAfterOne(run + [AdvanceActivation(i, 0, ttl)], AdvanceActivation(j, 0, ttl));
    hide AuthAfter;
    assert CallOk(s.auth, s.activating[i]) && CallOk(s.auth, s.activating[j]);
  }
}
