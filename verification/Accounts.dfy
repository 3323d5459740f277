/** Backend/src/modules/auth: activation, login, second factor, and refresh tokens. A refresh and an
    activation are given step by step, one step for each write they await. */
module Accounts {
  import opened JsText

  type UserId = int
  type TokenId = int
  type CallId = int
  type Secret = int

  /** ACTIVATION_CODE_TTL_MINUTES in milliseconds. */
  const CODE_TTL := 10 * 60000

  datatype Status = PendingActivation | ActiveAccount | Suspended

  /** `mandatoryTotp`: the role is in TOTP_REQUIRED_ROLES; `student`: there is a student row. */
  datatype Account = Account(status: Status, password: Option<Secret>, mandatoryTotp: bool, student: bool)

  datatype Totp = Totp(secret: Secret, verified: bool)

  /** A refresh token, named by its hash. */
  datatype RefreshToken = RefreshToken(user: UserId, expiresAt: int, revokedAt: Option<int>)

  datatype Code = Code(user: UserId, otp: Secret, expiresAt: int, usedAt: Option<int>)

  datatype Origin = PasswordLogin | TotpLogin | StaffActivation

  /** The chain that a token belongs to: how it began, and its first token. */
  datatype Chain = Chain(origin: Origin, first: TokenId)

  /** `mfaPending`: users who hold a token for the second login step. `chains` is history: where each
      token comes from. Codes are in the order of their creation. */
  datatype Auth = Auth(
    clock: int, users: map<UserId, Account>, totp: map<UserId, Totp>, mfaPending: set<UserId>,
    tokens: map<TokenId, RefreshToken>, codes: seq<Code>, chains: map<TokenId, Chain>)

  const NO_ACCOUNTS := Auth(0, map[], map[], {}, map[], [], map[])

  datatype AuthError = InvalidCredentials | InvalidSession | InvalidCode | UserNotFound | NoTotp | DuplicateToken

  datatype Session =
    | Authenticated(token: TokenId)
    | MfaRequired
    | TotpSetupRequired
    | NoSession
    | Denied(error: AuthError)

  // ---------- tokens ----------

  /** `issueTokenPair`: a new row; its hash is unique. */
  function Issue(a: Auth, u: UserId, t: TokenId, ttl: nat, chain: Chain): (Auth, Session) {
    if t in a.tokens then (a, Denied(DuplicateToken))
    else
      (a.(tokens := a.tokens[t := RefreshToken(u, a.clock + ttl, None)], chains := a.chains[t := chain]),
       Authenticated(t))
  }

  /** `findValidRefreshTokenByHash` */
  predicate ValidToken(a: Auth, t: TokenId) {
    t in a.tokens && a.tokens[t].revokedAt.None? && a.tokens[t].expiresAt > a.clock
  }

  /** `revokeRefreshToken`: by row, whether it is revoked already or not. */
  function Revoke(a: Auth, t: TokenId): Auth {
    if t !in a.tokens then a
    else a.(tokens := a.tokens[t := a.tokens[t].(revokedAt := Some(a.clock))])
  }

  // ---------- login ----------

  predicate CredentialsOk(a: Auth, u: UserId, password: Secret) {
    u in a.users && a.users[u].status == ActiveAccount && a.users[u].password == Some(password)
  }

  predicate HasSecondFactor(a: Auth, u: UserId) {
    u in a.totp && a.totp[u].verified
  }

  /** `login`: the second factor if there is one, its set-up if the role demands one, else a session. */
  function LoginEffect(a: Auth, u: UserId, password: Secret, t: TokenId, ttl: nat): (Auth, Session) {
    if u !in a.users || a.users[u].status != ActiveAccount || a.users[u].password != Some(password) then
      (a, Denied(InvalidCredentials))
    else if u in a.totp && a.totp[u].verified then (a.(mfaPending := a.mfaPending + {u}), MfaRequired)
    else if a.users[u].mandatoryTotp then (a, TotpSetupRequired)
    else Issue(a, u, t, ttl, Chain(PasswordLogin, t))
  }

  /** `loginWithTotp` */
  function LoginWithTotpEffect(a: Auth, u: UserId, code: Secret, t: TokenId, ttl: nat): (Auth, Session) {
    if u !in a.mfaPending then (a, Denied(InvalidSession))
    else if u !in a.totp || !a.totp[u].verified then (a, Denied(InvalidSession))
    else if a.totp[u].secret != code then (a, Denied(InvalidCode))
    else if u !in a.users then (a, Denied(InvalidSession))
    else Issue(a, u, t, ttl, Chain(TotpLogin, t))
  }

  /** `setupTotp`: a new secret is never verified. */
  function SetupTotpEffect(a: Auth, u: UserId, secret: Secret): (Auth, Option<AuthError>) {
    if u !in a.users then (a, Some(UserNotFound)) else (a.(totp := a.totp[u := Totp(secret, false)]), None)
  }

  datatype ConfirmPhase = CheckSecret | MarkVerified | Confirmed(error: Option<AuthError>)

  /** One call of `confirmTotpSetup` in progress. */
  datatype ConfirmCall = ConfirmCall(user: UserId, code: Secret, phase: ConfirmPhase)

  /** Marks the row of the user, whatever secret it holds by then. */
  function ConfirmStep(a: Auth, c: ConfirmCall): (Auth, ConfirmCall) {
    match c.phase
    case CheckSecret =>
      if c.user !in a.totp then (a, c.(phase := Confirmed(Some(NoTotp))))
      else if a.totp[c.user].secret != c.code then (a, c.(phase := Confirmed(Some(InvalidCode))))
      else (a, c.(phase := MarkVerified))
    case MarkVerified =>
      if c.user !in a.totp then (a, c.(phase := Confirmed(Some(NoTotp))))
      else (a.(totp := a.totp[c.user := a.totp[c.user].(verified := true)]), c.(phase := Confirmed(None)))
    case Confirmed(_) => (a, c)
  }

  /** `confirmTotpSetup` as one atomic call. */
  function ConfirmTotpEffect(a: Auth, u: UserId, code: Secret): (Auth, Option<AuthError>) {
    var (a1, c1) := ConfirmStep(a, ConfirmCall(u, code, CheckSecret));
    var (a2, c2) := ConfirmStep(a1, c1);
    (a2, if c2.phase.Confirmed? then c2.phase.error else Some(InvalidCode))
  }

  function LogoutEffect(a: Auth, t: TokenId): Auth {
    if ValidToken(a, t) then Revoke(a, t) else a
  }

  // ---------- refresh ----------

  datatype RefreshPhase =
    | FindToken
    | RevokeOld(user: UserId)
    | IssueNew(user: UserId)
    | Refreshed(outcome: Session)

  /** One call of `refreshSession` in progress. */
  datatype RefreshCall = RefreshCall(token: TokenId, phase: RefreshPhase)

  /** Revokes before it issues; `t` is the new token. */
  function RefreshStep(a: Auth, c: RefreshCall, t: TokenId, ttl: nat): (Auth, RefreshCall) {
    match c.phase
    case FindToken =>
      if ValidToken(a, c.token) then (a, c.(phase := RevokeOld(a.tokens[c.token].user)))
      else (a, c.(phase := Refreshed(Denied(InvalidSession))))
    case RevokeOld(user) => (Revoke(a, c.token), c.(phase := IssueNew(user)))
    case IssueNew(user) =>
      if user !in a.users || c.token !in a.chains then (a, c.(phase := Refreshed(Denied(InvalidSession))))
      else
        var (b, session) := Issue(a, user, t, ttl, a.chains[c.token]);
        (b, c.(phase := Refreshed(session)))
    case Refreshed(_) => (a, c)
  }

  /** `refreshSession` as one atomic call. */
  function RefreshEffect(a: Auth, old_: TokenId, t: TokenId, ttl: nat): (Auth, Session) {
    var (a1, c1) := RefreshStep(a, RefreshCall(old_, FindToken), t, ttl);
    var (a2, c2) := RefreshStep(a1, c1, t, ttl);
    var (a3, c3) := RefreshStep(a2, c2, t, ttl);
    (a3, if c3.phase.Refreshed? then c3.phase.outcome else Denied(InvalidSession))
  }

  /** What the answer to a refresh says, of a token whose chain is known. A token that does not exist, is
      revoked or has expired is denied, and nothing changes. Any other is revoked; there is a new session
      exactly if its user exists and the new token is new, and then that token belongs to the same user and
      the same chain, and runs from now. */
  lemma RefreshAnswers(a: Auth, old_: TokenId, t: TokenId, ttl: nat)
    requires old_ in a.tokens ==> old_ in a.chains
    ensures
      var (b, session) := RefreshEffect(a, old_, t, ttl);
      && b == a.(tokens := b.tokens, chains := b.chains)
      && if old_ !in a.tokens || a.tokens[old_].revokedAt.Some? || a.tokens[old_].expiresAt <= a.clock then
           b == a && session == Denied(InvalidSession)
         else
           var user, revoked := a.tokens[old_].user, a.tokens[old_ := a.tokens[old_].(revokedAt := Some(a.clock))];
           if user !in a.users then session == Denied(InvalidSession) && b.tokens == revoked && b.chains == a.chains
           else if t in a.tokens then session == Denied(DuplicateToken) && b.tokens == revoked && b.chains == a.chains
           else
             && session == Authenticated(t) && b.chains == a.chains[t := a.chains[old_]]
             && b.tokens == revoked[t := RefreshToken(user, a.clock + ttl, None)]
  {}

  // ---------- activation ----------

  /** `initiateActivation` and `initiateStaffActivation`: nothing happens unless the account is pending. */
  function InitiateEffect(a: Auth, u: UserId, otp: Secret, staff: bool): Auth {
    if u !in a.users || a.users[u].status != PendingActivation || a.users[u].student == staff then a
    else a.(codes := a.codes + [Code(u, otp, a.clock + CODE_TTL, None)])
  }

  predicate Usable(c: Code, u: UserId, now: int) {
    c.user == u && c.usedAt.None? && c.expiresAt > now
  }

  /** `findValidActivationCode`: the newest that is unused and unexpired. */
  function FindCode(codes: seq<Code>, u: UserId, now: int): (i: Option<nat>)
    ensures i.Some? ==> i.value < |codes| && Usable(codes[i.value], u, now)
    ensures i.Some? ==> forall j | i.value < j < |codes| :: !Usable(codes[j], u, now)
    ensures i.None? ==> forall j | 0 <= j < |codes| :: !Usable(codes[j], u, now)
  {
    if codes == [] then None
    else if Usable(codes[|codes| - 1], u, now) then Some(|codes| - 1)
    else FindCode(codes[..|codes| - 1], u, now)
  }

  datatype ActivationPhase =
    | CheckCode
    | Consume(code: nat)
    | Grant
    | Activated(outcome: Session)

  /** One call of `verifyActivation` or `verifyStaffActivation` in progress. */
  datatype ActivationCall = ActivationCall(user: UserId, otp: Secret, password: Secret, staff: bool,
                                           phase: ActivationPhase)

  /** `consumeActivationCodeAndActivateUser`: by id, whatever has happened to the code since. */
  function ConsumeCode(a: Auth, i: nat, u: UserId, password: Secret): Auth {
    if i >= |a.codes| || u !in a.users then a
    else
      a.(codes := a.codes[i := a.codes[i].(usedAt := Some(a.clock))],
         users := a.users[u := a.users[u].(status := ActiveAccount, password := Some(password))])
  }

  function ActivationStep(a: Auth, c: ActivationCall, t: TokenId, ttl: nat): (Auth, ActivationCall) {
    match c.phase
    case CheckCode =>
      if c.user !in a.users || a.users[c.user].status != PendingActivation || a.users[c.user].student == c.staff then
        (a, c.(phase := Activated(Denied(InvalidCode))))
      else
        var found := FindCode(a.codes, c.user, a.clock);
        if found.None? || a.codes[found.value].otp != c.otp then (a, c.(phase := Activated(Denied(InvalidCode))))
        else (a, c.(phase := Consume(found.value)))
    case Consume(i) => (ConsumeCode(a, i, c.user, c.password), c.(phase := Grant))
    case Grant =>
      if !c.staff || c.user !in a.users then (a, c.(phase := Activated(NoSession)))
      else if a.users[c.user].mandatoryTotp then (a, c.(phase := Activated(TotpSetupRequired)))
      else
        var (b, session) := Issue(a, c.user, t, ttl, Chain(StaffActivation, t));
        (b, c.(phase := Activated(session)))
    case Activated(_) => (a, c)
  }

  function ActivationEffect(a: Auth, u: UserId, otp: Secret, password: Secret, staff: bool,
                            t: TokenId, ttl: nat): (Auth, Session) {
    var (a1, c1) := ActivationStep(a, ActivationCall(u, otp, password, staff, CheckCode), t, ttl);
    var (a2, c2) := ActivationStep(a1, c1, t, ttl);
    var (a3, c3) := ActivationStep(a2, c2, t, ttl);
    (a3, if c3.phase.Activated? then c3.phase.outcome else Denied(InvalidCode))
  }

  /** Code `i` is the newest of the user that is unused and unexpired. */
  predicate NewestUsable(a: Auth, u: UserId, i: nat) {
    && i < |a.codes| && a.codes[i].user == u && a.codes[i].usedAt.None? && a.codes[i].expiresAt > a.clock
    && forall j: nat | i < j < |a.codes| ::
         a.codes[j].user == u ==> a.codes[j].usedAt.Some? || a.codes[j].expiresAt <= a.clock
  }

  /** The activation opens the account: it is pending and of the kind asked for, and the code given is that of
      code `i`, the newest that can be used. */
  predicate OpensWith(a: Auth, u: UserId, otp: Secret, staff: bool, i: nat) {
    && u in a.users && a.users[u].status == PendingActivation && a.users[u].student != staff
    && NewestUsable(a, u, i) && a.codes[i].otp == otp
  }

  /** The session that comes with an opened account: none for a student; for anybody else a second factor to
      set up if the role demands one, and otherwise a login. */
  function SessionOfOpened(a: Auth, u: UserId, staff: bool, t: TokenId): Session {
    if !staff || u !in a.users then NoSession
    else if a.users[u].mandatoryTotp then TotpSetupRequired
    else if t in a.tokens then Denied(DuplicateToken)
    else Authenticated(t)
  }

  /** What the answer to an activation says: the code is refused exactly if the account is not opened, and then
      nothing changes. An opened account has the new password, its code is used, and the session is the one
      that the role and the new token allow. */
  lemma ActivationAnswers(a: Auth, u: UserId, otp: Secret, password: Secret, staff: bool, t: TokenId, ttl: nat)
    ensures
      var (b, session) := ActivationEffect(a, u, otp, password, staff, t, ttl);
      && (session == Denied(InvalidCode) <==> forall i: nat :: !OpensWith(a, u, otp, staff, i))
      && (session == Denied(InvalidCode) ==> b == a)
      && (session != Denied(InvalidCode) ==>
            && u in a.users && session == SessionOfOpened(a, u, staff, t)
            && b.users == a.users[u := a.users[u].(status := ActiveAccount, password := Some(password))]
            && b.tokens == (if session.Authenticated? then a.tokens[t := RefreshToken(u, a.clock + ttl, None)]
                            else a.tokens)
            && b.chains == (if session.Authenticated? then a.chains[t := Chain(StaffActivation, t)] else a.chains)
            && exists i: nat :: OpensWith(a, u, otp, staff, i)
                                && b.codes == a.codes[i := a.codes[i].(usedAt := Some(a.clock))])
  {
    var found := FindCode(a.codes, u, a.clock);
    NewestFound(a, u);
    hide FindCode;
    hide NewestUsable;
    if found.Some? && u in a.users && a.users[u].status == PendingActivation && a.users[u].student != staff
       && a.codes[found.value].otp == otp {
      assert OpensWith(a, u, otp, staff, found.value);
    }
  }

  /** `findValidActivationCode` finds the newest usable code, whenever there is one. */
  lemma NewestFound(a: Auth, u: UserId)
    ensures forall i: nat :: FindCode(a.codes, u, a.clock) == Some(i) <==> NewestUsable(a, u, i)
  {
    var found := FindCode(a.codes, u, a.clock);
    forall i: nat ensures found == Some(i) <==> NewestUsable(a, u, i) {
      if NewestUsable(a, u, i) {
        assert Usable(a.codes[i], u, a.clock);
      } else if found == Some(i) {
        forall j: nat | i < j < |a.codes|
          ensures a.codes[j].user == u ==> a.codes[j].usedAt.Some? || a.codes[j].expiresAt <= a.clock
        {
          assert !Usable(a.codes[j], u, a.clock);
        }
      }
    }
  }

  // ---------- the account side as a transition system ----------

  datatype AuthAction =
    | Wait(dt: nat)
    | AddUser(u: UserId, mandatoryTotp: bool, student: bool)
    | Login(u: UserId, password: Secret, t: TokenId, ttl: nat)
    | LoginWithTotp(u: UserId, code: Secret, t: TokenId, ttl: nat)
    | SetupTotp(u: UserId, secret: Secret)
    | Logout(t: TokenId)
    | Initiate(u: UserId, otp: Secret, staff: bool)
    | BeginRefresh(id: CallId, t: TokenId)
    | AdvanceRefresh(id: CallId, t: TokenId, ttl: nat)
    | BeginActivation(id: CallId, u: UserId, otp: Secret, password: Secret, staff: bool)
    | AdvanceActivation(id: CallId, t: TokenId, ttl: nat)
    | BeginConfirm(id: CallId, u: UserId, code: Secret)
    | AdvanceConfirm(id: CallId)

  datatype AuthSystem = AuthSystem(auth: Auth, refreshing: map<CallId, RefreshCall>,
                                   activating: map<CallId, ActivationCall>, confirming: map<CallId, ConfirmCall>)

  function AuthCommand(a: Auth, x: AuthAction): Auth {
    match x
    case Wait(dt) => a.(clock := a.clock + dt)
    case AddUser(u, mandatory, student) =>
      if u in a.users then a else a.(users := a.users[u := Account(PendingActivation, None, mandatory, student)])
    case Login(u, password, t, ttl) => LoginEffect(a, u, password, t, ttl).0
    case LoginWithTotp(u, code, t, ttl) => LoginWithTotpEffect(a, u, code, t, ttl).0
    case SetupTotp(u, secret) => SetupTotpEffect(a, u, secret).0
    case Logout(t) => LogoutEffect(a, t)
    case Initiate(u, otp, staff) => InitiateEffect(a, u, otp, staff)
    case _ => a
  }

  function AuthStep(s: AuthSystem, x: AuthAction): AuthSystem {
    match x
    case BeginRefresh(id, t) =>
      if id in s.refreshing then s else s.(refreshing := s.refreshing[id := RefreshCall(t, FindToken)])
    case AdvanceRefresh(id, t, ttl) =>
      if id !in s.refreshing then s
      else
        var (a, c) := RefreshStep(s.auth, s.refreshing[id], t, ttl);
        s.(auth := a, refreshing := s.refreshing[id := c])
    case BeginActivation(id, u, otp, password, staff) =>
      if id in s.activating then s
      else s.(activating := s.activating[id := ActivationCall(u, otp, password, staff, CheckCode)])
    case AdvanceActivation(id, t, ttl) =>
      if id !in s.activating then s
      else
        var (a, c) := ActivationStep(s.auth, s.activating[id], t, ttl);
        s.(auth := a, activating := s.activating[id := c])
    case BeginConfirm(id, u, code) =>
      if id in s.confirming then s else s.(confirming := s.confirming[id := ConfirmCall(u, code, CheckSecret)])
    case AdvanceConfirm(id) =>
      if id !in s.confirming then s
      else
        var (a, c) := ConfirmStep(s.auth, s.confirming[id]);
        s.(auth := a, confirming := s.confirming[id := c])
    case _ => s.(auth := AuthCommand(s.auth, x))
  }

  function AuthAfter(run: seq<AuthAction>): AuthSystem {
    if run == [] then AuthSystem(NO_ACCOUNTS, map[], map[], map[])
    else AuthStep(AuthAfter(run[..|run| - 1]), run[|run| - 1])
  }
}
