/** Backend/src/modules/auth as the program runs it: the tables as an object, its methods step by step. */
module AccountStore {
  import opened JsText
  import opened Accounts

  class Store {
    var clock: int
    var users: map<UserId, Account>
    var totp: map<UserId, Totp>
    var mfaPending: set<UserId>
    var tokens: map<TokenId, RefreshToken>
    var codes: seq<Code>
    ghost var chains: map<TokenId, Chain>

    constructor ()
      ensures View() == NO_ACCOUNTS
    {
      clock, users, totp, mfaPending := 0, map[], map[], {};
      tokens, codes, chains := map[], [], map[];
    }

    ghost function View(): Auth
      reads this
    {
      Auth(clock, users, totp, mfaPending, tokens, codes, chains)
    }

    method CreateRefreshToken(u: UserId, t: TokenId, ttl: nat, ghost chain: Chain) returns (session: Session)
      modifies `tokens, `chains
      ensures (View(), session) == Issue(old(View()), u, t, ttl, chain)
    {
      if t in tokens { return Denied(DuplicateToken); }
      tokens := tokens[t := RefreshToken(u, clock + ttl, None)];
      chains := chains[t := chain];
      return Authenticated(t);
    }

    method RevokeRefreshToken(t: TokenId)
      requires t in tokens
      modifies `tokens
      ensures View() == Revoke(old(View()), t)
    {
      tokens := tokens[t := tokens[t].(revokedAt := Some(clock))];
    }

    method Login(u: UserId, password: Secret, t: TokenId, ttl: nat) returns (session: Session)
      modifies `mfaPending, `tokens, `chains
      ensures (View(), session) == LoginEffect(old(View()), u, password, t, ttl)
      ensures session == Denied(InvalidCredentials) <==>
                !(u in users && users[u].status == ActiveAccount && users[u].password == Some(password))
      ensures session == Denied(InvalidCredentials) <==> !CredentialsOk(old(View()), u, password)
      ensures session.MfaRequired? <==> CredentialsOk(old(View()), u, password) && HasSecondFactor(old(View()), u)
      ensures session.TotpSetupRequired? <==>
                CredentialsOk(old(View()), u, password) && !HasSecondFactor(old(View()), u) && users[u].mandatoryTotp
      ensures session.Authenticated? ==>
                && !users[u].mandatoryTotp && !HasSecondFactor(old(View()), u) && session.token == t
                && t !in old(tokens)
                && tokens == old(tokens)[t := RefreshToken(u, clock + ttl, None)]
      ensures !session.Authenticated? ==> tokens == old(tokens)
      ensures session == Denied(DuplicateToken) <==>
                && CredentialsOk(old(View()), u, password) && !HasSecondFactor(old(View()), u)
                && !users[u].mandatoryTotp && t in old(tokens)
      ensures session in {MfaRequired, TotpSetupRequired, Authenticated(t), Denied(InvalidCredentials),
                          Denied(DuplicateToken)}
      ensures mfaPending == old(mfaPending) + if session.MfaRequired? then {u} else {}
    {
      if u !in users { return Denied(InvalidCredentials); }
      var user := users[u];
      if user.status != ActiveAccount || user.password != Some(password) { return Denied(InvalidCredentials); }
      if u in totp && totp[u].verified {
        mfaPending := mfaPending + {u};
        return MfaRequired;
      }
      if user.mandatoryTotp { return TotpSetupRequired; }
      session := CreateRefreshToken(u, t, ttl, Chain(PasswordLogin, t));
    }

    method LoginWithTotp(u: UserId, code: Secret, t: TokenId, ttl: nat) returns (session: Session)
      modifies `tokens, `chains
      ensures (View(), session) == LoginWithTotpEffect(old(View()), u, code, t, ttl)
      ensures session.Authenticated? <==>
                u in mfaPending && HasSecondFactor(old(View()), u) && totp[u].secret == code
                && u in users && t !in old(tokens)
      ensures !session.Authenticated? ==> View() == old(View())
      ensures session == Denied(InvalidCode) <==>
                u in mfaPending && HasSecondFactor(old(View()), u) && totp[u].secret != code
      ensures session == Denied(DuplicateToken) <==>
                && u in mfaPending && HasSecondFactor(old(View()), u) && totp[u].secret == code
                && u in users && t in old(tokens)
      ensures session.Authenticated? || session in
                {Denied(InvalidCode), Denied(DuplicateToken), Denied(InvalidSession)}
      ensures session.Authenticated? ==>
                session.token == t && tokens == old(tokens)[t := RefreshToken(u, clock + ttl, None)]
    {
      if u !in mfaPending { return Denied(InvalidSession); }
      if u !in totp || !totp[u].verified { return Denied(InvalidSession); }
      if totp[u].secret != code { return Denied(InvalidCode); }
      if u !in users { return Denied(InvalidSession); }
      session := CreateRefreshToken(u, t, ttl, Chain(TotpLogin, t));
    }

    method SetupTotp(u: UserId, secret: Secret) returns (error: Option<AuthError>)
      modifies `totp
      ensures (View(), error) == SetupTotpEffect(old(View()), u, secret)
      ensures error == if u in users then None else Some(UserNotFound)
      ensures u in users ==> !HasSecondFactor(View(), u) && u in totp && totp[u].secret == secret
      ensures forall v | v != u || u !in users ::
                (v in totp <==> v in old(totp)) && (v in totp ==> totp[v] == old(totp)[v])
    {
      if u !in users { return Some(UserNotFound); }
      totp := totp[u := Totp(secret, false)];
      return None;
    }

    method ConfirmTotp(u: UserId, code: Secret) returns (error: Option<AuthError>)
      modifies `totp
      ensures (View(), error) == ConfirmTotpEffect(old(View()), u, code)
      ensures error == Some(NoTotp) <==> u !in old(totp)
      ensures error == Some(InvalidCode) <==> u in old(totp) && old(totp)[u].secret != code
      ensures error.None? <==> u in old(totp) && old(totp)[u].secret == code
      ensures totp == if error.None? then old(totp)[u := Totp(code, true)] else old(totp)
    {
      if u !in totp { return Some(NoTotp); }
      if totp[u].secret != code { return Some(InvalidCode); }
      totp := totp[u := totp[u].(verified := true)];
      return None;
    }

    /** Revokes the old token before it issues the new one. */
    method RefreshSession(token: TokenId, t: TokenId, ttl: nat) returns (session: Session)
      requires token in tokens ==> token in chains
      modifies `tokens, `chains
      ensures (View(), session) == RefreshEffect(old(View()), token, t, ttl)
      ensures session.Authenticated? <==>
                ValidToken(old(View()), token) && old(tokens)[token].user in users && t !in old(tokens)
      ensures session.Authenticated? ==>
                && session.token == t && token != t && chains == old(chains)[t := old(chains)[token]]
                && tokens == old(tokens)[token := old(tokens)[token].(revokedAt := Some(clock))][
                     t := RefreshToken(old(tokens)[token].user, clock + ttl, None)]
      ensures !ValidToken(old(View()), token) ==> session == Denied(InvalidSession) && View() == old(View())
      ensures ValidToken(old(View()), token) && !session.Authenticated? ==>
                && session == Denied(if old(tokens)[token].user in users then DuplicateToken else InvalidSession)
                && chains == old(chains)
                && tokens == old(tokens)[token := old(tokens)[token].(revokedAt := Some(clock))]
    {
      RefreshAnswers(View(), token, t, ttl);
      if token !in tokens || tokens[token].revokedAt.Some? || tokens[token].expiresAt <= clock {
        return Denied(InvalidSession);
      }
      var user := tokens[token].user;
      RevokeRefreshToken(token);
      if user !in users { return Denied(InvalidSession); }
      session := CreateRefreshToken(user, t, ttl, chains[token]);
    }

    method Logout(token: TokenId)
      modifies `tokens
      ensures View() == LogoutEffect(old(View()), token)
      ensures !ValidToken(View(), token)
      ensures !ValidToken(old(View()), token) ==> View() == old(View())
      ensures tokens.Keys == old(tokens).Keys && forall x | x in tokens && x != token :: tokens[x] == old(tokens)[x]
    {
      if token !in tokens || tokens[token].revokedAt.Some? || tokens[token].expiresAt <= clock { return; }
      RevokeRefreshToken(token);
    }

    method InitiateActivation(u: UserId, otp: Secret, staff: bool)
      modifies `codes
      ensures View() == InitiateEffect(old(View()), u, otp, staff)
      ensures codes != old(codes) <==> u in users && users[u].status == PendingActivation && users[u].student != staff
      ensures codes != old(codes) ==>
                && |codes| == |old(codes)| + 1 && codes[..|old(codes)|] == old(codes)
                && codes[|old(codes)|] == Code(u, otp, clock + 600000, None)
                && FindCode(codes, u, clock) == Some(|old(codes)|)
    {
      if u !in users || users[u].status != PendingActivation || users[u].student == staff { return; }
      codes := codes + [Code(u, otp, clock + CODE_TTL, None)];
    }

    method ConsumeActivationCodeAndActivateUser(i: nat, u: UserId, password: Secret)
      requires i < |codes| && u in users
      modifies `codes, `users
      ensures View() == ConsumeCode(old(View()), i, u, password)
    {
      codes := codes[i := codes[i].(usedAt := Some(clock))];
      users := users[u := users[u].(status := ActiveAccount, password := Some(password))];
    }

    /** `verifyActivation` for students, `verifyStaffActivation` for everybody else. */
    method VerifyActivation(u: UserId, otp: Secret, password: Secret, staff: bool, t: TokenId, ttl: nat)
      returns (session: Session)
      modifies `codes, `users, `tokens, `chains
      ensures (View(), session) == ActivationEffect(old(View()), u, otp, password, staff, t, ttl)
      ensures session == Denied(InvalidCode) <==> forall i: nat :: !OpensWith(old(View()), u, otp, staff, i)
      ensures session == Denied(InvalidCode) ==> View() == old(View())
      ensures session != Denied(InvalidCode) ==>
                && session == SessionOfOpened(old(View()), u, staff, t)
                && u in users && users[u].status == ActiveAccount && users[u].password == Some(password)
                && (session.Authenticated? <==> t !in old(tokens) && t in tokens)
    {
      ActivationAnswers(View(), u, otp, password, staff, t, ttl);
      if u !in users || users[u].status != PendingActivation || users[u].student == staff {
        return Denied(InvalidCode);
      }
      var found := FindCode(codes, u, clock);
      if found.None? || codes[found.value].otp != otp { return Denied(InvalidCode); }
      ConsumeActivationCodeAndActivateUser(found.value, u, password);
      if !staff { return NoSession; }
      if users[u].mandatoryTotp { return TotpSetupRequired; }
      session := CreateRefreshToken(u, t, ttl, Chain(StaffActivation, t));
    }
  }
}
