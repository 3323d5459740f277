/** What a refresh and an activation answer at their last step, in every interleaving of calls. */
module Answers {
  import opened JsText
  import opened Accounts
  import opened Sessions
  import opened Activation

  /** At step `k` the refresh finds its token: there, not revoked and not expired. */
  ghost predicate FoundAt(run: seq<AuthAction>, k: nat, id: CallId, token: TokenId) {
    && k < |run| && run[k].AdvanceRefresh? && run[k].id == id
    && var s := AuthAfter(run[..k]);
       && id in s.refreshing && s.refreshing[id] == RefreshCall(token, FindToken)
       && token in s.auth.tokens && s.auth.tokens[token].revokedAt.None?
       && s.auth.tokens[token].expiresAt > s.auth.clock
  }

  /** A refresh that is past its first step has found its token, and one that is about to issue a new token has
      revoked the old one. */
  lemma {:induction false} FoundBefore(run: seq<AuthAction>, id: CallId) returns (k: nat)
    requires id in AuthAfter(run).refreshing
    requires AuthAfter(run).refreshing[id].phase.RevokeOld? || AuthAfter(run).refreshing[id].phase.IssueNew?
    ensures
      var c := AuthAfter(run).refreshing[id];
      FoundAt(run, k, id, c.token) && (c.phase.IssueNew? ==> Revoked(AuthAfter(run).auth, c.token))
    decreases |run|
  {
    AuthPrefixes(run);
    var shorter, x := run[..|run| - 1], run[|run| - 1];
    assert run[..|shorter|] == shorter;
    RunKeepsSessions(shorter);
    hide AuthAfter;
    var s := AuthAfter(shorter);
    if x.AdvanceRefresh? && x.id == id && id in s.refreshing {
      assert RefreshOk(s.auth, s.refreshing[id]);
      OwnRefresh(s, x);
      hide AuthStep;
      if s.refreshing[id].phase.FindToken? {
        return |shorter|;
      }
      k := FoundBefore(shorter, id);
    } else {
      SameRefresh(s, x, id);
      hide AuthStep;
      k := FoundBefore(shorter, id);
      if s.refreshing[id].phase.IssueNew? {
        StepKeepsRevoked(s, x, s.refreshing[id].token);
      }
    }
    assert shorter[..k] == run[..k];
  }

  lemma OwnRefresh(s: AuthSystem, x: AuthAction)
    requires x.AdvanceRefresh? && x.id in s.refreshing && RefreshOk(s.auth, s.refreshing[x.id])
    ensures
      var c, s' := s.refreshing[x.id], AuthStep(s, x);
      var d := s'.refreshing[x.id];
      && d.token == c.token && (d.phase.RevokeOld? ==> c.phase.FindToken? && ValidToken(s.auth, c.token))
      && (d.phase.IssueNew? ==> c.phase.RevokeOld? && Revoked(s'.auth, c.token))
  {}

  lemma SameRefresh(s: AuthSystem, x: AuthAction, id: CallId)
    requires id in AuthStep(s, x).refreshing && !(x.AdvanceRefresh? && x.id == id && id in s.refreshing)
    requires !AuthStep(s, x).refreshing[id].phase.FindToken?
    ensures id in s.refreshing && s.refreshing[id] == AuthStep(s, x).refreshing[id]
  {}

  /** The last step of a refresh in progress. It is denied as invalid exactly where it finds no token that is
      there, unrevoked and unexpired, and then changes nothing. It ends in a session exactly if the new token
      is new at the last step: the token it began with had been found good at its own check and is revoked
      for good, and the new one belongs to the same user and chain and runs from now; no other row changes. */
  lemma {:induction false} RefreshEnds(run: seq<AuthAction>, id: CallId, t: TokenId, ttl: nat) returns (k: nat)
    requires id in AuthAfter(run).refreshing && !AuthAfter(run).refreshing[id].phase.Refreshed?
    ensures
      var s, s' := AuthAfter(run), AuthStep(AuthAfter(run), AdvanceRefresh(id, t, ttl));
      var a, b, c, p := s.auth, s'.auth, s.refreshing[id], s'.refreshing[id].phase;
      && (p == Refreshed(Denied(InvalidSession)) <==>
            c.phase.FindToken? && (c.token !in a.tokens || a.tokens[c.token].revokedAt.Some?
                                   || a.tokens[c.token].expiresAt <= a.clock))
      && (p == Refreshed(Denied(DuplicateToken)) <==> c.phase.IssueNew? && t in a.tokens)
      && (p == Refreshed(Authenticated(t)) <==> c.phase.IssueNew? && t !in a.tokens)
      && (p.Refreshed? && p != Refreshed(Authenticated(t)) ==>
            b == a && (p == Refreshed(Denied(InvalidSession)) || p == Refreshed(Denied(DuplicateToken))))
      && (p == Refreshed(Authenticated(t)) ==>
            && FoundAt(run, k, id, c.token) && Revoked(b, c.token) && c.token in a.chains
            && b == a.(tokens := a.tokens[t := RefreshToken(a.tokens[c.token].user, a.clock + ttl, None)],
                       chains := a.chains[t := a.chains[c.token]]))
  {
    k := 0;
    if AuthAfter(run).refreshing[id].phase.IssueNew? {
      k := FoundBefore(run, id);
    }
    RunKeepsSessions(run);
    var s := AuthAfter(run);
    hide AuthAfter;
    hide FoundAt;
    assert RefreshOk(s.auth, s.refreshing[id]) && TokenOk(s.auth, s.refreshing[id].token);
  }

  /** What a step of an activation does and answers. Its code is refused exactly at the check, if it is not the
      newest usable code of a pending account, and then nothing changes; a check that passes leads to the step
      that opens the account, and that to the last one. There the account is open, and the session is the one
      that its role and the new token allow. */
  ghost predicate Answered(a: Auth, c: ActivationCall, t: TokenId, ttl: nat, b: Auth, p: ActivationPhase) {
    && (p == Activated(Denied(InvalidCode)) <==>
          c.phase.CheckCode? && forall i: nat :: !OpensWith(a, c.user, c.otp, c.staff, i))
    && (forall i: nat :: p == Consume(i) <==> c.phase.CheckCode? && OpensWith(a, c.user, c.otp, c.staff, i))
    && (c.phase.CheckCode? ==> b == a)
    && (p.Grant? <==> c.phase.Consume?)
    && (p.Grant? ==>
          && c.user in a.users && c.phase.code < |a.codes| && a.codes[c.phase.code].user == c.user
          && b == a.(codes := a.codes[c.phase.code := a.codes[c.phase.code].(usedAt := Some(a.clock))],
                     users := a.users[c.user := a.users[c.user].(
                       status := ActiveAccount, password := Some(c.password))]))
    && (p.Activated? && p != Activated(Denied(InvalidCode)) <==> c.phase.Grant?)
    && (c.phase.Grant? ==>
          && Opened(a, c.user) && p.outcome == SessionOfOpened(a, c.user, c.staff, t)
          && b == (if p.outcome.Authenticated? then
                     a.(tokens := a.tokens[t := RefreshToken(c.user, a.clock + ttl, None)],
                        chains := a.chains[t := Chain(StaffActivation, t)])
                   else a))
  }

  lemma ActivationStepAnswers(a: Auth, c: ActivationCall, t: TokenId, ttl: nat)
    requires CallOk(a, c) && !c.phase.Activated?
    ensures Answered(a, c, t, ttl, ActivationStep(a, c, t, ttl).0, ActivationStep(a, c, t, ttl).1.phase)
  {
    NewestFound(a, c.user);
    hide FindCode;
    hide NewestUsable;
    var found := FindCode(a.codes, c.user, a.clock);
    if found.Some? {
      assert NewestUsable(a, c.user, found.value);
      assert OpensWith(a, c.user, c.otp, c.staff, found.value) || !c.phase.CheckCode?
             || ActivationStep(a, c, t, ttl).1.phase == Activated(Denied(InvalidCode));
    }
  }

  /** Every step of an activation, in every run. */
  lemma {:induction false} ActivationEnds(run: seq<AuthAction>, id: CallId, t: TokenId, ttl: nat)
    requires id in AuthAfter(run).activating && !AuthAfter(run).activating[id].phase.Activated?
    ensures
      var s, s' := AuthAfter(run), AuthStep(AuthAfter(run), AdvanceActivation(id, t, ttl));
      Answered(s.auth, s.activating[id], t, ttl, s'.auth, s'.activating[id].phase)
  {
    RunKeepsActivations(run);
    var s := AuthAfter(run);
    hide AuthAfter;
    assert CallOk(s.auth, s.activating[id]);
    ActivationStepAnswers(s.auth, s.activating[id], t, ttl);
    hide ActivationStep;
    hide Answered;
    hide CallOk;
  }

  /** A step of the confirmation of a second factor in progress: it is refused at its check exactly if there is
      no secret or the code is not its code, and a check that passes leads to the step that marks the secret
      that is there by then, which never fails. */
  lemma {:induction false} ConfirmationEnds(run: seq<AuthAction>, id: CallId)
    requires id in AuthAfter(run).confirming && !AuthAfter(run).confirming[id].phase.Confirmed?
    ensures
      var s, s' := AuthAfter(run), AuthStep(AuthAfter(run), AdvanceConfirm(id));
      var a, b, c, p := s.auth, s'.auth, s.confirming[id], s'.confirming[id].phase;
      && (p == Confirmed(Some(NoTotp)) <==> c.phase.CheckSecret? && c.user !in a.totp)
      && (p == Confirmed(Some(InvalidCode)) <==>
            c.phase.CheckSecret? && c.user in a.totp && a.totp[c.user].secret != c.code)
      && (p.MarkVerified? <==> c.phase.CheckSecret? && c.user in a.totp && a.totp[c.user].secret == c.code)
      && (p == Confirmed(None) <==> c.phase.MarkVerified?)
      && b == (if p == Confirmed(None) then a.(totp := b.totp) else a)
      && (p == Confirmed(None) ==>
            c.user in a.totp && b.totp == a.totp[c.user := Totp(a.totp[c.user].secret, true)])
  {
    if AuthAfter(run).confirming[id].phase.MarkVerified? {
      ConfirmingHasSecret(run, id);
    }
    hide AuthAfter;
  }

  /** Secrets are replaced, never removed. */
  lemma {:induction false} ConfirmingHasSecret(run: seq<AuthAction>, id: CallId)
    requires id in AuthAfter(run).confirming && AuthAfter(run).confirming[id].phase.MarkVerified?
    ensures AuthAfter(run).confirming[id].user in AuthAfter(run).auth.totp
    decreases |run|
  {
    AuthPrefixes(run);
    var shorter, x := run[..|run| - 1], run[|run| - 1];
    hide AuthAfter;
    var s := AuthAfter(shorter);
    if id in s.confirming && s.confirming[id].phase.MarkVerified? {
      ConfirmingHasSecret(shorter, id);
    }
    SecretsStay(s, x, id);
  }

  lemma SecretsStay(s: AuthSystem, x: AuthAction, id: CallId)
    requires id in AuthStep(s, x).confirming && AuthStep(s, x).confirming[id].phase.MarkVerified?
    requires id in s.confirming && s.confirming[id].phase.MarkVerified? ==> s.confirming[id].user in s.auth.totp
    ensures AuthStep(s, x).confirming[id].user in AuthStep(s, x).auth.totp
  {
    hide FindCode;
  }
}
