/** Refresh tokens: rotation chains, in every interleaving of refreshes. */
module Sessions {
  import opened JsText
  import opened Accounts

  ghost predicate InChain(a: Auth, t: TokenId, first: TokenId) {
    t in a.tokens && t in a.chains && a.chains[t].first == first
  }

  /** The tokens of a chain belong to one user; a user who must use a second factor has used it when
      the chain began. */
  ghost predicate TokenOk(a: Auth, t: TokenId) {
    t in a.tokens ==>
      && t in a.chains && a.tokens[t].user in a.users
      && InChain(a, a.chains[t].first, a.chains[t].first) && a.chains[a.chains[t].first] == a.chains[t]
      && a.tokens[a.chains[t].first].user == a.tokens[t].user
      && (a.users[a.tokens[t].user].mandatoryTotp ==> a.chains[t].origin == TotpLogin)
  }

  ghost predicate RefreshOk(a: Auth, c: RefreshCall) {
    c.phase.RevokeOld? || c.phase.IssueNew? ==> c.token in a.tokens && a.tokens[c.token].user == c.phase.user
  }

  /** What a chain can go on from: a token that is not revoked, or a refresh that has revoked one and
      has not issued the next. */
  datatype Head = Live(token: TokenId) | InHand(call: CallId)

  ghost predicate IsHead(s: AuthSystem, first: TokenId, h: Head) {
    match h
    case Live(t) => InChain(s.auth, t, first) && s.auth.tokens[t].revokedAt.None?
    case InHand(id) =>
      id in s.refreshing && s.refreshing[id].phase.IssueNew? && InChain(s.auth, s.refreshing[id].token, first)
  }

  ghost predicate OneHead(s: AuthSystem, first: TokenId) {
    forall h, k :: IsHead(s, first, h) && IsHead(s, first, k) ==> h == k
  }

  ghost predicate SessionsOk(s: AuthSystem) {
    && (forall t | t in s.auth.tokens :: TokenOk(s.auth, t))
    && s.auth.chains.Keys == s.auth.tokens.Keys
    && (forall id | id in s.refreshing :: RefreshOk(s.auth, s.refreshing[id]))
  }

  // ---------- what a step does to the tokens ----------

  datatype TokenMove =
    | NoMove
    | Begins(u: UserId, t: TokenId, ttl: nat, origin: Origin)
    | Revokes(t: TokenId)
    | Rotates(u: UserId, old_: TokenId, t: TokenId, ttl: nat)

  predicate TokenMoved(a: Auth, m: TokenMove, b: Auth) {
    match m
    case NoMove => b.tokens == a.tokens && b.chains == a.chains
    case Begins(u, t, ttl, origin) =>
      && t !in a.tokens && u in a.users && (a.users[u].mandatoryTotp ==> origin == TotpLogin)
      && b.tokens == a.tokens[t := RefreshToken(u, a.clock + ttl, None)]
      && b.chains == a.chains[t := Chain(origin, t)]
    case Revokes(t) =>
      && t in a.tokens && b.tokens == a.tokens[t := a.tokens[t].(revokedAt := Some(a.clock))]
      && b.chains == a.chains
    case Rotates(u, old_, t, ttl) =>
      && t !in a.tokens && old_ in a.chains && u in a.users
      && b.tokens == a.tokens[t := RefreshToken(u, a.clock + ttl, None)]
      && b.chains == a.chains[t := a.chains[old_]]
  }

  /** The second login step, with the code of a verified secret, by a user who has passed the first. */
  predicate TwoFactorLogin(a: Auth, x: AuthAction, u: UserId, t: TokenId) {
    && x.LoginWithTotp? && x.u == u && x.t == t && u in a.mfaPending
    && u in a.totp && a.totp[u].verified && a.totp[u].secret == x.code
  }

  /** Of an account, only its status and its password change. */
  predicate UsersKept(a: Auth, b: Auth) {
    && (forall u | u in a.users ::
          u in b.users && b.users[u].mandatoryTotp == a.users[u].mandatoryTotp
            && b.users[u].student == a.users[u].student)
    && a.clock <= b.clock
  }

  lemma CommandMove(a: Auth, x: AuthAction) returns (m: TokenMove)
    ensures TokenMoved(a, m, AuthCommand(a, x)) && UsersKept(a, AuthCommand(a, x))
    ensures m.NoMove? || m.Begins? || m.Revokes?
    ensures m.Revokes? ==> a.tokens[m.t].revokedAt.None?
    ensures m.Begins? && m.origin == TotpLogin ==> TwoFactorLogin(a, x, m.u, m.t)
  {
    var b := AuthCommand(a, x);
    m := NoMove;
    match x {
      case Login(u, password, t, ttl) => if b.tokens != a.tokens { m := Begins(u, t, ttl, PasswordLogin); }
      case LoginWithTotp(u, code, t, ttl) => if b.tokens != a.tokens { m := Begins(u, t, ttl, TotpLogin); }
      case Logout(t) => if ValidToken(a, t) { m := Revokes(t); }
      case _ => assert b == a.(clock := b.clock, users := b.users, totp := b.totp, codes := b.codes);
    }
  }

  lemma RefreshMove(a: Auth, c: RefreshCall, t: TokenId, ttl: nat) returns (m: TokenMove)
    requires RefreshOk(a, c)
    ensures
      var (b, d) := RefreshStep(a, c, t, ttl);
      && TokenMoved(a, m, b) && UsersKept(a, b) && d.token == c.token
      && (d.phase.RevokeOld? ==> c.phase.FindToken? && c.token in a.tokens && d.phase.user == a.tokens[c.token].user)
      && (d.phase.IssueNew? <==> c.phase.RevokeOld?) && (d.phase.IssueNew? ==> d.phase.user == c.phase.user)
      && (c.phase.RevokeOld? <==> m == Revokes(c.token))
      && (m.Rotates? ==> c.phase.IssueNew? && m == Rotates(c.phase.user, c.token, t, ttl))
      && !m.Begins? && (m.Revokes? ==> m.t == c.token)
  {
    m := NoMove;
    match c.phase {
      case RevokeOld(_) => m := Revokes(c.token);
      case IssueNew(user) =>
        if user in a.users && c.token in a.chains && t !in a.tokens { m := Rotates(user, c.token, t, ttl); }
      case _ =>
    }
  }

  lemma ActivationMove(a: Auth, c: ActivationCall, t: TokenId, ttl: nat) returns (m: TokenMove)
    ensures
      var b := ActivationStep(a, c, t, ttl).0;
      TokenMoved(a, m, b) && UsersKept(a, b) && (m.NoMove? || (m.Begins? && m.origin == StaffActivation))
  {
    m := NoMove;
    var b := ActivationStep(a, c, t, ttl).0;
    if b.tokens != a.tokens {
      m := Begins(c.user, t, ttl, StaffActivation);
    }
  }

  /** Of a step that is no step of a refresh. */
  lemma OtherMove(s: AuthSystem, x: AuthAction) returns (m: TokenMove)
    requires !(x.AdvanceRefresh? && x.id in s.refreshing)
    ensures
      var s' := AuthStep(s, x);
      && TokenMoved(s.auth, m, s'.auth) && UsersKept(s.auth, s'.auth)
      && (!x.BeginRefresh? ==> s'.refreshing == s.refreshing)
    ensures m.NoMove? || m.Begins? || m.Revokes?
    ensures m.Revokes? ==> s.auth.tokens[m.t].revokedAt.None?
    ensures m.Begins? && m.origin == TotpLogin ==> TwoFactorLogin(s.auth, x, m.u, m.t)
  {
    m := NoMove;
    if x.AdvanceActivation? {
      if x.id in s.activating { m := ActivationMove(s.auth, s.activating[x.id], x.t, x.ttl); }
    } else if !x.AdvanceConfirm? {
      m := CommandMove(s.auth, x);
    }
    hide AuthCommand;
    hide ActivationStep;
    hide TwoFactorLogin;
  }

  // ---------- the invariant ----------

  lemma TokenStaysOk(a: Auth, m: TokenMove, b: Auth, t: TokenId)
    requires TokenMoved(a, m, b) && UsersKept(a, b) && a.chains.Keys == a.tokens.Keys
    requires forall x | x in a.tokens :: TokenOk(a, x)
    requires m.Rotates? ==> m.old_ in a.tokens && a.tokens[m.old_].user == m.u
    ensures TokenOk(b, t)
  {
    if t in a.tokens {
      assert TokenOk(a, t) && TokenOk(a, a.chains[t].first);
    }
    if m.Rotates? {
      assert TokenOk(a, m.old_);
    }
  }

  /** A step that is no step of a refresh adds no head to a chain that has one. */
  lemma HeadsOfMove(s: AuthSystem, m: TokenMove, s': AuthSystem, first: TokenId)
    requires SessionsOk(s) && s'.refreshing == s.refreshing && TokenMoved(s.auth, m, s'.auth) && OneHead(s, first)
    requires m.NoMove? || m.Begins? || (m.Revokes? && s.auth.tokens[m.t].revokedAt.None?)
    ensures OneHead(s', first)
  {
    forall h, k | IsHead(s', first, h) && IsHead(s', first, k) ensures h == k {
      HeadBefore(s, m, s', first, h);
      HeadBefore(s, m, s', first, k);
    }
  }

  /** Where the heads of a chain come from, when no refresh is at its revocation or its issue. */
  lemma HeadBefore(s: AuthSystem, m: TokenMove, s': AuthSystem, first: TokenId, h: Head)
    requires SessionsOk(s) && s'.refreshing == s.refreshing && TokenMoved(s.auth, m, s'.auth)
    requires m.NoMove? || m.Begins? || (m.Revokes? && s.auth.tokens[m.t].revokedAt.None?)
    requires IsHead(s', first, h)
    ensures if m.Begins? && m.t == first then h == Live(first) else IsHead(s, first, h)
  {
    if h.InHand? {
      var c := s.refreshing[h.call];
      assert RefreshOk(s.auth, c);
      assert TokenOk(s.auth, c.token);
    } else if h.token in s.auth.tokens {
      assert TokenOk(s.auth, h.token);
    }
  }

  /** A refresh passes the head on: from the token it revokes to itself, and then to the token it issues. */
  lemma HeadAfterRefresh(s: AuthSystem, id: CallId, m: TokenMove, s': AuthSystem,
                         first: TokenId, h: Head)
    requires SessionsOk(s) && RefreshedBy(s, id, m, s') && IsHead(s', first, h)
    ensures
      var c := s.refreshing[id];
      match m
      case Revokes(t) => (h == InHand(id) && InChain(s.auth, t, first)) || (IsHead(s, first, h) && h != Live(t))
      case Rotates(_, old_, t, _) =>
        (h == Live(t) && InChain(s.auth, old_, first)) || (IsHead(s, first, h) && h != InHand(id))
      case _ => IsHead(s, first, h)
  {
    var c := s.refreshing[id];
    assert RefreshOk(s.auth, c);
    if h.InHand? && h.call != id {
      assert RefreshOk(s.auth, s.refreshing[h.call]);
    }
  }

  /** One step of refresh `id`, with the move it makes. */
  ghost predicate RefreshedBy(s: AuthSystem, id: CallId, m: TokenMove, s': AuthSystem) {
    && id in s.refreshing && id in s'.refreshing && s'.refreshing == s.refreshing[id := s'.refreshing[id]]
    && TokenMoved(s.auth, m, s'.auth) && !m.Begins?
    && var c, d := s.refreshing[id], s'.refreshing[id];
       && d.token == c.token && (d.phase.IssueNew? <==> c.phase.RevokeOld?)
       && (c.phase.RevokeOld? <==> m == Revokes(c.token))
       && (m.Revokes? ==> m.t == c.token)
       && (m.Rotates? ==> c.phase.IssueNew? && m.old_ == c.token && m.u == c.phase.user)
  }

  /** A refresh revokes a token that was revoked already, while the chain can go on from elsewhere. */
  ghost predicate Forks(s: AuthSystem, x: AuthAction, first: TokenId) {
    && x.AdvanceRefresh? && x.id in s.refreshing
    && s.refreshing[x.id].phase.RevokeOld? && InChain(s.auth, s.refreshing[x.id].token, first)
    && s.auth.tokens[s.refreshing[x.id].token].revokedAt.Some?
    && exists h :: IsHead(s, first, h)
  }

  lemma HeadsOfRefresh(s: AuthSystem, id: CallId, m: TokenMove, s': AuthSystem,
                       first: TokenId, t: TokenId, ttl: nat)
    requires SessionsOk(s) && RefreshedBy(s, id, m, s') && OneHead(s, first)
    ensures OneHead(s', first) <==> !Forks(s, AdvanceRefresh(id, t, ttl), first)
  {
    var a, c := s.auth, s.refreshing[id];
    assert RefreshOk(a, c);
    if Forks(s, AdvanceRefresh(id, t, ttl), first) {
      var h :| IsHead(s, first, h);
      assert IsHead(s', first, h) && IsHead(s', first, InHand(id)) && h != InHand(id);
    } else {
      if m.Revokes? && InChain(a, m.t, first) && a.tokens[m.t].revokedAt.None? { assert IsHead(s, first, Live(m.t)); }
      if m.Rotates? && InChain(a, m.old_, first) { assert IsHead(s, first, InHand(id)); }
      forall h, k | IsHead(s', first, h) && IsHead(s', first, k) ensures h == k {
        HeadAfterRefresh(s, id, m, s', first, h);
        HeadAfterRefresh(s, id, m, s', first, k);
      }
    }
  }

  lemma CallStaysOk(a: Auth, m: TokenMove, b: Auth, c: RefreshCall)
    requires TokenMoved(a, m, b) && RefreshOk(a, c)
    ensures RefreshOk(b, c)
  {}

  lemma RefreshKeepsSessions(s: AuthSystem, id: CallId, t: TokenId, ttl: nat)
    requires SessionsOk(s) && id in s.refreshing
    ensures SessionsOk(AuthStep(s, AdvanceRefresh(id, t, ttl)))
  {
    var c := s.refreshing[id];
    var s' := AuthStep(s, AdvanceRefresh(id, t, ttl));
    assert RefreshOk(s.auth, c);
    var m := RefreshMove(s.auth, c, t, ttl);
    hide RefreshStep;
    hide UsersKept;
    hide TokenOk;
    forall x | x in s'.auth.tokens ensures TokenOk(s'.auth, x) {
      TokenStaysOk(s.auth, m, s'.auth, x);
    }
    forall k | k in s'.refreshing ensures RefreshOk(s'.auth, s'.refreshing[k]) {
      if k != id {
        CallStaysOk(s.auth, m, s'.auth, s.refreshing[k]);
      }
    }
  }

  lemma MoveKeepsSessions(s: AuthSystem, m: TokenMove, s': AuthSystem)
    requires SessionsOk(s) && s'.refreshing == s.refreshing && TokenMoved(s.auth, m, s'.auth)
             && UsersKept(s.auth, s'.auth)
    requires m.NoMove? || m.Begins? || (m.Revokes? && s.auth.tokens[m.t].revokedAt.None?)
    ensures SessionsOk(s')
  {
    hide TokenOk;
    hide RefreshOk;
    forall x | x in s'.auth.tokens ensures TokenOk(s'.auth, x) {
      TokenStaysOk(s.auth, m, s'.auth, x);
    }
    forall k | k in s'.refreshing ensures RefreshOk(s'.auth, s'.refreshing[k]) {
      CallStaysOk(s.auth, m, s'.auth, s.refreshing[k]);
    }
  }

  lemma StepKeepsSessions(s: AuthSystem, x: AuthAction)
    requires SessionsOk(s)
    ensures SessionsOk(AuthStep(s, x))
  {
    var s' := AuthStep(s, x);
    if x.AdvanceRefresh? {
      if x.id in s.refreshing {
        RefreshKeepsSessions(s, x.id, x.t, x.ttl);
      }
    } else if x.BeginRefresh? {
      BeginKeepsSessions(s, x.id, x.t);
    } else {
      var m := OtherMove(s, x);
      hide AuthStep;
      hide SessionsOk;
      MoveKeepsSessions(s, m, s');
    }
  }

  lemma BeginKeepsSessions(s: AuthSystem, id: CallId, t: TokenId)
    requires SessionsOk(s)
    ensures SessionsOk(AuthStep(s, BeginRefresh(id, t)))
  {}

  lemma {:induction false} RunKeepsSessions(run: seq<AuthAction>)
    ensures SessionsOk(AuthAfter(run))
    decreases |run|
  {
    if run != [] {
      RunKeepsSessions(run[..|run| - 1]);
      hide SessionsOk;
      hide AuthStep;
      StepKeepsSessions(AuthAfter(run[..|run| - 1]), run[|run| - 1]);
    }
  }

  // ---------- what follows in every run ----------

  lemma RefreshHeads(s: AuthSystem, id: CallId, t: TokenId, ttl: nat, first: TokenId)
    requires SessionsOk(s) && OneHead(s, first) && id in s.refreshing
    ensures OneHead(AuthStep(s, AdvanceRefresh(id, t, ttl)), first) <==> !Forks(s, AdvanceRefresh(id, t, ttl), first)
  {
    assert RefreshOk(s.auth, s.refreshing[id]);
    var m := RefreshMove(s.auth, s.refreshing[id], t, ttl);
    hide RefreshStep;
    hide UsersKept;
    hide TokenMoved;
    hide OneHead;
    hide Forks;
    hide SessionsOk;
    HeadsOfRefresh(s, id, m, AuthStep(s, AdvanceRefresh(id, t, ttl)), first, t, ttl);
  }

  lemma OtherHeads(s: AuthSystem, x: AuthAction, first: TokenId)
    requires SessionsOk(s) && OneHead(s, first) && !(x.AdvanceRefresh? && x.id in s.refreshing)
    ensures OneHead(AuthStep(s, x), first)
  {
    var s' := AuthStep(s, x);
    if x.BeginRefresh? {
      assert forall h :: IsHead(s', first, h) ==> IsHead(s, first, h);
    } else if !x.AdvanceRefresh? {
      var m := OtherMove(s, x);
      hide AuthStep;
      hide SessionsOk;
      hide OneHead;
      HeadsOfMove(s, m, s', first);
    }
  }

  /** A chain that can go on from one place only gets a second one exactly if a refresh revokes a token
      that was revoked already, while the chain can go on from elsewhere. */
  lemma {:induction false} OneHeadUnlessForked(run: seq<AuthAction>, x: AuthAction, first: TokenId)
    requires OneHead(AuthAfter(run), first)
    ensures OneHead(AuthStep(AuthAfter(run), x), first) <==> !Forks(AuthAfter(run), x, first)
  {
    RunKeepsSessions(run);
    var s := AuthAfter(run);
    hide AuthAfter;
    hide AuthStep;
    hide SessionsOk;
    hide OneHead;
    if x.AdvanceRefresh? && x.id in s.refreshing {
      RefreshHeads(s, x.id, x.t, x.ttl, first);
    } else {
      OtherHeads(s, x, first);
    }
  }

  /** Step `i` of the run forks the chain. */
  ghost predicate ForksAt(run: seq<AuthAction>, i: nat, first: TokenId) {
    i < |run| && Forks(AuthAfter(run[..i]), run[i], first)
  }

  /** In every interleaving a chain can go on from at most one place all the time exactly if no step of
      the run forks it. */
  lemma {:induction false} OneHeadIffNeverForked(run: seq<AuthAction>, first: TokenId)
    ensures (forall i: nat | i <= |run| :: OneHead(AuthAfter(run[..i]), first)) <==>
            (forall i: nat :: !ForksAt(run, i, first))
  {
    hide OneHead;
    hide Forks;
    if forall i: nat | i <= |run| :: OneHead(AuthAfter(run[..i]), first) {
      forall i: nat ensures !ForksAt(run, i, first) {
        if i < |run| {
          assert OneHead(AuthAfter(run[..i]), first) && OneHead(AuthAfter(run[..i + 1]), first);
          OneHeadUnlessForked(run[..i], run[i], first);
          assert run[..i + 1] == run[..i] + [run[i]];
          AuthAfterOne(run[..i], run[i]);
        }
      }
    }
    if forall i: nat :: !ForksAt(run, i, first) {
      forall i: nat | i <= |run| ensures OneHead(AuthAfter(run[..i]), first) {
        NeverForked(run, i, first);
      }
    }
  }

  lemma {:induction false} NeverForked(run: seq<AuthAction>, i: nat, first: TokenId)
    requires i <= |run| && forall k: nat :: !ForksAt(run, k, first)
    ensures OneHead(AuthAfter(run[..i]), first)
    decreases i
  {
    if i == 0 {
      assert forall h :: !IsHead(AuthAfter([]), first, h);
    } else {
      NeverForked(run, i - 1, first);
      assert !ForksAt(run, i - 1, first);
      hide OneHead;
      hide Forks;
      hide AuthStep;
      OneHeadUnlessForked(run[..i - 1], run[i - 1], first);
      assert run[..i] == run[..i - 1] + [run[i - 1]];
      AuthAfterOne(run[..i - 1], run[i - 1]);
    }
  }

  /** So, unless it was forked, a chain has at most one token that is not revoked. */
  lemma {:induction false} OneLiveToken(run: seq<AuthAction>, first: TokenId, t: TokenId, u: TokenId)
    requires forall i: nat :: !ForksAt(run, i, first)
    requires InChain(AuthAfter(run).auth, t, first) && InChain(AuthAfter(run).auth, u, first)
    requires AuthAfter(run).auth.tokens[t].revokedAt.None? && AuthAfter(run).auth.tokens[u].revokedAt.None?
    ensures t == u
  {
    NeverForked(run, |run|, first);
    assert run[..|run|] == run;
    var s := AuthAfter(run);
    hide AuthAfter;
    assert IsHead(s, first, Live(t)) && IsHead(s, first, Live(u));
  }

  /** A chain that has come to its end, by a logout or a failed refresh, goes on exactly if a refresh that
      had found one of its tokens valid before revokes it now. */
  lemma {:induction false} EndedChainGoesOnIff(run: seq<AuthAction>, x: AuthAction, first: TokenId)
    requires first in AuthAfter(run).auth.tokens && forall h :: !IsHead(AuthAfter(run), first, h)
    ensures
      (exists h :: IsHead(AuthStep(AuthAfter(run), x), first, h)) <==>
        var s := AuthAfter(run);
        && x.AdvanceRefresh? && x.id in s.refreshing
        && s.refreshing[x.id].phase.RevokeOld? && InChain(s.auth, s.refreshing[x.id].token, first)
  {
    RunKeepsSessions(run);
    var s := AuthAfter(run);
    var s' := AuthStep(s, x);
    hide AuthAfter;
    if x.AdvanceRefresh? && x.id in s.refreshing {
      assert RefreshOk(s.auth, s.refreshing[x.id]);
      var m := RefreshMove(s.auth, s.refreshing[x.id], x.t, x.ttl);
      hide RefreshStep;
      assert !IsHead(s, first, InHand(x.id));
      if s.refreshing[x.id].phase.RevokeOld? && InChain(s.auth, s.refreshing[x.id].token, first) {
        assert IsHead(s', first, InHand(x.id));
      }
      forall h | IsHead(s', first, h) ensures m.Revokes? && InChain(s.auth, m.t, first) {
        HeadAfterRefresh(s, x.id, m, s', first, h);
      }
    } else {
      NoNewHead(s, x, first);
    }
  }

  lemma NoNewHead(s: AuthSystem, x: AuthAction, first: TokenId)
    requires SessionsOk(s) && !(x.AdvanceRefresh? && x.id in s.refreshing)
    requires first in s.auth.tokens && forall h :: !IsHead(s, first, h)
    ensures forall h :: !IsHead(AuthStep(s, x), first, h)
  {
    var s' := AuthStep(s, x);
    if x.BeginRefresh? {
      assert forall h :: IsHead(s', first, h) ==> IsHead(s, first, h);
    } else if !x.AdvanceRefresh? {
      var m := OtherMove(s, x);
      hide AuthStep;
      hide IsHead;
      forall h ensures !IsHead(s', first, h) {
        if IsHead(s', first, h) {
          HeadBefore(s, m, s', first, h);
        }
      }
    }
  }

  /** All tokens of a chain belong to one user, and a user whose role demands a second factor holds
      only tokens of chains that began with that factor. */
  lemma {:induction false} SecondFactorAtTheRoot(run: seq<AuthAction>, t: TokenId)
    requires t in AuthAfter(run).auth.tokens
    ensures
      var a := AuthAfter(run).auth;
      && t in a.chains && a.chains[t].first in a.tokens && a.tokens[a.chains[t].first].user == a.tokens[t].user
      && a.tokens[t].user in a.users
      && (a.users[a.tokens[t].user].mandatoryTotp ==> a.chains[t].origin == TotpLogin)
  {
    RunKeepsSessions(run);
    assert TokenOk(AuthAfter(run).auth, t);
  }

  ghost predicate Revoked(a: Auth, t: TokenId) {
    t in a.tokens && a.tokens[t].revokedAt.Some?
  }

  lemma StepKeepsRevoked(s: AuthSystem, x: AuthAction, t: TokenId)
    requires SessionsOk(s) && Revoked(s.auth, t)
    ensures Revoked(AuthStep(s, x).auth, t)
  {
    if x.AdvanceRefresh? && x.id in s.refreshing {
      assert RefreshOk(s.auth, s.refreshing[x.id]);
      var m := RefreshMove(s.auth, s.refreshing[x.id], x.t, x.ttl);
      hide RefreshStep;
    } else {
      var m := OtherMove(s, x);
      hide AuthStep;
    }
  }

  /** A token that was rotated or logged out is never valid again, in any continuation of the run. */
  lemma {:induction false} RevokedForGood(run: seq<AuthAction>, i: nat, t: TokenId)
    requires i <= |run| && Revoked(AuthAfter(run[..i]).auth, t)
    ensures Revoked(AuthAfter(run).auth, t) && !ValidToken(AuthAfter(run).auth, t)
    decreases |run|
  {
    if i == |run| {
      assert run[..i] == run;
    } else {
      var shorter := run[..|run| - 1];
      assert shorter[..i] == run[..i];
      RevokedForGood(shorter, i, t);
      RunKeepsSessions(shorter);
      hide SessionsOk;
      hide AuthStep;
      StepKeepsRevoked(AuthAfter(shorter), run[|run| - 1], t);
    }
  }

  // ---------- how a chain began ----------

  lemma StepIssues(s: AuthSystem, x: AuthAction, t: TokenId)
    requires SessionsOk(s) && t !in s.auth.tokens && t in AuthStep(s, x).auth.tokens
    ensures
      var chain := AuthStep(s, x).auth.chains[t];
      chain.first == t && chain.origin == TotpLogin ==> TwoFactorLogin(s.auth, x, AuthStep(s, x).auth.tokens[t].user, t)
  {
    if x.AdvanceRefresh? && x.id in s.refreshing {
      assert RefreshOk(s.auth, s.refreshing[x.id]);
      var m := RefreshMove(s.auth, s.refreshing[x.id], x.t, x.ttl);
      assert TokenOk(s.auth, s.refreshing[x.id].token);
      hide RefreshStep;
    } else {
      var m := OtherMove(s, x);
      hide AuthStep;
    }
  }

  lemma StepKeepsChain(s: AuthSystem, x: AuthAction, t: TokenId)
    requires SessionsOk(s) && t in s.auth.tokens
    ensures
      var b := AuthStep(s, x).auth;
      t in b.tokens && t in b.chains && b.chains[t] == s.auth.chains[t] && b.tokens[t].user == s.auth.tokens[t].user
  {
    if x.AdvanceRefresh? && x.id in s.refreshing {
      assert RefreshOk(s.auth, s.refreshing[x.id]);
      var m := RefreshMove(s.auth, s.refreshing[x.id], x.t, x.ttl);
      hide RefreshStep;
    } else {
      var m := OtherMove(s, x);
      hide AuthStep;
    }
  }

  lemma {:induction false} AuthPrefixes(run: seq<AuthAction>)
    requires run != []
    ensures AuthAfter(run) == AuthStep(AuthAfter(run[..|run| - 1]), run[|run| - 1])
    ensures forall i | 0 <= i < |run| :: run[..|run| - 1][..i] == run[..i]
    ensures run[..|run|] == run
  {}

  /** The step at which the first token of a chain was issued: for a chain that began with the second
      factor, it is a successful second login step of the user who owns the chain. */
  lemma {:induction false} ChainBeganWithTwoFactors(run: seq<AuthAction>, first: TokenId) returns (k: nat)
    requires first in AuthAfter(run).auth.tokens && first in AuthAfter(run).auth.chains
    requires AuthAfter(run).auth.chains[first] == Chain(TotpLogin, first)
    ensures k < |run| && TwoFactorLogin(AuthAfter(run[..k]).auth, run[k], AuthAfter(run).auth.tokens[first].user, first)
    decreases |run|
  {
    assert run != [];
    AuthPrefixes(run);
    var shorter := run[..|run| - 1];
    RunKeepsSessions(shorter);
    hide AuthAfter;
    hide AuthStep;
    hide TwoFactorLogin;
    if first in AuthAfter(shorter).auth.tokens {
      StepKeepsChain(AuthAfter(shorter), run[|run| - 1], first);
      assert first in AuthAfter(shorter).auth.chains;
      k := ChainBeganWithTwoFactors(shorter, first);
    } else {
      StepIssues(AuthAfter(shorter), run[|run| - 1], first);
      k := |shorter|;
      assert run[..k] == shorter;
    }
  }

  // ---------- a chain that forks ----------

  lemma {:induction false} AuthAfterOne(run: seq<AuthAction>, x: AuthAction)
    ensures AuthAfter(run + [x]) == AuthStep(AuthAfter(run), x)
  {
    assert (run + [x])[..|run + [x]| - 1] == run;
  }

  /** Two refreshes of one token that have both found it valid leave two live tokens in its chain. */
  lemma {:induction false} OverlappingRefreshesFork(run: seq<AuthAction>, i: CallId, j: CallId,
                                                    t: TokenId, t1: TokenId, t2: TokenId, ttl: nat)
    requires i != j && i in AuthAfter(run).refreshing && j in AuthAfter(run).refreshing
    requires AuthAfter(run).refreshing[i].token == t && AuthAfter(run).refreshing[i].phase.RevokeOld?
    requires AuthAfter(run).refreshing[j].token == t && AuthAfter(run).refreshing[j].phase.RevokeOld?
    requires t1 != t2 && t1 !in AuthAfter(run).auth.tokens && t2 !in AuthAfter(run).auth.tokens
    ensures
      var a := AuthAfter(run + [AdvanceRefresh(i, 0, ttl), AdvanceRefresh(j, 0, ttl),
                                AdvanceRefresh(i, t1, ttl), AdvanceRefresh(j, t2, ttl)]).auth;
      && t1 in a.chains && InChain(a, t1, a.chains[t1].first) && InChain(a, t2, a.chains[t1].first)
      && a.tokens[t1].revokedAt.None? && a.tokens[t2].revokedAt.None?
  {
    RunKeepsSessions(run);
    var s := AuthAfter(run);
    assert RefreshOk(s.auth, s.refreshing[i]) && RefreshOk(s.auth, s.refreshing[j]) && TokenOk(s.auth, t);
    hide SessionsOk;
    hide AuthAfter;
    var r1 := run + [AdvanceRefresh(i, 0, ttl)];
    var r2 := r1 + [AdvanceRefresh(j, 0, ttl)];
    var r3 := r2 + [AdvanceRefresh(i, t1, ttl)];
    AuthAfterOne(run, AdvanceRefresh(i, 0, ttl));
    AuthAfterOne(r1, AdvanceRefresh(j, 0, ttl));
    AuthAfterOne(r2, AdvanceRefresh(i, t1, ttl));
    AuthAfterOne(r3, AdvanceRefresh(j, t2, ttl));
    assert r3 + [AdvanceRefresh(j, t2, ttl)] ==
           run + [AdvanceRefresh(i, 0, ttl), AdvanceRefresh(j, 0, ttl), AdvanceRefresh(i, t1, ttl),
                  AdvanceRefresh(j, t2, ttl)];
  }
}
