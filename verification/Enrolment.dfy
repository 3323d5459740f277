/** Enrolment of a second factor: a secret is checked in one call and marked as verified in another. */
module Enrolment {
  import opened Accounts
  import opened Sessions

  /** Step `k` of the run is the check of call `id`, and passes: the code is that of the secret of `u`. */
  ghost predicate SecretCheckAt(run: seq<AuthAction>, k: nat, id: CallId, u: UserId, secret: Secret) {
    && k < |run| && run[k] == AdvanceConfirm(id) && id in AuthAfter(run[..k]).confirming
    && AuthAfter(run[..k]).confirming[id] == ConfirmCall(u, secret, CheckSecret)
    && u in AuthAfter(run[..k]).auth.totp && AuthAfter(run[..k]).auth.totp[u].secret == secret
  }

  /** Call `id` has passed its check and has not marked the secret yet. */
  ghost predicate Marking(run: seq<AuthAction>, id: CallId) {
    id in AuthAfter(run).confirming && AuthAfter(run).confirming[id].phase.MarkVerified?
  }

  /** Step `m` of the run stores a new secret for `u`. */
  ghost predicate SetsUpAt(run: seq<AuthAction>, m: nat, u: UserId) {
    m < |run| && run[m].SetupTotp? && run[m].u == u && u in AuthAfter(run[..m]).auth.users
  }

  ghost predicate LastSetUp(run: seq<AuthAction>, m: nat, u: UserId) {
    SetsUpAt(run, m, u) && forall n: nat | m < n :: !SetsUpAt(run, n, u)
  }

  /** What a step does to the secrets: a set-up, a mark, or nothing. */
  lemma TotpStep(s: AuthSystem, x: AuthAction)
    ensures
      var a, b := s.auth, AuthStep(s, x).auth;
      if x.SetupTotp? && x.u in a.users then b.totp == a.totp[x.u := Totp(x.secret, false)]
      else if x.AdvanceConfirm? && x.id in s.confirming && s.confirming[x.id].phase.MarkVerified?
              && s.confirming[x.id].user in a.totp then
        var u := s.confirming[x.id].user;
        b.totp == a.totp[u := a.totp[u].(verified := true)]
      else b.totp == a.totp
  {
    hide FindCode;
  }

  lemma ConfirmingStep(s: AuthSystem, x: AuthAction, id: CallId)
    requires id in AuthStep(s, x).confirming && !AuthStep(s, x).confirming[id].phase.CheckSecret?
    ensures id in s.confirming
    ensures
      var c, d := s.confirming[id], AuthStep(s, x).confirming[id];
      && d.user == c.user && d.code == c.code
      && (d.phase.MarkVerified? ==>
            if c.phase.CheckSecret? then
              x == AdvanceConfirm(id) && c.user in s.auth.totp && s.auth.totp[c.user].secret == c.code
            else c == d && !(x.AdvanceConfirm? && x.id == id))
      && (c.phase.CheckSecret? ==> x == AdvanceConfirm(id))
  {
    hide AuthCommand;
    hide RefreshStep;
    hide ActivationStep;
  }

  lemma {:induction false} PastSecretCheck(run: seq<AuthAction>, i: nat, id: CallId)
    requires i <= |run| && id in AuthAfter(run[..i]).confirming
    requires !AuthAfter(run[..i]).confirming[id].phase.CheckSecret?
    ensures id in AuthAfter(run).confirming && !AuthAfter(run).confirming[id].phase.CheckSecret?
    decreases |run|
  {
    hide AuthCommand;
    hide RefreshStep;
    hide ActivationStep;
    if i == |run| {
      assert run[..i] == run;
    } else {
      AuthPrefixes(run);
      PastSecretCheck(run[..|run| - 1], i, id);
      hide AuthAfter;
    }
  }

  /** A call that is about to mark has made its check, at the last step or before it. */
  lemma {:induction false} MarkingSince(run: seq<AuthAction>, id: CallId)
    requires Marking(run, id)
    ensures run != []
    ensures
      var shorter, c := run[..|run| - 1], AuthAfter(run).confirming[id];
      || SecretCheckAt(run, |run| - 1, id, c.user, c.code)
      || (Marking(shorter, id) && AuthAfter(shorter).confirming[id] == c)
  {
    assert run != [];
    AuthPrefixes(run);
    ConfirmingStep(AuthAfter(run[..|run| - 1]), run[|run| - 1], id);
    hide AuthAfter;
    hide AuthStep;
  }

  lemma {:induction false} SecretChecked(run: seq<AuthAction>, id: CallId) returns (k: nat)
    requires Marking(run, id)
    ensures SecretCheckAt(run, k, id, AuthAfter(run).confirming[id].user, AuthAfter(run).confirming[id].code)
    decreases |run|
  {
    MarkingSince(run, id);
    AuthPrefixes(run);
    k := |run| - 1;
    var c := AuthAfter(run).confirming[id];
    hide AuthAfter;
    if !SecretCheckAt(run, k, id, c.user, c.code) {
      k := SecretChecked(run[..|run| - 1], id);
    }
  }

  lemma {:induction false} SetUpSince(run: seq<AuthAction>, x: AuthAction, m: nat, u: UserId)
    ensures
      LastSetUp(run + [x], m, u) <==>
        if x.SetupTotp? && x.u == u && u in AuthAfter(run).auth.users then m == |run| else LastSetUp(run, m, u)
  {
    hide AuthAfter;
    var longer := run + [x];
    assert longer[..|run|] == run;
    forall n: nat
      ensures SetsUpAt(longer, n, u) <==> SetsUpAt(run, n, u) || (n == |run| && SetsUpAt(longer, n, u))
    {
      if n < |run| { assert longer[..n] == run[..n]; }
    }
    assert SetsUpAt(longer, |run|, u) <==> x.SetupTotp? && x.u == u && u in AuthAfter(run).auth.users;
  }

  /** The secret that a call is about to mark as verified is the one its code was checked against exactly if
      the last set-up since the check, if there was one, stored that secret again. */
  lemma {:induction false} MarksCheckedIff(run: seq<AuthAction>, id: CallId, k: nat, u: UserId, code: Secret)
    requires Marking(run, id) && AuthAfter(run).confirming[id] == ConfirmCall(u, code, MarkVerified)
    requires SecretCheckAt(run, k, id, u, code)
    ensures
      && u in AuthAfter(run).auth.totp
      && (AuthAfter(run).auth.totp[u].secret == code <==>
            forall m: nat | k < m && LastSetUp(run, m, u) :: run[m].secret == code)
    decreases |run|
  {
    AuthPrefixes(run);
    var shorter, x := run[..|run| - 1], run[|run| - 1];
    assert run == shorter + [x];
    TotpStep(AuthAfter(shorter), x);
    MarkingSince(run, id);
    if k == |run| - 1 {
      hide AuthAfter;
      hide AuthStep;
      assert forall m: nat | k < m :: !SetsUpAt(run, m, u);
    } else {
      CheckedBefore(run, k, id, u, code);
      MarksCheckedIff(shorter, id, k, u, code);
      forall m: nat ensures LastSetUp(run, m, u) <==>
                            if x.SetupTotp? && x.u == u && u in AuthAfter(shorter).auth.users then m == |shorter|
                            else LastSetUp(shorter, m, u) {
        SetUpSince(shorter, x, m, u);
      }
      hide AuthAfter;
      hide AuthStep;
      hide LastSetUp;
      if x.SetupTotp? && x.u == u && u in AuthAfter(shorter).auth.users { assert LastSetUp(run, |shorter|, u); }
    }
  }

  /** The check of a call that is about to mark was made once. */
  lemma {:induction false} CheckedBefore(run: seq<AuthAction>, k: nat, id: CallId, u: UserId, code: Secret)
    requires Marking(run, id) && AuthAfter(run).confirming[id] == ConfirmCall(u, code, MarkVerified)
    requires k < |run| - 1 && SecretCheckAt(run, k, id, u, code)
    ensures
      var shorter := run[..|run| - 1];
      && Marking(shorter, id) && AuthAfter(shorter).confirming[id] == ConfirmCall(u, code, MarkVerified)
      && SecretCheckAt(shorter, k, id, u, code)
  {
    AuthPrefixes(run);
    var shorter := run[..|run| - 1];
    assert run[..k + 1] == run[..k] + [run[k]] && shorter[..k + 1] == run[..k + 1];
    AuthAfterOne(run[..k], run[k]);
    PastSecretCheck(shorter, k + 1, id);
    MarkingSince(run, id);
  }

  // ---------- what a verified secret means ----------

  /** The secret of `u` has passed a check at some step of the run. */
  ghost predicate ProvenSecret(run: seq<AuthAction>, u: UserId, secret: Secret) {
    exists k: nat, id :: SecretCheckAt(run, k, id, u, secret)
  }

  /** Step `m` marks another secret as verified than the one its code was checked against. */
  ghost predicate MarksOtherAt(run: seq<AuthAction>, m: nat) {
    && m < |run| && run[m].AdvanceConfirm? && Marking(run[..m], run[m].id)
    && var c := AuthAfter(run[..m]).confirming[run[m].id];
       c.user in AuthAfter(run[..m]).auth.totp && AuthAfter(run[..m]).auth.totp[c.user].secret != c.code
  }

  lemma {:induction false} ProvenStays(run: seq<AuthAction>, x: AuthAction, u: UserId, secret: Secret)
    requires ProvenSecret(run, u, secret)
    ensures ProvenSecret(run + [x], u, secret)
  {
    var k: nat, id :| SecretCheckAt(run, k, id, u, secret);
    assert (run + [x])[..k] == run[..k];
    hide AuthAfter;
    assert SecretCheckAt(run + [x], k, id, u, secret);
  }

  /** Unless a step marks another secret than the one checked, a verified secret has passed a check. */
  lemma {:induction false} VerifiedWasProven(run: seq<AuthAction>, u: UserId)
    requires forall m: nat :: !MarksOtherAt(run, m)
    requires HasSecondFactor(AuthAfter(run).auth, u)
    ensures ProvenSecret(run, u, AuthAfter(run).auth.totp[u].secret)
    decreases |run|
  {
    assert run != [];
    AuthPrefixes(run);
    var shorter, x := run[..|run| - 1], run[|run| - 1];
    assert run == shorter + [x];
    var s := AuthAfter(shorter);
    TotpStep(s, x);
    assert !MarksOtherAt(run, |run| - 1);
    forall m: nat ensures !MarksOtherAt(shorter, m) {
      if m < |shorter| { assert shorter[..m] == run[..m] && !MarksOtherAt(run, m); }
    }
    if x.AdvanceConfirm? && Marking(shorter, x.id) && s.confirming[x.id].user == u && u in s.auth.totp {
      var k := SecretChecked(shorter, x.id);
      assert ProvenSecret(shorter, u, s.confirming[x.id].code);
      ProvenStays(shorter, x, u, s.confirming[x.id].code);
    } else {
      VerifiedWasProven(shorter, u);
      ProvenStays(shorter, x, u, s.auth.totp[u].secret);
    }
    hide AuthAfter;
    hide AuthStep;
  }
}
