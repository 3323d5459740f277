/** Two requests of one student at once: what becomes of the one that loses the claim. */
module LostClaim {
  import opened JsText
  import opened Schema
  import opened Ballots
  import opened System
  import opened Evolution
  import opened BallotSafety
  import opened Pointers

  ghost predicate OwnStep(run: seq<Action>, k: nat, id: CallId) {
    k < |run| && run[k].AdvanceRequest? && run[k].id == id
  }

  /** Step `j` is the next step of the call after step `i`. */
  ghost predicate NextStep(run: seq<Action>, i: nat, j: nat, id: CallId) {
    i < j && OwnStep(run, i, id) && OwnStep(run, j, id) && forall k: nat | i < k < j :: !OwnStep(run, k, id)
  }

  /** At step `i` the call claims the pointer of registration `r`, which holds `t` already. */
  ghost predicate LosesClaim(run: seq<Action>, i: nat, id: CallId, r: RegistrationId, t: Token) {
    && OwnStep(run, i, id)
    && var s := After(run[..i]);
       && id in s.requesting && s.requesting[id].phase.Claim? && s.requesting[id].phase.registration == r
       && Pointer(s.db.poll, r, t)
  }

  lemma CallWaits(s: Sevs, a: Action, id: CallId)
    requires id in s.requesting && !(a.AdvanceRequest? && a.id == id)
    ensures id in Step(s, a).requesting && Step(s, a).requesting[id] == s.requesting[id]
  {}

  /** Between two steps of its own a call stays as it is. */
  lemma {:induction false} Waits(run: seq<Action>, i: nat, j: nat, id: CallId)
    requires i <= j <= |run| && id in After(run[..i]).requesting
    requires forall k: nat | i <= k < j :: !OwnStep(run, k, id)
    ensures id in After(run[..j]).requesting && After(run[..j]).requesting[id] == After(run[..i]).requesting[id]
    decreases j
  {
    if i < j {
      Waits(run, i, j - 1, id);
      assert run[..j][..j - 1] == run[..j - 1];
      Prefixes(run[..j]);
      hide After;
      hide Step;
      assert !OwnStep(run, j - 1, id);
      CallWaits(After(run[..j - 1]), run[j - 1], id);
    }
  }

  /** What a call does at its own step. */
  lemma {:induction false} Advances(run: seq<Action>, j: nat, id: CallId)
    requires OwnStep(run, j, id) && id in After(run[..j]).requesting
    ensures
      var s, s' := After(run[..j]), After(run[..j + 1]);
      id in s'.requesting && (s'.db, s'.requesting[id]) == RequestStep(s.db, s.requesting[id], run[j].uuid)
  {
    Prefixes(run[..j + 1]);
    assert run[..j + 1][..j] == run[..j];
    hide After;
    hide RequestStep;
  }

  /** A token that a registration holds is held later on exactly if nothing has taken it since. */
  lemma {:induction false} StillHeldIff(run: seq<Action>, i: nat, r: RegistrationId, t: Token)
    requires i <= |run| && Pointer(After(run[..i]).db.poll, r, t)
    ensures Pointer(After(run).db.poll, r, t) <==> forall k: nat | i <= k :: !LeavesAt(run, k, r, t)
    decreases |run|
  {
    assert run[..|run|] == run;
    if i < |run| {
      Prefixes(run);
      var shorter, a := run[..|run| - 1], run[|run| - 1];
      assert run == shorter + [a];
      StillHeldIff(shorter, i, r, t);
      RunSafe(shorter);
      RunSafe(run[..i]);
      RunEvolves(shorter, i);
      hide After;
      hide Step;
      OwnerStays(After(run[..i]).db, After(shorter).db, t);
      PointerOrLost(After(shorter), a, r, t);
      hide *;
      LeftFrom(shorter, a, i, r, t);
    }
  }

  lemma {:induction false} LeftFrom(run: seq<Action>, a: Action, i: nat, r: RegistrationId, t: Token)
    requires i <= |run|
    ensures
      (forall k: nat | i <= k :: !LeavesAt(run + [a], k, r, t)) <==>
      (forall k: nat | i <= k :: !LeavesAt(run, k, r, t)) && !CastsNow(After(run), a, t) && !ClearsNow(After(run), a, r)
  {
    hide After;
    hide CastsNow;
    hide ClearsNow;
    var longer := run + [a];
    assert longer[..|run|] == run;
    forall k: nat
      ensures LeavesAt(longer, k, r, t) <==>
              LeavesAt(run, k, r, t) || (k == |run| && (CastsNow(After(run), a, t) || ClearsNow(After(run), a, r)))
    {
      if k < |run| { assert longer[..k] == run[..k]; }
    }
    if forall k: nat | i <= k :: !LeavesAt(longer, k, r, t) {
      assert !LeavesAt(longer, |run|, r, t);
    }
  }

  /** How a claim ends, whatever ran before: with the fresh token, for thirty minutes from now, exactly if the
      registration holds none and the token is new; a token that exists already is an error that leaves
      everything as it was. */
  lemma {:induction false} ClaimAnswers(run: seq<Action>, i: nat, id: CallId)
    requires OwnStep(run, i, id) && id in After(run[..i]).requesting && After(run[..i]).requesting[id].phase.Claim?
    ensures
      var s, s', uuid := After(run[..i]), After(run[..i + 1]), run[i].uuid;
      var c, held := s.requesting[id], exists t :: Pointer(s.db.poll, s.requesting[id].phase.registration, t);
      && id in s'.requesting
      && (s'.requesting[id].phase == Finished(Issued(uuid)) <==> !held && uuid !in s.db.poll.ballots)
      && (s'.requesting[id].phase == Finished(Failed(ConstraintViolation)) <==> !held && uuid in s.db.poll.ballots)
      && (s'.requesting[id].phase == Reread(c.phase.student) <==> held)
      && (s'.requesting[id].phase == Finished(Issued(uuid)) ==>
            && Pointer(s'.db.poll, c.phase.registration, uuid)
            && s'.db.poll.ballots ==
               s.db.poll.ballots[uuid := Ballot(c.election, s.db.clock, s.db.clock + 1800000, false)])
      && (s'.requesting[id].phase != Finished(Issued(uuid)) ==> s'.db == s.db)
  {
    Advances(run, i, id);
    RunSafe(run[..i]);
    var s := After(run[..i]);
    var r := s.requesting[id].phase.registration;
    assert RequestKnown(s.db, s.requesting[id]);
    hide After;
    hide PollOk;
    hide TimesOk;
    hide Vetted;
    if s.db.poll.registrations[r].activeBallotToken.Some? {
      assert Pointer(s.db.poll, r, s.db.poll.registrations[r].activeBallotToken.value);
    }
  }

  /** The step at which the claim is lost changes nothing, and leaves the call to read the registration
      again. */
  lemma {:induction false} LosesStep(run: seq<Action>, i: nat, id: CallId, r: RegistrationId, t: Token)
    requires LosesClaim(run, i, id, r, t)
    ensures
      var s, s' := After(run[..i]), After(run[..i + 1]);
      && id in s'.requesting && s'.requesting[id].phase == Reread(s.requesting[id].phase.student)
      && s'.requesting[id].election == s.requesting[id].election
      && Known(s'.db.poll, s.requesting[id].phase.student, s.requesting[id].election)
      && s'.db.poll.byStudent[(s.requesting[id].phase.student, s.requesting[id].election)] == r && s'.db == s.db
  {
    Advances(run, i, id);
    RunSafe(run[..i]);
    var s := After(run[..i]);
    assert RequestKnown(s.db, s.requesting[id]);
    hide After;
    hide PollOk;
    hide TimesOk;
    hide Vetted;
  }

  /** The call comes to its second read: the same registration is found, whatever it holds by then. */
  lemma {:induction false} ComesToReread(run: seq<Action>, i: nat, j: nat, id: CallId, r: RegistrationId, t: Token)
    requires LosesClaim(run, i, id, r, t) && NextStep(run, i, j, id)
    ensures
      var s := After(run[..j]);
      && id in s.requesting && s.requesting[id].phase.Reread?
      && FindRegistration(s.db, s.requesting[id].phase.student, s.requesting[id].election) == Some(r)
  {
    LosesStep(run, i, id, r, t);
    Waits(run, i + 1, j, id);
    assert run[..j][..i + 1] == run[..i + 1];
    RunEvolves(run[..j], i + 1);
    hide After;
    hide GovEvolves;
    hide BallotsEvolve;
    hide HistoryKept;
    hide VotesKept;
    hide RollFrozen;
    hide OwnStep;
  }

  lemma RereadStep(db: Db, c: RequestCall, r: RegistrationId, uuid: Token)
    requires c.phase.Reread? && FindRegistration(db, c.phase.student, c.election) == Some(r)
    ensures
      var d := RequestStep(db, c, uuid).1;
      && (d.phase == Finished(Failed(Conflict)) <==> forall x :: !Pointer(db.poll, r, x))
      && (forall x :: d.phase == ReadWinner(x) <==> Pointer(db.poll, r, x))
  {
    if db.poll.registrations[r].activeBallotToken.Some? {
      assert Pointer(db.poll, r, db.poll.registrations[r].activeBallotToken.value);
    }
  }

  /** The claim that comes too late is not an error. The call reads its registration again, and fails there
      with a conflict exactly if the registration holds no token by then; any token that it holds is the one
      the call returns at its next step, and that is the token it lost to exactly if nothing has taken
      that token in between. */
  lemma {:induction false} LostClaimEnds(run: seq<Action>, i: nat, j: nat, id: CallId, r: RegistrationId, t: Token)
    requires LosesClaim(run, i, id, r, t) && NextStep(run, i, j, id)
    ensures
      var lost, read, p := After(run[..i + 1]), After(run[..j + 1]), After(run[..j]).db.poll;
      && id in lost.requesting && !lost.requesting[id].phase.Finished? && lost.db == After(run[..i]).db
      && id in read.requesting
      && (read.requesting[id].phase == Finished(Failed(Conflict)) <==> forall x :: !Pointer(p, r, x))
      && (forall x :: read.requesting[id].phase == ReadWinner(x) <==> Pointer(p, r, x))
      && (Pointer(p, r, t) <==> forall h: nat | i <= h < j :: !LeavesAt(run, h, r, t))
  {
    LosesStep(run, i, id, r, t);
    ComesToReread(run, i, j, id, r, t);
    Advances(run, j, id);
    HeldAtRereadIff(run, i, j, r, t);
    var s := After(run[..j]);
    RereadStep(s.db, s.requesting[id], r, run[j].uuid);
    hide *;
  }

  lemma {:induction false} HeldAtRereadIff(run: seq<Action>, i: nat, j: nat, r: RegistrationId, t: Token)
    requires i <= j <= |run| && Pointer(After(run[..i]).db.poll, r, t)
    ensures Pointer(After(run[..j]).db.poll, r, t) <==> forall h: nat | i <= h < j :: !LeavesAt(run, h, r, t)
  {
    assert run[..j][..i] == run[..i];
    StillHeldIff(run[..j], i, r, t);
    hide After;
    hide CastsNow;
    hide ClearsNow;
    forall h: nat ensures LeavesAt(run[..j], h, r, t) <==> h < j && LeavesAt(run, h, r, t) {
      if h < j { assert run[..j][..h] == run[..h]; }
    }
  }

  /** A ballot that the call looks up exists, and an answer stays. */
  lemma {:induction false} AnswersAt(run: seq<Action>, k: nat, id: CallId)
    requires OwnStep(run, k, id) && id in After(run[..k]).requesting
    requires After(run[..k]).requesting[id].phase.ReadWinner? || After(run[..k]).requesting[id].phase.Finished?
    ensures id in After(run[..k + 1]).requesting
    ensures
      var was := After(run[..k]).requesting[id].phase;
      After(run[..k + 1]).requesting[id].phase == if was.ReadWinner? then Finished(Issued(was.token)) else was
  {
    Advances(run, k, id);
    RunSafe(run[..k]);
    var s := After(run[..k]);
    assert RequestKnown(s.db, s.requesting[id]);
    hide After;
    hide PollOk;
    hide TimesOk;
    hide Vetted;
  }

  /** With the step after that the call is at its end: it returns the token that its registration held at the
      second read, which exists, and so the winner's token unless that was taken before. */
  lemma {:induction false} LoserReturnsWinner(run: seq<Action>, i: nat, j: nat, k: nat, id: CallId,
                                              r: RegistrationId, t: Token)
    requires LosesClaim(run, i, id, r, t) && NextStep(run, i, j, id) && NextStep(run, j, k, id)
    ensures
      var s, p := After(run[..k + 1]), After(run[..j]).db.poll;
      && id in s.requesting
      && (forall x :: s.requesting[id].phase == Finished(Issued(x)) <==> Pointer(p, r, x))
      && (s.requesting[id].phase == Finished(Failed(Conflict)) <==> forall x :: !Pointer(p, r, x))
      && (s.requesting[id].phase == Finished(Issued(t)) <==> forall h: nat | i <= h < j :: !LeavesAt(run, h, r, t))
  {
    LostClaimEnds(run, i, j, id, r, t);
    Waits(run, j + 1, k, id);
    HeldOrNone(After(run[..j]).db.poll, r);
    hide After;
    hide LosesClaim;
    hide LeavesAt;
    hide Pointer;
    var p, was := After(run[..j]).db.poll, After(run[..j + 1]).requesting[id].phase;
    assert was.ReadWinner? || was.Finished? by {
      if x :| Pointer(p, r, x) {
        assert was == ReadWinner(x);
      }
    }
    AnswersAt(run, k, id);
  }

  lemma HeldOrNone(p: Poll, r: RegistrationId)
    ensures (forall x :: !Pointer(p, r, x)) || exists x :: Pointer(p, r, x) && forall y | Pointer(p, r, y) :: x == y
  {
    if x :| Pointer(p, r, x) {
      assert forall y | Pointer(p, r, y) :: x == y;
    }
  }
}
