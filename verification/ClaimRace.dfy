/** What makes a claimed ballot stale: a vote for the same registration between the eligibility read
    and the claim of one request. */
module ClaimRace {
  import opened Schema
  import Verification
  import Approvals
  import opened Ballots
  import opened Voting
  import opened System
  import opened Moves
  import opened Evolution
  import opened BallotSafety
  import opened OneVote

  /** The request has passed its eligibility check and has not claimed yet. */
  predicate Past(p: RequestPhase) {
    p.CheckWindow? || p.ReadPointer? || p.ReadBallot? || p.Clear? || p.Claim?
  }

  /** Step `i` is the eligibility read of call `id`, which finds `student` eligible. */
  ghost predicate ReadsEligible(run: seq<Action>, i: nat, id: CallId, student: StudentId, e: ElectionId) {
    && i < |run| && run[i].AdvanceRequest? && run[i].id == id
    && var s := After(run[..i]);
       && id in s.requesting && s.requesting[id].phase == CheckEligibility(student) && s.requesting[id].election == e
       && Verification.IsEligible(s.db, student, e) == Verification.Eligible
  }

  /** Step `k` casts a vote with a ballot of registration `r`. */
  ghost predicate CastsFor(run: seq<Action>, k: nat, r: RegistrationId) {
    && k < |run| && run[k].Do? && run[k].command.CastVote?
    && var t := run[k].command.token;
       t !in UsedBallots(After(run[..k]).db.poll, r) && t in UsedBallots(After(run[..k + 1]).db.poll, r)
  }

  /** Step `j` is call `id` claiming the new token `t`. */
  ghost predicate Claims(run: seq<Action>, j: nat, id: CallId, t: Token) {
    && j < |run| && run[j] == AdvanceRequest(id, t)
    && t !in After(run[..j]).db.poll.ballots && t in After(run[..j + 1]).db.poll.ballots
  }

  lemma PastFrom(db: Db, c: RequestCall, token: Token)
    requires Past(RequestStep(db, c, token).1.phase)
    ensures
      var c' := RequestStep(db, c, token).1;
      && c'.election == c.election
      && ((Past(c.phase) && c'.phase.student == c.phase.student) ||
          (c.phase == CheckEligibility(c'.phase.student) &&
           Verification.IsEligible(db, c.phase.student, c.election) == Verification.Eligible))
  {}

  /** A request past its check has made it at some earlier step of the run. */
  lemma {:induction false} EligibilityRead(run: seq<Action>, id: CallId) returns (i: nat)
    requires id in After(run).requesting && Past(After(run).requesting[id].phase)
    ensures
      var c := After(run).requesting[id];
      ReadsEligible(run, i, id, c.phase.student, c.election)
    decreases |run|
  {
    Prefixes(run);
    var shorter, a := run[..|run| - 1], run[|run| - 1];
    var s := After(shorter);
    var c := After(run).requesting[id];
    hide After;
    hide RequestStep;
    hide Approvals.ApprovalStep;
    hide Execute;
    if a.AdvanceRequest? && a.id == id {
      PastFrom(s.db, s.requesting[id], a.uuid);
      if !Past(s.requesting[id].phase) {
        assert run[..|shorter|] == shorter;
        return |shorter|;
      }
    }
    i := EligibilityRead(shorter, id);
  }

  lemma CastMarks(db: Db, m: PollMove, r: RegistrationId)
    requires PollEnabled(db, m) && PollOk(db.poll) && r in db.poll.registrations
    requires !Participated(db.poll, r) && Participated(PollAfter(db.poll, db.clock, m), r)
    ensures m.Votes? && m.token !in UsedBallots(db.poll, r)
    ensures m.token in UsedBallots(PollAfter(db.poll, db.clock, m), r)
  {
    FirstVoteMoves(db, m, r, m.token);
  }

  /** A registration becomes a participant by a vote. */
  lemma {:induction false} FindCast(run: seq<Action>, i: nat, r: RegistrationId) returns (k: nat)
    requires i <= |run| && r in After(run[..i]).db.poll.registrations
    requires !Participated(After(run[..i]).db.poll, r) && Participated(After(run).db.poll, r)
    ensures i <= k && CastsFor(run, k, r)
    decreases |run|
  {
    assert run[..|run|] == run;
    assert i < |run|;
    Prefixes(run);
    var shorter := run[..|run| - 1];
    hide After;
    hide Step;
    if Participated(After(shorter).db.poll, r) {
      k := FindCast(shorter, i, r);
      assert shorter[..k + 1] == run[..k + 1];
    } else {
      RunEvolves(shorter, i);
      LastStepCasts(run, r);
      k := |shorter|;
    }
  }

  lemma {:induction false} LastStepCasts(run: seq<Action>, r: RegistrationId)
    requires run != []
    requires r in After(run[..|run| - 1]).db.poll.registrations
    requires !Participated(After(run[..|run| - 1]).db.poll, r) && Participated(After(run).db.poll, r)
    ensures CastsFor(run, |run| - 1, r)
  {
    Prefixes(run);
    var shorter := run[..|run| - 1];
    RunSafe(shorter);
    var dt, g, m := StepMove(After(shorter), run[|run| - 1]);
    hide After;
    hide Step;
    hide GovAfter;
    hide PollAfter;
    hide PollEnabled;
    hide GovEnabled;
    hide Reports;
    CastMarks(After(shorter).db, m, r);
    assert run[..|run| - 1 + 1] == run;
  }

  /** Every ballot was claimed at some step of the run. */
  lemma {:induction false} FindClaim(run: seq<Action>, t: Token) returns (j: nat, id: CallId)
    requires t in After(run).db.poll.ballots
    ensures Claims(run, j, id, t)
    decreases |run|
  {
    assert run != [];
    Prefixes(run);
    var shorter := run[..|run| - 1];
    var dt, g, m := StepMove(After(shorter), run[|run| - 1]);
    hide After;
    hide Step;
    if t in After(shorter).db.poll.ballots {
      j, id := FindClaim(shorter, t);
      assert shorter[..j + 1] == run[..j + 1];
    } else {
      j, id := |shorter|, run[|run| - 1].id;
      assert run[..j] == shorter && run[..j + 1] == run;
    }
  }

  // ---------- the claim ----------

  /** A vote was cast for the registration between the eligibility read and the claim. */
  ghost predicate Raced(run: seq<Action>, j: nat, id: CallId, r: RegistrationId) {
    exists i: nat, k: nat, student, e :: i < k < j && ReadsEligible(run, i, id, student, e) && CastsFor(run, k, r)
  }

  /** The claim step: whose ballot it is, and whether it is stale. */
  lemma {:induction false} ClaimStep(run: seq<Action>, j: nat, id: CallId, t: Token) returns (r: RegistrationId)
    requires Claims(run, j, id, t)
    ensures
      var p, q := After(run[..j]).db.poll, After(run[..j + 1]).db.poll;
      && t in q.owner && q.owner[t] == r && r in p.registrations && (t in q.stale <==> Participated(p, r))
      && id in After(run[..j]).requesting
      && var c := After(run[..j]).requesting[id];
         c.phase.Claim? && (c.phase.student, c.election) in p.byStudent
           && p.byStudent[(c.phase.student, c.election)] == r
  {
    var upTo := run[..j + 1];
    Prefixes(upTo);
    assert upTo[..j] == run[..j];
    RunSafe(run[..j]);
    var s := After(run[..j]);
    var dt, g, m := StepMove(s, run[j]);
    hide After;
    hide Step;
    r := m.r;
    assert RequestKnown(s.db, s.requesting[id]);
  }

  lemma {:induction false} CastParticipates(run: seq<Action>, k: nat, r: RegistrationId, j: nat)
    requires k < j <= |run| && CastsFor(run, k, r)
    ensures Participated(After(run[..j]).db.poll, r)
  {
    RunSafe(run[..k + 1]);
    RunEvolves(run[..j], k + 1);
    assert run[..j][..k + 1] == run[..k + 1];
    hide After;
    var p := After(run[..k + 1]).db.poll;
    var t := run[k].command.token;
    assert p.owner[t] == r && Participated(p, p.owner[t]);
  }

  lemma {:induction false} StaleIsRaced(run: seq<Action>, j: nat, id: CallId, t: Token, r: RegistrationId)
    requires Claims(run, j, id, t) && r == ClaimedBy(run, j, t) && Participated(After(run[..j]).db.poll, r)
    ensures Raced(run, j, id, r)
  {
    var r' := ClaimStep(run, j, id, t);
    var before := run[..j];
    var i := EligibilityRead(before, id);
    var c := After(before).requesting[id];
    RunEvolves(before, i);
    hide After;
    assert before[..i] == run[..i];
    assert ReadsEligible(run, i, id, c.phase.student, c.election);
    var k := FindCast(before, i, r);
    assert before[..k] == run[..k] && before[..k + 1] == run[..k + 1];
    assert CastsFor(run, k, r);
  }

  ghost function ClaimedBy(run: seq<Action>, j: nat, t: Token): RegistrationId
    requires j < |run|
  {
    var p := After(run[..j + 1]).db.poll;
    if t in p.owner then p.owner[t] else 0
  }

  /** A ballot is stale exactly when a vote was cast for its registration between the eligibility
      read and the claim of the request that issued it. */
  lemma {:induction false} StaleIffRaced(run: seq<Action>, j: nat, id: CallId, t: Token)
    requires Claims(run, j, id, t)
    ensures
      var p := After(run).db.poll;
      && t in p.ballots && t in p.owner
      && (t in p.stale <==> Raced(run, j, id, p.owner[t]))
  {
    var r := ClaimStep(run, j, id, t);
    RunEvolves(run, j + 1);
    if Participated(After(run[..j]).db.poll, r) {
      StaleIsRaced(run, j, id, t, r);
    }
    if Raced(run, j, id, r) {
      var i: nat, k: nat, student, e :| i < k < j && ReadsEligible(run, i, id, student, e) && CastsFor(run, k, r);
      CastParticipates(run, k, r, j);
    }
  }

  /** The claim of a ballot that stands in the final state, with what makes it stale. */
  lemma {:induction false} ClaimOf(run: seq<Action>, t: Token) returns (j: nat, id: CallId)
    requires t in After(run).db.poll.ballots
    ensures
      var p := After(run).db.poll;
      && t in p.owner && Claims(run, j, id, t) && ClaimedBy(run, j, t) == p.owner[t]
      && (t in p.stale <==> Raced(run, j, id, p.owner[t]))
  {
    j, id := FindClaim(run, t);
    StaleIffRaced(run, j, id, t);
    RunEvolves(run, j + 1);
    var r := ClaimStep(run, j, id, t);
    hide After;
    hide Raced;
    hide GovEvolves;
    hide RollFrozen;
  }

  /** One registration, one vote: exactly in the runs where no ballot that the registration used was
      claimed by a request that one of its votes had overtaken. */
  lemma {:induction false} OneVoteIffNotRaced(run: seq<Action>, r: RegistrationId)
    ensures
      |UsedBallots(After(run).db.poll, r)| <= 1 <==>
        (forall j: nat, id, t | Claims(run, j, id, t) && t in UsedBallots(After(run).db.poll, r) ::
           !Raced(run, j, id, r))
  {
    var p := After(run).db.poll;
    OneVoteIff(run, r);
    hide After;
    hide Raced;
    hide Claims;
    forall j: nat, id, t | Claims(run, j, id, t) && t in UsedBallots(p, r)
      ensures t in p.stale <==> Raced(run, j, id, r)
    {
      StaleIffRaced(run, j, id, t);
    }
    forall t | t in UsedBallots(p, r)
      ensures exists j: nat, id :: Claims(run, j, id, t)
    {
      var j, id := ClaimOf(run, t);
    }
    assert forall t :: t in StaleVotes(p, r) <==> t in UsedBallots(p, r) && t in p.stale;
  }

  /** A registration that holds a token has not voted, unless its request was overtaken. */
  lemma {:induction false} HolderHasNotVoted(run: seq<Action>, r: RegistrationId, t: Token)
    requires Holds(After(run).db, r, t)
    ensures exists j: nat, id ::
              Claims(run, j, id, t) && (Participated(After(run).db.poll, r) <==> Raced(run, j, id, r))
  {
    RunSafe(run);
    var p := After(run).db.poll;
    assert Pointer(p, r, t);
    var j, id := ClaimOf(run, t);
    hide After;
    hide Raced;
    hide Claims;
  }
}
