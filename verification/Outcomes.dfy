/** What the answer to an approval vote says about the request, in every interleaving of votes. */
module Outcomes {
  import opened Schema
  import opened Approvals
  import opened System
  import opened Quorum
  import opened Verdicts

  /** The numbers of different officers on either side of the request. */
  ghost predicate Counted(db: Db, q: RequestId, m: nat, n: nat) {
    m == |Deciders(db.gov.approvals, q, Approve)| && n == |Deciders(db.gov.approvals, q, Reject)|
  }

  /** Step `k` is the step at which the call tallies the votes, and it counts `m` approvals and `n`
      rejections. */
  ghost predicate TalliedAt(run: seq<Action>, k: nat, id: CallId, m: nat, n: nat) {
    && k < |run| && run[k] == AdvanceApproval(id)
    && var s := After(run[..k]);
       id in s.approving && s.approving[id].phase.Tally? && Counted(s.db, s.approving[id].request, m, n)
  }

  /** A vote on a reachable database that nothing interrupts: its answer is the verdict that the request then
      has, with the numbers of officers on either side, and it is refused for one of three reasons. */
  lemma {:induction false} VoteAnswers(run: seq<Action>, q: RequestId, officer: UserId, d: Decision)
    ensures
      var db := After(run).db;
      var (after, r) := CastApprovalEffect(db, q, officer, d);
      && (r == Refused(NotFound) <==> q !in db.gov.requests || db.gov.requests[q].status != Pending)
      && (r == Refused(Unauthorized) <==>
            q in db.gov.requests && db.gov.requests[q].status == Pending && db.gov.requests[q].requestedBy == officer)
      && (r == Refused(Conflict) <==>
            && q in db.gov.requests && db.gov.requests[q].status == Pending
            && db.gov.requests[q].requestedBy != officer && (q, officer) in db.gov.approvals)
      && (r.Refused? ==>
            after == db && (r == Refused(NotFound) || r == Refused(Unauthorized) || r == Refused(Conflict)))
      && (!r.Refused? ==>
            && q in after.gov.requests && Counted(after, q, r.approveCount, r.rejectCount)
            && (after.gov.requests[q].status == Pending <==> r.StillPending?)
            && (after.gov.requests[q].status == Approved <==> r.Resolved? && r.approved)
            && (after.gov.requests[q].status == Rejected <==> r.Resolved? && !r.approved)
            && (r.StillPending? <==> r.rejectCount == 0 && r.approveCount < 2)
            && (r.Resolved? && r.approved <==> r.rejectCount == 0 && r.approveCount >= 2))
  {
    RunGoverned(run);
    var db := After(run).db;
    CastApprovalAnswers(db, q, officer, d);
    if q in db.gov.requests {
      assert RequestOk(db.gov, q);
    }
    hide After;
    VoteIsNoError(db, q, officer, d);
    hide CastApprovalEffect;
    hide Deciders;
    hide GovOk;
    hide ApprovalsInProgressOk;
    hide RequestOk;
  }

  lemma VoteIsNoError(db: Db, q: RequestId, officer: UserId, d: Decision)
    requires q in db.gov.requests ==> RequestOk(db.gov, q)
    ensures CastApprovalEffect(db, q, officer, d).1 != Refused(NotImplemented)
  {
    hide ResolveEffect;
    hide RunApproval;
    hide Deciders;
    var c := ApprovalCall(q, officer, d, Check);
    RunOneStep(db, c);
    var (db1, c1) := ApprovalStep(db, c);
    RunOneStep(db1, c1);
    if c1.phase.Insert? {
      var (db2, c2) := ApprovalStep(db1, c1);
      RunOneStep(db2, c2);
      if c2.phase.Tally? {
        var (db3, c3) := ApprovalStep(db2, c2);
        RunOneStep(db3, c3);
        var (db4, c4) := ApprovalStep(db3, c3);
        RunOneStep(db4, c4);
        assert RequestOk(db2.gov, q) by { assert db2.gov == db.gov.(approvals := db2.gov.approvals); }
        DispatchNeverFails(db2, q, true);
        DispatchNeverFails(db2, q, false);
      }
    }
  }

  /** A call that is about to resolve has tallied: it carries what it counted, and the verdict of that. */
  lemma {:induction false} TalliedBefore(run: seq<Action>, id: CallId) returns (k: nat)
    requires id in After(run).approving && After(run).approving[id].phase.Resolve?
    ensures
      var c := After(run).approving[id];
      && TalliedAt(run, k, id, c.phase.approveCount, c.phase.rejectCount)
      && After(run[..k]).approving[id].request == c.request
      && (c.phase.approved <==> c.phase.rejectCount == 0) && (c.phase.approved ==> c.phase.approveCount >= 2)
    decreases |run|
  {
    Prefixes(run);
    var shorter, a := run[..|run| - 1], run[|run| - 1];
    hide After;
    hide Deciders;
    assert run[..|shorter|] == shorter;
    if a == AdvanceApproval(id) && id in After(shorter).approving && After(shorter).approving[id].phase.Tally? {
      k := |shorter|;
      TallyStep(After(shorter).db, After(shorter).approving[id]);
    } else {
      SameVote(After(shorter), a, id);
      hide Step;
      k := TalliedBefore(shorter, id);
      assert shorter[..k] == run[..k];
    }
  }

  lemma TallyStep(db: Db, c: ApprovalCall)
    requires c.phase.Tally?
    ensures
      var (db', c') := ApprovalStep(db, c);
      && db' == db && c'.request == c.request
      && (c'.phase.Resolve? ==>
            && Counted(db, c.request, c'.phase.approveCount, c'.phase.rejectCount)
            && (c'.phase.approved <==> c'.phase.rejectCount == 0)
            && (c'.phase.approved ==> c'.phase.approveCount >= 2))
      && (!c'.phase.Resolve? ==>
            exists m: nat, n: nat :: Counted(db, c.request, m, n) && n == 0 && m < 2
                                     && c'.phase == Done(StillPending(m, n)))
  {
    var m, n := |Deciders(db.gov.approvals, c.request, Approve)|, |Deciders(db.gov.approvals, c.request, Reject)|;
    assert Counted(db, c.request, m, n);
    hide Deciders;
  }

  lemma SameVote(s: Sevs, a: Action, id: CallId)
    requires id in Step(s, a).approving && Step(s, a).approving[id].phase.Resolve?
    requires !(a == AdvanceApproval(id) && id in s.approving && s.approving[id].phase.Tally?)
    ensures id in s.approving && s.approving[id] == Step(s, a).approving[id]
  {
    hide Execute;
    hide ResolveEffect;
    hide Deciders;
  }

  /** The next step of a vote in progress, if the call ends there: refused for what that step has found;
      still pending by the officers counted at that moment, with nothing changed; or resolved, and then the
      request has the very verdict that the answer names, with the numbers that the call's own tally counted
      and that this verdict follows from. */
  lemma {:induction false} LastStepAnswers(run: seq<Action>, id: CallId) returns (k: nat)
    requires id in After(run).approving && !After(run).approving[id].phase.Done?
    ensures
      var s, s' := After(run), Step(After(run), AdvanceApproval(id));
      var c, g, q := s.approving[id], s.db.gov, s.approving[id].request;
      && id in s'.approving
      && var p := s'.approving[id].phase;
         && (p == Done(Refused(NotFound)) <==>
               c.phase.Check? && (q !in g.requests || g.requests[q].status != Pending))
         && (p == Done(Refused(Unauthorized)) <==>
               && c.phase.Check? && q in g.requests && g.requests[q].status == Pending
               && g.requests[q].requestedBy == c.officer)
         && (p == Done(Refused(Conflict)) <==> c.phase.Insert? && (q, c.officer) in g.approvals)
         && (p.Done? && !p.outcome.Resolved? ==>
               && s'.db == s.db
               && (p.outcome.Refused? ==> p.outcome.error in {NotFound, Unauthorized, Conflict})
               && (p.outcome.StillPending? ==> Counted(s.db, q, p.outcome.approveCount, p.outcome.rejectCount)))
         && (p.Done? && p.outcome.StillPending? <==>
               c.phase.Tally? && exists m: nat :: m < 2 && Counted(s.db, q, m, 0))
         && (p.Done? && p.outcome.Resolved? <==> c.phase.Resolve?)
         && (c.phase.Resolve? ==>
               && TalliedAt(run, k, id, p.outcome.approveCount, p.outcome.rejectCount)
               && (p.outcome.approved <==> p.outcome.rejectCount == 0)
               && (p.outcome.approved ==> p.outcome.approveCount >= 2)
               && StatusOf(s', q) == if p.outcome.approved then Approved else Rejected)
  {
    k := 0;
    var s, a := After(run), AdvanceApproval(id);
    var c := s.approving[id];
    if c.phase.Resolve? {
      k := TalliedBefore(run, id);
      RunGoverned(run);
      ResolutionNeverFails(run, id);
      ResolvingStep(s, a, c.request, c.phase.approved);
    } else if c.phase.Tally? {
      TallyStep(s.db, c);
    }
    hide After;
    hide TalliedAt;
    hide Governed;
    hide Execute;
    hide Deciders;
    hide ResolveEffect;
  }
}
