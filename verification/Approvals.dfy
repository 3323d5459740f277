/** Backend/src/modules/approvals: quorum, veto and dispatch. `castVote` is given step by step, one
    step for each database call it awaits, so that calls of several officers can interleave. */
module Approvals {
  import opened JsText
  import opened Schema
  import opened Database
  import opened Elections
  import opened Candidates

  /** `APPROVAL_QUORUM`: two for every action. */
  const QUORUM := 2

  datatype ApprovalOutcome =
    | Refused(error: Error)
    | StillPending(approveCount: nat, rejectCount: nat)
    | Resolved(approved: bool, approveCount: nat, rejectCount: nat)

  datatype ApprovalPhase =
    | Check
    | Insert
    | Tally
    | Resolve(approved: bool, approveCount: nat, rejectCount: nat)
    | Done(outcome: ApprovalOutcome)

  /** One call of `castVote` in progress. */
  datatype ApprovalCall = ApprovalCall(
    request: RequestId, officer: UserId, decision: Decision, phase: ApprovalPhase)

  /** The officers whose decision on the request is `d`; `getTally` counts them. */
  function Deciders(approvals: map<(RequestId, UserId), Decision>, q: RequestId, d: Decision): set<UserId> {
    set k | k in approvals && k.0 == q && approvals[k] == d :: k.1
  }

  /** `ACTION_RESOLVERS`: what an approved request does to its target. Errors abort the transaction. */
  function DispatchEffect(db: Db, request: Request): (Db, Result<()>) {
    match request.action
    case ElectionActivate | ElectionClose =>
      if request.electionId.None? then (db, Err(NotImplemented))
      else (ApplyApprovalDecisionEffect(db, request.electionId.value, request.action == ElectionClose, true).0, Ok(()))
    case CandidateApprove =>
      var (db', r) := ResolveCandidacyEffect(db, request.payload, true);
      (db', if r.Ok? then Ok(()) else Err(r.error))
    case ResultsPublish => (db, Err(NotImplemented))
  }

  /** The transaction of `resolveAndDispatch`. On a rejection nothing is dispatched. */
  function ResolveEffect(db: Db, q: RequestId, approved: bool): (Db, Result<()>) {
    if q !in db.gov.requests then (db, Err(NotFound))
    else
      var status := if approved then Approved else Rejected;
      var marked := WithRequest(db, q, db.gov.requests[q].(status := status));
      if !approved then (marked, Ok(()))
      else
        var (after, r) := DispatchEffect(marked, db.gov.requests[q]);
        if r.Ok? then (after, r) else (db, r)
  }

  /** One step of the call: the next database access and what the service does with its result. */
  function ApprovalStep(db: Db, c: ApprovalCall): (Db, ApprovalCall) {
    match c.phase
    case Check =>
      if c.request !in db.gov.requests || db.gov.requests[c.request].status != Pending then
        (db, c.(phase := Done(Refused(NotFound))))
      else if db.gov.requests[c.request].requestedBy == c.officer then (db, c.(phase := Done(Refused(Unauthorized))))
      else (db, c.(phase := Insert))
    case Insert =>
      if (c.request, c.officer) in db.gov.approvals then (db, c.(phase := Done(Refused(Conflict))))
      else
        (db.(gov := db.gov.(approvals := db.gov.approvals[(c.request, c.officer) := c.decision])), c.(phase := Tally))
    case Tally =>
      var approveCount := |Deciders(db.gov.approvals, c.request, Approve)|;
      var rejectCount := |Deciders(db.gov.approvals, c.request, Reject)|;
      if rejectCount >= 1 then (db, c.(phase := Resolve(false, approveCount, rejectCount)))
      else if approveCount >= QUORUM then (db, c.(phase := Resolve(true, approveCount, rejectCount)))
      else (db, c.(phase := Done(StillPending(approveCount, rejectCount))))
    case Resolve(approved, approveCount, rejectCount) =>
      var (db', r) := ResolveEffect(db, c.request, approved);
      (db', c.(phase := Done(if r.Ok? then Resolved(approved, approveCount, rejectCount) else Refused(r.error))))
    case Done(_) => (db, c)
  }

  function StepsLeft(p: ApprovalPhase): nat {
    match p
    case Check => 4
    case Insert => 3
    case Tally => 2
    case Resolve(_, _, _) => 1
    case Done(_) => 0
  }

  /** The call run to its end without interruption. */
  function RunApproval(db: Db, c: ApprovalCall): (r: (Db, ApprovalCall))
    ensures r.1.phase.Done?
    decreases StepsLeft(c.phase)
  {
    if c.phase.Done? then (db, c)
    else
      var (db', c') := ApprovalStep(db, c);
      RunApproval(db', c')
  }

  /** `castVote` as one atomic call. */
  function CastApprovalEffect(db: Db, q: RequestId, officer: UserId, d: Decision): (Db, ApprovalOutcome) {
    var (db', c) := RunApproval(db, ApprovalCall(q, officer, d, Check));
    (db', c.phase.outcome)
  }

  // ---------- the service, as the program runs it ----------

  /** `groupBy` over the rows of the request: every officer is counted once, on one side. */
  method GetTally(s: Store, q: RequestId) returns (approveCount: nat, rejectCount: nat)
    ensures approveCount == |Deciders(s.approvals, q, Approve)|
    ensures rejectCount == |Deciders(s.approvals, q, Reject)|
    ensures rejectCount >= 1 <==> exists o :: (q, o) in s.approvals && s.approvals[(q, o)] == Reject
    ensures approveCount >= 1 <==> exists o :: (q, o) in s.approvals && s.approvals[(q, o)] == Approve
  {
    approveCount, rejectCount := 0, 0;
    var rows := s.approvals.Keys;
    ghost var counted: map<(RequestId, UserId), Decision> := map[];
    while rows != {}
      invariant rows <= s.approvals.Keys && counted.Keys == s.approvals.Keys - rows
      invariant forall k | k in counted :: counted[k] == s.approvals[k]
      invariant approveCount == |Deciders(counted, q, Approve)|
      invariant rejectCount == |Deciders(counted, q, Reject)|
      decreases rows
    {
      var k :| k in rows;
      rows := rows - {k};
      CountedOneMore(counted, k, s.approvals[k], q);
      counted := counted[k := s.approvals[k]];
      if k.0 == q {
        if s.approvals[k] == Approve { approveCount := approveCount + 1; } else { rejectCount := rejectCount + 1; }
      }
    }
    assert counted == s.approvals;
    DecidedBy(s.approvals, q, Approve);
    DecidedBy(s.approvals, q, Reject);
  }

  lemma DecidedBy(approvals: map<(RequestId, UserId), Decision>, q: RequestId, d: Decision)
    ensures |Deciders(approvals, q, d)| >= 1 <==> exists o :: (q, o) in approvals && approvals[(q, o)] == d
  {
    if o :| (q, o) in approvals && approvals[(q, o)] == d {
      var k := (q, o);
      assert k.0 == q && k.1 == o && o in Deciders(approvals, q, d);
    } else {
      forall o ensures o !in Deciders(approvals, q, d) {
        Decided(approvals, q, o, d);
      }
    }
  }

  /** One more row counts its officer on its side of its request, and nobody anywhere else. */
  lemma CountedOneMore(counted: map<(RequestId, UserId), Decision>,
                       k: (RequestId, UserId), d: Decision, q: RequestId)
    requires k !in counted
    ensures forall side ::
              |Deciders(counted[k := d], q, side)| ==
              |Deciders(counted, q, side)| + if k.0 == q && side == d then 1 else 0
  {
    var after := counted[k := d];
    forall side
      ensures |Deciders(after, q, side)| == |Deciders(counted, q, side)| + if k.0 == q && side == d then 1 else 0
    {
      var more := if k.0 == q && side == d then {k.1} else {};
      forall o ensures o in Deciders(after, q, side) <==> o in Deciders(counted, q, side) + more {
        Decided(after, q, o, side);
        Decided(counted, q, o, side);
      }
      if more != {} {
        Decided(counted, q, k.1, side);
        assert k == (q, k.1);
      }
      assert Deciders(after, q, side) == Deciders(counted, q, side) + more;
    }
  }

  lemma Decided(approvals: map<(RequestId, UserId), Decision>, q: RequestId,
                officer: UserId, d: Decision)
    ensures officer in Deciders(approvals, q, d) <==> (q, officer) in approvals && approvals[(q, officer)] == d
  {
    if (q, officer) in approvals && approvals[(q, officer)] == d {
      var k := (q, officer);
      assert k in approvals && k.0 == q && approvals[k] == d;
    }
  }

  /** What a resolution does to the tables. The request gets the verdict; a rejection does nothing else, and an
      approval moves its election or its candidate on, if that still waits for it. A request that lacks what
      its action needs is an error that changes nothing. */
  lemma ResolveMeans(db: Db, q: RequestId, approved: bool)
    ensures
      var (after, r) := ResolveEffect(db, q, approved);
      && (r.Err? ==> after == db)
      && (r == Err(NotFound) <==> q !in db.gov.requests)
      && (r == Err(NotImplemented) <==>
            && q in db.gov.requests && approved
            && match db.gov.requests[q].action
               case ResultsPublish => true
               case CandidateApprove => db.gov.requests[q].payload.None?
               case _ => db.gov.requests[q].electionId.None?)
      && (r.Ok? || r == Err(NotFound) || r == Err(NotImplemented))
      && (r.Ok? ==>
            && after.gov.requests == db.gov.requests[q := db.gov.requests[q].(
                 status := if approved then Approved else Rejected)]
            && after.gov.(requests := map[], elections := map[], candidates := map[]) ==
               db.gov.(requests := map[], elections := map[], candidates := map[])
            && after.poll == db.poll && after.clock == db.clock
            && (!approved ==>
                  after.gov.elections == db.gov.elections && after.gov.candidates == db.gov.candidates
                  && after.log == db.log))
  {}

  /** An approved request schedules its election if that awaits approval, and closes it if it is active. */
  lemma ApprovedElections(db: Db, q: RequestId, e: ElectionId)
    requires ResolveEffect(db, q, true).1.Ok?
    ensures
      var elections, x := ResolveEffect(db, q, true).0.gov.elections, db.gov.requests[q];
      && (e in elections <==> e in db.gov.elections)
      && (e in db.gov.elections ==>
            elections[e] == db.gov.elections[e].(status :=
              var was := db.gov.elections[e].status;
              if x.action == ElectionActivate && x.electionId == Some(e) && was == PendingApproval then Scheduled
              else if x.action == ElectionClose && x.electionId == Some(e) && was == Active then Closed
              else was))
  {}

  /** An approved request approves its candidate if that is pending. */
  lemma ApprovedCandidates(db: Db, q: RequestId, c: CandidateId)
    requires ResolveEffect(db, q, true).1.Ok?
    ensures
      var candidates, x := ResolveEffect(db, q, true).0.gov.candidates, db.gov.requests[q];
      && (c in candidates <==> c in db.gov.candidates)
      && (c in db.gov.candidates ==>
            candidates[c] == db.gov.candidates[c].(status :=
              var was := db.gov.candidates[c].status;
              if x.action == CandidateApprove && x.payload == Some(c) && was == CandidatePending then CandidateApproved
              else was))
  {}

  /** The transaction: a thrown error restores every table it wrote. */
  method ResolveAndDispatch(s: Store, q: RequestId, approved: bool) returns (r: Result<()>)
    modifies s`requests, s`elections, s`candidates, s`log
    ensures (s.View(), r) == ResolveEffect(old(s.View()), q, approved)
    ensures r.Err? ==> s.View() == old(s.View())
    ensures r == Err(NotFound) <==> q !in old(s.requests)
    ensures !approved ==> s.elections == old(s.elections) && s.candidates == old(s.candidates) && s.log == old(s.log)
    ensures r.Ok? ==>
              s.requests == old(s.requests)[q := old(s.requests)[q].(status := if approved then Approved else Rejected)]
  {
    ResolveMeans(s.View(), q, approved);
    if q !in s.requests { return Err(NotFound); }
    var requests := s.requests;
    var request := s.requests[q];
    s.requests := s.requests[q := request.(status := if approved then Approved else Rejected)];
    if !approved { return Ok(()); }
    match request.action {
      case ElectionActivate | ElectionClose =>
        if request.electionId.None? {
          s.requests := requests;
          return Err(NotImplemented);
        }
        var outcome := ApplyApprovalDecision(s, request.electionId.value, request.action == ElectionClose, true);
        return Ok(());
      case CandidateApprove =>
        var outcome := ResolveCandidacy(s, request.payload, true);
        if outcome.Err? {
          s.requests := requests;
          return Err(outcome.error);
        }
        return Ok(());
      case ResultsPublish =>
        s.requests := requests;
        return Err(NotImplemented);
    }
  }

  /** The call run from one step to the next. */
  lemma {:induction false} RunOneStep(db: Db, c: ApprovalCall)
    ensures RunApproval(db, c) == RunApproval(ApprovalStep(db, c).0, ApprovalStep(db, c).1)
    ensures c.phase.Done? ==> RunApproval(db, c) == (db, c)
  {}

  /** What the answer to a vote says, on any tables. A vote on a request that is missing or decided, by the
      requester, or by an officer who has voted, is refused with that error and changes nothing. Any other is
      entered, and answered with the numbers of officers on either side. With neither a rejection nor two
      approvals the request stays pending; otherwise it gets the verdict that the answer names, unless the
      dispatch fails. */
  lemma CastApprovalAnswers(db: Db, q: RequestId, officer: UserId, d: Decision)
    ensures
      var (after, r) := CastApprovalEffect(db, q, officer, d);
      var approvals := db.gov.approvals[(q, officer) := d];
      var m, n := |Deciders(approvals, q, Approve)|, |Deciders(approvals, q, Reject)|;
      if q !in db.gov.requests || db.gov.requests[q].status != Pending then after == db && r == Refused(NotFound)
      else if db.gov.requests[q].requestedBy == officer then after == db && r == Refused(Unauthorized)
      else if (q, officer) in db.gov.approvals then after == db && r == Refused(Conflict)
      else
        && after.gov.approvals == approvals
        && (r.StillPending? <==> n == 0 && m < 2)
        && (r.StillPending? ==> r == StillPending(m, n) && after.gov.requests == db.gov.requests)
        && (r.Resolved? ==>
              && r == Resolved(n == 0, m, n)
              && after.gov.requests == db.gov.requests[q := db.gov.requests[q].(
                   status := if r.approved then Approved else Rejected)])
        && (r.Refused? ==> n == 0 && r.error == NotImplemented && after.gov.requests == db.gov.requests)
  {
    hide ResolveEffect;
    hide RunApproval;
    hide Deciders;
    var c := ApprovalCall(q, officer, d, Check);
    RunOneStep(db, c);
    var (db1, c1) := ApprovalStep(db, c);
    RunOneStep(db1, c1);
    if c1.phase.Insert? {
      var (db2, c2) := ApprovalStep(db1, c1);
      RunOneStep(db2, c2);
      if c2.phase.Tally? {
        var (db3, c3) := ApprovalStep(db2, c2);
        RunOneStep(db3, c3);
        var (db4, c4) := ApprovalStep(db3, c3);
        RunOneStep(db4, c4);
        ResolveMeans(db2, q, true);
        ResolveMeans(db2, q, false);
      }
    }
  }

  method CastApproval(s: Store, q: RequestId, officer: UserId, d: Decision) returns (r: ApprovalOutcome)
    modifies s`approvals, s`requests, s`elections, s`candidates, s`log
    ensures (s.View(), r) == CastApprovalEffect(old(s.View()), q, officer, d)
    ensures r == Refused(NotFound) <==> q !in old(s.requests) || old(s.requests)[q].status != Pending
    ensures r == Refused(Unauthorized) <==>
              q in old(s.requests) && old(s.requests)[q].status == Pending && old(s.requests)[q].requestedBy == officer
    ensures r == Refused(Conflict) <==>
              && q in old(s.requests) && old(s.requests)[q].status == Pending
              && old(s.requests)[q].requestedBy != officer && (q, officer) in old(s.approvals)
    ensures r == Refused(NotFound) || r == Refused(Unauthorized) || r == Refused(Conflict) ==>
              s.View() == old(s.View())
    ensures !r.Refused? ==>
              && s.approvals == old(s.approvals)[(q, officer) := d]
              && r.approveCount == |Deciders(s.approvals, q, Approve)|
              && r.rejectCount == |Deciders(s.approvals, q, Reject)|
    ensures r.StillPending? ==> r.rejectCount == 0 && r.approveCount < 2 && s.requests == old(s.requests)
    ensures r.Resolved? ==>
              && (r.approved <==> r.rejectCount == 0) && (r.approved ==> r.approveCount >= 2)
              && s.requests == old(s.requests)[q := old(s.requests)[q].(
                   status := if r.approved then Approved else Rejected)]
  {
    CastApprovalAnswers(s.View(), q, officer, d);
    hide RunApproval;
    hide ResolveEffect;
    hide Deciders;
    ghost var call := ApprovalCall(q, officer, d, Check);
    ghost var was := s.View();
    RunOneStep(was, call);
    RunOneStep(was, call.(phase := Done(Refused(NotFound))));
    RunOneStep(was, call.(phase := Done(Refused(Unauthorized))));
    RunOneStep(was, call.(phase := Done(Refused(Conflict))));
    if q !in s.requests || s.requests[q].status != Pending { return Refused(NotFound); }
    if s.requests[q].requestedBy == officer { return Refused(Unauthorized); }
    RunOneStep(was, call.(phase := Insert));
    if (q, officer) in s.approvals { return Refused(Conflict); }
    s.approvals := s.approvals[(q, officer) := d];
    RunOneStep(s.View(), call.(phase := Tally));
    var approveCount, rejectCount := GetTally(s, q);
    r := StillPending(approveCount, rejectCount);
    if rejectCount >= 1 {
      r := ResolveCall(s, q, call, false, approveCount, rejectCount);
    } else if approveCount >= QUORUM {
      r := ResolveCall(s, q, call, true, approveCount, rejectCount);
    } else {
      RunOneStep(s.View(), call.(phase := Done(r)));
    }
  }

  /** The last step of the call. */
  method ResolveCall(s: Store, q: RequestId, ghost call: ApprovalCall, approved: bool,
                     approveCount: nat, rejectCount: nat)
      returns (r: ApprovalOutcome)
    requires call.request == q
    modifies s`requests, s`elections, s`candidates, s`log
    ensures
      RunApproval(old(s.View()), call.(phase := Resolve(approved, approveCount, rejectCount))) ==
        (s.View(), call.(phase := Done(r)))
  {
    RunOneStep(s.View(), call.(phase := Resolve(approved, approveCount, rejectCount)));
    var resolved := ResolveAndDispatch(s, q, approved);
    r := if resolved.Ok? then Resolved(approved, approveCount, rejectCount) else Refused(resolved.error);
    RunOneStep(s.View(), call.(phase := Done(r)));
  }
}
