/** Approvals and the audit log when the services on elections and registrations check in one step and
    write in another. */
module WideQuorum {
  import opened JsText
  import opened Schema
  import Elections
  import opened Approvals
  import opened System
  import opened Moves
  import opened Evolution
  import opened Quorum
  import opened BallotBox
  import opened RowCalls
  import opened SplitCalls
  import opened WideSafety

  // ---------- two officers behind every effect ----------

  /** What a call on the status of an election has established: the election, and for an activation the two
      officers behind it. */
  ghost predicate StatusCallOk(g: Gov, c: StatusCall) {
    && (c.phase.CreateRequest? || c.phase.WriteStatus? ==> c.e in g.elections)
    && (c.phase.CreateRequest? ==> c.t != Elections.Activate)
    && (c.phase.WriteStatus? ==>
        c.t != Elections.Close && (c.t == Elections.Activate ==> ApprovedElection(g, ElectionActivate, c.e)))
  }

  ghost predicate WideGovernedState(s: Wide) {
    Governed(s.sevs) && forall id | id in s.calls :: StatusCallOk(s.sevs.db.gov, s.calls[id])
  }

  /** What a step may do to elections, requests and votes without taking approvals away. */
  ghost predicate ApprovalsStay(a: Gov, b: Gov) {
    && RequestsKept(a, b) && ApprovalsKept(a, b) && CandidatesKept(a, b) && StudentsKept(a, b)
    && forall e | e in a.elections :: e in b.elections
  }

  lemma StatusCallStable(a: Gov, b: Gov, c: StatusCall)
    requires ApprovalsStay(a, b) && StatusCallOk(a, c)
    ensures StatusCallOk(b, c)
  {
    if c.phase.WriteStatus? && c.t == Elections.Activate {
      ApprovedElectionStable(a, b, ElectionActivate, c.e);
    }
  }

  lemma StatusCallAdvances(db: Db, c: StatusCall)
    requires GovOk(db.gov) && StatusCallOk(db.gov, c)
    ensures StatusCallOk(StatusStep(db, c).0.gov, StatusStep(db, c).1)
  {
    hide ApprovedElection;
    if c.phase.CheckStatus? && c.t == Elections.Activate && c.e in db.gov.elections {
      assert ElectionOk(db.gov, c.e);
    }
  }

  /** A split step adds open requests and changes statuses of elections; nothing else concerns approvals. */
  lemma RowSpares(db: Db, c: RowCall)
    ensures
      var g, g' := db.gov, RowStep(db, c).0.gov;
      && g'.requests == g.requests && g'.approvals == g.approvals && g'.candidates == g.candidates
      && g'.students == g.students && g'.elections.Keys == g.elections.Keys
      && forall e | e in g.elections :: g'.elections[e].status == g.elections[e].status
  {
    if c.phase.WriteRow? {
      WriteSpares(db, c.op, c.phase.student);
    }
    hide RowWrite;
    hide RowError;
  }

  lemma WriteSpares(db: Db, op: RowOp, student: StudentId)
    ensures
      var g, g' := db.gov, RowWrite(db, op, student).0.gov;
      && g'.requests == g.requests && g'.approvals == g.approvals && g'.candidates == g.candidates
      && g'.students == g.students && g'.elections.Keys == g.elections.Keys
      && forall e | e in g.elections :: g'.elections[e].status == g.elections[e].status
  {
    hide Referred;
  }

  lemma RowKeepsGov(db: Db, c: RowCall)
    requires GovOk(db.gov)
    ensures GovOk(RowStep(db, c).0.gov) && ApprovalsStay(db.gov, RowStep(db, c).0.gov)
  {
    var g, g' := db.gov, RowStep(db, c).0.gov;
    RowSpares(db, c);
    hide RowStep;
    forall e | e in g'.elections ensures ElectionOk(g', e) {
      assert ElectionOk(g, e);
      SameApprovals(g, g', e);
      hide ApprovedElection;
    }
    forall q | q in g'.requests ensures Quorum.RequestOk(g', q) {
      assert Quorum.RequestOk(g, q);
    }
    forall k | k in g'.approvals ensures ApprovalOk(g', k) {
      assert ApprovalOk(g, k);
    }
    forall c | c in g'.candidates ensures CandidateOk(g', c) {
      assert CandidateOk(g, c);
      if ApprovedCandidate(g, c) { CandidateStays(g, g', c); }
      hide ApprovedCandidate;
    }
  }

  lemma SameApprovals(a: Gov, b: Gov, e: ElectionId)
    requires ApprovalsStay(a, b)
    ensures forall action | ApprovedElection(a, action, e) :: ApprovedElection(b, action, e)
  {
    forall action | ApprovedElection(a, action, e) ensures ApprovedElection(b, action, e) {
      ApprovedElectionStable(a, b, action, e);
    }
  }

  lemma CandidateStays(a: Gov, b: Gov, c: CandidateId)
    requires ApprovalsStay(a, b) && ApprovedCandidate(a, c)
    ensures ApprovedCandidate(b, c)
  {
    var q :| RequestFor(a, q, c) && ApprovedByTwo(a, q);
    RequestForStable(a, b, q, c);
    ApprovedByTwoStable(a, b, q);
  }

  lemma StatusStays(db: Db, c: StatusCall)
    ensures ApprovalsStay(db.gov, StatusStep(db, c).0.gov)
  {
    StatusSpares(db, c);
    hide RequestsKept;
  }

  /** What a call on a status writes: a status of its own election, or an open request for it. */
  lemma StatusWrites(db: Db, c: StatusCall)
    ensures
      var g, g' := db.gov, StatusStep(db, c).0.gov;
      && forall e | e in g'.elections ::
           && e in g.elections
           && (g'.elections[e].status != g.elections[e].status ==>
                 c.phase.WriteStatus? && e == c.e && g'.elections[e].status == Target(c.t))
  {
    hide Elections.TransitionError;
  }

  lemma StatusRequests(db: Db, c: StatusCall)
    ensures
      var g, g' := db.gov, StatusStep(db, c).0.gov;
      && g'.approvals == g.approvals && g'.candidates == g.candidates && g'.students == g.students
      && forall q | q in g'.requests ::
           || (q in g.requests && g'.requests[q] == g.requests[q])
           || (q !in g.requests && c.phase.CreateRequest? && g'.requests[q].electionId == Some(c.e)
               && g'.requests[q].action in {ElectionActivate, ElectionClose})
  {
    hide Elections.TransitionError;
  }

  lemma StatusKeepsGov(db: Db, c: StatusCall)
    requires GovOk(db.gov) && StatusCallOk(db.gov, c)
    ensures GovOk(StatusStep(db, c).0.gov)
  {
    var g, g' := db.gov, StatusStep(db, c).0.gov;
    StatusStays(db, c);
    StatusWrites(db, c);
    StatusRequests(db, c);
    hide StatusStep;
    forall e | e in g'.elections ensures ElectionOk(g', e) {
      assert ElectionOk(g, e);
      SameApprovals(g, g', e);
      hide ApprovedElection;
    }
    forall q | q in g'.requests ensures Quorum.RequestOk(g', q) {
      RequestStays(g, g', q);
    }
    forall k | k in g'.approvals ensures ApprovalOk(g', k) {
      ApprovalStays(g, g', k);
    }
    forall c | c in g'.candidates ensures CandidateOk(g', c) {
      assert CandidateOk(g, c);
      if ApprovedCandidate(g, c) { CandidateStays(g, g', c); }
      hide ApprovedCandidate;
    }
  }

  lemma RequestStays(a: Gov, b: Gov, q: RequestId)
    requires ApprovalsStay(a, b) && Quorum.RequestOk(a, q)
    requires q !in a.requests && q in b.requests ==>
               && b.requests[q].action in {ElectionActivate, ElectionClose}
               && b.requests[q].electionId.Some? && b.requests[q].electionId.value in b.elections
    ensures Quorum.RequestOk(b, q)
  {
    if q in a.requests && a.requests[q].action == CandidateApprove {
      RequestForStable(a, b, q, a.requests[q].payload.value);
    } else if q in a.requests && a.requests[q].electionId.Some? {
      var e: ElectionId := a.requests[q].electionId.value;
      assert e in a.elections ==> e in b.elections;
    }
  }

  lemma ApprovalStays(a: Gov, b: Gov, k: (RequestId, UserId))
    requires RequestsKept(a, b) && b.approvals == a.approvals && (k in a.approvals ==> ApprovalOk(a, k))
    ensures ApprovalOk(b, k)
  {
    var q: RequestId := k.0;
    assert q in a.requests ==> q in b.requests && b.requests[q].requestedBy == a.requests[q].requestedBy;
  }

  lemma SplitGoverned(s: Wide, x: WideAction)
    requires !x.Base? && WideGovernedState(s)
    ensures GovOk(WideStep(s, x).sevs.db.gov) && ApprovalsStay(s.sevs.db.gov, WideStep(s, x).sevs.db.gov)
  {
    match x {
      case AdvanceRow(id) => if id in s.rows { RowKeepsGov(s.sevs.db, s.rows[id]); }
      case AdvanceStatus(id) =>
        if id in s.calls {
          StatusKeepsGov(s.sevs.db, s.calls[id]);
          StatusStays(s.sevs.db, s.calls[id]);
        }
      case _ =>
    }
    hide GovOk;
    hide RowStep;
    hide StatusStep;
  }

  lemma WideStepGoverned(s: Wide, x: WideAction)
    requires WideGovernedState(s)
    ensures WideGovernedState(WideStep(s, x))
  {
    var s' := WideStep(s, x);
    var g, g' := s.sevs.db.gov, s'.sevs.db.gov;
    if x.Base? {
      StepGoverned(s.sevs, x.action);
      StepEvolves(s.sevs, x.action);
    } else {
      SplitGoverned(s, x);
      hide ApprovalsStay;
      hide ApprovalCallOk;
      hide RowStep;
      hide StatusStep;
      forall id | id in s'.sevs.approving ensures ApprovalCallOk(g', s'.sevs.approving[id]) {
        CallStays(g, g', s.sevs.approving[id]);
      }
    }
    hide Step;
    hide GovOk;
    hide RowStep;
    hide StatusCallOk;
    forall id | id in s'.calls ensures StatusCallOk(g', s'.calls[id]) {
      CallsStay(s, x, id);
    }
  }

  lemma CallStays(a: Gov, b: Gov, c: ApprovalCall)
    requires ApprovalsStay(a, b) && ApprovalCallOk(a, c)
    ensures ApprovalCallOk(b, c)
  {
    ApprovalCallStable(a, b, c);
  }

  lemma CallsStay(s: Wide, x: WideAction, id: CallId)
    requires WideGovernedState(s) && id in WideStep(s, x).calls
    ensures StatusCallOk(WideStep(s, x).sevs.db.gov, WideStep(s, x).calls[id])
  {
    var s' := WideStep(s, x);
    if x.AdvanceStatus? && x.id == id {
      StatusCallAdvances(s.sevs.db, s.calls[id]);
    } else if id in s.calls {
      if x.Base? {
        StepEvolves(s.sevs, x.action);
      } else {
        SplitGoverned(s, x);
      }
      hide Step;
      hide GovOk;
      hide RowStep;
      hide StatusStep;
      hide RollFrozen;
      hide PollEvolves;
      StatusCallStable(s.sevs.db.gov, s'.sevs.db.gov, s.calls[id]);
    }
  }

  lemma {:induction false} WideGoverned(run: seq<WideAction>)
    ensures WideGovernedState(WideAfter(run))
    decreases |run|
  {
    if run == [] {
      RunGoverned([]);
      assert After([]) == START;
    } else {
      WideGoverned(run[..|run| - 1]);
      hide WideGovernedState;
      hide WideStep;
      WideStepGoverned(WideAfter(run[..|run| - 1]), run[|run| - 1]);
    }
  }

  /** However the services overlap, two different officers, neither of them the requester, stand behind every
      election that was scheduled and every election that was closed, and two officers other than the
      candidate's own user behind every approved candidate. */
  lemma {:induction false} WideQuorumStandsBehind(run: seq<WideAction>, e: ElectionId, c: CandidateId)
    ensures
      var g := WideAfter(run).sevs.db.gov;
      && (e in g.elections && g.elections[e].status in {Scheduled, Active, Closed} ==>
            ApprovedElection(g, ElectionActivate, e))
      && (e in g.elections && g.elections[e].status == Closed ==> ApprovedElection(g, ElectionClose, e))
      && (c in g.candidates && g.candidates[c].status == CandidateApproved ==> ApprovedCandidate(g, c))
  {
    WideGoverned(run);
    var g := WideAfter(run).sevs.db.gov;
    hide WideAfter;
    assert e in g.elections ==> ElectionOk(g, e);
    assert c in g.candidates ==> CandidateOk(g, c);
    hide ApprovedElection;
    hide ApprovedCandidate;
  }

  /** The officers behind an approved candidate are not the candidate. */
  lemma {:induction false} WideNotTheCandidate(run: seq<WideAction>, c: CandidateId)
    requires ApprovedCandidate(WideAfter(run).sevs.db.gov, c)
    ensures
      var g := WideAfter(run).sevs.db.gov;
      exists q, a, b ::
        && RequestFor(g, q, c) && a != b && Approves(g, q, a) && Approves(g, q, b)
        && (a in g.students ==> g.students[a] != g.candidates[c].studentId)
        && (b in g.students ==> g.students[b] != g.candidates[c].studentId)
  {
    WideRoll(run);
    var g := WideAfter(run).sevs.db.gov;
    hide WideAfter;
    var q :| RequestFor(g, q, c) && ApprovedByTwo(g, q);
    var a, b :| a != b && Approves(g, q, a) && Approves(g, q, b);
    var own := g.requests[q].requestedBy;
    assert a in g.students && g.students[a] == g.candidates[c].studentId ==> a == own;
    assert b in g.students && g.students[b] == g.candidates[c].studentId ==> b == own;
  }

  // ---------- the audit trail of an election ----------

  /** The step writes a status of `e` that the log does not bear out: an activation when the election is not
      SCHEDULED, or a submission or a cancellation when it has been scheduled before. */
  ghost predicate Misreports(s: Wide, x: WideAction, e: ElectionId) {
    && x.AdvanceStatus? && x.id in s.calls && s.calls[x.id].phase.WriteStatus? && s.calls[x.id].e == e
    && e in s.sevs.db.gov.elections
    && var status := s.sevs.db.gov.elections[e].status;
       if s.calls[x.id].t == Elections.Activate then status != Scheduled else status in {Scheduled, Active, Closed}
  }

  /** The log grows by at most one entry. */
  lemma {:induction false} TimesAfter(a: seq<LogEntry>, b: seq<LogEntry>, event: Event)
    requires a <= b && |b| <= |a| + 1
    ensures Times(b, event) == Times(a, event) + if |b| > |a| && b[|a|].event == event then 1 else 0
  {
    assert b == a + b[|a|..];
    TimesAppended(a, b[|a|..], event);
  }

  lemma StatusEvent(db: Db, c: StatusCall)
    ensures
      var b := StatusStep(db, c).0;
      var activates := c.phase.WriteStatus? && c.e in db.gov.elections && c.t == Elections.Activate;
      && db.log <= b.log && |b.log| == |db.log| + (if activates then 1 else 0)
      && (activates ==> b.log[|db.log|].event == ElectionActivated(c.e, Scheduled))
  {
    hide Elections.TransitionError;
  }

  lemma RowEvent(db: Db, c: RowCall)
    ensures
      var b := RowStep(db, c).0;
      && db.log <= b.log && |b.log| <= |db.log| + 1
      && (|b.log| > |db.log| ==>
            b.log[|db.log|].event.RegistrationWasApproved? || b.log[|db.log|].event.RegistrationWasRejected?)
  {
    hide RowError;
    hide Referred;
  }

  lemma {:induction false} StatusReported(db: Db, c: StatusCall, e: ElectionId)
    requires Reported(db, e) && StatusCallOk(db.gov, c)
    requires e in db.gov.elections ==> db.gov.elections[e].status !in {ResultsPending, Archived}
    ensures
      Reported(StatusStep(db, c).0, e) <==>
        !(c.phase.WriteStatus? && c.e == e && e in db.gov.elections
          && if c.t == Elections.Activate then db.gov.elections[e].status != Scheduled
             else db.gov.elections[e].status in {Scheduled, Active, Closed})
  {
    var b := StatusStep(db, c).0;
    StatusEvent(db, c);
    StatusWrites(db, c);
    StatusStays(db, c);
    if c.phase.WriteStatus? && c.e in db.gov.elections { WrittenStatus(db, c); }
    hide StatusStep;
    hide Times;
    hide RequestsKept;
    hide ApprovedElection;
    TimesAfter(db.log, b.log, ElectionScheduled(e));
    TimesAfter(db.log, b.log, ElectionActivated(e, Scheduled));
    TimesAfter(db.log, b.log, ElectionClosed(e));
  }

  lemma WrittenStatus(db: Db, c: StatusCall)
    requires c.phase.WriteStatus? && c.e in db.gov.elections
    ensures
      var g := StatusStep(db, c).0.gov;
      c.e in g.elections && g.elections[c.e].status == Target(c.t)
  {}

  lemma {:induction false} RowReported(db: Db, c: RowCall, e: ElectionId)
    requires Reported(db, e)
    ensures Reported(RowStep(db, c).0, e)
  {
    var b := RowStep(db, c).0;
    RowEvent(db, c);
    RowSpares(db, c);
    hide RowStep;
    hide Times;
    TimesAfter(db.log, b.log, ElectionScheduled(e));
    TimesAfter(db.log, b.log, ElectionActivated(e, Scheduled));
    TimesAfter(db.log, b.log, ElectionClosed(e));
  }

  lemma BaseReported(s: Sevs, a: Action, e: ElectionId)
    requires GovOk(s.db.gov) && Reported(s.db, e)
    ensures Reported(Step(s, a).db, e)
  {
    var dt, g, m := StepMove(s, a);
    hide Step;
    hide Does;
    hide Reported;
    assert e in s.db.gov.elections ==> ElectionOk(s.db.gov, e);
    StepReported(s.db, dt, g, m, Step(s, a).db, e);
  }

  /** A step leaves an election whose status effects stand in the log exactly once that way exactly if it is
      no such write. */
  lemma {:induction false} ReportedIff(run: seq<WideAction>, x: WideAction, e: ElectionId)
    requires Reported(WideAfter(run).sevs.db, e)
    ensures Reported(WideStep(WideAfter(run), x).sevs.db, e) <==> !Misreports(WideAfter(run), x, e)
  {
    WideGoverned(run);
    var s := WideAfter(run);
    hide WideAfter;
    hide Reported;
    match x {
      case Base(a) => BaseReported(s.sevs, a, e);
      case AdvanceRow(id) => if id in s.rows { RowReported(s.sevs.db, s.rows[id], e); }
      case AdvanceStatus(id) =>
        if id in s.calls {
          assert e in s.sevs.db.gov.elections ==> ElectionOk(s.sevs.db.gov, e);
          StatusReported(s.sevs.db, s.calls[id], e);
        }
      case _ =>
    }
    hide Step;
    hide RowStep;
    hide StatusStep;
    hide GovOk;
  }

  ghost predicate MisreportsAt(run: seq<WideAction>, i: nat, e: ElectionId) {
    i < |run| && Misreports(WideAfter(run[..i]), run[i], e)
  }

  /** However the services overlap: the status effects of an election stand in the log exactly once all
      through a run exactly if no step of the run is such a write. */
  lemma {:induction false} ReportedOnceIff(run: seq<WideAction>, e: ElectionId)
    ensures
      (forall i: nat | i <= |run| :: Reported(WideAfter(run[..i]).sevs.db, e)) <==>
      (forall i: nat :: !MisreportsAt(run, i, e))
  {
    hide Reported;
    hide Misreports;
    if forall i: nat | i <= |run| :: Reported(WideAfter(run[..i]).sevs.db, e) {
      forall i: nat ensures !MisreportsAt(run, i, e) {
        if i < |run| {
          assert Reported(WideAfter(run[..i]).sevs.db, e) && Reported(WideAfter(run[..i + 1]).sevs.db, e);
          ReportedIff(run[..i], run[i], e);
          assert run[..i + 1] == run[..i] + [run[i]];
          WideAfterOne(run[..i], run[i]);
        }
      }
    }
    if forall i: nat :: !MisreportsAt(run, i, e) {
      forall i: nat | i <= |run| ensures Reported(WideAfter(run[..i]).sevs.db, e) {
        ReportedUnless(run, i, e);
      }
    }
  }

  lemma {:induction false} ReportedUnless(run: seq<WideAction>, i: nat, e: ElectionId)
    requires i <= |run| && forall k: nat :: !MisreportsAt(run, k, e)
    ensures Reported(WideAfter(run[..i]).sevs.db, e)
    decreases i
  {
    if i == 0 {
      EffectsReportedOnce([], e);
      assert After([]) == START && WideAfter([]).sevs == START;
    } else {
      ReportedUnless(run, i - 1, e);
      assert !MisreportsAt(run, i - 1, e);
      hide Reported;
      hide Misreports;
      hide WideStep;
      ReportedIff(run[..i - 1], run[i - 1], e);
      assert run[..i] == run[..i - 1] + [run[i - 1]];
      WideAfterOne(run[..i - 1], run[i - 1]);
    }
  }

  // ---------- an election activated twice ----------

  /** Two activations of a SCHEDULED election that overlap. */
  function Activations(e: ElectionId, i: CallId, j: CallId, a: UserId, b: UserId): seq<WideAction> {
    [BeginStatus(i, Elections.Activate, e, a, 0), BeginStatus(j, Elections.Activate, e, b, 0),
     AdvanceStatus(i), AdvanceStatus(j), AdvanceStatus(i), AdvanceStatus(j)]
  }

  /** Both go through, and both are logged. */
  lemma {:induction false} ActivatesTwice(run: seq<WideAction>, e: ElectionId, i: CallId, j: CallId,
                                          a: UserId, b: UserId)
    requires e in WideAfter(run).sevs.db.gov.elections && WideAfter(run).sevs.db.gov.elections[e].status == Scheduled
    requires i != j && i !in WideAfter(run).calls && j !in WideAfter(run).calls
    ensures
      var db, db' := WideAfter(run).sevs.db, WideAfter(run + Activations(e, i, j, a, b)).sevs.db;
      && e in db'.gov.elections && db'.gov.elections[e].status == Active
      && Times(db'.log, ElectionActivated(e, Scheduled)) == Times(db.log, ElectionActivated(e, Scheduled)) + 2
  {
    hide WideStep;
    var r2 := run + [BeginStatus(i, Elections.Activate, e, a, 0)] + [BeginStatus(j, Elections.Activate, e, b, 0)];
    var r4 := r2 + [AdvanceStatus(i)] + [AdvanceStatus(j)];
    BothChecked(run, e, i, j, a, b);
    hide WideAfter;
    hide Times;
    assert r4 + [AdvanceStatus(i)] + [AdvanceStatus(j)] == run + Activations(e, i, j, a, b);
    hide Activations;
    BothWritten(r4, e, i, j);
  }

  lemma {:induction false} BothChecked(run: seq<WideAction>, e: ElectionId, i: CallId, j: CallId, a: UserId, b: UserId)
    requires e in WideAfter(run).sevs.db.gov.elections && WideAfter(run).sevs.db.gov.elections[e].status == Scheduled
    requires i != j && i !in WideAfter(run).calls && j !in WideAfter(run).calls
    ensures
      var r2 := run + [BeginStatus(i, Elections.Activate, e, a, 0)] + [BeginStatus(j, Elections.Activate, e, b, 0)];
      var s := WideAfter(r2 + [AdvanceStatus(i)] + [AdvanceStatus(j)]);
      && s.sevs == WideAfter(run).sevs
      && i in s.calls && s.calls[i] == StatusCall(Elections.Activate, e, a, 0, WriteStatus)
      && j in s.calls && s.calls[j] == StatusCall(Elections.Activate, e, b, 0, WriteStatus)
  {
    var r1 := run + [BeginStatus(i, Elections.Activate, e, a, 0)];
    var r2 := r1 + [BeginStatus(j, Elections.Activate, e, b, 0)];
    WideAfterOne(run, BeginStatus(i, Elections.Activate, e, a, 0));
    WideAfterOne(r1, BeginStatus(j, Elections.Activate, e, b, 0));
    WideAfterOne(r2, AdvanceStatus(i));
    WideAfterOne(r2 + [AdvanceStatus(i)], AdvanceStatus(j));
    hide WideAfter;
    hide Step;
    hide RowStep;
  }

  lemma {:induction false} BothWritten(run: seq<WideAction>, e: ElectionId, i: CallId, j: CallId)
    requires e in WideAfter(run).sevs.db.gov.elections && i != j
    requires forall id | id in {i, j} ::
               && id in WideAfter(run).calls && WideAfter(run).calls[id].phase.WriteStatus?
               && WideAfter(run).calls[id].t == Elections.Activate && WideAfter(run).calls[id].e == e
    ensures
      var db, db' := WideAfter(run).sevs.db, WideAfter(run + [AdvanceStatus(i)] + [AdvanceStatus(j)]).sevs.db;
      && e in db'.gov.elections && db'.gov.elections[e].status == Active
      && Times(db'.log, ElectionActivated(e, Scheduled)) == Times(db.log, ElectionActivated(e, Scheduled)) + 2
  {
    WideAfterOne(run, AdvanceStatus(i));
    WideAfterOne(run + [AdvanceStatus(i)], AdvanceStatus(j));
    hide WideAfter;
    var s := WideAfter(run);
    var s' := WideStep(s, AdvanceStatus(i));
    WriteActivates(s.sevs.db, s.calls[i]);
    WriteActivates(s'.sevs.db, s.calls[j]);
    hide StatusStep;
    hide Times;
  }

  lemma {:induction false} WriteActivates(db: Db, c: StatusCall)
    requires c.phase.WriteStatus? && c.t == Elections.Activate && c.e in db.gov.elections
    ensures
      var b := StatusStep(db, c).0;
      && c.e in b.gov.elections && b.gov.elections[c.e].status == Active
      && Times(b.log, ElectionActivated(c.e, Scheduled)) == Times(db.log, ElectionActivated(c.e, Scheduled)) + 1
  {
    var b := StatusStep(db, c).0;
    StatusEvent(db, c);
    TimesAfter(db.log, b.log, ElectionActivated(c.e, Scheduled));
  }
}
