/** What stands behind every scheduled or closed election and every approved candidate, under every
    interleaving of approval votes. */
module Quorum {
  import opened JsText
  import opened Schema
  import opened Approvals
  import Ballots
  import opened System
  import opened Moves
  import opened Evolution
  import BallotBox
  import Roll

  /** An officer other than the requester has approved the request. */
  ghost predicate Approves(g: Gov, q: RequestId, officer: UserId) {
    && q in g.requests && g.requests[q].requestedBy != officer
    && (q, officer) in g.approvals && g.approvals[(q, officer)] == Approve
  }

  ghost predicate ApprovedByTwo(g: Gov, q: RequestId) {
    exists a, b :: a != b && Approves(g, q, a) && Approves(g, q, b)
  }

  ghost predicate ApprovedElection(g: Gov, action: ActionType, e: ElectionId) {
    exists q :: q in g.requests && g.requests[q].action == action && g.requests[q].electionId == Some(e)
      && ApprovedByTwo(g, q)
  }

  /** The request for a candidate is made by the candidate's own user. */
  ghost predicate RequestFor(g: Gov, q: RequestId, c: CandidateId) {
    && q in g.requests && g.requests[q].action == CandidateApprove && g.requests[q].payload == Some(c)
    && c in g.candidates && g.requests[q].requestedBy in g.students
    && g.students[g.requests[q].requestedBy] == g.candidates[c].studentId
  }

  ghost predicate ApprovedCandidate(g: Gov, c: CandidateId) {
    exists q :: RequestFor(g, q, c) && ApprovedByTwo(g, q)
  }

  // ---------- the invariant ----------

  /** Every request names what its action needs, and nobody requests to publish results. */
  ghost predicate RequestOk(g: Gov, q: RequestId) {
    q in g.requests ==>
      match g.requests[q].action
      case ElectionActivate | ElectionClose =>
        g.requests[q].electionId.Some? && g.requests[q].electionId.value in g.elections
      case CandidateApprove => g.requests[q].payload.Some? && RequestFor(g, q, g.requests[q].payload.value)
      case ResultsPublish => false
  }

  ghost predicate ApprovalOk(g: Gov, k: (RequestId, UserId)) {
    k in g.approvals ==> k.0 in g.requests && g.requests[k.0].requestedBy != k.1
  }

  ghost predicate ElectionOk(g: Gov, e: ElectionId) {
    e in g.elections ==>
      match g.elections[e].status
      case Scheduled | Active => ApprovedElection(g, ElectionActivate, e)
      case Closed => ApprovedElection(g, ElectionActivate, e) && ApprovedElection(g, ElectionClose, e)
      case ResultsPending | Archived => false
      case _ => true
  }

  ghost predicate CandidateOk(g: Gov, c: CandidateId) {
    c in g.candidates ==>
      && g.candidates[c].status != CandidateRejected
      && (g.candidates[c].status == CandidateApproved ==> ApprovedCandidate(g, c))
  }

  ghost predicate GovOk(g: Gov) {
    && (forall q | q in g.requests :: RequestOk(g, q))
    && (forall k | k in g.approvals :: ApprovalOk(g, k))
    && (forall e | e in g.elections :: ElectionOk(g, e))
    && (forall c | c in g.candidates :: CandidateOk(g, c))
  }

  /** What an approval vote in progress has established. */
  ghost predicate ApprovalCallOk(g: Gov, c: ApprovalCall) {
    match c.phase
    case Insert => c.request in g.requests && g.requests[c.request].requestedBy != c.officer
    case Tally => c.request in g.requests
    case Resolve(approved, _, _) => c.request in g.requests && (approved ==> ApprovedByTwo(g, c.request))
    case _ => true
  }

  // ---------- what is established stays ----------

  lemma ApprovedByTwoStable(a: Gov, b: Gov, q: RequestId)
    requires RequestsKept(a, b) && ApprovalsKept(a, b) && ApprovedByTwo(a, q)
    ensures ApprovedByTwo(b, q)
  {
    var x, y :| x != y && Approves(a, q, x) && Approves(a, q, y);
    assert Approves(b, q, x) && Approves(b, q, y);
  }

  lemma ApprovedElectionStable(a: Gov, b: Gov, action: ActionType, e: ElectionId)
    requires RequestsKept(a, b) && ApprovalsKept(a, b) && ApprovedElection(a, action, e)
    ensures ApprovedElection(b, action, e)
  {
    var q :| q in a.requests && a.requests[q].action == action && a.requests[q].electionId == Some(e)
      && ApprovedByTwo(a, q);
    ApprovedByTwoStable(a, b, q);
    assert q in b.requests && b.requests[q].action == action && b.requests[q].electionId == Some(e);
  }

  lemma RequestForStable(a: Gov, b: Gov, q: RequestId, c: CandidateId)
    requires RequestsKept(a, b) && CandidatesKept(a, b) && StudentsKept(a, b) && RequestFor(a, q, c)
    ensures RequestFor(b, q, c)
  {}

  lemma ApprovedCandidateStable(a: Gov, b: Gov, c: CandidateId)
    requires GovEvolves(a, b) && ApprovedCandidate(a, c)
    ensures ApprovedCandidate(b, c)
  {
    var q :| RequestFor(a, q, c) && ApprovedByTwo(a, q);
    RequestForStable(a, b, q, c);
    ApprovedByTwoStable(a, b, q);
  }

  lemma ApprovalCallStable(a: Gov, b: Gov, c: ApprovalCall)
    requires RequestsKept(a, b) && ApprovalsKept(a, b) && ApprovalCallOk(a, c)
    ensures ApprovalCallOk(b, c)
  {
    if c.phase.Resolve? && c.phase.approved {
      ApprovedByTwoStable(a, b, c.request);
    }
  }

  // ---------- one move ----------

  lemma RequestKept(db: Db, m: GovMove, q: RequestId)
    requires GovEnabled(db, m) && GovEvolves(db.gov, GovAfter(db.gov, m))
    requires RequestOk(db.gov, q)
    ensures RequestOk(GovAfter(db.gov, m), q)
  {
    var g, g' := db.gov, GovAfter(db.gov, m);
    if q in g.requests && g.requests[q].action == CandidateApprove {
      RequestForStable(g, g', q, g.requests[q].payload.value);
    }
    hide ElectionEvolves;
    hide PositionsFrozen;
  }

  /** What a move of an approval vote knows beyond its guard. */
  ghost predicate DecisionOk(g: Gov, m: GovMove) {
    && (m.Decides? ==> m.q in g.requests && g.requests[m.q].requestedBy != m.officer)
    && (m.ElectionPasses? || m.CandidatePasses? ==> ApprovedByTwo(g, m.q))
  }

  lemma ApprovalKept(db: Db, m: GovMove, k: (RequestId, UserId))
    requires GovEnabled(db, m) && DecisionOk(db.gov, m) && RequestsKept(db.gov, GovAfter(db.gov, m))
    requires ApprovalOk(db.gov, k)
    ensures ApprovalOk(GovAfter(db.gov, m), k)
  {}

  lemma ElectionKept(db: Db, m: GovMove, e: ElectionId)
    requires GovEnabled(db, m) && DecisionOk(db.gov, m) && GovEvolves(db.gov, GovAfter(db.gov, m))
    requires ElectionOk(db.gov, e)
    ensures ElectionOk(GovAfter(db.gov, m), e)
  {
    var g, g' := db.gov, GovAfter(db.gov, m);
    forall action | ApprovedElection(g, action, e) ensures ApprovedElection(g', action, e) {
      ApprovedElectionStable(g, g', action, e);
    }
    if m.ElectionPasses? && m.e == e {
      ApprovedByTwoStable(g, g', m.q);
      assert ApprovedElection(g', g.requests[m.q].action, e);
    }
    hide GovEvolves;
    hide ApprovedElection;
  }

  lemma CandidateKept(db: Db, m: GovMove, c: CandidateId)
    requires GovEnabled(db, m) && DecisionOk(db.gov, m) && GovEvolves(db.gov, GovAfter(db.gov, m))
    requires CandidateOk(db.gov, c) && (m.CandidatePasses? ==> RequestOk(db.gov, m.q))
    ensures CandidateOk(GovAfter(db.gov, m), c)
  {
    var g, g' := db.gov, GovAfter(db.gov, m);
    if ApprovedCandidate(g, c) {
      ApprovedCandidateStable(g, g', c);
    }
    if m.CandidatePasses? && m.c == c {
      RequestForStable(g, g', m.q, c);
      ApprovedByTwoStable(g, g', m.q);
      assert ApprovedCandidate(g', c);
    }
    hide GovEvolves;
    hide ApprovedCandidate;
  }

  // ---------- approval votes in progress ----------

  lemma TwoMembers<T>(s: set<T>) returns (a: T, b: T)
    requires |s| >= 2
    ensures a in s && b in s && a != b
  {
    a :| a in s;
    var rest := s - {a};
    assert |rest| == |s| - 1;
    b :| b in rest;
  }

  /** A tally of two approvals means two officers, neither of them the requester. */
  lemma TallyMeansTwo(g: Gov, q: RequestId)
    requires GovOk(g) && |Deciders(g.approvals, q, Approve)| >= QUORUM
    ensures q in g.requests && ApprovedByTwo(g, q)
  {
    hide ElectionOk;
    hide CandidateOk;
    hide RequestOk;
    var a, b := TwoMembers(Deciders(g.approvals, q, Approve));
    assert ApprovalOk(g, (q, a)) && ApprovalOk(g, (q, b));
    assert Approves(g, q, a) && Approves(g, q, b);
  }

  lemma ApprovalAdvances(db: Db, c: ApprovalCall)
    requires GovOk(db.gov) && ApprovalCallOk(db.gov, c)
    ensures
      var (db', c') := ApprovalStep(db, c);
      ApprovalCallOk(db'.gov, c')
  {
    if c.phase.Tally? && |Deciders(db.gov.approvals, c.request, Approve)| >= QUORUM {
      TallyMeansTwo(db.gov, c.request);
    }
    hide GovOk;
    hide ApprovedByTwo;
    hide Deciders;
    hide ResolveEffect;
  }

  /** No resolution ever fails: the error branches of the dispatch table are never taken. */
  lemma DispatchNeverFails(db: Db, q: RequestId, approved: bool)
    requires RequestOk(db.gov, q) && q in db.gov.requests
    ensures ResolveEffect(db, q, approved).1.Ok?
  {}

  // ---------- every run ----------

  ghost predicate ApprovalsInProgressOk(s: Sevs) {
    forall id | id in s.approving :: ApprovalCallOk(s.db.gov, s.approving[id])
  }

  ghost predicate Governed(s: Sevs) {
    GovOk(s.db.gov) && ApprovalsInProgressOk(s)
  }

  lemma DecisionIsOk(s: Sevs, a: Action, g: GovMove, m: PollMove)
    requires ComesFrom(s, a, g, m) && ApprovalsInProgressOk(s)
    ensures DecisionOk(s.db.gov, g)
  {
    if g.Decides? || g.ElectionPasses? || g.CandidatePasses? {
      assert ApprovalCallOk(s.db.gov, s.approving[a.id]);
    }
    hide ApprovedByTwo;
  }

  lemma GovStepOk(db: Db, m: GovMove)
    requires GovEnabled(db, m) && DecisionOk(db.gov, m) && GovEvolves(db.gov, GovAfter(db.gov, m)) && GovOk(db.gov)
    ensures GovOk(GovAfter(db.gov, m))
  {
    var g, g' := db.gov, GovAfter(db.gov, m);
    forall q | q in g'.requests ensures RequestOk(g', q) {
      assert RequestOk(g, q);
      RequestKept(db, m, q);
    }
    forall k | k in g'.approvals ensures ApprovalOk(g', k) {
      assert ApprovalOk(g, k);
      ApprovalKept(db, m, k);
    }
    forall e | e in g'.elections ensures ElectionOk(g', e) {
      assert ElectionOk(g, e);
      ElectionKept(db, m, e);
    }
    assert m.CandidatePasses? ==> RequestOk(g, m.q);
    forall c | c in g'.candidates ensures CandidateOk(g', c) {
      assert CandidateOk(g, c);
      CandidateKept(db, m, c);
    }
    hide RequestOk;
    hide ApprovalOk;
    hide ElectionOk;
    hide CandidateOk;
  }

  lemma ApprovalsKeptOk(s: Sevs, a: Action)
    requires Governed(s)
    ensures ApprovalsInProgressOk(Step(s, a))
  {
    hide Execute;
    hide GovOk;
    hide Ballots.RequestStep;
    hide ApprovalStep;
    StepEvolves(s, a);
    var s' := Step(s, a);
    forall id | id in s'.approving ensures ApprovalCallOk(s'.db.gov, s'.approving[id]) {
      if a.AdvanceApproval? && a.id == id {
        ApprovalAdvances(s.db, s.approving[id]);
      } else if id in s.approving {
        ApprovalCallStable(s.db.gov, s'.db.gov, s.approving[id]);
      }
    }
    hide ApprovalCallOk;
  }

  lemma StepGoverned(s: Sevs, a: Action)
    requires Governed(s)
    ensures Governed(Step(s, a))
  {
    var dt, g, m := StepMove(s, a);
    StepEvolves(s, a);
    ApprovalsKeptOk(s, a);
    hide Step;
    hide Reports;
    hide GovEnabled;
    hide PollEnabled;
    hide GovAfter;
    hide PollAfter;
    hide GovOk;
    hide GovEvolves;
    DecisionIsOk(s, a, g, m);
    GovStepOk(s.db, g);
  }

  lemma {:induction false} RunGoverned(run: seq<Action>)
    ensures Governed(After(run))
    decreases |run|
  {
    if run != [] {
      RunGoverned(run[..|run| - 1]);
      StepGoverned(After(run[..|run| - 1]), run[|run| - 1]);
      hide Governed;
      hide Step;
    }
  }

  /** Two different officers, neither of them the requester, stand behind every election that was
      scheduled and every election that was closed; two officers other than the candidate's own user
      stand behind every approved candidate. An approval vote never meets an error when it resolves. */
  lemma {:induction false} QuorumStandsBehind(run: seq<Action>, e: ElectionId, c: CandidateId)
    ensures
      var g := After(run).db.gov;
      && (e in g.elections && g.elections[e].status in {Scheduled, Active, Closed} ==>
          ApprovedElection(g, ElectionActivate, e))
      && (e in g.elections && g.elections[e].status == Closed ==> ApprovedElection(g, ElectionClose, e))
      && (c in g.candidates && g.candidates[c].status == CandidateApproved ==> ApprovedCandidate(g, c))
  {
    RunGoverned(run);
    var g := After(run).db.gov;
    hide After;
    assert e in g.elections ==> ElectionOk(g, e);
    assert c in g.candidates ==> CandidateOk(g, c);
    hide ApprovedElection;
    hide ApprovedCandidate;
  }

  /** The officers behind an approved candidate are not the candidate. */
  lemma {:induction false} NotTheCandidate(run: seq<Action>, c: CandidateId)
    requires ApprovedCandidate(After(run).db.gov, c)
    ensures
      var g := After(run).db.gov;
      exists q, a, b ::
        && RequestFor(g, q, c) && a != b && Approves(g, q, a) && Approves(g, q, b)
        && (a in g.students ==> g.students[a] != g.candidates[c].studentId)
        && (b in g.students ==> g.students[b] != g.candidates[c].studentId)
  {
    Roll.RunRoll(run);
    var g := After(run).db.gov;
    hide After;
    var q :| RequestFor(g, q, c) && ApprovedByTwo(g, q);
    var a, b :| a != b && Approves(g, q, a) && Approves(g, q, b);
    var own := g.requests[q].requestedBy;
    assert a in g.students && g.students[a] == g.candidates[c].studentId ==> a == own;
    assert b in g.students && g.students[b] == g.candidates[c].studentId ==> b == own;
  }

  /** A step of an approval vote that resolves never ends in an error. */
  lemma {:induction false} ResolutionNeverFails(run: seq<Action>, id: CallId)
    requires id in After(run).approving && After(run).approving[id].phase.Resolve?
    ensures ApprovalStep(After(run).db, After(run).approving[id]).1.phase.outcome.Resolved?
  {
    RunGoverned(run);
    var s := After(run);
    hide After;
    assert ApprovalCallOk(s.db.gov, s.approving[id]);
    assert RequestOk(s.db.gov, s.approving[id].request);
    DispatchNeverFails(s.db, s.approving[id].request, s.approving[id].phase.approved);
    hide ResolveEffect;
    hide GovOk;
  }

  // ---------- the audit trail of an election ----------

  /** Every status effect of an election stands in the audit log exactly once. */
  ghost predicate Reported(db: Db, e: ElectionId) {
    var reached := if e in db.gov.elections then db.gov.elections[e].status else Draft;
    && BallotBox.Times(db.log, ElectionScheduled(e)) == (if reached in {Scheduled, Active, Closed} then 1 else 0)
    && BallotBox.Times(db.log, ElectionActivated(e, Scheduled)) == (if reached in {Active, Closed} then 1 else 0)
    && BallotBox.Times(db.log, ElectionClosed(e)) == (if reached == Closed then 1 else 0)
  }

  lemma {:induction false} EventTimes(db: Db, dt: nat, g: GovMove, m: PollMove, db': Db, event: Event)
    requires Does(db, dt, g, m, db')
    ensures
      var more := db'.log[|db.log|..];
      && |more| <= 1
      && BallotBox.Times(db'.log, event) ==
         BallotBox.Times(db.log, event) + if more != [] && more[0].event == event then 1 else 0
  {
    hide GovEnabled;
    hide PollEnabled;
    hide GovAfter;
    hide PollAfter;
    var more := db'.log[|db.log|..];
    assert db'.log == db.log + more;
    BallotBox.TimesAppended(db.log, more, event);
  }

  /** The one event of a move is the status effect that it has. */
  lemma MoveReports(db: Db, g: GovMove, m: PollMove, log: seq<LogEntry>, e: ElectionId)
    requires GovEnabled(db, g) && PollEnabled(db, m) && Reports(db, g, m, log)
    ensures (|log| == 1 && log[0].event == ElectionScheduled(e)) <==>
            (g.ElectionPasses? && g.e == e && g.status == Scheduled)
    ensures (|log| == 1 && log[0].event == ElectionClosed(e)) <==> (g.ElectionPasses? && g.e == e && g.status == Closed)
    ensures (|log| == 1 && log[0].event == ElectionActivated(e, Scheduled)) <==> (g.Activates? && g.e == e)
  {
    hide PollEnabled;
  }

  lemma StepReported(db: Db, dt: nat, g: GovMove, m: PollMove, db': Db, e: ElectionId)
    requires Does(db, dt, g, m, db') && Reported(db, e)
    requires e in db.gov.elections ==> db.gov.elections[e].status !in {ResultsPending, Archived}
    ensures Reported(db', e)
  {
    hide BallotBox.Times;
    hide Reports;
    hide PollEnabled;
    hide PollAfter;
    EventTimes(db, dt, g, m, db', ElectionScheduled(e));
    EventTimes(db, dt, g, m, db', ElectionActivated(e, Scheduled));
    EventTimes(db, dt, g, m, db', ElectionClosed(e));
    MoveReports(db, g, m, db'.log[|db.log|..], e);
  }

  /** In every run an election is scheduled, activated and closed at most once each, and the audit log
      says so exactly once, however many votes and close requests reach their quorum. */
  lemma {:induction false} EffectsReportedOnce(run: seq<Action>, e: ElectionId)
    ensures Reported(After(run).db, e)
    decreases |run|
  {
    if run != [] {
      var shorter := run[..|run| - 1];
      var s := After(shorter);
      EffectsReportedOnce(shorter, e);
      RunGoverned(shorter);
      var dt, g, m := StepMove(s, run[|run| - 1]);
      hide Step;
      hide Does;
      hide Reported;
      assert e in s.db.gov.elections ==> ElectionOk(s.db.gov, e);
      StepReported(s.db, dt, g, m, After(run).db, e);
    }
  }
}
