/** Backend/src/modules/elections: the life cycle of an election. */
module Elections {
  import opened JsText
  import opened Schema
  import opened Database

  datatype Transition = Submit | Cancel | Activate | Close

  /** `ALLOWED_TRANSITIONS` */
  predicate Allowed(t: Transition, s: ElectionStatus) {
    match t
    case Submit => s == Draft
    case Cancel => s == Draft || s == PendingApproval
    case Activate => s == Scheduled
    case Close => s == Active
  }

  /** `assertTransitionAllowed`: the error it throws, if any. */
  function TransitionError(db: Db, e: ElectionId, t: Transition): Option<Error> {
    if e !in db.gov.elections then Some(NotFound)
    else if !Allowed(t, db.gov.elections[e].status) then Some(WrongElectionState)
    else None
  }

  function WithStatus(db: Db, e: ElectionId, s: ElectionStatus): Db
    requires e in db.gov.elections
  {
    WithElection(db, e, db.gov.elections[e].(status := s))
  }

  function CreateElectionEffect(db: Db, e: ElectionId, start: int, end: int, positions: set<PositionId>)
    : (Db, Result<()>)
  {
    if end <= start || start <= db.clock || positions == {} then (db, Err(Invalid))
    else if e in db.gov.elections || positions * db.gov.positions.Keys != {} then (db, Err(ConstraintViolation))
    else
      (db.(gov := db.gov.(elections := db.gov.elections[e := Election(Draft, start, end)],
                          positions := db.gov.positions + map p | p in positions :: e)), Ok(()))
  }

  function UpdateElectionEffect(db: Db, e: ElectionId, start: Option<int>, end: Option<int>): (Db, Result<()>) {
    if e !in db.gov.elections then (db, Err(NotFound))
    else
      var current := db.gov.elections[e];
      if current.status != Draft then (db, Err(WrongElectionState))
      else
        var effectiveStart := if start.Some? then start.value else current.startDate;
        var effectiveEnd := if end.Some? then end.value else current.endDate;
        if effectiveEnd <= effectiveStart then (db, Err(Invalid))
        else (WithElection(db, e, Election(Draft, effectiveStart, effectiveEnd)), Ok(()))
  }

  /** The approval request is created before the status changes. */
  function SubmitElectionEffect(db: Db, e: ElectionId, actor: UserId, q: RequestId): (Db, Result<()>) {
    var error := TransitionError(db, e, Submit);
    if error.Some? then (db, Err(error.value))
    else if q in db.gov.requests then (db, Err(ConstraintViolation))
    else
      var request := Request(ElectionActivate, actor, Some(e), None, Pending);
      (WithStatus(WithRequest(db, q, request), e, PendingApproval), Ok(()))
  }

  function CancelElectionEffect(db: Db, e: ElectionId): (Db, Result<()>) {
    var error := TransitionError(db, e, Cancel);
    if error.Some? then (db, Err(error.value)) else (WithStatus(db, e, Cancelled), Ok(()))
  }

  function ActivateElectionEffect(db: Db, e: ElectionId, actor: UserId): (Db, Result<()>) {
    var error := TransitionError(db, e, Activate);
    if error.Some? then (db, Err(error.value))
    else
      (Logged(WithStatus(db, e, Active), ByUser(actor), ElectionActivated(e, db.gov.elections[e].status)), Ok(()))
  }

  function InitiateCloseEffect(db: Db, e: ElectionId, actor: UserId, q: RequestId): (Db, Result<()>) {
    var error := TransitionError(db, e, Close);
    if error.Some? then (db, Err(error.value))
    else if q in db.gov.requests then (db, Err(ConstraintViolation))
    else (WithRequest(db, q, Request(ElectionClose, actor, Some(e), None, Pending)), Ok(()))
  }

  function AddPositionEffect(db: Db, e: ElectionId, p: PositionId): (Db, Result<()>) {
    if e !in db.gov.elections then (db, Err(NotFound))
    else if db.gov.elections[e].status != Draft then (db, Err(WrongElectionState))
    else if p in db.gov.positions then (db, Err(ConstraintViolation))
    else (db.(gov := db.gov.(positions := db.gov.positions[p := e])), Ok(()))
  }

  /** A position that a candidate refers to cannot be deleted: the foreign key restricts it. */
  function RemovePositionEffect(db: Db, e: ElectionId, p: PositionId): (Db, Result<()>) {
    if e !in db.gov.elections then (db, Err(NotFound))
    else if db.gov.elections[e].status != Draft then (db, Err(WrongElectionState))
    else if p !in db.gov.positions || db.gov.positions[p] != e then (db, Err(NotFound))
    else if exists c :: c in db.gov.candidates && db.gov.candidates[c].positionId == p then
      (db, Err(ConstraintViolation))
    else (db.(gov := db.gov.(positions := db.gov.positions - {p})), Ok(()))
  }

  // ---------- the decision of an approval request ----------

  datatype DecisionOutcome =
    | ElectionNowScheduled | RevertedToDraft | ElectionNowClosed | CloseRejected
    | TargetMissing | InvalidState

  /** `applyApprovalDecision` for ELECTION_ACTIVATE (`close` false) and ELECTION_CLOSE (`close` true). */
  function ApplyApprovalDecisionEffect(db: Db, e: ElectionId, close: bool, approved: bool): (Db, DecisionOutcome) {
    if e !in db.gov.elections then (db, TargetMissing)
    else if !close then
      if db.gov.elections[e].status != PendingApproval then (db, InvalidState)
      else if approved then
        (Logged(WithStatus(db, e, Scheduled), QuorumDecision, ElectionScheduled(e)), ElectionNowScheduled)
      else (WithStatus(db, e, Draft), RevertedToDraft)
    else
      if db.gov.elections[e].status != Active then (db, InvalidState)
      else if approved then
        (Logged(WithStatus(db, e, Closed), QuorumDecision, ElectionClosed(e)), ElectionNowClosed)
      else (db, CloseRejected)
  }

  // ---------- the services, as the program runs them ----------

  method AssertTransitionAllowed(s: Store, e: ElectionId, t: Transition) returns (r: Result<ElectionStatus>)
    ensures r.Err? <==> TransitionError(s.View(), e, t).Some?
    ensures r.Err? ==> TransitionError(s.View(), e, t) == Some(r.error)
    ensures r.Ok? ==> e in s.elections && r.value == s.elections[e].status && Allowed(t, r.value)
  {
    if e !in s.elections { return Err(NotFound); }
    var status := s.elections[e].status;
    if !Allowed(t, status) { return Err(WrongElectionState); }
    return Ok(status);
  }

  method UpdateElectionStatus(s: Store, e: ElectionId, status: ElectionStatus)
    requires e in s.elections
    modifies s`elections
    ensures s.View() == WithStatus(old(s.View()), e, status)
  {
    s.elections := s.elections[e := s.elections[e].(status := status)];
  }

  lemma NoneTaken(positions: set<PositionId>, taken: set<PositionId>)
    ensures positions * taken == {} <==> forall p | p in positions :: p !in taken
  {
    var both := positions * taken;
    forall p ensures p in both <==> p in positions && p in taken {}
    if forall p | p in positions :: p !in taken {
      assert both == {};
    }
  }

  /** The election and its positions are created in one transaction. */
  method CreateElection(s: Store, e: ElectionId, start: int, end: int, positions: set<PositionId>)
      returns (r: Result<()>)
    modifies s`elections, s`positions
    ensures (s.View(), r) == CreateElectionEffect(old(s.View()), e, start, end, positions)
    ensures r.Ok? <==>
              && s.clock < start < end && positions != {}
              && e !in old(s.elections) && forall p | p in positions :: p !in old(s.positions)
    ensures r.Err? ==> s.View() == old(s.View())
    ensures r.Err? ==> (r.error == Invalid <==> !(s.clock < start < end && positions != {}))
                       && (r.error == Invalid || r.error == ConstraintViolation)
    ensures r.Ok? ==>
              && s.elections == old(s.elections)[e := Election(Draft, start, end)]
              && s.positions.Keys == old(s.positions).Keys + positions
              && forall p | p in s.positions ::
                   s.positions[p] == if p in positions then e else old(s.positions)[p]
  {
    if end <= start { return Err(Invalid); }
    if start <= s.clock { return Err(Invalid); }
    if positions == {} { return Err(Invalid); }
    NoneTaken(positions, s.positions.Keys);
    if e in s.elections || positions * s.positions.Keys != {} { return Err(ConstraintViolation); }
    s.elections := s.elections[e := Election(Draft, start, end)];
    s.positions := s.positions + map p | p in positions :: e;
    return Ok(());
  }

  method SubmitElection(s: Store, e: ElectionId, actor: UserId, q: RequestId) returns (r: Result<()>)
    modifies s`elections, s`requests
    ensures (s.View(), r) == SubmitElectionEffect(old(s.View()), e, actor, q)
    ensures r.Ok? <==> e in old(s.elections) && old(s.elections)[e].status == Draft && q !in old(s.requests)
    ensures r.Err? ==> s.View() == old(s.View())
    ensures r.Err? ==> r.error == (if e !in old(s.elections) then NotFound
                                   else if old(s.elections)[e].status != Draft then WrongElectionState
                                   else ConstraintViolation)
    ensures r.Ok? ==>
              && s.elections == old(s.elections)[e := old(s.elections)[e].(status := PendingApproval)]
              && s.requests == old(s.requests)[q := s.requests[q]] && s.requests[q].status == Pending
              && s.requests[q].electionId == Some(e) && s.requests[q].requestedBy == actor
              && s.requests[q].action == ElectionActivate
  {
    var checked := AssertTransitionAllowed(s, e, Submit);
    if checked.Err? { return Err(checked.error); }
    if q in s.requests { return Err(ConstraintViolation); }
    s.requests := s.requests[q := Request(ElectionActivate, actor, Some(e), None, Pending)];
    UpdateElectionStatus(s, e, PendingApproval);
    return Ok(());
  }

  method CancelElection(s: Store, e: ElectionId) returns (r: Result<()>)
    modifies s`elections
    ensures (s.View(), r) == CancelElectionEffect(old(s.View()), e)
    ensures r.Ok? <==> e in old(s.elections) && old(s.elections)[e].status in {Draft, PendingApproval}
    ensures r.Err? ==> s.View() == old(s.View())
    ensures r.Err? ==> r.error == if e in s.elections then WrongElectionState else NotFound
    ensures r.Ok? ==> s.elections == old(s.elections)[e := old(s.elections)[e].(status := Cancelled)]
  {
    var checked := AssertTransitionAllowed(s, e, Cancel);
    if checked.Err? { return Err(checked.error); }
    UpdateElectionStatus(s, e, Cancelled);
    return Ok(());
  }

  method ActivateElection(s: Store, e: ElectionId, actor: UserId) returns (r: Result<()>)
    modifies s`elections, s`log
    ensures (s.View(), r) == ActivateElectionEffect(old(s.View()), e, actor)
    ensures r.Ok? <==> e in old(s.elections) && old(s.elections)[e].status == Scheduled
    ensures r.Err? ==> s.View() == old(s.View())
    ensures r.Err? ==> r.error == if e in s.elections then WrongElectionState else NotFound
    ensures r.Ok? ==>
              && s.elections == old(s.elections)[e := old(s.elections)[e].(status := Active)]
              && s.log == old(s.log) + [LogEntry(ByUser(actor), ElectionActivated(e, Scheduled), s.clock)]
  {
    var checked := AssertTransitionAllowed(s, e, Activate);
    if checked.Err? { return Err(checked.error); }
    UpdateElectionStatus(s, e, Active);
    s.AppendAuditEvent(ByUser(actor), ElectionActivated(e, checked.value));
    return Ok(());
  }

  method InitiateClose(s: Store, e: ElectionId, actor: UserId, q: RequestId) returns (r: Result<()>)
    modifies s`requests
    ensures (s.View(), r) == InitiateCloseEffect(old(s.View()), e, actor, q)
    ensures r.Ok? <==> e in old(s.elections) && old(s.elections)[e].status == Active && q !in old(s.requests)
    ensures r.Err? ==> s.View() == old(s.View())
    ensures r.Err? ==> r.error == (if e !in s.elections then NotFound
                                   else if s.elections[e].status != Active then WrongElectionState
                                   else ConstraintViolation)
    ensures r.Ok? ==>
              && s.requests == old(s.requests)[q := s.requests[q]] && s.requests[q].status == Pending
              && s.requests[q].electionId == Some(e) && s.requests[q].requestedBy == actor
              && s.requests[q].action == ElectionClose
  {
    var checked := AssertTransitionAllowed(s, e, Close);
    if checked.Err? { return Err(checked.error); }
    if q in s.requests { return Err(ConstraintViolation); }
    s.requests := s.requests[q := Request(ElectionClose, actor, Some(e), None, Pending)];
    return Ok(());
  }

  method UpdateElection(s: Store, e: ElectionId, start: Option<int>, end: Option<int>) returns (r: Result<()>)
    modifies s`elections
    ensures (s.View(), r) == UpdateElectionEffect(old(s.View()), e, start, end)
    ensures r.Err? ==> s.View() == old(s.View())
    ensures r.Ok? ==>
              && e in old(s.elections) && old(s.elections)[e].status == Draft
              && s.elections == old(s.elections)[e := s.elections[e]]
              && s.elections[e].status == Draft && s.elections[e].startDate < s.elections[e].endDate
              && s.elections[e].startDate == (if start.Some? then start.value else old(s.elections)[e].startDate)
              && s.elections[e].endDate == (if end.Some? then end.value else old(s.elections)[e].endDate)
    ensures r.Err? ==>
              && (r.error == NotFound <==> e !in old(s.elections))
              && (r.error == WrongElectionState <==> e in old(s.elections) && old(s.elections)[e].status != Draft)
              && (r.error == Invalid <==> e in old(s.elections) && old(s.elections)[e].status == Draft)
    ensures r.Ok? <==>
              && e in old(s.elections) && old(s.elections)[e].status == Draft
              && (if start.Some? then start.value else old(s.elections)[e].startDate) <
                 (if end.Some? then end.value else old(s.elections)[e].endDate)
  {
    if e !in s.elections { return Err(NotFound); }
    var current := s.elections[e];
    if current.status != Draft { return Err(WrongElectionState); }
    var effectiveStart, effectiveEnd := current.startDate, current.endDate;
    if start.Some? { effectiveStart := start.value; }
    if end.Some? { effectiveEnd := end.value; }
    if effectiveEnd <= effectiveStart { return Err(Invalid); }
    s.elections := s.elections[e := Election(Draft, effectiveStart, effectiveEnd)];
    return Ok(());
  }

  method AddPosition(s: Store, e: ElectionId, p: PositionId) returns (r: Result<()>)
    modifies s`positions
    ensures (s.View(), r) == AddPositionEffect(old(s.View()), e, p)
    ensures r.Ok? <==> e in s.elections && s.elections[e].status == Draft && p !in old(s.positions)
    ensures s.positions == if r.Ok? then old(s.positions)[p := e] else old(s.positions)
    ensures r.Err? ==> r.error == (if e !in s.elections then NotFound
                                   else if s.elections[e].status != Draft then WrongElectionState
                                   else ConstraintViolation)
  {
    if e !in s.elections { return Err(NotFound); }
    if s.elections[e].status != Draft { return Err(WrongElectionState); }
    if p in s.positions { return Err(ConstraintViolation); }
    s.positions := s.positions[p := e];
    return Ok(());
  }

  method RemovePosition(s: Store, e: ElectionId, p: PositionId) returns (r: Result<()>)
    modifies s`positions
    ensures (s.View(), r) == RemovePositionEffect(old(s.View()), e, p)
    ensures r.Ok? <==>
              && e in s.elections && s.elections[e].status == Draft && p in old(s.positions) && old(s.positions)[p] == e
              && forall c | c in s.candidates :: s.candidates[c].positionId != p
    ensures s.positions == if r.Ok? then old(s.positions) - {p} else old(s.positions)
    ensures r.Err? ==> r.error == (if e !in s.elections then NotFound
                                   else if s.elections[e].status != Draft then WrongElectionState
                                   else if p !in old(s.positions) || old(s.positions)[p] != e then NotFound
                                   else ConstraintViolation)
  {
    if e !in s.elections { return Err(NotFound); }
    if s.elections[e].status != Draft { return Err(WrongElectionState); }
    if p !in s.positions || s.positions[p] != e { return Err(NotFound); }
    if exists c :: c in s.candidates && s.candidates[c].positionId == p { return Err(ConstraintViolation); }
    s.positions := s.positions - {p};
    return Ok(());
  }

  method ApplyApprovalDecision(s: Store, e: ElectionId, close: bool, approved: bool) returns (r: DecisionOutcome)
    modifies s`elections, s`log
    ensures (s.View(), r) == ApplyApprovalDecisionEffect(old(s.View()), e, close, approved)
    ensures r.TargetMissing? <==> e !in old(s.elections)
    ensures r.InvalidState? <==>
              e in old(s.elections) && old(s.elections)[e].status != if close then Active else PendingApproval
    ensures r.ElectionNowScheduled? ==> !close && approved
    ensures r.RevertedToDraft? ==> !close && !approved
    ensures r.ElectionNowClosed? ==> close && approved
    ensures r.CloseRejected? ==> close && !approved
    ensures r.TargetMissing? || r.InvalidState? || (close && !approved) ==> s.View() == old(s.View())
    ensures !(r.TargetMissing? || r.InvalidState?) ==>
              && s.elections == old(s.elections)[e := old(s.elections)[e].(status := s.elections[e].status)]
              && s.elections[e].status ==
                   (if !close then if approved then Scheduled else Draft else if approved then Closed else Active)
              && s.log == old(s.log) +
                   (if approved then
                      [LogEntry(QuorumDecision, if close then ElectionClosed(e) else ElectionScheduled(e), s.clock)]
                    else [])
  {
    if e !in s.elections { return TargetMissing; }
    var status := s.elections[e].status;
    if !close {
      if status != PendingApproval { return InvalidState; }
      if approved {
        UpdateElectionStatus(s, e, Scheduled);
        s.AppendAuditEvent(QuorumDecision, ElectionScheduled(e));
        return ElectionNowScheduled;
      }
      UpdateElectionStatus(s, e, Draft);
      return RevertedToDraft;
    }
    if status != Active { return InvalidState; }
    if approved {
      UpdateElectionStatus(s, e, Closed);
      s.AppendAuditEvent(QuorumDecision, ElectionClosed(e));
      return ElectionNowClosed;
    }
    return CloseRejected;
  }
}
