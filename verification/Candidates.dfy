/** Backend/src/modules/candidates: candidacies and what an approval decision does to them. */
module Candidates {
  import opened JsText
  import opened Schema
  import opened Database
  import opened Verification

  /** The unique constraint on (student_id, position_id). */
  predicate HasCandidacy(candidates: map<CandidateId, Candidate>, student: StudentId, p: PositionId) {
    exists c :: c in candidates && candidates[c].studentId == student && candidates[c].positionId == p
  }

  /** The candidate and its approval request are created in one transaction. */
  function SubmitCandidacyEffect(db: Db, user: UserId, p: PositionId, c: CandidateId, q: RequestId): (Db, Result<()>) {
    if user !in db.gov.students then (db, Err(NotFound))
    else if p !in db.gov.positions then (db, Err(NotFound))
    else
      var student, e := db.gov.students[user], db.gov.positions[p];
      if e !in db.gov.elections then (db, Err(NotFound))
      else if !RegistrationOpen(db.gov.elections[e].status) then (db, Err(WrongElectionState))
      else if IsEligible(db, student, e) != Eligible then (db, Err(WrongElectionState))
      else if HasCandidacy(db.gov.candidates, student, p) then (db, Err(Conflict))
      else if c in db.gov.candidates || q in db.gov.requests then (db, Err(ConstraintViolation))
      else
        (WithRequest(WithCandidate(db, c, Candidate(student, p, CandidatePending)),
                     q, Request(CandidateApprove, user, Some(e), Some(c), Pending)), Ok(()))
  }

  function WithdrawCandidacyEffect(db: Db, user: UserId, c: CandidateId): (Db, Result<()>) {
    if user !in db.gov.students then (db, Err(NotFound))
    else if c !in db.gov.candidates || db.gov.candidates[c].studentId != db.gov.students[user] then (db, Err(NotFound))
    else if db.gov.candidates[c].status != CandidatePending && db.gov.candidates[c].status != CandidateApproved then
      (db, Err(WrongElectionState))
    else (WithCandidate(db, c, db.gov.candidates[c].(status := Withdrawn)), Ok(()))
  }

  datatype CandidacyOutcome = CandidacyMissing | CandidacyNotPending | CandidacyApproved | CandidacyRejected

  /** `resolveCandidacy`; the error is that of a malformed request. */
  function ResolveCandidacyEffect(db: Db, payload: Option<CandidateId>, approved: bool)
    : (Db, Result<CandidacyOutcome>)
  {
    if payload.None? then (db, Err(NotImplemented))
    else
      var c := payload.value;
      if c !in db.gov.candidates then (db, Ok(CandidacyMissing))
      else if db.gov.candidates[c].status != CandidatePending then (db, Ok(CandidacyNotPending))
      else
        var p := db.gov.candidates[c].positionId;
        var status := if approved then CandidateApproved else CandidateRejected;
        var event := if approved then CandidateWasApproved(c, p) else CandidateWasRejected(c, p);
        (Logged(WithCandidate(db, c, db.gov.candidates[c].(status := status)), QuorumDecision, event),
         Ok(if approved then CandidacyApproved else CandidacyRejected))
  }

  // ---------- the services, as the program runs them ----------

  method SubmitCandidacy(s: Store, user: UserId, p: PositionId, c: CandidateId, q: RequestId) returns (r: Result<()>)
    modifies s`candidates, s`requests
    ensures (s.View(), r) == SubmitCandidacyEffect(old(s.View()), user, p, c, q)
    ensures r.Ok? <==>
              && user in s.students && p in s.positions && s.positions[p] in s.elections
              && s.elections[s.positions[p]].status in {Draft, PendingApproval, Scheduled}
              && IsEligible(old(s.View()), s.students[user], s.positions[p]) == Eligible
              && (forall x | x in old(s.candidates) ::
                    !(old(s.candidates)[x].studentId == s.students[user] && old(s.candidates)[x].positionId == p))
              && c !in old(s.candidates)
              && q !in old(s.requests)
    ensures r.Err? ==> s.View() == old(s.View())
    ensures r == Err(NotFound) <==>
              user !in s.students || p !in s.positions || s.positions[p] !in s.elections
    ensures r == Err(WrongElectionState) <==>
              && r != Err(NotFound)
              && !(&& RegistrationOpen(s.elections[s.positions[p]].status)
                   && IsEligible(old(s.View()), s.students[user], s.positions[p]) == Eligible)
    ensures r.Err? && r.error !in {NotFound, WrongElectionState} ==>
              r.error == if HasCandidacy(old(s.candidates), s.students[user], p) then Conflict else ConstraintViolation
    ensures r.Ok? ==>
              && s.candidates == old(s.candidates)[c := Candidate(s.students[user], p, CandidatePending)]
              && s.requests == old(s.requests)[q := s.requests[q]] && s.requests[q].status == Pending
              && s.requests[q].action == CandidateApprove && s.requests[q].payload == Some(c)
              && s.requests[q].requestedBy == user && s.requests[q].electionId == Some(s.positions[p])
  {
    if user !in s.students { return Err(NotFound); }
    if p !in s.positions { return Err(NotFound); }
    var student, e := s.students[user], s.positions[p];
    if e !in s.elections { return Err(NotFound); }
    if !RegistrationOpen(s.elections[e].status) { return Err(WrongElectionState); }
    if (student, e) !in s.byStudent || s.byStudent[(student, e)] !in s.registrations {
      return Err(WrongElectionState);
    }
    var registration := s.registrations[s.byStudent[(student, e)]];
    if registration.status != RegistrationApproved || registration.participated { return Err(WrongElectionState); }
    if exists c' :: c' in s.candidates && s.candidates[c'].studentId == student && s.candidates[c'].positionId == p {
      assert HasCandidacy(s.candidates, student, p);
      return Err(Conflict);
    }
    if c in s.candidates || q in s.requests { return Err(ConstraintViolation); }
    s.candidates := s.candidates[c := Candidate(student, p, CandidatePending)];
    s.requests := s.requests[q := Request(CandidateApprove, user, Some(e), Some(c), Pending)];
    return Ok(());
  }

  method WithdrawCandidacy(s: Store, user: UserId, c: CandidateId) returns (r: Result<()>)
    modifies s`candidates
    ensures (s.View(), r) == WithdrawCandidacyEffect(old(s.View()), user, c)
    ensures r.Ok? <==>
              && user in s.students && c in old(s.candidates) && old(s.candidates)[c].studentId == s.students[user]
              && old(s.candidates)[c].status in {CandidatePending, CandidateApproved}
    ensures r.Err? ==> s.View() == old(s.View())
    ensures r == Err(NotFound) <==>
              !(user in s.students && c in old(s.candidates) && old(s.candidates)[c].studentId == s.students[user])
    ensures r.Err? ==> r.error == NotFound || r.error == WrongElectionState
    ensures r.Ok? ==> s.candidates == old(s.candidates)[c := old(s.candidates)[c].(status := Withdrawn)]
  {
    if user !in s.students { return Err(NotFound); }
    if c !in s.candidates { return Err(NotFound); }
    var row := s.candidates[c];
    if row.studentId != s.students[user] { return Err(NotFound); }
    if row.status != CandidatePending && row.status != CandidateApproved { return Err(WrongElectionState); }
    s.candidates := s.candidates[c := row.(status := Withdrawn)];
    return Ok(());
  }

  method ResolveCandidacy(s: Store, payload: Option<CandidateId>, approved: bool) returns (r: Result<CandidacyOutcome>)
    modifies s`candidates, s`log
    ensures (s.View(), r) == ResolveCandidacyEffect(old(s.View()), payload, approved)
    ensures r.Err? <==> payload.None?
    ensures r.Err? ==> r.error == NotImplemented
    ensures r.Ok? ==>
              && (r.value.CandidacyMissing? <==> payload.value !in old(s.candidates))
              && (r.value.CandidacyNotPending? <==>
                    payload.value in old(s.candidates) && old(s.candidates)[payload.value].status != CandidatePending)
              && (r.value.CandidacyApproved? ==> approved) && (r.value.CandidacyRejected? ==> !approved)
    ensures r.Err? || r.value.CandidacyMissing? || r.value.CandidacyNotPending? ==> s.View() == old(s.View())
    ensures r.Ok? && (r.value.CandidacyApproved? || r.value.CandidacyRejected?) ==>
              && s.candidates == old(s.candidates)[payload.value := old(s.candidates)[payload.value].(
                   status := if approved then CandidateApproved else CandidateRejected)]
              && s.log == old(s.log) + [LogEntry(
                   QuorumDecision,
                   if approved then CandidateWasApproved(payload.value, old(s.candidates)[payload.value].positionId)
                   else CandidateWasRejected(payload.value, old(s.candidates)[payload.value].positionId), s.clock)]
  {
    if payload.None? { return Err(NotImplemented); }
    var c := payload.value;
    if c !in s.candidates { return Ok(CandidacyMissing); }
    var row := s.candidates[c];
    if row.status != CandidatePending { return Ok(CandidacyNotPending); }
    if approved {
      s.candidates := s.candidates[c := row.(status := CandidateApproved)];
      s.AppendAuditEvent(QuorumDecision, CandidateWasApproved(c, row.positionId));
      return Ok(CandidacyApproved);
    }
    s.candidates := s.candidates[c := row.(status := CandidateRejected)];
    s.AppendAuditEvent(QuorumDecision, CandidateWasRejected(c, row.positionId));
    return Ok(CandidacyRejected);
  }
}
