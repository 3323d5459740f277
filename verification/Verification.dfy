/** Backend/src/modules/verification: voter registrations. */
module Verification {
  import opened JsText
  import opened Schema
  import opened Database

  datatype Eligibility = Eligible | NotRegistered | NotApproved(current: RegistrationStatus) | AlreadyParticipated

  /** `isEligible`: a decision over one read. */
  function IsEligible(db: Db, student: StudentId, e: ElectionId): Eligibility {
    if (student, e) !in db.poll.byStudent || db.poll.byStudent[(student, e)] !in db.poll.registrations then
      NotRegistered
    else
      var r := db.poll.registrations[db.poll.byStudent[(student, e)]];
      if r.status != RegistrationApproved then NotApproved(r.status)
      else if r.participated then AlreadyParticipated
      else Eligible
  }

  function RegisterEffect(db: Db, user: UserId, e: ElectionId, id: RegistrationId): (Db, Result<()>) {
    if user !in db.gov.students then (db, Err(Unauthorized))
    else if e !in db.gov.elections then (db, Err(NotFound))
    else if !RegistrationOpen(db.gov.elections[e].status) then (db, Err(WrongElectionState))
    else
      var student := db.gov.students[user];
      if (student, e) in db.poll.byStudent then (db, Err(Conflict))
      else if id in db.poll.registrations then (db, Err(ConstraintViolation))
      else
        (db.(poll := db.poll.(
               registrations := db.poll.registrations[
                 id := Registration(student, e, RegistrationPending, None, false, None)],
               byStudent := db.poll.byStudent[(student, e) := id])), Ok(()))
  }

  /** `resolve`, for approval and rejection alike. */
  function ResolveRegistrationEffect(db: Db, id: RegistrationId, officer: UserId, approve: bool): (Db, Result<()>) {
    if id !in db.poll.registrations then (db, Err(NotFound))
    else
      var r := db.poll.registrations[id];
      if r.status != RegistrationPending then (db, Err(WrongElectionState))
      else if officer in db.gov.students && db.gov.students[officer] == r.studentId then (db, Err(Unauthorized))
      else
        var status := if approve then RegistrationApproved else RegistrationRejected;
        var event := if approve then RegistrationWasApproved(id) else RegistrationWasRejected(id);
        (Logged(WithRegistration(db, id, r.(status := status, verifiedBy := Some(officer))), ByUser(officer), event),
         Ok(()))
  }

  // ---------- the services, as the program runs them ----------

  method RegisterForElection(s: Store, user: UserId, e: ElectionId, id: RegistrationId) returns (r: Result<()>)
    modifies s`registrations, s`byStudent
    ensures (s.View(), r) == RegisterEffect(old(s.View()), user, e, id)
    ensures r.Ok? <==>
              && user in s.students && e in s.elections
              && s.elections[e].status in {Draft, PendingApproval, Scheduled}
              && (s.students[user], e) !in old(s.byStudent) && id !in old(s.registrations)
    ensures r.Err? ==> s.View() == old(s.View())
    ensures r.Err? ==> r.error == (if user !in s.students then Unauthorized
                                   else if e !in s.elections then NotFound
                                   else if !RegistrationOpen(s.elections[e].status) then WrongElectionState
                                   else if (s.students[user], e) in s.byStudent then Conflict
                                   else ConstraintViolation)
    ensures r.Ok? ==>
              && s.byStudent == old(s.byStudent)[(s.students[user], e) := id]
              && s.registrations == old(s.registrations)[id := s.registrations[id]]
              && s.registrations[id].status == RegistrationPending && !s.registrations[id].participated
              && IsEligible(s.View(), s.students[user], e) == NotApproved(RegistrationPending)
  {
    if user !in s.students { return Err(Unauthorized); }
    if e !in s.elections { return Err(NotFound); }
    if !RegistrationOpen(s.elections[e].status) { return Err(WrongElectionState); }
    var student := s.students[user];
    if (student, e) in s.byStudent { return Err(Conflict); }
    if id in s.registrations { return Err(ConstraintViolation); }
    s.registrations := s.registrations[id := Registration(student, e, RegistrationPending, None, false, None)];
    s.byStudent := s.byStudent[(student, e) := id];
    return Ok(());
  }

  method ResolveRegistration(s: Store, id: RegistrationId, officer: UserId, approve: bool) returns (r: Result<()>)
    modifies s`registrations, s`log
    ensures (s.View(), r) == ResolveRegistrationEffect(old(s.View()), id, officer, approve)
    ensures r.Ok? <==>
              && id in old(s.registrations) && old(s.registrations)[id].status == RegistrationPending
              && (officer in s.students ==> s.students[officer] != old(s.registrations)[id].studentId)
    ensures r.Err? ==> s.View() == old(s.View())
    ensures r.Err? ==> r.error == (if id !in s.registrations then NotFound
                                   else if s.registrations[id].status != RegistrationPending then WrongElectionState
                                   else Unauthorized)
    ensures r.Ok? ==>
              && s.registrations == old(s.registrations)[id := old(s.registrations)[id].(
                   status := s.registrations[id].status, verifiedBy := Some(officer))]
              && (s.registrations[id].status == RegistrationApproved <==> approve)
              && s.registrations[id].status != RegistrationPending
              && s.log == old(s.log) + [LogEntry(
                   ByUser(officer),
                   if approve then RegistrationWasApproved(id) else RegistrationWasRejected(id), s.clock)]
  {
    if id !in s.registrations { return Err(NotFound); }
    var row := s.registrations[id];
    if row.status != RegistrationPending { return Err(WrongElectionState); }
    if officer in s.students && s.students[officer] == row.studentId { return Err(Unauthorized); }
    var status := if approve then RegistrationApproved else RegistrationRejected;
    s.registrations := s.registrations[id := row.(status := status, verifiedBy := Some(officer))];
    if approve {
      s.AppendAuditEvent(ByUser(officer), RegistrationWasApproved(id));
    } else {
      s.AppendAuditEvent(ByUser(officer), RegistrationWasRejected(id));
    }
    return Ok(());
  }
}
