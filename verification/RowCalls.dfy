/** The services that change rows after a check of their own, with the check and the write as separate
    steps: decisions on registrations, dates and positions of elections, new registrations. */
module RowCalls {
  import opened JsText
  import opened Schema
  import opened Elections
  import opened Verification
  import opened Evolution

  datatype RowOp =
    | Decide(r: RegistrationId, officer: UserId, approve: bool)
    | ChangeDates(e: ElectionId, newStart: Option<int>, newEnd: Option<int>)
    | NewPosition(e: ElectionId, p: PositionId)
    | DropPosition(e: ElectionId, p: PositionId)
    | Enter(user: UserId, e: ElectionId, r: RegistrationId)

  /** `student` is what the check of a registration has found. */
  datatype RowPhase = CheckRow | WriteRow(student: StudentId) | RowOver(error: Option<Error>)

  datatype RowCall = RowCall(op: RowOp, phase: RowPhase)

  predicate Referred(db: Db, p: PositionId) {
    exists c :: c in db.gov.candidates && db.gov.candidates[c].positionId == p
  }

  /** The checks of the service, with the error of the first that fails. */
  function RowError(db: Db, op: RowOp): Option<Error> {
    match op
    case Decide(r, officer, _) =>
      if r !in db.poll.registrations then Some(NotFound)
      else if db.poll.registrations[r].status != RegistrationPending then Some(WrongElectionState)
      else if officer in db.gov.students && db.gov.students[officer] == db.poll.registrations[r].studentId then
        Some(Unauthorized)
      else None
    case ChangeDates(e, newStart, newEnd) =>
      if e !in db.gov.elections then Some(NotFound)
      else if db.gov.elections[e].status != Draft then Some(WrongElectionState)
      else if Redated(db.gov.elections[e], newStart, newEnd).endDate <=
              Redated(db.gov.elections[e], newStart, newEnd).startDate then
        Some(Invalid)
      else None
    case NewPosition(e, p) =>
      if e !in db.gov.elections then Some(NotFound)
      else if db.gov.elections[e].status != Draft then Some(WrongElectionState)
      else None
    case DropPosition(e, p) =>
      if e !in db.gov.elections then Some(NotFound)
      else if db.gov.elections[e].status != Draft then Some(WrongElectionState)
      else if p !in db.gov.positions || db.gov.positions[p] != e then Some(NotFound)
      else None
    case Enter(user, e, r) =>
      if user !in db.gov.students then Some(Unauthorized)
      else if e !in db.gov.elections then Some(NotFound)
      else if !RegistrationOpen(db.gov.elections[e].status) then Some(WrongElectionState)
      else None
  }

  /** The row with the given dates; the others stay as they are in the row. */
  function Redated(x: Election, newStart: Option<int>, newEnd: Option<int>): Election {
    x.(startDate := if newStart.Some? then newStart.value else x.startDate,
       endDate := if newEnd.Some? then newEnd.value else x.endDate)
  }

  /** The write, whatever has become of what was checked. */
  function RowWrite(db: Db, op: RowOp, student: StudentId): (Db, Option<Error>) {
    match op
    case Decide(r, officer, approve) =>
      if r !in db.poll.registrations then (db, Some(NotFound))
      else
        var status := if approve then RegistrationApproved else RegistrationRejected;
        var event := if approve then RegistrationWasApproved(r) else RegistrationWasRejected(r);
        (Logged(WithRegistration(db, r, db.poll.registrations[r].(status := status, verifiedBy := Some(officer))),
                ByUser(officer), event),
         None)
    case ChangeDates(e, newStart, newEnd) =>
      if e !in db.gov.elections then (db, Some(NotFound))
      else (WithElection(db, e, Redated(db.gov.elections[e], newStart, newEnd)), None)
    case NewPosition(e, p) =>
      if p in db.gov.positions then (db, Some(ConstraintViolation))
      else (db.(gov := db.gov.(positions := db.gov.positions[p := e])), None)
    case DropPosition(e, p) =>
      if p !in db.gov.positions then (db, Some(NotFound))
      else if Referred(db, p) then (db, Some(ConstraintViolation))
      else (db.(gov := db.gov.(positions := db.gov.positions - {p})), None)
    case Enter(user, e, r) =>
      if (student, e) in db.poll.byStudent then (db, Some(Conflict))
      else if r in db.poll.registrations then (db, Some(ConstraintViolation))
      else
        (db.(poll := db.poll.(
               registrations :=
                 db.poll.registrations[r := Registration(student, e, RegistrationPending, None, false, None)],
               byStudent := db.poll.byStudent[(student, e) := r])), None)
  }

  function RowStep(db: Db, c: RowCall): (Db, RowCall) {
    match c.phase
    case CheckRow =>
      var error := RowError(db, c.op);
      if error.Some? then (db, c.(phase := RowOver(error)))
      else
        var student := if c.op.Enter? && c.op.user in db.gov.students then db.gov.students[c.op.user] else 0;
        (db, c.(phase := WriteRow(student)))
    case WriteRow(student) =>
      var (after, error) := RowWrite(db, c.op, student);
      (after, c.(phase := RowOver(error)))
    case RowOver(_) => (db, c)
  }

  function RowAlone(db: Db, op: RowOp): (Db, RowPhase) {
    var (db1, c1) := RowStep(db, RowCall(op, CheckRow));
    var (db2, c2) := RowStep(db1, c1);
    (db2, c2.phase)
  }

  function RowEnded(outcome: (Db, Result<()>)): (Db, RowPhase) {
    (outcome.0, RowOver(if outcome.1.Err? then Some(outcome.1.error) else None))
  }

  /** Check and write without interruption do and answer what the service does and answers as one action. */
  lemma RowAloneIsAtomic(db: Db, op: RowOp)
    ensures
      RowAlone(db, op) ==
        match op
        case Decide(r, officer, approve) => RowEnded(ResolveRegistrationEffect(db, r, officer, approve))
        case ChangeDates(e, newStart, newEnd) => RowEnded(UpdateElectionEffect(db, e, newStart, newEnd))
        case NewPosition(e, p) => RowEnded(AddPositionEffect(db, e, p))
        case DropPosition(e, p) => RowEnded(RemovePositionEffect(db, e, p))
        case Enter(user, e, r) => RowEnded(RegisterEffect(db, user, e, r))
  {}

  // ---------- writes whose check has gone stale ----------

  /** The write changes something that the check, made now, would protect. */
  ghost predicate StaleRow(db: Db, op: RowOp, student: StudentId) {
    match op
    case Decide(r, officer, approve) =>
      && r in db.poll.registrations && db.poll.registrations[r].status != RegistrationPending
      && !(db.poll.registrations[r].verifiedBy == Some(officer)
           && db.poll.registrations[r].status == if approve then RegistrationApproved else RegistrationRejected)
    case ChangeDates(e, newStart, newEnd) =>
      && e in db.gov.elections && db.gov.elections[e].status != Draft
      && Redated(db.gov.elections[e], newStart, newEnd) != db.gov.elections[e]
    case NewPosition(e, p) =>
      p !in db.gov.positions && e in db.gov.elections && db.gov.elections[e].status != Draft
    case DropPosition(e, p) =>
      && p in db.gov.positions && !Referred(db, p)
      && db.gov.positions[p] in db.gov.elections && db.gov.elections[db.gov.positions[p]].status != Draft
    case Enter(user, e, r) =>
      && (student, e) !in db.poll.byStudent && r !in db.poll.registrations
      && e in db.gov.elections && !RegistrationOpen(db.gov.elections[e].status)
  }

  lemma DecideKeeps(db: Db, op: RowOp)
    requires op.Decide?
    ensures Evolves(db, RowWrite(db, op, 0).0) <==> !StaleRow(db, op, 0)
  {
    var after := RowWrite(db, op, 0).0;
    GovReflexive(db.gov);
    hide GovEvolves;
    if op.r in db.poll.registrations {
      var x, y := db.poll.registrations[op.r], after.poll.registrations[op.r];
      assert RegistrationEvolves(x, y) <==> !StaleRow(db, op, 0);
    }
  }

  lemma DatesKeep(db: Db, op: RowOp)
    requires op.ChangeDates?
    ensures Evolves(db, RowWrite(db, op, 0).0) <==> !StaleRow(db, op, 0)
  {
    var after := RowWrite(db, op, 0).0;
    PollReflexive(db.poll);
    hide PollEvolves;
    if op.e in db.gov.elections {
      assert ElectionEvolves(db.gov.elections[op.e], after.gov.elections[op.e]) <==> !StaleRow(db, op, 0);
    }
  }

  lemma PollReflexive(p: Poll)
    ensures PollEvolves(p, p)
  {}

  lemma NewPositionKeeps(db: Db, op: RowOp)
    requires op.NewPosition?
    ensures Evolves(db, RowWrite(db, op, 0).0) <==> !StaleRow(db, op, 0)
  {
    var after := RowWrite(db, op, 0).0;
    PollReflexive(db.poll);
    hide PollEvolves;
    if StaleRow(db, op, 0) {
      assert PositionOf(after.gov, op.p, op.e) && !PositionOf(db.gov, op.p, op.e);
    } else {
      forall e, p | e in db.gov.elections && db.gov.elections[e].status != Draft
        ensures PositionOf(db.gov, p, e) <==> PositionOf(after.gov, p, e)
      {}
    }
  }

  lemma DropPositionKeeps(db: Db, op: RowOp)
    requires op.DropPosition?
    ensures Evolves(db, RowWrite(db, op, 0).0) <==> !StaleRow(db, op, 0)
  {
    var after := RowWrite(db, op, 0).0;
    PollReflexive(db.poll);
    hide PollEvolves;
    hide Referred;
    if StaleRow(db, op, 0) {
      var e := db.gov.positions[op.p];
      assert PositionOf(db.gov, op.p, e) && !PositionOf(after.gov, op.p, e);
    } else {
      forall e, p | e in db.gov.elections && db.gov.elections[e].status != Draft
        ensures PositionOf(db.gov, p, e) <==> PositionOf(after.gov, p, e)
      {}
    }
  }

  lemma EnterGrows(db: Db, op: RowOp, student: StudentId)
    requires op.Enter?
    ensures PollEvolves(db.poll, RowWrite(db, op, student).0.poll)
  {}

  lemma EnterKeeps(db: Db, op: RowOp, student: StudentId)
    requires op.Enter?
    ensures Evolves(db, RowWrite(db, op, student).0) <==> !StaleRow(db, op, student)
  {
    var after := RowWrite(db, op, student).0;
    EnterGrows(db, op, student);
    GovReflexive(db.gov);
    hide GovEvolves;
    hide PollEvolves;
    if StaleRow(db, op, student) {
      var k := (student, op.e);
      assert k in after.poll.byStudent && k !in db.poll.byStudent && k.1 == op.e;
    }
  }

  /** A write keeps all that is fixed for good exactly if it is not stale. */
  lemma RowKeepsIff(db: Db, op: RowOp, student: StudentId)
    ensures Evolves(db, RowWrite(db, op, student).0) <==> !StaleRow(db, op, student)
  {
    hide Evolves;
    match op {
      case Decide(_, _, _) => DecideKeeps(db, op); SameForAll(db, op, student);
      case ChangeDates(_, _, _) => DatesKeep(db, op); SameForAll(db, op, student);
      case NewPosition(_, _) => NewPositionKeeps(db, op); SameForAll(db, op, student);
      case DropPosition(_, _) => DropPositionKeeps(db, op); SameForAll(db, op, student);
      case Enter(_, _, _) => EnterKeeps(db, op, student);
    }
  }

  lemma SameForAll(db: Db, op: RowOp, student: StudentId)
    requires !op.Enter?
    ensures RowWrite(db, op, student) == RowWrite(db, op, 0) && StaleRow(db, op, student) == StaleRow(db, op, 0)
  {}
}
