/** Backend/src/modules/ballots: issuing, reusing and consuming ballot tokens. `requestBallot` is
    given step by step, one step for each database call it awaits. */
module Ballots {
  import opened JsText
  import opened Schema
  import opened Database
  import opened Verification

  /** BALLOT_SESSION_DURATION_MINUTES in milliseconds. */
  const SESSION := 30 * 60000

  datatype RequestOutcome = Failed(error: Error) | Issued(token: Token)

  datatype RequestPhase =
    | FindStudent
    | CheckEligibility(student: StudentId)
    | CheckWindow(student: StudentId)
    | ReadPointer(student: StudentId, now: int)
    | ReadBallot(student: StudentId, now: int, registration: RegistrationId, token: Token)
    | Clear(student: StudentId, now: int, registration: RegistrationId)
    | Claim(student: StudentId, now: int, registration: RegistrationId)
    | Reread(student: StudentId)
    | ReadWinner(token: Token)
    | Finished(outcome: RequestOutcome)

  /** One call of `requestBallot` in progress. */
  datatype RequestCall = RequestCall(user: UserId, election: ElectionId, phase: RequestPhase)

  function FindRegistration(db: Db, student: StudentId, e: ElectionId): Option<RegistrationId> {
    if (student, e) in db.poll.byStudent && db.poll.byStudent[(student, e)] in db.poll.registrations
    then Some(db.poll.byStudent[(student, e)]) else None
  }

  /** `clearActiveToken`: unconditional. */
  function ClearEffect(db: Db, r: RegistrationId): Db {
    if r !in db.poll.registrations then db
    else WithRegistration(db, r, db.poll.registrations[r].(activeBallotToken := None))
  }

  /** The transaction of `issueBallot`: the claim tests the pointer, and nothing else. The
      result is None when the claim is lost. */
  function IssueEffect(db: Db, r: RegistrationId, e: ElectionId, token: Token, now: int): (Db, Result<Option<Token>>) {
    if r !in db.poll.registrations || db.poll.registrations[r].activeBallotToken.Some? then (db, Ok(None))
    else if token in db.poll.ballots then (db, Err(ConstraintViolation))
    else
      var row := db.poll.registrations[r];
      (db.(poll := db.poll.(
             registrations := db.poll.registrations[r := row.(activeBallotToken := Some(token))],
             ballots := db.poll.ballots[token := Ballot(e, db.clock, db.clock + SESSION, false)],
             owner := db.poll.owner[token := r],
             stale := if row.participated then db.poll.stale + {token} else db.poll.stale,
             checkedAt := db.poll.checkedAt[token := now])),
       Ok(Some(token)))
  }

  /** One step of the call; `token` is the random UUID that an issue would use. */
  function RequestStep(db: Db, c: RequestCall, token: Token): (Db, RequestCall) {
    match c.phase
    case FindStudent =>
      if c.user in db.gov.students then (db, c.(phase := CheckEligibility(db.gov.students[c.user])))
      else (db, c.(phase := Finished(Failed(NotFound))))
    case CheckEligibility(student) =>
      (match IsEligible(db, student, c.election)
       case Eligible => (db, c.(phase := CheckWindow(student)))
       case NotRegistered => (db, c.(phase := Finished(Failed(NotFound))))
       case NotApproved(_) => (db, c.(phase := Finished(Failed(Unauthorized))))
       case AlreadyParticipated => (db, c.(phase := Finished(Failed(Conflict)))))
    case CheckWindow(student) =>
      if c.election !in db.gov.elections then (db, c.(phase := Finished(Failed(NotFound))))
      else
        var e := db.gov.elections[c.election];
        if e.status != Active || db.clock < e.startDate || db.clock > e.endDate then
          (db, c.(phase := Finished(Failed(WrongElectionState))))
        else (db, c.(phase := ReadPointer(student, db.clock)))
    case ReadPointer(student, now) =>
      var found := FindRegistration(db, student, c.election);
      if found.None? then (db, c.(phase := Finished(Failed(NotFound))))
      else
        var r := found.value;
        var pointer := db.poll.registrations[r].activeBallotToken;
        if pointer.Some? then (db, c.(phase := ReadBallot(student, now, r, pointer.value)))
        else (db, c.(phase := Claim(student, now, r)))
    case ReadBallot(student, now, r, t) =>
      if t in db.poll.ballots && db.poll.ballots[t].expiresAt > now then (db, c.(phase := Finished(Issued(t))))
      else (db, c.(phase := Clear(student, now, r)))
    case Clear(student, now, r) => (ClearEffect(db, r), c.(phase := Claim(student, now, r)))
    case Claim(student, now, r) =>
      var (db', issued) := IssueEffect(db, r, c.election, token, now);
      (match issued
       case Err(error) => (db', c.(phase := Finished(Failed(error))))
       case Ok(Some(t)) => (db', c.(phase := Finished(Issued(t))))
       case Ok(None) => (db', c.(phase := Reread(student))))
    case Reread(student) =>
      var found := FindRegistration(db, student, c.election);
      if found.None? || db.poll.registrations[found.value].activeBallotToken.None? then
        (db, c.(phase := Finished(Failed(Conflict))))
      else (db, c.(phase := ReadWinner(db.poll.registrations[found.value].activeBallotToken.value)))
    case ReadWinner(t) =>
      if t in db.poll.ballots then (db, c.(phase := Finished(Issued(t))))
      else (db, c.(phase := Finished(Failed(Conflict))))
    case Finished(_) => (db, c)
  }

  function StepsLeft(p: RequestPhase): nat {
    match p
    case FindStudent => 9
    case CheckEligibility(_) => 8
    case CheckWindow(_) => 7
    case ReadPointer(_, _) => 6
    case ReadBallot(_, _, _, _) => 5
    case Clear(_, _, _) => 4
    case Claim(_, _, _) => 3
    case Reread(_) => 2
    case ReadWinner(_) => 1
    case Finished(_) => 0
  }

  /** The call run to its end without interruption. */
  function RunRequest(db: Db, c: RequestCall, token: Token): (r: (Db, RequestCall))
    ensures r.1.phase.Finished?
    decreases StepsLeft(c.phase)
  {
    if c.phase.Finished? then (db, c)
    else
      var (db', c') := RequestStep(db, c, token);
      RunRequest(db', c', token)
  }

  /** `requestBallot` as one atomic call. */
  function RequestBallotEffect(db: Db, user: UserId, e: ElectionId, token: Token): (Db, RequestOutcome) {
    var (db', c) := RunRequest(db, RequestCall(user, e, FindStudent), token);
    (db', c.phase.outcome)
  }

  // ---------- consuming a token ----------

  datatype ConsumeOutcome =
    | TokenNotFound | TokenExpired | TokenUsed
    | TokenValid(registration: RegistrationId, election: ElectionId)

  ghost predicate Holds(db: Db, r: RegistrationId, token: Token) {
    r in db.poll.registrations && db.poll.registrations[r].activeBallotToken == Some(token)
  }

  /** The unique index on `active_ballot_token`. */
  ghost predicate UniquePointers(db: Db) {
    forall r, r', t :: Holds(db, r, t) && Holds(db, r', t) ==> r == r'
  }

  /** `findFirst` by `activeBallotToken`. */
  ghost function Holder(db: Db, token: Token): (h: Option<RegistrationId>)
    ensures h.Some? ==> Holds(db, h.value, token)
    ensures h.None? ==> forall r :: !Holds(db, r, token)
  {
    if r :| Holds(db, r, token) then Some(r) else None
  }

  /** `consumeBallotToken`: tests the ballot and the pointer; participation is set, not tested. */
  ghost function ConsumeEffect(db: Db, token: Token): (Db, ConsumeOutcome) {
    if token !in db.poll.ballots then (db, TokenNotFound)
    else if db.poll.ballots[token].used then (db, TokenUsed)
    else if db.poll.ballots[token].expiresAt < db.clock then (db, TokenExpired)
    else if Holder(db, token).None? then (db, TokenNotFound)
    else
      var r := Holder(db, token).value;
      var row := db.poll.registrations[r];
      (db.(poll := db.poll.(
             ballots := db.poll.ballots[token := db.poll.ballots[token].(used := true)],
             registrations := db.poll.registrations[r := row.(participated := true, activeBallotToken := None)])),
       TokenValid(r, row.electionId))
  }

  // ---------- the repository and the service, as the program runs them ----------

  /** `byStudent` is an exact index of the registrations. */
  ghost predicate IndexOk(p: Poll) {
    && (forall k | k in p.byStudent :: p.byStudent[k] in p.registrations && KeyOf(p.registrations[p.byStudent[k]]) == k)
    && (forall r | r in p.registrations ::
          KeyOf(p.registrations[r]) in p.byStudent && p.byStudent[KeyOf(p.registrations[r])] == r)
  }

  function KeyOf(x: Registration): (StudentId, ElectionId) {
    (x.studentId, x.electionId)
  }

  method FindRegistrationForToken(s: Store, student: StudentId, e: ElectionId) returns (r: Option<RegistrationId>)
    ensures r == FindRegistration(s.View(), student, e)
    ensures IndexOk(s.View().poll) ==> forall id ::
              r == Some(id) <==> id in s.registrations && KeyOf(s.registrations[id]) == (student, e)
  {
    if (student, e) !in s.byStudent { return None; }
    var id := s.byStudent[(student, e)];
    if id !in s.registrations { return None; }
    return Some(id);
  }

  method ClearActiveToken(s: Store, r: RegistrationId)
    requires r in s.registrations
    modifies s`registrations
    ensures s.View() == ClearEffect(old(s.View()), r)
    ensures s.registrations == old(s.registrations)[r := old(s.registrations)[r].(activeBallotToken := None)]
    ensures UniquePointers(old(s.View())) ==>
            forall id, token | Holds(old(s.View()), r, token) :: !Holds(s.View(), id, token)
  {
    ghost var was := s.View();
    s.registrations := s.registrations[r := s.registrations[r].(activeBallotToken := None)];
    forall id, token | UniquePointers(was) && Holds(was, r, token) ensures !Holds(s.View(), id, token) {
      assert Holds(s.View(), id, token) ==> id != r && Holds(was, id, token);
    }
  }

  /** Claim by conditional update, then create; a token that exists already aborts both. */
  method IssueBallot(s: Store, r: RegistrationId, e: ElectionId, token: Token, ghost now: int)
      returns (issued: Result<Option<Token>>)
    modifies s`registrations, s`ballots, s`owner, s`stale, s`checkedAt
    ensures (s.View(), issued) == IssueEffect(old(s.View()), r, e, token, now)
  {
    if r !in s.registrations || s.registrations[r].activeBallotToken.Some? {
      return Ok(None);
    }
    var registrations := s.registrations;
    var row := s.registrations[r];
    s.registrations := s.registrations[r := row.(activeBallotToken := Some(token))];
    if token in s.ballots {
      s.registrations := registrations;
      return Err(ConstraintViolation);
    }
    CreateBallot(s, r, e, token, row.participated, now);
    return Ok(Some(token));
  }

  /** The new row, and what is recorded about it. */
  method CreateBallot(s: Store, r: RegistrationId, e: ElectionId, token: Token, participated: bool, ghost now: int)
    modifies s`ballots, s`owner, s`stale, s`checkedAt
    ensures s.ballots == old(s.ballots)[token := Ballot(e, s.clock, s.clock + SESSION, false)]
    ensures s.owner == old(s.owner)[token := r] && s.checkedAt == old(s.checkedAt)[token := now]
    ensures s.stale == if participated then old(s.stale) + {token} else old(s.stale)
  {
    s.ballots := s.ballots[token := Ballot(e, s.clock, s.clock + SESSION, false)];
    s.owner := s.owner[token := r];
    if participated { s.stale := s.stale + {token}; }
    s.checkedAt := s.checkedAt[token := now];
  }

  method ConsumeBallotToken(s: Store, token: Token) returns (outcome: ConsumeOutcome)
    requires UniquePointers(s.View())
    modifies s`registrations, s`ballots
    ensures (s.View(), outcome) == ConsumeEffect(old(s.View()), token)
    ensures !outcome.TokenValid? ==> s.View() == old(s.View())
  {
    if token !in s.ballots { return TokenNotFound; }
    var ballot := s.ballots[token];
    if ballot.used { return TokenUsed; }
    if ballot.expiresAt < s.clock { return TokenExpired; }
    if !exists r :: r in s.registrations && s.registrations[r].activeBallotToken == Some(token) {
      assert forall r :: !Holds(s.View(), r, token);
      return TokenNotFound;
    }
    var r :| r in s.registrations && s.registrations[r].activeBallotToken == Some(token);
    assert Holds(s.View(), r, token);
    var row := s.registrations[r];
    s.ballots := s.ballots[token := ballot.(used := true)];
    s.registrations := s.registrations[r := row.(participated := true, activeBallotToken := None)];
    return TokenValid(r, row.electionId);
  }

  lemma {:induction false} RunOneStep(db: Db, c: RequestCall, token: Token)
    requires !c.phase.Finished?
    ensures RunRequest(db, c, token) == RunRequest(RequestStep(db, c, token).0, RequestStep(db, c, token).1, token)
  {}

  /** The first three reads: student, eligibility, window. */
  method OpenRequest(s: Store, user: UserId, e: ElectionId, ghost token: Token) returns (r: Result<StudentId>)
    ensures
      var call := RequestCall(user, e, FindStudent);
      RunRequest(s.View(), call, token) ==
        RunRequest(s.View(),
                   call.(phase := if r.Ok? then ReadPointer(r.value, s.clock) else Finished(Failed(r.error))), token)
  {
    ghost var call := RequestCall(user, e, FindStudent);
    RunOneStep(s.View(), call, token);
    if user !in s.students { return Err(NotFound); }
    var student := s.students[user];
    RunOneStep(s.View(), call.(phase := CheckEligibility(student)), token);
    if (student, e) !in s.byStudent || s.byStudent[(student, e)] !in s.registrations { return Err(NotFound); }
    var registration := s.registrations[s.byStudent[(student, e)]];
    if registration.status != RegistrationApproved { return Err(Unauthorized); }
    if registration.participated { return Err(Conflict); }
    RunOneStep(s.View(), call.(phase := CheckWindow(student)), token);
    if e !in s.elections { return Err(NotFound); }
    var election := s.elections[e];
    if election.status != Active || s.clock < election.startDate || s.clock > election.endDate {
      return Err(WrongElectionState);
    }
    return Ok(student);
  }

  /** The claim, and what a lost claim falls back to. */
  method ClaimOrReread(s: Store, user: UserId, student: StudentId, e: ElectionId, r: RegistrationId, token: Token)
      returns (outcome: RequestOutcome)
    modifies s`registrations, s`ballots, s`owner, s`stale, s`checkedAt
    ensures
      var (db, c) := RunRequest(old(s.View()), RequestCall(user, e, Claim(student, old(s.clock), r)), token);
      s.View() == db && c.phase == Finished(outcome)
  {
    ghost var call := RequestCall(user, e, Claim(student, s.clock, r));
    RunOneStep(s.View(), call, token);
    var issued := IssueBallot(s, r, e, token, s.clock);
    if issued.Err? { return Failed(issued.error); }
    if issued.value.Some? { return Issued(issued.value.value); }
    RunOneStep(s.View(), call.(phase := Reread(student)), token);
    var afterRace := FindRegistrationForToken(s, student, e);
    if afterRace.None? { return Failed(Conflict); }
    var pointer := s.registrations[afterRace.value].activeBallotToken;
    if pointer.None? { return Failed(Conflict); }
    RunOneStep(s.View(), call.(phase := ReadWinner(pointer.value)), token);
    if pointer.value !in s.ballots { return Failed(Conflict); }
    return Issued(pointer.value);
  }

  /** `requestBallot`, called alone. */
  method RequestBallot(s: Store, user: UserId, e: ElectionId, token: Token) returns (outcome: RequestOutcome)
    modifies s`registrations, s`ballots, s`owner, s`stale, s`checkedAt
    ensures (s.View(), outcome) == RequestBallotEffect(old(s.View()), user, e, token)
  {
    ghost var call := RequestCall(user, e, FindStudent);
    var admitted := OpenRequest(s, user, e, token);
    if admitted.Err? { return Failed(admitted.error); }
    var student, now := admitted.value, s.clock;
    RunOneStep(s.View(), call.(phase := ReadPointer(student, now)), token);
    var registration := FindRegistrationForToken(s, student, e);
    if registration.None? { return Failed(NotFound); }
    var r := registration.value;
    var pointer := s.registrations[r].activeBallotToken;
    if pointer.Some? {
      var t := pointer.value;
      RunOneStep(s.View(), call.(phase := ReadBallot(student, now, r, t)), token);
      if t in s.ballots && s.ballots[t].expiresAt > now { return Issued(t); }
      RunOneStep(s.View(), call.(phase := Clear(student, now, r)), token);
      ClearActiveToken(s, r);
    }
    outcome := ClaimOrReread(s, user, student, e, r, token);
  }
}
