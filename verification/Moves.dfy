/** Every step of the system, reduced to what it does to the tables: at most one change of the
    governance tables or one change of the roll and the ballot box, each with its guard. */
module Moves {
  import opened JsText
  import opened Schema
  import Verification
  import opened Approvals
  import opened Ballots
  import opened Voting
  import opened System

  datatype PollMove =
    | PollStays
    | Enters(student: StudentId, e: ElectionId, r: RegistrationId)
    | Verified(r: RegistrationId, officer: UserId, approve: bool)
    | Cleared(r: RegistrationId)
    | Issues(r: RegistrationId, e: ElectionId, token: Token, now: int)
    | Votes(r: RegistrationId, token: Token, vote: VoteId, salt: int, sealed: Sealed)

  datatype GovMove =
    | GovStays
    | Enrolled(user: UserId, student: StudentId)
    | Created(e: ElectionId, start: int, end: int, positions: set<PositionId>)
    | Redated(e: ElectionId, start: int, end: int)
    | Cancels(e: ElectionId)
    | Activates(e: ElectionId, actor: UserId)
    | Submitted(e: ElectionId, actor: UserId, q: RequestId)
    | CloseRequested(e: ElectionId, actor: UserId, q: RequestId)
    | PositionAdded(e: ElectionId, p: PositionId)
    | PositionRemoved(p: PositionId)
    | Stands(user: UserId, p: PositionId, c: CandidateId, q: RequestId)
    | Withdraws(c: CandidateId)
    | Decides(q: RequestId, officer: UserId, d: Decision)
    | Marked(q: RequestId, approved: bool)
    | ElectionPasses(q: RequestId, e: ElectionId, status: ElectionStatus)
    | CandidatePasses(q: RequestId, c: CandidateId)

  predicate PollEnabled(db: Db, m: PollMove) {
    match m
    case PollStays => true
    case Enters(student, e, r) =>
      && student in db.gov.students.Values && e in db.gov.elections && RegistrationOpen(db.gov.elections[e].status)
      && (student, e) !in db.poll.byStudent && r !in db.poll.registrations
    case Verified(r, officer, _) =>
      && r in db.poll.registrations && db.poll.registrations[r].status == RegistrationPending
      && (officer in db.gov.students ==> db.gov.students[officer] != db.poll.registrations[r].studentId)
    case Cleared(r) => r in db.poll.registrations
    case Issues(r, e, token, _) =>
      && r in db.poll.registrations && db.poll.registrations[r].activeBallotToken.None?
      && token !in db.poll.ballots
    case Votes(r, token, vote, salt, _) =>
      && r in db.poll.registrations && db.poll.registrations[r].activeBallotToken == Some(token)
      && token in db.poll.ballots && !db.poll.ballots[token].used && db.clock <= db.poll.ballots[token].expiresAt
      && vote !in db.poll.votes && !VotedWith(db.poll.votes, token)
      && ReceiptHash(vote, db.clock, salt) !in db.poll.receipts
      && AllOk(db, db.poll.registrations[r].electionId, m.sealed.plaintext)
      && IsRecord(m.sealed.plaintext)
  }

  /** The part of the guard that the write itself tests, without the checks that a service makes in an
      earlier call. */
  predicate PollFits(db: Db, m: PollMove) {
    match m
    case Enters(student, e, r) => (student, e) !in db.poll.byStudent && r !in db.poll.registrations
    case Verified(r, _, _) => r in db.poll.registrations
    case _ => PollEnabled(db, m)
  }

  lemma EnabledFits(db: Db, m: PollMove)
    requires PollEnabled(db, m)
    ensures PollFits(db, m)
  {}

  function PollAfter(p: Poll, clock: int, m: PollMove): Poll {
    match m
    case PollStays => p
    case Enters(student, e, r) =>
      p.(registrations := p.registrations[r := Registration(student, e, RegistrationPending, None, false, None)],
         byStudent := p.byStudent[(student, e) := r])
    case Verified(r, officer, approve) =>
      if r !in p.registrations then p
      else
        p.(registrations := p.registrations[r := p.registrations[r].(
             status := if approve then RegistrationApproved else RegistrationRejected, verifiedBy := Some(officer))])
    case Cleared(r) =>
      if r !in p.registrations then p
      else p.(registrations := p.registrations[r := p.registrations[r].(activeBallotToken := None)])
    case Issues(r, e, token, now) =>
      if r !in p.registrations then p
      else
        p.(registrations := p.registrations[r := p.registrations[r].(activeBallotToken := Some(token))],
           ballots := p.ballots[token := Ballot(e, clock, clock + SESSION, false)],
           owner := p.owner[token := r],
           stale := if p.registrations[r].participated then p.stale + {token} else p.stale,
           checkedAt := p.checkedAt[token := now])
    case Votes(r, token, vote, salt, sealed) =>
      if r !in p.registrations || token !in p.ballots then p
      else
        p.(ballots := p.ballots[token := p.ballots[token].(used := true)],
           registrations := p.registrations[r := p.registrations[r].(participated := true, activeBallotToken := None)],
           votes := p.votes[vote := Vote(token, sealed, clock)],
           receipts := p.receipts[ReceiptHash(vote, clock, salt) := Receipt(vote, salt, clock)])
  }

  /** A status change made by a quorum. */
  predicate QuorumMoves(action: ActionType, from: ElectionStatus, to: ElectionStatus) {
    || (action == ElectionActivate && from == PendingApproval && to == Scheduled)
    || (action == ElectionClose && from == Active && to == Closed)
  }

  predicate GovEnabled(db: Db, m: GovMove) {
    var g := db.gov;
    match m
    case GovStays => true
    case Enrolled(user, student) => user !in g.students && student !in g.students.Values
    case Created(e, start, end, positions) =>
      start < end && db.clock < start && e !in g.elections && positions * g.positions.Keys == {}
    case Redated(e, start, end) => start < end && e in g.elections && g.elections[e].status == Draft
    case Cancels(e) => e in g.elections && (g.elections[e].status == Draft || g.elections[e].status == PendingApproval)
    case Activates(e, _) => e in g.elections && g.elections[e].status == Scheduled
    case Submitted(e, actor, q) => e in g.elections && g.elections[e].status == Draft && q !in g.requests
    case CloseRequested(e, actor, q) => e in g.elections && g.elections[e].status == Active && q !in g.requests
    case PositionAdded(e, p) => e in g.elections && g.elections[e].status == Draft && p !in g.positions
    case PositionRemoved(p) =>
      && p in g.positions && g.positions[p] in g.elections && g.elections[g.positions[p]].status == Draft
      && forall c :: c in g.candidates ==> g.candidates[c].positionId != p
    case Stands(user, p, c, q) =>
      && user in g.students && p in g.positions && g.positions[p] in g.elections
      && RegistrationOpen(g.elections[g.positions[p]].status)
      && Verification.IsEligible(db, g.students[user], g.positions[p]) == Verification.Eligible
      && c !in g.candidates && q !in g.requests
    case Withdraws(c) =>
      c in g.candidates && (g.candidates[c].status == CandidatePending || g.candidates[c].status == CandidateApproved)
    case Decides(q, officer, _) => (q, officer) !in g.approvals
    case Marked(q, _) => q in g.requests
    case ElectionPasses(q, e, status) =>
      && q in g.requests && g.requests[q].electionId == Some(e) && e in g.elections
      && QuorumMoves(g.requests[q].action, g.elections[e].status, status)
    case CandidatePasses(q, c) =>
      && q in g.requests && g.requests[q].action == CandidateApprove && g.requests[q].payload == Some(c)
      && c in g.candidates && g.candidates[c].status == CandidatePending
  }

  function GovAfter(g: Gov, m: GovMove): Gov {
    match m
    case GovStays => g
    case Enrolled(user, student) => g.(students := g.students[user := student])
    case Created(e, start, end, positions) =>
      g.(elections := g.elections[e := Election(Draft, start, end)],
         positions := g.positions + map p | p in positions :: e)
    case Redated(e, start, end) => g.(elections := g.elections[e := Election(Draft, start, end)])
    case Cancels(e) =>
      if e !in g.elections then g else g.(elections := g.elections[e := g.elections[e].(status := Cancelled)])
    case Activates(e, _) =>
      if e !in g.elections then g else g.(elections := g.elections[e := g.elections[e].(status := Active)])
    case Submitted(e, actor, q) =>
      if e !in g.elections then g
      else
        g.(elections := g.elections[e := g.elections[e].(status := PendingApproval)],
           requests := g.requests[q := Request(ElectionActivate, actor, Some(e), None, Pending)])
    case CloseRequested(e, actor, q) =>
      g.(requests := g.requests[q := Request(ElectionClose, actor, Some(e), None, Pending)])
    case PositionAdded(e, p) => g.(positions := g.positions[p := e])
    case PositionRemoved(p) => g.(positions := g.positions - {p})
    case Stands(user, p, c, q) =>
      if user !in g.students || p !in g.positions then g
      else
        g.(candidates := g.candidates[c := Candidate(g.students[user], p, CandidatePending)],
           requests := g.requests[q := Request(CandidateApprove, user, Some(g.positions[p]), Some(c), Pending)])
    case Withdraws(c) =>
      if c !in g.candidates then g else g.(candidates := g.candidates[c := g.candidates[c].(status := Withdrawn)])
    case Decides(q, officer, d) => g.(approvals := g.approvals[(q, officer) := d])
    case Marked(q, approved) =>
      if q !in g.requests then g
      else g.(requests := g.requests[q := g.requests[q].(status := if approved then Approved else Rejected)])
    case ElectionPasses(q, e, status) =>
      if q !in g.requests || e !in g.elections then g
      else
        g.(requests := g.requests[q := g.requests[q].(status := Approved)],
           elections := g.elections[e := g.elections[e].(status := status)])
    case CandidatePasses(q, c) =>
      if q !in g.requests || c !in g.candidates then g
      else
        g.(requests := g.requests[q := g.requests[q].(status := Approved)],
           candidates := g.candidates[c := g.candidates[c].(status := CandidateApproved)])
  }

  /** The audit events of a move. */
  predicate Reports(db: Db, g: GovMove, p: PollMove, log: seq<LogEntry>) {
    match g
    case Activates(e, actor) => log == [LogEntry(ByUser(actor), ElectionActivated(e, Scheduled), db.clock)]
    case ElectionPasses(q, e, status) =>
      var event := if status == Scheduled then ElectionScheduled(e) else ElectionClosed(e);
      log == [LogEntry(QuorumDecision, event, db.clock)]
    case CandidatePasses(q, c) =>
      c in db.gov.candidates &&
      log == [LogEntry(QuorumDecision, CandidateWasApproved(c, db.gov.candidates[c].positionId), db.clock)]
    case GovStays =>
      (match p
       case Verified(r, officer, approve) =>
         log == [LogEntry(ByUser(officer),
                          if approve then RegistrationWasApproved(r) else RegistrationWasRejected(r), db.clock)]
       case Votes(r, token, _, _, _) =>
         r in db.poll.registrations &&
         log == [LogEntry(AnonymizedVoter, VoteCast(db.poll.registrations[r].electionId), db.clock)]
       case _ => log == [])
    case _ => log == []
  }

  /** `dt` is the time that passes; the log grows by what the move reports. */
  ghost predicate Does(db: Db, dt: nat, g: GovMove, p: PollMove, db': Db) {
    && (g.GovStays? || p.PollStays?)
    && GovEnabled(db, g) && PollEnabled(db, p)
    && db'.clock == db.clock + dt
    && db'.gov == GovAfter(db.gov, g)
    && db'.poll == PollAfter(db.poll, db.clock, p)
    && db.log <= db'.log && Reports(db, g, p, db'.log[|db.log|..])
  }

  lemma Idle(db: Db)
    ensures Does(db, 0, GovStays, PollStays, db)
  {
    assert db.log[|db.log|..] == [];
  }

  /** An election command makes one governance move. */
  lemma LifeCycleCommand(db: Db, c: Command) returns (g: GovMove)
    requires c.SubmitElection? || c.CancelElection? || c.ActivateElection? || c.InitiateClose?
    ensures Does(db, 0, g, PollStays, Execute(db, c))
    ensures !g.Decides? && !g.Marked? && !g.ElectionPasses? && !g.CandidatePasses?
  {
    var db' := Execute(db, c);
    assert db'.log[|db.log|..] == if c.ActivateElection? && db' != db then [db'.log[|db.log|]] else [];
    if db' == db {
      return GovStays;
    }
    match c {
      case SubmitElection(e, actor, q) => g := Submitted(e, actor, q);
      case CancelElection(e) => g := Cancels(e);
      case ActivateElection(e, actor) => g := Activates(e, actor);
      case InitiateClose(e, actor, q) => g := CloseRequested(e, actor, q);
    }
  }

  /** Drafting an election, and enrolling students. */
  lemma DraftCommand(db: Db, c: Command) returns (g: GovMove)
    requires c.EnrollStudent? || c.CreateElection? || c.UpdateElection? || c.AddPosition? || c.RemovePosition?
    ensures Does(db, 0, g, PollStays, Execute(db, c))
    ensures !g.Decides? && !g.Marked? && !g.ElectionPasses? && !g.CandidatePasses?
  {
    var db' := Execute(db, c);
    assert db'.log == db.log && db'.log[|db.log|..] == [];
    if db' == db {
      return GovStays;
    }
    match c {
      case EnrollStudent(user, student) => g := Enrolled(user, student);
      case CreateElection(e, start, end, positions) => g := Created(e, start, end, positions);
      case UpdateElection(e, start, end) =>
        g := Redated(e, db'.gov.elections[e].startDate, db'.gov.elections[e].endDate);
      case AddPosition(e, p) => g := PositionAdded(e, p);
      case RemovePosition(e, p) => g := PositionRemoved(p);
    }
  }

  lemma CandidacyCommand(db: Db, c: Command) returns (g: GovMove)
    requires c.SubmitCandidacy? || c.WithdrawCandidacy?
    ensures Does(db, 0, g, PollStays, Execute(db, c))
    ensures !g.Decides? && !g.Marked? && !g.ElectionPasses? && !g.CandidatePasses?
  {
    var db' := Execute(db, c);
    assert db'.log == db.log && db'.log[|db.log|..] == [];
    if db' == db {
      return GovStays;
    }
    match c {
      case SubmitCandidacy(user, p, candidate, q) => g := Stands(user, p, candidate, q);
      case WithdrawCandidacy(user, candidate) => g := Withdraws(candidate);
    }
  }

  lemma RollCommand(db: Db, c: Command) returns (p: PollMove)
    requires c.Register? || c.ResolveRegistration? || c.Tick?
    ensures Does(db, if c.Tick? then c.dt else 0, GovStays, p, Execute(db, c))
    ensures p.PollStays? || p.Enters? || p.Verified?
  {
    var db' := Execute(db, c);
    assert db'.log[|db.log|..] == if c.ResolveRegistration? && db' != db then [db'.log[|db.log|]] else [];
    if db' == db || c.Tick? {
      return PollStays;
    }
    match c {
      case Register(user, e, r) => p := Enters(db.gov.students[user], e, r);
      case ResolveRegistration(r, officer, approve) => p := Verified(r, officer, approve);
    }
  }

  lemma CastCommand(db: Db, c: Command) returns (p: PollMove)
    requires c.CastVote?
    ensures Does(db, 0, GovStays, p, Execute(db, c))
    ensures p.PollStays? ==> Execute(db, c) == db
    ensures p.Votes? ==> p == Votes(p.r, c.token, c.vote, c.salt, Sealed(c.iv, c.selections))
    ensures p.PollStays? || p.Votes?
  {
    var db' := Execute(db, c);
    assert db'.log[|db.log|..] == if db' != db then [db'.log[|db.log|]] else [];
    if db' == db {
      return PollStays;
    }
    var r := Holder(db, c.token).value;
    p := Votes(r, c.token, c.vote, c.salt, Sealed(c.iv, c.selections));
  }

  /** A step of a ballot request clears a pointer, claims one, or changes nothing. */
  lemma RequestMove(db: Db, c: RequestCall, token: Token) returns (p: PollMove)
    ensures Does(db, 0, GovStays, p, RequestStep(db, c, token).0)
    ensures p.PollStays? || p.Cleared? || p.Issues?
    ensures p.PollStays? ==> RequestStep(db, c, token).0 == db
    ensures p.Cleared? ==> c.phase.Clear? && c.phase.registration == p.r
    ensures p.Issues? ==>
              c.phase.Claim? && p == Issues(c.phase.registration, c.election, token, c.phase.now)
  {
    var db' := RequestStep(db, c, token).0;
    assert db'.log == db.log && db'.log[|db.log|..] == [];
    if db' == db {
      return PollStays;
    }
    match c.phase {
      case Clear(_, _, r) => p := Cleared(r);
      case Claim(_, now, r) => p := Issues(r, c.election, token, now);
    }
  }

  /** A step of an approval vote inserts a decision, resolves the request, or changes nothing. */
  lemma ApprovalMove(db: Db, c: ApprovalCall) returns (g: GovMove)
    ensures Does(db, 0, g, PollStays, ApprovalStep(db, c).0)
    ensures g.GovStays? ==> ApprovalStep(db, c).0 == db
    ensures g.GovStays? || g.Decides? || g.Marked? || g.ElectionPasses? || g.CandidatePasses?
    ensures g.Decides? ==> c.phase.Insert? && g == Decides(c.request, c.officer, c.decision)
    ensures g.Marked? ==> c.phase.Resolve? && g == Marked(c.request, c.phase.approved)
    ensures g.ElectionPasses? ==> c.phase.Resolve? && c.phase.approved && g.q == c.request
    ensures g.CandidatePasses? ==> c.phase.Resolve? && c.phase.approved && g.q == c.request
  {
    var db' := ApprovalStep(db, c).0;
    assert db'.log[|db.log|..] == if |db'.log| > |db.log| then [db'.log[|db.log|]] else [];
    if db' == db {
      return GovStays;
    }
    match c.phase {
      case Insert => g := Decides(c.request, c.officer, c.decision);
      case Resolve(approved, _, _) =>
        if |db'.log| == |db.log| {
          g := Marked(c.request, approved);
        } else if db.gov.requests[c.request].action == CandidateApprove {
          g := CandidatePasses(c.request, db.gov.requests[c.request].payload.value);
        } else {
          var e := db.gov.requests[c.request].electionId.value;
          g := ElectionPasses(c.request, e, db'.gov.elections[e].status);
        }
    }
  }

  /** Which actions make which moves. */
  ghost predicate ComesFrom(s: Sevs, a: Action, g: GovMove, p: PollMove) {
    && (p.Votes? ==>
          && a.Do? && a.command.CastVote?
          && var c := a.command; p == Votes(p.r, c.token, c.vote, c.salt, Sealed(c.iv, c.selections)))
    && (p.Cleared? || p.Issues? ==> a.AdvanceRequest? && a.id in s.requesting)
    && (p.Cleared? ==> s.requesting[a.id].phase.Clear? && s.requesting[a.id].phase.registration == p.r)
    && (p.Issues? ==>
          var c := s.requesting[a.id];
          c.phase.Claim? && p == Issues(c.phase.registration, c.election, a.uuid, c.phase.now))
    && (g.Decides? || g.Marked? || g.ElectionPasses? || g.CandidatePasses? ==>
          a.AdvanceApproval? && a.id in s.approving)
    && (g.Decides? ==>
          var c := s.approving[a.id];
          c.phase.Insert? && g == Decides(c.request, c.officer, c.decision))
    && (g.Marked? ==>
          s.approving[a.id].phase.Resolve? && g == Marked(s.approving[a.id].request, s.approving[a.id].phase.approved))
    && (g.ElectionPasses? || g.CandidatePasses? ==>
          s.approving[a.id].phase.Resolve? && s.approving[a.id].phase.approved && g.q == s.approving[a.id].request)
  }

  /** Every step makes at most one move. */
  lemma StepMove(s: Sevs, a: Action) returns (dt: nat, g: GovMove, p: PollMove)
    ensures Does(s.db, dt, g, p, Step(s, a).db)
    ensures ComesFrom(s, a, g, p)
  {
    hide Does;
    hide Execute;
    hide RequestStep;
    hide ApprovalStep;
    dt, g, p := 0, GovStays, PollStays;
    Idle(s.db);
    match a {
      case Do(c) =>
        if c.Tick? || c.Register? || c.ResolveRegistration? {
          p := RollCommand(s.db, c);
          dt := if c.Tick? then c.dt else 0;
        } else if c.CastVote? {
          p := CastCommand(s.db, c);
        } else if c.SubmitCandidacy? || c.WithdrawCandidacy? {
          g := CandidacyCommand(s.db, c);
        } else if c.EnrollStudent? || c.CreateElection? || c.UpdateElection? || c.AddPosition? || c.RemovePosition? {
          g := DraftCommand(s.db, c);
        } else {
          g := LifeCycleCommand(s.db, c);
        }
      case AdvanceRequest(id, uuid) =>
        if id in s.requesting {
          p := RequestMove(s.db, s.requesting[id], uuid);
        }
      case AdvanceApproval(id) =>
        if id in s.approving {
          g := ApprovalMove(s.db, s.approving[id]);
        }
      case _ =>
    }
  }
}
