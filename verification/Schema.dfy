/** The tables of Backend/prisma/schema.prisma, as far as the voting process uses them.
    Identifiers and ballot tokens are UUIDs, taken as numbers. */
module Schema {
  import opened JsText

  type UserId = int
  type StudentId = int
  type ElectionId = int
  type PositionId = int
  type CandidateId = int
  type RequestId = int
  type RegistrationId = int
  type VoteId = int
  type Token = int

  datatype ElectionStatus =
    | Draft | PendingApproval | Scheduled | Active | Closed | ResultsPending | Archived | Cancelled

  datatype CandidateStatus = CandidatePending | CandidateApproved | CandidateRejected | Withdrawn

  datatype RegistrationStatus = RegistrationPending | RegistrationApproved | RegistrationRejected

  datatype ActionType = ElectionActivate | ElectionClose | ResultsPublish | CandidateApprove

  datatype ApprovalStatus = Pending | Approved | Rejected

  datatype Decision = Approve | Reject

  datatype Election = Election(status: ElectionStatus, startDate: int, endDate: int)

  datatype Candidate = Candidate(studentId: StudentId, positionId: PositionId, status: CandidateStatus)

  datatype Request = Request(
    action: ActionType, requestedBy: UserId, electionId: Option<ElectionId>,
    payload: Option<CandidateId>, status: ApprovalStatus)

  datatype Registration = Registration(
    studentId: StudentId, electionId: ElectionId, status: RegistrationStatus,
    verifiedBy: Option<UserId>, participated: bool, activeBallotToken: Option<Token>)

  datatype Ballot = Ballot(electionId: ElectionId, issuedAt: int, expiresAt: int, used: bool)

  datatype Selection = Selection(position: PositionId, candidate: CandidateId)

  /** `encryptVote` and `decryptVote` as an ideal pair: opening a sealed vote gives back what was sealed. */
  datatype Sealed = Sealed(iv: int, plaintext: seq<Selection>)

  datatype Vote = Vote(ballotToken: Token, encryptedVote: Sealed, createdAt: int)

  /** `generateVoteReceipt`: the hash of vote id, time and salt, as an ideal hash: it is what it was
      computed from. */
  datatype ReceiptCode = ReceiptHash(voteId: VoteId, issuedAt: int, salt: int)

  datatype Receipt = Receipt(voteId: VoteId, salt: int, createdAt: int)

  datatype Actor = QuorumDecision | AnonymizedVoter | ByUser(id: UserId)

  datatype Event =
    | ElectionScheduled(election: ElectionId)
    | ElectionActivated(election: ElectionId, previous: ElectionStatus)
    | ElectionClosed(election: ElectionId)
    | CandidateWasApproved(candidate: CandidateId, position: PositionId)
    | CandidateWasRejected(candidate: CandidateId, position: PositionId)
    | RegistrationWasApproved(registration: RegistrationId)
    | RegistrationWasRejected(registration: RegistrationId)
    | VoteCast(election: ElectionId)

  datatype LogEntry = LogEntry(actor: Actor, event: Event, at: int)

  /** Who may do what: elections, candidacies and the approval of both. */
  datatype Gov = Gov(
    students: map<UserId, StudentId>,
    elections: map<ElectionId, Election>,
    positions: map<PositionId, ElectionId>,
    candidates: map<CandidateId, Candidate>,
    requests: map<RequestId, Request>,
    approvals: map<(RequestId, UserId), Decision>)

  /** The electoral roll and the ballot box. `byStudent` is the unique index on (student_id,
      election_id). The last three fields are history that no operation reads: the registration that
      claimed a token, the tokens claimed after their registration had participated, and when the
      voting window was checked. */
  datatype Poll = Poll(
    registrations: map<RegistrationId, Registration>,
    byStudent: map<(StudentId, ElectionId), RegistrationId>,
    ballots: map<Token, Ballot>,
    votes: map<VoteId, Vote>,
    receipts: map<ReceiptCode, Receipt>,
    owner: map<Token, RegistrationId>,
    stale: set<Token>,
    checkedAt: map<Token, int>)

  datatype Db = Db(clock: int, gov: Gov, poll: Poll, log: seq<LogEntry>)

  const EMPTY_DB := Db(0, Gov(map[], map[], map[], map[], map[], map[]),
                      Poll(map[], map[], map[], map[], map[], map[], {}, map[]), [])

  /** The errors that services throw. */
  datatype Error =
    | NotFound | Unauthorized | Conflict | WrongElectionState | Invalid | NotImplemented
    | BallotNotFound | BallotExpired | DoubleVoting | ConstraintViolation

  datatype Result<+T> = Ok(value: T) | Err(error: Error)

  /** Statuses that `REGISTRATION_ALLOWED_ELECTION_STATUSES` lists. */
  predicate RegistrationOpen(s: ElectionStatus) {
    s == Draft || s == PendingApproval || s == Scheduled
  }

  function WithElection(db: Db, e: ElectionId, x: Election): Db {
    db.(gov := db.gov.(elections := db.gov.elections[e := x]))
  }

  function WithCandidate(db: Db, c: CandidateId, x: Candidate): Db {
    db.(gov := db.gov.(candidates := db.gov.candidates[c := x]))
  }

  function WithRequest(db: Db, q: RequestId, x: Request): Db {
    db.(gov := db.gov.(requests := db.gov.requests[q := x]))
  }

  function WithRegistration(db: Db, r: RegistrationId, x: Registration): Db {
    db.(poll := db.poll.(registrations := db.poll.registrations[r := x]))
  }

  function Logged(db: Db, actor: Actor, event: Event): Db {
    db.(log := db.log + [LogEntry(actor, event, db.clock)])
  }
}
