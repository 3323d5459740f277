/** The whole back end as a transition system. A run is a list of actions: services that are one
    transaction, and the single steps of ballot requests and approval votes in progress. */
module System {
  import opened JsText
  import opened Schema
  import Elections
  import Verification
  import Candidates
  import opened Approvals
  import opened Ballots
  import opened Voting

  type CallId = int

  /** Services taken as one step. */
  datatype Command =
    | Tick(dt: nat)
    | EnrollStudent(user: UserId, student: StudentId)
    | CreateElection(e: ElectionId, start: int, end: int, positions: set<PositionId>)
    | UpdateElection(e: ElectionId, newStart: Option<int>, newEnd: Option<int>)
    | SubmitElection(e: ElectionId, actor: UserId, q: RequestId)
    | CancelElection(e: ElectionId)
    | ActivateElection(e: ElectionId, actor: UserId)
    | InitiateClose(e: ElectionId, actor: UserId, q: RequestId)
    | AddPosition(e: ElectionId, p: PositionId)
    | RemovePosition(e: ElectionId, p: PositionId)
    | Register(user: UserId, e: ElectionId, r: RegistrationId)
    | ResolveRegistration(r: RegistrationId, officer: UserId, approve: bool)
    | SubmitCandidacy(user: UserId, p: PositionId, c: CandidateId, q: RequestId)
    | WithdrawCandidacy(user: UserId, c: CandidateId)
    | CastVote(token: Token, selections: seq<Selection>, vote: VoteId, salt: int, iv: int)

  datatype Action =
    | Do(command: Command)
    | BeginRequest(id: CallId, user: UserId, e: ElectionId)
    | AdvanceRequest(id: CallId, uuid: Token)
    | BeginApproval(id: CallId, q: RequestId, officer: UserId, d: Decision)
    | AdvanceApproval(id: CallId)

  datatype Sevs = Sevs(db: Db, requesting: map<CallId, RequestCall>, approving: map<CallId, ApprovalCall>)

  const START := Sevs(EMPTY_DB, map[], map[])

  ghost function Execute(db: Db, c: Command): Db {
    match c
    case Tick(dt) => db.(clock := db.clock + dt)
    case EnrollStudent(user, student) =>
      if user in db.gov.students || student in db.gov.students.Values then db
      else db.(gov := db.gov.(students := db.gov.students[user := student]))
    case CreateElection(e, start, end, positions) => Elections.CreateElectionEffect(db, e, start, end, positions).0
    case UpdateElection(e, start, end) => Elections.UpdateElectionEffect(db, e, start, end).0
    case SubmitElection(e, actor, q) => Elections.SubmitElectionEffect(db, e, actor, q).0
    case CancelElection(e) => Elections.CancelElectionEffect(db, e).0
    case ActivateElection(e, actor) => Elections.ActivateElectionEffect(db, e, actor).0
    case InitiateClose(e, actor, q) => Elections.InitiateCloseEffect(db, e, actor, q).0
    case AddPosition(e, p) => Elections.AddPositionEffect(db, e, p).0
    case RemovePosition(e, p) => Elections.RemovePositionEffect(db, e, p).0
    case Register(user, e, r) => Verification.RegisterEffect(db, user, e, r).0
    case ResolveRegistration(r, officer, approve) => Verification.ResolveRegistrationEffect(db, r, officer, approve).0
    case SubmitCandidacy(user, p, c, q) => Candidates.SubmitCandidacyEffect(db, user, p, c, q).0
    case WithdrawCandidacy(user, c) => Candidates.WithdrawCandidacyEffect(db, user, c).0
    case CastVote(token, selections, vote, salt, iv) =>
      if IsRecord(selections) then CastVoteEffect(db, token, selections, vote, salt, iv).0 else db
  }

  ghost function Step(s: Sevs, a: Action): Sevs {
    match a
    case Do(c) => s.(db := Execute(s.db, c))
    case BeginRequest(id, user, e) =>
      if id in s.requesting then s
      else s.(requesting := s.requesting[id := RequestCall(user, e, FindStudent)])
    case AdvanceRequest(id, token) =>
      if id !in s.requesting then s
      else
        var (db, call) := RequestStep(s.db, s.requesting[id], token);
        s.(db := db, requesting := s.requesting[id := call])
    case BeginApproval(id, q, officer, d) =>
      if id in s.approving then s
      else s.(approving := s.approving[id := ApprovalCall(q, officer, d, Check)])
    case AdvanceApproval(id) =>
      if id !in s.approving then s
      else
        var (db, call) := ApprovalStep(s.db, s.approving[id]);
        s.(db := db, approving := s.approving[id := call])
  }

  /** The state after a run. */
  ghost function After(run: seq<Action>): Sevs {
    if run == [] then START else Step(After(run[..|run| - 1]), run[|run| - 1])
  }

  lemma {:induction false} Prefixes(run: seq<Action>)
    requires run != []
    ensures After(run) == Step(After(run[..|run| - 1]), run[|run| - 1])
    ensures forall i | 0 <= i < |run| :: run[..|run| - 1][..i] == run[..i]
    ensures run[..|run|] == run
  {}
}
