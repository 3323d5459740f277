/** Nothing that is published about ballots, votes, receipts and audit entries depends on who the
    students are: renaming all students changes none of these tables, in any run. */
module Anonymity {
  import opened JsText
  import opened Schema
  import Elections
  import opened Verification
  import opened Candidates
  import opened Approvals
  import opened Ballots
  import opened Voting
  import opened System
  import OneVote
  import Roll

  ghost predicate IsRenaming(f: imap<StudentId, StudentId>) {
    (forall s: StudentId :: s in f) && (forall s, t | s in f && t in f && f[s] == f[t] :: s == t)
  }

  type Renaming = f: imap<StudentId, StudentId> | IsRenaming(f) ghost witness (imap s: StudentId :: s)

  ghost function New(f: Renaming, s: StudentId): StudentId {
    f[s]
  }

  lemma NewInjective(f: Renaming, s: StudentId, t: StudentId)
    ensures New(f, s) == New(f, t) <==> s == t
  {}

  // ---------- two databases that differ in the names of students ----------

  ghost function NewCandidate(f: Renaming, x: Candidate): Candidate {
    x.(studentId := New(f, x.studentId))
  }

  ghost function NewRegistration(f: Renaming, x: Registration): Registration {
    x.(studentId := New(f, x.studentId))
  }

  ghost predicate SameStudents(f: Renaming, a: map<UserId, StudentId>, b: map<UserId, StudentId>) {
    (forall u :: u in a <==> u in b) && forall u | u in a :: b[u] == New(f, a[u])
  }

  ghost predicate SameCandidates(f: Renaming, a: map<CandidateId, Candidate>, b: map<CandidateId, Candidate>) {
    (forall c :: c in a <==> c in b) && forall c | c in a :: b[c] == NewCandidate(f, a[c])
  }

  ghost predicate SameRegistrations(f: Renaming, a: map<RegistrationId, Registration>,
                                    b: map<RegistrationId, Registration>) {
    (forall r :: r in a <==> r in b) && forall r | r in a :: b[r] == NewRegistration(f, a[r])
  }

  ghost predicate SameIndex(f: Renaming, a: map<(StudentId, ElectionId), RegistrationId>,
                            b: map<(StudentId, ElectionId), RegistrationId>) {
    forall s, e :: SameEntry(f, a, b, s, e)
  }

  ghost predicate SameEntry(f: Renaming, a: map<(StudentId, ElectionId), RegistrationId>,
                            b: map<(StudentId, ElectionId), RegistrationId>, s: StudentId, e: ElectionId) {
    && ((s, e) in a <==> (New(f, s), e) in b)
    && ((s, e) in a ==> b[(New(f, s), e)] == a[(s, e)])
  }

  ghost predicate SameGov(f: Renaming, a: Gov, b: Gov) {
    && a.elections == b.elections && a.positions == b.positions && a.requests == b.requests
    && a.approvals == b.approvals
    && SameStudents(f, a.students, b.students) && SameCandidates(f, a.candidates, b.candidates)
  }

  /** The tables that are published: ballots, votes, receipts. */
  ghost predicate SameBox(a: Poll, b: Poll) {
    && a.ballots == b.ballots && a.votes == b.votes && a.receipts == b.receipts
    && a.owner == b.owner && a.stale == b.stale && a.checkedAt == b.checkedAt
  }

  ghost predicate SamePoll(f: Renaming, a: Poll, b: Poll) {
    && SameRegistrations(f, a.registrations, b.registrations) && SameIndex(f, a.byStudent, b.byStudent) && SameBox(a, b)
  }

  ghost predicate Same(f: Renaming, a: Db, b: Db) {
    a.clock == b.clock && a.log == b.log && SameGov(f, a.gov, b.gov) && SamePoll(f, a.poll, b.poll)
  }

  ghost function NewCommand(f: Renaming, c: Command): Command {
    if c.EnrollStudent? then c.(student := New(f, c.student)) else c
  }

  ghost function NewAction(f: Renaming, a: Action): Action {
    if a.Do? then Do(NewCommand(f, a.command)) else a
  }

  ghost function NewRequest(f: Renaming, c: RequestCall): RequestCall {
    match c.phase
    case CheckEligibility(s) => c.(phase := CheckEligibility(New(f, s)))
    case CheckWindow(s) => c.(phase := CheckWindow(New(f, s)))
    case ReadPointer(s, now) => c.(phase := ReadPointer(New(f, s), now))
    case ReadBallot(s, now, r, t) => c.(phase := ReadBallot(New(f, s), now, r, t))
    case Clear(s, now, r) => c.(phase := Clear(New(f, s), now, r))
    case Claim(s, now, r) => c.(phase := Claim(New(f, s), now, r))
    case Reread(s) => c.(phase := Reread(New(f, s)))
    case _ => c
  }

  // ---------- tables ----------

  lemma UserUpdated(f: Renaming, a: map<UserId, StudentId>,
                    b: map<UserId, StudentId>, u: UserId, s: StudentId)
    requires SameStudents(f, a, b)
    ensures SameStudents(f, a[u := s], b[u := New(f, s)])
    ensures s in a.Values <==> New(f, s) in b.Values
    ensures (u in a <==> u in b) && (u in a ==> b[u] == New(f, a[u]))
  {
    if s in a.Values {
      var v := Roll.KeyOfValue(a, s);
      assert b[v] in b.Values;
    }
    if New(f, s) in b.Values {
      var v := Roll.KeyOfValue(b, New(f, s));
      NewInjective(f, s, a[v]);
      assert a[v] in a.Values;
    }
  }

  lemma CandidateUpdated(f: Renaming, a: map<CandidateId, Candidate>, b: map<CandidateId, Candidate>,
                         c: CandidateId, x: Candidate)
    requires SameCandidates(f, a, b)
    ensures SameCandidates(f, a[c := x], b[c := NewCandidate(f, x)])
    ensures c in a <==> c in b
    ensures c in a ==> b[c] == NewCandidate(f, a[c])
  {}

  lemma RegistrationUpdated(f: Renaming, a: map<RegistrationId, Registration>,
                            b: map<RegistrationId, Registration>,
                            r: RegistrationId, x: Registration)
    requires SameRegistrations(f, a, b)
    ensures SameRegistrations(f, a[r := x], b[r := NewRegistration(f, x)])
    ensures r in a <==> r in b
    ensures r in a ==> b[r] == NewRegistration(f, a[r])
  {}

  lemma EntryUpdated(f: Renaming, a: map<(StudentId, ElectionId), RegistrationId>,
                     b: map<(StudentId, ElectionId), RegistrationId>,
                     s: StudentId, e: ElectionId, r: RegistrationId)
    requires SameIndex(f, a, b)
    ensures SameIndex(f, a[(s, e) := r], b[(New(f, s), e) := r])
  {
    var a', b' := a[(s, e) := r], b[(New(f, s), e) := r];
    forall t, x ensures SameEntry(f, a', b', t, x) {
      assert SameEntry(f, a, b, t, x);
      NewInjective(f, s, t);
    }
  }

  lemma SameEligibility(f: Renaming, a: Db, b: Db, s: StudentId, e: ElectionId)
    requires SamePoll(f, a.poll, b.poll)
    ensures IsEligible(a, s, e) == IsEligible(b, New(f, s), e)
    ensures FindRegistration(a, s, e) == FindRegistration(b, New(f, s), e)
    ensures FindRegistration(a, s, e).Some? ==> FindRegistration(a, s, e).value in a.poll.registrations
  {
    assert SameEntry(f, a.poll.byStudent, b.poll.byStudent, s, e);
  }

  lemma SameHasCandidacy(f: Renaming, a: map<CandidateId, Candidate>, b: map<CandidateId, Candidate>,
                         s: StudentId, p: PositionId)
    requires SameCandidates(f, a, b)
    ensures HasCandidacy(a, s, p) <==> HasCandidacy(b, New(f, s), p)
  {
    forall c | c in a ensures a[c].studentId == s <==> b[c].studentId == New(f, s) {
      NewInjective(f, s, a[c].studentId);
    }
  }

  /** Positions named by candidates do not depend on names of students. */
  lemma SameNamed(f: Renaming, a: map<CandidateId, Candidate>,
                  b: map<CandidateId, Candidate>, p: PositionId)
    requires SameCandidates(f, a, b)
    ensures (exists c :: c in a && a[c].positionId == p) <==> (exists c :: c in b && b[c].positionId == p)
  {
    if c :| c in a && a[c].positionId == p {
      assert c in b && b[c].positionId == p;
    }
    if c :| c in b && b[c].positionId == p {
      assert c in a && a[c].positionId == p;
    }
  }

  // ---------- steps ----------

  lemma SameElectionCommand(f: Renaming, a: Db, b: Db, c: Command)
    requires Same(f, a, b)
    requires c.Tick? || c.SubmitElection? || c.CancelElection? || c.ActivateElection? || c.InitiateClose?
    ensures Same(f, Execute(a, c), Execute(b, c))
  {
    hide SamePoll;
    hide SameStudents;
    hide SameCandidates;
  }

  lemma SameDraftCommand(f: Renaming, a: Db, b: Db, c: Command)
    requires Same(f, a, b)
    requires c.CreateElection? || c.UpdateElection? || c.AddPosition? || c.RemovePosition?
    ensures Same(f, Execute(a, c), Execute(b, c))
  {
    hide SamePoll;
    hide SameStudents;
    if c.RemovePosition? {
      SameNamed(f, a.gov.candidates, b.gov.candidates, c.p);
    }
    hide SameCandidates;
  }

  lemma SameEnrol(f: Renaming, a: Db, b: Db, c: Command)
    requires Same(f, a, b) && c.EnrollStudent?
    ensures Same(f, Execute(a, c), Execute(b, NewCommand(f, c)))
  {
    hide SamePoll;
    hide SameCandidates;
    UserUpdated(f, a.gov.students, b.gov.students, c.user, c.student);
  }

  lemma SameRegister(f: Renaming, a: Db, b: Db, c: Command)
    requires Same(f, a, b) && c.Register?
    ensures Same(f, Execute(a, c), Execute(b, c))
  {
    hide SameCandidates;
    hide SameRegistrations;
    hide SameIndex;
    hide SameEntry;
    if c.user in a.gov.students {
      var s := a.gov.students[c.user];
      RegistrationUpdated(f, a.poll.registrations, b.poll.registrations, c.r,
                          Registration(s, c.e, RegistrationPending, None, false, None));
      EntryUpdated(f, a.poll.byStudent, b.poll.byStudent, s, c.e, c.r);
      EntryOf(f, a.poll.byStudent, b.poll.byStudent, s, c.e);
    }
  }

  lemma EntryOf(f: Renaming, a: map<(StudentId, ElectionId), RegistrationId>,
                b: map<(StudentId, ElectionId), RegistrationId>, s: StudentId, e: ElectionId)
    requires SameIndex(f, a, b)
    ensures (s, e) in a <==> (New(f, s), e) in b
  {
    assert SameEntry(f, a, b, s, e);
  }

  lemma SameResolve(f: Renaming, a: Db, b: Db, c: Command)
    requires Same(f, a, b) && c.ResolveRegistration?
    ensures Same(f, Execute(a, c), Execute(b, c))
  {
    hide SameCandidates;
    hide SameRegistrations;
    hide SameIndex;
    hide SameStudents;
    UserUpdated(f, a.gov.students, b.gov.students, c.officer, 0);
    RegistrationUpdated(f, a.poll.registrations, b.poll.registrations, c.r,
                        Registration(0, 0, RegistrationPending, None, false, None));
    if c.r in a.poll.registrations {
      var status := if c.approve then RegistrationApproved else RegistrationRejected;
      RegistrationUpdated(f, a.poll.registrations, b.poll.registrations, c.r,
                          a.poll.registrations[c.r].(status := status, verifiedBy := Some(c.officer)));
      if c.officer in a.gov.students {
        NewInjective(f, a.gov.students[c.officer], a.poll.registrations[c.r].studentId);
      }
    }
  }

  lemma SameCandidacy(f: Renaming, a: Db, b: Db, c: Command)
    requires Same(f, a, b) && c.SubmitCandidacy?
    ensures Same(f, Execute(a, c), Execute(b, c))
  {
    hide SamePoll;
    hide SameCandidates;
    hide IsEligible;
    hide HasCandidacy;
    if c.user in a.gov.students {
      var s := a.gov.students[c.user];
      SameHasCandidacy(f, a.gov.candidates, b.gov.candidates, s, c.p);
      CandidateUpdated(f, a.gov.candidates, b.gov.candidates, c.c, Candidate(s, c.p, CandidatePending));
      if c.p in a.gov.positions {
        SameEligibility(f, a, b, s, a.gov.positions[c.p]);
      }
    }
  }

  lemma SameWithdrawal(f: Renaming, a: Db, b: Db, c: Command)
    requires Same(f, a, b) && c.WithdrawCandidacy?
    ensures Same(f, Execute(a, c), Execute(b, c))
  {
    hide SamePoll;
    hide SameCandidates;
    CandidateUpdated(f, a.gov.candidates, b.gov.candidates, c.c, Candidate(0, 0, CandidatePending));
    if c.user in a.gov.students && c.c in a.gov.candidates {
      NewInjective(f, a.gov.students[c.user], a.gov.candidates[c.c].studentId);
      CandidateUpdated(f, a.gov.candidates, b.gov.candidates, c.c, a.gov.candidates[c.c].(status := Withdrawn));
    }
  }

  lemma SameConsume(f: Renaming, a: Db, b: Db, token: Token)
    requires Same(f, a, b) && UniquePointers(a)
    ensures Same(f, ConsumeEffect(a, token).0, ConsumeEffect(b, token).0)
    ensures ConsumeEffect(a, token).1 == ConsumeEffect(b, token).1
  {
    hide SameGov;
    hide SameIndex;
    SameHolder(f, a, b, token);
    hide SameRegistrations;
    hide UniquePointers;
    if Holder(a, token).Some? {
      var r := Holder(a, token).value;
      RegistrationUpdated(f, a.poll.registrations, b.poll.registrations, r,
                          a.poll.registrations[r].(participated := true, activeBallotToken := None));
    }
  }

  lemma SameHolder(f: Renaming, a: Db, b: Db, token: Token)
    requires Same(f, a, b) && UniquePointers(a)
    ensures Holder(a, token) == Holder(b, token)
  {
    forall r ensures Holds(a, r, token) <==> Holds(b, r, token) {
      RegistrationUpdated(f, a.poll.registrations, b.poll.registrations, r,
                          Registration(0, 0, RegistrationPending, None, false, None));
    }
    hide Same;
  }

  lemma SameSelections(f: Renaming, a: Db, b: Db, e: ElectionId, selections: seq<Selection>)
    requires SameGov(f, a.gov, b.gov)
    ensures AllOk(a, e, selections) <==> AllOk(b, e, selections)
  {
    forall i | 0 <= i < |selections| ensures SelectionOk(a, e, selections[i]) <==> SelectionOk(b, e, selections[i]) {}
  }

  lemma SameCast(f: Renaming, a: Db, b: Db, c: Command)
    requires Same(f, a, b) && UniquePointers(a) && c.CastVote?
    ensures Same(f, Execute(a, c), Execute(b, c))
  {
    SameConsume(f, a, b, c.token);
    hide ConsumeEffect;
    hide SameRegistrations;
    hide SameIndex;
    var outcome := ConsumeEffect(a, c.token).1;
    if outcome.TokenValid? {
      SameSelections(f, a, b, outcome.election, c.selections);
    }
    hide SameStudents;
    hide SameCandidates;
    hide AllOk;
  }

  lemma SameCandidateDecision(f: Renaming, a: Db, b: Db, payload: Option<CandidateId>)
    requires Same(f, a, b)
    ensures Same(f, ResolveCandidacyEffect(a, payload, true).0, ResolveCandidacyEffect(b, payload, true).0)
    ensures ResolveCandidacyEffect(a, payload, true).1 == ResolveCandidacyEffect(b, payload, true).1
  {
    hide SamePoll;
    hide SameStudents;
    hide SameCandidates;
    if payload.Some? {
      var c := payload.value;
      CandidateUpdated(f, a.gov.candidates, b.gov.candidates, c, Candidate(0, 0, CandidatePending));
      if c in a.gov.candidates {
        CandidateUpdated(f, a.gov.candidates, b.gov.candidates, c, a.gov.candidates[c].(status := CandidateApproved));
      }
    }
  }

  lemma SameElectionDecision(f: Renaming, a: Db, b: Db, e: ElectionId, close: bool)
    requires Same(f, a, b)
    ensures Same(f, Elections.ApplyApprovalDecisionEffect(a, e, close, true).0,
                 Elections.ApplyApprovalDecisionEffect(b, e, close, true).0)
  {
    hide SamePoll;
    hide SameStudents;
    hide SameCandidates;
  }

  lemma SameDispatch(f: Renaming, a: Db, b: Db, request: Request)
    requires Same(f, a, b)
    ensures Same(f, DispatchEffect(a, request).0, DispatchEffect(b, request).0)
    ensures DispatchEffect(a, request).1 == DispatchEffect(b, request).1
  {
    hide Same;
    hide ResolveCandidacyEffect;
    hide Elections.ApplyApprovalDecisionEffect;
    SameCandidateDecision(f, a, b, request.payload);
    if request.electionId.Some? {
      SameElectionDecision(f, a, b, request.electionId.value, request.action == ElectionClose);
    }
  }

  lemma SameResolution(f: Renaming, a: Db, b: Db, q: RequestId, approved: bool)
    requires Same(f, a, b)
    ensures Same(f, ResolveEffect(a, q, approved).0, ResolveEffect(b, q, approved).0)
    ensures ResolveEffect(a, q, approved).1 == ResolveEffect(b, q, approved).1
  {
    hide SamePoll;
    hide SameStudents;
    hide SameCandidates;
    hide DispatchEffect;
    if q in a.gov.requests {
      var row := a.gov.requests[q];
      var x := row.(status := if approved then Approved else Rejected);
      SameDispatch(f, WithRequest(a, q, x), WithRequest(b, q, x), row);
    }
  }

  lemma SameApprovalStep(f: Renaming, a: Db, b: Db, c: ApprovalCall)
    requires Same(f, a, b)
    ensures
      var ((a', c1), (b', c2)) := (ApprovalStep(a, c), ApprovalStep(b, c));
      Same(f, a', b') && c1 == c2
  {
    hide SamePoll;
    hide SameStudents;
    hide SameCandidates;
    hide Deciders;
    if c.phase.Resolve? {
      SameResolution(f, a, b, c.request, c.phase.approved);
    }
    hide ResolveEffect;
  }

  lemma SameClear(f: Renaming, a: Db, b: Db, r: RegistrationId)
    requires Same(f, a, b)
    ensures Same(f, ClearEffect(a, r), ClearEffect(b, r))
  {
    hide SameGov;
    hide SameIndex;
    hide SameRegistrations;
    RegistrationUpdated(f, a.poll.registrations, b.poll.registrations, r,
                        Registration(0, 0, RegistrationPending, None, false, None));
    if r in a.poll.registrations {
      RegistrationUpdated(f, a.poll.registrations, b.poll.registrations, r,
                          a.poll.registrations[r].(activeBallotToken := None));
    }
  }

  lemma SameIssue(f: Renaming, a: Db, b: Db, r: RegistrationId, e: ElectionId,
                  token: Token, now: int)
    requires Same(f, a, b)
    ensures Same(f, IssueEffect(a, r, e, token, now).0, IssueEffect(b, r, e, token, now).0)
    ensures IssueEffect(a, r, e, token, now).1 == IssueEffect(b, r, e, token, now).1
  {
    hide SameGov;
    hide SameIndex;
    hide SameRegistrations;
    RegistrationUpdated(f, a.poll.registrations, b.poll.registrations, r,
                        Registration(0, 0, RegistrationPending, None, false, None));
    if r in a.poll.registrations {
      RegistrationUpdated(f, a.poll.registrations, b.poll.registrations, r,
                          a.poll.registrations[r].(activeBallotToken := Some(token)));
    }
  }

  ghost predicate SameOutcome(f: Renaming, a: (Db, RequestCall), b: (Db, RequestCall)) {
    Same(f, a.0, b.0) && b.1 == NewRequest(f, a.1)
  }

  lemma SameRead(f: Renaming, a: Db, b: Db, c: RequestCall, token: Token)
    requires Same(f, a, b) && !c.phase.Clear? && !c.phase.Claim?
    ensures SameOutcome(f, RequestStep(a, c, token), RequestStep(b, NewRequest(f, c), token))
  {
    hide IsEligible;
    hide FindRegistration;
    hide SameGov;
    hide SameRegistrations;
    hide SameIndex;
    if c.phase.CheckEligibility? || c.phase.ReadPointer? || c.phase.Reread? {
      SameEligibility(f, a, b, c.phase.student, c.election);
      var found := FindRegistration(a, c.phase.student, c.election);
      if found.Some? {
        RegistrationUpdated(f, a.poll.registrations, b.poll.registrations, found.value,
                            Registration(0, 0, RegistrationPending, None, false, None));
      }
    } else if c.phase.FindStudent? || c.phase.CheckWindow? {
      SameUsers(f, a.gov, b.gov, c.user);
    }
  }

  lemma SameUsers(f: Renaming, a: Gov, b: Gov, u: UserId)
    requires SameGov(f, a, b)
    ensures (u in a.students <==> u in b.students) && (u in a.students ==> b.students[u] == New(f, a.students[u]))
    ensures a.elections == b.elections
  {}

  lemma SameRequestStep(f: Renaming, a: Db, b: Db, c: RequestCall, token: Token)
    requires Same(f, a, b)
    ensures SameOutcome(f, RequestStep(a, c, token), RequestStep(b, NewRequest(f, c), token))
  {
    if c.phase.Clear? {
      hide Same;
      SameClear(f, a, b, c.phase.registration);
    } else if c.phase.Claim? {
      hide Same;
      SameIssue(f, a, b, c.phase.registration, c.election, token, c.phase.now);
    } else {
      SameRead(f, a, b, c, token);
    }
  }

  // ---------- runs ----------

  ghost predicate SameCalls(f: Renaming, a: Sevs, b: Sevs) {
    && a.approving == b.approving
    && (forall id :: id in a.requesting <==> id in b.requesting)
    && forall id | id in a.requesting :: b.requesting[id] == NewRequest(f, a.requesting[id])
  }

  ghost predicate SameSevs(f: Renaming, a: Sevs, b: Sevs) {
    Same(f, a.db, b.db) && SameCalls(f, a, b)
  }

  lemma SameCommand(f: Renaming, a: Db, b: Db, c: Command)
    requires Same(f, a, b) && UniquePointers(a)
    ensures Same(f, Execute(a, c), Execute(b, NewCommand(f, c)))
  {
    hide Same;
    hide UniquePointers;
    hide Execute;
    match c {
      case EnrollStudent(_, _) => SameEnrol(f, a, b, c);
      case Register(_, _, _) => SameRegister(f, a, b, c);
      case ResolveRegistration(_, _, _) => SameResolve(f, a, b, c);
      case SubmitCandidacy(_, _, _, _) => SameCandidacy(f, a, b, c);
      case WithdrawCandidacy(_, _) => SameWithdrawal(f, a, b, c);
      case CastVote(_, _, _, _, _) => SameCast(f, a, b, c);
      case CreateElection(_, _, _, _) => SameDraftCommand(f, a, b, c);
      case UpdateElection(_, _, _) => SameDraftCommand(f, a, b, c);
      case AddPosition(_, _) => SameDraftCommand(f, a, b, c);
      case RemovePosition(_, _) => SameDraftCommand(f, a, b, c);
      case _ => SameElectionCommand(f, a, b, c);
    }
  }

  lemma SameStep(f: Renaming, a: Sevs, b: Sevs, x: Action)
    requires SameSevs(f, a, b) && UniquePointers(a.db)
    ensures SameSevs(f, Step(a, x), Step(b, NewAction(f, x)))
  {
    hide Same;
    hide UniquePointers;
    hide Execute;
    hide RequestStep;
    hide ApprovalStep;
    match x {
      case Do(c) => SameCommand(f, a.db, b.db, c);
      case AdvanceRequest(id, uuid) =>
        if id in a.requesting {
          SameRequestStep(f, a.db, b.db, a.requesting[id], uuid);
        }
      case AdvanceApproval(id) =>
        if id in a.approving {
          SameApprovalStep(f, a.db, b.db, a.approving[id]);
        }
      case _ =>
    }
  }

  ghost function NewRun(f: Renaming, run: seq<Action>): (r: seq<Action>)
    ensures |r| == |run|
  {
    seq(|run|, i requires 0 <= i < |run| => NewAction(f, run[i]))
  }

  lemma {:induction false} SameRuns(f: Renaming, run: seq<Action>)
    ensures SameSevs(f, After(run), After(NewRun(f, run)))
    decreases |run|
  {
    if run != [] {
      var shorter, renamed := run[..|run| - 1], NewRun(f, run);
      assert renamed[..|renamed| - 1] == NewRun(f, shorter);
      assert renamed[|renamed| - 1] == NewAction(f, run[|run| - 1]);
      SameRuns(f, shorter);
      OneVote.NoSharedToken(shorter);
      hide Step;
      hide SameSevs;
      hide UniquePointers;
      SameStep(f, After(shorter), After(NewRun(f, shorter)), run[|run| - 1]);
    }
  }

  /** Rename all students, keep everything else as it is: tokens, clock, random values. Then the
      ballots, votes, receipts and the audit log of any run are the same. */
  lemma {:induction false} PublishedTablesAnonymous(f: Renaming, run: seq<Action>)
    ensures
      var a, b := After(run).db, After(NewRun(f, run)).db;
      && a.poll.ballots == b.poll.ballots && a.poll.votes == b.poll.votes && a.poll.receipts == b.poll.receipts
      && a.log == b.log
  {
    SameRuns(f, run);
    hide After;
    hide NewRun;
  }
}
