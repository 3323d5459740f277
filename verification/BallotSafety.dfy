/** What every interleaving of ballot requests and votes keeps of the roll and the ballot box. */
module BallotSafety {
  import opened JsText
  import opened Schema
  import opened Approvals
  import opened Ballots
  import opened System
  import opened Moves
  import opened Evolution

  // ---------- the invariant ----------

  ghost predicate Pointer(p: Poll, r: RegistrationId, t: Token) {
    r in p.registrations && p.registrations[r].activeBallotToken == Some(t)
  }

  /** A pointer names an unused ballot that the same registration claimed. */
  ghost predicate PointersOk(p: Poll) {
    forall r, t | Pointer(p, r, t) :: t in p.ballots && !p.ballots[t].used && t in p.owner && p.owner[t] == r
  }

  /** Every ballot was claimed by a registration for its own election, which has been decided. */
  ghost predicate OwnersOk(p: Poll) {
    && p.owner.Keys == p.ballots.Keys == p.checkedAt.Keys && p.stale <= p.ballots.Keys
    && forall t | t in p.ballots ::
         && p.owner[t] in p.registrations
         && p.registrations[p.owner[t]].electionId == p.ballots[t].electionId
         && p.registrations[p.owner[t]].status != RegistrationPending
  }

  ghost predicate Participated(p: Poll, r: RegistrationId) {
    r in p.registrations && p.registrations[r].participated
  }

  /** A token in hand is stale exactly when its registration has participated. */
  ghost predicate StaleOk(p: Poll) {
    && (forall t | t in p.stale && t in p.owner :: Participated(p, p.owner[t]))
    && (forall r, t | Pointer(p, r, t) :: t in p.stale <==> Participated(p, r))
  }

  /** The vote with which a registration first participated. */
  ghost predicate FirstVote(p: Poll, r: RegistrationId, t: Token) {
    t in p.ballots && p.ballots[t].used && t in p.owner && p.owner[t] == r && t !in p.stale
  }

  ghost predicate FirstVotesOk(p: Poll) {
    && (forall t | t in p.ballots && p.ballots[t].used && t in p.owner :: Participated(p, p.owner[t]))
    && (forall r | Participated(p, r) :: exists t :: FirstVote(p, r, t))
    && (forall r, t, t' | FirstVote(p, r, t) && FirstVote(p, r, t') :: t == t')
  }

  ghost predicate PollOk(p: Poll) {
    IndexOk(p) && PointersOk(p) && OwnersOk(p) && StaleOk(p) && FirstVotesOk(p)
  }

  /** A ballot is issued after the check of the window, for thirty minutes. */
  ghost predicate TimesOk(db: Db) {
    forall t | t in db.poll.ballots && t in db.poll.checkedAt ::
      && db.poll.checkedAt[t] <= db.poll.ballots[t].issuedAt <= db.clock
      && db.poll.ballots[t].expiresAt == db.poll.ballots[t].issuedAt + SESSION
  }

  // ---------- requests in progress ----------

  /** The student has a registration that has been decided. */
  predicate Known(p: Poll, student: StudentId, e: ElectionId) {
    && (student, e) in p.byStudent && p.byStudent[(student, e)] in p.registrations
    && p.registrations[p.byStudent[(student, e)]].status != RegistrationPending
  }

  predicate BallotOf(p: Poll, t: Token, e: ElectionId) {
    t in p.ballots && p.ballots[t].electionId == e
  }

  /** What a request in progress has established, and what no step at all can take away. */
  predicate RequestKnown(db: Db, c: RequestCall) {
    match c.phase
    case CheckWindow(student) => Known(db.poll, student, c.election)
    case ReadPointer(student, now) => Known(db.poll, student, c.election) && now <= db.clock
    case ReadBallot(student, now, r, t) =>
      && Known(db.poll, student, c.election) && now <= db.clock
      && db.poll.byStudent[(student, c.election)] == r && BallotOf(db.poll, t, c.election)
    case Clear(student, now, r) =>
      && Known(db.poll, student, c.election) && now <= db.clock
      && db.poll.byStudent[(student, c.election)] == r
    case Claim(student, now, r) =>
      && Known(db.poll, student, c.election) && now <= db.clock
      && db.poll.byStudent[(student, c.election)] == r
    case Reread(student) => Known(db.poll, student, c.election)
    case ReadWinner(t) => BallotOf(db.poll, t, c.election)
    case Finished(outcome) => outcome.Issued? ==> BallotOf(db.poll, outcome.token, c.election)
    case _ => true
  }

  /** What a step may do to the roll and the ballots without taking that away. */
  ghost predicate RollKept(a: Db, b: Db) {
    && (forall k | k in a.poll.byStudent :: k in b.poll.byStudent && a.poll.byStudent[k] == b.poll.byStudent[k])
    && (forall r | r in a.poll.registrations ::
          && r in b.poll.registrations
          && (a.poll.registrations[r].status != RegistrationPending ==>
                b.poll.registrations[r].status != RegistrationPending))
    && (forall t | t in a.poll.ballots :: BallotOf(b.poll, t, a.poll.ballots[t].electionId))
    && a.clock <= b.clock
  }

  lemma EvolvesKeepsRoll(a: Db, b: Db)
    requires Evolves(a, b)
    ensures RollKept(a, b)
  {
    hide GovEvolves;
    hide RollFrozen;
  }

  lemma RequestStable(a: Db, b: Db, c: RequestCall)
    requires RollKept(a, b) && RequestKnown(a, c)
    ensures RequestKnown(b, c)
  {}

  lemma RequestAdvances(db: Db, c: RequestCall, token: Token)
    requires PollOk(db.poll) && RequestKnown(db, c)
    ensures RequestKnown(RequestStep(db, c, token).0, RequestStep(db, c, token).1)
  {
    hide StaleOk;
    hide FirstVotesOk;
    if c.phase.ReadPointer? || c.phase.Reread? {
      var found := FindRegistration(db, c.phase.student, c.election);
      if found.Some? && db.poll.registrations[found.value].activeBallotToken.Some? {
        assert Pointer(db.poll, found.value, db.poll.registrations[found.value].activeBallotToken.value);
        assert KeyOf(db.poll.registrations[found.value]) == (c.phase.student, c.election);
      }
    }
  }

  // ---------- one move ----------

  /** What a claim step knows beyond its own guard. */
  ghost predicate IssueOk(db: Db, m: PollMove) {
    m.Issues? ==>
      && m.r in db.poll.registrations && m.now <= db.clock
      && db.poll.registrations[m.r].electionId == m.e && db.poll.registrations[m.r].status != RegistrationPending
  }

  lemma IndexKept(db: Db, m: PollMove)
    requires PollFits(db, m) && IndexOk(db.poll)
    ensures IndexOk(PollAfter(db.poll, db.clock, m))
  {
    var p, q := db.poll, PollAfter(db.poll, db.clock, m);
    forall r | r in q.registrations
      ensures KeyOf(q.registrations[r]) in q.byStudent && q.byStudent[KeyOf(q.registrations[r])] == r
    {
      assert r in p.registrations ==> KeyOf(q.registrations[r]) == KeyOf(p.registrations[r]);
    }
    forall k | k in q.byStudent
      ensures q.byStudent[k] in q.registrations && KeyOf(q.registrations[q.byStudent[k]]) == k
    {
      assert k in p.byStudent ==> KeyOf(p.registrations[p.byStudent[k]]) == k;
    }
  }

  lemma PointersKept(db: Db, m: PollMove)
    requires PollFits(db, m) && PointersOk(db.poll) && OwnersOk(db.poll)
    ensures PointersOk(PollAfter(db.poll, db.clock, m))
  {
    var p, q := db.poll, PollAfter(db.poll, db.clock, m);
    if m.Votes? {
      assert Pointer(p, m.r, m.token);
    }
    forall r, t | Pointer(q, r, t) ensures t in q.ballots && !q.ballots[t].used && t in q.owner && q.owner[t] == r {
      if !(m.Issues? && m.r == r) {
        assert Pointer(p, r, t);
      }
    }
  }

  lemma OwnersKept(db: Db, m: PollMove)
    requires PollFits(db, m) && IssueOk(db, m) && OwnersOk(db.poll)
    ensures OwnersOk(PollAfter(db.poll, db.clock, m))
  {}

  lemma StaleKept(db: Db, m: PollMove)
    requires PollFits(db, m) && IssueOk(db, m) && OwnersOk(db.poll) && PointersOk(db.poll) && StaleOk(db.poll)
    ensures StaleOk(PollAfter(db.poll, db.clock, m))
  {
    var p, q := db.poll, PollAfter(db.poll, db.clock, m);
    forall r, t | Pointer(q, r, t) ensures t in q.stale <==> Participated(q, r) {
      if !(m.Issues? && m.r == r) {
        assert Pointer(p, r, t);
      }
    }
    forall t | t in q.stale && t in q.owner ensures Participated(q, q.owner[t]) {
      if !(m.Issues? && m.token == t) {
        assert t in p.stale && Participated(p, p.owner[t]);
      }
    }
  }

  /** A vote is a first vote after a move if it was before, or if the move casts it for a registration
      that has not participated. */
  lemma FirstVoteMoves(db: Db, m: PollMove, r: RegistrationId, t: Token)
    requires PollFits(db, m) && PointersOk(db.poll) && OwnersOk(db.poll) && StaleOk(db.poll) && FirstVotesOk(db.poll)
    ensures
      var q := PollAfter(db.poll, db.clock, m);
      && (FirstVote(q, r, t) <==>
            FirstVote(db.poll, r, t) || (m.Votes? && m.r == r && m.token == t && !Participated(db.poll, r)))
      && (Participated(q, r) <==> Participated(db.poll, r) || (m.Votes? && m.r == r))
      && (t in q.ballots && q.ballots[t].used && t in q.owner && q.owner[t] == r ==> Participated(q, r))
      && (m.Votes? && m.r == r && Participated(db.poll, r) ==> m.token in db.poll.stale)
  {
    if m.Votes? {
      assert Pointer(db.poll, m.r, m.token);
    }
  }

  lemma FirstVotesKept(db: Db, m: PollMove)
    requires PollFits(db, m) && IssueOk(db, m) && PollOk(db.poll)
    ensures FirstVotesOk(PollAfter(db.poll, db.clock, m))
  {
    var p, q := db.poll, PollAfter(db.poll, db.clock, m);
    if m.Votes? {
      assert Pointer(p, m.r, m.token);
    }
    forall t | t in q.ballots && q.ballots[t].used && t in q.owner ensures Participated(q, q.owner[t]) {
      FirstVoteMoves(db, m, q.owner[t], t);
    }
    forall r | Participated(q, r) ensures exists t :: FirstVote(q, r, t) {
      if Participated(p, r) {
        var t :| FirstVote(p, r, t);
        FirstVoteMoves(db, m, r, t);
        assert FirstVote(q, r, t);
      } else {
        FirstVoteMoves(db, m, r, m.token);
        assert FirstVote(q, r, m.token);
      }
    }
    forall r, t, t' | FirstVote(q, r, t) && FirstVote(q, r, t') ensures t == t' {
      FirstVoteMoves(db, m, r, t);
      FirstVoteMoves(db, m, r, t');
    }
  }

  lemma TimesKept(db: Db, dt: nat, m: PollMove, db': Db)
    requires PollFits(db, m) && IssueOk(db, m) && OwnersOk(db.poll) && TimesOk(db)
    requires db'.poll == PollAfter(db.poll, db.clock, m) && db'.clock == db.clock + dt
    ensures TimesOk(db')
  {
    forall t | t in db'.poll.ballots && t in db'.poll.checkedAt
      ensures
        && db'.poll.checkedAt[t] <= db'.poll.ballots[t].issuedAt <= db'.clock
        && db'.poll.ballots[t].expiresAt == db'.poll.ballots[t].issuedAt + SESSION
    {
      assert t in db.poll.ballots ==> t in db.poll.checkedAt;
    }
  }

  lemma PollStepOk(db: Db, m: PollMove)
    requires PollFits(db, m) && IssueOk(db, m) && PollOk(db.poll)
    ensures PollOk(PollAfter(db.poll, db.clock, m))
  {
    hide PollFits;
    hide PollAfter;
    hide IssueOk;
    IndexKept(db, m);
    PointersKept(db, m);
    OwnersKept(db, m);
    StaleKept(db, m);
    FirstVotesKept(db, m);
    hide IndexOk;
    hide PointersOk;
    hide OwnersOk;
    hide StaleOk;
    hide FirstVotesOk;
  }

  // ---------- the invariant of every step ----------

  ghost predicate RequestsOk(s: Sevs) {
    forall id | id in s.requesting :: RequestKnown(s.db, s.requesting[id])
  }

  /** What holds however the services overlap. */
  ghost predicate Sound(s: Sevs) {
    PollOk(s.db.poll) && TimesOk(s.db) && RequestsOk(s)
  }

  lemma IssueIsOk(s: Sevs, a: Action, g: GovMove, m: PollMove)
    requires ComesFrom(s, a, g, m) && PollEnabled(s.db, m) && IndexOk(s.db.poll) && RequestsOk(s)
    ensures IssueOk(s.db, m)
  {
    if m.Issues? {
      var c := s.requesting[a.id];
      assert RequestKnown(s.db, c);
      assert KeyOf(s.db.poll.registrations[m.r]) == (c.phase.student, c.election);
    }
  }

  lemma RequestsKept(s: Sevs, a: Action)
    requires PollOk(s.db.poll) && RequestsOk(s)
    ensures RequestsOk(Step(s, a))
  {
    hide PollOk;
    hide Execute;
    hide RequestStep;
    hide Approvals.ApprovalStep;
    StepEvolves(s, a);
    EvolvesKeepsRoll(s.db, Step(s, a).db);
    hide Evolves;
    hide RollKept;
    var s' := Step(s, a);
    forall id | id in s'.requesting ensures RequestKnown(s'.db, s'.requesting[id]) {
      if a.AdvanceRequest? && a.id == id {
        RequestAdvances(s.db, s.requesting[id], a.uuid);
      } else if id in s.requesting {
        RequestStable(s.db, s'.db, s.requesting[id]);
      }
      hide RequestKnown;
    }
  }

  lemma StepSound(s: Sevs, a: Action)
    requires Sound(s)
    ensures Sound(Step(s, a))
  {
    var dt, g, m := StepMove(s, a);
    RequestsKept(s, a);
    hide Step;
    hide RequestsOk;
    hide Reports;
    hide PollEnabled;
    hide PollFits;
    hide GovEnabled;
    hide PollAfter;
    hide GovAfter;
    IssueIsOk(s, a, g, m);
    EnabledFits(s.db, m);
    hide ComesFrom;
    PollStepOk(s.db, m);
    TimesKept(s.db, dt, m, Step(s, a).db);
    hide TimesOk;
  }

  // ---------- what the checks of a request have seen ----------

  predicate InWindow(db: Db, e: ElectionId, now: int) {
    && e in db.gov.elections && Rank(db.gov.elections[e].status) >= 3 && db.gov.elections[e].status != Cancelled
    && db.gov.elections[e].startDate <= now <= db.gov.elections[e].endDate
  }

  /** The student has an approved registration. */
  predicate Admitted(p: Poll, student: StudentId, e: ElectionId) {
    && (student, e) in p.byStudent && p.byStudent[(student, e)] in p.registrations
    && p.registrations[p.byStudent[(student, e)]].status == RegistrationApproved
  }

  /** What the checks have seen still holds: the registration is approved, the window was open. */
  predicate RequestChecked(db: Db, c: RequestCall) {
    match c.phase
    case CheckWindow(student) => Admitted(db.poll, student, c.election)
    case ReadPointer(student, now) => Admitted(db.poll, student, c.election) && InWindow(db, c.election, now)
    case ReadBallot(student, now, _, _) => Admitted(db.poll, student, c.election) && InWindow(db, c.election, now)
    case Clear(student, now, _) => Admitted(db.poll, student, c.election) && InWindow(db, c.election, now)
    case Claim(student, now, _) => Admitted(db.poll, student, c.election) && InWindow(db, c.election, now)
    case _ => true
  }

  /** The same of the request that issued a ballot. */
  predicate BallotChecked(db: Db, t: Token) {
    t in db.poll.ballots && t in db.poll.owner && t in db.poll.checkedAt ==>
      && db.poll.owner[t] in db.poll.registrations
      && db.poll.registrations[db.poll.owner[t]].status == RegistrationApproved
      && InWindow(db, db.poll.ballots[t].electionId, db.poll.checkedAt[t])
  }

  ghost predicate Vetted(s: Sevs) {
    && (forall t | t in s.db.poll.ballots :: BallotChecked(s.db, t))
    && (forall id | id in s.requesting :: RequestChecked(s.db, s.requesting[id]))
  }

  lemma RequestCheckedStable(a: Db, b: Db, c: RequestCall)
    requires Evolves(a, b) && RequestChecked(a, c)
    ensures RequestChecked(b, c)
  {}

  lemma BallotCheckedStable(a: Db, b: Db, t: Token)
    requires Evolves(a, b) && OwnersOk(a.poll) && t in a.poll.ballots && BallotChecked(a, t)
    ensures BallotChecked(b, t)
  {
    hide RollFrozen;
  }

  lemma RequestStaysChecked(db: Db, c: RequestCall, token: Token)
    requires RequestChecked(db, c)
    ensures RequestChecked(RequestStep(db, c, token).0, RequestStep(db, c, token).1)
  {}

  lemma NewBallotChecked(s: Sevs, a: Action, t: Token)
    requires Sound(s) && Vetted(s) && t !in s.db.poll.ballots
    ensures BallotChecked(Step(s, a).db, t)
  {
    var dt, g, m := StepMove(s, a);
    IssueIsOk(s, a, g, m);
    hide Step;
    hide Reports;
    hide GovEnabled;
    hide GovAfter;
    if m.Issues? {
      assert RequestChecked(s.db, s.requesting[a.id]) && RequestKnown(s.db, s.requesting[a.id]);
      assert KeyOf(s.db.poll.registrations[m.r]) == (s.requesting[a.id].phase.student, s.requesting[a.id].election);
    }
  }

  lemma RequestsStayChecked(s: Sevs, a: Action)
    requires forall id | id in s.requesting :: RequestChecked(s.db, s.requesting[id])
    ensures forall id | id in Step(s, a).requesting :: RequestChecked(Step(s, a).db, Step(s, a).requesting[id])
  {
    var s' := Step(s, a);
    StepEvolves(s, a);
    hide Evolves;
    hide Execute;
    hide RequestStep;
    hide Approvals.ApprovalStep;
    forall id | id in s'.requesting ensures RequestChecked(s'.db, s'.requesting[id]) {
      if a.AdvanceRequest? && a.id == id {
        RequestStaysChecked(s.db, s.requesting[id], a.uuid);
      } else if id in s.requesting {
        RequestCheckedStable(s.db, s'.db, s.requesting[id]);
      }
      hide RequestChecked;
    }
  }

  lemma StepVetted(s: Sevs, a: Action)
    requires Sound(s) && Vetted(s)
    ensures Vetted(Step(s, a))
  {
    RequestsStayChecked(s, a);
    StepEvolves(s, a);
    hide Step;
    hide Evolves;
    hide RequestChecked;
    hide BallotChecked;
    forall t | t in Step(s, a).db.poll.ballots ensures BallotChecked(Step(s, a).db, t) {
      if t in s.db.poll.ballots {
        BallotCheckedStable(s.db, Step(s, a).db, t);
      } else {
        NewBallotChecked(s, a, t);
      }
    }
  }

  // ---------- every run ----------

  ghost predicate Safe(s: Sevs) {
    Sound(s) && Vetted(s)
  }

  /** The invariant holds in every state that any interleaving can reach. */
  lemma {:induction false} RunSafe(run: seq<Action>)
    ensures Safe(After(run))
    decreases |run|
  {
    if run == [] {
      assert Safe(START);
    } else {
      RunSafe(run[..|run| - 1]);
      StepSound(After(run[..|run| - 1]), run[|run| - 1]);
      StepVetted(After(run[..|run| - 1]), run[|run| - 1]);
      hide Sound;
      hide Vetted;
      hide Step;
    }
  }
}
