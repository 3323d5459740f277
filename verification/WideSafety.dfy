/** Ballots and votes when the services on elections and registrations check in one step and write in
    another: what holds however they overlap, and what holds as long as no write has gone stale. */
module WideSafety {
  import opened JsText
  import opened Schema
  import Elections
  import opened Ballots
  import opened System
  import opened Moves
  import opened Evolution
  import opened BallotSafety
  import opened OneVote
  import opened BallotBox
  import opened Roll
  import opened RowCalls
  import opened SplitCalls

  // ---------- what the split steps do to the roll ----------

  /** The write of a row call, reduced to what it does to the roll; of the rest it keeps what is listed. */
  lemma WriteMove(db: Db, op: RowOp, student: StudentId) returns (m: PollMove)
    ensures
      var db' := RowWrite(db, op, student).0;
      && db'.poll == PollAfter(db.poll, db.clock, m) && db'.clock == db.clock && PollFits(db, m)
      && (m.PollStays? || m.Enters? || m.Verified?) && db'.gov.students == db.gov.students
    ensures m.Verified? ==> op == Decide(m.r, m.officer, m.approve)
    ensures m.Enters? ==> op.Enter? && m.student == student
  {
    hide Referred;
    hide RowCalls.Redated;
    m := PollStays;
    match op {
      case Decide(r, officer, approve) => if r in db.poll.registrations { m := Verified(r, officer, approve); }
      case Enter(user, e, r) =>
        if (student, e) !in db.poll.byStudent && r !in db.poll.registrations { m := Enters(student, e, r); }
      case _ =>
    }
  }

  lemma RowMove(db: Db, c: RowCall) returns (m: PollMove)
    ensures
      var db' := RowStep(db, c).0;
      && db'.poll == PollAfter(db.poll, db.clock, m) && db'.clock == db.clock && PollFits(db, m)
      && (m.PollStays? || m.Enters? || m.Verified?) && db'.gov.students == db.gov.students
    ensures m.Verified? ==> c.phase.WriteRow? && c.op == Decide(m.r, m.officer, m.approve)
    ensures m.Enters? ==> c.phase.WriteRow? && c.op.Enter? && m.student == c.phase.student
  {
    m := PollStays;
    if c.phase.WriteRow? {
      m := WriteMove(db, c.op, c.phase.student);
    }
    hide RowError;
    hide RowWrite;
  }

  /** The log grows by at most one entry, and none of a vote. */
  predicate NoVoteLogged(a: seq<LogEntry>, b: seq<LogEntry>) {
    a <= b && |b| <= |a| + 1 && (|b| > |a| ==> !b[|a|].event.VoteCast?)
  }

  lemma RowLogs(db: Db, c: RowCall)
    ensures NoVoteLogged(db.log, RowStep(db, c).0.log)
  {}

  lemma StatusLogs(db: Db, c: StatusCall)
    ensures NoVoteLogged(db.log, StatusStep(db, c).0.log)
  {}

  lemma {:induction false} SameVotesLogged(a: seq<LogEntry>, b: seq<LogEntry>, e: ElectionId)
    requires NoVoteLogged(a, b)
    ensures Times(b, VoteCast(e)) == Times(a, VoteCast(e))
  {
    assert b == a + b[|a|..];
    TimesAppended(a, b[|a|..], VoteCast(e));
  }

  // ---------- ballots, in every run ----------

  lemma RollKeptBy(db: Db, m: PollMove, db': Db)
    requires m.PollStays? || m.Enters? || m.Verified?
    requires PollFits(db, m) && db'.poll == PollAfter(db.poll, db.clock, m) && db'.clock == db.clock
    ensures RollKept(db, db')
  {}

  lemma SoundWith(s: Sevs, m: PollMove, db': Db)
    requires Sound(s) && PollFits(s.db, m) && (m.PollStays? || m.Enters? || m.Verified?)
    requires db'.poll == PollAfter(s.db.poll, s.db.clock, m) && db'.clock == s.db.clock
    ensures Sound(s.(db := db'))
  {
    RollKeptBy(s.db, m, db');
    hide PollFits;
    hide PollAfter;
    hide RollKept;
    PollStepOk(s.db, m);
    TimesKept(s.db, 0, m, db');
    hide PollOk;
    hide TimesOk;
    hide RequestKnown;
    forall id | id in s.requesting ensures RequestKnown(db', s.requesting[id]) {
      RequestStable(s.db, db', s.requesting[id]);
    }
  }

  /** What a split step does to the roll and the log, as a move. */
  lemma SplitMove(s: Wide, x: WideAction) returns (m: PollMove)
    requires !x.Base?
    ensures
      var a, b := s.sevs.db, WideStep(s, x).sevs.db;
      && WideStep(s, x).sevs == s.sevs.(db := b)
      && b.poll == PollAfter(a.poll, a.clock, m) && b.clock == a.clock && PollFits(a, m)
      && (m.PollStays? || m.Enters? || m.Verified?)
      && b.gov.students == a.gov.students && NoVoteLogged(a.log, b.log)
    ensures m.Verified? ==>
              && x.AdvanceRow? && x.id in s.rows && s.rows[x.id].phase.WriteRow?
              && s.rows[x.id].op == Decide(m.r, m.officer, m.approve)
    ensures m.Enters? ==>
              && x.AdvanceRow? && x.id in s.rows && s.rows[x.id].phase.WriteRow?
              && s.rows[x.id].op.Enter? && m.student == s.rows[x.id].phase.student
  {
    m := PollStays;
    match x {
      case AdvanceRow(id) =>
        if id in s.rows {
          m := RowMove(s.sevs.db, s.rows[id]);
          RowLogs(s.sevs.db, s.rows[id]);
        }
      case AdvanceStatus(id) =>
        if id in s.calls {
          StatusSpares(s.sevs.db, s.calls[id]);
          StatusLogs(s.sevs.db, s.calls[id]);
        }
      case _ =>
    }
    hide RowStep;
    hide StatusStep;
  }

  lemma WideStepSound(s: Wide, x: WideAction)
    requires Sound(s.sevs)
    ensures Sound(WideStep(s, x).sevs)
  {
    if x.Base? {
      StepSound(s.sevs, x.action);
    } else {
      var m := SplitMove(s, x);
      SoundWith(s.sevs, m, WideStep(s, x).sevs.db);
    }
    hide Sound;
    hide Step;
    hide RowStep;
    hide StatusStep;
  }

  /** However the services overlap: the invariant of pointers, owners, stale tokens, first votes and times,
      and what every request in progress has established. */
  lemma {:induction false} WideSound(run: seq<WideAction>)
    ensures Sound(WideAfter(run).sevs)
    decreases |run|
  {
    if run == [] {
      RunSafe([]);
      assert After([]) == START;
    } else {
      WideSound(run[..|run| - 1]);
      hide Sound;
      hide WideStep;
      WideStepSound(WideAfter(run[..|run| - 1]), run[|run| - 1]);
    }
  }

  /** A registration votes at most once exactly if it has used no ballot that it claimed after voting. */
  lemma {:induction false} WideOneVoteIff(run: seq<WideAction>, r: RegistrationId)
    ensures
      var p := WideAfter(run).sevs.db.poll;
      && |UsedBallots(p, r)| == |StaleVotes(p, r)| + (if Participated(p, r) then 1 else 0)
      && (|UsedBallots(p, r)| <= 1 <==> StaleVotes(p, r) == {})
  {
    WideSound(run);
    CountVotes(WideAfter(run).sevs.db.poll, r);
    hide WideAfter;
  }

  // ---------- conservation ----------

  lemma WideStepBox(s: Wide, x: WideAction)
    requires Sound(s.sevs) && BoxOk(s.sevs.db)
    ensures BoxOk(WideStep(s, x).sevs.db)
  {
    if x.Base? {
      StepBox(s.sevs, x.action);
    } else {
      var m := SplitMove(s, x);
      var a, b := s.sevs.db, WideStep(s, x).sevs.db;
      hide WideStep;
      hide NoVoteLogged;
      hide BoxOk;
      forall e ensures Times(b.log, VoteCast(e)) == Times(a.log, VoteCast(e)) + if CastsIn(a.poll, m, e) then 1 else 0 {
        SameVotesLogged(a.log, b.log, e);
      }
      BoxKept(a, m, b);
    }
    hide BoxOk;
    hide Sound;
    hide Step;
    hide RowStep;
    hide StatusStep;
  }

  /** However the services overlap: votes, receipts, used ballots and VOTE_CAST entries of an election are
      equally many and correspond one to one. */
  lemma {:induction false} WideConservation(run: seq<WideAction>)
    ensures BoxOk(WideAfter(run).sevs.db)
    decreases |run|
  {
    if run == [] {
      Conservation([]);
      assert After([]) == START;
    } else {
      var shorter := run[..|run| - 1];
      WideConservation(shorter);
      WideSound(shorter);
      hide BoxOk;
      hide Sound;
      hide WideStep;
      WideStepBox(WideAfter(shorter), run[|run| - 1]);
    }
  }

  // ---------- approvals and dates, as long as no write is stale ----------

  lemma WideStepVetted(s: Wide, x: WideAction)
    requires Safe(s.sevs) && Evolves(s.sevs.db, WideStep(s, x).sevs.db)
    ensures Vetted(WideStep(s, x).sevs)
  {
    if x.Base? {
      StepVetted(s.sevs, x.action);
    } else {
      var m := SplitMove(s, x);
      var a, b := s.sevs.db, WideStep(s, x).sevs.db;
      hide WideStep;
      hide Evolves;
      hide RequestChecked;
      hide BallotChecked;
      assert b.poll.ballots == a.poll.ballots;
      hide PollAfter;
      hide PollFits;
      forall t | t in b.poll.ballots ensures BallotChecked(b, t) {
        BallotCheckedStable(a, b, t);
      }
      forall id | id in s.sevs.requesting ensures RequestChecked(b, s.sevs.requesting[id]) {
        RequestCheckedStable(a, b, s.sevs.requesting[id]);
      }
    }
    hide Sound;
    hide Vetted;
    hide Step;
    hide Evolves;
    hide RowStep;
    hide StatusStep;
  }

  /** Without stale writes also what the checks of a request have seen stays true: the registrations behind
      ballots are approved, and the window that was open had the dates that the election has now. */
  lemma {:induction false} WideSafe(run: seq<WideAction>)
    requires NoStaleWrite(run) && NoStaleRow(run)
    ensures Safe(WideAfter(run).sevs)
    decreases |run|
  {
    WideSound(run);
    if run == [] {
      RunSafe([]);
      assert After([]) == START;
    } else {
      var shorter, x := run[..|run| - 1], run[|run| - 1];
      NoStaleBefore(run);
      WideSafe(shorter);
      FreshStepEvolves(shorter, x);
      hide Sound;
      hide Vetted;
      hide WideStep;
      hide Evolves;
      hide NoStaleWrite;
      hide NoStaleRow;
      WideStepVetted(WideAfter(shorter), x);
    }
  }

  /** Every vote is cast within thirty minutes of the issue of its ballot, which is issued after the check of
      the window. Without stale writes that window is the one the election has: a vote falls after the start,
      and more than thirty minutes after the end only if its ballot was claimed after the end by a request
      that was checked before. */
  lemma {:induction false} WideVoteWindow(run: seq<WideAction>, v: VoteId)
    requires v in WideAfter(run).sevs.db.poll.votes
    ensures
      var db := WideAfter(run).sevs.db;
      var t, at := db.poll.votes[v].ballotToken, db.poll.votes[v].createdAt;
      && t in db.poll.ballots && t in db.poll.checkedAt
      && db.poll.checkedAt[t] <= db.poll.ballots[t].issuedAt <= at <= db.poll.ballots[t].issuedAt + SESSION
      && (NoStaleWrite(run) && NoStaleRow(run) ==>
            && db.poll.ballots[t].electionId in db.gov.elections
            && var election := db.gov.elections[db.poll.ballots[t].electionId];
               && election.startDate <= db.poll.checkedAt[t] <= election.endDate && election.startDate <= at
               && (at > election.endDate + SESSION ==>
                     db.poll.checkedAt[t] <= election.endDate < db.poll.ballots[t].issuedAt))
  {
    var db := WideAfter(run).sevs.db;
    WideSound(run);
    WideConservation(run);
    if NoStaleWrite(run) && NoStaleRow(run) {
      WideSafe(run);
      hide WideAfter;
      hide NoStaleWrite;
      hide NoStaleRow;
      assert VoteOk(db.poll, v);
      assert BallotChecked(db, db.poll.votes[v].ballotToken);
    }
    hide WideAfter;
    hide NoStaleWrite;
    hide NoStaleRow;
    assert VoteOk(db.poll, v);
  }

  /** A pointer names an existing, unused ballot of the registration's own election, and the registration has
      been decided; without stale writes it is approved. */
  lemma {:induction false} WidePointerNamesBallot(run: seq<WideAction>, r: RegistrationId, t: Token)
    requires Holds(WideAfter(run).sevs.db, r, t)
    ensures
      var p := WideAfter(run).sevs.db.poll;
      && t in p.ballots && !p.ballots[t].used
      && p.ballots[t].electionId == p.registrations[r].electionId
      && p.registrations[r].status != RegistrationPending
      && (NoStaleWrite(run) && NoStaleRow(run) ==> p.registrations[r].status == RegistrationApproved)
  {
    WideSound(run);
    var db := WideAfter(run).sevs.db;
    assert Pointer(db.poll, r, t);
    if NoStaleWrite(run) && NoStaleRow(run) {
      WideSafe(run);
      assert BallotChecked(db, t);
    }
    hide WideAfter;
    hide NoStaleWrite;
    hide NoStaleRow;
  }

  // ---------- the roll ----------

  /** What the check of a row call has established, and what no step can take away. */
  ghost predicate RowCallOk(db: Db, c: RowCall) {
    c.phase.WriteRow? ==>
      match c.op
      case Decide(r, officer, _) =>
        && r in db.poll.registrations
        && (officer in db.gov.students ==> db.gov.students[officer] != db.poll.registrations[r].studentId)
      case Enter(_, e, _) => IsStudent(db.gov, c.phase.student)
      case _ => true
  }

  ghost predicate RowCallsOk(s: Wide) {
    forall id | id in s.rows :: RowCallOk(s.sevs.db, s.rows[id])
  }

  /** Users keep the student they are, and registrations theirs. */
  ghost predicate StudentsStay(a: Db, b: Db) {
    && StudentsKept(a.gov, b.gov) && StudentsDistinct(b.gov)
    && forall r | r in a.poll.registrations ::
         r in b.poll.registrations && b.poll.registrations[r].studentId == a.poll.registrations[r].studentId
  }

  lemma RowCallStable(a: Db, b: Db, c: RowCall)
    requires StudentsStay(a, b) && RollOk(a) && RowCallOk(a, c)
    ensures RowCallOk(b, c)
  {
    if c.phase.WriteRow? && c.op.Decide? {
      var x := a.poll.registrations[c.op.r];
      assert VerifierOk(a.gov, x);
      var u :| u in a.gov.students && a.gov.students[u] == x.studentId;
      assert u in b.gov.students && b.gov.students[u] == x.studentId;
    } else if c.phase.WriteRow? && c.op.Enter? {
      var u :| u in a.gov.students && a.gov.students[u] == c.phase.student;
      assert u in b.gov.students && b.gov.students[u] == c.phase.student;
    }
  }

  lemma RowCallAdvances(db: Db, c: RowCall)
    requires RowCallOk(db, c)
    ensures RowCallOk(db, RowStep(db, c).1)
  {
    if c.phase.CheckRow? && c.op.Enter? && c.op.user in db.gov.students {
      assert IsStudent(db.gov, db.gov.students[c.op.user]);
    }
  }

  /** Base steps keep who is who. */
  lemma StepStudentsStay(s: Sevs, a: Action)
    requires RollOk(s.db)
    ensures StudentsStay(s.db, Step(s, a).db)
  {
    StepEvolves(s, a);
    StepRoll(s, a);
    hide Step;
    hide VerifierOk;
    hide RollFrozen;
  }

  lemma SplitStepRoll(s: Wide, x: WideAction)
    requires !x.Base? && RollOk(s.sevs.db) && RowCallsOk(s)
    ensures RollOk(WideStep(s, x).sevs.db) && StudentsStay(s.sevs.db, WideStep(s, x).sevs.db)
  {
    var m := SplitMove(s, x);
    var a, b := s.sevs.db, WideStep(s, x).sevs.db;
    if m.Verified? || m.Enters? { assert RowCallOk(a, s.rows[x.id]); }
    hide WideStep;
    forall r | r in b.poll.registrations ensures VerifierOk(b.gov, b.poll.registrations[r]) {
      if r in a.poll.registrations {
        assert VerifierOk(a.gov, a.poll.registrations[r]);
      }
    }
  }

  lemma WideStepRoll(s: Wide, x: WideAction)
    requires RollOk(s.sevs.db) && RowCallsOk(s)
    ensures RollOk(WideStep(s, x).sevs.db) && RowCallsOk(WideStep(s, x))
  {
    var s' := WideStep(s, x);
    if x.Base? {
      StepRoll(s.sevs, x.action);
      StepStudentsStay(s.sevs, x.action);
    } else {
      SplitStepRoll(s, x);
    }
    hide Step;
    hide RollOk;
    hide StudentsStay;
    hide StatusStep;
    forall id | id in s'.rows ensures RowCallOk(s'.sevs.db, s'.rows[id]) {
      if x.AdvanceRow? && x.id == id {
        RowCallAdvances(s.sevs.db, s.rows[id]);
        assert s.rows[id].phase.CheckRow? ==> s'.sevs.db == s.sevs.db;
      } else if id in s.rows {
        hide RowStep;
        RowCallStable(s.sevs.db, s'.sevs.db, s.rows[id]);
      }
    }
  }

  lemma {:induction false} WideRoll(run: seq<WideAction>)
    ensures RollOk(WideAfter(run).sevs.db) && RowCallsOk(WideAfter(run))
    decreases |run|
  {
    if run != [] {
      WideRoll(run[..|run| - 1]);
      hide RollOk;
      hide RowCallsOk;
      hide WideStep;
      WideStepRoll(WideAfter(run[..|run| - 1]), run[|run| - 1]);
    }
  }

  /** Whoever has voted was decided on by an officer who is not that student, however the services overlap;
      without stale writes the decision is an approval. */
  lemma {:induction false} WideParticipantsVerified(run: seq<WideAction>, r: RegistrationId)
    requires Participated(WideAfter(run).sevs.db.poll, r)
    ensures
      var db := WideAfter(run).sevs.db;
      var x := db.poll.registrations[r];
      && x.status != RegistrationPending && x.verifiedBy.Some?
      && (x.verifiedBy.value in db.gov.students ==> db.gov.students[x.verifiedBy.value] != x.studentId)
      && (NoStaleWrite(run) && NoStaleRow(run) ==> x.status == RegistrationApproved)
  {
    WideRoll(run);
    WideSound(run);
    var db := WideAfter(run).sevs.db;
    var t :| FirstVote(db.poll, r, t);
    assert VerifierOk(db.gov, db.poll.registrations[r]);
    if NoStaleWrite(run) && NoStaleRow(run) {
      WideSafe(run);
      assert BallotChecked(db, t);
    }
    hide WideAfter;
    hide NoStaleWrite;
    hide NoStaleRow;
  }

  // ---------- which steps take a decision or a date back ----------

  /** The step writes a verdict on registration `r`. */
  predicate WritesVerdict(s: Wide, x: WideAction, r: RegistrationId, approve: bool) {
    && x.AdvanceRow? && x.id in s.rows && s.rows[x.id].phase.WriteRow?
    && s.rows[x.id].op.Decide? && s.rows[x.id].op.r == r && s.rows[x.id].op.approve == approve
  }

  /** A decided registration changes its status exactly by a write of the other verdict. */
  lemma {:induction false} DecisionChangesIff(run: seq<WideAction>, x: WideAction, r: RegistrationId)
    requires r in WideAfter(run).sevs.db.poll.registrations
    requires WideAfter(run).sevs.db.poll.registrations[r].status != RegistrationPending
    ensures
      var s := WideAfter(run);
      var p, q := s.sevs.db.poll, WideStep(s, x).sevs.db.poll;
      && r in q.registrations
      && (q.registrations[r].status != p.registrations[r].status <==>
            WritesVerdict(s, x, r, p.registrations[r].status != RegistrationApproved))
  {
    var s := WideAfter(run);
    hide WideAfter;
    if x.Base? {
      StepEvolves(s.sevs, x.action);
      hide Step;
      hide GovEvolves;
      hide RollFrozen;
    } else {
      var m := SplitMove(s, x);
      if x.AdvanceRow? && x.id in s.rows {
        VerdictWritten(s.sevs.db, s.rows[x.id], r);
      }
      hide StatusStep;
      hide RowStep;
    }
  }

  lemma VerdictWritten(db: Db, c: RowCall, r: RegistrationId)
    requires r in db.poll.registrations
    ensures
      var p := RowStep(db, c).0.poll;
      && r in p.registrations
      && p.registrations[r].status ==
           if c.phase.WriteRow? && c.op.Decide? && c.op.r == r then
             if c.op.approve then RegistrationApproved else RegistrationRejected
           else db.poll.registrations[r].status
  {
    if c.phase.WriteRow? {
      WriteVerdict(db, c.op, c.phase.student, r);
    }
    hide RowWrite;
    hide RowError;
  }

  lemma WriteVerdict(db: Db, op: RowOp, student: StudentId, r: RegistrationId)
    requires r in db.poll.registrations
    ensures
      var p := RowWrite(db, op, student).0.poll;
      && r in p.registrations
      && p.registrations[r].status ==
           if op.Decide? && op.r == r then if op.approve then RegistrationApproved else RegistrationRejected
           else db.poll.registrations[r].status
  {
    hide Referred;
  }

  /** The step writes dates of election `e`, and not the ones that it has. */
  predicate WritesDates(s: Wide, x: WideAction, e: ElectionId) {
    && x.AdvanceRow? && x.id in s.rows && s.rows[x.id].phase.WriteRow?
    && s.rows[x.id].op.ChangeDates? && s.rows[x.id].op.e == e && e in s.sevs.db.gov.elections
    && RowCalls.Redated(s.sevs.db.gov.elections[e], s.rows[x.id].op.newStart, s.rows[x.id].op.newEnd)
         != s.sevs.db.gov.elections[e]
  }

  /** An election that has left DRAFT changes its dates exactly by a write of other dates, whose check was
      made in DRAFT. */
  lemma {:induction false} DatesChangeIff(run: seq<WideAction>, x: WideAction, e: ElectionId)
    requires e in WideAfter(run).sevs.db.gov.elections
    requires WideAfter(run).sevs.db.gov.elections[e].status != Draft
    ensures
      var s := WideAfter(run);
      var g, g' := s.sevs.db.gov, WideStep(s, x).sevs.db.gov;
      && e in g'.elections
      && (g'.elections[e] != g.elections[e].(status := g'.elections[e].status) <==> WritesDates(s, x, e))
  {
    var s := WideAfter(run);
    hide WideAfter;
    if x.Base? {
      StepEvolves(s.sevs, x.action);
      hide Step;
      hide PollEvolves;
      hide RollFrozen;
    } else if x.AdvanceRow? && x.id in s.rows {
      DatesWritten(s.sevs.db, s.rows[x.id], e);
      hide RowStep;
    } else if x.AdvanceStatus? && x.id in s.calls {
      StatusSpares(s.sevs.db, s.calls[x.id]);
      StatusElections(s.sevs.db, s.calls[x.id]);
      hide StatusStep;
    }
  }

  lemma StatusElections(db: Db, c: StatusCall)
    ensures StatusStep(db, c).0.gov.elections.Keys == db.gov.elections.Keys
  {
    hide Elections.TransitionError;
  }

  lemma DatesWritten(db: Db, c: RowCall, e: ElectionId)
    requires e in db.gov.elections
    ensures
      var g := RowStep(db, c).0.gov;
      && e in g.elections
      && g.elections[e] ==
           if c.phase.WriteRow? && c.op.ChangeDates? && c.op.e == e then
             RowCalls.Redated(db.gov.elections[e], c.op.newStart, c.op.newEnd)
           else db.gov.elections[e]
  {
    hide RowError;
    hide Referred;
  }
}
