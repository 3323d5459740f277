/** Runs from the empty database in which the services do what their documentation rules out. */
module Runs {
  import opened JsText
  import opened Schema
  import opened Elections
  import opened Approvals
  import opened Ballots
  import opened Voting
  import opened System
  import opened Moves
  import opened Evolution
  import opened BallotSafety
  import opened OneVote
  import opened Atomic
  import opened Tally
  import BallotBox
  import Quorum
  import WideQuorum
  import Journey
  import opened Races
  import opened RowCalls
  import opened SplitCalls

  // ---------- an election, from the empty database ----------

  /** The end of the election. */
  const END := 10000000

  /** User 1 is student 10 and registers for election 5, officer 2 verifies the registration. */
  function Drafted(): Db {
    Db(0, Gov(map[1 := 10], map[5 := Election(Draft, 10, END)], map[6 := 5], map[], map[], map[]),
       Poll(map[7 := Registration(10, 5, RegistrationApproved, Some(2), false, None)], map[(10, 5) := 7],
            map[], map[], map[], map[], {}, map[]), VERIFIED)
  }

  /** The database with election 5 in the given state. */
  function Example(clock: int, status: ElectionStatus, request: ApprovalStatus,
                   approvals: map<(RequestId, UserId), Decision>,
                   log: seq<LogEntry>): Db {
    Db(clock, Gov(map[1 := 10], map[5 := Election(status, 10, END)], map[6 := 5], map[],
                  map[8 := Request(ElectionActivate, 2, Some(5), None, request)], approvals),
       Poll(map[7 := Registration(10, 5, RegistrationApproved, Some(2), false, None)], map[(10, 5) := 7],
            map[], map[], map[], map[], {}, map[]), log)
  }

  const VERIFIED := [LogEntry(ByUser(2), RegistrationWasApproved(7), 0)]

  lemma DraftedByCommands()
    ensures
      Execute(Execute(Execute(Execute(EMPTY_DB, EnrollStudent(1, 10)), CreateElection(5, 10, END, {6})),
                      Register(1, 5, 7)),
              ResolveRegistration(7, 2, true)) == Drafted()
  {
    var db1 := Execute(EMPTY_DB, EnrollStudent(1, 10));
    var db2 := Execute(db1, CreateElection(5, 10, END, {6}));
    assert db2.gov == Gov(map[1 := 10], map[5 := Election(Draft, 10, END)], map[6 := 5], map[], map[], map[]);
    var db3 := Execute(db2, Register(1, 5, 7));
    var db4 := Execute(db3, ResolveRegistration(7, 2, true));
  }

  lemma SubmittedByOfficer()
    ensures Execute(Drafted(), SubmitElection(5, 2, 8)) == Example(0, PendingApproval, Pending, map[], VERIFIED)
  {
    var db := Execute(Drafted(), SubmitElection(5, 2, 8));
    assert db.gov.elections == map[5 := Election(PendingApproval, 10, END)];
  }

  lemma FirstApproval()
    ensures
      CastApprovalEffect(Example(0, PendingApproval, Pending, map[], VERIFIED), 8, 3, Approve).0 ==
        Example(0, PendingApproval, Pending, map[(8, 3) := Approve], VERIFIED)
  {
    hide Deciders;
    VoteRuns(Example(0, PendingApproval, Pending, map[], VERIFIED), 8, 3, Approve);
    hide CastApprovalEffect;
    DecidersGrow(map[], 8, 3, Approve, 8, Approve);
    DecidersGrow(map[], 8, 3, Approve, 8, Reject);
    NobodyDecided(8, Approve);
    NobodyDecided(8, Reject);
  }

  lemma NobodyDecided(q: RequestId, d: Decision)
    ensures Deciders(map[], q, d) == {}
  {}

  lemma SecondApproval()
    ensures
      CastApprovalEffect(Example(0, PendingApproval, Pending, map[(8, 3) := Approve], VERIFIED), 8, 4, Approve).0 ==
        Example(0, Scheduled, Approved, map[(8, 3) := Approve, (8, 4) := Approve],
                VERIFIED + [LogEntry(QuorumDecision, ElectionScheduled(5), 0)])
  {
    hide Deciders;
    var db := Example(0, PendingApproval, Pending, map[(8, 3) := Approve], VERIFIED);
    VoteRuns(db, 8, 4, Approve);
    hide CastApprovalEffect;
    DecidersGrow(map[], 8, 3, Approve, 8, Approve);
    DecidersGrow(map[], 8, 3, Approve, 8, Reject);
    DecidersGrow(map[(8, 3) := Approve], 8, 4, Approve, 8, Approve);
    DecidersGrow(map[(8, 3) := Approve], 8, 4, Approve, 8, Reject);
    NobodyDecided(8, Approve);
    NobodyDecided(8, Reject);
    var inserted := db.(gov := db.gov.(approvals := map[(8, 3) := Approve, (8, 4) := Approve]));
    var resolved := ResolveEffect(inserted, 8, true).0;
    assert resolved.gov.requests == map[8 := Request(ElectionActivate, 2, Some(5), None, Approved)];
    assert resolved.gov.elections == map[5 := Election(Scheduled, 10, END)];
  }

  const OPENED := VERIFIED + [LogEntry(QuorumDecision, ElectionScheduled(5), 0),
                              LogEntry(ByUser(2), ElectionActivated(5, Scheduled), 0)]

  lemma ActivatedByOfficer()
    ensures
      Execute(Execute(Example(0, Scheduled, Approved, map[(8, 3) := Approve, (8, 4) := Approve],
                              VERIFIED + [LogEntry(QuorumDecision, ElectionScheduled(5), 0)]),
                      ActivateElection(5, 2)), Tick(10)) ==
        Example(10, Active, Approved, map[(8, 3) := Approve, (8, 4) := Approve], OPENED)
  {
    var log := VERIFIED + [LogEntry(QuorumDecision, ElectionScheduled(5), 0)];
    var db := Execute(Example(0, Scheduled, Approved, map[(8, 3) := Approve, (8, 4) := Approve], log),
                      ActivateElection(5, 2));
    assert db.gov.elections == map[5 := Election(Active, 10, END)];
    assert db.log == OPENED;
  }

  lemma {:induction false} AfterCall(calls: seq<Call>, c: Call)
    ensures AfterCalls(calls + [c]) == Perform(AfterCalls(calls), c)
  {
    assert (calls + [c])[..|calls + [c]| - 1] == calls;
  }

  lemma {:induction false} AfterCommands(calls: seq<Call>, c: Command, d: Command)
    ensures AfterCalls(calls + [Single(c)] + [Single(d)]) == Execute(Execute(AfterCalls(calls), c), d)
  {
    AfterCall(calls, Single(c));
    AfterCall(calls + [Single(c)], Single(d));
  }

  /** The calls up to the registration. */
  const REGISTERING :=
    [Single(EnrollStudent(1, 10)), Single(CreateElection(5, 10, END, {6})), Single(Register(1, 5, 7))]

  /** Five calls after which the election waits for approval. */
  lemma {:induction false} SubmittedCalls() returns (calls: seq<Call>)
    ensures |calls| == 5 && AfterCalls(calls) == Example(0, PendingApproval, Pending, map[], VERIFIED)
    ensures calls[..3] == REGISTERING
  {
    hide Execute;
    hide Example;
    hide Drafted;
    var two := [] + [Single(EnrollStudent(1, 10))] + [Single(CreateElection(5, 10, END, {6}))];
    var four := two + [Single(Register(1, 5, 7))] + [Single(ResolveRegistration(7, 2, true))];
    calls := four + [Single(SubmitElection(5, 2, 8))];
    assert AfterCalls([]) == EMPTY_DB;
    AfterCommands([], EnrollStudent(1, 10), CreateElection(5, 10, END, {6}));
    AfterCommands(two, Register(1, 5, 7), ResolveRegistration(7, 2, true));
    DraftedByCommands();
    AfterCall(four, Single(SubmitElection(5, 2, 8)));
    SubmittedByOfficer();
  }

  /** Seven calls after which the election is scheduled. */
  lemma {:induction false} ScheduledCalls() returns (calls: seq<Call>)
    ensures |calls| == 7 && calls[..3] == REGISTERING
    ensures AfterCalls(calls) == Example(0, Scheduled, Approved, map[(8, 3) := Approve, (8, 4) := Approve],
                                         VERIFIED + [LogEntry(QuorumDecision, ElectionScheduled(5), 0)])
  {
    var five := SubmittedCalls();
    hide CastApprovalEffect;
    hide Example;
    hide AfterCalls;
    var six := five + [WholeApproval(8, 3, Approve)];
    calls := six + [WholeApproval(8, 4, Approve)];
    AfterCall(five, WholeApproval(8, 3, Approve));
    FirstApproval();
    AfterCall(six, WholeApproval(8, 4, Approve));
    SecondApproval();
  }

  /** The election is open, and user 1 may vote. */
  function Open(): Db {
    Example(10, Active, Approved, map[(8, 3) := Approve, (8, 4) := Approve], OPENED)
  }

  /** Nine calls after which user 1 may vote in election 5. */
  lemma {:induction false} SomebodyMayVote() returns (calls: seq<Call>)
    ensures AfterCalls(calls) == Open() && MayVote(AfterCalls(calls), 1, 5, 7)
    ensures |calls| == 9 && calls[..3] == REGISTERING
  {
    var seven := ScheduledCalls();
    hide Execute;
    hide Example;
    hide AfterCalls;
    calls := seven + [Single(ActivateElection(5, 2))] + [Single(Tick(10))];
    AfterCommands(seven, ActivateElection(5, 2), Tick(10));
    ActivatedByOfficer();
    VoterInExample();
  }

  lemma VoterInExample()
    ensures MayVote(Open(), 1, 5, 7)
    ensures Open().poll.ballots == map[] && Open().poll.votes == map[] && Open().poll.receipts == map[]
    ensures Open().gov.elections == map[5 := Election(Active, 10, END)]
  {}

  // ---------- the runs ----------

  /** A run in which registration 7 votes twice. */
  lemma {:induction false} DoubleVote() returns (run: seq<Action>)
    ensures |UsedBallots(After(run).db.poll, 7)| >= 2
  {
    var calls := SomebodyMayVote();
    var before := SpelledOut(calls);
    AtomicIsInterleaved(calls);
    var first, second := |calls|, |calls| + 1;
    VoterInExample();
    hide After;
    hide AfterCalls;
    hide Open;
    hide MayVote;
    VoterCanVoteTwice(before, 1, 5, 7, first, second, 21, 22, 31, 32);
    run := before + (Opening(first, 1, 5) + Opening(second, 1, 5) + ClaimVoteTwice(first, second, 21, 22, 31, 32));
  }

  /** A run in which a vote is recorded long after the end of its election, and thirty minutes. */
  lemma {:induction false} VoteAfterTheEnd() returns (run: seq<Action>)
    ensures
      var db := After(run).db;
      && 31 in db.poll.votes && 5 in db.gov.elections && db.gov.elections[5].endDate == END
      && db.poll.votes[31].createdAt > END + SESSION
  {
    var calls := SomebodyMayVote();
    var before := SpelledOut(calls);
    AtomicIsInterleaved(calls);
    VoterInExample();
    var id := |calls|;
    var late := Opening(id, 1, 5) + [Do(Tick(END + SESSION))] +
                [AdvanceRequest(id, 21), Do(Command.CastVote(21, [], 31, 0, 0))];
    hide AfterCalls;
    hide Open;
    hide MayVote;
    VoteAnyTimeLater(before, 1, 5, 7, id, 21, 31, END + SESSION);
    RunEvolves(before + late, |before|);
    assert (before + late)[..|before|] == before;
    run := before + late;
    assert ClockOfOpen();
    hide After;
    hide PollEvolves;
    hide RollFrozen;
  }

  predicate ClockOfOpen() {
    Open().clock == 10
  }

  /** A run in which a token that was just handed out, unused and good for half an hour, is lost. */
  lemma {:induction false} FreshTokenLost() returns (run: seq<Action>, id: CallId)
    ensures
      var s := After(run);
      && id in s.requesting && s.requesting[id].phase == Finished(Issued(22))
      && Lost(s.db.poll, 22) && !s.db.poll.ballots[22].used && s.db.poll.ballots[22].expiresAt > s.db.clock
  {
    var calls := SomebodyMayVote();
    VoterInExample();
    var more := calls + [WholeRequest(1, 5, 21)] + [Single(Tick(SESSION))];
    AfterCall(calls, WholeRequest(1, 5, 21));
    AfterCall(calls + [WholeRequest(1, 5, 21)], Single(Tick(SESSION)));
    ExpiredAfterTick();
    var before := SpelledOut(more);
    AtomicIsInterleaved(more);
    hide After;
    hide AfterCalls;
    hide Open;
    hide HoldsExpired;
    hide RequestBallotEffect;
    id := |more| + 1;
    LiveTokenLost(before, 1, 5, 7, 21, |more|, id, 22);
    run := before + (Reopening(|more|, 1, 5) + Reopening(id, 1, 5) + ClearClaimClear(|more|, id, 22));
  }

  lemma ExpiredAfterTick()
    ensures
      var db := Execute(RequestBallotEffect(Open(), 1, 5, 21).0, Tick(SESSION));
      HoldsExpired(db, 1, 5, 7, 21) && 22 !in db.poll.ballots
  {
    var db := Open();
    assert Journey.RegistrationOf(db, 1, 5) == 7;
    Journey.Claimed(db, 1, 5, 21);
    hide RequestBallotEffect;
  }

  /** Two runs in which officers 3 and 4 approve and officer 9 rejects: in one the request ends rejected
      and the election is scheduled all the same; in the other the request was rejected, and an approval is
      resolved over the veto. */
  lemma {:induction false} VetoedElectionScheduled() returns (vetoed: seq<Action>, passed: seq<Action>)
    ensures EndsAs(After(vetoed).db.gov, 8, 5, 9, Rejected, Scheduled)
    ensures passed != [] && EndsAs(After(passed[..|passed| - 1]).db.gov, 8, 5, 9, Rejected, PendingApproval)
    ensures EndsAs(After(passed).db.gov, 8, 5, 9, Approved, Scheduled)
  {
    var calls := SubmittedCalls();
    var before := SpelledOut(calls);
    AtomicIsInterleaved(calls);
    WaitsInExample();
    hide After;
    hide AfterCalls;
    hide Example;
    ThreeOpen(before, 8, 5, 3, 4, 9, 5, 6, 7);
    var ready := before + (Checked(5, 8, 3, Approve) + Checked(6, 8, 4, Approve) + Checked(7, 8, 9, Reject));
    VetoOvertaken(ready, 8, 5, 3, 4, 9, 5, 6, 7);
    var tallied := ready + TalliedBothWays(5, 6, 7);
    vetoed := tallied + [AdvanceApproval(6), AdvanceApproval(7)];
    passed := tallied + [AdvanceApproval(7), AdvanceApproval(6)];
    assert passed[..|passed| - 1] == tallied + [AdvanceApproval(7)];
  }

  lemma WaitsInExample()
    ensures
      var g := Example(0, PendingApproval, Pending, map[], VERIFIED).gov;
      AwaitsVotes(g, 8, 5) && g.requests[8].status == Pending && g.requests[8].requestedBy == 2
  {}

  /** A run in which a vote is recorded in an election that is closed. */
  lemma {:induction false} VoteInClosedElection() returns (calls: seq<Call>)
    ensures
      var db := AfterCalls(calls);
      && 5 in db.gov.elections && db.gov.elections[5].status == Closed && 31 in db.poll.votes
      && 5 in AfterCalls(calls[..|calls| - 1]).gov.elections
      && AfterCalls(calls[..|calls| - 1]).gov.elections[5].status == Closed
      && 31 !in AfterCalls(calls[..|calls| - 1]).poll.votes
  {
    var open := SomebodyMayVote();
    var one := open + [WholeRequest(1, 5, 21)];
    var two := one + [Single(InitiateClose(5, 2, 9))];
    var three := two + [WholeApproval(9, 3, Approve)];
    var four := three + [WholeApproval(9, 4, Approve)];
    calls := four + [Single(Command.CastVote(21, [], 31, 0, 0))];
    AfterCall(open, WholeRequest(1, 5, 21));
    AfterCall(one, Single(InitiateClose(5, 2, 9)));
    AfterCall(two, WholeApproval(9, 3, Approve));
    AfterCall(three, WholeApproval(9, 4, Approve));
    AfterCall(four, Single(Command.CastVote(21, [], 31, 0, 0)));
    AtomicIsInterleaved(four);
    hide AfterCalls;
    hide After;
    hide Open;
    hide CastApprovalEffect;
    hide RequestBallotEffect;
    hide Execute;
    ClosedByQuorum();
    CastAfterClosing(SpelledOut(four), 7, 21);
    assert calls[..|calls| - 1] == four;
  }

  lemma ClosedByQuorum()
    ensures
      var asked := Execute(RequestBallotEffect(Open(), 1, 5, 21).0, InitiateClose(5, 2, 9));
      var closed := CastApprovalEffect(CastApprovalEffect(asked, 9, 3, Approve).0, 9, 4, Approve).0;
      && 5 in closed.gov.elections && closed.gov.elections[5].status == Closed
      && Journey.HoldsLive(closed, 7, 21) && closed.poll.votes == map[]
  {
    ClosingAsked();
    hide Execute;
    hide RequestBallotEffect;
    hide CastApprovalEffect;
    hide Open;
    TwoApprovalsClose(Execute(RequestBallotEffect(Open(), 1, 5, 21).0, InitiateClose(5, 2, 9)), 9, 5, 3, 4);
  }

  lemma ClosingAsked()
    ensures
      var asked := Execute(RequestBallotEffect(Open(), 1, 5, 21).0, InitiateClose(5, 2, 9));
      && 9 in asked.gov.requests && asked.gov.requests[9] == Request(ElectionClose, 2, Some(5), None, Pending)
      && 5 in asked.gov.elections && asked.gov.elections[5].status == Active
      && (forall o :: (9, o) !in asked.gov.approvals)
      && Journey.HoldsLive(asked, 7, 21) && asked.poll.votes == map[]
  {
    var db := Open();
    assert Journey.RegistrationOf(db, 1, 5) == 7;
    Journey.Claimed(db, 1, 5, 21);
    hide RequestBallotEffect;
    hide Execute;
    ClosingAskedOf(RequestBallotEffect(db, 1, 5, 21).0);
  }

  lemma ClosingAskedOf(db: Db)
    requires db.gov == Open().gov
    ensures
      var asked := Execute(db, InitiateClose(5, 2, 9));
      && asked.poll == db.poll && asked.clock == db.clock
      && 9 in asked.gov.requests && asked.gov.requests[9] == Request(ElectionClose, 2, Some(5), None, Pending)
      && 5 in asked.gov.elections && asked.gov.elections[5].status == Active
      && forall o :: (9, o) !in asked.gov.approvals
  {}

  lemma {:induction false} CastAfterClosing(run: seq<Action>, r: RegistrationId, t: Token)
    requires Journey.HoldsLive(After(run).db, r, t) && After(run).db.poll.votes == map[]
    ensures
      var db := Execute(After(run).db, Command.CastVote(t, [], 31, 0, 0));
      31 in db.poll.votes && db.gov == After(run).db.gov
  {
    RunSafe(run);
    NoSharedToken(run);
    BallotBox.Conservation(run);
    var db := After(run).db;
    hide After;
    BallotBox.FreshReceipt(db.poll, 31, db.clock, 0);
    CastStep(db, r, t, 31, 0);
    var p := CastCommand(db, Command.CastVote(t, [], 31, 0, 0));
    hide Execute;
  }

  // ---------- runs with check and write split ----------

  function Based(run: seq<Action>): (r: seq<WideAction>)
    ensures |r| == |run|
  {
    if run == [] then [] else Based(run[..|run| - 1]) + [Base(run[|run| - 1])]
  }

  /** Actions of the system leave the split calls where they are. */
  lemma {:induction false} BaseGoesOn(w: seq<WideAction>, a: seq<Action>, b: seq<Action>)
    requires WideAfter(w).sevs == After(a)
    ensures WideAfter(w + Based(b)) == WideAfter(w).(sevs := After(a + b))
    decreases |b|
  {
    hide WideAfter;
    hide After;
    hide Step;
    hide StatusStep;
    hide RowStep;
    if b == [] {
      assert w + Based(b) == w && a + b == a;
    } else {
      var shorter, last := b[..|b| - 1], b[|b| - 1];
      BaseGoesOn(w, a, shorter);
      WideAfterOne(w + Based(shorter), Base(last));
      AfterOne(a + shorter, last);
      assert w + Based(shorter) + [Base(last)] == w + Based(b);
      assert a + shorter + [last] == a + b;
    }
  }

  /** A run in which an election is scheduled by its quorum and cancelled afterwards. */
  lemma {:induction false} ScheduledThenCancelled() returns (run: seq<WideAction>)
    ensures run != []
    ensures
      var before, after := WideAfter(run[..|run| - 1]).sevs.db.gov.elections, WideAfter(run).sevs.db.gov.elections;
      && 5 in before && before[5].status == Scheduled && 5 in after && after[5].status == Cancelled
  {
    var calls := SubmittedCalls();
    var start := SpelledOut(calls);
    AtomicIsInterleaved(calls);
    WaitsInExample();
    hide After;
    hide WideAfter;
    hide AfterCalls;
    hide Example;
    ThreeOpen(start, 8, 5, 3, 4, 9, 5, 6, 7);
    var open := start + (Checked(5, 8, 3, Approve) + Checked(6, 8, 4, Approve) + Checked(7, 8, 9, Reject));
    BothTallied(open, 8, 5, 3, 4, 9, 5, 6, 7);
    var tallied := open + TalliedBothWays(5, 6, 7);
    EmptyWide();
    BaseGoesOn([], [], tallied);
    assert [] + Based(tallied) == Based(tallied) && [] + tallied == tallied;
    var checked := Based(tallied) + [BeginStatus(0, Cancel, 5, 2, 0)] + [AdvanceStatus(0)];
    CancelChecked(Based(tallied), 5);
    CancelledAfterScheduled(checked, 0, 6, 5);
    run := checked + [Base(AdvanceApproval(6))] + [AdvanceStatus(0)];
    assert run[..|run| - 1] == checked + [Base(AdvanceApproval(6))];
  }

  lemma {:induction false} EmptyWide()
    ensures WideAfter([]) == Wide(After([]), map[], map[])
  {}

  lemma {:induction false} CancelChecked(w: seq<WideAction>, e: ElectionId)
    requires e in WideAfter(w).sevs.db.gov.elections && WideAfter(w).sevs.db.gov.elections[e].status == PendingApproval
    requires WideAfter(w).calls == map[]
    ensures
      var s := WideAfter(w + [BeginStatus(0, Cancel, e, 2, 0)] + [AdvanceStatus(0)]);
      && s.sevs == WideAfter(w).sevs && 0 in s.calls
      && s.calls[0] == StatusCall(Cancel, e, 2, 0, WriteStatus)
  {
    WideAfterOne(w, BeginStatus(0, Cancel, e, 2, 0));
    WideAfterOne(w + [BeginStatus(0, Cancel, e, 2, 0)], AdvanceStatus(0));
    hide WideAfter;
  }

  /** A run in which two officers activate one election, and both activations are logged. */
  lemma {:induction false} ActivatedTwice() returns (run: seq<WideAction>)
    ensures BallotBox.Times(WideAfter(run).sevs.db.log, ElectionActivated(5, Scheduled)) == 2
    ensures !Quorum.Reported(WideAfter(run).sevs.db, 5)
  {
    var calls := ScheduledCalls();
    var start := SpelledOut(calls);
    AtomicIsInterleaved(calls);
    Quorum.EffectsReportedOnce(start, 5);
    EmptyWide();
    hide After;
    hide WideAfter;
    hide AfterCalls;
    hide BallotBox.Times;
    BaseGoesOn([], [], start);
    assert [] + Based(start) == Based(start) && [] + start == start;
    WideQuorum.ActivatesTwice(Based(start), 5, 0, 1, 2, 3);
    run := Based(start) + WideQuorum.Activations(5, 0, 1, 2, 3);
  }

  lemma {:induction false} SpelledSnoc(calls: seq<Call>)
    requires calls != []
    ensures SpelledOut(calls) == SpelledOut(calls[..|calls| - 1]) + Spelled(calls[|calls| - 1], |calls| - 1)
  {}

  lemma {:induction false} SpelledPrefix(calls: seq<Call>, k: nat) returns (rest: seq<Action>)
    requires k <= |calls|
    ensures SpelledOut(calls) == SpelledOut(calls[..k]) + rest
    decreases |calls|
  {
    hide SpelledOut;
    hide Spelled;
    if k == |calls| {
      assert calls[..k] == calls;
      rest := [];
    } else {
      var shorter := calls[..|calls| - 1];
      assert shorter[..k] == calls[..k];
      var front := SpelledPrefix(shorter, k);
      SpelledSnoc(calls);
      rest := front + Spelled(calls[|calls| - 1], |calls| - 1);
    }
  }

  lemma RegisteredByCommands()
    ensures
      var db := Execute(Execute(Execute(EMPTY_DB, EnrollStudent(1, 10)), CreateElection(5, 10, END, {6})),
                        Register(1, 5, 7));
      && 7 in db.poll.registrations && db.poll.registrations[7].status == RegistrationPending && 3 !in db.gov.students
      && db.gov.elections == map[5 := Election(Draft, 10, END)]
  {
    var db1 := Execute(EMPTY_DB, EnrollStudent(1, 10));
    var db2 := Execute(db1, CreateElection(5, 10, END, {6}));
    assert db2.gov == Gov(map[1 := 10], map[5 := Election(Draft, 10, END)], map[6 := 5], map[], map[], map[]);
  }

  lemma {:induction false} PendingAfterRegistering()
    ensures
      var db := AfterCalls(REGISTERING);
      && 7 in db.poll.registrations && db.poll.registrations[7].status == RegistrationPending && 3 !in db.gov.students
      && db.gov.elections == map[5 := Election(Draft, 10, END)]
  {
    hide Execute;
    var two := [] + [Single(EnrollStudent(1, 10))] + [Single(CreateElection(5, 10, END, {6}))];
    assert REGISTERING == two + [Single(Register(1, 5, 7))];
    assert AfterCalls([]) == EMPTY_DB;
    hide AfterCalls;
    AfterCommands([], EnrollStudent(1, 10), CreateElection(5, 10, END, {6}));
    AfterCall(two, Single(Register(1, 5, 7)));
    RegisteredByCommands();
  }

  /** A row call that was checked right after the registration and writes after all the calls. */
  lemma {:induction false} WrittenLast(calls: seq<Call>, op: RowOp) returns (run: seq<WideAction>)
    requires |calls| >= 3 && calls[..3] == REGISTERING && !op.Enter?
    requires RowError(AfterCalls(REGISTERING), op).None?
    ensures WideAfter(run).sevs.db == RowWrite(AfterCalls(calls), op, 0).0
  {
    var first := SpelledOut(calls[..3]);
    var rest := SpelledPrefix(calls, 3);
    AtomicIsInterleaved(calls);
    AtomicIsInterleaved(REGISTERING);
    EmptyWide();
    hide After;
    hide WideAfter;
    hide AfterCalls;
    hide RowError;
    hide RowWrite;
    BaseGoesOn([], [], first);
    assert [] + Based(first) == Based(first) && [] + first == first;
    var checked := Based(first) + [BeginRow(0, op)] + [AdvanceRow(0)];
    RowChecked(Based(first), op);
    BaseGoesOn(checked, first, rest);
    run := checked + Based(rest) + [AdvanceRow(0)];
    RowWritten(checked + Based(rest), op);
  }

  lemma {:induction false} RowChecked(w: seq<WideAction>, op: RowOp)
    requires RowError(WideAfter(w).sevs.db, op).None? && WideAfter(w).rows == map[] && !op.Enter?
    ensures
      var s := WideAfter(w + [BeginRow(0, op)] + [AdvanceRow(0)]);
      s.sevs == WideAfter(w).sevs && 0 in s.rows && s.rows[0] == RowCall(op, WriteRow(0))
  {
    WideAfterOne(w, BeginRow(0, op));
    WideAfterOne(w + [BeginRow(0, op)], AdvanceRow(0));
    hide WideAfter;
    hide RowError;
  }

  lemma {:induction false} RowWritten(w: seq<WideAction>, op: RowOp)
    requires 0 in WideAfter(w).rows && WideAfter(w).rows[0] == RowCall(op, WriteRow(0))
    ensures WideAfter(w + [AdvanceRow(0)]).sevs.db == RowWrite(WideAfter(w).sevs.db, op, 0).0
  {
    WideAfterOne(w, AdvanceRow(0));
    hide WideAfter;
    hide RowWrite;
  }

  /** The rejection of registration 7, checked while it was pending and written after all the calls. */
  lemma {:induction false} RejectedLast(calls: seq<Call>) returns (run: seq<WideAction>)
    requires |calls| >= 3 && calls[..3] == REGISTERING && 7 in AfterCalls(calls).poll.registrations
    ensures
      var p := AfterCalls(calls).poll;
      WideAfter(run).sevs.db.poll == p.(registrations := p.registrations[7 := p.registrations[7].(
                                          status := RegistrationRejected, verifiedBy := Some(3))])
    ensures WideAfter(run).sevs.db.clock == AfterCalls(calls).clock
  {
    PendingAfterRegistering();
    run := WrittenLast(calls, Decide(7, 3, false));
    hide WideAfter;
    hide AfterCalls;
  }

  /** A run in which two officers decide on one registration: it is approved, votes, and is rejected. */
  lemma {:induction false} VoterRejected() returns (run: seq<WideAction>)
    ensures
      var p := WideAfter(run).sevs.db.poll;
      7 in p.registrations && p.registrations[7].participated && p.registrations[7].status == RegistrationRejected
  {
    var calls := VotedCalls();
    run := RejectedLast(calls);
  }

  /** The same before the vote: a registration is rejected and holds a token with which it can vote. */
  lemma {:induction false} RejectedHolder() returns (run: seq<WideAction>)
    ensures
      var db := WideAfter(run).sevs.db;
      Journey.HoldsLive(db, 7, 21) && db.poll.registrations[7].status == RegistrationRejected
  {
    var calls := IssuedCalls();
    run := RejectedLast(calls);
    hide WideAfter;
    hide AfterCalls;
  }

  /** A run in which the dates of an election are changed after a vote: the vote is older than the start. */
  lemma {:induction false} VoteBeforeStart() returns (run: seq<WideAction>)
    ensures
      var db := WideAfter(run).sevs.db;
      && 31 in db.poll.votes && db.poll.votes[31].ballotToken in db.poll.ballots
      && db.poll.ballots[db.poll.votes[31].ballotToken].electionId == 5 && 5 in db.gov.elections
      && db.poll.votes[31].createdAt < db.gov.elections[5].startDate
  {
    var calls := VotedCalls();
    PendingAfterRegistering();
    run := WrittenLast(calls, ChangeDates(5, Some(END - 1), None));
    hide WideAfter;
    hide AfterCalls;
  }

  /** Ten calls after which registration 7 holds token 21. */
  lemma {:induction false} IssuedCalls() returns (calls: seq<Call>)
    ensures |calls| == 10 && calls[..3] == REGISTERING
    ensures
      var db := AfterCalls(calls);
      && Journey.HoldsLive(db, 7, 21) && db.poll.votes == map[] && db.clock == 10
      && db.poll.ballots[21].electionId == 5 && 5 in db.gov.elections
  {
    var open := SomebodyMayVote();
    calls := open + [WholeRequest(1, 5, 21)];
    AfterCall(open, WholeRequest(1, 5, 21));
    assert calls[..3] == open[..3];
    hide AfterCalls;
    hide Open;
    hide RequestBallotEffect;
    IssuedInExample();
  }

  lemma IssuedInExample()
    ensures
      var db := RequestBallotEffect(Open(), 1, 5, 21).0;
      && Journey.HoldsLive(db, 7, 21) && db.poll.votes == map[] && db.clock == 10
      && db.poll.ballots[21].electionId == 5 && 5 in db.gov.elections
  {
    var db := Open();
    assert Journey.RegistrationOf(db, 1, 5) == 7;
    Journey.Claimed(db, 1, 5, 21);
    hide RequestBallotEffect;
  }

  /** Eleven calls after which registration 7 has voted. */
  lemma {:induction false} VotedCalls() returns (calls: seq<Call>)
    ensures |calls| == 11 && calls[..3] == REGISTERING && Participated(AfterCalls(calls).poll, 7)
    ensures
      var db := AfterCalls(calls);
      && 31 in db.poll.votes && db.poll.votes[31].ballotToken == 21 && db.poll.votes[31].createdAt == 10
      && 21 in db.poll.ballots && db.poll.ballots[21].electionId == 5 && 5 in db.gov.elections
  {
    var one := IssuedCalls();
    calls := one + [Single(Command.CastVote(21, [], 31, 0, 0))];
    AfterCall(one, Single(Command.CastVote(21, [], 31, 0, 0)));
    AtomicIsInterleaved(one);
    assert calls[..3] == one[..3];
    hide AfterCalls;
    hide After;
    hide Execute;
    CastNow(SpelledOut(one), 7, 21);
    CastAfterClosing(SpelledOut(one), 7, 21);
  }

  lemma {:induction false} CastNow(run: seq<Action>, r: RegistrationId, t: Token)
    requires Journey.HoldsLive(After(run).db, r, t) && After(run).db.poll.votes == map[]
    ensures
      var p, q := After(run).db.poll, Execute(After(run).db, Command.CastVote(t, [], 31, 0, 0)).poll;
      && Participated(q, r) && 31 in q.votes && q.votes[31] == Vote(t, Sealed(0, []), After(run).db.clock)
      && t in q.ballots && q.ballots[t].electionId == p.ballots[t].electionId
  {
    RunSafe(run);
    NoSharedToken(run);
    BallotBox.Conservation(run);
    var db := After(run).db;
    hide After;
    BallotBox.FreshReceipt(db.poll, 31, db.clock, 0);
    CastStep(db, r, t, 31, 0);
    hide Execute;
  }
}
