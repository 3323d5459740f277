/** Service calls taken as one step each: a coarser system, all of whose runs are interleaved runs. */
module Atomic {
  import opened Schema
  import opened Approvals
  import opened Ballots
  import opened System
  import opened Moves
  import opened BallotSafety
  import opened OneVote
  import opened BallotBox

  datatype Call =
    | Single(command: Command)
    | WholeRequest(user: UserId, e: ElectionId, uuid: Token)
    | WholeApproval(q: RequestId, officer: UserId, d: Decision)

  ghost function Perform(db: Db, c: Call): Db {
    match c
    case Single(command) => Execute(db, command)
    case WholeRequest(user, e, uuid) => RequestBallotEffect(db, user, e, uuid).0
    case WholeApproval(q, officer, d) => CastApprovalEffect(db, q, officer, d).0
  }

  ghost function AfterCalls(calls: seq<Call>): Db {
    if calls == [] then EMPTY_DB else Perform(AfterCalls(calls[..|calls| - 1]), calls[|calls| - 1])
  }

  // ---------- every atomic run is an interleaved run ----------

  function Times(a: Action, n: nat): (r: seq<Action>)
    ensures |r| == n
  {
    if n == 0 then [] else [a] + Times(a, n - 1)
  }

  lemma {:induction false} AfterOne(run: seq<Action>, a: Action)
    ensures After(run + [a]) == Step(After(run), a)
  {
    assert (run + [a])[..|run + [a]| - 1] == run;
  }

  lemma {:induction false} AdvanceToEnd(run: seq<Action>, id: CallId, uuid: Token, n: nat)
    requires id in After(run).requesting && Ballots.StepsLeft(After(run).requesting[id].phase) <= n
    ensures
      var s, s' := After(run), After(run + Times(AdvanceRequest(id, uuid), n));
      && s'.db == RunRequest(s.db, s.requesting[id], uuid).0
      && s'.requesting.Keys == s.requesting.Keys && s'.approving == s.approving
    decreases n
  {
    var a := AdvanceRequest(id, uuid);
    var s := After(run);
    if n == 0 {
      assert run + Times(a, 0) == run;
    } else {
      hide After;
      hide RequestStep;
      hide Execute;
      hide ApprovalStep;
      AfterOne(run, a);
      RequestCloser(s.db, s.requesting[id], uuid);
      AdvanceToEnd(run + [a], id, uuid, n - 1);
      assert (run + [a]) + Times(a, n - 1) == run + Times(a, n);
    }
  }

  lemma RequestCloser(db: Db, c: RequestCall, uuid: Token)
    ensures
      var (db', c') := RequestStep(db, c, uuid);
      && (c.phase.Finished? ==> db' == db && c' == c)
      && (!c.phase.Finished? ==> Ballots.StepsLeft(c'.phase) < Ballots.StepsLeft(c.phase))
  {}

  lemma ApprovalCloser(db: Db, c: ApprovalCall)
    ensures
      var (db', c') := ApprovalStep(db, c);
      && (c.phase.Done? ==> db' == db && c' == c)
      && (!c.phase.Done? ==> Approvals.StepsLeft(c'.phase) < Approvals.StepsLeft(c.phase))
  {}

  lemma {:induction false} ApproveToEnd(run: seq<Action>, id: CallId, n: nat)
    requires id in After(run).approving && Approvals.StepsLeft(After(run).approving[id].phase) <= n
    ensures
      var s, s' := After(run), After(run + Times(AdvanceApproval(id), n));
      && s'.db == RunApproval(s.db, s.approving[id]).0
      && s'.approving.Keys == s.approving.Keys && s'.requesting == s.requesting
    decreases n
  {
    var a := AdvanceApproval(id);
    var s := After(run);
    if n == 0 {
      assert run + Times(a, 0) == run;
    } else {
      hide After;
      hide RequestStep;
      hide Execute;
      hide ApprovalStep;
      AfterOne(run, a);
      ApprovalCloser(s.db, s.approving[id]);
      ApproveToEnd(run + [a], id, n - 1);
      assert (run + [a]) + Times(a, n - 1) == run + Times(a, n);
    }
  }

  /** The steps of one call, not interrupted. */
  function Spelled(c: Call, id: CallId): seq<Action> {
    match c
    case Single(command) => [Do(command)]
    case WholeRequest(user, e, uuid) => [BeginRequest(id, user, e)] + Times(AdvanceRequest(id, uuid), 9)
    case WholeApproval(q, officer, d) => [BeginApproval(id, q, officer, d)] + Times(AdvanceApproval(id), 4)
  }

  function SpelledOut(calls: seq<Call>): seq<Action> {
    if calls == [] then []
    else SpelledOut(calls[..|calls| - 1]) + Spelled(calls[|calls| - 1], |calls| - 1)
  }

  /** The identifiers up to `n` are taken. */
  ghost predicate IdsBelow(s: Sevs, n: nat) {
    (forall id | id in s.requesting :: id < n) && (forall id | id in s.approving :: id < n)
  }

  lemma {:induction false} RequestBegins(run: seq<Action>, id: CallId, user: UserId, e: ElectionId)
    requires id !in After(run).requesting
    ensures
      var s := After(run);
      After(run + [BeginRequest(id, user, e)]) ==
        Sevs(s.db, s.requesting[id := RequestCall(user, e, FindStudent)], s.approving)
  {
    AfterOne(run, BeginRequest(id, user, e));
    hide After;
  }

  lemma {:induction false} ApprovalBegins(run: seq<Action>, id: CallId, q: RequestId, officer: UserId, d: Decision)
    requires id !in After(run).approving
    ensures
      var s := After(run);
      After(run + [BeginApproval(id, q, officer, d)]) ==
        Sevs(s.db, s.requesting, s.approving[id := ApprovalCall(q, officer, d, Check)])
  {
    AfterOne(run, BeginApproval(id, q, officer, d));
    hide After;
  }

  lemma {:induction false} RequestSpelled(run: seq<Action>, c: Call, id: nat)
    requires IdsBelow(After(run), id) && c.WholeRequest?
    ensures
      var s := After(run + Spelled(c, id));
      s.db == Perform(After(run).db, c) && IdsBelow(s, id + 1)
  {
    hide After;
    hide RunRequest;
    hide Times;
    var begin := BeginRequest(id, c.user, c.e);
    RequestBegins(run, id, c.user, c.e);
    AdvanceToEnd(run + [begin], id, c.uuid, 9);
    assert (run + [begin]) + Times(AdvanceRequest(id, c.uuid), 9) == run + Spelled(c, id);
  }

  lemma {:induction false} ApprovalSpelled(run: seq<Action>, c: Call, id: nat)
    requires IdsBelow(After(run), id) && c.WholeApproval?
    ensures
      var s := After(run + Spelled(c, id));
      s.db == Perform(After(run).db, c) && IdsBelow(s, id + 1)
  {
    hide After;
    hide RunApproval;
    hide Times;
    var begin := BeginApproval(id, c.q, c.officer, c.d);
    ApprovalBegins(run, id, c.q, c.officer, c.d);
    ApproveToEnd(run + [begin], id, 4);
    assert (run + [begin]) + Times(AdvanceApproval(id), 4) == run + Spelled(c, id);
  }

  lemma {:induction false} CommandSpelled(run: seq<Action>, c: Call, id: nat)
    requires IdsBelow(After(run), id) && c.Single?
    ensures
      var s := After(run + Spelled(c, id));
      s.db == Perform(After(run).db, c) && IdsBelow(s, id + 1)
  {
    AfterOne(run, Do(c.command));
    hide After;
    hide Execute;
  }

  lemma {:induction false} CallSpelled(run: seq<Action>, c: Call, id: nat)
    requires IdsBelow(After(run), id)
    ensures
      var s := After(run + Spelled(c, id));
      s.db == Perform(After(run).db, c) && IdsBelow(s, id + 1)
  {
    hide After;
    hide Perform;
    hide Spelled;
    hide IdsBelow;
    match c {
      case Single(_) => CommandSpelled(run, c, id);
      case WholeRequest(_, _, _) => RequestSpelled(run, c, id);
      case WholeApproval(_, _, _) => ApprovalSpelled(run, c, id);
    }
  }

  /** Whatever a run of atomic calls does to the database, an interleaved run does too: what holds of
      every interleaved run holds of every run of atomic calls. */
  lemma {:induction false} AtomicIsInterleaved(calls: seq<Call>)
    ensures After(SpelledOut(calls)).db == AfterCalls(calls) && IdsBelow(After(SpelledOut(calls)), |calls|)
    decreases |calls|
  {
    if calls == [] {
      assert After([]) == START;
    } else {
      hide After;
      hide Perform;
      hide Spelled;
      hide IdsBelow;
      var shorter := calls[..|calls| - 1];
      AtomicIsInterleaved(shorter);
      CallSpelled(SpelledOut(shorter), calls[|calls| - 1], |shorter|);
    }
  }

  // ---------- one registration, one vote ----------

  /** A call that nothing interrupts still sees what it saw at its check. */
  ghost predicate Undisturbed(db: Db, c: RequestCall) {
    && (c.phase.CheckWindow? || c.phase.ReadPointer? || c.phase.ReadBallot? || c.phase.Clear? || c.phase.Claim? ==>
          var key := (c.phase.student, c.election);
          && key in db.poll.byStudent && db.poll.byStudent[key] in db.poll.registrations
          && !db.poll.registrations[db.poll.byStudent[key]].participated
          && (c.phase.ReadBallot? || c.phase.Clear? || c.phase.Claim? ==>
              c.phase.registration == db.poll.byStudent[key]))
    && (c.phase.ReadPointer? || c.phase.ReadBallot? || c.phase.Clear? || c.phase.Claim? ==> c.phase.now == db.clock)
  }

  /** No claim was ever overtaken, and every ballot was issued when its window was checked. */
  ghost predicate Fresh(p: Poll) {
    p.stale == {} && forall t | t in p.ballots && t in p.checkedAt :: p.ballots[t].issuedAt == p.checkedAt[t]
  }

  lemma StepUndisturbed(db: Db, c: RequestCall, token: Token)
    requires Undisturbed(db, c) && Fresh(db.poll)
    ensures
      var (db', c') := RequestStep(db, c, token);
      Undisturbed(db', c') && Fresh(db'.poll)
  {}

  lemma {:induction false} RunUndisturbed(db: Db, c: RequestCall, token: Token)
    requires Undisturbed(db, c) && Fresh(db.poll)
    ensures Fresh(RunRequest(db, c, token).0.poll)
    decreases Ballots.StepsLeft(c.phase)
  {
    if !c.phase.Finished? {
      StepUndisturbed(db, c, token);
      var (db', c') := RequestStep(db, c, token);
      RequestCloser(db, c, token);
      hide RequestStep;
      hide Undisturbed;
      hide Fresh;
      RunUndisturbed(db', c', token);
    }
  }

  lemma MoveFresh(db: Db, m: PollMove)
    requires PollEnabled(db, m) && !m.Issues? && Fresh(db.poll)
    ensures Fresh(PollAfter(db.poll, db.clock, m))
  {}

  lemma CommandFresh(s: Sevs, c: Command)
    requires Fresh(s.db.poll)
    ensures Fresh(Execute(s.db, c).poll)
  {
    var dt, g, m := StepMove(s, Do(c));
    MoveFresh(s.db, m);
    hide Execute;
  }

  lemma {:induction false} ApprovalFresh(db: Db, c: ApprovalCall)
    ensures RunApproval(db, c).0.poll == db.poll
    decreases Approvals.StepsLeft(c.phase)
  {
    if !c.phase.Done? {
      var g := ApprovalMove(db, c);
      ApprovalCloser(db, c);
      var (db', c') := ApprovalStep(db, c);
      hide ApprovalStep;
      ApprovalFresh(db', c');
    }
  }

  lemma {:induction false} CallsFresh(calls: seq<Call>)
    ensures Fresh(AfterCalls(calls).poll)
    decreases |calls|
  {
    if calls != [] {
      var shorter, c := calls[..|calls| - 1], calls[|calls| - 1];
      CallsFresh(shorter);
      var db := AfterCalls(shorter);
      hide Fresh;
      hide AfterCalls;
      hide Execute;
      hide RunRequest;
      hide RunApproval;
      match c {
        case Single(command) => CommandFresh(Sevs(db, map[], map[]), command);
        case WholeRequest(user, e, uuid) => RunUndisturbed(db, RequestCall(user, e, FindStudent), uuid);
        case WholeApproval(q, officer, d) => ApprovalFresh(db, ApprovalCall(q, officer, d, Check));
      }
      assert Fresh(Perform(db, c).poll);
      CallsUnfold(calls);
    }
  }

  lemma {:induction false} CallsUnfold(calls: seq<Call>)
    requires calls != []
    ensures AfterCalls(calls) == Perform(AfterCalls(calls[..|calls| - 1]), calls[|calls| - 1])
  {}

  /** In every run of atomic calls: one registration, one vote; a registration that holds a token has
      not voted; and in every election there are as many votes as participants. */
  lemma {:induction false} OneRegistrationOneVote(calls: seq<Call>, r: RegistrationId, e: ElectionId)
    ensures
      var db := AfterCalls(calls);
      && |UsedBallots(db.poll, r)| == (if Participated(db.poll, r) then 1 else 0)
      && (forall t | Pointer(db.poll, r, t) :: !Participated(db.poll, r))
      && |UsedIn(db.poll, e)| == |VotesIn(db.poll, e)| == |ReceiptsIn(db.poll, e)| == |ParticipantsIn(db.poll, e)|
      && |VotesIn(db.poll, e)| == BallotBox.Times(db.log, VoteCast(e))
  {
    var run := SpelledOut(calls);
    AtomicIsInterleaved(calls);
    CallsFresh(calls);
    OneVoteIff(run, r);
    Conservation(run);
    RunSafe(run);
    var db := AfterCalls(calls);
    hide After;
    hide AfterCalls;
    assert StaleVotes(db.poll, r) == {} && StaleIn(db.poll, e) == {};
    assert Conserved(db, e);
  }

  /** In every run of atomic calls votes are cast from the start of the election to thirty minutes
      after its end. */
  lemma {:induction false} VotesInTime(calls: seq<Call>, v: VoteId)
    requires v in AfterCalls(calls).poll.votes
    ensures
      var db := AfterCalls(calls);
      var t := db.poll.votes[v].ballotToken;
      && t in db.poll.ballots && db.poll.ballots[t].electionId in db.gov.elections
      && var election := db.gov.elections[db.poll.ballots[t].electionId];
         election.startDate <= db.poll.votes[v].createdAt <= election.endDate + SESSION
  {
    AtomicIsInterleaved(calls);
    CallsFresh(calls);
    VoteWindow(SpelledOut(calls), v);
    hide After;
    hide AfterCalls;
  }
}
