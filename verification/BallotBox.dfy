/** Conservation: ballots used, votes, receipts and audit entries of an election, and the voting window. */
module BallotBox {
  import opened JsText
  import opened Schema
  import opened Ballots
  import opened Voting
  import opened System
  import opened Moves
  import opened Evolution
  import opened BallotSafety

  ghost function UsedIn(p: Poll, e: ElectionId): set<Token> {
    set t | t in p.ballots && p.ballots[t].used && p.ballots[t].electionId == e
  }

  ghost function StaleIn(p: Poll, e: ElectionId): set<Token> {
    set t | t in p.ballots && p.ballots[t].used && p.ballots[t].electionId == e && t in p.stale
  }

  predicate VoteIn(p: Poll, v: VoteId, e: ElectionId) {
    v in p.votes && p.votes[v].ballotToken in p.ballots && p.ballots[p.votes[v].ballotToken].electionId == e
  }

  ghost function VotesIn(p: Poll, e: ElectionId): set<VoteId> {
    set v | v in p.votes && VoteIn(p, v, e)
  }

  ghost function ReceiptsIn(p: Poll, e: ElectionId): set<ReceiptCode> {
    set x | x in p.receipts && VoteIn(p, p.receipts[x].voteId, e)
  }

  ghost function ParticipantsIn(p: Poll, e: ElectionId): set<RegistrationId> {
    set r | r in p.registrations && p.registrations[r].participated && p.registrations[r].electionId == e
  }

  /** How often an event stands in the audit log. */
  ghost function Times(log: seq<LogEntry>, event: Event): nat {
    if log == [] then 0 else Times(log[..|log| - 1], event) + if log[|log| - 1].event == event then 1 else 0
  }

  lemma {:induction false} TimesAppended(log: seq<LogEntry>, more: seq<LogEntry>, event: Event)
    requires |more| <= 1
    ensures Times(log + more, event) == Times(log, event) + if more != [] && more[0].event == event then 1 else 0
  {
    if more == [] {
      assert log + more == log;
    } else {
      assert (log + more)[..|log + more| - 1] == log;
    }
  }

  // ---------- votes, ballots and receipts one to one ----------

  ghost predicate VoteOk(p: Poll, v: VoteId) {
    v in p.votes ==>
      var t := p.votes[v].ballotToken;
      t in p.ballots && p.ballots[t].used && p.ballots[t].issuedAt <= p.votes[v].createdAt <= p.ballots[t].expiresAt
  }

  ghost predicate VotesOk(p: Poll) {
    && (forall v | v in p.votes :: VoteOk(p, v))
    && (forall v, v' | v in p.votes && v' in p.votes && p.votes[v].ballotToken == p.votes[v'].ballotToken :: v == v')
    && (forall t | t in p.ballots && p.ballots[t].used :: VotedWith(p.votes, t))
  }

  ghost predicate HasReceipt(p: Poll, v: VoteId) {
    exists x :: x in p.receipts && p.receipts[x].voteId == v
  }

  ghost predicate ReceiptsOk(p: Poll) {
    && (forall x | x in p.receipts ::
          p.receipts[x].voteId in p.votes && p.receipts[x].createdAt == p.votes[p.receipts[x].voteId].createdAt
          && x == ReceiptHash(p.receipts[x].voteId, p.receipts[x].createdAt, p.receipts[x].salt))
    && (forall x, x' | x in p.receipts && x' in p.receipts && p.receipts[x].voteId == p.receipts[x'].voteId :: x == x')
    && (forall v | v in p.votes :: HasReceipt(p, v))
  }

  /** The receipt code of a new vote is new. */
  lemma FreshReceipt(p: Poll, v: VoteId, at: int, salt: int)
    requires ReceiptsOk(p) && v !in p.votes
    ensures ReceiptHash(v, at, salt) !in p.receipts
  {}

  lemma VotesKeptOk(db: Db, m: PollMove)
    requires PollFits(db, m) && PollOk(db.poll) && TimesOk(db) && VotesOk(db.poll)
    ensures VotesOk(PollAfter(db.poll, db.clock, m))
  {
    hide IndexOk;
    hide StaleOk;
    hide FirstVotesOk;
    hide AllOk;
    hide IsRecord;
    var p, q := db.poll, PollAfter(db.poll, db.clock, m);
    forall v | v in q.votes ensures VoteOk(q, v) {
      assert v in p.votes ==> VoteOk(p, v);
    }
    forall t | t in q.ballots && q.ballots[t].used ensures VotedWith(q.votes, t) {
      if m.Votes? && m.token == t {
        assert q.votes[m.vote].ballotToken == t;
      } else {
        var v :| v in p.votes && p.votes[v].ballotToken == t;
        assert v in q.votes && q.votes[v].ballotToken == t;
      }
    }
  }

  lemma ReceiptsKeptOk(db: Db, m: PollMove)
    requires PollFits(db, m) && ReceiptsOk(db.poll)
    ensures ReceiptsOk(PollAfter(db.poll, db.clock, m))
  {
    hide AllOk;
    hide IsRecord;
    var p, q := db.poll, PollAfter(db.poll, db.clock, m);
    forall v | v in q.votes ensures HasReceipt(q, v) {
      if v in p.votes {
        var x :| x in p.receipts && p.receipts[x].voteId == v;
        assert x in q.receipts && q.receipts[x].voteId == v;
      } else {
        var code := ReceiptHash(m.vote, db.clock, m.salt);
        assert code in q.receipts && q.receipts[code].voteId == v;
      }
    }
  }

  // ---------- conservation ----------

  ghost predicate Conserved(db: Db, e: ElectionId) {
    && |UsedIn(db.poll, e)| == |VotesIn(db.poll, e)| == |ReceiptsIn(db.poll, e)| == Times(db.log, VoteCast(e))
    && |UsedIn(db.poll, e)| == |ParticipantsIn(db.poll, e)| + |StaleIn(db.poll, e)|
  }

  /** The move casts a vote in election `e`. */
  predicate CastsIn(p: Poll, m: PollMove, e: ElectionId) {
    m.Votes? && m.r in p.registrations && p.registrations[m.r].electionId == e
  }

  /** Which ballot is used by a move. */
  lemma UsedMoves(db: Db, m: PollMove, e: ElectionId, t: Token)
    requires PollFits(db, m) && PollOk(db.poll)
    ensures
      var p, q := db.poll, PollAfter(db.poll, db.clock, m);
      var casts := CastsIn(p, m, e) && m.token == t;
      && (t in UsedIn(q, e) <==> t in UsedIn(p, e) || casts) && (casts ==> t !in UsedIn(p, e))
      && (t in StaleIn(q, e) <==> t in StaleIn(p, e) || (casts && Participated(p, m.r)))
  {
    hide IndexOk;
    hide FirstVotesOk;
    hide AllOk;
    hide IsRecord;
    if m.Votes? {
      assert Pointer(db.poll, m.r, m.token);
    }
  }

  lemma GrownSize<T>(a: set<T>, b: set<T>, x: T, grows: bool)
    requires forall t :: t in b <==> t in a || (grows && t == x)
    requires grows ==> x !in a
    ensures |b| == |a| + if grows then 1 else 0
  {
    assert b == a + if grows then {x} else {};
  }

  lemma UsedCount(db: Db, m: PollMove, e: ElectionId)
    requires PollFits(db, m) && PollOk(db.poll)
    ensures
      var p, q := db.poll, PollAfter(db.poll, db.clock, m);
      && |UsedIn(q, e)| == |UsedIn(p, e)| + (if CastsIn(p, m, e) then 1 else 0)
      && |StaleIn(q, e)| == |StaleIn(p, e)| + if CastsIn(p, m, e) && Participated(p, m.r) then 1 else 0
  {
    hide PollAfter;
    hide PollEnabled;
    hide PollOk;
    hide Participated;
    var p, q := db.poll, PollAfter(db.poll, db.clock, m);
    var casts := CastsIn(p, m, e);
    var again := casts && Participated(p, m.r);
    var token := if casts then m.token else 0;
    forall t
      ensures (t in UsedIn(q, e) <==> t in UsedIn(p, e) || (casts && t == token))
              && (casts && t == token ==> t !in UsedIn(p, e))
      ensures t in StaleIn(q, e) <==> t in StaleIn(p, e) || (again && t == token)
    {
      UsedMoves(db, m, e, t);
    }
    assert StaleIn(p, e) <= UsedIn(p, e);
    hide UsedIn;
    hide StaleIn;
    hide CastsIn;
    GrownSize(UsedIn(p, e), UsedIn(q, e), token, casts);
    GrownSize(StaleIn(p, e), StaleIn(q, e), token, again);
  }

  lemma VoteMoves(db: Db, m: PollMove, e: ElectionId, v: VoteId)
    requires PollFits(db, m) && PollOk(db.poll) && VotesOk(db.poll)
    ensures VoteIn(PollAfter(db.poll, db.clock, m), v, e) <==>
            VoteIn(db.poll, v, e) || (CastsIn(db.poll, m, e) && m.vote == v)
  {
    hide IndexOk;
    hide StaleOk;
    hide FirstVotesOk;
    hide AllOk;
    hide IsRecord;
    if m.Votes? {
      assert Pointer(db.poll, m.r, m.token);
    }
    assert v in db.poll.votes ==> VoteOk(db.poll, v);
  }

  /** The receipt code of a vote. */
  function CodeOf(m: PollMove, clock: int): ReceiptCode {
    if m.Votes? then ReceiptHash(m.vote, clock, m.salt) else ReceiptHash(0, 0, 0)
  }

  lemma ReceiptMoves(db: Db, m: PollMove, e: ElectionId, x: ReceiptCode)
    requires PollFits(db, m) && PollOk(db.poll) && VotesOk(db.poll) && ReceiptsOk(db.poll)
    ensures
      var p, q := db.poll, PollAfter(db.poll, db.clock, m);
      && (x in ReceiptsIn(q, e) <==> x in ReceiptsIn(p, e) || (CastsIn(p, m, e) && CodeOf(m, db.clock) == x))
      && (CastsIn(p, m, e) && CodeOf(m, db.clock) == x ==> x !in ReceiptsIn(p, e))
  {
    var p, q := db.poll, PollAfter(db.poll, db.clock, m);
    if x in q.receipts {
      VoteMoves(db, m, e, q.receipts[x].voteId);
    }
    hide VotesOk;
    hide PollOk;
    hide AllOk;
    hide IsRecord;
    hide VoteIn;
    if x in p.receipts {
      assert p.receipts[x].voteId in p.votes;
    }
  }

  lemma VoteCount(db: Db, m: PollMove, e: ElectionId)
    requires PollFits(db, m) && PollOk(db.poll) && VotesOk(db.poll) && ReceiptsOk(db.poll)
    ensures
      var p, q := db.poll, PollAfter(db.poll, db.clock, m);
      var one := if CastsIn(p, m, e) then 1 else 0;
      |VotesIn(q, e)| == |VotesIn(p, e)| + one && |ReceiptsIn(q, e)| == |ReceiptsIn(p, e)| + one
  {
    hide PollAfter;
    hide PollOk;
    hide VotesOk;
    hide ReceiptsOk;
    hide AllOk;
    hide IsRecord;
    hide VoteIn;
    hide ReceiptsIn;
    var p, q := db.poll, PollAfter(db.poll, db.clock, m);
    var casts := CastsIn(p, m, e);
    var vote, code := if casts then m.vote else 0, CodeOf(m, db.clock);
    assert forall v :: VoteIn(p, v, e) ==> v in p.votes by { InVotes(p, e); }
    assert forall v :: VoteIn(q, v, e) ==> v in q.votes by { InVotes(q, e); }
    forall v ensures v in VotesIn(q, e) <==> v in VotesIn(p, e) || (casts && v == vote) {
      VoteMoves(db, m, e, v);
    }
    forall x
      ensures x in ReceiptsIn(q, e) <==> x in ReceiptsIn(p, e) || (casts && x == code)
      ensures casts && x == code ==> x !in ReceiptsIn(p, e)
    {
      ReceiptMoves(db, m, e, x);
    }
    hide CastsIn;
    GrownSize(VotesIn(p, e), VotesIn(q, e), vote, casts);
    GrownSize(ReceiptsIn(p, e), ReceiptsIn(q, e), code, casts);
  }

  lemma InVotes(p: Poll, e: ElectionId)
    ensures forall v :: VoteIn(p, v, e) ==> v in p.votes
  {}

  lemma ParticipantMoves(db: Db, m: PollMove, e: ElectionId, r: RegistrationId)
    requires PollFits(db, m)
    ensures
      var p, q := db.poll, PollAfter(db.poll, db.clock, m);
      && (r in ParticipantsIn(q, e) <==>
            r in ParticipantsIn(p, e) || (CastsIn(p, m, e) && !Participated(p, m.r) && m.r == r))
      && (CastsIn(p, m, e) && !Participated(p, m.r) && m.r == r ==> r !in ParticipantsIn(p, e))
  {
    hide AllOk;
    hide IsRecord;
  }

  lemma ParticipantCount(db: Db, m: PollMove, e: ElectionId)
    requires PollFits(db, m)
    ensures
      var p, q := db.poll, PollAfter(db.poll, db.clock, m);
      |ParticipantsIn(q, e)| ==
        |ParticipantsIn(p, e)| + if CastsIn(p, m, e) && !Participated(p, m.r) then 1 else 0
  {
    hide PollAfter;
    hide PollFits;
    hide Participated;
    var p, q := db.poll, PollAfter(db.poll, db.clock, m);
    var first := CastsIn(p, m, e) && !Participated(p, m.r);
    var r := if first then m.r else 0;
    forall x
      ensures x in ParticipantsIn(q, e) <==> x in ParticipantsIn(p, e) || (first && x == r)
      ensures first && x == r ==> x !in ParticipantsIn(p, e)
    {
      ParticipantMoves(db, m, e, x);
    }
    hide ParticipantsIn;
    hide CastsIn;
    GrownSize(ParticipantsIn(p, e), ParticipantsIn(q, e), r, first);
  }

  lemma {:induction false} LogCount(db: Db, dt: nat, g: GovMove, m: PollMove, db': Db, e: ElectionId)
    requires Does(db, dt, g, m, db')
    ensures Times(db'.log, VoteCast(e)) == Times(db.log, VoteCast(e)) + if CastsIn(db.poll, m, e) then 1 else 0
  {
    hide GovEnabled;
    hide GovAfter;
    hide PollAfter;
    var more := db'.log[|db.log|..];
    assert db'.log == db.log + more;
    TimesAppended(db.log, more, VoteCast(e));
  }

  ghost predicate BoxOk(db: Db) {
    VotesOk(db.poll) && ReceiptsOk(db.poll) && forall e :: Conserved(db, e)
  }

  /** A change of the ballot box keeps it in balance if the log counts the votes it casts. */
  lemma BoxKept(db: Db, m: PollMove, db': Db)
    requires PollOk(db.poll) && TimesOk(db) && BoxOk(db) && PollFits(db, m)
    requires db'.poll == PollAfter(db.poll, db.clock, m)
    requires forall e ::
               Times(db'.log, VoteCast(e)) == Times(db.log, VoteCast(e)) + if CastsIn(db.poll, m, e) then 1 else 0
    ensures BoxOk(db')
  {
    hide PollOk;
    hide PollFits;
    hide PollAfter;
    hide VotesOk;
    hide ReceiptsOk;
    hide Times;
    VotesKeptOk(db, m);
    ReceiptsKeptOk(db, m);
    forall e ensures Conserved(db', e) {
      assert Conserved(db, e);
      UsedCount(db, m, e);
      VoteCount(db, m, e);
      ParticipantCount(db, m, e);
    }
  }

  lemma StepBox(s: Sevs, a: Action)
    requires Sound(s) && BoxOk(s.db)
    ensures BoxOk(Step(s, a).db)
  {
    var dt, g, m := StepMove(s, a);
    var db, db' := s.db, Step(s, a).db;
    EnabledFits(db, m);
    hide Step;
    hide ComesFrom;
    hide Reports;
    hide PollOk;
    hide PollEnabled;
    hide PollFits;
    hide PollAfter;
    hide GovAfter;
    hide GovEnabled;
    hide BoxOk;
    forall e
      ensures Times(db'.log, VoteCast(e)) == Times(db.log, VoteCast(e)) + if CastsIn(db.poll, m, e) then 1 else 0
    {
      LogCount(db, dt, g, m, db', e);
    }
    BoxKept(db, m, db');
  }

  /** In every reachable state, for every election: as many votes as receipts, as used ballots, and as
      VOTE_CAST entries in the audit log; and as many as participants, plus one for every stale ballot
      used. Votes, used ballots and receipts correspond one to one. */
  lemma {:induction false} Conservation(run: seq<Action>)
    ensures BoxOk(After(run).db)
    decreases |run|
  {
    if run == [] {
      forall e ensures Conserved(EMPTY_DB, e) {
        assert UsedIn(EMPTY_DB.poll, e) == {} && StaleIn(EMPTY_DB.poll, e) == {};
        assert VotesIn(EMPTY_DB.poll, e) == {} && ReceiptsIn(EMPTY_DB.poll, e) == {};
        assert ParticipantsIn(EMPTY_DB.poll, e) == {};
      }
    } else {
      var shorter := run[..|run| - 1];
      Conservation(shorter);
      RunSafe(shorter);
      StepBox(After(shorter), run[|run| - 1]);
      hide Step;
      hide BoxOk;
    }
  }

  /** Every vote is cast after the start of its election and within thirty minutes of the issue of its
      ballot. It comes more than thirty minutes after the end only with a ballot that was claimed after
      the end, by a request that had passed the check of the window before. */
  lemma {:induction false} VoteWindow(run: seq<Action>, v: VoteId)
    requires v in After(run).db.poll.votes
    ensures
      var db := After(run).db;
      var t := db.poll.votes[v].ballotToken;
      && t in db.poll.ballots && t in db.poll.checkedAt && db.poll.ballots[t].electionId in db.gov.elections
      && var election := db.gov.elections[db.poll.ballots[t].electionId];
         var at := db.poll.votes[v].createdAt;
         && election.startDate <= db.poll.checkedAt[t] <= election.endDate
         && db.poll.checkedAt[t] <= db.poll.ballots[t].issuedAt <= at <= db.poll.ballots[t].issuedAt + SESSION
         && election.startDate <= at
         && (at > election.endDate + SESSION ==> db.poll.checkedAt[t] <= election.endDate < db.poll.ballots[t].issuedAt)
  {
    var db := After(run).db;
    RunSafe(run);
    Conservation(run);
    hide After;
    assert VoteOk(db.poll, v);
  }

  /** A receipt that was once given verifies in every continuation of the run, with the time at which its
      vote was cast, and belongs to exactly one recorded vote; no other code ever verifies. */
  lemma {:induction false} ReceiptsStayGood(run: seq<Action>, i: nat, code: ReceiptCode)
    requires i <= |run| && code in After(run[..i]).db.poll.receipts
    ensures
      var p := After(run).db.poll;
      && code in p.receipts && p.receipts[code].voteId in p.votes
      && VerifyReceiptEffect(After(run).db, code) == Some(After(run[..i]).db.poll.receipts[code].createdAt)
      && VerifyReceiptEffect(After(run).db, code) == Some(p.votes[p.receipts[code].voteId].createdAt)
      && (forall x | x in p.receipts && p.receipts[x].voteId == p.receipts[code].voteId :: x == code)
    ensures forall other :: VerifyReceiptEffect(After(run).db, other).Some? <==> other in After(run).db.poll.receipts
  {
    RunEvolves(run, i);
    Conservation(run);
    hide After;
    hide GovEvolves;
    hide RollFrozen;
  }
}
