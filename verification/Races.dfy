/** Two runs that the services do not prevent: one registration that votes twice, and a rejected
    request that takes effect. */
module Races {
  import opened JsText
  import opened Schema
  import Verification
  import opened Elections
  import opened Approvals
  import opened Ballots
  import opened Voting
  import opened System
  import opened Moves
  import opened BallotSafety
  import opened OneVote
  import BallotBox
  import opened Atomic
  import opened Tally

  /** The user may vote in `e` now, and holds no token: their registration is `r`. */
  ghost predicate MayVote(db: Db, user: UserId, e: ElectionId, r: RegistrationId) {
    && user in db.gov.students && FindRegistration(db, db.gov.students[user], e) == Some(r)
    && Verification.IsEligible(db, db.gov.students[user], e) == Verification.Eligible
    && db.poll.registrations[r].activeBallotToken.None?
    && e in db.gov.elections && db.gov.elections[e].status == Active
    && db.gov.elections[e].startDate <= db.clock <= db.gov.elections[e].endDate
  }

  lemma OpeningSteps(db: Db, user: UserId, e: ElectionId, r: RegistrationId)
    requires MayVote(db, user, e, r)
    ensures
      var student := db.gov.students[user];
      && RequestStep(db, RequestCall(user, e, FindStudent), 0) == (db, RequestCall(user, e, CheckEligibility(student)))
      && RequestStep(db, RequestCall(user, e, CheckEligibility(student)), 0) ==
         (db, RequestCall(user, e, CheckWindow(student)))
      && RequestStep(db, RequestCall(user, e, CheckWindow(student)), 0) ==
         (db, RequestCall(user, e, ReadPointer(student, db.clock)))
      && RequestStep(db, RequestCall(user, e, ReadPointer(student, db.clock)), 0) ==
           (db, RequestCall(user, e, Claim(student, db.clock, r)))
  {}

  function Opening(id: CallId, user: UserId, e: ElectionId): seq<Action> {
    [BeginRequest(id, user, e), AdvanceRequest(id, 0), AdvanceRequest(id, 0), AdvanceRequest(id, 0),
     AdvanceRequest(id, 0)]
  }

  /** A step of one call: the database and the call change as its step says. */
  lemma {:induction false} Advance(run: seq<Action>, id: CallId, token: Token)
    requires id in After(run).requesting
    ensures
      var s := After(run);
      var (db, c) := RequestStep(s.db, s.requesting[id], token);
      After(run + [AdvanceRequest(id, token)]) == Sevs(db, s.requesting[id := c], s.approving)
  {
    AfterOne(run, AdvanceRequest(id, token));
  }

  /** A step of a call that changes nothing but the call. */
  lemma {:induction false} Passes(run: seq<Action>, s: Sevs, id: CallId, c: RequestCall, d: RequestCall)
    requires After(run) == s.(requesting := s.requesting[id := c]) && RequestStep(s.db, c, 0) == (s.db, d)
    ensures After(run + [AdvanceRequest(id, 0)]) == s.(requesting := s.requesting[id := d])
  {
    Advance(run, id, 0);
    hide After;
    hide RequestStep;
    assert s.requesting[id := c][id := d] == s.requesting[id := d];
  }

  /** Without interruption a request of such a user comes to its claim. */
  lemma {:induction false} OpensToClaim(run: seq<Action>, id: CallId, user: UserId, e: ElectionId, r: RegistrationId)
    requires MayVote(After(run).db, user, e, r) && id !in After(run).requesting
    ensures
      var s := After(run);
      After(run + Opening(id, user, e)) ==
        s.(requesting := s.requesting[id := RequestCall(user, e, Claim(s.db.gov.students[user], s.db.clock, r))])
  {
    var s, a, student := After(run), AdvanceRequest(id, 0), After(run).db.gov.students[user];
    var run1 := run + [BeginRequest(id, user, e)];
    AfterOne(run, BeginRequest(id, user, e));
    OpeningSteps(s.db, user, e, r);
    hide *;
    Passes(run1, s, id, RequestCall(user, e, FindStudent), RequestCall(user, e, CheckEligibility(student)));
    Passes(run1 + [a], s, id, RequestCall(user, e, CheckEligibility(student)),
           RequestCall(user, e, CheckWindow(student)));
    Passes(run1 + [a] + [a], s, id, RequestCall(user, e, CheckWindow(student)),
           RequestCall(user, e, ReadPointer(student, s.db.clock)));
    Passes(run1 + [a] + [a] + [a], s, id, RequestCall(user, e, ReadPointer(student, s.db.clock)),
           RequestCall(user, e, Claim(student, s.db.clock, r)));
    OpeningSpelled(run, id, user, e);
  }

  lemma {:induction false} OpeningSpelled(run: seq<Action>, id: CallId, user: UserId, e: ElectionId)
    ensures
      var a := AdvanceRequest(id, 0);
      run + [BeginRequest(id, user, e)] + [a] + [a] + [a] + [a] == run + Opening(id, user, e)
  {}

  lemma ClaimStep(db: Db, c: RequestCall, t: Token)
    requires c.phase.Claim? && c.phase.registration in db.poll.registrations && t !in db.poll.ballots
    requires db.poll.registrations[c.phase.registration].activeBallotToken.None?
    ensures
      var db' := RequestStep(db, c, t).0;
      && db'.poll == PollAfter(db.poll, db.clock, Issues(c.phase.registration, c.election, t, c.phase.now))
      && db'.clock == db.clock
  {}

  lemma CastStep(db: Db, r: RegistrationId, t: Token, vote: VoteId, salt: int)
    requires UniquePointers(db) && Pointer(db.poll, r, t) && PointersOk(db.poll) && !VotedWith(db.poll.votes, t)
    requires db.clock <= db.poll.ballots[t].expiresAt && vote !in db.poll.votes
             && ReceiptHash(vote, db.clock, salt) !in db.poll.receipts
    ensures
      var db' := Execute(db, Command.CastVote(t, [], vote, salt, 0));
      && db'.poll == PollAfter(db.poll, db.clock, Votes(r, t, vote, salt, Sealed(0, [])))
      && db'.clock == db.clock
  {
    assert Holds(db, r, t);
    assert Holder(db, t) == Some(r);
  }

  /** An open claim goes through, whatever has happened to its registration in the meantime. */
  lemma {:induction false} ClaimGoesThrough(run: seq<Action>, id: CallId, t: Token)
    requires id in After(run).requesting && After(run).requesting[id].phase.Claim?
    requires t !in After(run).db.poll.ballots
    requires After(run).requesting[id].phase.registration in After(run).db.poll.registrations
    requires After(run).db.poll.registrations[After(run).requesting[id].phase.registration].activeBallotToken.None?
    ensures
      var s, s' := After(run), After(run + [AdvanceRequest(id, t)]);
      var c := s.requesting[id];
      && s'.db.poll == PollAfter(s.db.poll, s.db.clock, Issues(c.phase.registration, c.election, t, c.phase.now))
      && s'.db.clock == s.db.clock
      && (forall other | other in s.requesting && other != id ::
            other in s'.requesting && s'.requesting[other] == s.requesting[other])
  {
    var s := After(run);
    Advance(run, id, t);
    hide After;
    ClaimStep(s.db, s.requesting[id], t);
    hide RequestStep;
    hide PollAfter;
  }

  /** The holder of a fresh token can cast a vote with no selections. */
  lemma {:induction false} CastGoesThrough(run: seq<Action>, r: RegistrationId, t: Token, vote: VoteId, salt: int)
    requires Pointer(After(run).db.poll, r, t) && t in After(run).db.poll.ballots
    requires After(run).db.clock <= After(run).db.poll.ballots[t].expiresAt
    requires vote !in After(run).db.poll.votes
    ensures
      var s, s' := After(run), After(run + [Do(Command.CastVote(t, [], vote, salt, 0))]);
      && s'.db.poll == PollAfter(s.db.poll, s.db.clock, Votes(r, t, vote, salt, Sealed(0, [])))
      && s'.db.clock == s.db.clock && s'.requesting == s.requesting
  {
    var s := After(run);
    RunSafe(run);
    NoSharedToken(run);
    BallotBox.Conservation(run);
    AfterOne(run, Do(Command.CastVote(t, [], vote, salt, 0)));
    hide After;
    assert !VotedWith(s.db.poll.votes, t) by {
      assert forall v | v in s.db.poll.votes :: BallotBox.VoteOk(s.db.poll, v);
    }
    BallotBox.FreshReceipt(s.db.poll, vote, s.db.clock, salt);
    CastStep(s.db, r, t, vote, salt);
    hide Execute;
    hide PollAfter;
  }

  /** Two calls for the same registration that both stand at their claim. */
  ghost predicate BothAtClaim(s: Sevs, first: CallId, second: CallId, e: ElectionId, r: RegistrationId) {
    && first != second && first in s.requesting && second in s.requesting
    && s.requesting[first].phase.Claim? && s.requesting[first].phase.registration == r
    && s.requesting[first].election == e
    && s.requesting[second].phase.Claim? && s.requesting[second].phase.registration == r
    && s.requesting[second].election == e
    && r in s.db.poll.registrations && s.db.poll.registrations[r].activeBallotToken.None?
  }

  /** Claim, vote, claim again, vote again. */
  function ClaimVoteTwice(first: CallId, second: CallId, t1: Token, t2: Token, v1: VoteId, v2: VoteId): seq<Action> {
    [AdvanceRequest(first, t1), Do(Command.CastVote(t1, [], v1, 0, 0)),
     AdvanceRequest(second, t2), Do(Command.CastVote(t2, [], v2, 0, 0))]
  }

  /** One claim and one vote: the token is used, and the other call still stands at its claim. */
  lemma {:induction false} ClaimAndVote(run: seq<Action>, id: CallId, r: RegistrationId, t: Token, v: VoteId)
    requires id in After(run).requesting && After(run).requesting[id].phase.Claim?
             && After(run).requesting[id].phase.registration == r
    requires r in After(run).db.poll.registrations && After(run).db.poll.registrations[r].activeBallotToken.None?
    requires t !in After(run).db.poll.ballots && v !in After(run).db.poll.votes
    ensures
      var s, s' := After(run), After(run + [AdvanceRequest(id, t), Do(Command.CastVote(t, [], v, 0, 0))]);
      && UsedBallots(s'.db.poll, r) == UsedBallots(s.db.poll, r) + {t}
      && s'.db.poll.ballots.Keys == s.db.poll.ballots.Keys + {t}
      && s'.db.poll.votes.Keys == s.db.poll.votes.Keys + {v} && s'.db.poll.votes[v].createdAt == s.db.clock
      && r in s'.db.poll.registrations && s'.db.poll.registrations[r].activeBallotToken.None?
      && (forall other | other in s.requesting && other != id ::
            other in s'.requesting && s'.requesting[other] == s.requesting[other])
  {
    var run1 := run + [AdvanceRequest(id, t)];
    hide After;
    ClaimGoesThrough(run, id, t);
    CastGoesThrough(run1, r, t, v, 0);
    assert run1 + [Do(Command.CastVote(t, [], v, 0, 0))] ==
           run + [AdvanceRequest(id, t), Do(Command.CastVote(t, [], v, 0, 0))];
  }

  lemma {:induction false} RaceAtClaim(run: seq<Action>, first: CallId, second: CallId, e: ElectionId,
                                       r: RegistrationId,
                      t1: Token, t2: Token, v1: VoteId, v2: VoteId)
    requires BothAtClaim(After(run), first, second, e, r)
    requires t1 != t2 && t1 !in After(run).db.poll.ballots && t2 !in After(run).db.poll.ballots
    requires v1 != v2 && v1 !in After(run).db.poll.votes && v2 !in After(run).db.poll.votes
    ensures {t1, t2} <= UsedBallots(After(run + ClaimVoteTwice(first, second, t1, t2, v1, v2)).db.poll, r)
  {
    hide After;
    hide UsedBallots;
    var one := [AdvanceRequest(first, t1), Do(Command.CastVote(t1, [], v1, 0, 0))];
    var two := [AdvanceRequest(second, t2), Do(Command.CastVote(t2, [], v2, 0, 0))];
    ClaimAndVote(run, first, r, t1, v1);
    ClaimAndVote(run + one, second, r, t2, v2);
    assert run + one + two == run + ClaimVoteTwice(first, second, t1, t2, v1, v2);
  }

  lemma SubsetSize<T>(a: set<T>, b: set<T>)
    requires a <= b
    ensures |a| <= |b|
  {
    assert b == a + (b - a);
  }

  /** Every student who may vote can vote twice: with two requests at once, a vote in between, and
      nothing but fresh tokens, vote ids and receipt codes. */
  lemma {:induction false} VoterCanVoteTwice(run: seq<Action>, user: UserId, e: ElectionId, r: RegistrationId,
                            first: CallId, second: CallId, t1: Token, t2: Token, v1: VoteId, v2: VoteId)
    requires MayVote(After(run).db, user, e, r)
    requires first != second && first !in After(run).requesting && second !in After(run).requesting
    requires t1 != t2 && t1 !in After(run).db.poll.ballots && t2 !in After(run).db.poll.ballots
    requires v1 != v2 && v1 !in After(run).db.poll.votes && v2 !in After(run).db.poll.votes
    ensures
      var race := Opening(first, user, e) + Opening(second, user, e) + ClaimVoteTwice(first, second, t1, t2, v1, v2);
      |UsedBallots(After(run + race).db.poll, r)| >= 2
  {
    hide After;
    OpensToClaim(run, first, user, e, r);
    OpensToClaim(run + Opening(first, user, e), second, user, e, r);
    var ready := run + Opening(first, user, e) + Opening(second, user, e);
    assert BothAtClaim(After(ready), first, second, e, r);
    RaceAtClaim(ready, first, second, e, r, t1, t2, v1, v2);
    var race := Opening(first, user, e) + Opening(second, user, e) + ClaimVoteTwice(first, second, t1, t2, v1, v2);
    assert ready + ClaimVoteTwice(first, second, t1, t2, v1, v2) == run + race;
    SubsetSize({t1, t2}, UsedBallots(After(run + race).db.poll, r));
  }

  // ---------- a token that is taken away ----------

  /** A clearing step makes a token useless for good, whatever it is. */
  lemma {:induction false} ClearTakesToken(run: seq<Action>, id: CallId, t: Token, uuid: Token)
    requires id in After(run).requesting && After(run).requesting[id].phase.Clear?
    requires Pointer(After(run).db.poll, After(run).requesting[id].phase.registration, t)
    ensures Lost(After(run + [AdvanceRequest(id, uuid)]).db.poll, t)
    ensures After(run + [AdvanceRequest(id, uuid)]).db.poll.ballots == After(run).db.poll.ballots
  {
    RunSafe(run);
    var s := After(run);
    Advance(run, id, uuid);
    hide After;
    var r := s.requesting[id].phase.registration;
    var p := RequestStep(s.db, s.requesting[id], uuid).0.poll;
    forall x ensures !Pointer(p, x, t) {
      assert Pointer(s.db.poll, x, t) ==> x == r;
    }
  }

  /** The user may vote in `e` now, and the token that their registration holds has expired. */
  ghost predicate HoldsExpired(db: Db, user: UserId, e: ElectionId, r: RegistrationId, t: Token) {
    && user in db.gov.students && FindRegistration(db, db.gov.students[user], e) == Some(r)
    && Verification.IsEligible(db, db.gov.students[user], e) == Verification.Eligible
    && db.poll.registrations[r].activeBallotToken == Some(t) && t in db.poll.ballots
    && db.poll.ballots[t].expiresAt <= db.clock
    && e in db.gov.elections && db.gov.elections[e].status == Active
    && db.gov.elections[e].startDate <= db.clock <= db.gov.elections[e].endDate
  }

  lemma ReopeningSteps(db: Db, user: UserId, e: ElectionId, r: RegistrationId, t: Token)
    requires HoldsExpired(db, user, e, r, t)
    ensures
      var student := db.gov.students[user];
      && RequestStep(db, RequestCall(user, e, FindStudent), 0) == (db, RequestCall(user, e, CheckEligibility(student)))
      && RequestStep(db, RequestCall(user, e, CheckEligibility(student)), 0) ==
         (db, RequestCall(user, e, CheckWindow(student)))
      && RequestStep(db, RequestCall(user, e, CheckWindow(student)), 0) ==
         (db, RequestCall(user, e, ReadPointer(student, db.clock)))
      && RequestStep(db, RequestCall(user, e, ReadPointer(student, db.clock)), 0) ==
           (db, RequestCall(user, e, ReadBallot(student, db.clock, r, t)))
      && RequestStep(db, RequestCall(user, e, ReadBallot(student, db.clock, r, t)), 0) ==
           (db, RequestCall(user, e, Clear(student, db.clock, r)))
  {}

  function Reopening(id: CallId, user: UserId, e: ElectionId): seq<Action> {
    Opening(id, user, e) + [AdvanceRequest(id, 0)]
  }

  /** Without interruption a request of such a user comes to its clearing step. */
  lemma {:induction false} OpensToClear(run: seq<Action>, id: CallId, user: UserId, e: ElectionId,
                                        r: RegistrationId, t: Token)
    requires HoldsExpired(After(run).db, user, e, r, t) && id !in After(run).requesting
    ensures
      var s := After(run);
      After(run + Reopening(id, user, e)) ==
        s.(requesting := s.requesting[id := RequestCall(user, e, Clear(s.db.gov.students[user], s.db.clock, r))])
  {
    var s, a, student := After(run), AdvanceRequest(id, 0), After(run).db.gov.students[user];
    var run1 := run + [BeginRequest(id, user, e)];
    AfterOne(run, BeginRequest(id, user, e));
    ReopeningSteps(s.db, user, e, r, t);
    hide *;
    Passes(run1, s, id, RequestCall(user, e, FindStudent), RequestCall(user, e, CheckEligibility(student)));
    Passes(run1 + [a], s, id, RequestCall(user, e, CheckEligibility(student)),
           RequestCall(user, e, CheckWindow(student)));
    Passes(run1 + [a] + [a], s, id, RequestCall(user, e, CheckWindow(student)),
           RequestCall(user, e, ReadPointer(student, s.db.clock)));
    Passes(run1 + [a] + [a] + [a], s, id, RequestCall(user, e, ReadPointer(student, s.db.clock)),
           RequestCall(user, e, ReadBallot(student, s.db.clock, r, t)));
    Passes(run1 + [a] + [a] + [a] + [a], s, id, RequestCall(user, e, ReadBallot(student, s.db.clock, r, t)),
           RequestCall(user, e, Clear(student, s.db.clock, r)));
    ReopeningSpelled(run, id, user, e);
  }

  lemma {:induction false} ReopeningSpelled(run: seq<Action>, id: CallId, user: UserId, e: ElectionId)
    ensures
      var a := AdvanceRequest(id, 0);
      run + [BeginRequest(id, user, e)] + [a] + [a] + [a] + [a] + [a] == run + Reopening(id, user, e)
  {}

  lemma ClearStep(db: Db, c: RequestCall)
    requires c.phase.Clear? && c.phase.registration in db.poll.registrations
    ensures
      var (db', d) := RequestStep(db, c, 0);
      && d == c.(phase := Claim(c.phase.student, c.phase.now, c.phase.registration))
      && db'.poll.ballots == db.poll.ballots && db'.clock == db.clock
      && c.phase.registration in db'.poll.registrations
      && db'.poll.registrations[c.phase.registration].activeBallotToken.None?
  {}

  lemma ClaimOutcome(db: Db, c: RequestCall, t: Token)
    requires c.phase.Claim? && c.phase.registration in db.poll.registrations && t !in db.poll.ballots
    requires db.poll.registrations[c.phase.registration].activeBallotToken.None?
    ensures
      var (db', d) := RequestStep(db, c, t);
      && d.phase == Finished(Issued(t)) && Pointer(db'.poll, c.phase.registration, t) && db'.clock == db.clock
      && t in db'.poll.ballots && db'.poll.ballots[t] == Ballot(c.election, db.clock, db.clock + SESSION, false)
  {}

  /** The second request clears and claims while the first is about to clear. */
  function ClearClaimClear(first: CallId, second: CallId, t: Token): seq<Action> {
    [AdvanceRequest(second, 0), AdvanceRequest(second, t), AdvanceRequest(first, 0)]
  }

  /** Every student whose token has expired can lose the next one: of two requests at once, the second is
      handed a fresh token, and the first takes it away. The ballot is unused, lasts for half an hour, and
      can never be used. */
  lemma {:induction false} LiveTokenLost(run: seq<Action>, user: UserId, e: ElectionId,
                                         r: RegistrationId, expired: Token,
                            first: CallId, second: CallId, t: Token)
    requires HoldsExpired(After(run).db, user, e, r, expired) && t !in After(run).db.poll.ballots
    requires first != second && first !in After(run).requesting && second !in After(run).requesting
    ensures
      var more := Reopening(first, user, e) + Reopening(second, user, e) + ClearClaimClear(first, second, t);
      var s := After(run + more);
      && second in s.requesting && s.requesting[second].phase == Finished(Issued(t))
      && Lost(s.db.poll, t) && s.db.poll.ballots[t] == Ballot(e, s.db.clock, s.db.clock + SESSION, false)
  {
    OpensToClear(run, first, user, e, r, expired);
    var one := run + Reopening(first, user, e);
    OpensToClear(one, second, user, e, r, expired);
    var two := one + Reopening(second, user, e);
    hide HoldsExpired;
    assert r in After(run).db.poll.registrations by { HolderExists(After(run).db, user, e, r, expired); }
    ClearedAndClaimed(two, first, second, e, r, t);
    hide After;
    assert two + ClearClaimClear(first, second, t) ==
           run + (Reopening(first, user, e) + Reopening(second, user, e) + ClearClaimClear(first, second, t));
  }

  lemma HolderExists(db: Db, user: UserId, e: ElectionId, r: RegistrationId, t: Token)
    requires HoldsExpired(db, user, e, r, t)
    ensures r in db.poll.registrations
  {}

  lemma {:induction false} ClearedAndClaimed(run: seq<Action>, first: CallId, second: CallId,
                                             e: ElectionId, r: RegistrationId, t: Token)
    requires first != second && first in After(run).requesting && second in After(run).requesting
    requires After(run).requesting[first].phase.Clear? && After(run).requesting[first].phase.registration == r
    requires After(run).requesting[second].phase.Clear? && After(run).requesting[second].phase.registration == r
    requires After(run).requesting[second].election == e
    requires r in After(run).db.poll.registrations && t !in After(run).db.poll.ballots
    ensures
      var s := After(run + ClearClaimClear(first, second, t));
      && second in s.requesting && s.requesting[second].phase == Finished(Issued(t))
      && Lost(s.db.poll, t) && s.db.poll.ballots[t] == Ballot(e, s.db.clock, s.db.clock + SESSION, false)
  {
    hide After;
    hide RequestStep;
    var run1 := run + [AdvanceRequest(second, 0)];
    var run2 := run1 + [AdvanceRequest(second, t)];
    Advance(run, second, 0);
    ClearStep(After(run).db, After(run).requesting[second]);
    Advance(run1, second, t);
    ClaimOutcome(After(run1).db, After(run1).requesting[second], t);
    Advance(run2, first, 0);
    ClearTakesToken(run2, first, t, 0);
    assert r in After(run2).db.poll.registrations;
    ClearStep(After(run2).db, After(run2).requesting[first]);
    assert run2 + [AdvanceRequest(first, 0)] == run + ClearClaimClear(first, second, t);
  }

  // ---------- votes that come after the end ----------

  /** Casting a vote does not look at the status of the election: whoever holds a token can use it
      until it expires, also when the election has been closed. */
  lemma VotingOutlastsClosing(db: Db, e: ElectionId, status: ElectionStatus, token: Token,
               selections: seq<Selection>, vote: VoteId, salt: int, iv: int)
    requires UniquePointers(db) && e in db.gov.elections
    ensures
      CastVoteEffect(WithStatus(db, e, status), token, selections, vote, salt, iv).1 ==
      CastVoteEffect(db, token, selections, vote, salt, iv).1
  {
    var changed := WithStatus(db, e, status);
    forall r ensures Holds(changed, r, token) <==> Holds(db, r, token) {}
    assert Holder(changed, token) == Holder(db, token);
    forall x, f ensures SelectionOk(changed, f, x) <==> SelectionOk(db, f, x) {}
  }

  lemma {:induction false} TimePasses(run: seq<Action>, dt: nat)
    ensures After(run + [Do(Tick(dt))]) == After(run).(db := After(run).db.(clock := After(run).db.clock + dt))
  {
    AfterOne(run, Do(Tick(dt)));
    hide After;
  }

  /** A request that has passed the check of the window can wait: its vote can come any time later. */
  lemma {:induction false} VoteAnyTimeLater(run: seq<Action>, user: UserId, e: ElectionId, r: RegistrationId,
                               id: CallId, t: Token, vote: VoteId, dt: nat)
    requires MayVote(After(run).db, user, e, r) && id !in After(run).requesting
    requires t !in After(run).db.poll.ballots && vote !in After(run).db.poll.votes
    ensures
      var late := Opening(id, user, e) + [Do(Tick(dt))] +
                  [AdvanceRequest(id, t), Do(Command.CastVote(t, [], vote, 0, 0))];
      var p := After(run + late).db.poll;
      vote in p.votes && p.votes[vote].createdAt == After(run).db.clock + dt
  {
    OpensToClaim(run, id, user, e, r);
    var ready := run + Opening(id, user, e);
    var waited := ready + [Do(Tick(dt))];
    TimePasses(ready, dt);
    assert r in After(run).db.poll.registrations && After(run).db.poll.registrations[r].activeBallotToken.None?;
    hide MayVote;
    hide After;
    hide UsedBallots;
    ClaimAndVote(waited, id, r, t, vote);
    var late := Opening(id, user, e) + [Do(Tick(dt))] +
                [AdvanceRequest(id, t), Do(Command.CastVote(t, [], vote, 0, 0))];
    assert waited + [AdvanceRequest(id, t), Do(Command.CastVote(t, [], vote, 0, 0))] == run + late;
  }

  /** What two approvals of a request to close an election do. */
  lemma TwoApprovalsClose(db: Db, q: RequestId, e: ElectionId, a: UserId, b: UserId)
    requires q in db.gov.requests && db.gov.requests[q].status == Pending && db.gov.requests[q].action == ElectionClose
    requires db.gov.requests[q].electionId == Some(e) && e in db.gov.elections && db.gov.elections[e].status == Active
    requires a != b && a != db.gov.requests[q].requestedBy && b != db.gov.requests[q].requestedBy
    requires forall o :: (q, o) !in db.gov.approvals
    ensures
      var after := CastApprovalEffect(CastApprovalEffect(db, q, a, Approve).0, q, b, Approve).0;
      && after.poll == db.poll && after.clock == db.clock
      && e in after.gov.elections && after.gov.elections[e].status == Closed
  {
    hide Deciders;
    hide ResolveEffect;
    var one := db.(gov := Voted(db.gov, q, a, Approve));
    var two := one.(gov := Voted(one.gov, q, b, Approve));
    VoteRuns(db, q, a, Approve);
    NoneDecided(db.gov, q, Approve);
    NoneDecided(db.gov, q, Reject);
    DecidersGrow(db.gov.approvals, q, a, Approve, q, Approve);
    DecidersGrow(db.gov.approvals, q, a, Approve, q, Reject);
    assert CastApprovalEffect(db, q, a, Approve).0 == one;
    VoteRuns(one, q, b, Approve);
    DecidersGrow(one.gov.approvals, q, b, Approve, q, Approve);
    DecidersGrow(one.gov.approvals, q, b, Approve, q, Reject);
    hide CastApprovalEffect;
    assert Deciders(two.gov.approvals, q, Approve) == {a, b};
    CloseResolves(two, q, e);
  }

  lemma CloseResolves(db: Db, q: RequestId, e: ElectionId)
    requires q in db.gov.requests && db.gov.requests[q].action == ElectionClose
             && db.gov.requests[q].electionId == Some(e)
    requires e in db.gov.elections && db.gov.elections[e].status == Active
    ensures
      var after := ResolveEffect(db, q, true).0;
      && after.poll == db.poll && after.clock == db.clock
      && e in after.gov.elections && after.gov.elections[e].status == Closed
  {}

  // ---------- a veto that comes too late ----------

  lemma {:induction false} AdvanceVote(run: seq<Action>, id: CallId)
    requires id in After(run).approving
    ensures
      var s := After(run);
      var (db, c) := ApprovalStep(s.db, s.approving[id]);
      After(run + [AdvanceApproval(id)]) == Sevs(db, s.requesting, s.approving[id := c])
  {
    AfterOne(run, AdvanceApproval(id));
  }

  function Voted(g: Gov, q: RequestId, officer: UserId, d: Decision): Gov {
    g.(approvals := g.approvals[(q, officer) := d])
  }

  lemma InsertStep(db: Db, c: ApprovalCall)
    requires c.phase.Insert? && (c.request, c.officer) !in db.gov.approvals
    ensures ApprovalStep(db, c) ==
            (db.(gov := Voted(db.gov, c.request, c.officer, c.decision)), c.(phase := ApprovalPhase.Tally))
  {}

  lemma TallyStep(db: Db, c: ApprovalCall)
    requires c.phase.Tally? && (|Deciders(db.gov.approvals, c.request, Reject)| >= 1
                                || |Deciders(db.gov.approvals, c.request, Approve)| >= 2)
    ensures
      var approved := |Deciders(db.gov.approvals, c.request, Reject)| == 0;
      && ApprovalStep(db, c).0 == db
      && exists m, n :: ApprovalStep(db, c).1 == c.(phase := Resolve(approved, m, n))
  {}

  /** The request asks to schedule an election that waits for it, and nobody has voted on it. */
  ghost predicate AwaitsVotes(g: Gov, q: RequestId, e: ElectionId) {
    && q in g.requests && g.requests[q].action == ElectionActivate && g.requests[q].electionId == Some(e)
    && e in g.elections && g.elections[e].status == PendingApproval
    && (forall o :: (q, o) !in g.approvals)
  }

  ghost predicate AtInsert(s: Sevs, id: CallId, q: RequestId, officer: UserId, d: Decision) {
    id in s.approving && s.approving[id] == ApprovalCall(q, officer, d, Insert)
  }

  lemma NoneDecided(g: Gov, q: RequestId, d: Decision)
    requires forall o :: (q, o) !in g.approvals
    ensures Deciders(g.approvals, q, d) == {}
  {
    forall o ensures o !in Deciders(g.approvals, q, d) {
      Decided(g.approvals, q, o, d);
    }
  }

  lemma TwoAndOne(g: Gov, q: RequestId, a: UserId, b: UserId, c: UserId)
    requires (forall o :: (q, o) !in g.approvals) && a != b && b != c && a != c
    ensures
      var two := Voted(Voted(g, q, a, Approve), q, b, Approve);
      var three := Voted(two, q, c, Reject);
      && |Deciders(two.approvals, q, Approve)| == 2 && |Deciders(two.approvals, q, Reject)| == 0
      && |Deciders(three.approvals, q, Reject)| == 1
  {
    hide Deciders;
    var one := Voted(g, q, a, Approve);
    var two := Voted(one, q, b, Approve);
    NoneDecided(g, q, Approve);
    NoneDecided(g, q, Reject);
    DecidersGrow(g.approvals, q, a, Approve, q, Approve);
    DecidersGrow(g.approvals, q, a, Approve, q, Reject);
    DecidersGrow(one.approvals, q, b, Approve, q, Approve);
    DecidersGrow(one.approvals, q, b, Approve, q, Reject);
    DecidersGrow(two.approvals, q, c, Reject, q, Reject);
    assert Deciders(two.approvals, q, Approve) == {a, b} && Deciders(two.approvals, q, Reject) == {};
    assert Deciders(Voted(two, q, c, Reject).approvals, q, Reject) == {c};
  }

  /** Two approvals and a rejection are inserted and tallied, so that the second approval and the
      rejection both come to their resolution. */
  function TalliedBothWays(i: CallId, j: CallId, k: CallId): seq<Action> {
    [AdvanceApproval(i), AdvanceApproval(j), AdvanceApproval(j), AdvanceApproval(k), AdvanceApproval(k)]
  }

  /** Three officers have passed their checks on the same request: two approve, one rejects. */
  ghost predicate ThreeAtInsert(s: Sevs, q: RequestId, e: ElectionId, a: UserId, b: UserId, c: UserId,
                                i: CallId, j: CallId, k: CallId) {
    && AwaitsVotes(s.db.gov, q, e) && a != b && b != c && a != c && i != j && j != k && i != k
    && AtInsert(s, i, q, a, Approve) && AtInsert(s, j, q, b, Approve) && AtInsert(s, k, q, c, Reject)
  }

  ghost predicate AtResolve(s: Sevs, id: CallId, q: RequestId, approved: bool) {
    && id in s.approving && s.approving[id].request == q
    && s.approving[id].phase.Resolve? && s.approving[id].phase.approved == approved
  }

  ghost predicate StillWaits(g: Gov, q: RequestId, e: ElectionId) {
    && q in g.requests && g.requests[q].action == ElectionActivate && g.requests[q].electionId == Some(e)
    && e in g.elections && g.elections[e].status == PendingApproval
  }

  lemma {:induction false} BothTallied(run: seq<Action>, q: RequestId, e: ElectionId,
                          a: UserId, b: UserId, c: UserId, i: CallId, j: CallId, k: CallId)
    requires ThreeAtInsert(After(run), q, e, a, b, c, i, j, k)
    ensures
      var s := After(run + TalliedBothWays(i, j, k));
      && AtResolve(s, j, q, true) && AtResolve(s, k, q, false) && StillWaits(s.db.gov, q, e)
      && (q, c) in s.db.gov.approvals && s.db.gov.approvals[(q, c)] == Reject
  {
    var db := After(run).db;
    hide After;
    hide ApprovalStep;
    hide Deciders;
    TwoAndOne(db.gov, q, a, b, c);
    var r1 := run + [AdvanceApproval(i)];
    var r2 := r1 + [AdvanceApproval(j)];
    var r3 := r2 + [AdvanceApproval(j)];
    var r4 := r3 + [AdvanceApproval(k)];
    AdvanceVote(run, i);
    InsertStep(db, After(run).approving[i]);
    AdvanceVote(r1, j);
    InsertStep(After(r1).db, After(r1).approving[j]);
    AdvanceVote(r2, j);
    TallyStep(After(r2).db, After(r2).approving[j]);
    AdvanceVote(r3, k);
    InsertStep(After(r3).db, After(r3).approving[k]);
    AdvanceVote(r4, k);
    TallyStep(After(r4).db, After(r4).approving[k]);
    assert r4 + [AdvanceApproval(k)] == run + TalliedBothWays(i, j, k);
  }

  lemma ResolveSteps(db: Db, c: ApprovalCall)
    requires c.phase.Resolve?
    ensures ApprovalStep(db, c).0 == ResolveEffect(db, c.request, c.phase.approved).0
  {}

  lemma ResolutionsClash(db: Db, q: RequestId, e: ElectionId)
    requires StillWaits(db.gov, q, e)
    ensures
      var vetoed := ResolveEffect(ResolveEffect(db, q, true).0, q, false).0.gov;
      var passed := ResolveEffect(ResolveEffect(db, q, false).0, q, true).0.gov;
      && q in vetoed.requests && vetoed.requests[q].status == Rejected
      && e in vetoed.elections && vetoed.elections[e].status == Scheduled
      && q in passed.requests && passed.requests[q].status == Approved
      && e in passed.elections && passed.elections[e].status == Scheduled
      && vetoed.approvals == passed.approvals == db.gov.approvals
  {}

  lemma VetoResolves(db: Db, q: RequestId)
    requires q in db.gov.requests
    ensures
      var g := ResolveEffect(db, q, false).0.gov;
      g.elections == db.gov.elections && q in g.requests && g.requests[q].status == Rejected
  {}

  /** Two calls on one request that both stand at their resolution. */
  lemma {:induction false} ResolvedInTurn(run: seq<Action>, q: RequestId, one: CallId, two: CallId, first: bool)
    requires one != two && AtResolve(After(run), one, q, first) && AtResolve(After(run), two, q, !first)
    ensures
      After(run + [AdvanceApproval(one), AdvanceApproval(two)]).db ==
        ResolveEffect(ResolveEffect(After(run).db, q, first).0, q, !first).0
  {
    var next := run + [AdvanceApproval(one)];
    hide After;
    hide ApprovalStep;
    hide ResolveEffect;
    AdvanceVote(run, one);
    ResolveSteps(After(run).db, After(run).approving[one]);
    AdvanceVote(next, two);
    ResolveSteps(After(next).db, After(next).approving[two]);
    assert next + [AdvanceApproval(two)] == run + [AdvanceApproval(one), AdvanceApproval(two)];
  }

  /** Then the request can end rejected and its election scheduled all the same. In the other order the
      veto is resolved first, and the approval is resolved over it and schedules the election. */
  lemma {:induction false} VetoOvertaken(run: seq<Action>, q: RequestId, e: ElectionId,
                            a: UserId, b: UserId, c: UserId, i: CallId, j: CallId, k: CallId)
    requires ThreeAtInsert(After(run), q, e, a, b, c, i, j, k)
    ensures
      var tallied := run + TalliedBothWays(i, j, k);
      && EndsAs(After(tallied + [AdvanceApproval(j), AdvanceApproval(k)]).db.gov, q, e, c, Rejected, Scheduled)
      && EndsAs(After(tallied + [AdvanceApproval(k)]).db.gov, q, e, c, Rejected, PendingApproval)
      && EndsAs(After(tallied + [AdvanceApproval(k), AdvanceApproval(j)]).db.gov, q, e, c, Approved, Scheduled)
  {
    BothTallied(run, q, e, a, b, c, i, j, k);
    hide After;
    hide ResolveEffect;
    var tallied := run + TalliedBothWays(i, j, k);
    ResolutionsClash(After(tallied).db, q, e);
    ResolvedInTurn(tallied, q, j, k, true);
    ResolvedInTurn(tallied, q, k, j, false);
    VetoResolves(After(tallied).db, q);
    AdvanceVote(tallied, k);
    ResolveSteps(After(tallied).db, After(tallied).approving[k]);
    KeepsApprovals(After(tallied).db, q, false);
    hide ApprovalStep;
  }

  lemma KeepsApprovals(db: Db, q: RequestId, approved: bool)
    ensures ResolveEffect(db, q, approved).0.gov.approvals == db.gov.approvals
  {}

  /** The officer has rejected the request; it and its election have these statuses. */
  ghost predicate EndsAs(g: Gov, q: RequestId, e: ElectionId, officer: UserId, status: ApprovalStatus,
                         election: ElectionStatus) {
    && (q, officer) in g.approvals && g.approvals[(q, officer)] == Reject
    && q in g.requests && g.requests[q].status == status
    && e in g.elections && g.elections[e].status == election
  }

  /** A call that has passed its check. */
  function Checked(id: CallId, q: RequestId, officer: UserId, d: Decision): seq<Action> {
    [BeginApproval(id, q, officer, d), AdvanceApproval(id)]
  }

  lemma {:induction false} PassesCheck(run: seq<Action>, id: CallId, q: RequestId, officer: UserId, d: Decision)
    requires q in After(run).db.gov.requests && After(run).db.gov.requests[q].status == Pending
    requires After(run).db.gov.requests[q].requestedBy != officer && id !in After(run).approving
    ensures
      var s := After(run);
      After(run + Checked(id, q, officer, d)) == s.(approving := s.approving[id := ApprovalCall(q, officer, d, Insert)])
  {
    var begin := BeginApproval(id, q, officer, d);
    AfterOne(run, begin);
    AdvanceVote(run + [begin], id);
    hide After;
    assert run + [begin] + [AdvanceApproval(id)] == run + Checked(id, q, officer, d);
    var s, c := After(run), ApprovalCall(q, officer, d, Insert);
    assert After(run + Checked(id, q, officer, d)).approving == s.approving[id := c];
  }

  /** Any request that waits for votes can come to this, with three officers other than the requester. */
  lemma {:induction false} ThreeOpen(run: seq<Action>, q: RequestId, e: ElectionId,
                        a: UserId, b: UserId, c: UserId, i: CallId, j: CallId, k: CallId)
    requires AwaitsVotes(After(run).db.gov, q, e) && After(run).db.gov.requests[q].status == Pending
    requires a != b && b != c && a != c && After(run).db.gov.requests[q].requestedBy !in {a, b, c}
    requires i != j && j != k && i != k
    requires i !in After(run).approving && j !in After(run).approving && k !in After(run).approving
    ensures
      var open := Checked(i, q, a, Approve) + Checked(j, q, b, Approve) + Checked(k, q, c, Reject);
      ThreeAtInsert(After(run + open), q, e, a, b, c, i, j, k)
  {
    hide After;
    var r1 := run + Checked(i, q, a, Approve);
    var r2 := r1 + Checked(j, q, b, Approve);
    PassesCheck(run, i, q, a, Approve);
    PassesCheck(r1, j, q, b, Approve);
    PassesCheck(r2, k, q, c, Reject);
    assert r2 + Checked(k, q, c, Reject) ==
           run + (Checked(i, q, a, Approve) + Checked(j, q, b, Approve) + Checked(k, q, c, Reject));
  }
}
