/** One voter, from the request to the vote: what the two services do when nothing interrupts them. */
module Journey {
  import opened JsText
  import opened Schema
  import opened Verification
  import opened Ballots
  import opened Voting
  import opened System
  import opened BallotSafety
  import OneVote
  import BallotBox

  /** The student may ask for a ballot now. */
  ghost predicate Admissible(db: Db, user: UserId, e: ElectionId) {
    && user in db.gov.students && IsEligible(db, db.gov.students[user], e) == Eligible
    && e in db.gov.elections && db.gov.elections[e].status == Active
    && db.gov.elections[e].startDate <= db.clock <= db.gov.elections[e].endDate
  }

  /** The registration of an admissible student. */
  ghost function RegistrationOf(db: Db, user: UserId, e: ElectionId): (r: RegistrationId)
    requires Admissible(db, user, e)
    ensures r in db.poll.registrations && !db.poll.registrations[r].participated
    ensures FindRegistration(db, db.gov.students[user], e) == Some(r)
  {
    db.poll.byStudent[(db.gov.students[user], e)]
  }

  /** The registration holds a token that has not expired. */
  ghost predicate HoldsLive(db: Db, r: RegistrationId, t: Token) {
    Pointer(db.poll, r, t) && t in db.poll.ballots && db.poll.ballots[t].expiresAt > db.clock
  }

  /** The registration of the user's student for the election. */
  predicate RegisteredAs(db: Db, user: UserId, e: ElectionId, r: RegistrationId) {
    && user in db.gov.students && (db.gov.students[user], e) in db.poll.byStudent
    && db.poll.byStudent[(db.gov.students[user], e)] == r && r in db.poll.registrations
  }

  /** The registration is approved, and has not been voted with. */
  predicate MayVote(db: Db, r: RegistrationId) {
    && r in db.poll.registrations && db.poll.registrations[r].status == RegistrationApproved
    && !db.poll.registrations[r].participated
  }

  /** Why a request that nothing interrupts is refused before it has read the pointer. */
  ghost predicate RefusedFor(db: Db, user: UserId, e: ElectionId, error: Error) {
    match error
    case NotFound =>
      || (forall r :: !RegisteredAs(db, user, e, r))
      || (e !in db.gov.elections && exists r :: RegisteredAs(db, user, e, r) && MayVote(db, r))
    case Unauthorized =>
      exists r :: RegisteredAs(db, user, e, r) && db.poll.registrations[r].status != RegistrationApproved
    case Conflict =>
      exists r :: RegisteredAs(db, user, e, r) && db.poll.registrations[r].status == RegistrationApproved
                  && db.poll.registrations[r].participated
    case WrongElectionState =>
      && (exists r :: RegisteredAs(db, user, e, r) && MayVote(db, r)) && e in db.gov.elections
      && !(db.gov.elections[e].status == Active
           && db.gov.elections[e].startDate <= db.clock <= db.gov.elections[e].endDate)
    case _ => false
  }

  lemma AdmissibleMayVote(db: Db, user: UserId, e: ElectionId)
    requires Admissible(db, user, e)
    ensures forall error :: !RefusedFor(db, user, e, error)
  {
    assert RegisteredAs(db, user, e, RegistrationOf(db, user, e));
  }

  lemma Refused(db: Db, user: UserId, e: ElectionId, uuid: Token)
    requires !Admissible(db, user, e)
    ensures
      var (after, outcome) := RequestBallotEffect(db, user, e, uuid);
      after == db && outcome.Failed? && forall error :: RefusedFor(db, user, e, error) <==> error == outcome.error
  {
    if user in db.gov.students && (db.gov.students[user], e) in db.poll.byStudent {
      var r := db.poll.byStudent[(db.gov.students[user], e)];
      assert r in db.poll.registrations ==> RegisteredAs(db, user, e, r);
    }
    var c := RequestCall(user, e, FindStudent);
    RunOneStep(db, c, uuid);
    var (db1, c1) := RequestStep(db, c, uuid);
    if !c1.phase.Finished? {
      RunOneStep(db1, c1, uuid);
      var (db2, c2) := RequestStep(db1, c1, uuid);
      if !c2.phase.Finished? {
        RunOneStep(db2, c2, uuid);
      }
    }
  }

  lemma {:induction false} AdmittedToPointer(db: Db, user: UserId, e: ElectionId, uuid: Token)
    requires Admissible(db, user, e)
    ensures
      var student := db.gov.students[user];
      RunRequest(db, RequestCall(user, e, FindStudent), uuid) ==
        RunRequest(db, RequestCall(user, e, ReadPointer(student, db.clock)), uuid)
  {
    var student := db.gov.students[user];
    RunOneStep(db, RequestCall(user, e, FindStudent), uuid);
    RunOneStep(db, RequestCall(user, e, CheckEligibility(student)), uuid);
    RunOneStep(db, RequestCall(user, e, CheckWindow(student)), uuid);
  }

  /** A token that is still good is handed out again; its ballot stays as it is. */
  lemma Reused(db: Db, user: UserId, e: ElectionId, uuid: Token, t: Token)
    requires Admissible(db, user, e) && HoldsLive(db, RegistrationOf(db, user, e), t)
    ensures RequestBallotEffect(db, user, e, uuid) == (db, Issued(t))
  {
    var student := db.gov.students[user];
    AdmittedToPointer(db, user, e, uuid);
    RunOneStep(db, RequestCall(user, e, ReadPointer(student, db.clock)), uuid);
    RunOneStep(db, RequestCall(user, e, ReadBallot(student, db.clock, RegistrationOf(db, user, e), t)), uuid);
  }

  /** The database as it stands at the claim: an expired pointer has been cleared. */
  ghost function Ready(db: Db, r: RegistrationId): Db
    requires r in db.poll.registrations
  {
    if db.poll.registrations[r].activeBallotToken.Some? then ClearEffect(db, r) else db
  }

  lemma {:induction false} PointerToClaim(db: Db, user: UserId, e: ElectionId, uuid: Token)
    requires Admissible(db, user, e) && forall t :: !HoldsLive(db, RegistrationOf(db, user, e), t)
    ensures
      var student, r := db.gov.students[user], RegistrationOf(db, user, e);
      RunRequest(db, RequestCall(user, e, ReadPointer(student, db.clock)), uuid) ==
        RunRequest(Ready(db, r), RequestCall(user, e, Claim(student, db.clock, r)), uuid)
  {
    var student, r := db.gov.students[user], RegistrationOf(db, user, e);
    hide ClearEffect;
    RunOneStep(db, RequestCall(user, e, ReadPointer(student, db.clock)), uuid);
    var pointer := db.poll.registrations[r].activeBallotToken;
    if pointer.Some? {
      assert !HoldsLive(db, r, pointer.value);
      RunOneStep(db, RequestCall(user, e, ReadBallot(student, db.clock, r, pointer.value)), uuid);
      RunOneStep(db, RequestCall(user, e, Clear(student, db.clock, r)), uuid);
    }
  }

  /** What the claim of a fresh token leaves. */
  ghost predicate ClaimedFrom(db: Db, r: RegistrationId, e: ElectionId, t: Token, after: Db)
    requires r in db.poll.registrations
  {
    && after.poll.ballots == db.poll.ballots[t := Ballot(e, db.clock, db.clock + SESSION, false)]
    && after.poll.registrations == db.poll.registrations[r := db.poll.registrations[r].(activeBallotToken := Some(t))]
    && after.gov == db.gov && after.clock == db.clock && after.log == db.log
    && after.poll.byStudent == db.poll.byStudent
    && after.poll.votes == db.poll.votes && after.poll.receipts == db.poll.receipts
  }

  lemma ReadyRow(db: Db, r: RegistrationId)
    requires r in db.poll.registrations
    ensures
      var ready, row := Ready(db, r), db.poll.registrations[r].(activeBallotToken := None);
      ready == db.(poll := db.poll.(registrations := db.poll.registrations[r := row]))
  {
    if db.poll.registrations[r].activeBallotToken.None? {
      assert db.poll.registrations[r := db.poll.registrations[r]] == db.poll.registrations;
    }
  }

  lemma UpdatedTwice<K, V>(m: map<K, V>, k: K, x: V, y: V)
    ensures m[k := x][k := y] == m[k := y]
  {}

  lemma IssueAtReady(db: Db, r: RegistrationId, e: ElectionId, t: Token, now: int)
    requires r in db.poll.registrations && t !in db.poll.ballots
    ensures
      var (after, issued) := IssueEffect(Ready(db, r), r, e, t, now);
      issued == Ok(Some(t)) && ClaimedFrom(db, r, e, t, after)
  {
    hide Ready;
    ReadyRow(db, r);
    var row := db.poll.registrations[r];
    UpdatedTwice(db.poll.registrations, r, row.(activeBallotToken := None), row.(activeBallotToken := Some(t)));
  }

  /** Otherwise a fresh token is claimed, for half an hour from now. */
  lemma Claimed(db: Db, user: UserId, e: ElectionId, uuid: Token)
    requires Admissible(db, user, e) && forall t :: !HoldsLive(db, RegistrationOf(db, user, e), t)
    requires uuid !in db.poll.ballots
    ensures
      var r := RegistrationOf(db, user, e);
      var (after, outcome) := RequestBallotEffect(db, user, e, uuid);
      outcome == Issued(uuid) && HoldsLive(after, r, uuid) && ClaimedFrom(db, r, e, uuid, after)
  {
    var student, r := db.gov.students[user], RegistrationOf(db, user, e);
    AdmittedToPointer(db, user, e, uuid);
    PointerToClaim(db, user, e, uuid);
    IssueAtReady(db, r, e, uuid, db.clock);
    hide Admissible;
    hide Ready;
    hide IssueEffect;
    RunOneStep(Ready(db, r), RequestCall(user, e, Claim(student, db.clock, r)), uuid);
  }

  /** A token that exists already aborts the issue; a pointer that was cleared stays cleared. */
  lemma Collides(db: Db, user: UserId, e: ElectionId, uuid: Token)
    requires Admissible(db, user, e) && forall t :: !HoldsLive(db, RegistrationOf(db, user, e), t)
    requires uuid in db.poll.ballots
    ensures
      RequestBallotEffect(db, user, e, uuid) ==
        (Ready(db, RegistrationOf(db, user, e)), RequestOutcome.Failed(ConstraintViolation))
  {
    var student, r := db.gov.students[user], RegistrationOf(db, user, e);
    AdmittedToPointer(db, user, e, uuid);
    PointerToClaim(db, user, e, uuid);
    ReadyRow(db, r);
    hide Admissible;
    hide Ready;
    RunOneStep(Ready(db, r), RequestCall(user, e, Claim(student, db.clock, r)), uuid);
  }

  /** `requestBallot` on any database: who gets a token, that it can be used at once, and what else
      changes. */
  lemma RequestMeaning(db: Db, user: UserId, e: ElectionId, uuid: Token)
    ensures
      var (after, outcome) := RequestBallotEffect(db, user, e, uuid);
      && (outcome.Issued? <==>
            Admissible(db, user, e)
              && (uuid !in db.poll.ballots || exists t :: HoldsLive(db, RegistrationOf(db, user, e), t)))
      && (forall error :: outcome == RequestOutcome.Failed(error) <==>
            || RefusedFor(db, user, e, error)
            || (&& error == ConstraintViolation && Admissible(db, user, e) && uuid in db.poll.ballots
                && forall t :: !HoldsLive(db, RegistrationOf(db, user, e), t)))
      && (outcome.Failed? ==>
          after == db || (Admissible(db, user, e) && after == Ready(db, RegistrationOf(db, user, e))))
      && (outcome.Issued? ==>
            && HoldsLive(after, RegistrationOf(db, user, e), outcome.token)
            && (HoldsLive(db, RegistrationOf(db, user, e), outcome.token) ==> after == db)
            && (!HoldsLive(db, RegistrationOf(db, user, e), outcome.token) ==>
                  outcome.token == uuid && ClaimedFrom(db, RegistrationOf(db, user, e), e, uuid, after)))
  {
    if Admissible(db, user, e) {
      AdmissibleMayVote(db, user, e);
      var r := RegistrationOf(db, user, e);
      if t :| HoldsLive(db, r, t) {
        Reused(db, user, e, uuid, t);
      } else if uuid in db.poll.ballots {
        Collides(db, user, e, uuid);
      } else {
        Claimed(db, user, e, uuid);
      }
    } else {
      Refused(db, user, e, uuid);
    }
    hide RequestBallotEffect;
    hide ClaimedFrom;
    hide Ready;
  }

  lemma LiveTokenWorks(db: Db, user: UserId, e: ElectionId, t: Token, selections: seq<Selection>,
          vote: VoteId, salt: int, iv: int,
          selections': seq<Selection>, vote': VoteId, salt': int, iv': int, uuid: Token)
    requires PollOk(db.poll) && UniquePointers(db) && !VotedWith(db.poll.votes, t)
    requires Admissible(db, user, e) && HoldsLive(db, RegistrationOf(db, user, e), t)
    requires AllOk(db, e, selections) && vote !in db.poll.votes
             && ReceiptHash(vote, db.clock, salt) !in db.poll.receipts
    ensures UsedUp(db, user, e, t, selections, vote, salt, iv, selections', vote', salt', iv', uuid)
  {
    var r := RegistrationOf(db, user, e);
    assert Holds(db, r, t) && Holder(db, t) == Some(r);
    assert KeyOf(db.poll.registrations[r]) == (db.gov.students[user], e);
    var after := CastVoteEffect(db, t, selections, vote, salt, iv).0;
    var student := db.gov.students[user];
    RunOneStep(after, RequestCall(user, e, FindStudent), uuid);
    RunOneStep(after, RequestCall(user, e, CheckEligibility(student)), uuid);
  }

  /** The vote counts and its receipt verifies, a second vote is refused, and so is a further ballot. */
  ghost predicate UsedUp(db: Db, user: UserId, e: ElectionId, t: Token, selections: seq<Selection>,
                         vote: VoteId, salt: int, iv: int,
                         selections': seq<Selection>, vote': VoteId, salt': int, iv': int, uuid: Token) {
    var (after, result) := CastVoteEffect(db, t, selections, vote, salt, iv);
    && result.Ok? && VerifyReceiptEffect(after, result.value) == Some(db.clock)
    && vote in after.poll.votes && after.poll.votes[vote] == Vote(t, Sealed(iv, selections), db.clock)
    && CastVoteEffect(after, t, selections', vote', salt', iv') == (after, Err(DoubleVoting))
    && RequestBallotEffect(after, user, e, uuid) == (after, RequestOutcome.Failed(Conflict))
  }

  /** After any run: whoever holds a live token can vote with it, once. */
  lemma {:induction false} TokenWorksOnce(run: seq<Action>, user: UserId, e: ElectionId, t: Token,
                                          selections: seq<Selection>,
                             vote: VoteId, salt: int, iv: int,
                             selections': seq<Selection>, vote': VoteId, salt': int, iv': int, uuid: Token)
    requires Admissible(After(run).db, user, e) && HoldsLive(After(run).db, RegistrationOf(After(run).db, user, e), t)
    requires AllOk(After(run).db, e, selections) && vote !in After(run).db.poll.votes
    ensures UsedUp(After(run).db, user, e, t, selections, vote, salt, iv, selections', vote', salt', iv', uuid)
  {
    RunSafe(run);
    OneVote.NoSharedToken(run);
    BallotBox.Conservation(run);
    var db := After(run).db;
    hide After;
    hide UsedUp;
    hide Admissible;
    hide AllOk;
    assert !VotedWith(db.poll.votes, t) by {
      assert forall v | v in db.poll.votes :: BallotBox.VoteOk(db.poll, v);
    }
    BallotBox.FreshReceipt(db.poll, vote, db.clock, salt);
    LiveTokenWorks(db, user, e, t, selections, vote, salt, iv, selections', vote', salt', iv', uuid);
  }
}
