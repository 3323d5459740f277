/** Backend/src/modules/voting: casting a vote, one transaction. */
module Voting {
  import opened JsText
  import opened Schema
  import opened Database
  import opened Ballots

  /** The candidate stands approved for the position, and the position belongs to the election. */
  predicate SelectionOk(db: Db, e: ElectionId, x: Selection) {
    && x.position in db.gov.positions && db.gov.positions[x.position] == e
    && x.candidate in db.gov.candidates && db.gov.candidates[x.candidate].positionId == x.position
    && db.gov.candidates[x.candidate].status == CandidateApproved
  }

  predicate AllOk(db: Db, e: ElectionId, selections: seq<Selection>) {
    forall i | 0 <= i < |selections| :: SelectionOk(db, e, selections[i])
  }

  /** A record has one entry for a position. */
  predicate IsRecord(selections: seq<Selection>) {
    forall i, j | 0 <= i < j < |selections| :: selections[i].position != selections[j].position
  }

  predicate VotedWith(votes: map<VoteId, Vote>, token: Token) {
    exists v :: v in votes && votes[v].ballotToken == token
  }

  /** `castVote`. `vote`, `salt` and `iv` are the random id, receipt salt and initialisation vector.
      Any error aborts the transaction, and with it the consumption of the token. */
  ghost function CastVoteEffect(db: Db, token: Token, selections: seq<Selection>, vote: VoteId, salt: int,
                                iv: int): (Db, Result<ReceiptCode>) {
    var (consumed, outcome) := ConsumeEffect(db, token);
    var code := ReceiptHash(vote, db.clock, salt);
    match outcome
    case TokenNotFound => (db, Err(BallotNotFound))
    case TokenExpired => (db, Err(BallotExpired))
    case TokenUsed => (db, Err(DoubleVoting))
    case TokenValid(_, e) =>
      if !AllOk(db, e, selections) then (db, Err(NotFound))
      else if vote in db.poll.votes || VotedWith(db.poll.votes, token) || code in db.poll.receipts then
        (db, Err(ConstraintViolation))
      else
        (Logged(consumed.(poll := consumed.poll.(
                  votes := db.poll.votes[vote := Vote(token, Sealed(iv, selections), db.clock)],
                  receipts := db.poll.receipts[code := Receipt(vote, salt, db.clock)])),
                AnonymizedVoter, VoteCast(e)),
         Ok(code))
  }

  /** What the answer to a vote says. It is recorded exactly if a registration holds the token of an unused,
      unexpired ballot, every selection is an approved candidate of that very position of the registration's
      election, and the ids are new; otherwise nothing changes, and the error names the first of these that
      fails. */
  lemma CastVoteAnswers(db: Db, token: Token, selections: seq<Selection>, vote: VoteId, salt: int, iv: int)
    ensures
      var (after, r) := CastVoteEffect(db, token, selections, vote, salt, iv);
      var held := exists id :: Holds(db, id, token);
      var code := ReceiptHash(vote, db.clock, salt);
      && (r.Err? ==> after == db)
      && (r.Ok? ==>
            && r.value == code && after.clock == db.clock && after.gov == db.gov
            && after.poll.votes == db.poll.votes[vote := Vote(token, Sealed(iv, selections), db.clock)]
            && after.poll.receipts == db.poll.receipts[code := Receipt(vote, salt, db.clock)]
            && token in db.poll.ballots
            && after.poll.ballots == db.poll.ballots[token := db.poll.ballots[token].(used := true)])
      && (r == Err(DoubleVoting) <==> token in db.poll.ballots && db.poll.ballots[token].used)
      && (r == Err(BallotExpired) <==>
            token in db.poll.ballots && !db.poll.ballots[token].used && db.poll.ballots[token].expiresAt < db.clock)
      && (r == Err(BallotNotFound) <==>
            || token !in db.poll.ballots
            || (!db.poll.ballots[token].used && db.clock <= db.poll.ballots[token].expiresAt && !held))
      && (token in db.poll.ballots && !db.poll.ballots[token].used && db.clock <= db.poll.ballots[token].expiresAt
          && held ==>
            exists id ::
              && Holds(db, id, token)
              && (r == Err(NotFound) <==>
                    exists i | 0 <= i < |selections| ::
                      !(&& selections[i].position in db.gov.positions
                        && db.gov.positions[selections[i].position] == db.poll.registrations[id].electionId
                        && selections[i].candidate in db.gov.candidates
                        && db.gov.candidates[selections[i].candidate].positionId == selections[i].position
                        && db.gov.candidates[selections[i].candidate].status == CandidateApproved))
              && (r == Err(ConstraintViolation) <==>
                    && r != Err(NotFound)
                    && (vote in db.poll.votes || code in db.poll.receipts
                        || exists v :: v in db.poll.votes && db.poll.votes[v].ballotToken == token))
              && (r.Ok? || r == Err(NotFound) || r == Err(ConstraintViolation))
              && (r.Ok? ==>
                    && after.poll.registrations == db.poll.registrations[id := db.poll.registrations[id].(
                         participated := true, activeBallotToken := None)]
                    && after.log == db.log + [LogEntry(
                         AnonymizedVoter, VoteCast(db.poll.registrations[id].electionId), db.clock)]))
  {
    var h := Holder(db, token);
    if h.Some? {
      assert Holds(db, h.value, token);
      var e := db.poll.registrations[h.value].electionId;
      assert AllOk(db, e, selections) <==> forall i | 0 <= i < |selections| :: SelectionOk(db, e, selections[i]);
    }
  }

  /** `verifyReceipt`: when the vote of the receipt was cast, if there is such a receipt and its code is
      the hash of what the row holds. */
  function VerifyReceiptEffect(db: Db, code: ReceiptCode): Option<int> {
    if code !in db.poll.receipts then None
    else
      var receipt := db.poll.receipts[code];
      if ReceiptHash(receipt.voteId, receipt.createdAt, receipt.salt) != code then None else Some(receipt.createdAt)
  }

  // ---------- the service, as the program runs it ----------

  datatype SelectionCheck = SelectionsValid | UnknownPosition(at: nat) | NotApprovedFor(at: nat)

  /** `validateSelections`: stops at the first selection that fails, and says why. */
  method ValidateSelections(s: Store, e: ElectionId, selections: seq<Selection>) returns (r: SelectionCheck)
    ensures r.SelectionsValid? <==> AllOk(s.View(), e, selections)
    ensures !r.SelectionsValid? ==>
              && r.at < |selections|
              && !SelectionOk(s.View(), e, selections[r.at])
              && forall i | 0 <= i < r.at :: SelectionOk(s.View(), e, selections[i])
    ensures r.UnknownPosition? <==>
              !r.SelectionsValid? &&
              !(selections[r.at].position in s.positions && s.positions[selections[r.at].position] == e)
    ensures r.SelectionsValid? ==> forall i | 0 <= i < |selections| ::
              && selections[i].candidate in s.candidates
              && s.candidates[selections[i].candidate].positionId == selections[i].position
              && s.candidates[selections[i].candidate].status == CandidateApproved
    ensures r.NotApprovedFor? ==>
              !(&& selections[r.at].candidate in s.candidates
                && s.candidates[selections[r.at].candidate].positionId == selections[r.at].position
                && s.candidates[selections[r.at].candidate].status == CandidateApproved)
  {
    var approvedByPosition :=
      map p | p in s.positions && s.positions[p] == e ::
        set c | c in s.candidates && s.candidates[c].positionId == p && s.candidates[c].status == CandidateApproved;
    for i := 0 to |selections|
      invariant forall j | 0 <= j < i :: SelectionOk(s.View(), e, selections[j])
    {
      var x := selections[i];
      if x.position !in approvedByPosition {
        assert !SelectionOk(s.View(), e, selections[i]);
        return UnknownPosition(i);
      }
      if x.candidate !in approvedByPosition[x.position] {
        assert !SelectionOk(s.View(), e, selections[i]);
        return NotApprovedFor(i);
      }
    }
    return SelectionsValid;
  }

  /** The vote, its receipt and its audit entry; a clash with a unique constraint aborts. */
  method RecordVote(s: Store, e: ElectionId, token: Token, selections: seq<Selection>, vote: VoteId, salt: int, iv: int)
      returns (ok: bool)
    modifies s`votes, s`receipts, s`log
    ensures ok <==> !(vote in old(s.votes) || VotedWith(old(s.votes), token)
                      || ReceiptHash(vote, s.clock, salt) in old(s.receipts))
    ensures !ok ==> s.votes == old(s.votes) && s.receipts == old(s.receipts) && s.log == old(s.log)
    ensures ok ==>
              && s.votes == old(s.votes)[vote := Vote(token, Sealed(iv, selections), s.clock)]
              && s.receipts == old(s.receipts)[ReceiptHash(vote, s.clock, salt) := Receipt(vote, salt, s.clock)]
              && s.log == old(s.log) + [LogEntry(AnonymizedVoter, VoteCast(e), s.clock)]
  {
    if vote in s.votes || exists v :: v in s.votes && s.votes[v].ballotToken == token { return false; }
    var votes := s.votes;
    s.votes := s.votes[vote := Vote(token, Sealed(iv, selections), s.clock)];
    var code := ReceiptHash(vote, s.clock, salt);
    if code in s.receipts {
      s.votes := votes;
      return false;
    }
    s.receipts := s.receipts[code := Receipt(vote, salt, s.clock)];
    s.AppendAuditEvent(AnonymizedVoter, VoteCast(e));
    return true;
  }

  /** Selections are checked against the governance tables alone. */
  lemma SelectionsOfGov(a: Db, b: Db, e: ElectionId, selections: seq<Selection>)
    requires a.gov == b.gov
    ensures AllOk(a, e, selections) <==> AllOk(b, e, selections)
  {
    forall i | 0 <= i < |selections| ensures SelectionOk(a, e, selections[i]) <==> SelectionOk(b, e, selections[i]) {}
  }

  /** The rest of the transaction, once the token is consumed: records the vote, or puts the given
      tables back. */
  method RecordOrRestore(s: Store, registrations: map<RegistrationId, Registration>,
                         ballots: map<Token, Ballot>, e: ElectionId,
                         token: Token, selections: seq<Selection>, vote: VoteId, salt: int, iv: int)
      returns (r: Result<ReceiptCode>)
    modifies s`registrations, s`ballots, s`votes, s`receipts, s`log
    ensures r == (if !AllOk(old(s.View()), e, selections) then Err(NotFound)
                  else if vote in old(s.votes) || VotedWith(old(s.votes), token)
                          || ReceiptHash(vote, s.clock, salt) in old(s.receipts) then Err(ConstraintViolation)
                  else Ok(ReceiptHash(vote, s.clock, salt)))
    ensures r.Err? ==>
              && s.registrations == registrations && s.ballots == ballots
              && s.votes == old(s.votes) && s.receipts == old(s.receipts) && s.log == old(s.log)
    ensures r.Ok? ==>
              && s.registrations == old(s.registrations) && s.ballots == old(s.ballots)
              && s.votes == old(s.votes)[vote := Vote(token, Sealed(iv, selections), s.clock)]
              && s.receipts == old(s.receipts)[ReceiptHash(vote, s.clock, salt) := Receipt(vote, salt, s.clock)]
              && s.log == old(s.log) + [LogEntry(AnonymizedVoter, VoteCast(e), s.clock)]
  {
    var check := ValidateSelections(s, e, selections);
    if !check.SelectionsValid? {
      s.registrations, s.ballots := registrations, ballots;
      return Err(NotFound);
    }
    var recorded := RecordVote(s, e, token, selections, vote, salt, iv);
    if !recorded {
      s.registrations, s.ballots := registrations, ballots;
      return Err(ConstraintViolation);
    }
    return Ok(ReceiptHash(vote, s.clock, salt));
  }

  method CastVote(s: Store, token: Token, selections: seq<Selection>, vote: VoteId, salt: int, iv: int)
      returns (r: Result<ReceiptCode>)
    requires UniquePointers(s.View())
    modifies s`registrations, s`ballots, s`votes, s`receipts, s`log
    ensures (s.View(), r) == CastVoteEffect(old(s.View()), token, selections, vote, salt, iv)
    ensures r.Err? ==> s.View() == old(s.View())
    ensures r.Ok? ==> r.value == ReceiptHash(vote, s.clock, salt) && r.value in s.receipts && vote in s.votes
  {
    hide ConsumeEffect;
    hide AllOk;
    hide VotedWith;
    hide UniquePointers;
    ghost var was := s.View();
    var registrations, ballots := s.registrations, s.ballots;
    var outcome := ConsumeBallotToken(s, token);
    match outcome {
      case TokenNotFound => r := Err(BallotNotFound);
      case TokenExpired => r := Err(BallotExpired);
      case TokenUsed => r := Err(DoubleVoting);
      case TokenValid(_, e) =>
        SelectionsOfGov(was, s.View(), e, selections);
        r := RecordOrRestore(s, registrations, ballots, e, token, selections, vote, salt, iv);
    }
  }

  method VerifyReceipt(s: Store, code: ReceiptCode) returns (castAt: Option<int>)
    ensures castAt == VerifyReceiptEffect(s.View(), code)
    ensures castAt.Some? <==>
              && code in s.receipts
              && ReceiptHash(s.receipts[code].voteId, s.receipts[code].createdAt, s.receipts[code].salt) == code
    ensures castAt.Some? ==> code in s.receipts && s.receipts[code].createdAt == castAt.value == code.issuedAt
  {
    if code !in s.receipts { return None; }
    var receipt := s.receipts[code];
    if ReceiptHash(receipt.voteId, receipt.createdAt, receipt.salt) != code { return None; }
    return Some(receipt.createdAt);
  }
}
