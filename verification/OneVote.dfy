/** One registration, one vote: how far it holds, in every interleaving of ballot requests and votes. */
module OneVote {
  import opened JsText
  import opened Schema
  import opened Ballots
  import opened Voting
  import opened System
  import opened Moves
  import opened BallotSafety

  /** The used ballots that a registration claimed. */
  ghost function UsedBallots(p: Poll, r: RegistrationId): set<Token> {
    set t | t in p.ballots && p.ballots[t].used && t in p.owner && p.owner[t] == r
  }

  /** Those that it claimed when it had participated already. */
  ghost function StaleVotes(p: Poll, r: RegistrationId): set<Token> {
    set t | t in p.ballots && p.ballots[t].used && t in p.owner && p.owner[t] == r && t in p.stale
  }

  lemma CountVotes(p: Poll, r: RegistrationId)
    requires PollOk(p)
    ensures |UsedBallots(p, r)| == |StaleVotes(p, r)| + if Participated(p, r) then 1 else 0
    ensures !Participated(p, r) ==> StaleVotes(p, r) == {}
  {
    if Participated(p, r) {
      var t :| FirstVote(p, r, t);
      assert UsedBallots(p, r) == StaleVotes(p, r) + {t} by {
        forall t' | t' in UsedBallots(p, r) ensures t' in StaleVotes(p, r) || t' == t {
          assert t' !in p.stale ==> FirstVote(p, r, t');
        }
      }
    } else {
      forall t ensures t !in UsedBallots(p, r) && t !in StaleVotes(p, r) {
        assert t in p.ballots && p.ballots[t].used && t in p.owner ==> Participated(p, p.owner[t]);
      }
      assert UsedBallots(p, r) == {} && StaleVotes(p, r) == {};
    }
  }

  /** In every reachable state a registration has voted once for having participated, and once more
      for every stale ballot it used: at most one vote, exactly if no used ballot was claimed stale. */
  lemma {:induction false} OneVoteIff(run: seq<Action>, r: RegistrationId)
    ensures
      var p := After(run).db.poll;
      && |UsedBallots(p, r)| == |StaleVotes(p, r)| + (if Participated(p, r) then 1 else 0)
      && (|UsedBallots(p, r)| <= 1 <==> StaleVotes(p, r) == {})
  {
    var p := After(run).db.poll;
    RunSafe(run);
    CountVotes(p, r);
    hide After;
  }

  // ---------- pointers ----------

  /** No token is ever held by two registrations. */
  lemma {:induction false} NoSharedToken(run: seq<Action>)
    ensures UniquePointers(After(run).db)
  {
    RunSafe(run);
    var db := After(run).db;
    hide After;
    forall r, r', t | Holds(db, r, t) && Holds(db, r', t) ensures r == r' {
      assert Pointer(db.poll, r, t) && Pointer(db.poll, r', t);
    }
  }

  /** A pointer that is set names an existing, unused ballot of the registration's own election. */
  lemma {:induction false} PointerNamesBallot(run: seq<Action>, r: RegistrationId, t: Token)
    requires Holds(After(run).db, r, t)
    ensures
      var p := After(run).db.poll;
      && t in p.ballots && !p.ballots[t].used
      && p.ballots[t].electionId == p.registrations[r].electionId
      && p.registrations[r].status == RegistrationApproved
  {
    RunSafe(run);
    assert Pointer(After(run).db.poll, r, t);
  }

  /** The ballot that a request looks up always exists: the re-read after a lost claim always finds
      the winner's ballot, and a pointer is cleared only when its ballot has expired. */
  lemma {:induction false} NoMissingBallot(run: seq<Action>, id: CallId, uuid: Token)
    requires id in After(run).requesting
    ensures
      var s := After(run);
      var c := s.requesting[id];
      && (c.phase.ReadWinner? ==> RequestStep(s.db, c, uuid).1.phase == Finished(Issued(c.phase.token)))
      && (c.phase.ReadBallot? ==>
            && c.phase.token in s.db.poll.ballots
            && (RequestStep(s.db, c, uuid).1.phase.Clear? <==>
                s.db.poll.ballots[c.phase.token].expiresAt <= c.phase.now))
  {
    RunSafe(run);
    var s := After(run);
    hide After;
    assert RequestKnown(s.db, s.requesting[id]);
  }

  ghost predicate Lost(p: Poll, t: Token) {
    t in p.ballots && forall r :: !Pointer(p, r, t)
  }

  lemma MoveKeepsLost(db: Db, m: PollMove, t: Token)
    requires PollEnabled(db, m) && Lost(db.poll, t)
    ensures Lost(PollAfter(db.poll, db.clock, m), t)
    ensures PollAfter(db.poll, db.clock, m).ballots[t] == db.poll.ballots[t]
  {
    var p, q := db.poll, PollAfter(db.poll, db.clock, m);
    if m.Votes? {
      assert Pointer(p, m.r, m.token);
    }
    forall r ensures !Pointer(q, r, t) {
      assert !Pointer(p, r, t);
    }
  }

  /** A token that has lost its pointer is never consumed afterwards, in any continuation of the run. */
  lemma {:induction false} LostTokenStaysUnused(run: seq<Action>, i: nat, t: Token)
    requires i <= |run| && Lost(After(run[..i]).db.poll, t)
    ensures Lost(After(run).db.poll, t)
    ensures After(run).db.poll.ballots[t] == After(run[..i]).db.poll.ballots[t]
    ensures forall selections, vote, salt, iv ::
              CastVoteEffect(After(run).db, t, selections, vote, salt, iv).1.Err?
    decreases |run|
  {
    if i == |run| {
      assert run[..i] == run;
    } else {
      var shorter := run[..|run| - 1];
      assert shorter[..i] == run[..i];
      LostTokenStaysUnused(shorter, i, t);
      var dt, g, m := StepMove(After(shorter), run[|run| - 1]);
      MoveKeepsLost(After(shorter).db, m, t);
      hide Step;
    }
    LostTokenIsRefused(After(run).db, t);
  }

  lemma LostTokenIsRefused(db: Db, t: Token)
    requires Lost(db.poll, t)
    ensures forall selections, vote, salt, iv :: CastVoteEffect(db, t, selections, vote, salt, iv).1.Err?
  {
    forall r ensures !Holds(db, r, t) {
      assert !Pointer(db.poll, r, t);
    }
    assert Holder(db, t).None?;
  }
}
