/** How a registration loses the token it holds, and when that token was still good. */
module Pointers {
  import opened JsText
  import opened Schema
  import opened Ballots
  import opened Voting
  import opened System
  import opened Moves
  import opened Evolution
  import opened BallotSafety
  import opened OneVote
  import opened ClaimRace
  import BallotBox

  /** The guard of a vote that goes through: an unused, unexpired ballot that registration `r` holds, a record
      of approved selections, and new ids. */
  ghost predicate Accepts(db: Db, r: RegistrationId, c: Command) {
    && c.CastVote? && Pointer(db.poll, r, c.token) && c.token in db.poll.ballots
    && !db.poll.ballots[c.token].used && db.clock <= db.poll.ballots[c.token].expiresAt
    && IsRecord(c.selections) && AllOk(db, db.poll.registrations[r].electionId, c.selections)
    && c.vote !in db.poll.votes && !VotedWith(db.poll.votes, c.token)
    && ReceiptHash(c.vote, db.clock, c.salt) !in db.poll.receipts
  }

  /** The action is a vote with the token that goes through. */
  ghost predicate CastsNow(s: Sevs, a: Action, t: Token) {
    a.Do? && a.command.CastVote? && a.command.token == t && exists r :: Accepts(s.db, r, a.command)
  }

  /** The action is the clearing step of a request for the registration. */
  ghost predicate ClearsNow(s: Sevs, a: Action, r: RegistrationId) {
    && a.AdvanceRequest? && a.id in s.requesting
    && s.requesting[a.id].phase.Clear? && s.requesting[a.id].phase.registration == r
  }

  lemma AcceptedIsCast(db: Db, r: RegistrationId, c: Command)
    requires PollOk(db.poll) && Accepts(db, r, c)
    ensures
      var p := Execute(db, c).poll;
      r in p.registrations && p.registrations[r].activeBallotToken.None?
  {
    hide AllOk;
    hide IsRecord;
    assert Holds(db, r, c.token);
    var h := Holder(db, c.token);
    assert h.Some? && Pointer(db.poll, h.value, c.token);
    assert h.value == r;
  }

  /** A vote changes something exactly if it goes through. */
  lemma CastIffAccepted(s: Sevs, a: Action)
    requires PollOk(s.db.poll) && a.Do? && a.command.CastVote?
    ensures Step(s, a).db != s.db <==> CastsNow(s, a, a.command.token)
  {
    var m := CastCommand(s.db, a.command);
    if m.Votes? {
      assert Pointer(s.db.poll, m.r, m.token) && Accepts(s.db, m.r, a.command);
    }
    hide AllOk;
    hide Execute;
    if r :| Accepts(s.db, r, a.command) {
      AcceptedIsCast(s.db, r, a.command);
    }
  }

  /** A token leaves its registration exactly by a vote that goes through, or by a clearing step. */
  lemma PointerLeaves(s: Sevs, a: Action, r: RegistrationId, t: Token)
    requires PollOk(s.db.poll) && Pointer(s.db.poll, r, t)
    ensures !Pointer(Step(s, a).db.poll, r, t) <==> CastsNow(s, a, t) || ClearsNow(s, a, r)
  {
    var dt, g, m := StepMove(s, a);
    if m.Votes? {
      assert Accepts(s.db, m.r, a.command) && Pointer(s.db.poll, m.r, m.token);
    }
    if CastsNow(s, a, t) {
      var h :| Accepts(s.db, h, a.command);
      AcceptedIsCast(s.db, h, a.command);
      assert Pointer(s.db.poll, h, t);
    }
    if ClearsNow(s, a, r) {
      ClearedBy(s, a, r);
    }
    hide Execute;
    hide RequestStep;
    hide Accepts;
    hide IndexOk;
    hide StaleOk;
    hide FirstVotesOk;
    hide Reports;
    hide GovAfter;
    hide GovEnabled;
    hide AllOk;
  }

  lemma ClearedBy(s: Sevs, a: Action, r: RegistrationId)
    requires ClearsNow(s, a, r) && r in s.db.poll.registrations
    ensures
      var p := Step(s, a).db.poll;
      r in p.registrations && p.registrations[r].activeBallotToken.None?
  {}

  // ---------- what a request has read ----------

  /** Step `h` is the step of call `id` that reads the pointer of the registration and finds `t`. */
  ghost predicate ReadsPointer(run: seq<Action>, h: nat, id: CallId, r: RegistrationId, t: Token, now: int) {
    && h < |run| && run[h].AdvanceRequest? && run[h].id == id
    && var s := After(run[..h]);
       && id in s.requesting && s.requesting[id].phase.ReadPointer? && s.requesting[id].phase.now == now
       && now <= s.db.clock && Pointer(s.db.poll, r, t)
  }

  /** What a request knows of the token whose ballot it reads, and that it has found expired when it
      comes to clear the pointer. */
  ghost predicate FoundExpired(db: Db, c: RequestCall, t: Token) {
    && (c.phase.ReadBallot? ==> c.phase.token == t)
    && (c.phase.Clear? ==> t in db.poll.ballots && db.poll.ballots[t].expiresAt <= c.phase.now)
  }

  lemma ReadStep(db: Db, c: RequestCall, token: Token)
    requires PollOk(db.poll) && RequestKnown(db, c)
    requires RequestStep(db, c, token).1.phase.ReadBallot? || RequestStep(db, c, token).1.phase.Clear?
    ensures
      var d := RequestStep(db, c, token).1;
      && RequestStep(db, c, token).0 == db
      && d.phase.now == c.phase.now && (c.phase.ReadPointer? || c.phase.ReadBallot?)
      && (c.phase.ReadPointer? ==>
            d.phase.ReadBallot? && Pointer(db.poll, d.phase.registration, d.phase.token) && c.phase.now <= db.clock)
      && (c.phase.ReadBallot? ==>
            d.phase.Clear? && d.phase.registration == c.phase.registration && FoundExpired(db, d, c.phase.token))
  {}

  lemma FoundExpiredStable(a: Db, b: Db, c: RequestCall, t: Token)
    requires Evolves(a, b) && FoundExpired(a, c, t)
    ensures FoundExpired(b, c, t)
  {
    hide GovEvolves;
    hide RollFrozen;
  }

  /** The last step is not a step of the call: what the call has found still holds. */
  lemma CarriedOver(s: Sevs, a: Action, id: CallId, t: Token)
    requires id in s.requesting && id in Step(s, a).requesting && s.requesting[id] == Step(s, a).requesting[id]
    requires FoundExpired(s.db, s.requesting[id], t)
    ensures FoundExpired(Step(s, a).db, Step(s, a).requesting[id], t)
  {
    StepEvolves(s, a);
    hide Step;
    hide Evolves;
    FoundExpiredStable(s.db, Step(s, a).db, s.requesting[id], t);
  }

  /** The last step is the call's own: it is the read of the pointer, or of its ballot. */
  lemma OwnRead(s: Sevs, a: Action)
    requires Safe(s) && a.AdvanceRequest? && a.id in s.requesting
    requires Step(s, a).requesting[a.id].phase.ReadBallot? || Step(s, a).requesting[a.id].phase.Clear?
    ensures
      var c, s' := s.requesting[a.id], Step(s, a);
      var d := s'.requesting[a.id];
      && s'.db == s.db && d.phase.now == c.phase.now && (c.phase.ReadPointer? || c.phase.ReadBallot?)
      && (c.phase.ReadPointer? ==>
            d.phase.ReadBallot? && Pointer(s.db.poll, d.phase.registration, d.phase.token) && c.phase.now <= s.db.clock)
      && (c.phase.ReadBallot? ==>
            d.phase.Clear? && d.phase.registration == c.phase.registration && FoundExpired(s.db, d, c.phase.token))
  {
    assert RequestKnown(s.db, s.requesting[a.id]);
    ReadStep(s.db, s.requesting[a.id], a.uuid);
    hide RequestStep;
    hide PollOk;
    hide TimesOk;
    hide Vetted;
  }

  /** A request that is about to clear a pointer has read one before, and has found its ballot expired. */
  lemma {:induction false} PointerRead(run: seq<Action>, id: CallId) returns (h: nat, t: Token)
    requires id in After(run).requesting
    requires After(run).requesting[id].phase.ReadBallot? || After(run).requesting[id].phase.Clear?
    ensures
      var c := After(run).requesting[id];
      ReadsPointer(run, h, id, c.phase.registration, t, c.phase.now) && FoundExpired(After(run).db, c, t)
    decreases |run|
  {
    Prefixes(run);
    var shorter, a := run[..|run| - 1], run[|run| - 1];
    assert run[..|shorter|] == shorter;
    RunSafe(shorter);
    hide After;
    hide Step;
    hide Safe;
    var s := After(shorter);
    if a.AdvanceRequest? && a.id == id && id in s.requesting {
      OwnRead(s, a);
      if s.requesting[id].phase.ReadPointer? {
        return |shorter|, After(run).requesting[id].phase.token;
      }
      h, t := PointerRead(shorter, id);
    } else {
      SameCall(s, a, id);
      h, t := PointerRead(shorter, id);
      CarriedOver(s, a, id, t);
    }
  }

  lemma SameCall(s: Sevs, a: Action, id: CallId)
    requires id in Step(s, a).requesting && !(a.AdvanceRequest? && a.id == id && id in s.requesting)
    requires !Step(s, a).requesting[id].phase.FindStudent?
    ensures id in s.requesting && s.requesting[id] == Step(s, a).requesting[id]
  {}

  /** A call that is past a step never comes back to it. */
  lemma {:induction false} CallGoesOn(run: seq<Action>, i: nat, id: CallId)
    requires i <= |run| && id in After(run[..i]).requesting
    ensures id in After(run).requesting
    ensures StepsLeft(After(run).requesting[id].phase) <= StepsLeft(After(run[..i]).requesting[id].phase)
    decreases |run|
  {
    assert run[..|run|] == run;
    if i < |run| {
      Prefixes(run);
      var shorter, a := run[..|run| - 1], run[|run| - 1];
      CallGoesOn(shorter, i, id);
      CallStepsDown(After(shorter), a, id);
      hide After;
      hide Step;
      hide StepsLeft;
    }
  }

  lemma CallStepsDown(s: Sevs, a: Action, id: CallId)
    requires id in s.requesting
    ensures id in Step(s, a).requesting
    ensures StepsLeft(Step(s, a).requesting[id].phase) <= StepsLeft(s.requesting[id].phase)
  {}

  // ---------- when the lost token was still good ----------

  lemma {:induction false} StaysClaimed(run: seq<Action>, i: nat, id: CallId, k: nat, t: Token)
    requires Claims(run, i, id, t) && i < k <= |run|
    ensures t in After(run[..k]).db.poll.ballots
  {
    RunEvolves(run[..k], i + 1);
    assert run[..k][..i + 1] == run[..i + 1];
    hide After;
    hide GovEvolves;
    hide RollFrozen;
  }

  lemma ClaimedOnce(run: seq<Action>, i: nat, id: CallId, j: nat, other: CallId, t: Token)
    requires Claims(run, i, id, t) && Claims(run, j, other, t)
    ensures i == j
  {
    hide After;
    if i < j {
      StaysClaimed(run, i, id, j, t);
    }
    if j < i {
      StaysClaimed(run, j, other, i, t);
    }
  }

  lemma NewBallot(s: Sevs, a: Action, t: Token)
    requires t !in s.db.poll.ballots && t in Step(s, a).db.poll.ballots && a.AdvanceRequest?
    ensures Step(s, a).db.poll.ballots[t].expiresAt == s.db.clock + SESSION
    ensures a.id in s.requesting && s.requesting[a.id].phase.Claim?
  {
    var dt, g, m := StepMove(s, a);
    hide Step;
    hide Reports;
    hide GovEnabled;
    hide GovAfter;
  }

  /** A claimed ballot lasts for half an hour from its claim. */
  lemma {:induction false} ClaimedBallot(run: seq<Action>, j: nat, id: CallId, t: Token)
    requires Claims(run, j, id, t)
    ensures
      && t in After(run).db.poll.ballots
      && After(run).db.poll.ballots[t].expiresAt == After(run[..j]).db.clock + SESSION
      && id in After(run[..j]).requesting && After(run[..j]).requesting[id].phase.Claim?
  {
    var upTo := run[..j + 1];
    Prefixes(upTo);
    assert upTo[..j] == run[..j];
    hide After;
    hide Step;
    hide GovEvolves;
    hide RollFrozen;
    NewBallot(After(run[..j]), run[j], t);
    RunEvolves(run, j + 1);
  }

  /** A token that a registration holds now was held by it at every earlier point where it existed. */
  lemma {:induction false} NamedBefore(run: seq<Action>, h: nat, r: RegistrationId, t: Token)
    requires h <= |run| && Pointer(After(run).db.poll, r, t) && t in After(run[..h]).db.poll.ballots
    ensures Pointer(After(run[..h]).db.poll, r, t)
  {
    RunSafe(run);
    RunSafe(run[..h]);
    RunEvolves(run, h);
    if Lost(After(run[..h]).db.poll, t) {
      LostTokenStaysUnused(run, h, t);
    }
    hide After;
    hide GovEvolves;
    hide RollFrozen;
  }

  /** A clearing step takes a token that was still good when its request began to look exactly if the
      token was claimed by another request after this one had read the pointer. */
  lemma {:induction false} ClearTakesLiveIff(run: seq<Action>, id: CallId, t: Token) returns (h: nat, expired: Token)
    requires id in After(run).requesting && After(run).requesting[id].phase.Clear?
    requires Pointer(After(run).db.poll, After(run).requesting[id].phase.registration, t)
    ensures
      var c, p := After(run).requesting[id], After(run).db.poll;
      && ReadsPointer(run, h, id, c.phase.registration, expired, c.phase.now) && t in p.ballots
      && (p.ballots[t].expiresAt > c.phase.now <==>
            exists j: nat, other :: h < j && other != id && Claims(run, j, other, t))
  {
    h, expired := PointerRead(run, id);
    RunSafe(run);
    var c, p := After(run).requesting[id], After(run).db.poll;
    assert Pointer(p, c.phase.registration, t) && t in p.ballots;
    var j, other := FindClaim(run, t);
    ClaimedBallot(run, j, other, t);
    if j <= h {
      ClaimedEarly(run, id, t, h, expired, j, other);
    } else {
      ClaimedLate(run, id, h, j, other, t);
    }
  }

  lemma {:induction false} ClaimedEarly(run: seq<Action>, id: CallId, t: Token, h: nat,
                                        expired: Token, j: nat, other: CallId)
    requires id in After(run).requesting && After(run).requesting[id].phase.Clear?
    requires Pointer(After(run).db.poll, After(run).requesting[id].phase.registration, t)
    requires ReadsPointer(run, h, id, After(run).requesting[id].phase.registration, expired,
                          After(run).requesting[id].phase.now)
    requires FoundExpired(After(run).db, After(run).requesting[id], expired)
    requires Claims(run, j, other, t) && j <= h
    ensures t == expired && forall k: nat, x | h < k :: !Claims(run, k, x, t)
  {
    ClaimedBallot(run, j, other, t);
    assert j != h;
    RunEvolves(run[..h], j + 1);
    assert run[..h][..j + 1] == run[..j + 1];
    hide After;
    hide GovEvolves;
    hide RollFrozen;
    NamedBefore(run, h, After(run).requesting[id].phase.registration, t);
    forall k: nat, x | h < k ensures !Claims(run, k, x, t) {
      if Claims(run, k, x, t) {
        ClaimedOnce(run, j, other, k, x, t);
      }
    }
  }

  lemma {:induction false} ClaimedLate(run: seq<Action>, id: CallId, h: nat, j: nat, other: CallId, t: Token)
    requires id in After(run).requesting && After(run).requesting[id].phase.Clear?
    requires h < j && Claims(run, j, other, t)
    requires ReadsAt(run, h, id, After(run).requesting[id].phase.now)
    ensures other != id && After(run[..j]).db.clock >= After(run).requesting[id].phase.now
  {
    ClaimedBallot(run, j, other, t);
    RunEvolves(run[..j], h);
    assert run[..j][..h] == run[..h];
    if other == id {
      CallGoesOn(run, j, id);
    }
    hide After;
    hide GovEvolves;
    hide RollFrozen;
  }

  ghost predicate ReadsAt(run: seq<Action>, h: nat, id: CallId, now: int) {
    h < |run| && now <= After(run[..h]).db.clock
  }

  // ---------- when a token that was handed out still works ----------

  /** Step `k` takes token `t` from registration `r`. */
  ghost predicate LeavesAt(run: seq<Action>, k: nat, r: RegistrationId, t: Token) {
    k < |run| && (CastsNow(After(run[..k]), run[k], t) || ClearsNow(After(run[..k]), run[k], r))
  }

  lemma {:induction false} LeftSince(run: seq<Action>, a: Action, j: nat, r: RegistrationId, t: Token)
    requires j < |run|
    ensures
      (forall k: nat | j < k :: !LeavesAt(run + [a], k, r, t)) <==>
      (forall k: nat | j < k :: !LeavesAt(run, k, r, t)) && !CastsNow(After(run), a, t) && !ClearsNow(After(run), a, r)
  {
    hide After;
    hide CastsNow;
    hide ClearsNow;
    var longer := run + [a];
    assert longer[..|run|] == run;
    forall k: nat
      ensures LeavesAt(longer, k, r, t) <==>
              LeavesAt(run, k, r, t) || (k == |run| && (CastsNow(After(run), a, t) || ClearsNow(After(run), a, r)))
    {
      if k < |run| { assert longer[..k] == run[..k]; }
    }
    if forall k: nat | j < k :: !LeavesAt(longer, k, r, t) {
      assert !LeavesAt(longer, |run|, r, t);
    }
  }

  /** A claimed token is held by its registration exactly if no vote with it and no clearing step of the
      registration came after the claim. */
  lemma {:induction false} HeldIff(run: seq<Action>, j: nat, id: CallId, t: Token)
    requires Claims(run, j, id, t)
    ensures
      var p := After(run).db.poll;
      && t in p.ballots && t in p.owner
      && (Pointer(p, p.owner[t], t) <==> forall k: nat | j < k :: !LeavesAt(run, k, p.owner[t], t))
    decreases |run|
  {
    Prefixes(run);
    var shorter, a := run[..|run| - 1], run[|run| - 1];
    assert run == shorter + [a];
    if j == |run| - 1 {
      JustClaimed(run, id, t);
    } else {
      assert run[..j + 1] == shorter[..j + 1] && run[..j] == shorter[..j];
      HeldIff(shorter, j, id, t);
      RunSafe(shorter);
      var s := After(shorter);
      var r := s.db.poll.owner[t];
      StepEvolves(s, a);
      PointerOrLost(s, a, r, t);
      hide *;
      OwnerStays(s.db, After(run).db, t);
      LeftSince(shorter, a, j, r, t);
    }
  }

  lemma OwnerStays(a: Db, b: Db, t: Token)
    requires Evolves(a, b) && t in a.poll.ballots && t in a.poll.owner
    ensures t in b.poll.ballots && t in b.poll.owner && b.poll.owner[t] == a.poll.owner[t]
  {
    hide GovEvolves;
    hide RollFrozen;
  }

  lemma {:induction false} JustClaimed(run: seq<Action>, id: CallId, t: Token)
    requires run != [] && Claims(run, |run| - 1, id, t)
    ensures
      var p := After(run).db.poll;
      t in p.ballots && t in p.owner && Pointer(p, p.owner[t], t)
  {
    Prefixes(run);
    assert run[..|run| - 1 + 1] == run;
    hide After;
    hide Step;
    NewPointer(After(run[..|run| - 1]), run[|run| - 1], t);
  }

  lemma NewPointer(s: Sevs, a: Action, t: Token)
    requires t !in s.db.poll.ballots && t in Step(s, a).db.poll.ballots
    ensures
      var p := Step(s, a).db.poll;
      t in p.owner && Pointer(p, p.owner[t], t)
  {
    var dt, g, m := StepMove(s, a);
    hide Step;
    hide Reports;
    hide GovEnabled;
    hide GovAfter;
    hide PollEnabled;
    hide PollAfter;
    hide ComesFrom;
    NewBallotHeld(s.db, m, t);
  }

  lemma NewBallotHeld(db: Db, m: PollMove, t: Token)
    requires PollEnabled(db, m) && t !in db.poll.ballots && t in PollAfter(db.poll, db.clock, m).ballots
    ensures
      var p := PollAfter(db.poll, db.clock, m);
      t in p.owner && Pointer(p, p.owner[t], t)
  {
    hide AllOk;
    hide IsRecord;
    assert m.Issues? && m.token == t;
  }

  /** A token that its owner does not hold is not held after the step either. */
  lemma PointerOrLost(s: Sevs, a: Action, r: RegistrationId, t: Token)
    requires Safe(s) && t in s.db.poll.ballots && t in s.db.poll.owner && s.db.poll.owner[t] == r
    ensures
      Pointer(Step(s, a).db.poll, r, t) <==> Pointer(s.db.poll, r, t) && !CastsNow(s, a, t) && !ClearsNow(s, a, r)
  {
    if Pointer(s.db.poll, r, t) {
      PointerLeaves(s, a, r, t);
    } else {
      assert Lost(s.db.poll, t);
      var dt, g, m := StepMove(s, a);
      MoveKeepsLost(s.db, m, t);
    }
    hide Step;
    hide CastsNow;
    hide ClearsNow;
    hide IndexOk;
    hide StaleOk;
    hide FirstVotesOk;
    hide PollAfter;
    hide Reports;
  }

  /** The token that a finished request has returned: a vote with it that is in order otherwise goes through
      exactly if the ballot has not expired and the token was neither voted with nor cleared away since its
      claim. */
  lemma {:induction false} ReturnedTokenWorksIff(run: seq<Action>, id: CallId, c: Command)
    returns (j: nat, other: CallId)
    requires id in After(run).requesting && c.CastVote?
    requires After(run).requesting[id].phase == Finished(Issued(c.token))
    requires IsRecord(c.selections) && AllOk(After(run).db, After(run).requesting[id].election, c.selections)
    requires c.vote !in After(run).db.poll.votes
    ensures
      var db := After(run).db;
      && Claims(run, j, other, c.token) && c.token in db.poll.ballots && c.token in db.poll.owner
      && ((exists r :: Accepts(db, r, c)) <==>
            && db.clock <= db.poll.ballots[c.token].expiresAt
            && forall k: nat | j < k :: !LeavesAt(run, k, db.poll.owner[c.token], c.token))
  {
    var s, t := After(run), c.token;
    RunSafe(run);
    BallotBox.Conservation(run);
    assert RequestKnown(s.db, s.requesting[id]);
    j, other := FindClaim(run, t);
    HeldIff(run, j, other, t);
    hide After;
    hide Claims;
    hide LeavesAt;
    HeldWorks(s.db, s.db.poll.owner[t], c);
  }

  lemma HeldWorks(db: Db, r: RegistrationId, c: Command)
    requires PollOk(db.poll) && BallotBox.BoxOk(db) && c.CastVote? && c.token in db.poll.ballots
    requires c.token in db.poll.owner && db.poll.owner[c.token] == r && c.vote !in db.poll.votes
    requires IsRecord(c.selections) && AllOk(db, db.poll.ballots[c.token].electionId, c.selections)
    ensures
      (exists x :: Accepts(db, x, c)) <==>
        Pointer(db.poll, r, c.token) && db.clock <= db.poll.ballots[c.token].expiresAt
  {
    BallotBox.FreshReceipt(db.poll, c.vote, db.clock, c.salt);
    hide AllOk;
    hide IsRecord;
    hide BallotBox.Conserved;
    if Pointer(db.poll, r, c.token) && db.clock <= db.poll.ballots[c.token].expiresAt {
      assert Accepts(db, r, c);
    }
  }
}
