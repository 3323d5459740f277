/** Approval votes taken one at a time are a fold: a request is decided by its first veto or its second
    approval, and then nothing changes it. */
module Tally {
  import opened Schema
  import Ballots
  import opened Approvals
  import opened System
  import opened Moves
  import opened Evolution
  import opened Quorum
  import opened Atomic

  /** Where a request stands. */
  datatype Standing = Standing(status: ApprovalStatus, approvers: set<UserId>, rejecters: set<UserId>)

  function StandingOf(g: Gov, q: RequestId): Standing
    requires q in g.requests
  {
    Standing(g.requests[q].status, Deciders(g.approvals, q, Approve), Deciders(g.approvals, q, Reject))
  }

  /** One vote: ignored if the request is decided, or the officer made it or has voted already. */
  function Cast(requester: UserId, x: Standing, officer: UserId, d: Decision): Standing {
    if x.status != Pending || officer == requester || officer in x.approvers + x.rejecters then x
    else if d == Reject then Standing(Rejected, x.approvers, x.rejecters + {officer})
    else
      var approvers := x.approvers + {officer};
      Standing(if |approvers| >= 2 then Approved else Pending, approvers, x.rejecters)
  }

  /** The votes on `q` among the calls, in order; all other calls leave `q` alone. */
  function CastAll(requester: UserId, x: Standing, q: RequestId, calls: seq<Call>): Standing {
    if calls == [] then x
    else
      var before := CastAll(requester, x, q, calls[..|calls| - 1]);
      var c := calls[|calls| - 1];
      if c.WholeApproval? && c.q == q then Cast(requester, before, c.officer, c.d) else before
  }

  /** Pending with at most one approval, approved by exactly two, or rejected by exactly one. */
  predicate Settled(x: Standing) {
    match x.status
    case Pending => |x.approvers| <= 1 && |x.rejecters| == 0
    case Approved => |x.approvers| == 2 && |x.rejecters| == 0
    case Rejected => |x.approvers| <= 1 && |x.rejecters| == 1
  }

  lemma CastSettles(requester: UserId, x: Standing, officer: UserId, d: Decision)
    requires Settled(x)
    ensures Settled(Cast(requester, x, officer, d))
  {}

  // ---------- one call ----------

  /** A vote inserted for `q` adds its officer to one side of `q`, and to nothing else. */
  lemma DecidersGrow(approvals: map<(RequestId, UserId), Decision>, q: RequestId,
                     officer: UserId, d: Decision,
        q': RequestId, d': Decision)
    requires (q, officer) !in approvals
    ensures
      var after := approvals[(q, officer) := d];
      Deciders(after, q', d') == Deciders(approvals, q', d') + if q' == q && d' == d then {officer} else {}
  {
    var after := approvals[(q, officer) := d];
    var grown := if q' == q && d' == d then {officer} else {};
    forall o ensures o in Deciders(after, q', d') <==> o in Deciders(approvals, q', d') + grown {
      assert o in Deciders(after, q', d') <==>
             (q', o) in after && after[(q', o)] == d' by { Decided(after, q', o, d'); }
      assert o in Deciders(approvals, q', d') <==>
             (q', o) in approvals && approvals[(q', o)] == d' by { Decided(approvals, q', o, d'); }
    }
  }

  /** The approval vote, step by step, comes to one of three ends. */
  lemma VoteRuns(db: Db, q: RequestId, officer: UserId, d: Decision)
    ensures
      var db' := CastApprovalEffect(db, q, officer, d).0;
      var inserted := db.(gov := db.gov.(approvals := db.gov.approvals[(q, officer) := d]));
      var approvers := Deciders(inserted.gov.approvals, q, Approve);
      var rejecters := Deciders(inserted.gov.approvals, q, Reject);
      if q !in db.gov.requests || db.gov.requests[q].status != Pending || db.gov.requests[q].requestedBy == officer
         || (q, officer) in db.gov.approvals then db' == db
      else if |rejecters| >= 1 then db' == ResolveEffect(inserted, q, false).0
      else if |approvers| >= 2 then db' == ResolveEffect(inserted, q, true).0
      else db' == inserted
  {
    hide ResolveEffect;
    hide Deciders;
    var c := ApprovalCall(q, officer, d, Check);
    var (db1, c1) := ApprovalStep(db, c);
    assert RunApproval(db, c) == RunApproval(db1, c1);
    var (db2, c2) := ApprovalStep(db1, c1);
    assert RunApproval(db1, c1) == RunApproval(db2, c2);
    var (db3, c3) := ApprovalStep(db2, c2);
    assert RunApproval(db2, c2) == RunApproval(db3, c3);
    var (db4, c4) := ApprovalStep(db3, c3);
    assert RunApproval(db3, c3) == RunApproval(db4, c4);
  }

  lemma ResolveMarks(db: Db, q: RequestId, approved: bool)
    requires q in db.gov.requests && ResolveEffect(db, q, approved).1.Ok?
    ensures
      var g := ResolveEffect(db, q, approved).0.gov;
      && g.approvals == db.gov.approvals
      && g.requests == db.gov.requests[q := db.gov.requests[q].(status := if approved then Approved else Rejected)]
  {}

  /** The vote is refused, and changes nothing. */
  predicate VoteRefused(g: Gov, q: RequestId, officer: UserId) {
    || q !in g.requests || g.requests[q].status != Pending || g.requests[q].requestedBy == officer
    || (q, officer) in g.approvals
  }

  function Verdict(approvers: nat, rejecters: nat): ApprovalStatus {
    if rejecters >= 1 then Rejected else if approvers >= 2 then Approved else Pending
  }

  /** A vote that is not refused leaves the request with the verdict of the new tally. */
  ghost predicate VoteEnded(g: Gov, q: RequestId, officer: UserId, d: Decision, g': Gov) {
    var approvals := g.approvals[(q, officer) := d];
    if VoteRefused(g, q, officer) then g' == g
    else
      && g'.approvals == approvals
      && g'.requests == g.requests[q := g.requests[q].(
           status := Verdict(|Deciders(approvals, q, Approve)|, |Deciders(approvals, q, Reject)|))]
  }

  lemma VoteEnds(db: Db, q: RequestId, officer: UserId, d: Decision)
    requires GovOk(db.gov)
    ensures VoteEnded(db.gov, q, officer, d, CastApprovalEffect(db, q, officer, d).0.gov)
  {
    VoteRuns(db, q, officer, d);
    if !VoteRefused(db.gov, q, officer) {
      var inserted := db.(gov := db.gov.(approvals := db.gov.approvals[(q, officer) := d]));
      assert RequestOk(db.gov, q) && RequestOk(inserted.gov, q);
      DispatchNeverFails(inserted, q, true);
      DispatchNeverFails(inserted, q, false);
      ResolveMarks(inserted, q, true);
      ResolveMarks(inserted, q, false);
      assert db.gov.requests[q := db.gov.requests[q].(status := Pending)] == db.gov.requests;
    }
    hide GovOk;
    hide RequestOk;
    hide Deciders;
    hide CastApprovalEffect;
    hide ResolveEffect;
  }

  lemma VoteFolds(g: Gov, q: RequestId, officer: UserId, d: Decision, g': Gov)
    requires VoteEnded(g, q, officer, d, g') && q in g.requests && Settled(StandingOf(g, q))
    ensures q in g'.requests
    ensures StandingOf(g', q) == Cast(g.requests[q].requestedBy, StandingOf(g, q), officer, d)
  {
    hide Deciders;
    Decided(g.approvals, q, officer, Approve);
    Decided(g.approvals, q, officer, Reject);
    if !VoteRefused(g, q, officer) {
      DecidersGrow(g.approvals, q, officer, d, q, Approve);
      DecidersGrow(g.approvals, q, officer, d, q, Reject);
      var x := StandingOf(g, q);
      assert StandingOf(g', q).approvers == if d == Approve then x.approvers + {officer} else x.approvers;
      assert StandingOf(g', q).rejecters == if d == Reject then x.rejecters + {officer} else x.rejecters;
    }
  }

  lemma VoteSpares(g: Gov, q: RequestId, officer: UserId, d: Decision, g': Gov, other: RequestId)
    requires VoteEnded(g, q, officer, d, g') && other in g.requests && other != q
    ensures other in g'.requests && StandingOf(g', other) == StandingOf(g, other)
  {
    hide Deciders;
    if !VoteRefused(g, q, officer) {
      DecidersGrow(g.approvals, q, officer, d, other, Approve);
      DecidersGrow(g.approvals, q, officer, d, other, Reject);
    }
  }

  // ---------- every run of atomic calls ----------

  ghost predicate AllSettled(g: Gov) {
    forall q | q in g.requests :: Settled(StandingOf(g, q))
  }

  lemma MoveSpares(db: Db, m: GovMove, q: RequestId)
    requires GovEnabled(db, m) && !m.Decides? && !m.Marked? && !m.ElectionPasses? && !m.CandidatePasses?
    ensures
      var g, g' := db.gov, GovAfter(db.gov, m);
      && g'.approvals == g.approvals
      && (q in g.requests ==> q in g'.requests && g'.requests[q] == g.requests[q])
      && (q in g'.requests && q !in g.requests ==> g'.requests[q].status == Pending)
  {}

  lemma NoDeciders(g: Gov, q: RequestId, d: Decision)
    requires GovOk(g) && q !in g.requests
    ensures Deciders(g.approvals, q, d) == {}
  {
    hide RequestOk;
    hide ElectionOk;
    hide CandidateOk;
    forall o ensures o !in Deciders(g.approvals, q, d) {
      Decided(g.approvals, q, o, d);
      assert (q, o) in g.approvals ==> ApprovalOk(g, (q, o));
    }
  }

  /** A command decides nothing: old requests stand as they did, new ones stand open. */
  lemma CommandSpares(db: Db, c: Command, q: RequestId)
    requires GovOk(db.gov) && q in Execute(db, c).gov.requests
    ensures
      var g := Execute(db, c).gov;
      && (q in db.gov.requests ==>
            g.requests[q].requestedBy == db.gov.requests[q].requestedBy && StandingOf(g, q) == StandingOf(db.gov, q))
      && (q !in db.gov.requests ==> StandingOf(g, q) == Standing(Pending, {}, {}))
  {
    hide Execute;
    hide GovOk;
    hide Deciders;
    hide GovEnabled;
    hide GovAfter;
    hide PollAfter;
    hide PollEnabled;
    hide Reports;
    var dt, g, m := StepMove(Sevs(db, map[], map[]), Do(c));
    MoveSpares(db, g, q);
    if q !in db.gov.requests {
      NoDeciders(db.gov, q, Approve);
      NoDeciders(db.gov, q, Reject);
    }
  }

  /** One call of any kind: a vote on `q` is one step of the fold, every other call none. */
  lemma CallFolds(db: Db, c: Call, q: RequestId)
    requires GovOk(db.gov) && AllSettled(db.gov) && q in db.gov.requests
    ensures
      var g := Perform(db, c).gov;
      && q in g.requests && g.requests[q].requestedBy == db.gov.requests[q].requestedBy
      && StandingOf(g, q) ==
           if c.WholeApproval? && c.q == q then
             Cast(db.gov.requests[q].requestedBy, StandingOf(db.gov, q), c.officer, c.d)
           else StandingOf(db.gov, q)
  {
    hide GovOk;
    hide Deciders;
    hide Execute;
    hide Cast;
    match c {
      case Single(command) =>
        StepEvolves(Sevs(db, map[], map[]), Do(command));
        CommandSpares(db, command, q);
      case WholeRequest(user, e, uuid) =>
        RequestSpares(db, Ballots.RequestCall(user, e, Ballots.FindStudent), uuid);
      case WholeApproval(q', officer, d) =>
        hide CastApprovalEffect;
        VoteEnds(db, q', officer, d);
        var g := Perform(db, c).gov;
        if q == q' {
          VoteFolds(db.gov, q, officer, d, g);
        } else {
          VoteSpares(db.gov, q', officer, d, g, q);
        }
    }
  }

  lemma {:induction false} RequestSpares(db: Db, c: Ballots.RequestCall, uuid: Token)
    ensures Ballots.RunRequest(db, c, uuid).0.gov == db.gov
    decreases Ballots.StepsLeft(c.phase)
  {
    if !c.phase.Finished? {
      var p := RequestMove(db, c, uuid);
      RequestCloser(db, c, uuid);
      var (db', c') := Ballots.RequestStep(db, c, uuid);
      hide Ballots.RequestStep;
      RequestSpares(db', c', uuid);
    }
  }

  lemma CallSettles(db: Db, c: Call)
    requires GovOk(db.gov) && AllSettled(db.gov)
    ensures AllSettled(Perform(db, c).gov)
  {
    hide GovOk;
    hide Deciders;
    hide Execute;
    hide CastApprovalEffect;
    hide Ballots.RunRequest;
    var g := Perform(db, c).gov;
    forall q | q in g.requests ensures Settled(StandingOf(g, q)) {
      if q in db.gov.requests {
        CallFolds(db, c, q);
        if c.WholeApproval? && c.q == q {
          CastSettles(db.gov.requests[q].requestedBy, StandingOf(db.gov, q), c.officer, c.d);
        }
      } else {
        match c {
          case Single(command) => CommandSpares(db, command, q);
          case WholeRequest(user, e, uuid) =>
            RequestSpares(db, Ballots.RequestCall(user, e, Ballots.FindStudent), uuid);
          case WholeApproval(q', officer, d) => VoteEnds(db, q', officer, d);
        }
      }
    }
  }

  /** In every run of atomic calls a request is pending with no rejection and at most one approval,
      approved with exactly two approvals and no rejection, or rejected with exactly one rejection
      and at most one approval. */
  lemma {:induction false} RequestsSettled(calls: seq<Call>, q: RequestId)
    requires q in AfterCalls(calls).gov.requests
    ensures
      var x := StandingOf(AfterCalls(calls).gov, q);
      && (x.status == Pending <==> |x.rejecters| == 0 && |x.approvers| < 2)
      && (x.status == Approved <==> |x.rejecters| == 0 && |x.approvers| == 2)
      && (x.status == Rejected <==> |x.rejecters| == 1 && |x.approvers| <= 1)
  {
    RunSettled(calls);
    hide AfterCalls;
    hide Deciders;
    assert Settled(StandingOf(AfterCalls(calls).gov, q));
  }

  lemma {:induction false} RunSettled(calls: seq<Call>)
    ensures AllSettled(AfterCalls(calls).gov) && GovOk(AfterCalls(calls).gov)
    decreases |calls|
  {
    AtomicIsInterleaved(calls);
    RunGoverned(SpelledOut(calls));
    hide After;
    hide GovOk;
    if calls != [] {
      var shorter := calls[..|calls| - 1];
      RunSettled(shorter);
      CallSettles(AfterCalls(shorter), calls[|calls| - 1]);
      hide AllSettled;
      hide Perform;
    }
  }

  /** Whatever calls follow, a request stands where the fold of the votes on it says: duplicates, votes
      of the requester and votes that come too late change nothing. */
  lemma {:induction false} VotesAreAFold(calls: seq<Call>, more: seq<Call>, q: RequestId)
    requires q in AfterCalls(calls).gov.requests
    ensures
      var g, g' := AfterCalls(calls).gov, AfterCalls(calls + more).gov;
      && q in g'.requests && g'.requests[q].requestedBy == g.requests[q].requestedBy
      && StandingOf(g', q) == CastAll(g.requests[q].requestedBy, StandingOf(g, q), q, more)
    decreases |more|
  {
    hide Deciders;
    hide Perform;
    hide Cast;
    if more == [] {
      assert calls + more == calls;
    } else {
      var shorter, c := more[..|more| - 1], more[|more| - 1];
      VotesAreAFold(calls, shorter, q);
      RunSettled(calls + shorter);
      assert (calls + more)[..|calls + more| - 1] == calls + shorter;
      CallsUnfold(calls + more);
      CallFolds(AfterCalls(calls + shorter), c, q);
      hide AfterCalls;
      hide GovOk;
    }
  }

  lemma {:induction false} FoldKeepsDecided(requester: UserId, x: Standing, q: RequestId, calls: seq<Call>)
    requires x.status != Pending
    ensures CastAll(requester, x, q, calls) == x
    decreases |calls|
  {
    if calls != [] {
      FoldKeepsDecided(requester, x, q, calls[..|calls| - 1]);
    }
  }

  /** Once its verdict has fallen, a request stands as it does for good, whatever calls follow: neither its
      status changes any more nor the votes on it. */
  lemma {:induction false} DecidedForGood(calls: seq<Call>, more: seq<Call>, q: RequestId)
    requires q in AfterCalls(calls).gov.requests && AfterCalls(calls).gov.requests[q].status != Pending
    ensures
      && q in AfterCalls(calls + more).gov.requests
      && StandingOf(AfterCalls(calls + more).gov, q) == StandingOf(AfterCalls(calls).gov, q)
  {
    var g := AfterCalls(calls).gov;
    VotesAreAFold(calls, more, q);
    FoldKeepsDecided(g.requests[q].requestedBy, StandingOf(g, q), q, more);
    hide AfterCalls;
  }
}
