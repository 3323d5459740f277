/** What no step of the system ever takes back. */
module Evolution {
  import opened Schema
  import opened System
  import opened Moves

  /** One change of an election's status. */
  predicate Transition(from: ElectionStatus, to: ElectionStatus) {
    || (from == Draft && (to == PendingApproval || to == Cancelled))
    || (from == PendingApproval && (to == Scheduled || to == Cancelled))
    || (from == Scheduled && to == Active)
    || (from == Active && to == Closed)
  }

  function Rank(s: ElectionStatus): (n: nat)
    ensures n <= 4
  {
    match s
    case Draft => 0
    case PendingApproval => 1
    case Scheduled => 2
    case Active => 3
    case _ => 4
  }

  /** The line DRAFT, PENDING_APPROVAL, SCHEDULED, ACTIVE, CLOSED, which an election leaves only to
      CANCELLED and only from its first two places. */
  predicate Forward(from: ElectionStatus, to: ElectionStatus) {
    from == to || (Rank(from) < Rank(to) && (to == Closed || to == Cancelled || Rank(to) < 4)
                   && (to == Cancelled ==> Rank(from) <= 1))
  }

  predicate ElectionEvolves(x: Election, y: Election) {
    && Forward(x.status, y.status)
    && (x.status != Draft ==> x.startDate == y.startDate && x.endDate == y.endDate)
  }

  ghost predicate ElectionsEvolve(a: Gov, b: Gov) {
    forall e | e in a.elections :: e in b.elections && ElectionEvolves(a.elections[e], b.elections[e])
  }

  predicate PositionOf(g: Gov, p: PositionId, e: ElectionId) {
    p in g.positions && g.positions[p] == e
  }

  /** The positions of an election that has left DRAFT are fixed. */
  ghost predicate PositionsFrozen(a: Gov, b: Gov) {
    forall e, p | e in a.elections && a.elections[e].status != Draft :: PositionOf(a, p, e) <==> PositionOf(b, p, e)
  }

  ghost predicate StudentsKept(a: Gov, b: Gov) {
    forall u | u in a.students :: u in b.students && a.students[u] == b.students[u]
  }

  /** Of a candidate and of a request only the status changes. */
  ghost predicate CandidatesKept(a: Gov, b: Gov) {
    forall c | c in a.candidates ::
      c in b.candidates && a.candidates[c].(status := b.candidates[c].status) == b.candidates[c]
  }

  ghost predicate RequestsKept(a: Gov, b: Gov) {
    forall q | q in a.requests ::
      && q in b.requests && a.requests[q].(status := b.requests[q].status) == b.requests[q]
      && (a.requests[q].status != Pending ==> b.requests[q].status != Pending)
  }

  ghost predicate ApprovalsKept(a: Gov, b: Gov) {
    forall k | k in a.approvals :: k in b.approvals && a.approvals[k] == b.approvals[k]
  }

  predicate RegistrationEvolves(x: Registration, y: Registration) {
    && x.studentId == y.studentId && x.electionId == y.electionId
    && (x.status != RegistrationPending ==> x.status == y.status && x.verifiedBy == y.verifiedBy)
    && (x.participated ==> y.participated)
  }

  ghost predicate RollEvolves(a: Poll, b: Poll) {
    && (forall k | k in a.byStudent :: k in b.byStudent && a.byStudent[k] == b.byStudent[k])
    && (forall r | r in a.registrations ::
          r in b.registrations && RegistrationEvolves(a.registrations[r], b.registrations[r]))
  }

  ghost predicate BallotsEvolve(a: Poll, b: Poll) {
    forall t | t in a.ballots ::
      t in b.ballots && (b.ballots[t] == a.ballots[t] || b.ballots[t] == a.ballots[t].(used := true))
  }

  ghost predicate HistoryKept(a: Poll, b: Poll) {
    && (forall t | t in a.ballots && t in a.owner :: t in b.owner && a.owner[t] == b.owner[t])
    && (forall t | t in a.ballots && t in a.checkedAt :: t in b.checkedAt && a.checkedAt[t] == b.checkedAt[t])
    && (forall t | t in a.ballots :: t in a.stale <==> t in b.stale)
  }

  /** Votes and receipts are only ever added. */
  ghost predicate VotesKept(a: Poll, b: Poll) {
    && (forall v | v in a.votes :: v in b.votes && a.votes[v] == b.votes[v])
    && (forall x | x in a.receipts :: x in b.receipts && a.receipts[x] == b.receipts[x])
  }

  ghost predicate GovEvolves(a: Gov, b: Gov) {
    && ElectionsEvolve(a, b) && PositionsFrozen(a, b)
    && StudentsKept(a, b) && CandidatesKept(a, b) && RequestsKept(a, b) && ApprovalsKept(a, b)
  }

  ghost predicate PollEvolves(a: Poll, b: Poll) {
    RollEvolves(a, b) && BallotsEvolve(a, b) && HistoryKept(a, b) && VotesKept(a, b)
  }

  /** No registration is added for an election that can be voted in. */
  ghost predicate RollFrozen(a: Db, b: Db) {
    forall k | k in b.poll.byStudent && k.1 in a.gov.elections && !RegistrationOpen(a.gov.elections[k.1].status) ::
      k in a.poll.byStudent
  }

  ghost predicate Evolves(a: Db, b: Db) {
    && GovEvolves(a.gov, b.gov) && PollEvolves(a.poll, b.poll) && RollFrozen(a, b)
    && a.clock <= b.clock && a.log <= b.log
  }

  // ---------- one move ----------

  lemma GovMoveElections(db: Db, m: GovMove)
    requires GovEnabled(db, m)
    ensures ElectionsEvolve(db.gov, GovAfter(db.gov, m))
  {}

  lemma GovMovePosition(db: Db, m: GovMove, e: ElectionId, p: PositionId)
    requires GovEnabled(db, m) && e in db.gov.elections && db.gov.elections[e].status != Draft
    ensures PositionOf(db.gov, p, e) <==> PositionOf(GovAfter(db.gov, m), p, e)
  {
    if m.Created? {
      assert p !in m.positions * db.gov.positions.Keys;
    }
  }

  lemma GovMoveDecisions(db: Db, m: GovMove)
    requires GovEnabled(db, m)
    ensures RequestsKept(db.gov, GovAfter(db.gov, m)) && ApprovalsKept(db.gov, GovAfter(db.gov, m))
  {}

  lemma GovMovePeople(db: Db, m: GovMove)
    requires GovEnabled(db, m)
    ensures StudentsKept(db.gov, GovAfter(db.gov, m)) && CandidatesKept(db.gov, GovAfter(db.gov, m))
  {}

  lemma PollMoveEvolves(db: Db, m: PollMove)
    requires PollEnabled(db, m)
    ensures PollEvolves(db.poll, PollAfter(db.poll, db.clock, m))
  {}

  lemma PollMoveFreezes(db: Db, m: PollMove, k: (StudentId, ElectionId))
    requires PollEnabled(db, m)
    requires k in PollAfter(db.poll, db.clock, m).byStudent
    requires k.1 in db.gov.elections && !RegistrationOpen(db.gov.elections[k.1].status)
    ensures k in db.poll.byStudent
  {}

  lemma StepEvolves(s: Sevs, a: Action)
    ensures Evolves(s.db, Step(s, a).db)
  {
    var dt, g, p := StepMove(s, a);
    var db' := Step(s, a).db;
    hide Step;
    hide GovEnabled;
    hide PollEnabled;
    hide PollAfter;
    hide GovAfter;
    GovMoveElections(s.db, g);
    GovMoveDecisions(s.db, g);
    GovMovePeople(s.db, g);
    PollMoveEvolves(s.db, p);
    forall e, q | e in s.db.gov.elections && s.db.gov.elections[e].status != Draft
      ensures PositionOf(s.db.gov, q, e) <==> PositionOf(db'.gov, q, e)
    {
      GovMovePosition(s.db, g, e, q);
    }
    forall k | k in db'.poll.byStudent && k.1 in s.db.gov.elections && !RegistrationOpen(s.db.gov.elections[k.1].status)
      ensures k in s.db.poll.byStudent
    {
      PollMoveFreezes(s.db, p, k);
    }
  }

  lemma MoveTransition(db: Db, m: GovMove, e: ElectionId)
    requires GovEnabled(db, m) && e in db.gov.elections
    ensures
      var g := GovAfter(db.gov, m);
      && e in g.elections
      && (g.elections[e].status == db.gov.elections[e].status
          || Transition(db.gov.elections[e].status, g.elections[e].status))
  {}

  /** A status changes by one of the six transitions at a time. */
  lemma StepTransition(s: Sevs, a: Action, e: ElectionId)
    requires e in s.db.gov.elections
    ensures
      var db' := Step(s, a).db;
      && e in db'.gov.elections
      && (db'.gov.elections[e].status == s.db.gov.elections[e].status ||
          Transition(s.db.gov.elections[e].status, db'.gov.elections[e].status))
  {
    var dt, g, p := StepMove(s, a);
    hide Step;
    hide GovEnabled;
    hide GovAfter;
    hide PollAfter;
    hide Reports;
    MoveTransition(s.db, g, e);
  }

  // ---------- runs ----------

  lemma GovTransitive(a: Gov, b: Gov, c: Gov)
    requires GovEvolves(a, b) && GovEvolves(b, c)
    ensures GovEvolves(a, c)
  {
    forall e, p | e in a.elections && a.elections[e].status != Draft
      ensures PositionOf(a, p, e) <==> PositionOf(c, p, e)
    {
      assert b.elections[e].status != Draft;
      assert PositionOf(a, p, e) <==> PositionOf(b, p, e);
    }
  }

  lemma PollTransitive(a: Poll, b: Poll, c: Poll)
    requires PollEvolves(a, b) && PollEvolves(b, c)
    ensures PollEvolves(a, c)
  {}

  lemma RollTransitive(a: Db, b: Db, c: Db)
    requires ElectionsEvolve(a.gov, b.gov) && RollFrozen(a, b) && RollFrozen(b, c)
    ensures RollFrozen(a, c)
  {
    forall k | k in c.poll.byStudent && k.1 in a.gov.elections && !RegistrationOpen(a.gov.elections[k.1].status)
      ensures k in a.poll.byStudent
    {
      var e: ElectionId := k.1;
      assert e in a.gov.elections && ElectionEvolves(a.gov.elections[e], b.gov.elections[e]);
    }
  }

  /** Between any two points of a run, statuses only go forward, what left DRAFT keeps its dates and
      positions, the roll of an election is fixed once registration is over, and nothing that was
      decided, verified, issued or cast is changed. */
  lemma {:induction false} RunEvolves(run: seq<Action>, i: nat)
    requires i <= |run|
    ensures Evolves(After(run[..i]).db, After(run).db)
    decreases |run|
  {
    var a := After(run[..i]).db;
    if i == |run| {
      assert run[..i] == run;
      GovReflexive(a.gov);
    } else {
      var shorter := run[..|run| - 1];
      assert shorter[..i] == run[..i];
      RunEvolves(shorter, i);
      StepEvolves(After(shorter), run[|run| - 1]);
      var b, c := After(shorter).db, After(run).db;
      hide After;
      hide Step;
      GovTransitive(a.gov, b.gov, c.gov);
      PollTransitive(a.poll, b.poll, c.poll);
      RollTransitive(a, b, c);
      hide GovEvolves;
      hide PollEvolves;
      hide RollFrozen;
    }
  }

  lemma GovReflexive(g: Gov)
    ensures GovEvolves(g, g)
  {}

  /** How often the status of an election has changed in a run. */
  ghost function Changes(run: seq<Action>, e: ElectionId): nat {
    if run == [] then 0
    else
      var shorter := run[..|run| - 1];
      var a, b := After(shorter).db.gov.elections, After(run).db.gov.elections;
      Changes(shorter, e) + if e in a && e in b && a[e].status != b[e].status then 1 else 0
  }

  /** An election changes its status at most four times, however long the run. */
  lemma {:induction false} AtMostFourChanges(run: seq<Action>, e: ElectionId)
    ensures e !in After(run).db.gov.elections ==> Changes(run, e) == 0
    ensures e in After(run).db.gov.elections ==> Changes(run, e) <= Rank(After(run).db.gov.elections[e].status) <= 4
    decreases |run|
  {
    if run != [] {
      var shorter := run[..|run| - 1];
      AtMostFourChanges(shorter, e);
      StepEvolves(After(shorter), run[|run| - 1]);
      hide Step;
    }
  }
}
