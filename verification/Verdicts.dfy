/** When the decision of an approval request stands, in every interleaving of approval votes. */
module Verdicts {
  import opened Schema
  import opened Approvals
  import opened System
  import opened Moves
  import opened Quorum
  import Tally

  /** Step `i` is an approval vote that resolves the request. */
  ghost predicate Resolves(run: seq<Action>, i: nat, q: RequestId, approved: bool) {
    i < |run| && ResolvesNow(After(run[..i]), run[i], q, approved)
  }

  ghost predicate ResolvesNow(s: Sevs, a: Action, q: RequestId, approved: bool) {
    && a.AdvanceApproval? && a.id in s.approving
    && s.approving[a.id].request == q && s.approving[a.id].phase.Resolve?
    && s.approving[a.id].phase.approved == approved
  }

  function VerdictOf(approved: bool): ApprovalStatus {
    if approved then Approved else Rejected
  }

  ghost function StatusOf(s: Sevs, q: RequestId): ApprovalStatus {
    if q in s.db.gov.requests then s.db.gov.requests[q].status else Pending
  }

  // ---------- one step ----------

  lemma ResolvingStep(s: Sevs, a: Action, q: RequestId, approved: bool)
    requires Governed(s) && ResolvesNow(s, a, q, approved)
    ensures
      var g := Step(s, a).db.gov;
      && q in s.db.gov.requests
      && g.requests == s.db.gov.requests[q := s.db.gov.requests[q].(status := VerdictOf(approved))]
  {
    var c := s.approving[a.id];
    assert ApprovalCallOk(s.db.gov, c);
    assert RequestOk(s.db.gov, q);
    DispatchNeverFails(s.db, q, approved);
    Tally.ResolveMarks(s.db, q, approved);
    hide ResolveEffect;
    hide GovOk;
  }

  lemma MoveKeepsStatus(db: Db, m: GovMove, q: RequestId)
    requires GovEnabled(db, m) && !m.Marked? && !m.ElectionPasses? && !m.CandidatePasses?
    ensures
      var g, g' := db.gov, GovAfter(db.gov, m);
      && (q in g.requests ==> q in g'.requests && g'.requests[q].status == g.requests[q].status)
      && (q in g'.requests && q !in g.requests ==> g'.requests[q].status == Pending)
  {}

  /** A status changes only by a vote that resolves the request, and then to the verdict of that vote. */
  lemma StatusStep(s: Sevs, a: Action, q: RequestId)
    requires Governed(s)
    ensures
      StatusOf(Step(s, a), q) ==
        if ResolvesNow(s, a, q, true) then Approved
        else if ResolvesNow(s, a, q, false) then Rejected
        else StatusOf(s, q)
  {
    if a.AdvanceApproval? && a.id in s.approving && s.approving[a.id].phase.Resolve? {
      ResolvingStep(s, a, s.approving[a.id].request, s.approving[a.id].phase.approved);
      hide Step;
    } else {
      var dt, g, m := StepMove(s, a);
      hide Step;
      hide GovAfter;
      hide GovEnabled;
      hide PollEnabled;
      hide PollAfter;
      hide Reports;
      MoveKeepsStatus(s.db, g, q);
    }
    hide Governed;
  }

  /** A decided request changes its status exactly if a vote resolves it that was tallied to the other
      verdict. */
  lemma {:induction false} DecidedChangesIffStale(run: seq<Action>, a: Action, q: RequestId)
    requires StatusOf(After(run), q) != Pending
    ensures
      StatusOf(Step(After(run), a), q) != StatusOf(After(run), q) <==>
        exists approved :: ResolvesNow(After(run), a, q, approved) && VerdictOf(approved) != StatusOf(After(run), q)
  {
    RunGoverned(run);
    StatusStep(After(run), a, q);
    hide After;
    hide Step;
    hide Governed;
    assert VerdictOf(true) == Approved && VerdictOf(false) == Rejected;
    if ResolvesNow(After(run), a, q, true) {
      assert !ResolvesNow(After(run), a, q, false);
    }
  }

  // ---------- runs ----------

  ghost predicate ResolvesAtAll(run: seq<Action>, i: nat, q: RequestId) {
    Resolves(run, i, q, true) || Resolves(run, i, q, false)
  }

  /** Step `j` resolves the request, and no later step does. */
  ghost predicate ResolvesLast(run: seq<Action>, j: nat, q: RequestId, approved: bool) {
    Resolves(run, j, q, approved) && forall k: nat | j < k :: !ResolvesAtAll(run, k, q)
  }

  lemma ResolvesInPrefix(run: seq<Action>, q: RequestId)
    requires run != []
    ensures forall i: nat, approved | i < |run| - 1 ::
              Resolves(run[..|run| - 1], i, q, approved) <==> Resolves(run, i, q, approved)
  {
    Prefixes(run);
    hide ResolvesNow;
    hide After;
    hide Step;
  }

  lemma LastInPrefix(run: seq<Action>, j: nat, q: RequestId, approved: bool)
    requires run != []
    ensures
      var shorter, n := run[..|run| - 1], |run| - 1;
      ResolvesLast(run, j, q, approved) <==>
        (j == n && Resolves(run, n, q, approved)) ||
        (!ResolvesAtAll(run, n, q) && ResolvesLast(shorter, j, q, approved))
  {
    var shorter, n := run[..|run| - 1], |run| - 1;
    ResolvesInPrefix(run, q);
    hide ResolvesNow;
    hide After;
    hide Step;
    if ResolvesLast(run, j, q, approved) && j != n {
      assert !ResolvesAtAll(run, n, q);
      forall k: nat | j < k ensures !ResolvesAtAll(shorter, k, q) {
        assert !ResolvesAtAll(run, k, q);
      }
    }
    if !ResolvesAtAll(run, n, q) && ResolvesLast(shorter, j, q, approved) {
      forall k: nat | j < k ensures !ResolvesAtAll(run, k, q) {
        assert !ResolvesAtAll(shorter, k, q);
      }
    }
  }

  ghost predicate ResolvedEver(run: seq<Action>, q: RequestId) {
    exists i: nat :: ResolvesAtAll(run, i, q)
  }

  ghost predicate LastIs(run: seq<Action>, q: RequestId, approved: bool) {
    exists j: nat :: ResolvesLast(run, j, q, approved)
  }

  lemma LastExtends(run: seq<Action>, q: RequestId, approved: bool)
    requires run != []
    ensures
      var shorter, n := run[..|run| - 1], |run| - 1;
      LastIs(run, q, approved) <==>
        Resolves(run, n, q, approved) || (!ResolvesAtAll(run, n, q) && LastIs(shorter, q, approved))
  {
    hide ResolvesLast;
    hide Resolves;
    hide ResolvesAtAll;
    var shorter, n := run[..|run| - 1], |run| - 1;
    forall j: nat
      ensures ResolvesLast(run, j, q, approved) <==>
              (j == n && Resolves(run, n, q, approved)) ||
              (!ResolvesAtAll(run, n, q) && ResolvesLast(shorter, j, q, approved))
    {
      LastInPrefix(run, j, q, approved);
    }
    assert ResolvesLast(run, n, q, approved) || !Resolves(run, n, q, approved);
  }

  lemma EverExtends(run: seq<Action>, q: RequestId)
    requires run != []
    ensures ResolvedEver(run, q) <==> ResolvesAtAll(run, |run| - 1, q) || ResolvedEver(run[..|run| - 1], q)
  {
    ResolvesInPrefix(run, q);
    hide ResolvesNow;
    hide After;
    var shorter, n := run[..|run| - 1], |run| - 1;
    forall i: nat ensures ResolvesAtAll(run, i, q) <==>
      (i == n && ResolvesAtAll(run, n, q)) || ResolvesAtAll(shorter, i, q) {}
    hide ResolvesAtAll;
    if ResolvedEver(shorter, q) {
      var i: nat :| ResolvesAtAll(shorter, i, q);
      assert ResolvesAtAll(run, i, q);
    }
  }

  lemma {:induction false} ResolvesAtEnd(run: seq<Action>, q: RequestId, approved: bool)
    requires run != []
    ensures Resolves(run, |run| - 1, q, approved) <==> ResolvesNow(After(run[..|run| - 1]), run[|run| - 1], q, approved)
  {}

  /** In every run: a request is pending if no vote has resolved it, and otherwise has the verdict of the
      vote that resolved it last. */
  lemma {:induction false} LastVerdictStands(run: seq<Action>, q: RequestId)
    ensures StatusOf(After(run), q) == Pending <==> !ResolvedEver(run, q)
    ensures StatusOf(After(run), q) == Approved <==> LastIs(run, q, true)
    ensures StatusOf(After(run), q) == Rejected <==> LastIs(run, q, false)
    decreases |run|
  {
    if run == [] {
      assert StatusOf(START, q) == Pending;
    } else {
      var shorter := run[..|run| - 1];
      LastVerdictStands(shorter, q);
      Prefixes(run);
      RunGoverned(shorter);
      hide *;
      StatusStep(After(shorter), run[|run| - 1], q);
      LastExtends(run, q, true);
      LastExtends(run, q, false);
      EverExtends(run, q);
      ResolvesAtEnd(run, q, true);
      ResolvesAtEnd(run, q, false);
      OneVerdict(run, |run| - 1, q);
      EitherVerdict(run, |run| - 1, q);
    }
  }

  lemma OneVerdict(run: seq<Action>, i: nat, q: RequestId)
    ensures !(Resolves(run, i, q, true) && Resolves(run, i, q, false))
  {}

  lemma EitherVerdict(run: seq<Action>, i: nat, q: RequestId)
    ensures ResolvesAtAll(run, i, q) <==> Resolves(run, i, q, true) || Resolves(run, i, q, false)
  {}

  // ---------- decisions that are overtaken ----------

  /** Step `i` resolves the request with approval and changes its election or its candidate. */
  ghost predicate TakesEffect(run: seq<Action>, i: nat, q: RequestId) {
    && Resolves(run, i, q, true)
    && var a, b := After(run[..i]).db.gov, After(run[..i + 1]).db.gov;
       a.elections != b.elections || a.candidates != b.candidates
  }

  /** A request ends rejected although it took effect exactly if a rejection that was tallied in time is
      resolved after the approval, as the last resolution. */
  lemma {:induction false} RejectedDespiteEffect(run: seq<Action>, q: RequestId)
    ensures
      StatusOf(After(run), q) == Rejected && (exists i: nat :: TakesEffect(run, i, q)) <==>
        exists i: nat, j: nat :: i < j && TakesEffect(run, i, q) && ResolvesLast(run, j, q, false)
  {
    LastVerdictStands(run, q);
    hide After;
    hide StatusOf;
    if LastIs(run, q, false) && exists i: nat :: TakesEffect(run, i, q) {
      var i: nat :| TakesEffect(run, i, q);
      var j: nat :| ResolvesLast(run, j, q, false);
      OneVerdict(run, i, q);
      assert ResolvesAtAll(run, i, q);
      assert i < j;
    }
  }

  /** A request ends approved although it was vetoed exactly if an approval is resolved after the veto, as
      the last resolution. */
  lemma {:induction false} ApprovedDespiteVeto(run: seq<Action>, q: RequestId)
    ensures
      StatusOf(After(run), q) == Approved && (exists i: nat :: Resolves(run, i, q, false)) <==>
        exists i: nat, j: nat :: i < j && Resolves(run, i, q, false) && ResolvesLast(run, j, q, true)
  {
    LastVerdictStands(run, q);
    hide After;
    hide StatusOf;
    if LastIs(run, q, true) && exists i: nat :: Resolves(run, i, q, false) {
      var i: nat :| Resolves(run, i, q, false);
      var j: nat :| ResolvesLast(run, j, q, true);
      OneVerdict(run, i, q);
      assert ResolvesAtAll(run, i, q);
      assert i < j;
    }
  }

  // ---------- decisions that stand ----------

  /** Once decided, the request has the same status ever after. */
  ghost predicate Stands(run: seq<Action>, q: RequestId) {
    forall i: nat, j: nat | i <= j <= |run| && StatusOf(After(run[..i]), q) != Pending ::
      StatusOf(After(run[..j]), q) == StatusOf(After(run[..i]), q)
  }

  /** All votes that resolve the request have one verdict. */
  ghost predicate Unanimous(run: seq<Action>, q: RequestId) {
    forall i: nat, j: nat :: !(Resolves(run, i, q, true) && Resolves(run, j, q, false))
  }

  lemma {:induction false} StatusAfter(run: seq<Action>, i: nat, q: RequestId, approved: bool)
    requires Resolves(run, i, q, approved)
    ensures StatusOf(After(run[..i + 1]), q) == VerdictOf(approved)
  {
    var upTo := run[..i + 1];
    Prefixes(upTo);
    assert upTo[..i] == run[..i];
    RunGoverned(run[..i]);
    StatusStep(After(run[..i]), run[i], q);
    hide After;
    hide Step;
    hide Governed;
  }

  lemma ResolvesBefore(run: seq<Action>, i: nat, j: nat, q: RequestId, approved: bool)
    requires j < i <= |run|
    ensures Resolves(run[..i], j, q, approved) <==> Resolves(run, j, q, approved)
  {
    assert run[..i][..j] == run[..j];
    hide After;
    hide ResolvesNow;
  }

  /** A decision stands in a run exactly if no vote resolves the request to the other verdict. */
  lemma StandsIffUnanimous(run: seq<Action>, q: RequestId)
    ensures Stands(run, q) <==> Unanimous(run, q)
  {
    hide After;
    hide StatusOf;
    if Stands(run, q) {
      forall i: nat, j: nat ensures !(Resolves(run, i, q, true) && Resolves(run, j, q, false)) {
        if Resolves(run, i, q, true) && Resolves(run, j, q, false) {
          StatusAfter(run, i, q, true);
          StatusAfter(run, j, q, false);
        }
      }
    }
    if Unanimous(run, q) {
      forall i: nat, j: nat | i <= j <= |run| && StatusOf(After(run[..i]), q) != Pending
        ensures StatusOf(After(run[..j]), q) == StatusOf(After(run[..i]), q)
      {
        SameVerdict(run, i, j, q);
      }
    }
  }

  lemma {:induction false} SameVerdict(run: seq<Action>, i: nat, j: nat, q: RequestId)
    requires Unanimous(run, q) && i <= j <= |run| && StatusOf(After(run[..i]), q) != Pending
    ensures StatusOf(After(run[..j]), q) == StatusOf(After(run[..i]), q)
  {
    var a, b := run[..i], run[..j];
    LastVerdictStands(a, q);
    LastVerdictStands(b, q);
    hide After;
    hide StatusOf;
    hide Resolves;
    var v := StatusOf(After(a), q) == Approved;
    var m: nat :| ResolvesLast(a, m, q, v);
    assert m < |a| by { InRun(a, m, q, v); }
    ResolvesBefore(run, i, m, q, v);
    ResolvesBefore(run, j, m, q, v);
    assert ResolvesAtAll(b, m, q);
    var w := StatusOf(After(b), q) == Approved;
    var n: nat :| ResolvesLast(b, n, q, w);
    assert n < |b| by { InRun(b, n, q, w); }
    ResolvesBefore(run, j, n, q, w);
    assert v == w;
  }

  lemma InRun(run: seq<Action>, i: nat, q: RequestId, approved: bool)
    ensures Resolves(run, i, q, approved) ==> i < |run|
  {}
}
