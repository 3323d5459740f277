/** The services that the system takes as one action although they check in one call and write in
    another: with check and write as separate steps they interleave with one another and with every step
    of the system. */
module SplitCalls {
  import opened JsText
  import opened Schema
  import opened Elections
  import opened System
  import opened Approvals
  import opened Ballots
  import opened Evolution
  import opened RowCalls

  datatype StatusPhase = CheckStatus | CreateRequest | WriteStatus | Over(error: Option<Error>)

  /** One call of `submitElection`, `cancelElection`, `activateElection` or `initiateClose`. */
  datatype StatusCall = StatusCall(t: Elections.Transition, e: ElectionId, actor: UserId,
                                   q: RequestId, phase: StatusPhase)

  /** What the call writes as status. */
  function Target(t: Elections.Transition): ElectionStatus {
    match t
    case Submit => PendingApproval
    case Cancel => Cancelled
    case Activate => Active
    case Close => Active
  }

  function StatusStep(db: Db, c: StatusCall): (Db, StatusCall) {
    match c.phase
    case CheckStatus =>
      var error := TransitionError(db, c.e, c.t);
      if error.Some? then (db, c.(phase := Over(error)))
      else (db, c.(phase := if c.t == Submit || c.t == Close then CreateRequest else WriteStatus))
    case CreateRequest =>
      if c.q in db.gov.requests then (db, c.(phase := Over(Some(ConstraintViolation))))
      else
        var action := if c.t == Close then ElectionClose else ElectionActivate;
        (WithRequest(db, c.q, Request(action, c.actor, Some(c.e), None, Pending)),
         c.(phase := if c.t == Close then Over(None) else WriteStatus))
    case WriteStatus =>
      if c.e !in db.gov.elections then (db, c.(phase := Over(Some(NotFound))))
      else
        var written := WithStatus(db, c.e, Target(c.t));
        var event := ElectionActivated(c.e, Scheduled);
        (if c.t == Activate then Logged(written, ByUser(c.actor), event) else written, c.(phase := Over(None)))
    case Over(_) => (db, c)
  }

  /** The call run to its end without interruption. */
  function Alone(db: Db, c: StatusCall): (Db, StatusPhase) {
    var (db1, c1) := StatusStep(db, c);
    var (db2, c2) := StatusStep(db1, c1);
    var (db3, c3) := StatusStep(db2, c2);
    (db3, c3.phase)
  }

  function Ended(outcome: (Db, Result<()>)): (Db, StatusPhase) {
    (outcome.0, Over(if outcome.1.Err? then Some(outcome.1.error) else None))
  }

  /** Alone, the steps do and answer what the service does and answers as one action. */
  lemma AloneIsAtomic(db: Db, e: ElectionId, actor: UserId, q: RequestId)
    ensures Alone(db, StatusCall(Submit, e, actor, q, CheckStatus)) == Ended(SubmitElectionEffect(db, e, actor, q))
    ensures Alone(db, StatusCall(Cancel, e, actor, q, CheckStatus)) == Ended(CancelElectionEffect(db, e))
    ensures Alone(db, StatusCall(Activate, e, actor, q, CheckStatus)) == Ended(ActivateElectionEffect(db, e, actor))
    ensures Alone(db, StatusCall(Close, e, actor, q, CheckStatus)) == Ended(InitiateCloseEffect(db, e, actor, q))
  {}

  // ---------- interleaved with the system ----------

  datatype WideAction =
    | Base(action: Action)
    | BeginStatus(id: CallId, t: Elections.Transition, e: ElectionId, actor: UserId, q: RequestId)
    | AdvanceStatus(id: CallId)
    | BeginRow(id: CallId, op: RowOp)
    | AdvanceRow(id: CallId)

  datatype Wide = Wide(sevs: Sevs, calls: map<CallId, StatusCall>, rows: map<CallId, RowCall>)

  ghost function WideStep(s: Wide, x: WideAction): Wide {
    match x
    case Base(a) => s.(sevs := Step(s.sevs, a))
    case BeginStatus(id, t, e, actor, q) =>
      if id in s.calls then s else s.(calls := s.calls[id := StatusCall(t, e, actor, q, CheckStatus)])
    case AdvanceStatus(id) =>
      if id !in s.calls then s
      else
        var (db, c) := StatusStep(s.sevs.db, s.calls[id]);
        s.(sevs := s.sevs.(db := db), calls := s.calls[id := c])
    case BeginRow(id, op) =>
      if id in s.rows then s else s.(rows := s.rows[id := RowCall(op, CheckRow)])
    case AdvanceRow(id) =>
      if id !in s.rows then s
      else
        var (db, c) := RowStep(s.sevs.db, s.rows[id]);
        s.(sevs := s.sevs.(db := db), rows := s.rows[id := c])
  }

  ghost function WideAfter(run: seq<WideAction>): Wide {
    if run == [] then Wide(START, map[], map[]) else WideStep(WideAfter(run[..|run| - 1]), run[|run| - 1])
  }

  /** The step writes a status that its check would no longer allow. */
  ghost predicate StaleWrite(s: Wide, x: WideAction) {
    && x.AdvanceStatus? && x.id in s.calls
    && var c := s.calls[x.id];
       && c.phase.WriteStatus? && c.t != Close && c.e in s.sevs.db.gov.elections
       && TransitionError(s.sevs.db, c.e, c.t).Some? && s.sevs.db.gov.elections[c.e].status != Target(c.t)
  }

  /** No election changes its status except by one of the six transitions. */
  ghost predicate OneTransition(a: Gov, b: Gov) {
    forall e | e in a.elections ::
      && e in b.elections
      && (b.elections[e].status == a.elections[e].status
          || Evolution.Transition(a.elections[e].status, b.elections[e].status))
  }

  /** Calls to close an election write no status. */
  ghost predicate CallsOk(s: Wide) {
    forall id | id in s.calls && s.calls[id].phase.WriteStatus? :: s.calls[id].t != Close
  }

  lemma StepKeepsCalls(s: Wide, x: WideAction)
    requires CallsOk(s)
    ensures CallsOk(WideStep(s, x))
  {
    hide Step;
    hide TransitionError;
    hide WithStatus;
    hide RowStep;
  }

  lemma {:induction false} RunKeepsCalls(run: seq<WideAction>)
    ensures CallsOk(WideAfter(run))
    decreases |run|
  {
    if run != [] {
      RunKeepsCalls(run[..|run| - 1]);
      hide CallsOk;
      hide WideStep;
      StepKeepsCalls(WideAfter(run[..|run| - 1]), run[|run| - 1]);
    }
  }

  /** A status write is a transition exactly if it is not stale. */
  lemma WriteIsTransition(db: Db, c: StatusCall)
    requires c.phase.WriteStatus? && c.t != Close && c.e in db.gov.elections
    ensures
      OneTransition(db.gov, StatusStep(db, c).0.gov) <==>
        TransitionError(db, c.e, c.t).None? || db.gov.elections[c.e].status == Target(c.t)
  {
    var b := StatusStep(db, c).0.gov;
    assert c.e in b.elections && b.elections[c.e].status == Target(c.t);
  }

  /** In every interleaving a step keeps to the order of statuses exactly if it is no stale write. */
  lemma {:induction false} OrderIffNotStale(run: seq<WideAction>, x: WideAction)
    ensures OneTransition(WideAfter(run).sevs.db.gov, WideStep(WideAfter(run), x).sevs.db.gov) <==>
            !StaleWrite(WideAfter(run), x)
  {
    RunKeepsCalls(run);
    var s := WideAfter(run);
    hide WideAfter;
    match x {
      case Base(a) =>
        forall e | e in s.sevs.db.gov.elections { StepTransition(s.sevs, a, e); }
        hide Step;
      case BeginStatus(_, _, _, _, _) =>
      case BeginRow(_, _) =>
      case AdvanceRow(id) =>
        if id in s.rows {
          RowsKeepStatuses(s.sevs.db, s.rows[id]);
          hide RowStep;
        }
      case AdvanceStatus(id) =>
        if id in s.calls {
          var c := s.calls[id];
          if c.phase.WriteStatus? && c.e in s.sevs.db.gov.elections {
            WriteIsTransition(s.sevs.db, c);
          } else {
            OtherSteps(s.sevs.db, c);
          }
          hide StatusStep;
          hide TransitionError;
        }
    }
  }

  lemma RowsKeepStatuses(db: Db, c: RowCall)
    ensures OneTransition(db.gov, RowStep(db, c).0.gov)
  {
    if c.phase.WriteRow? {
      RowWriteKeepsStatuses(db, c.op, c.phase.student);
    }
    hide RowWrite;
    hide RowError;
  }

  lemma RowWriteKeepsStatuses(db: Db, op: RowOp, student: StudentId)
    ensures OneTransition(db.gov, RowWrite(db, op, student).0.gov)
  {}

  lemma OtherSteps(db: Db, c: StatusCall)
    requires !(c.phase.WriteStatus? && c.e in db.gov.elections)
    ensures OneTransition(db.gov, StatusStep(db, c).0.gov)
  {}

  /** The step writes a row that its check would now protect. */
  ghost predicate StaleRowWrite(s: Wide, x: WideAction) {
    && x.AdvanceRow? && x.id in s.rows
    && s.rows[x.id].phase.WriteRow? && StaleRow(s.sevs.db, s.rows[x.id].op, s.rows[x.id].phase.student)
  }

  /** A step on a row keeps all that is fixed for good exactly if it is no stale write. */
  lemma {:induction false} RowStepKeepsIff(run: seq<WideAction>, id: CallId)
    ensures
      Evolves(WideAfter(run).sevs.db, WideStep(WideAfter(run), AdvanceRow(id)).sevs.db) <==>
        !StaleRowWrite(WideAfter(run), AdvanceRow(id))
  {
    var s := WideAfter(run);
    hide WideAfter;
    hide Evolves;
    hide StaleRow;
    hide RowWrite;
    hide RowError;
    NothingEvolves(s.sevs.db);
    if id in s.rows && s.rows[id].phase.WriteRow? {
      RowKeepsIff(s.sevs.db, s.rows[id].op, s.rows[id].phase.student);
    }
  }

  lemma NothingEvolves(db: Db)
    ensures Evolves(db, db)
  {
    GovReflexive(db.gov);
    PollReflexive(db.poll);
  }

  /** What a step of such a call leaves alone. */
  lemma StatusSpares(db: Db, c: StatusCall)
    ensures
      var b := StatusStep(db, c).0;
      && b.poll == db.poll && b.clock == db.clock && db.log <= b.log
      && b.gov.positions == db.gov.positions && b.gov.students == db.gov.students
      && b.gov.candidates == db.gov.candidates && b.gov.approvals == db.gov.approvals
      && RequestsKept(db.gov, b.gov)
      && forall e | e in db.gov.elections && e in b.gov.elections ::
           && b.gov.elections[e].startDate == db.gov.elections[e].startDate
           && b.gov.elections[e].endDate == db.gov.elections[e].endDate
  {}

  lemma StatusEvolves(db: Db, c: StatusCall)
    requires OneTransition(db.gov, StatusStep(db, c).0.gov)
    ensures Evolves(db, StatusStep(db, c).0)
  {
    PollReflexive(db.poll);
    hide PollEvolves;
    StatusSpares(db, c);
    var b := StatusStep(db, c).0.gov;
    hide StatusStep;
    hide RequestsKept;
    forall e, p | e in db.gov.elections && db.gov.elections[e].status != Draft
      ensures PositionOf(db.gov, p, e) <==> PositionOf(b, p, e)
    {}
  }

  lemma {:induction false} FreshStepEvolves(run: seq<WideAction>, x: WideAction)
    requires !StaleWrite(WideAfter(run), x) && !StaleRowWrite(WideAfter(run), x)
    ensures Evolves(WideAfter(run).sevs.db, WideStep(WideAfter(run), x).sevs.db)
  {
    OrderIffNotStale(run, x);
    RunKeepsCalls(run);
    var s := WideAfter(run);
    NothingEvolves(s.sevs.db);
    match x {
      case Base(a) => StepEvolves(s.sevs, a);
      case AdvanceStatus(id) =>
        if id in s.calls { StatusEvolves(s.sevs.db, s.calls[id]); }
      case AdvanceRow(id) => RowStepKeepsIff(run, id);
      case _ =>
    }
    hide WideAfter;
    hide Evolves;
    hide StaleWrite;
    hide StaleRowWrite;
    hide Step;
    hide StatusStep;
    hide RowStep;
    hide OneTransition;
  }

  // ---------- runs ----------

  /** No step of the run is a stale write of a row. */
  ghost predicate NoStaleRow(run: seq<WideAction>) {
    forall i | 0 <= i < |run| :: !StaleRowWrite(WideAfter(run[..i]), run[i])
  }

  /** Without stale writes everything that the system never takes back is kept between any two points of
      a run, also with check and write split. */
  lemma {:induction false} WideRunEvolves(run: seq<WideAction>, i: nat)
    requires i <= |run| && NoStaleWrite(run) && NoStaleRow(run)
    ensures Evolves(WideAfter(run[..i]).sevs.db, WideAfter(run).sevs.db)
    decreases |run|
  {
    assert run[..|run|] == run;
    if i == |run| {
      NothingEvolves(WideAfter(run).sevs.db);
    } else {
      var shorter, x := run[..|run| - 1], run[|run| - 1];
      NoStaleBefore(run);
      assert shorter[..i] == run[..i];
      WideRunEvolves(shorter, i);
      FreshStepEvolves(shorter, x);
      var a, b, c := WideAfter(run[..i]).sevs.db, WideAfter(shorter).sevs.db, WideAfter(run).sevs.db;
      hide WideStep;
      EvolvesTransitive(a, b, c);
      hide Evolves;
      hide NoStaleWrite;
      hide NoStaleRow;
      hide StaleWrite;
      hide StaleRowWrite;
    }
  }

  lemma {:induction false} NoStaleBefore(run: seq<WideAction>)
    requires run != [] && NoStaleWrite(run) && NoStaleRow(run)
    ensures NoStaleWrite(run[..|run| - 1]) && NoStaleRow(run[..|run| - 1])
    ensures !StaleWrite(WideAfter(run[..|run| - 1]), run[|run| - 1])
            && !StaleRowWrite(WideAfter(run[..|run| - 1]), run[|run| - 1])
  {
    var shorter := run[..|run| - 1];
    hide WideAfter;
    hide StaleWrite;
    hide StaleRowWrite;
    forall i | 0 <= i < |shorter|
      ensures !StaleWrite(WideAfter(shorter[..i]), shorter[i]) && !StaleRowWrite(WideAfter(shorter[..i]), shorter[i])
    {
      assert shorter[..i] == run[..i];
    }
  }

  lemma EvolvesTransitive(a: Db, b: Db, c: Db)
    requires Evolves(a, b) && Evolves(b, c)
    ensures Evolves(a, c)
  {
    hide GovEvolves;
    hide PollEvolves;
    hide RollFrozen;
    GovTransitive(a.gov, b.gov, c.gov);
    PollTransitive(a.poll, b.poll, c.poll);
    ElectionsOf(a.gov, b.gov);
    RollTransitive(a, b, c);
  }

  lemma ElectionsOf(a: Gov, b: Gov)
    requires GovEvolves(a, b)
    ensures ElectionsEvolve(a, b)
  {}

  ghost function WideChanges(run: seq<WideAction>, e: ElectionId): nat {
    if run == [] then 0
    else
      var shorter := run[..|run| - 1];
      var a, b := WideAfter(shorter).sevs.db.gov.elections, WideAfter(run).sevs.db.gov.elections;
      WideChanges(shorter, e) + if e in a && e in b && a[e].status != b[e].status then 1 else 0
  }

  /** No step of the run is a stale write. */
  ghost predicate NoStaleWrite(run: seq<WideAction>) {
    forall i | 0 <= i < |run| :: !StaleWrite(WideAfter(run[..i]), run[i])
  }

  /** Without stale writes an election changes its status at most four times, in any interleaving. */
  lemma {:induction false} FourChangesUnlessStale(run: seq<WideAction>, e: ElectionId)
    requires NoStaleWrite(run)
    ensures
      var elections := WideAfter(run).sevs.db.gov.elections;
      WideChanges(run, e) <= if e in elections then Rank(elections[e].status) else 0
    decreases |run|
  {
    if run != [] {
      var shorter, x := run[..|run| - 1], run[|run| - 1];
      forall i | 0 <= i < |shorter| ensures !StaleWrite(WideAfter(shorter[..i]), shorter[i]) {
        assert shorter[..i] == run[..i];
      }
      FourChangesUnlessStale(shorter, e);
      OrderIffNotStale(shorter, x);
      hide WideStep;
      hide StaleWrite;
    }
  }

  lemma {:induction false} WideAfterOne(run: seq<WideAction>, x: WideAction)
    ensures WideAfter(run + [x]) == WideStep(WideAfter(run), x)
  {
    assert (run + [x])[..|run + [x]| - 1] == run;
  }

  /** A cancellation that was checked before the quorum was reached cancels a scheduled election. */
  lemma {:induction false} CancelledAfterScheduled(run: seq<WideAction>, id: CallId, vote: CallId, e: ElectionId)
    requires id in WideAfter(run).calls && WideAfter(run).calls[id].phase.WriteStatus?
    requires WideAfter(run).calls[id].t == Cancel && WideAfter(run).calls[id].e == e
    requires vote in WideAfter(run).sevs.approving
    requires
      var c, db := WideAfter(run).sevs.approving[vote], WideAfter(run).sevs.db;
      && c.phase.Resolve? && c.phase.approved && c.request in db.gov.requests
      && db.gov.requests[c.request].action == ElectionActivate && db.gov.requests[c.request].electionId == Some(e)
      && e in db.gov.elections && db.gov.elections[e].status == PendingApproval
    ensures
      var scheduled := WideAfter(run + [Base(AdvanceApproval(vote))]).sevs.db.gov.elections;
      var cancelled := WideAfter(run + [Base(AdvanceApproval(vote))] + [AdvanceStatus(id)]).sevs.db.gov.elections;
      e in scheduled && scheduled[e].status == Scheduled && e in cancelled && cancelled[e].status == Cancelled
  {
    WideAfterOne(run, Base(AdvanceApproval(vote)));
    WideAfterOne(run + [Base(AdvanceApproval(vote))], AdvanceStatus(id));
    hide WideAfter;
    hide Execute;
    hide RequestStep;
    hide RowStep;
  }
}
