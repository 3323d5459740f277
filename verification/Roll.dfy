/** Who stands on the electoral roll, and who put them there. */
module Roll {
  import opened JsText
  import opened Schema
  import opened System
  import opened Moves
  import opened BallotSafety

  /** No two users are the same student. */
  ghost predicate StudentsDistinct(g: Gov) {
    forall u, v | u in g.students && v in g.students && g.students[u] == g.students[v] :: u == v
  }

  ghost predicate IsStudent(g: Gov, student: StudentId) {
    exists u :: u in g.students && g.students[u] == student
  }

  /** A decided registration was decided by somebody else than its student. */
  ghost predicate VerifierOk(g: Gov, x: Registration) {
    && IsStudent(g, x.studentId)
    && (x.status != RegistrationPending <==> x.verifiedBy.Some?)
    && (x.verifiedBy.Some? && x.verifiedBy.value in g.students ==> g.students[x.verifiedBy.value] != x.studentId)
  }

  ghost predicate RollOk(db: Db) {
    StudentsDistinct(db.gov) && forall r | r in db.poll.registrations :: VerifierOk(db.gov, db.poll.registrations[r])
  }

  lemma GovMoveRoll(db: Db, m: GovMove, x: Registration)
    requires GovEnabled(db, m) && StudentsDistinct(db.gov)
    ensures StudentsDistinct(GovAfter(db.gov, m))
    ensures VerifierOk(db.gov, x) ==> VerifierOk(GovAfter(db.gov, m), x)
  {
    var g, g' := db.gov, GovAfter(db.gov, m);
    if IsStudent(g, x.studentId) {
      var u :| u in g.students && g.students[u] == x.studentId;
      assert u in g'.students && g'.students[u] == x.studentId;
      assert x.studentId in g.students.Values;
    }
  }

  lemma KeyOfValue<K, V>(m: map<K, V>, v: V) returns (k: K)
    requires v in m.Values
    ensures k in m && m[k] == v
  {
    k :| k in m && m[k] == v;
  }

  lemma PollMoveRoll(db: Db, m: PollMove, r: RegistrationId)
    requires PollEnabled(db, m) && RollOk(db)
    ensures
      var p := PollAfter(db.poll, db.clock, m);
      r in p.registrations ==> VerifierOk(db.gov, p.registrations[r])
  {
    if m.Enters? {
      var u := KeyOfValue(db.gov.students, m.student);
      assert IsStudent(db.gov, m.student);
    }
  }

  lemma StepRoll(s: Sevs, a: Action)
    requires RollOk(s.db)
    ensures RollOk(Step(s, a).db)
  {
    var dt, g, m := StepMove(s, a);
    var db' := Step(s, a).db;
    hide Step;
    hide ComesFrom;
    hide Reports;
    hide PollAfter;
    hide GovAfter;
    hide GovEnabled;
    hide PollEnabled;
    hide VerifierOk;
    hide StudentsDistinct;
    forall x ensures VerifierOk(s.db.gov, x) ==> VerifierOk(db'.gov, x) {
      GovMoveRoll(s.db, g, x);
    }
    GovMoveRoll(s.db, g, Registration(0, 0, RegistrationPending, None, false, None));
    forall r | r in db'.poll.registrations ensures VerifierOk(db'.gov, db'.poll.registrations[r]) {
      PollMoveRoll(s.db, m, r);
    }
  }

  lemma {:induction false} RunRoll(run: seq<Action>)
    ensures RollOk(After(run).db)
    decreases |run|
  {
    if run != [] {
      RunRoll(run[..|run| - 1]);
      StepRoll(After(run[..|run| - 1]), run[|run| - 1]);
      hide RollOk;
      hide Step;
    }
  }

  /** Whoever has voted was approved, by an officer who is not that student. */
  lemma {:induction false} ParticipantsVerified(run: seq<Action>, r: RegistrationId)
    requires Participated(After(run).db.poll, r)
    ensures
      var db := After(run).db;
      var x := db.poll.registrations[r];
      && x.status == RegistrationApproved && x.verifiedBy.Some?
      && (x.verifiedBy.value in db.gov.students ==> db.gov.students[x.verifiedBy.value] != x.studentId)
  {
    RunRoll(run);
    RunSafe(run);
    var db := After(run).db;
    hide After;
    var t :| FirstVote(db.poll, r, t);
    assert VerifierOk(db.gov, db.poll.registrations[r]);
  }
}
