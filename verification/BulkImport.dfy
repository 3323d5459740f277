/** Backend/src/modules/users: importing students row by row. */
module BulkImport {
  import opened JsText

  type Text = int

  /** What a row that passes validation is turned into. */
  datatype Row = Row(email: Text, fullName: Text, admissionNo: Text, school: Text, yearOfStudy: int)

  /** A row of the spreadsheet as validation leaves it. */
  datatype Parsed = ValidRow(row: Row) | InvalidRow(email: Option<Text>, issues: Text)

  datatype User = User(email: Text, fullName: Text, student: Option<Student>)

  datatype Student = Student(admissionNo: Text, school: Text, yearOfStudy: int)

  datatype Conflict = DuplicateEmail | DuplicateAdmissionNo

  datatype RowResult =
    | Created(row: nat, user: int, email: Text)
    | Skipped(row: nat, email: Text, reason: Conflict)
    | Failed(row: nat, invalidEmail: Option<Text>, issues: Text)

  datatype Summary = Summary(totalRows: nat, created: nat, skipped: nat, failed: nat, results: seq<RowResult>)

  predicate EmailTaken(users: map<int, User>, email: Text) {
    exists u :: u in users && users[u].email == email
  }

  predicate AdmissionTaken(users: map<int, User>, admissionNo: Text) {
    exists u :: u in users && users[u].student.Some? && users[u].student.value.admissionNo == admissionNo
  }

  /** `createStudentUser`: user and student in one insert, or the unique constraint that refuses it. */
  function CreateStudentUser(users: map<int, User>, row: Row, id: int): (map<int, User>, Option<Conflict>)
    requires id !in users
  {
    if EmailTaken(users, row.email) then (users, Some(DuplicateEmail))
    else if AdmissionTaken(users, row.admissionNo) then (users, Some(DuplicateAdmissionNo))
    else (users[id := User(row.email, row.fullName, Some(Student(row.admissionNo, row.school, row.yearOfStudy)))], None)
  }

  /** Identifiers from `next` upwards are not in use. */
  ghost predicate FreshFrom(users: map<int, User>, next: int) {
    forall u | u in users :: u < next
  }

  /** The result of row `i`, which stands at `i + 2` of the spreadsheet. */
  function RowOutcome(users: map<int, User>, next: int, parsed: Parsed, i: nat): (map<int, User>, RowResult)
    requires next !in users
  {
    match parsed
    case InvalidRow(email, issues) => (users, Failed(i + 2, email, issues))
    case ValidRow(row) =>
      var (after, conflict) := CreateStudentUser(users, row, next);
      match conflict
      case Some(reason) => (after, Skipped(i + 2, row.email, reason))
      case None => (after, Created(i + 2, next, row.email))
  }

  /** The import as a left fold over the rows. */
  ghost function Import(users: map<int, User>, next: int, rows: seq<Parsed>): (r: (map<int, User>, seq<RowResult>))
    requires FreshFrom(users, next)
    ensures |r.1| == |rows| && FreshFrom(r.0, next + |rows|)
    decreases |rows|
  {
    if rows == [] then (users, [])
    else
      var (before, results) := Import(users, next, rows[..|rows| - 1]);
      var (after, result) := RowOutcome(before, next + |rows| - 1, rows[|rows| - 1], |rows| - 1);
      (after, results + [result])
  }

  // ---------- which rows are created ----------

  /** One of the first `n` rows was created with this email. */
  ghost predicate EmailCreated(rows: seq<Parsed>, results: seq<RowResult>, n: nat, email: Text)
    requires n <= |rows| && n <= |results|
  {
    exists j | 0 <= j < n :: rows[j].ValidRow? && results[j].Created? && rows[j].row.email == email
  }

  ghost predicate AdmissionCreated(rows: seq<Parsed>, results: seq<RowResult>, n: nat, admissionNo: Text)
    requires n <= |rows| && n <= |results|
  {
    exists j | 0 <= j < n :: rows[j].ValidRow? && results[j].Created? && rows[j].row.admissionNo == admissionNo
  }

  /** A user of the table after the import was there before, or is a created row. */
  ghost predicate Entered(users: map<int, User>, next: int, rows: seq<Parsed>, results: seq<RowResult>,
                          after: map<int, User>)
    requires |rows| == |results|
  {
    && (forall u | u in users :: u in after && after[u] == users[u])
    && (forall u | u in after :: u in users || (next <= u < next + |rows| && results[u - next].Created?))
    && (forall i | 0 <= i < |rows| && results[i].Created? ::
          && rows[i].ValidRow? && next + i in after
          && after[next + i] == User(rows[i].row.email, rows[i].row.fullName,
                                     Some(Student(rows[i].row.admissionNo, rows[i].row.school,
                                                  rows[i].row.yearOfStudy)))
          && results[i] == Created(i + 2, next + i, rows[i].row.email))
  }

  lemma RowEnters(users: map<int, User>, next: int, rows: seq<Parsed>, results: seq<RowResult>,
        before: map<int, User>, parsed: Parsed)
    requires |rows| == |results| && Entered(users, next, rows, results, before) && FreshFrom(before, next + |rows|)
    ensures
      var (after, result) := RowOutcome(before, next + |rows|, parsed, |rows|);
      Entered(users, next, rows + [parsed], results + [result], after)
  {
    hide EmailTaken;
    hide AdmissionTaken;
  }

  lemma {:induction false} ImportEnters(users: map<int, User>, next: int, rows: seq<Parsed>)
    requires FreshFrom(users, next)
    ensures Entered(users, next, rows, Import(users, next, rows).1, Import(users, next, rows).0)
    decreases |rows|
  {
    if rows != [] {
      var shorter := rows[..|rows| - 1];
      ImportEnters(users, next, shorter);
      var (before, results) := Import(users, next, shorter);
      assert shorter + [rows[|rows| - 1]] == rows;
      hide Entered;
      hide RowOutcome;
      RowEnters(users, next, shorter, results, before, rows[|rows| - 1]);
    }
  }

  lemma {:induction false} ImportPrefix(users: map<int, User>, next: int, rows: seq<Parsed>, i: nat)
    requires FreshFrom(users, next) && i <= |rows|
    ensures Import(users, next, rows[..i]).1 == Import(users, next, rows).1[..i]
    decreases |rows|
  {
    if i == |rows| {
      assert rows[..i] == rows;
    } else {
      var shorter := rows[..|rows| - 1];
      assert shorter[..i] == rows[..i];
      ImportPrefix(users, next, shorter, i);
    }
  }

  /** What the import leaves behind for the next row: the table, and the rows it has created. */
  lemma {:induction false} TakenAfter(users: map<int, User>, next: int, rows: seq<Parsed>,
                                      email: Text, admissionNo: Text)
    requires FreshFrom(users, next)
    ensures
      var (after, results) := Import(users, next, rows);
      && (EmailTaken(after, email) <==> EmailTaken(users, email) || EmailCreated(rows, results, |rows|, email))
      && (AdmissionTaken(after, admissionNo) <==>
            AdmissionTaken(users, admissionNo) || AdmissionCreated(rows, results, |rows|, admissionNo))
  {
    ImportEnters(users, next, rows);
    var (after, results) := Import(users, next, rows);
    hide Import;
    if EmailTaken(after, email) && !EmailTaken(users, email) {
      var u :| u in after && after[u].email == email;
      assert u !in users;
      assert results[u - next].Created? && rows[u - next].row.email == email;
    }
    if AdmissionTaken(after, admissionNo) && !AdmissionTaken(users, admissionNo) {
      var u :| u in after && after[u].student.Some? && after[u].student.value.admissionNo == admissionNo;
      assert u !in users;
      assert results[u - next].Created? && rows[u - next].row.admissionNo == admissionNo;
    }
    if EmailTaken(users, email) {
      var u :| u in users && users[u].email == email;
      assert u in after && after[u].email == email;
    }
    if AdmissionTaken(users, admissionNo) {
      var u :| u in users && users[u].student.Some? && users[u].student.value.admissionNo == admissionNo;
      assert u in after && after[u].student.Some? && after[u].student.value.admissionNo == admissionNo;
    }
    if EmailCreated(rows, results, |rows|, email) {
      var j :| 0 <= j < |rows| && rows[j].ValidRow? && results[j].Created? && rows[j].row.email == email;
      assert next + j in after && after[next + j].email == email;
    }
    if AdmissionCreated(rows, results, |rows|, admissionNo) {
      var j :| 0 <= j < |rows| && rows[j].ValidRow? && results[j].Created? && rows[j].row.admissionNo == admissionNo;
      assert next + j in after && after[next + j].student.Some?
             && after[next + j].student.value.admissionNo == admissionNo;
    }
  }

  lemma CreatedInPrefix(rows: seq<Parsed>, results: seq<RowResult>, n: nat,
                        email: Text, admissionNo: Text)
    requires n <= |rows| && n <= |results|
    ensures EmailCreated(rows[..n], results[..n], n, email) <==> EmailCreated(rows, results, n, email)
    ensures AdmissionCreated(rows[..n], results[..n], n, admissionNo) <==>
            AdmissionCreated(rows, results, n, admissionNo)
  {
    var r, x := rows[..n], results[..n];
    if EmailCreated(rows, results, n, email) {
      var j :| 0 <= j < n && rows[j].ValidRow? && results[j].Created? && rows[j].row.email == email;
      assert r[j].ValidRow? && x[j].Created? && r[j].row.email == email;
    }
    if AdmissionCreated(rows, results, n, admissionNo) {
      var j :| 0 <= j < n && rows[j].ValidRow? && results[j].Created? && rows[j].row.admissionNo == admissionNo;
      assert r[j].ValidRow? && x[j].Created? && r[j].row.admissionNo == admissionNo;
    }
  }

  /** A row fails exactly if it is invalid, with its own issues. A valid row is skipped for its email if that
      is in the table or in an earlier row that was created, else for its admission number if that is, and is
      created otherwise. */
  lemma {:induction false} CreatedIffNew(users: map<int, User>, next: int, rows: seq<Parsed>, i: nat)
    requires FreshFrom(users, next) && i < |rows|
    ensures
      var results := Import(users, next, rows).1;
      && (results[i].Failed? <==> rows[i].InvalidRow?)
      && (rows[i].InvalidRow? ==> results[i] == Failed(i + 2, rows[i].email, rows[i].issues))
      && (rows[i].ValidRow? ==>
            var email := EmailTaken(users, rows[i].row.email) || EmailCreated(rows, results, i, rows[i].row.email);
            var admission := AdmissionTaken(users, rows[i].row.admissionNo) ||
                             AdmissionCreated(rows, results, i, rows[i].row.admissionNo);
            && (results[i] == Created(i + 2, next + i, rows[i].row.email) <==> !email && !admission)
            && (results[i] == Skipped(i + 2, rows[i].row.email, DuplicateEmail) <==> email)
            && (results[i] == Skipped(i + 2, rows[i].row.email, DuplicateAdmissionNo) <==> !email && admission))
  {
    var upTo := rows[..i + 1];
    assert upTo[..i] == rows[..i];
    ImportPrefix(users, next, rows, i);
    ImportPrefix(users, next, rows, i + 1);
    var results := Import(users, next, rows).1;
    var before := Import(users, next, rows[..i]).0;
    assert Import(users, next, upTo).1[i] == results[i];
    assert results[i] == RowOutcome(before, next + i, rows[i], i).1;
    if rows[i].ValidRow? {
      TakenAfter(users, next, rows[..i], rows[i].row.email, rows[i].row.admissionNo);
      CreatedInPrefix(rows, results, i, rows[i].row.email, rows[i].row.admissionNo);
      hide Import;
      hide EmailTaken;
      hide AdmissionTaken;
    }
  }

  // ---------- importing again ----------

  ghost predicate Known(users: map<int, User>, parsed: Parsed) {
    parsed.ValidRow? ==> EmailTaken(users, parsed.row.email) || AdmissionTaken(users, parsed.row.admissionNo)
  }

  lemma {:induction false} ImportKnown(users: map<int, User>, next: int, rows: seq<Parsed>)
    requires FreshFrom(users, next) && forall i | 0 <= i < |rows| :: Known(users, rows[i])
    ensures Import(users, next, rows).0 == users
    ensures forall i | 0 <= i < |rows| :: !Import(users, next, rows).1[i].Created?
    decreases |rows|
  {
    if rows != [] {
      ImportKnown(users, next, rows[..|rows| - 1]);
      assert Known(users, rows[|rows| - 1]);
    }
  }

  /** Importing the same rows again creates nothing and leaves the table as it is. */
  lemma {:induction false} ImportTwice(users: map<int, User>, next: int, rows: seq<Parsed>, later: int)
    requires FreshFrom(users, next) && FreshFrom(Import(users, next, rows).0, later)
    ensures
      var after := Import(users, next, rows).0;
      && Import(after, later, rows).0 == after
      && forall i | 0 <= i < |rows| :: !Import(after, later, rows).1[i].Created?
  {
    var (after, results) := Import(users, next, rows);
    forall i | 0 <= i < |rows| ensures Known(after, rows[i]) {
      if rows[i].ValidRow? {
        CreatedIffNew(users, next, rows, i);
        TakenAfter(users, next, rows, rows[i].row.email, rows[i].row.admissionNo);
        hide Import;
        hide EmailTaken;
        hide AdmissionTaken;
        if results[i].Created? {
          assert EmailCreated(rows, results, |rows|, rows[i].row.email);
        } else {
          CreatedEarlier(rows, results, i, |rows|, rows[i].row.email, rows[i].row.admissionNo);
        }
      }
    }
    ImportKnown(after, later, rows);
  }

  lemma CreatedEarlier(rows: seq<Parsed>, results: seq<RowResult>, m: nat,
                       n: nat, email: Text, admissionNo: Text)
    requires m <= n <= |rows| && n <= |results|
    ensures EmailCreated(rows, results, m, email) ==> EmailCreated(rows, results, n, email)
    ensures AdmissionCreated(rows, results, m, admissionNo) ==> AdmissionCreated(rows, results, n, admissionNo)
  {}

  // ---------- the summary ----------

  function CreatedCount(results: seq<RowResult>): nat {
    if results == [] then 0
    else CreatedCount(results[..|results| - 1]) + if results[|results| - 1].Created? then 1 else 0
  }

  function SkippedCount(results: seq<RowResult>): nat {
    if results == [] then 0
    else SkippedCount(results[..|results| - 1]) + if results[|results| - 1].Skipped? then 1 else 0
  }

  function FailedCount(results: seq<RowResult>): nat {
    if results == [] then 0 else FailedCount(results[..|results| - 1]) + if results[|results| - 1].Failed? then 1 else 0
  }

  lemma {:induction false} CountsAddUp(results: seq<RowResult>)
    ensures CreatedCount(results) + SkippedCount(results) + FailedCount(results) == |results|
    decreases |results|
  {
    if results != [] {
      CountsAddUp(results[..|results| - 1]);
    }
  }

  /** The counts are the numbers of rows with each result. */
  lemma {:induction false} CreatedSize(results: seq<RowResult>)
    ensures CreatedCount(results) == |set i | 0 <= i < |results| && results[i].Created?|
    decreases |results|
  {
    if results != [] {
      var n := |results| - 1;
      var shorter := results[..n];
      CreatedSize(shorter);
      var before := set i | 0 <= i < n && shorter[i].Created?;
      assert (set i | 0 <= i < |results| && results[i].Created?) == before + if results[n].Created? then {n} else {};
    }
  }

  lemma {:induction false} SkippedSize(results: seq<RowResult>)
    ensures SkippedCount(results) == |set i | 0 <= i < |results| && results[i].Skipped?|
    decreases |results|
  {
    if results != [] {
      var n := |results| - 1;
      var shorter := results[..n];
      SkippedSize(shorter);
      var before := set i | 0 <= i < n && shorter[i].Skipped?;
      assert (set i | 0 <= i < |results| && results[i].Skipped?) == before + if results[n].Skipped? then {n} else {};
    }
  }

  lemma {:induction false} FailedSize(results: seq<RowResult>)
    ensures FailedCount(results) == |set i | 0 <= i < |results| && results[i].Failed?|
    decreases |results|
  {
    if results != [] {
      var n := |results| - 1;
      var shorter := results[..n];
      FailedSize(shorter);
      var before := set i | 0 <= i < n && shorter[i].Failed?;
      assert (set i | 0 <= i < |results| && results[i].Failed?) == before + if results[n].Failed? then {n} else {};
    }
  }

  /** The rows counted as failed are the invalid ones. */
  lemma {:induction false} FailedAreInvalid(users: map<int, User>, next: int, rows: seq<Parsed>)
    requires FreshFrom(users, next)
    ensures FailedCount(Import(users, next, rows).1) == |set i | 0 <= i < |rows| && rows[i].InvalidRow?|
  {
    var results := Import(users, next, rows).1;
    FailedSize(results);
    forall i | 0 <= i < |rows| ensures results[i].Failed? <==> rows[i].InvalidRow? {
      CreatedIffNew(users, next, rows, i);
    }
    hide Import;
    hide FailedCount;
    assert (set i | 0 <= i < |results| && results[i].Failed?) == set i | 0 <= i < |rows| && rows[i].InvalidRow?;
  }

  /** The table grows by exactly the rows that were created. */
  lemma {:induction false} TableGrows(users: map<int, User>, next: int, rows: seq<Parsed>)
    requires FreshFrom(users, next)
    ensures |Import(users, next, rows).0| == |users| + CreatedCount(Import(users, next, rows).1)
    decreases |rows|
  {
    if rows != [] {
      TableGrows(users, next, rows[..|rows| - 1]);
      var (after, results) := Import(users, next, rows);
      assert results[..|results| - 1] == Import(users, next, rows[..|rows| - 1]).1;
    }
  }

  class UserTable {
    var users: map<int, User>
    /** Identifiers from here on are not in use. */
    var next: int

    ghost predicate Valid()
      reads this
    {
      FreshFrom(users, next)
    }

    constructor ()
      ensures Valid() && users == map[]
    {
      users, next := map[], 0;
    }

    method Insert(row: Row) returns (id: int, conflict: Option<Conflict>)
      requires Valid()
      modifies this
      ensures Valid() && id == old(next) && next == old(next) + 1
      ensures (users, conflict) == CreateStudentUser(old(users), row, id)
    {
      id := next;
      next := next + 1;
      if exists u :: u in users && users[u].email == row.email { return id, Some(DuplicateEmail); }
      if exists u :: u in users && users[u].student.Some? && users[u].student.value.admissionNo == row.admissionNo {
        return id, Some(DuplicateAdmissionNo);
      }
      users := users[id := User(row.email, row.fullName, Some(Student(row.admissionNo, row.school, row.yearOfStudy)))];
      return id, None;
    }

    /** `bulkImportStudents`: None stands for the error of an empty file. */
    method BulkImportStudents(rows: seq<Parsed>) returns (summary: Option<Summary>)
      requires Valid()
      modifies this
      ensures Valid()
      ensures summary.None? <==> rows == []
      ensures summary.None? ==> users == old(users)
      ensures summary.Some? ==>
                && (users, summary.value.results) == Import(old(users), old(next), rows)
                && summary.value.totalRows == |rows|
                && summary.value.created == |users| - |old(users)|
                && summary.value.created ==
                   |set i | 0 <= i < |rows| && summary.value.results[i].Created?|
                && summary.value.skipped ==
                   |set i | 0 <= i < |rows| && summary.value.results[i].Skipped?|
                && summary.value.failed == |set i | 0 <= i < |rows| && rows[i].InvalidRow?|
                && summary.value.created + summary.value.skipped + summary.value.failed == summary.value.totalRows
    {
      if rows == [] { return None; }
      var results: seq<RowResult> := [];
      ghost var start, first := users, next;
      for i := 0 to |rows|
        invariant Valid() && next == first + i && FreshFrom(start, first)
        invariant (users, results) == Import(start, first, rows[..i])
      {
        assert rows[..i + 1][..i] == rows[..i];
        if rows[i].InvalidRow? {
          results := results + [Failed(i + 2, rows[i].email, rows[i].issues)];
          next := next + 1;
          continue;
        }
        var row := rows[i].row;
        var id, conflict := Insert(row);
        if conflict.Some? {
          results := results + [Skipped(i + 2, row.email, conflict.value)];
        } else {
          results := results + [Created(i + 2, id, row.email)];
        }
      }
      assert rows[..|rows|] == rows;
      CountsAddUp(results);
      CreatedSize(results);
      SkippedSize(results);
      FailedAreInvalid(start, first, rows);
      TableGrows(start, first, rows);
      return Some(Summary(|rows|, CreatedCount(results), SkippedCount(results), FailedCount(results), results));
    }
  }
}
