/** The audit log of the whole system, written through the hash chain. */
module Trail {
  import opened JsText
  import opened Json
  import opened JsonReading
  import opened Hashing
  import opened HashChain
  import opened AuditLog
  import opened Schema
  import opened System
  import opened Moves

  const QUORUM_DECISION_ACTOR := Ascii("QUORUM_DECISION")
  const SYSTEM_ANONYMIZED_ACTOR := Ascii("SYSTEM_ANONYMIZED_VOTER")

  const ELECTION_ID := Ascii("electionId")
  const PREVIOUS_STATUS := Ascii("previousStatus")
  const CANDIDATE_ID := Ascii("candidateId")
  const POSITION_ID := Ascii("positionId")
  const REGISTRATION_ID := Ascii("registrationId")

  /** How identifiers are written: different ones differently, and never like one of the two sentinels. */
  ghost predicate IsNaming(f: imap<int, JsString>) {
    && (forall i: int :: i in f)
    && (forall i, j | i in f && j in f && f[i] == f[j] :: i == j)
    && (forall i | i in f :: f[i] != QUORUM_DECISION_ACTOR && f[i] != SYSTEM_ANONYMIZED_ACTOR)
  }

  function StatusName(s: ElectionStatus): JsString {
    match s
    case Draft => Ascii("DRAFT")
    case PendingApproval => Ascii("PENDING_APPROVAL")
    case Scheduled => Ascii("SCHEDULED")
    case Active => Ascii("ACTIVE")
    case Closed => Ascii("CLOSED")
    case ResultsPending => Ascii("RESULTS_PENDING")
    case Archived => Ascii("ARCHIVED")
    case Cancelled => Ascii("CANCELLED")
  }

  function TypeName(e: Event): JsString {
    match e
    case ElectionScheduled(_) => Ascii("ELECTION_SCHEDULED")
    case ElectionActivated(_, _) => Ascii("ELECTION_ACTIVATED")
    case ElectionClosed(_) => Ascii("ELECTION_CLOSED")
    case CandidateWasApproved(_, _) => Ascii("CANDIDATE_APPROVED")
    case CandidateWasRejected(_, _) => Ascii("CANDIDATE_REJECTED")
    case RegistrationWasApproved(_) => Ascii("REGISTRATION_APPROVED")
    case RegistrationWasRejected(_) => Ascii("REGISTRATION_REJECTED")
    case VoteCast(_) => Ascii("VOTE_CAST")
  }

  ghost function ActorName(f: imap<int, JsString>, a: Actor): JsString
    requires IsNaming(f)
  {
    match a
    case QuorumDecision => QUORUM_DECISION_ACTOR
    case AnonymizedVoter => SYSTEM_ANONYMIZED_ACTOR
    case ByUser(id) => f[id]
  }

  ghost function Data(f: imap<int, JsString>, e: Event): Json
    requires IsNaming(f)
  {
    match e
    case ElectionScheduled(x) => Obj([Field(ELECTION_ID, Str(f[x]))])
    case ElectionActivated(x, previous) =>
      Obj([Field(ELECTION_ID, Str(f[x])), Field(PREVIOUS_STATUS, Str(StatusName(previous)))])
    case ElectionClosed(x) => Obj([Field(ELECTION_ID, Str(f[x]))])
    case CandidateWasApproved(c, p) => Obj([Field(CANDIDATE_ID, Str(f[c])), Field(POSITION_ID, Str(f[p]))])
    case CandidateWasRejected(c, p) => Obj([Field(CANDIDATE_ID, Str(f[c])), Field(POSITION_ID, Str(f[p]))])
    case RegistrationWasApproved(r) => Obj([Field(REGISTRATION_ID, Str(f[r]))])
    case RegistrationWasRejected(r) => Obj([Field(REGISTRATION_ID, Str(f[r]))])
    case VoteCast(x) => Obj([Field(ELECTION_ID, Str(f[x]))])
  }

  /** The event that `appendAuditEvent` is called with for an entry of the log. */
  ghost predicate Records(f: imap<int, JsString>, entry: LogEntry, event: AuditEvent)
    requires IsNaming(f)
  {
    && event.actorId == ActorName(f, entry.actor) && event.eventType == TypeName(entry.event)
    && event.eventData == Data(f, entry.event) && event.createdAt == entry.at
  }

  ghost predicate RecordsAll(f: imap<int, JsString>, log: seq<LogEntry>, events: seq<AuditEvent>)
    requires IsNaming(f)
  {
    |log| == |events| && forall i | 0 <= i < |log| :: Records(f, log[i], events[i])
  }

  // ---------- time ----------

  ghost predicate Stamped(log: seq<LogEntry>, clock: int) {
    && (forall i | 0 <= i < |log| :: log[i].at <= clock)
    && (forall i, j | 0 <= i < j < |log| :: log[i].at <= log[j].at)
  }

  lemma StepStamped(s: Sevs, a: Action)
    requires Stamped(s.db.log, s.db.clock)
    ensures Stamped(Step(s, a).db.log, Step(s, a).db.clock)
  {
    var dt, g, m := StepMove(s, a);
    var db, db' := s.db, Step(s, a).db;
    hide Step;
    hide ComesFrom;
    hide GovEnabled;
    hide PollEnabled;
    hide GovAfter;
    hide PollAfter;
    var more := db'.log[|db.log|..];
    assert |more| <= 1 && (more != [] ==> more[0].at == db.clock);
    hide Reports;
    assert db'.log == db.log + more;
  }

  lemma {:induction false} RunStamped(run: seq<Action>)
    ensures Stamped(After(run).db.log, After(run).db.clock)
    decreases |run|
  {
    if run != [] {
      RunStamped(run[..|run| - 1]);
      StepStamped(After(run[..|run| - 1]), run[|run| - 1]);
      hide Stamped;
      hide Step;
    }
  }

  lemma {:induction false} EventsInTimeOrder(f: imap<int, JsString>, run: seq<Action>, events: seq<AuditEvent>)
    requires IsNaming(f) && RecordsAll(f, After(run).db.log, events)
    ensures InTimeOrder(events)
  {
    RunStamped(run);
    var log := After(run).db.log;
    hide After;
    hide IsNaming;
    hide ActorName;
    hide TypeName;
    hide Data;
    forall i, j | 0 <= i < j < |events| ensures events[i].createdAt <= events[j].createdAt {
      assert Records(f, log[i], events[i]) && Records(f, log[j], events[j]);
    }
  }

  /** The audit log of every run of the system verifies, also when the keys of its event data have been
      reordered in storage. */
  lemma {:induction false} AuditTrailVerifies(h: HashFn, f: imap<int, JsString>, run: seq<Action>,
                                 events: seq<AuditEvent>, rows: seq<AuditEntry>, stored: seq<AuditEntry>)
    requires IsNaming(f) && RecordsAll(f, After(run).db.log, events)
    requires Appended(h, events, rows) && StoredAs(rows, stored)
    ensures InOrder(Links(stored)) == Links(stored) && ChainValid(h, Links(stored))
  {
    hide RecordsAll;
    hide After;
    hide IsNaming;
    hide Appended;
    hide StoredAs;
    hide Links;
    hide InTimeOrder;
    EventsInTimeOrder(f, run, events);
    AppendedLogVerifies(h, events, rows, stored);
  }

  // ---------- what the entry of a vote says ----------

  ghost predicate VotersUnnamed(log: seq<LogEntry>) {
    forall i | 0 <= i < |log| && log[i].event.VoteCast? :: log[i].actor == AnonymizedVoter
  }

  lemma StepUnnamed(s: Sevs, a: Action)
    requires VotersUnnamed(s.db.log)
    ensures VotersUnnamed(Step(s, a).db.log)
  {
    var dt, g, m := StepMove(s, a);
    var db, db' := s.db, Step(s, a).db;
    hide Step;
    hide ComesFrom;
    hide GovEnabled;
    hide PollEnabled;
    hide GovAfter;
    hide PollAfter;
    var more := db'.log[|db.log|..];
    assert |more| <= 1 && (more != [] && more[0].event.VoteCast? ==> more[0].actor == AnonymizedVoter);
    hide Reports;
    assert db'.log == db.log + more;
  }

  lemma {:induction false} RunUnnamed(run: seq<Action>)
    ensures VotersUnnamed(After(run).db.log)
    decreases |run|
  {
    if run != [] {
      RunUnnamed(run[..|run| - 1]);
      StepUnnamed(After(run[..|run| - 1]), run[|run| - 1]);
      hide VotersUnnamed;
      hide Step;
    }
  }

  /** The entry of a vote in the election, by nobody in particular. */
  function VoteEntry(election: JsString): Json {
    Obj([Field(Ascii("actorId"), Str(Ascii("SYSTEM_ANONYMIZED_VOTER"))),
         Field(Ascii("eventData"), Obj([Field(Ascii("electionId"), Str(election))])),
         Field(Ascii("eventType"), Str(Ascii("VOTE_CAST")))])
  }

  lemma {:induction false} VoteText(h: HashFn, f: imap<int, JsString>, entry: LogEntry, event: AuditEvent,
                                    rows: seq<AuditEntry>)
    returns (text: JsString)
    requires IsNaming(f) && Records(f, entry, event) && entry.event.VoteCast? && entry.actor == AnonymizedVoter
    ensures NewEntry(h, rows, event).currentHash == Digest(h, text)
    ensures ReadValue(text) == Good(VoteEntry(f[entry.event.election]), NewEntry(h, rows, event).previousHash)
  {
    text := HashedTextReads(h, rows, event);
    VotePayload(f, entry, event);
    hide *;
  }

  lemma {:induction false} VotePayload(f: imap<int, JsString>, entry: LogEntry, event: AuditEvent)
    requires IsNaming(f) && Records(f, entry, event) && entry.event.VoteCast? && entry.actor == AnonymizedVoter
    ensures
      SortedPayload(event.actorId, event.eventType, event.eventData) ==
        VoteEntry(f[entry.event.election])
  {
    OneFieldCanonical(ELECTION_ID, Str(f[entry.event.election]));
    MemberNames();
    hide Canonical;
    hide IsNaming;
    hide StatusName;
  }

  /** In the audit table of every run, the text hashed for a vote names the election and nobody. */
  lemma {:induction false} VoteTextReads(h: HashFn, f: imap<int, JsString>, run: seq<Action>,
                                         events: seq<AuditEvent>, rows: seq<AuditEntry>, i: nat)
    returns (text: JsString)
    requires IsNaming(f) && RecordsAll(f, After(run).db.log, events) && Appended(h, events, rows)
    requires i < |After(run).db.log| && After(run).db.log[i].event.VoteCast?
    ensures i < |rows| && rows[i].currentHash == Digest(h, text)
    ensures ReadValue(text) == Good(VoteEntry(f[After(run).db.log[i].event.election]), rows[i].previousHash)
  {
    RunUnnamed(run);
    var log := After(run).db.log;
    hide After;
    hide NewEntry;
    hide VoteEntry;
    hide ReadValue;
    assert Records(f, log[i], events[i]) && AppendedAt(h, events, rows, i);
    text := VoteText(h, f, log[i], events[i], rows[..i]);
  }

  lemma {:induction false} OneFieldCanonical(k: JsString, v: Json)
    requires k != PROTO && v.Str?
    ensures Canonical(Obj([Field(k, v)])) == Obj([Field(k, v)])
  {
    var fields := [Field(k, v)];
    assert fields[1..] == [] && CanonicalFields([]) == [];
    assert CanonicalFields(fields) == fields;
    assert SortFields([]) == [] && SortFields(fields) == fields;
  }

  // ---------- what an entry says ----------

  lemma TypeNames(e: Event)
    ensures e.ElectionScheduled? ==> |TypeName(e)| == 18 && TypeName(e)[0] == 69 && TypeName(e)[9] == 83
    ensures e.ElectionActivated? ==> |TypeName(e)| == 18 && TypeName(e)[0] == 69 && TypeName(e)[9] == 65
    ensures e.ElectionClosed? ==> |TypeName(e)| == 15
    ensures e.CandidateWasApproved? ==> |TypeName(e)| == 18 && TypeName(e)[0] == 67 && TypeName(e)[10] == 65
    ensures e.CandidateWasRejected? ==> |TypeName(e)| == 18 && TypeName(e)[0] == 67 && TypeName(e)[10] == 82
    ensures e.RegistrationWasApproved? ==> |TypeName(e)| == 21 && TypeName(e)[13] == 65
    ensures e.RegistrationWasRejected? ==> |TypeName(e)| == 21 && TypeName(e)[13] == 82
    ensures e.VoteCast? ==> |TypeName(e)| == 9
  {}

  lemma StatusNames(s: ElectionStatus)
    ensures s == Draft ==> |StatusName(s)| == 5
    ensures s == PendingApproval ==> |StatusName(s)| == 16
    ensures s == Scheduled ==> |StatusName(s)| == 9 && StatusName(s)[0] == 83
    ensures s == Active ==> |StatusName(s)| == 6 && StatusName(s)[0] == 65
    ensures s == Closed ==> |StatusName(s)| == 6 && StatusName(s)[0] == 67
    ensures s == ResultsPending ==> |StatusName(s)| == 15
    ensures s == Archived ==> |StatusName(s)| == 8
    ensures s == Cancelled ==> |StatusName(s)| == 9 && StatusName(s)[0] == 67
  {}

  lemma {:induction false} OneMember(k: JsString, s: JsString)
    requires k != PROTO
    ensures WellFormed(Obj([Field(k, Str(s))]))
    ensures MeaningOf(Visible(Obj([Field(k, Str(s))]))) == MObj(map[k := MStr(s)])
  {
    var fields := [Field(k, Str(s))];
    assert fields[1..] == [];
    assert VisibleFields(fields) == fields;
    assert FieldsMeaning(fields) == map[k := MStr(s)];
  }

  lemma {:induction false} TwoMembers(k: JsString, s: JsString, l: JsString, t: JsString)
    requires k != PROTO && l != PROTO && k != l
    ensures WellFormed(Obj([Field(k, Str(s)), Field(l, Str(t))]))
    ensures MeaningOf(Visible(Obj([Field(k, Str(s)), Field(l, Str(t))]))) == MObj(map[k := MStr(s), l := MStr(t)])
  {
    var last := [Field(l, Str(t))];
    var fields := [Field(k, Str(s))] + last;
    assert fields == [Field(k, Str(s)), Field(l, Str(t))];
    assert fields[1..] == last && last[1..] == [];
    assert VisibleFields(last) == last;
    assert VisibleFields(fields) == fields;
    assert FieldsMeaning(last) == map[l := MStr(t)];
    assert FieldsMeaning(fields) == FieldsMeaning(last)[k := MStr(s)];
  }

  lemma MemberNames()
    ensures ELECTION_ID != PROTO && PREVIOUS_STATUS != PROTO && CANDIDATE_ID != PROTO
            && POSITION_ID != PROTO && REGISTRATION_ID != PROTO
    ensures ELECTION_ID != PREVIOUS_STATUS && CANDIDATE_ID != POSITION_ID
  {
    assert ELECTION_ID[0] == 101 && PREVIOUS_STATUS[0] == 112 && CANDIDATE_ID[0] == 99;
    assert POSITION_ID[0] == 112 && REGISTRATION_ID[0] == 114 && PROTO[0] == 95;
  }

  /** The members of the event data, as a map. */
  ghost function Members(f: imap<int, JsString>, e: Event): map<JsString, Meaning>
    requires IsNaming(f)
  {
    match e
    case ElectionScheduled(x) => map[ELECTION_ID := MStr(f[x])]
    case ElectionActivated(x, previous) => map[ELECTION_ID := MStr(f[x]), PREVIOUS_STATUS := MStr(StatusName(previous))]
    case ElectionClosed(x) => map[ELECTION_ID := MStr(f[x])]
    case CandidateWasApproved(c, p) => map[CANDIDATE_ID := MStr(f[c]), POSITION_ID := MStr(f[p])]
    case CandidateWasRejected(c, p) => map[CANDIDATE_ID := MStr(f[c]), POSITION_ID := MStr(f[p])]
    case RegistrationWasApproved(r) => map[REGISTRATION_ID := MStr(f[r])]
    case RegistrationWasRejected(r) => map[REGISTRATION_ID := MStr(f[r])]
    case VoteCast(x) => map[ELECTION_ID := MStr(f[x])]
  }

  lemma {:induction false} DataMeaning(f: imap<int, JsString>, e: Event)
    requires IsNaming(f)
    ensures WellFormed(Data(f, e)) && MeaningOf(Visible(Data(f, e))) == MObj(Members(f, e))
  {
    hide WellFormed;
    hide MeaningOf;
    hide Visible;
    hide StatusName;
    MemberNames();
    match e {
      case ElectionScheduled(x) => OneMember(ELECTION_ID, f[x]);
      case ElectionActivated(x, previous) => TwoMembers(ELECTION_ID, f[x], PREVIOUS_STATUS, StatusName(previous));
      case ElectionClosed(x) => OneMember(ELECTION_ID, f[x]);
      case CandidateWasApproved(c, p) => TwoMembers(CANDIDATE_ID, f[c], POSITION_ID, f[p]);
      case CandidateWasRejected(c, p) => TwoMembers(CANDIDATE_ID, f[c], POSITION_ID, f[p]);
      case RegistrationWasApproved(r) => OneMember(REGISTRATION_ID, f[r]);
      case RegistrationWasRejected(r) => OneMember(REGISTRATION_ID, f[r]);
      case VoteCast(x) => OneMember(ELECTION_ID, f[x]);
    }
  }

  lemma SameKind(a: Event, b: Event)
    requires TypeName(a) == TypeName(b)
    ensures (a.ElectionScheduled? <==> b.ElectionScheduled?) && (a.ElectionActivated? <==> b.ElectionActivated?)
    ensures (a.ElectionClosed? <==> b.ElectionClosed?) && (a.CandidateWasApproved? <==> b.CandidateWasApproved?)
    ensures (a.CandidateWasRejected? <==> b.CandidateWasRejected?)
            && (a.RegistrationWasApproved? <==> b.RegistrationWasApproved?)
    ensures (a.RegistrationWasRejected? <==> b.RegistrationWasRejected?) && (a.VoteCast? <==> b.VoteCast?)
  {
    TypeNames(a);
    TypeNames(b);
    hide TypeName;
  }

  /** What is hashed of an entry says who did what: event and actor can be read back from it. */
  lemma EventReadBack(f: imap<int, JsString>, a: Event, b: Event)
    requires IsNaming(f) && TypeName(a) == TypeName(b) && Members(f, a) == Members(f, b)
    ensures a == b
  {
    SameKind(a, b);
    hide TypeName;
    hide StatusName;
    MemberNames();
    var m, n := Members(f, a), Members(f, b);
    match a {
      case ElectionActivated(x, previous) =>
        assert m[ELECTION_ID] == n[ELECTION_ID] && m[PREVIOUS_STATUS] == n[PREVIOUS_STATUS];
        StatusNames(previous);
        StatusNames(b.previous);
      case CandidateWasApproved(c, p) => assert m[CANDIDATE_ID] == n[CANDIDATE_ID] && m[POSITION_ID] == n[POSITION_ID];
      case CandidateWasRejected(c, p) => assert m[CANDIDATE_ID] == n[CANDIDATE_ID] && m[POSITION_ID] == n[POSITION_ID];
      case RegistrationWasApproved(r) => assert m[REGISTRATION_ID] == n[REGISTRATION_ID];
      case RegistrationWasRejected(r) => assert m[REGISTRATION_ID] == n[REGISTRATION_ID];
      case _ => assert m[ELECTION_ID] == n[ELECTION_ID];
    }
  }

  lemma ActorReadBack(f: imap<int, JsString>, a: Actor, b: Actor)
    requires IsNaming(f) && ActorName(f, a) == ActorName(f, b)
    ensures a == b
  {
    assert |QUORUM_DECISION_ACTOR| == 15 && |SYSTEM_ANONYMIZED_ACTOR| == 23;
  }

  lemma ContentReadBack(f: imap<int, JsString>, a: LogEntry, b: LogEntry,
                        x: AuditEvent, y: AuditEvent,
           r: AuditEntry, t: AuditEntry)
    requires IsNaming(f) && Records(f, a, x) && Records(f, b, y) && SameContent(r, t)
    requires r.actorId == x.actorId && r.eventType == x.eventType && r.eventData == x.eventData
    requires t.actorId == y.actorId && t.eventType == y.eventType && t.eventData == y.eventData
    ensures a.actor == b.actor && a.event == b.event
  {
    hide TypeName;
    hide Members;
    hide MeaningOf;
    hide Visible;
    hide Data;
    DataMeaning(f, a.event);
    DataMeaning(f, b.event);
    EventReadBack(f, a.event, b.event);
    ActorReadBack(f, a.actor, b.actor);
  }

  lemma {:induction false} RowsRecord(h: HashFn, f: imap<int, JsString>, log: seq<LogEntry>,
                                      events: seq<AuditEvent>, rows: seq<AuditEntry>, i: nat)
    requires IsNaming(f) && RecordsAll(f, log, events) && Appended(h, events, rows) && i < |rows|
    ensures rows[i].actorId == events[i].actorId && rows[i].eventType == events[i].eventType
            && rows[i].eventData == events[i].eventData
    ensures WellFormed(rows[i].eventData)
  {
    assert AppendedAt(h, events, rows, i);
    hide ComputeChainHash;
    hide Links;
    assert Records(f, log[i], events[i]);
    DataMeaning(f, log[i].event);
    hide Data;
    hide TypeName;
    hide WellFormed;
  }

  lemma {:induction false} TrailIsValid(h: HashFn, events: seq<AuditEvent>, rows: seq<AuditEntry>)
    requires InTimeOrder(events) && Appended(h, events, rows)
    ensures ChainValid(h, Links(rows))
  {
    ItemStamps(events);
    AppendedBuilt(h, events, rows);
    hide Appended;
    hide Links;
    hide InTimeOrder;
    BuiltChain(h, Items(events), Links(rows));
  }

  lemma {:induction false} RowsWellFormed(h: HashFn, f: imap<int, JsString>, log: seq<LogEntry>,
                                          events: seq<AuditEvent>, rows: seq<AuditEntry>)
    requires IsNaming(f) && RecordsAll(f, log, events) && Appended(h, events, rows)
    ensures WellFormedLog(rows)
  {
    hide IsNaming;
    hide RecordsAll;
    hide Appended;
    hide WellFormed;
    forall i | 0 <= i < |rows| ensures WellFormed(rows[i].eventData) {
      RowsRecord(h, f, log, events, rows, i);
    }
  }

  lemma {:induction false} SameRowSameEntry(h: HashFn, f: imap<int, JsString>, log: seq<LogEntry>, log': seq<LogEntry>,
      events: seq<AuditEvent>, events': seq<AuditEvent>, rows: seq<AuditEntry>, rows': seq<AuditEntry>, i: nat)
    requires IsNaming(f) && RecordsAll(f, log, events) && RecordsAll(f, log', events')
    requires Appended(h, events, rows) && Appended(h, events', rows')
    requires i < |rows| && i < |rows'| && SameEntry(rows[i], rows'[i])
    ensures i < |log| && i < |log'| && log[i].actor == log'[i].actor && log[i].event == log'[i].event
  {
    RowsRecord(h, f, log, events, rows, i);
    RowsRecord(h, f, log', events', rows', i);
    hide Appended;
    hide Records;
    hide SameContent;
    hide IsNaming;
    hide WellFormed;
    ContentReadBack(f, log[i], log'[i], events[i], events'[i], rows[i], rows'[i]);
  }

  ghost predicate SameHistory(log: seq<LogEntry>, log': seq<LogEntry>) {
    |log| == |log'| && forall i | 0 <= i < |log| :: log[i].actor == log'[i].actor && log[i].event == log'[i].event
  }

  lemma {:induction false} SameRowsSameHistory(
      h: HashFn, f: imap<int, JsString>, log: seq<LogEntry>, log': seq<LogEntry>,
      events: seq<AuditEvent>, events': seq<AuditEvent>, rows: seq<AuditEntry>, rows': seq<AuditEntry>)
    requires IsNaming(f) && RecordsAll(f, log, events) && RecordsAll(f, log', events')
    requires Appended(h, events, rows) && Appended(h, events', rows')
    requires |rows| == |rows'| && forall i | 0 <= i < |rows| :: SameEntry(rows[i], rows'[i])
    ensures SameHistory(log, log')
  {
    assert |log| == |rows| && |log'| == |rows'|;
    hide IsNaming;
    hide RecordsAll;
    hide Appended;
    hide SameEntry;
    forall i | 0 <= i < |log| ensures log[i].actor == log'[i].actor && log[i].event == log'[i].event {
      SameRowSameEntry(h, f, log, log', events, events', rows, rows', i);
    }
  }

  lemma {:induction false} HeadHashFixesLog(
      h: HashFn, f: imap<int, JsString>, log: seq<LogEntry>, log': seq<LogEntry>,
      events: seq<AuditEvent>, events': seq<AuditEvent>, rows: seq<AuditEntry>, rows': seq<AuditEntry>)
    requires IsNaming(f) && RecordsAll(f, log, events) && RecordsAll(f, log', events')
    requires InTimeOrder(events) && InTimeOrder(events')
    requires Appended(h, events, rows) && Appended(h, events', rows')
    requires HashBefore(h, Links(rows), |rows|) == HashBefore(h, Links(rows'), |rows'|)
    ensures SameHistory(log, log') || CollisionIn(h, Hashed(Links(rows)) + Hashed(Links(rows')))
  {
    hide *;
    TrailIsValid(h, events, rows);
    TrailIsValid(h, events', rows');
    RowsWellFormed(h, f, log, events, rows);
    RowsWellFormed(h, f, log', events', rows');
    HeadHashCommits(h, rows, rows');
    if !CollisionIn(h, Hashed(Links(rows)) + Hashed(Links(rows'))) {
      SameRowsSameHistory(h, f, log, log', events, events', rows, rows');
    }
  }

  /** The last hash of the audit table fixes the whole history: two runs whose tables end in the same
      hash logged the same events by the same actors in the same order, or strings that were hashed for
      them collide. */
  lemma {:induction false} HeadHashFixesHistory(
      h: HashFn, f: imap<int, JsString>, run: seq<Action>, run': seq<Action>,
      events: seq<AuditEvent>, events': seq<AuditEvent>, rows: seq<AuditEntry>, rows': seq<AuditEntry>)
    requires IsNaming(f) && RecordsAll(f, After(run).db.log, events) && RecordsAll(f, After(run').db.log, events')
    requires Appended(h, events, rows) && Appended(h, events', rows')
    requires HashBefore(h, Links(rows), |rows|) == HashBefore(h, Links(rows'), |rows'|)
    ensures
      || SameHistory(After(run).db.log, After(run').db.log)
      || CollisionIn(h, Hashed(Links(rows)) + Hashed(Links(rows')))
  {
    hide *;
    EventsInTimeOrder(f, run, events);
    EventsInTimeOrder(f, run', events');
    HeadHashFixesLog(h, f, After(run).db.log, After(run').db.log, events, events', rows, rows');
  }
}
