/** Backend/src/modules/audit: the hash-chained log, its verification, and what tampering shows. */
module AuditLog {
  import opened JsText
  import opened Json
  import opened JsonReading
  import opened JsonPrinting
  import opened CanonicalForm
  import opened KeyOrder
  import opened Hashing
  import opened HashChain

  const ACTOR_ID: JsString := Ascii("actorId")
  const EVENT_TYPE: JsString := Ascii("eventType")
  const EVENT_DATA: JsString := Ascii("eventData")

  datatype AuditEntry = AuditEntry(
    id: JsString, actorId: JsString, eventType: JsString, eventData: Json,
    previousHash: JsString, currentHash: JsString, createdAt: int)

  /** What a caller hands to `appendAuditEvent`, with the row id and time stamp the row gets. */
  datatype AuditEvent = AuditEvent(
    id: JsString, actorId: JsString, eventType: JsString, eventData: Json, createdAt: int)

  datatype BreakReason = WrongPreviousHash | AlteredContent

  datatype ChainVerification =
    | Valid(entriesChecked: nat)
    | Broken(brokenAtId: JsString, entriesChecked: nat, reason: BreakReason)

  function Payload(actorId: JsString, eventType: JsString, eventData: Json): Json {
    Obj([Field(ACTOR_ID, Str(actorId)), Field(EVENT_TYPE, Str(eventType)), Field(EVENT_DATA, eventData)])
  }

  function EventItem(e: AuditEvent): Item {
    Item(CanonicalStringify(Payload(e.actorId, e.eventType, e.eventData)), e.createdAt)
  }

  function LinkOf(e: AuditEntry): Link {
    Link(CanonicalStringify(Payload(e.actorId, e.eventType, e.eventData)),
         e.previousHash, e.currentHash, e.createdAt)
  }

  /** The chain that a list of entries forms. */
  function Links(log: seq<AuditEntry>): (links: seq<Link>)
    ensures |links| == |log|
    ensures forall i {:trigger links[i]} | 0 <= i < |log| :: links[i] == LinkOf(log[i])
  {
    seq(|log|, i requires 0 <= i < |log| => LinkOf(log[i]))
  }

  lemma {:induction false} LinksSnoc(log: seq<AuditEntry>, e: AuditEntry)
    ensures Links(log + [e]) == Links(log) + [LinkOf(e)]
  {
    hide LinkOf;
  }

  lemma {:induction false} LinksUpdated(log: seq<AuditEntry>, i: nat, e: AuditEntry)
    requires i < |log|
    ensures Links(log[i := e]) == Links(log)[i := LinkOf(e)]
  {
    hide LinkOf;
  }

  // ---------- appending ----------

  /** The row that `appendAuditEvent` inserts. */
  function NewEntry(h: HashFn, rows: seq<AuditEntry>, e: AuditEvent): AuditEntry {
    var previousHash := LastHash(h, Links(rows));
    AuditEntry(e.id, e.actorId, e.eventType, e.eventData, previousHash,
               ComputeChainHash(h, Payload(e.actorId, e.eventType, e.eventData), previousHash),
               e.createdAt)
  }

  lemma {:induction false} NewEntryLink(h: HashFn, rows: seq<AuditEntry>, e: AuditEvent)
    ensures LinkOf(NewEntry(h, rows, e)) == NextLink(h, Links(rows), EventItem(e))
    ensures Links(rows + [NewEntry(h, rows, e)]) == Links(rows) + [NextLink(h, Links(rows), EventItem(e))]
  {
    hide CanonicalStringify;
    hide Payload;
    hide Links;
    assert LinkOf(NewEntry(h, rows, e)) == NextLink(h, Links(rows), EventItem(e));
    hide *;
    LinksSnoc(rows, NewEntry(h, rows, e));
  }

  /** The rows that appending the events one after the other to an empty table leaves. */
  ghost predicate Appended(h: HashFn, events: seq<AuditEvent>, rows: seq<AuditEntry>) {
    && |rows| == |events|
    && forall k: nat | k < |rows| :: AppendedAt(h, events, rows, k)
  }

  ghost predicate AppendedAt(h: HashFn, events: seq<AuditEvent>, rows: seq<AuditEntry>, k: nat)
    requires k < |rows| == |events|
  {
    rows[k] == NewEntry(h, rows[..k], events[k])
  }

  lemma {:induction false} AppendedBuilt(h: HashFn, events: seq<AuditEvent>, rows: seq<AuditEntry>)
    requires Appended(h, events, rows)
    ensures Built(h, Items(events), Links(rows))
  {
    hide NewEntry;
    hide LinkOf;
    hide EventItem;
    hide NextLink;
    hide Payload;
    hide CanonicalStringify;
    var items, links := Items(events), Links(rows);
    forall k: nat | k < |links| ensures BuiltAt(h, items, links, k) {
      assert AppendedAt(h, events, rows, k);
      NewEntryLink(h, rows[..k], events[k]);
      assert Links(rows[..k]) == links[..k];
    }
  }

  function Items(events: seq<AuditEvent>): (items: seq<Item>)
    ensures |items| == |events|
    ensures forall i {:trigger items[i]} | 0 <= i < |events| :: items[i] == EventItem(events[i])
  {
    seq(|events|, i requires 0 <= i < |events| => EventItem(events[i]))
  }

  /** No event carries a time stamp earlier than an event appended before it. */
  ghost predicate InTimeOrder(events: seq<AuditEvent>) {
    forall i, j | 0 <= i < j < |events| :: events[i].createdAt <= events[j].createdAt
  }

  lemma ItemStamps(events: seq<AuditEvent>)
    ensures InStampOrder(Items(events)) <==> InTimeOrder(events)
  {
    hide CanonicalStringify;
    assert forall i | 0 <= i < |events| :: Items(events)[i].createdAt == events[i].createdAt;
  }

  // ---------- verification ----------

  /** The loop of `verifyChainIntegrity`: accepts exactly the valid chains, and otherwise
      points at the first position that breaks, saying which of the two checks failed. */
  method VerifyEntries(h: HashFn, entries: seq<AuditEntry>) returns (r: ChainVerification)
    ensures r.Valid? <==> ChainValid(h, Links(entries))
    ensures r.Valid? ==> r.entriesChecked == |entries|
    ensures r.Broken? ==> BreaksAt(h, Links(entries), r.entriesChecked)
    ensures r.Broken? ==> r.brokenAtId == entries[r.entriesChecked].id
    ensures r.Broken? ==>
              (r.reason == WrongPreviousHash <==>
               entries[r.entriesChecked].previousHash != HashBefore(h, Links(entries), r.entriesChecked))
  {
    hide LinkOf;
    hide CanonicalStringify;
    hide Payload;
    hide ComputeChainHash;
    hide LinkOk;
    var expectedPreviousHash := Digest(h, GENESIS_SEED);
    for i := 0 to |entries|
      invariant expectedPreviousHash == HashBefore(h, Links(entries), i)
      invariant forall j: nat | j < i :: LinkOk(h, Links(entries), j)
    {
      var entry := entries[i];
      EntryChecks(h, entries, i);
      if entry.previousHash != expectedPreviousHash {
        return Broken(entry.id, i, WrongPreviousHash);
      }
      var recomputed :=
        ComputeChainHash(h, Payload(entry.actorId, entry.eventType, entry.eventData), entry.previousHash);
      if recomputed != entry.currentHash {
        return Broken(entry.id, i, AlteredContent);
      }
      expectedPreviousHash := entry.currentHash;
    }
    return Valid(|entries|);
  }

  /** The two checks of the loop are the two halves of a good link. */
  lemma {:induction false} EntryChecks(h: HashFn, entries: seq<AuditEntry>, i: nat)
    requires i < |entries|
    ensures
      var e := entries[i];
      LinkOk(h, Links(entries), i) <==>
        && e.previousHash == HashBefore(h, Links(entries), i)
        && e.currentHash == ComputeChainHash(h, Payload(e.actorId, e.eventType, e.eventData), e.previousHash)
    ensures HashBefore(h, Links(entries), i + 1) == entries[i].currentHash
  {
    hide CanonicalStringify;
  }

  // ---------- what the chained text says ----------

  lemma PayloadNames()
    ensures ACTOR_ID != EVENT_TYPE && EVENT_TYPE != EVENT_DATA && ACTOR_ID != EVENT_DATA
    ensures ACTOR_ID != PROTO && EVENT_TYPE != PROTO && EVENT_DATA != PROTO
  {
    assert ACTOR_ID[0] == 97 && EVENT_TYPE[0] == 101 && EVENT_DATA[0] == 101;
    assert EVENT_TYPE[5] == 84 && EVENT_DATA[5] == 68;
  }

  lemma {:induction false} ThreeVisible(k: JsString, s: Json, l: JsString, t: Json, m: JsString, u: Json)
    requires k != PROTO && l != PROTO && m != PROTO
    ensures Visible(Obj([Field(k, s), Field(l, t), Field(m, u)])) ==
            Obj([Field(k, Visible(s)), Field(l, Visible(t)), Field(m, Visible(u))])
  {
    var f0 := [Field(m, u)];
    var f1 := [Field(l, t)] + f0;
    var f2 := [Field(k, s)] + f1;
    assert f2 == [Field(k, s), Field(l, t), Field(m, u)];
    assert f2[1..] == f1 && f1[1..] == f0 && f0[1..] == [];
    assert VisibleFields(f0) == [Field(m, Visible(u))];
    assert VisibleFields(f1) == [Field(l, Visible(t))] + VisibleFields(f0);
    assert VisibleFields(f2) == [Field(k, Visible(s))] + VisibleFields(f1);
  }

  lemma {:induction false} ThreeMembers(k: JsString, s: Json, l: JsString, t: Json, m: JsString, u: Json)
    requires k != l && l != m && k != m
    ensures MeaningOf(Obj([Field(k, s), Field(l, t), Field(m, u)])) ==
            MObj(map[k := MeaningOf(s), l := MeaningOf(t), m := MeaningOf(u)])
  {
    var f0 := [Field(m, u)];
    var f1 := [Field(l, t)] + f0;
    var f2 := [Field(k, s)] + f1;
    assert f2 == [Field(k, s), Field(l, t), Field(m, u)];
    assert f2[1..] == f1 && f1[1..] == f0 && f0[1..] == [];
    assert FieldsMeaning(f0) == map[m := MeaningOf(u)];
    assert FieldsMeaning(f1) == FieldsMeaning(f0)[l := MeaningOf(t)];
    assert FieldsMeaning(f2) == FieldsMeaning(f1)[k := MeaningOf(s)];
  }

  lemma {:induction false} PayloadMeaning(actorId: JsString, eventType: JsString, eventData: Json)
    requires WellFormed(eventData)
    ensures WellFormed(Payload(actorId, eventType, eventData))
    ensures MeaningOf(Visible(Payload(actorId, eventType, eventData))) ==
            MObj(map[ACTOR_ID := MStr(actorId), EVENT_TYPE := MStr(eventType),
                     EVENT_DATA := MeaningOf(Visible(eventData))])
  {
    PayloadNames();
    ThreeVisible(ACTOR_ID, Str(actorId), EVENT_TYPE, Str(eventType), EVENT_DATA, eventData);
    ThreeMembers(ACTOR_ID, Str(actorId), EVENT_TYPE, Str(eventType), EVENT_DATA, Visible(eventData));
    StringMeaning(actorId);
    StringMeaning(eventType);
    hide Visible;
    hide MeaningOf;
  }

  lemma {:induction false} StringMeaning(s: JsString)
    ensures Visible(Str(s)) == Str(s) && MeaningOf(Str(s)) == MStr(s)
  {}

  /** A payload in the order of its names. */
  function SortedPayload(actorId: JsString, eventType: JsString, eventData: Json): Json {
    Obj([Field(Ascii("actorId"), Str(actorId)), Field(Ascii("eventData"), Canonical(eventData)),
         Field(Ascii("eventType"), Str(eventType))])
  }

  lemma {:induction false} PayloadOrder()
    ensures KeyBefore(ACTOR_ID, EVENT_DATA) && KeyBefore(EVENT_DATA, EVENT_TYPE) && KeyBefore(ACTOR_ID, EVENT_TYPE)
    ensures !KeyBefore(EVENT_TYPE, EVENT_DATA)
  {
    assert ACTOR_ID[0] == 97 && EVENT_TYPE[0] == 101 && EVENT_DATA[0] == 101;
    assert EVENT_TYPE[..5] == EVENT_DATA[..5] && EVENT_TYPE[5] == 84 && EVENT_DATA[5] == 68;
    LexLessMeans(EVENT_DATA, EVENT_TYPE);
    assert DiffersFirst(EVENT_DATA, EVENT_TYPE, 5);
    KeyBeforeTotal(EVENT_DATA, EVENT_TYPE);
  }

  lemma {:induction false} PayloadSorted(actorId: JsString, eventType: JsString, eventData: Json)
    ensures Canonical(Payload(actorId, eventType, eventData)) == SortedPayload(actorId, eventType, eventData)
  {
    PayloadNames();
    PayloadOrder();
    var a, t, d := Field(ACTOR_ID, Str(actorId)), Field(EVENT_TYPE, Str(eventType)), Field(EVENT_DATA, eventData);
    var d' := Field(EVENT_DATA, Canonical(eventData));
    hide KeyBefore;
    assert [a, t, d][1..] == [t, d] && [t, d][1..] == [d] && [d][1..] == [];
    assert CanonicalFields([]) == [] && CanonicalFields([d]) == [d'];
    assert Canonical(a.value) == a.value && Canonical(t.value) == t.value;
    assert CanonicalFields([t, d]) == [t, d'] && CanonicalFields([a, t, d]) == [a, t, d'];
    assert [a, t, d'][1..] == [t, d'] && [t, d'][1..] == [d'] && [d'][1..] == [];
    assert SortFields([]) == [] && SortFields([d']) == [d'];
    assert InsertField(t, []) == [t] && InsertField(t, [d']) == [d'] + InsertField(t, []) == [d', t];
    assert SortFields([t, d']) == InsertField(t, SortFields([d'])) == [d', t];
    assert InsertField(a, [d', t]) == [a] + [d', t] == [a, d', t];
    assert SortFields([a, t, d']) == [a, d', t];
  }

  /** The text whose hash an appended row carries: the canonical JSON of actor, data and type, in this order,
      followed by the previous hash. */
  lemma {:induction false} HashedTextReads(h: HashFn, rows: seq<AuditEntry>, e: AuditEvent) returns (text: JsString)
    ensures NewEntry(h, rows, e).currentHash == Digest(h, text)
    ensures ReadValue(text) ==
            Good(SortedPayload(e.actorId, e.eventType, e.eventData), NewEntry(h, rows, e).previousHash)
  {
    var payload := Payload(e.actorId, e.eventType, e.eventData);
    text := CanonicalStringify(payload) + NewEntry(h, rows, e).previousHash;
    PayloadSorted(e.actorId, e.eventType, e.eventData);
    ReadBack(Canonical(payload), NewEntry(h, rows, e).previousHash);
    hide Canonical;
    hide Print;
    hide ReadValue;
    hide Links;
  }

  /** Equal in what is chained: event data up to key order and `__proto__` properties. */
  ghost predicate SameContent(a: AuditEntry, b: AuditEntry) {
    && a.actorId == b.actorId
    && a.eventType == b.eventType
    && MeaningOf(Visible(a.eventData)) == MeaningOf(Visible(b.eventData))
  }

  /** Entries have one chained text exactly when they have the same content. */
  lemma {:induction false} BodyDecidesContent(a: AuditEntry, b: AuditEntry)
    requires WellFormed(a.eventData) && WellFormed(b.eventData)
    ensures LinkOf(a).body == LinkOf(b).body <==> SameContent(a, b)
  {
    PayloadMeaning(a.actorId, a.eventType, a.eventData);
    PayloadMeaning(b.actorId, b.eventType, b.eventData);
    PayloadNames();
    var p, q := Payload(a.actorId, a.eventType, a.eventData), Payload(b.actorId, b.eventType, b.eventData);
    StringifyDecidesMeaning(p, q);
    var m, n := MeaningOf(Visible(p)).members, MeaningOf(Visible(q)).members;
    assert m == n ==> m[ACTOR_ID] == n[ACTOR_ID] && m[EVENT_TYPE] == n[EVENT_TYPE] && m[EVENT_DATA] == n[EVENT_DATA];
  }

  ghost predicate WellFormedLog(log: seq<AuditEntry>) {
    forall i | 0 <= i < |log| :: WellFormed(log[i].eventData)
  }

  // ---------- the head hash commits to the whole log ----------

  lemma SameLinkSameEntry(a: seq<AuditEntry>, b: seq<AuditEntry>, i: nat)
    requires WellFormedLog(a) && WellFormedLog(b) && i < |a| && i < |b| && SameLink(Links(a)[i], Links(b)[i])
    ensures SameEntry(a[i], b[i])
  {
    BodyDecidesContent(a[i], b[i]);
    hide WellFormed;
    hide MeaningOf;
    hide Visible;
    hide CanonicalStringify;
    hide Payload;
  }

  /** Entries that agree on actor, event type, event data and hashes. */
  ghost predicate SameEntry(a: AuditEntry, b: AuditEntry) {
    SameContent(a, b) && a.previousHash == b.previousHash && a.currentHash == b.currentHash
  }

  /** Two verified logs with one head hash agree entry by entry, or strings hashed for them collide. */
  lemma {:induction false} HeadHashCommits(h: HashFn, a: seq<AuditEntry>, b: seq<AuditEntry>)
    requires ChainValid(h, Links(a)) && ChainValid(h, Links(b)) && WellFormedLog(a) && WellFormedLog(b)
    requires HashBefore(h, Links(a), |a|) == HashBefore(h, Links(b), |b|)
    ensures || (|a| == |b| && forall i | 0 <= i < |a| :: SameEntry(a[i], b[i]))
            || CollisionIn(h, Hashed(Links(a)) + Hashed(Links(b)))
  {
    hide *;
    HeadCommits(h, Links(a), Links(b));
    if !CollisionIn(h, Hashed(Links(a)) + Hashed(Links(b))) {
      forall i | 0 <= i < |a| ensures SameEntry(a[i], b[i]) {
        SameLinkSameEntry(a, b, i);
      }
    }
  }

  // ---------- tampering is reported at the first affected position ----------

  /** An entry whose content changes under unchanged hashes is reported where it stands. */
  lemma {:induction false} EditReported(h: HashFn, log: seq<AuditEntry>, i: nat, edited: AuditEntry)
    requires ChainValid(h, Links(log)) && i < |log|
    requires WellFormed(log[i].eventData) && WellFormed(edited.eventData) && !SameContent(edited, log[i])
    requires edited.previousHash == log[i].previousHash && edited.currentHash == log[i].currentHash
    requires edited.createdAt == log[i].createdAt
    ensures || BreaksAt(h, Links(log[i := edited]), i)
            || CollisionIn(h, Hashed(Links(log)) + {Text(LinkOf(edited))})
  {
    BodyDecidesContent(edited, log[i]);
    EditBreaks(h, Links(log), i, LinkOf(edited).body);
    assert Links(log)[i].(body := LinkOf(edited).body) == LinkOf(edited);
    assert Links(log[i := edited]) == Links(log)[i := LinkOf(edited)];
  }

  /** An edit that also recomputes its own hash is reported at the next entry, and at the last
      entry of the log it is not reported at all. */
  lemma {:induction false} RehashedEditReported(h: HashFn, log: seq<AuditEntry>, i: nat, edited: AuditEntry)
    requires ChainValid(h, Links(log)) && i < |log|
    requires WellFormed(log[i].eventData) && WellFormed(edited.eventData) && !SameContent(edited, log[i])
    requires LinkOf(edited) == Rehashed(h, Links(log)[i], LinkOf(edited).body)
    ensures i + 1 == |log| ==> ChainValid(h, Links(log[i := edited]))
    ensures i + 1 < |log| ==>
              || BreaksAt(h, Links(log[i := edited]), i + 1)
              || CollisionIn(h, Hashed(Links(log)) + {Text(LinkOf(edited))})
  {
    hide *;
    BodyDecidesContent(edited, log[i]);
    RehashedEditBreaks(h, Links(log), i, LinkOf(edited).body);
    LinksUpdated(log, i, edited);
  }

  /** A removed entry is reported at the one that takes its place; a removed last entry is not. */
  lemma {:induction false} DeletionReported(h: HashFn, log: seq<AuditEntry>, i: nat)
    requires ChainValid(h, Links(log)) && i < |log|
    ensures i + 1 == |log| ==> ChainValid(h, Links(log[..i] + log[i + 1..]))
    ensures i + 1 < |log| ==>
              || BreaksAt(h, Links(log[..i] + log[i + 1..]), i)
              || CollisionIn(h, Hashed(Links(log)))
  {
    hide LinkOf;
    DeletionBreaks(h, Links(log), i);
    assert Links(log[..i] + log[i + 1..]) == Links(log)[..i] + Links(log)[i + 1..];
  }

  /** Exchanged neighbours are reported at the first of the two. */
  lemma {:induction false} SwapReported(h: HashFn, log: seq<AuditEntry>, i: nat)
    requires ChainValid(h, Links(log)) && i + 1 < |log|
    ensures || BreaksAt(h, Links(log[..i] + [log[i + 1], log[i]] + log[i + 2..]), i)
            || CollisionIn(h, Hashed(Links(log)))
  {
    hide LinkOf;
    SwapBreaks(h, Links(log), i);
    assert Links(log[..i] + [log[i + 1], log[i]] + log[i + 2..]) == Swapped(Links(log), i);
  }

  /** The same in the table: two rows that follow each other in time exchange their time stamps. The log
      is read by time, so they are read in the other order, and the first of the two is reported. */
  lemma {:induction false} ExchangeReported(h: HashFn, log: seq<AuditEntry>, i: nat, tampered: seq<AuditEntry>)
    requires ChainValid(h, Links(log)) && InRowOrder(log)
    requires i + 1 < |log| && log[i].createdAt < log[i + 1].createdAt
    requires tampered == log[i := log[i].(createdAt := log[i + 1].createdAt)]
                            [i + 1 := log[i + 1].(createdAt := log[i].createdAt)]
    ensures BreaksAt(h, InOrder(Links(tampered)), i) || CollisionIn(h, Hashed(Links(log)))
  {
    ExchangedRows(log, i, tampered);
    hide *;
    ExchangeBreaks(h, Links(log), i);
  }

  lemma ExchangedRows(log: seq<AuditEntry>, i: nat, tampered: seq<AuditEntry>)
    requires InRowOrder(log) && i + 1 < |log| && log[i].createdAt < log[i + 1].createdAt
    requires tampered == log[i := log[i].(createdAt := log[i + 1].createdAt)]
                            [i + 1 := log[i + 1].(createdAt := log[i].createdAt)]
    ensures Ordered(Links(log)) && Links(log)[i].createdAt < Links(log)[i + 1].createdAt
    ensures Links(tampered) == Exchanged(Links(log), i)
  {
    forall k | 0 <= k < |log| ensures Links(log)[k].createdAt == log[k].createdAt {
      StampOf(log[k]);
    }
    Restamped(log[i], log[i + 1].createdAt);
    Restamped(log[i + 1], log[i].createdAt);
    hide LinkOf;
  }

  lemma Restamped(e: AuditEntry, at: int)
    ensures LinkOf(e.(createdAt := at)) == LinkOf(e).(createdAt := at)
  {
    hide CanonicalStringify;
  }

  /** The rows stand in the order of their time stamps. */
  ghost predicate InRowOrder(log: seq<AuditEntry>) {
    forall i, j | 0 <= i < j < |log| :: log[i].createdAt <= log[j].createdAt
  }

  // ---------- logs that only appendAuditEvent wrote ----------

  /** Such a log, read back by time, verifies exactly when no event was stamped earlier than an
      event already in the log, unless strings hashed for it collide. */
  lemma {:induction false} AppendedVerifiesIff(h: HashFn, events: seq<AuditEvent>, rows: seq<AuditEntry>)
    requires Appended(h, events, rows)
    ensures || (ChainValid(h, InOrder(Links(rows))) <==> InTimeOrder(events))
            || CollisionIn(h, Hashed(Links(rows)))
  {
    AppendedBuilt(h, events, rows);
    BuiltVerifiesIff(h, Items(events), Links(rows));
    ItemStamps(events);
  }

  /** The log as the JSONB column returns it: event data equal in meaning, keys in any order. */
  ghost predicate StoredAs(log: seq<AuditEntry>, stored: seq<AuditEntry>) {
    && |log| == |stored|
    && forall i | 0 <= i < |log| :: StoredEntry(log[i], stored[i])
  }

  ghost predicate StoredEntry(e: AuditEntry, s: AuditEntry) {
    && s == e.(eventData := s.eventData)
    && WellFormed(e.eventData) && WellFormed(s.eventData)
    && ProtoFree(e.eventData) && ProtoFree(s.eventData)
    && MeaningOf(s.eventData) == MeaningOf(e.eventData)
  }

  /** Reordered keys are invisible: the stored log forms the same chain. */
  lemma StorageKeepsChain(log: seq<AuditEntry>, stored: seq<AuditEntry>)
    requires StoredAs(log, stored)
    ensures Links(stored) == Links(log)
  {
    forall i | 0 <= i < |log| ensures LinkOf(stored[i]) == LinkOf(log[i]) {
      assert StoredEntry(log[i], stored[i]);
      VisibleId(stored[i].eventData);
      VisibleId(log[i].eventData);
      BodyDecidesContent(stored[i], log[i]);
    }
  }

  /** Appended in time order and stored with reordered keys, a log verifies. */
  lemma {:induction false} AppendedLogVerifies(
      h: HashFn, events: seq<AuditEvent>, rows: seq<AuditEntry>, stored: seq<AuditEntry>)
    requires Appended(h, events, rows) && StoredAs(rows, stored)
    requires InTimeOrder(events)
    ensures InOrder(Links(stored)) == Links(stored) && ChainValid(h, Links(stored))
  {
    StorageKeepsChain(rows, stored);
    ItemStamps(events);
    AppendedBuilt(h, events, rows);
    BuiltChain(h, Items(events), Links(rows));
    InOrderSorts(Links(rows));
  }

  // ---------- the table ----------

  /** Inserts behind everything that is not later. */
  method PlaceEntry(entries: seq<AuditEntry>, e: AuditEntry) returns (placed: seq<AuditEntry>)
    ensures |placed| == |entries| + 1 && Links(placed) == Place(LinkOf(e), Links(entries))
    ensures multiset(placed) == multiset(entries) + multiset{e}
  {
    hide LinkOf;
    hide Place;
    var j := |entries|;
    while j > 0 && entries[j - 1].createdAt > e.createdAt
      invariant 0 <= j <= |entries|
      invariant forall k | j <= k < |entries| :: entries[k].createdAt > e.createdAt
    {
      j := j - 1;
    }
    EntryPlaced(e, entries, j);
    assert entries == entries[..j] + entries[j..];
    placed := entries[..j] + [e] + entries[j..];
  }

  /** No row is stamped later, and no row after it at the same time. */
  predicate IsNewest(rows: seq<AuditEntry>, i: nat) {
    && i < |rows|
    && forall j: nat | j < |rows| ::
         rows[j].createdAt < rows[i].createdAt || (j <= i && rows[j].createdAt == rows[i].createdAt)
  }

  lemma {:induction false} NewestFound(rows: seq<AuditEntry>)
    requires rows != []
    ensures IsNewest(rows, Newest(Links(rows)))
  {
    hide LinkOf;
    var newest := Newest(Links(rows));
    StampOf(rows[newest]);
    forall j: nat | j < |rows|
      ensures rows[j].createdAt < rows[newest].createdAt || (j <= newest && rows[j].createdAt == rows[newest].createdAt)
    {
      StampOf(rows[j]);
      NewestLatest(Links(rows), j);
    }
  }

  class AuditTable {
    var rows: seq<AuditEntry>
    /** Every event that was appended, in the order of the appends. */
    ghost var events: seq<AuditEvent>

    ghost predicate Valid(h: HashFn)
      reads this
    {
      Appended(h, events, rows)
    }

    constructor (h: HashFn)
      ensures Valid(h) && rows == [] && events == []
    {
      rows, events := [], [];
    }

    /** `findFirst` by `createdAt` descending. */
    method FindNewest() returns (last: nat)
      requires rows != []
      ensures last < |rows| && last == Newest(Links(rows)) && IsNewest(rows, last)
    {
      hide LinkOf;
      last := 0;
      for i := 1 to |rows|
        invariant last < i && last == Newest(Links(rows)[..i])
      {
        StampOf(rows[i]);
        StampOf(rows[last]);
        assert Links(rows)[..i + 1][..i] == Links(rows)[..i];
        if rows[i].createdAt >= rows[last].createdAt { last := i; }
      }
      assert Links(rows)[..|rows|] == Links(rows);
      NewestFound(rows);
    }

    /** Reads the newest row, chains to it, and inserts. */
    method AppendAuditEvent(h: HashFn, e: AuditEvent) returns (entry: AuditEntry)
      requires Valid(h)
      modifies this
      ensures Valid(h) && events == old(events) + [e]
      ensures rows == old(rows) + [entry] && entry == NewEntry(h, old(rows), e)
      ensures entry.id == e.id && entry.actorId == e.actorId && entry.eventType == e.eventType
      ensures entry.eventData == e.eventData && entry.createdAt == e.createdAt
      ensures old(rows) == [] ==> entry.previousHash == Digest(h, GENESIS_SEED)
      ensures old(rows) != [] ==>
              exists i: nat :: IsNewest(old(rows), i) && entry.previousHash == old(rows)[i].currentHash
    {
      hide CanonicalStringify;
      hide LinkOf;
      hide Payload;
      hide ComputeChainHash;
      hide Appended;
      hide LastHash;
      hide Newest;
      hide IsNewest;
      LastHashOf(h, rows);
      var previousHash := Digest(h, GENESIS_SEED);
      if rows != [] {
        var last := FindNewest();
        previousHash := rows[last].currentHash;
      }
      var currentHash := ComputeChainHash(h, Payload(e.actorId, e.eventType, e.eventData), previousHash);
      entry := AuditEntry(e.id, e.actorId, e.eventType, e.eventData, previousHash, currentHash, e.createdAt);
      AppendedByOne(h, events, rows, e);
      rows := rows + [entry];
      events := events + [e];
    }

    /** The rows ordered by `createdAt` ascending. */
    method FindAllEntriesInOrder() returns (entries: seq<AuditEntry>)
      ensures multiset(entries) == multiset(rows)
      ensures |entries| == |rows| && Links(entries) == InOrder(Links(rows))
    {
      hide LinkOf;
      hide Place;
      entries := [];
      for i := 0 to |rows|
        invariant |entries| == i && Links(entries) == InOrder(Links(rows)[..i])
        invariant multiset(entries) == multiset(rows[..i])
      {
        assert Links(rows)[..i + 1][..i] == Links(rows)[..i];
        assert rows[..i + 1] == rows[..i] + [rows[i]];
        entries := PlaceEntry(entries, rows[i]);
      }
      assert Links(rows)[..|rows|] == Links(rows) && rows[..|rows|] == rows;
    }

    /** On any table, however it came about: accepts it exactly when the chain in time order is valid, and
        otherwise names a row that stands at the first break. A table that was only appended to, in time
        order, is always accepted. */
    method VerifyChainIntegrity(h: HashFn) returns (r: ChainVerification)
      ensures r.Valid? <==> ChainValid(h, InOrder(Links(rows)))
      ensures r.Valid? ==> r.entriesChecked == |rows|
      ensures r.Broken? ==> BreaksAt(h, InOrder(Links(rows)), r.entriesChecked)
      ensures r.Broken? ==> exists e :: e in rows && StandsAt(rows, e, r.entriesChecked) && e.id == r.brokenAtId
      ensures r.Broken? ==>
                (r.reason == WrongPreviousHash <==>
                 InOrder(Links(rows))[r.entriesChecked].previousHash !=
                 HashBefore(h, InOrder(Links(rows)), r.entriesChecked))
      ensures Valid(h) && InTimeOrder(events) ==> r == ChainVerification.Valid(|rows|)
    {
      hide LinkOf;
      var entries := FindAllEntriesInOrder();
      r := VerifyEntries(h, entries);
      if r.Broken? {
        var e := entries[r.entriesChecked];
        assert e in multiset(entries);
        assert Links(entries)[r.entriesChecked] == LinkOf(e);
        PreviousHashOf(e);
        assert StandsAt(rows, e, r.entriesChecked);
      }
      if Valid(h) && InTimeOrder(events) { InOrderAccepted(h, events, rows); }
    }
  }

  /** The row is the one at a position of the time order. */
  ghost predicate StandsAt(rows: seq<AuditEntry>, e: AuditEntry, k: nat) {
    k < |InOrder(Links(rows))| && LinkOf(e) == InOrder(Links(rows))[k]
  }

  lemma PreviousHashOf(e: AuditEntry)
    ensures LinkOf(e).previousHash == e.previousHash
  {
    hide CanonicalStringify;
  }

  lemma {:induction false} LastHashOf(h: HashFn, rows: seq<AuditEntry>)
    ensures rows == [] ==> LastHash(h, Links(rows)) == Digest(h, GENESIS_SEED)
    ensures rows != [] ==> LastHash(h, Links(rows)) == rows[Newest(Links(rows))].currentHash
  {
    hide CanonicalStringify;
    hide Payload;
  }

  lemma StampOf(e: AuditEntry)
    ensures LinkOf(e).createdAt == e.createdAt
  {
    hide CanonicalStringify;
  }

  lemma {:induction false} PlacedAt(e: Link, s: seq<Link>, j: nat)
    requires j <= |s| && forall k | j <= k < |s| :: s[k].createdAt > e.createdAt
    requires j > 0 ==> s[j - 1].createdAt <= e.createdAt
    ensures Place(e, s) == s[..j] + [e] + s[j..]
  {
    if j < |s| {
      PlacedAt(e, s[..|s| - 1], j);
      assert s[..|s| - 1][..j] == s[..j];
    } else {
      assert s[..j] == s && s[j..] == [];
    }
  }

  lemma {:induction false} EntryPlaced(e: AuditEntry, entries: seq<AuditEntry>, j: nat)
    requires j <= |entries| && forall k | j <= k < |entries| :: entries[k].createdAt > e.createdAt
    requires j > 0 ==> entries[j - 1].createdAt <= e.createdAt
    ensures Links(entries[..j] + [e] + entries[j..]) == Place(LinkOf(e), Links(entries))
  {
    hide LinkOf;
    StampOf(e);
    forall k | 0 <= k < |entries| ensures Links(entries)[k].createdAt == entries[k].createdAt {
      StampOf(entries[k]);
    }
    PlacedAt(LinkOf(e), Links(entries), j);
  }

  lemma {:induction false} InOrderAccepted(h: HashFn, events: seq<AuditEvent>, rows: seq<AuditEntry>)
    requires Appended(h, events, rows) && InTimeOrder(events)
    ensures ChainValid(h, InOrder(Links(rows)))
  {
    hide LinkOf;
    ItemStamps(events);
    AppendedBuilt(h, events, rows);
    BuiltChain(h, Items(events), Links(rows));
    InOrderSorts(Links(rows));
  }

  lemma {:induction false} AppendedByOne(h: HashFn, events: seq<AuditEvent>, rows: seq<AuditEntry>, e: AuditEvent)
    requires Appended(h, events, rows)
    ensures Appended(h, events + [e], rows + [NewEntry(h, rows, e)])
  {
    hide NewEntry;
    var r := rows + [NewEntry(h, rows, e)];
    forall k: nat | k < |r| ensures AppendedAt(h, events + [e], r, k) {
      assert r[..k] == rows[..k];
      if k == |rows| {
        assert rows[..k] == rows;
      } else {
        assert AppendedAt(h, events, rows, k);
      }
    }
  }
}
