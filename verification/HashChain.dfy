/** A hash chain over texts: what makes one valid, and what an alteration does to it. */
module HashChain {
  import opened JsText

  const DIGEST_LENGTH := 64

  /** SHA-256 as a hex string. Only the length of its result is known: no injectivity. */
  type HashFn = h: imap<JsString, JsString> | forall s: JsString :: s in h && |h[s]| == DIGEST_LENGTH
    ghost witness imap s: JsString :: seq(DIGEST_LENGTH, _ => 48)

  function Digest(h: HashFn, s: JsString): (d: JsString)
    ensures |d| == DIGEST_LENGTH
  {
    h[s]
  }

  /** The genesis hash is the digest of this text, too short to be a chained text. */
  const GENESIS_SEED: JsString := Ascii("SEVS-DEKUT-GENESIS-2026")

  datatype Link = Link(body: JsString, previousHash: JsString, currentHash: JsString, createdAt: int)

  /** The string that is hashed for a link. */
  function Text(l: Link): JsString { l.body + l.previousHash }

  /** The hash before position `i`. */
  function HashBefore(h: HashFn, log: seq<Link>, i: nat): JsString
    requires i <= |log|
  {
    if i == 0 then Digest(h, GENESIS_SEED) else log[i - 1].currentHash
  }

  predicate LinkOk(h: HashFn, log: seq<Link>, i: nat)
    requires i < |log|
  {
    log[i].previousHash == HashBefore(h, log, i) && log[i].currentHash == Digest(h, Text(log[i]))
  }

  predicate ChainValid(h: HashFn, log: seq<Link>) {
    forall i: nat | i < |log| :: LinkOk(h, log, i)
  }

  /** The first position where the chain does not hold. */
  predicate BreaksAt(h: HashFn, log: seq<Link>, i: nat) {
    i < |log| && !LinkOk(h, log, i) && forall j: nat | j < i :: LinkOk(h, log, j)
  }

  // ---------- collisions ----------

  /** Every string that was hashed to make the chain. */
  ghost function Hashed(log: seq<Link>): set<JsString> {
    if log == [] then {GENESIS_SEED} else Hashed(log[..|log| - 1]) + {Text(log[|log| - 1])}
  }

  ghost predicate Collide(h: HashFn, x: JsString, y: JsString) {
    x != y && Digest(h, x) == Digest(h, y)
  }

  /** Two different strings of the set have one digest. */
  ghost predicate CollisionIn(h: HashFn, s: set<JsString>) {
    exists x, y {:trigger Collide(h, x, y)} :: x in s && y in s && Collide(h, x, y)
  }

  lemma {:induction false} TextHashed(log: seq<Link>, i: nat)
    requires i <= |log|
    ensures Source(log, i) in Hashed(log)
  {
    if log != [] && i < |log| {
      TextHashed(log[..|log| - 1], i);
    }
  }

  lemma TextUnique(a: Link, b: Link)
    requires |a.previousHash| == |b.previousHash| && Text(a) == Text(b)
    ensures a.body == b.body && a.previousHash == b.previousHash
  {
    assert a.body == Text(a)[..|a.body|] && b.body == Text(b)[..|b.body|];
    assert a.previousHash == Text(a)[|a.body|..] && b.previousHash == Text(b)[|b.body|..];
  }

  /** The string whose digest stands before position `i`. */
  ghost function Source(log: seq<Link>, i: nat): JsString
    requires i <= |log|
  {
    if i == 0 then GENESIS_SEED else Text(log[i - 1])
  }

  lemma {:induction false} SourceHashed(h: HashFn, log: seq<Link>, i: nat)
    requires ChainValid(h, log) && i <= |log|
    ensures HashBefore(h, log, i) == Digest(h, Source(log, i))
    ensures |HashBefore(h, log, i)| == DIGEST_LENGTH
    ensures i > 0 ==> log[i - 1].previousHash == HashBefore(h, log, i - 1)
    ensures i > 0 ==> |log[i - 1].previousHash| == DIGEST_LENGTH && Source(log, i) != GENESIS_SEED
  {
    if i > 0 {
      assert LinkOk(h, log, i - 1);
      if i > 1 { assert LinkOk(h, log, i - 2); }
    }
  }

  /** The set holds every string that was hashed to make the chain. */
  ghost predicate Covers(s: set<JsString>, log: seq<Link>) {
    forall i: nat | i <= |log| :: Source(log, i) in s
  }

  lemma {:induction false} HashedCovers(log: seq<Link>, s: set<JsString>)
    requires Hashed(log) <= s
    ensures Covers(s, log)
  {
    forall i: nat | i <= |log| ensures Source(log, i) in s {
      TextHashed(log, i);
    }
  }

  /** A hash that two valid chains share was made from one string, and its predecessors agree. */
  lemma {:induction false} SharedHash(h: HashFn, a: seq<Link>, i: nat, b: seq<Link>, j: nat, s: set<JsString>)
    requires ChainValid(h, a) && ChainValid(h, b) && i <= |a| && j <= |b|
    requires HashBefore(h, a, i) == HashBefore(h, b, j)
    requires Covers(s, a) && Covers(s, b) && !CollisionIn(h, s)
    ensures i == 0 <==> j == 0
    ensures i > 0 ==>
              && HashBefore(h, a, i - 1) == HashBefore(h, b, j - 1)
              && a[i - 1].body == b[j - 1].body
              && a[i - 1].previousHash == b[j - 1].previousHash
              && a[i - 1].currentHash == b[j - 1].currentHash
  {
    SourceHashed(h, a, i);
    SourceHashed(h, b, j);
    assert Source(a, i) == Source(b, j) by { assert !Collide(h, Source(a, i), Source(b, j)); }
    if i > 0 { TextUnique(a[i - 1], b[j - 1]); }
  }

  lemma {:induction false} RepeatCollides(h: HashFn, log: seq<Link>, i: nat, j: nat, s: set<JsString>)
    requires ChainValid(h, log) && i < j <= |log| && Covers(s, log) && !CollisionIn(h, s)
    ensures HashBefore(h, log, i) != HashBefore(h, log, j)
    decreases i
  {
    if HashBefore(h, log, i) == HashBefore(h, log, j) {
      SharedHash(h, log, i, log, j, s);
      RepeatCollides(h, log, i - 1, j - 1, s);
    }
  }

  /** No hash occurs twice along a valid chain, the genesis hash included. */
  lemma {:induction false} NoRepeat(h: HashFn, log: seq<Link>, i: nat, j: nat)
    requires ChainValid(h, log) && i < j <= |log|
    ensures HashBefore(h, log, i) != HashBefore(h, log, j) || CollisionIn(h, Hashed(log))
  {
    if !CollisionIn(h, Hashed(log)) {
      HashedCovers(log, Hashed(log));
      RepeatCollides(h, log, i, j, Hashed(log));
    }
  }

  ghost predicate SameLink(a: Link, b: Link) {
    a.body == b.body && a.previousHash == b.previousHash && a.currentHash == b.currentHash
  }

  lemma {:induction false} Agree(h: HashFn, a: seq<Link>, i: nat, b: seq<Link>, j: nat, s: set<JsString>)
    requires ChainValid(h, a) && ChainValid(h, b) && i <= |a| && j <= |b|
    requires HashBefore(h, a, i) == HashBefore(h, b, j)
    requires Covers(s, a) && Covers(s, b) && !CollisionIn(h, s)
    ensures i == j && forall k | 0 <= k < i :: SameLink(a[k], b[k])
    decreases i
  {
    SharedHash(h, a, i, b, j, s);
    if i > 0 { Agree(h, a, i - 1, b, j - 1, s); }
  }

  /** Valid chains with one head hash are one chain, or strings hashed for them collide. */
  lemma {:induction false} HeadCommits(h: HashFn, a: seq<Link>, b: seq<Link>)
    requires ChainValid(h, a) && ChainValid(h, b)
    requires HashBefore(h, a, |a|) == HashBefore(h, b, |b|)
    ensures || (|a| == |b| && forall k | 0 <= k < |a| :: SameLink(a[k], b[k]))
            || CollisionIn(h, Hashed(a) + Hashed(b))
  {
    var s := Hashed(a) + Hashed(b);
    if !CollisionIn(h, s) {
      HashedCovers(a, s);
      HashedCovers(b, s);
      Agree(h, a, |a|, b, |b|, s);
    }
  }

  // ---------- alterations ----------

  lemma {:induction false} PrefixLinks(h: HashFn, log: seq<Link>, bad: seq<Link>, n: nat)
    requires ChainValid(h, log) && n <= |log| && n <= |bad|
    requires forall j | 0 <= j < n :: bad[j] == log[j]
    ensures forall j: nat | j < n :: LinkOk(h, bad, j)
    ensures HashBefore(h, bad, n) == HashBefore(h, log, n)
  {
    forall j: nat | j < n ensures LinkOk(h, bad, j) {
      assert LinkOk(h, log, j);
    }
  }

  /** A changed body under unchanged hashes breaks the chain where it stands. */
  lemma {:induction false} EditBreaks(h: HashFn, log: seq<Link>, i: nat, body: JsString)
    requires ChainValid(h, log) && i < |log| && body != log[i].body
    ensures
      var edited := log[i].(body := body);
      BreaksAt(h, log[i := edited], i) || CollisionIn(h, Hashed(log) + {Text(edited)})
  {
    var edited := log[i].(body := body);
    PrefixLinks(h, log, log[i := edited], i);
    assert LinkOk(h, log, i);
    TextHashed(log, i + 1);
    if Text(edited) == Text(log[i]) { TextUnique(edited, log[i]); }
    if LinkOk(h, log[i := edited], i) { assert Collide(h, Text(edited), Text(log[i])); }
  }

  /** The link with another body and the hash that belongs to it. */
  function Rehashed(h: HashFn, l: Link, body: JsString): Link {
    Link(body, l.previousHash, Digest(h, body + l.previousHash), l.createdAt)
  }

  /** A changed body with its own hash recomputed breaks the chain one position later, if there is one. */
  lemma {:induction false} RehashedEditBreaks(h: HashFn, log: seq<Link>, i: nat, body: JsString)
    requires ChainValid(h, log) && i < |log| && body != log[i].body
    ensures
      var edited := Rehashed(h, log[i], body);
      if i + 1 == |log| then ChainValid(h, log[i := edited])
      else BreaksAt(h, log[i := edited], i + 1) || CollisionIn(h, Hashed(log) + {Text(edited)})
  {
    var edited := Rehashed(h, log[i], body);
    var bad := log[i := edited];
    PrefixLinks(h, log, bad, i);
    assert LinkOk(h, log, i) && LinkOk(h, bad, i);
    if i + 1 < |log| && LinkOk(h, bad, i + 1) {
      RehashedCollides(h, log, i, body);
    }
    hide CollisionIn;
    hide Hashed;
  }

  lemma {:induction false} RehashedCollides(h: HashFn, log: seq<Link>, i: nat, body: JsString)
    requires ChainValid(h, log) && i + 1 < |log| && body != log[i].body
    requires LinkOk(h, log[i := Rehashed(h, log[i], body)], i + 1)
    ensures CollisionIn(h, Hashed(log) + {Text(Rehashed(h, log[i], body))})
  {
    var edited := Rehashed(h, log[i], body);
    assert LinkOk(h, log, i) && LinkOk(h, log, i + 1);
    TextHashed(log, i + 1);
    assert edited.currentHash == log[i].currentHash;
    if Text(edited) == Text(log[i]) { TextUnique(edited, log[i]); }
    assert Collide(h, Text(edited), Text(log[i]));
  }

  /** Removing a link breaks the chain where the next one now stands; removing the last does not. */
  lemma {:induction false} DeletionBreaks(h: HashFn, log: seq<Link>, i: nat)
    requires ChainValid(h, log) && i < |log|
    ensures
      var bad := log[..i] + log[i + 1..];
      if i + 1 == |log| then ChainValid(h, bad)
      else BreaksAt(h, bad, i) || CollisionIn(h, Hashed(log))
  {
    PrefixLinks(h, log, log[..i] + log[i + 1..], i);
    if i + 1 < |log| {
      assert LinkOk(h, log, i + 1);
      NoRepeat(h, log, i, i + 1);
    }
  }

  function Swapped(log: seq<Link>, i: nat): seq<Link>
    requires i + 1 < |log|
  {
    log[..i] + [log[i + 1], log[i]] + log[i + 2..]
  }

  /** Exchanging neighbours breaks the chain at the first of the two. */
  lemma {:induction false} SwapBreaks(h: HashFn, log: seq<Link>, i: nat)
    requires ChainValid(h, log) && i + 1 < |log|
    ensures BreaksAt(h, Swapped(log, i), i) || CollisionIn(h, Hashed(log))
  {
    var bad := Swapped(log, i);
    assert bad[i] == log[i + 1];
    PrefixLinks(h, log, bad, i);
    assert LinkOk(h, log, i + 1);
    NoRepeat(h, log, i, i + 1);
  }

  // ---------- appending ----------

  datatype Item = Item(body: JsString, createdAt: int)

  /** The link with the latest time stamp; of equal stamps, the one appended last. */
  function Newest(rows: seq<Link>): (i: nat)
    requires rows != []
    ensures i < |rows|
  {
    var n := |rows| - 1;
    if n == 0 then 0
    else
      var i := Newest(rows[..n]);
      if rows[n].createdAt >= rows[i].createdAt then n else i
  }

  lemma {:induction false} NewestLatest(rows: seq<Link>, j: nat)
    requires j < |rows|
    ensures rows[j].createdAt <= rows[Newest(rows)].createdAt
    ensures j > Newest(rows) ==> rows[j].createdAt < rows[Newest(rows)].createdAt
  {
    if j < |rows| - 1 { NewestLatest(rows[..|rows| - 1], j); }
    else if j > 0 { NewestLatest(rows[..j], 0); }
  }

  function LastHash(h: HashFn, rows: seq<Link>): JsString {
    if rows == [] then Digest(h, GENESIS_SEED) else rows[Newest(rows)].currentHash
  }

  /** The link that an append adds to the rows. */
  function NextLink(h: HashFn, rows: seq<Link>, e: Item): Link {
    var previousHash := LastHash(h, rows);
    Link(e.body, previousHash, Digest(h, e.body + previousHash), e.createdAt)
  }

  /** The rows are what appending the items one after the other to an empty table leaves. */
  ghost predicate Built(h: HashFn, items: seq<Item>, rows: seq<Link>) {
    && |rows| == |items|
    && forall k: nat | k < |rows| :: BuiltAt(h, items, rows, k)
  }

  ghost predicate BuiltAt(h: HashFn, items: seq<Item>, rows: seq<Link>, k: nat)
    requires k < |rows| == |items|
  {
    rows[k] == NextLink(h, rows[..k], items[k])
  }

  function Place(e: Link, s: seq<Link>): seq<Link> {
    if s == [] || s[|s| - 1].createdAt <= e.createdAt then s + [e]
    else Place(e, s[..|s| - 1]) + [s[|s| - 1]]
  }

  /** By time stamp ascending, equal stamps in append order. */
  function InOrder(rows: seq<Link>): seq<Link> {
    if rows == [] then [] else Place(rows[|rows| - 1], InOrder(rows[..|rows| - 1]))
  }

  ghost predicate Ordered(s: seq<Link>) {
    forall i, j | 0 <= i < j < |s| :: s[i].createdAt <= s[j].createdAt
  }

  lemma {:induction false} Placed(e: Link, s: seq<Link>)
    requires Ordered(s)
    ensures Ordered(Place(e, s)) && |Place(e, s)| == |s| + 1
    ensures forall x :: x in Place(e, s) <==> x == e || x in s
  {
    if s != [] && s[|s| - 1].createdAt > e.createdAt {
      var front, last := s[..|s| - 1], s[|s| - 1];
      Placed(e, front);
      assert s == front + [last];
      assert forall x | x in Place(e, front) :: x.createdAt <= last.createdAt;
    }
  }

  /** Ordering keeps every link, and leaves links that are in order as they are. */
  lemma {:induction false} InOrderSorts(rows: seq<Link>)
    ensures Ordered(InOrder(rows)) && |InOrder(rows)| == |rows|
    ensures forall x :: x in InOrder(rows) <==> x in rows
    ensures Ordered(rows) ==> InOrder(rows) == rows
  {
    if rows != [] {
      var front, last := rows[..|rows| - 1], rows[|rows| - 1];
      assert rows == front + [last];
      InOrderSorts(front);
      Placed(last, InOrder(front));
    }
  }

  // ---------- neighbours exchanged in the table ----------

  /** The rows with the time stamps of two neighbours exchanged. */
  function Exchanged(log: seq<Link>, i: nat): (rows: seq<Link>)
    requires i + 1 < |log|
    ensures |rows| == |log|
  {
    log[i := log[i].(createdAt := log[i + 1].createdAt)][i + 1 := log[i + 1].(createdAt := log[i].createdAt)]
  }

  lemma {:induction false} PlaceLast(e: Link, s: seq<Link>)
    requires s == [] || s[|s| - 1].createdAt <= e.createdAt
    ensures Place(e, s) == s + [e]
  {}

  lemma {:induction false} PlaceBeforeLast(e: Link, s: seq<Link>, x: Link)
    requires x.createdAt > e.createdAt && (s == [] || s[|s| - 1].createdAt <= e.createdAt)
    ensures Place(e, s + [x]) == s + [e] + [x]
  {
    PlaceLast(e, s);
    assert (s + [x])[..|s|] == s;
  }

  lemma {:induction false} InOrderSnoc(s: seq<Link>, e: Link)
    ensures InOrder(s + [e]) == Place(e, InOrder(s))
  {
    assert (s + [e])[..|s|] == s;
  }

  /** Reading by time then swaps the two neighbours. */
  lemma {:induction false} ExchangeLast(log: seq<Link>, i: nat)
    requires i + 2 == |log| && Ordered(log) && log[i].createdAt < log[i + 1].createdAt
    ensures InOrder(Exchanged(log, i)) == Swapped(Exchanged(log, i), i)
  {
    hide InOrder;
    hide Place;
    var rows := Exchanged(log, i);
    var last := rows[i + 1];
    var front := log[..i] + [rows[i]];
    assert rows == front + [last] && Ordered(front);
    InOrderSorts(front);
    InOrderSnoc(front, last);
    PlaceBeforeLast(last, log[..i], rows[i]);
    assert Swapped(rows, i) == log[..i] + [last] + [rows[i]];
  }

  lemma {:induction false} ExchangeSwaps(log: seq<Link>, i: nat)
    requires i + 1 < |log| && Ordered(log) && log[i].createdAt < log[i + 1].createdAt
    ensures InOrder(Exchanged(log, i)) == Swapped(Exchanged(log, i), i)
    decreases |log|
  {
    hide InOrder;
    hide Place;
    var rows := Exchanged(log, i);
    var last := rows[|rows| - 1];
    if |log| == i + 2 {
      ExchangeLast(log, i);
    } else {
      var shorter := log[..|log| - 1];
      ExchangeSwaps(shorter, i);
      var front := Exchanged(shorter, i);
      assert rows == front + [last];
      InOrderSnoc(front, last);
      assert Swapped(front, i)[|front| - 1].createdAt <= last.createdAt;
      PlaceLast(last, Swapped(front, i));
      assert Swapped(rows, i) == Swapped(front, i) + [last];
    }
  }

  /** Checking a chain does not look at time stamps. */
  lemma {:induction false} StampsDoNotMatter(h: HashFn, a: seq<Link>, b: seq<Link>, i: nat)
    requires |a| == |b| && forall k | 0 <= k < |a| :: SameLink(a[k], b[k])
    ensures BreaksAt(h, a, i) <==> BreaksAt(h, b, i)
  {
    forall k: nat | k < |a| ensures LinkOk(h, a, k) <==> LinkOk(h, b, k) {
      assert SameLink(a[k], b[k]) && (k > 0 ==> SameLink(a[k - 1], b[k - 1]));
    }
  }

  lemma ExchangedLinks(log: seq<Link>, i: nat)
    requires i + 1 < |log|
    ensures
      var a, b := Swapped(Exchanged(log, i), i), Swapped(log, i);
      |a| == |b| == |log| && forall k | 0 <= k < |a| :: SameLink(a[k], b[k])
  {}

  /** Exchanging the time stamps of two rows that follow each other in a valid chain breaks it at the
      first of the two, as it is read back. */
  lemma {:induction false} ExchangeBreaks(h: HashFn, log: seq<Link>, i: nat)
    requires ChainValid(h, log) && i + 1 < |log| && Ordered(log) && log[i].createdAt < log[i + 1].createdAt
    ensures BreaksAt(h, InOrder(Exchanged(log, i)), i) || CollisionIn(h, Hashed(log))
  {
    hide *;
    ExchangeSwaps(log, i);
    SwapBreaks(h, log, i);
    ExchangedLinks(log, i);
    StampsDoNotMatter(h, Swapped(Exchanged(log, i), i), Swapped(log, i), i);
  }

  ghost predicate InStampOrder(items: seq<Item>) {
    forall i, j | 0 <= i < j < |items| :: items[i].createdAt <= items[j].createdAt
  }

  /** In stamp order, the newest row is the last one. */
  lemma {:induction false} LastIsNewest(h: HashFn, rows: seq<Link>)
    requires Ordered(rows)
    ensures LastHash(h, rows) == HashBefore(h, rows, |rows|)
  {
    if rows != [] { NewestLatest(rows, |rows| - 1); }
  }

  lemma {:induction false} BuiltChain(h: HashFn, items: seq<Item>, rows: seq<Link>)
    requires Built(h, items, rows) && InStampOrder(items)
    ensures ChainValid(h, rows) && Ordered(rows)
  {
    forall k: nat | k < |rows| ensures rows[k].createdAt == items[k].createdAt {
      assert BuiltAt(h, items, rows, k);
    }
    forall k: nat | k < |rows| ensures LinkOk(h, rows, k) {
      assert BuiltAt(h, items, rows, k);
      LastIsNewest(h, rows[..k]);
      assert HashBefore(h, rows[..k], k) == HashBefore(h, rows, k);
    }
  }

  lemma {:induction false} SameHashed(a: seq<Link>, b: seq<Link>)
    requires forall x | x in a :: x in b
    ensures Hashed(a) <= Hashed(b)
  {
    if a == [] {
      TextHashed(b, 0);
    } else {
      SameHashed(a[..|a| - 1], b);
      assert a[|a| - 1] in b;
      var j :| 0 <= j < |b| && b[j] == a[|a| - 1];
      TextHashed(b, j + 1);
    }
  }

  /** A row with a late stamp chains to a row that is later in time. */
  lemma {:induction false} LateStampLink(h: HashFn, items: seq<Item>, rows: seq<Link>, i: nat, k: nat)
      returns (m: nat)
    requires Built(h, items, rows)
    requires i < k < |items| && items[i].createdAt > items[k].createdAt
    ensures m < k && rows[k].previousHash == rows[m].currentHash
    ensures rows[m].createdAt > rows[k].createdAt
  {
    assert BuiltAt(h, items, rows, i) && BuiltAt(h, items, rows, k);
    m := Newest(rows[..k]);
    NewestLatest(rows[..k], i);
  }

  /** If the earlier of two rows by time chains to the later one, the chain of both repeats a hash. */
  lemma {:induction false} BackwardLink(h: HashFn, log: seq<Link>, x: Link, y: Link, s: set<JsString>)
    requires ChainValid(h, log) && Ordered(log) && Hashed(log) <= s
    requires x in log && y in log && x.createdAt < y.createdAt && x.previousHash == y.currentHash
    ensures CollisionIn(h, s)
  {
    hide CollisionIn;
    hide Hashed;
    var p: nat :| p < |log| && log[p] == x;
    var q: nat :| q < |log| && log[q] == y;
    assert p < q;
    assert LinkOk(h, log, p);
    LaterRepeat(h, log, p, q + 1, s);
  }

  lemma {:induction false} LateStampRepeats(h: HashFn, items: seq<Item>, rows: seq<Link>, i: nat, k: nat)
    requires Built(h, items, rows) && ChainValid(h, InOrder(rows))
    requires i < k < |items| && items[i].createdAt > items[k].createdAt
    ensures CollisionIn(h, Hashed(rows))
  {
    var m := LateStampLink(h, items, rows, i, k);
    InOrderSorts(rows);
    SameHashed(InOrder(rows), rows);
    assert rows[k] in rows && rows[m] in rows;
    BackwardLink(h, InOrder(rows), rows[k], rows[m], Hashed(rows));
  }

  lemma {:induction false} LaterRepeat(h: HashFn, log: seq<Link>, i: nat, j: nat, s: set<JsString>)
    requires ChainValid(h, log) && i < j <= |log| && HashBefore(h, log, i) == HashBefore(h, log, j)
    requires Hashed(log) <= s
    ensures CollisionIn(h, s)
  {
    if !CollisionIn(h, s) {
      HashedCovers(log, s);
      RepeatCollides(h, log, i, j, s);
      assert false;
    }
  }

  /** A chain built by appends alone verifies exactly when no append carried a time stamp earlier
      than one already there, unless strings that were hashed for it collide. */
  lemma {:induction false} BuiltVerifiesIff(h: HashFn, items: seq<Item>, rows: seq<Link>)
    requires Built(h, items, rows)
    ensures || (ChainValid(h, InOrder(rows)) <==> InStampOrder(items))
            || CollisionIn(h, Hashed(rows))
  {
    if InStampOrder(items) {
      BuiltChain(h, items, rows);
      InOrderSorts(rows);
    } else if ChainValid(h, InOrder(rows)) {
      var i: nat, k: nat :| i < k < |items| && items[i].createdAt > items[k].createdAt;
      LateStampRepeats(h, items, rows, i, k);
    }
  }
}
