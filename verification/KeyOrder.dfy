/** The order of the properties of a canonical object: array indices by their number, then all other names by
    their code units. */
module KeyOrder {
  import opened JsText
  import opened Json
  import opened JsonReading
  import opened JsonPrinting
  import opened CanonicalForm

  // ---------- the order of `sort` ----------

  /** `a` is a proper prefix of `b`, or at the first index where they differ its unit is the smaller one. */
  ghost predicate UnitsBefore(a: JsString, b: JsString) {
    a < b || exists i: nat :: DiffersFirst(a, b, i) && a[i] < b[i]
  }

  predicate DiffersFirst(a: JsString, b: JsString, i: nat) {
    i < |a| && i < |b| && a[..i] == b[..i] && a[i] != b[i]
  }

  lemma {:induction false} LexLessMeans(a: JsString, b: JsString)
    ensures LexLess(a, b) <==> UnitsBefore(a, b)
  {
    if a != [] && b != [] {
      if a[0] != b[0] {
        assert DiffersFirst(a, b, 0);
        SameStart(a, b);
      } else {
        LexLessMeans(a[1..], b[1..]);
        TailsBefore(a, b);
      }
    }
  }

  lemma SameStart(a: JsString, b: JsString)
    requires a != [] && b != []
    ensures forall i: nat | DiffersFirst(a, b, i) && i > 0 :: a[0] == b[0]
  {
    forall i: nat | DiffersFirst(a, b, i) && i > 0 ensures a[0] == b[0] {
      assert a[..i][0] == b[..i][0];
    }
  }

  lemma TailsBefore(a: JsString, b: JsString)
    requires a != [] && b != [] && a[0] == b[0]
    ensures UnitsBefore(a, b) <==> UnitsBefore(a[1..], b[1..])
  {
    assert a == [a[0]] + a[1..] && b == [a[0]] + b[1..];
    assert a < b <==> a[1..] < b[1..];
    if i: nat :| DiffersFirst(a, b, i) && a[i] < b[i] {
      assert i > 0 && a[1..][..i - 1] == a[..i][1..] == b[..i][1..] == b[1..][..i - 1];
      assert DiffersFirst(a[1..], b[1..], i - 1);
    }
    if i: nat :| DiffersFirst(a[1..], b[1..], i) && a[1..][i] < b[1..][i] {
      assert a[..i + 1] == [a[0]] + a[1..][..i] && b[..i + 1] == [a[0]] + b[1..][..i];
      assert DiffersFirst(a, b, i + 1);
    }
  }

  // ---------- array indices ----------

  /** The largest array index, one less than the largest length. */
  const LAST_INDEX := 4294967294

  /** The name is an array index, written in decimal. */
  predicate Names(k: JsString, n: nat) {
    n <= LAST_INDEX && k == Digits(n)
  }

  lemma {:induction false} LongerIsLarger(m: nat, n: nat)
    requires m <= n
    ensures |Digits(m)| <= |Digits(n)|
  {
    if n >= 10 && m >= 10 { LongerIsLarger(m / 10, n / 10); }
  }

  lemma {:induction false} LexAppended(a: JsString, b: JsString, u: Unit, v: Unit)
    requires |a| == |b|
    ensures LexLess(a + [u], b + [v]) <==> LexLess(a, b) || (a == b && u < v)
  {
    if a != [] {
      assert (a + [u])[1..] == a[1..] + [u] && (b + [v])[1..] == b[1..] + [v];
      LexAppended(a[1..], b[1..], u, v);
      assert a == [a[0]] + a[1..] && b == [b[0]] + b[1..];
    }
  }

  lemma {:induction false} LexOneUnit(u: Unit, v: Unit)
    ensures LexLess([u], [v]) <==> u < v
  {
    LexAppended([], [], u, v);
    assert [] + [u] == [u] && [] + [v] == [v];
  }

  /** Of decimals of one length, the smaller number is the one that comes first. */
  lemma {:induction false} SameLengthOrder(m: nat, n: nat)
    requires |Digits(m)| == |Digits(n)|
    ensures LexLess(Digits(m), Digits(n)) <==> m < n
    decreases m
  {
    DigitsShape(m);
    DigitsShape(n);
    hide LexLess;
    if m < 10 {
      LexOneUnit(48 + m, 48 + n);
    } else {
      SameLengthOrder(m / 10, n / 10);
      DigitsShape(m / 10);
      DigitsShape(n / 10);
      LexAppended(Digits(m / 10), Digits(n / 10), 48 + m % 10, 48 + n % 10);
    }
  }

  /** Decimals compare as numbers: the shorter first, and of one length unit by unit. */
  lemma {:induction false} DecimalOrder(m: nat, n: nat)
    ensures m < n <==>
            |Digits(m)| < |Digits(n)| || (|Digits(m)| == |Digits(n)| && LexLess(Digits(m), Digits(n)))
  {
    if |Digits(m)| == |Digits(n)| {
      SameLengthOrder(m, n);
    } else if m <= n {
      LongerIsLarger(m, n);
    } else {
      LongerIsLarger(n, m);
    }
  }

  lemma {:induction false} OneMoreDigit(n: nat, d: nat)
    requires n > 0 && d < 10
    ensures Digits(n * 10 + d) == Digits(n) + [48 + d]
  {}

  lemma {:induction false} LastIndexText()
    ensures MAX_INDEX == Digits(LAST_INDEX)
  {
    assert Digits(4) == [52];
    hide Digits;
    OneMoreDigit(4, 2);
    OneMoreDigit(42, 9);
    OneMoreDigit(429, 4);
    OneMoreDigit(4294, 9);
    OneMoreDigit(42949, 6);
    OneMoreDigit(429496, 7);
    OneMoreDigit(4294967, 2);
    OneMoreDigit(42949672, 9);
    OneMoreDigit(429496729, 4);
  }

  /** A text of digits without a leading zero is a decimal. */
  lemma {:induction false} DecimalText(k: JsString) returns (n: nat)
    requires k != [] && (forall i | 0 <= i < |k| :: IsDigit(k[i])) && (k[0] == 48 ==> |k| == 1)
    ensures k == Digits(n)
  {
    if |k| == 1 {
      n := k[0] - 48;
    } else {
      var last := k[|k| - 1] - 48;
      var front := DecimalText(k[..|k| - 1]);
      DigitsShape(front);
      n := front * 10 + last;
      assert n >= 10 && n / 10 == front && n % 10 == last;
      assert k == k[..|k| - 1] + [k[|k| - 1]];
    }
  }

  /** The names that enumerate first are the array indices. */
  lemma {:induction false} IndexMeans(k: JsString)
    ensures IsIndex(k) <==> exists n: nat :: Names(k, n)
  {
    LastIndexText();
    if IsIndex(k) {
      var n := DecimalText(k);
      DecimalOrder(LAST_INDEX, n);
      assert Names(k, n);
    }
    if n: nat :| Names(k, n) {
      DigitsShape(n);
      DecimalOrder(LAST_INDEX, n);
      LongerIsLarger(n, LAST_INDEX);
    }
  }

  // ---------- the order of properties ----------

  /** Array indices first, by their number; then all other names, by their code units. */
  ghost predicate Precedes(a: JsString, b: JsString) {
    if exists m: nat :: Names(a, m) then
      forall m: nat, n: nat | Names(a, m) && Names(b, n) :: m < n
    else !(exists n: nat :: Names(b, n)) && UnitsBefore(a, b)
  }

  lemma {:induction false} KeyBeforeMeans(a: JsString, b: JsString)
    ensures KeyBefore(a, b) <==> Precedes(a, b)
  {
    IndexMeans(a);
    IndexMeans(b);
    LexLessMeans(a, b);
    forall m: nat, n: nat | Names(a, m) && Names(b, n) ensures m < n <==> KeyBefore(a, b) {
      DecimalOrder(m, n);
    }
    hide UnitsBefore;
    hide Digits;
  }

  /** In every object, at every depth, each property precedes the ones after it. */
  ghost predicate KeysAscend(v: Json) {
    match v
    case Arr(items) => forall x | x in items :: KeysAscend(x)
    case Obj(fields) =>
      && (forall i, j | 0 <= i < j < |fields| :: Precedes(fields[i].key, fields[j].key))
      && forall f | f in fields :: KeysAscend(f.value)
    case _ => true
  }

  lemma {:induction false} CanonicalAscends(v: Json)
    requires IsCanonical(v)
    ensures KeysAscend(v)
    decreases v, 1
  {
    hide Precedes;
    match v {
      case Arr(items) => ItemsAscend(items);
      case Obj(fields) => FieldsAscend(fields);
      case _ =>
    }
  }

  lemma {:induction false} ItemsAscend(items: seq<Json>)
    requires CanonicalSeq(items)
    ensures forall x | x in items :: KeysAscend(x)
    decreases items, 0
  {
    if items != [] {
      CanonicalAscends(items[0]);
      ItemsAscend(items[1..]);
      assert items == [items[0]] + items[1..];
    }
  }

  lemma {:induction false} FieldsAscend(fields: seq<Field>)
    requires CanonicalObject(fields)
    ensures forall i, j | 0 <= i < j < |fields| :: Precedes(fields[i].key, fields[j].key)
    ensures forall f | f in fields :: KeysAscend(f.value)
    decreases fields, 0
  {
    hide Precedes;
    hide KeyBefore;
    if fields != [] {
      CanonicalAscends(fields[0].value);
      FieldsAscend(fields[1..]);
      assert fields == [fields[0]] + fields[1..];
      forall i, j | 0 <= i < j < |fields| ensures Precedes(fields[i].key, fields[j].key) {
        assert fields[j] == fields[1..][j - 1];
        if i == 0 {
          KeyBeforeMeans(fields[0].key, fields[j].key);
        } else {
          assert fields[i] == fields[1..][i - 1];
        }
      }
    }
  }

  /** The text that is hashed reads as the canonical value, with its properties in order at every depth. */
  lemma {:induction false} CanonicalTextReads(v: Json)
    requires WellFormed(v)
    ensures ReadValue(CanonicalStringify(v)) == Good(Canonical(v), []) && KeysAscend(Canonical(v))
  {
    ReadBack(Canonical(v), []);
    assert Print(Canonical(v)) + [] == Print(Canonical(v));
    CanonicalMeaning(v);
    CanonicalAscends(Canonical(v));
  }
}
