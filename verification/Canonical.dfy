/** The canonical form keeps exactly the meaning, and is the only canonical value with it. */
module CanonicalForm {
  import opened JsText
  import opened Json

  // ---------- the property order is a strict total order ----------

  lemma KeyBeforeTotal(a: JsString, b: JsString)
    ensures KeyBefore(a, b) || a == b || KeyBefore(b, a)
    ensures !(KeyBefore(a, b) && KeyBefore(b, a)) && !KeyBefore(a, a)
  {
    LexTotal(a, b);
    LexIrreflexive(a);
    if LexLess(a, b) && LexLess(b, a) { LexTransitive(a, b, a); }
  }

  lemma KeyBeforeTransitive(a: JsString, b: JsString, c: JsString)
    requires KeyBefore(a, b) && KeyBefore(b, c)
    ensures KeyBefore(a, c)
  {
    if LexLess(a, b) && LexLess(b, c) { LexTransitive(a, b, c); }
  }

  // ---------- members of an object ----------

  lemma {:induction false} MemberOf(fields: seq<Field>, k: JsString)
    ensures k in FieldsMeaning(fields) <==> exists i :: 0 <= i < |fields| && fields[i].key == k
  {
    if fields != [] {
      MemberOf(fields[1..], k);
      if k in FieldsMeaning(fields[1..]) {
        var i :| 0 <= i < |fields[1..]| && fields[1..][i].key == k;
        assert fields[i + 1].key == k;
      }
      if i :| 0 <= i < |fields| && fields[i].key == k {
        assert i > 0 ==> fields[1..][i - 1].key == k;
      }
    }
  }

  lemma {:induction false} MemberValue(fields: seq<Field>, i: int)
    requires DistinctKeys(fields) && 0 <= i < |fields|
    ensures fields[i].key in FieldsMeaning(fields)
    ensures FieldsMeaning(fields)[fields[i].key] == MeaningOf(fields[i].value)
  {
    if i > 0 {
      assert forall p, q | 0 <= p < q < |fields[1..]| ::
          fields[1..][p] == fields[p + 1] && fields[1..][q] == fields[q + 1];
      MemberValue(fields[1..], i - 1);
    }
  }

  lemma WellFormedTail(fields: seq<Field>)
    requires WellFormedFields(fields) && fields != []
    ensures WellFormedFields(fields[1..]) && fields[0].key !in FieldsMeaning(fields[1..])
    ensures WellFormed(fields[0].value)
  {
    assert forall p | 0 <= p < |fields[1..]| :: fields[1..][p] == fields[p + 1];
    MemberOf(fields[1..], fields[0].key);
  }

  // ---------- canonical values ----------

  /** No `__proto__`, and properties in order, at every depth. */
  predicate IsCanonical(v: Json)
    decreases v, 1
  {
    match v
    case Arr(items) => CanonicalSeq(items)
    case Obj(fields) => CanonicalObject(fields)
    case _ => true
  }

  predicate CanonicalSeq(items: seq<Json>)
    decreases items, 0
  {
    items == [] || (IsCanonical(items[0]) && CanonicalSeq(items[1..]))
  }

  predicate CanonicalObject(fields: seq<Field>)
    decreases fields, 0
  {
    fields == [] ||
    (&& fields[0].key != PROTO
     && IsCanonical(fields[0].value)
     && Before(fields[0].key, fields[1..])
     && CanonicalObject(fields[1..]))
  }

  predicate Before(k: JsString, fields: seq<Field>) {
    forall i | 0 <= i < |fields| :: KeyBefore(k, fields[i].key)
  }

  lemma BeforeAbsent(k: JsString, fields: seq<Field>)
    requires Before(k, fields)
    ensures k !in FieldsMeaning(fields)
  {
    MemberOf(fields, k);
    KeyBeforeTotal(k, k);
  }

  lemma {:induction false} Inserted(f: Field, fields: seq<Field>)
    requires CanonicalObject(fields) && f.key != PROTO && IsCanonical(f.value)
    requires f.key !in FieldsMeaning(fields)
    ensures CanonicalObject(InsertField(f, fields))
    ensures FieldsMeaning(InsertField(f, fields)) == FieldsMeaning(fields)[f.key := MeaningOf(f.value)]
    ensures forall k :: Before(k, fields) && KeyBefore(k, f.key) ==> Before(k, InsertField(f, fields))
  {
    if fields == [] {
      assert [f] + fields == [f] && [f][1..] == [];
    } else if KeyBefore(f.key, fields[0].key) {
      var r := [f] + fields;
      assert r[1..] == fields;
      forall i | 0 <= i < |fields| ensures KeyBefore(f.key, fields[i].key) {
        if i > 0 {
          assert fields[i] == fields[1..][i - 1];
          KeyBeforeTransitive(f.key, fields[0].key, fields[i].key);
        }
      }
    } else {
      KeyBeforeTotal(f.key, fields[0].key);
      Inserted(f, fields[1..]);
      var r := [fields[0]] + InsertField(f, fields[1..]);
      assert r[1..] == InsertField(f, fields[1..]);
      forall k | Before(k, fields) && KeyBefore(k, f.key) ensures Before(k, r) {
        assert forall i | 0 <= i < |fields[1..]| :: fields[1..][i] == fields[i + 1];
        assert Before(k, fields[1..]);
        assert forall i | 1 <= i < |r| :: r[i] == r[1..][i - 1];
      }
    }
  }

  lemma {:induction false} Sorted(fields: seq<Field>)
    requires DistinctKeys(fields)
    requires forall f | f in fields :: f.key != PROTO && IsCanonical(f.value)
    ensures CanonicalObject(SortFields(fields))
    ensures FieldsMeaning(SortFields(fields)) == FieldsMeaning(fields)
  {
    if fields != [] {
      assert forall p | 0 <= p < |fields[1..]| :: fields[1..][p] == fields[p + 1];
      Sorted(fields[1..]);
      MemberOf(fields[1..], fields[0].key);
      Inserted(fields[0], SortFields(fields[1..]));
    }
  }

  // ---------- the canonical form of a value ----------

  /** Canonicalisation keeps the meaning of everything but `__proto__` properties. */
  lemma {:induction false} CanonicalMeaning(v: Json)
    requires WellFormed(v)
    ensures IsCanonical(Canonical(v)) && MeaningOf(Canonical(v)) == MeaningOf(Visible(v))
    decreases v, 1
  {
    match v {
      case Arr(items) => CanonicalItemsMeaning(items);
      case Obj(fields) =>
        CanonicalFieldsMeaning(fields);
        Sorted(CanonicalFields(fields));
      case _ =>
    }
  }

  lemma {:induction false} CanonicalItemsMeaning(items: seq<Json>)
    requires WellFormedItems(items)
    ensures CanonicalSeq(CanonicalItems(items))
    ensures ItemsMeaning(CanonicalItems(items)) == ItemsMeaning(VisibleItems(items))
    decreases items, 0
  {
    if items != [] {
      CanonicalMeaning(items[0]);
      CanonicalItemsMeaning(items[1..]);
      assert CanonicalItems(items)[1..] == CanonicalItems(items[1..]);
      assert VisibleItems(items)[1..] == VisibleItems(items[1..]);
    }
  }

  lemma {:induction false} CanonicalFieldsMeaning(fields: seq<Field>)
    requires WellFormedFields(fields)
    ensures DistinctKeys(CanonicalFields(fields))
    ensures forall f | f in CanonicalFields(fields) :: f.key != PROTO && IsCanonical(f.value)
    ensures FieldsMeaning(CanonicalFields(fields)) == FieldsMeaning(VisibleFields(fields))
    ensures forall k :: k in FieldsMeaning(CanonicalFields(fields)) ==> k in FieldsMeaning(fields)
    decreases fields, 0
  {
    if fields != [] {
      WellFormedTail(fields);
      CanonicalMeaning(fields[0].value);
      CanonicalFieldsMeaning(fields[1..]);
      if fields[0].key != PROTO {
        var rest := CanonicalFields(fields[1..]);
        assert CanonicalFields(fields)[1..] == rest;
        assert VisibleFields(fields)[1..] == VisibleFields(fields[1..]);
        MemberOf(rest, fields[0].key);
        forall i, j | 0 <= i < j < |CanonicalFields(fields)|
          ensures CanonicalFields(fields)[i].key != CanonicalFields(fields)[j].key
        {
          assert CanonicalFields(fields)[j] == rest[j - 1];
          if i > 0 { assert CanonicalFields(fields)[i] == rest[i - 1]; }
        }
      }
    }
  }

  // ---------- only one canonical value has a given meaning ----------

  lemma {:induction false} CanonicalUnique(a: Json, b: Json)
    requires IsCanonical(a) && IsCanonical(b) && MeaningOf(a) == MeaningOf(b)
    ensures a == b
    decreases a, 1
  {
    match a {
      case Arr(items) => CanonicalSeqUnique(items, b.items);
      case Obj(fields) => CanonicalObjectUnique(fields, b.fields);
      case _ =>
    }
  }

  lemma {:induction false} CanonicalSeqUnique(a: seq<Json>, b: seq<Json>)
    requires CanonicalSeq(a) && CanonicalSeq(b) && ItemsMeaning(a) == ItemsMeaning(b)
    ensures a == b
    decreases a, 0
  {
    if a != [] && b != [] {
      assert ItemsMeaning(a)[0] == MeaningOf(a[0]) && ItemsMeaning(b)[0] == MeaningOf(b[0]);
      assert ItemsMeaning(a)[1..] == ItemsMeaning(a[1..]) && ItemsMeaning(b)[1..] == ItemsMeaning(b[1..]);
      CanonicalUnique(a[0], b[0]);
      CanonicalSeqUnique(a[1..], b[1..]);
      assert a == [a[0]] + a[1..] && b == [b[0]] + b[1..];
    }
  }

  /** The first key of a canonical object is the least one. */
  lemma LeastFirst(fields: seq<Field>, k: JsString)
    requires CanonicalObject(fields) && k in FieldsMeaning(fields)
    ensures fields != [] && (k == fields[0].key || KeyBefore(fields[0].key, k))
  {
    MemberOf(fields, k);
    var i :| 0 <= i < |fields| && fields[i].key == k;
    if i > 0 { assert fields[i] == fields[1..][i - 1]; }
  }

  lemma {:induction false} CanonicalObjectUnique(a: seq<Field>, b: seq<Field>)
    requires CanonicalObject(a) && CanonicalObject(b) && FieldsMeaning(a) == FieldsMeaning(b)
    ensures a == b
    decreases a, 0
  {
    assert b != [] ==> b[0].key in FieldsMeaning(b);
    if a != [] {
      assert a[0].key in FieldsMeaning(a);
      LeastFirst(b, a[0].key);
      LeastFirst(a, b[0].key);
      KeyBeforeTotal(a[0].key, b[0].key);
      assert MeaningOf(a[0].value) == FieldsMeaning(a)[a[0].key] == MeaningOf(b[0].value);
      CanonicalUnique(a[0].value, b[0].value);
      BeforeAbsent(a[0].key, a[1..]);
      BeforeAbsent(b[0].key, b[1..]);
      assert FieldsMeaning(a[1..]) == FieldsMeaning(a) - {a[0].key};
      assert FieldsMeaning(b[1..]) == FieldsMeaning(b) - {b[0].key};
      CanonicalObjectUnique(a[1..], b[1..]);
      assert a == [a[0]] + a[1..] && b == [b[0]] + b[1..];
    }
  }

  // ---------- values without `__proto__` ----------

  lemma {:induction false} VisibleId(v: Json)
    requires ProtoFree(v)
    ensures Visible(v) == v
    decreases v, 1
  {
    match v {
      case Arr(items) => VisibleItemsId(items);
      case Obj(fields) => VisibleFieldsId(fields);
      case _ =>
    }
  }

  lemma {:induction false} VisibleItemsId(items: seq<Json>)
    requires forall x | x in items :: ProtoFree(x)
    ensures VisibleItems(items) == items
    decreases items, 0
  {
    if items != [] {
      VisibleId(items[0]);
      VisibleItemsId(items[1..]);
    }
  }

  lemma {:induction false} VisibleFieldsId(fields: seq<Field>)
    requires forall f | f in fields :: f.key != PROTO && ProtoFree(f.value)
    ensures VisibleFields(fields) == fields
    decreases fields, 0
  {
    if fields != [] {
      VisibleId(fields[0].value);
      VisibleFieldsId(fields[1..]);
    }
  }

  lemma {:induction false} CanonicalIsProtoFree(v: Json)
    requires IsCanonical(v)
    ensures ProtoFree(v) && WellFormed(v)
    decreases v, 1
  {
    match v {
      case Arr(items) => CanonicalSeqProtoFree(items);
      case Obj(fields) => CanonicalObjectProtoFree(fields);
      case _ =>
    }
  }

  lemma {:induction false} CanonicalSeqProtoFree(items: seq<Json>)
    requires CanonicalSeq(items)
    ensures forall x | x in items :: ProtoFree(x) && WellFormed(x)
    decreases items, 0
  {
    if items != [] {
      CanonicalIsProtoFree(items[0]);
      CanonicalSeqProtoFree(items[1..]);
      assert items == [items[0]] + items[1..];
    }
  }

  lemma {:induction false} CanonicalObjectProtoFree(fields: seq<Field>)
    requires CanonicalObject(fields)
    ensures WellFormedFields(fields)
    ensures forall f | f in fields :: f.key != PROTO && ProtoFree(f.value)
    decreases fields, 0
  {
    if fields != [] {
      CanonicalIsProtoFree(fields[0].value);
      CanonicalObjectProtoFree(fields[1..]);
      assert fields == [fields[0]] + fields[1..];
      BeforeAbsent(fields[0].key, fields[1..]);
      MemberOf(fields[1..], fields[0].key);
      forall i, j | 0 <= i < j < |fields| ensures fields[i].key != fields[j].key {
        assert fields[j] == fields[1..][j - 1];
        if i > 0 { assert fields[i] == fields[1..][i - 1]; }
      }
    }
  }
}
