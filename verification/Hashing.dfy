/** Backend/src/security/hashing.service.ts: canonical JSON and the hash chain step. */
module Hashing {
  import opened JsText
  import opened Json
  import opened JsonPrinting
  import opened CanonicalForm
  import opened HashChain

  function ComputeChainHash(h: HashFn, eventData: Json, previousHash: JsString): JsString {
    Digest(h, CanonicalStringify(eventData) + previousHash)
  }

  // ---------- canonicalStringify decides equality up to key order ----------

  lemma StringifyInjective(a: Json, b: Json)
    requires CanonicalStringify(a) == CanonicalStringify(b)
    ensures Canonical(a) == Canonical(b)
  {
    assert CanonicalStringify(a) + [] == CanonicalStringify(b) + [];
    PrintUnique(Canonical(a), Canonical(b), [], []);
  }

  /** Two values print alike exactly when they mean the same, object keys unordered and
      `__proto__` properties disregarded, at every depth. */
  lemma StringifyDecidesMeaning(a: Json, b: Json)
    requires WellFormed(a) && WellFormed(b)
    ensures CanonicalStringify(a) == CanonicalStringify(b) <==>
            MeaningOf(Visible(a)) == MeaningOf(Visible(b))
  {
    CanonicalMeaning(a);
    CanonicalMeaning(b);
    if CanonicalStringify(a) == CanonicalStringify(b) {
      StringifyInjective(a, b);
    }
    if MeaningOf(Visible(a)) == MeaningOf(Visible(b)) {
      CanonicalUnique(Canonical(a), Canonical(b));
    }
  }

  /** Without `__proto__` properties, nothing but key order is disregarded. */
  lemma StringifyDecidesEquality(a: Json, b: Json)
    requires WellFormed(a) && WellFormed(b) && ProtoFree(a) && ProtoFree(b)
    ensures CanonicalStringify(a) == CanonicalStringify(b) <==> MeaningOf(a) == MeaningOf(b)
  {
    StringifyDecidesMeaning(a, b);
    VisibleId(a);
    VisibleId(b);
  }

  /** An object that gains a `__proto__` property keeps its text, and so its chain hash. */
  lemma ProtoPropertyIsNotHashed(fields: seq<Field>, value: Json)
    requires WellFormed(Obj(fields)) && WellFormed(value)
    requires forall f | f in fields :: f.key != PROTO
    ensures WellFormed(Obj(fields + [Field(PROTO, value)]))
    ensures MeaningOf(Obj(fields + [Field(PROTO, value)])) != MeaningOf(Obj(fields))
    ensures CanonicalStringify(Obj(fields + [Field(PROTO, value)])) == CanonicalStringify(Obj(fields))
  {
    var more := fields + [Field(PROTO, value)];
    assert more[|fields|].key == PROTO;
    MemberOf(fields, PROTO);
    MemberOf(more, PROTO);
    AppendedProto(fields, value);
    StringifyDecidesMeaning(Obj(more), Obj(fields));
  }

  lemma {:induction false} AppendedProto(fields: seq<Field>, value: Json)
    ensures VisibleFields(fields + [Field(PROTO, value)]) == VisibleFields(fields)
  {
    var more := fields + [Field(PROTO, value)];
    if fields == [] {
      assert more[1..] == [];
    } else {
      assert more[1..] == fields[1..] + [Field(PROTO, value)];
      AppendedProto(fields[1..], value);
    }
  }

  lemma CanonicalIdempotent(v: Json)
    requires WellFormed(v)
    ensures Canonical(Canonical(v)) == Canonical(v)
  {
    CanonicalMeaning(v);
    CanonicalIsProtoFree(Canonical(v));
    VisibleId(Canonical(v));
    CanonicalMeaning(Canonical(v));
    CanonicalUnique(Canonical(Canonical(v)), Canonical(v));
  }

  /** A chained text determines both of its parts, because digests have one length. */
  lemma ChainedTextUnique(a: Json, b: Json, p: JsString, q: JsString)
    requires |p| == |q| && CanonicalStringify(a) + p == CanonicalStringify(b) + q
    ensures Canonical(a) == Canonical(b) && p == q
  {
    SplitAt(CanonicalStringify(a), p, CanonicalStringify(b), q);
    StringifyInjective(a, b);
  }

  // ---------- canonicalize, as the program computes it ----------

  function InsertKey(k: JsString, keys: seq<JsString>): seq<JsString> {
    if keys == [] || LexLess(k, keys[0]) then [k] + keys else [keys[0]] + InsertKey(k, keys[1..])
  }

  /** `keys.sort()` */
  function SortKeys(keys: seq<JsString>): seq<JsString> {
    if keys == [] then [] else InsertKey(keys[0], SortKeys(keys[1..]))
  }

  ghost predicate Ascending(keys: seq<JsString>) {
    forall i, j | 0 <= i < j < |keys| :: LexLess(keys[i], keys[j])
  }

  lemma {:induction false} InsertKeyAscending(k: JsString, keys: seq<JsString>)
    requires Ascending(keys) && k !in keys
    ensures Ascending(InsertKey(k, keys))
    ensures forall x :: x in InsertKey(k, keys) <==> x == k || x in keys
  {
    if keys == [] {
    } else if LexLess(k, keys[0]) {
      var r := [k] + keys;
      forall i, j | 0 <= i < j < |r| ensures LexLess(r[i], r[j]) {
        if i == 0 && j > 1 { LexTransitive(k, keys[0], keys[j - 1]); }
      }
    } else {
      LexTotal(k, keys[0]);
      InsertKeyAscending(k, keys[1..]);
      var rest := InsertKey(k, keys[1..]);
      var r := [keys[0]] + rest;
      forall i, j | 0 <= i < j < |r| ensures LexLess(r[i], r[j]) {
        assert r[j] in rest;
      }
      assert keys == [keys[0]] + keys[1..];
    }
  }

  lemma {:induction false} SortKeysAscending(keys: seq<JsString>)
    requires forall i, j | 0 <= i < j < |keys| :: keys[i] != keys[j]
    ensures Ascending(SortKeys(keys))
    ensures forall x :: x in SortKeys(keys) <==> x in keys
  {
    if keys != [] {
      SortKeysAscending(keys[1..]);
      assert keys == [keys[0]] + keys[1..];
      InsertKeyAscending(keys[0], SortKeys(keys[1..]));
    }
  }

  /** `object[key] = value` for a name the object does not have: `__proto__` creates no own
      property, an index goes to its place among the indices, any other name goes last. */
  function SetProperty(fields: seq<Field>, key: JsString, value: Json): seq<Field> {
    if key == PROTO then fields
    else if IsIndex(key) then InsertField(Field(key, value), fields)
    else fields + [Field(key, value)]
  }

  /** Position of a property of the object. */
  method FindKey(fields: seq<Field>, key: JsString) returns (i: nat)
    requires exists j :: 0 <= j < |fields| && fields[j].key == key
    ensures i < |fields| && fields[i].key == key
  {
    i := 0;
    while fields[i].key != key
      invariant i < |fields|
      invariant forall j | 0 <= j < i :: fields[j].key != key
      decreases |fields| - i
    {
      i := i + 1;
    }
  }

  /** The members that have been assigned once the keys up to `n` are done. */
  ghost function Assigned(fields: seq<Field>, keys: seq<JsString>, n: nat): map<JsString, Meaning>
    requires n <= |keys|
  {
    map k | k in keys[..n] && k in FieldsMeaning(CanonicalFields(fields)) ::
      FieldsMeaning(CanonicalFields(fields))[k]
  }

  lemma {:induction false} AppendedLast(fields: seq<Field>, f: Field)
    requires CanonicalObject(fields) && f.key != PROTO && IsCanonical(f.value)
    requires forall i | 0 <= i < |fields| :: KeyBefore(fields[i].key, f.key)
    ensures CanonicalObject(fields + [f])
    ensures FieldsMeaning(fields + [f]) == FieldsMeaning(fields)[f.key := MeaningOf(f.value)]
  {
    var r := fields + [f];
    if fields == [] {
      assert r[1..] == [];
    } else {
      assert forall i | 0 <= i < |fields[1..]| :: fields[1..][i] == fields[i + 1];
      AppendedLast(fields[1..], f);
      assert r[1..] == fields[1..] + [f];
      KeyBeforeTotal(fields[0].key, f.key);
    }
  }

  lemma {:induction false} CanonicalFieldAt(fields: seq<Field>, i: nat)
    requires WellFormedFields(fields) && i < |fields|
    ensures fields[i].key in FieldsMeaning(CanonicalFields(fields)) <==> fields[i].key != PROTO
    ensures fields[i].key != PROTO ==>
              FieldsMeaning(CanonicalFields(fields))[fields[i].key] == MeaningOf(Canonical(fields[i].value))
  {
    WellFormedTail(fields);
    CanonicalFieldsMeaning(fields);
    CanonicalFieldsMeaning(fields[1..]);
    MemberOf(CanonicalFields(fields), PROTO);
    if fields[0].key != PROTO {
      assert CanonicalFields(fields)[1..] == CanonicalFields(fields[1..]);
    }
    if i > 0 {
      CanonicalFieldAt(fields[1..], i - 1);
    }
  }

  lemma AssignedNext(fields: seq<Field>, keys: seq<JsString>, n: nat)
    requires n < |keys|
    ensures
      var m := FieldsMeaning(CanonicalFields(fields));
      Assigned(fields, keys, n + 1) ==
        if keys[n] in m then Assigned(fields, keys, n)[keys[n] := m[keys[n]]]
        else Assigned(fields, keys, n)
  {
    assert keys[..n + 1] == keys[..n] + [keys[n]];
  }

  /** Everything assigned so far precedes a later key that is not an index. */
  lemma LaterKey(fields: seq<Field>, keys: seq<JsString>, n: nat, sorted: seq<Field>)
    requires Ascending(keys) && n < |keys| && FieldsMeaning(sorted) == Assigned(fields, keys, n)
    ensures keys[n] !in FieldsMeaning(sorted)
    ensures !IsIndex(keys[n]) ==> forall j | 0 <= j < |sorted| :: KeyBefore(sorted[j].key, keys[n])
  {
    var k := keys[n];
    assert k !in keys[..n] by { LexIrreflexive(k); }
    forall j | 0 <= j < |sorted| ensures LexLess(sorted[j].key, k) {
      MemberOf(sorted, sorted[j].key);
      var m :| 0 <= m < n && keys[m] == sorted[j].key;
    }
    forall j | 0 <= j < |sorted| && !IsIndex(k) ensures KeyBefore(sorted[j].key, k) {
      assert LexLess(sorted[j].key, k);
    }
  }

  /** One assignment of the loop. */
  lemma AssignedStep(fields: seq<Field>, keys: seq<JsString>, n: nat, i: nat, sorted: seq<Field>)
    requires WellFormedFields(fields) && Ascending(keys)
    requires n < |keys| && i < |fields| && fields[i].key == keys[n]
    requires CanonicalObject(sorted) && FieldsMeaning(sorted) == Assigned(fields, keys, n)
    ensures
      var r := SetProperty(sorted, keys[n], Canonical(fields[i].value));
      CanonicalObject(r) && FieldsMeaning(r) == Assigned(fields, keys, n + 1)
  {
    var f := Field(keys[n], Canonical(fields[i].value));
    CanonicalFieldAt(fields, i);
    AssignedNext(fields, keys, n);
    if f.key != PROTO {
      assert IsCanonical(f.value) by { CanonicalMeaning(fields[i].value); }
      LaterKey(fields, keys, n, sorted);
      if IsIndex(f.key) { Inserted(f, sorted); } else { AppendedLast(sorted, f); }
    }
  }

  /** The recursion of the program: arrays element by element, objects key by sorted key. */
  method Canonicalize(v: Json) returns (r: Json)
    requires WellFormed(v)
    ensures r == Canonical(v)
    decreases v
  {
    if v.Arr? {
      var mapped: seq<Json> := [];
      for i := 0 to |v.items|
        invariant mapped == CanonicalItems(v.items[..i])
      {
        var x := Canonicalize(v.items[i]);
        CanonicalItemsSnoc(v.items[..i], v.items[i]);
        assert v.items[..i + 1] == v.items[..i] + [v.items[i]];
        mapped := mapped + [x];
      }
      assert v.items[..|v.items|] == v.items;
      return Arr(mapped);
    }
    if v.Obj? {
      var entries := SortKeys(Keys(v.fields));
      SortKeysAscending(Keys(v.fields));
      var sorted: seq<Field> := [];
      for n := 0 to |entries|
        invariant CanonicalObject(sorted) && FieldsMeaning(sorted) == Assigned(v.fields, entries, n)
      {
        assert entries[n] in Keys(v.fields);
        var i := FindKey(v.fields, entries[n]);
        assert v.fields[i] in v.fields;
        var value := Canonicalize(v.fields[i].value);
        AssignedStep(v.fields, entries, n, i, sorted);
        sorted := SetProperty(sorted, entries[n], value);
      }
      ObjectDone(v.fields, entries, sorted);
      return Obj(sorted);
    }
    return v;
  }

  lemma ObjectDone(fields: seq<Field>, keys: seq<JsString>, sorted: seq<Field>)
    requires WellFormedFields(fields) && keys == SortKeys(Keys(fields))
    requires CanonicalObject(sorted) && FieldsMeaning(sorted) == Assigned(fields, keys, |keys|)
    ensures Obj(sorted) == Canonical(Obj(fields))
  {
    SortKeysAscending(Keys(fields));
    assert keys[..|keys|] == keys;
    CanonicalFieldsMeaning(fields);
    forall k | k in FieldsMeaning(CanonicalFields(fields)) ensures k in keys {
      MemberOf(fields, k);
      var i :| 0 <= i < |fields| && fields[i].key == k;
      assert Keys(fields)[i] == k;
    }
    assert FieldsMeaning(sorted) == FieldsMeaning(CanonicalFields(fields));
    CanonicalMeaning(Obj(fields));
    Sorted(CanonicalFields(fields));
    CanonicalUnique(Obj(sorted), Canonical(Obj(fields)));
  }

  lemma {:induction false} CanonicalItemsSnoc(items: seq<Json>, x: Json)
    ensures CanonicalItems(items + [x]) == CanonicalItems(items) + [Canonical(x)]
  {
    if items == [] {
      assert ([] + [x])[1..] == [];
    } else {
      assert (items + [x])[1..] == items[1..] + [x];
      CanonicalItemsSnoc(items[1..], x);
    }
  }
}
