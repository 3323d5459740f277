/** JSON values, their meaning, their canonical form and their printed form. */
module Json {
  import opened JsText

  const MAX_SAFE := 9007199254740991

  /** Integers that a JavaScript number holds exactly. */
  type SafeInt = n: int | -MAX_SAFE <= n <= MAX_SAFE

  /** A value as JavaScript holds it: an object lists its own properties in enumeration order. */
  datatype Json =
    | Null
    | Bool(b: bool)
    | Num(n: SafeInt)
    | Str(s: JsString)
    | Arr(items: seq<Json>)
    | Obj(fields: seq<Field>)

  datatype Field = Field(key: JsString, value: Json)

  /** What a JSON text means: the members of an object have no order. */
  datatype Meaning =
    | MNull
    | MBool(b: bool)
    | MNum(n: SafeInt)
    | MStr(s: JsString)
    | MArr(items: seq<Meaning>)
    | MObj(members: map<JsString, Meaning>)

  function Keys(fields: seq<Field>): seq<JsString> {
    seq(|fields|, i requires 0 <= i < |fields| => fields[i].key)
  }

  predicate DistinctKeys(fields: seq<Field>) {
    forall i, j | 0 <= i < j < |fields| :: fields[i].key != fields[j].key
  }

  /** A property name occurs once in an object, at every depth. */
  predicate WellFormed(v: Json) {
    match v
    case Arr(items) => forall x | x in items :: WellFormed(x)
    case Obj(fields) => DistinctKeys(fields) && forall f | f in fields :: WellFormed(f.value)
    case _ => true
  }

  predicate WellFormedFields(fields: seq<Field>) {
    DistinctKeys(fields) && forall f | f in fields :: WellFormed(f.value)
  }

  predicate WellFormedItems(items: seq<Json>) {
    forall x | x in items :: WellFormed(x)
  }

  // ---------- meaning ----------

  function MeaningOf(v: Json): Meaning
    decreases v, 1
  {
    match v
    case Null => MNull
    case Bool(b) => MBool(b)
    case Num(n) => MNum(n)
    case Str(s) => MStr(s)
    case Arr(items) => MArr(ItemsMeaning(items))
    case Obj(fields) => MObj(FieldsMeaning(fields))
  }

  function ItemsMeaning(items: seq<Json>): seq<Meaning>
    decreases items, 0
  {
    if items == [] then [] else [MeaningOf(items[0])] + ItemsMeaning(items[1..])
  }

  function FieldsMeaning(fields: seq<Field>): map<JsString, Meaning>
    decreases fields, 0
  {
    if fields == [] then map[]
    else FieldsMeaning(fields[1..])[fields[0].key := MeaningOf(fields[0].value)]
  }

  // ---------- what an assignment `sorted[key] = value` can store ----------

  /** `__proto__`: assigning it sets the prototype of the object and creates no own property. */
  const PROTO: JsString := [95, 95, 112, 114, 111, 116, 111, 95, 95]

  /** The value without the `__proto__` properties, at every depth. */
  function Visible(v: Json): Json
    decreases v, 1
  {
    match v
    case Arr(items) => Arr(VisibleItems(items))
    case Obj(fields) => Obj(VisibleFields(fields))
    case _ => v
  }

  function VisibleItems(items: seq<Json>): seq<Json>
    decreases items, 0
  {
    if items == [] then [] else [Visible(items[0])] + VisibleItems(items[1..])
  }

  function VisibleFields(fields: seq<Field>): seq<Field>
    decreases fields, 0
  {
    if fields == [] then []
    else
      var rest := VisibleFields(fields[1..]);
      if fields[0].key == PROTO then rest
      else [Field(fields[0].key, Visible(fields[0].value))] + rest
  }

  predicate ProtoFree(v: Json) {
    match v
    case Arr(items) => forall x | x in items :: ProtoFree(x)
    case Obj(fields) => forall f | f in fields :: f.key != PROTO && ProtoFree(f.value)
    case _ => true
  }

  // ---------- property order ----------

  predicate IsDigit(u: Unit) { 48 <= u <= 57 }

  /** 4294967294, the largest array index. */
  const MAX_INDEX: JsString := [52, 50, 57, 52, 57, 54, 55, 50, 57, 52]

  /** Names that enumerate before all others, in numeric order. */
  predicate IsIndex(k: JsString) {
    && k != []
    && (forall i | 0 <= i < |k| :: IsDigit(k[i]))
    && (k[0] == 48 ==> |k| == 1)
    && (|k| < |MAX_INDEX| || (|k| == |MAX_INDEX| && !LexLess(MAX_INDEX, k)))
  }

  /** Enumeration order of an object filled in sorted order. Between two indices the shorter
      one is the smaller number, and equal lengths compare digit by digit. */
  predicate KeyBefore(a: JsString, b: JsString) {
    if IsIndex(a) != IsIndex(b) then IsIndex(a)
    else if IsIndex(a) && |a| != |b| then |a| < |b|
    else LexLess(a, b)
  }

  function InsertField(f: Field, fields: seq<Field>): seq<Field> {
    if fields == [] || KeyBefore(f.key, fields[0].key) then [f] + fields
    else [fields[0]] + InsertField(f, fields[1..])
  }

  function SortFields(fields: seq<Field>): seq<Field> {
    if fields == [] then [] else InsertField(fields[0], SortFields(fields[1..]))
  }

  // ---------- canonical form ----------

  function Canonical(v: Json): Json
    decreases v, 1
  {
    match v
    case Arr(items) => Arr(CanonicalItems(items))
    case Obj(fields) => Obj(SortFields(CanonicalFields(fields)))
    case _ => v
  }

  function CanonicalItems(items: seq<Json>): (r: seq<Json>)
    decreases items, 0
  {
    if items == [] then [] else [Canonical(items[0])] + CanonicalItems(items[1..])
  }

  function CanonicalFields(fields: seq<Field>): seq<Field>
    decreases fields, 0
  {
    if fields == [] then []
    else
      var rest := CanonicalFields(fields[1..]);
      if fields[0].key == PROTO then rest
      else [Field(fields[0].key, Canonical(fields[0].value))] + rest
  }

  // ---------- printed form (JSON.stringify, section 25.5.2 of ECMA-262) ----------

  const QUOTE: Unit := 34
  const COMMA: Unit := 44
  const COLON: Unit := 58
  const OPEN_ARRAY: Unit := 91
  const BACKSLASH: Unit := 92
  const CLOSE_ARRAY: Unit := 93
  const OPEN_OBJECT: Unit := 123
  const CLOSE_OBJECT: Unit := 125

  function Print(v: Json): JsString
    decreases v, 1
  {
    match v
    case Null => [110, 117, 108, 108]
    case Bool(b) => if b then [116, 114, 117, 101] else [102, 97, 108, 115, 101]
    case Num(n) => PrintInt(n)
    case Str(s) => PrintString(s)
    case Arr(items) =>
      [OPEN_ARRAY] +
      (if items == [] then [CLOSE_ARRAY] else Print(items[0]) + PrintItems(items[1..]))
    case Obj(fields) =>
      [OPEN_OBJECT] +
      (if fields == [] then [CLOSE_OBJECT] else PrintField(fields[0]) + PrintFields(fields[1..]))
  }

  function PrintItems(items: seq<Json>): JsString
    decreases items, 0
  {
    if items == [] then [CLOSE_ARRAY] else [COMMA] + Print(items[0]) + PrintItems(items[1..])
  }

  function PrintField(f: Field): JsString
    decreases f, 0
  {
    PrintString(f.key) + [COLON] + Print(f.value)
  }

  function PrintFields(fields: seq<Field>): JsString
    decreases fields, 0
  {
    if fields == [] then [CLOSE_OBJECT]
    else [COMMA] + PrintField(fields[0]) + PrintFields(fields[1..])
  }

  function Digits(n: nat): JsString {
    if n < 10 then [48 + n] else Digits(n / 10) + [48 + n % 10]
  }

  function PrintInt(n: int): JsString {
    if n < 0 then [45] + Digits(-n) else Digits(n)
  }

  function PrintString(s: JsString): JsString {
    [QUOTE] + Quoted(s) + [QUOTE]
  }

  predicate IsHigh(u: Unit) { 0xD800 <= u < 0xDC00 }

  predicate IsLow(u: Unit) { 0xDC00 <= u < 0xE000 }

  predicate StartsWithPair(s: JsString) { |s| >= 2 && IsHigh(s[0]) && IsLow(s[1]) }

  function Quoted(s: JsString): JsString {
    if s == [] then []
    else if StartsWithPair(s) then [s[0], s[1]] + Quoted(s[2..])
    else Escaped(s[0]) + Quoted(s[1..])
  }

  /** The escape of one unit that is not part of a surrogate pair (section 7 of RFC 8259). */
  function Escaped(u: Unit): JsString {
    if u == 8 then [BACKSLASH, 98]
    else if u == 9 then [BACKSLASH, 116]
    else if u == 10 then [BACKSLASH, 110]
    else if u == 12 then [BACKSLASH, 102]
    else if u == 13 then [BACKSLASH, 114]
    else if u == QUOTE || u == BACKSLASH then [BACKSLASH, u]
    else if u < 32 || IsHigh(u) || IsLow(u) then
      [BACKSLASH, 117, HexDigit(u / 16 / 16 / 16), HexDigit(u / 16 / 16 % 16),
       HexDigit(u / 16 % 16), HexDigit(u % 16)]
    else [u]
  }

  function HexDigit(d: int): Unit
    requires 0 <= d < 16
  {
    if d < 10 then 48 + d else 87 + d
  }

  function CanonicalStringify(v: Json): JsString {
    Print(Canonical(v))
  }
}
