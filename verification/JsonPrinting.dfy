/** Printed values are read back, whatever follows them; so printing is unambiguous. */
module JsonPrinting {
  import opened JsText
  import opened Json
  import opened JsonReading

  /** What may follow a printed number. */
  predicate Stop(x: JsString) { x == [] || !IsDigit(x[0]) }

  lemma SplitAt(p: JsString, x: JsString, q: JsString, y: JsString)
    requires p + x == q + y && |p| == |q|
    ensures p == q && x == y
  {
    assert p == (p + x)[..|p|] && q == (q + y)[..|q|];
    assert x == (p + x)[|p|..] && y == (q + y)[|q|..];
  }

  // ---------- numbers ----------

  lemma {:induction false} DigitsShape(n: nat)
    ensures Digits(n) != [] && Decimal(Digits(n)) == n
    ensures forall i | 0 <= i < |Digits(n)| :: IsDigit(Digits(n)[i])
    ensures Digits(n)[0] == 48 <==> n == 0
    ensures n < 10 <==> |Digits(n)| == 1
  {
    if n < 10 {
      assert Digits(n)[..0] == [];
    } else {
      DigitsShape(n / 10);
      assert Digits(n)[..|Digits(n)| - 1] == Digits(n / 10);
    }
  }

  lemma {:induction false} DigitsEnd(d: JsString, x: JsString)
    requires Stop(x) && forall i | 0 <= i < |d| :: IsDigit(d[i])
    ensures DigitsOf(d + x) == |d|
  {
    if d == [] {
      assert d + x == x;
    } else {
      assert (d + x)[1..] == d[1..] + x;
      DigitsEnd(d[1..], x);
    }
  }

  lemma {:induction false} NaturalRead(n: nat, x: JsString)
    requires Stop(x)
    ensures ReadNatural(Digits(n) + x) == Good(n, x)
  {
    DigitsShape(n);
    DigitsEnd(Digits(n), x);
    assert (Digits(n) + x)[..|Digits(n)|] == Digits(n) && (Digits(n) + x)[|Digits(n)|..] == x;
    assert (Digits(n) + x)[0] == Digits(n)[0];
  }

  lemma {:induction false} IntegerText(n: SafeInt, x: JsString)
    requires Stop(x)
    ensures ReadInteger(PrintInt(n) + x) == Good(Num(n), x)
    ensures (PrintInt(n) + x)[0] == 45 || IsDigit((PrintInt(n) + x)[0])
  {
    hide ReadNatural;
    hide Digits;
    var text := PrintInt(n) + x;
    if n < 0 {
      assert text[0] == 45 && text[1..] == Digits(-n) + x;
      NaturalRead(-n, x);
    } else {
      DigitsShape(n);
      assert text[0] == Digits(n)[0];
      NaturalRead(n, x);
    }
  }

  /** A text that begins like a number is read as one. */
  lemma {:induction false} NumberHead(text: JsString)
    requires text != [] && (text[0] == 45 || IsDigit(text[0]))
    ensures ReadValue(text) == ReadInteger(text)
  {
    NoLiteral(text);
    hide Ascii;
    hide ReadInteger;
  }

  lemma {:induction false} IntegerRead(n: SafeInt, x: JsString)
    requires Stop(x)
    ensures ReadValue(PrintInt(n) + x) == Good(Num(n), x)
  {
    hide *;
    IntegerText(n, x);
    NumberHead(PrintInt(n) + x);
  }

  lemma {:induction false} NoLiteral(x: JsString)
    requires x != [] && x[0] !in {110, 116, 102}
    ensures !(Ascii("null") <= x) && !(Ascii("true") <= x) && !(Ascii("false") <= x)
  {
    assert Ascii("null")[0] == 110 && Ascii("true")[0] == 116 && Ascii("false")[0] == 102;
  }

  // ---------- strings ----------

  lemma HexRead(d: int)
    requires 0 <= d < 16
    ensures HexValue(HexDigit(d)) == Some(d)
  {}

  lemma {:induction false} UnicodeRead(u: Unit, y: JsString)
    requires Escaped(u) == [BACKSLASH, 117, HexDigit(u / 16 / 16 / 16), HexDigit(u / 16 / 16 % 16),
                            HexDigit(u / 16 % 16), HexDigit(u % 16)]
    ensures ReadChars(Escaped(u) + y) == Prepend(u, ReadChars(y))
  {
    var x := Escaped(u) + y;
    HexRead(u / 16 / 16 / 16);
    HexRead(u / 16 / 16 % 16);
    HexRead(u / 16 % 16);
    HexRead(u % 16);
    assert x[0] == BACKSLASH && x[1] == 117 && x[6..] == y;
    assert x[2] == HexDigit(u / 16 / 16 / 16) && x[3] == HexDigit(u / 16 / 16 % 16);
    assert x[4] == HexDigit(u / 16 % 16) && x[5] == HexDigit(u % 16);
    hide HexDigit;
    hide HexValue;
    hide Escaped;
  }

  /** One printed unit is read back as that unit. */
  lemma {:induction false} EscapedRead(u: Unit, y: JsString)
    ensures ReadChars(Escaped(u) + y) == Prepend(u, ReadChars(y))
  {
    var x := Escaped(u) + y;
    if |Escaped(u)| == 6 {
      UnicodeRead(u, y);
    } else if |Escaped(u)| == 2 {
      assert x[0] == BACKSLASH && x[1] == Escaped(u)[1] && x[2..] == y;
    } else {
      UnitRead(u, y);
    }
  }

  lemma {:induction false} UnitRead(u: Unit, y: JsString)
    requires u >= 32 && u != QUOTE && u != BACKSLASH
    ensures ReadChars([u] + y) == Prepend(u, ReadChars(y))
  {
    assert ([u] + y)[1..] == y;
  }

  lemma {:induction false} PairRead(u: Unit, v: Unit, y: JsString)
    requires IsHigh(u) && IsLow(v)
    ensures ReadChars([u] + ([v] + y)) == Prepend(u, Prepend(v, ReadChars(y)))
  {
    hide ReadChars;
    UnitRead(u, [v] + y);
    UnitRead(v, y);
  }

  lemma {:induction false} EndRead(x: JsString)
    ensures ReadChars([QUOTE] + x) == Good([], x)
  {
    assert ([QUOTE] + x)[1..] == x;
  }

  lemma {:induction false} QuotedText(s: JsString, last: JsString)
    ensures s == [] ==> Quoted(s) + last == last
    ensures StartsWithPair(s) ==> Quoted(s) + last == [s[0]] + ([s[1]] + (Quoted(s[2..]) + last))
    ensures s != [] && !StartsWithPair(s) ==> Quoted(s) + last == Escaped(s[0]) + (Quoted(s[1..]) + last)
  {
    hide Escaped;
  }

  lemma {:induction false} QuotedRead(s: JsString, x: JsString)
    ensures ReadChars(Quoted(s) + ([QUOTE] + x)) == Good(s, x)
    decreases |s|
  {
    hide Quoted;
    hide Escaped;
    hide ReadChars;
    var last := [QUOTE] + x;
    QuotedText(s, last);
    if s == [] {
      EndRead(x);
    } else if StartsWithPair(s) {
      QuotedRead(s[2..], x);
      PairRead(s[0], s[1], Quoted(s[2..]) + last);
      assert [s[0]] + ([s[1]] + s[2..]) == s;
    } else {
      QuotedRead(s[1..], x);
      EscapedRead(s[0], Quoted(s[1..]) + last);
      assert [s[0]] + s[1..] == s;
    }
  }

  /** After its opening quotation mark. */
  lemma StringText(s: JsString, x: JsString)
    ensures PrintString(s) + x == [QUOTE] + (Quoted(s) + ([QUOTE] + x))
  {}

  // ---------- values ----------

  lemma {:induction false} LiteralRead(v: Json, x: JsString)
    requires v.Null? || v.Bool?
    ensures ReadValue(Print(v) + x) == Good(v, x)
  {
    var text := Print(v) + x;
    assert text[..|Print(v)|] == Print(v) && text[|Print(v)|..] == x;
    assert Ascii("null") == [110, 117, 108, 108] && Ascii("true") == [116, 114, 117, 101];
    assert Ascii("false") == [102, 97, 108, 115, 101];
    assert Print(v) <= text;
    assert text[0] == Print(v)[0];
    if !v.Null? { assert text[0] != 110; }
  }

  /** A printed value is read back as it was, with whatever follows left over. */
  lemma {:induction false} ReadBack(v: Json, x: JsString)
    requires v.Num? ==> Stop(x)
    ensures ReadValue(Print(v) + x) == Good(v, x)
    decreases v, 1
  {
    match v {
      case Null => LiteralRead(v, x);
      case Bool(_) => LiteralRead(v, x);
      case Num(n) => IntegerRead(n, x);
      case Str(s) =>
        StringText(s, x);
        QuotedRead(s, x);
        NoLiteral(Print(v) + x);
        hide Quoted;
        hide ReadChars;
      case Arr(items) => ArrayRead(items, x);
      case Obj(fields) => ObjectRead(fields, x);
    }
  }

  lemma {:induction false} ArrayRead(items: seq<Json>, x: JsString)
    ensures ReadValue(Print(Arr(items)) + x) == Good(Arr(items), x)
    decreases items, 2
  {
    var text := Print(Arr(items)) + x;
    if items == [] {
      assert text == [OPEN_ARRAY, CLOSE_ARRAY] + x && text[2..] == x;
    } else {
      assert text[1..] == Print(items[0]) + (PrintItems(items[1..]) + x);
      ElementsRead(items, x);
      PrintHead(items[0]);
      assert text[1] == Print(items[0])[0];
    }
    NoLiteral(text);
    hide Print;
    hide PrintItems;
    hide ReadElements;
  }

  /** What follows the first element of an array. */
  lemma {:induction false} ItemsText(items: seq<Json>, x: JsString)
    ensures items == [] ==> PrintItems(items) + x == [CLOSE_ARRAY] + x
    ensures items != [] ==> PrintItems(items) + x == [COMMA] + (Print(items[0]) + (PrintItems(items[1..]) + x))
  {
    hide Print;
  }

  /** The reader after one element. */
  lemma {:induction false} ElementRead(x: JsString, v: Json, next: Unit, y: JsString)
    requires ReadValue(x) == Good(v, [next] + y)
    ensures next == CLOSE_ARRAY ==> ReadElements(x) == Good([v], y)
    ensures next == COMMA && ReadElements(y).Good? ==>
              ReadElements(x) == Good([v] + ReadElements(y).value, ReadElements(y).rest)
  {
    assert ([next] + y)[1..] == y;
    hide ReadValue;
  }

  lemma {:induction false} ElementsRead(items: seq<Json>, x: JsString)
    requires items != []
    ensures ReadElements(Print(items[0]) + (PrintItems(items[1..]) + x)) == Good(items, x)
    decreases items, 1
  {
    hide Print;
    hide PrintItems;
    hide ReadValue;
    hide ReadElements;
    var more := items[1..];
    var rest := PrintItems(more) + x;
    ItemsText(more, x);
    ReadBack(items[0], rest);
    if more == [] {
      ElementRead(Print(items[0]) + rest, items[0], CLOSE_ARRAY, x);
      assert items == [items[0]];
    } else {
      ElementsRead(more, x);
      ElementRead(Print(items[0]) + rest, items[0], COMMA, Print(more[0]) + (PrintItems(more[1..]) + x));
      assert items == [items[0]] + more;
    }
  }

  /** The first unit of a printed value. */
  lemma PrintHead(v: Json)
    ensures Print(v) != [] && Print(v)[0] !in {CLOSE_ARRAY, CLOSE_OBJECT}
  {
    if v.Num? { DigitsShape(if v.n < 0 then -v.n else v.n); }
  }

  lemma {:induction false} ObjectRead(fields: seq<Field>, x: JsString)
    ensures ReadValue(Print(Obj(fields)) + x) == Good(Obj(fields), x)
    decreases fields, 2
  {
    var text := Print(Obj(fields)) + x;
    if fields == [] {
      assert text == [OPEN_OBJECT, CLOSE_OBJECT] + x && text[2..] == x;
    } else {
      assert text[1..] == PrintField(fields[0]) + (PrintFields(fields[1..]) + x);
      MembersRead(fields, x);
      assert text[1] == PrintField(fields[0])[0] == QUOTE;
    }
    NoLiteral(text);
    hide Print;
    hide PrintFields;
    hide ReadMembers;
  }

  /** What follows the first member of an object. */
  lemma {:induction false} FieldsText(fields: seq<Field>, x: JsString)
    ensures fields == [] ==> PrintFields(fields) + x == [CLOSE_OBJECT] + x
    ensures fields != [] ==>
              PrintFields(fields) + x == [COMMA] + (PrintField(fields[0]) + (PrintFields(fields[1..]) + x))
  {
    hide PrintField;
  }

  /** The reader after one member. */
  lemma {:induction false} NextMember(x: JsString, f: Field, next: Unit, y: JsString)
    requires ReadMember(x) == Good(f, [next] + y)
    ensures next == CLOSE_OBJECT ==> ReadMembers(x) == Good([f], y)
    ensures next == COMMA && ReadMembers(y).Good? ==>
              ReadMembers(x) == Good([f] + ReadMembers(y).value, ReadMembers(y).rest)
  {
    assert ([next] + y)[1..] == y;
    hide ReadMember;
  }

  lemma {:induction false} MembersRead(fields: seq<Field>, x: JsString)
    requires fields != []
    ensures ReadMembers(PrintField(fields[0]) + (PrintFields(fields[1..]) + x)) == Good(fields, x)
    decreases fields, 1
  {
    hide PrintField;
    hide PrintFields;
    hide ReadMember;
    hide ReadMembers;
    var more := fields[1..];
    var rest := PrintFields(more) + x;
    FieldsText(more, x);
    MemberRead(fields[0], rest);
    if more == [] {
      NextMember(PrintField(fields[0]) + rest, fields[0], CLOSE_OBJECT, x);
      assert fields == [fields[0]];
    } else {
      MembersRead(more, x);
      NextMember(PrintField(fields[0]) + rest, fields[0], COMMA, PrintField(more[0]) + (PrintFields(more[1..]) + x));
      assert fields == [fields[0]] + more;
    }
  }

  lemma {:induction false} MemberRead(f: Field, x: JsString)
    requires Stop(x)
    ensures ReadMember(PrintField(f) + x) == Good(f, x)
    decreases f, 2
  {
    hide Print;
    hide ReadValue;
    hide ReadChars;
    hide Quoted;
    var value := [COLON] + (Print(f.value) + x);
    assert PrintField(f) + x == PrintString(f.key) + value;
    StringText(f.key, value);
    QuotedRead(f.key, value);
    assert value[1..] == Print(f.value) + x;
    ReadBack(f.value, x);
  }

  /** A printed value can be told apart from whatever follows it. */
  lemma {:induction false} PrintUnique(a: Json, b: Json, x: JsString, y: JsString)
    requires Stop(x) && Stop(y) && Print(a) + x == Print(b) + y
    ensures a == b && x == y
  {
    ReadBack(a, x);
    ReadBack(b, y);
  }
}
