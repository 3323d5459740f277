/** A reader of JSON texts, from the grammar of RFC 8259 alone: literals, separators, escapes and digits. It
    reads texts without insignificant white space, and integers. */
module JsonReading {
  import opened JsText
  import opened Json

  /** What was read, and what comes after it. */
  datatype Read<+T> = Bad | Good(value: T, rest: JsString)

  function Char(c: char): Unit
    requires c < 128 as char
  {
    c as int
  }

  /** Section 3: a value is a literal, a number, a string, an array or an object. */
  function ReadValue(x: JsString): (r: Read<Json>)
    ensures r.Good? ==> |r.rest| < |x|
    decreases |x|, 1
  {
    if Ascii("null") <= x then Good(Null, x[4..])
    else if Ascii("true") <= x then Good(Bool(true), x[4..])
    else if Ascii("false") <= x then Good(Bool(false), x[5..])
    else if x == [] then Bad
    else if x[0] == Char('"') then
      (match ReadChars(x[1..])
       case Bad => Bad
       case Good(s, rest) => Good(Str(s), rest))
    else if x[0] == Char('[') then
      if |x| > 1 && x[1] == Char(']') then Good(Arr([]), x[2..])
      else
        (match ReadElements(x[1..])
         case Bad => Bad
         case Good(items, rest) => Good(Arr(items), rest))
    else if x[0] == Char('{') then
      if |x| > 1 && x[1] == Char('}') then Good(Obj([]), x[2..])
      else
        (match ReadMembers(x[1..])
         case Bad => Bad
         case Good(fields, rest) => Good(Obj(fields), rest))
    else ReadInteger(x)
  }

  /** Section 5: values separated by commas, and the bracket that closes the array. */
  function ReadElements(x: JsString): (r: Read<seq<Json>>)
    ensures r.Good? ==> |r.rest| < |x|
    decreases |x|, 2
  {
    match ReadValue(x)
    case Bad => Bad
    case Good(v, rest) =>
      if rest == [] then Bad
      else if rest[0] == Char(']') then Good([v], rest[1..])
      else if rest[0] != Char(',') then Bad
      else
        match ReadElements(rest[1..])
        case Bad => Bad
        case Good(more, last) => Good([v] + more, last)
  }

  /** Section 4: a name, a colon and a value; members are separated by commas. */
  function ReadMembers(x: JsString): (r: Read<seq<Field>>)
    ensures r.Good? ==> |r.rest| < |x|
    decreases |x|, 2
  {
    match ReadMember(x)
    case Bad => Bad
    case Good(f, rest) =>
      if rest == [] then Bad
      else if rest[0] == Char('}') then Good([f], rest[1..])
      else if rest[0] != Char(',') then Bad
      else
        match ReadMembers(rest[1..])
        case Bad => Bad
        case Good(more, last) => Good([f] + more, last)
  }

  function ReadMember(x: JsString): (r: Read<Field>)
    ensures r.Good? ==> |r.rest| < |x|
    decreases |x|, 1
  {
    if x == [] || x[0] != Char('"') then Bad
    else
      match ReadChars(x[1..])
      case Bad => Bad
      case Good(key, rest) =>
        if rest == [] || rest[0] != Char(':') then Bad
        else
          match ReadValue(rest[1..])
          case Bad => Bad
          case Good(v, last) => Good(Field(key, v), last)
  }

  // ---------- numbers (section 6) ----------

  function DigitsOf(x: JsString): (n: nat)
    ensures n <= |x|
  {
    if x == [] || !(Char('0') <= x[0] <= Char('9')) then 0 else 1 + DigitsOf(x[1..])
  }

  function Decimal(d: JsString): int {
    if d == [] then 0 else Decimal(d[..|d| - 1]) * 10 + d[|d| - 1] - Char('0')
  }

  /** Digits without a leading zero. */
  function ReadNatural(x: JsString): (r: Read<int>)
    ensures r.Good? ==> |r.rest| < |x|
  {
    var n := DigitsOf(x);
    if n == 0 || (n > 1 && x[0] == Char('0')) then Bad else Good(Decimal(x[..n]), x[n..])
  }

  /** A JavaScript number holds it exactly, or it is not read. */
  function Number(n: int, rest: JsString): Read<Json> {
    if -MAX_SAFE <= n <= MAX_SAFE then Good(Num(n), rest) else Bad
  }

  function ReadInteger(x: JsString): (r: Read<Json>)
    ensures r.Good? ==> |r.rest| < |x|
  {
    if x != [] && x[0] == Char('-') then
      match ReadNatural(x[1..])
      case Bad => Bad
      case Good(n, rest) => Number(-n, rest)
    else
      match ReadNatural(x)
      case Bad => Bad
      case Good(n, rest) => Number(n, rest)
  }

  // ---------- strings (section 7) ----------

  function Prepend(u: Unit, r: Read<JsString>): Read<JsString> {
    match r
    case Bad => Bad
    case Good(s, rest) => Good([u] + s, rest)
  }

  /** The characters up to the closing quotation mark. */
  function ReadChars(x: JsString): (r: Read<JsString>)
    ensures r.Good? ==> |r.rest| < |x|
    decreases |x|
  {
    if x == [] then Bad
    else if x[0] == Char('"') then Good([], x[1..])
    else if x[0] < 0x20 then Bad
    else if x[0] != Char('\\') then Prepend(x[0], ReadChars(x[1..]))
    else if |x| < 2 then Bad
    else if x[1] == Char('u') then
      if |x| < 6 || exists i | 2 <= i < 6 :: HexValue(x[i]).None? then Bad
      else
        Prepend(((HexValue(x[2]).value * 16 + HexValue(x[3]).value) * 16 + HexValue(x[4]).value) * 16
                + HexValue(x[5]).value, ReadChars(x[6..]))
    else
      match Escape(x[1])
      case None => Bad
      case Some(u) => Prepend(u, ReadChars(x[2..]))
  }

  function HexValue(u: Unit): (d: Option<int>)
    ensures d.Some? ==> 0 <= d.value < 16
  {
    if Char('0') <= u <= Char('9') then Some(u - Char('0'))
    else if Char('a') <= u <= Char('f') then Some(u - Char('a') + 10)
    else if Char('A') <= u <= Char('F') then Some(u - Char('A') + 10)
    else None
  }

  /** The two-character escapes. */
  function Escape(u: Unit): Option<Unit> {
    if u == Char('"') || u == Char('\\') || u == Char('/') then Some(u)
    else if u == Char('b') then Some(0x08)
    else if u == Char('f') then Some(0x0C)
    else if u == Char('n') then Some(0x0A)
    else if u == Char('r') then Some(0x0D)
    else if u == Char('t') then Some(0x09)
    else None
  }
}
