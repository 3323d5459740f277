/** JavaScript strings as the program sees them: sequences of UTF-16 code units. */
module JsText {

  type Unit = u: int | 0 <= u < 0x1_0000

  type JsString = seq<Unit>

  datatype Option<+T> = None | Some(value: T)

  /** A string literal of the source, which is always ASCII. */
  function Ascii(s: string): (u: JsString)
    requires forall i | 0 <= i < |s| :: s[i] < 128 as char
    ensures |u| == |s|
    ensures forall i | 0 <= i < |s| :: u[i] == s[i] as int
  {
    seq(|s|, i requires 0 <= i < |s| => s[i] as int)
  }

  /** The order of `Array.prototype.sort` without a comparator: by code units. */
  predicate LexLess(a: JsString, b: JsString) {
    if b == [] then false
    else if a == [] then true
    else a[0] < b[0] || (a[0] == b[0] && LexLess(a[1..], b[1..]))
  }

  lemma LexIrreflexive(a: JsString)
    ensures !LexLess(a, a)
  {}

  lemma LexTotal(a: JsString, b: JsString)
    ensures LexLess(a, b) || a == b || LexLess(b, a)
  {
    if a != [] && b != [] && a[0] == b[0] {
      LexTotal(a[1..], b[1..]);
      assert a == [a[0]] + a[1..] && b == [b[0]] + b[1..];
    }
  }

  lemma LexTransitive(a: JsString, b: JsString, c: JsString)
    requires LexLess(a, b) && LexLess(b, c)
    ensures LexLess(a, c)
  {
    if a != [] && a[0] == b[0] == c[0] {
      LexTransitive(a[1..], b[1..], c[1..]);
    }
  }
}
