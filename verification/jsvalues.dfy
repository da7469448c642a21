/** The JavaScript values that the manifest binds to element props, and their text form. */
module JsValues {
  import opened Wrappers
  import opened Strings

  datatype Value = Undefined | Null | Str(s: string) | Num(n: int) | NaN

  /** The template-literal conversion `${v}` used when a prop becomes an attribute. */
  function Stringify(v: Value): string {
    match v
    case Undefined => "undefined"
    case Null => "null"
    case Str(s) => s
    case Num(n) => IntText(n)
    case NaN => "NaN"
  }

  /** The number `parseInt` yields. */
  function FromParsed(p: ParsedInt): Value {
    match p
    case Int(n) => Num(n)
    case NaN => Value.NaN
  }

  /** An optional numeric field: `undefined` when absent. */
  function FromOption(o: Option<nat>): Value {
    match o
    case Some(n) => Num(n)
    case None => Undefined
  }

  /** A non-negative number's text reads back as the same number. */
  lemma NumberRoundTrip(n: nat)
    ensures ParseInt(Stringify(Num(n))) == Int(n)
  {
    assert NatText(n) + [] == NatText(n);
    ParseIntNatText(n, []);
  }
}
