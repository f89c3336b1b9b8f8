/** JavaScript values, as far as the client library looks at them. */
module Js {

  datatype Option<T> = None | Some(value: T)

  datatype Result<T> = Ok(value: T) | Err(error: Error)

  /** The ways a call of the client can fail. */
  datatype Error =
    | TransportFailure(reason: string)  // the HTTP layer rejected; passed on unchanged
    | ApiError(message: string)         // the envelope said code "ERROR"
    | WriteFailure(reason: string)      // writing a downloaded export to disk failed
    | TypeError                         // a property read on undefined (or on an unbound `this`)

  /** A primitive parameter value. Numbers are integers, written as full decimal numerals (no exponent form). */
  datatype Prim = Str(s: string) | Num(n: int) | Bool(b: bool)

  /** A parameter value: a primitive, or an array (whose items may be arrays again). */
  datatype Value = Scalar(prim: Prim) | List(items: seq<Value>)

  /** The value of `passing` in a result object, reduced to the four values the client meets. */
  datatype JsValue = JTrue | JFalse | JNull | JUndefined

  function DigitChar(d: nat): char
    requires d < 10
  {
    ('0' as int + d) as char
  }

  predicate IsDigit(c: char)
  {
    '0' <= c <= '9'
  }

  /** The decimal numeral of `n`: digits only, with no leading zero. */
  function NatToString(n: nat): (r: string)
    ensures |r| >= 1 && (forall i :: 0 <= i < |r| ==> IsDigit(r[i]))
    ensures |r| > 1 ==> r[0] != '0'
  {
    if n < 10 then [DigitChar(n)] else NatToString(n / 10) + [DigitChar(n % 10)]
  }

  /** The number a string of decimal digits denotes: the reference reading of a numeral. */
  function NumeralValue(s: string): nat
    requires |s| >= 1 && forall i :: 0 <= i < |s| ==> IsDigit(s[i])
    decreases |s|
  {
    assert IsDigit(s[|s| - 1]);
    var last: nat := s[|s| - 1] as int - '0' as int;
    if |s| == 1 then last else 10 * NumeralValue(s[..|s| - 1]) + last
  }

  /** `String(n)` for a non-negative integer reads back as `n`. */
  lemma {:induction false} NumeralRoundTrip(n: nat)
    ensures NumeralValue(NatToString(n)) == n
  {
    if n >= 10 {
      NumeralRoundTrip(n / 10);
      var s := NatToString(n);
      assert s[..|s| - 1] == NatToString(n / 10);
    }
  }

  function PrimToString(p: Prim): string
  {
    match p
    case Str(s) => s
    case Num(n) => if n < 0 then "-" + NatToString(-n) else NatToString(n)
    case Bool(b) => if b then "true" else "false"
  }

  /** `strs` joined with `sep` between neighbours, as Array.prototype.join does. */
  function Join(strs: seq<string>, sep: string): string
  {
    if |strs| == 0 then ""
    else if |strs| == 1 then strs[0]
    else strs[0] + sep + Join(strs[1..], sep)
  }

  /** `String(v)`, which is also `v.toString()`: an array is its items' strings joined by commas. */
  function ToString(v: Value): (r: string)
    ensures v.Scalar? && v.prim.Str? ==> r == v.prim.s
    ensures v.Scalar? && v.prim.Num? && v.prim.n >= 0 ==> r == NatToString(v.prim.n)
    ensures v.Scalar? && v.prim.Num? && v.prim.n < 0 ==> r == "-" + NatToString(-v.prim.n)
    ensures v == List([]) ==> r == ""
    ensures v.List? && |v.items| == 1 ==> r == ToString(v.items[0])
  {
    match v
    case Scalar(p) => PrimToString(p)
    case List(items) => Join(seq(|items|, i requires 0 <= i < |items| => ToString(items[i])), ",")
  }

  /** JavaScript truthiness: the empty string, 0 and false are falsy; every array is truthy. */
  predicate Truthy(v: Value)
    ensures v.List? ==> Truthy(v)
    ensures v.Scalar? ==> (!Truthy(v) <==> v.prim in {Str(""), Num(0), Bool(false)})
  {
    match v
    case Scalar(Str(s)) => s != ""
    case Scalar(Num(n)) => n != 0
    case Scalar(Bool(b)) => b
    case List(_) => true
  }
}
