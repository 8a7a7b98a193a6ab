/** JavaScript values as they reach the core: parsed request bodies, decoded
    database fields and model replies.  Numbers are integers (`JNum`) or NaN;
    fractional numbers are not part of this model. */
module Json {
  import opened Wrappers
  import opened JsText

  datatype JsValue =
    | JUndefined
    | JNull
    | JBool(b: bool)
    | JNum(n: int)
    | JNaN
    | JStr(s: string)
    | JArr(elems: seq<JsValue>)
    | JObj(fields: map<string, JsValue>)

  /** JavaScript truthiness: what `if (v)`, `!v` and `v || d` test. */
  predicate Truthy(v: JsValue) {
    match v
    case JUndefined => false
    case JNull => false
    case JBool(b) => b
    case JNum(n) => n != 0
    case JNaN => false
    case JStr(s) => s != ""
    case JArr(_) => true
    case JObj(_) => true
  }

  /** What `??` and `?.` test. */
  predicate Nullish(v: JsValue) {
    v.JUndefined? || v.JNull?
  }

  /** `a ?? b`. */
  function Coalesce(a: JsValue, b: JsValue): (r: JsValue)
    ensures Nullish(a) ==> r == b
    ensures !Nullish(a) ==> r == a
  {
    if Nullish(a) then b else a
  }

  /** `a || b`. */
  function OrElse(a: JsValue, b: JsValue): (r: JsValue)
    ensures Truthy(a) ==> r == a
    ensures !Truthy(a) ==> r == b
  {
    if Truthy(a) then a else b
  }

  /** `??` and `||` disagree exactly on the falsy values that are not
      nullish: `false`, `0`, NaN and the empty string. */
  lemma CoalesceVersusOrElse(a: JsValue, b: JsValue)
    requires a != b
    ensures Coalesce(a, b) != OrElse(a, b) <==> !Nullish(a) && !Truthy(a)
  {
  }

  /** Property read `v.k` on a value that is not nullish: only objects have
      own fields here; anything else reads as `undefined`. */
  function Get(v: JsValue, k: string): (r: JsValue)
    ensures v.JObj? && k in v.fields ==> r == v.fields[k]
    ensures !(v.JObj? && k in v.fields) ==> r == JUndefined
  {
    if v.JObj? && k in v.fields then v.fields[k] else JUndefined
  }

  /** The type names a schema validator reports ("Expected string, received
      number"). */
  function TypeName(v: JsValue): string {
    match v
    case JUndefined => "undefined"
    case JNull => "null"
    case JBool(_) => "boolean"
    case JNum(_) => "number"
    case JNaN => "nan"
    case JStr(_) => "string"
    case JArr(_) => "array"
    case JObj(_) => "object"
  }

  /** `Number(s)` for a string: surrounding whitespace is ignored, the empty
      string is 0, and an optionally signed run of decimal digits is its
      value; anything else is NaN here. */
  function StringToNumber(s: string): (r: JsValue)
    ensures r.JNum? || r.JNaN?
  {
    var t := Trim(s);
    if t == [] then JNum(0)
    else if (t[0] == '-' || t[0] == '+') && |t| > 1 && AllDigits(t[1..]) then
      var v: int := DigitsValue(t[1..]);
      JNum(if t[0] == '-' then -v else v)
    else if AllDigits(t) then JNum(DigitsValue(t))
    else JNaN
  }

  /** Every integer JavaScript renders reads back as itself. */
  lemma StringToNumberOfIntToString(i: int)
    ensures StringToNumber(IntToString(i)) == JNum(i)
  {
    if i < 0 {
      StringToNumberOfNegative(-i);
    } else {
      StringToNumberOfNat(i);
    }
  }

  lemma StringToNumberOfNat(n: nat)
    ensures StringToNumber(NatToString(n)) == JNum(n)
  {
    var s := NatToString(n);
    TrimOfTrimmed(s);
    assert IsDigit(s[0]);
    NatToStringValue(n);
  }

  lemma StringToNumberOfNegative(n: nat)
    requires n > 0
    ensures StringToNumber("-" + NatToString(n)) == JNum(-(n as int))
  {
    var d := NatToString(n);
    var s := "-" + d;
    TrimOfTrimmed(s);
    assert s[1..] == d;
    NatToStringValue(n);
  }

  /** `Number(v)`. */
  function ToNumber(v: JsValue): (r: JsValue)
    ensures r.JNum? || r.JNaN?
    ensures v.JNum? ==> r == v
  {
    match v
    case JUndefined => JNaN
    case JNull => JNum(0)
    case JBool(b) => JNum(if b then 1 else 0)
    case JNum(_) => v
    case JNaN => JNaN
    case JStr(s) => StringToNumber(s)
    case JArr(_) => JNaN
    case JObj(_) => JNaN
  }

  /** `String(v)`, which is also what a template literal `${v}` inserts. An
      array is its elements joined with commas, `null` and `undefined`
      elements giving the empty string. */
  function ToString(v: JsValue): string
    decreases v, 1
  {
    match v
    case JUndefined => "undefined"
    case JNull => "null"
    case JBool(b) => if b then "true" else "false"
    case JNum(n) => IntToString(n)
    case JNaN => "NaN"
    case JStr(s) => s
    case JArr(es) => JoinElements(v, |es|)
    case JObj(_) => "[object Object]"
  }

  /** The first `n` elements of array `a`, rendered and joined with commas. */
  function JoinElements(a: JsValue, n: nat): string
    requires a.JArr? && n <= |a.elems|
    decreases a, 0, n
  {
    if n == 0 then ""
    else
      var e := a.elems[n - 1];
      var last := if Nullish(e) then "" else ToString(e);
      if n == 1 then last else JoinElements(a, n - 1) + "," + last
  }

}
