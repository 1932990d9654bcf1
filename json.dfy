/**
 * JSON values as both halves of the application see them: token payloads,
 * request bodies and response bodies. Numbers are integers only. A property
 * that is absent (JavaScript `undefined`, a missing dict key) is `None`.
 */
module Json {
  import opened Wrappers
  import opened Text

  datatype Value =
    | Null
    | Bool(b: bool)
    | Num(n: int)
    | Str(s: string)
    | Arr(items: seq<Value>)
    | Obj(fields: map<string, Value>)

  /** JavaScript truthiness: empty arrays and objects are truthy. */
  predicate JsTruthy(v: Value) {
    match v
    case Null => false
    case Bool(b) => b
    case Num(n) => n != 0
    case Str(s) => s != ""
    case Arr(_) => true
    case Obj(_) => true
  }

  /** Truthiness of a property read that may be `undefined`. */
  predicate JsPresent(v: Option<Value>) {
    v.Some? && JsTruthy(v.value)
  }

  /** Python truthiness: empty lists and dicts are falsy. */
  predicate PyTruthy(v: Value) {
    match v
    case Null => false
    case Bool(b) => b
    case Num(n) => n != 0
    case Str(s) => s != ""
    case Arr(items) => items != []
    case Obj(fields) => fields != map[]
  }

  /**
   * Python's `(d.get(key) or "").strip()`: `None` when the value is a truthy
   * non-string, whose missing `.strip()` raises.
   */
  function StrippedGet(d: map<string, Value>, key: string): (r: Option<string>)
    ensures r.None? <==> key in d && PyTruthy(d[key]) && !d[key].Str?
    ensures r.Some? && r.value != "" ==> key in d && d[key].Str? && r.value == Strip(d[key].s)
    ensures key in d && d[key].Str? ==> r == Some(Strip(d[key].s))
  {
    if key !in d || !PyTruthy(d[key]) then Some("")
    else if d[key].Str? then Some(Strip(d[key].s))
    else None
  }

  /** `v?.key`: `undefined` for an `undefined` or `null` receiver and for a key a non-object lacks. */
  function Member(v: Option<Value>, key: string): (r: Option<Value>)
    ensures r.Some? ==> v.Some? && v.value.Obj? && key in v.value.fields && r.value == v.value.fields[key]
    ensures v.Some? && v.value.Obj? && key in v.value.fields ==> r == Some(v.value.fields[key])
  {
    if v.Some? && v.value.Obj? && key in v.value.fields then Some(v.value.fields[key]) else None
  }

  /** `v?.[0]`: the first element of an array, the first character of a string, key "0" of an object. */
  function First(v: Option<Value>): Option<Value> {
    match v
    case None => None
    case Some(Arr(items)) => if items == [] then None else Some(items[0])
    case Some(Str(s)) => if s == "" then None else Some(Str([s[0]]))
    case Some(Obj(fields)) => if "0" in fields then Some(fields["0"]) else None
    case Some(_) => None
  }

  /** `a || b`: the left operand when truthy, the right one otherwise. */
  function Or(a: Option<Value>, b: Option<Value>): (r: Option<Value>)
    ensures r == a || r == b
    ensures JsPresent(r) <==> JsPresent(a) || JsPresent(b)
    ensures JsPresent(a) ==> r == a
  {
    if JsPresent(a) then a else b
  }

  /** `String(v)`: how JavaScript turns a value into text. */
  function JsString(v: Value): (r: string)
    ensures v.Str? ==> r == v.s
    ensures r == "" ==> v.Str? || v.Arr?
    ensures v.Bool? ==> (r == "true" <==> v.b)
    decreases v
  {
    match v
    case Null => "null"
    case Bool(b) => if b then "true" else "false"
    case Num(n) => IntToString(n)
    case Str(s) => s
    case Arr(items) => Join(seq(|items|, i requires 0 <= i < |items| => ElementString(items[i], v)))
    case Obj(_) => "[object Object]"
  }

  /** How `Array.prototype.join` renders one element: `null` becomes empty. */
  function ElementString(e: Value, whole: Value): string
    requires e < whole
    decreases whole, 0
  {
    if e.Null? then "" else JsString(e)
  }

  /** Joins with ",", as `Array.prototype.toString` does. */
  function Join(parts: seq<string>): string {
    if parts == [] then ""
    else if |parts| == 1 then parts[0]
    else Join(parts[..|parts| - 1]) + "," + parts[|parts| - 1]
  }

  /** A string value renders as itself and a one-element array as its element. */
  lemma JsStringOfText(s: string)
    ensures JsString(Str(s)) == s
    ensures JsString(Arr([Str(s)])) == s
  {
    var items := [Str(s)];
    var parts := seq(1, i requires 0 <= i < 1 => ElementString(items[i], Arr(items)));
    assert parts[0] == ElementString(items[0], Arr(items)) == s;
    assert parts == [s];
  }
}
