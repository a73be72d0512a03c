/**
 * JSON values as the backend stores them (summary_data, activity details) and
 * as the client reads them: JavaScript truthiness, property reads and `String(v)`.
 */
module Json {
  import opened Wrappers
  import Text

  /** A parsed JSON value; numbers are modelled as integers. */
  datatype Value =
    | JNull
    | JBool(b: bool)
    | JNum(n: int)
    | JStr(s: string)
    | JArr(items: seq<Value>)
    | JObj(fields: seq<(string, Value)>)

  /** JavaScript truthiness: null, false, 0 and "" are falsy; every array and object is truthy. */
  predicate Truthy(v: Value)
  {
    match v
    case JNull => false
    case JBool(b) => b
    case JNum(n) => n != 0
    case JStr(s) => s != ""
    case JArr(_) => true
    case JObj(_) => true
  }

  /**
   * `v[key]` on a parsed value: the object's entry for `key` (the last one when
   * the text repeated the key, as `JSON.parse` keeps it), and None (undefined)
   * for a missing key or a value that is not an object.
   */
  function Field(v: Value, key: string): (r: Option<Value>)
    ensures r.Some? ==> v.JObj? && (key, r.value) in v.fields
    ensures v.JObj? ==> (r.Some? <==> exists i :: 0 <= i < |v.fields| && v.fields[i].0 == key)
    decreases if v.JObj? then |v.fields| else 0
  {
    match v
    case JObj(fs) =>
      if fs == [] then None
      else if fs[|fs| - 1].0 == key then Some(fs[|fs| - 1].1)
      else Field(JObj(fs[..|fs| - 1]), key)
    case _ => None
  }

  /** `String(v)`: how a template literal or `join` prints a value. */
  function ToText(v: Value): string
  {
    match v
    case JNull => "null"
    case JBool(b) => if b then "true" else "false"
    case JNum(n) => Text.IntToString(n)
    case JStr(s) => s
    case JArr(items) =>
      // Array.prototype.join prints null elements as the empty string
      Text.Join(seq(|items|, i requires 0 <= i < |items| =>
                      if items[i].JNull? then "" else ToText(items[i])), ",")
    case JObj(_) => "[object Object]"
  }
}
