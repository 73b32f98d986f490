/**
 * The values that cross the HTTP boundary between the back end (Python
 * dictionaries and strings) and the front end (JavaScript objects).
 */
module Json {

  datatype Value = Str(s: string) | Dict(entries: map<string, Value>) | Null

  /** JavaScript truthiness: a non-empty string or any object. */
  predicate JsTruthy(v: Value) {
    match v
    case Str(s) => s != ""
    case Dict(_) => true
    case Null => false
  }

  /** `obj.key && ...` in JavaScript: a missing key reads as `undefined`, which is falsy. */
  predicate FieldTruthy(obj: map<string, Value>, key: string) {
    key in obj && JsTruthy(obj[key])
  }

  /** `obj.key` as React renders it: a missing key renders as nothing. */
  function Field(obj: map<string, Value>, key: string): (v: Value)
    ensures key !in obj ==> v == Null
    ensures key in obj ==> v == obj[key]
  {
    if key in obj then obj[key] else Null
  }
}
