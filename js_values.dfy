/** The untyped server payload as JavaScript sees it after JSON parsing, with
    the handful of language operations the response pipeline applies to it:
    truthiness, property lookup, `hasOwnProperty` and strict string equality. */
module JsValues {
  import opened Wrappers

  /** An exception object of the client library: a code and a message. */
  datatype ApiException = ApiException(code: string, message: string)

  /** A JavaScript value reachable from a parsed server payload.  `JException`
      is an already constructed `KalturaAPIException` instance (multi-request
      handling can propagate one), as opposed to a plain object that merely
      has the exception's shape. */
  datatype Json =
    | JUndefined
    | JNull
    | JBool(b: bool)
    | JNum(n: int)
    | JStr(s: string)
    | JArr(items: seq<Json>)
    | JObj(fields: map<string, Json>)
    | JException(ex: ApiException)

  /** JavaScript truthiness: `undefined`, `null`, `false`, `0` and `""` are falsy,
      every object, array and exception instance is truthy. */
  predicate Truthy(v: Json) {
    match v
    case JUndefined => false
    case JNull => false
    case JBool(b) => b
    case JNum(n) => n != 0
    case JStr(s) => s != ""
    case JArr(_) => true
    case JObj(_) => true
    case JException(_) => true
  }

  /** `v` has `key` as an own property.  Only plain objects carry the keys the
      pipeline asks about (`result`, `error`, `objectType`, `hasOwnProperty`). */
  predicate HasOwn(v: Json, key: string) {
    v.JObj? && key in v.fields
  }

  /** Property lookup `v[key]` for those keys: the own value, or `undefined`
      when the key is absent (nothing on the prototype chain defines them). */
  function Get(v: Json, key: string): Json {
    if HasOwn(v, key) then v.fields[key] else JUndefined
  }

  /** An object whose own key `hasOwnProperty` hides the method inherited from
      `Object.prototype`; a parsed JSON value there is never callable. */
  predicate Shadowed(v: Json) {
    HasOwn(v, "hasOwnProperty")
  }

  const NOT_A_FUNCTION := "hasOwnProperty is not a function"
  const NO_PROPERTIES := "Cannot read properties of null or undefined (reading 'hasOwnProperty')"

  /** The call `v.hasOwnProperty(key)`: a TypeError on `null` and `undefined`
      and on a shadowed method, otherwise whether `key` is an own property. */
  function HasOwnProperty(v: Json, key: string): Result<bool> {
    if v == JUndefined || v == JNull then Failure(NO_PROPERTIES)
    else if Shadowed(v) then Failure(NOT_A_FUNCTION)
    else Success(HasOwn(v, key))
  }
}
