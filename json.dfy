/**
  Request bodies and response envelopes as the handlers see them: a decoded
  JSON object (`map[string]interface{}` in the source), or the failure of
  decoding it, and the `{code, msg, data}` envelope that `ApiResponse` writes.
*/
module Json {

  /** A decoded JSON value. Go decodes JSON `null` to `nil`. */
  datatype Json =
    | JNull
    | JBool(b: bool)
    | JNumber(n: int)
    | JString(s: string)
    | JArray(items: seq<Json>)
    | JObject(fields: map<string, Json>)

  type Object = map<string, Json>

  /** What `context.GetJSON()` hands back: the decoded object, or an error. */
  datatype Body = Undecodable | Decoded(fields: Object)

  /** A result row, and the pipeline's local scope, both `map[string]string`. */
  type Row = map<string, string>

  /** `v, ok := m[key]` with `ok && v != nil`. */
  predicate Present(o: Object, key: string) {
    key in o && o[key] != JNull
  }

  /** The `data` member of a response envelope: nothing, a row list, or a
      number such as a count of affected rows. */
  datatype Data = Nil | Rows(rows: seq<Row>) | Number(n: int)

  /** The envelope `ApiResponse(code, msg, data)` writes. */
  datatype Response = Response(code: int, msg: string, data: Data)

  const Ok: int := 0
  const Fail: int := -1

  /** The decision a request gate makes before any database work: refuse
      with code -1 and a message, or go on with the value it prepared. */
  datatype Gate<T> = Reject(msg: string) | Proceed(value: T)

  datatype Option<T> = None | Some(value: T)
}
