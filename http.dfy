/**
 An HTTP response as the login screen's data-task callbacks see it: the
 transport error, the status code of the HTTP response (absent when the
 response is not an HTTP response), the body, and what the JSON parser made
 of the body. The parser itself is not modelled; its result is part of the
 response: `None` when parsing threw, otherwise the top-level object.
 */
module Http {

  datatype Option<+T> = None | Some(value: T)

  type Byte = bv8

  /** The values a JSON field can hold, as far as the login handshake tells them apart. */
  datatype JsonValue = JString(str: string) | JBool(truth: bool) | JInt(num: int) | JOther

  type JsonObject = map<string, JsonValue>

  datatype Response = Response(
    transportError: bool,
    statusCode: Option<int>,
    body: Option<seq<Byte>>,
    json: Option<JsonObject>)

  /** The successful class of status codes, 200 to 299 (section 15.3 of RFC 9110). */
  predicate IsSuccessful(code: int) {
    200 <= code <= 299
  }

  predicate HasSuccessStatus(r: Response) {
    r.statusCode.Some? && IsSuccessful(r.statusCode.value)
  }

  /** `parsedData[key] as? String`: the field, when it is present and a string. */
  function StringField(json: Option<JsonObject>, key: string): Option<string> {
    if json.Some? && key in json.value && json.value[key].JString? then Some(json.value[key].str) else None
  }

  /** `parsedData[key] as? Bool`. */
  function BoolField(json: Option<JsonObject>, key: string): Option<bool> {
    if json.Some? && key in json.value && json.value[key].JBool? then Some(json.value[key].truth) else None
  }

  /** `parsedData[key] as? Int`. */
  function IntField(json: Option<JsonObject>, key: string): Option<int> {
    if json.Some? && key in json.value && json.value[key].JInt? then Some(json.value[key].num) else None
  }
}
