/** The values the server's handlers exchange: `ApiResponse`, timestamps and
    `serde_json::Value`. */
module Api {

  /** `chrono::NaiveDateTime`, as a number; the handlers receive the current
      time as a parameter instead of reading the clock. */
  type Timestamp = int

  /** `ApiResponse<T>`, with the variants the handlers return. */
  datatype ApiResponse<T> =
    | JsonData(data: T)
    | Created(data: T)
    | NotChanged
    | BadRequest(errors: seq<string>)
    | NotFound(message: string)
    | Error(message: string)

  /** `serde_json::Value`. Objects keep their members in order. */
  datatype JsonValue =
    | JNull
    | JBool(b: bool)
    | JNumber(n: int)
    | JString(s: string)
    | JArray(items: seq<JsonValue>)
    | JObject(members: seq<(string, JsonValue)>)
}
