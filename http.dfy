/** The HTTP responses the edge functions return: a status and a JSON body. */
module Http {
  import Json

  datatype Response = Response(status: int, body: Json.Value)

  /** `{ error: message }` with the given status. */
  function ErrorResponse(status: int, message: string): Response {
    Response(status, Json.JObject(map["error" := Json.JString(message)]))
  }

  /** `{ success: false, error: message }` with the given status. */
  function FailureResponse(status: int, message: string): Response {
    Response(status, Json.JObject(map["success" := Json.JBool(false), "error" := Json.JString(message)]))
  }

  /** `error.message || 'Internal server error'`: the 500 answer of like_option and update_apns_token. */
  function InternalError(message: string): (r: Response)
    ensures r.status == 500
    ensures r.body.JObject? && "error" in r.body.fields
    ensures r.body.fields["error"] == Json.JString(if message == "" then "Internal server error" else message)
  {
    FailureResponse(500, if message == "" then "Internal server error" else message)
  }
}
