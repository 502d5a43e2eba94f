/**
 * The like_option edge function: a fixed chain of checks (Bearer header, authentication,
 * parameters, RPC outcome) that picks the HTTP answer. The vote itself, the quorum test and
 * the match transition run inside the `like_option` database procedure, which is not part
 * of this model.
 */
module LikeOption {
  import opened Wrappers
  import opened EdgeCommon
  import Json
  import Http

  /** The external calls the handler makes, in order. */
  datatype Call = GetUser(jwt: string) | LikeRpc(sessionId: Json.Value, optionId: Json.Value, jwt: string)

  datatype Handled = Handled(response: Http.Response, calls: seq<Call>)

  const ParamsMessage := "Missing required parameters: session_id and option_id are required"

  /** The RPC, given the session id, the option id and the caller's token. */
  type Rpc = (Json.Value, Json.Value, string) -> RpcOutcome

  /** The handler of `serve`, from the request's header and body and the outcomes of its calls. */
  function Handle(header: Option<string>, auth: string -> AuthOutcome, body: Body, rpc: Rpc): (h: Handled)
    // a bad header answers 401 before any lookup
    ensures !HasBearer(header) ==> h == Handled(Http.ErrorResponse(401, HeaderMessage), [])
    // otherwise the first call authenticates the header's token
    ensures HasBearer(header) ==> h.calls != [] && h.calls[0] == GetUser(Jwt(header))
    ensures HasBearer(header) && Rejects(auth(Jwt(header)))
            ==> h == Handled(Http.ErrorResponse(401, AuthMessage), [GetUser(Jwt(header))])
    ensures h.response.status == 401 <==> !HasBearer(header) || Rejects(auth(Jwt(header)))
    // missing parameters answer 400 and the RPC is not called
    ensures HasBearer(header) && auth(Jwt(header)).Authenticated? && body.BodyJson? && body.value != Json.JNull
            && (Json.Falsy(Json.Field(body.value, "session_id")) || Json.Falsy(Json.Field(body.value, "option_id")))
            ==> h == Handled(Http.ErrorResponse(400, ParamsMessage), [GetUser(Jwt(header))])
    // the RPC is called at most once, with truthy parameters and the header's token
    ensures |h.calls| <= 2
    ensures |h.calls| == 2 ==> body.BodyJson? && h.calls[1] == LikeRpc(Json.Field(body.value, "session_id"), Json.Field(body.value, "option_id"), Jwt(header))
                               && !Json.Falsy(h.calls[1].sessionId) && !Json.Falsy(h.calls[1].optionId)
    // an RPC error answers 400 with the prefixed message
    ensures |h.calls| == 2 && rpc(h.calls[1].sessionId, h.calls[1].optionId, h.calls[1].jwt).RpcFailed?
            ==> h.response == Http.FailureResponse(400, "Error processing like: "
                                + rpc(h.calls[1].sessionId, h.calls[1].optionId, h.calls[1].jwt).message)
    // success returns the RPC's data unchanged
    ensures h.response.status == 200
            <==> |h.calls| == 2 && rpc(h.calls[1].sessionId, h.calls[1].optionId, h.calls[1].jwt).RpcData?
    ensures h.response.status == 200 ==> h.response.body == rpc(h.calls[1].sessionId, h.calls[1].optionId, h.calls[1].jwt).data
    // every thrown error is caught and answers 500 with its message
    ensures HasBearer(header) && auth(Jwt(header)).AuthThrows?
            ==> h == Handled(Http.InternalError(auth(Jwt(header)).message), [GetUser(Jwt(header))])
    ensures HasBearer(header) && auth(Jwt(header)).Authenticated? && body.BodyThrows?
            ==> h == Handled(Http.InternalError(body.message), [GetUser(Jwt(header))])
    ensures HasBearer(header) && auth(Jwt(header)).Authenticated? && body == BodyJson(Json.JNull)
            ==> h == Handled(Http.InternalError(DestructureMessage("session_id")), [GetUser(Jwt(header))])
    ensures |h.calls| == 2 && rpc(h.calls[1].sessionId, h.calls[1].optionId, h.calls[1].jwt).RpcThrows?
            ==> h.response == Http.InternalError(rpc(h.calls[1].sessionId, h.calls[1].optionId, h.calls[1].jwt).message)
    ensures h.response.status == 500
            <==> HasBearer(header)
                 && (|| auth(Jwt(header)).AuthThrows?
                     || (auth(Jwt(header)).Authenticated? && (body.BodyThrows? || body == BodyJson(Json.JNull)))
                     || (|h.calls| == 2 && rpc(h.calls[1].sessionId, h.calls[1].optionId, h.calls[1].jwt).RpcThrows?))
    ensures h.response.status in {200, 400, 401, 500}
  {
    if !HasBearer(header) then Handled(Http.ErrorResponse(401, HeaderMessage), [])
    else
      var jwt := Jwt(header);
      var calls := [GetUser(jwt)];
      match auth(jwt)
      case AuthThrows(m) => Handled(Http.InternalError(m), calls)
      case AuthFailed(_) => Handled(Http.ErrorResponse(401, AuthMessage), calls)
      case NoUser => Handled(Http.ErrorResponse(401, AuthMessage), calls)
      case Authenticated(_) =>
        match body
        case BodyThrows(m) => Handled(Http.InternalError(m), calls)
        case BodyJson(v) =>
          if v == Json.JNull then Handled(Http.InternalError(DestructureMessage("session_id")), calls)
          else
            var sessionId, optionId := Json.Field(v, "session_id"), Json.Field(v, "option_id");
            if Json.Falsy(sessionId) || Json.Falsy(optionId) then
              Handled(Http.ErrorResponse(400, ParamsMessage), calls)
            else
              var calls' := calls + [LikeRpc(sessionId, optionId, jwt)];
              match rpc(sessionId, optionId, jwt)
              case RpcThrows(m) => Handled(Http.InternalError(m), calls')
              case RpcFailed(m) => Handled(Http.FailureResponse(400, "Error processing like: " + m), calls')
              case RpcData(data) => Handled(Http.Response(200, data), calls')
  }
}
