/**
 * The update_apns_token edge function: the same header and authentication checks as
 * like_option, then the `update_apns_token` RPC with the body's token, unvalidated.
 */
module UpdateApnsToken {
  import opened Wrappers
  import opened EdgeCommon
  import Json
  import Http

  /**
   * The external calls the handler makes, in order. The RPC carries only the token
   * (`None` is an absent `token` key): no user id and no caller token.
   */
  datatype Call = GetUser(jwt: string) | UpdateTokenRpc(token: Option<Json.Value>)

  datatype Handled = Handled(response: Http.Response, calls: seq<Call>)

  /** `{ success: true }`. */
  function SuccessResponse(): Http.Response {
    Http.Response(200, Json.JObject(map["success" := Json.JBool(true)]))
  }

  /** `const { token } = body`: the token key if the body is an object that has it. */
  function TokenOf(v: Json.Value): Option<Json.Value> {
    if v.JObject? && "token" in v.fields then Some(v.fields["token"]) else None
  }

  function Handle(header: Option<string>, auth: string -> AuthOutcome, body: Body,
                  rpc: Option<Json.Value> -> RpcOutcome): (h: Handled)
    ensures !HasBearer(header) ==> h == Handled(Http.ErrorResponse(401, HeaderMessage), [])
    ensures HasBearer(header) ==> h.calls != [] && h.calls[0] == GetUser(Jwt(header))
    ensures HasBearer(header) && Rejects(auth(Jwt(header)))
            ==> h == Handled(Http.ErrorResponse(401, AuthMessage), [GetUser(Jwt(header))])
    ensures h.response.status == 401 <==> !HasBearer(header) || Rejects(auth(Jwt(header)))
    // the body's token goes to the RPC as it is, null and absence included
    ensures HasBearer(header) && auth(Jwt(header)).Authenticated? && body.BodyJson? && body.value != Json.JNull
            ==> h.calls == [GetUser(Jwt(header)), UpdateTokenRpc(TokenOf(body.value))]
    ensures |h.calls| <= 2
    ensures |h.calls| == 2 && h.calls[1].UpdateTokenRpc? && rpc(h.calls[1].token).RpcFailed?
            ==> h.response == Http.FailureResponse(400, "Error updating token: " + rpc(h.calls[1].token).message)
    // success is exactly `{ success: true }`, whatever data the RPC returned
    ensures h.response.status == 200 <==> |h.calls| == 2 && h.calls[1].UpdateTokenRpc? && rpc(h.calls[1].token).RpcData?
    ensures h.response.status == 200 ==> h.response == SuccessResponse()
    // every thrown error is caught and answers 500 with its message
    ensures HasBearer(header) && auth(Jwt(header)).AuthThrows?
            ==> h == Handled(Http.InternalError(auth(Jwt(header)).message), [GetUser(Jwt(header))])
    ensures HasBearer(header) && auth(Jwt(header)).Authenticated? && body.BodyThrows?
            ==> h == Handled(Http.InternalError(body.message), [GetUser(Jwt(header))])
    ensures HasBearer(header) && auth(Jwt(header)).Authenticated? && body == BodyJson(Json.JNull)
            ==> h == Handled(Http.InternalError(DestructureMessage("token")), [GetUser(Jwt(header))])
    ensures |h.calls| == 2 && h.calls[1].UpdateTokenRpc? && rpc(h.calls[1].token).RpcThrows?
            ==> h.response == Http.InternalError(rpc(h.calls[1].token).message)
    ensures h.response.status == 500
            <==> HasBearer(header)
                 && (|| auth(Jwt(header)).AuthThrows?
                     || (auth(Jwt(header)).Authenticated? && (body.BodyThrows? || body == BodyJson(Json.JNull)))
                     || (|h.calls| == 2 && h.calls[1].UpdateTokenRpc? && rpc(h.calls[1].token).RpcThrows?))
    ensures h.response.status in {200, 400, 401, 500}
  {
    if !HasBearer(header) then Handled(Http.ErrorResponse(401, HeaderMessage), [])
    else
      var jwt := Jwt(header);
      var calls := [GetUser(jwt)];
      match auth(jwt)
      case AuthThrows(m) => Handled(Http.InternalError(m), calls)
      case AuthFailed(_) => Handled(Http.ErrorResponse(401, AuthMessage), calls)
      case NoUser => Handled(Http.ErrorResponse(401, AuthMessage), calls)
      case Authenticated(_) =>
        match body
        case BodyThrows(m) => Handled(Http.InternalError(m), calls)
        case BodyJson(v) =>
          if v == Json.JNull then Handled(Http.InternalError(DestructureMessage("token")), calls)
          else
            var token := TokenOf(v);
            var calls' := calls + [UpdateTokenRpc(token)];
            match rpc(token)
            case RpcThrows(m) => Handled(Http.InternalError(m), calls')
            case RpcFailed(m) => Handled(Http.FailureResponse(400, "Error updating token: " + m), calls')
            case RpcData(_) => Handled(SuccessResponse(), calls')
  }
}
