/**
 * What the like_option and update_apns_token edge functions share: the Bearer header
 * check, the token extraction, the outcome of the authentication lookup and of an RPC, and
 * the parsing of the request body. Each external call is an outcome given as input.
 */
module EdgeCommon {
  import opened Wrappers
  import opened JsStrings
  import Json

  const BearerPrefix := "Bearer "
  const HeaderMessage := "Missing or invalid authorization header"
  const AuthMessage := "Invalid authentication token"

  /** `authHeader && authHeader.startsWith('Bearer ')`. */
  predicate HasBearer(header: Option<string>) {
    header.Some? && StartsWith(header.value, BearerPrefix)
  }

  /** `authHeader.replace('Bearer ', '')`: the header without its first `Bearer `. */
  function Jwt(header: Option<string>): (jwt: string)
    ensures HasBearer(header) ==> jwt == header.value[|BearerPrefix|..]
    ensures HasBearer(header) ==> header.value == BearerPrefix + jwt
  {
    match header
    case Some(h) => ReplaceFirst(h, BearerPrefix, "")
    case None => ""
  }

  /** `supabaseClient.auth.getUser(jwt)`: it throws, reports an error, finds no user, or finds one. */
  datatype AuthOutcome = AuthThrows(message: string) | AuthFailed(message: string) | NoUser | Authenticated(userId: string)

  /** `authError || !user`. */
  predicate Rejects(a: AuthOutcome) {
    a.AuthFailed? || a.NoUser?
  }

  /** `supabaseClient.rpc(...)`: it throws, reports an error, or returns data. */
  datatype RpcOutcome = RpcThrows(message: string) | RpcFailed(message: string) | RpcData(data: Json.Value)

  /** `await req.json()`: it throws on malformed JSON, or yields a value. */
  datatype Body = BodyThrows(message: string) | BodyJson(value: Json.Value)

  /** The TypeError of destructuring a `null` body. */
  function DestructureMessage(property: string): string {
    "Cannot destructure property '" + property + "' of '(intermediate value)' as it is null."
  }
}
