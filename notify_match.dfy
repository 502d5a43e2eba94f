/**
 * The notify_match edge function: a database webhook on the sessions table that, for the
 * update turning a session into `matched`, looks up the option's label and the
 * participants' device tokens, sends one push per device, and clears the tokens the push
 * service reported as invalid. The database and the push service enter as parameters; the
 * concurrent fan-out (`Promise.all`) is the sequential loop of `SendToAll`.
 */
module NotifyMatch {
  import opened Wrappers
  import opened JsStrings
  import Json
  import Http
  import ApnsAuth

  // ---------------------------------------------------------------------------
  // The webhook filter
  // ---------------------------------------------------------------------------

  /** A row of the sessions table as the webhook carries it. */
  datatype SessionRow = SessionRow(id: string, status: string, matchedOptionId: Option<string>)

  /** The webhook body; a record is `None` when the webhook sends null (inserts have no old record). */
  datatype WebhookPayload = WebhookPayload(
    kind: string, table: string, record: Option<SessionRow>, oldRecord: Option<SessionRow>)

  /** The request body: JSON that fails to parse, or a webhook payload. */
  datatype Request = MalformedJson(message: string) | Webhook(payload: WebhookPayload)

  /** What the filter decides: a first-time match, no match, or a TypeError on a null record. */
  datatype FilterOutcome = MatchEvent(record: SessionRow) | NotMatchEvent | NullRecord

  const NullRecordMessage := "Cannot read properties of null (reading 'status')"

  /** The intended meaning of the filter: an update of a session row into `matched` from another status. */
  ghost predicate IsFirstTimeMatch(p: WebhookPayload) {
    && p.table == "sessions" && p.kind == "UPDATE"
    && p.record.Some? && p.record.value.status == "matched"
    && p.oldRecord.Some? && p.oldRecord.value.status != "matched"
  }

  /**
   * The four-way test, evaluated left to right with short-circuit: table, type, new status,
   * old status. A null record reached by the test raises a TypeError.
   */
  function ClassifyWebhook(p: WebhookPayload): (r: FilterOutcome)
    ensures r.MatchEvent? <==> IsFirstTimeMatch(p)
    ensures r.MatchEvent? ==> Some(r.record) == p.record
    ensures p.table != "sessions" || p.kind != "UPDATE" ==> r == NotMatchEvent
    ensures r == NullRecord
            <==> && p.table == "sessions" && p.kind == "UPDATE"
                 && (p.record.None? || (p.record.value.status == "matched" && p.oldRecord.None?))
  {
    if p.table != "sessions" || p.kind != "UPDATE" then NotMatchEvent
    else if p.record.None? then NullRecord
    else if p.record.value.status != "matched" then NotMatchEvent
    else if p.oldRecord.None? then NullRecord
    else if p.oldRecord.value.status == "matched" then NotMatchEvent
    else MatchEvent(p.record.value)
  }

  // ---------------------------------------------------------------------------
  // The push payload and one send
  // ---------------------------------------------------------------------------

  /** The notification the handler builds at lines 279-286. */
  datatype NotificationData = NotificationData(title: string, body: string, data: map<string, Json.Value>)

  function OptionIdValue(id: Option<string>): Json.Value {
    match id
    case Some(s) => Json.JString(s)
    case None => Json.JNull
  }

  function MatchNotification(sessionId: string, matchedOptionId: Option<string>, labelText: string): (n: NotificationData)
    ensures n.title == "Match Found!"
    ensures n.body == "Everyone agreed on " + labelText
    ensures n.data.Keys == {"sessionId", "optionId"}
    ensures n.data["sessionId"] == Json.JString(sessionId) && n.data["optionId"] == OptionIdValue(matchedOptionId)
  {
    NotificationData("Match Found!", "Everyone agreed on " + labelText,
      map["sessionId" := Json.JString(sessionId), "optionId" := OptionIdValue(matchedOptionId)])
  }

  function Aps(title: string, body: string): Json.Value {
    Json.JObject(map[
      "alert" := Json.JObject(map["title" := Json.JString(title), "body" := Json.JString(body)]),
      "sound" := Json.JString("default"),
      "badge" := Json.JNumber(1)])
  }

  /** `{ aps: {...}, ...payload }`: the custom keys are spread at the top level, after `aps`. */
  function ApnsPayload(title: string, body: string, custom: map<string, Json.Value>): (r: Json.Value)
    ensures r.JObject? && r.fields.Keys == {"aps"} + custom.Keys
    ensures forall k :: k in custom ==> r.fields[k] == custom[k]
    ensures "aps" !in custom ==> r.fields["aps"] == Aps(title, body)
  {
    Json.JObject(map["aps" := Aps(title, body)] + custom)
  }

  /** The configuration each send reads from the environment. */
  datatype ApnsEnv = ApnsEnv(
    bundleId: Option<string>, creds: ApnsAuth.Credentials, crypto: ApnsAuth.Crypto, nowSeconds: int)

  datatype ApnsRequest = ApnsRequest(url: string, authorization: string, topic: string, payload: Json.Value)

  /** What `fetch` gives back: a thrown network error, or a response with its status and text. */
  datatype FetchResult = NetworkFailure(message: string) | HttpReply(status: int, text: string)

  /** How one `sendAPNSNotification` call ends: it returns (delivered or not), or it throws. */
  datatype SendOutcome = Returned(delivered: bool) | Threw(message: string)

  const MissingBundleMessage := "Missing APPLE_BUNDLE_ID environment variable"

  function ApnsRequestFor(deviceToken: string, jwt: string, topic: string, n: NotificationData): ApnsRequest {
    ApnsRequest("https://api.push.apple.com/3/device/" + deviceToken, "Bearer " + jwt, topic,
      ApnsPayload(n.title, n.body, n.data))
  }

  /**
   * `sendAPNSNotification`: a missing bundle id, a failed JWT and a network error throw; a
   * non-OK HTTP status is only logged and the call returns normally.
   */
  function SendApnsNotification(env: ApnsEnv, deviceToken: string, n: NotificationData,
                                fetch: ApnsRequest -> FetchResult): (r: SendOutcome)
    ensures ApnsAuth.Missing(env.bundleId) ==> r == Threw(MissingBundleMessage)
    ensures r.Returned? <==> !ApnsAuth.Missing(env.bundleId)
                             && ApnsAuth.CreateApnsJwt(env.creds, env.crypto, env.nowSeconds).Ok?
                             && fetch(ApnsRequestFor(deviceToken, ApnsAuth.CreateApnsJwt(env.creds, env.crypto, env.nowSeconds).value,
                                                     env.bundleId.value, n)).HttpReply?
    ensures r == Returned(true) ==> !ApnsAuth.Missing(env.bundleId)
  {
    if ApnsAuth.Missing(env.bundleId) then Threw(MissingBundleMessage)
    else match ApnsAuth.CreateApnsJwt(env.creds, env.crypto, env.nowSeconds)
      case Err(m) => Threw(m)
      case Ok(jwt) =>
        match fetch(ApnsRequestFor(deviceToken, jwt, env.bundleId.value, n))
        case NetworkFailure(m) => Threw(m)
        case HttpReply(status, _) => Returned(200 <= status <= 299)
  }

  /** The catch clause's test: the thrown message names an invalid device token. */
  predicate IsInvalidTokenError(o: SendOutcome) {
    o.Threw? && (Contains(o.message, "BadDeviceToken") || Contains(o.message, "DeviceTokenNotForTopic"))
  }

  /**
   * An HTTP rejection never marks a token invalid, whatever the status and the text
   * (which is where the push service names `BadDeviceToken`).
   */
  lemma HttpRejectionNeverInvalidates(env: ApnsEnv, deviceToken: string, n: NotificationData,
                                      fetch: ApnsRequest -> FetchResult)
    requires !ApnsAuth.Missing(env.bundleId) && ApnsAuth.CreateApnsJwt(env.creds, env.crypto, env.nowSeconds).Ok?
    requires fetch(ApnsRequestFor(deviceToken, ApnsAuth.CreateApnsJwt(env.creds, env.crypto, env.nowSeconds).value,
                                  env.bundleId.value, n)).HttpReply?
    ensures !IsInvalidTokenError(SendApnsNotification(env, deviceToken, n, fetch))
  {
  }

  // ---------------------------------------------------------------------------
  // Users, their tokens, and the fan-out
  // ---------------------------------------------------------------------------

  datatype UserRow = UserRow(id: string, apnsToken: Option<string>)

  /** `.in('id', ids).not('apns_token', 'is', null)`, in table order. */
  function UsersQuery(rows: seq<UserRow>, ids: seq<string>): (r: seq<UserRow>)
    ensures forall u :: u in r ==> u in rows && u.id in ids && u.apnsToken.Some?
    ensures forall u :: u in rows && u.id in ids && u.apnsToken.Some? ==> u in r
    ensures |r| <= |rows|
  {
    if rows == [] then []
    else
      var rest := UsersQuery(rows[1..], ids);
      if rows[0].id in ids && rows[0].apnsToken.Some? then [rows[0]] + rest else rest
  }

  /** The device token as the template literal renders it (`null` never occurs for queried users). */
  function TokenText(t: Option<string>): string {
    match t
    case Some(s) => s
    case None => "null"
  }

  function OutcomeFor(u: UserRow, n: NotificationData, env: ApnsEnv, fetch: ApnsRequest -> FetchResult): SendOutcome {
    SendApnsNotification(env, TokenText(u.apnsToken), n, fetch)
  }

  /** The send outcome of each user, for one notification. */
  function SendFor(n: NotificationData, env: ApnsEnv, fetch: ApnsRequest -> FetchResult): UserRow -> SendOutcome {
    u => OutcomeFor(u, n, env, fetch)
  }

  /** The ids the catch clause pushes, in user order. */
  function InvalidTokenIds(users: seq<UserRow>, outcome: UserRow -> SendOutcome): seq<string>
  {
    if users == [] then []
    else
      var last := users[|users| - 1];
      InvalidTokenIds(users[..|users| - 1], outcome) + (if IsInvalidTokenError(outcome(last)) then [last.id] else [])
  }

  /**
   * An id is collected exactly when some user with that id had a send that threw a
   * message naming an invalid token; one user's failure does not keep the others out.
   */
  lemma {:induction false} InvalidTokenIdsExactly(users: seq<UserRow>, outcome: UserRow -> SendOutcome, id: string)
    ensures id in InvalidTokenIds(users, outcome)
            <==> exists i :: 0 <= i < |users| && users[i].id == id && IsInvalidTokenError(outcome(users[i]))
    ensures |InvalidTokenIds(users, outcome)| <= |users|
  {
    if users != [] {
      var init := users[..|users| - 1];
      InvalidTokenIdsExactly(init, outcome, id);
      forall i | 0 <= i < |init| ensures init[i] == users[i] { }
    }
  }

  lemma InvalidTokenIdsStep(users: seq<UserRow>, i: nat, outcome: UserRow -> SendOutcome)
    requires i < |users|
    ensures InvalidTokenIds(users[..i + 1], outcome)
            == InvalidTokenIds(users[..i], outcome) + (if IsInvalidTokenError(outcome(users[i])) then [users[i].id] else [])
  {
    assert users[..i + 1][..i] == users[..i];
  }

  /** The `users.map(async ...)` fan-out: every user is sent to, and the invalid-token ids are collected. */
  method SendToAll(users: seq<UserRow>, n: NotificationData, env: ApnsEnv, fetch: ApnsRequest -> FetchResult)
    returns (invalidTokens: seq<string>)
    ensures invalidTokens == InvalidTokenIds(users, SendFor(n, env, fetch))
  {
    ghost var send := SendFor(n, env, fetch);
    invalidTokens := [];
    var i := 0;
    while i < |users|
      invariant 0 <= i <= |users|
      invariant invalidTokens == InvalidTokenIds(users[..i], send)
    {
      var outcome := SendApnsNotification(env, TokenText(users[i].apnsToken), n, fetch);
      assert outcome == send(users[i]);
      InvalidTokenIdsStep(users, i, send);
      if IsInvalidTokenError(outcome) {
        invalidTokens := invalidTokens + [users[i].id];
      }
      i := i + 1;
    }
    assert users[..|users|] == users;
  }

  /** The users table after `.update({ apns_token: null }).in('id', ids)`. */
  function ClearedRows(rows: seq<UserRow>, ids: seq<string>): (r: seq<UserRow>)
    ensures |r| == |rows|
    ensures forall i :: 0 <= i < |rows| ==> r[i].id == rows[i].id
    ensures forall i :: 0 <= i < |rows| ==> r[i].apnsToken == if rows[i].id in ids then None else rows[i].apnsToken
  {
    seq(|rows|, i requires 0 <= i < |rows| => if rows[i].id in ids then UserRow(rows[i].id, None) else rows[i])
  }

  /** The users table of the database, which the handler updates in place. */
  class UsersTable {
    var rows: seq<UserRow>

    constructor(rows: seq<UserRow>)
      ensures this.rows == rows
    {
      this.rows := rows;
    }

    /** The clearing update; when the database reports an error, nothing changes. */
    method ClearTokens(ids: seq<string>, failure: Option<string>)
      modifies this
      ensures rows == if failure.None? then ClearedRows(old(rows), ids) else old(rows)
    {
      if failure.None? {
        rows := ClearedRows(rows, ids);
      }
    }
  }

  // ---------------------------------------------------------------------------
  // The handler
  // ---------------------------------------------------------------------------

  /** A database lookup: found, or the error the client library reports. */
  datatype Lookup<T> = Found(value: T) | LookupError(message: string)

  /** The database as the handler sees it, apart from the users table. */
  datatype Backend = Backend(
    optionLabel: Option<string> -> Lookup<string>,   // `options.label` of the matched option, `.single()`
    participants: string -> Lookup<seq<string>>,      // user ids of the session's participants
    usersQueryError: Option<string>,                  // error of the users query, if any
    clearError: Option<string>)                       // error of the clearing update, if any

  function NotMatchResponse(): Http.Response {
    Http.Response(200, Json.JObject(map["message" := Json.JString("Not a match event")]))
  }

  function SuccessResponse(sent: nat, cleared: nat, labelText: string): Http.Response {
    Http.Response(200, Json.JObject(map[
      "success" := Json.JBool(true),
      "message" := Json.JString("Sent notifications to " + DecimalString(sent) + " users, cleared "
                                + DecimalString(cleared) + " invalid tokens"),
      "matched_option" := Json.JString(labelText)]))
  }

  /** The caught exception: `{ success: false, error: message }` with status 500. */
  function ServerError(message: string): Http.Response {
    Http.FailureResponse(500, message)
  }

  /** The body of `serve`. */
  method Serve(request: Request, env: ApnsEnv, b: Backend, fetch: ApnsRequest -> FetchResult, table: UsersTable)
    returns (response: Http.Response)
    modifies table
    ensures request.MalformedJson? ==> response == ServerError(request.message) && table.rows == old(table.rows)
    ensures request.Webhook? && ClassifyWebhook(request.payload) == NotMatchEvent
            ==> response == NotMatchResponse() && table.rows == old(table.rows)
    ensures request.Webhook? && ClassifyWebhook(request.payload) == NullRecord
            ==> response == ServerError(NullRecordMessage) && table.rows == old(table.rows)
    ensures response.status == 200 || response.status == 500
    ensures request.Webhook? && ClassifyWebhook(request.payload).MatchEvent?
            ==> var record := ClassifyWebhook(request.payload).record;
                match (b.optionLabel(record.matchedOptionId), b.participants(record.id), b.usersQueryError)
                case (LookupError(m), _, _) =>
                  response == ServerError("Error fetching option: " + m) && table.rows == old(table.rows)
                case (Found(_), LookupError(m), _) =>
                  response == ServerError("Error fetching participants: " + m) && table.rows == old(table.rows)
                case (Found(_), Found(_), Some(m)) =>
                  response == ServerError("Error fetching users: " + m) && table.rows == old(table.rows)
                case (Found(labelText), Found(ids), None) =>
                  var users := UsersQuery(old(table.rows), ids);
                  var invalid := InvalidTokenIds(users, SendFor(MatchNotification(record.id, record.matchedOptionId, labelText), env, fetch));
                  && response == SuccessResponse(|users|, |invalid|, labelText)
                  && table.rows == if invalid != [] && b.clearError.None? then ClearedRows(old(table.rows), invalid)
                                   else old(table.rows)
  {
    if request.MalformedJson? {
      return ServerError(request.message);
    }
    match ClassifyWebhook(request.payload)
    case NotMatchEvent =>
      return NotMatchResponse();
    case NullRecord =>
      return ServerError(NullRecordMessage);
    case MatchEvent(record) =>
      var labelText;
      match b.optionLabel(record.matchedOptionId)
      case LookupError(m) =>
        return ServerError("Error fetching option: " + m);
      case Found(l) =>
        labelText := l;
      var ids;
      match b.participants(record.id)
      case LookupError(m) =>
        return ServerError("Error fetching participants: " + m);
      case Found(p) =>
        ids := p;
      if b.usersQueryError.Some? {
        return ServerError("Error fetching users: " + b.usersQueryError.value);
      }
      var users := UsersQuery(table.rows, ids);
      var n := MatchNotification(record.id, record.matchedOptionId, labelText);
      var invalidTokens := SendToAll(users, n, env, fetch);
      if |invalidTokens| > 0 {
        table.ClearTokens(invalidTokens, b.clearError);
      }
      return SuccessResponse(|users|, |invalidTokens|, labelText);
  }
}
