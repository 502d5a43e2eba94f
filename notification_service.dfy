/**
 * The app's notification service: the device token as lowercase hex, the acceptance of a
 * match notification's payload, and the token clearing when notifications are not
 * authorized. Its calls to the backend and its posts to the notification centre are kept
 * as logs on the service object.
 */
module NotificationService {
  import opened Wrappers
  import Json
  import NotifyMatch

  newtype byte = x: int | 0 <= x < 256

  predicate IsLowerHex(c: char) {
    '0' <= c <= '9' || 'a' <= c <= 'f'
  }

  /** The lowercase hex digit of a nibble. */
  function HexDigit(v: int): (c: char)
    requires 0 <= v < 16
    ensures IsLowerHex(c)
  {
    if v < 10 then ('0' as int + v) as char else ('a' as int + v - 10) as char
  }

  /** The value of a lowercase hex digit; the inverse of `HexDigit`. */
  function HexValue(c: char): (v: int)
    requires IsLowerHex(c)
    ensures 0 <= v < 16 && HexDigit(v) == c
  {
    if c <= '9' then c as int - '0' as int else c as int - 'a' as int + 10
  }

  lemma HexValueOfDigit(v: int)
    requires 0 <= v < 16
    ensures HexValue(HexDigit(v)) == v
  {
  }

  /** `String(format: "%02.2hhx", byte)`: two lowercase hex digits, high nibble first. */
  function ByteHex(b: byte): (s: string)
    ensures |s| == 2 && IsLowerHex(s[0]) && IsLowerHex(s[1])
    ensures HexValue(s[0]) * 16 + HexValue(s[1]) == b as int
  {
    var hi, lo := b as int / 16, b as int % 16;
    HexValueOfDigit(hi);
    HexValueOfDigit(lo);
    [HexDigit(hi), HexDigit(lo)]
  }

  /** The token string of `updateAPNsToken`: each byte's two digits, in order. */
  function HexToken(bytes: seq<byte>): (s: string)
    ensures |s| == 2 * |bytes|
    ensures forall i :: 0 <= i < |s| ==> IsLowerHex(s[i])
  {
    if bytes == [] then "" else ByteHex(bytes[0]) + HexToken(bytes[1..])
  }

  /** Reads a token string back into bytes; anything but pairs of lowercase hex digits is refused. */
  function HexDecode(s: string): (r: Option<seq<byte>>)
    ensures r.Some? ==> 2 * |r.value| == |s|
    decreases |s|
  {
    if s == [] then Some([])
    else if |s| < 2 || !IsLowerHex(s[0]) || !IsLowerHex(s[1]) then None
    else match HexDecode(s[2..])
      case None => None
      case Some(rest) => Some([(HexValue(s[0]) * 16 + HexValue(s[1])) as byte] + rest)
  }

  /** Decoding a token gives back the device token's bytes. */
  lemma {:induction false} HexDecodeToken(bytes: seq<byte>)
    ensures HexDecode(HexToken(bytes)) == Some(bytes)
  {
    if bytes != [] {
      var s := HexToken(bytes);
      assert s[2..] == HexToken(bytes[1..]);
      HexDecodeToken(bytes[1..]);
      assert [bytes[0]] + bytes[1..] == bytes;
    }
  }

  /** Two lowercase hex digits read as a byte print back as themselves. */
  lemma ByteHexOfDigits(hi: char, lo: char)
    requires IsLowerHex(hi) && IsLowerHex(lo)
    ensures ByteHex((HexValue(hi) * 16 + HexValue(lo)) as byte) == [hi, lo]
  {
    var v := HexValue(hi) * 16 + HexValue(lo);
    assert v / 16 == HexValue(hi) && v % 16 == HexValue(lo);
  }

  /** A string that decodes is the token of the bytes it decodes to. */
  lemma {:induction false} HexTokenOfDecoded(s: string)
    requires HexDecode(s).Some?
    ensures HexToken(HexDecode(s).value) == s
    decreases |s|
  {
    if s != [] {
      var rest := HexDecode(s[2..]).value;
      var b := (HexValue(s[0]) * 16 + HexValue(s[1])) as byte;
      assert HexDecode(s).value == [b] + rest;
      HexTokenOfDecoded(s[2..]);
      ByteHexOfDigits(s[0], s[1]);
      assert ([b] + rest)[1..] == rest;
      assert HexToken([b] + rest) == [s[0], s[1]] + s[2..];
      assert s == [s[0], s[1]] + s[2..];
    }
  }

  /**
   * The guard of `handleMatchNotification`: both keys present with string values, which it
   * returns unchanged.
   */
  function MatchPayload(userInfo: map<string, Json.Value>): (r: Option<(string, string)>)
    ensures r.Some? <==> "session_id" in userInfo && userInfo["session_id"].JString?
                         && "matched_option_id" in userInfo && userInfo["matched_option_id"].JString?
    ensures r.Some? ==> userInfo["session_id"] == Json.JString(r.value.0)
                        && userInfo["matched_option_id"] == Json.JString(r.value.1)
  {
    if "session_id" in userInfo && userInfo["session_id"].JString?
       && "matched_option_id" in userInfo && userInfo["matched_option_id"].JString?
    then Some((userInfo["session_id"].s, userInfo["matched_option_id"].s))
    else None
  }

  /** The payload the notify_match function pushes lacks both keys, so the app refuses it. */
  lemma NotifyMatchPayloadRefused(sessionId: string, matchedOptionId: Option<string>, labelText: string)
    ensures var n := NotifyMatch.MatchNotification(sessionId, matchedOptionId, labelText);
            MatchPayload(NotifyMatch.ApnsPayload(n.title, n.body, n.data).fields) == None
  {
    var n := NotifyMatch.MatchNotification(sessionId, matchedOptionId, labelText);
    assert "session_id" !in NotifyMatch.ApnsPayload(n.title, n.body, n.data).fields;
  }

  /** `settings.authorizationStatus`. */
  datatype AuthorizationStatus = NotDetermined | Denied | Authorized | Provisional | Ephemeral

  /** A backend RPC: its name and parameters. */
  datatype RpcCall = RpcCall(name: string, params: map<string, Json.Value>)

  /** A post to the notification centre. */
  datatype Post = Post(name: string, userInfo: map<string, Json.Value>)

  function UpdateTokenCall(token: string): RpcCall {
    RpcCall("update_apns_token", map["p_token" := Json.JString(token)])
  }

  /** The clearing call: the empty string, not null. */
  const ClearTokenCall := UpdateTokenCall("")

  class NotificationCenter {
    /** The RPCs started, in order. */
    var rpcLog: seq<RpcCall>
    /** The notifications posted, in order. */
    var posted: seq<Post>

    constructor ()
      ensures rpcLog == [] && posted == []
    {
      rpcLog := [];
      posted := [];
    }

    /** `updateAPNsToken`: sends the hex token. */
    method UpdateApnsToken(deviceToken: seq<byte>)
      modifies this`rpcLog
      ensures rpcLog == old(rpcLog) + [UpdateTokenCall(HexToken(deviceToken))]
    {
      var token := HexToken(deviceToken);
      rpcLog := rpcLog + [UpdateTokenCall(token)];
    }

    /** `handleMatchNotification`: posts "MatchFound" with the two ids, or refuses the payload. */
    method HandleMatchNotification(userInfo: map<string, Json.Value>) returns (handled: bool)
      modifies this`posted
      ensures handled <==> MatchPayload(userInfo).Some?
      ensures !handled ==> posted == old(posted)
      ensures handled ==> posted == old(posted) + [Post("MatchFound", map[
                "session_id" := userInfo["session_id"],
                "matched_option_id" := userInfo["matched_option_id"]])]
    {
      match MatchPayload(userInfo)
      case None =>
        return false;
      case Some((sessionId, matchedOptionId)) =>
        posted := posted + [Post("MatchFound", map["session_id" := Json.JString(sessionId),
                                                  "matched_option_id" := Json.JString(matchedOptionId)])];
        return true;
    }

    /** `clearDeviceToken`. */
    method ClearDeviceToken()
      modifies this`rpcLog
      ensures rpcLog == old(rpcLog) + [ClearTokenCall]
    {
      rpcLog := rpcLog + [ClearTokenCall];
    }

    /** `checkPermissionsAndSync`: clears the token exactly when notifications are not authorized. */
    method CheckPermissionsAndSync(status: AuthorizationStatus)
      modifies this`rpcLog
      ensures status == Authorized ==> rpcLog == old(rpcLog)
      ensures status != Authorized ==> rpcLog == old(rpcLog) + [ClearTokenCall]
    {
      if status != Authorized {
        ClearDeviceToken();
      }
    }
  }
}
