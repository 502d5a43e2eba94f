# Agreet core, modelled in Dafny

Agreet lets a group agree on one option of a category: each participant swipes through the
options, and a session becomes `matched` when a quorum likes the same option. This project
models the parts of that flow whose behaviour can be stated exactly:

- **Backend edge functions.**
  - `notify_match`: the webhook filter, the APNS JWT assembly (base64url encoding and
    P8 key extraction), the push payload, the fan-out with invalid-token collection, and
    the clearing of those tokens.
  - `like_option` and `update_apns_token`: the guard chains that map the header, the
    authentication, the body and the RPC outcome to an HTTP answer.
- **App records.** `Option`, `SessionStatus` and the hand-written `Session` decoder.
- **App view models and services.**
  - The swipe deck: in-place removal of swiped options, and a match that is never undone.
  - The swipe card's drag and release handling.
  - The notification service: hex device token, match payload guard, and token clearing.
  - The settings username editor and its validator.
  - The invite-code joiner.
  - The session-creation form.

Everything outside the process enters as a parameter. This covers the database,
the push service, the auth service, the clock, ISO 8601 parsing, base64 and JSON
encoding, and signing.

Concurrent tasks are split into the state change before their `await` and the state
change after it (`Begin…`/`Complete…`), or into a method taking the awaited outcome.

The `update_apns_token` RPC is called through the service-role client with only
`p_token`: no user id and no caller token reach it. `UpdateApnsToken.Handle` records
exactly that call.

## Model

| member | source | states |
|---|---|---|
| Http.InternalError | backend/supabase/functions/like_option/index.ts:78-88 | the 500 answer carries the thrown message, or "Internal server error" when the message is empty |
| JsStrings.ReplaceFirst | backend/supabase/functions/like_option/index.ts:29 | a string-pattern `replace` rewrites only a leading occurrence here, and leaves a string without the pattern unchanged |
| JsStrings.ReplaceChar | backend/supabase/functions/notify_match/index.ts:75-76 | a global one-character replace keeps the length, maps each position, leaves no `from`, and keeps the count of every other character |
| JsStrings.DeleteChar | backend/supabase/functions/notify_match/index.ts:77 | `.replace(/=/g, "")` leaves no `=`, shortens by the number of `=`, and keeps the count of every other character |
| JsStrings.ReplacePair | backend/supabase/functions/notify_match/index.ts:89-90 | the two-character rewrite only shortens the text and introduces no character but the replacement |
| JsStrings.Split | backend/supabase/functions/notify_match/index.ts:99 | `split` gives one more piece than separators, and no piece holds the separator |
| JsStrings.SplitJoin | backend/supabase/functions/notify_match/index.ts:99 | splitting lines joined by a separator they do not contain gives the lines back |
| JsStrings.StripWhitespace | backend/supabase/functions/notify_match/index.ts:103 | `.replace(/\s/g, '')` leaves no whitespace, changes nothing in text without whitespace, and leaves nothing exactly when the text is all whitespace |
| JsStrings.StripWhitespaceKeeps | backend/supabase/functions/notify_match/index.ts:103 | every character that is not whitespace is kept, as often as it occurs |
| JsStrings.StripWhitespaceAppend | backend/supabase/functions/notify_match/index.ts:103 | stripping a concatenation strips each part separately |
| JsStrings.ConcatAllWhitespace | backend/supabase/functions/notify_match/index.ts:102-103 | `join('')` of lines is all whitespace exactly when every line is |
| ApnsAuth.UrlChars | backend/supabase/functions/notify_match/index.ts:75-76 | the `+` and `/` rewrites keep the length and leave neither character |
| ApnsAuth.Base64Url | backend/supabase/functions/notify_match/index.ts:73-78 | the output has no `+`, `/` or `=`, and its length is the input's less its `=` count |
| ApnsAuth.Base64UrlRoundTrip | backend/supabase/functions/notify_match/index.ts:73-78 | any padded base64 text comes back from its base64url form, so the encoding loses nothing |
| ApnsAuth.NormalizeLineEndings | backend/supabase/functions/notify_match/index.ts:88-91 | after the three line-ending rewrites no carriage return is left |
| ApnsAuth.KeptLines | backend/supabase/functions/notify_match/index.ts:100-101 | the filter keeps exactly the lines without a BEGIN or END marker: each kept line is from the input and unmarked, and every unmarked input line is kept |
| ApnsAuth.KeptLinesAppend | backend/supabase/functions/notify_match/index.ts:100-101 | filtering a concatenation of line lists filters each list, in order |
| ApnsAuth.ExtractKeyData | backend/supabase/functions/notify_match/index.ts:88-107 | the key data is non-empty and free of whitespace; the error "Invalid P8 certificate format: no key data found" comes exactly when every unmarked line of the normalised certificate is whitespace only |
| ApnsAuth.ExtractKeyDataOfPem | backend/supabase/functions/notify_match/index.ts:86-107 | a PEM file with BEGIN/END lines and base64 body lines, under any of LF, CRLF, CR or an escaped `\n`, yields exactly the concatenated body |
| ApnsAuth.ExtractKeyDataOfPemFile | backend/supabase/functions/notify_match/index.ts:86-107 | the same for a PEM file ending with a line separator: the empty last line adds nothing to the key |
| ApnsAuth.CreateApnsJwt | backend/supabase/functions/notify_match/index.ts:34-155 | missing credentials, a certificate `atob` rejects (with the "Failed to decode base64 certificate: " prefix), a `btoa` failure on header or claims (unprefixed), missing key data (unprefixed) and a failing key import or signature (with the "Failed to create APNS JWT: " prefix) each give their error, in that order; otherwise the JWT splits on `.` into the base64url header, claims and signature, and has no `+`, `/` or `=` |
| ApnsAuth.JwtSegments | backend/supabase/functions/notify_match/index.ts:80-84 | base64url segments hold no dot, so `header.claims.signature` splits back into its three segments |
| NotifyMatch.ClassifyWebhook | backend/supabase/functions/notify_match/index.ts:228-238 | the event is a match iff table is sessions, type is UPDATE, new status is matched and old status is not; the TypeError of a null record comes exactly when the test reaches a null new record, or a null old record after a matched new one |
| NotifyMatch.MatchNotification | backend/supabase/functions/notify_match/index.ts:279-286 | the title is "Match Found!", the body names the label, and the data holds exactly `sessionId` and `optionId` |
| NotifyMatch.ApnsPayload | backend/supabase/functions/notify_match/index.ts:171-181 | the payload's keys are `aps` plus the custom keys, which are copied unchanged to the top level |
| NotifyMatch.SendApnsNotification | backend/supabase/functions/notify_match/index.ts:158-214 | a missing bundle id throws; a send returns normally iff the bundle id is set, the JWT is built and the fetch yields an HTTP reply of any status |
| NotifyMatch.HttpRejectionNeverInvalidates | backend/supabase/functions/notify_match/index.ts:207-211 | a send that gets an HTTP reply, rejected or not, never counts as an invalid-token error |
| NotifyMatch.UsersQuery | backend/supabase/functions/notify_match/index.ts:268-272 | the query returns exactly the rows whose id is among the participants and whose token is not null |
| NotifyMatch.InvalidTokenIdsExactly | backend/supabase/functions/notify_match/index.ts:303-309 | an id is collected iff some targeted user's send threw a message naming BadDeviceToken or DeviceTokenNotForTopic |
| NotifyMatch.SendToAll | backend/supabase/functions/notify_match/index.ts:291-314 | the fan-out sends to every user and collects the invalid-token ids in user order |
| NotifyMatch.ClearedRows | backend/supabase/functions/notify_match/index.ts:319-322 | the update nulls the token of exactly the listed ids and changes nothing else |
| NotifyMatch.UsersTable.ClearTokens | backend/supabase/functions/notify_match/index.ts:317-326 | the table is cleared as `ClearedRows` says, or left unchanged when the update fails |
| NotifyMatch.Serve | backend/supabase/functions/notify_match/index.ts:216-352 | each path's answer: 500 on bad JSON or lookup errors with their prefixes, 200 "Not a match event", or success with the sent and cleared counts; tokens are cleared only when some were invalid |
| EdgeCommon.Jwt | backend/supabase/functions/like_option/index.ts:28-29 | the token is the header after its leading "Bearer " |
| LikeOption.Handle | backend/supabase/functions/like_option/index.ts:11-89 | 401 iff the header or the authentication fails; falsy parameters give 400 with no RPC; the RPC gets the truthy ids and the caller's token; an RPC error gives 400 with its prefix; 200 returns the RPC data unchanged; every thrown error (authentication, body, null body, RPC) answers 500 with its message, and 500 comes only then |
| UpdateApnsToken.Handle | backend/supabase/functions/update_apns_token/index.ts:10-75 | 401 iff the header or the authentication fails; the body's token, null or absent included, goes to the RPC unvalidated; an RPC error gives 400; success is exactly `{success: true}`; every thrown error (authentication, body, null body, RPC) answers 500 with its message, and 500 comes only then |
| Models.ParseUuid | app/Agreet/Agreet/Models/Session.swift:40-42 | a UUID field decodes iff its text is 8-4-4-4-12 hex digits in either case |
| Models.UuidRoundTrip | app/Agreet/Agreet/Models/Session.swift:40-42 | the lowercase text of a UUID parses back to it |
| Models.IntValue | app/Agreet/Agreet/Models/Session.swift:43 | `quorum_n` must be a number within the 64-bit `Int` range |
| Models.IfPresent | app/Agreet/Agreet/Models/Session.swift:45 | `decodeIfPresent` gives nil exactly when the key is missing or null |
| Models.DecodeEach | app/Agreet/Agreet/Models/Session.swift:68 | an array decodes element by element, in order, to a list of the same length |
| Models.DecodeOption | app/Agreet/Agreet/Models/Option.swift:1-16 | an option decodes with well-formed ids, and its image path is nil iff `image_path` is missing or null |
| Models.OptionRowRoundTrip | app/Agreet/Agreet/Models/Option.swift:1-16 | an option printed as a database row decodes back to itself |
| Models.StatusRawValues | app/Agreet/Agreet/Models/Session.swift:3-7 | the raw values are exactly "open", "matched" and "closed", one per case |
| Models.CreatedAt | app/Agreet/Agreet/Models/Session.swift:48-65 | the creation time is the fractional ISO 8601 reading when that succeeds, else the plain reading when that succeeds, else the current time; a missing, null or non-string value is the current time |
| Models.DecodeHead | app/Agreet/Agreet/Models/Session.swift:40-46 | a missing `id` fails first; the scalar fields decode only with every required key present, valid UUIDs, a 64-bit quorum and the status text as given; the matched option id is nil iff its key is missing or null |
| Models.DecodeJoined | app/Agreet/Agreet/Models/Session.swift:67-70 | each relation is nil iff its key is missing or null |
| Models.DecodeSession | app/Agreet/Agreet/Models/Session.swift:37-71 | a missing `id` fails first; a decoded session has every required key, stores the status text as given, and has each optional relation nil iff its key is missing or null |
| Models.StatusIsFreeText | app/Agreet/Agreet/Models/Session.swift:14 | any status text decodes and is stored; nothing ties it to `SessionStatus` |
| Models.CreatedAtNeverFails | app/Agreet/Agreet/Models/Session.swift:49-65 | removing `created_at` never changes whether a row decodes; the session then has the current time |
| Models.OptionalKeysMayBeAbsent | app/Agreet/Agreet/Models/Session.swift:45-70 | dropping all four optional keys still decodes, with those fields nil and the rest unchanged |
| Models.ParticipantCount | app/Agreet/Agreet/Models/Session.swift:90-92 | `participantCount` is the number of participants, or 0 when there are none |
| Models.DecodedParticipantCount | app/Agreet/Agreet/Models/Session.swift:68-92 | the participant count of a decoded row is the length of its participants array, or 0 when absent |
| Models.SessionRowRoundTrip | app/Agreet/Agreet/Models/Session.swift:22-71 | a session printed as a joined database row decodes back to the same session |
| SwipeDeck.SubsequenceTransitive | app/Agreet/Agreet/Features/SwipeDeck/SwipeDeckViewModel.swift:43 | removing from a subsequence of the options keeps it a subsequence |
| SwipeDeck.SubsequenceBounds | app/Agreet/Agreet/Features/SwipeDeck/SwipeDeckViewModel.swift:24-30 | a subsequence is no longer than the options, and holds only options from them |
| SwipeDeck.WithoutId | app/Agreet/Agreet/Features/SwipeDeck/SwipeDeckViewModel.swift:43 | after `removeAll`, no option has the swiped id and every other option stays |
| SwipeDeck.WithoutIdIsSubsequence | app/Agreet/Agreet/Features/SwipeDeck/SwipeDeckViewModel.swift:43 | the remaining options keep their relative order |
| SwipeDeck.WithoutIdUnchanged | app/Agreet/Agreet/Features/SwipeDeck/SwipeDeckViewModel.swift:43 | removal changes the deck iff some option has the swiped id |
| SwipeDeck.WithoutIdKeepsAll | app/Agreet/Agreet/Features/SwipeDeck/SwipeDeckViewModel.swift:43 | a deck with no option of the swiped id comes back whole |
| SwipeDeck.SwipeDeckViewModel.constructor | app/Agreet/Agreet/Features/SwipeDeck/SwipeDeckViewModel.swift:9-19 | the deck starts empty with no session, no match and no error |
| SwipeDeck.SwipeDeckViewModel.OptionsRemaining | app/Agreet/Agreet/Features/SwipeDeck/SwipeDeckViewModel.swift:24-30 | `optionsRemaining` never exceeds `totalOptions` |
| SwipeDeck.SwipeDeckViewModel.SetSession | app/Agreet/Agreet/Features/SwipeDeck/SwipeDeckViewModel.swift:34-62 | the session is set and loading starts; the options are untouched |
| SwipeDeck.SwipeDeckViewModel.CompleteLoad | app/Agreet/Agreet/Features/SwipeDeck/SwipeDeckViewModel.swift:64-82 | on success both option lists become the service's list; on error the message gets its prefix; loading ends false either way |
| SwipeDeck.SwipeDeckViewModel.HandleSwipe | app/Agreet/Agreet/Features/SwipeDeck/SwipeDeckViewModel.swift:39-55 | without a session nothing changes; otherwise the swiped option is removed, only a right swipe starts a like, and `allOptions` is never touched |
| SwipeDeck.SwipeDeckViewModel.CompleteLike | app/Agreet/Agreet/Features/SwipeDeck/SwipeDeckViewModel.swift:85-96 | a reported match sets `matchFound` and the matched id; `matchFound` is never reset |
| SwipeCard.DirectionOf | app/Agreet/Agreet/Features/SwipeDeck/SwipeCardView.swift:155 | the direction is right iff the card moved right |
| SwipeCard.NopeOpacity | app/Agreet/Agreet/Features/SwipeDeck/SwipeCardView.swift:92 | NOPE is visible iff the card is left of centre |
| SwipeCard.LikeOpacity | app/Agreet/Agreet/Features/SwipeDeck/SwipeCardView.swift:118 | LIKE is visible iff the card is right of centre |
| SwipeCard.IndicatorMatchesSwipe | app/Agreet/Agreet/Features/SwipeDeck/SwipeCardView.swift:92-155 | at most one indicator shows, and at a swipe release it is the swipe's own, at full opacity |
| SwipeCard.SwipeCardView.constructor | app/Agreet/Agreet/Features/SwipeDeck/SwipeCardView.swift:8-12 | a card starts centred, untilted and at full scale |
| SwipeCard.SwipeCardView.OnDragChanged | app/Agreet/Agreet/Features/SwipeDeck/SwipeCardView.swift:134-140 | only the top card follows the drag, with rotation dx/20 and scale 1 − abs(dx)/1000 |
| SwipeCard.SwipeCardView.OnDragEnded | app/Agreet/Agreet/Features/SwipeDeck/SwipeCardView.swift:141-179 | `onSwipe` runs once iff the top card is released past 100 points, in the release's direction; the card then flies two widths out, tilted ±20 and at scale 0.8; a shorter release resets it |
| NotificationService.HexValue | app/Agreet/Agreet/Services/NotificationService.swift:37 | each lowercase hex digit has a nibble value that prints back as the same digit |
| NotificationService.ByteHex | app/Agreet/Agreet/Services/NotificationService.swift:37 | each byte is two lowercase hex digits, high nibble first |
| NotificationService.HexToken | app/Agreet/Agreet/Services/NotificationService.swift:37-38 | the token has two lowercase hex digits per byte |
| NotificationService.HexDecodeToken | app/Agreet/Agreet/Services/NotificationService.swift:37-38 | hex decoding the token recovers the device token's bytes |
| NotificationService.HexTokenOfDecoded | app/Agreet/Agreet/Services/NotificationService.swift:37-38 | any string that decodes is the token of what it decodes to |
| NotificationService.MatchPayload | app/Agreet/Agreet/Services/NotificationService.swift:56-60 | a payload is accepted iff `session_id` and `matched_option_id` are both strings, and their values are returned unchanged |
| NotificationService.NotifyMatchPayloadRefused | app/Agreet/Agreet/Services/NotificationService.swift:56-57 | the payload notify_match pushes, with `sessionId`/`optionId`, is always refused |
| NotificationService.NotificationCenter.UpdateApnsToken | app/Agreet/Agreet/Services/NotificationService.swift:36-52 | the RPC receives the hex token as `p_token` |
| NotificationService.NotificationCenter.HandleMatchNotification | app/Agreet/Agreet/Services/NotificationService.swift:55-73 | "MatchFound" is posted with the two ids iff the payload is accepted; otherwise nothing is posted |
| NotificationService.NotificationCenter.ClearDeviceToken | app/Agreet/Agreet/Services/NotificationService.swift:76-86 | clearing sends the empty string as `p_token` |
| NotificationService.NotificationCenter.CheckPermissionsAndSync | app/Agreet/Agreet/Services/NotificationService.swift:89-102 | the token is cleared iff notifications are not authorized |
| SwiftStrings.TrimStart | app/Agreet/Agreet/Features/JoinSession/JoinSessionViewModel.swift:20 | leading trimming removes only whitespace and leaves a non-whitespace first character |
| SwiftStrings.TrimEnd | app/Agreet/Agreet/Features/JoinSession/JoinSessionViewModel.swift:20 | trailing trimming removes only whitespace and leaves a non-whitespace last character |
| SwiftStrings.Trim | app/Agreet/Agreet/Features/JoinSession/JoinSessionViewModel.swift:20 | a trimmed string is empty or starts and ends with non-whitespace |
| SwiftStrings.TrimEmpty | app/Agreet/Agreet/Features/JoinSession/JoinSessionViewModel.swift:21 | a code trims to empty iff it is all whitespace |
| SwiftStrings.TrimIsInfix | app/Agreet/Agreet/Features/Settings/SettingsViewModel.swift:90 | the trimmed text sits in the input right after the leading whitespace, with only whitespace after it |
| SwiftStrings.TrimIdempotent | app/Agreet/Agreet/Features/Settings/SettingsViewModel.swift:85-90 | trimming twice equals trimming once |
| Settings.MatchRepeatCorrect | app/Agreet/Agreet/Features/Settings/SettingsViewModel.swift:159-164 | the counting matcher accepts exactly within the 3 to 20 bound and the character class |
| Settings.UsernameMatches | app/Agreet/Agreet/Features/Settings/SettingsViewModel.swift:159-164 | a name is valid iff it has 3 to 20 characters from A–Z, a–z, 0–9 and '_' |
| Settings.UnknownUserIsInvalid | app/Agreet/Agreet/Features/Settings/SettingsViewModel.swift:24-26 | the "Unknown User" fallback is not a valid username |
| Settings.UsernameOf | app/Agreet/Agreet/Features/Settings/SettingsViewModel.swift:24-26 | the shown name is the signed-in user's username, else "Unknown User" |
| Settings.SaveStepOf | app/Agreet/Agreet/Features/Settings/SettingsViewModel.swift:85-102 | the guards in order: an empty trimmed name, then a name equal to the current one, then a name outside the pattern; only a changed, valid name is sent, trimmed |
| Settings.SettingsViewModel.CurrentUsername | app/Agreet/Agreet/Features/Settings/SettingsViewModel.swift:24-26 | the current username falls back to "Unknown User" when no one is signed in |
| Settings.SettingsViewModel.constructor | app/Agreet/Agreet/Features/Settings/SettingsViewModel.swift:47-57 | the editor starts with the current username and no alert |
| Settings.SettingsViewModel.ShowError | app/Agreet/Agreet/Features/Settings/SettingsViewModel.swift:167-170 | only the error message and its flag change |
| Settings.SettingsViewModel.ShowSuccess | app/Agreet/Agreet/Features/Settings/SettingsViewModel.swift:173-176 | only the success message and its flag change |
| Settings.SettingsViewModel.StartUsernameEdit | app/Agreet/Agreet/Features/Settings/SettingsViewModel.swift:72-75 | editing starts from the current username |
| Settings.SettingsViewModel.CancelUsernameEdit | app/Agreet/Agreet/Features/Settings/SettingsViewModel.swift:78-81 | editing stops and the text goes back to the current username |
| Settings.SettingsViewModel.SaveUsername | app/Agreet/Agreet/Features/Settings/SettingsViewModel.swift:84-113 | the name sent is the one the guards let through; empty and malformed names raise their errors and keep editing; an unchanged name ends editing quietly; the backend's success ends editing and its failure keeps it |
| Settings.SettingsViewModel.ApplyStep | app/Agreet/Agreet/Features/Settings/SettingsViewModel.swift:85-112 | each guard outcome's alert and editing flag, and the backend answer's; the user changes only on an accepted update |
| Settings.SettingsViewModel.ShowHelp | app/Agreet/Agreet/Features/Settings/SettingsViewModel.swift:129-133 | shows the help placeholder as a success alert |
| Settings.SettingsViewModel.ShowPrivacyPolicy | app/Agreet/Agreet/Features/Settings/SettingsViewModel.swift:136-140 | shows the privacy placeholder as a success alert |
| JoinSession.JoinErrorMessage | app/Agreet/Agreet/Features/JoinSession/JoinSessionViewModel.swift:42-59 | any error other than the five fixed ones reads "Failed to join session: " and its description |
| JoinSession.MessageInitial | app/Agreet/Agreet/Features/JoinSession/JoinSessionViewModel.swift:43-58 | only the prefixed messages begin with 'F' |
| JoinSession.JoinErrorMessageDistinguishes | app/Agreet/Agreet/Features/JoinSession/JoinSessionViewModel.swift:43-58 | each fixed error has its own message, unlike any other, and a prefixed message keeps its description |
| JoinSession.JoinSessionViewModel.constructor | app/Agreet/Agreet/Features/JoinSession/JoinSessionViewModel.swift:6-11 | an empty code and no session, error or loading |
| JoinSession.JoinSessionViewModel.BeginJoin | app/Agreet/Agreet/Features/JoinSession/JoinSessionViewModel.swift:18-27 | an empty trimmed code sets its message and nothing else; otherwise the trimmed code is sent, loading starts and the error is cleared |
| JoinSession.JoinSessionViewModel.CompleteJoin | app/Agreet/Agreet/Features/JoinSession/JoinSessionViewModel.swift:29-61 | success stores the session and makes it current; failure sets the error's message; loading ends false either way |
| StartSession.StartSessionViewModel.constructor | app/Agreet/Agreet/Features/StartSession/StartSessionViewModel.swift:6-31 | the quorum starts at 2, between the minimum 2 and the maximum 5 |
| StartSession.StartSessionViewModel.LoadCategories | app/Agreet/Agreet/Features/StartSession/StartSessionViewModel.swift:33-50 | a non-empty list selects its first category over any earlier choice; a failure sets its prefixed message |
| StartSession.StartSessionViewModel.BeginCreate | app/Agreet/Agreet/Features/StartSession/StartSessionViewModel.swift:52-62 | without a category only the error is set; otherwise the category and the quorum are sent as they are, unclamped |
| StartSession.StartSessionViewModel.CompleteCreate | app/Agreet/Agreet/Features/StartSession/StartSessionViewModel.swift:62-72 | success stores the session; failure keeps the old one and sets the prefixed message; loading ends false |
| StartSession.StartSessionViewModel.InviteCode | app/Agreet/Agreet/Features/StartSession/StartSessionViewModel.swift:74-76 | the invite code is empty until a session exists |
| StartSession.StartSessionViewModel.InviteMessage | app/Agreet/Agreet/Features/StartSession/StartSessionViewModel.swift:78-80 | the message is the fixed text followed by the invite code, which can be read back from it |

## Left out

- The `like_option` and `update_apns_token` database procedures are not part of this model; their outcomes are inputs. These procedures hold the vote ledger, the quorum test and the match transition.
- SwiftUI views, navigation, haptic feedback, animations and the 0.3 s and 0.5 s delays are left out; they hold no state the model needs.
- Base64 and JSON encoding, key import, signing and ISO 8601 parsing are foreign calls, given as functions. The `btoa` results are typed as base64 text (alphabet and `=` padding), the output `btoa` is defined to give.
- `fetch`, Supabase queries and RPCs, `SessionService`, `NetworkService` and `AuthService` are given as outcomes. `setCurrentSession` in `loadOptions` is not recorded.
- The clock is left out: `Date()` and `Date.now()` are inputs.
- Console logging and `print` are left out.
- NotifyMatch.SendToAll: the sends of `Promise.all` run concurrently; the model runs them in user order, and the collected ids are then in that order too.
- NotifyMatch.Serve: a JSON body that parses to `null` or a non-object, whose property reads throw, is not distinguished from malformed JSON.
- NotifyMatch.SendApnsNotification: the JWT is rebuilt per send from the same environment and time, so every send in one run signs the same claims.
- Json.Value numbers are integers. No modelled field carries a fraction, so JSON fractions are not modelled.
- Models.DecodeSession: the participant and category records' own decoders are not in this model. They are inputs, and their errors pass through.
- Models.Session: the synthesized `encode(to:)` is not modelled; `SessionRow` stands for the row the database sends instead.
- SwiftStrings.Trim: Swift trims whole grapheme clusters; the model trims Unicode scalars. The two differ only when a combining mark follows edge whitespace.
- SwipeCard: floating-point rounding is not modelled; sizes are `real`. The card width, the screen width less 40, is a constructor argument.
- `loadNotificationPreferences`, `refreshNotificationPreferences`, `openNotificationSettings`, `signOut`, `appVersion` and `memberSinceText` in the settings view model are left out. Each only reads a platform API or forwards to a service.
- `requestAuthorization`, `registerForRemoteNotifications` and the notification-centre delegate methods are left out. They are platform calls; the delegate only forwards to `handleMatchNotification`.
- The `Session` memberwise initializer is the `Models.Session` datatype constructor, which stores every argument unchanged.
