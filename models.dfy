/**
 * The app's records as decoded from the database's JSON rows: the option record, the
 * session status vocabulary and the session record with its hand-written decoder. Dates
 * are seconds as `real`; ISO 8601 parsing and the clock are inputs. The participant and
 * category records are decoded by decoders given as inputs.
 */
module Models {
  import opened Wrappers
  import Json

  // ---------------------------------------------------------------- UUIDs

  predicate IsHexDigit(c: char) {
    '0' <= c <= '9' || 'a' <= c <= 'f' || 'A' <= c <= 'F'
  }

  predicate IsLowerHexDigit(c: char) {
    '0' <= c <= '9' || 'a' <= c <= 'f'
  }

  function ToLowerHex(c: char): (r: char)
    requires IsHexDigit(c)
    ensures IsLowerHexDigit(r)
    ensures IsLowerHexDigit(c) ==> r == c
  {
    if 'A' <= c <= 'F' then (c - 'A' + 'a') as char else c
  }

  /** A UUID, kept as its 32 lowercase hex digits (UUIDs compare case-insensitively). */
  datatype Uuid = Uuid(digits: string)

  predicate ValidUuid(u: Uuid) {
    |u.digits| == 32 && forall i :: 0 <= i < 32 ==> IsLowerHexDigit(u.digits[i])
  }

  predicate IsDashPosition(i: int) {
    i == 8 || i == 13 || i == 18 || i == 23
  }

  /** The 8-4-4-4-12 text form, in either case. */
  predicate IsUuidText(s: string) {
    |s| == 36 && forall i :: 0 <= i < 36 ==> if IsDashPosition(i) then s[i] == '-' else IsHexDigit(s[i])
  }

  /** Where digit `k` of the 32 sits in the 36-character text. */
  function TextIndex(k: int): (i: int)
    requires 0 <= k < 32
    ensures 0 <= i < 36 && !IsDashPosition(i)
  {
    if k < 8 then k else if k < 12 then k + 1 else if k < 16 then k + 2 else if k < 20 then k + 3 else k + 4
  }

  /** `UUID(uuidString:)`: the text form parsed, or nothing. */
  function ParseUuid(s: string): (r: Option<Uuid>)
    ensures r.Some? <==> IsUuidText(s)
    ensures r.Some? ==> ValidUuid(r.value)
  {
    if IsUuidText(s) then Some(Uuid(seq(32, k requires 0 <= k < 32 => ToLowerHex(s[TextIndex(k)]))))
    else None
  }

  /** The lowercase 8-4-4-4-12 text of a UUID, as the database prints it. */
  function UuidText(u: Uuid): (s: string)
    requires ValidUuid(u)
    ensures IsUuidText(s)
  {
    var d := u.digits;
    var s := d[0..8] + "-" + d[8..12] + "-" + d[12..16] + "-" + d[16..20] + "-" + d[20..32];
    assert forall k :: 0 <= k < 32 ==> s[TextIndex(k)] == d[k];
    assert forall i :: 0 <= i < 36 && !IsDashPosition(i) ==> IsLowerHexDigit(s[i]) by {
      forall i | 0 <= i < 36 && !IsDashPosition(i) ensures IsLowerHexDigit(s[i]) {
        var k := if i < 8 then i else if i < 13 then i - 1 else if i < 18 then i - 2 else if i < 23 then i - 3 else i - 4;
        assert TextIndex(k) == i;
      }
    }
    s
  }

  /** Printing a UUID and parsing the text gives the UUID back. */
  lemma UuidRoundTrip(u: Uuid)
    requires ValidUuid(u)
    ensures ParseUuid(UuidText(u)) == Some(u)
  {
    var s := UuidText(u);
    var d := u.digits;
    assert s == d[0..8] + "-" + d[8..12] + "-" + d[12..16] + "-" + d[16..20] + "-" + d[20..32];
    assert forall k :: 0 <= k < 32 ==> s[TextIndex(k)] == d[k];
    assert ParseUuid(s).value.digits == d;
  }

  // ---------------------------------------------------------------- decoding errors and primitives

  /** The `DecodingError` cases a decode can end in; each names the key it concerns. */
  datatype DecodeError =
    | NotAnObject
    | KeyNotFound(key: string)
    | ValueNotFound(key: string)
    | TypeMismatch(key: string)
    | DataCorrupted(key: string)

  /** Decodes the non-null value found under a key. */
  type Decoder<T> = (string, Json.Value) -> Result<T, DecodeError>

  /** `container.decode(T.self, forKey:)`: a missing key and a null value are errors. */
  function Required<T>(fields: map<string, Json.Value>, key: string, decode: Decoder<T>): Result<T, DecodeError> {
    if key !in fields then Err(KeyNotFound(key))
    else if fields[key] == Json.JNull then Err(ValueNotFound(key))
    else decode(key, fields[key])
  }

  /** A key that is missing or holds null: what `decodeIfPresent` reads as nil. */
  predicate Absent(fields: map<string, Json.Value>, key: string) {
    key !in fields || fields[key] == Json.JNull
  }

  /** `container.decodeIfPresent(T.self, forKey:)`: a missing key or a null value is nil. */
  function IfPresent<T>(fields: map<string, Json.Value>, key: string, decode: Decoder<T>): (r: Result<Option<T>, DecodeError>)
    ensures Absent(fields, key) ==> r == Ok(None)
    ensures r.Ok? && r.value.None? ==> Absent(fields, key)
  {
    if Absent(fields, key) then Ok(None)
    else match decode(key, fields[key])
      case Ok(x) => Ok(Some(x))
      case Err(e) => Err(e)
  }

  function StringValue(key: string, v: Json.Value): Result<string, DecodeError> {
    if v.JString? then Ok(v.s) else Err(TypeMismatch(key))
  }

  const MinInt: int := -0x8000_0000_0000_0000
  const MaxInt: int := 0x7FFF_FFFF_FFFF_FFFF

  /** A Swift `Int` (64 bits): a number out of range does not fit. */
  function IntValue(key: string, v: Json.Value): (r: Result<int, DecodeError>)
    ensures r.Ok? ==> MinInt <= r.value <= MaxInt
  {
    if !v.JNumber? then Err(TypeMismatch(key))
    else if MinInt <= v.n <= MaxInt then Ok(v.n)
    else Err(DataCorrupted(key))
  }

  function UuidValue(key: string, v: Json.Value): (r: Result<Uuid, DecodeError>)
    ensures r.Ok? ==> ValidUuid(r.value)
  {
    if !v.JString? then Err(TypeMismatch(key))
    else match ParseUuid(v.s)
      case Some(u) => Ok(u)
      case None => Err(DataCorrupted(key))
  }

  /** Each element decoded in order; the first failure fails the array. */
  function DecodeEach<T>(key: string, items: seq<Json.Value>, decode: Json.Value -> Result<T, DecodeError>): (r: Result<seq<T>, DecodeError>)
    ensures r.Ok? ==> |r.value| == |items|
    ensures r.Ok? ==> forall i :: 0 <= i < |items| ==> decode(items[i]) == Ok(r.value[i])
  {
    if items == [] then Ok([])
    else
      var first :- decode(items[0]);
      var rest :- DecodeEach(key, items[1..], decode);
      Ok([first] + rest)
  }

  function ArrayOf<T>(decode: Json.Value -> Result<T, DecodeError>): Decoder<seq<T>> {
    (key: string, v: Json.Value) => if v.JArray? then DecodeEach(key, v.items, decode) else Err(TypeMismatch(key))
  }

  // ---------------------------------------------------------------- Option.swift

  /** A choice inside a category (`Option` in the app). */
  datatype OptionRecord = OptionRecord(id: Uuid, categoryId: Uuid, labelText: string, imagePath: Option<string>)

  /** The synthesized decoder of `Option`, under its coding keys. */
  function DecodeOption(v: Json.Value): (r: Result<OptionRecord, DecodeError>)
    ensures r.Ok? ==> v.JObject? && ValidUuid(r.value.id) && ValidUuid(r.value.categoryId)
    ensures r.Ok? ==> (r.value.imagePath.None? <==> Absent(v.fields, "image_path"))
  {
    if !v.JObject? then Err(NotAnObject)
    else
      var f := v.fields;
      var id :- Required(f, "id", UuidValue);
      var categoryId :- Required(f, "category_id", UuidValue);
      var labelText :- Required(f, "label", StringValue);
      var imagePath :- IfPresent(f, "image_path", StringValue);
      Ok(OptionRecord(id, categoryId, labelText, imagePath))
  }

  // ---------------------------------------------------------------- Session.swift

  /** `SessionStatus`: the three statuses a session row can name. */
  datatype SessionStatus = Open | Matched | Closed

  function RawValue(s: SessionStatus): string {
    match s
    case Open => "open"
    case Matched => "matched"
    case Closed => "closed"
  }

  /** `SessionStatus(rawValue:)`. */
  function StatusFromRaw(raw: string): Option<SessionStatus> {
    if raw == "open" then Some(Open)
    else if raw == "matched" then Some(Matched)
    else if raw == "closed" then Some(Closed)
    else None
  }

  /** The raw values are exactly "open", "matched" and "closed", and they name the cases one to one. */
  lemma StatusRawValues(raw: string, s: SessionStatus)
    ensures StatusFromRaw(RawValue(s)) == Some(s)
    ensures StatusFromRaw(raw).Some? <==> raw in {"open", "matched", "closed"}
    ensures StatusFromRaw(raw) == Some(s) <==> raw == RawValue(s)
  {
  }

  /**
   * A session record. The status is free text; the participants and the category are
   * records of types `P` and `C` whose decoders are inputs.
   */
  datatype Session<P, C> = Session(
    id: Uuid,
    creatorId: Uuid,
    categoryId: Uuid,
    quorumN: int,
    status: string,
    matchedOptionId: Option<Uuid>,
    inviteCode: string,
    createdAt: real,
    participants: Option<seq<P>>,
    matchedOption: Option<OptionRecord>,
    category: Option<C>)

  /** The two ISO 8601 formatters and the clock. */
  datatype Clock = Clock(fractional: string -> Option<real>, plain: string -> Option<real>, now: real)

  /** The decoders of the joined participant and category records. */
  datatype Relations<P, C> = Relations(participant: Json.Value -> Result<P, DecodeError>, category: Json.Value -> Result<C, DecodeError>)

  /**
   * `createdAt`: the string under "created_at" read with fractional seconds, else without,
   * else the current time; a missing, null or non-string value is the current time too.
   */
  function CreatedAt(fields: map<string, Json.Value>, clock: Clock): (d: real)
    ensures d != clock.now ==> "created_at" in fields && fields["created_at"].JString?
    ensures "created_at" in fields && fields["created_at"].JString?
            && clock.fractional(fields["created_at"].s).Some?
            ==> d == clock.fractional(fields["created_at"].s).value
    ensures "created_at" in fields && fields["created_at"].JString?
            && clock.fractional(fields["created_at"].s).None? && clock.plain(fields["created_at"].s).Some?
            ==> d == clock.plain(fields["created_at"].s).value
    ensures "created_at" in fields && fields["created_at"].JString?
            && clock.fractional(fields["created_at"].s).None? && clock.plain(fields["created_at"].s).None?
            ==> d == clock.now
  {
    match Required(fields, "created_at", StringValue)
    case Err(_) => clock.now
    case Ok(text) =>
      match clock.fractional(text)
      case Some(d) => d
      case None =>
        match clock.plain(text)
        case Some(d) => d
        case None => clock.now
  }

  /** The scalar fields `Session.init(from:)` reads before the creation time. */
  datatype Head = Head(
    id: Uuid,
    creatorId: Uuid,
    categoryId: Uuid,
    quorumN: int,
    status: string,
    matchedOptionId: Option<Uuid>,
    inviteCode: string)

  /** The joined relations `Session.init(from:)` reads after the creation time. */
  datatype Joined<P, C> = Joined(participants: Option<seq<P>>, matchedOption: Option<OptionRecord>, category: Option<C>)

  /** The first seven keys, in the order the source decodes them. */
  function DecodeHead(f: map<string, Json.Value>): (r: Result<Head, DecodeError>)
    ensures "id" !in f ==> r == Err(KeyNotFound("id"))
    ensures r.Ok? ==> forall key :: key in RequiredKeys ==> !Absent(f, key)
    ensures r.Ok? ==> "status" in f && f["status"] == Json.JString(r.value.status)
    ensures r.Ok? ==> ValidUuid(r.value.id) && ValidUuid(r.value.creatorId) && ValidUuid(r.value.categoryId)
    ensures r.Ok? ==> MinInt <= r.value.quorumN <= MaxInt
    ensures r.Ok? ==> (r.value.matchedOptionId.None? <==> Absent(f, "matched_option_id"))
  {
    var id :- Required(f, "id", UuidValue);
    var creatorId :- Required(f, "creator_id", UuidValue);
    var categoryId :- Required(f, "category_id", UuidValue);
    var quorumN :- Required(f, "quorum_n", IntValue);
    var status :- Required(f, "status", StringValue);
    var matchedOptionId :- IfPresent(f, "matched_option_id", UuidValue);
    var inviteCode :- Required(f, "invite_code", StringValue);
    Ok(Head(id, creatorId, categoryId, quorumN, status, matchedOptionId, inviteCode))
  }

  /** The three relations, each nil exactly when its key is missing or null. */
  function DecodeJoined<P, C>(f: map<string, Json.Value>, rel: Relations<P, C>): (r: Result<Joined<P, C>, DecodeError>)
    ensures r.Ok? ==> (r.value.participants.None? <==> Absent(f, "session_participants"))
    ensures r.Ok? ==> (r.value.matchedOption.None? <==> Absent(f, "options"))
    ensures r.Ok? ==> (r.value.category.None? <==> Absent(f, "categories"))
  {
    var participants :- IfPresent(f, "session_participants", ArrayOf(rel.participant));
    var matchedOption :- IfPresent(f, "options", (_: string, o: Json.Value) => DecodeOption(o));
    var category :- IfPresent(f, "categories", (_: string, c: Json.Value) => rel.category(c));
    Ok(Joined(participants, matchedOption, category))
  }

  /** `Session.init(from:)`: the scalar keys, then the creation time, then the relations. */
  function DecodeSession<P, C>(v: Json.Value, clock: Clock, rel: Relations<P, C>): (r: Result<Session<P, C>, DecodeError>)
    ensures !v.JObject? ==> r == Err(NotAnObject)
    ensures v.JObject? && "id" !in v.fields ==> r == Err(KeyNotFound("id"))
    ensures r.Ok? ==> v.JObject? && forall key :: key in RequiredKeys ==> !Absent(v.fields, key)
    // the status is any string, stored as it is
    ensures r.Ok? ==> "status" in v.fields && v.fields["status"] == Json.JString(r.value.status)
    ensures r.Ok? ==> ValidUuid(r.value.id) && ValidUuid(r.value.creatorId) && ValidUuid(r.value.categoryId)
    ensures r.Ok? ==> MinInt <= r.value.quorumN <= MaxInt
    // the optional relations are nil exactly when their key is missing or null
    ensures r.Ok? ==> (r.value.matchedOptionId.None? <==> Absent(v.fields, "matched_option_id"))
    ensures r.Ok? ==> (r.value.participants.None? <==> Absent(v.fields, "session_participants"))
    ensures r.Ok? ==> (r.value.matchedOption.None? <==> Absent(v.fields, "options"))
    ensures r.Ok? ==> (r.value.category.None? <==> Absent(v.fields, "categories"))
    ensures r.Ok? ==> r.value.createdAt == CreatedAt(v.fields, clock)
  {
    if !v.JObject? then Err(NotAnObject)
    else
      var h :- DecodeHead(v.fields);
      var createdAt := CreatedAt(v.fields, clock);
      var j :- DecodeJoined(v.fields, rel);
      Ok(Session(h.id, h.creatorId, h.categoryId, h.quorumN, h.status, h.matchedOptionId, h.inviteCode, createdAt,
                 j.participants, j.matchedOption, j.category))
  }

  /** The keys `decode` (not `decodeIfPresent`) reads. */
  const RequiredKeys: set<string> := {"id", "creator_id", "category_id", "quorum_n", "status", "invite_code"}

  /** `participantCount`. */
  function ParticipantCount<P, C>(s: Session<P, C>): (n: nat)
    ensures s.participants.None? ==> n == 0
    ensures s.participants.Some? ==> n == |s.participants.value|
  {
    match s.participants
    case None => 0
    case Some(ps) => |ps|
  }

  // ---------------------------------------------------------------- properties of the decoder

  /** Two rows that agree on a key: both hold it with the same value, or neither holds it. */
  predicate SameAt(f: map<string, Json.Value>, g: map<string, Json.Value>, key: string) {
    (key in f <==> key in g) && (key in f ==> f[key] == g[key])
  }

  lemma SameAtWithout(f: map<string, Json.Value>, dropped: set<string>, key: string)
    requires key !in dropped
    ensures SameAt(f - dropped, f, key)
  {
  }

  lemma AbsentWithout(f: map<string, Json.Value>, dropped: set<string>, key: string)
    requires key in dropped
    ensures Absent(f - dropped, key)
  {
  }

  lemma SameAtUpdate(f: map<string, Json.Value>, changed: string, v: Json.Value, key: string)
    requires key != changed
    ensures SameAt(f[changed := v], f, key)
  {
  }

  /** The scalar keys other than `status` decode the same in two rows that agree on them. */
  lemma HeadFrame(f: map<string, Json.Value>, g: map<string, Json.Value>)
    requires SameAt(f, g, "id") && SameAt(f, g, "creator_id") && SameAt(f, g, "category_id")
    requires SameAt(f, g, "quorum_n") && SameAt(f, g, "invite_code")
    ensures Required(f, "id", UuidValue) == Required(g, "id", UuidValue)
    ensures Required(f, "creator_id", UuidValue) == Required(g, "creator_id", UuidValue)
    ensures Required(f, "category_id", UuidValue) == Required(g, "category_id", UuidValue)
    ensures Required(f, "quorum_n", IntValue) == Required(g, "quorum_n", IntValue)
    ensures Required(f, "invite_code", StringValue) == Required(g, "invite_code", StringValue)
  {
  }

  /** The relations decode the same in two rows that agree on their keys. */
  lemma JoinedFrame<P, C>(f: map<string, Json.Value>, g: map<string, Json.Value>, rel: Relations<P, C>)
    requires SameAt(f, g, "session_participants") && SameAt(f, g, "options") && SameAt(f, g, "categories")
    ensures DecodeJoined(f, rel) == DecodeJoined(g, rel)
  {
    assert IfPresent(f, "session_participants", ArrayOf(rel.participant)) == IfPresent(g, "session_participants", ArrayOf(rel.participant));
    assert IfPresent(f, "options", (_: string, o: Json.Value) => DecodeOption(o)) == IfPresent(g, "options", (_: string, o: Json.Value) => DecodeOption(o));
    assert IfPresent(f, "categories", (_: string, c: Json.Value) => rel.category(c)) == IfPresent(g, "categories", (_: string, c: Json.Value) => rel.category(c));
  }

  /** Any status text is accepted and stored: nothing ties it to `SessionStatus`. */
  lemma {:induction false} StatusIsFreeText<P, C>(f: map<string, Json.Value>, clock: Clock, rel: Relations<P, C>, text: string)
    requires DecodeSession(Json.JObject(f), clock, rel).Ok?
    ensures DecodeSession(Json.JObject(f["status" := Json.JString(text)]), clock, rel)
            == Ok(DecodeSession(Json.JObject(f), clock, rel).value.(status := text))
  {
    var g := f["status" := Json.JString(text)];
    var s := Json.JString(text);
    SameAtUpdate(f, "status", s, "id");
    SameAtUpdate(f, "status", s, "creator_id");
    SameAtUpdate(f, "status", s, "category_id");
    SameAtUpdate(f, "status", s, "quorum_n");
    SameAtUpdate(f, "status", s, "invite_code");
    SameAtUpdate(f, "status", s, "matched_option_id");
    SameAtUpdate(f, "status", s, "created_at");
    SameAtUpdate(f, "status", s, "session_participants");
    SameAtUpdate(f, "status", s, "options");
    SameAtUpdate(f, "status", s, "categories");
    HeadFrame(g, f);
    assert IfPresent(g, "matched_option_id", UuidValue) == IfPresent(f, "matched_option_id", UuidValue);
    assert Required(g, "status", StringValue) == Ok(text);
    assert DecodeHead(g) == Ok(DecodeHead(f).value.(status := text));
    JoinedFrame(g, f, rel);
    assert CreatedAt(g, clock) == CreatedAt(f, clock);
  }

  /** A missing creation time never fails a decode: the session then carries the current time. */
  lemma {:induction false} CreatedAtNeverFails<P, C>(f: map<string, Json.Value>, clock: Clock, rel: Relations<P, C>)
    ensures DecodeSession(Json.JObject(f - {"created_at"}), clock, rel).Ok? <==> DecodeSession(Json.JObject(f), clock, rel).Ok?
    ensures DecodeSession(Json.JObject(f), clock, rel).Ok?
            ==> DecodeSession(Json.JObject(f - {"created_at"}), clock, rel)
                == Ok(DecodeSession(Json.JObject(f), clock, rel).value.(createdAt := clock.now))
  {
    var g := f - {"created_at"};
    SameAtWithout(f, {"created_at"}, "id");
    SameAtWithout(f, {"created_at"}, "creator_id");
    SameAtWithout(f, {"created_at"}, "category_id");
    SameAtWithout(f, {"created_at"}, "quorum_n");
    SameAtWithout(f, {"created_at"}, "status");
    SameAtWithout(f, {"created_at"}, "invite_code");
    SameAtWithout(f, {"created_at"}, "matched_option_id");
    SameAtWithout(f, {"created_at"}, "session_participants");
    SameAtWithout(f, {"created_at"}, "options");
    SameAtWithout(f, {"created_at"}, "categories");
    HeadFrame(g, f);
    assert Required(g, "status", StringValue) == Required(f, "status", StringValue);
    assert IfPresent(g, "matched_option_id", UuidValue) == IfPresent(f, "matched_option_id", UuidValue);
    assert DecodeHead(g) == DecodeHead(f);
    JoinedFrame(g, f, rel);
    assert CreatedAt(g, clock) == clock.now;
  }

  /** The keys read with `decodeIfPresent`. */
  const OptionalKeys: set<string> := {"matched_option_id", "session_participants", "options", "categories"}

  lemma HeadWithoutOptional(f: map<string, Json.Value>)
    requires DecodeHead(f).Ok?
    ensures DecodeHead(f - OptionalKeys) == Ok(DecodeHead(f).value.(matchedOptionId := None))
  {
    var g := f - OptionalKeys;
    SameAtWithout(f, OptionalKeys, "id");
    SameAtWithout(f, OptionalKeys, "creator_id");
    SameAtWithout(f, OptionalKeys, "category_id");
    SameAtWithout(f, OptionalKeys, "quorum_n");
    SameAtWithout(f, OptionalKeys, "status");
    SameAtWithout(f, OptionalKeys, "invite_code");
    HeadFrame(g, f);
    assert Required(g, "status", StringValue) == Required(f, "status", StringValue);
    AbsentWithout(f, OptionalKeys, "matched_option_id");
  }

  lemma JoinedWithoutOptional<P, C>(f: map<string, Json.Value>, rel: Relations<P, C>)
    ensures DecodeJoined(f - OptionalKeys, rel) == Ok(Joined(None, None, None))
  {
    AbsentWithout(f, OptionalKeys, "session_participants");
    AbsentWithout(f, OptionalKeys, "options");
    AbsentWithout(f, OptionalKeys, "categories");
  }

  /** Dropping every optional key still decodes, with the optional fields nil and the rest unchanged. */
  lemma {:induction false} OptionalKeysMayBeAbsent<P, C>(f: map<string, Json.Value>, clock: Clock, rel: Relations<P, C>)
    requires DecodeSession(Json.JObject(f), clock, rel).Ok?
    ensures DecodeSession(Json.JObject(f - OptionalKeys), clock, rel)
            == Ok(DecodeSession(Json.JObject(f), clock, rel).value.(matchedOptionId := None, participants := None,
                                                                    matchedOption := None, category := None))
  {
    HeadWithoutOptional(f);
    JoinedWithoutOptional(f, rel);
    SameAtWithout(f, OptionalKeys, "created_at");
    assert CreatedAt(f - OptionalKeys, clock) == CreatedAt(f, clock);
  }

  /** A decoded participant list of `n` elements gives `participantCount == n`. */
  lemma DecodedParticipantCount<P, C>(f: map<string, Json.Value>, clock: Clock, rel: Relations<P, C>)
    requires DecodeSession(Json.JObject(f), clock, rel).Ok?
    ensures ParticipantCount(DecodeSession(Json.JObject(f), clock, rel).value)
            == if Absent(f, "session_participants") then 0 else |f["session_participants"].items|
  {
  }

  // ---------------------------------------------------------------- the rows the database sends

  function UuidJson(u: Uuid): Json.Value
    requires ValidUuid(u)
  {
    Json.JString(UuidText(u))
  }

  /** An option as a database row (`image_path` null when there is none). */
  function OptionRow(o: OptionRecord): Json.Value
    requires ValidUuid(o.id) && ValidUuid(o.categoryId)
  {
    Json.JObject(map[
      "id" := UuidJson(o.id),
      "category_id" := UuidJson(o.categoryId),
      "label" := Json.JString(o.labelText),
      "image_path" := if o.imagePath.Some? then Json.JString(o.imagePath.value) else Json.JNull])
  }

  /** An option row decodes to the option it was printed from. */
  lemma OptionRowRoundTrip(o: OptionRecord)
    requires ValidUuid(o.id) && ValidUuid(o.categoryId)
    ensures DecodeOption(OptionRow(o)) == Ok(o)
  {
    UuidRoundTrip(o.id);
    UuidRoundTrip(o.categoryId);
  }

  /** The printers a database row is made with: the date text and the joined records. */
  datatype RowPrinters<-P, -C> = RowPrinters(date: real -> string, participant: P -> Json.Value, category: C -> Json.Value)

  /** A session whose ids are well-formed and whose quorum fits an `Int`. */
  predicate Printable<P, C>(s: Session<P, C>) {
    ValidUuid(s.id) && ValidUuid(s.creatorId) && ValidUuid(s.categoryId)
    && (s.matchedOptionId.Some? ==> ValidUuid(s.matchedOptionId.value))
    && (s.matchedOption.Some? ==> ValidUuid(s.matchedOption.value.id) && ValidUuid(s.matchedOption.value.categoryId))
    && MinInt <= s.quorumN <= MaxInt
  }

  /** A session as the row a joined query returns; a nil relation is a null column. */
  function SessionRow<P, C>(s: Session<P, C>, out: RowPrinters<P, C>): Json.Value
    requires Printable(s)
  {
    Json.JObject(map[
      "id" := UuidJson(s.id),
      "creator_id" := UuidJson(s.creatorId),
      "category_id" := UuidJson(s.categoryId),
      "quorum_n" := Json.JNumber(s.quorumN),
      "status" := Json.JString(s.status),
      "matched_option_id" := if s.matchedOptionId.Some? then UuidJson(s.matchedOptionId.value) else Json.JNull,
      "invite_code" := Json.JString(s.inviteCode),
      "created_at" := Json.JString(out.date(s.createdAt)),
      "session_participants" := if s.participants.Some? then Json.JArray(seq(|s.participants.value|, i requires 0 <= i < |s.participants.value| => out.participant(s.participants.value[i]))) else Json.JNull,
      "options" := if s.matchedOption.Some? then OptionRow(s.matchedOption.value) else Json.JNull,
      "categories" := if s.category.Some? then out.category(s.category.value) else Json.JNull])
  }

  /** Each element printed and decoded again is the element. */
  lemma {:induction false} DecodeEachRoundTrip<T>(key: string, xs: seq<T>, encode: T -> Json.Value, decode: Json.Value -> Result<T, DecodeError>)
    requires forall x :: decode(encode(x)) == Ok(x)
    ensures DecodeEach(key, seq(|xs|, i requires 0 <= i < |xs| => encode(xs[i])), decode) == Ok(xs)
  {
    var items := seq(|xs|, i requires 0 <= i < |xs| => encode(xs[i]));
    if xs != [] {
      assert items[1..] == seq(|xs[1..]|, i requires 0 <= i < |xs[1..]| => encode(xs[1..][i]));
      DecodeEachRoundTrip(key, xs[1..], encode, decode);
      assert decode(items[0]) == Ok(xs[0]);
      assert [xs[0]] + xs[1..] == xs;
    }
  }

  /** The required columns of a session row read back as the session's fields. */
  lemma RowRequiredColumns<P, C>(s: Session<P, C>, out: RowPrinters<P, C>)
    requires Printable(s)
    ensures var f := SessionRow(s, out).fields;
      && Required(f, "id", UuidValue) == Ok(s.id)
      && Required(f, "creator_id", UuidValue) == Ok(s.creatorId)
      && Required(f, "category_id", UuidValue) == Ok(s.categoryId)
      && Required(f, "quorum_n", IntValue) == Ok(s.quorumN)
      && Required(f, "status", StringValue) == Ok(s.status)
      && Required(f, "invite_code", StringValue) == Ok(s.inviteCode)
  {
    UuidRoundTrip(s.id);
    UuidRoundTrip(s.creatorId);
    UuidRoundTrip(s.categoryId);
  }

  /** The optional columns of a session row read back as the session's relations. */
  lemma RowOptionalColumns<P, C>(s: Session<P, C>, out: RowPrinters<P, C>, rel: Relations<P, C>)
    requires Printable(s)
    requires forall p :: rel.participant(out.participant(p)) == Ok(p)
    requires forall c :: out.category(c) != Json.JNull && rel.category(out.category(c)) == Ok(c)
    ensures var f := SessionRow(s, out).fields;
      && IfPresent(f, "matched_option_id", UuidValue) == Ok(s.matchedOptionId)
      && IfPresent(f, "session_participants", ArrayOf(rel.participant)) == Ok(s.participants)
      && IfPresent(f, "options", (_: string, o: Json.Value) => DecodeOption(o)) == Ok(s.matchedOption)
      && IfPresent(f, "categories", (_: string, c: Json.Value) => rel.category(c)) == Ok(s.category)
  {
    MatchedColumn(s, out);
    if s.matchedOption.Some? {
      OptionRowRoundTrip(s.matchedOption.value);
    }
    ParticipantsColumn(s, out, rel);
    CategoryColumn(s, out, rel);
  }

  lemma MatchedColumn<P, C>(s: Session<P, C>, out: RowPrinters<P, C>)
    requires Printable(s)
    ensures IfPresent(SessionRow(s, out).fields, "matched_option_id", UuidValue) == Ok(s.matchedOptionId)
  {
    var f := SessionRow(s, out).fields;
    if s.matchedOptionId.Some? {
      UuidRoundTrip(s.matchedOptionId.value);
      assert f["matched_option_id"] == UuidJson(s.matchedOptionId.value);
    } else {
      assert f["matched_option_id"] == Json.JNull;
    }
  }

  lemma ParticipantsColumn<P, C>(s: Session<P, C>, out: RowPrinters<P, C>, rel: Relations<P, C>)
    requires Printable(s)
    requires forall p :: rel.participant(out.participant(p)) == Ok(p)
    ensures IfPresent(SessionRow(s, out).fields, "session_participants", ArrayOf(rel.participant)) == Ok(s.participants)
  {
    var f := SessionRow(s, out).fields;
    if s.participants.Some? {
      var ps := s.participants.value;
      var items := seq(|ps|, i requires 0 <= i < |ps| => out.participant(ps[i]));
      assert f["session_participants"] == Json.JArray(items);
      DecodeEachRoundTrip("session_participants", ps, out.participant, rel.participant);
      assert ArrayOf(rel.participant)("session_participants", Json.JArray(items)) == Ok(ps);
    } else {
      assert f["session_participants"] == Json.JNull;
    }
  }

  lemma CategoryColumn<P, C>(s: Session<P, C>, out: RowPrinters<P, C>, rel: Relations<P, C>)
    requires Printable(s)
    requires forall c :: out.category(c) != Json.JNull && rel.category(out.category(c)) == Ok(c)
    ensures IfPresent(SessionRow(s, out).fields, "categories", (_: string, c: Json.Value) => rel.category(c)) == Ok(s.category)
  {
    var f := SessionRow(s, out).fields;
    if s.category.Some? {
      assert f["categories"] == out.category(s.category.value);
    } else {
      assert f["categories"] == Json.JNull;
    }
  }

  lemma RowHead<P, C>(s: Session<P, C>, out: RowPrinters<P, C>)
    requires Printable(s)
    ensures DecodeHead(SessionRow(s, out).fields)
            == Ok(Head(s.id, s.creatorId, s.categoryId, s.quorumN, s.status, s.matchedOptionId, s.inviteCode))
  {
    RowRequiredColumns(s, out);
    MatchedColumn(s, out);
  }

  lemma RowJoined<P, C>(s: Session<P, C>, out: RowPrinters<P, C>, rel: Relations<P, C>)
    requires Printable(s)
    requires forall p :: rel.participant(out.participant(p)) == Ok(p)
    requires forall c :: out.category(c) != Json.JNull && rel.category(out.category(c)) == Ok(c)
    ensures DecodeJoined(SessionRow(s, out).fields, rel) == Ok(Joined(s.participants, s.matchedOption, s.category))
  {
    RowOptionalColumns(s, out, rel);
  }

  /**
   * A session row decodes to the session it was printed from, when the date text reads
   * back with fractional seconds and the joined records read back.
   */
  lemma SessionRowRoundTrip<P, C>(s: Session<P, C>, out: RowPrinters<P, C>, clock: Clock, rel: Relations<P, C>)
    requires Printable(s)
    requires clock.fractional(out.date(s.createdAt)) == Some(s.createdAt)
    requires forall p :: rel.participant(out.participant(p)) == Ok(p)
    requires forall c :: out.category(c) != Json.JNull && rel.category(out.category(c)) == Ok(c)
    ensures DecodeSession(SessionRow(s, out), clock, rel) == Ok(s)
  {
    var f := SessionRow(s, out).fields;
    RowHead(s, out);
    RowJoined(s, out, rel);
    assert CreatedAt(f, clock) == s.createdAt;
  }
}
