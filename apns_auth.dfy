/**
 * Token-based authentication towards the Apple push service, as `createAPNSJWT` in
 * notify_match builds it: the base64url post-processing of `btoa` output, the extraction
 * of the key body from a PEM-formatted P8 certificate, and the assembly of the signed JWT.
 * `btoa`, `atob`, `JSON.stringify` and the ECDSA signature are foreign calls and enter as
 * function parameters.
 */
module ApnsAuth {
  import opened Wrappers
  import opened JsStrings
  import Json

  // ---------------------------------------------------------------------------
  // Base64url
  // ---------------------------------------------------------------------------

  /** The characters `btoa` emits before its padding. */
  predicate IsBase64Char(c: char) {
    ('A' <= c <= 'Z') || ('a' <= c <= 'z') || ('0' <= c <= '9') || c == '+' || c == '/'
  }

  /** Text made of base64 alphabet characters only (stated recursively to keep proofs cheap). */
  predicate IsBase64Text(s: string) {
    s == [] || (IsBase64Char(s[0]) && IsBase64Text(s[1..]))
  }

  lemma {:induction false} Base64TextAt(s: string)
    requires IsBase64Text(s)
    ensures forall i :: 0 <= i < |s| ==> IsBase64Char(s[i])
  {
    if s != [] {
      Base64TextAt(s[1..]);
      forall i | 1 <= i < |s| ensures IsBase64Char(s[i]) {
        assert s[i] == s[1..][i - 1];
      }
    }
  }

  /**
   * Text as `btoa` emits it, and as a PEM file carries its key body line by line: base64
   * characters and padding.
   */
  predicate IsBtoaText(s: string) {
    forall i :: 0 <= i < |s| ==> IsBase64Char(s[i]) || s[i] == '='
  }

  /** The result of `btoa`. */
  type BtoaText = s: string | IsBtoaText(s)

  function Padding(n: nat): (r: string)
    ensures |r| == n
    ensures forall i :: 0 <= i < n ==> r[i] == '='
  {
    if n == 0 then [] else "=" + Padding(n - 1)
  }

  /** `+` to `-` and `/` to `_`, in that order. */
  function UrlChars(s: string): (r: string)
    ensures |r| == |s|
    ensures '+' !in r && '/' !in r
    ensures forall x :: x != '+' && x != '/' && x != '-' && x != '_' ==> Count(r, x) == Count(s, x)
  {
    var plus := ReplaceChar(s, '+', '-');
    var slash := ReplaceChar(plus, '/', '_');
    assert '+' !in slash by {
      forall i | 0 <= i < |slash| ensures slash[i] != '+' {
        assert plus[i] != '+';
      }
    }
    slash
  }

  /** `-` to `+` and `_` to `/`: the character half of base64url decoding. */
  function StandardChars(s: string): string {
    ReplaceChar(ReplaceChar(s, '-', '+'), '_', '/')
  }

  /**
   * The base64url step applied to `btoa` output: `+` becomes `-`, `/` becomes `_`, and
   * every `=` is deleted, in that order.
   */
  function Base64Url(b64: string): (r: string)
    ensures '+' !in r && '/' !in r && '=' !in r
    ensures |r| == |b64| - Count(b64, '=')
    ensures forall x :: x != '+' && x != '/' && x != '-' && x != '_' && x != '=' ==> Count(r, x) == Count(b64, x)
  {
    DeleteChar(UrlChars(b64), '=')
  }

  /** The inverse direction: map `-` and `_` back and restore the padding to a multiple of four. */
  function Base64FromUrl(url: string): string {
    StandardChars(url) + Padding((4 - |url| % 4) % 4)
  }

  lemma {:induction false} DeletePadding(n: nat)
    ensures DeleteChar(Padding(n), '=') == []
  {
    if n > 0 {
      DeletePadding(n - 1);
      assert Padding(n)[1..] == Padding(n - 1);
    }
  }

  lemma {:induction false} UrlCharsAppend(a: string, b: string)
    ensures UrlChars(a + b) == UrlChars(a) + UrlChars(b)
  {
    ReplaceCharAppend(a, b, '+', '-');
    ReplaceCharAppend(ReplaceChar(a, '+', '-'), ReplaceChar(b, '+', '-'), '/', '_');
  }

  /** On text without padding, the base64url step is the character mapping alone. */
  lemma {:induction false} Base64UrlOfPadded(body: string, pad: nat)
    requires forall i :: 0 <= i < |body| ==> IsBase64Char(body[i])
    ensures Base64Url(body + Padding(pad)) == UrlChars(body)
  {
    var p := Padding(pad);
    UrlCharsAppend(body, p);
    assert UrlChars(p) == p;
    assert '=' !in UrlChars(body) by {
      assert Count(UrlChars(body), '=') == Count(body, '=');
      assert '=' !in body by {
        forall i | 0 <= i < |body| ensures body[i] != '=' {
          assert IsBase64Char(body[i]);
        }
      }
    }
    DeleteCharAppend(UrlChars(body), p, '=');
    DeletePadding(pad);
    assert UrlChars(body) + [] == UrlChars(body);
  }

  /** Mapping `+`/`/` to `-`/`_` and back restores every base64 character. */
  lemma {:induction false} UrlCharsBack(body: string)
    requires forall i :: 0 <= i < |body| ==> IsBase64Char(body[i])
    ensures StandardChars(UrlChars(body)) == body
  {
    var url := UrlChars(body);
    var plus := ReplaceChar(body, '+', '-');
    assert forall i :: 0 <= i < |body| ==> url[i] == (if plus[i] == '/' then '_' else plus[i]);
    var back := StandardChars(url);
    var minus := ReplaceChar(url, '-', '+');
    assert forall i :: 0 <= i < |body| ==> back[i] == (if minus[i] == '_' then '/' else minus[i]);
    forall i | 0 <= i < |body| ensures back[i] == body[i] {
      assert IsBase64Char(body[i]);
    }
  }

  /** `Base64Url` loses nothing: the padded `btoa` string comes back from its base64url form. */
  lemma {:induction false} Base64UrlRoundTrip(body: string, pad: nat)
    requires IsBase64Text(body)
    requires pad <= 2 && (|body| + pad) % 4 == 0
    ensures Base64FromUrl(Base64Url(body + Padding(pad))) == body + Padding(pad)
  {
    assert Base64Url(body + Padding(pad)) == UrlChars(body) by {
      Base64TextAt(body);
      Base64UrlOfPadded(body, pad);
    }
    UrlCharsDecode(body, pad);
  }

  lemma {:induction false} UrlCharsDecode(body: string, pad: nat)
    requires IsBase64Text(body)
    requires pad <= 2 && (|body| + pad) % 4 == 0
    ensures Base64FromUrl(UrlChars(body)) == body + Padding(pad)
  {
    var url := UrlChars(body);
    assert |url| == |body|;
    RestoredPadding(url, pad);
    Base64TextAt(body);
    UrlCharsBack(body);
  }

  /** Decoding restores exactly the padding that made the length a multiple of four. */
  lemma RestoredPadding(url: string, pad: nat)
    requires pad <= 2 && (|url| + pad) % 4 == 0
    ensures Base64FromUrl(url) == StandardChars(url) + Padding(pad)
  {
    assert (4 - |url| % 4) % 4 == pad;
  }

  // ---------------------------------------------------------------------------
  // Key extraction from the P8 certificate
  // ---------------------------------------------------------------------------

  const BeginMarker := "-----BEGIN"
  const EndMarker := "-----END"
  const NoKeyDataMessage := "Invalid P8 certificate format: no key data found"

  /**
   * The three line-ending rewrites, in order: the two characters backslash and `n`, then
   * CRLF, then a lone CR, each to LF.
   */
  function NormalizeLineEndings(text: string): (r: string)
    ensures '\r' !in r
  {
    ReplaceChar(ReplacePair(ReplacePair(text, '\\', 'n', '\n'), '\r', '\n', '\n'), '\r', '\n')
  }

  predicate KeepLine(line: string) {
    !Contains(line, BeginMarker) && !Contains(line, EndMarker)
  }

  /** `lines.filter(line => !line.includes('-----BEGIN') && !line.includes('-----END'))`. */
  function KeptLines(lines: seq<string>): (r: seq<string>)
    ensures |r| <= |lines|
    ensures forall k :: 0 <= k < |r| ==> KeepLine(r[k]) && r[k] in lines
    ensures forall line :: line in lines && KeepLine(line) ==> line in r
    ensures |lines| == 1 ==> r == if KeepLine(lines[0]) then lines else []
  {
    if lines == [] then []
    else if KeepLine(lines[0]) then [lines[0]] + KeptLines(lines[1..])
    else KeptLines(lines[1..])
  }

  /**
   * The key body of a P8 certificate: normalise line endings, split into lines, drop the
   * marker lines, join the rest and delete every whitespace character. Nothing left is an error.
   */
  function ExtractKeyData(certificate: string): (r: Result<string, string>)
    ensures r.Ok? ==> r.value != [] && forall i :: 0 <= i < |r.value| ==> !IsWhitespace(r.value[i])
    ensures r.Err? ==> r.error == NoKeyDataMessage
    ensures r.Err? <==> forall line :: line in Split(NormalizeLineEndings(certificate), '\n') && KeepLine(line)
                                       ==> AllWhitespace(line)
  {
    var lines := Split(NormalizeLineEndings(certificate), '\n');
    var kept := KeptLines(lines);
    var keyData := StripWhitespace(Concat(kept));
    ConcatAllWhitespace(kept);
    assert (forall line :: line in kept ==> AllWhitespace(line))
           <==> (forall line :: line in lines && KeepLine(line) ==> AllWhitespace(line)) by {
      assert forall line :: line in kept <==> line in lines && KeepLine(line) by {
        forall line | line in kept ensures line in lines && KeepLine(line) {
          var k :| 0 <= k < |kept| && kept[k] == line;
        }
      }
    }
    if keyData == [] then Err(NoKeyDataMessage) else Ok(keyData)
  }

  /** The filter distributes over a split of its input. */
  lemma {:induction false} KeptLinesAppend(a: seq<string>, b: seq<string>)
    ensures KeptLines(a + b) == KeptLines(a) + KeptLines(b)
  {
    if a == [] {
      assert a + b == b;
    } else {
      assert (a + b)[1..] == a[1..] + b;
      KeptLinesAppend(a[1..], b);
    }
  }

  /** A marker line holds no line-ending character and no backslash. */
  predicate IsMarkerLine(line: string, marker: string) {
    Contains(line, marker) && '\n' !in line && '\r' !in line && '\\' !in line
  }

  /** The line separators the extraction accepts: LF, CRLF, CR and the escaped `\n` of an environment variable. */
  predicate IsLineSeparator(sep: string) {
    sep == "\n" || sep == "\r\n" || sep == "\r" || sep == "\\n"
  }

  predicate CleanLine(line: string) {
    '\n' !in line && '\r' !in line && '\\' !in line
  }

  lemma {:induction false} BodyLineIsClean(line: string)
    requires IsBtoaText(line)
    ensures CleanLine(line) && !IsWhitespace('-') && '-' !in line
    ensures KeepLine(line)
  {
    assert '-' !in line by {
      forall i | 0 <= i < |line| ensures line[i] != '-' {
        assert IsBase64Char(line[i]) || line[i] == '=';
      }
    }
    ContainsNeedsFirstChar(line, BeginMarker);
    ContainsNeedsFirstChar(line, EndMarker);
  }

  /** Every line-ending style normalises a join of clean lines to the same LF-separated text. */
  lemma {:induction false} NormalizeJoin(lines: seq<string>, sep: string)
    requires lines != []
    requires IsLineSeparator(sep)
    requires forall k :: 0 <= k < |lines| ==> CleanLine(lines[k])
    ensures NormalizeLineEndings(JoinWith(lines, sep)) == JoinWith(lines, "\n")
  {
    var lf := JoinWith(lines, "\n");
    if sep == "\\n" {
      ReplacePairJoin(lines, '\\', 'n', '\n');
      JoinWithExcludes(lines, "\n", '\r');
      ReplacePairAbsent(lf, '\r', '\n', '\n');
    } else if sep == "\r\n" {
      JoinWithExcludes(lines, sep, '\\');
      ReplacePairAbsent(JoinWith(lines, sep), '\\', 'n', '\n');
      ReplacePairJoin(lines, '\r', '\n', '\n');
      JoinWithExcludes(lines, "\n", '\r');
    } else if sep == "\r" {
      var cr := JoinWith(lines, sep);
      JoinWithExcludes(lines, sep, '\\');
      ReplacePairAbsent(cr, '\\', 'n', '\n');
      JoinWithExcludes(lines, sep, '\n');
      ReplacePairAbsent(cr, '\r', '\n', '\n');
      ReplaceCharJoin(lines, '\r', '\n');
    } else {
      JoinWithExcludes(lines, sep, '\\');
      ReplacePairAbsent(lf, '\\', 'n', '\n');
      JoinWithExcludes(lines, sep, '\r');
      ReplacePairAbsent(lf, '\r', '\n', '\n');
    }
  }

  lemma {:induction false} KeptBodyThenFooter(body: seq<string>, footer: string)
    requires forall k :: 0 <= k < |body| ==> IsBtoaText(body[k])
    requires Contains(footer, EndMarker)
    ensures KeptLines(body + [footer]) == body
  {
    if body == [] {
      assert [] + [footer] == [footer];
    } else {
      BodyLineIsClean(body[0]);
      assert (body + [footer])[1..] == body[1..] + [footer];
      KeptBodyThenFooter(body[1..], footer);
    }
  }

  lemma {:induction false} ConcatBodyLines(body: seq<string>)
    requires forall k :: 0 <= k < |body| ==> IsBtoaText(body[k])
    ensures IsBtoaText(Concat(body))
  {
    if body != [] {
      ConcatBodyLines(body[1..]);
      var c := Concat(body);
      forall i | 0 <= i < |c| ensures IsBase64Char(c[i]) || c[i] == '=' {
        if i >= |body[0]| {
          assert c[i] == Concat(body[1..])[i - |body[0]|];
        }
      }
    }
  }

  /**
   * A certificate made of a BEGIN line, body lines and an END line, separated by any
   * accepted line ending, yields exactly the concatenated body lines.
   */
  lemma {:induction false} ExtractKeyDataOfPem(header: string, body: seq<string>, footer: string, sep: string)
    requires IsMarkerLine(header, BeginMarker) && IsMarkerLine(footer, EndMarker)
    requires forall k :: 0 <= k < |body| ==> IsBtoaText(body[k])
    requires IsLineSeparator(sep)
    ensures ExtractKeyData(JoinWith([header] + body + [footer], sep))
            == if Concat(body) == [] then Err(NoKeyDataMessage) else Ok(Concat(body))
  {
    var lines := [header] + body + [footer];
    PemLinesClean(header, body, footer);
    NormalizeJoin(lines, sep);
    SplitJoin(lines, '\n');
    KeptPemLines(header, body, footer);
    BodyHasNoWhitespace(body);
  }

  /**
   * The same certificate ending with a line separator: the split then yields a final empty
   * line, which the filter keeps and which adds nothing to the key.
   */
  lemma {:induction false} ExtractKeyDataOfPemFile(header: string, body: seq<string>, footer: string, sep: string)
    requires IsMarkerLine(header, BeginMarker) && IsMarkerLine(footer, EndMarker)
    requires forall k :: 0 <= k < |body| ==> IsBtoaText(body[k])
    requires IsLineSeparator(sep)
    ensures ExtractKeyData(JoinWith([header] + body + [footer], sep) + sep)
            == if Concat(body) == [] then Err(NoKeyDataMessage) else Ok(Concat(body))
  {
    var pem := [header] + body + [footer];
    var lines := pem + [""];
    JoinWithFinalEmpty(pem, sep);
    PemLinesClean(header, body, footer);
    assert forall k :: 0 <= k < |lines| ==> CleanLine(lines[k]) by {
      assert forall k :: 0 <= k < |pem| ==> lines[k] == pem[k];
    }
    NormalizeJoin(lines, sep);
    SplitJoin(lines, '\n');
    KeptLinesAppend(pem, [""]);
    KeptPemLines(header, body, footer);
    ContainsNeedsFirstChar("", BeginMarker);
    ContainsNeedsFirstChar("", EndMarker);
    ConcatAppend(body, [""]);
    assert Concat([""]) == "";
    assert Concat(body + [""]) == Concat(body);
    BodyHasNoWhitespace(body);
  }

  lemma PemLinesClean(header: string, body: seq<string>, footer: string)
    requires IsMarkerLine(header, BeginMarker) && IsMarkerLine(footer, EndMarker)
    requires forall k :: 0 <= k < |body| ==> IsBtoaText(body[k])
    ensures forall k :: 0 <= k < |[header] + body + [footer]| ==> CleanLine(([header] + body + [footer])[k])
  {
    var lines := [header] + body + [footer];
    forall k | 0 <= k < |lines| ensures CleanLine(lines[k]) {
      if 0 < k < |lines| - 1 {
        assert lines[k] == body[k - 1];
        BodyLineIsClean(body[k - 1]);
      }
    }
  }

  lemma KeptPemLines(header: string, body: seq<string>, footer: string)
    requires IsMarkerLine(header, BeginMarker) && IsMarkerLine(footer, EndMarker)
    requires forall k :: 0 <= k < |body| ==> IsBtoaText(body[k])
    ensures KeptLines([header] + body + [footer]) == body
  {
    DroppedFirstLine(header, body, footer);
    KeptBodyThenFooter(body, footer);
  }

  /** A marker line is filtered out. */
  lemma DroppedFirstLine(header: string, body: seq<string>, footer: string)
    requires IsMarkerLine(header, BeginMarker)
    ensures KeptLines([header] + body + [footer]) == KeptLines(body + [footer])
  {
    assert ([header] + body + [footer])[1..] == body + [footer];
  }

  lemma BodyHasNoWhitespace(body: seq<string>)
    requires forall k :: 0 <= k < |body| ==> IsBtoaText(body[k])
    ensures StripWhitespace(Concat(body)) == Concat(body)
  {
    ConcatBodyLines(body);
    var c := Concat(body);
    forall i | 0 <= i < |c| ensures !IsWhitespace(c[i]) {
      assert IsBase64Char(c[i]) || c[i] == '=';
    }
  }

  // ---------------------------------------------------------------------------
  // JWT assembly
  // ---------------------------------------------------------------------------

  /** The three environment values; `None` is an unset variable. */
  datatype Credentials = Credentials(teamId: Option<string>, keyId: Option<string>, p8Base64: Option<string>)

  /** The foreign calls `createAPNSJWT` makes; each Err carries the message of the exception thrown. */
  datatype Crypto = Crypto(
    atob: string -> Result<string, string>,                 // decoding of the certificate
    encodeJson: Json.Value -> Result<BtoaText, string>,      // btoa(JSON.stringify(value)); btoa throws above U+00FF
    sign: (string, string) -> Result<BtoaText, string>)      // key import and signature of the message, btoa'd

  /** `!value` for an environment variable: unset or empty. */
  predicate Missing(v: Option<string>) {
    v == None || v == Some("")
  }

  predicate Present(creds: Credentials) {
    !Missing(creds.teamId) && !Missing(creds.keyId) && !Missing(creds.p8Base64)
  }

  const MissingCredentialsMessage := "Missing APNS credentials: APPLE_TEAM_ID, APNS_KEY_ID, or APNS_P8_CERTIFICATE"
  const DecodeFailurePrefix := "Failed to decode base64 certificate: "
  const SignFailurePrefix := "Failed to create APNS JWT: "

  function JwtHeader(keyId: string): Json.Value {
    Json.JObject(map["alg" := Json.JString("ES256"), "kid" := Json.JString(keyId)])
  }

  function JwtClaims(teamId: string, issuedAt: int): Json.Value {
    Json.JObject(map["iss" := Json.JString(teamId), "iat" := Json.JNumber(issuedAt)])
  }

  /** The signed part of the token: the base64url header and claims joined by a dot. */
  function SigningInput(header: string, claims: string): string {
    Base64Url(header) + "." + Base64Url(claims)
  }

  /**
   * `createAPNSJWT`: checks the credentials, decodes the certificate, encodes header and
   * claims, extracts the key and signs `header.claims`; each failure is the message of the
   * error the function throws. An exception of `btoa` while encoding header or claims is
   * outside every try block and keeps its own message.
   */
  function CreateApnsJwt(creds: Credentials, crypto: Crypto, nowSeconds: int): (r: Result<string, string>)
    ensures !Present(creds) ==> r == Err(MissingCredentialsMessage)
    ensures Present(creds) && crypto.atob(creds.p8Base64.value).Err?
            ==> r == Err(DecodeFailurePrefix + crypto.atob(creds.p8Base64.value).error)
    ensures Present(creds) && crypto.atob(creds.p8Base64.value).Ok?
            && crypto.encodeJson(JwtHeader(creds.keyId.value)).Err?
            ==> r == Err(crypto.encodeJson(JwtHeader(creds.keyId.value)).error)
    ensures Present(creds) && crypto.atob(creds.p8Base64.value).Ok?
            && crypto.encodeJson(JwtHeader(creds.keyId.value)).Ok?
            && crypto.encodeJson(JwtClaims(creds.teamId.value, nowSeconds)).Err?
            ==> r == Err(crypto.encodeJson(JwtClaims(creds.teamId.value, nowSeconds)).error)
    ensures Present(creds) && crypto.atob(creds.p8Base64.value).Ok?
            && crypto.encodeJson(JwtHeader(creds.keyId.value)).Ok?
            && crypto.encodeJson(JwtClaims(creds.teamId.value, nowSeconds)).Ok?
            && ExtractKeyData(crypto.atob(creds.p8Base64.value).value).Err?
            ==> r == Err(NoKeyDataMessage)
    ensures Present(creds) && crypto.atob(creds.p8Base64.value).Ok?
            && crypto.encodeJson(JwtHeader(creds.keyId.value)).Ok?
            && crypto.encodeJson(JwtClaims(creds.teamId.value, nowSeconds)).Ok?
            && ExtractKeyData(crypto.atob(creds.p8Base64.value).value).Ok?
            ==> var header := crypto.encodeJson(JwtHeader(creds.keyId.value)).value;
                var claims := crypto.encodeJson(JwtClaims(creds.teamId.value, nowSeconds)).value;
                var signature := crypto.sign(ExtractKeyData(crypto.atob(creds.p8Base64.value).value).value,
                                             SigningInput(header, claims));
                && (signature.Err? ==> r == Err(SignFailurePrefix + signature.error))
                && (signature.Ok? ==> r.Ok? && Split(r.value, '.')
                                               == [Base64Url(header), Base64Url(claims), Base64Url(signature.value)])
    ensures r.Ok? ==> '+' !in r.value && '/' !in r.value && '=' !in r.value
    ensures r.Ok? ==> Present(creds) && crypto.atob(creds.p8Base64.value).Ok?
                      && crypto.encodeJson(JwtHeader(creds.keyId.value)).Ok?
                      && crypto.encodeJson(JwtClaims(creds.teamId.value, nowSeconds)).Ok?
                      && ExtractKeyData(crypto.atob(creds.p8Base64.value).value).Ok?
  {
    if !Present(creds) then
      Err(MissingCredentialsMessage)
    else match crypto.atob(creds.p8Base64.value)
      case Err(m) => Err(DecodeFailurePrefix + m)
      case Ok(certificate) =>
        match crypto.encodeJson(JwtHeader(creds.keyId.value))
        case Err(m) => Err(m)
        case Ok(header) =>
          match crypto.encodeJson(JwtClaims(creds.teamId.value, nowSeconds))
          case Err(m) => Err(m)
          case Ok(claims) =>
            var message := SigningInput(header, claims);
            match ExtractKeyData(certificate)
            case Err(m) => Err(m)
            case Ok(keyData) =>
              match crypto.sign(keyData, message)
              case Err(m) => Err(SignFailurePrefix + m)
              case Ok(signature) =>
                JwtSegments(header, claims, signature);
                Ok(message + "." + Base64Url(signature))
  }

  /** A base64url segment has no dot, so a token splits back into header, claims and signature. */
  lemma JwtSegments(header: BtoaText, claims: BtoaText, signature: BtoaText)
    ensures Split(SigningInput(header, claims) + "." + Base64Url(signature), '.')
            == [Base64Url(header), Base64Url(claims), Base64Url(signature)]
  {
    NoDotInSegment(header);
    NoDotInSegment(claims);
    NoDotInSegment(signature);
    SplitThree(Base64Url(header), Base64Url(claims), Base64Url(signature));
  }

  lemma SplitThree(a: string, b: string, c: string)
    requires '.' !in a && '.' !in b && '.' !in c
    ensures Split(a + "." + b + "." + c, '.') == [a, b, c]
  {
    SplitSingleSegment(c, '.');
    SplitAfterSegment(b, c, '.');
    assert a + "." + b + "." + c == a + ['.'] + (b + ['.'] + c);
    SplitAfterSegment(a, b + ['.'] + c, '.');
  }

  lemma NoDotInSegment(text: BtoaText)
    ensures '.' !in Base64Url(text)
  {
    assert '.' !in text by {
      forall i | 0 <= i < |text| ensures text[i] != '.' {
        assert IsBase64Char(text[i]) || text[i] == '=';
      }
    }
    assert Count(Base64Url(text), '.') == Count(text, '.');
  }
}
