/** The demo identity provider's authorization requests, codes and tokens. */
module Oidc {
  import opened Text
  import opened Base64
  import opened Secrets
  import opened Subjects
  import opened Platform

  /** What a request fails with: an OAuth error code and an HTTP status. */
  datatype Result<+T> = Ok(value: T) | Err(code: string, status: int)

  function RedirectURI(config: Config): string {
    config.baseURL + "/api/auth/sso/callback/scim-demo-sso"
  }

  // ----- Authorization requests -----

  datatype Param =
    ResponseType | ClientId | Redirect | Scope | State | CodeChallenge | CodeChallengeMethod | Nonce | LoginHint

  /** All values given for each parameter; reading takes the first. */
  type Params = map<Param, seq<string>>

  function Read(params: Params, p: Param): Option<string> {
    if p in params && params[p] != [] then Some(params[p][0]) else None
  }

  datatype Request = Request(
    clientId: string,
    codeChallenge: string,
    codeChallengeMethod: string,
    loginHint: Option<string>,
    nonce: Option<string>,
    redirectURI: string,
    responseType: string,
    scope: string,
    state: string)

  const SCOPES := ["openid", "email", "profile"]
  const MAX_LENGTH := 2048

  predicate IsPkceChar(c: char) {
    'A' <= c <= 'Z' || 'a' <= c <= 'z' || '0' <= c <= '9' || c in "._~-"
  }

  predicate IsPkceValue(s: string) {
    43 <= |s| <= 128 && forall c | c in s :: IsPkceChar(c)
  }

  function WordLength(s: string): (n: nat)
    ensures n <= |s| && forall c | c in s[..n] :: !IsSpace(c)
    ensures n < |s| ==> IsSpace(s[n])
  {
    if s == "" || IsSpace(s[0]) then 0 else 1 + WordLength(s[1..])
  }

  lemma {:induction false} TrimStartShorter(s: string)
    ensures |TrimStart(s)| <= |s|
  {
    if s != "" && IsSpace(s[0]) {
      TrimStartShorter(s[1..]);
    }
  }

  /** Splitting at runs of white space. */
  function Words(s: string): (words: seq<string>)
    ensures |words| > 0
    decreases |s|
  {
    var n := WordLength(s);
    if n == |s| then [s]
    else
      TrimStartShorter(s[n + 1..]);
      [s[..n]] + Words(TrimStart(s[n + 1..]))
  }

  function RequestedScopes(params: Params): seq<string> {
    var scope := Read(params, Scope);
    if scope.None? then [] else Words(Trim(scope.value))
  }

  function Keep(scopes: seq<string>, requested: seq<string>): (kept: seq<string>)
    ensures forall s :: s in kept <==> s in scopes && s in requested
  {
    if scopes == [] then []
    else if scopes[0] in requested then [scopes[0]] + Keep(scopes[1..], requested)
    else Keep(scopes[1..], requested)
  }

  predicate AllSupported(requested: seq<string>) {
    forall s | s in requested :: s in SCOPES
  }

  function NonEmptyValue(value: Option<string>): Option<string> {
    if value == Some("") then None else value
  }

  predicate TooLong(value: Option<string>) {
    value.Some? && |value.value| > MAX_LENGTH
  }

  function ParseAuthorizationRequest(config: Config, params: Params): Result<Request> {
    var requested := RequestedScopes(params);
    var state := Read(params, State);
    var codeChallenge := Read(params, CodeChallenge);
    if Read(params, ResponseType) != Some("code") then Err("unsupported_response_type", 400)
    else if Read(params, ClientId) != Some(CLIENT_ID) then Err("unauthorized_client", 400)
    else if Read(params, Redirect) != Some(RedirectURI(config)) then Err("invalid_request", 400)
    else if "openid" !in requested then Err("invalid_scope", 400)
    else if !AllSupported(requested) then Err("invalid_scope", 400)
    else if state.None? || state.value == "" || TooLong(state) then Err("invalid_request", 400)
    else if TooLong(Read(params, Nonce)) then Err("invalid_request", 400)
    else if TooLong(Read(params, LoginHint)) then Err("invalid_request", 400)
    else if codeChallenge.None? || !IsPkceValue(codeChallenge.value) then Err("invalid_request", 400)
    else if Read(params, CodeChallengeMethod) != Some("S256") then Err("invalid_request", 400)
    else
      Ok(Request(CLIENT_ID, codeChallenge.value, "S256", NonEmptyValue(Read(params, LoginHint)),
                 NonEmptyValue(Read(params, Nonce)), RedirectURI(config), "code", Join(Keep(SCOPES, requested), " "),
                   state.value))
  }

  function OrEmpty(value: Option<string>): string {
    if value.None? then "" else value.value
  }

  function Field(r: Request, p: Param): string {
    match p
    case ClientId => r.clientId
    case Redirect => r.redirectURI
    case ResponseType => r.responseType
    case Scope => r.scope
    case State => r.state
    case CodeChallenge => r.codeChallenge
    case CodeChallengeMethod => r.codeChallengeMethod
    case Nonce => OrEmpty(r.nonce)
    case LoginHint => OrEmpty(r.loginHint)
  }

  const PARAMS := {ResponseType, ClientId, Redirect, Scope, State, CodeChallenge, CodeChallengeMethod, Nonce, LoginHint}

  /** The fields as a submitted form. */
  function FormParams(r: Request): Params {
    map p | p in PARAMS :: [Field(r, p)]
  }

  /** The fields as the query of the authorization page, which leaves empty ones out. */
  function PageParams(r: Request): Params {
    map p | p in PARAMS && Field(r, p) != "" :: [Field(r, p)]
  }

  // ----- Scopes read back -----

  predicate IsWord(s: string) {
    s != "" && forall c | c in s :: !IsSpace(c)
  }

  lemma {:induction false} WordLengthOf(word: string, rest: string)
    requires (forall c | c in word :: !IsSpace(c)) && (rest == "" || IsSpace(rest[0]))
    ensures WordLength(word + rest) == |word|
  {
    if word == "" {
      assert word + rest == rest;
    } else {
      assert (word + rest)[1..] == word[1..] + rest;
      WordLengthOf(word[1..], rest);
    }
  }

  lemma {:induction false} WordsSplit(s: string, n: nat, rest: string)
    requires n == WordLength(s) < |s| && rest == TrimStart(s[n + 1..])
    ensures Words(s) == [s[..n]] + Words(rest)
  {
  }

  lemma {:induction false} WordsStep(word: string, rest: string)
    requires IsWord(word) && rest != "" && !IsSpace(rest[0])
    ensures Words(word + (" " + rest)) == [word] + Words(rest)
  {
    var s := word + (" " + rest);
    WordLengthOf(word, " " + rest);
    assert s[..|word|] == word && s[|word| + 1..] == rest;
    WordsSplit(s, |word|, rest);
  }

  lemma {:induction false} WordsOfWord(word: string)
    requires IsWord(word)
    ensures Words(word) == [word]
  {
    WordLengthOf(word, "");
    assert word + "" == word;
  }

  lemma {:induction false} JoinedWords(words: seq<string>)
    requires words != [] && forall word | word in words :: IsWord(word)
    ensures var joined := Join(words, " "); joined != "" && !IsSpace(joined[0]) && !IsSpace(joined[|joined| - 1])
  {
    assert IsWord(words[0]);
    if |words| > 1 {
      JoinedWords(words[1..]);
    }
  }

  lemma {:induction false} WordsOfJoin(words: seq<string>)
    requires words != [] && forall word | word in words :: IsWord(word)
    ensures Words(Join(words, " ")) == words
  {
    assert IsWord(words[0]);
    if |words| == 1 {
      WordsOfWord(words[0]);
    } else {
      JoinedWords(words[1..]);
      WordsOfJoin(words[1..]);
      WordsStep(words[0], Join(words[1..], " "));
      Associative(words[0], " ", Join(words[1..], " "));
    }
  }

  lemma ScopesAreWords()
    ensures forall s | s in SCOPES :: IsWord(s)
  {
  }

  lemma {:induction false} KeepIsOrdered(requested: seq<string>)
    ensures Keep(SCOPES, Keep(SCOPES, requested)) == Keep(SCOPES, requested)
  {
    KeepSame(SCOPES, requested, Keep(SCOPES, requested));
  }

  lemma {:induction false} KeepSame(scopes: seq<string>, left: seq<string>, right: seq<string>)
    requires forall s | s in scopes :: s in left <==> s in right
    ensures Keep(scopes, left) == Keep(scopes, right)
  {
    if scopes != [] {
      assert scopes[0] in scopes;
      KeepSame(scopes[1..], left, right);
    }
  }

  /** A normalised scope reads back as the scopes it lists. */
  lemma {:induction false} NormalisedReads(requested: seq<string>)
    requires "openid" in requested
    ensures var scope := Join(Keep(SCOPES, requested), " ");
            scope != "" && Words(Trim(scope)) == Words(scope) == Keep(SCOPES, requested)
  {
    ScopesAreWords();
    assert "openid" in SCOPES;
    var kept := Keep(SCOPES, requested);
    assert "openid" in kept;
    JoinedWords(kept);
    WordsOfJoin(kept);
    TrimOfTrimmed(Join(kept, " "));
  }

  lemma ScopesDistinct()
    ensures forall i, j | 0 <= i < j < |SCOPES| :: SCOPES[i] != SCOPES[j]
  {
  }

  lemma {:induction false} KeepDistinct(scopes: seq<string>, requested: seq<string>)
    requires forall i, j | 0 <= i < j < |scopes| :: scopes[i] != scopes[j]
    ensures forall i, j | 0 <= i < j < |Keep(scopes, requested)| ::
            Keep(scopes, requested)[i] != Keep(scopes, requested)[j]
  {
    if scopes != [] {
      KeepDistinct(scopes[1..], requested);
      assert scopes[0] !in scopes[1..];
    }
  }

  /** The normalised scope lists exactly the requested scopes, each once, in the provider's order. */
  lemma NormalisedScope(config: Config, params: Params)
    requires ParseAuthorizationRequest(config, params).Ok?
    ensures var listed := Words(ParseAuthorizationRequest(config, params).value.scope);
            && listed == Keep(SCOPES, RequestedScopes(params))
            && (forall s :: s in listed <==> s in RequestedScopes(params))
            && (forall i, j | 0 <= i < j < |listed| :: listed[i] != listed[j])
  {
    var requested := RequestedScopes(params);
    NormalisedReads(requested);
    ScopesDistinct();
    KeepDistinct(SCOPES, requested);
    assert AllSupported(requested);
  }

  /** Parameters that say the same as a request, with absent values for its optional ones or empty ones. */
  predicate Says(params: Params, r: Request) {
    && Read(params, ResponseType) == Some(r.responseType)
    && Read(params, ClientId) == Some(r.clientId)
    && Read(params, Redirect) == Some(r.redirectURI)
    && Read(params, Scope) == Some(r.scope)
    && Read(params, State) == Some(r.state)
    && Read(params, CodeChallenge) == Some(r.codeChallenge)
    && Read(params, CodeChallengeMethod) == Some(r.codeChallengeMethod)
    && NonEmptyValue(Read(params, Nonce)) == r.nonce
    && NonEmptyValue(Read(params, LoginHint)) == r.loginHint
  }

  /** Any parameters that say the same as a parsed request parse to it again. */
  lemma ParseAgain(config: Config, params: Params, again: Params)
    requires ParseAuthorizationRequest(config, params).Ok?
    requires Says(again, ParseAuthorizationRequest(config, params).value)
    ensures ParseAuthorizationRequest(config, again) == ParseAuthorizationRequest(config, params)
  {
    var requested := RequestedScopes(params);
    NormalisedReads(requested);
    assert RequestedScopes(again) == Keep(SCOPES, requested);
    assert "openid" in SCOPES && "openid" in RequestedScopes(again);
    assert AllSupported(RequestedScopes(again));
    KeepIsOrdered(requested);
  }

  /** No required field is empty, and an optional one is absent rather than empty. */
  predicate IsComplete(r: Request) {
    && r.clientId != "" && r.redirectURI != "" && r.responseType != "" && r.scope != "" && r.state != ""
    && r.codeChallenge != "" && r.codeChallengeMethod != ""
    && r.nonce != Some("") && r.loginHint != Some("")
  }

  lemma FixedFieldsNotEmpty(config: Config)
    ensures RedirectURI(config) != "" && CLIENT_ID != "" && "code" != "" && "S256" != ""
  {
    assert RedirectURI(config)[|config.baseURL|] == '/';
  }

  lemma ParsedIsComplete(config: Config, params: Params)
    requires ParseAuthorizationRequest(config, params).Ok?
    ensures IsComplete(ParseAuthorizationRequest(config, params).value)
  {
    FixedFieldsNotEmpty(config);
    NormalisedReads(RequestedScopes(params));
  }

  lemma WrittenReads(r: Request, p: Param)
    ensures Read(FormParams(r), p) == Some(Field(r, p))
    ensures Read(PageParams(r), p) == if Field(r, p) == "" then None else Some(Field(r, p))
  {
    assert p in PARAMS;
  }

  /** Writing a complete request out, either way, says the same as the request. */
  lemma WrittenSays(r: Request)
    requires IsComplete(r)
    ensures Says(FormParams(r), r) && Says(PageParams(r), r)
  {
    forall p ensures
        && Read(FormParams(r), p) == Some(Field(r, p))
        && Read(PageParams(r), p) == if Field(r, p) == "" then None else Some(Field(r, p))
    {
      WrittenReads(r, p);
    }
  }

  /** A parsed request survives both ways of passing it on: as form fields and as a page URL. */
  lemma RequestRoundTrip(config: Config, params: Params)
    requires ParseAuthorizationRequest(config, params).Ok?
    ensures var r := ParseAuthorizationRequest(config, params).value;
            && ParseAuthorizationRequest(config, FormParams(r)) == Ok(r)
            && ParseAuthorizationRequest(config, PageParams(r)) == Ok(r)
  {
    var r := ParseAuthorizationRequest(config, params).value;
    ParsedIsComplete(config, params);
    WrittenSays(r);
    ParseAgain(config, params, FormParams(r));
    ParseAgain(config, params, PageParams(r));
  }

  // ----- Authorization codes -----

  datatype CodeRecord = CodeRecord(
    clientId: string,
    codeChallenge: string,
    connectionId: string,
    email: string,
    name: string,
    nonce: Option<string>,
    redirectURI: string,
    scope: string,
    subject: string,
    userKey: string)

  /** A verified employee of one connection. */
  datatype Identity = Identity(
    connectionId: string,
    displayName: string,
    email: string,
    scimUserId: string,
    subject: string,
    userId: string,
    userKey: string)

  function DirectoryName(userKey: string): string {
    if userKey == "maya-chen" then "Maya Chen"
    else if userKey == "julian-foster" then "Julian Foster"
    else "Priya Shah"
  }

  /** The record behind a new code; the identity must still resolve to its own directory user. */
  function AuthorizeCode(config: Config, params: Params, identity: Identity): Result<CodeRecord> {
    var request := ParseAuthorizationRequest(config, params);
    if request.Err? then Err(request.code, request.status)
    else if config.resolveSubject(identity.connectionId, identity.subject) != Some(identity.userKey) then
      Err("access_denied", 400)
    else if identity.userKey !in USER_KEYS then Err("access_denied", 400)
    else
      var r := request.value;
      Ok(CodeRecord(r.clientId, r.codeChallenge, identity.connectionId, identity.email, DirectoryName(identity.userKey),
                    r.nonce, r.redirectURI, r.scope, identity.subject, identity.userKey))
  }

  // ----- Exchanging a code -----

  datatype TokenForm = TokenForm(
    grantType: Option<string>,
    clientId: Option<string>,
    clientSecret: Option<string>,
    code: Option<string>,
    redirectURI: Option<string>,
    codeVerifier: Option<string>)

  datatype IdToken = IdToken(
    connectionId: string,
    email: string,
    name: string,
    nonce: Option<string>,
    audience: string,
    subject: string,
    issuedAt: int,
    expiresAt: int)

  datatype TokenResponse = TokenResponse(idToken: IdToken, scope: string, expiresIn: int)

  const TOKEN_TTL_SECONDS := 300

  predicate IsMissing(value: Option<string>) {
    value.None? || value.value == ""
  }

  predicate Matches(config: Config, left: string, right: string) {
    SecretsEqual(config.utf8(left), config.utf8(right))
  }

  /** The challenge that belongs to a verifier: the S256 method of section 4.6 of RFC 7636. */
  function Challenge(config: Config, verifier: string): string {
    Encode(config.sha256(config.utf8(verifier)))
  }

  /** The checks before the code is looked at: the code, redirect URI and verifier, or an error. */
  function CheckForm(config: Config, form: TokenForm): Result<(string, string, string)> {
    CheckFields(form, !IsMissing(form.clientSecret) && Matches(config, form.clientSecret.value, config.clientSecret))
  }

  /** The same, once the client's secret has been compared. */
  function CheckFields(form: TokenForm, clientKnown: bool): Result<(string, string, string)> {
    if form.grantType != Some("authorization_code") then Err("unsupported_grant_type", 400)
    else if form.clientId != Some(CLIENT_ID) then Err("invalid_client", 401)
    else if !clientKnown then Err("invalid_client", 401)
    else if IsMissing(form.code) || IsMissing(form.redirectURI) || IsMissing(form.codeVerifier) then
      Err("invalid_request", 400)
    else if !IsPkceValue(form.codeVerifier.value) then Err("invalid_grant", 400)
    else Ok((form.code.value, form.redirectURI.value, form.codeVerifier.value))
  }

  /** The checks on a consumed record, and the token response. */
  function RedeemRecord(config: Config, record: CodeRecord, redirectURI: string, verifier: string, now: int)
    : Result<TokenResponse>
  {
    RedeemVerified(config, record, redirectURI, Matches(config, Challenge(config, verifier), record.codeChallenge), now)
  }

  /** The same, once the verifier has been compared. */
  function RedeemVerified(config: Config, record: CodeRecord, redirectURI: string, verified: bool, now: int)
    : Result<TokenResponse>
  {
    if record.userKey !in USER_KEYS then Err("invalid_grant", 400)
    else if record.clientId != CLIENT_ID || record.redirectURI != redirectURI || redirectURI != RedirectURI(config) then
      Err("invalid_grant", 400)
    else if !verified then Err("invalid_grant", 400)
    else
      var issuedAt := now / 1000;
      var idToken := IdToken(record.connectionId, record.email, record.name, NonEmptyValue(record.nonce), CLIENT_ID,
                             record.subject, issuedAt, issuedAt + TOKEN_TTL_SECONDS);
      Ok(TokenResponse(idToken, record.scope, TOKEN_TTL_SECONDS))
  }
}
