/** Which requests the provider accepts and what it answers, said of the submitted fields themselves. */
module OidcChecks {
  import opened Text
  import opened Base64
  import opened Secrets
  import opened Subjects
  import opened Platform
  import opened Oidc

  // ----- Words of a text -----

  /** The word stands in the text between white space or the text's ends. */
  ghost predicate HasWord(text: string, word: string) {
    IsWord(word) && exists i: nat :: WordAt(text, word, i)
  }

  predicate WordAt(text: string, word: string, i: nat) {
    && OccursAt(text, word, i)
    && (i == 0 || IsSpace(text[i - 1]))
    && (i + |word| == |text| || IsSpace(text[i + |word|]))
  }

  lemma WordCharacters(text: string, word: string, i: nat)
    requires WordAt(text, word, i) && IsWord(word)
    ensures forall k | i <= k < i + |word| :: !IsSpace(text[k])
  {
    forall k | i <= k < i + |word| ensures !IsSpace(text[k]) {
      assert text[i..i + |word|][k - i] == text[k] && word[k - i] in word;
    }
  }

  lemma {:induction false} FirstCharacters(text: string)
    ensures forall k | 0 <= k < WordLength(text) :: !IsSpace(text[k])
  {
    forall k | 0 <= k < WordLength(text) ensures !IsSpace(text[k]) {
      assert text[..WordLength(text)][k] in text[..WordLength(text)];
    }
  }

  lemma WordAfterSpace(text: string, word: string, i: nat)
    requires text != "" && IsSpace(text[0]) && IsWord(word)
    ensures WordAt(text, word, i) <==> i > 0 && WordAt(text[1..], word, i - 1)
  {
    if WordAt(text, word, i) {
      WordCharacters(text, word, i);
    }
    if 0 < i && i + |word| <= |text| {
      assert text[1..][i - 1..i - 1 + |word|] == text[i..i + |word|];
    }
  }

  lemma SameAfterSpace(text: string, word: string)
    requires text != "" && IsSpace(text[0])
    ensures HasWord(text, word) <==> HasWord(text[1..], word)
  {
    if IsWord(word) {
      if i: nat :| WordAt(text, word, i) {
        WordAfterSpace(text, word, i);
        assert WordAt(text[1..], word, i - 1);
      }
      if i: nat :| WordAt(text[1..], word, i) {
        WordAfterSpace(text, word, i + 1);
        assert WordAt(text, word, i + 1);
      }
    }
  }

  lemma {:induction false} SameWithoutStart(text: string, word: string)
    ensures HasWord(text, word) <==> HasWord(TrimStart(text), word)
  {
    if text != "" && IsSpace(text[0]) {
      SameAfterSpace(text, word);
      SameWithoutStart(text[1..], word);
    }
  }

  lemma WordBeforeSpace(text: string, word: string, i: nat)
    requires text != "" && IsSpace(text[|text| - 1]) && IsWord(word)
    ensures WordAt(text, word, i) <==> WordAt(text[..|text| - 1], word, i)
  {
    var shorter := text[..|text| - 1];
    if WordAt(text, word, i) {
      WordCharacters(text, word, i);
    }
    if i + |word| < |text| {
      assert shorter[i..i + |word|] == text[i..i + |word|];
    }
  }

  lemma {:induction false} SameWithoutEnd(text: string, word: string)
    ensures HasWord(text, word) <==> HasWord(TrimEnd(text), word)
  {
    if text != "" && IsSpace(text[|text| - 1]) {
      SameWithoutEnd(text[..|text| - 1], word);
      if IsWord(word) {
        var shorter := text[..|text| - 1];
        if i: nat :| WordAt(text, word, i) {
          WordBeforeSpace(text, word, i);
        }
        if i: nat :| WordAt(shorter, word, i) {
          WordBeforeSpace(text, word, i);
        }
      }
    }
  }

  lemma {:induction false} FirstWordOnly(text: string, word: string, n: nat)
    requires n == WordLength(text) > 0 && IsWord(word)
    ensures WordAt(text, word, 0) <==> word == text[..n]
  {
    FirstCharacters(text);
    assert text[0..n] == text[..n];
    if WordAt(text, word, 0) {
      WordCharacters(text, word, 0);
      assert |word| == n;
    }
  }

  lemma {:induction false} WordAfterFirst(text: string, word: string, n: nat, i: nat)
    requires n == WordLength(text) < |text| && IsWord(word) && i > 0 && WordAt(text, word, i)
    ensures i > n
  {
    FirstCharacters(text);
  }

  lemma LaterWordOnly(text: string, word: string, n: nat, i: nat)
    requires n < i && WordAt(text, word, i)
    ensures WordAt(text[n + 1..], word, i - n - 1)
  {
    var j, rest := i - n - 1, text[n + 1..];
    assert rest[j..j + |word|] == text[i..i + |word|];
  }

  lemma LaterWordStays(text: string, word: string, n: nat, i: nat)
    requires n < |text| && IsSpace(text[n]) && IsWord(word) && WordAt(text[n + 1..], word, i)
    ensures WordAt(text, word, i + n + 1)
  {
    assert text[n + 1..][i..i + |word|] == text[i + n + 1..i + n + 1 + |word|];
  }

  /** A word is the first one, or one after it. */
  lemma {:induction false} FirstOrLater(text: string, word: string, n: nat)
    requires 0 < n == WordLength(text) < |text| && IsWord(word)
    ensures HasWord(text, word) <==> word == text[..n] || HasWord(text[n + 1..], word)
  {
    FirstWordOnly(text, word, n);
    if word != text[..n] && HasWord(text, word) {
      var i: nat :| WordAt(text, word, i);
      WordAfterFirst(text, word, n, i);
      LaterWordOnly(text, word, n, i);
    } else if HasWord(text[n + 1..], word) {
      var i: nat :| WordAt(text[n + 1..], word, i);
      LaterWordStays(text, word, n, i);
    }
  }

  lemma {:induction false} OnlyWord(text: string, word: string)
    requires text != "" && WordLength(text) == |text| && IsWord(word)
    ensures HasWord(text, word) <==> word == text
  {
    assert text[..|text|] == text;
    FirstWordOnly(text, word, |text|);
    FirstCharacters(text);
  }

  /** Splitting a trimmed text at its white space gives exactly its words. */
  lemma {:induction false} WordsExact(text: string, word: string)
    requires IsTrimmed(text) && text != ""
    ensures word in Words(text) <==> HasWord(text, word)
    decreases |text|
  {
    var n := WordLength(text);
    if n == |text| {
      assert text[..n] == text;
      if word == text {
        assert IsWord(word);
      }
      if IsWord(word) {
        OnlyWord(text, word);
      }
    } else {
      var rest := text[n + 1..];
      RestIsTrimmed(text, n);
      TrimStartShorter(rest);
      WordsExact(TrimStart(rest), word);
      SameWithoutStart(rest, word);
      assert IsWord(text[..n]);
      if IsWord(word) {
        FirstOrLater(text, word, n);
      }
    }
  }

  lemma {:induction false} TrimStartKeepsEnd(s: string)
    requires s != "" && !IsSpace(s[|s| - 1])
    ensures TrimStart(s) != "" && TrimStart(s)[|TrimStart(s)| - 1] == s[|s| - 1]
  {
    if IsSpace(s[0]) {
      TrimStartKeepsEnd(s[1..]);
    }
  }

  lemma RestIsTrimmed(text: string, n: nat)
    requires IsTrimmed(text) && n == WordLength(text) < |text|
    ensures n > 0 && IsTrimmed(TrimStart(text[n + 1..])) && TrimStart(text[n + 1..]) != ""
  {
    assert IsSpace(text[n]) && n + 1 < |text|;
    TrimStartKeepsEnd(text[n + 1..]);
    TrimStartSpaces(text[n + 1..]);
  }

  lemma TrimmedWords(text: string, word: string)
    requires word != ""
    ensures word in Words(Trim(text)) <==> HasWord(text, word)
  {
    SameWithoutStart(text, word);
    SameWithoutEnd(TrimStart(text), word);
    TrimIsTrimmed(text);
    if Trim(text) != "" {
      WordsExact(Trim(text), word);
    } else {
      assert Words("") == [""];
    }
  }

  // ----- Authorization requests -----

  /** The first value of a parameter; a missing one counts as empty. */
  function Given(params: Params, p: Param): string {
    if p in params && |params[p]| > 0 then params[p][0] else ""
  }

  /** An empty value counts as absent. */
  function GivenOrNone(value: string): Option<string> {
    if value == "" then None else Some(value)
  }

  ghost predicate AsksSupported(params: Params) {
    forall word | HasWord(Given(params, Scope), word) :: word in SCOPES
  }

  /** Everything an authorization request must be, said of its parameters. */
  ghost predicate IsAcceptable(config: Config, params: Params) {
    && Given(params, ResponseType) == "code" && Given(params, ClientId) == CLIENT_ID
    && Given(params, Redirect) == config.baseURL + "/api/auth/sso/callback/scim-demo-sso"
    && HasWord(Given(params, Scope), "openid") && AsksSupported(params)
    && 0 < |Given(params, State)| <= 2048
    && |Given(params, Nonce)| <= 2048 && |Given(params, LoginHint)| <= 2048
    && IsPkceValue(Given(params, CodeChallenge)) && Given(params, CodeChallengeMethod) == "S256"
  }

  /** The supported scopes among the words of the requested scope, in the provider's order. */
  ghost function GrantedScope(params: Params): string {
    "openid" + (if HasWord(Given(params, Scope), "email") then " email" else "")
    + (if HasWord(Given(params, Scope), "profile") then " profile" else "")
  }

  /** The request that the parameters spell out. */
  ghost function Spelled(params: Params): Request {
    Request(Given(params, ClientId), Given(params, CodeChallenge), Given(params, CodeChallengeMethod),
            GivenOrNone(Given(params, LoginHint)), GivenOrNone(Given(params, Nonce)), Given(params, Redirect),
            Given(params, ResponseType), GrantedScope(params), Given(params, State))
  }

  lemma ReadGiven(params: Params, p: Param)
    ensures Read(params, p) == Some(Given(params, p)) || (Read(params, p).None? && Given(params, p) == "")
  {
  }

  lemma AsksFor(params: Params, word: string)
    requires word != ""
    ensures word in RequestedScopes(params) <==> HasWord(Given(params, Scope), word)
  {
    TrimmedWords(Given(params, Scope), word);
  }

  /** Once a word is asked for, none of the pieces that splitting gives is empty. */
  lemma {:induction false} NoEmptyWord(text: string)
    requires IsTrimmed(text) && text != ""
    ensures "" !in Words(text)
    decreases |text|
  {
    var n := WordLength(text);
    if n < |text| {
      RestIsTrimmed(text, n);
      TrimStartShorter(text[n + 1..]);
      NoEmptyWord(TrimStart(text[n + 1..]));
    }
  }

  lemma NoEmptyScope(params: Params)
    requires "openid" in RequestedScopes(params)
    ensures "" !in RequestedScopes(params)
  {
    var text := Trim(Given(params, Scope));
    TrimIsTrimmed(Given(params, Scope));
    if text != "" {
      NoEmptyWord(text);
    }
  }

  lemma SupportedExact(params: Params)
    requires "openid" in RequestedScopes(params)
    ensures AllSupported(RequestedScopes(params)) <==> AsksSupported(params)
  {
    NoEmptyScope(params);
    forall word | word != "" ensures word in RequestedScopes(params) <==> HasWord(Given(params, Scope), word) {
      AsksFor(params, word);
    }
  }

  function KeepOne(scope: string, requested: seq<string>): seq<string> {
    if scope in requested then [scope] else []
  }

  lemma {:induction false} KeepFirst(scopes: seq<string>, requested: seq<string>, rest: seq<string>)
    requires scopes != [] && rest == Keep(scopes[1..], requested)
    ensures Keep(scopes, requested) == KeepOne(scopes[0], requested) + rest
  {
  }

  lemma {:induction false} KeptScopes(requested: seq<string>)
    ensures Keep(SCOPES, requested)
            == KeepOne("openid", requested) + (KeepOne("email", requested) + KeepOne("profile", requested))
  {
    var two, one := SCOPES[1..], SCOPES[2..];
    assert two[0] == "email" && two[1..] == one && one[0] == "profile" && one[1..] == [];
    KeepFirst(one, requested, []);
    KeepFirst(two, requested, Keep(one, requested));
    KeepFirst(SCOPES, requested, Keep(two, requested));
    assert KeepOne("profile", requested) + [] == KeepOne("profile", requested);
  }

  lemma JoinedScopes(email: bool, profile: bool)
    ensures Join(["openid"] + ((if email then ["email"] else []) + (if profile then ["profile"] else [])), " ")
            == "openid" + (if email then " email" else "") + (if profile then " profile" else "")
  {
    assert Join(["email", "profile"], " ") == "email" + " " + "profile" by {
      assert ["email", "profile"][1..] == ["profile"];
    }
    var last := if profile then ["profile"] else [];
    JoinFirstScope(if email then ["email"] + last else last);
  }

  lemma {:induction false} JoinFirstScope(rest: seq<string>)
    ensures Join(["openid"] + rest, " ") == if rest == [] then "openid" else "openid" + " " + Join(rest, " ")
  {
    assert (["openid"] + rest)[1..] == rest;
  }

  lemma {:induction false} KeptScope(requested: seq<string>)
    requires "openid" in requested
    ensures Join(Keep(SCOPES, requested), " ") ==
            "openid" + (if "email" in requested then " email" else "")
              + (if "profile" in requested then " profile" else "")
  {
    KeptScopes(requested);
    JoinedScopes("email" in requested, "profile" in requested);
  }

  predicate IsForClient(config: Config, params: Params) {
    && Given(params, ResponseType) == "code" && Given(params, ClientId) == CLIENT_ID
    && Given(params, Redirect) == config.baseURL + "/api/auth/sso/callback/scim-demo-sso"
  }

  ghost predicate AsksScopes(params: Params) {
    HasWord(Given(params, Scope), "openid") && AsksSupported(params)
  }

  lemma ScopesAsked(params: Params)
    ensures "openid" in RequestedScopes(params) && AllSupported(RequestedScopes(params)) <==> AsksScopes(params)
    ensures AsksScopes(params) ==> Join(Keep(SCOPES, RequestedScopes(params)), " ") == GrantedScope(params)
  {
    AsksFor(params, "openid");
    AsksFor(params, "email");
    AsksFor(params, "profile");
    if "openid" in RequestedScopes(params) {
      SupportedExact(params);
      KeptScope(RequestedScopes(params));
    }
  }

  lemma RequestRead(params: Params)
    ensures forall p :: Read(params, p) == Some(Given(params, p)) || (Read(params, p).None? && Given(params, p) == "")
  {
    forall p ensures Read(params, p) == Some(Given(params, p)) || (Read(params, p).None? && Given(params, p) == "") {
      ReadGiven(params, p);
    }
  }

  /** What a request is refused with: the first fault counts. */
  lemma RequestRefused(config: Config, params: Params)
    ensures var parsed := ParseAuthorizationRequest(config, params);
            && (Given(params, ResponseType) != "code" ==> parsed == Err("unsupported_response_type", 400))
            && (Given(params, ResponseType) == "code" && Given(params, ClientId) != CLIENT_ID ==>
                  parsed == Err("unauthorized_client", 400))
            && (Given(params, ResponseType) == "code" && Given(params, ClientId) == CLIENT_ID ==>
                  IsForClient(config, params) || parsed == Err("invalid_request", 400))
            && (IsForClient(config, params) && !AsksScopes(params) ==> parsed == Err("invalid_scope", 400))
            && (IsForClient(config, params) && AsksScopes(params) && !IsAcceptable(config, params) ==>
                  parsed == Err("invalid_request", 400))
  {
    ScopesAsked(params);
    RequestRead(params);
  }

  lemma ValueReads(params: Params, p: Param)
    ensures Given(params, p) != "" ==> Read(params, p) == Some(Given(params, p))
    ensures NonEmptyValue(Read(params, p)) == GivenOrNone(Given(params, p))
    ensures TooLong(Read(params, p)) <==> |Given(params, p)| > MAX_LENGTH
  {
  }

  lemma AcceptableParses(config: Config, params: Params)
    requires IsAcceptable(config, params)
    ensures ParseAuthorizationRequest(config, params).Ok?
    ensures ParseAuthorizationRequest(config, params).value == Spelled(params)
  {
    ScopesAsked(params);
    ValueReads(params, ResponseType);
    ValueReads(params, ClientId);
    ValueReads(params, Redirect);
    ValueReads(params, State);
    ValueReads(params, Nonce);
    ValueReads(params, LoginHint);
    ValueReads(params, CodeChallenge);
    ValueReads(params, CodeChallengeMethod);
  }

  /**
   The values behind a request are the first ones of its own parameters, and it is accepted if and
   only if they are acceptable.
   */
  lemma RequestAccepted(config: Config, params: Params)
    ensures ParseAuthorizationRequest(config, params).Ok? <==> IsAcceptable(config, params)
    ensures IsAcceptable(config, params) ==> ParseAuthorizationRequest(config, params) == Ok(Spelled(params))
  {
    if IsAcceptable(config, params) {
      AcceptableParses(config, params);
    } else {
      RequestRefused(config, params);
    }
  }

  // ----- Codes -----

  const DIRECTORY_NAMES := map["maya-chen" := "Maya Chen", "julian-foster" := "Julian Foster",
                               "priya-shah" := "Priya Shah"]

  /** The record says what the request and the identity say. */
  ghost predicate IsRecordOf(record: CodeRecord, params: Params, identity: Identity) {
    && record.clientId == Given(params, ClientId) && record.redirectURI == Given(params, Redirect)
    && record.codeChallenge == Given(params, CodeChallenge) && record.nonce == GivenOrNone(Given(params, Nonce))
    && record.scope == GrantedScope(params)
    && record.connectionId == identity.connectionId && record.subject == identity.subject
    && record.email == identity.email && record.userKey == identity.userKey
    && identity.userKey in DIRECTORY_NAMES && record.name == DIRECTORY_NAMES[identity.userKey]
  }

  /** A code is issued if and only if the request is acceptable and the subject is that of a directory user. */
  lemma CodeAuthorized(config: Config, params: Params, identity: Identity)
    ensures var authorized := AuthorizeCode(config, params, identity);
            && (authorized.Ok? <==>
                  && IsAcceptable(config, params) && identity.userKey in DIRECTORY_NAMES
                  && config.resolveSubject(identity.connectionId, identity.subject) == Some(identity.userKey))
            && (authorized.Ok? ==> IsRecordOf(authorized.value, params, identity))
            && (authorized.Err? && IsAcceptable(config, params) ==> authorized == Err("access_denied", 400))
  {
    RequestAccepted(config, params);
  }

  // ----- The token form -----

  /** A missing field counts as empty. */
  function Sent(field: Option<string>): string {
    if field.Some? then field.value else ""
  }

  predicate AsksForCode(form: TokenForm) {
    Sent(form.grantType) == "authorization_code"
  }

  /** The client's identifier, and a secret with the bytes of the configured one. */
  predicate IsFromClient(config: Config, form: TokenForm) {
    && Sent(form.clientId) == CLIENT_ID && Sent(form.clientSecret) != ""
    && SecretsEqual(config.utf8(Sent(form.clientSecret)), config.utf8(config.clientSecret))
  }

  predicate IsFilled(form: TokenForm) {
    Sent(form.code) != "" && Sent(form.redirectURI) != "" && Sent(form.codeVerifier) != ""
  }

  /** Everything that is asked of a form before its code is looked at. */
  predicate PassesForm(config: Config, form: TokenForm) {
    AsksForCode(form) && IsFromClient(config, form) && IsFilled(form) && IsPkceValue(Sent(form.codeVerifier))
  }

  lemma FormChecked(config: Config, form: TokenForm)
    ensures var checked := CheckForm(config, form);
            && (checked.Ok? <==> PassesForm(config, form))
            && (PassesForm(config, form) ==>
                  checked.value == (Sent(form.code), Sent(form.redirectURI), Sent(form.codeVerifier)))
            && (!AsksForCode(form) ==> checked == Err("unsupported_grant_type", 400))
            && (AsksForCode(form) && !IsFromClient(config, form) ==> checked == Err("invalid_client", 401))
            && (AsksForCode(form) && IsFromClient(config, form) && !IsFilled(form) ==>
                  checked == Err("invalid_request", 400))
            && (AsksForCode(form) && IsFromClient(config, form) && IsFilled(form) && !PassesForm(config, form) ==>
                  checked == Err("invalid_grant", 400))
  {
  }

  /** Below the word size a client's secret has exactly the configured secret's bytes. */
  lemma ClientSecretExact(config: Config, form: TokenForm)
    requires |config.utf8(Sent(form.clientSecret))| < WORD && |config.utf8(config.clientSecret)| < WORD
    ensures IsFromClient(config, form) <==>
            && Sent(form.clientId) == CLIENT_ID && Sent(form.clientSecret) != ""
            && config.utf8(Sent(form.clientSecret)) == config.utf8(config.clientSecret)
  {
    EqualSecrets(config.utf8(Sent(form.clientSecret)), config.utf8(config.clientSecret));
  }

  // ----- Redeeming a record -----

  /** The verifier's S256 challenge, section 4.6 of RFC 7636, has the bytes of the recorded one. */
  predicate Verifies(config: Config, verifier: string, codeChallenge: string) {
    SecretsEqual(config.utf8(Encode(config.sha256(config.utf8(verifier)))), config.utf8(codeChallenge))
  }

  predicate IsRedeemable(config: Config, record: CodeRecord, redirectURI: string, verifier: string) {
    && record.userKey in DIRECTORY_NAMES && record.clientId == CLIENT_ID
    && record.redirectURI == redirectURI == config.baseURL + "/api/auth/sso/callback/scim-demo-sso"
    && Verifies(config, verifier, record.codeChallenge)
  }

  /** The answer says what the record says, and is issued now for five minutes. */
  predicate IsAnswerFor(response: TokenResponse, record: CodeRecord, now: int) {
    && response.scope == record.scope && response.expiresIn == 300
    && var token := response.idToken;
       && token.connectionId == record.connectionId && token.subject == record.subject
       && token.email == record.email && token.name == record.name
       && token.nonce == GivenOrNone(Sent(record.nonce)) && token.audience == CLIENT_ID
       && 1000 * token.issuedAt <= now < 1000 * token.issuedAt + 1000
       && token.expiresAt == token.issuedAt + 300
  }

  lemma RecordRedeemed(config: Config, record: CodeRecord, redirectURI: string, verifier: string, now: int)
    ensures var redeemed := RedeemRecord(config, record, redirectURI, verifier, now);
            && (redeemed.Ok? <==> IsRedeemable(config, record, redirectURI, verifier))
            && (redeemed.Ok? ==> IsAnswerFor(redeemed.value, record, now))
            && (redeemed.Err? ==> redeemed == Err("invalid_grant", 400))
  {
    assert record.userKey in USER_KEYS <==> record.userKey in DIRECTORY_NAMES;
  }
}
