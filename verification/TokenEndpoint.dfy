/** The provider's two endpoints over the verification store, as they run. */
module TokenEndpoint {
  import opened Text
  import opened Secrets
  import opened Platform
  import opened Oidc
  import opened OidcChecks
  import opened SignIn

  /** A store whose consume reads and deletes in one step. */
  class VerificationStore {
    var entries: Store

    constructor ()
      ensures entries == map[]
    {
      entries := map[];
    }

    method CreateVerificationValue(id: Id, value: Value, expiresAt: int)
      modifies this
      ensures entries == old(entries)[id := Entry(value, expiresAt)]
    {
      entries := entries[id := Entry(value, expiresAt)];
    }

    method ConsumeVerificationValue(id: Id, now: int) returns (value: Option<Value>)
      modifies this
      ensures value == Consumed(old(entries), id, now)
      ensures entries == old(entries) - {id}
    {
      value := Consumed(entries, id, now);
      entries := entries - {id};
    }
  }

  /** Issues a code for a portal identity, if its request is acceptable; the store gains exactly the code's record. */
  method IssueAuthorizationCode(config: Config, store: VerificationStore, params: Params, identity: Identity,
                                code: string, now: int)
    returns (result: Result<CodeRecord>)
    modifies store
    ensures result == AuthorizeCode(config, params, identity)
    ensures result.Ok? ==> IsAcceptable(config, params) && IsRecordOf(result.value, params, identity)
    ensures result.Ok? ==> store.entries == old(store.entries)[CodeId(code)
                                                               := Entry(Code(result.value), now + CODE_TTL_MS)]
    ensures result.Err? ==> store.entries == old(store.entries)
  {
    result := AuthorizeCode(config, params, identity);
    CodeAuthorized(config, params, identity);
    if result.Ok? {
      store.CreateVerificationValue(CodeId(code), Code(result.value), now + CODE_TTL_MS);
    }
  }

  /** Compares two secrets by their encoded bytes. */
  method CompareSecrets(config: Config, left: string, right: string) returns (ok: bool)
    ensures ok <==> Matches(config, left, right)
  {
    ok := SecretsMatch(config.utf8(left), config.utf8(right));
  }

  /** The token endpoint: checks the form, consumes the code, then checks the record. */
  method ExchangeAuthorizationCode(config: Config, store: VerificationStore, form: TokenForm, now: int)
    returns (result: Result<TokenResponse>)
    modifies store
    ensures (result, store.entries) == Exchange(config, old(store.entries), form, now)
    ensures !PassesForm(config, form) ==> result.Err? && store.entries == old(store.entries)
    ensures PassesForm(config, form) ==> store.entries == old(store.entries) - {CodeId(Sent(form.code))}
  {
    FormChecked(config, form);
    var clientKnown := false;
    if !IsMissing(form.clientSecret) {
      clientKnown := CompareSecrets(config, form.clientSecret.value, config.clientSecret);
    }
    var checked := CheckFields(form, clientKnown);
    if checked.Err? {
      return Err(checked.code, checked.status);
    }
    var (code, redirectURI, verifier) := checked.value;
    var verification := store.ConsumeVerificationValue(CodeId(code), now);
    if verification.None? || !verification.value.Code? {
      return Err("invalid_grant", 400);
    }
    var record := verification.value.codeRecord;
    var verified := CompareSecrets(config, Challenge(config, verifier), record.codeChallenge);
    result := RedeemVerified(config, record, redirectURI, verified, now);
  }
}
