/** What a token owes to the request that its code was issued for and to the form that redeemed it. */
module SignInRequests {
  import opened Platform
  import opened Oidc
  import opened OidcChecks
  import opened SignIn
  import opened SignInInvariants

  /** The code was issued for acceptable parameters, and says what they say. */
  ghost predicate AnswersRequest(config: Config, c: IssuedCode) {
    && IsAcceptable(config, c.params)
    && c.record.codeChallenge == Given(c.params, CodeChallenge)
    && c.record.nonce == GivenOrNone(Given(c.params, Nonce))
    && c.record.scope == GrantedScope(c.params)
    && c.record.redirectURI == Given(c.params, Redirect)
    && c.record.userKey in DIRECTORY_NAMES && c.record.name == DIRECTORY_NAMES[c.record.userKey]
  }

  /** The token was redeemed in time, by the client, with the code and a verifier of the code's challenge. */
  predicate WasVerified(config: Config, codes: map<Id, IssuedCode>, t: IssuedToken) {
    && t.code in codes && t.code == CodeId(Sent(t.form.code))
    && codes[t.code].createdAt <= t.redeemedAt <= codes[t.code].createdAt + 2 * 60 * 1000
    && PassesForm(config, t.form)
    && IsRedeemable(config, codes[t.code].record, Sent(t.form.redirectURI), Sent(t.form.codeVerifier))
    && IsAnswerFor(t.response, codes[t.code].record, t.redeemedAt)
  }

  ghost predicate CodesAnswer(config: Config, codes: map<Id, IssuedCode>, clock: int) {
    forall id {:trigger AnswersRequest(config, codes[id])} | id in codes ::
      AnswersRequest(config, codes[id]) && codes[id].createdAt <= clock
  }

  predicate TokensVerified(config: Config, codes: map<Id, IssuedCode>, tokens: seq<IssuedToken>) {
    forall i {:trigger WasVerified(config, codes, tokens[i])} | 0 <= i < |tokens| ::
      WasVerified(config, codes, tokens[i])
  }

  ghost predicate Answered(config: Config, s: State) {
    CodesAnswer(config, s.history.codes, s.clock) && TokensVerified(config, s.history.codes, s.history.tokens)
  }

  lemma AuthorizedAnswers(config: Config, params: Params, identity: Identity, lookup: nat, now: int)
    requires AuthorizeCode(config, params, identity).Ok?
    ensures AnswersRequest(config, IssuedCode(AuthorizeCode(config, params, identity).value, params, lookup, now))
  {
    CodeAuthorized(config, params, identity);
  }

  lemma CodeAdded(config: Config, s: State, lookup: nat, params: Params, id: Id, record: CodeRecord)
    requires Answered(config, s) && IsUnused(s, id)
    requires AnswersRequest(config, IssuedCode(record, params, lookup, s.clock))
    ensures Answered(config, StoreCode(s, lookup, params, id, record))
  {
    var codes, codes' := s.history.codes, StoreCode(s, lookup, params, id, record).history.codes;
    forall i | 0 <= i < |s.history.tokens| ensures WasVerified(config, codes', s.history.tokens[i]) {
      assert WasVerified(config, codes, s.history.tokens[i]);
    }
    forall other | other in codes' ensures AnswersRequest(config, codes'[other]) && codes'[other].createdAt <= s.clock {
      assert other != id ==> AnswersRequest(config, codes[other]);
    }
  }

  lemma IssueCodeAnswers(config: Config, s: State, lookup: nat, params: Params, code: string)
    requires Answered(config, s)
    ensures Answered(config, DoIssueCode(config, s, lookup, params, code))
  {
    if lookup < |s.history.lookups| && IsUnused(s, CodeId(code)) {
      var identity := s.history.lookups[lookup].identity;
      var record := AuthorizeCode(config, params, identity);
      if record.Ok? {
        AuthorizedAnswers(config, params, identity, lookup, s.clock);
        CodeAdded(config, s, lookup, params, CodeId(code), record.value);
      }
    }
  }

  /** What an exchange answers, and what it leaves: the first fault counts. */
  lemma ExchangeDecided(config: Config, store: Store, form: TokenForm, now: int)
    ensures var (result, left) := Exchange(config, store, form, now);
            && (!PassesForm(config, form) ==> left == store)
            && (!AsksForCode(form) ==> result == Err("unsupported_grant_type", 400))
            && (AsksForCode(form) && !IsFromClient(config, form) ==> result == Err("invalid_client", 401))
            && (AsksForCode(form) && IsFromClient(config, form) && !IsFilled(form) ==>
                  result == Err("invalid_request", 400))
            && (AsksForCode(form) && IsFromClient(config, form) && IsFilled(form) ==>
                  result.Ok? || result == Err("invalid_grant", 400))
    ensures var (result, left) := Exchange(config, store, form, now);
            var id := CodeId(Sent(form.code));
            && (PassesForm(config, form) ==> left == store - {id})
            && (result.Ok? <==>
                  && PassesForm(config, form)
                  && id in store && now <= store[id].expiresAt && store[id].value.Code?
                  && IsRedeemable(config, store[id].value.codeRecord, Sent(form.redirectURI), Sent(form.codeVerifier)))
            && (result.Ok? ==> IsAnswerFor(result.value, store[id].value.codeRecord, now))
  {
    FormChecked(config, form);
    var id := CodeId(Sent(form.code));
    if PassesForm(config, form) && id in store && store[id].value.Code? {
      RecordRedeemed(config, store[id].value.codeRecord, Sent(form.redirectURI), Sent(form.codeVerifier), now);
    }
  }

  lemma ExchangeVerifies(config: Config, s: State, form: TokenForm)
    requires Good(config, s) && Answered(config, s) && Exchange(config, s.store, form, s.clock).0.Ok?
    ensures form.code.Some? && form.codeVerifier.Some?
    ensures WasVerified(config, s.history.codes, Exchanged(config, s, form))
  {
    ExchangeUsesCode(config, s.store, form, s.clock);
    ExchangeDecided(config, s.store, form, s.clock);
    var id := CodeId(form.code.value);
    assert GoodEntry(s.history, id, s.store[id]);
    assert AnswersRequest(config, s.history.codes[id]);
  }

  lemma ExchangeAnswers(config: Config, s: State, form: TokenForm)
    requires Good(config, s) && Answered(config, s)
    ensures Answered(config, DoExchangeCode(config, s, form))
  {
    if Exchange(config, s.store, form, s.clock).0.Ok? {
      ExchangeVerifies(config, s, form);
      TokenAdded(config, s.history.codes, s.history.tokens, Exchanged(config, s, form));
    }
  }

  lemma TokenAdded(config: Config, codes: map<Id, IssuedCode>, tokens: seq<IssuedToken>, t: IssuedToken)
    requires TokensVerified(config, codes, tokens) && WasVerified(config, codes, t)
    ensures TokensVerified(config, codes, tokens + [t])
  {
    forall i | 0 <= i <= |tokens| ensures WasVerified(config, codes, (tokens + [t])[i]) {
      if i < |tokens| {
        assert WasVerified(config, codes, tokens[i]);
      }
    }
  }

  /** A step that neither issues a code nor exchanges one. */
  lemma OtherStepAnswers(config: Config, s: State, action: Action)
    requires HasTables(s) && Answered(config, s) && !action.IssueCode? && !action.ExchangeCode?
    ensures Answered(config, Step(config, s, action))
  {
    StepsNotIssuing(config, s, action);
    var s' := Step(config, s, action);
    forall id | id in s'.history.codes
      ensures AnswersRequest(config, s'.history.codes[id]) && s'.history.codes[id].createdAt <= s'.clock {
      assert AnswersRequest(config, s.history.codes[id]);
    }
  }

  lemma StepsNotIssuing(config: Config, s: State, action: Action)
    requires HasTables(s) && !action.IssueCode? && !action.ExchangeCode?
    ensures var s' := Step(config, s, action);
            s'.history.codes == s.history.codes && s'.history.tokens == s.history.tokens && s.clock <= s'.clock
  {
  }

  lemma StepAnswers(config: Config, s: State, action: Action)
    requires Good(config, s) && Answered(config, s)
    ensures Answered(config, Step(config, s, action))
  {
    match action {
      case IssueCode(lookup, params, code) => IssueCodeAnswers(config, s, lookup, params, code);
      case ExchangeCode(form) => ExchangeAnswers(config, s, form);
      case _ => OtherStepAnswers(config, s, action);
    }
  }

  lemma {:induction false} RunAnswers(config: Config, s: State, actions: seq<Action>)
    requires Good(config, s) && Answered(config, s)
    ensures Answered(config, Run(config, s, actions))
  {
    if actions != [] {
      var before := actions[..|actions| - 1];
      RunAnswers(config, s, before);
      RunKeeps(config, s, before);
      StepAnswers(config, Run(config, s, before), actions[|actions| - 1]);
    }
  }

  /**
   In every interleaving, a token was redeemed within two minutes of its code, by a form with the
   client's secret and a verifier of the challenge among the parameters of an acceptable request,
   and it carries those parameters' nonce and scope.
   */
  lemma {:induction false} TokenAnswersRequest(config: Config, s: State, actions: seq<Action>, i: nat)
    requires IsStart(s) && i < |Run(config, s, actions).history.tokens|
    ensures var h := Run(config, s, actions).history;
            var t := h.tokens[i];
            && t.code in h.codes
            && AnswersRequest(config, h.codes[t.code]) && WasVerified(config, h.codes, t)
            && var params := h.codes[t.code].params;
               && Verifies(config, Sent(t.form.codeVerifier), Given(params, CodeChallenge))
               && t.response.scope == GrantedScope(params)
               && t.response.idToken.nonce == GivenOrNone(Given(params, Nonce))
               && Sent(t.form.redirectURI) == Given(params, Redirect)
  {
    StartIsGood(config, s);
    RunAnswers(config, s, actions);
    RunKeeps(config, s, actions);
    var h := Run(config, s, actions).history;
    assert WasVerified(config, h.codes, h.tokens[i]);
    assert AnswersRequest(config, h.codes[h.tokens[i].code]);
  }
}
