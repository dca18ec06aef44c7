/** What holds of every run of the sign-in, from any start. */
module SignInTheorems {
  import opened Text
  import opened Subjects
  import opened Platform
  import opened Oidc
  import opened OidcChecks
  import opened Directory
  import opened SignIn
  import opened SignInInvariants
  import opened SignInUniqueness
  import opened SignInOrder
  import opened SignInRequests

  // ----- The chain behind a token -----

  /** The code, lookup, portal and grant that a token descends from. */
  datatype Chain = Chain(code: IssuedCode, lookup: Lookup, portal: Portal, grant: Grant)

  /** Every part of the chain was issued, one from the next. */
  predicate Descends(h: History, t: IssuedToken, chain: Chain) {
    && t.code in h.codes && h.codes[t.code] == chain.code
    && chain.code.lookup < |h.lookups| && h.lookups[chain.code.lookup] == chain.lookup
    && chain.lookup.portal in h.portals && h.portals[chain.lookup.portal] == chain.portal
    && chain.portal.grant in h.grants && h.grants[chain.portal.grant] == chain.grant
  }

  lemma ChainOf(config: Config, h: History, i: nat) returns (chain: Chain)
    requires GoodHistory(config, h) && i < |h.tokens|
    ensures Descends(h, h.tokens[i], chain)
    ensures GoodToken(h, h.tokens[i]) && GoodCode(config, h, chain.code) && GoodLookup(h, chain.lookup)
    ensures GoodPortal(h, chain.portal) && GoodGrant(config, h, chain.grant)
  {
    var t := h.tokens[i];
    assert GoodToken(h, h.tokens[i]);
    var code := h.codes[t.code];
    assert GoodCode(config, h, h.codes[t.code]);
    var lookup := h.lookups[code.lookup];
    assert GoodLookup(h, h.lookups[code.lookup]);
    var portal := h.portals[lookup.portal];
    assert GoodPortal(h, h.portals[lookup.portal]);
    assert GoodGrant(config, h, h.grants[portal.grant]);
    chain := Chain(code, lookup, portal, h.grants[portal.grant]);
  }

  /** The employee of a chain: one connection, scim user, subject, user and key from grant to token. */
  predicate NamesOneEmployee(t: IssuedToken, chain: Chain) {
    && t.response.idToken.connectionId == chain.code.record.connectionId == chain.grant.identity.connectionId
    && t.response.idToken.subject == chain.code.record.subject == chain.grant.identity.subject
    && chain.code.record.userKey == chain.grant.identity.userKey
    && t.response.idToken.email == chain.code.record.email == chain.lookup.identity.email
    && SameEmployee(chain.lookup.identity, chain.grant.identity)
    && SameEmployee(chain.portal.identity, chain.grant.identity)
  }

  /**
   At the grant, connection and source were active in one domain, in one version of the directory. At
   the portal and the lookup each was active when it was read, in the same domain, but perhaps in two
   versions. Each identity has the name and address that its source had when it was read.
   */
  predicate ActiveThroughout(h: History, chain: Chain) {
    && CurrentWhenSeen(h, chain.grant.seen, chain.grant.seen, chain.grant.identity)
    && CurrentWhenSeen(h, chain.portal.connectionSeen, chain.portal.sourceSeen, chain.portal.identity)
    && CurrentWhenSeen(h, chain.lookup.connectionSeen, chain.lookup.sourceSeen, chain.lookup.identity)
  }

  /**
   Every part starts after the part it comes from has ended, and reads the directory while it lasts:
   no version is older than the start of its check.
   */
  predicate InOrder(t: IssuedToken, chain: Chain) {
    && chain.grant.seen <= chain.grant.made.version
    && NotAfter(chain.grant.made, chain.portal.start)
    && ReadsInOrder(chain.portal.start, chain.portal.connectionSeen, chain.portal.sourceSeen, chain.portal.end)
    && NotAfter(chain.portal.end, chain.lookup.start)
    && ReadsInOrder(chain.lookup.start, chain.lookup.connectionSeen, chain.lookup.sourceSeen, chain.lookup.end)
    && chain.lookup.end.at <= chain.code.createdAt <= t.redeemedAt
  }

  lemma {:induction false} RunIsGood(config: Config, s: State, actions: seq<Action>)
    requires IsStart(s)
    ensures Good(config, Run(config, s, actions)) && Unique(Run(config, s, actions)) && Ordered(Run(config, s, actions))
  {
    StartIsGood(config, s);
    RunKeeps(config, s, actions);
    RunUnique(config, s, actions);
    RunOrdered(config, s, actions);
  }

  lemma ChainInOrder(s: State, i: nat, chain: Chain)
    requires HasTables(s) && Ordered(s) && i < |s.history.tokens| && Descends(s.history, s.history.tokens[i], chain)
    ensures InOrder(s.history.tokens[i], chain)
  {
    var h, now := s.history, Present(s);
    assert OrderedToken(h, h.tokens[i], now) && OrderedCode(h, h.codes[h.tokens[i].code], now);
    assert OrderedLookup(h, h.lookups[chain.code.lookup], now);
    assert OrderedPortal(h, h.portals[chain.lookup.portal], now) && OrderedGrant(h.grants[chain.portal.grant], now);
  }

  /** In every interleaving, each ID token speaks of the employee of one access grant made before it. */
  lemma TokenDescendsFromGrant(config: Config, s: State, actions: seq<Action>, i: nat) returns (chain: Chain)
    requires IsStart(s) && i < |Run(config, s, actions).history.tokens|
    ensures var h := Run(config, s, actions).history;
            && Descends(h, h.tokens[i], chain)
            && InOrder(h.tokens[i], chain)
            && NamesOneEmployee(h.tokens[i], chain)
            && ActiveThroughout(h, chain)
            && SubjectResolves(config, chain.grant.identity)
  {
    RunIsGood(config, s, actions);
    chain := ChainOf(config, Run(config, s, actions).history, i);
    ChainInOrder(Run(config, s, actions), i, chain);
  }

  /** In a deployment whose hash has no collisions, the token's subject belongs to its connection alone. */
  lemma {:induction false} TokenSubjectIsScoped(config: Config, mac: Mac, s: State, actions: seq<Action>, i: nat,
                                                other: string)
    requires config == Deployment(config.baseURL, config.clientSecret, mac, config.sha256, config.utf8)
    requires IsStart(s) && i < |Run(config, s, actions).history.tokens|
    requires var connectionId := Run(config, s, actions).history.tokens[i].response.idToken.connectionId;
             Gives32Bytes(mac) && NoCollision(mac, connectionId, connectionId) && NoCollision(mac, connectionId, other)
    ensures var t := Run(config, s, actions).history.tokens[i].response.idToken;
            && (exists key | key in USER_KEYS :: CreateSubject(mac, t.connectionId, key) == Some(t.subject))
            && (other != t.connectionId ==> ResolveSubject(mac, other, t.subject) == None)
  {
    var chain := TokenDescendsFromGrant(config, s, actions, i);
    var identity := chain.grant.identity;
    assert config.resolveSubject(identity.connectionId, identity.subject)
        == ResolveSubject(mac, identity.connectionId, identity.subject);
    ResolveExact(mac, identity.connectionId, identity.subject, identity.userKey);
    if other != identity.connectionId {
      ResolveUnderOther(mac, identity.connectionId, identity.userKey, other);
    }
  }

  // ----- At most once -----

  /** Over every run, a grant opens at most one portal. */
  lemma {:induction false} OnePortalPerGrant(config: Config, s: State, actions: seq<Action>, id: Id, other: Id)
    requires IsStart(s)
    ensures var portals := Run(config, s, actions).history.portals;
            id in portals && other in portals && portals[id].grant == portals[other].grant ==> id == other
  {
    RunIsGood(config, s, actions);
  }

  /** Over every run, a code yields at most one token response. */
  lemma {:induction false} OneTokenPerCode(config: Config, s: State, actions: seq<Action>, i: nat, j: nat)
    requires IsStart(s)
    ensures var tokens := Run(config, s, actions).history.tokens;
            i < |tokens| && j < |tokens| && tokens[i].code == tokens[j].code ==> i == j
  {
    RunIsGood(config, s, actions);
  }

  predicate IsIssued(h: History, id: Id) {
    id in h.grants || id in h.portals || id in h.codes
  }

  lemma StepStaysOut(config: Config, s: State, action: Action, id: Id)
    requires HasTables(s) && GoodKeys(s.history) && IsIssued(s.history, id) && id !in s.store
    ensures id !in Step(config, s, action).store
  {
    if action.ExchangeCode? {
      ExchangeSpends(config, s.store, action.form, s.clock);
    }
  }

  lemma StepRemembers(config: Config, s: State, action: Action, id: Id)
    requires HasTables(s) && IsIssued(s.history, id)
    ensures IsIssued(Step(config, s, action).history, id)
    ensures s.history.tokens <= Step(config, s, action).history.tokens
  {
  }

  lemma StepRedeemsStored(config: Config, s: State, action: Action, i: nat)
    requires HasTables(s) && |s.history.tokens| <= i < |Step(config, s, action).history.tokens|
    ensures Step(config, s, action).history.tokens[i].code in s.store
  {
    assert action.ExchangeCode?;
    ExchangeUsesCode(config, s.store, action.form, s.clock);
  }

  /** Once a grant, portal or code has left the store it never returns, and a spent code yields nothing more. */
  lemma {:induction false} SpentForever(config: Config, s: State, actions: seq<Action>, id: Id)
    requires Good(config, s) && IsIssued(s.history, id) && id !in s.store
    ensures var s' := Run(config, s, actions);
            && id !in s'.store && IsIssued(s'.history, id)
            && s.history.tokens <= s'.history.tokens
            && forall i | |s.history.tokens| <= i < |s'.history.tokens| :: s'.history.tokens[i].code != id
  {
    if actions != [] {
      var last := actions[|actions| - 1];
      var before := Run(config, s, actions[..|actions| - 1]);
      SpentForever(config, s, actions[..|actions| - 1], id);
      RunKeeps(config, s, actions[..|actions| - 1]);
      StepStaysOut(config, before, last, id);
      StepRemembers(config, before, last, id);
      var after := Step(config, before, last);
      forall i | |s.history.tokens| <= i < |after.history.tokens| ensures after.history.tokens[i].code != id {
        if i < |before.history.tokens| {
          assert after.history.tokens[i] == before.history.tokens[i];
        } else {
          StepRedeemsStored(config, before, last, i);
        }
      }
    }
  }

  // ----- Exchanging a code -----

  /**
   An exchange is final: the form checks alone leave everything as it was; past them the code it
   names is spent, whether or not it succeeds, and no continuation yields a further token for it.
   */
  lemma {:induction false} ExchangeIsFinal(config: Config, s: State, form: TokenForm, actions: seq<Action>)
    requires Good(config, s)
    ensures !PassesForm(config, form) ==> DoExchangeCode(config, s, form) == s
    ensures PassesForm(config, form) && CodeId(Sent(form.code)) in s.history.codes ==>
              var id := CodeId(Sent(form.code));
              var after := DoExchangeCode(config, s, form);
              var s' := Run(config, after, actions);
              && id !in s'.store && after.history.tokens <= s'.history.tokens
              && forall i | |after.history.tokens| <= i < |s'.history.tokens| :: s'.history.tokens[i].code != id
  {
    ExchangeDecided(config, s.store, form, s.clock);
    if PassesForm(config, form) && CodeId(Sent(form.code)) in s.history.codes {
      var after := DoExchangeCode(config, s, form);
      ExchangeCodeKeeps(config, s, form);
      SpentForever(config, after, actions, CodeId(Sent(form.code)));
    }
  }

  /**
   An exchange succeeds if and only if its form passes the checks and its code is unspent, not older
   than two minutes, and meant for this redirect URI and the presented verifier.
   */
  lemma ExchangeSucceeds(config: Config, s: State, form: TokenForm)
    requires Good(config, s)
    ensures var id := CodeId(Sent(form.code));
            Exchange(config, s.store, form, s.clock).0.Ok?
            <==> && PassesForm(config, form)
                 && id in s.store && id in s.history.codes
                 && s.clock <= s.history.codes[id].createdAt + 2 * 60 * 1000
                 && Sent(form.redirectURI) == RedirectURI(config)
                 && Verifies(config, Sent(form.codeVerifier), s.history.codes[id].record.codeChallenge)
  {
    ExchangeDecided(config, s.store, form, s.clock);
    var id := CodeId(Sent(form.code));
    if id in s.store {
      assert GoodEntry(s.history, id, s.store[id]);
      assert GoodCode(config, s.history, s.history.codes[id]);
    }
  }

  // ----- Ages -----

  /** A stored grant opens a request exactly while it is younger than five minutes and names a known user. */
  lemma GrantAccepted(config: Config, s: State, task: nat, token: string)
    requires Good(config, s) && task !in s.tasks && IsOpaqueToken(token)
    requires TokenIdentifier(config, AccessPurpose, token) in s.store
    ensures var id := TokenIdentifier(config, AccessPurpose, token);
            && id in s.history.grants
            && (task in DoConsumeGrant(config, s, task, token).tasks <==>
                  && s.clock < s.history.grants[id].made.at + 5 * 60 * 1000
                  && s.history.grants[id].identity.userKey in USER_KEYS)
            && id !in DoConsumeGrant(config, s, task, token).store
  {
    var id := TokenIdentifier(config, AccessPurpose, token);
    assert GoodEntry(s.history, id, s.store[id]);
  }

  /**
   Every portal identity was checked less than fifteen minutes after its grant was made, plus the
   time that the exchange of the grant took; it was returned later by the time that its own request took.
   */
  lemma {:induction false} LookupAge(config: Config, s: State, actions: seq<Action>, i: nat)
    requires IsStart(s) && i < |Run(config, s, actions).history.lookups|
    ensures var h := Run(config, s, actions).history;
            var lookup := h.lookups[i];
            && lookup.portal in h.portals && h.portals[lookup.portal].grant in h.grants
            && var portal := h.portals[lookup.portal];
               var grant := h.grants[portal.grant];
               && grant.made.at <= portal.start.at <= portal.end.at <= lookup.start.at <= lookup.end.at
               && var exchange, answer := portal.end.at - portal.start.at, lookup.end.at - lookup.start.at;
                  lookup.end.at - grant.made.at < 15 * 60 * 1000 + exchange + answer
  {
    RunIsGood(config, s, actions);
    var s' := Run(config, s, actions);
    var h := s'.history;
    assert GoodLookup(h, h.lookups[i]) && OrderedLookup(h, h.lookups[i], Present(s'));
    var portal := h.lookups[i].portal;
    assert GoodPortal(h, h.portals[portal]) && OrderedPortal(h, h.portals[portal], Present(s'));
  }
}
