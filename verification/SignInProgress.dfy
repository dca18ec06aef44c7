/** A sign-in whose stages are each taken in time runs through to a token. */
module SignInProgress {
  import opened Text
  import opened Subjects
  import opened Platform
  import opened Oidc
  import opened OidcChecks
  import opened Directory
  import opened SignIn
  import opened SignInRequests

  /** The directory still has everything that the checks on an identity look for. */
  predicate Passes(config: Config, tables: Tables, identity: Identity) {
    && HasRows(tables, identity) && SubjectResolves(config, identity)
    && identity.connectionId in tables.connections
    && var domain := tables.connections[identity.connectionId].domain;
       && ConnectionActive(tables, identity, domain) && SourceActive(tables, identity, domain)
       && IsNamedBy(tables.sources[identity.scimUserId], identity)
  }

  lemma PassesFinds(config: Config, tables: Tables, identity: Identity)
    requires Passes(config, tables, identity)
    ensures FindEligibleConnection(tables, identity.connectionId).Some?
    ensures var connection := FindEligibleConnection(tables, identity.connectionId).value;
            && FindRecordedSource(tables, identity, connection).Some?
            && Refreshed(identity, FindRecordedSource(tables, identity, connection).value) == identity
  {
  }

  /** The rows that a grant does not look for, but the later checks do. */
  predicate HasRows(tables: Tables, identity: Identity) {
    identity.userId in tables.subjects && identity.userId in tables.users && identity.userKey in USER_KEYS
  }

  /** An identity that a grant can carry passes the later checks too, while its rows exist. */
  lemma AcquiredPasses(config: Config, tables: Tables, organizationId: string, scimUserId: string)
    requires AcquireIdentity(config, tables, organizationId, scimUserId).Some?
    ensures var identity := AcquireIdentity(config, tables, organizationId, scimUserId).value;
            HasRows(tables, identity) ==> Passes(config, tables, identity)
  {
  }

  /** The four reads that validate a record. */
  function Validate(config: Config, s: State, task: nat): (s': State)
    requires HasTables(s)
    ensures HasTables(s')
  {
    DoReadRow(config, DoReadRow(config, DoReadSource(DoReadConnection(s, task), task), task, true), task, false)
  }

  lemma ReplaceTwice(s: State, task: nat, first: Task, second: Task)
    ensures Replace(Replace(s, task, Some(first)), task, Some(second)) == Replace(s, task, Some(second))
  {
  }

  lemma ReplaceEnds(s: State, task: nat, last: Task)
    requires task !in s.tasks
    ensures Replace(s, task, Some(last)).tasks - {task} == s.tasks
  {
  }

  lemma ValidateCompletes(config: Config, s: State, task: nat, origin: Origin, identity: Identity, start: Moment)
    requires HasTables(s) && task in s.tasks
    requires s.tasks[task] == Validating(origin, identity, start, AwaitConnection)
    requires Passes(config, Now(s), identity)
    ensures Validate(config, s, task)
            == Replace(s, task, Some(Validated(origin, identity, start, Version(s), Version(s))))
  {
    PassesFinds(config, Now(s), identity);
    var t := s.tasks[task];
    var connection := FindEligibleConnection(Now(s), identity.connectionId).value;
    var source := FindRecordedSource(Now(s), identity, connection).value;
    var t1 := t.(stage := AwaitSource(connection, Version(s)));
    var t2 := t.(stage := AwaitRows(source, Version(s), Version(s), false, false));
    var t3 := t.(stage := AwaitRows(source, Version(s), Version(s), true, false));
    var t4 := Validated(origin, identity, start, Version(s), Version(s));
    assert DoReadConnection(s, task) == Replace(s, task, Some(t1));
    assert DoReadSource(Replace(s, task, Some(t1)), task) == Replace(Replace(s, task, Some(t1)), task, Some(t2));
    ReplaceTwice(s, task, t1, t2);
    assert DoReadRow(config, Replace(s, task, Some(t2)), task, true)
           == Replace(Replace(s, task, Some(t2)), task, Some(t3));
    ReplaceTwice(s, task, t2, t3);
    assert AfterRow(config, Now(s), t3, false) == Some(t4);
    assert DoReadRow(config, Replace(s, task, Some(t3)), task, false)
           == Replace(Replace(s, task, Some(t3)), task, Some(t4));
    ReplaceTwice(s, task, t3, t4);
  }

  /** Validating a task just started leaves it validated in its place. */
  lemma StartedCompletes(config: Config, s: State, task: nat, origin: Origin, identity: Identity)
    requires HasTables(s) && task !in s.tasks && Passes(config, Now(s), identity)
    ensures var started := Replace(s, task, Some(Validating(origin, identity, Present(s), AwaitConnection)));
            Validate(config, started, task)
            == Replace(s, task, Some(Validated(origin, identity, Present(s), Version(s), Version(s))))
  {
    var first := Validating(origin, identity, Present(s), AwaitConnection);
    ValidateCompletes(config, Replace(s, task, Some(first)), task, origin, identity, Present(s));
    ReplaceTwice(s, task, first, Validated(origin, identity, Present(s), Version(s), Version(s)));
  }

  // ----- The stages -----

  function EmployeeEntry(identity: Identity, purpose: Purpose, expiresAt: int): Entry {
    Entry(Employee(EmployeeRecord(identity, purpose, expiresAt)), expiresAt)
  }

  function GrantStage(config: Config, s: State, task: nat, organizationId: string, scimUserId: string,
                      token: string): (s': State)
    requires HasTables(s)
    ensures HasTables(s')
  {
    DoStoreGrant(config, DoAcquireGrant(config, s, task, organizationId, scimUserId), task, token)
  }

  function Granted(config: Config, s: State, identity: Identity, token: string): State
    requires HasTables(s)
  {
    var id := TokenIdentifier(config, AccessPurpose, token);
    s.(store := s.store[id := EmployeeEntry(identity, AccessPurpose, s.clock + ACCESS_TTL_MS)],
       history := s.history.(grants := s.history.grants[id := Grant(identity, Version(s), Present(s))]))
  }

  /** An identity that can be acquired becomes a stored grant. */
  lemma GrantStageCompletes(config: Config, s: State, task: nat, organizationId: string, scimUserId: string,
                            token: string)
    requires HasTables(s) && task !in s.tasks && IsUnused(s, TokenIdentifier(config, AccessPurpose, token))
    requires AcquireIdentity(config, Now(s), organizationId, scimUserId).Some?
    ensures GrantStage(config, s, task, organizationId, scimUserId, token)
            == Granted(config, s, AcquireIdentity(config, Now(s), organizationId, scimUserId).value, token)
  {
    var identity := AcquireIdentity(config, Now(s), organizationId, scimUserId).value;
    assert DoAcquireGrant(config, s, task, organizationId, scimUserId)
           == Replace(s, task, Some(Acquired(identity, Version(s))));
    ReplaceEnds(s, task, Acquired(identity, Version(s)));
  }

  function Later(s: State, elapsed: nat): (s': State)
    ensures HasTables(s) ==> HasTables(s')
  {
    s.(clock := s.clock + elapsed)
  }

  /** A grant is exchanged for a portal, with some time between the checks and the new entry. */
  function PortalStage(config: Config, s: State, task: nat, grantToken: string, wait: nat,
                       portalToken: string): (s': State)
    requires HasTables(s)
    ensures HasTables(s')
  {
    DoStorePortal(config, Later(Validate(config, DoConsumeGrant(config, s, task, grantToken), task), wait), task,
                  portalToken)
  }

  function Spent(s: State, id: Id): State {
    s.(store := s.store - {id})
  }

  function Opened(config: Config, s: State, identity: Identity, grant: Id, wait: nat, portalToken: string): State
    requires HasTables(s)
  {
    var id := TokenIdentifier(config, PortalPurpose, portalToken);
    var later := Later(s, wait);
    var portal := Portal(identity, grant, Present(s), Present(later), Version(s), Version(s));
    later.(store := s.store[id := EmployeeEntry(identity, PortalPurpose, later.clock + PORTAL_TTL_MS)],
           history := s.history.(portals := s.history.portals[id := portal]))
  }

  predicate Holds(s: State, id: Id, identity: Identity, purpose: Purpose) {
    && id in s.store && s.store[id].expiresAt > s.clock
    && s.store[id] == EmployeeEntry(identity, purpose, s.store[id].expiresAt)
  }

  lemma StorePortalCompletes(config: Config, s: State, task: nat, grant: Id, identity: Identity, wait: nat,
                             portalToken: string)
    requires HasTables(s) && task !in s.tasks && IsUnused(s, TokenIdentifier(config, PortalPurpose, portalToken))
    ensures var validated := Validated(FromGrant(grant), identity, Present(s), Version(s), Version(s));
            DoStorePortal(config, Later(Replace(s, task, Some(validated)), wait), task, portalToken)
            == Opened(config, s, identity, grant, wait, portalToken)
  {
    ReplaceEnds(s, task, Validated(FromGrant(grant), identity, Present(s), Version(s), Version(s)));
  }

  lemma ConsumeGrantStarts(config: Config, s: State, task: nat, grantToken: string, identity: Identity)
    requires HasTables(s) && task !in s.tasks && IsOpaqueToken(grantToken) && identity.userKey in USER_KEYS
    requires Holds(s, TokenIdentifier(config, AccessPurpose, grantToken), identity, AccessPurpose)
    ensures var id := TokenIdentifier(config, AccessPurpose, grantToken);
            DoConsumeGrant(config, s, task, grantToken)
            == Replace(Spent(s, id), task, Some(Validating(FromGrant(id), identity, Present(s), AwaitConnection)))
  {
  }

  lemma ConsumedValidates(config: Config, s: State, task: nat, grantToken: string, identity: Identity)
    requires HasTables(s) && task !in s.tasks && IsOpaqueToken(grantToken) && Passes(config, Now(s), identity)
    requires Holds(s, TokenIdentifier(config, AccessPurpose, grantToken), identity, AccessPurpose)
    ensures var id := TokenIdentifier(config, AccessPurpose, grantToken);
            Validate(config, DoConsumeGrant(config, s, task, grantToken), task)
            == Replace(Spent(s, id), task, Some(Validated(FromGrant(id), identity, Present(s), Version(s), Version(s))))
  {
    var id := TokenIdentifier(config, AccessPurpose, grantToken);
    ConsumeGrantStarts(config, s, task, grantToken, identity);
    StartedCompletes(config, Spent(s, id), task, FromGrant(id), identity);
  }

  /** An unexpired grant turns into a portal for the same identity, and leaves the store. */
  lemma PortalStageCompletes(config: Config, s: State, task: nat, grantToken: string, wait: nat, portalToken: string,
                             identity: Identity)
    requires HasTables(s) && task !in s.tasks && IsOpaqueToken(grantToken)
    requires Holds(s, TokenIdentifier(config, AccessPurpose, grantToken), identity, AccessPurpose)
    requires Passes(config, Now(s), identity) && IsUnused(s, TokenIdentifier(config, PortalPurpose, portalToken))
    ensures var id := TokenIdentifier(config, AccessPurpose, grantToken);
            PortalStage(config, s, task, grantToken, wait, portalToken)
            == Opened(config, Spent(s, id), identity, id, wait, portalToken)
  {
    var id := TokenIdentifier(config, AccessPurpose, grantToken);
    ConsumedValidates(config, s, task, grantToken, identity);
    StoreAfterChecks(config, s, Validate(config, DoConsumeGrant(config, s, task, grantToken), task), task, id, identity,
                     wait,
                     portalToken);
  }

  lemma StoreAfterChecks(config: Config, s: State, checked: State, task: nat, grant: Id, identity: Identity, wait: nat,
                         portalToken: string)
    requires HasTables(s) && task !in s.tasks && IsUnused(s, TokenIdentifier(config, PortalPurpose, portalToken))
    requires checked == Replace(Spent(s, grant), task,
                                Some(Validated(FromGrant(grant), identity, Present(s), Version(s), Version(s))))
    ensures DoStorePortal(config, Later(checked, wait), task, portalToken)
            == Opened(config, Spent(s, grant), identity, grant, wait, portalToken)
  {
    StorePortalCompletes(config, Spent(s, grant), task, grant, identity, wait, portalToken);
  }

  /** A portal is looked up, with some time between the checks and the answer. */
  function LookupStage(config: Config, s: State, task: nat, portalToken: string, wait: nat): State
    requires HasTables(s)
  {
    DoReadRole(Later(Validate(config, DoLookUpPortal(config, s, task, portalToken), task), wait), task)
  }

  function LookedUp(s: State, identity: Identity, portal: Id, wait: nat): State
    requires HasTables(s)
  {
    var later := Later(s, wait);
    var lookup := Lookup(identity, portal, Present(s), Present(later), Version(s), Version(s));
    later.(history := s.history.(lookups := s.history.lookups + [lookup]))
  }

  lemma LookUpPortalStarts(config: Config, s: State, task: nat, portalToken: string, identity: Identity)
    requires HasTables(s) && task !in s.tasks && IsOpaqueToken(portalToken) && identity.userKey in USER_KEYS
    requires Holds(s, TokenIdentifier(config, PortalPurpose, portalToken), identity, PortalPurpose)
    ensures var id := TokenIdentifier(config, PortalPurpose, portalToken);
            DoLookUpPortal(config, s, task, portalToken)
            == Replace(s, task, Some(Validating(FromPortal(id), identity, Present(s), AwaitConnection)))
  {
  }

  /** An unexpired portal is looked up for the same identity, and stays in the store. */
  lemma LookupStageCompletes(config: Config, s: State, task: nat, portalToken: string, identity: Identity, wait: nat)
    requires HasTables(s) && task !in s.tasks && IsOpaqueToken(portalToken)
    requires Holds(s, TokenIdentifier(config, PortalPurpose, portalToken), identity, PortalPurpose)
    requires Passes(config, Now(s), identity)
    ensures var id := TokenIdentifier(config, PortalPurpose, portalToken);
            LookupStage(config, s, task, portalToken, wait) == LookedUp(s, identity, id, wait)
  {
    var id := TokenIdentifier(config, PortalPurpose, portalToken);
    LookUpPortalStarts(config, s, task, portalToken, identity);
    StartedCompletes(config, s, task, FromPortal(id), identity);
    ReadRoleCompletes(s, task, id, identity, wait);
  }

  lemma ReadRoleCompletes(s: State, task: nat, portal: Id, identity: Identity, wait: nat)
    requires HasTables(s) && task !in s.tasks && identity.userId in Now(s).users
    ensures var validated := Validated(FromPortal(portal), identity, Present(s), Version(s), Version(s));
            DoReadRole(Later(Replace(s, task, Some(validated)), wait), task) == LookedUp(s, identity, portal, wait)
  {
    ReplaceEnds(s, task, Validated(FromPortal(portal), identity, Present(s), Version(s), Version(s)));
  }

  // ----- Codes and tokens -----

  /** The form presents the code and the redirect URI of the request, with a verifier of its challenge. */
  predicate Presents(config: Config, form: TokenForm, code: string, codeChallenge: string) {
    && PassesForm(config, form) && Sent(form.code) == code && Sent(form.redirectURI) == RedirectURI(config)
    && Verifies(config, Sent(form.codeVerifier), codeChallenge)
  }

  lemma AuthorizedRecord(config: Config, params: Params, identity: Identity)
    requires IsAcceptable(config, params) && SubjectResolves(config, identity) && identity.userKey in USER_KEYS
    ensures AuthorizeCode(config, params, identity).Ok?
    ensures var record := AuthorizeCode(config, params, identity).value;
            && MeantFor(config, record) && record.codeChallenge == Given(params, CodeChallenge)
            && record.connectionId == identity.connectionId && record.subject == identity.subject
  {
    CodeAuthorized(config, params, identity);
  }

  predicate MeantFor(config: Config, record: CodeRecord) {
    record.clientId == CLIENT_ID && record.redirectURI == RedirectURI(config) && record.userKey in USER_KEYS
  }

  /** The holder of a stored, unexpired code and of its verifier gets a token for the code's employee. */
  lemma ExchangeCompletes(config: Config, s: State, form: TokenForm, code: string, record: CodeRecord)
    requires Presents(config, form, code, record.codeChallenge) && MeantFor(config, record)
    requires CodeId(code) in s.store && s.store[CodeId(code)].value == Code(record)
             && s.clock <= s.store[CodeId(code)].expiresAt
    ensures var tokens := DoExchangeCode(config, s, form).history.tokens;
            && |tokens| == |s.history.tokens| + 1
            && var token := tokens[|s.history.tokens|];
               && token.response.idToken.connectionId == record.connectionId
               && token.response.idToken.subject == record.subject
  {
    ExchangeDecided(config, s.store, form, s.clock);
  }

  /** The code stage: issue, wait, exchange. */
  function CodeStage(config: Config, s: State, lookup: nat, params: Params, code: string, elapsed: nat,
                     form: TokenForm): State {
    DoExchangeCode(config, Later(DoIssueCode(config, s, lookup, params, code), elapsed), form)
  }

  lemma IssueStores(config: Config, s: State, lookup: nat, params: Params, code: string)
    requires lookup < |s.history.lookups| && IsUnused(s, CodeId(code))
    requires AuthorizeCode(config, params, s.history.lookups[lookup].identity).Ok?
    ensures DoIssueCode(config, s, lookup, params, code)
            == StoreCode(s, lookup, params, CodeId(code),
                         AuthorizeCode(config, params, s.history.lookups[lookup].identity).value)
  {
  }

  predicate Yields(before: State, after: State, identity: Identity) {
    && |after.history.tokens| == |before.history.tokens| + 1
    && after.history.tokens[|before.history.tokens|].response.idToken.connectionId == identity.connectionId
    && after.history.tokens[|before.history.tokens|].response.idToken.subject == identity.subject
  }

  lemma StoredCodeYields(config: Config, s: State, lookup: nat, params: Params, code: string, record: CodeRecord,
                         elapsed: nat, form: TokenForm, identity: Identity)
    requires MeantFor(config, record) && elapsed <= CODE_TTL_MS
    requires record.connectionId == identity.connectionId && record.subject == identity.subject
    requires Presents(config, form, code, record.codeChallenge)
    ensures Yields(s, DoExchangeCode(config, Later(StoreCode(s, lookup, params, CodeId(code), record), elapsed), form),
                   identity)
  {
    ExchangeCompletes(config, Later(StoreCode(s, lookup, params, CodeId(code), record), elapsed), form, code, record);
  }

  /** A code issued for a lookup and redeemed within two minutes yields a token for the looked-up employee. */
  lemma CodeStageCompletes(config: Config, s: State, lookup: nat, params: Params, code: string, elapsed: nat,
                           form: TokenForm, identity: Identity)
    requires lookup < |s.history.lookups| && s.history.lookups[lookup].identity == identity
    requires SubjectResolves(config, identity) && identity.userKey in USER_KEYS && IsAcceptable(config, params)
    requires IsUnused(s, CodeId(code)) && elapsed <= CODE_TTL_MS
    requires Presents(config, form, code, Given(params, CodeChallenge))
    ensures Yields(s, CodeStage(config, s, lookup, params, code, elapsed, form), identity)
  {
    AuthorizedRecord(config, params, identity);
    IssueStores(config, s, lookup, params, code);
    StoredCodeYields(config, s, lookup, params, code, AuthorizeCode(config, params, identity).value, elapsed, form,
                     identity);
  }

  // ----- The whole sign-in -----

  /** The time that passes before, while and after a grant is exchanged, and while the portal is looked up. */
  datatype Waits = Waits(grant: nat, exchange: nat, portal: nat, lookup: nat)

  /** The grant and the portal are each used before they expire; the requests may take any time. */
  predicate InTime(waits: Waits) {
    waits.grant < ACCESS_TTL_MS && waits.portal < PORTAL_TTL_MS
  }

  /** The grant and the portal, each taken after some time, and the portal's lookup. */
  function EmployeeStages(config: Config, s: State, task: nat, organizationId: string, scimUserId: string,
                          grantToken: string, portalToken: string, waits: Waits): State
    requires HasTables(s)
  {
    var granted := GrantStage(config, s, task, organizationId, scimUserId, grantToken);
    var withPortal := PortalStage(config, Later(granted, waits.grant), task, grantToken, waits.exchange, portalToken);
    LookupStage(config, Later(withPortal, waits.portal), task, portalToken, waits.lookup)
  }

  /** From a fresh grant to the state after the lookup. */
  function LookupAfterGrant(config: Config, s: State, identity: Identity, grantToken: string, portalToken: string,
                            waits: Waits): State
    requires HasTables(s)
  {
    var grant, portal := TokenIdentifier(config, AccessPurpose, grantToken),
      TokenIdentifier(config, PortalPurpose, portalToken);
    var granted := Later(Granted(config, s, identity, grantToken), waits.grant);
    var withPortal := Opened(config, Spent(granted, grant), identity, grant, waits.exchange, portalToken);
    LookedUp(Later(withPortal, waits.portal), identity, portal, waits.lookup)
  }

  lemma GrantToLookup(config: Config, s: State, task: nat, identity: Identity, grantToken: string, portalToken: string,
                      waits: Waits)
    requires HasTables(s) && task !in s.tasks && Passes(config, Now(s), identity)
    requires IsOpaqueToken(grantToken) && IsOpaqueToken(portalToken)
    requires IsUnused(s, TokenIdentifier(config, PortalPurpose, portalToken)) && InTime(waits)
    ensures var granted := Later(Granted(config, s, identity, grantToken), waits.grant);
            var withPortal := PortalStage(config, granted, task, grantToken, waits.exchange, portalToken);
            LookupStage(config, Later(withPortal, waits.portal), task, portalToken, waits.lookup)
            == LookupAfterGrant(config, s, identity, grantToken, portalToken, waits)
  {
    var grant := TokenIdentifier(config, AccessPurpose, grantToken);
    var s1 := Later(Granted(config, s, identity, grantToken), waits.grant);
    GrantIsReady(config, s, s1, identity, grantToken, portalToken, waits);
    PortalStageCompletes(config, s1, task, grantToken, waits.exchange, portalToken, identity);
    PortalToLookup(config, Spent(s1, grant), task, identity, grant, portalToken, waits);
  }

  lemma GrantIsReady(config: Config, s: State, granted: State, identity: Identity, grantToken: string,
                     portalToken: string, waits: Waits)
    requires HasTables(s) && InTime(waits) && IsUnused(s, TokenIdentifier(config, PortalPurpose, portalToken))
    requires granted == Later(Granted(config, s, identity, grantToken), waits.grant)
    ensures HasTables(granted) && Now(granted) == Now(s) && granted.tasks == s.tasks
    ensures Holds(granted, TokenIdentifier(config, AccessPurpose, grantToken), identity, AccessPurpose)
    ensures IsUnused(granted, TokenIdentifier(config, PortalPurpose, portalToken))
  {
  }

  lemma PortalToLookup(config: Config, s: State, task: nat, identity: Identity, grant: Id, portalToken: string,
                       waits: Waits)
    requires HasTables(s) && task !in s.tasks && Passes(config, Now(s), identity)
    requires IsOpaqueToken(portalToken) && InTime(waits)
    ensures var withPortal := Later(Opened(config, s, identity, grant, waits.exchange, portalToken), waits.portal);
            LookupStage(config, withPortal, task, portalToken, waits.lookup)
            == LookedUp(withPortal, identity, TokenIdentifier(config, PortalPurpose, portalToken), waits.lookup)
  {
    var withPortal := Later(Opened(config, s, identity, grant, waits.exchange, portalToken), waits.portal);
    LookupStageCompletes(config, withPortal, task, portalToken, identity, waits.lookup);
  }

  lemma EmployeeStagesComplete(config: Config, s: State, task: nat, organizationId: string, scimUserId: string,
                               identity: Identity,
                               grantToken: string, portalToken: string, waits: Waits)
    requires HasTables(s) && task !in s.tasks
    requires AcquireIdentity(config, Now(s), organizationId, scimUserId) == Some(identity) && HasRows(Now(s), identity)
    requires IsOpaqueToken(grantToken) && IsUnused(s, TokenIdentifier(config, AccessPurpose, grantToken))
    requires IsOpaqueToken(portalToken) && IsUnused(s, TokenIdentifier(config, PortalPurpose, portalToken))
    requires InTime(waits)
    ensures EmployeeStages(config, s, task, organizationId, scimUserId, grantToken, portalToken, waits)
            == LookupAfterGrant(config, s, identity, grantToken, portalToken, waits)
  {
    AcquiredPasses(config, Now(s), organizationId, scimUserId);
    GrantStageCompletes(config, s, task, organizationId, scimUserId, grantToken);
    GrantToLookup(config, s, task, identity, grantToken, portalToken, waits);
  }

  lemma LookupIsReady(config: Config, s: State, identity: Identity, grantToken: string, portalToken: string,
                      waits: Waits,
                      code: string)
    requires HasTables(s) && IsUnused(s, CodeId(code))
    ensures var s' := LookupAfterGrant(config, s, identity, grantToken, portalToken, waits);
            && |s'.history.lookups| == |s.history.lookups| + 1
            && s'.history.lookups[|s.history.lookups|].identity == identity
            && s'.history.tokens == s.history.tokens && IsUnused(s', CodeId(code))
  {
  }

  // ----- The sign-in as a run -----

  lemma {:induction false} RunAppend(config: Config, s: State, left: seq<Action>, right: seq<Action>)
    requires HasTables(s)
    ensures Run(config, s, left + right) == Run(config, Run(config, s, left), right)
  {
    if right == [] {
      assert left + right == left;
    } else {
      var n := |right| - 1;
      RunAppend(config, s, left, right[..n]);
      LastAction(left, right, n);
      RunsThen(config, s, Run(config, s, left), left + right[..n], right[..n], right[n]);
    }
  }

  lemma LastAction(left: seq<Action>, right: seq<Action>, n: nat)
    requires |right| == n + 1
    ensures left + right == left + right[..n] + [right[n]] && right == right[..n] + [right[n]]
  {
  }

  lemma {:induction false} RunsThen(config: Config, s: State, s': State, actions: seq<Action>, actions': seq<Action>,
                                    action: Action)
    requires HasTables(s) && HasTables(s') && Run(config, s, actions) == Run(config, s', actions')
    ensures Run(config, s, actions + [action]) == Run(config, s', actions' + [action])
  {
    RunThen(config, s, actions, action);
    RunThen(config, s', actions', action);
  }

  lemma {:induction false} RunOne(config: Config, s: State, action: Action)
    requires HasTables(s)
    ensures Run(config, s, [action]) == Step(config, s, action)
  {
    assert Run(config, s, [action][..0]) == s;
  }

  lemma {:induction false} RunThen(config: Config, s: State, actions: seq<Action>, action: Action)
    requires HasTables(s)
    ensures Run(config, s, actions + [action]) == Step(config, Run(config, s, actions), action)
  {
    assert (actions + [action])[..|actions|] == actions;
  }

  function ValidateActions(task: nat): seq<Action> {
    [ReadConnection(task)] + [ReadSource(task)] + [ReadSubject(task)] + [ReadUser(task)]
  }

  lemma {:induction false} ValidateRuns(config: Config, s: State, task: nat)
    requires HasTables(s)
    ensures Run(config, s, ValidateActions(task)) == Validate(config, s, task)
  {
    RunOne(config, s, ReadConnection(task));
    RunThen(config, s, [ReadConnection(task)], ReadSource(task));
    RunThen(config, s, [ReadConnection(task)] + [ReadSource(task)], ReadSubject(task));
    RunThen(config, s, [ReadConnection(task)] + [ReadSource(task)] + [ReadSubject(task)], ReadUser(task));
  }

  function Around(first: Action, task: nat, wait: nat, last: Action): seq<Action> {
    [first] + ValidateActions(task) + [Tick(wait)] + [last]
  }

  lemma {:induction false} AroundRuns(config: Config, s: State, first: Action, task: nat, wait: nat, last: Action)
    requires HasTables(s)
    ensures Run(config, s, Around(first, task, wait, last))
            == Step(config, Later(Validate(config, Step(config, s, first), task), wait), last)
  {
    RunOne(config, s, first);
    RunAppend(config, s, [first], ValidateActions(task));
    ValidateRuns(config, Step(config, s, first), task);
    WaitRuns(config, s, [first] + ValidateActions(task), wait);
    RunThen(config, s, [first] + ValidateActions(task) + [Tick(wait)], last);
  }

  function GrantActions(task: nat, organizationId: string, scimUserId: string, grantToken: string): seq<Action> {
    [AcquireGrant(task, organizationId, scimUserId)] + [StoreGrant(task, grantToken)]
  }

  function PortalActions(task: nat, grantToken: string, wait: nat, portalToken: string): seq<Action> {
    Around(ConsumeGrant(task, grantToken), task, wait, StorePortal(task, portalToken))
  }

  function LookupActions(task: nat, portalToken: string, wait: nat): seq<Action> {
    Around(LookUpPortal(task, portalToken), task, wait, ReadRole(task))
  }

  function EmployeeActions(task: nat, organizationId: string, scimUserId: string, grantToken: string,
                           portalToken: string,
                           waits: Waits): seq<Action>
  {
    GrantActions(task, organizationId, scimUserId, grantToken) + [Tick(waits.grant)]
    + PortalActions(task, grantToken, waits.exchange, portalToken) + [Tick(waits.portal)]
    + LookupActions(task, portalToken, waits.lookup)
  }

  lemma {:induction false} GrantRuns(config: Config, s: State, task: nat, organizationId: string, scimUserId: string,
                                     grantToken: string)
    requires HasTables(s)
    ensures Run(config, s, GrantActions(task, organizationId, scimUserId, grantToken))
            == GrantStage(config, s, task, organizationId, scimUserId, grantToken)
  {
    RunOne(config, s, AcquireGrant(task, organizationId, scimUserId));
    RunThen(config, s, [AcquireGrant(task, organizationId, scimUserId)], StoreGrant(task, grantToken));
  }

  lemma {:induction false} WaitRuns(config: Config, s: State, actions: seq<Action>, elapsed: nat)
    requires HasTables(s)
    ensures Run(config, s, actions + [Tick(elapsed)]) == Later(Run(config, s, actions), elapsed)
  {
    RunThen(config, s, actions, Tick(elapsed));
  }

  lemma {:induction false} PortalRuns(config: Config, s: State, task: nat, grantToken: string, wait: nat,
                                      portalToken: string)
    requires HasTables(s)
    ensures Run(config, s, PortalActions(task, grantToken, wait, portalToken))
            == PortalStage(config, s, task, grantToken, wait, portalToken)
  {
    AroundRuns(config, s, ConsumeGrant(task, grantToken), task, wait, StorePortal(task, portalToken));
  }

  lemma {:induction false} LookupRuns(config: Config, s: State, task: nat, portalToken: string, wait: nat)
    requires HasTables(s)
    ensures Run(config, s, LookupActions(task, portalToken, wait)) == LookupStage(config, s, task, portalToken, wait)
  {
    AroundRuns(config, s, LookUpPortal(task, portalToken), task, wait, ReadRole(task));
  }

  lemma {:induction false} EmployeeStagesRun(config: Config, s: State, task: nat, organizationId: string,
                                             scimUserId: string,
                          grantToken: string, portalToken: string, waits: Waits)
    requires HasTables(s)
    ensures Run(config, s, EmployeeActions(task, organizationId, scimUserId, grantToken, portalToken, waits))
            == EmployeeStages(config, s, task, organizationId, scimUserId, grantToken, portalToken, waits)
  {
    var grant := GrantActions(task, organizationId, scimUserId, grantToken);
    var open := PortalActions(task, grantToken, waits.exchange, portalToken);
    GrantRuns(config, s, task, organizationId, scimUserId, grantToken);
    WaitRuns(config, s, grant, waits.grant);
    RunAppend(config, s, grant + [Tick(waits.grant)], open);
    PortalRuns(config, Run(config, s, grant + [Tick(waits.grant)]), task, grantToken, waits.exchange, portalToken);
    WaitRuns(config, s, grant + [Tick(waits.grant)] + open, waits.portal);
    var before := grant + [Tick(waits.grant)] + open + [Tick(waits.portal)];
    RunAppend(config, s, before, LookupActions(task, portalToken, waits.lookup));
    LookupRuns(config, Run(config, s, before), task, portalToken, waits.lookup);
  }

  function CodeActions(lookup: nat, params: Params, code: string, afterCode: nat, form: TokenForm): seq<Action> {
    [IssueCode(lookup, params, code)] + [Tick(afterCode)] + [ExchangeCode(form)]
  }

  lemma {:induction false} CodeStageRuns(config: Config, s: State, lookup: nat, params: Params, code: string,
                                         afterCode: nat,
                      form: TokenForm)
    requires HasTables(s)
    ensures Run(config, s, CodeActions(lookup, params, code, afterCode, form))
            == CodeStage(config, s, lookup, params, code, afterCode, form)
  {
    RunOne(config, s, IssueCode(lookup, params, code));
    RunThen(config, s, [IssueCode(lookup, params, code)], Tick(afterCode));
    RunThen(config, s, [IssueCode(lookup, params, code)] + [Tick(afterCode)], ExchangeCode(form));
  }

  /**
   A sign-in runs through: an employee whose rows stay in place, whose grant is taken within five
   minutes, whose portal is used within ten and whose code is redeemed within two, gets a token,
   however long the requests themselves take.
   */
  lemma {:induction false} SignInCompletes(config: Config, s: State, task: nat, organizationId: string,
                                           scimUserId: string,
                        identity: Identity, grantToken: string, portalToken: string, waits: Waits, params: Params,
                        code: string, afterCode: nat, form: TokenForm)
    requires HasTables(s) && task !in s.tasks
    requires AcquireIdentity(config, Now(s), organizationId, scimUserId) == Some(identity) && HasRows(Now(s), identity)
    requires IsOpaqueToken(grantToken) && IsUnused(s, TokenIdentifier(config, AccessPurpose, grantToken))
    requires IsOpaqueToken(portalToken) && IsUnused(s, TokenIdentifier(config, PortalPurpose, portalToken))
    requires InTime(waits) && afterCode <= CODE_TTL_MS && IsUnused(s, CodeId(code))
    requires IsAcceptable(config, params) && Presents(config, form, code, Given(params, CodeChallenge))
    ensures var employee := EmployeeActions(task, organizationId, scimUserId, grantToken, portalToken, waits);
            Yields(s, Run(config, s, employee + CodeActions(|s.history.lookups|, params, code, afterCode, form)),
                   identity)
  {
    var employee := EmployeeActions(task, organizationId, scimUserId, grantToken, portalToken, waits);
    EmployeeStagesRun(config, s, task, organizationId, scimUserId, grantToken, portalToken, waits);
    EmployeeStagesComplete(config, s, task, organizationId, scimUserId, identity, grantToken, portalToken, waits);
    LookupIsReady(config, s, identity, grantToken, portalToken, waits, code);
    var s' := LookupAfterGrant(config, s, identity, grantToken, portalToken, waits);
    RunAppend(config, s, employee, CodeActions(|s.history.lookups|, params, code, afterCode, form));
    CodeStageRuns(config, s', |s.history.lookups|, params, code, afterCode, form);
    AcquiredPasses(config, Now(s), organizationId, scimUserId);
    CodeStageCompletes(config, s', |s.history.lookups|, params, code, afterCode, form, identity);
  }
}
