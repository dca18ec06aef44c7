/** How old a grant can be when its portal's identity is returned. */
module SignInAge {
  import opened Text
  import opened Subjects
  import opened Platform
  import opened Oidc
  import opened Directory
  import opened SignIn
  import opened SignInInvariants
  import opened SignInOrder
  import opened SignInProgress

  const FIFTEEN_MINUTES := 15 * 60 * 1000

  // ----- Later directories and requests -----

  /** A directory that holds one employee. */
  function TablesOf(identity: Identity, organizationId: string): Tables {
    var domain := ProvisioningDomain(organizationId);
    Tables(
      map[identity.connectionId := Connection(domain, Active)],
      map[identity.scimUserId :=
            Source(identity.connectionId, domain, identity.userId, Some(identity.subject), identity.email,
                   identity.displayName, true)],
      {identity.userId},
      map[identity.userId := None],
      map[(identity.connectionId, identity.subject) := Link(identity.scimUserId, identity.userId)])
  }

  lemma TablesPass(config: Config, identity: Identity, organizationId: string)
    requires SubjectResolves(config, identity) && identity.userKey in USER_KEYS
    ensures Passes(config, TablesOf(identity, organizationId), identity)
  {
  }

  lemma TablesAcquire(config: Config, identity: Identity, organizationId: string)
    requires SubjectResolves(config, identity) && identity.userKey in USER_KEYS && identity.subject != ""
    requires |ProvisioningDomain(organizationId)| <= MAX_DOMAIN_LENGTH
    ensures var tables := TablesOf(identity, organizationId);
            AcquireIdentity(config, tables, organizationId, identity.scimUserId) == Some(identity)
              && HasRows(tables, identity)
  {
  }

  lemma {:induction false} AboveAll(keys: set<nat>) returns (n: nat)
    ensures forall k | k in keys :: k < n
  {
    if keys == {} {
      n := 0;
    } else {
      var k :| k in keys;
      var m := AboveAll(keys - {k});
      assert keys == keys - {k} + {k};
      n := if k < m then m else k + 1;
    }
  }

  lemma StepExtends(config: Config, s: State, action: Action)
    requires HasTables(s)
    ensures Extends(s.history, Step(config, s, action).history)
  {
    if IsRequestStart(action) {
      RequestStartExtends(config, s, action);
    } else if IsRead(action) {
      ReadExtends(config, s, action);
    } else {
      match action {
        case IssueCode(lookup, params, code) => IssueCodeExtends(config, s, lookup, params, code);
        case ExchangeCode(form) => ExchangeCodeExtends(config, s, form);
        case _ =>
      }
    }
  }

  lemma IssueCodeExtends(config: Config, s: State, lookup: nat, params: Params, code: string)
    ensures Extends(s.history, DoIssueCode(config, s, lookup, params, code).history)
  {
  }

  lemma ExchangeCodeExtends(config: Config, s: State, form: TokenForm)
    ensures Extends(s.history, DoExchangeCode(config, s, form).history)
  {
  }

  lemma ReadExtends(config: Config, s: State, action: Action)
    requires HasTables(s) && IsRead(action)
    ensures Extends(s.history, Step(config, s, action).history)
  {
  }

  lemma RequestStartExtends(config: Config, s: State, action: Action)
    requires HasTables(s) && IsRequestStart(action)
    ensures Extends(s.history, Step(config, s, action).history)
  {
  }

  lemma ExtendsThrough(h: History, middle: History, h': History)
    requires Extends(h, middle) && Extends(middle, h')
    ensures Extends(h, h')
  {
  }

  /** Nothing that was recorded is ever changed. */
  lemma {:induction false} RunExtends(config: Config, s: State, actions: seq<Action>)
    requires HasTables(s)
    ensures Extends(s.history, Run(config, s, actions).history)
  {
    if actions != [] {
      var before := Run(config, s, actions[..|actions| - 1]);
      RunExtends(config, s, actions[..|actions| - 1]);
      StepExtends(config, before, actions[|actions| - 1]);
      ExtendsThrough(s.history, before.history, Run(config, s, actions).history);
    }
  }

  // ----- The bound -----

  predicate HasChain(h: History, portal: Id) {
    portal in h.portals && h.portals[portal].grant in h.grants
  }

  function GrantOf(h: History, portal: Id): Grant
    requires HasChain(h, portal)
  {
    h.grants[h.portals[portal].grant]
  }

  /** Every lookup of the portal is checked less than fifteen minutes after its grant was made. */
  predicate CheckedWithin(h: History, portal: Id) {
    HasChain(h, portal) &&
    forall i | 0 <= i < |h.lookups| && h.lookups[i].portal == portal ::
      h.lookups[i].start.at < GrantOf(h, portal).made.at + FIFTEEN_MINUTES
  }

  /** Every lookup of the portal that is answered at once is answered within that time. */
  predicate PromptWithin(h: History, portal: Id) {
    HasChain(h, portal) &&
    forall i | 0 <= i < |h.lookups| && h.lookups[i].portal == portal && h.lookups[i].start.at == h.lookups[i].end.at ::
      h.lookups[i].end.at < GrantOf(h, portal).made.at + FIFTEEN_MINUTES
  }

  /** The grant was exchanged within its own lifetime, including the time that the exchange took. */
  predicate ExchangedInLifetime(h: History, portal: Id)
    requires HasChain(h, portal)
  {
    h.portals[portal].end.at <= GrantOf(h, portal).made.at + ACCESS_TTL_MS
  }

  lemma StoredHasChain(config: Config, s: State, portal: Id)
    requires Good(config, s) && portal in s.store && portal.TokenId? && portal.purpose == PortalPurpose
    ensures HasChain(s.history, portal)
    ensures var p := s.history.portals[portal];
            && s.store[portal] == EmployeeEntry(p.identity, PortalPurpose, p.end.at + PORTAL_TTL_MS)
            && SubjectResolves(config, p.identity) && p.identity.userKey in USER_KEYS
  {
    assert GoodEntry(s.history, portal, s.store[portal]);
    assert GoodPortal(s.history, s.history.portals[portal]);
    assert GoodGrant(config, s.history, GrantOf(s.history, portal));
  }

  lemma {:induction false} InLifetimeKeepsBound(config: Config, s: State, actions: seq<Action>, portal: Id)
    requires Good(config, s) && HasChain(s.history, portal) && ExchangedInLifetime(s.history, portal)
    ensures CheckedWithin(Run(config, s, actions).history, portal)
  {
    RunKeeps(config, s, actions);
    RunExtends(config, s, actions);
    var h := Run(config, s, actions).history;
    forall i | 0 <= i < |h.lookups| && h.lookups[i].portal == portal
      ensures h.lookups[i].start.at < GrantOf(h, portal).made.at + FIFTEEN_MINUTES
    {
      assert GoodLookup(h, h.lookups[i]);
    }
  }

  /** A portal that has not expired can still be looked up in its last millisecond, and answered at any time after. */
  lemma LateLookup(config: Config, s: State, token: string, wait: nat) returns (actions: seq<Action>)
    requires Good(config, s) && IsOpaqueToken(token)
    requires TokenIdentifier(config, PortalPurpose, token) in s.store
    requires s.store[TokenIdentifier(config, PortalPurpose, token)].expiresAt > s.clock
    ensures var portal := TokenIdentifier(config, PortalPurpose, token);
            var h := Run(config, s, actions).history;
            && HasChain(s.history, portal) && HasChain(h, portal) && GrantOf(h, portal) == GrantOf(s.history, portal)
            && h.lookups != []
            && var lookup := h.lookups[|h.lookups| - 1];
               && lookup.portal == portal && lookup.start.at == s.history.portals[portal].end.at + PORTAL_TTL_MS - 1
               && lookup.end.at == lookup.start.at + wait
  {
    var portal := TokenIdentifier(config, PortalPurpose, token);
    StoredHasChain(config, s, portal);
    var identity := s.history.portals[portal].identity;
    var task := AboveAll(s.tasks.Keys);
    var elapsed := s.store[portal].expiresAt - 1 - s.clock;
    var s1 := s.(history := s.history.(tables := s.history.tables + [TablesOf(identity, "")]));
    actions := [ChangeTables(TablesOf(identity, ""))] + [Tick(elapsed)] + LookupActions(task, token, wait);
    LateLookupRuns(config, s, TablesOf(identity, ""), elapsed, task, token, wait);
    TablesPass(config, identity, "");
    LookupStageCompletes(config, Later(s1, elapsed), task, token, identity, wait);
    RunExtends(config, s, actions);
  }

  lemma {:induction false} LateLookupRuns(config: Config, s: State, tables: Tables, elapsed: nat, task: nat,
                                          token: string, wait: nat)
    requires HasTables(s)
    ensures var s1 := s.(history := s.history.(tables := s.history.tables + [tables]));
            Run(config, s, [ChangeTables(tables)] + [Tick(elapsed)] + LookupActions(task, token, wait))
            == LookupStage(config, Later(s1, elapsed), task, token, wait)
  {
    RunOne(config, s, ChangeTables(tables));
    WaitRuns(config, s, [ChangeTables(tables)], elapsed);
    RunAppend(config, s, [ChangeTables(tables)] + [Tick(elapsed)], LookupActions(task, token, wait));
    LookupRuns(config, Run(config, s, [ChangeTables(tables)] + [Tick(elapsed)]), task, token, wait);
  }

  /**
   For a stored portal that has not expired, every lookup in every continuation is checked less than
   fifteen minutes after the grant was made if and only if the portal was stored within the grant's
   five minutes; and the same holds of the answers that are given at once.
   */
  lemma {:induction false} AgeBoundExact(config: Config, s: State, token: string)
    requires Good(config, s) && IsOpaqueToken(token)
    requires TokenIdentifier(config, PortalPurpose, token) in s.store
    requires s.store[TokenIdentifier(config, PortalPurpose, token)].expiresAt > s.clock
    ensures var portal := TokenIdentifier(config, PortalPurpose, token);
            && HasChain(s.history, portal)
            && ((forall actions :: CheckedWithin(Run(config, s, actions).history, portal))
                <==> ExchangedInLifetime(s.history, portal))
            && ((forall actions :: PromptWithin(Run(config, s, actions).history, portal))
                <==> ExchangedInLifetime(s.history, portal))
  {
    var portal := TokenIdentifier(config, PortalPurpose, token);
    StoredHasChain(config, s, portal);
    if ExchangedInLifetime(s.history, portal) {
      forall actions ensures CheckedWithin(Run(config, s, actions).history, portal) {
        InLifetimeKeepsBound(config, s, actions, portal);
      }
    } else {
      var actions := LateLookup(config, s, token, 0);
      assert !PromptWithin(Run(config, s, actions).history, portal);
      assert !CheckedWithin(Run(config, s, actions).history, portal);
    }
  }

  /** No time bounds the age of an answer: the request that looks the portal up may take any time. */
  lemma AnswerAgeUnbounded(config: Config, s: State, token: string, age: nat) returns (actions: seq<Action>)
    requires Good(config, s) && Ordered(s) && IsOpaqueToken(token)
    requires TokenIdentifier(config, PortalPurpose, token) in s.store
    requires s.store[TokenIdentifier(config, PortalPurpose, token)].expiresAt > s.clock
    ensures var portal := TokenIdentifier(config, PortalPurpose, token);
            var h := Run(config, s, actions).history;
            && HasChain(h, portal) && h.lookups != []
            && var lookup := h.lookups[|h.lookups| - 1];
               lookup.portal == portal && lookup.end.at >= GrantOf(h, portal).made.at + age
  {
    var portal := TokenIdentifier(config, PortalPurpose, token);
    StoredHasChain(config, s, portal);
    assert OrderedPortal(s.history, s.history.portals[portal], Present(s));
    actions := LateLookup(config, s, token, age);
  }

  // ----- A run that reaches fifteen minutes -----

  lemma ChainAfterGrant(config: Config, s: State, identity: Identity, grantToken: string, portalToken: string,
                        waits: Waits)
    requires HasTables(s) && s.history.lookups == []
    ensures var h := LookupAfterGrant(config, s, identity, grantToken, portalToken, waits).history;
            var portal := TokenIdentifier(config, PortalPurpose, portalToken);
            && HasChain(h, portal) && GrantOf(h, portal).made.at == s.clock
            && |h.lookups| == 1 && h.lookups[0].portal == portal
            && h.lookups[0].start.at == s.clock + waits.grant + waits.exchange + waits.portal
            && h.lookups[0].end.at == h.lookups[0].start.at + waits.lookup
  {
  }

  function LateActions(identity: Identity, grantToken: string, portalToken: string, exchange: nat): seq<Action> {
    [ChangeTables(TablesOf(identity, ""))]
    + EmployeeActions(0, "", identity.scimUserId, grantToken, portalToken,
                      Waits(ACCESS_TTL_MS - 1, exchange, PORTAL_TTL_MS - 1, 0))
  }

  /**
   From any start and for any employee: the grant is taken in its last millisecond, the exchange
   takes a while, and the portal is looked up and answered in its last millisecond. With an exchange
   of two milliseconds or more, fifteen minutes have passed.
   */
  lemma {:induction false} FifteenMinutesReached(config: Config, s: State, identity: Identity, grantToken: string,
                                                 portalToken: string,
                              exchange: nat)
    requires IsStart(s) && IsOpaqueToken(grantToken) && IsOpaqueToken(portalToken)
    requires SubjectResolves(config, identity) && identity.userKey in USER_KEYS && identity.subject != ""
    ensures var h := Run(config, s, LateActions(identity, grantToken, portalToken, exchange)).history;
            var portal := TokenIdentifier(config, PortalPurpose, portalToken);
            && HasChain(h, portal) && |h.lookups| == 1 && h.lookups[0].portal == portal
            && h.lookups[0].start.at == h.lookups[0].end.at
            && h.lookups[0].end.at - GrantOf(h, portal).made.at == FIFTEEN_MINUTES - 2 + exchange
            && (PromptWithin(h, portal) <==> exchange < 2)
  {
    var waits := Waits(ACCESS_TTL_MS - 1, exchange, PORTAL_TTL_MS - 1, 0);
    LateActionsRun(config, s, identity, grantToken, portalToken, exchange);
    ChainAfterGrant(config, WithEmployee(s, identity), identity, grantToken, portalToken, waits);
  }

  function WithEmployee(s: State, identity: Identity): (s': State)
    ensures HasTables(s') && Now(s') == TablesOf(identity, "")
  {
    s.(history := s.history.(tables := s.history.tables + [TablesOf(identity, "")]))
  }

  lemma {:induction false} LateActionsRun(config: Config, s: State, identity: Identity, grantToken: string,
                                          portalToken: string,
                       exchange: nat)
    requires IsStart(s) && IsOpaqueToken(grantToken) && IsOpaqueToken(portalToken)
    requires SubjectResolves(config, identity) && identity.userKey in USER_KEYS && identity.subject != ""
    ensures var waits := Waits(ACCESS_TTL_MS - 1, exchange, PORTAL_TTL_MS - 1, 0);
            Run(config, s, LateActions(identity, grantToken, portalToken, exchange))
            == LookupAfterGrant(config, WithEmployee(s, identity), identity, grantToken, portalToken, waits)
  {
    var tables := TablesOf(identity, "");
    var waits := Waits(ACCESS_TTL_MS - 1, exchange, PORTAL_TTL_MS - 1, 0);
    RunOne(config, s, ChangeTables(tables));
    RunAppend(config, s, [ChangeTables(tables)],
              EmployeeActions(0, "", identity.scimUserId, grantToken, portalToken, waits));
    TablesAcquire(config, identity, "");
    var s1 := WithEmployee(s, identity);
    EmployeeStagesRun(config, s1, 0, "", identity.scimUserId, grantToken, portalToken, waits);
    EmployeeStagesComplete(config, s1, 0, "", identity.scimUserId, identity, grantToken, portalToken, waits);
  }
}
