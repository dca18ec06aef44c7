/** What every step of the sign-in keeps: where each stored record and each pending request comes from. */
module SignInInvariants {
  import opened Text
  import opened Subjects
  import opened Platform
  import opened Oidc
  import opened Directory
  import opened SignIn

  // ----- Provenance -----

  /** Read in two versions of the directory, the connection and source were active in one domain. */
  predicate ActiveWhenSeen(h: History, connectionSeen: nat, sourceSeen: nat, identity: Identity) {
    && connectionSeen < |h.tables| && sourceSeen < |h.tables|
    && identity.connectionId in h.tables[connectionSeen].connections
    && var domain := h.tables[connectionSeen].connections[identity.connectionId].domain;
       && ConnectionActive(h.tables[connectionSeen], identity, domain)
       && SourceActive(h.tables[sourceSeen], identity, domain)
  }

  /** The same, and the identity has the name and address that the source had when it was read. */
  predicate CurrentWhenSeen(h: History, connectionSeen: nat, sourceSeen: nat, identity: Identity) {
    && ActiveWhenSeen(h, connectionSeen, sourceSeen, identity)
    && IsNamedBy(h.tables[sourceSeen].sources[identity.scimUserId], identity)
  }

  predicate GoodGrant(config: Config, h: History, g: Grant) {
    CurrentWhenSeen(h, g.seen, g.seen, g.identity) && SubjectResolves(config, g.identity)
  }

  predicate GoodPortal(h: History, p: Portal) {
    && p.grant in h.grants
    && SameEmployee(p.identity, h.grants[p.grant].identity) && p.identity.userKey in USER_KEYS
    && p.start.at < h.grants[p.grant].made.at + ACCESS_TTL_MS
    && CurrentWhenSeen(h, p.connectionSeen, p.sourceSeen, p.identity)
  }

  predicate GoodLookup(h: History, l: Lookup) {
    && l.portal in h.portals
    && SameEmployee(l.identity, h.portals[l.portal].identity)
    && l.start.at < h.portals[l.portal].end.at + PORTAL_TTL_MS
    && CurrentWhenSeen(h, l.connectionSeen, l.sourceSeen, l.identity)
  }

  predicate GoodCode(config: Config, h: History, c: IssuedCode) {
    && c.lookup < |h.lookups|
    && var identity := h.lookups[c.lookup].identity;
       && c.record.connectionId == identity.connectionId && c.record.subject == identity.subject
       && c.record.userKey == identity.userKey && c.record.email == identity.email
       && c.record.clientId == CLIENT_ID && c.record.redirectURI == RedirectURI(config) && c.record.userKey in USER_KEYS
  }

  predicate GoodToken(h: History, t: IssuedToken) {
    && t.code in h.codes
    && var record := h.codes[t.code].record;
       && t.response.idToken.connectionId == record.connectionId && t.response.idToken.subject == record.subject
       && t.response.idToken.email == record.email && t.response.idToken.name == record.name
       && t.response.idToken.nonce == NonEmptyValue(record.nonce) && t.response.idToken.audience == record.clientId
       && t.response.scope == record.scope
  }

  /** Grants and portals are kept under token identifiers, codes under code identifiers. */
  predicate GoodKeys(h: History) {
    && (forall id | id in h.grants :: id.TokenId?)
    && (forall id | id in h.portals :: id.TokenId?)
    && (forall id | id in h.codes :: id.CodeId?)
  }

  predicate GoodHistory(config: Config, h: History) {
    && GoodKeys(h)
    && (forall id {:trigger GoodGrant(config, h, h.grants[id])} | id in h.grants :: GoodGrant(config, h, h.grants[id]))
    && (forall id {:trigger GoodPortal(h, h.portals[id])} | id in h.portals :: GoodPortal(h, h.portals[id]))
    && (forall i {:trigger GoodLookup(h, h.lookups[i])} | 0 <= i < |h.lookups| :: GoodLookup(h, h.lookups[i]))
    && (forall id {:trigger GoodCode(config, h, h.codes[id])} | id in h.codes :: GoodCode(config, h, h.codes[id]))
    && (forall i {:trigger GoodToken(h, h.tokens[i])} | 0 <= i < |h.tokens| :: GoodToken(h, h.tokens[i]))
  }

  predicate GoodEntry(h: History, id: Id, e: Entry) {
    match id
    case TokenId(AccessPurpose, _) =>
      && id in h.grants
      && var expiresAt := h.grants[id].made.at + ACCESS_TTL_MS;
         e == Entry(Employee(EmployeeRecord(h.grants[id].identity, AccessPurpose, expiresAt)), expiresAt)
    case TokenId(PortalPurpose, _) =>
      && id in h.portals
      && var expiresAt := h.portals[id].end.at + PORTAL_TTL_MS;
         e == Entry(Employee(EmployeeRecord(h.portals[id].identity, PortalPurpose, expiresAt)), expiresAt)
    case CodeId(_) => id in h.codes && e == Entry(Code(h.codes[id].record), h.codes[id].createdAt + CODE_TTL_MS)
    case OtherId(_) => true
  }

  predicate GoodStore(h: History, store: Store) {
    forall id {:trigger GoodEntry(h, id, store[id])} | id in store :: GoodEntry(h, id, store[id])
  }

  /** A request's record is that of its grant or portal, and it was taken before the record expired. */
  predicate GoodOrigin(h: History, origin: Origin, identity: Identity, start: Moment) {
    identity.userKey in USER_KEYS &&
    match origin
    case FromGrant(g) =>
      g in h.grants && SameEmployee(identity, h.grants[g].identity) && start.at < h.grants[g].made.at + ACCESS_TTL_MS
    case FromPortal(p) =>
      p in h.portals && SameEmployee(identity, h.portals[p].identity) && start.at < h.portals[p].end.at + PORTAL_TTL_MS
  }

  predicate GoodStage(h: History, record: Identity, stage: Stage) {
    match stage
    case AwaitConnection => true
    case AwaitSource(connection, seen) =>
      seen < |h.tables| && connection.status == Active && record.connectionId in h.tables[seen].connections
      && h.tables[seen].connections[record.connectionId] == connection
    case AwaitRows(source, connectionSeen, sourceSeen, _, _) =>
      ActiveWhenSeen(h, connectionSeen, sourceSeen, record) && h.tables[sourceSeen].sources[record.scimUserId] == source
  }

  predicate GoodTask(config: Config, h: History, t: Task) {
    match t
    case Acquired(identity, seen) => CurrentWhenSeen(h, seen, seen, identity) && SubjectResolves(config, identity)
    case Validating(origin, record, start, stage) => GoodOrigin(h, origin, record, start) && GoodStage(h, record, stage)
    case Validated(origin, identity, start, connectionSeen, sourceSeen) =>
      GoodOrigin(h, origin, identity, start) && CurrentWhenSeen(h, connectionSeen, sourceSeen, identity)
  }

  predicate GoodTasks(config: Config, h: History, tasks: map<nat, Task>) {
    forall task {:trigger GoodTask(config, h, tasks[task])} | task in tasks :: GoodTask(config, h, tasks[task])
  }

  predicate Good(config: Config, s: State) {
    && HasTables(s)
    && GoodHistory(config, s.history)
    && GoodStore(s.history, s.store)
    && GoodTasks(config, s.history, s.tasks)
  }

  // ----- History only grows -----

  predicate Extends(h: History, h': History) {
    && h.tables <= h'.tables
    && (forall id | id in h.grants :: id in h'.grants && h'.grants[id] == h.grants[id])
    && (forall id | id in h.portals :: id in h'.portals && h'.portals[id] == h.portals[id])
    && h.lookups <= h'.lookups
    && (forall id | id in h.codes :: id in h'.codes && h'.codes[id] == h.codes[id])
    && h.tokens <= h'.tokens
  }

  lemma ActiveStays(h: History, h': History, connectionSeen: nat, sourceSeen: nat, identity: Identity)
    requires Extends(h, h') && ActiveWhenSeen(h, connectionSeen, sourceSeen, identity)
    ensures ActiveWhenSeen(h', connectionSeen, sourceSeen, identity)
  {
    assert h'.tables[connectionSeen] == h.tables[connectionSeen] && h'.tables[sourceSeen] == h.tables[sourceSeen];
  }

  lemma GoodTaskStays(config: Config, h: History, h': History, t: Task)
    requires Extends(h, h') && GoodTask(config, h, t)
    ensures GoodTask(config, h', t)
  {
    match t {
      case Acquired(identity, seen) => ActiveStays(h, h', seen, seen, identity);
      case Validated(_, identity, _, connectionSeen, sourceSeen) =>
        ActiveStays(h, h', connectionSeen, sourceSeen, identity);
      case Validating(_, record, _, stage) =>
        match stage {
          case AwaitConnection =>
          case AwaitSource(_, seen) => assert h'.tables[seen] == h.tables[seen];
          case AwaitRows(_, connectionSeen, sourceSeen, _, _) => ActiveStays(h, h', connectionSeen, sourceSeen, record);
        }
    }
  }

  lemma GoodTasksStay(config: Config, h: History, h': History, tasks: map<nat, Task>)
    requires Extends(h, h') && GoodTasks(config, h, tasks)
    ensures GoodTasks(config, h', tasks)
  {
    forall task | task in tasks ensures GoodTask(config, h', tasks[task]) {
      GoodTaskStays(config, h, h', tasks[task]);
    }
  }

  lemma GoodStoreStays(h: History, h': History, store: Store)
    requires Extends(h, h') && GoodStore(h, store)
    ensures GoodStore(h', store)
  {
    forall id | id in store ensures GoodEntry(h', id, store[id]) {
      assert GoodEntry(h, id, store[id]);
    }
  }

  lemma GoodGrantStays(config: Config, h: History, h': History, g: Grant)
    requires Extends(h, h') && GoodGrant(config, h, g)
    ensures GoodGrant(config, h', g)
  {
    ActiveStays(h, h', g.seen, g.seen, g.identity);
  }

  lemma GoodPortalStays(h: History, h': History, p: Portal)
    requires Extends(h, h') && GoodPortal(h, p)
    ensures GoodPortal(h', p)
  {
    ActiveStays(h, h', p.connectionSeen, p.sourceSeen, p.identity);
  }

  lemma GoodLookupStays(h: History, h': History, l: Lookup)
    requires Extends(h, h') && GoodLookup(h, l)
    ensures GoodLookup(h', l)
  {
    ActiveStays(h, h', l.connectionSeen, l.sourceSeen, l.identity);
  }

  /** A longer history is good when what it adds is. */
  lemma GoodHistoryGrows(config: Config, h: History, h': History)
    requires Extends(h, h') && GoodHistory(config, h) && GoodKeys(h')
    requires forall id | id in h'.grants && id !in h.grants :: GoodGrant(config, h', h'.grants[id])
    requires forall id | id in h'.portals && id !in h.portals :: GoodPortal(h', h'.portals[id])
    requires forall i | |h.lookups| <= i < |h'.lookups| :: GoodLookup(h', h'.lookups[i])
    requires forall id | id in h'.codes && id !in h.codes :: GoodCode(config, h', h'.codes[id])
    requires forall i | |h.tokens| <= i < |h'.tokens| :: GoodToken(h', h'.tokens[i])
    ensures GoodHistory(config, h')
  {
    forall id | id in h'.grants ensures GoodGrant(config, h', h'.grants[id]) {
      if id in h.grants {
        GoodGrantStays(config, h, h', h.grants[id]);
      }
    }
    forall id | id in h'.portals ensures GoodPortal(h', h'.portals[id]) {
      if id in h.portals {
        GoodPortalStays(h, h', h.portals[id]);
      }
    }
    forall i | 0 <= i < |h'.lookups| ensures GoodLookup(h', h'.lookups[i]) {
      if i < |h.lookups| {
        GoodLookupStays(h, h', h.lookups[i]);
        assert h'.lookups[i] == h.lookups[i];
      }
    }
    forall id | id in h'.codes ensures GoodCode(config, h', h'.codes[id]) {
      if id in h.codes {
        assert GoodCode(config, h, h.codes[id]);
        assert h'.lookups[h.codes[id].lookup] == h.lookups[h.codes[id].lookup];
      }
    }
    forall i | 0 <= i < |h'.tokens| ensures GoodToken(h', h'.tokens[i]) {
      if i < |h.tokens| {
        assert GoodToken(h, h.tokens[i]) && h'.tokens[i] == h.tokens[i];
      }
    }
  }

  // ----- Steps keep provenance -----

  /** A task may move on to any good task, or end. */
  lemma ReplaceKeeps(config: Config, s: State, task: nat, next: Option<Task>)
    requires Good(config, s)
    requires next.Some? ==> GoodTask(config, s.history, next.value)
    ensures Good(config, Replace(s, task, next))
  {
    var tasks := Replace(s, task, next).tasks;
    forall other | other in tasks ensures GoodTask(config, s.history, tasks[other]) {
      assert other != task ==> other in s.tasks && tasks[other] == s.tasks[other];
    }
  }

  lemma SpendKeeps(config: Config, s: State, id: Id)
    requires Good(config, s)
    ensures Good(config, s.(store := s.store - {id}))
  {
    forall other | other in s.store - {id} ensures GoodEntry(s.history, other, s.store[other]) {
    }
  }

  /** A longer history, with new entries that it accounts for and no new tasks. */
  lemma GrowthKeeps(config: Config, s: State, s': State)
    requires Good(config, s) && Extends(s.history, s'.history) && GoodHistory(config, s'.history)
    requires forall id | id in s'.store ::
               (id in s.store && s'.store[id] == s.store[id]) || GoodEntry(s'.history, id, s'.store[id])
    requires forall task | task in s'.tasks :: task in s.tasks && s'.tasks[task] == s.tasks[task]
    ensures Good(config, s')
  {
    GoodStoreStays(s.history, s'.history, s.store);
    GoodTasksStay(config, s.history, s'.history, s.tasks);
  }

  // ----- What a history may add -----

  lemma AddGrant(config: Config, h: History, id: Id, g: Grant)
    requires GoodHistory(config, h) && GoodGrant(config, h, g) && id !in h.grants && id.TokenId?
    ensures var h' := h.(grants := h.grants[id := g]);
            Extends(h, h') && GoodHistory(config, h')
  {
    var h' := h.(grants := h.grants[id := g]);
    GoodGrantStays(config, h, h', g);
    GoodHistoryGrows(config, h, h');
  }

  lemma AddPortal(config: Config, h: History, id: Id, p: Portal)
    requires GoodHistory(config, h) && GoodPortal(h, p) && id !in h.portals && id.TokenId?
    ensures var h' := h.(portals := h.portals[id := p]);
            Extends(h, h') && GoodHistory(config, h')
  {
    var h' := h.(portals := h.portals[id := p]);
    GoodPortalStays(h, h', p);
    GoodHistoryGrows(config, h, h');
  }

  lemma AddLookup(config: Config, h: History, l: Lookup)
    requires GoodHistory(config, h) && GoodLookup(h, l)
    ensures var h' := h.(lookups := h.lookups + [l]);
            Extends(h, h') && GoodHistory(config, h')
  {
    var h' := h.(lookups := h.lookups + [l]);
    GoodLookupStays(h, h', l);
    GoodHistoryGrows(config, h, h');
  }

  lemma AddCode(config: Config, h: History, id: Id, c: IssuedCode)
    requires GoodHistory(config, h) && GoodCode(config, h, c) && id !in h.codes && id.CodeId?
    ensures var h' := h.(codes := h.codes[id := c]);
            Extends(h, h') && GoodHistory(config, h')
  {
    GoodHistoryGrows(config, h, h.(codes := h.codes[id := c]));
  }

  lemma AddToken(config: Config, h: History, t: IssuedToken)
    requires GoodHistory(config, h) && GoodToken(h, t)
    ensures var h' := h.(tokens := h.tokens + [t]);
            Extends(h, h') && GoodHistory(config, h')
  {
    GoodHistoryGrows(config, h, h.(tokens := h.tokens + [t]));
  }

  lemma AddTables(config: Config, h: History, tables: Tables)
    requires GoodHistory(config, h)
    ensures var h' := h.(tables := h.tables + [tables]);
            Extends(h, h') && GoodHistory(config, h')
  {
    GoodHistoryGrows(config, h, h.(tables := h.tables + [tables]));
  }

  // ----- What each step adds -----

  lemma StoreGrantKeeps(config: Config, s: State, task: nat, token: string)
    requires Good(config, s)
    ensures Good(config, DoStoreGrant(config, s, task, token))
  {
    var id := TokenIdentifier(config, AccessPurpose, token);
    if task in s.tasks && s.tasks[task].Acquired? && IsUnused(s, id) {
      assert GoodTask(config, s.history, s.tasks[task]);
      AddGrant(config, s.history, id, Grant(s.tasks[task].identity, s.tasks[task].seen, Present(s)));
      GrowthKeeps(config, s, DoStoreGrant(config, s, task, token));
    }
  }

  lemma ConsumeGrantKeeps(config: Config, s: State, task: nat, token: string)
    requires Good(config, s)
    ensures Good(config, DoConsumeGrant(config, s, task, token))
  {
    var id := TokenIdentifier(config, AccessPurpose, token);
    var spent := s.(store := s.store - {id});
    var consumed := Consumed(s.store, id, s.clock);
    SpendKeeps(config, s, id);
    if consumed.Some? && ParseRecord(consumed.value, AccessPurpose, s.clock).Some? {
      var record := ParseRecord(consumed.value, AccessPurpose, s.clock).value;
      assert GoodEntry(s.history, id, s.store[id]);
      ReplaceKeeps(config, spent, task, Some(Validating(FromGrant(id), record.identity, Present(s), AwaitConnection)));
    }
  }

  lemma LookUpPortalKeeps(config: Config, s: State, task: nat, token: string)
    requires Good(config, s)
    ensures Good(config, DoLookUpPortal(config, s, task, token))
  {
    var id := TokenIdentifier(config, PortalPurpose, token);
    if id in s.store && ParseRecord(s.store[id].value, PortalPurpose, s.clock).Some? {
      var record := ParseRecord(s.store[id].value, PortalPurpose, s.clock).value;
      assert GoodEntry(s.history, id, s.store[id]);
      ReplaceKeeps(config, s, task, Some(Validating(FromPortal(id), record.identity, Present(s), AwaitConnection)));
    }
  }

  lemma AfterConnectionGood(config: Config, h: History, t: Task)
    requires h.tables != [] && GoodTask(config, h, t) && t.Validating? && t.stage.AwaitConnection?
    ensures var last := |h.tables| - 1;
            var next := AfterConnection(h.tables[last], last, t);
            next.Some? ==> GoodTask(config, h, next.value)
  {
  }

  lemma AfterSourceGood(config: Config, h: History, t: Task)
    requires h.tables != [] && GoodTask(config, h, t) && t.Validating? && t.stage.AwaitSource?
    ensures var last := |h.tables| - 1;
            var next := AfterSource(h.tables[last], last, t);
            next.Some? ==> GoodTask(config, h, next.value)
  {
    assert GoodStage(h, t.record, t.stage);
  }

  lemma AfterRowGood(config: Config, h: History, tables: Tables, t: Task, subject: bool)
    requires GoodTask(config, h, t) && t.Validating? && t.stage.AwaitRows?
    ensures var next := AfterRow(config, tables, t, subject);
            next.Some? ==> GoodTask(config, h, next.value)
  {
    assert GoodStage(h, t.record, t.stage) && GoodOrigin(h, t.origin, t.record, t.start);
  }

  lemma ReadConnectionKeeps(config: Config, s: State, task: nat)
    requires Good(config, s)
    ensures Good(config, DoReadConnection(s, task))
  {
    if task in s.tasks && s.tasks[task].Validating? && s.tasks[task].stage.AwaitConnection? {
      AfterConnectionGood(config, s.history, s.tasks[task]);
      ReplaceKeeps(config, s, task, AfterConnection(Now(s), Version(s), s.tasks[task]));
    }
  }

  lemma ReadSourceKeeps(config: Config, s: State, task: nat)
    requires Good(config, s)
    ensures Good(config, DoReadSource(s, task))
  {
    if task in s.tasks && s.tasks[task].Validating? && s.tasks[task].stage.AwaitSource? {
      AfterSourceGood(config, s.history, s.tasks[task]);
      ReplaceKeeps(config, s, task, AfterSource(Now(s), Version(s), s.tasks[task]));
    }
  }

  lemma ReadRowKeeps(config: Config, s: State, task: nat, subject: bool)
    requires Good(config, s)
    ensures Good(config, DoReadRow(config, s, task, subject))
  {
    if task in s.tasks && s.tasks[task].Validating? && s.tasks[task].stage.AwaitRows? {
      AfterRowGood(config, s.history, Now(s), s.tasks[task], subject);
      ReplaceKeeps(config, s, task, AfterRow(config, Now(s), s.tasks[task], subject));
    }
  }

  lemma StorePortalKeeps(config: Config, s: State, task: nat, token: string)
    requires Good(config, s)
    ensures Good(config, DoStorePortal(config, s, task, token))
  {
    var id := TokenIdentifier(config, PortalPurpose, token);
    if task in s.tasks && s.tasks[task].Validated? && s.tasks[task].origin.FromGrant? && IsUnused(s, id) {
      var t := s.tasks[task];
      assert GoodTask(config, s.history, t);
      AddPortal(config, s.history, id, Portal(t.identity, t.origin.grant, t.start, Present(s), t.connectionSeen,
                                              t.sourceSeen));
      GrowthKeeps(config, s, DoStorePortal(config, s, task, token));
    }
  }

  lemma ReadRoleKeeps(config: Config, s: State, task: nat)
    requires Good(config, s)
    ensures Good(config, DoReadRole(s, task))
  {
    if task in s.tasks && s.tasks[task].Validated? && s.tasks[task].origin.FromPortal? {
      var t := s.tasks[task];
      assert GoodTask(config, s.history, t);
      AddLookup(config, s.history, Lookup(t.identity, t.origin.portal, t.start, Present(s), t.connectionSeen,
                                          t.sourceSeen));
      GrowthKeeps(config, s, DoReadRole(s, task));
    }
  }

  lemma AuthorizedCode(config: Config, params: Params, identity: Identity)
    ensures var record := AuthorizeCode(config, params, identity);
            record.Ok? ==>
              && record.value.connectionId == identity.connectionId && record.value.subject == identity.subject
              && record.value.userKey == identity.userKey && record.value.email == identity.email
              && record.value.clientId == CLIENT_ID && record.value.redirectURI == RedirectURI(config)
              && record.value.userKey in USER_KEYS
  {
  }

  lemma StoreCodeKeeps(config: Config, s: State, lookup: nat, params: Params, id: Id, record: CodeRecord)
    requires Good(config, s) && id.CodeId? && IsUnused(s, id)
    requires GoodCode(config, s.history, IssuedCode(record, params, lookup, s.clock))
    ensures Good(config, StoreCode(s, lookup, params, id, record))
  {
    AddCode(config, s.history, id, IssuedCode(record, params, lookup, s.clock));
    GrowthKeeps(config, s, StoreCode(s, lookup, params, id, record));
  }

  lemma IssueCodeKeeps(config: Config, s: State, lookup: nat, params: Params, code: string)
    requires Good(config, s)
    ensures Good(config, DoIssueCode(config, s, lookup, params, code))
  {
    if lookup < |s.history.lookups| && IsUnused(s, CodeId(code)) {
      var record := AuthorizeCode(config, params, s.history.lookups[lookup].identity);
      AuthorizedCode(config, params, s.history.lookups[lookup].identity);
      if record.Ok? {
        StoreCodeKeeps(config, s, lookup, params, CodeId(code), record.value);
      }
    }
  }

  lemma RedeemedRecord(config: Config, record: CodeRecord, redirectURI: string, verifier: string, now: int)
    ensures var result := RedeemRecord(config, record, redirectURI, verifier, now);
            result.Ok? ==>
              && result.value.idToken.connectionId == record.connectionId
                 && result.value.idToken.subject == record.subject
              && result.value.idToken.email == record.email && result.value.idToken.name == record.name
              && result.value.idToken.nonce == NonEmptyValue(record.nonce)
              && result.value.idToken.audience == record.clientId && result.value.scope == record.scope
  {
  }

  /** A successful exchange consumed the entry of its code. */
  lemma ExchangeUsesCode(config: Config, store: Store, form: TokenForm, now: int)
    requires Exchange(config, store, form, now).0.Ok?
    ensures form.code.Some?
    ensures var id := CodeId(form.code.value);
            && id in store && store[id].value.Code? && Exchange(config, store, form, now).1 == store - {id}
            && form.redirectURI.Some? && form.codeVerifier.Some?
            && Exchange(config, store, form, now).0
               == RedeemRecord(config, store[id].value.codeRecord, form.redirectURI.value, form.codeVerifier.value, now)
  {
  }

  lemma ExchangeSpends(config: Config, store: Store, form: TokenForm, now: int)
    ensures var left := Exchange(config, store, form, now).1;
            forall id | id in left :: id in store && left[id] == store[id]
  {
  }

  /** The token that a successful exchange issues. */
  function Exchanged(config: Config, s: State, form: TokenForm): IssuedToken
    requires Exchange(config, s.store, form, s.clock).0.Ok? && form.code.Some? && form.codeVerifier.Some?
  {
    IssuedToken(Exchange(config, s.store, form, s.clock).0.value, CodeId(form.code.value), form, s.clock)
  }

  lemma ExchangedToken(config: Config, s: State, form: TokenForm)
    requires Good(config, s) && Exchange(config, s.store, form, s.clock).0.Ok?
    ensures form.code.Some? && form.codeVerifier.Some?
    ensures GoodToken(s.history, Exchanged(config, s, form))
  {
    ExchangeUsesCode(config, s.store, form, s.clock);
    var id := CodeId(form.code.value);
    assert GoodEntry(s.history, id, s.store[id]);
    RedeemedRecord(config, s.history.codes[id].record, form.redirectURI.value, form.codeVerifier.value, s.clock);
  }

  lemma ExchangeCodeKeeps(config: Config, s: State, form: TokenForm)
    requires Good(config, s)
    ensures Good(config, DoExchangeCode(config, s, form))
  {
    ExchangeSpends(config, s.store, form, s.clock);
    if Exchange(config, s.store, form, s.clock).0.Ok? {
      ExchangedToken(config, s, form);
      AddToken(config, s.history, Exchanged(config, s, form));
    }
    GrowthKeeps(config, s, DoExchangeCode(config, s, form));
  }

  lemma ChangeTablesKeeps(config: Config, s: State, tables: Tables)
    requires Good(config, s)
    ensures Good(config, s.(history := s.history.(tables := s.history.tables + [tables])))
  {
    AddTables(config, s.history, tables);
    GrowthKeeps(config, s, s.(history := s.history.(tables := s.history.tables + [tables])));
  }

  lemma AcquireGrantKeeps(config: Config, s: State, task: nat, organizationId: string, scimUserId: string)
    requires Good(config, s)
    ensures Good(config, DoAcquireGrant(config, s, task, organizationId, scimUserId))
  {
    AcquiredIsActive(config, Now(s), organizationId, scimUserId);
    var identity := AcquireIdentity(config, Now(s), organizationId, scimUserId);
    if identity.Some? {
      ReplaceKeeps(config, s, task, Some(Acquired(identity.value, Version(s))));
    }
  }

  lemma WriteOtherKeeps(config: Config, s: State, text: string, entry: Entry)
    requires Good(config, s)
    ensures Good(config, s.(store := s.store[OtherId(text) := entry]))
  {
    GrowthKeeps(config, s, s.(store := s.store[OtherId(text) := entry]));
  }

  predicate IsRequestStart(action: Action) {
    action.AcquireGrant? || action.StoreGrant? || action.ConsumeGrant? || action.LookUpPortal? || action.StorePortal?
  }

  lemma RequestStartKeeps(config: Config, s: State, action: Action)
    requires Good(config, s) && IsRequestStart(action)
    ensures Good(config, Step(config, s, action))
  {
    match action {
      case AcquireGrant(task, organizationId, scimUserId) =>
        AcquireGrantKeeps(config, s, task, organizationId, scimUserId);
      case StoreGrant(task, token) => StoreGrantKeeps(config, s, task, token);
      case ConsumeGrant(task, token) => ConsumeGrantKeeps(config, s, task, token);
      case LookUpPortal(task, token) => LookUpPortalKeeps(config, s, task, token);
      case StorePortal(task, token) => StorePortalKeeps(config, s, task, token);
    }
  }

  /** Every step, whoever takes it, keeps the provenance of all records and requests. */
  lemma StepKeeps(config: Config, s: State, action: Action)
    requires Good(config, s)
    ensures Good(config, Step(config, s, action))
  {
    if IsRequestStart(action) {
      RequestStartKeeps(config, s, action);
    } else {
      match action {
        case Tick(_) =>
        case ChangeTables(tables) => ChangeTablesKeeps(config, s, tables);
        case ReadConnection(task) => ReadConnectionKeeps(config, s, task);
        case ReadSource(task) => ReadSourceKeeps(config, s, task);
        case ReadSubject(task) => ReadRowKeeps(config, s, task, true);
        case ReadUser(task) => ReadRowKeeps(config, s, task, false);
        case ReadRole(task) => ReadRoleKeeps(config, s, task);
        case IssueCode(lookup, params, code) => IssueCodeKeeps(config, s, lookup, params, code);
        case ExchangeCode(form) => ExchangeCodeKeeps(config, s, form);
        case WriteOther(text, entry) => WriteOtherKeeps(config, s, text, entry);
        case Remove(id) => SpendKeeps(config, s, id);
      }
    }
  }

  lemma {:induction false} RunKeeps(config: Config, s: State, actions: seq<Action>)
    requires Good(config, s)
    ensures Good(config, Run(config, s, actions))
  {
    if actions != [] {
      RunKeeps(config, s, actions[..|actions| - 1]);
      StepKeeps(config, Run(config, s, actions[..|actions| - 1]), actions[|actions| - 1]);
    }
  }

  lemma StartIsGood(config: Config, s: State)
    requires IsStart(s)
    ensures Good(config, s)
  {
  }
}
