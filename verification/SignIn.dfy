/**
 The workforce sign-in as a state machine. A request is a task that takes one database or store
 access per step, so that requests, directory changes and the clock interleave at every access.
 */
module SignIn {
  import opened Text
  import opened Base64
  import opened Subjects
  import opened Platform
  import opened Oidc
  import opened Directory

  const ACCESS_TTL_MS := 5 * 60 * 1000
  const PORTAL_TTL_MS := 10 * 60 * 1000
  const CODE_TTL_MS := 2 * 60 * 1000

  // ----- The verification store -----

  datatype EmployeeRecord = EmployeeRecord(identity: Identity, purpose: Purpose, expiresAt: int)

  /** What an entry holds once its text has been decoded; `Foreign` is any text of another kind. */
  datatype Value = Employee(record: EmployeeRecord) | Code(codeRecord: CodeRecord) | Foreign(text: string)

  datatype Entry = Entry(value: Value, expiresAt: int)

  type Store = map<Id, Entry>

  /** The identifier under which a token's record is stored: the token itself is not. */
  function TokenIdentifier(config: Config, purpose: Purpose, token: string): Id {
    TokenId(purpose, config.tokenDigest(purpose, token))
  }

  predicate IsOpaqueToken(token: string) {
    |token| == 43 && IsToken(token)
  }

  /** What consuming an entry returns: nothing for one that is past its expiry. */
  function Consumed(store: Store, id: Id, now: int): Option<Value> {
    if id in store && store[id].expiresAt >= now then Some(store[id].value) else None
  }

  /** A record for the given purpose, for a known user, that has not expired. */
  function ParseRecord(value: Value, purpose: Purpose, now: int): Option<EmployeeRecord> {
    if value.Employee? && value.record.purpose == purpose && value.record.identity.userKey in USER_KEYS
       && value.record.expiresAt > now
    then Some(value.record)
    else None
  }

  // ----- Tasks -----

  /** A point of a run: the clock and the directory's version. */
  datatype Moment = Moment(at: int, version: nat)

  datatype Origin = FromGrant(grant: Id) | FromPortal(portal: Id)

  datatype Stage =
    | AwaitConnection
    | AwaitSource(connection: Connection, connectionSeen: nat)
    | AwaitRows(source: Source, connectionSeen: nat, sourceSeen: nat, subjectRead: bool, userRead: bool)

  datatype Task =
    | Acquired(identity: Identity, seen: nat)
    | Validating(origin: Origin, record: Identity, start: Moment, stage: Stage)
    | Validated(origin: Origin, identity: Identity, start: Moment, connectionSeen: nat, sourceSeen: nat)

  // ----- History -----

  /** Acquired in one version of the directory, and made some time later. */
  datatype Grant = Grant(identity: Identity, seen: nat, made: Moment)

  /** From taking the grant to storing the portal, with the versions read in between. */
  datatype Portal = Portal(identity: Identity, grant: Id, start: Moment, end: Moment, connectionSeen: nat,
                           sourceSeen: nat)

  /** From reading the portal to returning its identity, with the versions read in between. */
  datatype Lookup = Lookup(identity: Identity, portal: Id, start: Moment, end: Moment, connectionSeen: nat,
                           sourceSeen: nat)

  datatype IssuedCode = IssuedCode(record: CodeRecord, params: Params, lookup: nat, createdAt: int)
  datatype IssuedToken = IssuedToken(response: TokenResponse, code: Id, form: TokenForm, redeemedAt: int)

  /** Everything that ever happened: the directory's successive contents and all that was issued. */
  datatype History = History(
    tables: seq<Tables>,
    grants: map<Id, Grant>,
    portals: map<Id, Portal>,
    lookups: seq<Lookup>,
    codes: map<Id, IssuedCode>,
    tokens: seq<IssuedToken>)

  datatype State = State(clock: int, store: Store, tasks: map<nat, Task>, history: History)

  predicate HasTables(s: State) {
    s.history.tables != []
  }

  function Now(s: State): Tables
    requires HasTables(s)
  {
    s.history.tables[|s.history.tables| - 1]
  }

  function Version(s: State): nat
    requires HasTables(s)
  {
    |s.history.tables| - 1
  }

  function Present(s: State): Moment
    requires HasTables(s)
  {
    Moment(s.clock, Version(s))
  }

  /** An identifier that was never used. New tokens and codes are random, so theirs are unused. */
  predicate IsUnused(s: State, id: Id) {
    id !in s.store && id !in s.history.grants && id !in s.history.portals && id !in s.history.codes
  }

  // ----- Steps -----

  datatype Action =
    | Tick(elapsed: nat)
    | ChangeTables(tables: Tables)
    | AcquireGrant(task: nat, organizationId: string, scimUserId: string)
    | StoreGrant(task: nat, token: string)
    | ConsumeGrant(task: nat, token: string)
    | LookUpPortal(task: nat, token: string)
    | ReadConnection(task: nat)
    | ReadSource(task: nat)
    | ReadSubject(task: nat)
    | ReadUser(task: nat)
    | StorePortal(task: nat, token: string)
    | ReadRole(task: nat)
    | IssueCode(lookup: nat, params: Params, code: string)
    | ExchangeCode(form: TokenForm)
    | WriteOther(text: string, entry: Entry)
    | Remove(id: Id)

  /** Puts a task's next form in its place, or ends the task. */
  function Replace(s: State, task: nat, next: Option<Task>): State {
    s.(tasks := if next.None? then s.tasks - {task} else s.tasks[task := next.value])
  }

  function DoAcquireGrant(config: Config, s: State, task: nat, organizationId: string, scimUserId: string): State
    requires HasTables(s)
  {
    var identity := AcquireIdentity(config, Now(s), organizationId, scimUserId);
    if task in s.tasks || identity.None? then s
    else Replace(s, task, Some(Acquired(identity.value, Version(s))))
  }

  function DoStoreGrant(config: Config, s: State, task: nat, token: string): State
    requires HasTables(s)
  {
    var id := TokenIdentifier(config, AccessPurpose, token);
    if task !in s.tasks || !s.tasks[task].Acquired? || !IsUnused(s, id) then s
    else
      var identity := s.tasks[task].identity;
      var expiresAt := s.clock + ACCESS_TTL_MS;
      var entry := Entry(Employee(EmployeeRecord(identity, AccessPurpose, expiresAt)), expiresAt);
      s.(store := s.store[id := entry],
         tasks := s.tasks - {task},
         history := s.history.(grants := s.history.grants[id := Grant(identity, s.tasks[task].seen, Present(s))]))
  }

  function DoConsumeGrant(config: Config, s: State, task: nat, token: string): State
    requires HasTables(s)
  {
    var id := TokenIdentifier(config, AccessPurpose, token);
    if task in s.tasks || !IsOpaqueToken(token) then s
    else
      var consumed := Consumed(s.store, id, s.clock);
      var spent := s.(store := s.store - {id});
      if consumed.None? then spent
      else
        var record := ParseRecord(consumed.value, AccessPurpose, s.clock);
        if record.None? then spent
        else Replace(spent, task, Some(Validating(FromGrant(id), record.value.identity, Present(s), AwaitConnection)))
  }

  function DoLookUpPortal(config: Config, s: State, task: nat, token: string): State
    requires HasTables(s)
  {
    var id := TokenIdentifier(config, PortalPurpose, token);
    if task in s.tasks || !IsOpaqueToken(token) || id !in s.store then s
    else
      var record := ParseRecord(s.store[id].value, PortalPurpose, s.clock);
      if record.None? then s
      else Replace(s, task, Some(Validating(FromPortal(id), record.value.identity, Present(s), AwaitConnection)))
  }

  function AfterConnection(tables: Tables, version: nat, t: Task): Option<Task>
    requires t.Validating? && t.stage.AwaitConnection?
  {
    var connection := FindEligibleConnection(tables, t.record.connectionId);
    if connection.None? then None else Some(t.(stage := AwaitSource(connection.value, version)))
  }

  function DoReadConnection(s: State, task: nat): State
    requires HasTables(s)
  {
    if task !in s.tasks || !s.tasks[task].Validating? || !s.tasks[task].stage.AwaitConnection? then s
    else Replace(s, task, AfterConnection(Now(s), Version(s), s.tasks[task]))
  }

  function AfterSource(tables: Tables, version: nat, t: Task): Option<Task>
    requires t.Validating? && t.stage.AwaitSource?
  {
    var source := FindRecordedSource(tables, t.record, t.stage.connection);
    if source.None? then None
    else Some(t.(stage := AwaitRows(source.value, t.stage.connectionSeen, version, false, false)))
  }

  function DoReadSource(s: State, task: nat): State
    requires HasTables(s)
  {
    if task !in s.tasks || !s.tasks[task].Validating? || !s.tasks[task].stage.AwaitSource? then s
    else Replace(s, task, AfterSource(Now(s), Version(s), s.tasks[task]))
  }

  /** Once both rows have been read, the subject is resolved and the identity is complete. */
  function AfterRows(config: Config, t: Task): Option<Task>
    requires t.Validating? && t.stage.AwaitRows?
  {
    if !(t.stage.subjectRead && t.stage.userRead) then Some(t)
    else if config.resolveSubject(t.record.connectionId, t.record.subject) != Some(t.record.userKey) then None
    else Some(Validated(t.origin, Refreshed(t.record, t.stage.source), t.start, t.stage.connectionSeen,
                        t.stage.sourceSeen))
  }

  function AfterRow(config: Config, tables: Tables, t: Task, subject: bool): Option<Task>
    requires t.Validating? && t.stage.AwaitRows?
  {
    var found := if subject then t.record.userId in tables.subjects else t.record.userId in tables.users;
    var stage := if subject then t.stage.(subjectRead := true) else t.stage.(userRead := true);
    if found then AfterRows(config, t.(stage := stage)) else None
  }

  function DoReadRow(config: Config, s: State, task: nat, subject: bool): State
    requires HasTables(s)
  {
    if task !in s.tasks || !s.tasks[task].Validating? || !s.tasks[task].stage.AwaitRows? then s
    else Replace(s, task, AfterRow(config, Now(s), s.tasks[task], subject))
  }

  function DoStorePortal(config: Config, s: State, task: nat, token: string): State
    requires HasTables(s)
  {
    var id := TokenIdentifier(config, PortalPurpose, token);
    if task !in s.tasks || !s.tasks[task].Validated? || !s.tasks[task].origin.FromGrant? || !IsUnused(s, id) then s
    else
      var t := s.tasks[task];
      var expiresAt := s.clock + PORTAL_TTL_MS;
      var entry := Entry(Employee(EmployeeRecord(t.identity, PortalPurpose, expiresAt)), expiresAt);
      var portal := Portal(t.identity, t.origin.grant, t.start, Present(s), t.connectionSeen, t.sourceSeen);
      s.(store := s.store[id := entry],
         tasks := s.tasks - {task},
         history := s.history.(portals := s.history.portals[id := portal]))
  }

  /** The last read of a portal lookup; without a user row nothing is returned. */
  function DoReadRole(s: State, task: nat): State
    requires HasTables(s)
  {
    if task !in s.tasks || !s.tasks[task].Validated? || !s.tasks[task].origin.FromPortal? then s
    else
      var t := s.tasks[task];
      var done := s.(tasks := s.tasks - {task});
      if t.identity.userId !in Now(s).users then done
      else
        var lookup := Lookup(t.identity, t.origin.portal, t.start, Present(s), t.connectionSeen, t.sourceSeen);
        done.(history := s.history.(lookups := s.history.lookups + [lookup]))
  }

  /** Stores a new code's record for a looked-up identity. */
  function StoreCode(s: State, lookup: nat, params: Params, id: Id, record: CodeRecord): State {
    s.(store := s.store[id := Entry(Code(record), s.clock + CODE_TTL_MS)],
       history := s.history.(codes := s.history.codes[id := IssuedCode(record, params, lookup, s.clock)]))
  }

  function DoIssueCode(config: Config, s: State, lookup: nat, params: Params, code: string): State {
    if lookup >= |s.history.lookups| || !IsUnused(s, CodeId(code)) then s
    else
      var record := AuthorizeCode(config, params, s.history.lookups[lookup].identity);
      if record.Err? then s else StoreCode(s, lookup, params, CodeId(code), record.value)
  }

  /** What a code exchange answers and what it leaves in the store. */
  function Exchange(config: Config, store: Store, form: TokenForm, now: int): (Result<TokenResponse>, Store) {
    var checked := CheckForm(config, form);
    if checked.Err? then (Err(checked.code, checked.status), store)
    else
      var (code, redirectURI, verifier) := checked.value;
      var id := CodeId(code);
      var consumed := Consumed(store, id, now);
      if consumed.None? || !consumed.value.Code? then (Err("invalid_grant", 400), store - {id})
      else (RedeemRecord(config, consumed.value.codeRecord, redirectURI, verifier, now), store - {id})
  }

  function DoExchangeCode(config: Config, s: State, form: TokenForm): State {
    var (result, store) := Exchange(config, s.store, form, s.clock);
    if result.Err? then s.(store := store)
    else
      var token := IssuedToken(result.value, CodeId(form.code.value), form, s.clock);
      s.(store := store, history := s.history.(tokens := s.history.tokens + [token]))
  }

  function Step(config: Config, s: State, action: Action): (s': State)
    requires HasTables(s)
    ensures HasTables(s')
  {
    match action
    case Tick(elapsed) => s.(clock := s.clock + elapsed)
    case ChangeTables(tables) => s.(history := s.history.(tables := s.history.tables + [tables]))
    case AcquireGrant(task, organizationId, scimUserId) => DoAcquireGrant(config, s, task, organizationId, scimUserId)
    case StoreGrant(task, token) => DoStoreGrant(config, s, task, token)
    case ConsumeGrant(task, token) => DoConsumeGrant(config, s, task, token)
    case LookUpPortal(task, token) => DoLookUpPortal(config, s, task, token)
    case ReadConnection(task) => DoReadConnection(s, task)
    case ReadSource(task) => DoReadSource(s, task)
    case ReadSubject(task) => DoReadRow(config, s, task, true)
    case ReadUser(task) => DoReadRow(config, s, task, false)
    case StorePortal(task, token) => DoStorePortal(config, s, task, token)
    case ReadRole(task) => DoReadRole(s, task)
    case IssueCode(lookup, params, code) => DoIssueCode(config, s, lookup, params, code)
    case ExchangeCode(form) => DoExchangeCode(config, s, form)
    case WriteOther(text, entry) => s.(store := s.store[OtherId(text) := entry])
    case Remove(id) => s.(store := s.store - {id})
  }

  /** The state after a sequence of steps, in any interleaving. */
  function Run(config: Config, s: State, actions: seq<Action>): (s': State)
    requires HasTables(s)
    ensures HasTables(s')
  {
    if actions == [] then s
    else Step(config, Run(config, s, actions[..|actions| - 1]), actions[|actions| - 1])
  }

  /** Nothing issued yet, no request under way, and no entry of the sign-in in the store. */
  predicate IsStart(s: State) {
    && |s.history.tables| == 1
    && s.history == History(s.history.tables, map[], map[], [], map[], [])
    && s.tasks == map[]
    && forall id | id in s.store :: id.OtherId?
  }
}
