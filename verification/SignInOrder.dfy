/** What happens in order: every part of a sign-in starts after the part it comes from has ended. */
module SignInOrder {
  import opened Text
  import opened Platform
  import opened Oidc
  import opened Directory
  import opened SignIn
  import opened SignInInvariants

  predicate NotAfter(m: Moment, m': Moment) {
    m.at <= m'.at && m.version <= m'.version
  }

  /** The directory is read between start and end, the connection first. */
  predicate ReadsInOrder(start: Moment, connectionSeen: nat, sourceSeen: nat, end: Moment) {
    start.at <= end.at && start.version <= connectionSeen <= sourceSeen <= end.version
  }

  predicate OrderedGrant(g: Grant, now: Moment) {
    g.seen <= g.made.version && NotAfter(g.made, now)
  }

  predicate OrderedPortal(h: History, p: Portal, now: Moment) {
    && p.grant in h.grants && NotAfter(h.grants[p.grant].made, p.start)
    && ReadsInOrder(p.start, p.connectionSeen, p.sourceSeen, p.end)
    && NotAfter(p.end, now)
  }

  predicate OrderedLookup(h: History, l: Lookup, now: Moment) {
    && l.portal in h.portals && NotAfter(h.portals[l.portal].end, l.start)
    && ReadsInOrder(l.start, l.connectionSeen, l.sourceSeen, l.end)
    && NotAfter(l.end, now)
  }

  predicate OrderedCode(h: History, c: IssuedCode, now: Moment) {
    c.lookup < |h.lookups| && h.lookups[c.lookup].end.at <= c.createdAt <= now.at
  }

  predicate OrderedToken(h: History, t: IssuedToken, now: Moment) {
    t.code in h.codes && h.codes[t.code].createdAt <= t.redeemedAt <= now.at
  }

  predicate OriginBefore(h: History, origin: Origin, start: Moment) {
    match origin
    case FromGrant(g) => g in h.grants && NotAfter(h.grants[g].made, start)
    case FromPortal(p) => p in h.portals && NotAfter(h.portals[p].end, start)
  }

  predicate OrderedStage(start: Moment, stage: Stage, now: Moment) {
    match stage
    case AwaitConnection => NotAfter(start, now)
    case AwaitSource(_, seen) => ReadsInOrder(start, seen, seen, now)
    case AwaitRows(_, connectionSeen, sourceSeen, _, _) => ReadsInOrder(start, connectionSeen, sourceSeen, now)
  }

  /** A request under way started after its grant or portal, and read the directory since. */
  predicate OrderedTask(h: History, t: Task, now: Moment) {
    match t
    case Acquired(_, seen) => seen <= now.version
    case Validating(origin, _, start, stage) => OriginBefore(h, origin, start) && OrderedStage(start, stage, now)
    case Validated(origin, _, start, connectionSeen, sourceSeen) =>
      OriginBefore(h, origin, start) && ReadsInOrder(start, connectionSeen, sourceSeen, now)
  }

  predicate OrderedHistory(h: History, now: Moment) {
    && (forall id {:trigger OrderedGrant(h.grants[id], now)} | id in h.grants :: OrderedGrant(h.grants[id], now))
    && (forall id {:trigger OrderedPortal(h, h.portals[id], now)} | id in h.portals ::
        OrderedPortal(h, h.portals[id], now))
    && (forall i {:trigger OrderedLookup(h, h.lookups[i], now)} | 0 <= i < |h.lookups| ::
        OrderedLookup(h, h.lookups[i], now))
    && (forall id {:trigger OrderedCode(h, h.codes[id], now)} | id in h.codes :: OrderedCode(h, h.codes[id], now))
    && (forall i {:trigger OrderedToken(h, h.tokens[i], now)} | 0 <= i < |h.tokens| ::
        OrderedToken(h, h.tokens[i], now))
  }

  predicate OrderedTasks(h: History, tasks: map<nat, Task>, now: Moment) {
    forall task {:trigger OrderedTask(h, tasks[task], now)} | task in tasks :: OrderedTask(h, tasks[task], now)
  }

  predicate Ordered(s: State)
    requires HasTables(s)
  {
    OrderedHistory(s.history, Present(s)) && OrderedTasks(s.history, s.tasks, Present(s))
  }

  // ----- Time passes -----

  lemma HistoryStays(h: History, h': History, now: Moment, now': Moment)
    requires Extends(h, h') && NotAfter(now, now') && OrderedHistory(h, now)
    requires forall id | id in h'.grants && id !in h.grants :: OrderedGrant(h'.grants[id], now')
    requires forall id | id in h'.portals && id !in h.portals :: OrderedPortal(h', h'.portals[id], now')
    requires forall i | |h.lookups| <= i < |h'.lookups| :: OrderedLookup(h', h'.lookups[i], now')
    requires forall id | id in h'.codes && id !in h.codes :: OrderedCode(h', h'.codes[id], now')
    requires forall i | |h.tokens| <= i < |h'.tokens| :: OrderedToken(h', h'.tokens[i], now')
    ensures OrderedHistory(h', now')
  {
    forall id | id in h'.grants ensures OrderedGrant(h'.grants[id], now') {
      assert id in h.grants ==> OrderedGrant(h.grants[id], now);
    }
    forall id | id in h'.portals ensures OrderedPortal(h', h'.portals[id], now') {
      assert id in h.portals ==> OrderedPortal(h, h.portals[id], now);
    }
    forall i | 0 <= i < |h'.lookups| ensures OrderedLookup(h', h'.lookups[i], now') {
      assert i < |h.lookups| ==> OrderedLookup(h, h.lookups[i], now) && h'.lookups[i] == h.lookups[i];
    }
    forall id | id in h'.codes ensures OrderedCode(h', h'.codes[id], now') {
      if id in h.codes {
        assert OrderedCode(h, h.codes[id], now);
        assert h'.lookups[h.codes[id].lookup] == h.lookups[h.codes[id].lookup];
      }
    }
    forall i | 0 <= i < |h'.tokens| ensures OrderedToken(h', h'.tokens[i], now') {
      assert i < |h.tokens| ==> OrderedToken(h, h.tokens[i], now) && h'.tokens[i] == h.tokens[i];
    }
  }

  lemma TasksStay(h: History, h': History, tasks: map<nat, Task>, tasks': map<nat, Task>, now: Moment, now': Moment)
    requires Extends(h, h') && NotAfter(now, now') && OrderedTasks(h, tasks, now)
    requires forall task | task in tasks' ::
               (task in tasks && tasks'[task] == tasks[task]) || OrderedTask(h', tasks'[task], now')
    ensures OrderedTasks(h', tasks', now')
  {
    forall task | task in tasks' ensures OrderedTask(h', tasks'[task], now') {
      assert task in tasks ==> OrderedTask(h, tasks[task], now);
    }
  }

  // ----- Steps -----

  /** A request moves on, or ends, and nothing is added to the history. */
  lemma ReplaceOrdered(s: State, task: nat, next: Option<Task>)
    requires HasTables(s) && Ordered(s)
    requires next.Some? ==> OrderedTask(s.history, next.value, Present(s))
    ensures Ordered(Replace(s, task, next))
  {
    TasksStay(s.history, s.history, s.tasks, Replace(s, task, next).tasks, Present(s), Present(s));
  }

  lemma StoreGrantOrdered(config: Config, s: State, task: nat, token: string)
    requires HasTables(s) && Ordered(s)
    ensures Ordered(DoStoreGrant(config, s, task, token))
  {
    var s' := DoStoreGrant(config, s, task, token);
    assert task in s.tasks ==> OrderedTask(s.history, s.tasks[task], Present(s));
    HistoryStays(s.history, s'.history, Present(s), Present(s));
    TasksStay(s.history, s'.history, s.tasks, s'.tasks, Present(s), Present(s));
  }

  lemma ConsumeGrantOrdered(config: Config, s: State, task: nat, token: string)
    requires Good(config, s) && Ordered(s)
    ensures Ordered(DoConsumeGrant(config, s, task, token))
  {
    var id := TokenIdentifier(config, AccessPurpose, token);
    if id in s.store && ParseRecord(s.store[id].value, AccessPurpose, s.clock).Some? {
      var identity := ParseRecord(s.store[id].value, AccessPurpose, s.clock).value.identity;
      assert GoodEntry(s.history, id, s.store[id]);
      assert OrderedGrant(s.history.grants[id], Present(s));
      ReplaceOrdered(s, task, Some(Validating(FromGrant(id), identity, Present(s), AwaitConnection)));
    }
  }

  lemma LookUpPortalOrdered(config: Config, s: State, task: nat, token: string)
    requires Good(config, s) && Ordered(s)
    ensures Ordered(DoLookUpPortal(config, s, task, token))
  {
    var id := TokenIdentifier(config, PortalPurpose, token);
    if id in s.store && ParseRecord(s.store[id].value, PortalPurpose, s.clock).Some? {
      var identity := ParseRecord(s.store[id].value, PortalPurpose, s.clock).value.identity;
      assert GoodEntry(s.history, id, s.store[id]);
      assert OrderedPortal(s.history, s.history.portals[id], Present(s));
      ReplaceOrdered(s, task, Some(Validating(FromPortal(id), identity, Present(s), AwaitConnection)));
    }
  }

  lemma ReadConnectionOrdered(s: State, task: nat)
    requires HasTables(s) && Ordered(s)
    ensures Ordered(DoReadConnection(s, task))
  {
    if task in s.tasks && s.tasks[task].Validating? && s.tasks[task].stage.AwaitConnection? {
      assert OrderedTask(s.history, s.tasks[task], Present(s));
      ReplaceOrdered(s, task, AfterConnection(Now(s), Version(s), s.tasks[task]));
    }
  }

  lemma ReadSourceOrdered(s: State, task: nat)
    requires HasTables(s) && Ordered(s)
    ensures Ordered(DoReadSource(s, task))
  {
    if task in s.tasks && s.tasks[task].Validating? && s.tasks[task].stage.AwaitSource? {
      assert OrderedTask(s.history, s.tasks[task], Present(s));
      ReplaceOrdered(s, task, AfterSource(Now(s), Version(s), s.tasks[task]));
    }
  }

  lemma ReadRowOrdered(config: Config, s: State, task: nat, subject: bool)
    requires HasTables(s) && Ordered(s)
    ensures Ordered(DoReadRow(config, s, task, subject))
  {
    if task in s.tasks && s.tasks[task].Validating? && s.tasks[task].stage.AwaitRows? {
      assert OrderedTask(s.history, s.tasks[task], Present(s));
      ReplaceOrdered(s, task, AfterRow(config, Now(s), s.tasks[task], subject));
    }
  }

  lemma StorePortalOrdered(config: Config, s: State, task: nat, token: string)
    requires HasTables(s) && Ordered(s)
    ensures Ordered(DoStorePortal(config, s, task, token))
  {
    var s' := DoStorePortal(config, s, task, token);
    assert task in s.tasks ==> OrderedTask(s.history, s.tasks[task], Present(s));
    HistoryStays(s.history, s'.history, Present(s), Present(s));
    TasksStay(s.history, s'.history, s.tasks, s'.tasks, Present(s), Present(s));
  }

  lemma ReadRoleOrdered(s: State, task: nat)
    requires HasTables(s) && Ordered(s)
    ensures Ordered(DoReadRole(s, task))
  {
    if task in s.tasks && s.tasks[task].Validated? && s.tasks[task].origin.FromPortal? {
      var t := s.tasks[task];
      assert OrderedTask(s.history, t, Present(s));
      ReplaceOrdered(s, task, None);
      LookupAdded(Replace(s, task, None), Lookup(t.identity, t.origin.portal, t.start, Present(s), t.connectionSeen,
                                                 t.sourceSeen));
    }
  }

  lemma LookupAdded(s: State, l: Lookup)
    requires HasTables(s) && Ordered(s) && OrderedLookup(s.history, l, Present(s))
    ensures Ordered(s.(history := s.history.(lookups := s.history.lookups + [l])))
  {
    var h' := s.history.(lookups := s.history.lookups + [l]);
    HistoryStays(s.history, h', Present(s), Present(s));
    TasksStay(s.history, h', s.tasks, s.tasks, Present(s), Present(s));
  }

  lemma CodeAdded(s: State, lookup: nat, params: Params, id: Id, record: CodeRecord)
    requires HasTables(s) && Ordered(s) && lookup < |s.history.lookups| && IsUnused(s, id)
    ensures Ordered(StoreCode(s, lookup, params, id, record))
  {
    var h' := StoreCode(s, lookup, params, id, record).history;
    assert OrderedLookup(s.history, s.history.lookups[lookup], Present(s));
    HistoryStays(s.history, h', Present(s), Present(s));
    TasksStay(s.history, h', s.tasks, s.tasks, Present(s), Present(s));
  }

  lemma TokenAdded(s: State, store: Store, t: IssuedToken)
    requires HasTables(s) && Ordered(s) && OrderedToken(s.history, t, Present(s))
    ensures Ordered(s.(store := store, history := s.history.(tokens := s.history.tokens + [t])))
  {
    var h' := s.history.(tokens := s.history.tokens + [t]);
    HistoryStays(s.history, h', Present(s), Present(s));
    TasksStay(s.history, h', s.tasks, s.tasks, Present(s), Present(s));
  }

  lemma IssueCodeOrdered(config: Config, s: State, lookup: nat, params: Params, code: string)
    requires HasTables(s) && Ordered(s)
    ensures Ordered(DoIssueCode(config, s, lookup, params, code))
  {
    if lookup < |s.history.lookups| && IsUnused(s, CodeId(code)) {
      var record := AuthorizeCode(config, params, s.history.lookups[lookup].identity);
      if record.Ok? {
        CodeAdded(s, lookup, params, CodeId(code), record.value);
      }
    }
  }

  lemma ExchangeCodeOrdered(config: Config, s: State, form: TokenForm)
    requires Good(config, s) && Ordered(s)
    ensures Ordered(DoExchangeCode(config, s, form))
  {
    var (result, store) := Exchange(config, s.store, form, s.clock);
    if result.Ok? {
      ExchangeUsesCode(config, s.store, form, s.clock);
      assert GoodEntry(s.history, CodeId(form.code.value), s.store[CodeId(form.code.value)]);
      assert OrderedCode(s.history, s.history.codes[CodeId(form.code.value)], Present(s));
      TokenAdded(s, store, Exchanged(config, s, form));
    }
  }

  /** The clock moves on, or the directory changes. */
  lemma LaterOrdered(s: State, s': State)
    requires HasTables(s) && Ordered(s) && HasTables(s') && NotAfter(Present(s), Present(s'))
    requires Extends(s.history, s'.history) && s'.tasks == s.tasks
    requires s'.history.(tables := s.history.tables) == s.history
    ensures Ordered(s')
  {
    HistoryStays(s.history, s'.history, Present(s), Present(s'));
    TasksStay(s.history, s'.history, s.tasks, s'.tasks, Present(s), Present(s'));
  }

  lemma RequestStartOrdered(config: Config, s: State, action: Action)
    requires Good(config, s) && Ordered(s) && IsRequestStart(action)
    ensures Ordered(Step(config, s, action))
  {
    match action {
      case AcquireGrant(task, organizationId, scimUserId) =>
        var identity := AcquireIdentity(config, Now(s), organizationId, scimUserId);
        if identity.Some? {
          ReplaceOrdered(s, task, Some(Acquired(identity.value, Version(s))));
        }
      case StoreGrant(task, token) => StoreGrantOrdered(config, s, task, token);
      case ConsumeGrant(task, token) => ConsumeGrantOrdered(config, s, task, token);
      case LookUpPortal(task, token) => LookUpPortalOrdered(config, s, task, token);
      case StorePortal(task, token) => StorePortalOrdered(config, s, task, token);
    }
  }

  predicate IsRead(action: Action) {
    action.ReadConnection? || action.ReadSource? || action.ReadSubject? || action.ReadUser? || action.ReadRole?
  }

  lemma ReadOrdered(config: Config, s: State, action: Action)
    requires HasTables(s) && Ordered(s) && IsRead(action)
    ensures Ordered(Step(config, s, action))
  {
    match action {
      case ReadConnection(task) => ReadConnectionOrdered(s, task);
      case ReadSource(task) => ReadSourceOrdered(s, task);
      case ReadSubject(task) => ReadRowOrdered(config, s, task, true);
      case ReadUser(task) => ReadRowOrdered(config, s, task, false);
      case ReadRole(task) => ReadRoleOrdered(s, task);
    }
  }

  lemma StepOrdered(config: Config, s: State, action: Action)
    requires Good(config, s) && Ordered(s)
    ensures Ordered(Step(config, s, action))
  {
    if IsRequestStart(action) {
      RequestStartOrdered(config, s, action);
    } else if IsRead(action) {
      ReadOrdered(config, s, action);
    } else {
      match action {
        case IssueCode(lookup, params, code) => IssueCodeOrdered(config, s, lookup, params, code);
        case ExchangeCode(form) => ExchangeCodeOrdered(config, s, form);
        case Tick(elapsed) => LaterOrdered(s, s.(clock := s.clock + elapsed));
        case ChangeTables(tables) => LaterOrdered(s, s.(history := s.history.(tables := s.history.tables + [tables])));
        case _ =>
      }
    }
  }

  lemma {:induction false} RunOrdered(config: Config, s: State, actions: seq<Action>)
    requires Good(config, s) && Ordered(s)
    ensures Ordered(Run(config, s, actions))
  {
    if actions != [] {
      var before := actions[..|actions| - 1];
      RunOrdered(config, s, before);
      RunKeeps(config, s, before);
      StepOrdered(config, Run(config, s, before), actions[|actions| - 1]);
    }
  }
}
