/** Whether the connection and the source that a check reads were ever active at the same time. */
module SignInVersions {
  import opened Text
  import opened Subjects
  import opened Platform
  import opened Oidc
  import opened Directory
  import opened SignIn
  import opened SignInInvariants
  import opened SignInOrder
  import opened SignInProgress
  import opened SignInTheorems
  import opened SignInAge

  /** In some version during the check, connection and source were both active, in one domain. */
  predicate ActiveTogether(h: History, start: Moment, end: Moment, identity: Identity) {
    exists n | start.version <= n <= end.version :: ActiveWhenSeen(h, n, n, identity)
  }

  predicate PortalTogether(h: History, p: Portal) {
    ActiveTogether(h, p.start, p.end, p.identity)
  }

  predicate LookupTogether(h: History, l: Lookup) {
    ActiveTogether(h, l.start, l.end, l.identity)
  }

  lemma PortalUnchanged(h: History, p: Portal, now: Moment)
    requires GoodPortal(h, p) && OrderedPortal(h, p, now) && p.start.version == p.end.version
    ensures PortalTogether(h, p)
  {
    assert ActiveWhenSeen(h, p.start.version, p.start.version, p.identity);
  }

  lemma LookupUnchanged(h: History, l: Lookup, now: Moment)
    requires GoodLookup(h, l) && OrderedLookup(h, l, now) && l.start.version == l.end.version
    ensures LookupTogether(h, l)
  {
    assert ActiveWhenSeen(h, l.start.version, l.start.version, l.identity);
  }

  /** In every run, a check during which the directory stays the same sees connection and source active together. */
  lemma {:induction false} ActiveTogetherUnlessChanged(config: Config, s: State, actions: seq<Action>)
    requires IsStart(s)
    ensures var h := Run(config, s, actions).history;
            && (forall id {:trigger h.portals[id]} | id in h.portals ::
                h.portals[id].start.version == h.portals[id].end.version ==> PortalTogether(h, h.portals[id]))
            && forall i {:trigger h.lookups[i]} | 0 <= i < |h.lookups| ::
                 h.lookups[i].start.version == h.lookups[i].end.version ==> LookupTogether(h, h.lookups[i])
  {
    RunIsGood(config, s, actions);
    var s' := Run(config, s, actions);
    var h := s'.history;
    forall id | id in h.portals && h.portals[id].start.version == h.portals[id].end.version
      ensures PortalTogether(h, h.portals[id])
    {
      PortalUnchanged(h, h.portals[id], Present(s'));
    }
    forall i | 0 <= i < |h.lookups| && h.lookups[i].start.version == h.lookups[i].end.version
      ensures LookupTogether(h, h.lookups[i])
    {
      LookupUnchanged(h, h.lookups[i], Present(s'));
    }
  }

  // ----- A check across two versions -----

  function Changed(s: State, tables: Tables): (s': State)
    requires HasTables(s)
    ensures HasTables(s') && Now(s') == tables && Version(s') == Version(s) + 1
  {
    s.(history := s.history.(tables := s.history.tables + [tables]))
  }

  /** The employee's directory, with the source deactivated. */
  function SourceOff(identity: Identity): Tables {
    var tables := TablesOf(identity, "");
    tables.(sources := map[identity.scimUserId := tables.sources[identity.scimUserId].(active := false)])
  }

  /** The employee's directory, with the connection decommissioned. */
  function ConnectionOff(identity: Identity): Tables {
    var tables := TablesOf(identity, "");
    tables.(connections := map[identity.connectionId := Connection(ProvisioningDomain(""), Decommissioned)])
  }

  /** The reads of a check after that of the connection. */
  function ReadRest(config: Config, s: State, task: nat): (s': State)
    requires HasTables(s)
    ensures HasTables(s')
  {
    DoReadRow(config, DoReadRow(config, DoReadSource(s, task), task, true), task, false)
  }

  /** The connection is read in one version, the source and the rows in the next. */
  function SplitCheck(config: Config, s: State, task: nat, next: Tables): (s': State)
    requires HasTables(s)
    ensures HasTables(s')
  {
    ReadRest(config, Changed(DoReadConnection(s, task), next), task)
  }

  lemma ConnectionStillRead(s: State, t: Task, task: nat, identity: Identity)
    requires HasTables(s) && task in s.tasks && s.tasks[task] == t && Now(s) == SourceOff(identity)
    requires t.Validating? && t.record == identity && t.stage.AwaitConnection?
    ensures DoReadConnection(s, task)
            == Replace(s, task, Some(t.(stage := AwaitSource(Connection(ProvisioningDomain(""), Active), Version(s)))))
  {
  }

  lemma RowsStillRead(config: Config, s: State, t: Task, task: nat, identity: Identity, seen: nat)
    requires HasTables(s) && task in s.tasks && s.tasks[task] == t && Now(s) == ConnectionOff(identity)
    requires t.Validating? && t.record == identity && SubjectResolves(config, identity)
    requires t.stage == AwaitSource(Connection(ProvisioningDomain(""), Active), seen)
    ensures ReadRest(config, s, task) == Replace(s, task,
                                                 Some(Validated(t.origin, identity, t.start, seen, Version(s))))
  {
    var source := Now(s).sources[identity.scimUserId];
    var t2 := t.(stage := AwaitRows(source, seen, Version(s), false, false));
    var t3 := t.(stage := AwaitRows(source, seen, Version(s), true, false));
    var t4 := Validated(t.origin, identity, t.start, seen, Version(s));
    assert DoReadSource(s, task) == Replace(s, task, Some(t2));
    assert DoReadRow(config, Replace(s, task, Some(t2)), task, true)
           == Replace(Replace(s, task, Some(t2)), task, Some(t3));
    ReplaceTwice(s, task, t2, t3);
    assert AfterRow(config, Now(s), t3, false) == Some(t4);
    assert DoReadRow(config, Replace(s, task, Some(t3)), task, false)
           == Replace(Replace(s, task, Some(t3)), task, Some(t4));
    ReplaceTwice(s, task, t3, t4);
  }

  lemma ConnectionThenChange(started: State, s: State, task: nat, t: Task, next: Task, identity: Identity)
    requires HasTables(s) && Now(s) == SourceOff(identity) && started == Replace(s, task, Some(t))
    requires t.Validating? && t.record == identity && t.stage.AwaitConnection?
    requires next == t.(stage := AwaitSource(Connection(ProvisioningDomain(""), Active), Version(s)))
    ensures Changed(DoReadConnection(started, task), ConnectionOff(identity))
            == Replace(Changed(s, ConnectionOff(identity)), task, Some(next))
  {
    ConnectionStillRead(started, t, task, identity);
    ReplaceTwice(s, task, t, next);
  }

  /** A request validated across the two versions. */
  function Checked(s: State, task: nat, t: Task, identity: Identity): (s': State)
    requires HasTables(s) && t.Validating?
    ensures HasTables(s')
  {
    Replace(Changed(s, ConnectionOff(identity)), task,
            Some(Validated(t.origin, identity, t.start, Version(s), Version(s) + 1)))
  }

  lemma RestPasses(config: Config, middle: State, s: State, task: nat, t: Task, next: Task, identity: Identity)
    requires HasTables(s) && SubjectResolves(config, identity) && t.Validating? && t.record == identity
    requires next == t.(stage := AwaitSource(Connection(ProvisioningDomain(""), Active), Version(s)))
    requires middle == Replace(Changed(s, ConnectionOff(identity)), task, Some(next))
    ensures ReadRest(config, middle, task) == Checked(s, task, t, identity)
  {
    RowsStillRead(config, middle, next, task, identity, Version(s));
    ReplaceTwice(Changed(s, ConnectionOff(identity)), task, next,
                 Validated(t.origin, identity, t.start, Version(s), Version(s) + 1));
  }

  lemma SplitCheckPasses(config: Config, started: State, s: State, task: nat, t: Task, identity: Identity)
    requires HasTables(s) && Now(s) == SourceOff(identity) && SubjectResolves(config, identity)
    requires t.Validating? && t.record == identity && t.stage == AwaitConnection
    requires started == Replace(s, task, Some(t))
    ensures SplitCheck(config, started, task, ConnectionOff(identity)) == Checked(s, task, t, identity)
  {
    var next := t.(stage := AwaitSource(Connection(ProvisioningDomain(""), Active), Version(s)));
    ConnectionThenChange(started, s, task, t, next, identity);
    RestPasses(config, Changed(DoReadConnection(started, task), ConnectionOff(identity)), s, task, t, next, identity);
  }

  // ----- As a run -----

  function SplitActions(task: nat, next: Tables): seq<Action> {
    [ReadConnection(task)] + [ChangeTables(next)] + [ReadSource(task)] + [ReadSubject(task)] + [ReadUser(task)]
  }

  lemma {:induction false} SplitRuns(config: Config, s: State, task: nat, next: Tables)
    requires HasTables(s)
    ensures Run(config, s, SplitActions(task, next)) == SplitCheck(config, s, task, next)
  {
    var first := [ReadConnection(task)] + [ChangeTables(next)];
    RunOne(config, s, ReadConnection(task));
    RunThen(config, s, [ReadConnection(task)], ChangeTables(next));
    RunThen(config, s, first, ReadSource(task));
    RunThen(config, s, first + [ReadSource(task)], ReadSubject(task));
    RunThen(config, s, first + [ReadSource(task)] + [ReadSubject(task)], ReadUser(task));
  }

  function GrantedActions(identity: Identity, grantToken: string): seq<Action> {
    [ChangeTables(TablesOf(identity, ""))] + GrantActions(0, "", identity.scimUserId, grantToken)
    + [ChangeTables(SourceOff(identity))]
  }

  /** A grant is made; the source is deactivated; the grant is taken, and the connection goes between two reads. */
  function TwoVersionActions(identity: Identity, grantToken: string, portalToken: string): seq<Action> {
    GrantedActions(identity, grantToken) + [ConsumeGrant(0, grantToken)] + SplitActions(0, ConnectionOff(identity))
    + [StorePortal(0, portalToken)]
  }

  function AfterGrant(config: Config, s: State, identity: Identity, grantToken: string): (s': State)
    requires HasTables(s)
    ensures HasTables(s')
  {
    Changed(Granted(config, WithEmployee(s, identity), identity, grantToken), SourceOff(identity))
  }

  lemma {:induction false} GrantedRuns(config: Config, s: State, identity: Identity, grantToken: string)
    requires IsStart(s) && SubjectResolves(config, identity) && identity.userKey in USER_KEYS && identity.subject != ""
    ensures Run(config, s, GrantedActions(identity, grantToken)) == AfterGrant(config, s, identity, grantToken)
  {
    var tables := TablesOf(identity, "");
    var grant := GrantActions(0, "", identity.scimUserId, grantToken);
    RunOne(config, s, ChangeTables(tables));
    RunAppend(config, s, [ChangeTables(tables)], grant);
    GrantRuns(config, WithEmployee(s, identity), 0, "", identity.scimUserId, grantToken);
    TablesAcquire(config, identity, "");
    GrantStageCompletes(config, WithEmployee(s, identity), 0, "", identity.scimUserId, grantToken);
    RunThen(config, s, [ChangeTables(tables)] + grant, ChangeTables(SourceOff(identity)));
  }

  lemma {:induction false} BetweenRuns(config: Config, s: State, before: seq<Action>, first: Action, task: nat,
                                       next: Tables, last: Action)
    requires HasTables(s)
    ensures Run(config, s, before + [first] + SplitActions(task, next) + [last])
            == Step(config, SplitCheck(config, Step(config, Run(config, s, before), first), task, next), last)
  {
    RunThen(config, s, before, first);
    RunAppend(config, s, before + [first], SplitActions(task, next));
    SplitRuns(config, Step(config, Run(config, s, before), first), task, next);
    RunThen(config, s, before + [first] + SplitActions(task, next), last);
  }

  /** The request that takes the grant. */
  function Exchanging(granted: State, identity: Identity, grant: Id): Task
    requires HasTables(granted)
  {
    Validating(FromGrant(grant), identity, Present(granted), AwaitConnection)
  }

  lemma ConsumeStarts(config: Config, granted: State, task: nat, identity: Identity, grantToken: string, grant: Id)
    requires HasTables(granted) && task !in granted.tasks && IsOpaqueToken(grantToken) && identity.userKey in USER_KEYS
    requires grant == TokenIdentifier(config, AccessPurpose, grantToken)
             && Holds(granted, grant, identity, AccessPurpose)
    ensures Step(config, granted, ConsumeGrant(task, grantToken))
            == Replace(Spent(granted, grant), task, Some(Exchanging(granted, identity, grant)))
  {
    ConsumeGrantStarts(config, granted, task, grantToken, identity);
  }

  /** The portal that the run stores. */
  function SplitPortal(granted: State, identity: Identity, grant: Id): Portal
    requires HasTables(granted)
  {
    Portal(identity, grant, Present(granted), Moment(granted.clock, Version(granted) + 1), Version(granted),
           Version(granted) + 1)
  }

  lemma SplitStores(config: Config, granted: State, task: nat, identity: Identity, grant: Id, portalToken: string)
    requires HasTables(granted) && IsUnused(granted, TokenIdentifier(config, PortalPurpose, portalToken))
    ensures var checked := Checked(Spent(granted, grant), task, Exchanging(granted, identity, grant), identity);
            var h := Step(config, checked, StorePortal(task, portalToken)).history;
            && h.tables == granted.history.tables + [ConnectionOff(identity)]
            && h.portals == granted.history.portals[TokenIdentifier(config, PortalPurpose, portalToken)
                                                    := SplitPortal(granted, identity, grant)]
  {
  }

  lemma NeverTogether(h: History, granted: State, identity: Identity, p: Portal)
    requires HasTables(granted) && Now(granted) == SourceOff(identity) && p.identity == identity
    requires h.tables == granted.history.tables + [ConnectionOff(identity)]
    requires p.start.version == Version(granted) && p.end.version == Version(granted) + 1
    ensures !PortalTogether(h, p)
  {
    forall n | p.start.version <= n <= p.end.version ensures !ActiveWhenSeen(h, n, n, identity) {
      assert h.tables[n] == if n == Version(granted) then SourceOff(identity) else ConnectionOff(identity);
    }
  }

  /**
   From any start and for any employee there is a run that stores a portal although connection and
   source were never active together while its grant was exchanged: the connection is read before it
   is decommissioned, and the source after it is active again.
   */
  lemma {:induction false} TwoVersionsPass(config: Config, s: State, identity: Identity, grantToken: string,
                                           portalToken: string)
    requires IsStart(s) && IsOpaqueToken(grantToken) && IsOpaqueToken(portalToken)
    requires SubjectResolves(config, identity) && identity.userKey in USER_KEYS && identity.subject != ""
    ensures var h := Run(config, s, TwoVersionActions(identity, grantToken, portalToken)).history;
            var portal := TokenIdentifier(config, PortalPurpose, portalToken);
            portal in h.portals && h.portals[portal].identity == identity && !PortalTogether(h, h.portals[portal])
  {
    var granted := AfterGrant(config, s, identity, grantToken);
    var grant := TokenIdentifier(config, AccessPurpose, grantToken);
    GrantedRuns(config, s, identity, grantToken);
    BetweenRuns(config, s, GrantedActions(identity, grantToken), ConsumeGrant(0, grantToken), 0,
                ConnectionOff(identity),
                StorePortal(0, portalToken));
    ConsumeStarts(config, granted, 0, identity, grantToken, grant);
    SplitCheckPasses(config, Step(config, granted, ConsumeGrant(0, grantToken)), Spent(granted, grant), 0,
                     Exchanging(granted, identity, grant), identity);
    SplitStores(config, granted, 0, identity, grant, portalToken);
    NeverTogether(Run(config, s, TwoVersionActions(identity, grantToken, portalToken)).history, granted, identity,
                  SplitPortal(granted, identity, grant));
  }
}
