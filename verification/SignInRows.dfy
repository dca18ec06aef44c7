/** What a check saw besides connection and source: the rows of the employee's subject and user. */
module SignInRows {
  import opened Platform
  import opened Directory
  import opened SignIn
  import opened SignInInvariants

  predicate HasRow(tables: Tables, userId: string, subject: bool) {
    if subject then userId in tables.subjects else userId in tables.users
  }

  /** The row was there in some version from the first to the last. */
  predicate RowSeen(tables: seq<Tables>, first: nat, last: nat, userId: string, subject: bool) {
    exists n | first <= n <= last && n < |tables| :: HasRow(tables[n], userId, subject)
  }

  predicate RowsSeen(tables: seq<Tables>, first: nat, last: nat, userId: string) {
    RowSeen(tables, first, last, userId, true) && RowSeen(tables, first, last, userId, false)
  }

  /** The rows that a request has passed were there since it read the source. */
  predicate KnownTask(tables: seq<Tables>, t: Task) {
    match t
    case Acquired(_, _) => true
    case Validating(_, record, _, stage) =>
      stage.AwaitRows? ==>
        && (stage.subjectRead ==> RowSeen(tables, stage.sourceSeen, |tables|, record.userId, true))
        && (stage.userRead ==> RowSeen(tables, stage.sourceSeen, |tables|, record.userId, false))
    case Validated(_, identity, _, _, sourceSeen) => RowsSeen(tables, sourceSeen, |tables|, identity.userId)
  }

  predicate KnownPortal(tables: seq<Tables>, p: Portal) {
    RowsSeen(tables, p.sourceSeen, p.end.version, p.identity.userId)
  }

  /** A lookup returns its identity only with a user row in the version of its end. */
  predicate KnownLookup(tables: seq<Tables>, l: Lookup) {
    && RowsSeen(tables, l.sourceSeen, l.end.version, l.identity.userId)
    && l.end.version < |tables| && HasRow(tables[l.end.version], l.identity.userId, false)
  }

  predicate RowsKnown(s: State) {
    && (forall task {:trigger KnownTask(s.history.tables, s.tasks[task])} | task in s.tasks ::
        KnownTask(s.history.tables, s.tasks[task]))
    && (forall id {:trigger KnownPortal(s.history.tables, s.history.portals[id])} | id in s.history.portals ::
        KnownPortal(s.history.tables, s.history.portals[id]))
    && (forall i {:trigger KnownLookup(s.history.tables, s.history.lookups[i])} | 0 <= i < |s.history.lookups| ::
        KnownLookup(s.history.tables, s.history.lookups[i]))
  }

  // ----- Longer histories -----

  lemma RowStays(tables: seq<Tables>, tables': seq<Tables>, first: nat, last: nat, last': nat, userId: string,
                 subject: bool)
    requires tables <= tables' && last <= last' && RowSeen(tables, first, last, userId, subject)
    ensures RowSeen(tables', first, last', userId, subject)
  {
    var n :| first <= n <= last && n < |tables| && HasRow(tables[n], userId, subject);
    assert HasRow(tables'[n], userId, subject);
  }

  lemma RowsStay(tables: seq<Tables>, tables': seq<Tables>, first: nat, last: nat, last': nat, userId: string)
    requires tables <= tables' && last <= last' && RowsSeen(tables, first, last, userId)
    ensures RowsSeen(tables', first, last', userId)
  {
    RowStays(tables, tables', first, last, last', userId, true);
    RowStays(tables, tables', first, last, last', userId, false);
  }

  lemma TaskStays(tables: seq<Tables>, tables': seq<Tables>, t: Task)
    requires tables <= tables' && KnownTask(tables, t)
    ensures KnownTask(tables', t)
  {
    match t {
      case Acquired(_, _) =>
      case Validating(_, record, _, stage) =>
        if stage.AwaitRows? && stage.subjectRead {
          RowStays(tables, tables', stage.sourceSeen, |tables|, |tables'|, record.userId, true);
        }
        if stage.AwaitRows? && stage.userRead {
          RowStays(tables, tables', stage.sourceSeen, |tables|, |tables'|, record.userId, false);
        }
      case Validated(_, identity, _, _, sourceSeen) =>
        RowsStay(tables, tables', sourceSeen, |tables|, |tables'|, identity.userId);
    }
  }

  lemma KnownStays(s: State, s': State)
    requires RowsKnown(s) && s.history.tables <= s'.history.tables && s.history.lookups <= s'.history.lookups
    requires forall task | task in s'.tasks ::
               (task in s.tasks && s'.tasks[task] == s.tasks[task]) || KnownTask(s'.history.tables, s'.tasks[task])
    requires forall id | id in s'.history.portals ::
               (id in s.history.portals && s'.history.portals[id] == s.history.portals[id])
               || KnownPortal(s'.history.tables, s'.history.portals[id])
    requires forall i | |s.history.lookups| <= i < |s'.history.lookups| ::
               KnownLookup(s'.history.tables, s'.history.lookups[i])
    ensures RowsKnown(s')
  {
    var tables, tables' := s.history.tables, s'.history.tables;
    forall task | task in s'.tasks ensures KnownTask(tables', s'.tasks[task]) {
      if task in s.tasks && s'.tasks[task] == s.tasks[task] {
        TaskStays(tables, tables', s.tasks[task]);
      }
    }
    forall id | id in s'.history.portals ensures KnownPortal(tables', s'.history.portals[id]) {
      if id in s.history.portals && s'.history.portals[id] == s.history.portals[id] {
        var p := s.history.portals[id];
        assert KnownPortal(tables, s.history.portals[id]);
        RowsStay(tables, tables', p.sourceSeen, p.end.version, p.end.version, p.identity.userId);
      }
    }
    forall i | 0 <= i < |s'.history.lookups| ensures KnownLookup(tables', s'.history.lookups[i]) {
      if i < |s.history.lookups| {
        var l := s.history.lookups[i];
        assert s'.history.lookups[i] == l && KnownLookup(tables, l);
        RowsStay(tables, tables', l.sourceSeen, l.end.version, l.end.version, l.identity.userId);
      }
    }
  }

  // ----- Steps -----

  lemma RowReadKnown(config: Config, s: State, t: Task, subject: bool)
    requires HasTables(s) && Good(config, s) && t.Validating? && t.stage.AwaitRows?
    requires KnownTask(s.history.tables, t) && t.stage.sourceSeen <= Version(s)
    ensures var next := AfterRow(config, Now(s), t, subject); next.Some? ==> KnownTask(s.history.tables, next.value)
  {
    if HasRow(Now(s), t.record.userId, subject) {
      assert HasRow(s.history.tables[Version(s)], t.record.userId, subject);
      assert RowSeen(s.history.tables, t.stage.sourceSeen, |s.history.tables|, t.record.userId, subject);
    }
  }

  lemma ReadRowKnown(config: Config, s: State, task: nat, subject: bool)
    requires Good(config, s) && RowsKnown(s)
    ensures RowsKnown(DoReadRow(config, s, task, subject))
  {
    if task in s.tasks && s.tasks[task].Validating? && s.tasks[task].stage.AwaitRows? {
      assert KnownTask(s.history.tables, s.tasks[task]) && GoodTask(config, s.history, s.tasks[task]);
      RowReadKnown(config, s, s.tasks[task], subject);
    }
    KnownStays(s, DoReadRow(config, s, task, subject));
  }

  lemma SeenByNow(tables: seq<Tables>, first: nat, userId: string)
    requires tables != [] && RowsSeen(tables, first, |tables|, userId)
    ensures RowsSeen(tables, first, |tables| - 1, userId)
  {
    RowSeenByNow(tables, first, userId, true);
    RowSeenByNow(tables, first, userId, false);
  }

  lemma RowSeenByNow(tables: seq<Tables>, first: nat, userId: string, subject: bool)
    requires tables != [] && RowSeen(tables, first, |tables|, userId, subject)
    ensures RowSeen(tables, first, |tables| - 1, userId, subject)
  {
  }

  lemma StorePortalKnown(config: Config, s: State, task: nat, token: string)
    requires HasTables(s) && RowsKnown(s)
    ensures RowsKnown(DoStorePortal(config, s, task, token))
  {
    if task in s.tasks && s.tasks[task].Validated? {
      assert KnownTask(s.history.tables, s.tasks[task]);
      SeenByNow(s.history.tables, s.tasks[task].sourceSeen, s.tasks[task].identity.userId);
    }
    KnownStays(s, DoStorePortal(config, s, task, token));
  }

  lemma ReadRoleKnown(s: State, task: nat)
    requires HasTables(s) && RowsKnown(s)
    ensures RowsKnown(DoReadRole(s, task))
  {
    if task in s.tasks && s.tasks[task].Validated? {
      assert KnownTask(s.history.tables, s.tasks[task]);
      SeenByNow(s.history.tables, s.tasks[task].sourceSeen, s.tasks[task].identity.userId);
    }
    KnownStays(s, DoReadRole(s, task));
  }

  /** The steps that neither pass a row nor store what a check has found. */
  predicate IsOther(action: Action) {
    !action.ReadSubject? && !action.ReadUser? && !action.StorePortal? && !action.ReadRole?
  }

  lemma OtherShape(config: Config, s: State, action: Action)
    requires HasTables(s) && IsOther(action)
    ensures var s' := Step(config, s, action);
            && s.history.tables <= s'.history.tables && s'.history.lookups == s.history.lookups
            && s'.history.portals == s.history.portals
            && forall task | task in s'.tasks ::
                 (task in s.tasks && s'.tasks[task] == s.tasks[task])
                 || (s'.tasks[task].Acquired? || (s'.tasks[task].Validating?
                     && (s'.tasks[task].stage.AwaitRows? ==>
                           !s'.tasks[task].stage.subjectRead && !s'.tasks[task].stage.userRead)))
  {
  }

  lemma StepKnown(config: Config, s: State, action: Action)
    requires Good(config, s) && RowsKnown(s)
    ensures RowsKnown(Step(config, s, action))
  {
    match action {
      case ReadSubject(task) => ReadRowKnown(config, s, task, true);
      case ReadUser(task) => ReadRowKnown(config, s, task, false);
      case StorePortal(task, token) => StorePortalKnown(config, s, task, token);
      case ReadRole(task) => ReadRoleKnown(s, task);
      case _ =>
        OtherShape(config, s, action);
        KnownStays(s, Step(config, s, action));
    }
  }

  lemma {:induction false} RunKnown(config: Config, s: State, actions: seq<Action>)
    requires Good(config, s) && RowsKnown(s)
    ensures RowsKnown(Run(config, s, actions))
  {
    if actions != [] {
      var before := actions[..|actions| - 1];
      RunKnown(config, s, before);
      RunKeeps(config, s, before);
      StepKnown(config, Run(config, s, before), actions[|actions| - 1]);
    }
  }

  /**
   In every interleaving, each portal and each lookup was stored or returned only after its subject
   and user rows had been found, since its source was read; a lookup's user row was also there at its end.
   */
  lemma {:induction false} RowsWereThere(config: Config, s: State, actions: seq<Action>)
    requires IsStart(s)
    ensures var h := Run(config, s, actions).history;
            && (forall id {:trigger h.portals[id]} | id in h.portals :: KnownPortal(h.tables, h.portals[id]))
            && (forall i {:trigger h.lookups[i]} | 0 <= i < |h.lookups| :: KnownLookup(h.tables, h.lookups[i]))
  {
    StartIsGood(config, s);
    RunKnown(config, s, actions);
  }
}
