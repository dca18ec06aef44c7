/** Nothing is spent twice: grants open at most one portal, codes yield at most one token response. */
module SignInUniqueness {
  import opened Text
  import opened Platform
  import opened Oidc
  import opened SignIn
  import opened SignInInvariants

  /** The grant that a request took out of the store. */
  function HeldGrant(t: Task): Option<Id> {
    match t
    case Validating(FromGrant(g), _, _, _) => Some(g)
    case Validated(FromGrant(g), _, _, _, _) => Some(g)
    case _ => None
  }

  /** Whatever is held, opened or redeemed was issued. */
  predicate Known(s: State) {
    && GoodKeys(s.history)
    && (forall task | task in s.tasks && HeldGrant(s.tasks[task]).Some? ::
        HeldGrant(s.tasks[task]).value in s.history.grants)
    && (forall id | id in s.history.portals :: s.history.portals[id].grant in s.history.grants)
    && (forall i | 0 <= i < |s.history.tokens| :: s.history.tokens[i].code in s.history.codes)
  }

  lemma GoodIsKnown(config: Config, s: State)
    requires Good(config, s)
    ensures Known(s)
  {
    forall task | task in s.tasks && HeldGrant(s.tasks[task]).Some?
      ensures HeldGrant(s.tasks[task]).value in s.history.grants
    {
      assert GoodTask(config, s.history, s.tasks[task]);
    }
    forall id | id in s.history.portals ensures s.history.portals[id].grant in s.history.grants {
      assert GoodPortal(s.history, s.history.portals[id]);
    }
    forall i | 0 <= i < |s.history.tokens| ensures s.history.tokens[i].code in s.history.codes {
      assert GoodToken(s.history, s.history.tokens[i]);
    }
  }

  /** A held grant is neither in the store, nor held by another request, nor opened already. */
  predicate HeldOnce(s: State) {
    && (forall task | task in s.tasks && HeldGrant(s.tasks[task]).Some? :: HeldGrant(s.tasks[task]).value !in s.store)
    && (forall task, other | task in s.tasks && other in s.tasks && task != other && HeldGrant(s.tasks[task]).Some? ::
          HeldGrant(s.tasks[task]) != HeldGrant(s.tasks[other]))
    && (forall task, id | task in s.tasks && id in s.history.portals ::
          HeldGrant(s.tasks[task]) != Some(s.history.portals[id].grant))
  }

  /** An opened grant is not in the store, and opened no other portal. */
  predicate OpenedOnce(s: State) {
    && (forall id | id in s.history.portals :: s.history.portals[id].grant !in s.store)
    && (forall id, other | id in s.history.portals && other in s.history.portals && id != other ::
          s.history.portals[id].grant != s.history.portals[other].grant)
  }

  /** A redeemed code is not in the store, and was redeemed only once. */
  predicate RedeemedOnce(s: State) {
    && (forall i | 0 <= i < |s.history.tokens| :: s.history.tokens[i].code !in s.store)
    && (forall i, j | 0 <= i < j < |s.history.tokens| :: s.history.tokens[i].code != s.history.tokens[j].code)
  }

  predicate Unique(s: State) {
    HeldOnce(s) && OpenedOnce(s) && RedeemedOnce(s)
  }

  /** Steps that take nothing out of the store, and write only under identifiers that were never issued. */
  lemma QuietKeeps(s: State, s': State)
    requires Unique(s) && Known(s)
    requires s'.history.portals == s.history.portals && s'.history.tokens == s.history.tokens
    requires forall id | id in s'.store && id !in s.store :: id !in s.history.grants && id !in s.history.codes
    requires forall task | task in s'.tasks ::
               HeldGrant(s'.tasks[task]).None?
                 || (task in s.tasks && HeldGrant(s'.tasks[task]) == HeldGrant(s.tasks[task]))
    ensures Unique(s')
  {
  }

  lemma ConsumeGrantUnique(config: Config, s: State, task: nat, token: string)
    requires Unique(s) && HasTables(s)
    ensures Unique(DoConsumeGrant(config, s, task, token))
  {
  }

  lemma StorePortalUnique(config: Config, s: State, task: nat, token: string)
    requires Unique(s) && Known(s) && HasTables(s)
    ensures Unique(DoStorePortal(config, s, task, token))
  {
    var s' := DoStorePortal(config, s, task, token);
    if task in s.tasks {
      assert forall other | other in s'.tasks :: other in s.tasks && s'.tasks[other] == s.tasks[other];
    }
  }

  /** Entries may leave the store. */
  lemma SpendingUnique(s: State, left: Store)
    requires Unique(s) && forall id | id in left :: id in s.store
    ensures Unique(s.(store := left))
  {
  }

  /** A token is added for a code that leaves the store. */
  lemma RedeemingUnique(s: State, token: IssuedToken)
    requires Unique(s) && token.code in s.store
    ensures Unique(s.(store := s.store - {token.code}, history := s.history.(tokens := s.history.tokens + [token])))
  {
    var s' := s.(store := s.store - {token.code}, history := s.history.(tokens := s.history.tokens + [token]));
    SpendingUnique(s, s'.store);
    var n := |s.history.tokens|;
    forall i | 0 <= i < n ensures s'.history.tokens[i].code == s.history.tokens[i].code != token.code {
    }
    assert RedeemedOnce(s');
  }

  lemma ExchangeUnique(config: Config, s: State, form: TokenForm)
    requires Unique(s)
    ensures Unique(DoExchangeCode(config, s, form))
  {
    ExchangeSpends(config, s.store, form, s.clock);
    var (result, left) := Exchange(config, s.store, form, s.clock);
    if result.Ok? {
      ExchangeUsesCode(config, s.store, form, s.clock);
      RedeemingUnique(s, Exchanged(config, s, form));
    } else {
      SpendingUnique(s, left);
    }
  }

  lemma ReplaceUnique(s: State, task: nat, next: Option<Task>)
    requires Unique(s) && Known(s)
    requires next.None? || HeldGrant(next.value).None?
             || (task in s.tasks && HeldGrant(next.value) == HeldGrant(s.tasks[task]))
    ensures Unique(Replace(s, task, next))
  {
    QuietKeeps(s, Replace(s, task, next));
  }

  lemma AcquireGrantUnique(config: Config, s: State, task: nat, organizationId: string, scimUserId: string)
    requires Unique(s) && Known(s) && HasTables(s)
    ensures Unique(DoAcquireGrant(config, s, task, organizationId, scimUserId))
  {
    QuietKeeps(s, DoAcquireGrant(config, s, task, organizationId, scimUserId));
  }

  lemma StoreGrantUnique(config: Config, s: State, task: nat, token: string)
    requires Unique(s) && Known(s) && HasTables(s)
    ensures Unique(DoStoreGrant(config, s, task, token))
  {
    QuietKeeps(s, DoStoreGrant(config, s, task, token));
  }

  lemma LookUpPortalUnique(config: Config, s: State, task: nat, token: string)
    requires Unique(s) && Known(s) && HasTables(s)
    ensures Unique(DoLookUpPortal(config, s, task, token))
  {
    QuietKeeps(s, DoLookUpPortal(config, s, task, token));
  }

  lemma IssueCodeUnique(config: Config, s: State, lookup: nat, params: Params, code: string)
    requires Unique(s) && Known(s)
    ensures Unique(DoIssueCode(config, s, lookup, params, code))
  {
    QuietKeeps(s, DoIssueCode(config, s, lookup, params, code));
  }

  lemma RequestStartUnique(config: Config, s: State, action: Action)
    requires Unique(s) && Known(s) && HasTables(s) && IsRequestStart(action)
    ensures Unique(Step(config, s, action))
  {
    match action {
      case ConsumeGrant(task, token) => ConsumeGrantUnique(config, s, task, token);
      case StorePortal(task, token) => StorePortalUnique(config, s, task, token);
      case AcquireGrant(task, organizationId, scimUserId) =>
        AcquireGrantUnique(config, s, task, organizationId, scimUserId);
      case StoreGrant(task, token) => StoreGrantUnique(config, s, task, token);
      case LookUpPortal(task, token) => LookUpPortalUnique(config, s, task, token);
    }
  }

  lemma ReadUnique(config: Config, s: State, task: nat, subject: bool)
    requires Unique(s) && Known(s) && HasTables(s)
    ensures Unique(DoReadConnection(s, task)) && Unique(DoReadSource(s, task))
            && Unique(DoReadRow(config, s, task, subject))
  {
    if task in s.tasks && s.tasks[task].Validating? {
      var t := s.tasks[task];
      match t.stage {
        case AwaitConnection => ReplaceUnique(s, task, AfterConnection(Now(s), Version(s), t));
        case AwaitSource(_, _) => ReplaceUnique(s, task, AfterSource(Now(s), Version(s), t));
        case AwaitRows(_, _, _, _, _) => ReplaceUnique(s, task, AfterRow(config, Now(s), t, subject));
      }
    }
  }

  lemma StepUnique(config: Config, s: State, action: Action)
    requires Unique(s) && Known(s) && HasTables(s)
    ensures Unique(Step(config, s, action))
  {
    if IsRequestStart(action) {
      RequestStartUnique(config, s, action);
    } else {
      match action {
        case ReadConnection(task) => ReadUnique(config, s, task, true);
        case ReadSource(task) => ReadUnique(config, s, task, true);
        case ReadSubject(task) => ReadUnique(config, s, task, true);
        case ReadUser(task) => ReadUnique(config, s, task, false);
        case ExchangeCode(form) => ExchangeUnique(config, s, form);
        case IssueCode(lookup, params, code) => IssueCodeUnique(config, s, lookup, params, code);
        case _ => OtherUnique(config, s, action);
      }
    }
  }

  lemma OtherUnique(config: Config, s: State, action: Action)
    requires Unique(s) && Known(s) && HasTables(s)
    requires action.Tick? || action.ChangeTables? || action.ReadRole? || action.WriteOther? || action.Remove?
    ensures Unique(Step(config, s, action))
  {
    QuietKeeps(s, Step(config, s, action));
  }

  lemma {:induction false} RunUnique(config: Config, s: State, actions: seq<Action>)
    requires Good(config, s) && Unique(s)
    ensures Unique(Run(config, s, actions))
  {
    if actions != [] {
      var before := Run(config, s, actions[..|actions| - 1]);
      RunUnique(config, s, actions[..|actions| - 1]);
      RunKeeps(config, s, actions[..|actions| - 1]);
      GoodIsKnown(config, before);
      StepUnique(config, before, actions[|actions| - 1]);
    }
  }
}
