/** The toast store: a list of shown toasts, newest first, and the pending removal timers. */
module Toasts {
  import opened Text

  const LIMIT: nat := 1
  const MODULUS: nat := 9007199254740991

  /** The texts of a toast are one opaque payload. */
  datatype Toast = Toast(id: string, content: string, shown: bool)

  /** The fields that an update names. */
  datatype Changes = Changes(content: Option<string>, shown: Option<bool>)

  datatype Action =
    | Add(toast: Toast)
    | Update(id: string, changes: Changes)
    | Dismiss(toastId: Option<string>)
    | Remove(removedId: Option<string>)

  /**
   The timeouts that the event loop holds, each under its own handle with the id it will remove, and
   the store's map from an id to the handle it remembers.
   */
  datatype Timers = Timers(remembered: map<string, nat>, pending: map<nat, string>, handles: nat)

  /** The list and the timers; which toasts stay depends on nothing else. */
  datatype State = State(toasts: seq<Toast>, timers: Timers)

  // ----- The timers -----

  /** A new timeout, under a handle that was never used. */
  function SetTimeout(t: Timers, id: string): Timers {
    t.(pending := t.pending[t.handles := id], handles := t.handles + 1)
  }

  /** An id that the map remembers is not queued again. */
  function Queue(t: Timers, id: string): Timers {
    if id in t.remembered then t else SetTimeout(t, id).(remembered := t.remembered[id := t.handles])
  }

  function QueueEach(t: Timers, ids: seq<string>): Timers {
    if ids == [] then t else Queue(QueueEach(t, ids[..|ids| - 1]), ids[|ids| - 1])
  }

  /** A timeout that goes off is no longer held, and the map forgets its id. */
  function GoneOff(t: Timers, handle: nat): Timers
    requires handle in t.pending
  {
    t.(remembered := t.remembered - {t.pending[handle]}, pending := t.pending - {handle})
  }

  function PendingIds(t: Timers): set<string> {
    t.pending.Values
  }

  /** The timeouts that will remove an id. */
  function TimeoutsOf(t: Timers, id: string): set<nat> {
    set handle | handle in t.pending && t.pending[handle] == id
  }

  /** The map remembers exactly the timeouts that are pending, each under its id. */
  predicate Agree(t: Timers) {
    && (forall id | id in t.remembered :: t.remembered[id] in t.pending && t.pending[t.remembered[id]] == id)
    && (forall handle | handle in t.pending ::
          t.pending[handle] in t.remembered && t.remembered[t.pending[handle]] == handle)
    && (forall handle | handle in t.pending :: handle < t.handles)
  }

  lemma QueueAgrees(t: Timers, id: string)
    requires Agree(t)
    ensures Agree(Queue(t, id)) && PendingIds(Queue(t, id)) == PendingIds(t) + {id}
  {
    var t' := Queue(t, id);
    if id in t.remembered {
      assert t.pending[t.remembered[id]] == id;
    } else {
      assert t'.pending[t.handles] == id;
      forall other | other in PendingIds(t) ensures other in PendingIds(t') {
        var handle :| handle in t.pending && t.pending[handle] == other;
        assert t'.pending[handle] == other;
      }
    }
  }

  lemma {:induction false} QueueEachAgrees(t: Timers, ids: seq<string>)
    requires Agree(t)
    ensures Agree(QueueEach(t, ids)) && PendingIds(QueueEach(t, ids)) == PendingIds(t) + Members(ids)
  {
    if ids != [] {
      var n := |ids| - 1;
      QueueEachAgrees(t, ids[..n]);
      QueueAgrees(QueueEach(t, ids[..n]), ids[n]);
      assert ids == ids[..n] + [ids[n]];
    }
  }

  lemma GoneOffAgrees(t: Timers, handle: nat)
    requires Agree(t) && handle in t.pending
    ensures Agree(GoneOff(t, handle)) && PendingIds(GoneOff(t, handle)) == PendingIds(t) - {t.pending[handle]}
  {
    var t' := GoneOff(t, handle);
    forall id | id in PendingIds(t) - {t.pending[handle]} ensures id in PendingIds(t') {
      var other :| other in t.pending && t.pending[other] == id;
      assert t'.pending[other] == id;
    }
    forall other | other in t'.pending ensures t'.pending[other] != t.pending[handle] {
      assert t.remembered[t.pending[other]] == other;
    }
  }

  /** Then no id has two timeouts, and the map's ids are those with a timeout. */
  lemma AgreeingTimers(t: Timers)
    requires Agree(t)
    ensures t.remembered.Keys == PendingIds(t)
    ensures forall id :: TimeoutsOf(t, id) == if id in t.remembered then {t.remembered[id]} else {}
    ensures forall id :: |TimeoutsOf(t, id)| <= 1
  {
    forall id ensures TimeoutsOf(t, id) == if id in t.remembered then {t.remembered[id]} else {} {
      forall handle | handle in TimeoutsOf(t, id) ensures id in t.remembered && handle == t.remembered[id] {
        assert t.pending[handle] == id;
      }
    }
    forall id | id in t.remembered ensures id in PendingIds(t) {
      assert t.pending[t.remembered[id]] == id;
    }
  }

  // ----- The reducer on values -----

  function First<T>(s: seq<T>, n: nat): (r: seq<T>)
    ensures r <= s && |r| == if |s| <= n then |s| else n
  {
    if |s| <= n then s else s[..n]
  }

  function Ids(toasts: seq<Toast>): (ids: set<string>)
    ensures forall id :: id in ids <==> exists k :: 0 <= k < |toasts| && toasts[k].id == id
  {
    set k | 0 <= k < |toasts| :: toasts[k].id
  }

  /** The toasts of no given id. */
  function Without(toasts: seq<Toast>, ids: set<string>): seq<Toast> {
    if toasts == [] then []
    else if toasts[0].id in ids then Without(toasts[1..], ids)
    else [toasts[0]] + Without(toasts[1..], ids)
  }

  function Changed(t: Toast, changes: Changes): Toast {
    Toast(t.id,
          if changes.content.Some? then changes.content.value else t.content,
          if changes.shown.Some? then changes.shown.value else t.shown)
  }

  function Updated(toasts: seq<Toast>, id: string, changes: Changes): seq<Toast> {
    MapAll((t: Toast) => if t.id == id then Changed(t, changes) else t, toasts)
  }

  /** An absent id closes every toast. */
  function Closed(toasts: seq<Toast>, toastId: Option<string>): seq<Toast> {
    MapAll((t: Toast) => if toastId == None || t.id == toastId.value then t.(shown := false) else t, toasts)
  }

  /** An absent id, and also an empty one, queues every toast. */
  function Queued(toasts: seq<Toast>, toastId: Option<string>): seq<string> {
    if toastId.Some? && toastId.value != "" then [toastId.value] else MapAll((t: Toast) => t.id, toasts)
  }

  lemma QueuedIds(toasts: seq<Toast>, toastId: Option<string>)
    ensures Members(Queued(toasts, toastId))
            == if toastId.Some? && toastId.value != "" then {toastId.value} else Ids(toasts)
  {
    if !(toastId.Some? && toastId.value != "") {
      var ids := Queued(toasts, toastId);
      forall id | id in Ids(toasts) ensures id in ids {
        var k :| 0 <= k < |toasts| && toasts[k].id == id;
        assert ids[k] == id;
      }
    }
  }

  function Reduce(s: State, action: Action, limit: nat): State {
    match action
    case Add(t) => s.(toasts := First([t] + s.toasts, limit))
    case Update(id, changes) => s.(toasts := Updated(s.toasts, id, changes))
    case Dismiss(id) => State(Closed(s.toasts, id), QueueEach(s.timers, Queued(s.toasts, id)))
    case Remove(None) => s.(toasts := [])
    case Remove(Some(id)) => s.(toasts := Without(s.toasts, {id}))
  }

  /** A new toast comes first with all it holds, and the others follow in order, up to the limit. */
  lemma AddShows(s: State, t: Toast, limit: nat)
    ensures var s' := Reduce(s, Add(t), limit);
            && |s'.toasts| == (if |s.toasts| + 1 <= limit then |s.toasts| + 1 else limit)
            && (limit > 0 ==> s'.toasts[0] == t)
            && (forall k | 0 < k < |s'.toasts| :: s'.toasts[k] == s.toasts[k - 1])
            && s'.timers == s.timers
  {
  }

  /** An update changes what it names, on the toasts of its id, and nothing else. */
  lemma UpdateChanges(s: State, id: string, changes: Changes, limit: nat)
    ensures var s' := Reduce(s, Update(id, changes), limit);
            && |s'.toasts| == |s.toasts| && s'.timers == s.timers
            && forall k | 0 <= k < |s.toasts| ::
                 var before, after := s.toasts[k], s'.toasts[k];
                 && after.id == before.id
                 && after.content == (if before.id == id && changes.content.Some? then changes.content.value
                                      else before.content)
                 && after.shown == if before.id == id && changes.shown.Some? then changes.shown.value else before.shown
  {
    var s' := Reduce(s, Update(id, changes), limit);
    forall k | 0 <= k < |s.toasts|
      ensures s'.toasts[k] == if s.toasts[k].id == id then Changed(s.toasts[k], changes) else s.toasts[k] {
    }
  }

  /** A dismissal closes the toasts it names, all when it names none, and keeps what they hold. */
  lemma DismissCloses(s: State, toastId: Option<string>, limit: nat)
    ensures var s' := Reduce(s, Dismiss(toastId), limit);
            && |s'.toasts| == |s.toasts|
            && forall k | 0 <= k < |s.toasts| ::
                 var before, after := s.toasts[k], s'.toasts[k];
                 && after.id == before.id && after.content == before.content
                 && after.shown == (before.shown && toastId.Some? && before.id != toastId.value)
  {
    var s' := Reduce(s, Dismiss(toastId), limit);
    forall k | 0 <= k < |s.toasts|
      ensures s'.toasts[k] ==
              if toastId == None || s.toasts[k].id == toastId.value then s.toasts[k].(shown := false) else s.toasts[k] {
    }
  }

  /** A pending timer forgets itself and removes its toast. */
  function FireTimer(s: State, handle: nat, limit: nat): State
    requires handle in s.timers.pending
  {
    Reduce(s.(timers := GoneOff(s.timers, handle)), Remove(Some(s.timers.pending[handle])), limit)
  }

  // ----- Ids -----

  /** The id that the counter gives to the n-th toast. */
  function IdOf(n: nat): string {
    Decimal(n % MODULUS)
  }

  // ----- Runs -----

  /** What can happen to the store: a call from outside or a timer going off. */
  datatype Event = Opens(content: string) | Does(action: Action) | Fires(handle: nat)

  /** The store and how many ids it has given out in all. */
  datatype World = World(state: State, made: nat)

  const NO_TIMERS := Timers(map[], map[], 0)

  const Start: World := World(State([], NO_TIMERS), 0)

  /** Adding happens only through a new id. */
  predicate CanHappen(w: World, e: Event) {
    match e
    case Opens(_) => true
    case Does(action) => !action.Add?
    case Fires(handle) => handle in w.state.timers.pending
  }

  function Next(w: World, e: Event, limit: nat): World
    requires CanHappen(w, e)
  {
    match e
    case Opens(content) => World(Reduce(w.state, Add(Toast(IdOf(w.made + 1), content, true)), limit), w.made + 1)
    case Does(action) => w.(state := Reduce(w.state, action, limit))
    case Fires(handle) => w.(state := FireTimer(w.state, handle, limit))
  }

  /** The world after the events, as long as each could happen when it did. */
  function Reach(events: seq<Event>, limit: nat): Option<World> {
    if events == [] then Some(Start)
    else
      var before := Reach(events[..|events| - 1], limit);
      if before.Some? && CanHappen(before.value, events[|events| - 1])
      then Some(Next(before.value, events[|events| - 1], limit))
      else None
  }

  predicate IsRun(events: seq<Event>, limit: nat) {
    Reach(events, limit).Some?
  }

  function After(events: seq<Event>, limit: nat): World
    requires IsRun(events, limit)
  {
    Reach(events, limit).value
  }

  /** A run without its last event. */
  lemma RunBefore(events: seq<Event>, limit: nat)
    requires IsRun(events, limit) && events != []
    ensures var n := |events| - 1;
            && IsRun(events[..n], limit) && CanHappen(After(events[..n], limit), events[n])
            && After(events, limit) == Next(After(events[..n], limit), events[n], limit)
  {
  }

  // ----- The store -----

  class Store {
    var count: nat
    var toasts: seq<Toast>
    var toastTimeouts: map<string, nat>
    /** The timeouts that the event loop holds, and how many handles it has given out. */
    var pending: map<nat, string>
    var handles: nat
    /** How many ids were given out in all. */
    ghost var made: nat

    ghost predicate Valid()
      reads this
    {
      count == made % MODULUS
    }

    ghost function Value(): State
      reads this
    {
      State(toasts, Timers(toastTimeouts, pending, handles))
    }

    ghost function Reached(): World
      reads this
    {
      World(Value(), made)
    }

    constructor ()
      ensures Valid() && Reached() == Start
    {
      count, toasts, made := 0, [], 0;
      toastTimeouts, pending, handles := map[], map[], 0;
    }

    method GenId() returns (id: string)
      requires Valid()
      modifies this`count, this`made
      ensures Valid() && made == old(made) + 1 && id == IdOf(made)
    {
      count, made := (count + 1) % MODULUS, made + 1;
      id := Decimal(count);
    }

    method AddToRemoveQueue(toastId: string)
      modifies this`toastTimeouts, this`pending, this`handles
      ensures Value().timers == Queue(old(Value()).timers, toastId)
      ensures Agree(old(Value()).timers) ==>
                Agree(Value().timers) && PendingIds(Value().timers) == PendingIds(old(Value()).timers) + {toastId}
    {
      ghost var before := Value().timers;
      if toastId !in toastTimeouts {
        var timeout := handles;
        pending, handles := pending[timeout := toastId], handles + 1;
        toastTimeouts := toastTimeouts[toastId := timeout];
      }
      if Agree(before) {
        QueueAgrees(before, toastId);
      }
    }

    method QueueForRemoval(toastId: Option<string>)
      modifies this`toastTimeouts, this`pending, this`handles
      ensures Value().timers == QueueEach(old(Value()).timers, Queued(toasts, toastId))
    {
      ghost var queued := Queued(toasts, toastId);
      if toastId.Some? && toastId.value != "" {
        AddToRemoveQueue(toastId.value);
        assert queued[..0] == [];
      } else {
        for k := 0 to |toasts|
          invariant Value().timers == QueueEach(old(Value()).timers, queued[..k])
        {
          AddToRemoveQueue(toasts[k].id);
          assert queued[..k + 1][..k] == queued[..k];
        }
        assert queued[..|toasts|] == queued;
      }
    }

    method Dispatch(action: Action)
      modifies this`toasts, this`toastTimeouts, this`pending, this`handles
      ensures Value() == Reduce(old(Value()), action, LIMIT)
    {
      match action
      case Add(t) => toasts := First([t] + toasts, LIMIT);
      case Update(id, changes) => toasts := Updated(toasts, id, changes);
      case Dismiss(id) =>
        QueueForRemoval(id);
        toasts := Closed(toasts, id);
      case Remove(id) =>
        match id
        case None => toasts := [];
        case Some(id) => toasts := Without(toasts, {id});
    }

    /** Shows a new toast under the next id. */
    method Open(content: string) returns (id: string)
      requires Valid()
      modifies this
      ensures Valid() && id == IdOf(made)
      ensures Reached() == Next(old(Reached()), Opens(content), LIMIT)
      ensures toasts == [Toast(id, content, true)]
    {
      id := GenId();
      Dispatch(Add(Toast(id, content, true)));
    }

    /** The event loop drops a timeout that goes off, and calls it back. */
    method Fire(handle: nat)
      requires handle in pending
      modifies this`toasts, this`toastTimeouts, this`pending, this`handles
      ensures Reached() == Next(old(Reached()), Fires(handle), LIMIT)
    {
      var toastId := pending[handle];
      pending := pending - {handle};
      toastTimeouts := toastTimeouts - {toastId};
      Dispatch(Remove(Some(toastId)));
    }
  }

  // ----- Shown toasts are the newest ids, newest first -----

  /** The order of the generated ids, from newest to oldest. */
  ghost predicate NewestFirst(toasts: seq<Toast>, numbers: seq<nat>, made: nat) {
    && |numbers| == |toasts|
    && (forall k | 0 <= k < |toasts| :: 1 <= numbers[k] <= made && toasts[k].id == IdOf(numbers[k]))
    && forall j, k | 0 <= j < k < |toasts| :: numbers[j] > numbers[k]
  }

  predicate DistinctIds(toasts: seq<Toast>) {
    forall j, k | 0 <= j < k < |toasts| :: toasts[j].id != toasts[k].id
  }

  lemma IdsDiffer(n: nat, m: nat)
    requires 1 <= m < n <= MODULUS
    ensures IdOf(n) != IdOf(m)
  {
    DecimalReads(n % MODULUS);
    DecimalReads(m % MODULUS);
    assert m % MODULUS == m && n % MODULUS == if n == MODULUS then 0 else n;
  }

  lemma NewestFirstDistinct(toasts: seq<Toast>, numbers: seq<nat>, made: nat)
    requires NewestFirst(toasts, numbers, made) && made <= MODULUS
    ensures DistinctIds(toasts)
  {
    forall j, k | 0 <= j < k < |toasts| ensures toasts[j].id != toasts[k].id {
      IdsDiffer(numbers[j], numbers[k]);
    }
  }

  /** The numbers of the toasts that are kept. */
  function KeptNumbers(toasts: seq<Toast>, numbers: seq<nat>, ids: set<string>): seq<nat>
    requires |numbers| == |toasts|
  {
    if toasts == [] then []
    else if toasts[0].id in ids then KeptNumbers(toasts[1..], numbers[1..], ids)
    else [numbers[0]] + KeptNumbers(toasts[1..], numbers[1..], ids)
  }

  lemma ConsInOrder(t: Toast, n: nat, toasts: seq<Toast>, numbers: seq<nat>, made: nat)
    requires NewestFirst(toasts, numbers, made) && 1 <= n <= made && t.id == IdOf(n)
    requires forall k | k in numbers :: k < n
    ensures NewestFirst([t] + toasts, [n] + numbers, made)
  {
    var ts, ns := [t] + toasts, [n] + numbers;
    forall k | 0 <= k < |ts| ensures 1 <= ns[k] <= made && ts[k].id == IdOf(ns[k]) {
      if k > 0 {
        assert ts[k] == toasts[k - 1] && ns[k] == numbers[k - 1];
      }
    }
    forall j, k | 0 <= j < k < |ts| ensures ns[j] > ns[k] {
      assert ns[k] == numbers[k - 1] && numbers[k - 1] in numbers;
      if j > 0 {
        assert ns[j] == numbers[j - 1];
      }
    }
  }

  lemma RestInOrder(toasts: seq<Toast>, numbers: seq<nat>, made: nat)
    requires NewestFirst(toasts, numbers, made) && toasts != []
    ensures NewestFirst(toasts[1..], numbers[1..], made)
    ensures forall k | k in numbers[1..] :: k < numbers[0]
  {
  }

  lemma {:induction false} KeptAreNumbers(toasts: seq<Toast>, numbers: seq<nat>, ids: set<string>)
    requires |numbers| == |toasts|
    ensures forall n | n in KeptNumbers(toasts, numbers, ids) :: n in numbers
  {
    if toasts != [] {
      KeptAreNumbers(toasts[1..], numbers[1..], ids);
    }
  }

  lemma {:induction false} KeptInOrder(toasts: seq<Toast>, numbers: seq<nat>, ids: set<string>, made: nat)
    requires NewestFirst(toasts, numbers, made)
    ensures NewestFirst(Without(toasts, ids), KeptNumbers(toasts, numbers, ids), made)
  {
    if toasts != [] {
      RestInOrder(toasts, numbers, made);
      KeptInOrder(toasts[1..], numbers[1..], ids, made);
      KeptAreNumbers(toasts[1..], numbers[1..], ids);
      if toasts[0].id !in ids {
        ConsInOrder(toasts[0], numbers[0], Without(toasts[1..], ids), KeptNumbers(toasts[1..], numbers[1..], ids),
                    made);
      }
    }
  }

  function NumbersAfter(w: World, numbers: seq<nat>, e: Event, limit: nat): seq<nat>
    requires |numbers| == |w.state.toasts| && CanHappen(w, e)
  {
    match e
    case Opens(_) => First([w.made + 1] + numbers, limit)
    case Does(Remove(None)) => []
    case Does(Remove(Some(id))) => KeptNumbers(w.state.toasts, numbers, {id})
    case Does(_) => numbers
    case Fires(handle) => KeptNumbers(w.state.toasts, numbers, {w.state.timers.pending[handle]})
  }

  lemma NextInOrder(w: World, numbers: seq<nat>, e: Event, limit: nat)
    requires NewestFirst(w.state.toasts, numbers, w.made) && CanHappen(w, e)
    ensures var w' := Next(w, e, limit);
            NewestFirst(w'.state.toasts, NumbersAfter(w, numbers, e, limit), w'.made)
  {
    match e
    case Does(Remove(Some(id))) => KeptInOrder(w.state.toasts, numbers, {id}, w.made);
    case Fires(handle) => KeptInOrder(w.state.toasts, numbers, {w.state.timers.pending[handle]}, w.made);
    case _ =>
  }

  function Numbers(events: seq<Event>, limit: nat): (numbers: seq<nat>)
    requires IsRun(events, limit)
    ensures NewestFirst(After(events, limit).state.toasts, numbers, After(events, limit).made)
  {
    if events == [] then []
    else
      RunBefore(events, limit);
      var before := events[..|events| - 1];
      NextInOrder(After(before, limit), Numbers(before, limit), events[|events| - 1], limit);
      NumbersAfter(After(before, limit), Numbers(before, limit), events[|events| - 1], limit)
  }

  // ----- Dismissed toasts have a pending timer -----

  predicate DismissedArePending(s: State) {
    forall k | 0 <= k < |s.toasts| :: !s.toasts[k].shown ==> s.toasts[k].id in PendingIds(s.timers)
  }

  /** The update does not close a toast behind the timers' back. */
  predicate LeavesOpenAlone(s: State, e: Event) {
    match e
    case Does(Update(id, changes)) => changes.shown == Some(false) && id in Ids(s.toasts) ==> id in PendingIds(s.timers)
    case _ => true
  }

  lemma {:induction false} WithoutMembers(toasts: seq<Toast>, ids: set<string>)
    ensures forall t :: t in Without(toasts, ids) <==> t in toasts && t.id !in ids
    ensures |Without(toasts, ids)| <= |toasts|
  {
    if toasts != [] {
      WithoutMembers(toasts[1..], ids);
      assert toasts == [toasts[0]] + toasts[1..];
    }
  }

  predicate AllPending(toasts: seq<Toast>, timers: set<string>) {
    forall t | t in toasts :: !t.shown ==> t.id in timers
  }

  lemma PendingByMember(s: State)
    ensures DismissedArePending(s) <==> AllPending(s.toasts, PendingIds(s.timers))
  {
    if DismissedArePending(s) {
      forall t | t in s.toasts ensures !t.shown ==> t.id in PendingIds(s.timers) {
        var k :| 0 <= k < |s.toasts| && s.toasts[k] == t;
      }
    } else {
      var k :| 0 <= k < |s.toasts| && !s.toasts[k].shown && s.toasts[k].id !in PendingIds(s.timers);
      assert s.toasts[k] in s.toasts;
    }
  }

  lemma FiringKeepsPending(s: State, handle: nat, limit: nat)
    requires DismissedArePending(s) && Agree(s.timers) && handle in s.timers.pending
    ensures DismissedArePending(FireTimer(s, handle, limit))
  {
    GoneOffAgrees(s.timers, handle);
    WithoutMembers(s.toasts, {s.timers.pending[handle]});
    PendingByMember(s);
    PendingByMember(FireTimer(s, handle, limit));
  }

  lemma DismissingKeepsPending(s: State, toastId: Option<string>, limit: nat)
    requires DismissedArePending(s) && Agree(s.timers)
    ensures DismissedArePending(Reduce(s, Dismiss(toastId), limit))
  {
    QueueEachAgrees(s.timers, Queued(s.toasts, toastId));
    QueuedIds(s.toasts, toastId);
  }

  lemma RemovingKeepsPending(s: State, id: string, limit: nat)
    requires DismissedArePending(s)
    ensures DismissedArePending(Reduce(s, Remove(Some(id)), limit))
  {
    WithoutMembers(s.toasts, {id});
    PendingByMember(s);
    PendingByMember(Reduce(s, Remove(Some(id)), limit));
  }

  /** An event keeps a timer pending for every dismissed toast exactly when it is not such an update. */
  lemma NextPending(w: World, e: Event, limit: nat)
    requires DismissedArePending(w.state) && Agree(w.state.timers) && CanHappen(w, e)
    ensures DismissedArePending(Next(w, e, limit).state) <==> LeavesOpenAlone(w.state, e)
  {
    match e
    case Fires(handle) => FiringKeepsPending(w.state, handle, limit);
    case Does(Dismiss(id)) => DismissingKeepsPending(w.state, id, limit);
    case Does(Remove(Some(id))) => RemovingKeepsPending(w.state, id, limit);
    case Does(Update(id, changes)) => UpdatePending(w.state, id, changes);
    case _ =>
  }

  lemma UpdatePending(s: State, id: string, changes: Changes)
    requires DismissedArePending(s)
    ensures DismissedArePending(s.(toasts := Updated(s.toasts, id, changes)))
            <==> (changes.shown == Some(false) && id in Ids(s.toasts) ==> id in PendingIds(s.timers))
  {
    var updated := Updated(s.toasts, id, changes);
    if changes.shown == Some(false) && id in Ids(s.toasts) && id !in PendingIds(s.timers) {
      var k :| 0 <= k < |s.toasts| && s.toasts[k].id == id;
      assert !updated[k].shown;
    }
  }

  predicate LeaveOpenAlone(events: seq<Event>, limit: nat)
    requires IsRun(events, limit)
  {
    events == [] ||
    (RunBefore(events, limit);
     var n := |events| - 1;
     LeaveOpenAlone(events[..n], limit) && LeavesOpenAlone(After(events[..n], limit).state, events[n]))
  }

  // ----- Every run -----

  lemma NextAgrees(w: World, e: Event, limit: nat)
    requires Agree(w.state.timers) && CanHappen(w, e)
    ensures Agree(Next(w, e, limit).state.timers)
  {
    match e
    case Fires(handle) => GoneOffAgrees(w.state.timers, handle);
    case Does(Dismiss(id)) => QueueEachAgrees(w.state.timers, Queued(w.state.toasts, id));
    case _ =>
  }

  lemma {:induction false} RunAgrees(events: seq<Event>, limit: nat)
    requires IsRun(events, limit)
    ensures Agree(After(events, limit).state.timers)
  {
    if events != [] {
      RunBefore(events, limit);
      RunAgrees(events[..|events| - 1], limit);
      NextAgrees(After(events[..|events| - 1], limit), events[|events| - 1], limit);
    }
  }

  lemma {:induction false} RunLimit(events: seq<Event>, limit: nat)
    requires IsRun(events, limit)
    ensures |After(events, limit).state.toasts| <= limit
  {
    if events != [] {
      RunBefore(events, limit);
      RunLimit(events[..|events| - 1], limit);
      NextLimit(After(events[..|events| - 1], limit), events[|events| - 1], limit);
    }
  }

  lemma NextLimit(w: World, e: Event, limit: nat)
    requires |w.state.toasts| <= limit && CanHappen(w, e)
    ensures |Next(w, e, limit).state.toasts| <= limit
  {
    match e
    case Does(Remove(Some(id))) => WithoutMembers(w.state.toasts, {id});
    case Fires(handle) => WithoutMembers(w.state.toasts, {w.state.timers.pending[handle]});
    case _ =>
  }

  lemma {:induction false} RunPending(events: seq<Event>, limit: nat)
    requires IsRun(events, limit) && LeaveOpenAlone(events, limit)
    ensures DismissedArePending(After(events, limit).state)
  {
    if events != [] {
      RunBefore(events, limit);
      var before := events[..|events| - 1];
      RunPending(before, limit);
      RunAgrees(before, limit);
      NextPending(After(before, limit), events[|events| - 1], limit);
    }
  }

  /**
   In every run at most the limit is shown, the shown toasts are in order from the newest id to
   the oldest, their ids differ while the counter has not gone round (or only one is shown), no id
   has two pending timeouts and the map remembers exactly the ids that have one, and every dismissed
   toast has one if no update closed it.
   */
  lemma {:induction false} RunIsSound(events: seq<Event>, limit: nat)
    requires IsRun(events, limit)
    ensures var w := After(events, limit);
            && |w.state.toasts| <= limit
            && (exists numbers :: NewestFirst(w.state.toasts, numbers, w.made))
            && (w.made <= MODULUS || limit <= 1 ==> DistinctIds(w.state.toasts))
            && (forall id :: |TimeoutsOf(w.state.timers, id)| <= 1)
            && w.state.timers.remembered.Keys == PendingIds(w.state.timers)
            && (LeaveOpenAlone(events, limit) ==> DismissedArePending(w.state))
  {
    RunLimit(events, limit);
    var w := After(events, limit);
    assert NewestFirst(w.state.toasts, Numbers(events, limit), w.made);
    if w.made <= MODULUS {
      NewestFirstDistinct(w.state.toasts, Numbers(events, limit), w.made);
    }
    RunAgrees(events, limit);
    AgreeingTimers(w.state.timers);
    if LeaveOpenAlone(events, limit) {
      RunPending(events, limit);
    }
  }

  // ----- Firing -----

  lemma {:induction false} WithoutAbsent(toasts: seq<Toast>, id: string)
    requires forall k | 0 <= k < |toasts| :: toasts[k].id != id
    ensures Without(toasts, {id}) == toasts
  {
    if toasts != [] {
      WithoutAbsent(toasts[1..], id);
    }
  }

  lemma {:induction false} WithoutOne(toasts: seq<Toast>, k: nat)
    requires DistinctIds(toasts) && k < |toasts|
    ensures Without(toasts, {toasts[k].id}) == toasts[..k] + toasts[k + 1..]
  {
    if k == 0 {
      WithoutAbsent(toasts[1..], toasts[0].id);
    } else {
      WithoutOne(toasts[1..], k - 1);
      assert toasts[..k] + toasts[k + 1..] == [toasts[0]] + (toasts[1..][..k - 1] + toasts[1..][k..]);
    }
  }

  /** A timer that fires removes exactly its toast, and leaves no other timer for its id. */
  lemma FiringRemovesItsToast(s: State, k: nat, handle: nat, limit: nat)
    requires DistinctIds(s.toasts) && Agree(s.timers) && k < |s.toasts|
    requires handle in s.timers.pending && s.timers.pending[handle] == s.toasts[k].id
    ensures var s' := FireTimer(s, handle, limit);
            && s'.toasts == s.toasts[..k] + s.toasts[k + 1..]
            && s'.timers.pending == s.timers.pending - {handle}
            && TimeoutsOf(s'.timers, s.toasts[k].id) == {} && s.toasts[k].id !in s'.timers.remembered
  {
    WithoutOne(s.toasts, k);
    GoneOffAgrees(s.timers, handle);
    AgreeingTimers(FireTimer(s, handle, limit).timers);
  }

  function Members(order: seq<string>): set<string> {
    set id | id in order
  }

  /** Handles that are pending, each once. */
  predicate CanFire(t: Timers, order: seq<nat>) {
    && (forall handle | handle in order :: handle in t.pending)
    && (forall j, k | 0 <= j < k < |order| :: order[j] != order[k])
  }

  function FireAll(s: State, order: seq<nat>, limit: nat): State
    requires CanFire(s.timers, order)
    decreases |order|
  {
    if order == [] then s
    else
      NextCanFire(s.timers, order);
      FireAll(FireTimer(s, order[0], limit), order[1..], limit)
  }

  lemma NextCanFire(t: Timers, order: seq<nat>)
    requires CanFire(t, order) && order != []
    ensures CanFire(GoneOff(t, order[0]), order[1..])
  {
    forall handle | handle in order[1..] ensures handle in GoneOff(t, order[0]).pending {
      var k :| 0 <= k < |order[1..]| && order[1..][k] == handle;
      assert order[k + 1] == handle && order[0] != order[k + 1];
    }
  }

  lemma {:induction false} WithoutTwice(toasts: seq<Toast>, id: string, ids: set<string>)
    ensures Without(Without(toasts, {id}), ids) == Without(toasts, {id} + ids)
  {
    if toasts != [] {
      WithoutTwice(toasts[1..], id, ids);
    }
  }

  lemma {:induction false} WithoutNone(toasts: seq<Toast>)
    ensures Without(toasts, {}) == toasts
  {
    if toasts != [] {
      WithoutNone(toasts[1..]);
    }
  }

  /** Whatever order all pending timers fire in, they leave the same toasts and no timer. */
  lemma {:induction false} FiringAll(s: State, order: seq<nat>, limit: nat)
    requires Agree(s.timers) && CanFire(s.timers, order)
             && (forall handle | handle in s.timers.pending :: handle in order)
    ensures var s' := FireAll(s, order, limit);
            && s'.toasts == Without(s.toasts, PendingIds(s.timers))
            && s'.timers.pending == map[] && s'.timers.remembered == map[]
    decreases |order|
  {
    if order == [] {
      assert PendingIds(s.timers) == {};
      WithoutNone(s.toasts);
    } else {
      var fired := FireTimer(s, order[0], limit);
      var id := s.timers.pending[order[0]];
      NextCanFire(s.timers, order);
      GoneOffAgrees(s.timers, order[0]);
      AllFollow(s.timers, order);
      FiringAll(fired, order[1..], limit);
      WithoutTwice(s.toasts, id, PendingIds(fired.timers));
      assert id in PendingIds(s.timers);
      assert PendingIds(s.timers) == {id} + PendingIds(fired.timers);
    }
  }

  lemma AllFollow(t: Timers, order: seq<nat>)
    requires CanFire(t, order) && order != [] && forall handle | handle in t.pending :: handle in order
    ensures forall handle | handle in GoneOff(t, order[0]).pending :: handle in order[1..]
  {
    forall handle | handle in GoneOff(t, order[0]).pending ensures handle in order[1..] {
      var k :| 0 <= k < |order| && order[k] == handle;
      assert order[1..][k - 1] == handle;
    }
  }

  /** Once every pending timer of a run has fired, no dismissed toast is left. */
  lemma {:induction false} NoDismissedLeft(events: seq<Event>, order: seq<nat>, limit: nat)
    requires IsRun(events, limit) && LeaveOpenAlone(events, limit)
    requires CanFire(After(events, limit).state.timers, order)
    requires forall handle | handle in After(events, limit).state.timers.pending :: handle in order
    ensures forall t | t in FireAll(After(events, limit).state, order, limit).toasts :: t.shown
  {
    var s := After(events, limit).state;
    RunPending(events, limit);
    RunAgrees(events, limit);
    FiringAll(s, order, limit);
    WithoutMembers(s.toasts, PendingIds(s.timers));
    PendingByMember(s);
  }

  // ----- What a dismissal reaches -----

  function ClosedIds(toasts: seq<Toast>, toastId: Option<string>): set<string> {
    set k | 0 <= k < |toasts| && (toastId == None || toasts[k].id == toastId.value) :: toasts[k].id
  }

  lemma IdsAreNotEmpty(toasts: seq<Toast>, numbers: seq<nat>, made: nat)
    requires NewestFirst(toasts, numbers, made)
    ensures "" !in Ids(toasts)
  {
  }

  lemma ReachedAreClosed(toasts: seq<Toast>, toastId: Option<string>)
    requires "" !in Ids(toasts)
    ensures Members(Queued(toasts, toastId)) * Ids(toasts) == ClosedIds(toasts, toastId)
            <==> toastId != Some("") || toasts == []
  {
    QueuedIds(toasts, toastId);
    if toastId == Some("") && toasts != [] {
      assert toasts[0].id in Ids(toasts);
      assert toasts[0].id !in ClosedIds(toasts, toastId);
    }
  }

  /**
   A dismissal queues exactly the shown toasts that it closes, unless it names the empty id: that
   one queues all of them and closes none, as no generated id is empty.
   */
  lemma DismissalReaches(events: seq<Event>, toastId: Option<string>, limit: nat)
    requires IsRun(events, limit)
    ensures var toasts := After(events, limit).state.toasts;
            Members(Queued(toasts, toastId)) * Ids(toasts) == ClosedIds(toasts, toastId)
            <==> toastId != Some("") || toasts == []
  {
    var toasts := After(events, limit).state.toasts;
    IdsAreNotEmpty(toasts, Numbers(events, limit), After(events, limit).made);
    ReachedAreClosed(toasts, toastId);
  }
}
