/** The transactional outbox: its rows, the relays that publish them and the recovery of
    stranded work (messaging/relay.py and the outbox part of persistence/repositories.py).
    A step is one commit or one publication; any number of relays run, and each may crash
    anywhere. */
module Outbox {
  import opened Lifecycle

  type Id = nat

  datatype Work = ExecuteWork | VerifyWork | CompensateWork

  datatype Row = Row(state: OperationState, version: nat)

  /** An outbox row; `publishedAt` is None while it is PENDING. */
  datatype Event = Event(
    operation: Id, version: nat, work: Work, createdAt: int, publishedAt: Option<int>, correlation: Option<string>)

  datatype Message = Message(
    id: Id, event: Id, operation: Id, version: nat, work: Work, correlation: Option<string>, createdAt: int)

  /** An audit row with the reason messaging.recovery_republished. */
  datatype Republication = Republication(operation: Id, work: Work, version: nat, source: Id, replay: Id)

  /** An audit row with the reason messaging.recovery_exhausted, at the version it produced. */
  datatype Exhaustion = Exhaustion(operation: Id, work: Work, version: nat)

  datatype Store = Store(
    operations: map<Id, Row>,
    events: map<Id, Event>,
    republications: seq<Republication>,
    exhaustions: seq<Exhaustion>)

  /** Identifiers derived by hashing: distinct events get distinct ones. */
  datatype Naming = Naming(messageOf: Id -> Id, replayOf: Id -> Id)

  ghost predicate Injective(f: Id -> Id) {
    forall a, b :: f(a) == f(b) ==> a == b
  }

  function MessageFor(naming: Naming, id: Id, event: Event): Message {
    Message(naming.messageOf(id), id, event.operation, event.version, event.work, event.correlation,
            event.createdAt)
  }

  // ---------------------------------------------------------------- stranded work

  /** _COMMAND_STATES */
  predicate StillNeeds(work: Work, state: OperationState) {
    match work
    case ExecuteWork => state.Ready? || state.Executing?
    case VerifyWork =>
      state.Executing? || state.Unknown? || state.Verifying? || state.Compensating? || state.CompensationUnknown?
    case CompensateWork => state.Compensating? || state.CompensationUnknown? || state.CompensationFailed?
  }

  /** Which work is still needed, state by state. */
  lemma NeededWork(state: OperationState)
    ensures StillNeeds(ExecuteWork, state) <==> state == Ready || state == Executing
    ensures StillNeeds(VerifyWork, state)
        <==> state in {Executing, Unknown, Verifying, Compensating, CompensationUnknown}
    ensures StillNeeds(CompensateWork, state)
        <==> state in {Compensating, CompensationUnknown, CompensationFailed}
    ensures forall work :: Announces(state, work) ==> StillNeeds(work, state)
  {
  }

  /** (created_at, event_id) order of two rows. */
  predicate Newer(events: map<Id, Event>, a: Id, b: Id)
    requires a in events && b in events
  {
    events[a].createdAt > events[b].createdAt || (events[a].createdAt == events[b].createdAt && a > b)
  }

  /** latest_for_operation returns this row. */
  predicate IsLatest(events: map<Id, Event>, id: Id)
    requires id in events
  {
    forall other :: other in events && other != id && events[other].operation == events[id].operation
      ==> Newer(events, id, other)
  }

  /** The check made under the lock of the operation's row. */
  predicate IsStranded(store: Store, id: Id, cutoff: int) {
    && id in store.events
    && var event := store.events[id];
    && event.operation in store.operations
    && IsLatest(store.events, id)
    && event.publishedAt.Some? && event.publishedAt.value <= cutoff
    && StillNeeds(event.work, store.operations[event.operation].state)
  }

  /** count_reason_for_command for the republications. */
  function RepublicationCount(rows: seq<Republication>, operation: Id, work: Work, version: nat): nat {
    if |rows| == 0 then 0
    else
      var last := rows[|rows| - 1];
      RepublicationCount(rows[..|rows| - 1], operation, work, version)
      + (if last.operation == operation && last.work == work && last.version == version then 1 else 0)
  }

  /** The republications of this operation, work and version. */
  function RepublicationsOf(rows: seq<Republication>, operation: Id, work: Work, version: nat): set<nat> {
    set k: nat | k < |rows| && rows[k].operation == operation && rows[k].work == work && rows[k].version == version
  }

  lemma {:induction false} CountIsNumberOfRepublications(
    rows: seq<Republication>, operation: Id, work: Work, version: nat)
    ensures RepublicationCount(rows, operation, work, version) == |RepublicationsOf(rows, operation, work, version)|
    decreases |rows|
  {
    if |rows| > 0 {
      var last := |rows| - 1;
      var fewer := RepublicationsOf(rows[..last], operation, work, version);
      CountIsNumberOfRepublications(rows[..last], operation, work, version);
      var own := if rows[last].operation == operation && rows[last].work == work && rows[last].version == version
                 then {last} else {};
      assert RepublicationsOf(rows, operation, work, version) == fewer + own;
      assert last !in fewer;
    }
  }

  function CountFor(store: Store, id: Id): nat
    requires id in store.events && store.events[id].operation in store.operations
  {
    var event := store.events[id];
    RepublicationCount(store.republications, event.operation, event.work, store.operations[event.operation].version)
  }

  /** count_reason_for_command finds an exhaustion at the operation's present version. */
  predicate AlreadyExhausted(store: Store, id: Id)
    requires id in store.events && store.events[id].operation in store.operations
  {
    var event := store.events[id];
    Exhaustion(event.operation, event.work, store.operations[event.operation].version) in store.exhaustions
  }

  function Replay(store: Store, source: Id, now: int): Event
    requires source in store.events && store.events[source].operation in store.operations
  {
    var event := store.events[source];
    Event(event.operation, store.operations[event.operation].version, event.work, now, None, event.correlation)
  }

  /** One unit of work of recover_stranded, when the replay id is free. */
  function Republished(naming: Naming, store: Store, source: Id, now: int): Store
    requires source in store.events && store.events[source].operation in store.operations
  {
    var replay := naming.replayOf(source);
    var event := Replay(store, source, now);
    store.(events := store.events[replay := event],
           republications := store.republications
             + [Republication(event.operation, event.work, event.version, source, replay)])
  }

  /** escalate_messaging_recovery; None is its rejection. */
  function Escalated(store: Store, operation: Id, work: Work): Option<Store>
    requires operation in store.operations
  {
    var row := store.operations[operation];
    if (row.state.Ready? || row.state.Executing? || row.state.Verifying? || row.state.Unknown?
        || row.state.Compensating? || row.state.CompensationUnknown? || row.state.CompensationFailed?)
       && LegalOperationEdge(row.state, ManualIntervention)
    then Some(store.(operations := store.operations[operation := Row(ManualIntervention, row.version + 1)],
                     exhaustions := store.exhaustions + [Exhaustion(operation, work, row.version + 1)]))
    else None
  }

  /** The states that the lifecycle announces with an outbox event (transitions/outbox.py). */
  predicate Announces(state: OperationState, work: Work) {
    match work
    case ExecuteWork => state.Ready?
    case VerifyWork => state.Verifying? || state.Unknown? || state.Compensating?
    case CompensateWork => state.Compensating? || state.CompensationUnknown?
  }

  // ---------------------------------------------------------------- the world

  /** A relay holds the lock of the row it publishes until it commits. */
  datatype Relay = Free | Locked(event: Id) | Sent(event: Id)

  datatype World = World(store: Store, relays: map<nat, Relay>, sent: seq<Message>, clock: int)

  datatype Settings = Settings(naming: Naming, maxRecoveries: nat)

  datatype Step =
    | Tick(now: int)
    | Create(operation: Id)
    | Transition(operation: Id, to: Row, announced: Option<(Id, Event)>)
    | Lock(event: Id)
    | Publish
    | Mark
    | Fail
    | Republish(source: Id, cutoff: int, at: int)
    | Escalate(source: Id, cutoff: int)

  function RelayOf(w: World, r: nat): Relay {
    if r in w.relays then w.relays[r] else Free
  }

  predicate LockedByNobody(w: World, event: Id) {
    forall r :: r in w.relays && !w.relays[r].Free? ==> w.relays[r].event != event
  }

  /** A lifecycle commit: the version may stay (progress of a compensation) or grow by one. */
  predicate IsLifecycleMove(from: Row, to: Row) {
    || to == from
    || (to.version == from.version + 1 && LegalOperationEdge(from.state, to.state))
  }

  predicate MayAnnounce(w: World, operation: Id, to: Row, announced: Option<(Id, Event)>) {
    announced.Some? ==>
      && var (id, event) := announced.value;
      && id !in w.store.events
      && event.operation == operation && event.version == to.version
      && event.publishedAt.None? && event.createdAt <= w.clock
      && Announces(to.state, event.work)
  }

  function WithAnnouncement(events: map<Id, Event>, announced: Option<(Id, Event)>): map<Id, Event> {
    match announced
    case None => events
    case Some((id, event)) => events[id := event]
  }

  predicate Takes(settings: Settings, w: World, r: nat, step: Step, t: World) {
    match step
    case Tick(now) => w.clock <= now && t == w.(clock := now)
    case Create(operation) =>
      && operation !in w.store.operations
      && t == w.(store := w.store.(operations := w.store.operations[operation := Row(PendingPolicy, 1)]))
    case Transition(operation, to, announced) =>
      && operation in w.store.operations
      && IsLifecycleMove(w.store.operations[operation], to)
      && MayAnnounce(w, operation, to, announced)
      && t == w.(store := w.store.(operations := w.store.operations[operation := to],
                                   events := WithAnnouncement(w.store.events, announced)))
    case Lock(event) =>
      && RelayOf(w, r).Free? && LockedByNobody(w, event)
      && event in w.store.events && w.store.events[event].publishedAt.None?
      && t == w.(relays := w.relays[r := Locked(event)])
    case Publish =>
      && RelayOf(w, r).Locked? && RelayOf(w, r).event in w.store.events
      && var event := RelayOf(w, r).event;
      && t == w.(relays := w.relays[r := Sent(event)],
                 sent := w.sent + [MessageFor(settings.naming, event, w.store.events[event])])
    case Mark =>
      && RelayOf(w, r).Sent? && RelayOf(w, r).event in w.store.events
      && var event := RelayOf(w, r).event;
      && w.store.events[event].publishedAt.None?
      && t == w.(relays := w.relays[r := Free],
                 store := w.store.(events :=
                   w.store.events[event := w.store.events[event].(publishedAt := Some(w.clock))]))
    case Fail => t == w.(relays := w.relays[r := Free])
    case Republish(source, cutoff, at) =>
      && cutoff < at <= w.clock
      && IsStranded(w.store, source, cutoff)
      && CountFor(w.store, source) < settings.maxRecoveries
      && settings.naming.replayOf(source) !in w.store.events
      && t == w.(store := Republished(settings.naming, w.store, source, at))
    case Escalate(source, cutoff) =>
      && IsStranded(w.store, source, cutoff)
      && CountFor(w.store, source) >= settings.maxRecoveries
      && !AlreadyExhausted(w.store, source)
      && var after := Escalated(w.store, w.store.events[source].operation, w.store.events[source].work);
      && after.Some?
      && t == w.(store := after.value)
  }

  ghost predicate Next(settings: Settings, w: World, t: World) {
    exists r, step :: Takes(settings, w, r, step, t)
  }

  predicate Initial(w: World) {
    w == World(Store(map[], map[], [], []), map[], [], w.clock)
  }

  /** Position i of the run is followed by one step. */
  ghost predicate StepAt(settings: Settings, run: seq<World>, i: nat)
    requires i + 1 < |run|
  {
    Next(settings, run[i], run[i + 1])
  }

  ghost predicate IsRun(settings: Settings, run: seq<World>) {
    && |run| > 0
    && Initial(run[0])
    && forall i :: 0 <= i < |run| - 1 ==> StepAt(settings, run, i)
  }
}
