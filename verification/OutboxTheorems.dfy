/** What holds in every run of the outbox: at-least-once publication of identical copies,
    nothing lost, and a bounded recovery of stranded work that ends with a person. */
module OutboxTheorems {
  import opened Lifecycle
  import opened Outbox

  ghost predicate WasSent(sent: seq<Message>, message: Message) {
    exists i :: 0 <= i < |sent| && sent[i] == message
  }

  ghost predicate EventsFit(settings: Settings, w: World) {
    && (forall id :: id in w.store.events ==>
          && w.store.events[id].operation in w.store.operations
          && w.store.events[id].createdAt <= w.clock)
    && (forall id :: id in w.store.events && w.store.events[id].publishedAt.Some? ==>
          && w.store.events[id].createdAt <= w.store.events[id].publishedAt.value
          && WasSent(w.sent, MessageFor(settings.naming, id, w.store.events[id])))
    && (forall i :: 0 <= i < |w.sent| ==>
          && w.sent[i].event in w.store.events
          && w.sent[i] == MessageFor(settings.naming, w.sent[i].event, w.store.events[w.sent[i].event]))
  }

  ghost predicate RelaysFit(settings: Settings, w: World) {
    && (forall r :: r in w.relays && !w.relays[r].Free? ==>
          && w.relays[r].event in w.store.events
          && w.store.events[w.relays[r].event].publishedAt.None?)
    && (forall r :: r in w.relays && w.relays[r].Sent? ==>
          w.relays[r].event in w.store.events
          && WasSent(w.sent, MessageFor(settings.naming, w.relays[r].event, w.store.events[w.relays[r].event])))
    && (forall r, q :: r in w.relays && q in w.relays && r != q && !w.relays[r].Free? && !w.relays[q].Free?
          ==> w.relays[r].event != w.relays[q].event)
  }

  /** Every republication left a strictly newer row behind, so its source is no longer the
      latest row of its operation. */
  ghost predicate RepublicationFits(settings: Settings, store: Store, row: Republication) {
    && row.source in store.events && row.replay in store.events
    && row.replay == settings.naming.replayOf(row.source)
    && store.events[row.source].operation == row.operation
    && store.events[row.replay].operation == row.operation
    && Newer(store.events, row.replay, row.source)
    && row.operation in store.operations
    && row.version <= store.operations[row.operation].version
  }

  ghost predicate RepublicationsFit(settings: Settings, store: Store) {
    && (forall i :: 0 <= i < |store.republications| ==>
          RepublicationFits(settings, store, store.republications[i]))
    && (forall i, j :: 0 <= i < j < |store.republications| ==>
          store.republications[i].source != store.republications[j].source)
    && (forall operation, work, version ::
          RepublicationCount(store.republications, operation, work, version) <= settings.maxRecoveries)
  }

  /** An escalation leaves its operation with a person at the version it produced. */
  ghost predicate ExhaustionsFit(store: Store) {
    forall row :: row in store.exhaustions ==>
      && row.operation in store.operations
      && row.version <= store.operations[row.operation].version
      && (row.version == store.operations[row.operation].version ==>
            store.operations[row.operation].state.ManualIntervention?)
  }

  ghost predicate Inv(settings: Settings, w: World) {
    && EventsFit(settings, w) && RelaysFit(settings, w)
    && RepublicationsFit(settings, w.store) && ExhaustionsFit(w.store)
  }

  // ---------------------------------------------------------------- growth

  /** Rows are never deleted; only the publication time is ever set, once. */
  ghost predicate StoreGrows(before: Store, after: Store) {
    && (forall id :: id in before.operations ==>
          id in after.operations && before.operations[id].version <= after.operations[id].version)
    && (forall id :: id in before.events ==>
          && id in after.events
          && after.events[id] == before.events[id].(publishedAt := after.events[id].publishedAt)
          && (before.events[id].publishedAt.Some? ==> after.events[id] == before.events[id]))
    && before.republications <= after.republications
  }

  lemma WasSentGrows(sent: seq<Message>, more: Message, message: Message)
    requires WasSent(sent, message)
    ensures WasSent(sent + [more], message)
  {
    var i :| 0 <= i < |sent| && sent[i] == message;
    assert (sent + [more])[i] == message;
  }

  lemma RepublicationFitsGrows(settings: Settings, before: Store, after: Store, row: Republication)
    requires StoreGrows(before, after) && RepublicationFits(settings, before, row)
    ensures RepublicationFits(settings, after, row)
  {
  }

  lemma RepublicationsFitGrows(settings: Settings, before: Store, after: Store)
    requires StoreGrows(before, after) && RepublicationsFit(settings, before)
    requires after.republications == before.republications
    ensures RepublicationsFit(settings, after)
  {
    forall i | 0 <= i < |after.republications|
      ensures RepublicationFits(settings, after, after.republications[i])
    {
      RepublicationFitsGrows(settings, before, after, before.republications[i]);
    }
  }

  lemma CountAfter(rows: seq<Republication>, row: Republication, operation: Id, work: Work, version: nat)
    ensures RepublicationCount(rows + [row], operation, work, version)
         == RepublicationCount(rows, operation, work, version)
            + (if row.operation == operation && row.work == work && row.version == version then 1 else 0)
  {
    assert (rows + [row])[..|rows|] == rows;
  }

  // ---------------------------------------------------------------- steps

  lemma PublishKeeps(settings: Settings, w: World, r: nat, t: World)
    requires Inv(settings, w) && Takes(settings, w, r, Publish, t)
    ensures Inv(settings, t)
  {
    var event := w.relays[r].event;
    var message := MessageFor(settings.naming, event, w.store.events[event]);
    assert t.sent[|w.sent|] == message;
    forall id | id in t.store.events && t.store.events[id].publishedAt.Some?
      ensures WasSent(t.sent, MessageFor(settings.naming, id, t.store.events[id]))
    {
      WasSentGrows(w.sent, message, MessageFor(settings.naming, id, w.store.events[id]));
    }
    forall q | q in t.relays && t.relays[q].Sent?
      ensures t.relays[q].event in t.store.events
      ensures WasSent(t.sent, MessageFor(settings.naming, t.relays[q].event, t.store.events[t.relays[q].event]))
    {
      if q != r {
        WasSentGrows(w.sent, message,
                     MessageFor(settings.naming, w.relays[q].event, w.store.events[w.relays[q].event]));
      }
    }
  }

  lemma MarkKeeps(settings: Settings, w: World, r: nat, t: World)
    requires Inv(settings, w) && Takes(settings, w, r, Mark, t)
    ensures Inv(settings, t) && StoreGrows(w.store, t.store)
  {
    var event := w.relays[r].event;
    assert MessageFor(settings.naming, event, t.store.events[event])
        == MessageFor(settings.naming, event, w.store.events[event]);
    RepublicationsFitGrows(settings, w.store, t.store);
  }

  lemma TransitionIsAnEvent(settings: Settings, w: World, r: nat, step: Step, t: World)
    requires Inv(settings, w) && Takes(settings, w, r, step, t)
    requires step.Create? || step.Transition?
    ensures EventsFit(settings, t) && RelaysFit(settings, t) && StoreGrows(w.store, t.store)
  {
  }

  lemma TransitionKeeps(settings: Settings, w: World, r: nat, step: Step, t: World)
    requires Inv(settings, w) && Takes(settings, w, r, step, t)
    requires step.Create? || step.Transition?
    ensures Inv(settings, t) && StoreGrows(w.store, t.store)
  {
    TransitionIsAnEvent(settings, w, r, step, t);
    RepublicationsFitGrows(settings, w.store, t.store);
    assert ExhaustionsFit(t.store);
  }

  lemma EscalateKeeps(settings: Settings, w: World, r: nat, source: Id, cutoff: int, t: World)
    requires Inv(settings, w) && Takes(settings, w, r, Escalate(source, cutoff), t)
    ensures Inv(settings, t) && StoreGrows(w.store, t.store)
  {
    RepublicationsFitGrows(settings, w.store, t.store);
    assert ExhaustionsFit(t.store);
  }

  /** A replay is strictly newer than its source: the source was published, hence created,
      before the cutoff, and the replay is created after it. */
  lemma ReplayIsNewer(settings: Settings, w: World, r: nat, source: Id, cutoff: int, at: int, t: World)
    requires Inv(settings, w) && Takes(settings, w, r, Republish(source, cutoff, at), t)
    ensures var replay := settings.naming.replayOf(source);
      && source != replay
      && Newer(t.store.events, replay, source)
      && !IsLatest(t.store.events, source)
    ensures StoreGrows(w.store, t.store)
  {
    var replay := settings.naming.replayOf(source);
    assert w.store.events[source].createdAt <= w.store.events[source].publishedAt.value < at;
    assert !Newer(t.store.events, source, replay);
  }

  /** The source is the latest event, which a source of an earlier replay no longer is. */
  lemma NotASourceYet(settings: Settings, w: World, r: nat, source: Id, cutoff: int, at: int, t: World)
    requires Inv(settings, w) && Takes(settings, w, r, Republish(source, cutoff, at), t)
    ensures forall i :: 0 <= i < |w.store.republications| ==> w.store.republications[i].source != source
  {
    var before := w.store.republications;
    forall i | 0 <= i < |before| ensures before[i].source != source {
      assert RepublicationFits(settings, w.store, before[i]);
      assert Newer(w.store.events, before[i].replay, before[i].source);
    }
  }

  lemma ReplayFits(settings: Settings, w: World, r: nat, source: Id, cutoff: int, at: int, t: World)
    requires Inv(settings, w) && Takes(settings, w, r, Republish(source, cutoff, at), t)
    ensures forall i :: 0 <= i < |t.store.republications| ==>
              RepublicationFits(settings, t.store, t.store.republications[i])
  {
    ReplayIsNewer(settings, w, r, source, cutoff, at, t);
    var before, after := w.store.republications, t.store.republications;
    forall i | 0 <= i < |after| ensures RepublicationFits(settings, t.store, after[i]) {
      if i < |before| {
        assert after[i] == before[i];
        RepublicationFitsGrows(settings, w.store, t.store, before[i]);
      }
    }
  }

  lemma ReplayIsAnEvent(settings: Settings, w: World, r: nat, source: Id, cutoff: int, at: int, t: World)
    requires Inv(settings, w) && Takes(settings, w, r, Republish(source, cutoff, at), t)
    ensures EventsFit(settings, t) && RelaysFit(settings, t) && ExhaustionsFit(t.store)
  {
  }

  lemma ReplayStaysInBudget(settings: Settings, w: World, r: nat, source: Id, cutoff: int, at: int, t: World)
    requires Inv(settings, w) && Takes(settings, w, r, Republish(source, cutoff, at), t)
    ensures RepublicationsFit(settings, t.store)
  {
    ReplayFits(settings, w, r, source, cutoff, at, t);
    NotASourceYet(settings, w, r, source, cutoff, at, t);
    var before, row := w.store.republications, t.store.republications[|w.store.republications|];
    var after := t.store.republications;
    forall operation, work, version
      ensures RepublicationCount(after, operation, work, version) <= settings.maxRecoveries
    {
      CountAfter(before, row, operation, work, version);
    }
  }

  lemma RepublishKeeps(settings: Settings, w: World, r: nat, source: Id, cutoff: int, at: int, t: World)
    requires Inv(settings, w) && Takes(settings, w, r, Republish(source, cutoff, at), t)
    ensures Inv(settings, t) && StoreGrows(w.store, t.store)
  {
    ReplayIsNewer(settings, w, r, source, cutoff, at, t);
    ReplayIsAnEvent(settings, w, r, source, cutoff, at, t);
    ReplayStaysInBudget(settings, w, r, source, cutoff, at, t);
  }

  lemma OutboxStepKeeps(settings: Settings, w: World, r: nat, step: Step, t: World)
    requires Inv(settings, w) && Takes(settings, w, r, step, t)
    ensures Inv(settings, t)
    ensures StoreGrows(w.store, t.store) && w.sent <= t.sent && w.clock <= t.clock
  {
    match step
    case Publish => PublishKeeps(settings, w, r, t);
    case Mark => MarkKeeps(settings, w, r, t);
    case Republish(source, cutoff, at) => RepublishKeeps(settings, w, r, source, cutoff, at, t);
    case Create(_) => TransitionKeeps(settings, w, r, step, t);
    case Transition(_, _, _) => TransitionKeeps(settings, w, r, step, t);
    case Escalate(source, cutoff) => EscalateKeeps(settings, w, r, source, cutoff, t);
    case _ =>
  }

  lemma StepOf(settings: Settings, run: seq<World>, i: nat) returns (r: nat, step: Step)
    requires IsRun(settings, run) && i + 1 < |run|
    ensures Takes(settings, run[i], r, step, run[i + 1])
  {
    assert StepAt(settings, run, i);
    r, step :| Takes(settings, run[i], r, step, run[i + 1]);
  }

  lemma {:induction false} OutboxInvariantHolds(settings: Settings, run: seq<World>, i: nat)
    requires IsRun(settings, run) && i < |run|
    ensures Inv(settings, run[i])
  {
    if i > 0 {
      OutboxInvariantHolds(settings, run, i - 1);
      var r, step := StepOf(settings, run, i - 1);
      OutboxStepKeeps(settings, run[i - 1], r, step, run[i]);
    } else {
      assert forall operation, work, version :: RepublicationCount([], operation, work, version) == 0;
    }
  }

  lemma RunStepGrows(settings: Settings, run: seq<World>, i: nat)
    requires IsRun(settings, run) && i + 1 < |run|
    ensures WorldGrows(run[i], run[i + 1])
  {
    OutboxInvariantHolds(settings, run, i);
    var r, step := StepOf(settings, run, i);
    OutboxStepKeeps(settings, run[i], r, step, run[i + 1]);
  }

  // ---------------------------------------------------------------- publication

  /** At least once: a row is PUBLISHED only after its own message was published. */
  lemma PublishedWasSent(settings: Settings, run: seq<World>, i: nat, id: Id)
    requires IsRun(settings, run) && i < |run|
    requires id in run[i].store.events && run[i].store.events[id].publishedAt.Some?
    ensures WasSent(run[i].sent, MessageFor(settings.naming, id, run[i].store.events[id]))
  {
    OutboxInvariantHolds(settings, run, i);
  }

  ghost predicate WorldGrows(before: World, after: World) {
    StoreGrows(before.store, after.store) && before.sent <= after.sent
  }

  lemma WorldGrowsReflexively(a: World)
    ensures WorldGrows(a, a)
  {
  }

  lemma WorldGrowsTransitively(a: World, b: World, c: World)
    requires WorldGrows(a, b) && WorldGrows(b, c)
    ensures WorldGrows(a, c)
  {
  }

  /** Nothing is lost: no row disappears or changes, and PUBLISHED never reverts. */
  lemma {:induction false} NoEventIsLost(settings: Settings, run: seq<World>, i: nat, j: nat)
    requires IsRun(settings, run) && i <= j < |run|
    ensures WorldGrows(run[i], run[j])
    decreases j
  {
    if i == j {
      WorldGrowsReflexively(run[i]);
    } else {
      NoEventIsLost(settings, run, i, j - 1);
      RunStepGrows(settings, run, j - 1);
      WorldGrowsTransitively(run[i], run[j - 1], run[j]);
    }
  }

  /** Copies of one event are the same message, whoever published them and when; copies of
      different events differ in their message id. */
  lemma CopiesAreIdentical(settings: Settings, run: seq<World>, i: nat, a: nat, b: nat)
    requires IsRun(settings, run) && i < |run| && Injective(settings.naming.messageOf)
    requires a < |run[i].sent| && b < |run[i].sent|
    ensures run[i].sent[a].id == run[i].sent[b].id <==> run[i].sent[a].event == run[i].sent[b].event
    ensures run[i].sent[a].event == run[i].sent[b].event ==> run[i].sent[a] == run[i].sent[b]
  {
    OutboxInvariantHolds(settings, run, i);
  }

  // ---------------------------------------------------------------- stranded work

  /** For one operation, command and version there are at most maxRecoveries republications. */
  lemma RepublicationsAreBounded(
    settings: Settings, run: seq<World>, i: nat, operation: Id, work: Work, version: nat)
    requires IsRun(settings, run) && i < |run|
    ensures RepublicationCount(run[i].store.republications, operation, work, version) <= settings.maxRecoveries
  {
    OutboxInvariantHolds(settings, run, i);
  }

  /** A published event is the source of at most one republication. */
  lemma EachSourceOnce(settings: Settings, run: seq<World>, i: nat, a: nat, b: nat)
    requires IsRun(settings, run) && i < |run| && a < b < |run[i].store.republications|
    ensures run[i].store.republications[a].source != run[i].store.republications[b].source
  {
    OutboxInvariantHolds(settings, run, i);
  }

  /** When the budget is used up the escalation always happens: it was not made before at this
      version, every state that still needs work has a legal edge to a person, and after it
      nothing of the operation is stranded. */
  lemma ExhaustionEscalates(settings: Settings, run: seq<World>, i: nat, source: Id, cutoff: int)
    requires IsRun(settings, run) && i < |run|
    requires IsStranded(run[i].store, source, cutoff)
    ensures !AlreadyExhausted(run[i].store, source)
    ensures var store := run[i].store;
      var operation := store.events[source].operation;
      var row := store.operations[operation];
      var after := Escalated(store, operation, store.events[source].work);
      && after.Some?
      && LegalOperationEdge(row.state, ManualIntervention)
      && after.value.operations == store.operations[operation := Row(ManualIntervention, row.version + 1)]
      && after.value.events == store.events
      && forall id, later :: !(id in after.value.events && after.value.events[id].operation == operation
                               && IsStranded(after.value, id, later))
  {
    OutboxInvariantHolds(settings, run, i);
  }

  /** The messaging recovery escalates this operation in this step. */
  ghost predicate EscalatesAt(
    settings: Settings, w: World, r: nat, source: Id, cutoff: int, t: World, operation: Id)
  {
    && Takes(settings, w, r, Escalate(source, cutoff), t)
    && source in w.store.events && w.store.events[source].operation == operation
  }

  /** One version of an operation is escalated by the messaging recovery at most once. */
  lemma EscalatedOncePerVersion(
    settings: Settings, run: seq<World>, operation: Id,
    i: nat, r: nat, source: Id, cutoff: int, j: nat, q: nat, another: Id, later: int)
    requires IsRun(settings, run) && i < j && j + 1 < |run|
    requires EscalatesAt(settings, run[i], r, source, cutoff, run[i + 1], operation)
    requires EscalatesAt(settings, run[j], q, another, later, run[j + 1], operation)
    ensures run[i].store.operations[operation].version < run[j].store.operations[operation].version
  {
    NoEventIsLost(settings, run, i + 1, j);
  }

  /** What a republication leaves behind: one new PENDING event, about the same work at the
      operation's present version, and one audit row that names it and its source. */
  lemma RepublicationAnnouncesThePresent(
    settings: Settings, w: World, r: nat, source: Id, cutoff: int, at: int, t: World)
    requires Takes(settings, w, r, Republish(source, cutoff, at), t)
    ensures var replay := settings.naming.replayOf(source);
      var event := w.store.events[source];
      var version := w.store.operations[event.operation].version;
      && replay !in w.store.events && t.store.events.Keys == w.store.events.Keys + {replay}
      && (forall id :: id in w.store.events ==> t.store.events[id] == w.store.events[id])
      && t.store.events[replay] == event.(version := version, createdAt := at, publishedAt := None)
      && t.store.republications
         == w.store.republications + [Republication(event.operation, event.work, version, source, replay)]
      && t.store.operations == w.store.operations
  {
  }

  /** What a publication sends: the identifiers, version, work and correlation of its row. */
  lemma PublicationSaysItsRow(settings: Settings, w: World, r: nat, t: World)
    requires Takes(settings, w, r, Publish, t)
    ensures |t.sent| == |w.sent| + 1 && RelayOf(w, r).Locked? && RelayOf(w, r).event in w.store.events
    ensures var message, event := t.sent[|w.sent|], w.store.events[RelayOf(w, r).event];
      && message.event == RelayOf(w, r).event && message.id == settings.naming.messageOf(message.event)
      && message.operation == event.operation && message.version == event.version
      && message.work == event.work && message.correlation == event.correlation
      && message.createdAt == event.createdAt
  {
  }
}
