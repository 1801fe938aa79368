/** The candidate query of the stranded-work recovery, and what its limit does. */
module StrandedWork {
  import opened Lifecycle
  import opened Outbox
  import opened OutboxTheorems

  /** The states of the query's filter: the ones of the locked check and COMPENSATED. */
  predicate QueryAdmits(work: Work, state: OperationState) {
    StillNeeds(work, state) || (work.CompensateWork? && state.Compensated?)
  }

  predicate HasNewer(events: map<Id, Event>, id: Id)
    requires id in events
  {
    exists other :: other in events && events[other].operation == events[id].operation && Newer(events, other, id)
  }

  /** The WHERE clause of list_stranded_candidate_ids. */
  predicate IsCandidate(store: Store, id: Id, cutoff: int) {
    && id in store.events
    && var event := store.events[id];
    && event.operation in store.operations
    && event.publishedAt.Some? && event.publishedAt.value <= cutoff
    && !HasNewer(store.events, id)
    && QueryAdmits(event.work, store.operations[event.operation].state)
  }

  lemma LatestIffNothingNewer(events: map<Id, Event>, id: Id)
    requires id in events
    ensures IsLatest(events, id) <==> !HasNewer(events, id)
  {
    if !HasNewer(events, id) {
      forall other | other in events && other != id && events[other].operation == events[id].operation
        ensures Newer(events, id, other)
      {
        assert !Newer(events, other, id);
      }
    } else {
      var other :| other in events && events[other].operation == events[id].operation && Newer(events, other, id);
      assert !Newer(events, id, other);
    }
  }

  /** The query admits what the locked check accepts, and beyond that only finished
      compensations, which the check refuses. */
  lemma QueryMatchesTheCheck(store: Store, id: Id, cutoff: int)
    ensures IsStranded(store, id, cutoff) ==> IsCandidate(store, id, cutoff)
    ensures IsCandidate(store, id, cutoff) && !IsStranded(store, id, cutoff)
        ==> store.events[id].work.CompensateWork?
            && store.operations[store.events[id].operation].state.Compensated?
  {
    if id in store.events {
      LatestIffNothingNewer(store.events, id);
    }
  }

  // ---------------------------------------------------------------- the limited listing

  /** ORDER BY published_at, event_id */
  predicate Before(events: map<Id, Event>, a: Id, b: Id)
    requires a in events && events[a].publishedAt.Some?
    requires b in events && events[b].publishedAt.Some?
  {
    || events[a].publishedAt.value < events[b].publishedAt.value
    || (events[a].publishedAt.value == events[b].publishedAt.value && a < b)
  }

  function Candidates(store: Store, cutoff: int): set<Id> {
    set id | id in store.events && IsCandidate(store, id, cutoff)
  }

  /** ids is the result of the query: the first candidates in order, at most limit of them. */
  ghost predicate IsListing(store: Store, cutoff: int, limit: nat, ids: seq<Id>) {
    && |ids| <= limit
    && (forall k :: 0 <= k < |ids| ==> IsCandidate(store, ids[k], cutoff))
    && (forall j, k :: 0 <= j < k < |ids| ==> Before(store.events, ids[j], ids[k]))
    && (forall id :: IsCandidate(store, id, cutoff) && id !in ids ==>
          && |ids| == limit
          && forall k :: 0 <= k < |ids| ==> Before(store.events, ids[k], id))
  }

  lemma {:induction false} EarliestExists(store: Store, cutoff: int, some: set<Id>) returns (first: Id)
    requires some != {} && some <= Candidates(store, cutoff)
    ensures first in some && forall id :: id in some && id != first ==> Before(store.events, first, id)
    decreases some
  {
    var some0 :| some0 in some;
    first := some0;
    if some != {some0} {
      var rest := EarliestExists(store, cutoff, some - {some0});
      assert rest in Candidates(store, cutoff) && some0 in Candidates(store, cutoff);
      first := if Before(store.events, rest, some0) then rest else some0;
      forall id | id in some && id != first ensures Before(store.events, first, id) {
        assert id in Candidates(store, cutoff);
        assert id == some0 || id == rest || Before(store.events, rest, id);
      }
    }
  }

  /** list_stranded_candidate_ids */
  method ListStrandedCandidateIds(store: Store, cutoff: int, limit: nat) returns (ids: seq<Id>)
    ensures IsListing(store, cutoff, limit, ids)
  {
    ids := [];
    var rest := Candidates(store, cutoff);
    while rest != {} && |ids| < limit
      invariant rest <= Candidates(store, cutoff) && |ids| <= limit
      invariant forall k :: 0 <= k < |ids| ==> IsCandidate(store, ids[k], cutoff) && ids[k] !in rest
      invariant forall id :: id in Candidates(store, cutoff) ==> id in rest || id in ids
      invariant forall j, k :: 0 <= j < k < |ids| ==> Before(store.events, ids[j], ids[k])
      invariant forall k, id :: 0 <= k < |ids| && id in rest ==> Before(store.events, ids[k], id)
      decreases |rest|
    {
      ghost var earliest := EarliestExists(store, cutoff, rest);
      var first :| first in rest && forall id :: id in rest && id != first ==> Before(store.events, first, id);
      rest := rest - {first};
      ids := ids + [first];
    }
  }

  function Members(ids: seq<Id>): set<Id> {
    set id | id in ids
  }

  lemma {:induction false} DistinctMembers(events: map<Id, Event>, ids: seq<Id>)
    requires forall k :: 0 <= k < |ids| ==> ids[k] in events && events[ids[k]].publishedAt.Some?
    requires forall j, k :: 0 <= j < k < |ids| ==> Before(events, ids[j], ids[k])
    ensures |Members(ids)| == |ids|
  {
    if |ids| == 0 {
      assert Members(ids) == {};
    } else {
      var front := ids[..|ids| - 1];
      DistinctMembers(events, front);
      var last := ids[|ids| - 1];
      assert ids == front + [last];
      assert Members(ids) == Members(front) + {last};
      forall k | 0 <= k < |front| ensures front[k] != last {
        assert Before(events, ids[k], ids[|ids| - 1]);
      }
      assert last !in Members(front);
    }
  }

  function Preceding(store: Store, cutoff: int, id: Id): set<Id>
    requires IsCandidate(store, id, cutoff)
  {
    set other | other in Candidates(store, cutoff) && Before(store.events, other, id)
  }

  lemma SubsetSize(a: set<Id>, b: set<Id>)
    requires a <= b
    ensures |a| <= |b|
  {
    if a != {} {
      var x :| x in a;
      SubsetSize(a - {x}, b - {x});
    }
  }

  /** A candidate is listed exactly when fewer than limit candidates precede it. */
  lemma ListedIff(store: Store, cutoff: int, limit: nat, ids: seq<Id>, id: Id)
    requires IsListing(store, cutoff, limit, ids) && IsCandidate(store, id, cutoff)
    ensures id in ids <==> |Preceding(store, cutoff, id)| < limit
  {
    var listed := Members(ids);
    DistinctMembers(store.events, ids);
    if id in ids {
      forall other | other in Preceding(store, cutoff, id) ensures other in listed - {id} {
      }
      SubsetSize(Preceding(store, cutoff, id), listed - {id});
      assert |listed - {id}| == |listed| - 1;
    } else {
      forall other | other in listed ensures other in Preceding(store, cutoff, id) {
        var k :| 0 <= k < |ids| && ids[k] == other;
        assert Before(store.events, ids[k], id);
      }
      SubsetSize(listed, Preceding(store, cutoff, id));
    }
  }

  // ---------------------------------------------------------------- starvation

  /** A finished compensation whose announcement is still the latest row of its operation: the
      query admits it and the check refuses it. */
  ghost predicate Blocks(store: Store, id: Id, cutoff: int) {
    && id in store.events
    && store.events[id].operation in store.operations
    && store.operations[store.events[id].operation].state.Compensated?
    && store.events[id].work.CompensateWork?
    && IsLatest(store.events, id)
    && store.events[id].publishedAt.Some? && store.events[id].publishedAt.value <= cutoff
  }

  lemma BlockerIsCandidate(store: Store, id: Id, cutoff: int)
    requires Blocks(store, id, cutoff)
    ensures IsCandidate(store, id, cutoff) && !IsStranded(store, id, cutoff)
  {
    LatestIffNothingNewer(store.events, id);
  }

  lemma StepKeepsBlocker(settings: Settings, w: World, r: nat, step: Step, t: World, id: Id, cutoff: int)
    requires Inv(settings, w) && Takes(settings, w, r, step, t) && Blocks(w.store, id, cutoff)
    ensures Blocks(t.store, id, cutoff) && t.store.events[id] == w.store.events[id]
  {
    OutboxStepKeeps(settings, w, r, step, t);
    var operation := w.store.events[id].operation;
    assert t.store.operations[operation] == w.store.operations[operation];
    forall other | other in t.store.events && other != id && t.store.events[other].operation == operation
      ensures Newer(t.store.events, id, other)
    {
      assert other in w.store.events;
      assert Newer(w.store.events, id, other);
    }
  }

  lemma RunStepKeepsBlocker(settings: Settings, run: seq<World>, i: nat, id: Id, cutoff: int)
    requires IsRun(settings, run) && i + 1 < |run| && Blocks(run[i].store, id, cutoff)
    ensures Blocks(run[i + 1].store, id, cutoff) && run[i + 1].store.events[id] == run[i].store.events[id]
  {
    OutboxInvariantHolds(settings, run, i);
    var r, step := StepOf(settings, run, i);
    StepKeepsBlocker(settings, run[i], r, step, run[i + 1], id, cutoff);
  }

  lemma {:induction false} BlockersStay(settings: Settings, run: seq<World>, i: nat, j: nat, id: Id, cutoff: int)
    requires IsRun(settings, run) && i <= j < |run| && Blocks(run[i].store, id, cutoff)
    ensures Blocks(run[j].store, id, cutoff) && run[j].store.events[id] == run[i].store.events[id]
  {
    if i < j {
      BlockersStay(settings, run, i, j - 1, id, cutoff);
      RunStepKeepsBlocker(settings, run, j - 1, id, cutoff);
    }
  }

  /** Starvation: once limit finished compensations were published before a stranded event, no
      later query ever lists that event, so nothing republishes or escalates it. */
  lemma FinishedCompensationsStarve(
    settings: Settings, run: seq<World>, i: nat, j: nat, blockers: set<Id>, event: Id,
    cutoff: int, later: int, limit: nat, ids: seq<Id>)
    requires IsRun(settings, run) && i <= j < |run| && cutoff <= later
    requires event in run[i].store.events && run[i].store.events[event].publishedAt.Some?
    requires forall id :: id in blockers ==>
               Blocks(run[i].store, id, cutoff) && Before(run[i].store.events, id, event)
    requires |blockers| >= limit
    requires IsListing(run[j].store, later, limit, ids)
    ensures event !in ids
  {
    NoEventIsLost(settings, run, i, j);
    if event in ids {
      forall id | id in blockers ensures id in Preceding(run[j].store, later, event) {
        BlockersStay(settings, run, i, j, id, cutoff);
        assert Blocks(run[j].store, id, later);
        BlockerIsCandidate(run[j].store, id, later);
      }
      SubsetSize(blockers, Preceding(run[j].store, later, event));
      ListedIff(run[j].store, later, limit, ids, event);
    }
  }
}
