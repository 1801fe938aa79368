/** messaging/relay.py as it runs, beside any number of other relays and lifecycle commits.
    The ghost field `run` records every step taken. */
module OutboxRelays {
  import opened Lifecycle
  import opened Outbox
  import opened OutboxTheorems
  import opened StrandedWork

  datatype PublishOutcome = Published(event: Id) | NothingPending | Raised(claimed: Option<Id>)

  /** How a publication goes: it is acknowledged, its acknowledgement is lost, or it is refused. */
  datatype Publication = Acknowledged | Lost | NotAccepted

  /** What becomes of one candidate; the last two raise and end the pass. */
  datatype Recovery = Republished | Escalated | LeftAlone | ReplayExists | StorageFailed

  predicate IsPending(w: World, id: Id) {
    id in w.store.events && w.store.events[id].publishedAt.None?
  }

  /** What list_pending_for_claim may return: SKIP LOCKED passes over rows of other relays. */
  predicate Claimable(w: World, id: Id) {
    IsPending(w, id) && LockedByNobody(w, id)
  }

  lemma {:induction false} OldestExists(w: World, some: set<Id>) returns (oldest: Id)
    requires some != {} && some <= w.store.events.Keys
    ensures oldest in some
    ensures forall id :: id in some && id != oldest ==> Newer(w.store.events, id, oldest)
    decreases some
  {
    var first :| first in some;
    oldest := first;
    if some != {first} {
      var rest := OldestExists(w, some - {first});
      oldest := if Newer(w.store.events, first, rest) then rest else first;
      forall id | id in some && id != oldest ensures Newer(w.store.events, id, oldest) {
        assert id == first || id == rest || Newer(w.store.events, id, rest);
      }
    }
  }

  ghost predicate OthersMoved(relay: nat, before: World, after: World) {
    RelayOf(after, relay) == RelayOf(before, relay) && WorldGrows(before, after) && before.clock <= after.clock
  }

  lemma OneStepOfAnother(settings: Settings, w: World, q: nat, step: Step, t: World, relay: nat)
    requires Inv(settings, w) && Takes(settings, w, q, step, t) && q != relay
    ensures OthersMoved(relay, w, t)
  {
    OutboxStepKeeps(settings, w, q, step, t);
  }

  lemma OthersMovedTransitively(relay: nat, a: World, b: World, c: World)
    requires OthersMoved(relay, a, b) && OthersMoved(relay, b, c)
    ensures OthersMoved(relay, a, c)
  {
    WorldGrowsTransitively(a, b, c);
  }

  class OutboxRelay {
    const settings: Settings
    const me: nat
    var world: World
    ghost var run: seq<World>

    ghost predicate Valid()
      reads this
    {
      IsRun(settings, run) && run[|run| - 1] == world
    }

    constructor (settings: Settings, me: nat, clock: int)
      ensures Valid() && this.settings == settings && this.me == me
      ensures world == World(Store(map[], map[], [], []), map[], [], clock)
    {
      var initial := World(Store(map[], map[], [], []), map[], [], clock);
      this.settings := settings;
      this.me := me;
      this.world := initial;
      this.run := [initial];
    }

    ghost method Extend(q: nat, step: Step)
      requires IsRun(settings, run) && Takes(settings, run[|run| - 1], q, step, world)
      modifies this`run
      ensures Valid() && run == old(run) + [world]
    {
      ghost var before := run;
      run := run + [world];
      forall i | 0 <= i < |run| - 1 ensures StepAt(settings, run, i) {
        if i < |before| - 1 {
          assert StepAt(settings, before, i);
        } else {
          assert Takes(settings, run[i], q, step, run[i + 1]);
        }
      }
    }

    lemma Sound()
      requires Valid()
      ensures Inv(settings, world)
    {
      OutboxInvariantHolds(settings, run, |run| - 1);
    }

    /** One step of this relay. */
    method Do(step: Step, next: World)
      requires Valid() && Takes(settings, world, me, step, next)
      modifies this
      ensures Valid() && world == next && run == old(run) + [next]
      ensures WorldGrows(old(world), world) && old(world.clock) <= world.clock
    {
      Sound();
      OutboxStepKeeps(settings, world, me, step, next);
      world := next;
      Extend(me, step);
    }

    /** Any number of steps of other relays, of the lifecycle and of the clock. */
    method Interfere()
      requires Valid()
      modifies this
      ensures Valid() && old(run) <= run
      ensures OthersMoved(me, old(world), world)
    {
      var count: nat := *;
      WorldGrowsReflexively(world);
      while count > 0
        invariant Valid() && old(run) <= run
        invariant OthersMoved(me, old(world), world)
      {
        var q: nat, step: Step, next: World := *, *, *;
        if q != me && Takes(settings, world, q, step, next) {
          Sound();
          OneStepOfAnother(settings, world, q, step, next, me);
          OthersMovedTransitively(me, old(world), world, next);
          world := next;
          Extend(q, step);
        }
        count := count - 1;
      }
    }

    /** list_pending_for_claim(1): locks the oldest pending row that nobody holds. */
    method ClaimOldest() returns (claimed: Option<Id>)
      requires Valid() && RelayOf(world, me).Free?
      modifies this
      ensures Valid() && old(run) <= run && WorldGrows(old(world), world)
      ensures claimed.Some? ==>
                && RelayOf(world, me) == Locked(claimed.value)
                && world.store == old(world.store) && Claimable(old(world), claimed.value)
                && forall id :: Claimable(old(world), id) && id != claimed.value
                     ==> Newer(world.store.events, id, claimed.value)
      ensures claimed.None? ==> world == old(world) && forall id :: !Claimable(world, id)
    {
      var pending := set id | id in world.store.events && Claimable(world, id);
      if pending == {} {
        WorldGrowsReflexively(world);
        forall id ensures !Claimable(world, id) {
          assert id !in pending;
        }
        return None;
      }
      ghost var witnessed := OldestExists(world, pending);
      var oldest :| oldest in pending
        && forall id :: id in pending && id != oldest ==> Newer(world.store.events, id, oldest);
      Do(Step.Lock(oldest), world.(relays := world.relays[me := Locked(oldest)]));
      return Some(oldest);
    }

    /** Gives the lock back: the row stays as it is. */
    method Release()
      requires Valid()
      modifies this
      ensures Valid() && old(run) <= run && RelayOf(world, me).Free?
      ensures world.store == old(world.store) && world.sent == old(world.sent)
    {
      Do(Fail, world.(relays := world.relays[me := Free]));
    }

    /** Publishes the locked row and waits for the acknowledgement. */
    method Send(event: Id, publication: Publication)
      requires Valid() && RelayOf(world, me) == Locked(event)
      modifies this
      ensures Valid() && old(run) <= run && WorldGrows(old(world), world) && IsPending(world, event)
      ensures publication.Acknowledged? ==> RelayOf(world, me) == Sent(event) && |world.sent| > |old(world.sent)|
      ensures !publication.Acknowledged? ==> RelayOf(world, me).Free?
    {
      Sound();
      label Held:
      WorldGrowsReflexively(world);
      if !publication.NotAccepted? {
        Do(Publish, world.(relays := world.relays[me := Sent(event)],
                           sent := world.sent + [MessageFor(settings.naming, event, world.store.events[event])]));
      }
      label Tried:
      Interfere();
      WorldGrowsTransitively(old(world), old@Tried(world), world);
      Sound();
      if !publication.Acknowledged? {
        Release();
      }
    }

    /** _publish_one: the row is marked only after the publication succeeded, and the lock is
        held in between; when the publication raises, the row is still pending. */
    method PublishOne(publication: Publication) returns (outcome: PublishOutcome)
      requires Valid() && RelayOf(world, me).Free?
      modifies this
      ensures Valid() && old(run) <= run && RelayOf(world, me).Free? && WorldGrows(old(world), world)
      ensures outcome.Published? ==>
                && outcome.event in world.store.events
                && world.store.events[outcome.event].publishedAt.Some?
                && (outcome.event in old(world.store.events) ==> IsPending(old(world), outcome.event))
                && |world.sent| > |old(world.sent)|
      ensures outcome.NothingPending? ==> forall id :: !Claimable(world, id)
      ensures outcome.Raised? ==>
                && !publication.Acknowledged?
                && outcome.claimed.Some? && IsPending(world, outcome.claimed.value)
      ensures outcome.Published? ==> publication.Acknowledged?
    {
      Interfere();
      var claimed := ClaimOldest();
      if claimed.None? {
        return NothingPending;
      }
      label Claimed:
      var event := claimed.value;
      Send(event, publication);
      WorldGrowsTransitively(old(world), old@Claimed(world), world);
      if !publication.Acknowledged? {
        return Raised(claimed);
      }
      label Acknowledged:
      var marked := world.store.events[event].(publishedAt := Some(world.clock));
      Do(Mark, world.(relays := world.relays[me := Free],
                      store := world.store.(events := world.store.events[event := marked])));
      WorldGrowsTransitively(old(world), old@Acknowledged(world), world);
      return Published(event);
    }

    /** publish_pending: stops when nothing is claimable, or when a publication raises; only then
        does it publish fewer than the limit. */
    method PublishPending(limit: nat, publications: nat -> Publication) returns (published: nat, raised: bool)
      requires Valid() && RelayOf(world, me).Free? && limit >= 1
      modifies this
      ensures Valid() && old(run) <= run && RelayOf(world, me).Free? && WorldGrows(old(world), world)
      ensures published <= limit
      ensures |world.sent| >= |old(world.sent)| + published
      ensures raised ==> published < limit && !publications(published).Acknowledged?
      ensures published < limit && !raised ==> forall id :: !Claimable(world, id)
    {
      published, raised := 0, false;
      WorldGrowsReflexively(world);
      while published < limit
        invariant Valid() && old(run) <= run && RelayOf(world, me).Free? && WorldGrows(old(world), world)
        invariant published <= limit && |world.sent| >= |old(world.sent)| + published
        invariant !raised
        decreases limit - published
      {
        label Before:
        var outcome := PublishOne(publications(published));
        WorldGrowsTransitively(old(world), old@Before(world), world);
        if outcome.Raised? {
          return published, true;
        }
        if outcome.NothingPending? {
          return;
        }
        published := published + 1;
      }
    }

    /** The last commit of the run is this step of this relay. */
    ghost predicate JustTook(step: Step)
      reads this
    {
      |run| >= 2 && Takes(settings, run[|run| - 2], me, step, run[|run| - 1])
    }

    /** One candidate of recover_stranded, in its own unit of work. On the rows under the lock, a
        candidate that is stranded is escalated if its budget is used up and republished if it is
        not; one that is left alone is not stranded. */
    method RecoverOne(source: Id, cutoff: int, now: int, storageFails: bool) returns (recovery: Recovery)
      requires Valid() && RelayOf(world, me).Free? && cutoff < now <= world.clock
      modifies this
      ensures Valid() && old(run) <= run && RelayOf(world, me).Free?
      ensures WorldGrows(old(world), world) && now <= world.clock
      ensures recovery.StorageFailed? <==> storageFails
      ensures recovery.Republished? ==>
                && JustTook(Republish(source, cutoff, now)) && |old(run)| < |run|
                && settings.naming.replayOf(source) in world.store.events
                && |world.store.republications| > |old(world.store.republications)|
      ensures recovery.Escalated? ==>
                && JustTook(Escalate(source, cutoff)) && |old(run)| < |run|
                && CountFor(run[|run| - 2].store, source) >= settings.maxRecoveries
      ensures !recovery.Republished? && !recovery.Escalated? ==> OthersMoved(me, old(world), world)
      ensures recovery.LeftAlone? ==> !IsStranded(world.store, source, cutoff)
      ensures recovery.ReplayExists? ==>
                && IsStranded(world.store, source, cutoff)
                && CountFor(world.store, source) < settings.maxRecoveries
                && settings.naming.replayOf(source) in world.store.events
    {
      Interfere();
      Sound();
      if storageFails {
        return StorageFailed;
      }
      if !IsStranded(world.store, source, cutoff) {
        return LeftAlone;
      }
      var operation, work := world.store.events[source].operation, world.store.events[source].work;
      label Checked:
      if CountFor(world.store, source) >= settings.maxRecoveries {
        ExhaustionEscalates(settings, run, |run| - 1, source, cutoff);
        Do(Escalate(source, cutoff), world.(store := Outbox.Escalated(world.store, operation, work).value));
        WorldGrowsTransitively(old(world), old@Checked(world), world);
        return Recovery.Escalated;
      }
      if settings.naming.replayOf(source) in world.store.events {
        return ReplayExists;
      }
      Do(Republish(source, cutoff, now),
         world.(store := Outbox.Republished(settings.naming, world.store, source, now)));
      WorldGrowsTransitively(old(world), old@Checked(world), world);
      return Recovery.Republished;
    }

    /** At some moment since, this candidate was not stranded, or this relay republished or
        escalated it. */
    ghost predicate HandledIn(run: seq<World>, from: nat, source: Id, cutoff: int, now: int) {
      exists i :: from <= i < |run| && HandledAt(run, i, source, cutoff, now)
    }

    ghost predicate HandledAt(run: seq<World>, i: nat, source: Id, cutoff: int, now: int)
      requires i < |run|
    {
      || !IsStranded(run[i].store, source, cutoff)
      || (i + 1 < |run|
          && (|| Takes(settings, run[i], me, Republish(source, cutoff, now), run[i + 1])
              || Takes(settings, run[i], me, Escalate(source, cutoff), run[i + 1])))
    }

    ghost predicate AllHandled(run: seq<World>, from: nat, ids: seq<Id>, cutoff: int, now: int) {
      forall k :: 0 <= k < |ids| ==> HandledIn(run, from, ids[k], cutoff, now)
    }

    lemma OneMoreHandled(
      before: seq<World>, after: seq<World>, from: nat, ids: seq<Id>, i: nat, cutoff: int, now: int)
      requires before <= after && from < |before| && i < |ids|
      requires AllHandled(before, from, ids[..i], cutoff, now)
      requires HandledIn(after, |before| - 1, ids[i], cutoff, now)
      ensures AllHandled(after, from, ids[..i + 1], cutoff, now)
    {
      var fewer, more := ids[..i], ids[..i + 1];
      forall k | 0 <= k < |more| ensures HandledIn(after, from, more[k], cutoff, now) {
        if k < i {
          assert HandledIn(before, from, fewer[k], cutoff, now);
          var j :| from <= j < |before| && HandledAt(before, j, ids[k], cutoff, now);
          assert HandledAt(after, j, ids[k], cutoff, now);
        }
      }
    }

    /** One candidate of the pass, and what its outcome says of it. */
    method RecoverListed(source: Id, cutoff: int, now: int, storageFails: bool) returns (recovery: Recovery)
      requires Valid() && RelayOf(world, me).Free? && cutoff < now <= world.clock
      modifies this
      ensures Valid() && old(run) <= run && RelayOf(world, me).Free?
      ensures WorldGrows(old(world), world) && now <= world.clock
      ensures recovery.Republished? ==> |world.store.republications| > |old(world.store.republications)|
      ensures if recovery.StorageFailed? then storageFails
              else if recovery.ReplayExists? then settings.naming.replayOf(source) in world.store.events
              else HandledIn(run, |old(run)| - 1, source, cutoff, now)
    {
      recovery := RecoverOne(source, cutoff, now, storageFails);
      ghost var at := if recovery.LeftAlone? then |run| - 1 else |run| - 2;
      if !recovery.StorageFailed? && !recovery.ReplayExists? {
        assert HandledAt(run, at, source, cutoff, now);
      }
    }

    /** The loop of recover_stranded over the candidates that were listed. */
    method RecoverAll(candidates: seq<Id>, cutoff: int, now: int, storage: nat -> bool)
      returns (recovered: nat, raised: bool)
      requires Valid() && RelayOf(world, me).Free? && cutoff < now <= world.clock
      modifies this
      ensures Valid() && old(run) <= run && RelayOf(world, me).Free? && WorldGrows(old(world), world)
      ensures recovered <= |candidates|
      ensures |world.store.republications| >= |old(world.store.republications)| + recovered
      ensures if raised then Obstructed(candidates, storage)
              else AllHandled(run, |old(run)| - 1, candidates, cutoff, now)
    {
      ghost var from := |run| - 1;
      recovered, raised := 0, false;
      WorldGrowsReflexively(world);
      for i := 0 to |candidates|
        invariant Valid() && old(run) <= run && RelayOf(world, me).Free? && WorldGrows(old(world), world)
        invariant now <= world.clock && recovered <= i && !raised
        invariant |world.store.republications| >= |old(world.store.republications)| + recovered
        invariant AllHandled(run, from, candidates[..i], cutoff, now)
      {
        label Before:
        ghost var before := run;
        var recovery := RecoverListed(candidates[i], cutoff, now, storage(i));
        WorldGrowsTransitively(old(world), old@Before(world), world);
        if recovery.StorageFailed? || recovery.ReplayExists? {
          return recovered, true;
        }
        OneMoreHandled(before, run, from, candidates, i, cutoff, now);
        if recovery.Republished? {
          recovered := recovered + 1;
        }
      }
      assert candidates[..|candidates|] == candidates;
    }

    /** The storage fails for a listed candidate, or the identifier of its replay is taken. */
    ghost predicate Obstructed(listed: seq<Id>, storage: nat -> bool)
      reads this
    {
      exists k: nat :: k < |listed| && (storage(k) || settings.naming.replayOf(listed[k]) in world.store.events)
    }

    /** recover_stranded: the clock is read once, the candidates are listed once, and each is
        checked again under its operation's lock. Every listed candidate is handled, unless the
        storage failed or a replay's identifier was taken, which ends the pass. */
    method RecoverStranded(limit: nat, afterSeconds: nat, storage: nat -> bool)
      returns (recovered: nat, raised: bool, ghost listed: seq<Id>)
      requires Valid() && RelayOf(world, me).Free? && limit >= 1 && afterSeconds >= 1
      modifies this
      ensures Valid() && old(run) <= run && RelayOf(world, me).Free? && WorldGrows(old(world), world)
      ensures recovered <= limit
      ensures |world.store.republications| >= |old(world.store.republications)| + recovered
      ensures var now, cutoff := old(world.clock), old(world.clock) - afterSeconds;
        && IsListing(old(world.store), cutoff, limit, listed)
        && (!raised ==> AllHandled(run, |old(run)| - 1, listed, cutoff, now))
      ensures raised ==> Obstructed(listed, storage)
    {
      var now := world.clock;
      var cutoff := now - afterSeconds;
      var candidates := ListStrandedCandidateIds(world.store, cutoff, limit);
      listed := candidates;
      recovered, raised := RecoverAll(candidates, cutoff, now, storage);
    }
  }
}
