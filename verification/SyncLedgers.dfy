/** The sync ledger as the object the source has: a list of events, an ID index and a
    structural version, updated in place. Each method is proved to move the ledger exactly
    along the relation `LedgerSpec` gives for it, and to keep `Sound`. */
module SyncLedgers {
  import opened Events
  import opened Sorting
  import opened LedgerSpec
  import opened LedgerInvariants

  function InvolvedIds(s: seq<SyncEvent>, name: NaraName): set<string> {
    set x | x in s && Involves(x, name) :: x.id
  }

  lemma KeepOrDrop(s: seq<SyncEvent>, i: nat, name: NaraName, ids: set<string>)
    requires i < |s|
    ensures if Involves(s[i], name)
            then && Matching(s[..i + 1], NotInvolving(name)) == Matching(s[..i], NotInvolving(name))
                 && ids - InvolvedIds(s[..i + 1], name) == ids - InvolvedIds(s[..i], name) - {s[i].id}
            else && Matching(s[..i + 1], NotInvolving(name)) == Matching(s[..i], NotInvolving(name)) + [s[i]]
                 && InvolvedIds(s[..i + 1], name) == InvolvedIds(s[..i], name)
  {
    assert s[..i + 1] == s[..i] + [s[i]];
    MatchingSnoc(s[..i], s[i], NotInvolving(name));
    assert InvolvedIds(s[..i + 1], name) == InvolvedIds(s[..i], name) + if Involves(s[i], name) then {s[i].id} else {};
  }

  lemma RemainingIds(s: seq<SyncEvent>, name: NaraName)
    requires DistinctIds(s)
    ensures IdsOf(Matching(s, NotInvolving(name))) == IdsOf(s) - InvolvedIds(s, name)
  {
    MatchingMembers(s, NotInvolving(name));
  }

  class SyncLedger {
    var events: seq<SyncEvent>
    var eventIDs: set<string>
    var version: int
    var unknownNara: KeyRing
    const maxEvents: int

    ghost function View(): Ledger
      reads this
    {
      Ledger(events, eventIDs, version)
    }

    ghost predicate Valid()
      reads this
    {
      Sound(View())
    }

    constructor (maxEvents: int)
      ensures Valid() && View() == EmptyLedger
      ensures this.maxEvents == maxEvents && unknownNara == NoChecker
    {
      events, eventIDs, version := [], {}, 0;
      unknownNara := NoChecker;
      this.maxEvents := maxEvents;
      new;
      SmallIsSound();
    }

    lemma SmallIsSound()
      ensures Sound(EmptyLedger)
    {
    }

    method SetUnknownNaraChecker(keys: KeyRing)
      modifies this`unknownNara
      ensures unknownNara == keys
    {
      unknownNara := keys;
    }

    /** Scan for the selected events: how many there are and where the oldest stands. */
    method FindOldest(q: Query) returns (count: nat, oldest: int)
      ensures count == Count(events, q)
      ensures count == 0 ==> oldest == -1
      ensures count > 0 ==> Oldest(events, q, oldest)
    {
      count, oldest := 0, -1;
      for i := 0 to |events|
        invariant count == Count(events[..i], q)
        invariant count == 0 ==> oldest == -1
        invariant count == 0 ==> forall j :: 0 <= j < i ==> !Matches(q, events[j])
        invariant count > 0 ==> oldest < i && Oldest(events[..i], q, oldest)
      {
        assert events[..i + 1] == events[..i] + [events[i]];
        CountAppend(events[..i], events[i], q);
        if Matches(q, events[i]) {
          count := count + 1;
          if oldest == -1 || events[i].timestamp < events[oldest].timestamp {
            oldest := i;
          }
        }
      }
      assert events[..|events|] == events;
    }

    method RemoveIndex(i: nat)
      requires i < |events|
      modifies this`events, this`eventIDs, this`version
      ensures View() == RemoveAt(old(View()), i)
    {
      var id := events[i].id;
      events := events[..i] + events[i + 1..];
      eventIDs := eventIDs - {id};
      version := version + 1;
    }

    method AddEvent(e: SyncEvent) returns (ok: bool)
      requires Valid()
      modifies this`events, this`eventIDs, this`version
      ensures Valid()
      ensures Add(old(View()), maxEvents, unknownNara, WithID(e), View(), ok)
    {
      if e.payload.Observation? {
        ok := AddObservationWithCompaction(e, false);
      } else {
        ok := AddPlainEvent(WithID(e));
        PlainAddStaysSound(old(View()), maxEvents, unknownNara, WithID(e), View(), ok);
      }
    }

    /** Keeps the newest pings to a target: a full target gives up its oldest ping, unless the
        newcomer is no newer. */
    method MakeRoomForPing(target: NaraName, timestamp: int) returns (refused: bool)
      requires Valid()
      modifies this`events, this`eventIDs, this`version
      ensures RoomForPing(old(View()), target, timestamp, View(), refused)
    {
      refused := false;
      var count, oldest := FindOldest(PingsTo(target));
      if count >= MAX_PINGS_PER_TARGET {
        if timestamp <= events[oldest].timestamp {
          refused := true;
        } else {
          RemoveIndex(oldest);
        }
        assert RoomByEvicting(old(View()), target, timestamp, oldest, View(), refused);
      }
    }

    method AddPlainEvent(e: SyncEvent) returns (ok: bool)
      requires Valid() && e.id != "" && !e.payload.Observation?
      modifies this`events, this`eventIDs, this`version
      ensures PlainAdd(old(View()), maxEvents, unknownNara, e, View(), ok)
    {
      if !IsValid(e) || FilteredCheckpoint(e) || e.id in eventIDs {
        return false;
      }
      if e.payload.Ping? {
        var refused := MakeRoomForPing(e.payload.target, e.timestamp);
        if refused {
          assert PlainAddVia(old(View()), maxEvents, unknownNara, e, View(), true, View(), false);
          return false;
        }
      }
      ghost var room := View();
      assert Room(old(View()), e, room, false);
      events := events + [e];
      eventIDs := eventIDs + {e.id};
      assert View() == Appended(room, e);
      if maxEvents > 0 && |events| > maxEvents {
        PruneUnlocked();
      }
      assert PlainAddVia(old(View()), maxEvents, unknownNara, e, room, false, View(), true);
      ok := true;
    }

    method AddEventWithDedup(e: SyncEvent) returns (ok: bool)
      requires Valid() && e.payload.Observation?
      modifies this`events, this`eventIDs, this`version
      ensures Valid()
      ensures AddWithDedup(old(View()), WithID(e), View(), ok)
    {
      ok := AddObservationWithCompaction(e, true);
    }

    method FindReport(o: ObservationPayload) returns (found: bool)
      ensures found <==> AlreadyReported(events, o)
    {
      found := false;
      for i := 0 to |events|
        invariant !found
        invariant forall j :: 0 <= j < i ==> !(events[j].payload.Observation? && SameReport(o, events[j].payload.obs))
      {
        if events[i].payload.Observation? && SameReport(o, events[i].payload.obs) {
          return true;
        }
      }
    }

    method HasCheckpoint(subject: NaraName) returns (found: bool)
      ensures found <==> CheckpointHeld(events, subject)
    {
      found := false;
      for i := 0 to |events|
        invariant !found
        invariant forall j :: 0 <= j < i ==> !IsCheckpointOf(events[j], subject)
      {
        if IsCheckpointOf(events[i], subject) {
          return true;
        }
      }
    }

    /** Make room in a full pair: evict its oldest non-restart, else, once the subject is
        checkpointed, its oldest restart. */
    method Compact(o: ObservationPayload)
      requires Valid()
      modifies this`events, this`eventIDs, this`version
      ensures Compacted(old(View()), o, View())
    {
      var pairCount, oldestAny := FindOldest(ObservationsOf(o.observer, o.subject));
      if pairCount >= MAX_OBSERVATIONS_PER_PAIR {
        var hasCheckpoint := HasCheckpoint(o.subject);
        var nonRestarts, oldestNonRestart := FindOldest(NonRestartsOf(o.observer, o.subject));
        var victim := -1;
        if oldestNonRestart != -1 {
          victim := oldestNonRestart;
        } else if hasCheckpoint {
          victim := oldestAny;
        }
        if victim >= 0 {
          assert IsVictim(events, o, victim);
          RemoveIndex(victim);
        }
      }
    }

    /** Note the order: a full pair gives up an event before the newcomer is checked, so a
        refused observation can still evict one. */
    method AddObservationWithCompaction(e: SyncEvent, withDedup: bool) returns (ok: bool)
      requires Valid() && e.payload.Observation?
      modifies this`events, this`eventIDs, this`version
      ensures Valid()
      ensures ObservationAdd(old(View()), WithID(e), withDedup, View(), ok)
    {
      var ev, o := WithID(e), e.payload.obs;
      ok := false;
      var duplicate := false;
      if withDedup {
        duplicate := FindReport(o);
      }
      if !duplicate {
        Compact(o);
        ghost var room := View();
        if IsValid(ev) && ev.id !in eventIDs {
          events := events + [ev];
          eventIDs := eventIDs + {ev.id};
          ok := true;
        }
        assert ObservationAddVia(old(View()), ev, room, View(), ok);
      }
      ObservationAddStaysSound(old(View()), ev, withDedup, View(), ok);
    }

    method RemoveEventsFor(name: NaraName) returns (removed: nat)
      requires Valid()
      modifies this`events, this`eventIDs, this`version
      ensures Valid()
      ensures RemovedFor(old(View()), name, View())
      ensures removed == |old(events)| - |events|
    {
      var kept;
      kept, eventIDs, removed := KeepOthers(events, eventIDs, name);
      RemainingIds(events, name);
      if removed > 0 {
        events := kept;
        version := version + 1;
      }
      RemovedForStaysSound(old(View()), name, View());
    }

    static method KeepOthers(events: seq<SyncEvent>, eventIDs: set<string>, name: NaraName)
      returns (kept: seq<SyncEvent>, ids: set<string>, removed: nat)
      ensures kept == Matching(events, NotInvolving(name))
      ensures ids == eventIDs - InvolvedIds(events, name)
      ensures removed == |events| - |kept| && (removed == 0 ==> kept == events)
    {
      kept, ids, removed := [], eventIDs, 0;
      for i := 0 to |events|
        invariant kept == Matching(events[..i], NotInvolving(name)) && removed == i - |kept|
        invariant ids == eventIDs - InvolvedIds(events[..i], name)
        invariant removed == 0 ==> kept == events[..i]
      {
        KeepOrDrop(events, i, name, eventIDs);
        if Involves(events[i], name) {
          ids := ids - {events[i].id};
          removed := removed + 1;
        } else {
          kept := kept + [events[i]];
        }
      }
      assert events[..|events|] == events;
    }

    /** The events from `position` on, with the current count and version. */
    method GetEventsSince(position: nat) returns (since: seq<SyncEvent>, total: nat, currentVersion: int)
      ensures since == if position >= |events| then [] else events[position..]
      ensures total == |events| && currentVersion == version
    {
      total, currentVersion := |events|, version;
      since := if position >= total then [] else events[position..];
    }

    method Prune()
      requires Valid()
      modifies this`events, this`eventIDs, this`version
      ensures Valid()
      ensures Pruned(old(View()), maxEvents, unknownNara, View())
    {
      PruneUnlocked();
      PrunedShrinks(old(View()), maxEvents, unknownNara, View());
      ShrunkStaysSound(old(View()), View());
    }

    method PruneUnlocked()
      modifies this`events, this`eventIDs, this`version
      ensures Pruned(old(View()), maxEvents, unknownNara, View())
    {
      if |events| <= maxEvents {
        return;
      }
      events := SortSlice(events, PruneOrder(unknownNara));
      ghost var order := events;
      SameElements(old(events), events);
      var toRemove := |events| - maxEvents;
      var actualRemoved := 0;
      while actualRemoved < toRemove && actualRemoved < |events| && !Critical(events[actualRemoved])
        invariant 0 <= actualRemoved <= toRemove && actualRemoved <= |events|
        invariant forall i :: 0 <= i < actualRemoved ==> !Critical(events[i])
      {
        actualRemoved := actualRemoved + 1;
      }
      if actualRemoved > 0 {
        var gone := events[..actualRemoved];
        events := events[actualRemoved..];
        for i := 0 to |gone|
          invariant eventIDs == old(eventIDs) - IdsOf(gone[..i])
          invariant events == order[actualRemoved..] && version == old(version)
        {
          assert gone[..i + 1] == gone[..i] + [gone[i]];
          eventIDs := eventIDs - {gone[i].id};
        }
        assert gone[..|gone|] == gone;
        events := SortSlice(events, ByTimestamp());
        version := version + 1;
      }
      assert PruneOutcome(old(View()), maxEvents, unknownNara, order, actualRemoved, View());
    }

    /** Old checkpoints are filtered from the batch, then each event goes through `AddEvent`. */
    method MergeEvents(batch: seq<SyncEvent>) returns (added: nat)
      requires Valid()
      modifies this`events, this`eventIDs, this`version
      ensures Valid()
      ensures Merged(old(View()), maxEvents, unknownNara, batch, View(), added)
    {
      added := 0;
      for i := 0 to |batch|
        invariant Valid()
        invariant Merged(old(View()), maxEvents, unknownNara, batch[..i], View(), added)
      {
        ghost var before, addedBefore := View(), added;
        assert batch[..i + 1][..i] == batch[..i];
        if FilteredCheckpoint(batch[i]) {
          assert Merged(old(View()), maxEvents, unknownNara, batch[..i + 1][..i], before, added);
        } else {
          var ok := AddEvent(batch[i]);
          if ok {
            added := added + 1;
          }
          assert MergeStep(old(View()), maxEvents, unknownNara, batch[..i + 1], before, addedBefore, ok, View(), added);
        }
      }
      assert batch[..|batch|] == batch;
    }
  }
}
