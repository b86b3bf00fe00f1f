/** Exactly what the ledger forgets: priority pruning, observation compaction, and the
    content-based deduplication at the door. */
module Forgetting {
  import opened Decimal
  import opened Events
  import opened Sorting
  import opened LedgerSpec
  import opened LedgerInvariants

  // ---------- pruning ----------

  function Removed(ledger: Ledger, ledger': Ledger): multiset<SyncEvent> {
    multiset(ledger.events) - multiset(ledger'.events)
  }

  lemma RemovedIsFront(ledger: Ledger, max: int, keys: KeyRing, order: seq<SyncEvent>, n: nat, ledger': Ledger)
    requires WellIndexed(ledger) && PruneOutcome(ledger, max, keys, order, n, ledger')
    ensures multiset(ledger'.events) + Removed(ledger, ledger') == multiset(ledger.events)
    ensures forall e :: e in Removed(ledger, ledger') <==> e in order[..n]
    ensures forall e :: e in ledger'.events <==> e in order[n..]
    ensures |ledger'.events| == |order| - n && |order| == |ledger.events|
    ensures n == 0 <==> Removed(ledger, ledger') == multiset{}
  {
    PruneSplits(ledger, max, keys, order, n, ledger');
    SameElements(ledger.events, order);
    SameElements(ledger'.events, order[n..]);
    assert Removed(ledger, ledger') == multiset(order[..n]);
    if n > 0 {
      assert order[..n][0] in multiset(order[..n]);
    }
  }

  /** The order in which a prune gives events up: those of unknown naras first, then the ones of
      least importance (the highest priority number), then the oldest. */
  lemma GivenUpBefore(keys: KeyRing, r: SyncEvent, k: SyncEvent)
    requires !Below(PruneOrder(keys)(k), PruneOrder(keys)(r))
    ensures FromUnknownNara(keys, k) ==> FromUnknownNara(keys, r)
    ensures (FromUnknownNara(keys, k) <==> FromUnknownNara(keys, r)) ==> PruningPriority(k) <= PruningPriority(r)
    ensures (FromUnknownNara(keys, k) <==> FromUnknownNara(keys, r)) && PruningPriority(k) == PruningPriority(r) ==>
              r.timestamp <= k.timestamp
  {
  }

  /** A prune splits the ledger. Nothing critical is removed. Of something removed and something
      kept, the removed one is of an unknown nara if the kept one is; if both are or neither is, the
      removed one is no more important; and if they are equally important, it is no younger. No
      more goes than the excess, and whatever is left over the limit includes a critical event
      that all the rest would outlast. */
  lemma PruneIsExact(ledger: Ledger, max: int, keys: KeyRing, ledger': Ledger)
    requires WellIndexed(ledger) && Pruned(ledger, max, keys, ledger') && |ledger.events| > max
    ensures multiset(ledger'.events) + Removed(ledger, ledger') == multiset(ledger.events)
    ensures forall r :: r in Removed(ledger, ledger') ==> !Critical(r)
    ensures forall r, k :: r in Removed(ledger, ledger') && k in ledger'.events ==>
              && (FromUnknownNara(keys, k) ==> FromUnknownNara(keys, r))
              && ((FromUnknownNara(keys, k) <==> FromUnknownNara(keys, r)) ==>
                    && PruningPriority(k) <= PruningPriority(r)
                    && (PruningPriority(k) == PruningPriority(r) ==> r.timestamp <= k.timestamp))
    ensures |ledger'.events| >= max
    ensures |ledger'.events| > max && ledger'.events != [] ==>
              exists c :: c in ledger'.events && Critical(c)
                          && forall k :: k in ledger'.events && FromUnknownNara(keys, k) ==> FromUnknownNara(keys, c)
    ensures if Removed(ledger, ledger') == multiset{} then ledger'.version == ledger.version
            else ledger'.version == ledger.version + 1
                 && forall i, j :: 0 <= i < j < |ledger'.events| ==> ledger'.events[i].timestamp <= ledger'.events[j].timestamp
  {
    var order, n: nat :| PruneOutcome(ledger, max, keys, order, n, ledger');
    RemovedIsFront(ledger, max, keys, order, n, ledger');
    SortedSplit(order, PruneOrder(keys), n);
    forall r, k | r in Removed(ledger, ledger') && k in ledger'.events
      ensures FromUnknownNara(keys, k) ==> FromUnknownNara(keys, r)
      ensures (FromUnknownNara(keys, k) <==> FromUnknownNara(keys, r)) ==>
                PruningPriority(k) <= PruningPriority(r) && (PruningPriority(k) == PruningPriority(r) ==> r.timestamp <= k.timestamp)
    {
      GivenUpBefore(keys, r, k);
    }
    if |ledger'.events| > max && ledger'.events != [] {
      assert order[n] in order[n..];
      assert order[n] in ledger'.events;
      forall k | k in ledger'.events && FromUnknownNara(keys, k) ensures FromUnknownNara(keys, order[n]) {
        GivenUpBefore(keys, order[n], k);
      }
    }
    if Removed(ledger, ledger') != multiset{} {
      AscendingTimes(ledger'.events);
    }
  }

  predicate Announces(e: SyncEvent) {
    e.payload.HeyThere? || e.payload.Chau? || (e.payload.Observation? && e.payload.obs.kind == StatusChange)
  }

  predicate SameKind(a: SyncEvent, b: SyncEvent) {
    || (a.payload.Ping? && b.payload.Ping?) || (a.payload.Seen? && b.payload.Seen?)
    || (a.payload.Social? && b.payload.Social?) || (Announces(a) && Announces(b))
  }

  lemma PriorityByKind(e: SyncEvent)
    requires IsValid(e)
    ensures e.payload.Ping? ==> PruningPriority(e) == 4
    ensures e.payload.Seen? ==> PruningPriority(e) == 3
    ensures e.payload.Social? ==> PruningPriority(e) == 2
    ensures Announces(e) ==> PruningPriority(e) == 1
    ensures Critical(e) <==> PruningPriority(e) == 0
    ensures Critical(e) <==> !e.payload.Ping? && !e.payload.Seen? && !e.payload.Social? && !Announces(e)
    ensures Critical(e) <==>
            e.payload.Checkpoint? || (e.payload.Observation? && (e.payload.obs.kind == Restart || e.payload.obs.kind == FirstSeen))
  {
  }

  /** A prune by what the events tell. Checkpoints, restarts and first sightings never go. Among events
      of known naras, or of unknown ones: a ping is kept only if nothing but pings goes, a sighting
      only if nothing but pings and sightings goes, and social news only if no greeting, farewell or
      status change goes; within one kind the oldest go first. */
  lemma PruneGoesByKind(ledger: Ledger, max: int, keys: KeyRing, ledger': Ledger, r: SyncEvent, k: SyncEvent)
    requires WellIndexed(ledger) && Pruned(ledger, max, keys, ledger') && |ledger.events| > max
    requires r in Removed(ledger, ledger') && k in ledger'.events
    ensures !r.payload.Checkpoint? && !(r.payload.Observation? && (r.payload.obs.kind == Restart || r.payload.obs.kind == FirstSeen))
    ensures FromUnknownNara(keys, k) ==> FromUnknownNara(keys, r)
    ensures (FromUnknownNara(keys, k) <==> FromUnknownNara(keys, r)) ==>
              && (k.payload.Ping? ==> r.payload.Ping?)
              && (k.payload.Seen? ==> r.payload.Ping? || r.payload.Seen?)
              && (k.payload.Social? ==> !Announces(r))
              && (SameKind(k, r) ==> r.timestamp <= k.timestamp)
  {
    PruneIsExact(ledger, max, keys, ledger');
    HeldBefore(ledger, ledger', r, k);
    PriorityByKind(r);
    PriorityByKind(k);
  }

  lemma HeldBefore(ledger: Ledger, ledger': Ledger, r: SyncEvent, k: SyncEvent)
    requires WellIndexed(ledger) && multiset(ledger'.events) + Removed(ledger, ledger') == multiset(ledger.events)
    requires r in Removed(ledger, ledger') && k in ledger'.events
    ensures IsValid(r) && IsValid(k)
  {
    assert r in multiset(ledger.events) && k in multiset(ledger'.events);
    assert k in multiset(ledger.events);
    assert r in ledger.events && k in ledger.events;
  }

  /** An event is of an unknown nara if and only if there are keys to go by, it is no checkpoint, and
      some nara that it involves, other than as its emitter, has a name but no known key. */
  lemma UnknownIffInvolved(keys: KeyRing, e: SyncEvent)
    ensures FromUnknownNara(keys, e) <==>
            && keys.Checker? && !e.payload.Checkpoint?
            && exists name :: name != "" && name !in keys.known && Involves(e.(emitter := ""), name)
  {
    if FromUnknownNara(keys, e) {
      var name := SomeUnknown(keys, e);
      assert Involves(e.(emitter := ""), name);
    }
  }

  lemma SomeUnknown(keys: KeyRing, e: SyncEvent) returns (name: NaraName)
    requires FromUnknownNara(keys, e)
    ensures name != "" && name !in keys.known && Involves(e.(emitter := ""), name)
  {
    match e.payload
    case Social(_, actor, target, _, witnessedBy) =>
      name := if UnknownNara(keys, actor) then actor else if UnknownNara(keys, target) then target else witnessedBy;
    case Ping(observer, target, _) => name := if UnknownNara(keys, observer) then observer else target;
    case Observation(obs) => name := if UnknownNara(keys, obs.observer) then obs.observer else obs.subject;
    case HeyThere(from, _, _) => name := from;
    case Chau(from, _) => name := from;
    case Seen(observer, subject, _) => name := if UnknownNara(keys, observer) then observer else subject;
  }

  /** An event involves a nara by name as its emitter, its actor, its target, or as the witness of
      social news. */
  lemma InvolvedIff(e: SyncEvent, name: NaraName)
    requires name != ""
    ensures Involves(e, name) <==>
            || name == e.emitter || name == GetActor(e) || name == GetTarget(e)
            || (e.payload.Social? && name == e.payload.witnessedBy)
  {
  }

  /** Removing a nara by name forgets exactly the events that it emitted, did, suffered or witnessed. */
  lemma RemovalForgets(ledger: Ledger, name: NaraName, ledger': Ledger)
    requires RemovedFor(ledger, name, ledger') && name != ""
    ensures forall e :: e in ledger'.events <==>
              && e in ledger.events && e.emitter != name && GetActor(e) != name && GetTarget(e) != name
              && !(e.payload.Social? && e.payload.witnessedBy == name)
  {
    MatchingMembers(ledger.events, NotInvolving(name));
    forall e ensures Involves(e, name) <==>
              || name == e.emitter || name == GetActor(e) || name == GetTarget(e)
              || (e.payload.Social? && name == e.payload.witnessedBy) {
      InvolvedIff(e, name);
    }
  }

  lemma {:induction false} CountAll(s: seq<SyncEvent>, q: Query)
    requires forall e :: e in s ==> Matches(q, e)
    ensures Count(s, q) == |s|
  {
    if s != [] {
      CountAll(s[..|s| - 1], q);
    }
  }

  lemma {:induction false} CountNone(s: seq<SyncEvent>, q: Query)
    requires forall e :: e in s ==> !Matches(q, e)
    ensures Count(s, q) == 0
  {
    if s != [] {
      CountNone(s[..|s| - 1], q);
    }
  }

  /** A critical event of an unknown nara sorts before every event of known naras, so it
      shields them from pruning. */
  ghost predicate Shielded(ledger: Ledger, keys: KeyRing) {
    exists e :: e in ledger.events && Critical(e) && FromUnknownNara(keys, e)
  }

  ghost function ExpendableCount(ledger: Ledger, keys: KeyRing): nat {
    Count(ledger.events, Expendable(keys, Shielded(ledger, keys)))
  }

  lemma {:induction false} FirstCritical(order: seq<SyncEvent>) returns (f: nat)
    ensures f <= |order| && (f < |order| ==> Critical(order[f]))
    ensures forall i :: 0 <= i < f ==> !Critical(order[i])
  {
    f := 0;
    while f < |order| && !Critical(order[f])
      invariant f <= |order|
      invariant forall i :: 0 <= i < f ==> !Critical(order[i])
    {
      f := f + 1;
    }
  }

  lemma BehindCritical(keys: KeyRing, c: SyncEvent, e: SyncEvent)
    requires Critical(c) && !Below(PruneOrder(keys)(e), PruneOrder(keys)(c))
    ensures Critical(e) || (FromUnknownNara(keys, c) && !FromUnknownNara(keys, e))
  {
  }

  lemma BehindUnknown(keys: KeyRing, e: SyncEvent, c: SyncEvent)
    requires FromUnknownNara(keys, c) && !Below(PruneOrder(keys)(c), PruneOrder(keys)(e))
    ensures FromUnknownNara(keys, e)
  {
  }

  /** In the pruning order, the expendable events are exactly those before the first critical one. */
  lemma ExpendableIsPrefix(ledger: Ledger, keys: KeyRing, order: seq<SyncEvent>, f: nat)
    requires SortedArrangement(ledger.events, order, PruneOrder(keys))
    requires f <= |order| && (f < |order| ==> Critical(order[f]))
    requires forall i :: 0 <= i < f ==> !Critical(order[i])
    ensures ExpendableCount(ledger, keys) == f
  {
    var q := Expendable(keys, Shielded(ledger, keys));
    SameElements(ledger.events, order);
    SortedSplit(order, PruneOrder(keys), f);
    assert order == order[..f] + order[f..];
    forall e | e in order[..f] ensures Matches(q, e) {
      var i :| 0 <= i < f && order[..f][i] == e;
      if Shielded(ledger, keys) {
        var c :| c in ledger.events && Critical(c) && FromUnknownNara(keys, c);
        assert c in order[f..] by {
          assert c in order[..f] ==> !Critical(c);
        }
        BehindUnknown(keys, e, c);
      }
    }
    forall e | e in order[f..] ensures !Matches(q, e) {
      assert order[f] in ledger.events;
      BehindCritical(keys, order[f], e);
    }
    CountAll(order[..f], q);
    CountNone(order[f..], q);
    MatchingConcat(order[..f], order[f..], q);
    MatchingRearranged(ledger.events, order, q);
  }

  /** How many events a prune removes, to the unit: the excess, as far as expendable events
      reach. */
  lemma PruneRemovesExactly(ledger: Ledger, max: int, keys: KeyRing, ledger': Ledger)
    requires WellIndexed(ledger) && Pruned(ledger, max, keys, ledger') && |ledger.events| > max
    ensures var excess := |ledger.events| - max;
            |ledger.events| - |ledger'.events| == if excess <= ExpendableCount(ledger, keys) then excess else ExpendableCount(ledger, keys)
    ensures |ledger'.events| <= max <==> ExpendableCount(ledger, keys) >= |ledger.events| - max
  {
    var order, n: nat :| PruneOutcome(ledger, max, keys, order, n, ledger');
    PruneSplits(ledger, max, keys, order, n, ledger');
    SameElements(ledger.events, order);
    SameElements(ledger'.events, order[n..]);
    var f := FirstCritical(order);
    ExpendableIsPrefix(ledger, keys, order, f);
  }

  /** What is left of a ledger that stays over its limit is critical, or it is shielded by a critical
      event of an unknown nara. With no such event everything left is critical. */
  lemma LeftOverIsCritical(ledger: Ledger, max: int, keys: KeyRing, ledger': Ledger)
    requires WellIndexed(ledger) && Pruned(ledger, max, keys, ledger') && |ledger'.events| > max
    ensures forall e :: e in ledger'.events ==> Critical(e) || (Shielded(ledger, keys) && !FromUnknownNara(keys, e))
    ensures !Shielded(ledger, keys) ==> forall e :: e in ledger'.events ==> Critical(e)
  {
    var order, n: nat :| PruneOutcome(ledger, max, keys, order, n, ledger');
    SameElements(ledger.events, order);
    RemovedIsFront(ledger, max, keys, order, n, ledger');
    SortedSplit(order, PruneOrder(keys), n);
    forall e | e in ledger'.events ensures Critical(e) || (Shielded(ledger, keys) && !FromUnknownNara(keys, e)) {
      assert order[n] in ledger.events;
      BehindCritical(keys, order[n], e);
    }
  }

  /** An accepted event that is no observation leaves the ledger within its limit, unless what is left
      over is critical or shielded. */
  lemma AddKeepsLimit(ledger: Ledger, max: int, keys: KeyRing, e: SyncEvent, ledger': Ledger)
    requires Sound(ledger) && e.id != "" && !e.payload.Observation? && PlainAdd(ledger, max, keys, e, ledger', true)
    ensures max <= 0 || |ledger'.events| <= max
            || forall x :: x in ledger'.events ==>
                 Critical(x) || (!FromUnknownNara(keys, x)
                                 && exists c :: c in ledger'.events && Critical(c) && FromUnknownNara(keys, c))
  {
    var room, refused :| PlainAddVia(ledger, max, keys, e, room, refused, ledger', true);
    RoomStaysSound(ledger, e, room, refused);
    AppendPlainSound(room, e);
    if max > 0 && |ledger'.events| > max {
      LeftOverIsCritical(Appended(room, e), max, keys, ledger');
      if Shielded(Appended(room, e), keys) {
        ShieldSurvives(Appended(room, e), max, keys, ledger');
      }
    }
  }

  lemma ShieldSurvives(ledger: Ledger, max: int, keys: KeyRing, ledger': Ledger)
    requires WellIndexed(ledger) && Pruned(ledger, max, keys, ledger') && Shielded(ledger, keys)
    ensures exists c :: c in ledger'.events && Critical(c) && FromUnknownNara(keys, c)
  {
    var c :| c in ledger.events && Critical(c) && FromUnknownNara(keys, c);
    PrunedShrinks(ledger, max, keys, ledger');
    assert c in ledger'.events;
  }

  lemma SmallLedgerIsCapped(s: seq<SyncEvent>)
    requires |s| <= MAX_OBSERVATIONS_PER_PAIR
    ensures PairCapped(s)
  {
    forall o, t ensures PairWithinCap(s, o, t) {
      CountWithinLength(s, ObservationsOf(o, t));
    }
  }

  /** The limit does not hold in general: one critical event of an unknown nara keeps a
      non-critical event of a known nara in a ledger that is over its limit. */
  lemma ShieldedLedgerStaysOverLimit() returns (ledger: Ledger, keys: KeyRing, ledger': Ledger, e: SyncEvent)
    ensures Sound(ledger) && Pruned(ledger, 1, keys, ledger')
    ensures |ledger'.events| > 1 && e in ledger'.events && !Critical(e) && !FromUnknownNara(keys, e)
  {
    var stranger := SyncEvent("a", 1, "", Observation(
                                ObservationPayload("eve", "bob", Restart, 3, false, 1, 1, 0, NoState)));
    e := SyncEvent("b", 2, "", Seen("ann", "bob", "mesh"));
    ledger := Ledger([stranger, e], {"a", "b"}, 0);
    keys := Checker({"ann", "bob"});
    ledger' := ledger;
    SmallLedgerIsCapped(ledger.events);
    assert PruneOutcome(ledger, 1, keys, ledger.events, 0, ledger);
  }

  // ---------- compaction ----------

  lemma VictimIsLost(ledger: Ledger, e: SyncEvent, dedup: bool, ledger': Ledger, ok: bool, i: nat)
    requires Sound(ledger) && e.payload.Observation? && e.id != "" && i < |ledger.events|
    requires ObservationAdd(ledger, e, dedup, ledger', ok)
    ensures var o := e.payload.obs;
            ledger.events[i] !in ledger'.events <==>
            && !(dedup && AlreadyReported(ledger.events, o))
            && Count(ledger.events, ObservationsOf(o.observer, o.subject)) >= MAX_OBSERVATIONS_PER_PAIR
            && IsVictim(ledger.events, o, i)
            && e != ledger.events[i]
  {
    var o, x := e.payload.obs, ledger.events[i];
    if !(dedup && AlreadyReported(ledger.events, o)) {
      var room :| ObservationAddVia(ledger, e, room, ledger', ok);
      if room != ledger {
        var v: nat :| v < |ledger.events| && IsVictim(ledger.events, o, v) && room == RemoveAt(ledger, v);
        RemoveAtIndex(ledger, v);
        assert IsVictim(ledger.events, o, i) ==> i == v;
        assert x in room.events <==> i != v;
      } else if Count(ledger.events, ObservationsOf(o.observer, o.subject)) >= MAX_OBSERVATIONS_PER_PAIR {
        assert !IsVictim(ledger.events, o, i);
      }
    }
  }

  /** `events[i]` is the first of the oldest of `some`. */
  ghost predicate FirstOldest(events: seq<SyncEvent>, some: set<SyncEvent>, i: nat) {
    && i < |events| && events[i] in some
    && forall j :: 0 <= j < |events| && events[j] in some ==>
         events[i].timestamp <= events[j].timestamp && (events[i].timestamp == events[j].timestamp ==> i <= j)
  }

  lemma VictimIsFirstOldest(events: seq<SyncEvent>, o: ObservationPayload, i: nat)
    requires DistinctIds(events) && i < |events|
    ensures IsVictim(events, o, i) <==>
            if NewsAbout(events, o.observer, o.subject) != {} then FirstOldest(events, NewsAbout(events, o.observer, o.subject), i)
            else CheckpointHeld(events, o.subject) && FirstOldest(events, HeldAbout(events, o.observer, o.subject), i)
  {
    CountsAbout(events, o.observer, o.subject);
    forall j | 0 <= j < |events|
      ensures Matches(NonRestartsOf(o.observer, o.subject), events[j]) <==> events[j] in NewsAbout(events, o.observer, o.subject)
      ensures Matches(ObservationsOf(o.observer, o.subject), events[j]) <==> events[j] in HeldAbout(events, o.observer, o.subject)
    {
    }
  }

  /** The exact condition under which adding an observation makes the ledger lose `ledger.events[i]`: it
      is not refused as a duplicate, its observer already holds 20 about its subject, and that event
      is the first of the oldest of these that report no restart; or, if all 20 report restarts and a
      checkpoint about the subject is held, the first of the oldest of all. */
  lemma CompactionLosesExactly(ledger: Ledger, e: SyncEvent, dedup: bool, ledger': Ledger, ok: bool, i: nat)
    requires Sound(ledger) && e.payload.Observation? && e.id != "" && i < |ledger.events|
    requires ObservationAdd(ledger, e, dedup, ledger', ok)
    ensures var s, o := ledger.events, e.payload.obs;
            var about, news := HeldAbout(s, o.observer, o.subject), NewsAbout(s, o.observer, o.subject);
            s[i] !in ledger'.events <==>
            && !(dedup && AlreadyReported(s, o)) && |about| >= 20 && e != s[i]
            && if news != {} then FirstOldest(s, news, i)
               else FirstOldest(s, about, i) && exists c :: c in s && c.payload.Checkpoint? && c.payload.cp.subject == o.subject
  {
    VictimIsLost(ledger, e, dedup, ledger', ok, i);
    CountsAbout(ledger.events, e.payload.obs.observer, e.payload.obs.subject);
    VictimIsFirstOldest(ledger.events, e.payload.obs, i);
    assert CheckpointHeld(ledger.events, e.payload.obs.subject)
           <==> exists c :: c in ledger.events && c.payload.Checkpoint? && c.payload.cp.subject == e.payload.obs.subject;
  }

  function Sighting(i: nat): SyncEvent {
    SyncEvent(FormatInt(i + 1), i + 1, "ann", Observation(
                ObservationPayload("ann", "bob", FirstSeen, CRITICAL, false, i + 1, 0, 0, NoState)))
  }

  function Sightings(n: nat): seq<SyncEvent> {
    seq(n, i requires 0 <= i => Sighting(i))
  }

  lemma SightingsAreSound()
    ensures var s := Sightings(MAX_OBSERVATIONS_PER_PAIR);
            Sound(Ledger(s, IdsOf(s), 0))
  {
    var s := Sightings(MAX_OBSERVATIONS_PER_PAIR);
    SmallLedgerIsCapped(s);
    forall i, j | 0 <= i < j < |s| ensures s[i].id != s[j].id {
      if s[i].id == s[j].id {
        FormatIntInjective(i + 1, j + 1);
      }
    }
    forall e | e in s ensures IsValid(e) && e.id != "" && !FilteredCheckpoint(e) {
      FormatIntHasNoColon(e.timestamp);
    }
  }

  lemma AddToFullPair(ledger: Ledger, e: SyncEvent, i: nat) returns (ledger': Ledger)
    requires Sound(ledger) && e.payload.Observation? && e.id != "" && i < |ledger.events| && e != ledger.events[i]
    requires Count(ledger.events, ObservationsOf(e.payload.obs.observer, e.payload.obs.subject)) >= MAX_OBSERVATIONS_PER_PAIR
    requires IsVictim(ledger.events, e.payload.obs, i)
    ensures Step(ledger, 0, AddOp(e, NoChecker), ledger')
    ensures ledger.events[i] !in ledger'.events
  {
    var room := RemoveAt(ledger, i);
    var ok := IsValid(e) && e.id !in room.ids;
    ledger' := if ok then Appended(room, e) else room;
    CountZeroNoVictim(ledger, e.payload.obs, i);
    assert Compacted(ledger, e.payload.obs, room);
    assert ObservationAddVia(ledger, e, room, ledger', ok);
    assert Add(ledger, 0, NoChecker, e, ledger', ok);
    VictimIsLost(ledger, e, false, ledger', ok, i);
  }

  lemma CountZeroNoVictim(ledger: Ledger, o: ObservationPayload, i: nat)
    requires i < |ledger.events| && IsVictim(ledger.events, o, i)
    ensures Count(ledger.events, NonRestartsOf(o.observer, o.subject)) > 0 || CheckpointHeld(ledger.events, o.subject)
  {
  }

  function Departure(): SyncEvent {
    SyncEvent("new", 100, "ann", Observation(
                ObservationPayload("ann", "bob", StatusChange, 2, false, 0, 0, 0, OFFLINE)))
  }

  lemma FirstSightingIsVictim()
    ensures var s := Sightings(MAX_OBSERVATIONS_PER_PAIR);
            && Count(s, ObservationsOf("ann", "bob")) == MAX_OBSERVATIONS_PER_PAIR
            && IsVictim(s, Departure().payload.obs, 0)
  {
    var s := Sightings(MAX_OBSERVATIONS_PER_PAIR);
    CountAll(s, ObservationsOf("ann", "bob"));
    CountAll(s, NonRestartsOf("ann", "bob"));
  }

  /** First-seen observations count as critical history for pruning, and the observation
      notes promise that they go only once a checkpoint anchors them. Compaction does not
      keep that promise: a full pair gives up a first-seen with no checkpoint held. */
  lemma FirstSeenCanBeLost() returns (ledger: Ledger, e: SyncEvent, ledger': Ledger, x: SyncEvent)
    ensures Sound(ledger) && Step(ledger, 0, AddOp(e, NoChecker), ledger')
    ensures x.payload.Observation? && x.payload.obs.kind.FirstSeen? && Critical(x)
    ensures x in ledger.events && x !in ledger'.events
    ensures !CheckpointHeld(ledger.events, x.payload.obs.subject)
  {
    var s := Sightings(MAX_OBSERVATIONS_PER_PAIR);
    ledger, e, x := Ledger(s, IdsOf(s), 0), Departure(), s[0];
    SightingsAreSound();
    FirstSightingIsVictim();
    ledger' := AddToFullPair(ledger, e, 0);
  }

  // ---------- deduplication ----------

  /** Both report the restart of one nara with one number and start time, or both are the first
      sighting of one nara by one observer. */
  predicate TellTheSame(a: SyncEvent, b: SyncEvent) {
    && a.payload.Observation? && b.payload.Observation? && a.payload.obs.subject == b.payload.obs.subject
    && a.payload.obs.kind == b.payload.obs.kind
    && ((a.payload.obs.kind == Restart && a.payload.obs.restartNum == b.payload.obs.restartNum
         && a.payload.obs.startTime == b.payload.obs.startTime)
        || (a.payload.obs.kind == FirstSeen && a.payload.obs.observer == b.payload.obs.observer))
  }

  ghost predicate NoDoubleReports(events: seq<SyncEvent>) {
    forall a, b :: a in events && b in events && a != b ==> !TellTheSame(a, b)
  }

  /** The deduplicating door refuses an observation that tells what a held one tells, and leaves the
      ledger alone then; anything else that is valid and has a new ID it takes. */
  lemma DedupRefusesExactly(ledger: Ledger, e: SyncEvent, ledger': Ledger, ok: bool)
    requires e.payload.Observation? && AddWithDedup(ledger, e, ledger', ok)
    ensures (exists x :: x in ledger.events && TellTheSame(e, x)) ==> !ok && ledger' == ledger
    ensures IsValid(e) && e.id !in ledger.ids ==> (ok <==> forall x :: x in ledger.events ==> !TellTheSame(e, x))
    ensures ok ==> ledger'.events != [] && ledger'.events[|ledger'.events| - 1] == e
  {
    SameReportsTellTheSame(ledger.events, e);
  }

  lemma SameReportsTellTheSame(events: seq<SyncEvent>, e: SyncEvent)
    requires e.payload.Observation?
    ensures AlreadyReported(events, e.payload.obs) <==> exists x :: x in events && TellTheSame(e, x)
  {
    if AlreadyReported(events, e.payload.obs) {
      var x :| x in events && x.payload.Observation? && SameReport(e.payload.obs, x.payload.obs);
      assert TellTheSame(e, x);
    }
    if x :| x in events && TellTheSame(e, x) {
      assert SameReport(e.payload.obs, x.payload.obs);
    }
  }

  /** Observations enter only through the deduplicating door. */
  ghost predicate DedupDoorOnly(ops: seq<Op>) {
    forall op :: op in ops && op.AddOp? ==> !op.e.payload.Observation?
  }

  lemma StepKeepsReportsSingle(ledger: Ledger, max: int, op: Op, ledger': Ledger)
    requires Sound(ledger) && Step(ledger, max, op, ledger') && NoDoubleReports(ledger.events)
    requires op.AddOp? ==> !op.e.payload.Observation?
    ensures NoDoubleReports(ledger'.events)
  {
    match op
    case AddOp(e, keys) =>
      var ok :| Add(ledger, max, keys, e, ledger', ok);
      NewcomersOfPlainAdd(ledger, max, keys, e, ledger', ok);
    case DedupOp(e) =>
      var ok :| AddWithDedup(ledger, e, ledger', ok);
      NewcomersOfObservationAdd(ledger, e, true, ledger', ok);
      SameReportsTellTheSame(ledger.events, e);
    case PruneOp(keys) =>
      PrunedShrinks(ledger, max, keys, ledger');
      SubMultisetMembers(ledger.events, ledger'.events);
    case RemoveOp(name) =>
      MatchingMembers(ledger.events, NotInvolving(name));
  }

  lemma NewcomersOfPlainAdd(ledger: Ledger, max: int, keys: KeyRing, e: SyncEvent, ledger': Ledger, ok: bool)
    requires Sound(ledger) && e.id != "" && !e.payload.Observation?
    requires PlainAdd(ledger, max, keys, e, ledger', ok)
    ensures forall x :: x in ledger'.events ==> x in ledger.events || x == e
  {
    if !Unwelcome(ledger, e) {
      var room, refused :| PlainAddVia(ledger, max, keys, e, room, refused, ledger', ok);
      RoomStaysSound(ledger, e, room, refused);
      if !refused && max > 0 {
        AppendPlainSound(room, e);
        PrunedShrinks(Appended(room, e), max, keys, ledger');
        SubMultisetMembers(Appended(room, e).events, ledger'.events);
      }
    }
  }

  lemma NewcomersOfObservationAdd(ledger: Ledger, e: SyncEvent, dedup: bool, ledger': Ledger, ok: bool)
    requires Sound(ledger) && e.payload.Observation?
    requires ObservationAdd(ledger, e, dedup, ledger', ok)
    ensures forall x :: x in ledger'.events ==> x in ledger.events || (x == e && !(dedup && AlreadyReported(ledger.events, e.payload.obs)))
  {
  }

  lemma RunStepKeepsReportsSingle(max: int, states: seq<Ledger>, ops: seq<Op>, k: nat)
    requires Run(max, states, ops) && states[0] == EmptyLedger && DedupDoorOnly(ops)
    requires k < |ops| && NoDoubleReports(states[k].events)
    ensures NoDoubleReports(states[k + 1].events)
  {
    RunStaysSound(max, states, ops, k);
    assert StepAt(max, states, ops, k);
    assert ops[k] in ops;
    StepKeepsReportsSingle(states[k], max, ops[k], states[k + 1]);
  }

  /** While observations enter only with deduplication, no restart of a nara and no first
      sighting by an observer is ever recorded twice, whoever reports it. */
  lemma {:induction false} RestartsCountedOnce(max: int, states: seq<Ledger>, ops: seq<Op>, k: nat)
    requires Run(max, states, ops) && states[0] == EmptyLedger && DedupDoorOnly(ops) && k < |states|
    ensures NoDoubleReports(states[k].events)
  {
    if k > 0 {
      RestartsCountedOnce(max, states, ops, k - 1);
      RunStepKeepsReportsSingle(max, states, ops, k - 1);
    }
  }
}
