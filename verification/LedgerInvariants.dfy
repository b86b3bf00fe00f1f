/** What every operation of the ledger keeps, and therefore what holds in every run. */
module LedgerInvariants {
  import opened Events
  import opened Sorting
  import opened LedgerSpec

  ghost predicate Sound(ledger: Ledger) {
    WellIndexed(ledger) && PairCapped(ledger.events)
  }

  // ---------- counting ----------

  lemma CountAppend(s: seq<SyncEvent>, e: SyncEvent, q: Query)
    ensures Count(s + [e], q) == Count(s, q) + if Matches(q, e) then 1 else 0
  {
  }

  lemma CountRemoveAt(s: seq<SyncEvent>, i: nat, q: Query)
    requires i < |s|
    ensures Count(s, q) == Count(s[..i] + s[i + 1..], q) + if Matches(q, s[i]) then 1 else 0
  {
    MatchingConcat(s[..i], s[i + 1..], q);
    assert s == (s[..i] + [s[i]]) + s[i + 1..];
    MatchingConcat(s[..i] + [s[i]], s[i + 1..], q);
    MatchingSnoc(s[..i], s[i], q);
  }

  /** Non-restarts of a pair are among its observations. */
  lemma {:induction false} NonRestartsAmongObservations(s: seq<SyncEvent>, o: NaraName, t: NaraName)
    ensures Count(s, NonRestartsOf(o, t)) <= Count(s, ObservationsOf(o, t))
  {
    if s != [] {
      NonRestartsAmongObservations(s[..|s| - 1], o, t);
    }
  }

  lemma CountSubMultiset(s: seq<SyncEvent>, t: seq<SyncEvent>, q: Query)
    requires multiset(t) <= multiset(s)
    ensures Count(t, q) <= Count(s, q)
  {
    var ms, mt := multiset(Matching(s, q)), multiset(Matching(t, q));
    forall e ensures mt[e] <= ms[e] {
      MatchingMultiset(s, q, e);
      MatchingMultiset(t, q, e);
    }
    SubMultisetSize(mt, ms);
  }

  // ---------- shrinking ----------

  lemma DistinctIdsSplit(s: seq<SyncEvent>)
    requires Distinct(s)
    requires forall a, b :: a in s && b in s && a.id == b.id ==> a == b
    ensures DistinctIds(s)
  {
  }

  lemma SubMultisetMembers(s: seq<SyncEvent>, t: seq<SyncEvent>)
    requires multiset(t) <= multiset(s)
    ensures forall e :: e in t ==> e in s
  {
    forall e | e in t ensures e in s {
      assert e in multiset(t) && multiset(t)[e] <= multiset(s)[e];
    }
  }

  lemma ShrunkDistinctIds(s: seq<SyncEvent>, t: seq<SyncEvent>)
    requires DistinctIds(s) && multiset(t) <= multiset(s)
    ensures DistinctIds(t)
  {
    DistinctMeansOnce(s);
    SubMultisetMembers(s, t);
    forall e | e in multiset(t) ensures multiset(t)[e] == 1 {
      assert multiset(t)[e] <= multiset(s)[e] == 1;
    }
    DistinctMeansOnce(t);
    DistinctIdsSplit(t);
  }

  lemma ShrunkStaysSound(ledger: Ledger, ledger': Ledger)
    requires Sound(ledger)
    requires multiset(ledger'.events) <= multiset(ledger.events) && ledger'.ids == IdsOf(ledger'.events) && ledger'.version >= 0
    ensures Sound(ledger')
  {
    ShrunkDistinctIds(ledger.events, ledger'.events);
    SubMultisetMembers(ledger.events, ledger'.events);
    forall o, s ensures PairWithinCap(ledger'.events, o, s) {
      assert PairWithinCap(ledger.events, o, s);
      CountSubMultiset(ledger.events, ledger'.events, ObservationsOf(o, s));
      CountSubMultiset(ledger.events, ledger'.events, NonRestartsOf(o, s));
    }
  }

  lemma RemoveAtElements(s: seq<SyncEvent>, i: nat)
    requires i < |s|
    ensures multiset(s[..i] + s[i + 1..]) == multiset(s) - multiset{s[i]}
    ensures forall e :: e in s <==> e in s[..i] + s[i + 1..] || e == s[i]
  {
    assert s == s[..i] + [s[i]] + s[i + 1..];
  }

  lemma RemoveAtIds(s: seq<SyncEvent>, i: nat)
    requires DistinctIds(s) && i < |s|
    ensures IdsOf(s[..i] + s[i + 1..]) == IdsOf(s) - {s[i].id}
    ensures s[i] !in s[..i] + s[i + 1..]
  {
  }

  lemma RemoveAtIndex(ledger: Ledger, i: nat)
    requires WellIndexed(ledger) && i < |ledger.events|
    ensures WellIndexed(RemoveAt(ledger, i))
    ensures multiset(RemoveAt(ledger, i).events) == multiset(ledger.events) - multiset{ledger.events[i]}
    ensures forall e :: e in ledger.events <==> e in RemoveAt(ledger, i).events || e == ledger.events[i]
    ensures ledger.events[i] !in RemoveAt(ledger, i).events
  {
    var s, t := ledger.events, RemoveAt(ledger, i).events;
    RemoveAtElements(s, i);
    RemoveAtIds(s, i);
    ShrunkDistinctIds(s, t);
  }

  lemma AppendIndex(ledger: Ledger, e: SyncEvent)
    requires WellIndexed(ledger)
    requires IsValid(e) && e.id != "" && !FilteredCheckpoint(e) && e.id !in ledger.ids
    ensures WellIndexed(Appended(ledger, e))
  {
  }

  // ---------- pruning ----------

  /** Pruning splits the ledger: what it keeps and what it removes are the old events. */
  lemma PruneSplits(ledger: Ledger, max: int, keys: KeyRing, order: seq<SyncEvent>, n: nat, ledger': Ledger)
    requires WellIndexed(ledger) && PruneOutcome(ledger, max, keys, order, n, ledger')
    ensures multiset(ledger'.events) + multiset(order[..n]) == multiset(ledger.events)
    ensures multiset(ledger'.events) == multiset(order[n..])
    ensures ledger'.ids == IdsOf(ledger'.events)
  {
    assert order == order[..n] + order[n..];
    SameElements(ledger.events, order);
    ShrunkDistinctIds(ledger.events, order);
    if n == 0 {
      assert order[0..] == order;
    } else {
      SameElements(order[n..], ledger'.events);
      assert IdsOf(order) == IdsOf(ledger.events);
      assert IdsOf(order) - IdsOf(order[..n]) == IdsOf(order[n..]);
    }
  }

  lemma PruneKeepsCritical(ledger: Ledger, max: int, keys: KeyRing, order: seq<SyncEvent>, n: nat, ledger': Ledger,
                           e: SyncEvent)
    requires WellIndexed(ledger) && PruneOutcome(ledger, max, keys, order, n, ledger')
    requires e in ledger.events && Critical(e)
    ensures e in ledger'.events
  {
    PruneSplits(ledger, max, keys, order, n, ledger');
    if e in order[..n] {
      assert false;
    }
    assert e in multiset(ledger.events);
  }

  lemma PrunedShrinks(ledger: Ledger, max: int, keys: KeyRing, ledger': Ledger)
    requires WellIndexed(ledger) && Pruned(ledger, max, keys, ledger')
    ensures multiset(ledger'.events) <= multiset(ledger.events)
    ensures ledger'.ids == IdsOf(ledger'.events)
    ensures ledger.version <= ledger'.version
    ensures forall e :: e in ledger.events && Critical(e) ==> e in ledger'.events
  {
    if |ledger.events| > max {
      var order, n: nat :| PruneOutcome(ledger, max, keys, order, n, ledger');
      PruneSplits(ledger, max, keys, order, n, ledger');
      forall e | e in ledger.events && Critical(e) ensures e in ledger'.events {
        PruneKeepsCritical(ledger, max, keys, order, n, ledger', e);
      }
    }
  }

  // ---------- compaction ----------

  lemma VictimIsObservation(ledger: Ledger, o: ObservationPayload, i: nat)
    requires i < |ledger.events| && IsVictim(ledger.events, o, i)
    ensures Matches(ObservationsOf(o.observer, o.subject), ledger.events[i])
    ensures IsRestartOf(ledger.events[i], o.subject) ==> CheckpointHeld(ledger.events, o.subject)
  {
  }

  /** After making room, one more observation of the pair fits under the cap. */
  lemma CompactedMakesRoom(ledger: Ledger, o: ObservationPayload, ledger': Ledger, e: SyncEvent)
    requires Sound(ledger) && Compacted(ledger, o, ledger')
    requires e.payload.Observation? && e.payload.obs == o
    ensures Sound(ledger')
    ensures PairCapped(ledger'.events + [e])
  {
    var pair, rest := ObservationsOf(o.observer, o.subject), NonRestartsOf(o.observer, o.subject);
    if ledger' != ledger {
      var i: nat :| i < |ledger.events| && IsVictim(ledger.events, o, i) && ledger' == RemoveAt(ledger, i);
      RemoveAtIndex(ledger, i);
      ShrunkStaysSound(ledger, ledger');
      CountRemoveAt(ledger.events, i, pair);
      CountRemoveAt(ledger.events, i, rest);
      VictimIsObservation(ledger, o, i);
    }
    assert PairWithinCap(ledger.events, o.observer, o.subject);
    NonRestartsAmongObservations(ledger'.events, o.observer, o.subject);
    forall p, s ensures PairWithinCap(ledger'.events + [e], p, s) {
      assert PairWithinCap(ledger'.events, p, s);
      CountAppend(ledger'.events, e, ObservationsOf(p, s));
      CountAppend(ledger'.events, e, NonRestartsOf(p, s));
    }
  }

  // ---------- operations ----------

  lemma RoomStaysSound(ledger: Ledger, e: SyncEvent, room: Ledger, refused: bool)
    requires Sound(ledger) && Room(ledger, e, room, refused)
    ensures Sound(room) && room.ids <= ledger.ids && ledger.version <= room.version
    ensures forall x :: x in ledger.events && !x.payload.Ping? ==> x in room.events
    ensures forall x :: x in room.events ==> x in ledger.events
  {
    if room != ledger {
      var i: nat :| RoomByEvicting(ledger, e.payload.target, e.timestamp, i, room, refused);
      RemoveAtIndex(ledger, i);
      ShrunkStaysSound(ledger, room);
    }
  }

  lemma AppendPlainSound(ledger: Ledger, e: SyncEvent)
    requires Sound(ledger)
    requires IsValid(e) && e.id != "" && !FilteredCheckpoint(e) && e.id !in ledger.ids && !e.payload.Observation?
    ensures Sound(Appended(ledger, e))
  {
    AppendIndex(ledger, e);
    forall o, s ensures PairWithinCap(ledger.events + [e], o, s) {
      assert PairWithinCap(ledger.events, o, s);
      CountAppend(ledger.events, e, ObservationsOf(o, s));
      CountAppend(ledger.events, e, NonRestartsOf(o, s));
    }
  }

  lemma PlainAddStaysSound(ledger: Ledger, max: int, keys: KeyRing, e: SyncEvent, ledger': Ledger, ok: bool)
    requires Sound(ledger) && e.id != "" && !e.payload.Observation?
    requires PlainAdd(ledger, max, keys, e, ledger', ok)
    ensures Sound(ledger')
    ensures forall x :: x in ledger.events && Critical(x) ==> x in ledger'.events
  {
    if !Unwelcome(ledger, e) {
      var room, refused :| PlainAddVia(ledger, max, keys, e, room, refused, ledger', ok);
      RoomStaysSound(ledger, e, room, refused);
      if !refused {
        AppendPlainSound(room, e);
        if max > 0 {
          PrunedShrinks(Appended(room, e), max, keys, ledger');
          ShrunkStaysSound(Appended(room, e), ledger');
        }
      }
    }
  }

  lemma ObservationAddStaysSound(ledger: Ledger, e: SyncEvent, dedup: bool, ledger': Ledger, ok: bool)
    requires Sound(ledger) && e.id != "" && e.payload.Observation?
    requires ObservationAdd(ledger, e, dedup, ledger', ok)
    ensures Sound(ledger')
    ensures forall x :: x in ledger.events && !x.payload.Observation? ==> x in ledger'.events
    ensures forall x, s :: x in ledger.events && IsRestartOf(x, s) ==> x in ledger'.events || CheckpointHeld(ledger.events, s)
  {
    if !(dedup && AlreadyReported(ledger.events, e.payload.obs)) {
      var o := e.payload.obs;
      var room :| ObservationAddVia(ledger, e, room, ledger', ok);
      CompactedMakesRoom(ledger, o, room, e);
      if ok {
        AppendIndex(room, e);
      }
      if room != ledger {
        var i: nat :| i < |ledger.events| && IsVictim(ledger.events, o, i) && room == RemoveAt(ledger, i);
        RemoveAtIndex(ledger, i);
        VictimIsObservation(ledger, o, i);
      }
    }
  }

  lemma RemovedForStaysSound(ledger: Ledger, name: NaraName, ledger': Ledger)
    requires Sound(ledger) && RemovedFor(ledger, name, ledger')
    ensures Sound(ledger')
  {
    forall e ensures multiset(ledger'.events)[e] <= multiset(ledger.events)[e] {
      MatchingMultiset(ledger.events, NotInvolving(name), e);
    }
    ShrunkStaysSound(ledger, ledger');
  }

  /** Every operation keeps the index exact and every pair capped. */
  lemma StepStaysSound(ledger: Ledger, max: int, op: Op, ledger': Ledger)
    requires Sound(ledger) && Step(ledger, max, op, ledger')
    ensures Sound(ledger')
  {
    match op
    case AddOp(e, keys) =>
      var ok :| Add(ledger, max, keys, e, ledger', ok);
      if e.payload.Observation? {
        ObservationAddStaysSound(ledger, e, false, ledger', ok);
      } else {
        PlainAddStaysSound(ledger, max, keys, e, ledger', ok);
      }
    case DedupOp(e) =>
      var ok :| AddWithDedup(ledger, e, ledger', ok);
      ObservationAddStaysSound(ledger, e, true, ledger', ok);
    case PruneOp(keys) =>
      PrunedShrinks(ledger, max, keys, ledger');
      ShrunkStaysSound(ledger, ledger');
    case RemoveOp(name) =>
      RemovedForStaysSound(ledger, name, ledger');
  }

  lemma RunStepStaysSound(max: int, states: seq<Ledger>, ops: seq<Op>, k: nat)
    requires Run(max, states, ops) && k < |ops| && Sound(states[k])
    ensures Sound(states[k + 1])
  {
    assert StepAt(max, states, ops, k);
    StepStaysSound(states[k], max, ops[k], states[k + 1]);
  }

  /** In every run from the empty ledger, whatever mix of adds, refusals, evictions, prunes
      and removals: the ID index is exact and each pair is capped. */
  lemma {:induction false} RunStaysSound(max: int, states: seq<Ledger>, ops: seq<Op>, k: nat)
    requires Run(max, states, ops) && states[0] == EmptyLedger && k < |states|
    ensures WellIndexed(states[k]) && PairCapped(states[k].events)
  {
    if k > 0 {
      RunStaysSound(max, states, ops, k - 1);
      RunStepStaysSound(max, states, ops, k - 1);
    }
  }

  // ---------- what the counts count ----------

  /** The observations held that `observer` made about `subject`. */
  function HeldAbout(events: seq<SyncEvent>, observer: NaraName, subject: NaraName): set<SyncEvent> {
    set e | e in events && e.payload.Observation? && e.payload.obs.observer == observer && e.payload.obs.subject == subject
  }

  /** Those of them that report no restart. */
  function NewsAbout(events: seq<SyncEvent>, observer: NaraName, subject: NaraName): set<SyncEvent> {
    set e | e in HeldAbout(events, observer, subject) && e.payload.Observation? && e.payload.obs.kind != Restart
  }

  lemma CountIsSize(events: seq<SyncEvent>, q: Query)
    requires DistinctIds(events)
    ensures Count(events, q) == |set e | e in events && Matches(q, e)|
  {
    var s := Matching(events, q);
    forall e ensures multiset(s)[e] <= multiset(events)[e] {
      MatchingMultiset(events, q, e);
    }
    ShrunkDistinctIds(events, s);
    DistinctCardinality(s);
    MatchingMembers(events, q);
    assert (set e | e in events && Matches(q, e)) == set e | e in s;
  }

  lemma CountsAbout(events: seq<SyncEvent>, observer: NaraName, subject: NaraName)
    requires DistinctIds(events)
    ensures Count(events, ObservationsOf(observer, subject)) == |HeldAbout(events, observer, subject)|
    ensures Count(events, NonRestartsOf(observer, subject)) == |NewsAbout(events, observer, subject)|
  {
    CountIsSize(events, ObservationsOf(observer, subject));
    CountIsSize(events, NonRestartsOf(observer, subject));
    assert HeldAbout(events, observer, subject) == set e | e in events && Matches(ObservationsOf(observer, subject), e);
    assert NewsAbout(events, observer, subject) == set e | e in events && Matches(NonRestartsOf(observer, subject), e);
  }

  /** In every run each observer holds at most 20 observations about each subject, or at most one of
      them reports no restart. */
  lemma PairsStayCapped(max: int, states: seq<Ledger>, ops: seq<Op>, k: nat, observer: NaraName, subject: NaraName)
    requires Run(max, states, ops) && states[0] == EmptyLedger && k < |states|
    ensures |HeldAbout(states[k].events, observer, subject)| <= 20 || |NewsAbout(states[k].events, observer, subject)| <= 1
  {
    RunStaysSound(max, states, ops, k);
    assert PairWithinCap(states[k].events, observer, subject);
    CountsAbout(states[k].events, observer, subject);
  }

  // ---------- retention ----------

  /** Short of removing a nara by name, a step loses no checkpoint, and loses a restart
      observation only if a checkpoint about its subject is held. */
  lemma StepRetains(ledger: Ledger, max: int, op: Op, ledger': Ledger)
    requires Sound(ledger) && Step(ledger, max, op, ledger') && !op.RemoveOp?
    ensures forall x :: x in ledger.events && x.payload.Checkpoint? ==> x in ledger'.events
    ensures forall x, s :: x in ledger.events && IsRestartOf(x, s) ==> x in ledger'.events || CheckpointHeld(ledger.events, s)
  {
    match op
    case AddOp(e, keys) =>
      var ok :| Add(ledger, max, keys, e, ledger', ok);
      if e.payload.Observation? {
        ObservationAddStaysSound(ledger, e, false, ledger', ok);
      } else {
        PlainAddStaysSound(ledger, max, keys, e, ledger', ok);
      }
    case DedupOp(e) =>
      var ok :| AddWithDedup(ledger, e, ledger', ok);
      ObservationAddStaysSound(ledger, e, true, ledger', ok);
    case PruneOp(keys) =>
      PrunedShrinks(ledger, max, keys, ledger');
  }

  ghost predicate NoRemovals(ops: seq<Op>) {
    forall op :: op in ops ==> !op.RemoveOp?
  }

  ghost predicate Remembered(ledger: Ledger, x: SyncEvent, s: NaraName) {
    && (IsCheckpointOf(x, s) ==> x in ledger.events)
    && (IsRestartOf(x, s) ==> x in ledger.events || CheckpointHeld(ledger.events, s))
  }

  lemma StepRemembers(ledger: Ledger, max: int, op: Op, ledger': Ledger, x: SyncEvent, s: NaraName)
    requires Sound(ledger) && Step(ledger, max, op, ledger') && !op.RemoveOp? && Remembered(ledger, x, s)
    ensures Remembered(ledger', x, s)
  {
    StepRetains(ledger, max, op, ledger');
    if IsRestartOf(x, s) && x !in ledger'.events {
      var c :| c in ledger.events && IsCheckpointOf(c, s);
      assert c in ledger'.events;
    }
  }

  lemma RunStepRemembers(max: int, states: seq<Ledger>, ops: seq<Op>, k: nat, x: SyncEvent, s: NaraName)
    requires Run(max, states, ops) && states[0] == EmptyLedger && NoRemovals(ops)
    requires k < |ops| && Remembered(states[k], x, s)
    ensures Remembered(states[k + 1], x, s)
  {
    RunStaysSound(max, states, ops, k);
    assert StepAt(max, states, ops, k);
    assert ops[k] in ops;
    StepRemembers(states[k], max, ops[k], states[k + 1], x, s);
  }

  /** Over any run without removals by name: a checkpoint once held is held for good, and a
      restart once held is still held unless some checkpoint about its subject is. */
  lemma {:induction false} HistorySurvives(max: int, states: seq<Ledger>, ops: seq<Op>, j: nat, k: nat, x: SyncEvent,
                                           s: NaraName)
    requires Run(max, states, ops) && states[0] == EmptyLedger && NoRemovals(ops)
    requires j <= k < |states| && x in states[j].events
    ensures IsCheckpointOf(x, s) ==> x in states[k].events
    ensures IsRestartOf(x, s) ==> x in states[k].events || CheckpointHeld(states[k].events, s)
  {
    if j < k {
      HistorySurvives(max, states, ops, j, k - 1, x, s);
      RunStepRemembers(max, states, ops, k - 1, x, s);
    }
  }
}
