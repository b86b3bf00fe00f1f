/** What the operations of the sync ledger do, as relations between ledger values.

    Relations, because the pruning sort leaves ties in any order. The class in
    `SyncLedgers` is proved to move only along these relations.
 */
module LedgerSpec {
  import opened Events
  import opened Sorting

  const MAX_PINGS_PER_TARGET := 5
  const MAX_OBSERVATIONS_PER_PAIR := 20

  datatype Ledger = Ledger(events: seq<SyncEvent>, ids: set<string>, version: int)

  const EmptyLedger := Ledger([], {}, 0)

  // ---------- queries ----------

  /** The selections that ledger operations make among held events. */
  datatype Query =
    | PingsTo(target: NaraName)
    | ObservationsOf(observer: NaraName, subject: NaraName)
    | NonRestartsOf(observer: NaraName, subject: NaraName)
    | NotInvolving(name: NaraName)
    | StatusChangesAfter(subject: NaraName, afterTime: int)
    | OpinionsOn(subject: NaraName)
    | Expendable(keys: KeyRing, unknownOnly: bool)
    | Page(since: int, services: seq<string>, subjects: seq<NaraName>)

  /** Whole seconds of a nanosecond timestamp; the source's division truncates toward zero. */
  function Seconds(timestamp: int): int {
    if timestamp >= 0 then timestamp / 1_000_000_000 else -(-timestamp / 1_000_000_000)
  }

  predicate Matches(q: Query, e: SyncEvent) {
    match q
    case PingsTo(target) => e.payload.Ping? && e.payload.target == target
    case ObservationsOf(observer, subject) =>
      e.payload.Observation? && e.payload.obs.observer == observer && e.payload.obs.subject == subject
    case NonRestartsOf(observer, subject) =>
      && e.payload.Observation? && e.payload.obs.observer == observer && e.payload.obs.subject == subject
      && !e.payload.obs.kind.Restart?
    case NotInvolving(name) => !Involves(e, name)
    case StatusChangesAfter(subject, afterTime) =>
      && e.payload.Observation? && e.payload.obs.subject == subject && e.payload.obs.kind.StatusChange?
      && !(afterTime > 0 && Seconds(e.timestamp) <= afterTime)
    case OpinionsOn(subject) =>
      && e.payload.Observation? && e.payload.obs.subject == subject
      && (e.payload.obs.kind.Restart? || e.payload.obs.kind.FirstSeen?)
    case Expendable(keys, unknownOnly) => !Critical(e) && (unknownOnly ==> FromUnknownNara(keys, e))
    case Page(since, services, subjects) =>
      && e.timestamp > since
      && (services == [] || Service(e.payload) in services)
      && (subjects == [] || GetActor(e) in subjects || GetTarget(e) in subjects)
  }

  function Matching(s: seq<SyncEvent>, q: Query): seq<SyncEvent> {
    if s == [] then []
    else
      var front, last := s[..|s| - 1], s[|s| - 1];
      if Matches(q, last) then Matching(front, q) + [last] else Matching(front, q)
  }

  function Count(s: seq<SyncEvent>, q: Query): nat {
    |Matching(s, q)|
  }

  /** The first of the oldest selected events. */
  ghost predicate Oldest(s: seq<SyncEvent>, q: Query, i: int) {
    && 0 <= i < |s| && Matches(q, s[i])
    && forall j :: 0 <= j < |s| && Matches(q, s[j]) ==>
         s[i].timestamp < s[j].timestamp || (s[i].timestamp == s[j].timestamp && i <= j)
  }

  lemma MatchingSnoc(s: seq<SyncEvent>, e: SyncEvent, q: Query)
    ensures Matching(s + [e], q) == Matching(s, q) + if Matches(q, e) then [e] else []
  {
  }

  lemma {:induction false} MatchingConcat(s: seq<SyncEvent>, t: seq<SyncEvent>, q: Query)
    ensures Matching(s + t, q) == Matching(s, q) + Matching(t, q)
  {
    if t == [] {
      assert s + t == s;
    } else {
      var front, last := t[..|t| - 1], t[|t| - 1];
      MatchingConcat(s, front, q);
      assert s + t == (s + front) + [last];
      MatchingSnoc(s + front, last, q);
      var tail := if Matches(q, last) then [last] else [];
      assert Matching(t, q) == Matching(front, q) + tail;
      assert Matching(s, q) + Matching(t, q) == (Matching(s, q) + Matching(front, q)) + tail;
    }
  }

  lemma {:induction false} MatchingMultiset(s: seq<SyncEvent>, q: Query, e: SyncEvent)
    ensures multiset(Matching(s, q))[e] == if Matches(q, e) then multiset(s)[e] else 0
  {
    if s != [] {
      var front, last := s[..|s| - 1], s[|s| - 1];
      assert s == front + [last];
      MatchingMultiset(front, q, e);
    }
  }

  lemma MatchingMembers(s: seq<SyncEvent>, q: Query)
    ensures forall e :: e in Matching(s, q) <==> e in s && Matches(q, e)
  {
  }

  /** Whole seconds toward zero. */
  lemma SecondsAre(timestamp: int)
    ensures timestamp >= 0 ==> 0 <= timestamp - 1_000_000_000 * Seconds(timestamp) < 1_000_000_000
    ensures timestamp < 0 ==> -1_000_000_000 < timestamp - 1_000_000_000 * Seconds(timestamp) <= 0
  {
  }

  /** Rearranging a sequence rearranges every selection of it. */
  lemma MatchingRearranged(s: seq<SyncEvent>, t: seq<SyncEvent>, q: Query)
    requires multiset(s) == multiset(t)
    ensures multiset(Matching(s, q)) == multiset(Matching(t, q))
    ensures Count(s, q) == Count(t, q)
  {
    forall e ensures multiset(Matching(s, q))[e] == multiset(Matching(t, q))[e] {
      MatchingMultiset(s, q, e);
      MatchingMultiset(t, q, e);
    }
    assert multiset(Matching(s, q)) == multiset(Matching(t, q));
    SameElements(Matching(s, q), Matching(t, q));
  }

  lemma {:induction false} CountWithinLength(s: seq<SyncEvent>, q: Query)
    ensures Count(s, q) <= |s|
  {
    if s != [] {
      CountWithinLength(s[..|s| - 1], q);
    }
  }

  // ---------- states ----------

  function IdsOf(s: seq<SyncEvent>): set<string> {
    set e | e in s :: e.id
  }

  ghost predicate DistinctIds(s: seq<SyncEvent>) {
    forall i, j :: 0 <= i < j < |s| ==> s[i].id != s[j].id
  }

  /** The index is exact, no ID is held twice, and everything held passed the checks at the door. */
  ghost predicate WellIndexed(ledger: Ledger) {
    && ledger.ids == IdsOf(ledger.events)
    && DistinctIds(ledger.events)
    && ledger.version >= 0
    && forall e :: e in ledger.events ==> IsValid(e) && e.id != "" && !FilteredCheckpoint(e)
  }

  /** For each pair at most 20 observations are held, or at most one of them is not a restart. */
  ghost predicate PairCapped(events: seq<SyncEvent>) {
    forall o, s :: PairWithinCap(events, o, s)
  }

  ghost predicate PairWithinCap(events: seq<SyncEvent>, o: NaraName, s: NaraName) {
    || Count(events, ObservationsOf(o, s)) <= MAX_OBSERVATIONS_PER_PAIR
    || Count(events, NonRestartsOf(o, s)) <= 1
  }

  ghost predicate CheckpointHeld(events: seq<SyncEvent>, subject: NaraName) {
    exists e :: e in events && IsCheckpointOf(e, subject)
  }

  // ---------- single moves ----------

  function RemoveAt(ledger: Ledger, i: nat): Ledger
    requires i < |ledger.events|
  {
    Ledger(ledger.events[..i] + ledger.events[i + 1..], ledger.ids - {ledger.events[i].id}, ledger.version + 1)
  }

  function Appended(ledger: Ledger, e: SyncEvent): Ledger {
    Ledger(ledger.events + [e], ledger.ids + {e.id}, ledger.version)
  }

  /** Order in which pruning gives events up: unknown naras first, then the least
      important, then the oldest. */
  function PruneOrder(keys: KeyRing): SyncEvent -> Rank {
    (e: SyncEvent) => Rank(if FromUnknownNara(keys, e) then 0 else 1, -PruningPriority(e), e.timestamp)
  }

  function ByTimestamp(): SyncEvent -> Rank {
    (e: SyncEvent) => ByNumber(e.timestamp)
  }

  lemma AscendingTimes(s: seq<SyncEvent>)
    requires Sorted(s, ByTimestamp())
    ensures forall i, j :: 0 <= i < j < |s| ==> s[i].timestamp <= s[j].timestamp
  {
    forall i, j | 0 <= i < j < |s| ensures s[i].timestamp <= s[j].timestamp {
      assert !Below(ByTimestamp()(s[j]), ByTimestamp()(s[i]));
    }
  }

  lemma StartsOldest(s: seq<SyncEvent>, sorted: seq<SyncEvent>, n: nat)
    requires SortedArrangement(s, sorted, ByTimestamp()) && n <= |sorted|
    ensures multiset(sorted[..n]) <= multiset(s)
    ensures forall i, j :: 0 <= i < j < n ==> sorted[..n][i].timestamp <= sorted[..n][j].timestamp
    ensures forall e, x :: e in s && e !in sorted[..n] && x in sorted[..n] ==> x.timestamp <= e.timestamp
  {
    SameElements(s, sorted);
    SortedSplit(sorted, ByTimestamp(), n);
    AscendingTimes(sorted[..n]);
    assert sorted == sorted[..n] + sorted[n..];
    forall e, x | e in s && e !in sorted[..n] && x in sorted[..n] ensures x.timestamp <= e.timestamp {
      assert e in sorted[n..];
    }
  }

  /** How many events at the front of the pruning order go: up to the excess, and never
      past the first critical event. */
  ghost predicate PruneLength(order: seq<SyncEvent>, max: int, n: nat) {
    && n <= |order| && n <= |order| - max
    && (forall i :: 0 <= i < n ==> !Critical(order[i]))
    && (n == |order| || n == |order| - max || Critical(order[n]))
  }

  ghost predicate PruneOutcome(ledger: Ledger, max: int, keys: KeyRing, order: seq<SyncEvent>, n: nat,
                               ledger': Ledger) {
    && SortedArrangement(ledger.events, order, PruneOrder(keys))
    && PruneLength(order, max, n)
    && if n == 0 then ledger' == Ledger(order, ledger.ids, ledger.version)
       else && SortedArrangement(order[n..], ledger'.events, ByTimestamp())
            && ledger'.ids == ledger.ids - IdsOf(order[..n])
            && ledger'.version == ledger.version + 1
  }

  ghost predicate Pruned(ledger: Ledger, max: int, keys: KeyRing, ledger': Ledger) {
    if |ledger.events| <= max then ledger' == ledger
    else exists order, n: nat :: PruneOutcome(ledger, max, keys, order, n, ledger')
  }

  // ---------- operations ----------

  ghost predicate Stored(ledger: Ledger, max: int, keys: KeyRing, e: SyncEvent, ledger': Ledger) {
    if max > 0 then Pruned(Appended(ledger, e), max, keys, ledger') else ledger' == Appended(ledger, e)
  }

  /** The ledger after making room for a ping: `None` when the ping is refused as too old. */
  ghost predicate RoomForPing(ledger: Ledger, target: NaraName, timestamp: int, room: Ledger, refused: bool) {
    if Count(ledger.events, PingsTo(target)) < MAX_PINGS_PER_TARGET then room == ledger && !refused
    else exists i: nat :: RoomByEvicting(ledger, target, timestamp, i, room, refused)
  }

  ghost predicate RoomByEvicting(ledger: Ledger, target: NaraName, timestamp: int, i: nat, room: Ledger,
                                 refused: bool) {
    && Oldest(ledger.events, PingsTo(target), i)
    && refused == (timestamp <= ledger.events[i].timestamp)
    && room == if refused then ledger else RemoveAt(ledger, i)
  }

  ghost predicate Room(ledger: Ledger, e: SyncEvent, room: Ledger, refused: bool) {
    if e.payload.Ping? then RoomForPing(ledger, e.payload.target, e.timestamp, room, refused)
    else room == ledger && !refused
  }

  ghost predicate Unwelcome(ledger: Ledger, e: SyncEvent) {
    !IsValid(e) || FilteredCheckpoint(e) || e.id in ledger.ids
  }

  ghost predicate PlainAdd(ledger: Ledger, max: int, keys: KeyRing, e: SyncEvent, ledger': Ledger, ok: bool) {
    if Unwelcome(ledger, e) then ledger' == ledger && !ok
    else exists room, refused :: PlainAddVia(ledger, max, keys, e, room, refused, ledger', ok)
  }

  ghost predicate PlainAddVia(ledger: Ledger, max: int, keys: KeyRing, e: SyncEvent, room: Ledger, refused: bool,
                              ledger': Ledger, ok: bool) {
    && Room(ledger, e, room, refused)
    && ok == !refused
    && if refused then ledger' == ledger else Stored(room, max, keys, e, ledger')
  }

  /** Content-based deduplication: the restart, or the observer's first sighting, is already recorded. */
  predicate SameReport(a: ObservationPayload, b: ObservationPayload) {
    || (a.kind.Restart? && b.kind.Restart?
        && a.subject == b.subject && a.restartNum == b.restartNum && a.startTime == b.startTime)
    || (a.kind.FirstSeen? && b.kind.FirstSeen? && a.observer == b.observer && a.subject == b.subject)
  }

  ghost predicate AlreadyReported(events: seq<SyncEvent>, o: ObservationPayload) {
    exists e :: e in events && e.payload.Observation? && SameReport(o, e.payload.obs)
  }

  /** The observation that makes way in a full pair: its oldest non-restart; failing that its
      oldest restart, but only once a checkpoint about the subject is held. */
  ghost predicate IsVictim(events: seq<SyncEvent>, o: ObservationPayload, i: int) {
    if Count(events, NonRestartsOf(o.observer, o.subject)) > 0
    then Oldest(events, NonRestartsOf(o.observer, o.subject), i)
    else CheckpointHeld(events, o.subject) && Oldest(events, ObservationsOf(o.observer, o.subject), i)
  }

  ghost predicate Compacted(ledger: Ledger, o: ObservationPayload, ledger': Ledger) {
    if Count(ledger.events, ObservationsOf(o.observer, o.subject)) < MAX_OBSERVATIONS_PER_PAIR then ledger' == ledger
    else if Count(ledger.events, NonRestartsOf(o.observer, o.subject)) == 0 && !CheckpointHeld(ledger.events, o.subject)
    then ledger' == ledger
    else exists i: nat :: i < |ledger.events| && IsVictim(ledger.events, o, i) && ledger' == RemoveAt(ledger, i)
  }

  ghost predicate ObservationAdd(ledger: Ledger, e: SyncEvent, dedup: bool, ledger': Ledger, ok: bool)
    requires e.payload.Observation?
  {
    if dedup && AlreadyReported(ledger.events, e.payload.obs) then ledger' == ledger && !ok
    else exists room :: ObservationAddVia(ledger, e, room, ledger', ok)
  }

  ghost predicate ObservationAddVia(ledger: Ledger, e: SyncEvent, room: Ledger, ledger': Ledger, ok: bool)
    requires e.payload.Observation?
  {
    && Compacted(ledger, e.payload.obs, room)
    && ok == (IsValid(e) && e.id !in room.ids)
    && ledger' == if ok then Appended(room, e) else room
  }

  ghost predicate Add(ledger: Ledger, max: int, keys: KeyRing, e: SyncEvent, ledger': Ledger, ok: bool) {
    if e.payload.Observation? then ObservationAdd(ledger, e, false, ledger', ok)
    else PlainAdd(ledger, max, keys, e, ledger', ok)
  }

  ghost predicate AddWithDedup(ledger: Ledger, e: SyncEvent, ledger': Ledger, ok: bool)
    requires e.payload.Observation?
  {
    ObservationAdd(ledger, e, true, ledger', ok)
  }

  ghost predicate RemovedFor(ledger: Ledger, name: NaraName, ledger': Ledger) {
    && ledger'.events == Matching(ledger.events, NotInvolving(name))
    && ledger'.ids == IdsOf(ledger'.events)
    && ledger'.version == ledger.version + if |ledger'.events| < |ledger.events| then 1 else 0
  }

  /** Merging a batch: one filtered or attempted `AddEvent` after another. */
  ghost predicate Merged(ledger: Ledger, max: int, keys: KeyRing, batch: seq<SyncEvent>, ledger': Ledger, added: nat)
    decreases |batch|, 1
  {
    if batch == [] then ledger' == ledger && added == 0
    else if FilteredCheckpoint(batch[|batch| - 1]) then Merged(ledger, max, keys, batch[..|batch| - 1], ledger', added)
    else exists mid, before: nat, ok :: MergeStep(ledger, max, keys, batch, mid, before, ok, ledger', added)
  }

  ghost predicate MergeStep(ledger: Ledger, max: int, keys: KeyRing, batch: seq<SyncEvent>, mid: Ledger, before: nat,
                            ok: bool,
                            ledger': Ledger, added: nat)
    requires batch != []
    decreases |batch|, 0
  {
    && Merged(ledger, max, keys, batch[..|batch| - 1], mid, before)
    && Add(mid, max, keys, WithID(batch[|batch| - 1]), ledger', ok)
    && added == before + if ok then 1 else 0
  }

  /** One operation of the ledger's interface that can change it; events have their IDs. The unknown-nara callback
      may answer differently each time. */
  datatype Op =
    | AddOp(e: SyncEvent, keys: KeyRing)
    | DedupOp(e: SyncEvent)
    | PruneOp(keys: KeyRing)
    | RemoveOp(name: NaraName)

  ghost predicate Step(ledger: Ledger, max: int, op: Op, ledger': Ledger) {
    match op
    case AddOp(e, keys) => e.id != "" && exists ok :: Add(ledger, max, keys, e, ledger', ok)
    case DedupOp(e) => e.id != "" && e.payload.Observation? && exists ok :: AddWithDedup(ledger, e, ledger', ok)
    case PruneOp(keys) => Pruned(ledger, max, keys, ledger')
    case RemoveOp(name) => RemovedFor(ledger, name, ledger')
  }

  /** A history of the ledger: `states[i + 1]` results from `ops[i]` in `states[i]`. */
  ghost predicate Run(max: int, states: seq<Ledger>, ops: seq<Op>) {
    && |states| == |ops| + 1
    && forall i :: 0 <= i < |ops| ==> StepAt(max, states, ops, i)
  }

  ghost predicate StepAt(max: int, states: seq<Ledger>, ops: seq<Op>, i: nat)
    requires i < |ops| && |states| == |ops| + 1
  {
    Step(states[i], max, ops[i], states[i + 1])
  }
}
