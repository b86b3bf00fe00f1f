/** Projections: read models that follow the ledger with an index and a version number.

    A projection remembers how many events it has handled and the structural version of
    the ledger at its last complete run. This module proves when that is enough to agree
    with a full replay of the events now held.
 */
module Projections {
  import opened Events
  import opened Sorting
  import opened LedgerSpec
  import opened LedgerInvariants
  import opened SyncLedgers

  function Fold<S>(handler: (S, SyncEvent) -> S, initial: S, s: seq<SyncEvent>): S {
    if s == [] then initial else handler(Fold(handler, initial, s[..|s| - 1]), s[|s| - 1])
  }

  /** A projection, seen as the events its state has handled since the last reset. */
  datatype Replay = Replay(processed: seq<SyncEvent>, position: nat, lastVersion: int)

  const FreshReplay := Replay([], 0, -1)

  ghost predicate NeedsReset(p: Replay, ledger: Ledger) {
    ledger.version != p.lastVersion && p.lastVersion >= 0
  }

  /** A run starts over with all events in time order, or goes on where it stopped. */
  ghost predicate Feed(ledger: Ledger, p: Replay, start: Replay, todo: seq<SyncEvent>) {
    if NeedsReset(p, ledger) then start == Replay([], 0, p.lastVersion) && SortedArrangement(ledger.events, todo, ByTimestamp())
    else start == p && todo == if p.position >= |ledger.events| then [] else ledger.events[p.position..]
  }

  /** How many events a run has to do. */
  function Backlog(ledger: Ledger, p: Replay): nat {
    if ledger.version != p.lastVersion && p.lastVersion >= 0 then |ledger.events|
    else if p.position >= |ledger.events| then 0 else |ledger.events| - p.position
  }

  lemma BacklogIsTodo(ledger: Ledger, p: Replay, start: Replay, todo: seq<SyncEvent>)
    requires Feed(ledger, p, start, todo)
    ensures |todo| == Backlog(ledger, p)
  {
    if NeedsReset(p, ledger) {
      SameElements(ledger.events, todo);
    }
  }

  /** After the first `n` of the events to do; the version is recorded only at the end. */
  function Handled(start: Replay, todo: seq<SyncEvent>, n: nat, version: int): Replay
    requires n <= |todo|
  {
    Replay(start.processed + todo[..n], start.position + n, if n == |todo| then version else start.lastVersion)
  }

  ghost predicate RanTo(ledger: Ledger, p: Replay, start: Replay, todo: seq<SyncEvent>, n: nat, p': Replay) {
    Feed(ledger, p, start, todo) && n <= |todo| && p' == Handled(start, todo, n, ledger.version)
  }

  /** A run cut short after `n` events, if there were more than that. */
  ghost predicate Ran(ledger: Ledger, p: Replay, limit: nat, p': Replay) {
    exists start, todo, n: nat :: RanTo(ledger, p, start, todo, n, p') && (n == |todo| || n == limit < |todo|)
  }

  ghost predicate RanComplete(ledger: Ledger, p: Replay, p': Replay) {
    exists start, todo :: RanTo(ledger, p, start, todo, |todo|, p')
  }

  /** The projection's state is a replay of everything held. */
  ghost predicate UpToDate(ledger: Ledger, p: Replay) {
    multiset(p.processed) == multiset(ledger.events) && p.position == |ledger.events| && p.lastVersion == ledger.version
  }

  // ---------- the engine ----------

  /** Runs take their events and version from the ledger in one read, so a run is atomic at
      that read; the ledger does not change inside these methods. */
  class Projection<S> {
    const ledger: SyncLedger
    const handler: (S, SyncEvent) -> S
    const initial: S
    var state: S
    var position: nat
    var lastVersion: int
    ghost var processed: seq<SyncEvent>

    ghost predicate Valid()
      reads this
    {
      state == Fold(handler, initial, processed)
    }

    ghost function View(): Replay
      reads this
    {
      Replay(processed, position, lastVersion)
    }

    constructor (ledger: SyncLedger, handler: (S, SyncEvent) -> S, initial: S)
      ensures Valid() && View() == FreshReplay
      ensures this.ledger == ledger && this.handler == handler && this.initial == initial
    {
      this.ledger, this.handler, this.initial := ledger, handler, initial;
      state, position, lastVersion, processed := initial, 0, -1, [];
    }

    method FetchEvents() returns (todo: seq<SyncEvent>, currentVersion: int)
      requires Valid()
      modifies this
      ensures Valid() && currentVersion == ledger.version
      ensures Feed(ledger.View(), old(View()), View(), todo)
    {
      var total;
      todo, total, currentVersion := ledger.GetEventsSince(position);
      if currentVersion != lastVersion && lastVersion >= 0 {
        position, state, processed := 0, initial, [];
        todo, total, currentVersion := ledger.GetEventsSince(0);
        todo := SortSlice(todo, ByTimestamp());
      }
    }

    /** Handles what is new; starts over if the ledger was restructured. */
    method RunOnce() returns (ran: bool)
      requires Valid()
      modifies this
      ensures Valid()
      ensures RanComplete(ledger.View(), old(View()), View())
      ensures ran <==> Backlog(ledger.View(), old(View())) > 0
    {
      var todo, currentVersion := FetchEvents();
      ghost var start := View();
      BacklogIsTodo(ledger.View(), old(View()), start, todo);
      HandleAll(todo, |todo|);
      lastVersion := currentVersion;
      ran := |todo| > 0;
      assert RanTo(ledger.View(), old(View()), start, todo, |todo|, View());
    }

    /** Like `RunOnce`, but a cancelled context stops it after `cancelAfter` events. */
    method RunToEnd(cancelAfter: nat) returns (completed: bool)
      requires Valid()
      modifies this
      ensures Valid()
      ensures Ran(ledger.View(), old(View()), cancelAfter, View())
      ensures completed <==> Backlog(ledger.View(), old(View())) <= cancelAfter
      ensures completed ==> RanComplete(ledger.View(), old(View()), View())
    {
      var todo, currentVersion := FetchEvents();
      ghost var start := View();
      BacklogIsTodo(ledger.View(), old(View()), start, todo);
      completed := |todo| <= cancelAfter;
      var n := if completed then |todo| else cancelAfter;
      HandleAll(todo, n);
      if completed {
        lastVersion := currentVersion;
      }
      assert RanTo(ledger.View(), old(View()), start, todo, n, View());
    }

    method HandleAll(todo: seq<SyncEvent>, n: nat)
      requires Valid() && n <= |todo|
      modifies this`state, this`position, this`processed
      ensures Valid()
      ensures processed == old(processed) + todo[..n] && position == old(position) + n
    {
      var start := position;
      for i := 0 to n
        invariant Valid()
        invariant processed == old(processed) + todo[..i] && position == start + i
      {
        state := handler(state, todo[i]);
        position := start + i + 1;
        processed := processed + [todo[i]];
        assert processed[..|processed| - 1] == old(processed) + todo[..i];
      }
    }

    /** The wrappers clear their derived state together with the position; the recorded
        version stays. */
    method Reset()
      modifies this
      ensures Valid() && View() == Replay([], 0, old(lastVersion))
    {
      state, position, processed := initial, 0, [];
    }
  }

  // ---------- agreement with a full replay ----------

  /** Unless a reset is due, the handled events are a rearrangement of the first `position`
      events of the ledger. */
  ghost predicate Tracks(ledger: Ledger, p: Replay) {
    && -1 <= p.lastVersion <= ledger.version
    && (!NeedsReset(p, ledger) ==> SamePrefix(ledger, p))
  }

  ghost predicate SamePrefix(ledger: Ledger, p: Replay) {
    p.position <= |ledger.events| && multiset(p.processed) == multiset(ledger.events[..p.position])
  }

  lemma FeedTracks(ledger: Ledger, p: Replay, start: Replay, todo: seq<SyncEvent>)
    requires Tracks(ledger, p) && Feed(ledger, p, start, todo)
    ensures multiset(start.processed + todo) == multiset(ledger.events)
    ensures start.position + |todo| == |ledger.events|
    ensures !NeedsReset(p, ledger) ==> start == p && todo == ledger.events[p.position..]
  {
    if NeedsReset(p, ledger) {
      SameElements(ledger.events, todo);
      assert start.processed + todo == todo;
    } else {
      assert ledger.events == ledger.events[..p.position] + ledger.events[p.position..];
    }
  }

  /** A complete run of a tracking projection brings it up to date. */
  lemma CompleteRunCatchesUp(ledger: Ledger, p: Replay, p': Replay)
    requires Tracks(ledger, p) && RanComplete(ledger, p, p')
    ensures UpToDate(ledger, p') && Tracks(ledger, p')
  {
    var start, todo :| RanTo(ledger, p, start, todo, |todo|, p');
    FeedTracks(ledger, p, start, todo);
    assert todo[..|todo|] == todo && ledger.events[..|ledger.events|] == ledger.events;
  }

  /** The oldest held events, in time order. */
  ghost predicate OldestFirst(held: seq<SyncEvent>, handled: seq<SyncEvent>) {
    && multiset(handled) <= multiset(held)
    && (forall i, j :: 0 <= i < j < |handled| ==> handled[i].timestamp <= handled[j].timestamp)
    && forall e, x :: e in held && e !in handled && x in handled ==> x.timestamp <= e.timestamp
  }

  lemma StartedOver(ledger: Ledger, p: Replay, start: Replay, todo: seq<SyncEvent>, n: nat, p': Replay)
    requires RanTo(ledger, p, start, todo, n, p') && ledger.version != p.lastVersion && p.lastVersion >= 0
    ensures OldestFirst(ledger.events, p'.processed) && p'.position == |p'.processed| == n && |todo| == |ledger.events|
  {
    SameElements(ledger.events, todo);
    StartsOldest(ledger.events, todo, n);
    assert p'.processed == todo[..n];
  }

  lemma WentOn(ledger: Ledger, p: Replay, start: Replay, todo: seq<SyncEvent>, n: nat, p': Replay)
    requires RanTo(ledger, p, start, todo, n, p') && (ledger.version == p.lastVersion || p.lastVersion < 0)
    requires p.position <= |ledger.events|
    ensures p'.position == p.position + n && |todo| == |ledger.events| - p.position
    ensures p'.processed == p.processed + ledger.events[p.position..p'.position]
  {
    assert todo[..n] == ledger.events[p.position..p.position + n];
  }

  /** In what order a run handles events. If the version has moved since the last complete run, it starts
      over, with the oldest; otherwise it goes on, in ledger order, with those it has not handled
      yet. It records the version when it has handled all, and only then. */
  lemma RunOrder(ledger: Ledger, p: Replay, limit: nat, p': Replay)
    requires Ran(ledger, p, limit, p') && p.position <= |ledger.events|
    ensures ledger.version != p.lastVersion && p.lastVersion >= 0 ==>
              OldestFirst(ledger.events, p'.processed) && p'.position == |p'.processed|
    ensures ledger.version == p.lastVersion || p.lastVersion < 0 ==>
              && p.position <= p'.position <= |ledger.events|
              && p'.processed == p.processed + ledger.events[p.position..p'.position]
    ensures p'.lastVersion == if p'.position == |ledger.events| then ledger.version else p.lastVersion
  {
    var start, todo, n: nat :| RanTo(ledger, p, start, todo, n, p') && (n == |todo| || n == limit < |todo|);
    if NeedsReset(p, ledger) {
      StartedOver(ledger, p, start, todo, n, p');
    } else {
      WentOn(ledger, p, start, todo, n, p');
    }
  }

  lemma AnyRunTracks(ledger: Ledger, p: Replay, limit: nat, p': Replay)
    requires Tracks(ledger, p) && Ran(ledger, p, limit, p')
    ensures Tracks(ledger, p')
  {
    var start, todo, n: nat :| RanTo(ledger, p, start, todo, n, p') && (n == |todo| || n == limit < |todo|);
    if n == |todo| {
      assert RanTo(ledger, p, start, todo, |todo|, p');
      CompleteRunCatchesUp(ledger, p, p');
    } else if !NeedsReset(p, ledger) {
      FeedTracks(ledger, p, start, todo);
      PartialFeed(ledger.events, p.position, n);
    }
  }

  lemma PartialFeed(s: seq<SyncEvent>, position: nat, n: nat)
    requires position + n <= |s|
    ensures s[..position + n] == s[..position] + s[position..][..n]
  {
  }

  /** The two ways a ledger step can leave a projection stale, stated on the states around it:
      a reorder without a version bump while the projection is in the middle of the log, or
      any restructuring before its first run completed. */
  ghost predicate Harmless(ledger: Ledger, ledger': Ledger, p: Replay) {
    || NeedsReset(p, ledger)
    || p.position == 0
    || (ledger'.version > ledger.version && p.lastVersion >= 0)
    || (ledger'.version == ledger.version && (ledger.events <= ledger'.events || p.position == |ledger.events| == |ledger'.events|))
  }

  // What a step does to the order of events, as far as the version tells.

  lemma PrunedShape(ledger: Ledger, max: int, keys: KeyRing, ledger': Ledger)
    requires WellIndexed(ledger) && Pruned(ledger, max, keys, ledger')
    ensures ledger.version <= ledger'.version
    ensures ledger'.version == ledger.version ==> multiset(ledger'.events) == multiset(ledger.events)
    ensures ledger'.version == ledger.version ==> ledger.events <= ledger'.events || |ledger'.events| > max
  {
    if |ledger.events| > max {
      var order, n: nat :| PruneOutcome(ledger, max, keys, order, n, ledger');
      SameElements(ledger.events, order);
    }
  }

  lemma PlainAddShape(ledger: Ledger, max: int, keys: KeyRing, e: SyncEvent, ledger': Ledger, ok: bool)
    requires Sound(ledger) && e.id != "" && !e.payload.Observation? && PlainAdd(ledger, max, keys, e, ledger', ok)
    ensures ledger.version <= ledger'.version
    ensures ledger'.version == ledger.version ==> multiset(ledger.events) <= multiset(ledger'.events)
    ensures ledger'.version == ledger.version ==> ledger.events <= ledger'.events || |ledger'.events| > max
  {
    if !Unwelcome(ledger, e) {
      var room, refused :| PlainAddVia(ledger, max, keys, e, room, refused, ledger', ok);
      RoomStaysSound(ledger, e, room, refused);
      if !refused {
        AppendPlainSound(room, e);
        if max > 0 {
          PrunedShape(Appended(room, e), max, keys, ledger');
        }
      }
    }
  }

  lemma ObservationAddShape(ledger: Ledger, e: SyncEvent, dedup: bool, ledger': Ledger, ok: bool)
    requires e.payload.Observation? && ObservationAdd(ledger, e, dedup, ledger', ok)
    ensures ledger.version <= ledger'.version
    ensures ledger'.version == ledger.version ==> multiset(ledger.events) <= multiset(ledger'.events)
    ensures ledger'.version == ledger.version ==> ledger.events <= ledger'.events
  {
  }

  lemma {:induction false} MatchingEverything(s: seq<SyncEvent>, q: Query)
    requires Count(s, q) == |s|
    ensures Matching(s, q) == s
  {
    if s != [] {
      CountWithinLength(s[..|s| - 1], q);
      MatchingEverything(s[..|s| - 1], q);
    }
  }

  /** A step that does not bump the version loses no event, and leaves the order alone unless
      the ledger is over its limit afterwards. */
  lemma StepShape(ledger: Ledger, max: int, op: Op, ledger': Ledger)
    requires Sound(ledger) && Step(ledger, max, op, ledger')
    ensures ledger.version <= ledger'.version
    ensures ledger'.version == ledger.version ==> multiset(ledger.events) <= multiset(ledger'.events)
    ensures ledger'.version == ledger.version ==> ledger.events <= ledger'.events || |ledger'.events| > max
  {
    match op
    case AddOp(e, keys) =>
      var ok :| Add(ledger, max, keys, e, ledger', ok);
      if e.payload.Observation? {
        ObservationAddShape(ledger, e, false, ledger', ok);
      } else {
        PlainAddShape(ledger, max, keys, e, ledger', ok);
      }
    case DedupOp(e) =>
      var ok :| AddWithDedup(ledger, e, ledger', ok);
      ObservationAddShape(ledger, e, true, ledger', ok);
    case PruneOp(keys) =>
      PrunedShape(ledger, max, keys, ledger');
    case RemoveOp(name) =>
      CountWithinLength(ledger.events, NotInvolving(name));
      if |ledger'.events| == |ledger.events| {
        MatchingEverything(ledger.events, NotInvolving(name));
      }
  }

  /** A harmless step keeps the projection tracking. */
  lemma HarmlessStepTracks(ledger: Ledger, max: int, op: Op, ledger': Ledger, p: Replay)
    requires Sound(ledger) && Step(ledger, max, op, ledger') && Tracks(ledger, p) && Harmless(ledger, ledger', p)
    ensures Tracks(ledger', p)
  {
    StepShape(ledger, max, op, ledger');
    if !NeedsReset(p, ledger) && !NeedsReset(p, ledger') && p.position > 0 {
      if ledger.events <= ledger'.events {
        assert ledger'.events[..p.position] == ledger.events[..p.position];
      } else {
        assert |multiset(ledger.events)| == |ledger.events| && |multiset(ledger'.events)| == |ledger'.events|;
        SubMultisetSize(multiset(ledger.events), multiset(ledger'.events));
        assert ledger.events[..p.position] == ledger.events && ledger'.events[..p.position] == ledger'.events;
      }
    }
  }

  /** So once a projection has completed a run, only a step that leaves the ledger over its
      limit can harm it. */
  lemma HarmlessWithinLimit(ledger: Ledger, max: int, op: Op, ledger': Ledger, p: Replay)
    requires Sound(ledger) && Step(ledger, max, op, ledger')
    requires p.lastVersion >= 0 && |ledger'.events| <= max
    ensures Harmless(ledger, ledger', p)
  {
    StepShape(ledger, max, op, ledger');
  }

  /** The exact condition. The ledger moved from `ledger` to `ledger'` under a projection that tracked
      `ledger`; its next complete run ends up to date if and only if it starts over or the first
      `position` events are still the same ones. */
  lemma CatchesUpIff(ledger: Ledger, ledger': Ledger, p: Replay, p': Replay)
    requires Tracks(ledger, p) && !NeedsReset(p, ledger) && RanComplete(ledger', p, p')
    ensures UpToDate(ledger', p') <==>
            || NeedsReset(p, ledger')
            || (p.position <= |ledger'.events| && multiset(ledger'.events[..p.position]) == multiset(ledger.events[..p.position]))
  {
    var start, todo :| RanTo(ledger', p, start, todo, |todo|, p');
    assert todo[..|todo|] == todo;
    if NeedsReset(p, ledger') {
      SameElements(ledger'.events, todo);
    } else if p.position <= |ledger'.events| {
      assert ledger'.events == ledger'.events[..p.position] + ledger'.events[p.position..];
      assert multiset(p'.processed) == multiset(ledger.events[..p.position]) + multiset(todo);
      assert multiset(ledger'.events) == multiset(ledger'.events[..p.position]) + multiset(todo);
      CancelRight(multiset(ledger.events[..p.position]), multiset(ledger'.events[..p.position]), multiset(todo));
    }
  }

  lemma CancelRight<T>(a: multiset<T>, b: multiset<T>, c: multiset<T>)
    ensures a + c == b + c <==> a == b
  {
    if a + c == b + c {
      assert a == (a + c) - c && b == (b + c) - c;
    }
  }

  // ---------- whole runs ----------

  datatype WorldOp =
    | LedgerOp(op: Op)
    | RunOnceOp
    | RunToEndOp(cancelAfter: nat)
    | ResetOp

  datatype World = World(ledger: Ledger, proj: Replay)

  ghost predicate WorldStep(w: World, max: int, op: WorldOp, w': World) {
    match op
    case LedgerOp(o) => Step(w.ledger, max, o, w'.ledger) && w'.proj == w.proj
    case RunOnceOp => w'.ledger == w.ledger && RanComplete(w.ledger, w.proj, w'.proj)
    case RunToEndOp(n) => w'.ledger == w.ledger && Ran(w.ledger, w.proj, n, w'.proj)
    case ResetOp => w'.ledger == w.ledger && w'.proj == Replay([], 0, w.proj.lastVersion)
  }

  ghost predicate WorldStepAt(max: int, states: seq<World>, ops: seq<WorldOp>, i: nat)
    requires i < |ops| && |states| == |ops| + 1
  {
    && WorldStep(states[i], max, ops[i], states[i + 1])
    && (ops[i].LedgerOp? ==> Harmless(states[i].ledger, states[i + 1].ledger, states[i].proj))
  }

  /** A mix of ledger operations and projection runs, starting from an empty ledger and a
      projection that never ran, in which no ledger step was harmful. */
  ghost predicate HarmlessRun(max: int, states: seq<World>, ops: seq<WorldOp>) {
    && |states| == |ops| + 1
    && states[0] == World(EmptyLedger, FreshReplay)
    && forall i :: 0 <= i < |ops| ==> WorldStepAt(max, states, ops, i)
  }

  lemma WorldStepTracks(w: World, max: int, op: WorldOp, w': World)
    requires Sound(w.ledger) && Tracks(w.ledger, w.proj) && WorldStep(w, max, op, w')
    requires op.LedgerOp? ==> Harmless(w.ledger, w'.ledger, w.proj)
    ensures Sound(w'.ledger) && Tracks(w'.ledger, w'.proj)
    ensures op.RunOnceOp? ==> UpToDate(w'.ledger, w'.proj)
  {
    match op
    case LedgerOp(o) =>
      StepStaysSound(w.ledger, max, o, w'.ledger);
      HarmlessStepTracks(w.ledger, max, o, w'.ledger, w.proj);
    case RunOnceOp =>
      CompleteRunCatchesUp(w.ledger, w.proj, w'.proj);
    case RunToEndOp(n) =>
      AnyRunTracks(w.ledger, w.proj, n, w'.proj);
    case ResetOp =>
  }

  lemma RunStepTracks(max: int, states: seq<World>, ops: seq<WorldOp>, k: nat)
    requires HarmlessRun(max, states, ops) && k < |ops|
    requires Sound(states[k].ledger) && Tracks(states[k].ledger, states[k].proj)
    ensures Sound(states[k + 1].ledger) && Tracks(states[k + 1].ledger, states[k + 1].proj)
    ensures ops[k].RunOnceOp? ==> UpToDate(states[k + 1].ledger, states[k + 1].proj)
  {
    assert WorldStepAt(max, states, ops, k);
    WorldStepTracks(states[k], max, ops[k], states[k + 1]);
  }

  lemma {:induction false} RunTracks(max: int, states: seq<World>, ops: seq<WorldOp>, k: nat)
    requires HarmlessRun(max, states, ops) && k < |states|
    ensures Sound(states[k].ledger) && Tracks(states[k].ledger, states[k].proj)
  {
    if k > 0 {
      RunTracks(max, states, ops, k - 1);
      RunStepTracks(max, states, ops, k - 1);
    }
  }

  /** In every run mixing adds, refusals, evictions, removals by name, prunes, cancelled runs
      and resets, a projection that has just run has handled exactly the events now held. */
  lemma ReplayIsExact(max: int, states: seq<World>, ops: seq<WorldOp>, k: nat)
    requires HarmlessRun(max, states, ops) && k < |ops| && ops[k].RunOnceOp?
    ensures UpToDate(states[k + 1].ledger, states[k + 1].proj)
  {
    RunTracks(max, states, ops, k);
    RunStepTracks(max, states, ops, k);
  }
}
