/** Copies of an event that are not equal.

    An event's ID is a hash of its timestamp, service and a text made from its payload. That text
    leaves things out: the emitter, and of a checkpoint its voters, signatures and round, the
    exact version, and in version 1 the ID of the checkpoint before it. So naras may emit what
    counts as one event in several copies, and each ledger keeps the copy it saw first. The
    theorems of `Convergence` hold up to that: nothing the ledger does with an add reads what
    the text leaves out, so a run is also a run of the same events with all that left out. */
module Replicas {
  import opened Events
  import opened Sorting
  import opened LedgerSpec
  import opened LedgerInvariants
  import opened Convergence

  function Bare(e: SyncEvent): SyncEvent {
    e.(emitter := "", payload := if e.payload.Checkpoint? then Checkpoint(BareCheckpoint(e.payload.cp)) else e.payload)
  }

  /** Only whether there are as many signatures as voters is kept, since validity depends on it. */
  function BareCheckpoint(cp: CheckpointPayload): CheckpointPayload {
    var first := cp.version == 0 || cp.version == 1;
    CheckpointPayload(
      if first then 1 else 2,
      cp.subject,
      if cp.subjectID == "" then cp.subject else cp.subjectID,
      if first then "" else cp.previousCheckpointID,
      cp.observation,
      cp.asOfTime,
      1,
      [],
      if |cp.voterIDs| == |cp.signatures| then [] else [Unsigned("")])
  }

  /** Nothing is left out that the hashed text shows: copies alike up to that have one ID. */
  lemma CopiesShareID(a: SyncEvent, b: SyncEvent)
    requires a.timestamp == b.timestamp && Bare(a).payload == Bare(b).payload
    ensures ComputeID(a) == ComputeID(b)
  {
    assert ComputeID(Bare(a)) == ComputeID(a) && ComputeID(Bare(b)) == ComputeID(b);
  }

  function BareEvents(s: seq<SyncEvent>): seq<SyncEvent> {
    seq(|s|, i requires 0 <= i < |s| => Bare(s[i]))
  }

  function BareLedger(ledger: Ledger): Ledger {
    Ledger(BareEvents(ledger.events), ledger.ids, ledger.version)
  }

  function BareOp(op: Op): Op {
    match op
    case AddOp(e, keys) => AddOp(Bare(e), keys)
    case DedupOp(e) => DedupOp(Bare(e))
    case PruneOp(keys) => op
    case RemoveOp(name) => op
  }

  function BareSet(events: set<SyncEvent>): set<SyncEvent> {
    set e | e in events :: Bare(e)
  }

  // ---------- queries do not read what is left out ----------

  predicate Emitterless(q: Query) {
    !q.NotInvolving?
  }

  lemma BareMatches(q: Query, e: SyncEvent)
    requires Emitterless(q)
    ensures Matches(q, Bare(e)) <==> Matches(q, e)
  {
  }

  lemma {:induction false} BareCount(s: seq<SyncEvent>, q: Query)
    requires Emitterless(q)
    ensures Count(BareEvents(s), q) == Count(s, q)
  {
    if s != [] {
      BareCount(s[..|s| - 1], q);
      assert BareEvents(s)[..|s| - 1] == BareEvents(s[..|s| - 1]);
      BareMatches(q, s[|s| - 1]);
    }
  }

  lemma BareOldest(s: seq<SyncEvent>, q: Query, i: int)
    requires Emitterless(q)
    ensures Oldest(BareEvents(s), q, i) <==> Oldest(s, q, i)
  {
    forall j | 0 <= j < |s| ensures Matches(q, BareEvents(s)[j]) <==> Matches(q, s[j]) {
      BareMatches(q, s[j]);
    }
  }

  lemma BareMembers(s: seq<SyncEvent>)
    ensures forall e :: e in s ==> Bare(e) in BareEvents(s)
    ensures forall x :: x in BareEvents(s) ==> exists e :: e in s && Bare(e) == x
  {
    forall e | e in s ensures Bare(e) in BareEvents(s) {
      var i :| 0 <= i < |s| && s[i] == e;
      assert BareEvents(s)[i] == Bare(e);
    }
  }

  lemma BareRemoveAt(ledger: Ledger, i: nat)
    requires i < |ledger.events|
    ensures BareLedger(RemoveAt(ledger, i)) == RemoveAt(BareLedger(ledger), i)
  {
    var s := ledger.events;
    assert BareEvents(s[..i] + s[i + 1..]) == BareEvents(s)[..i] + BareEvents(s)[i + 1..];
  }

  lemma BareAppended(ledger: Ledger, e: SyncEvent)
    ensures BareLedger(Appended(ledger, e)) == Appended(BareLedger(ledger), Bare(e))
  {
  }

  // ---------- adds do not read it ----------

  lemma BareRoom(ledger: Ledger, e: SyncEvent, room: Ledger, refused: bool)
    requires Room(ledger, e, room, refused)
    ensures Room(BareLedger(ledger), Bare(e), BareLedger(room), refused)
  {
    if e.payload.Ping? {
      var q := PingsTo(e.payload.target);
      BareCount(ledger.events, q);
      if Count(ledger.events, q) >= MAX_PINGS_PER_TARGET {
        var i: nat :| RoomByEvicting(ledger, e.payload.target, e.timestamp, i, room, refused);
        BareOldest(ledger.events, q, i);
        BareRemoveAt(ledger, i);
        assert RoomByEvicting(BareLedger(ledger), e.payload.target, e.timestamp, i, BareLedger(room), refused);
      }
    }
  }

  /** And every way to make room in the bare ledger is one in the ledger. */
  lemma RoomOfBare(ledger: Ledger, e: SyncEvent, room': Ledger, refused: bool) returns (room: Ledger)
    requires Room(BareLedger(ledger), Bare(e), room', refused)
    ensures Room(ledger, e, room, refused) && |room.events| == |room'.events|
  {
    room := ledger;
    if e.payload.Ping? {
      var q := PingsTo(e.payload.target);
      BareCount(ledger.events, q);
      if Count(ledger.events, q) >= MAX_PINGS_PER_TARGET {
        var i: nat :| RoomByEvicting(BareLedger(ledger), e.payload.target, e.timestamp, i, room', refused);
        BareOldest(ledger.events, q, i);
        if !refused {
          room := RemoveAt(ledger, i);
        }
        assert RoomByEvicting(ledger, e.payload.target, e.timestamp, i, room, refused);
      }
    }
  }

  lemma BareNoPrune(ledger: Ledger, max: int, e: SyncEvent)
    requires NoPrune(ledger, max, e)
    ensures NoPrune(BareLedger(ledger), max, Bare(e))
  {
    if !(max <= 0 || e.payload.Observation? || Unwelcome(ledger, e)) {
      forall room', refused | Room(BareLedger(ledger), Bare(e), room', refused) && !refused ensures |room'.events| < max {
        var room := RoomOfBare(ledger, e, room', refused);
      }
    }
  }

  lemma BarePlainAdd(ledger: Ledger, max: int, keys: KeyRing, e: SyncEvent, ledger': Ledger, ok: bool)
    requires PlainAdd(ledger, max, keys, e, ledger', ok) && NoPrune(ledger, max, e) && !e.payload.Observation?
    ensures PlainAdd(BareLedger(ledger), max, keys, Bare(e), BareLedger(ledger'), ok)
  {
    if !Unwelcome(ledger, e) {
      var room, refused :| PlainAddVia(ledger, max, keys, e, room, refused, ledger', ok);
      BareRoom(ledger, e, room, refused);
      BareAppended(room, e);
      assert PlainAddVia(BareLedger(ledger), max, keys, Bare(e), BareLedger(room), refused, BareLedger(ledger'), ok);
    }
  }

  lemma BareReports(events: seq<SyncEvent>, o: ObservationPayload)
    ensures AlreadyReported(BareEvents(events), o) <==> AlreadyReported(events, o)
    ensures CheckpointHeld(BareEvents(events), o.subject) <==> CheckpointHeld(events, o.subject)
  {
    BareMembers(events);
    if e :| e in events && e.payload.Observation? && SameReport(o, e.payload.obs) {
      assert Bare(e) in BareEvents(events);
    }
    if e :| e in events && IsCheckpointOf(e, o.subject) {
      assert Bare(e) in BareEvents(events);
    }
  }

  lemma BareVictim(events: seq<SyncEvent>, o: ObservationPayload, i: int)
    ensures IsVictim(BareEvents(events), o, i) <==> IsVictim(events, o, i)
  {
    BareCount(events, NonRestartsOf(o.observer, o.subject));
    BareReports(events, o);
    BareOldest(events, NonRestartsOf(o.observer, o.subject), i);
    BareOldest(events, ObservationsOf(o.observer, o.subject), i);
  }

  lemma BareCompacted(ledger: Ledger, o: ObservationPayload, ledger': Ledger)
    requires Compacted(ledger, o, ledger')
    ensures Compacted(BareLedger(ledger), o, BareLedger(ledger'))
  {
    BareCount(ledger.events, ObservationsOf(o.observer, o.subject));
    BareCount(ledger.events, NonRestartsOf(o.observer, o.subject));
    BareReports(ledger.events, o);
    if ledger' != ledger {
      var i: nat :| i < |ledger.events| && IsVictim(ledger.events, o, i) && ledger' == RemoveAt(ledger, i);
      BareVictim(ledger.events, o, i);
      BareRemoveAt(ledger, i);
    }
  }

  lemma BareObservationAdd(ledger: Ledger, e: SyncEvent, dedup: bool, ledger': Ledger, ok: bool)
    requires e.payload.Observation? && ObservationAdd(ledger, e, dedup, ledger', ok)
    ensures ObservationAdd(BareLedger(ledger), Bare(e), dedup, BareLedger(ledger'), ok)
  {
    BareReports(ledger.events, e.payload.obs);
    if !(dedup && AlreadyReported(ledger.events, e.payload.obs)) {
      var room :| ObservationAddVia(ledger, e, room, ledger', ok);
      BareCompacted(ledger, e.payload.obs, room);
      BareAppended(room, e);
      assert ObservationAddVia(BareLedger(ledger), Bare(e), BareLedger(room), BareLedger(ledger'), ok);
    }
  }

  lemma BareStep(ledger: Ledger, max: int, op: Op, ledger': Ledger)
    requires Step(ledger, max, op, ledger') && (op.AddOp? || op.DedupOp?) && NoPrune(ledger, max, op.e)
    ensures Step(BareLedger(ledger), max, BareOp(op), BareLedger(ledger'))
  {
    match op
    case AddOp(e, keys) =>
      var ok :| Add(ledger, max, keys, e, ledger', ok);
      if e.payload.Observation? {
        BareObservationAdd(ledger, e, false, ledger', ok);
      } else {
        BarePlainAdd(ledger, max, keys, e, ledger', ok);
      }
      assert Add(BareLedger(ledger), max, keys, Bare(e), BareLedger(ledger'), ok);
    case DedupOp(e) =>
      var ok :| AddWithDedup(ledger, e, ledger', ok);
      BareObservationAdd(ledger, e, true, ledger', ok);
      assert AddWithDedup(BareLedger(ledger), Bare(e), BareLedger(ledger'), ok);
  }

  // ---------- runs ----------

  function BareStates(states: seq<Ledger>): seq<Ledger> {
    seq(|states|, i requires 0 <= i < |states| => BareLedger(states[i]))
  }

  function BareOps(ops: seq<Op>): seq<Op> {
    seq(|ops|, i requires 0 <= i < |ops| => BareOp(ops[i]))
  }

  lemma BareAddsOnly(ops: seq<Op>)
    requires AddsOnly(ops)
    ensures AddsOnly(BareOps(ops))
  {
    forall op | op in BareOps(ops) ensures op.AddOp? || op.DedupOp? {
      var i :| 0 <= i < |ops| && BareOps(ops)[i] == op;
      assert ops[i] in ops;
    }
  }

  lemma BareRun(max: int, states: seq<Ledger>, ops: seq<Op>)
    requires Run(max, states, ops) && AddsOnly(ops) && Roomy(max, states, ops)
    ensures AddsOnly(BareOps(ops)) && Run(max, BareStates(states), BareOps(ops))
    ensures Roomy(max, BareStates(states), BareOps(ops))
  {
    BareAddsOnly(ops);
    forall i | 0 <= i < |ops|
      ensures StepAt(max, BareStates(states), BareOps(ops), i) && NoPruneAt(max, BareStates(states), BareOps(ops), i)
    {
      StepIsPlain(max, states, ops, i);
      BareStep(states[i], max, ops[i], states[i + 1]);
      BareNoPrune(states[i], max, ops[i].e);
    }
  }

  lemma {:induction false} BareOffers(ops: seq<Op>, k: nat)
    requires k <= |ops| && AddsOnly(ops) && AddsOnly(BareOps(ops))
    ensures Offers(BareOps(ops), k) == BareSet(Offers(ops, k))
  {
    if k > 0 {
      BareOffers(ops, k - 1);
      assert ops[k - 1] in ops && BareOps(ops)[k - 1] in BareOps(ops);
      assert BareSet(Offers(ops, k)) == BareSet(Offers(ops, k - 1)) + {Bare(ops[k - 1].e)};
    }
  }

  // ---------- the theorems of `Convergence`, up to that ----------

  /** The ID of an acceptable event stands for one timestamp, and for all of the payload that is not
      left out. */
  ghost predicate IdsAreHashes(events: set<SyncEvent>) {
    FaithfulIds(BareSet(events))
  }

  /** In every run of adds that prunes nothing, a ledger remembers every acceptable event it was
      offered, except observations, and of the pings to each target the newest five. */
  lemma LedgerRemembers(max: int, states: seq<Ledger>, ops: seq<Op>, k: nat)
    requires Run(max, states, ops) && states[0] == EmptyLedger && AddsOnly(ops) && Roomy(max, states, ops)
    requires IdsAreHashes(Offers(ops, |ops|)) && k < |states|
    ensures Remembers(BareLedger(states[k]), BareSet(Offers(ops, k)))
  {
    BareRun(max, states, ops);
    BareOffers(ops, |ops|);
    BareOffers(ops, k);
    assert BareLedger(EmptyLedger) == EmptyLedger;
    RunRemembers(max, BareStates(states), BareOps(ops), k);
  }

  function HeldBare(ledger: Ledger): set<SyncEvent> {
    Plain(Held(BareLedger(ledger)))
  }

  /** Two ledgers with limits and key rings of their own, offered the same events in any order
      and any number of times, with any observations in between: they hold the same events
      other than observations, except that copies may differ in what the hashed text leaves out. */
  lemma LedgersAgree(max1: int, states1: seq<Ledger>, ops1: seq<Op>, max2: int, states2: seq<Ledger>, ops2: seq<Op>)
    requires Run(max1, states1, ops1) && states1[0] == EmptyLedger && AddsOnly(ops1) && Roomy(max1, states1, ops1)
    requires Run(max2, states2, ops2) && states2[0] == EmptyLedger && AddsOnly(ops2) && Roomy(max2, states2, ops2)
    requires IdsAreHashes(Offers(ops1, |ops1|)) && IdsAreHashes(Offers(ops2, |ops2|))
    requires Plain(BareSet(Offers(ops1, |ops1|))) == Plain(BareSet(Offers(ops2, |ops2|)))
    requires DistinctPingTimes(Plain(BareSet(Offers(ops1, |ops1|))))
    ensures HeldBare(states1[|ops1|]) == HeldBare(states2[|ops2|])
  {
    BareRun(max1, states1, ops1);
    BareRun(max2, states2, ops2);
    BareOffers(ops1, |ops1|);
    BareOffers(ops2, |ops2|);
    assert BareLedger(EmptyLedger) == EmptyLedger;
    LedgersConverge(max1, BareStates(states1), BareOps(ops1), max2, BareStates(states2), BareOps(ops2));
  }

  /** A ping that was evicted or refused never comes back, in no copy, however often it is offered
      again. */
  lemma PingsStayGone(max: int, states: seq<Ledger>, ops: seq<Op>, j: nat, k: nat, e: SyncEvent)
    requires Run(max, states, ops) && states[0] == EmptyLedger && AddsOnly(ops) && Roomy(max, states, ops)
    requires IdsAreHashes(Offers(ops, |ops|))
    requires j <= k < |states| && e.payload.Ping? && Acceptable(e)
    requires e in Offers(ops, j) && forall x :: x in states[j].events ==> Bare(x) != Bare(e)
    ensures forall x :: x in states[k].events ==> Bare(x) != Bare(e)
  {
    BareRun(max, states, ops);
    BareOffers(ops, |ops|);
    BareOffers(ops, j);
    BareMembers(states[j].events);
    BareMembers(states[k].events);
    assert BareLedger(EmptyLedger) == EmptyLedger;
    EvictedPingsStayGone(max, BareStates(states), BareOps(ops), j, k, Bare(e));
  }
}
