/** Merging batches from other naras, as sync and boot recovery do. */
module Merging {
  import opened Events
  import opened Sorting
  import opened LedgerSpec
  import opened LedgerInvariants
  import opened Forgetting
  import opened Convergence
  import opened Replicas

  // ---------- a merge is a run of adds ----------

  /** What a batch brings to the ledger's door. */
  function Ingested(batch: seq<SyncEvent>): set<SyncEvent> {
    if batch == [] then {}
    else
      var front, last := Ingested(batch[..|batch| - 1]), batch[|batch| - 1];
      if FilteredCheckpoint(last) then front else front + {WithID(last)}
  }

  lemma {:induction false} OffersOfLonger(ops: seq<Op>, op: Op, k: nat)
    requires AddsOnly(ops) && AddsOnly(ops + [op]) && k <= |ops|
    ensures Offers(ops + [op], k) == Offers(ops, k)
  {
    if k > 0 {
      OffersOfLonger(ops, op, k - 1);
    }
  }

  lemma LongerRun(max: int, states: seq<Ledger>, ops: seq<Op>, op: Op, ledger': Ledger)
    requires Run(max, states, ops) && Step(states[|ops|], max, op, ledger')
    ensures Run(max, states + [ledger'], ops + [op])
  {
    forall i | 0 <= i < |ops| ensures StepAt(max, states + [ledger'], ops + [op], i) {
      assert StepAt(max, states, ops, i);
    }
    assert StepAt(max, states + [ledger'], ops + [op], |ops|);
  }

  lemma OneMoreAdd(max: int, states: seq<Ledger>, ops: seq<Op>, keys: KeyRing, e: SyncEvent, ledger': Ledger, ok: bool)
    requires Run(max, states, ops) && AddsOnly(ops) && e.id != "" && Add(states[|ops|], max, keys, e, ledger', ok)
    ensures Run(max, states + [ledger'], ops + [AddOp(e, keys)]) && AddsOnly(ops + [AddOp(e, keys)])
  {
    LongerRun(max, states, ops, AddOp(e, keys), ledger');
  }

  /** The adds that merging a batch comes to. */
  function AddsOfBatch(keys: KeyRing, batch: seq<SyncEvent>): (ops: seq<Op>)
    ensures AddsOnly(ops)
  {
    if batch == [] then []
    else
      var front, last := AddsOfBatch(keys, batch[..|batch| - 1]), batch[|batch| - 1];
      if FilteredCheckpoint(last) then front else front + [AddOp(WithID(last), keys)]
  }

  lemma {:induction false} OffersOfBatch(ops: seq<Op>, keys: KeyRing, batch: seq<SyncEvent>)
    requires AddsOnly(ops)
    ensures var ops' := ops + AddsOfBatch(keys, batch);
            AddsOnly(ops') && Offers(ops', |ops'|) == Offers(ops, |ops|) + Ingested(batch)
  {
    if batch == [] {
      assert ops + AddsOfBatch(keys, batch) == ops;
    } else {
      var front, last := batch[..|batch| - 1], batch[|batch| - 1];
      var before := ops + AddsOfBatch(keys, front);
      OffersOfBatch(ops, keys, front);
      if !FilteredCheckpoint(last) {
        assert ops + AddsOfBatch(keys, batch) == before + [AddOp(WithID(last), keys)];
        OffersOfLonger(before, AddOp(WithID(last), keys), |before|);
      }
    }
  }

  lemma {:induction false} MergeExtendsRun(max: int, states: seq<Ledger>, ops: seq<Op>, keys: KeyRing,
                                           batch: seq<SyncEvent>, ledger': Ledger, added: nat)
      returns (states': seq<Ledger>)
    requires Run(max, states, ops) && AddsOnly(ops) && Merged(states[|ops|], max, keys, batch, ledger', added)
    ensures var ops' := ops + AddsOfBatch(keys, batch);
            && Run(max, states', ops') && states'[0] == states[0] && states'[|ops'|] == ledger'
            && AddsOnly(ops') && Offers(ops', |ops'|) == Offers(ops, |ops|) + Ingested(batch)
    decreases |batch|
  {
    if batch == [] {
      states' := states;
      assert ops + AddsOfBatch(keys, batch) == ops;
    } else {
      var front, last := batch[..|batch| - 1], batch[|batch| - 1];
      if FilteredCheckpoint(last) {
        states' := MergeExtendsRun(max, states, ops, keys, front, ledger', added);
      } else {
        var mid, before: nat, ok :| MergeStep(states[|ops|], max, keys, batch, mid, before, ok, ledger', added);
        var s := MergeExtendsRun(max, states, ops, keys, front, mid, before);
        OneMoreAdd(max, s, ops + AddsOfBatch(keys, front), keys, WithID(last), ledger', ok);
        states' := s + [ledger'];
        assert ops + AddsOfBatch(keys, batch) == (ops + AddsOfBatch(keys, front)) + [AddOp(WithID(last), keys)];
      }
    }
    OffersOfBatch(ops, keys, batch);
  }

  // ---------- several merges ----------

  datatype Round = Round(keys: KeyRing, batch: seq<SyncEvent>)

  /** `ledger` results from merging the batches one after another into an empty ledger. */
  ghost predicate MergedRounds(max: int, rounds: seq<Round>, ledger: Ledger)
    decreases |rounds|, 1
  {
    if rounds == [] then ledger == EmptyLedger else exists before, added: nat :: LastRound(max, rounds, before, added, ledger)
  }

  ghost predicate LastRound(max: int, rounds: seq<Round>, before: Ledger, added: nat, ledger: Ledger)
    requires rounds != []
    decreases |rounds|, 0
  {
    && MergedRounds(max, rounds[..|rounds| - 1], before)
    && Merged(before, max, rounds[|rounds| - 1].keys, rounds[|rounds| - 1].batch, ledger, added)
  }

  function IngestedAll(rounds: seq<Round>): set<SyncEvent> {
    if rounds == [] then {} else IngestedAll(rounds[..|rounds| - 1]) + Ingested(rounds[|rounds| - 1].batch)
  }

  function AddsOf(rounds: seq<Round>): (ops: seq<Op>)
    ensures AddsOnly(ops)
  {
    if rounds == [] then []
    else AddsOf(rounds[..|rounds| - 1]) + AddsOfBatch(rounds[|rounds| - 1].keys, rounds[|rounds| - 1].batch)
  }

  /** The states a ledger goes through while it merges the batches, ending in `ledger`. */
  ghost predicate MergeRun(max: int, rounds: seq<Round>, states: seq<Ledger>, ledger: Ledger) {
    Run(max, states, AddsOf(rounds)) && states[0] == EmptyLedger && states[|AddsOf(rounds)|] == ledger
  }

  lemma {:induction false} RoundsAreRun(max: int, rounds: seq<Round>, ledger: Ledger) returns (states: seq<Ledger>)
    requires MergedRounds(max, rounds, ledger)
    ensures MergeRun(max, rounds, states, ledger)
  {
    if rounds == [] {
      states := [EmptyLedger];
    } else {
      var front, last := rounds[..|rounds| - 1], rounds[|rounds| - 1];
      var before, added: nat :| LastRound(max, rounds, before, added, ledger);
      var s := RoundsAreRun(max, front, before);
      states := MergeExtendsRun(max, s, AddsOf(front), last.keys, last.batch, ledger, added);
    }
  }

  lemma {:induction false} OffersOfRounds(rounds: seq<Round>)
    ensures Offers(AddsOf(rounds), |AddsOf(rounds)|) == IngestedAll(rounds)
  {
    if rounds != [] {
      var front, last := rounds[..|rounds| - 1], rounds[|rounds| - 1];
      OffersOfRounds(front);
      OffersOfBatch(AddsOf(front), last.keys, last.batch);
    }
  }

  // ---------- a ledger that is offered no more IDs than its limit never prunes ----------

  function OfferedIds(events: set<SyncEvent>): set<string> {
    set e | e in events :: e.id
  }

  lemma {:induction false} HeldWereOffered(max: int, states: seq<Ledger>, ops: seq<Op>, k: nat)
    requires Run(max, states, ops) && AddsOnly(ops) && states[0] == EmptyLedger && k <= |ops|
    ensures forall e :: e in states[k].events ==> e in Offers(ops, k)
  {
    if k > 0 {
      HeldWereOffered(max, states, ops, k - 1);
      RunStaysSound(max, states, ops, k - 1);
      assert StepAt(max, states, ops, k - 1) && ops[k - 1] in ops;
      NewcomersOfStep(states[k - 1], max, ops[k - 1], states[k]);
    }
  }

  lemma NewcomersOfStep(ledger: Ledger, max: int, op: Op, ledger': Ledger)
    requires Sound(ledger) && Step(ledger, max, op, ledger') && (op.AddOp? || op.DedupOp?)
    ensures forall e :: e in ledger'.events ==> e in ledger.events || e == op.e
  {
    if op.AddOp? && !op.e.payload.Observation? {
      var ok :| Add(ledger, max, op.keys, op.e, ledger', ok);
      NewcomersOfPlainAdd(ledger, max, op.keys, op.e, ledger', ok);
    } else {
      var dedup, ok :| ObservationAdd(ledger, op.e, dedup, ledger', ok);
      NewcomersOfObservationAdd(ledger, op.e, dedup, ledger', ok);
    }
  }

  lemma {:induction false} IdsCount(s: seq<SyncEvent>)
    requires DistinctIds(s)
    ensures |IdsOf(s)| == |s|
  {
    if s != [] {
      IdsCount(s[..|s| - 1]);
      assert s == s[..|s| - 1] + [s[|s| - 1]];
      assert IdsOf(s) == IdsOf(s[..|s| - 1]) + {s[|s| - 1].id};
    }
  }

  lemma RoomWithinOffers(ledger: Ledger, e: SyncEvent, room: Ledger, offered: set<SyncEvent>)
    requires Sound(ledger) && e.id != "" && !e.payload.Observation? && !Unwelcome(ledger, e) && Room(ledger, e, room, false)
    requires e in offered && forall x :: x in ledger.events ==> x in offered
    ensures |room.events| + 1 <= |OfferedIds(offered)|
  {
    RoomStaysSound(ledger, e, room, false);
    AppendPlainSound(room, e);
    var all := Appended(room, e).events;
    IdsCount(all);
    assert forall x :: x in room.events ==> x in ledger.events;
    IdsWithin(all, offered);
  }

  lemma IdsWithin(s: seq<SyncEvent>, offered: set<SyncEvent>)
    requires forall x :: x in s ==> x in offered
    ensures |IdsOf(s)| <= |OfferedIds(offered)|
  {
    SubsetSize(IdsOf(s), OfferedIds(offered));
  }

  lemma FewIdsAreRoomy(max: int, states: seq<Ledger>, ops: seq<Op>)
    requires Run(max, states, ops) && AddsOnly(ops) && states[0] == EmptyLedger
    requires max > 0 ==> |OfferedIds(Offers(ops, |ops|))| <= max
    ensures Roomy(max, states, ops)
  {
    forall k | 0 <= k < |ops| ensures NoPruneAt(max, states, ops, k) {
      OfferIsRoomy(max, states, ops, k);
    }
  }

  lemma OfferIsRoomy(max: int, states: seq<Ledger>, ops: seq<Op>, k: nat)
    requires Run(max, states, ops) && AddsOnly(ops) && states[0] == EmptyLedger && k < |ops|
    requires max > 0 ==> |OfferedIds(Offers(ops, |ops|))| <= max
    ensures NoPruneAt(max, states, ops, k)
  {
    assert ops[k] in ops && StepAt(max, states, ops, k);
    var ledger, e := states[k], ops[k].e;
    HeldWereOffered(max, states, ops, k);
    RunStaysSound(max, states, ops, k);
    OffersGrow(ops, k + 1, |ops|);
    if !(max <= 0 || e.payload.Observation? || Unwelcome(ledger, e)) {
      forall room, refused | Room(ledger, e, room, refused) && !refused ensures |room.events| < max {
        RoomWithinOffers(ledger, e, room, Offers(ops, |ops|));
      }
    }
  }

  /** What two lists of batches have to have in common: the same events other than observations,
      with IDs that stand for them, and pings to one target at different times. */
  ghost predicate SameOffers(rounds1: seq<Round>, rounds2: seq<Round>) {
    && IdsAreHashes(IngestedAll(rounds1)) && IdsAreHashes(IngestedAll(rounds2))
    && Plain(BareSet(IngestedAll(rounds1))) == Plain(BareSet(IngestedAll(rounds2)))
    && DistinctPingTimes(Plain(BareSet(IngestedAll(rounds1))))
  }

  /** Two ledgers that merge batches with the same events other than observations - cut up, ordered
      and repeated in whatever way, with key rings and limits of their own, and without an add that
      prunes - hold the same events other than observations, except that copies may differ in
      what the hashed text leaves out. */
  lemma MergesConverge(max1: int, rounds1: seq<Round>, states1: seq<Ledger>, ledger1: Ledger,
                       max2: int, rounds2: seq<Round>, states2: seq<Ledger>, ledger2: Ledger)
    requires MergeRun(max1, rounds1, states1, ledger1) && Roomy(max1, states1, AddsOf(rounds1))
    requires MergeRun(max2, rounds2, states2, ledger2) && Roomy(max2, states2, AddsOf(rounds2))
    requires SameOffers(rounds1, rounds2)
    ensures HeldBare(ledger1) == HeldBare(ledger2)
  {
    OffersOfRounds(rounds1);
    OffersOfRounds(rounds2);
    LedgersAgree(max1, states1, AddsOf(rounds1), max2, states2, AddsOf(rounds2));
  }

  /** In particular if the limits are not below the number of different IDs offered. */
  lemma MergesWithinLimitConverge(max1: int, rounds1: seq<Round>, ledger1: Ledger,
                                  max2: int, rounds2: seq<Round>, ledger2: Ledger)
    requires MergedRounds(max1, rounds1, ledger1) && (max1 > 0 ==> |OfferedIds(IngestedAll(rounds1))| <= max1)
    requires MergedRounds(max2, rounds2, ledger2) && (max2 > 0 ==> |OfferedIds(IngestedAll(rounds2))| <= max2)
    requires SameOffers(rounds1, rounds2)
    ensures HeldBare(ledger1) == HeldBare(ledger2)
  {
    var states1 := RoundsAreRun(max1, rounds1, ledger1);
    var states2 := RoundsAreRun(max2, rounds2, ledger2);
    OffersOfRounds(rounds1);
    OffersOfRounds(rounds2);
    FewIdsAreRoomy(max1, states1, AddsOf(rounds1));
    FewIdsAreRoomy(max2, states2, AddsOf(rounds2));
    MergesConverge(max1, rounds1, states1, ledger1, max2, rounds2, states2, ledger2);
  }
}
