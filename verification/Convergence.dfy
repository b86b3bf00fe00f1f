/** Ledgers that are offered the same events end up remembering the same things, in
    whatever order and however often the events arrive - as long as no prune fires and
    nobody is removed. Pings converge to the five newest per target. */
module Convergence {
  import opened Events
  import opened Sorting
  import opened LedgerSpec
  import opened LedgerInvariants

  ghost predicate AddsOnly(ops: seq<Op>) {
    forall op :: op in ops ==> op.AddOp? || op.DedupOp?
  }

  /** Adding `e` prunes nothing: observations never do, what is refused does not, and otherwise there
      is still room below the limit once an older ping has made way. */
  ghost predicate NoPrune(ledger: Ledger, max: int, e: SyncEvent) {
    || max <= 0 || e.payload.Observation? || Unwelcome(ledger, e)
    || forall room, refused :: Room(ledger, e, room, refused) && !refused ==> |room.events| < max
  }

  /** No add prunes. */
  ghost predicate Roomy(max: int, states: seq<Ledger>, ops: seq<Op>)
    requires |states| == |ops| + 1 && AddsOnly(ops)
  {
    forall k :: 0 <= k < |ops| ==> NoPruneAt(max, states, ops, k)
  }

  ghost predicate NoPruneAt(max: int, states: seq<Ledger>, ops: seq<Op>, k: nat)
    requires |states| == |ops| + 1 && AddsOnly(ops) && k < |ops|
  {
    assert ops[k] in ops;
    NoPrune(states[k], max, ops[k].e)
  }

  /** The events the first `k` operations offered. */
  function Offers(ops: seq<Op>, k: nat): set<SyncEvent>
    requires k <= |ops| && AddsOnly(ops)
  {
    if k == 0 then {}
    else
      assert ops[k - 1] in ops;
      Offers(ops, k - 1) + {ops[k - 1].e}
  }

  predicate Acceptable(e: SyncEvent) {
    IsValid(e) && !FilteredCheckpoint(e)
  }

  /** Among acceptable events the ID of a plain one belongs to it alone. Observations may share IDs
      with each other. */
  ghost predicate FaithfulIds(events: set<SyncEvent>) {
    forall a, b :: a in events && b in events && Acceptable(a) && Acceptable(b) && !a.payload.Observation? ==>
      (a.id == b.id ==> a == b)
  }

  /** What an event has to be: dated, of one of the services, with a target and, unless it is a checkpoint, an
      actor; and complete as its kind demands. Checkpoints about one nara made before a bug was fixed are
      kept out. */
  lemma AcceptableIff(e: SyncEvent)
    ensures Acceptable(e) <==>
            && e.timestamp != 0 && !e.payload.NoPayload? && GetTarget(e) != ""
            && (!e.payload.Checkpoint? ==> GetActor(e) != "")
            && (e.payload.Social? ==> e.payload.kind in {"tease", "observed", "gossip", "observation", "service"})
            && (e.payload.Ping? ==> e.payload.rtt.positive)
            && (e.payload.HeyThere? ==> e.payload.publicKey != "")
            && (e.payload.Seen? ==> e.payload.via != "")
            && (e.payload.Observation? ==>
                  var o := e.payload.obs;
                  && 1 <= o.importance <= 3 && o.kind in {Restart, FirstSeen, StatusChange}
                  && (o.kind != StatusChange ==> o.startTime > 0) && (o.kind == Restart ==> o.restartNum >= 0)
                  && (o.kind == StatusChange ==> o.onlineState in {ONLINE, OFFLINE, MISSING}))
            && (e.payload.Checkpoint? ==>
                  var c := e.payload.cp;
                  && c.asOfTime > 0 && c.observation.restarts >= 0 && c.observation.totalUptime >= 0
                  && |c.signatures| == |c.voterIDs| && !(c.subject == "r2d2" && c.asOfTime < 1768774454))
  {
  }

  function HeldPings(ledger: Ledger, target: NaraName): set<SyncEvent> {
    set e | e in ledger.events && e.payload.Ping? && e.payload.target == target
  }

  function OfferedPings(offered: set<SyncEvent>, target: NaraName): set<SyncEvent> {
    set e | e in offered && e.payload.Ping? && e.payload.target == target && Acceptable(e)
  }

  /** `held` are the newest five of `offered`: whatever was offered and is not held is no
      newer than any of five held ones. */
  ghost predicate NewestPings(held: set<SyncEvent>, offered: set<SyncEvent>) {
    && held <= offered
    && |held| <= 5
    && forall o :: o in offered && o !in held ==>
         |held| == 5 && forall h :: h in held ==> o.timestamp <= h.timestamp
  }

  /** What a ledger remembers of the events offered to it. */
  ghost predicate Remembers(ledger: Ledger, offered: set<SyncEvent>) {
    && (forall e :: e in ledger.events ==> e in offered)
    && (forall e :: e in offered && Acceptable(e) && !e.payload.Ping? && !e.payload.Observation? ==> e in ledger.events)
    && forall t :: NewestPings(HeldPings(ledger, t), OfferedPings(offered, t))
  }

  // ---------- one add ----------

  lemma HeldPingCount(ledger: Ledger, t: NaraName)
    requires WellIndexed(ledger)
    ensures |HeldPings(ledger, t)| == Count(ledger.events, PingsTo(t))
  {
    CountIsSize(ledger.events, PingsTo(t));
    assert HeldPings(ledger, t) == set e | e in ledger.events && Matches(PingsTo(t), e);
  }

  lemma OfferElsewhere(ledger: Ledger, offered: set<SyncEvent>, e: SyncEvent, t: NaraName)
    requires !(Matches(PingsTo(t), e) && Acceptable(e))
    ensures OfferedPings(offered + {e}, t) == OfferedPings(offered, t)
  {
  }

  lemma AppendPing(ledger: Ledger, room: Ledger, e: SyncEvent, t: NaraName)
    requires Matches(PingsTo(t), e)
    ensures HeldPings(Appended(room, e), t) == HeldPings(room, t) + {e}
  {
  }

  lemma EvictPing(ledger: Ledger, i: nat, t: NaraName)
    requires WellIndexed(ledger) && i < |ledger.events|
    ensures HeldPings(RemoveAt(ledger, i), t) == HeldPings(ledger, t) - {ledger.events[i]}
  {
  }

  lemma RoomOfPings(ledger: Ledger, e: SyncEvent, room: Ledger, refused: bool, t: NaraName)
    returns (oldest: SyncEvent)
    requires WellIndexed(ledger) && Matches(PingsTo(t), e) && Room(ledger, e, room, refused)
    ensures |HeldPings(ledger, t)| < MAX_PINGS_PER_TARGET ==> !refused && room == ledger
    ensures |HeldPings(ledger, t)| >= MAX_PINGS_PER_TARGET ==>
              && oldest in HeldPings(ledger, t) && (forall h :: h in HeldPings(ledger, t) ==> oldest.timestamp <= h.timestamp)
              && refused == (e.timestamp <= oldest.timestamp)
              && (!refused ==> HeldPings(room, t) == HeldPings(ledger, t) - {oldest})
  {
    HeldPingCount(ledger, t);
    oldest := e;
    if |HeldPings(ledger, t)| >= MAX_PINGS_PER_TARGET {
      var i: nat :| RoomByEvicting(ledger, t, e.timestamp, i, room, refused);
      oldest := ledger.events[i];
      EvictPing(ledger, i, t);
    }
  }

  /** Which events get in: an event with a new ID exactly if it is acceptable and, being a ping, finds fewer than
      five to its target or is newer than one of them. A repeated ID is refused, and nothing
      changes then, except that an observation may have made room before. */
  lemma GetsInIff(ledger: Ledger, max: int, keys: KeyRing, e: SyncEvent, ledger': Ledger, ok: bool)
    requires Sound(ledger) && Add(ledger, max, keys, e, ledger', ok)
    ensures e.id !in ledger.ids ==>
              (ok <==> Acceptable(e)
                       && (e.payload.Ping? ==>
                             || |HeldPings(ledger, e.payload.target)| < 5
                             || exists h :: h in HeldPings(ledger, e.payload.target) && h.timestamp < e.timestamp))
    ensures e.id in ledger.ids && !e.payload.Observation? ==> !ok && ledger' == ledger
  {
    if e.payload.Observation? {
      ObservationGetsIn(ledger, e, ledger', ok);
    } else if !Unwelcome(ledger, e) && e.payload.Ping? {
      var room, refused :| PlainAddVia(ledger, max, keys, e, room, refused, ledger', ok);
      var oldest := RoomOfPings(ledger, e, room, refused, e.payload.target);
    }
  }

  lemma ObservationGetsIn(ledger: Ledger, e: SyncEvent, ledger': Ledger, ok: bool)
    requires e.payload.Observation? && ObservationAdd(ledger, e, false, ledger', ok)
    ensures e.id !in ledger.ids ==> (ok <==> IsValid(e))
  {
  }

  lemma AddPingRemembers(ledger: Ledger, offered: set<SyncEvent>, e: SyncEvent, room: Ledger, refused: bool,
                         t: NaraName)
    requires WellIndexed(ledger) && NewestPings(HeldPings(ledger, t), OfferedPings(offered, t))
    requires Matches(PingsTo(t), e) && Acceptable(e) && e !in ledger.events
    requires Room(ledger, e, room, refused)
    ensures NewestPings(HeldPings(if refused then ledger else Appended(room, e), t), OfferedPings(offered + {e}, t))
  {
    var held, pings := HeldPings(ledger, t), OfferedPings(offered, t);
    assert OfferedPings(offered + {e}, t) == pings + {e};
    var oldest := RoomOfPings(ledger, e, room, refused, t);
    AppendPing(ledger, room, e, t);
    if |held| < MAX_PINGS_PER_TARGET {
      NewestAfterFill(held, pings, e);
    } else if refused {
      NewestAfterRefusal(held, pings, oldest, e);
    } else {
      NewestAfterSwap(held, pings, oldest, e);
    }
  }

  lemma NewestAfterFill(held: set<SyncEvent>, pings: set<SyncEvent>, e: SyncEvent)
    requires NewestPings(held, pings) && |held| < MAX_PINGS_PER_TARGET && e !in held
    ensures NewestPings(held + {e}, pings + {e})
  {
  }

  lemma NewestAfterRefusal(held: set<SyncEvent>, pings: set<SyncEvent>, oldest: SyncEvent, e: SyncEvent)
    requires NewestPings(held, pings) && |held| == MAX_PINGS_PER_TARGET
    requires oldest in held && e.timestamp <= oldest.timestamp
    requires forall h :: h in held ==> oldest.timestamp <= h.timestamp
    ensures NewestPings(held, pings + {e})
  {
  }

  lemma NewestAfterSwap(held: set<SyncEvent>, pings: set<SyncEvent>, oldest: SyncEvent, e: SyncEvent)
    requires NewestPings(held, pings) && |held| == MAX_PINGS_PER_TARGET
    requires oldest in held && e !in held && oldest.timestamp < e.timestamp
    requires forall h :: h in held ==> oldest.timestamp <= h.timestamp
    ensures NewestPings(held - {oldest} + {e}, pings + {e})
  {
  }

  lemma UnwelcomeRemembers(ledger: Ledger, e: SyncEvent, offered: set<SyncEvent>)
    requires WellIndexed(ledger) && Remembers(ledger, offered) && FaithfulIds(offered + {e}) && Unwelcome(ledger, e)
    ensures Remembers(ledger, offered + {e})
  {
  }

  lemma WelcomeRemembers(ledger: Ledger, e: SyncEvent, room: Ledger, refused: bool, offered: set<SyncEvent>)
    requires Sound(ledger) && Remembers(ledger, offered) && !Unwelcome(ledger, e) && Room(ledger, e, room, refused)
    ensures Remembers(if refused then ledger else Appended(room, e), offered + {e})
  {
    var ledger' := if refused then ledger else Appended(room, e);
    RoomStaysSound(ledger, e, room, refused);
    forall t ensures NewestPings(HeldPings(ledger', t), OfferedPings(offered + {e}, t)) {
      assert NewestPings(HeldPings(ledger, t), OfferedPings(offered, t));
      if Matches(PingsTo(t), e) {
        AddPingRemembers(ledger, offered, e, room, refused, t);
      } else {
        OfferElsewhere(ledger, offered, e, t);
        OtherPingsUntouched(ledger, e, room, refused, t);
      }
    }
  }

  /** Without a prune, a plain add either leaves the ledger alone or appends after making room. */
  lemma PlainAddRemembers(ledger: Ledger, max: int, keys: KeyRing, e: SyncEvent, ledger': Ledger, ok: bool,
                          offered: set<SyncEvent>)
    requires Sound(ledger) && Remembers(ledger, offered) && FaithfulIds(offered + {e})
    requires e.id != "" && !e.payload.Observation?
    requires PlainAdd(ledger, max, keys, e, ledger', ok) && NoPrune(ledger, max, e)
    ensures Remembers(ledger', offered + {e})
  {
    if Unwelcome(ledger, e) {
      UnwelcomeRemembers(ledger, e, offered);
    } else {
      var room, refused :| PlainAddVia(ledger, max, keys, e, room, refused, ledger', ok);
      WelcomeRemembers(ledger, e, room, refused, offered);
    }
  }

  lemma OtherPingsUntouched(ledger: Ledger, e: SyncEvent, room: Ledger, refused: bool, t: NaraName)
    requires WellIndexed(ledger) && Room(ledger, e, room, refused) && !Matches(PingsTo(t), e)
    ensures HeldPings(if refused then ledger else Appended(room, e), t) == HeldPings(ledger, t)
  {
  }

  lemma ObservationAddRemembers(ledger: Ledger, e: SyncEvent, dedup: bool, ledger': Ledger, ok: bool,
                                offered: set<SyncEvent>)
    requires Sound(ledger) && Remembers(ledger, offered)
    requires e.id != "" && e.payload.Observation?
    requires ObservationAdd(ledger, e, dedup, ledger', ok)
    ensures Remembers(ledger', offered + {e})
  {
    ObservationAddStaysSound(ledger, e, dedup, ledger', ok);
    ObservationNewcomers(ledger, e, dedup, ledger', ok);
    forall t ensures NewestPings(HeldPings(ledger', t), OfferedPings(offered + {e}, t)) {
      OfferElsewhere(ledger, offered, e, t);
      assert HeldPings(ledger', t) == HeldPings(ledger, t);
      assert NewestPings(HeldPings(ledger, t), OfferedPings(offered, t));
    }
  }

  lemma ObservationNewcomers(ledger: Ledger, e: SyncEvent, dedup: bool, ledger': Ledger, ok: bool)
    requires Sound(ledger) && e.payload.Observation? && ObservationAdd(ledger, e, dedup, ledger', ok)
    ensures forall x :: x in ledger'.events ==> x in ledger.events || x == e
  {
  }

  // ---------- whole runs ----------

  lemma StepRemembers(ledger: Ledger, max: int, op: Op, ledger': Ledger, offered: set<SyncEvent>)
    requires Sound(ledger) && Remembers(ledger, offered) && (op.AddOp? || op.DedupOp?)
    requires FaithfulIds(offered + {op.e}) && NoPrune(ledger, max, op.e)
    requires Step(ledger, max, op, ledger')
    ensures Remembers(ledger', offered + {op.e})
  {
    match op
    case AddOp(e, keys) =>
      var ok :| Add(ledger, max, keys, e, ledger', ok);
      if e.payload.Observation? {
        ObservationAddRemembers(ledger, e, false, ledger', ok, offered);
      } else {
        PlainAddRemembers(ledger, max, keys, e, ledger', ok, offered);
      }
    case DedupOp(e) =>
      var ok :| AddWithDedup(ledger, e, ledger', ok);
      ObservationAddRemembers(ledger, e, true, ledger', ok, offered);
  }

  lemma {:induction false} OffersGrow(ops: seq<Op>, j: nat, k: nat)
    requires j <= k <= |ops| && AddsOnly(ops)
    ensures Offers(ops, j) <= Offers(ops, k)
  {
    if j < k {
      OffersGrow(ops, j, k - 1);
    }
  }

  lemma StepIsPlain(max: int, states: seq<Ledger>, ops: seq<Op>, k: nat)
    requires Run(max, states, ops) && AddsOnly(ops) && Roomy(max, states, ops) && k < |ops|
    ensures Step(states[k], max, ops[k], states[k + 1]) && (ops[k].AddOp? || ops[k].DedupOp?)
    ensures NoPrune(states[k], max, ops[k].e)
    ensures FaithfulIds(Offers(ops, |ops|)) ==> FaithfulIds(Offers(ops, k + 1))
  {
    OffersGrow(ops, k + 1, |ops|);
    assert StepAt(max, states, ops, k) && NoPruneAt(max, states, ops, k) && ops[k] in ops;
  }

  lemma RunStepRemembers(max: int, states: seq<Ledger>, ops: seq<Op>, k: nat)
    requires Run(max, states, ops) && states[0] == EmptyLedger && AddsOnly(ops) && Roomy(max, states, ops)
    requires FaithfulIds(Offers(ops, |ops|)) && k < |ops| && Remembers(states[k], Offers(ops, k))
    ensures Remembers(states[k + 1], Offers(ops, k + 1))
  {
    RunStaysSound(max, states, ops, k);
    StepIsPlain(max, states, ops, k);
    StepRemembers(states[k], max, ops[k], states[k + 1], Offers(ops, k));
  }

  /** In every run of adds that triggers no prune, a ledger remembers every acceptable event
      it was offered, except observations, and of the pings to each target the newest five. */
  lemma {:induction false} RunRemembers(max: int, states: seq<Ledger>, ops: seq<Op>, k: nat)
    requires Run(max, states, ops) && states[0] == EmptyLedger && AddsOnly(ops) && Roomy(max, states, ops)
    requires FaithfulIds(Offers(ops, |ops|)) && k < |states|
    ensures Remembers(states[k], Offers(ops, k))
  {
    if k > 0 {
      RunRemembers(max, states, ops, k - 1);
      RunStepRemembers(max, states, ops, k - 1);
    } else {
      forall t ensures NewestPings(HeldPings(states[0], t), OfferedPings({}, t)) {
        assert HeldPings(EmptyLedger, t) == {} == OfferedPings({}, t);
      }
    }
  }

  // ---------- convergence ----------

  predicate SameTargetAndTime(a: SyncEvent, b: SyncEvent) {
    && a.payload.Ping? && b.payload.Ping?
    && a.payload.target == b.payload.target && a.timestamp == b.timestamp
  }

  ghost predicate DistinctPingTimes(events: set<SyncEvent>) {
    forall a, b :: a in events && b in events && SameTargetAndTime(a, b) ==> a == b
  }

  lemma SomeoneElse<T>(first: set<T>, second: set<T>, x: T)
    requires x in first && x !in second && |first| <= |second|
    ensures exists y :: y in second && y !in first
  {
    assert |first| == |first * second| + |first - second| && |second| == |first * second| + |second - first| by {
      assert first == first * second + (first - second) && second == first * second + (second - first);
    }
    assert x in first - second;
    assert second - first != {};
  }

  lemma NewestPingInBoth(first: set<SyncEvent>, second: set<SyncEvent>, offered: set<SyncEvent>, x: SyncEvent)
    requires NewestPings(first, offered) && NewestPings(second, offered)
    requires forall a, b :: a in offered && b in offered && a.timestamp == b.timestamp ==> a == b
    requires x in first
    ensures x in second
  {
    if x !in second {
      SomeoneElse(first, second, x);
    }
  }

  lemma NewestPingsUnique(first: set<SyncEvent>, second: set<SyncEvent>, offered: set<SyncEvent>)
    requires NewestPings(first, offered) && NewestPings(second, offered)
    requires forall a, b :: a in offered && b in offered && a.timestamp == b.timestamp ==> a == b
    ensures first == second
  {
    forall x ensures x in first <==> x in second {
      if x in first {
        NewestPingInBoth(first, second, offered, x);
      }
      if x in second {
        NewestPingInBoth(second, first, offered, x);
      }
    }
  }

  /** Acceptable events other than observations. */
  function Plain(events: set<SyncEvent>): set<SyncEvent> {
    set e | e in events && Acceptable(e) && !e.payload.Observation?
  }

  function Held(ledger: Ledger): set<SyncEvent> {
    set e | e in ledger.events
  }

  /** Two ledgers with limits and key rings of their own, offered the same events in any order
      and any number of times, with any observations in between: they hold the same events
      other than observations. */
  lemma LedgersConverge(max1: int, states1: seq<Ledger>, ops1: seq<Op>, max2: int, states2: seq<Ledger>, ops2: seq<Op>)
    requires Run(max1, states1, ops1) && states1[0] == EmptyLedger && AddsOnly(ops1) && Roomy(max1, states1, ops1)
    requires Run(max2, states2, ops2) && states2[0] == EmptyLedger && AddsOnly(ops2) && Roomy(max2, states2, ops2)
    requires FaithfulIds(Offers(ops1, |ops1|)) && FaithfulIds(Offers(ops2, |ops2|))
    requires Plain(Offers(ops1, |ops1|)) == Plain(Offers(ops2, |ops2|))
    requires DistinctPingTimes(Plain(Offers(ops1, |ops1|)))
    ensures Plain(Held(states1[|ops1|])) == Plain(Held(states2[|ops2|]))
  {
    RunRemembers(max1, states1, ops1, |ops1|);
    RunRemembers(max2, states2, ops2, |ops2|);
    RunStaysSound(max1, states1, ops1, |ops1|);
    RunStaysSound(max2, states2, ops2, |ops2|);
    HeldAgrees(states1[|ops1|], Offers(ops1, |ops1|), states2[|ops2|], Offers(ops2, |ops2|));
    HeldAgrees(states2[|ops2|], Offers(ops2, |ops2|), states1[|ops1|], Offers(ops1, |ops1|));
  }

  lemma HeldAgrees(ledger1: Ledger, offered1: set<SyncEvent>, ledger2: Ledger, offered2: set<SyncEvent>)
    requires WellIndexed(ledger1) && Remembers(ledger1, offered1) && Remembers(ledger2, offered2)
    requires Plain(offered1) == Plain(offered2) && DistinctPingTimes(Plain(offered1))
    ensures Plain(Held(ledger1)) <= Plain(Held(ledger2))
  {
    forall e | e in Plain(Held(ledger1)) ensures e in Plain(Held(ledger2)) {
      assert e in offered1;
      assert e in Plain(offered1) && e in Plain(offered2);
      if e.payload.Ping? {
        PingsAgree(ledger1, offered1, ledger2, offered2, e.payload.target);
        assert e in HeldPings(ledger1, e.payload.target);
      }
    }
  }

  lemma PingsAgree(ledger1: Ledger, offered1: set<SyncEvent>, ledger2: Ledger, offered2: set<SyncEvent>, t: NaraName)
    requires Remembers(ledger1, offered1) && Remembers(ledger2, offered2)
    requires Plain(offered1) == Plain(offered2) && DistinctPingTimes(Plain(offered1))
    ensures HeldPings(ledger1, t) == HeldPings(ledger2, t)
  {
    forall e ensures e in OfferedPings(offered1, t) <==> e in OfferedPings(offered2, t) {
      assert e.payload.Ping? && Acceptable(e) ==>
               (e in offered1 <==> e in Plain(offered1)) && (e in offered2 <==> e in Plain(offered2));
    }
    assert OfferedPings(offered1, t) == OfferedPings(offered2, t);
    assert forall e :: e in OfferedPings(offered1, t) ==> e in Plain(offered1);
    assert NewestPings(HeldPings(ledger1, t), OfferedPings(offered1, t)) && NewestPings(HeldPings(ledger2, t), OfferedPings(offered2, t));
    NewestPingsUnique(HeldPings(ledger1, t), HeldPings(ledger2, t), OfferedPings(offered1, t));
  }

  // ---------- dismissed pings ----------

  /** `e` is not held, and is no newer than any of five pings to its target that are. */
  ghost predicate Dismissed(ledger: Ledger, e: SyncEvent) {
    var held := HeldPings(ledger, GetTarget(e));
    e !in ledger.events && |held| >= MAX_PINGS_PER_TARGET && forall h :: h in held ==> e.timestamp <= h.timestamp
  }

  lemma PlainAddKeepsDismissed(ledger: Ledger, max: int, keys: KeyRing, x: SyncEvent, ledger': Ledger, ok: bool,
                               e: SyncEvent)
    requires Sound(ledger) && e.payload.Ping? && Dismissed(ledger, e) && NoPrune(ledger, max, x)
    requires x.id != "" && !x.payload.Observation? && PlainAdd(ledger, max, keys, x, ledger', ok)
    ensures Dismissed(ledger', e)
  {
    var t := GetTarget(e);
    if !Unwelcome(ledger, x) {
      var room, refused :| PlainAddVia(ledger, max, keys, x, room, refused, ledger', ok);
      if !refused {
        if Matches(PingsTo(t), x) {
          SwapKeepsDismissed(ledger, x, room, e);
        } else {
          AppendKeepsDismissed(ledger, x, room, e);
        }
      }
    }
  }

  /** Only something newer than the oldest of the five is let in. */
  lemma SwapKeepsDismissed(ledger: Ledger, x: SyncEvent, room: Ledger, e: SyncEvent)
    requires WellIndexed(ledger) && e.payload.Ping? && Dismissed(ledger, e)
    requires Matches(PingsTo(GetTarget(e)), x) && !Unwelcome(ledger, x) && Room(ledger, x, room, false)
    ensures Dismissed(Appended(room, x), e)
  {
    var t := GetTarget(e);
    var held := HeldPings(ledger, t);
    var oldest := RoomOfPings(ledger, x, room, false, t);
    AppendPing(ledger, room, x, t);
    assert x !in ledger.events;
    assert HeldPings(Appended(room, x), t) == held - {oldest} + {x};
    assert |held - {oldest} + {x}| == |held|;
    assert e != x && forall y :: y in room.events ==> y in ledger.events;
  }

  lemma AppendKeepsDismissed(ledger: Ledger, x: SyncEvent, room: Ledger, e: SyncEvent)
    requires WellIndexed(ledger) && e.payload.Ping? && Dismissed(ledger, e)
    requires !Matches(PingsTo(GetTarget(e)), x) && Room(ledger, x, room, false)
    ensures Dismissed(Appended(room, x), e)
  {
    OtherPingsUntouched(ledger, x, room, false, GetTarget(e));
    assert e != x && forall y :: y in room.events ==> y in ledger.events;
  }

  lemma StepKeepsDismissed(ledger: Ledger, max: int, op: Op, ledger': Ledger, e: SyncEvent)
    requires Sound(ledger) && Step(ledger, max, op, ledger') && (op.AddOp? || op.DedupOp?) && NoPrune(ledger, max, op.e)
    requires e.payload.Ping? && Dismissed(ledger, e)
    ensures Dismissed(ledger', e)
  {
    if op.AddOp? && !op.e.payload.Observation? {
      var ok :| Add(ledger, max, op.keys, op.e, ledger', ok);
      PlainAddKeepsDismissed(ledger, max, op.keys, op.e, ledger', ok, e);
    } else {
      var dedup, ok :| ObservationAdd(ledger, op.e, dedup, ledger', ok);
      ObservationNewcomers(ledger, op.e, dedup, ledger', ok);
      ObservationKeepsPings(ledger, op.e, dedup, ledger', ok, GetTarget(e));
    }
  }

  lemma ObservationKeepsPings(ledger: Ledger, e: SyncEvent, dedup: bool, ledger': Ledger, ok: bool, t: NaraName)
    requires Sound(ledger) && e.payload.Observation? && ObservationAdd(ledger, e, dedup, ledger', ok)
    ensures HeldPings(ledger', t) == HeldPings(ledger, t)
  {
  }

  lemma {:induction false} RunKeepsDismissed(max: int, states: seq<Ledger>, ops: seq<Op>, j: nat, k: nat, e: SyncEvent)
    requires Run(max, states, ops) && states[0] == EmptyLedger && AddsOnly(ops) && Roomy(max, states, ops)
    requires j <= k < |states| && e.payload.Ping? && Dismissed(states[j], e)
    ensures Dismissed(states[k], e)
  {
    if j < k {
      RunKeepsDismissed(max, states, ops, j, k - 1, e);
      RunStaysSound(max, states, ops, k - 1);
      StepIsPlain(max, states, ops, k - 1);
      StepKeepsDismissed(states[k - 1], max, ops[k - 1], states[k], e);
    }
  }

  /** A ping that was evicted or refused never comes back, however often it is offered again. */
  lemma EvictedPingsStayGone(max: int, states: seq<Ledger>, ops: seq<Op>, j: nat, k: nat, e: SyncEvent)
    requires Run(max, states, ops) && states[0] == EmptyLedger && AddsOnly(ops) && Roomy(max, states, ops)
    requires FaithfulIds(Offers(ops, |ops|))
    requires j <= k < |states| && e.payload.Ping? && Acceptable(e)
    requires e in Offers(ops, j) && e !in states[j].events
    ensures e !in states[k].events
  {
    RunRemembers(max, states, ops, j);
    assert NewestPings(HeldPings(states[j], GetTarget(e)), OfferedPings(Offers(ops, j), GetTarget(e)));
    assert e in OfferedPings(Offers(ops, j), GetTarget(e));
    RunKeepsDismissed(max, states, ops, j, k, e);
  }
}
