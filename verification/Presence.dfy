/** The online-status read model: most recent event wins, per nara. */
module Presence {
  import opened Wrappers
  import opened Events
  import opened Sorting
  import opened LedgerSpec
  import opened LedgerInvariants
  import opened Projections

  datatype OnlineRecord = OnlineRecord(status: OnlineState, lastEventTime: int, lastEventType: string, observer: NaraName)

  type States = map<NaraName, OnlineRecord>

  /** Overwrites an entry only with something newer; the nameless have no entry. */
  function Updated(states: States, name: NaraName, record: OnlineRecord): States {
    if name == "" then states
    else if name in states && record.lastEventTime <= states[name].lastEventTime then states
    else states[name := record]
  }

  function Record(e: SyncEvent, status: OnlineState, observer: NaraName): OnlineRecord {
    OnlineRecord(status, e.timestamp, Service(e.payload), observer)
  }

  function ObservedState(o: ObservationPayload): OnlineState {
    match o.kind
    case StatusChange => o.onlineState
    case Restart => ONLINE
    case FirstSeen => ONLINE
    case OtherKind(_) => NoState
  }

  /** The handler given to the projection engine. A ping updates two names. */
  function Handle(states: States, e: SyncEvent): States {
    match e.payload
    case HeyThere(from, _, _) => Updated(states, from, Record(e, ONLINE, from))
    case Chau(from, _) => Updated(states, from, Record(e, OFFLINE, from))
    case Seen(observer, subject, _) => Updated(states, subject, Record(e, ONLINE, observer))
    case Observation(obs) =>
      if ObservedState(obs) == NoState then states
      else Updated(states, obs.subject, Record(e, ObservedState(obs), obs.observer))
    case Social(_, actor, _, _, _) => Updated(states, actor, Record(e, ONLINE, actor))
    case Ping(observer, target, _) =>
      Updated(Updated(states, observer, Record(e, ONLINE, observer)), target, Record(e, ONLINE, observer))
    case Checkpoint(_) => states
    case NoPayload(_) => states
  }

  /** The map of states, updated entry by entry. */
  class OnlineStatuses {
    var states: States

    constructor ()
      ensures states == map[]
    {
      states := map[];
    }

    method UpdateState(name: NaraName, status: OnlineState, timestamp: int, service: string, observer: NaraName)
      modifies this
      ensures states == Updated(old(states), name, OnlineRecord(status, timestamp, service, observer))
    {
      if name == "" {
        return;
      }
      if name !in states || timestamp > states[name].lastEventTime {
        states := states[name := OnlineRecord(status, timestamp, service, observer)];
      }
    }

    method HandleEvent(e: SyncEvent)
      modifies this
      ensures states == Handle(old(states), e)
    {
      var targetName, newStatus, observer := "", NoState, "";
      match e.payload {
        case HeyThere(from, _, _) => targetName, newStatus, observer := from, ONLINE, from;
        case Chau(from, _) => targetName, newStatus, observer := from, OFFLINE, from;
        case Seen(seenBy, subject, _) => targetName, newStatus, observer := subject, ONLINE, seenBy;
        case Observation(obs) =>
          targetName, observer := obs.subject, obs.observer;
          match obs.kind {
            case StatusChange => newStatus := obs.onlineState;
            case Restart => newStatus := ONLINE;
            case FirstSeen => newStatus := ONLINE;
            case OtherKind(_) =>
          }
        case Social(_, actor, _, _, _) => targetName, newStatus, observer := actor, ONLINE, actor;
        case Ping(pinger, target, _) =>
          UpdateState(pinger, ONLINE, e.timestamp, Service(e.payload), pinger);
          targetName, newStatus, observer := target, ONLINE, pinger;
        case Checkpoint(_) =>
        case NoPayload(_) =>
      }
      if targetName == "" || newStatus == NoState {
        return;
      }
      UpdateState(targetName, newStatus, e.timestamp, Service(e.payload), observer);
    }

    /** An ONLINE entry that is older than the threshold reads as MISSING. */
    method GetStatus(name: NaraName, now: int, threshold: int) returns (status: OnlineState)
      ensures status == StatusAt(states, name, now, threshold)
    {
      if name !in states {
        return NoState;
      }
      status := states[name].status;
      if status == ONLINE {
        var age := now - states[name].lastEventTime;
        if age > threshold {
          return MISSING;
        }
      }
    }
  }

  function StatusAt(states: States, name: NaraName, now: int, threshold: int): OnlineState {
    if name !in states then NoState
    else if states[name].status == ONLINE && now - states[name].lastEventTime > threshold then MISSING
    else states[name].status
  }

  // ---------- what an event says about a name ----------

  /** Independently of any state: what one event says about one nara, and at whose word. */
  function Says(e: SyncEvent, name: NaraName): Option<OnlineRecord> {
    if name == "" then None
    else match e.payload
      case HeyThere(from, _, _) => if from == name then Some(OnlineRecord(ONLINE, e.timestamp, "hey-there", name)) else None
      case Chau(from, _) => if from == name then Some(OnlineRecord(OFFLINE, e.timestamp, "chau", name)) else None
      case Seen(observer, subject, _) =>
        if subject == name then Some(OnlineRecord(ONLINE, e.timestamp, "seen", observer)) else None
      case Social(_, actor, _, _, _) => if actor == name then Some(OnlineRecord(ONLINE, e.timestamp, "social", name)) else None
      case Ping(observer, target, _) =>
        if observer == name || target == name then Some(OnlineRecord(ONLINE, e.timestamp, "ping", observer)) else None
      case Observation(obs) =>
        if obs.subject != name then None
        else if obs.kind == Restart || obs.kind == FirstSeen then
          Some(OnlineRecord(ONLINE, e.timestamp, "observation", obs.observer))
        else if obs.kind == StatusChange && obs.onlineState != NoState then
          Some(OnlineRecord(obs.onlineState, e.timestamp, "observation", obs.observer))
        else None
      case Checkpoint(_) => None
      case NoPayload(_) => None
  }

  predicate Touches(e: SyncEvent, name: NaraName) {
    Says(e, name).Some?
  }

  /** `e` is a newest of the events that touch `name`. */
  ghost predicate NewestTouching(s: seq<SyncEvent>, name: NaraName, e: SyncEvent) {
    && e in s && Touches(e, name)
    && forall x :: x in s && Touches(x, name) ==> x.timestamp <= e.timestamp
  }

  /** Most recent event wins. */
  ghost predicate MostRecentWins(s: seq<SyncEvent>, states: States, name: NaraName) {
    if name in states then exists e :: NewestTouching(s, name, e) && states[name] == Says(e, name).value
    else forall e :: e in s ==> !Touches(e, name)
  }

  function Replayed(s: seq<SyncEvent>): States {
    Fold(Handle, map[], s)
  }

  lemma HandleEntry(states: States, e: SyncEvent, name: NaraName)
    ensures !Touches(e, name) ==> (name in Handle(states, e) <==> name in states)
    ensures !Touches(e, name) && name in states ==> Handle(states, e)[name] == states[name]
    ensures Touches(e, name) ==> name in Handle(states, e) && Says(e, name).value.lastEventTime == e.timestamp
    ensures Touches(e, name) ==>
              Handle(states, e)[name] ==
              if name in states && e.timestamp <= states[name].lastEventTime then states[name] else Says(e, name).value
  {
  }

  /** Whatever order events were handled in, each name's entry is what a newest event that
      touches it says. */
  lemma {:induction false} ReplayMostRecentWins(s: seq<SyncEvent>, name: NaraName)
    ensures MostRecentWins(s, Replayed(s), name)
  {
    if s != [] {
      var front, last := s[..|s| - 1], s[|s| - 1];
      assert s == front + [last];
      ReplayMostRecentWins(front, name);
      var states := Replayed(front);
      HandleEntry(states, last, name);
      assert forall x :: x in s <==> x in front || x == last;
      if name in states {
        var e :| NewestTouching(front, name, e) && states[name] == Says(e, name).value;
        HandleEntry(map[], e, name);
        assert NewestTouching(s, name, if Touches(last, name) && last.timestamp > e.timestamp then last else e);
      } else if Touches(last, name) {
        assert NewestTouching(s, name, last);
      }
    }
  }

  ghost predicate DistinctTouchTimes(s: seq<SyncEvent>, name: NaraName) {
    forall a, b :: a in s && b in s && Touches(a, name) && Touches(b, name) && a.timestamp == b.timestamp ==> a == b
  }

  function EntryOf(states: States, name: NaraName): Option<OnlineRecord> {
    if name in states then Some(states[name]) else None
  }

  /** All newest events that touch the name say the same about it. */
  ghost predicate NewestAgree(s: seq<SyncEvent>, name: NaraName) {
    forall a, b :: NewestTouching(s, name, a) && NewestTouching(s, name, b) ==> Says(a, name) == Says(b, name)
  }

  lemma AgreementFixesEntry(s: seq<SyncEvent>, t: seq<SyncEvent>, name: NaraName)
    requires multiset(s) == multiset(t) && NewestAgree(s, name)
    ensures EntryOf(Replayed(s), name) == EntryOf(Replayed(t), name)
  {
    SameElements(s, t);
    ReplayMostRecentWins(s, name);
    ReplayMostRecentWins(t, name);
    if name in Replayed(s) && name in Replayed(t) {
      var a :| NewestTouching(s, name, a) && Replayed(s)[name] == Says(a, name).value;
      var b :| NewestTouching(t, name, b) && Replayed(t)[name] == Says(b, name).value;
      assert NewestTouching(s, name, b);
    }
  }

  lemma MoveToFront(s: seq<SyncEvent>, a: SyncEvent) returns (t: seq<SyncEvent>)
    requires a in s
    ensures t != [] && t[0] == a && multiset(t) == multiset(s)
  {
    var i :| 0 <= i < |s| && s[i] == a;
    t := [a] + (s[..i] + s[i + 1..]);
    assert s == s[..i] + [a] + s[i + 1..];
  }

  /** A newest event that is handled first keeps its say. */
  lemma {:induction false} FirstNewestStays(t: seq<SyncEvent>, name: NaraName)
    requires t != [] && NewestTouching(t, name, t[0])
    ensures EntryOf(Replayed(t), name) == Says(t[0], name)
  {
    var front, last := t[..|t| - 1], t[|t| - 1];
    assert t == front + [last] && last in t;
    HandleEntry(Replayed(front), last, name);
    if front != [] {
      assert front[0] == t[0] && forall x :: x in front ==> x in t;
      FirstNewestStays(front, name);
      HandleEntry(map[], t[0], name);
    }
  }

  lemma DisagreementShows(s: seq<SyncEvent>, name: NaraName, a: SyncEvent)
    requires NewestTouching(s, name, a)
    requires forall t :: multiset(t) == multiset(s) ==> EntryOf(Replayed(t), name) == EntryOf(Replayed(s), name)
    ensures Says(a, name) == EntryOf(Replayed(s), name)
  {
    var t := MoveToFront(s, a);
    SameElements(s, t);
    FirstNewestStays(t, name);
  }

  /** The order of handling does not matter for a name if and only if the newest events that touch
      it say the same; in particular if no two of them have the same timestamp. */
  lemma OrderDoesNotMatterIff(s: seq<SyncEvent>, name: NaraName)
    ensures NewestAgree(s, name)
            <==> forall t :: multiset(t) == multiset(s) ==> EntryOf(Replayed(t), name) == EntryOf(Replayed(s), name)
    ensures DistinctTouchTimes(s, name) ==> NewestAgree(s, name)
  {
    if NewestAgree(s, name) {
      forall t | multiset(t) == multiset(s) ensures EntryOf(Replayed(t), name) == EntryOf(Replayed(s), name) {
        AgreementFixesEntry(s, t, name);
      }
    }
    if forall t :: multiset(t) == multiset(s) ==> EntryOf(Replayed(t), name) == EntryOf(Replayed(s), name) {
      forall a, b | NewestTouching(s, name, a) && NewestTouching(s, name, b) ensures Says(a, name) == Says(b, name) {
        DisagreementShows(s, name, a);
        DisagreementShows(s, name, b);
      }
    }
  }

  /** Without them it does: at equal timestamps whoever is handled first stays. */
  lemma TiesDependOnOrder() returns (s: seq<SyncEvent>, t: seq<SyncEvent>)
    ensures multiset(s) == multiset(t)
    ensures "ann" in Replayed(s) && "ann" in Replayed(t) && Replayed(s)["ann"].status != Replayed(t)["ann"].status
  {
    var hello := SyncEvent("a", 1, "ann", HeyThere("ann", "key", ""));
    var bye := SyncEvent("b", 1, "ann", Chau("ann", "key"));
    s, t := [hello] + [bye], [bye] + [hello];
    ReplayedPair(hello, bye);
    ReplayedPair(bye, hello);
  }

  lemma ReplayedPair(a: SyncEvent, b: SyncEvent)
    ensures Replayed([a] + [b]) == Handle(Handle(map[], a), b)
  {
    ReplayedSnoc([], a);
    assert [] + [a] == [a];
    ReplayedSnoc([a], b);
  }

  lemma ReplayedSnoc(s: seq<SyncEvent>, e: SyncEvent)
    ensures Replayed(s + [e]) == Handle(Replayed(s), e)
  {
  }

  /** End to end: in every harmless mix of ledger operations and projection runs, right after
      a run the status of every nara is that of a newest held event that touches it - and of
      the newest one, if timestamps are distinct. */
  lemma StatusIsNewestHeld(max: int, states: seq<World>, ops: seq<WorldOp>, k: nat, name: NaraName)
    requires HarmlessRun(max, states, ops) && k < |ops| && ops[k].RunOnceOp?
    ensures var held, status := states[k + 1].ledger.events, Replayed(states[k + 1].proj.processed);
            && MostRecentWins(held, status, name)
            && (DistinctTouchTimes(held, name) ==>
                  forall e :: NewestTouching(held, name, e) ==> name in status && status[name] == Says(e, name).value)
  {
    ReplayIsExact(max, states, ops, k);
    var held, done := states[k + 1].ledger.events, states[k + 1].proj.processed;
    SameElements(held, done);
    ReplayMostRecentWins(done, name);
    RearrangedMostRecent(held, done, name);
  }

  lemma RearrangedMostRecent(held: seq<SyncEvent>, done: seq<SyncEvent>, name: NaraName)
    requires forall e :: e in held <==> e in done
    requires MostRecentWins(done, Replayed(done), name)
    ensures MostRecentWins(held, Replayed(done), name)
    ensures DistinctTouchTimes(held, name) ==>
              forall e :: NewestTouching(held, name, e) ==> name in Replayed(done) && Replayed(done)[name] == Says(e, name).value
  {
  }

  /** A nara that no event touches has no status. */
  lemma UntouchedHasNoStatus(s: seq<SyncEvent>, name: NaraName, now: int, threshold: int)
    requires forall e :: e in s ==> !Touches(e, name)
    ensures StatusAt(Replayed(s), name, now, threshold) == NoState
  {
    ReplayMostRecentWins(s, name);
  }

  /** What a reader of the status sees at time `now`. */
  lemma MissingMeansSilent(s: seq<SyncEvent>, name: NaraName, now: int, threshold: int, e: SyncEvent)
    requires DistinctTouchTimes(s, name) && NewestTouching(s, name, e)
    ensures var said := Says(e, name).value.status;
            StatusAt(Replayed(s), name, now, threshold)
            == if said == ONLINE && e.timestamp < now - threshold then MISSING else said
  {
    ReplayMostRecentWins(s, name);
    HandleEntry(map[], e, name);
  }
}
