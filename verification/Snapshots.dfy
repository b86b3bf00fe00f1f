/** A checkpoint that records a nara's uptime stands for what came before it - unless the nara was
    online when it was taken. */
module Snapshots {
  import opened Wrappers
  import opened Events
  import opened Sorting
  import opened LedgerSpec
  import opened History
  import opened Uptime

  // ---------- cutting a loop in two ----------

  /** A tally up to the time it is closed at: `Closed(t, h) == Level(t)`, plus `h` while online. */
  function Level(t: Tally): int {
    t.uptime - t.onlineStart
  }

  /** Two tallies that only differ by a constant from here on. */
  ghost predicate Shifted(a: Tally, b: Tally, shift: int) {
    && a.onlineStart >= 0 && b.onlineStart >= 0
    && (a.onlineStart > 0 <==> b.onlineStart > 0) && Level(a) == Level(b) + shift
  }

  lemma NextShifted(a: Tally, b: Tally, shift: int, x: StatusEvent)
    requires Shifted(a, b, shift) && x.time > 0
    ensures Shifted(Next(a, x), Next(b, x), shift)
  {
  }

  lemma {:induction false} TallySign(s: seq<StatusEvent>, since: int)
    requires since >= 0 && forall x :: x in s ==> x.time > 0
    ensures TallyUp(s, since).onlineStart >= 0
  {
    if s != [] {
      assert s[|s| - 1] in s;
      TallySign(s[..|s| - 1], since);
    }
  }

  /** What a loop that goes on from tally `t` has over one that starts offline, once both have seen a
      status change at `first`. */
  function Gain(t: Tally, first: int): int {
    if t.onlineStart == 0 then t.uptime else Closed(t, first)
  }

  lemma FirstShifted(t: Tally, x: StatusEvent)
    requires t.onlineStart >= 0 && x.time > 0 && !x.state.OtherState?
    ensures Shifted(Next(t, x), Next(Tally(0, 0), x), Gain(t, x.time))
  {
  }

  lemma {:induction false} TallyConcat(p: seq<StatusEvent>, s: seq<StatusEvent>, since: int)
    requires s != [] && TallyUp(p, since).onlineStart >= 0
    requires forall x :: x in s ==> x.time > 0 && !x.state.OtherState?
    ensures Shifted(TallyUp(p + s, since), TallyUp(s, 0), Gain(TallyUp(p, since), s[0].time))
  {
    var front, x := s[..|s| - 1], s[|s| - 1];
    assert p + s == (p + front) + [x] && s == front + [x];
    TallySnoc(p + front, x, since);
    TallySnoc(front, x, 0);
    assert x in s;
    if front == [] {
      assert p + front == p;
      FirstShifted(TallyUp(p, since), x);
    } else {
      TallyConcat(p, front, since);
      NextShifted(TallyUp(p + front, since), TallyUp(front, 0), Gain(TallyUp(p, since), s[0].time), x);
    }
  }

  lemma PrefixOfOrdered(p: seq<StatusEvent>, s: seq<StatusEvent>)
    requires InOrder(p + s)
    ensures InOrder(p) && InOrder(s)
  {
    assert forall i :: 0 <= i < |p| ==> (p + s)[i] == p[i];
    assert forall i :: 0 <= i < |s| ==> (p + s)[|p| + i] == s[i];
    assert forall x :: x in p || x in s ==> x in p + s;
  }

  /** Counting `p` up to `asOf` and `s` from then on, against counting both at once. */
  lemma CutLoss(p: seq<StatusEvent>, s: seq<StatusEvent>, since: int, asOf: int, now: int)
    requires TallyUp(p, since).onlineStart >= 0
    requires forall x :: x in s ==> x.time > 0 && !x.state.OtherState?
    ensures Closed(TallyUp(p + s, since), now) - Closed(TallyUp(p, since), asOf) - Closed(TallyUp(s, 0), now)
            == if TallyUp(p, since).onlineStart == 0 then 0 else (if s == [] then now else s[0].time) - asOf
  {
    if s == [] {
      assert p + s == p;
    } else {
      TallyConcat(p, s, since);
      ClosedShifted(TallyUp(p + s, since), TallyUp(s, 0), Gain(TallyUp(p, since), s[0].time), now);
    }
  }

  lemma ClosedShifted(a: Tally, b: Tally, shift: int, now: int)
    requires Shifted(a, b, shift)
    ensures Closed(a, now) == Closed(b, now) + shift
  {
  }

  // ---------- cutting at a time ----------

  function UpTo(statuses: seq<StatusEvent>, asOf: int): seq<StatusEvent> {
    if statuses == [] then []
    else if statuses[|statuses| - 1].time <= asOf then UpTo(statuses[..|statuses| - 1], asOf) + [statuses[|statuses| - 1]]
    else UpTo(statuses[..|statuses| - 1], asOf)
  }

  lemma {:induction false} CutMultiset(statuses: seq<StatusEvent>, asOf: int, x: StatusEvent)
    ensures multiset(UpTo(statuses, asOf))[x] == if x.time <= asOf then multiset(statuses)[x] else 0
    ensures multiset(After(statuses, asOf))[x] == if x.time > asOf then multiset(statuses)[x] else 0
  {
    if statuses != [] {
      CutMultiset(statuses[..|statuses| - 1], asOf, x);
      assert statuses == statuses[..|statuses| - 1] + [statuses[|statuses| - 1]];
    }
  }

  lemma CutRearranged(a: seq<StatusEvent>, b: seq<StatusEvent>, asOf: int)
    requires multiset(a) == multiset(b)
    ensures multiset(UpTo(a, asOf)) == multiset(UpTo(b, asOf)) && multiset(After(a, asOf)) == multiset(After(b, asOf))
  {
    forall x ensures multiset(UpTo(a, asOf))[x] == multiset(UpTo(b, asOf))[x] && multiset(After(a, asOf))[x] == multiset(After(b, asOf))[x] {
      CutMultiset(a, asOf, x);
      CutMultiset(b, asOf, x);
    }
  }

  lemma {:induction false} AllUpTo(statuses: seq<StatusEvent>, asOf: int)
    requires forall x :: x in statuses ==> x.time <= asOf
    ensures UpTo(statuses, asOf) == statuses && After(statuses, asOf) == []
  {
    if statuses != [] {
      assert statuses == statuses[..|statuses| - 1] + [statuses[|statuses| - 1]];
      AllUpTo(statuses[..|statuses| - 1], asOf);
    }
  }

  lemma {:induction false} CutInOrder(sorted: seq<StatusEvent>, asOf: int)
    requires InOrder(sorted)
    ensures UpTo(sorted, asOf) + After(sorted, asOf) == sorted
  {
    if sorted != [] {
      var front, x := sorted[..|sorted| - 1], sorted[|sorted| - 1];
      assert sorted == front + [x];
      InOrderFront(sorted);
      if x.time > asOf {
        CutInOrder(front, asOf);
      } else {
        AllUpTo(front, asOf);
      }
    }
  }

  /** The sum is the tally of any arrangement in order. */
  lemma SumIsTally(statuses: seq<StatusEvent>, sorted: seq<StatusEvent>, since: int, now: int, r: int)
    requires AddsUpTo(statuses, since, now, r) && since >= 0 && multiset(sorted) == multiset(statuses) && InOrder(sorted)
    ensures r == Closed(TallyUp(sorted, since), now)
  {
    OrderlyInOrder(sorted);
    assert SortedArrangement(sorted, sorted, ByTime());
    SumUnique(sorted, statuses, since, now, Closed(TallyUp(sorted, since), now), r);
  }

  lemma OrderlyInOrder(sorted: seq<StatusEvent>)
    requires InOrder(sorted)
    ensures Orderly(sorted)
  {
    forall a, b | a in sorted && b in sorted ensures Agree(a, b) {
      var i :| 0 <= i < |sorted| && sorted[i] == a;
      var j :| 0 <= j < |sorted| && sorted[j] == b;
      assert i < j ==> Agree(sorted[i], sorted[j]);
      assert j < i ==> Agree(sorted[j], sorted[i]);
    }
  }

  // ---------- the snapshot theorem ----------

  /** Was the subject counted as online at `asOf`? It was reported ONLINE last, or it was assumed to be
      online and not reported otherwise. */
  ghost predicate CountedOnline(statuses: seq<StatusEvent>, since: int, asOf: int) {
    OnlineAt(statuses, asOf) || (since > 0 && forall s :: s in statuses && s.time <= asOf ==> s.state == ONLINE)
  }

  lemma {:induction false} OpenIff(p: seq<StatusEvent>, since: int, asOf: int)
    requires InOrder(p) && since >= 0 && forall x :: x in p ==> x.time <= asOf
    ensures TallyUp(p, since).onlineStart > 0 <==> CountedOnline(p, since, asOf)
  {
    if p != [] {
      var front, x := p[..|p| - 1], p[|p| - 1];
      assert p == front + [x];
      InOrderFront(p);
      assert x in p;
      OpenIff(front, since, asOf);
      TallySign(front, since);
      FromNewest(front, x, asOf);
    }
  }

  lemma OnlineUpTo(statuses: seq<StatusEvent>, since: int, asOf: int)
    ensures CountedOnline(UpTo(statuses, asOf), since, asOf) <==> CountedOnline(statuses, since, asOf)
  {
    forall x ensures x in UpTo(statuses, asOf) <==> x in statuses && x.time <= asOf {
      CutMultiset(statuses, asOf, x);
      assert x in UpTo(statuses, asOf) <==> x in multiset(UpTo(statuses, asOf));
      assert x in statuses <==> x in multiset(statuses);
    }
    assert forall s :: LatestAt(UpTo(statuses, asOf), asOf, s) <==> LatestAt(statuses, asOf, s);
  }

  lemma OnlineRearranged(a: seq<StatusEvent>, b: seq<StatusEvent>, since: int, asOf: int)
    requires multiset(a) == multiset(b)
    ensures CountedOnline(a, since, asOf) <==> CountedOnline(b, since, asOf)
  {
    SameElements(a, b);
    OnlineAtRearranged(a, b, asOf);
  }

  /** Deriving at `asOf` from what was dated up to then, and at `now` from what is dated later, against
      deriving at `now` from everything. */
  lemma CutLossOf(statuses: seq<StatusEvent>, since: int, asOf: int, now: int, r: int, before: int, later: int)
    requires Orderly(statuses) && since >= 0 && AddsUpTo(statuses, since, now, r)
    requires AddsUpTo(UpTo(statuses, asOf), since, asOf, before) && AddsUpTo(After(statuses, asOf), 0, now, later)
    ensures !CountedOnline(statuses, since, asOf) ==> r == before + later
    ensures CountedOnline(statuses, since, asOf) && After(statuses, asOf) == [] ==> r == before + later + (now - asOf)
    ensures CountedOnline(statuses, since, asOf) && After(statuses, asOf) != [] ==> r > before + later
  {
    var sorted: seq<StatusEvent> :| SortedArrangement(statuses, sorted, ByTime()) && r == Closed(TallyUp(sorted, since), now);
    OrderlySorted(statuses, sorted);
    var p, s := UpTo(sorted, asOf), After(sorted, asOf);
    CutInOrder(sorted, asOf);
    PrefixOfOrdered(p, s);
    CutRearranged(sorted, statuses, asOf);
    SumIsTally(UpTo(statuses, asOf), p, since, asOf, before);
    SumIsTally(After(statuses, asOf), s, 0, now, later);
    CutOpenIff(sorted, statuses, since, asOf);
    TallySign(p, since);
    CutLoss(p, s, since, asOf, now);
    SameElements(After(statuses, asOf), s);
    AfterMembers(sorted, asOf);
    assert s != [] ==> s[0] in s;
  }

  lemma CutOpenIff(sorted: seq<StatusEvent>, statuses: seq<StatusEvent>, since: int, asOf: int)
    requires multiset(sorted) == multiset(statuses) && InOrder(UpTo(sorted, asOf)) && since >= 0
    ensures TallyUp(UpTo(sorted, asOf), since).onlineStart > 0 <==> CountedOnline(statuses, since, asOf)
  {
    forall x | x in UpTo(sorted, asOf) ensures x.time <= asOf {
      CutMultiset(sorted, asOf, x);
      assert x in multiset(UpTo(sorted, asOf));
    }
    OpenIff(UpTo(sorted, asOf), since, asOf);
    OnlineUpTo(sorted, since, asOf);
    OnlineRearranged(sorted, statuses, since, asOf);
  }

  /** The total that `full` would have given at `asOf`, had it held only the status changes dated up to
      then. */
  ghost predicate TotalAsOf(full: seq<SyncEvent>, subject: NaraName, asOf: int, u: int) {
    AddsUpTo(UpTo(BaseStatuses(full, subject), asOf), AssumedStart(full, subject), asOf, u - BaseUptime(full, subject))
  }

  function BaseStatuses(events: seq<SyncEvent>, subject: NaraName): seq<StatusEvent> {
    Statuses(events, subject, AsOf(LatestCheckpoint(events, subject)))
  }

  /** The snapshot theorem for uptime, end to end and for every baseline: `log` holds a checkpoint
      with the total of `full` as of `asOf`, and the status changes after `asOf`. Then both give the same
      total at `now` if and only if the subject did not count as online at `asOf`, or nothing has
      happened and no time has passed since. Otherwise the checkpoint loses the time up to the
      next status change. */
  lemma CheckpointKeepsUptime(full: seq<SyncEvent>, log: seq<SyncEvent>, subject: NaraName, c: SyncEvent, now: int,
                              r: int, r': int)
    requires IsTotalUptime(full, subject, now, r) && IsTotalUptime(log, subject, now, r')
    requires Orderly(BaseStatuses(full, subject))
    requires LatestCheckpoint(log, subject) == Some(c) && IsCheckpointOf(c, subject)
    requires AsOf(LatestCheckpoint(full, subject)) <= c.payload.cp.asOfTime <= now
    requires TotalAsOf(full, subject, c.payload.cp.asOfTime, c.payload.cp.observation.totalUptime)
    requires multiset(Statuses(log, subject, c.payload.cp.asOfTime)) == multiset(Statuses(full, subject, c.payload.cp.asOfTime))
    ensures r' <= r
    ensures r' == r <==>
            || !CountedOnline(BaseStatuses(full, subject), AssumedStart(full, subject), c.payload.cp.asOfTime)
            || (c.payload.cp.asOfTime == now && Statuses(full, subject, now) == [])
  {
    var asOf, total := c.payload.cp.asOfTime, c.payload.cp.observation.totalUptime;
    TotalParts(full, subject, now, r);
    TotalParts(log, subject, now, r');
    LaterPart(full, log, subject, asOf, now, r' - total);
    CutLossOf(BaseStatuses(full, subject), AssumedStart(full, subject), asOf, now, r - BaseUptime(full, subject),
              total - BaseUptime(full, subject), r' - total);
  }

  lemma TotalParts(events: seq<SyncEvent>, subject: NaraName, now: int, r: int)
    requires IsTotalUptime(events, subject, now, r)
    ensures AddsUpTo(BaseStatuses(events, subject), AssumedStart(events, subject), now, r - BaseUptime(events, subject))
    ensures AsOf(LatestCheckpoint(events, subject)) >= 0
    ensures LatestCheckpoint(events, subject).Some? ==> AsOf(LatestCheckpoint(events, subject)) > 0
  {
    LatestIsLatest(events, subject);
  }

  lemma LaterPart(full: seq<SyncEvent>, log: seq<SyncEvent>, subject: NaraName, asOf: int, now: int, later: int)
    requires AsOf(LatestCheckpoint(full, subject)) <= asOf && asOf > 0 && AddsUpTo(Statuses(log, subject, asOf), 0, now, later)
    requires multiset(Statuses(log, subject, asOf)) == multiset(Statuses(full, subject, asOf))
    ensures After(BaseStatuses(full, subject), asOf) == Statuses(full, subject, asOf)
    ensures AddsUpTo(After(BaseStatuses(full, subject), asOf), 0, now, later)
  {
    LatestIsLatest(full, subject);
    StatusesAfter(full, subject, AsOf(LatestCheckpoint(full, subject)), asOf);
    SumRearranged(Statuses(log, subject, asOf), Statuses(full, subject, asOf), 0, now, later);
  }
}
