/** Derived uptime is a measure: the number of seconds at which the latest status is ONLINE. */
module Uptime {
  import opened Wrappers
  import opened Events
  import opened Sorting
  import opened LedgerSpec
  import opened History

  /** At second `t` the latest status so far is ONLINE. */
  ghost predicate OnlineAt(statuses: seq<StatusEvent>, t: int) {
    exists s :: LatestAt(statuses, t, s) && s.state == ONLINE
  }

  ghost predicate LatestAt(statuses: seq<StatusEvent>, t: int, s: StatusEvent) {
    && s in statuses && s.time <= t
    && forall x :: x in statuses && x.time <= t ==> x.time <= s.time
  }

  /** The number of online seconds in `[from, until)`. */
  ghost function OnlineSeconds(statuses: seq<StatusEvent>, from: int, until: int): nat
    decreases until - from
  {
    if until <= from then 0
    else OnlineSeconds(statuses, from, until - 1) + if OnlineAt(statuses, until - 1) then 1 else 0
  }

  /** Two reports do not contradict each other: those of one second agree on being online. */
  predicate Agree(a: StatusEvent, b: StatusEvent) {
    a.time == b.time ==> (a.state == ONLINE <==> b.state == ONLINE)
  }

  /** Status changes at positive seconds, in one of the three states, that agree with each other. */
  ghost predicate Orderly(statuses: seq<StatusEvent>) {
    && (forall a, b :: a in statuses && b in statuses ==> Agree(a, b))
    && (forall s :: s in statuses ==> s.time > 0 && !s.state.OtherState?)
  }

  lemma {:induction false} OnlineSecondsSplit(statuses: seq<StatusEvent>, from: int, mid: int, until: int)
    requires from <= mid <= until
    ensures OnlineSeconds(statuses, from, until) == OnlineSeconds(statuses, from, mid) + OnlineSeconds(statuses, mid, until)
    decreases until - mid
  {
    if mid < until {
      OnlineSecondsSplit(statuses, from, mid, until - 1);
    }
  }

  lemma {:induction false} SameOnlineSeconds(a: seq<StatusEvent>, b: seq<StatusEvent>, from: int, until: int)
    requires forall t :: from <= t < until ==> (OnlineAt(a, t) <==> OnlineAt(b, t))
    ensures OnlineSeconds(a, from, until) == OnlineSeconds(b, from, until)
    decreases until - from
  {
    if from < until {
      SameOnlineSeconds(a, b, from, until - 1);
    }
  }

  lemma {:induction false} ConstantOnline(statuses: seq<StatusEvent>, from: int, until: int, online: bool)
    requires from <= until && forall t :: from <= t < until ==> OnlineAt(statuses, t) == online
    ensures OnlineSeconds(statuses, from, until) == if online then until - from else 0
    decreases until - from
  {
    if from < until {
      ConstantOnline(statuses, from, until - 1, online);
    }
  }

  lemma {:induction false} OnlineSecondsBounds(statuses: seq<StatusEvent>, from: int, until: int)
    ensures OnlineSeconds(statuses, from, until) <= if from <= until then until - from else 0
    decreases until - from
  {
    if from < until {
      OnlineSecondsBounds(statuses, from, until - 1);
    }
  }

  /** Only which status changes there are matters, not their order. */
  lemma OnlineAtRearranged(a: seq<StatusEvent>, b: seq<StatusEvent>, t: int)
    requires multiset(a) == multiset(b)
    ensures OnlineAt(a, t) <==> OnlineAt(b, t)
  {
    SameElements(a, b);
    assert forall s :: LatestAt(a, t, s) <==> LatestAt(b, t, s);
  }

  // ---------- one more status change ----------

  lemma BeforeNewest(front: seq<StatusEvent>, x: StatusEvent, t: int)
    requires t < x.time
    ensures OnlineAt(front + [x], t) <==> OnlineAt(front, t)
  {
  }

  lemma FromNewest(front: seq<StatusEvent>, x: StatusEvent, t: int)
    requires x.time <= t && forall s :: s in front ==> s.time <= x.time && Agree(s, x)
    ensures OnlineAt(front + [x], t) <==> x.state == ONLINE
  {
    assert LatestAt(front + [x], t, x);
  }

  lemma ExtendMeasure(front: seq<StatusEvent>, x: StatusEvent, h: int)
    requires 0 <= x.time <= h && forall s :: s in front ==> s.time <= x.time && Agree(s, x)
    ensures OnlineSeconds(front + [x], 0, h)
            == OnlineSeconds(front, 0, x.time) + if x.state == ONLINE then h - x.time else 0
  {
    var s := front + [x];
    OnlineSecondsSplit(s, 0, x.time, h);
    forall t | 0 <= t < x.time ensures OnlineAt(s, t) <==> OnlineAt(front, t) {
      BeforeNewest(front, x, t);
    }
    SameOnlineSeconds(s, front, 0, x.time);
    forall t | x.time <= t < h ensures OnlineAt(s, t) == (x.state == ONLINE) {
      FromNewest(front, x, t);
    }
    ConstantOnline(s, x.time, h, x.state == ONLINE);
  }

  ghost predicate InOrder(s: seq<StatusEvent>) {
    && (forall i, j :: 0 <= i < j < |s| ==> s[i].time <= s[j].time && Agree(s[i], s[j]))
    && (forall x :: x in s ==> x.time > 0 && !x.state.OtherState?)
  }

  lemma OrderlySorted(statuses: seq<StatusEvent>, sorted: seq<StatusEvent>)
    requires Orderly(statuses) && SortedArrangement(statuses, sorted, ByTime())
    ensures InOrder(sorted)
  {
    SameElements(statuses, sorted);
    forall i, j | 0 <= i < j < |sorted| ensures sorted[i].time <= sorted[j].time && Agree(sorted[i], sorted[j]) {
      assert sorted[i] in sorted && sorted[j] in sorted;
      assert !Below(ByTime()(sorted[j]), ByTime()(sorted[i]));
    }
  }

  lemma InOrderFront(s: seq<StatusEvent>)
    requires InOrder(s) && s != []
    ensures var front, x := s[..|s| - 1], s[|s| - 1];
            InOrder(front) && x.time > 0 && !x.state.OtherState? && forall y :: y in front ==> y.time <= x.time && Agree(y, x)
  {
  }

  lemma NextClosed(t: Tally, x: StatusEvent, h: int)
    requires t.onlineStart >= 0 && x.time > 0 && !x.state.OtherState?
    ensures Closed(Next(t, x), h) == Closed(t, x.time) + if x.state == ONLINE then h - x.time else 0
    ensures Next(t, x).onlineStart >= 0 && (Next(t, x).onlineStart > 0 <==> x.state == ONLINE)
  {
  }

  /** The loop's tally, closed at any later time, is the measure; and a period is open exactly
      when the last status is ONLINE. */
  lemma {:induction false} TallyMeasures(s: seq<StatusEvent>, h: int)
    requires InOrder(s) && 0 <= h && forall x :: x in s ==> x.time <= h
    ensures Closed(TallyUp(s, 0), h) == OnlineSeconds(s, 0, h)
    ensures TallyUp(s, 0).onlineStart >= 0
    ensures TallyUp(s, 0).onlineStart > 0 <==> OnlineAt(s, h)
  {
    if s == [] {
      ConstantOnline(s, 0, h, false);
    } else {
      var front, x := s[..|s| - 1], s[|s| - 1];
      assert s == front + [x];
      InOrderFront(s);
      TallyMeasures(front, x.time);
      NextClosed(TallyUp(front, 0), x, h);
      ExtendMeasure(front, x, h);
      FromNewest(front, x, h);
    }
  }

  /** If no status change lies in the future, whatever way ties in the sort fell, derived uptime
      is the number of seconds before `now` whose latest status is ONLINE. */
  lemma UptimeIsMeasure(statuses: seq<StatusEvent>, now: int, r: int)
    requires Orderly(statuses) && AddsUpTo(statuses, 0, now, r)
    requires 0 <= now && forall s :: s in statuses ==> s.time <= now
    ensures r == OnlineSeconds(statuses, 0, now)
    ensures 0 <= r <= now
  {
    var sorted :| SortedArrangement(statuses, sorted, ByTime()) && r == Closed(TallyUp(sorted, 0), now);
    OrderlySorted(statuses, sorted);
    SameElements(statuses, sorted);
    TallyMeasures(sorted, now);
    MeasureRearranged(sorted, statuses, 0, now);
    OnlineSecondsBounds(statuses, 0, now);
  }

  /** Uptime after a cutoff is at most the time since the cutoff. */
  lemma UptimeWithinPeriod(statuses: seq<StatusEvent>, after: int, now: int, r: int)
    requires Orderly(statuses) && AddsUpTo(statuses, 0, now, r)
    requires 0 <= after <= now && forall s :: s in statuses ==> after < s.time <= now
    ensures 0 <= r <= now - after
  {
    UptimeIsMeasure(statuses, now, r);
    NothingBefore(statuses, after);
    OnlineSecondsSplit(statuses, 0, after, now);
    OnlineSecondsBounds(statuses, after, now);
  }

  lemma NothingBefore(statuses: seq<StatusEvent>, after: int)
    requires 0 <= after && forall s :: s in statuses ==> after < s.time
    ensures OnlineSeconds(statuses, 0, after) == 0
  {
  }

  /** Without new status changes uptime never falls as time goes by. */
  lemma UptimeMonotone(statuses: seq<StatusEvent>, now: int, later: int, r: int, r': int)
    requires Orderly(statuses) && AddsUpTo(statuses, 0, now, r) && AddsUpTo(statuses, 0, later, r')
    requires 0 <= now <= later && forall s :: s in statuses ==> s.time <= now
    ensures r <= r' <= r + (later - now)
  {
    UptimeIsMeasure(statuses, now, r);
    UptimeIsMeasure(statuses, later, r');
    OnlineSecondsSplit(statuses, 0, now, later);
    OnlineSecondsBounds(statuses, now, later);
  }

  // ---------- clocks that run ahead ----------

  lemma FullyOnlineIff(statuses: seq<StatusEvent>, from: int, until: int)
    requires from <= until
    ensures OnlineSeconds(statuses, from, until) == until - from <==> forall t :: from <= t < until ==> OnlineAt(statuses, t)
    decreases until - from
  {
    if from < until {
      FullyOnlineIff(statuses, from, until - 1);
      OnlineSecondsBounds(statuses, from, until - 1);
    }
  }

  lemma FullyOfflineIff(statuses: seq<StatusEvent>, from: int, until: int)
    requires from <= until
    ensures OnlineSeconds(statuses, from, until) == 0 <==> forall t :: from <= t < until ==> !OnlineAt(statuses, t)
    decreases until - from
  {
    if from < until {
      FullyOfflineIff(statuses, from, until - 1);
    }
  }

  /** The online time that a loop closed at `now` takes back if the status is ONLINE at `last`. */
  ghost function Ahead(statuses: seq<StatusEvent>, now: int, last: int): int {
    if OnlineAt(statuses, last) then last - now else 0
  }

  lemma TallyAhead(sorted: seq<StatusEvent>, now: int, last: int)
    requires InOrder(sorted) && last >= 0 && forall x :: x in sorted ==> x.time <= last
    ensures Closed(TallyUp(sorted, 0), now) == OnlineSeconds(sorted, 0, last) - Ahead(sorted, now, last)
    ensures TallyUp(sorted, 0).onlineStart > 0 <==> OnlineAt(sorted, last)
  {
    TallyMeasures(sorted, last);
  }

  /** One ONLINE dated in the future makes derived uptime negative. */
  lemma FutureOnlineIsNegative(now: int, ahead: int)
    requires now > 0 && ahead > 0
    ensures AddsUpTo([StatusEvent(now + ahead, ONLINE)], 0, now, -ahead)
  {
    var s := [StatusEvent(now + ahead, ONLINE)];
    assert s[..0] == [];
    assert TallyUp(s, 0) == Tally(0, now + ahead);
    assert SortedArrangement(s, s, ByTime());
  }

  // ---------- snapshots ----------

  function After(statuses: seq<StatusEvent>, asOf: int): seq<StatusEvent> {
    if statuses == [] then []
    else if statuses[|statuses| - 1].time > asOf then After(statuses[..|statuses| - 1], asOf) + [statuses[|statuses| - 1]]
    else After(statuses[..|statuses| - 1], asOf)
  }

  lemma {:induction false} AfterMembers(statuses: seq<StatusEvent>, asOf: int)
    ensures forall s :: s in After(statuses, asOf) <==> s in statuses && s.time > asOf
  {
    if statuses != [] {
      AfterMembers(statuses[..|statuses| - 1], asOf);
      assert statuses == statuses[..|statuses| - 1] + [statuses[|statuses| - 1]];
    }
  }

  /** From `asOf` on the suffix sees what the full log sees, except that it starts out offline. */
  lemma SuffixSees(statuses: seq<StatusEvent>, asOf: int, t: int)
    requires asOf <= t
    ensures OnlineAt(After(statuses, asOf), t) ==> OnlineAt(statuses, t)
    ensures !OnlineAt(statuses, asOf) && OnlineAt(statuses, t) ==> OnlineAt(After(statuses, asOf), t)
  {
    AfterMembers(statuses, asOf);
    if OnlineAt(After(statuses, asOf), t) {
      var s :| LatestAt(After(statuses, asOf), t, s) && s.state == ONLINE;
      assert LatestAt(statuses, t, s);
    }
    if !OnlineAt(statuses, asOf) && OnlineAt(statuses, t) {
      var s :| LatestAt(statuses, t, s) && s.state == ONLINE;
      assert s.time <= asOf ==> LatestAt(statuses, asOf, s);
      assert LatestAt(After(statuses, asOf), t, s);
    }
  }

  lemma {:induction false} SuffixNeverMore(statuses: seq<StatusEvent>, asOf: int, now: int)
    requires asOf <= now
    ensures OnlineSeconds(After(statuses, asOf), asOf, now) <= OnlineSeconds(statuses, asOf, now)
    ensures asOf < now && OnlineAt(statuses, asOf) ==> OnlineSeconds(After(statuses, asOf), asOf, now) < OnlineSeconds(statuses, asOf, now)
    ensures !OnlineAt(statuses, asOf) ==> OnlineSeconds(After(statuses, asOf), asOf, now) == OnlineSeconds(statuses, asOf, now)
    decreases now - asOf
  {
    if asOf < now {
      SuffixNeverMore(statuses, asOf, now - 1);
      SuffixSees(statuses, asOf, now - 1);
      AfterMembers(statuses, asOf);
    }
  }

  /** A checkpoint that records the uptime up to `asOf`, plus the status changes after `asOf`, gives
      the uptime of the full log if and only if the subject was not ONLINE at `asOf` (or no time has
      passed since): a subject that stays online across its checkpoint loses the time up to its
      next status change. */
  lemma SnapshotKeepsUptime(statuses: seq<StatusEvent>, asOf: int, now: int)
    requires 0 <= asOf <= now
    ensures OnlineSeconds(statuses, 0, asOf) + OnlineSeconds(After(statuses, asOf), 0, now) <= OnlineSeconds(statuses, 0, now)
    ensures OnlineSeconds(statuses, 0, asOf) + OnlineSeconds(After(statuses, asOf), 0, now) == OnlineSeconds(statuses, 0, now)
            <==> !OnlineAt(statuses, asOf) || asOf == now
  {
    AfterMembers(statuses, asOf);
    OnlineSecondsSplit(statuses, 0, asOf, now);
    OnlineSecondsSplit(After(statuses, asOf), 0, asOf, now);
    NothingBefore(After(statuses, asOf), asOf);
    SuffixNeverMore(statuses, asOf, now);
  }

  // ---------- in terms of the ledger ----------

  lemma StatusesSnoc(events: seq<SyncEvent>, e: SyncEvent, subject: NaraName, after: int)
    ensures Statuses(events + [e], subject, after)
            == if Matches(StatusChangesAfter(subject, after), e) then Statuses(events, subject, after) + [StatusOf(e)]
               else Statuses(events, subject, after)
  {
  }

  lemma AfterSnoc(s: seq<StatusEvent>, x: StatusEvent, asOf: int)
    ensures After(s + [x], asOf) == if x.time > asOf then After(s, asOf) + [x] else After(s, asOf)
  {
  }

  lemma StatusesAfterStep(front: seq<SyncEvent>, e: SyncEvent, subject: NaraName, base: int, asOf: int)
    requires 0 <= base <= asOf && asOf > 0
    requires Statuses(front, subject, asOf) == After(Statuses(front, subject, base), asOf)
    ensures Statuses(front + [e], subject, asOf) == After(Statuses(front + [e], subject, base), asOf)
  {
    StatusesSnoc(front, e, subject, asOf);
    StatusesSnoc(front, e, subject, base);
    AfterSnoc(Statuses(front, subject, base), StatusOf(e), asOf);
  }

  lemma {:induction false} StatusesAfter(events: seq<SyncEvent>, subject: NaraName, base: int, asOf: int)
    requires 0 <= base <= asOf && asOf > 0
    ensures Statuses(events, subject, asOf) == After(Statuses(events, subject, base), asOf)
  {
    if events != [] {
      StatusesAfter(events[..|events| - 1], subject, base, asOf);
      StatusesAfterStep(events[..|events| - 1], events[|events| - 1], subject, base, asOf);
      assert events == events[..|events| - 1] + [events[|events| - 1]];
    }
  }

  /** The uptime of a log without a backfill, counted up to time `asOf`. */
  ghost function UptimeAsOf(events: seq<SyncEvent>, subject: NaraName, asOf: int): int {
    var base := LatestCheckpoint(events, subject);
    (if base.Some? && base.value.payload.Checkpoint? then base.value.payload.cp.observation.totalUptime else 0)
    + OnlineSeconds(Statuses(events, subject, AsOf(base)), 0, asOf)
  }

  ghost predicate SettledStatuses(events: seq<SyncEvent>, subject: NaraName, now: int) {
    var statuses := Statuses(events, subject, AsOf(LatestCheckpoint(events, subject)));
    Orderly(statuses) && now >= 0 && forall s :: s in statuses ==> s.time <= now
  }

  /** Total uptime is the baseline's uptime plus the measure of what came after it. */
  lemma TotalUptimeIsMeasure(events: seq<SyncEvent>, subject: NaraName, now: int, r: int)
    requires IsTotalUptime(events, subject, now, r) && SettledStatuses(events, subject, now)
    requires LatestCheckpoint(events, subject).Some? || AssumedOnlineSince(events, subject) == 0
    ensures r == UptimeAsOf(events, subject, now)
  {
    LatestIsLatest(events, subject);
    var statuses := Statuses(events, subject, AsOf(LatestCheckpoint(events, subject)));
    match LatestCheckpoint(events, subject)
    case Some(c) =>
      UptimeIsMeasure(statuses, now, r - c.payload.cp.observation.totalUptime);
    case None =>
      UptimeIsMeasure(statuses, now, r);
  }

  // ---------- backfill ----------

  /** What a backfill stands for: an ONLINE at its start time, whatever was before. */
  function FromBackfill(statuses: seq<StatusEvent>, since: int): seq<StatusEvent> {
    [StatusEvent(since, ONLINE)] + After(statuses, since)
  }

  /** The first `k` status changes are ONLINE and the next one, if any, is not. */
  ghost predicate FirstOff(sorted: seq<StatusEvent>, k: nat) {
    && k <= |sorted| && (k < |sorted| ==> sorted[k].state != ONLINE)
    && forall i :: 0 <= i < k ==> sorted[i].state == ONLINE
  }

  lemma {:induction false} FindFirstOff(sorted: seq<StatusEvent>) returns (k: nat)
    ensures FirstOff(sorted, k)
  {
    if sorted == [] {
      k := 0;
    } else {
      k := FindFirstOff(sorted[..|sorted| - 1]);
      if k == |sorted| - 1 && sorted[k].state == ONLINE {
        k := k + 1;
      }
    }
  }

  lemma {:induction false} TallyWhileOnline(sorted: seq<StatusEvent>, since: int)
    requires since > 0 && forall i :: 0 <= i < |sorted| ==> sorted[i].state == ONLINE
    ensures TallyUp(sorted, since) == Tally(0, since)
  {
    if sorted != [] {
      TallyWhileOnline(sorted[..|sorted| - 1], since);
    }
  }

  lemma TallySnoc(s: seq<StatusEvent>, x: StatusEvent, since: int)
    ensures TallyUp(s + [x], since) == Next(TallyUp(s, since), x)
  {
    assert (s + [x])[..|s|] == s;
  }

  lemma SameStartNext(a: Tally, b: Tally, x: StatusEvent)
    requires a.onlineStart == b.onlineStart
    ensures Next(a, x).onlineStart == Next(b, x).onlineStart && Next(a, x).uptime - Next(b, x).uptime == a.uptime - b.uptime
  {
  }

  /** How far a tally that began at `since` and one that began offline are apart. */
  ghost predicate ApartBy(s: seq<StatusEvent>, since: int, off: int) {
    && TallyUp(s, since).onlineStart == TallyUp(s, 0).onlineStart
    && TallyUp(s, since).uptime - (off - since) == TallyUp(s, 0).uptime - OnlineSeconds(s, 0, off)
  }

  lemma StillApart(front: seq<StatusEvent>, x: StatusEvent, since: int, off: int)
    requires ApartBy(front, since, off) && off <= x.time
    ensures ApartBy(front + [x], since, off)
  {
    TallySnoc(front, x, since);
    TallySnoc(front, x, 0);
    SameStartNext(TallyUp(front, since), TallyUp(front, 0), x);
    MeasureBeforeNewest(front, x, off);
  }

  lemma ApartAtOff(sorted: seq<StatusEvent>, since: int)
    requires InOrder(sorted) && since > 0 && sorted != [] && FirstOff(sorted, |sorted| - 1)
    ensures ApartBy(sorted, since, sorted[|sorted| - 1].time)
  {
    TallyAtOff(sorted, since);
    MeasureAtOff(sorted);
  }

  /** From the first OFFLINE or MISSING on, only a constant tells whether counting began at
      `since` or at the first ONLINE. */
  lemma {:induction false} TallyFromOff(sorted: seq<StatusEvent>, since: int, k: nat)
    requires InOrder(sorted) && since > 0 && FirstOff(sorted, k) && k < |sorted|
    ensures ApartBy(sorted, since, sorted[k].time)
  {
    if k == |sorted| - 1 {
      ApartAtOff(sorted, since);
    } else {
      var front, x := sorted[..|sorted| - 1], sorted[|sorted| - 1];
      FirstOffFront(sorted, k);
      TallyFromOff(front, since, k);
      StillApart(front, x, since, sorted[k].time);
      assert sorted == front + [x];
    }
  }

  lemma FirstOffFront(sorted: seq<StatusEvent>, k: nat)
    requires InOrder(sorted) && FirstOff(sorted, k) && k < |sorted| - 1
    ensures var front := sorted[..|sorted| - 1];
            InOrder(front) && FirstOff(front, k) && front[k] == sorted[k] && sorted[k].time <= sorted[|sorted| - 1].time
  {
    InOrderFront(sorted);
  }

  lemma MeasureBeforeNewest(front: seq<StatusEvent>, x: StatusEvent, until: int)
    requires until <= x.time
    ensures OnlineSeconds(front + [x], 0, until) == OnlineSeconds(front, 0, until)
  {
  }

  lemma TallyAtOff(sorted: seq<StatusEvent>, since: int)
    requires InOrder(sorted) && since > 0 && sorted != [] && FirstOff(sorted, |sorted| - 1)
    ensures TallyUp(sorted, since) == Tally(sorted[|sorted| - 1].time - since, 0)
  {
    InOrderFront(sorted);
    TallyWhileOnline(sorted[..|sorted| - 1], since);
  }

  lemma MeasureAtOff(sorted: seq<StatusEvent>)
    requires InOrder(sorted) && sorted != [] && sorted[|sorted| - 1].state != ONLINE
    ensures var off := sorted[|sorted| - 1].time; TallyUp(sorted, 0) == Tally(OnlineSeconds(sorted, 0, off), 0)
  {
    var front, x := sorted[..|sorted| - 1], sorted[|sorted| - 1];
    assert sorted == front + [x];
    InOrderFront(sorted);
    FromNewest(front, x, x.time);
    TallyMeasures(sorted, x.time);
  }

  /** The tally at any time `now`, in terms of what is known by a time `last` that no status
      change is later than. */
  lemma BackfillTally(sorted: seq<StatusEvent>, since: int, now: int, last: int, k: nat)
    requires InOrder(sorted) && since > 0 && last >= 0 && FirstOff(sorted, k) && forall x :: x in sorted ==> x.time <= last
    ensures Closed(TallyUp(sorted, since), now)
            == if k == |sorted| then now - since
               else sorted[k].time - since + OnlineSeconds(sorted, sorted[k].time, last) - Ahead(sorted, now, last)
  {
    if k == |sorted| {
      TallyWhileOnline(sorted, since);
    } else {
      assert sorted[k] in sorted;
      TallyFromOff(sorted, since, k);
      TallyAhead(sorted, now, last);
      OnlineSecondsSplit(sorted, 0, sorted[k].time, last);
    }
  }

  lemma AssumedOnline(statuses: seq<StatusEvent>, since: int, t: int)
    requires since <= t && forall x :: x in statuses && since < x.time <= t ==> x.state == ONLINE
    ensures OnlineAt(FromBackfill(statuses, since), t)
    decreases |statuses|
  {
    AfterMembers(statuses, since);
    var w := FromBackfill(statuses, since);
    NewestBefore(w, t, w[0]);
  }

  lemma {:induction false} NewestBefore(s: seq<StatusEvent>, t: int, x: StatusEvent)
    requires x in s && x.time <= t
    ensures exists y :: LatestAt(s, t, y)
  {
    var front, last := s[..|s| - 1], s[|s| - 1];
    assert s == front + [last];
    if x in front {
      NewestBefore(front, t, x);
      var y :| LatestAt(front, t, y);
      assert LatestAt(s, t, if last.time <= t && last.time > y.time then last else y);
    } else {
      var older := exists z :: z in front && z.time <= t;
      if older {
        var z :| z in front && z.time <= t;
        NewestBefore(front, t, z);
        var y :| LatestAt(front, t, y);
        assert LatestAt(s, t, if last.time > y.time then last else y);
      } else {
        assert LatestAt(s, t, last);
      }
    }
  }

  lemma OnlineIsAssumed(statuses: seq<StatusEvent>, since: int, t: int)
    requires since <= t && OnlineAt(statuses, t)
    ensures OnlineAt(FromBackfill(statuses, since), t)
  {
    AfterMembers(statuses, since);
    var w := FromBackfill(statuses, since);
    var s :| LatestAt(statuses, t, s) && s.state == ONLINE;
    if s.time > since {
      assert LatestAt(w, t, s);
    } else {
      assert LatestAt(w, t, w[0]);
    }
  }

  /** Once an OFFLINE or MISSING after `since` is past, both see the same. */
  lemma AssumptionEnds(statuses: seq<StatusEvent>, since: int, t: int, x: StatusEvent)
    requires x in statuses && since < x.time <= t
    ensures OnlineAt(FromBackfill(statuses, since), t) <==> OnlineAt(statuses, t)
  {
    AfterMembers(statuses, since);
    forall s ensures LatestAt(FromBackfill(statuses, since), t, s) <==> LatestAt(statuses, t, s) {
    }
  }

  lemma NotAssumedBefore(statuses: seq<StatusEvent>, since: int)
    requires since > 0
    ensures OnlineSeconds(FromBackfill(statuses, since), 0, since) == 0
  {
    AfterMembers(statuses, since);
    ConstantOnline(FromBackfill(statuses, since), 0, since, false);
  }

  lemma {:induction false} MoreOnlineSeconds(a: seq<StatusEvent>, b: seq<StatusEvent>, from: int, until: int)
    requires forall t :: from <= t < until && OnlineAt(a, t) ==> OnlineAt(b, t)
    ensures OnlineSeconds(a, from, until) <= OnlineSeconds(b, from, until)
    decreases until - from
  {
    if from < until {
      MoreOnlineSeconds(a, b, from, until - 1);
    }
  }

  /** What the assumption is worth: from `since` to the first OFFLINE or MISSING after it. */
  lemma AssumedSeconds(statuses: seq<StatusEvent>, since: int, now: int, off: StatusEvent)
    requires 0 < since < off.time <= now && off in statuses
    requires forall x :: x in statuses && x.time < off.time ==> x.state == ONLINE
    ensures OnlineSeconds(FromBackfill(statuses, since), 0, now) == off.time - since + OnlineSeconds(statuses, off.time, now)
  {
    var w := FromBackfill(statuses, since);
    NotAssumedBefore(statuses, since);
    OnlineSecondsSplit(w, 0, since, now);
    OnlineSecondsSplit(w, since, off.time, now);
    forall t | since <= t < off.time ensures OnlineAt(w, t) {
      AssumedOnline(statuses, since, t);
    }
    ConstantOnline(w, since, off.time, true);
    forall t | off.time <= t < now ensures OnlineAt(w, t) <==> OnlineAt(statuses, t) {
      AssumptionEnds(statuses, since, t, off);
    }
    SameOnlineSeconds(w, statuses, off.time, now);
  }

  lemma AlwaysAssumed(statuses: seq<StatusEvent>, since: int, now: int)
    requires 0 < since <= now && forall x :: x in statuses ==> x.state == ONLINE
    ensures OnlineSeconds(FromBackfill(statuses, since), 0, now) == now - since
  {
    var w := FromBackfill(statuses, since);
    NotAssumedBefore(statuses, since);
    OnlineSecondsSplit(w, 0, since, now);
    forall t | since <= t < now ensures OnlineAt(w, t) {
      AssumedOnline(statuses, since, t);
    }
    ConstantOnline(w, since, now, true);
  }

  /** The first OFFLINE or MISSING comes after the backfill. */
  lemma LateOff(sorted: seq<StatusEvent>, since: int, now: int, k: nat)
    requires InOrder(sorted) && 0 < since <= now && FirstOff(sorted, k) && forall x :: x in sorted ==> x.time <= now
    requires k < |sorted| ==> sorted[k].time > since
    ensures Closed(TallyUp(sorted, since), now) == OnlineSeconds(FromBackfill(sorted, since), 0, now)
  {
    BackfillTally(sorted, since, now, now, k);
    OnlineBeforeOff(sorted, k);
    if k == |sorted| {
      AlwaysAssumed(sorted, since, now);
    } else {
      AssumedSeconds(sorted, since, now, sorted[k]);
    }
  }

  lemma OnlineBeforeOff(sorted: seq<StatusEvent>, k: nat)
    requires InOrder(sorted) && FirstOff(sorted, k)
    ensures k < |sorted| ==> sorted[k] in sorted
    ensures forall x :: x in sorted && (k < |sorted| ==> x.time < sorted[k].time) ==> x.state == ONLINE
  {
  }

  /** It does not. */
  lemma EarlyOff(sorted: seq<StatusEvent>, since: int, now: int, k: nat)
    requires InOrder(sorted) && 0 < since <= now && FirstOff(sorted, k) && forall x :: x in sorted ==> x.time <= now
    requires k < |sorted| && sorted[k].time <= since
    ensures Closed(TallyUp(sorted, since), now) <= OnlineSeconds(FromBackfill(sorted, since), 0, now)
    ensures Closed(TallyUp(sorted, since), now) == OnlineSeconds(FromBackfill(sorted, since), 0, now)
            <==> sorted[k].time == since == now
  {
    var w, off := FromBackfill(sorted, since), sorted[k].time;
    assert sorted[k] in sorted;
    BackfillTally(sorted, since, now, now, k);
    NotAssumedBefore(sorted, since);
    OnlineSecondsSplit(w, 0, since, now);
    OnlineSecondsSplit(sorted, off, since, now);
    forall t | since <= t < now && OnlineAt(sorted, t) ensures OnlineAt(w, t) {
      OnlineIsAssumed(sorted, since, t);
    }
    MoreOnlineSeconds(sorted, w, since, now);
    OfflineAtOff(sorted, k);
    if off < since {
      OnlineSecondsSplit(sorted, off, off + 1, since);
      OnlineSecondsBounds(sorted, off + 1, since);
    } else if since < now {
      AssumedOnline(sorted, since, since);
      OnlineSecondsSplit(sorted, since, since + 1, now);
      OnlineSecondsSplit(w, since, since + 1, now);
      MoreOnlineSeconds(sorted, w, since + 1, now);
    }
  }

  lemma OfflineAtOff(sorted: seq<StatusEvent>, k: nat)
    requires InOrder(sorted) && FirstOff(sorted, k) && k < |sorted|
    ensures !OnlineAt(sorted, sorted[k].time)
    ensures OnlineSeconds(sorted, sorted[k].time, sorted[k].time + 1) == 0
  {
  }

  /** A backfill that starts after `now`: the total is negative. */
  lemma LateBackfill(sorted: seq<StatusEvent>, since: int, now: int, k: nat)
    requires InOrder(sorted) && 0 <= now < since && FirstOff(sorted, k) && forall x :: x in sorted ==> x.time <= now
    ensures Closed(TallyUp(sorted, since), now) < 0 == OnlineSeconds(FromBackfill(sorted, since), 0, now)
  {
    BackfillTally(sorted, since, now, now, k);
    NotAssumedBefore(sorted, since);
    OnlineSecondsSplit(FromBackfill(sorted, since), 0, now, since);
    if k < |sorted| {
      assert sorted[k] in sorted;
      OnlineSecondsBounds(sorted, sorted[k].time, now);
    }
  }

  /** With a backfill as baseline, uptime is the time online since its start - if and only if that
      start is not after `now` and the subject was not reported OFFLINE or MISSING at or before
      it (unless it is now). Otherwise it is less. */
  lemma BackfillUptimeIff(statuses: seq<StatusEvent>, since: int, now: int, r: int)
    requires Orderly(statuses) && AddsUpTo(statuses, since, now, r)
    requires 0 < since && 0 <= now && forall s :: s in statuses ==> s.time <= now
    ensures r <= OnlineSeconds(FromBackfill(statuses, since), 0, now)
    ensures r == OnlineSeconds(FromBackfill(statuses, since), 0, now)
            <==> since <= now
                 && forall s :: s in statuses && s.state != ONLINE ==> s.time > since || s.time == since == now
  {
    var sorted: seq<StatusEvent> :| SortedArrangement(statuses, sorted, ByTime()) && r == Closed(TallyUp(sorted, since), now);
    OrderlySorted(statuses, sorted);
    SameElements(statuses, sorted);
    AfterRearranged(statuses, sorted, since, now);
    var k := FindFirstOff(sorted);
    if since > now {
      LateBackfill(sorted, since, now, k);
    } else {
      EarliestOff(sorted, since, now, k);
      if k < |sorted| && sorted[k].time <= since {
        EarlyOff(sorted, since, now, k);
      } else {
        LateOff(sorted, since, now, k);
      }
    }
  }

  lemma EarliestOff(sorted: seq<StatusEvent>, since: int, now: int, k: nat)
    requires InOrder(sorted) && FirstOff(sorted, k) && since <= now && forall x :: x in sorted ==> x.time <= now
    ensures (forall s :: s in sorted && s.state != ONLINE ==> s.time > since || s.time == since == now)
            <==> k == |sorted| || sorted[k].time > since || sorted[k].time == since == now
  {
  }

  lemma AfterRearranged(a: seq<StatusEvent>, b: seq<StatusEvent>, since: int, now: int)
    requires multiset(a) == multiset(b)
    ensures OnlineSeconds(FromBackfill(a, since), 0, now) == OnlineSeconds(FromBackfill(b, since), 0, now)
  {
    SameElements(a, b);
    AfterMembers(a, since);
    AfterMembers(b, since);
    forall t ensures OnlineAt(FromBackfill(a, since), t) <==> OnlineAt(FromBackfill(b, since), t) {
      assert forall s: StatusEvent :: s in FromBackfill(a, since) <==> s in FromBackfill(b, since);
      assert forall s: StatusEvent :: LatestAt(FromBackfill(a, since), t, s) <==> LatestAt(FromBackfill(b, since), t, s);
    }
    SameOnlineSeconds(FromBackfill(a, since), FromBackfill(b, since), 0, now);
  }

  /** An OFFLINE older than the backfill makes the total negative. */
  lemma OldOfflineIsNegative(since: int, ago: int, now: int)
    requires ago > 0 && since > ago
    ensures AddsUpTo([StatusEvent(since - ago, OFFLINE)], since, now, -ago)
  {
    var s := [StatusEvent(since - ago, OFFLINE)];
    assert s[..0] == [];
    assert TallyUp(s, since) == Tally(-ago, 0);
    assert SortedArrangement(s, s, ByTime());
  }

  /** So does a backfill that starts ahead of now. */
  lemma FutureBackfillIsNegative(now: int, ahead: int)
    requires ahead > 0 && now + ahead > 0
    ensures AddsUpTo([], now + ahead, now, -ahead)
  {
    assert SortedArrangement<StatusEvent>([], [], ByTime());
  }

  // ---------- the sign of derived uptime ----------

  ghost predicate AlwaysOnline(statuses: seq<StatusEvent>) {
    forall s :: s in statuses ==> s.state == ONLINE
  }

  /** `off` is the time of the first report of OFFLINE or MISSING. */
  ghost predicate FirstOffAt(statuses: seq<StatusEvent>, off: int) {
    && (exists s :: s in statuses && s.state != ONLINE && s.time == off)
    && forall s :: s in statuses && s.state != ONLINE ==> off <= s.time
  }

  /** The value of the loop at any time, with status changes at any seconds up to `last`,
      before or after `now`, and with any assumed start. */
  lemma LoopValue(statuses: seq<StatusEvent>, since: int, now: int, last: int, r: int)
    requires Orderly(statuses) && AddsUpTo(statuses, since, now, r) && since >= 0 && last >= 0
    requires forall s :: s in statuses ==> s.time <= last
    ensures since == 0 ==> r == OnlineSeconds(statuses, 0, last) - Ahead(statuses, now, last)
    ensures since > 0 && AlwaysOnline(statuses) ==> r == now - since
    ensures forall off :: since > 0 && FirstOffAt(statuses, off) ==>
              r == off - since + OnlineSeconds(statuses, off, last) - Ahead(statuses, now, last)
  {
    var sorted: seq<StatusEvent> :| SortedArrangement(statuses, sorted, ByTime()) && r == Closed(TallyUp(sorted, since), now);
    OrderlySorted(statuses, sorted);
    SameElements(statuses, sorted);
    OnlineAtRearranged(statuses, sorted, last);
    TallyAhead(sorted, now, last);
    MeasureRearranged(sorted, statuses, 0, last);
    if since > 0 {
      var k := FindFirstOff(sorted);
      BackfillTally(sorted, since, now, last, k);
      OnlineBeforeOff(sorted, k);
      forall off | FirstOffAt(statuses, off) ensures k < |sorted| && off == sorted[k].time {
        FirstOffIs(sorted, k, off);
      }
      if k < |sorted| {
        MeasureRearranged(sorted, statuses, sorted[k].time, last);
      }
    }
  }

  lemma FirstOffIs(sorted: seq<StatusEvent>, k: nat, off: int)
    requires InOrder(sorted) && FirstOff(sorted, k) && FirstOffAt(sorted, off)
    ensures k < |sorted| && off == sorted[k].time
  {
    var s :| s in sorted && s.state != ONLINE && s.time == off;
    var i :| 0 <= i < |sorted| && sorted[i] == s;
    assert i >= k && sorted[k] in sorted;
  }

  lemma MeasureRearranged(a: seq<StatusEvent>, b: seq<StatusEvent>, from: int, until: int)
    requires multiset(a) == multiset(b)
    ensures OnlineSeconds(a, from, until) == OnlineSeconds(b, from, until)
  {
    forall t ensures OnlineAt(a, t) <==> OnlineAt(b, t) {
      OnlineAtRearranged(a, b, t);
    }
    SameOnlineSeconds(a, b, from, until);
  }

  // ---------- uptime with status changes dated ahead of now ----------

  /** What was counted up to `last`, less what lies ahead, is the measure up to `now` if and only
      if nothing changes in between. */
  lemma AheadIff(statuses: seq<StatusEvent>, now: int, last: int)
    requires 0 <= now <= last
    ensures OnlineSeconds(statuses, 0, last) - Ahead(statuses, now, last) == OnlineSeconds(statuses, 0, now)
            <==> forall t :: now <= t < last ==> (OnlineAt(statuses, t) <==> OnlineAt(statuses, last))
  {
    OnlineSecondsSplit(statuses, 0, now, last);
    FullyOnlineIff(statuses, now, last);
    FullyOfflineIff(statuses, now, last);
  }

  /** With status changes dated up to some `last` after `now`, uptime without a backfill is still
      the measure if and only if the status does not change between `now` and `last`. */
  lemma FutureStatusesIff(statuses: seq<StatusEvent>, now: int, last: int, r: int)
    requires Orderly(statuses) && AddsUpTo(statuses, 0, now, r)
    requires 0 <= now <= last && forall s :: s in statuses ==> s.time <= last
    ensures r == OnlineSeconds(statuses, 0, now)
            <==> forall t :: now <= t < last ==> (OnlineAt(statuses, t) <==> OnlineAt(statuses, last))
  {
    LoopValue(statuses, 0, now, last, r);
    AheadIff(statuses, now, last);
  }

  /** A backfill that comes before every OFFLINE and MISSING is worth an ONLINE at its start. */
  lemma BackfillValue(statuses: seq<StatusEvent>, since: int, now: int, last: int, r: int)
    requires Orderly(statuses) && AddsUpTo(statuses, since, now, r)
    requires 0 < since <= last && forall s :: s in statuses ==> s.time <= last
    requires forall s :: s in statuses && s.state != ONLINE ==> s.time > since
    ensures r == OnlineSeconds(FromBackfill(statuses, since), 0, last) - Ahead(FromBackfill(statuses, since), now, last)
  {
    LoopValue(statuses, since, now, last, r);
    if AlwaysOnline(statuses) {
      AlwaysAssumed(statuses, since, last);
      AssumedOnline(statuses, since, last);
    } else {
      var off := SomeFirstOff(statuses);
      var x :| x in statuses && x.state != ONLINE && x.time == off;
      AssumedSeconds(statuses, since, last, x);
      AssumptionEnds(statuses, since, last, x);
    }
  }

  /** The same with a backfill, `last` being no earlier than its start. If the backfill comes
      before every OFFLINE and MISSING, uptime is the time online since its start if and only if
      that status does not change between `now` and `last`. Otherwise it is if and only if the
      online seconds after the first OFFLINE or MISSING make up for how far the start lies
      after it, for what lies ahead, and for the measure. */
  lemma FutureBackfillIff(statuses: seq<StatusEvent>, since: int, now: int, last: int, r: int)
    requires Orderly(statuses) && AddsUpTo(statuses, since, now, r)
    requires 0 < since <= last && 0 <= now <= last && forall s :: s in statuses ==> s.time <= last
    ensures var w := FromBackfill(statuses, since);
            (forall s :: s in statuses && s.state != ONLINE ==> s.time > since) ==>
              (r == OnlineSeconds(w, 0, now) <==> forall t :: now <= t < last ==> (OnlineAt(w, t) <==> OnlineAt(w, last)))
    ensures var measure := OnlineSeconds(FromBackfill(statuses, since), 0, now);
            forall off :: FirstOffAt(statuses, off) && off <= since ==>
              (r == measure <==> off + OnlineSeconds(statuses, off, last) == since + Ahead(statuses, now, last) + measure)
  {
    LoopValue(statuses, since, now, last, r);
    if forall s :: s in statuses && s.state != ONLINE ==> s.time > since {
      BackfillValue(statuses, since, now, last, r);
      AheadIff(FromBackfill(statuses, since), now, last);
    }
  }

  // ---------- the loop does not depend on how ties fall ----------

  lemma {:induction false} SomeLast(statuses: seq<StatusEvent>) returns (last: int)
    ensures last >= 0 && forall s :: s in statuses ==> s.time <= last
  {
    last := 0;
    if statuses != [] {
      var front, x := statuses[..|statuses| - 1], statuses[|statuses| - 1];
      assert statuses == front + [x];
      last := SomeLast(front);
      last := if x.time > last then x.time else last;
    }
  }

  /** Reports that agree add up to one sum, whatever way ties in the sort fell. */
  lemma SumUnique(a: seq<StatusEvent>, b: seq<StatusEvent>, since: int, now: int, r: int, r': int)
    requires multiset(a) == multiset(b) && Orderly(a) && since >= 0
    requires AddsUpTo(a, since, now, r) && AddsUpTo(b, since, now, r')
    ensures r == r'
  {
    SumRearranged(b, a, since, now, r');
    var last := SomeLast(a);
    LoopValue(a, since, now, last, r);
    LoopValue(a, since, now, last, r');
    if !AlwaysOnline(a) {
      var off := SomeFirstOff(a);
      assert FirstOffAt(a, off);
    }
  }

  lemma SumRearranged(a: seq<StatusEvent>, b: seq<StatusEvent>, since: int, now: int, r: int)
    requires multiset(a) == multiset(b) && AddsUpTo(a, since, now, r)
    ensures AddsUpTo(b, since, now, r)
  {
    var s: seq<StatusEvent> :| SortedArrangement(a, s, ByTime()) && r == Closed(TallyUp(s, since), now);
    assert SortedArrangement(b, s, ByTime());
  }

  /** Reports of one second that do not agree: the sort may put either last, and derived uptime
      is all the time since or none. */
  lemma ContradictionsDependOnSort(time: int, now: int)
    requires time > 0
    ensures var statuses := [StatusEvent(time, ONLINE), StatusEvent(time, OFFLINE)];
            AddsUpTo(statuses, 0, now, 0) && AddsUpTo(statuses, 0, now, now - time)
  {
    var on, off := StatusEvent(time, ONLINE), StatusEvent(time, OFFLINE);
    assert [on, off][..1] == [on] && [off, on][..1] == [off] && [on][..0] == [] && [off][..0] == [];
    assert TallyUp([on], 0) == Tally(0, time) && TallyUp([off], 0) == Tally(0, 0);
    assert TallyUp([on, off], 0) == Tally(0, 0) && TallyUp([off, on], 0) == Tally(0, time);
    assert SortedArrangement([on, off], [on, off], ByTime()) && SortedArrangement([on, off], [off, on], ByTime());
  }

  function BaseUptime(events: seq<SyncEvent>, subject: NaraName): int {
    var c := LatestCheckpoint(events, subject);
    if c.Some? && c.value.payload.Checkpoint? then c.value.payload.cp.observation.totalUptime else 0
  }

  /** What a total counts on: nothing more than a checkpoint, or a backfill's start. */
  function AssumedStart(events: seq<SyncEvent>, subject: NaraName): int {
    if LatestCheckpoint(events, subject).Some? then 0 else AssumedOnlineSince(events, subject)
  }

  /** Total uptime is not negative if and only if: without a backfill, the checkpoint's uptime and
      the online time up to the last status change make up for how far that change, if it is
      ONLINE, lies ahead of `now`; with a backfill and no OFFLINE or MISSING, the start is not
      after `now`; with one, the online time since the first of them makes up for how far the
      start lies after it, and for what lies ahead. */
  lemma TotalUptimeSignIff(events: seq<SyncEvent>, subject: NaraName, now: int, last: int, r: int)
    requires IsTotalUptime(events, subject, now, r) && last >= 0
    requires var statuses := Statuses(events, subject, AsOf(LatestCheckpoint(events, subject)));
             Orderly(statuses) && forall s :: s in statuses ==> s.time <= last
    ensures var statuses := Statuses(events, subject, AsOf(LatestCheckpoint(events, subject)));
            var since, ahead := AssumedStart(events, subject), Ahead(statuses, now, last);
            r >= 0 <==>
            if since == 0 then BaseUptime(events, subject) + OnlineSeconds(statuses, 0, last) >= ahead
            else if AlwaysOnline(statuses) then since <= now
            else forall off :: FirstOffAt(statuses, off) ==> off + OnlineSeconds(statuses, off, last) >= since + ahead
  {
    LatestIsLatest(events, subject);
    var statuses := Statuses(events, subject, AsOf(LatestCheckpoint(events, subject)));
    var since := AssumedStart(events, subject);
    LoopValue(statuses, since, now, last, r - BaseUptime(events, subject));
    if !AlwaysOnline(statuses) {
      var off := SomeFirstOff(statuses);
      assert FirstOffAt(statuses, off);
    }
  }

  lemma {:induction false} SomeFirstOff(statuses: seq<StatusEvent>) returns (off: int)
    requires !AlwaysOnline(statuses)
    ensures FirstOffAt(statuses, off)
  {
    var front, x := statuses[..|statuses| - 1], statuses[|statuses| - 1];
    assert statuses == front + [x];
    if AlwaysOnline(front) {
      off := x.time;
    } else {
      off := SomeFirstOff(front);
      var s :| s in front && s.state != ONLINE && s.time == off;
      assert s in statuses && x in statuses;
      if x.state != ONLINE && x.time < off {
        off := x.time;
      }
    }
  }
}
