/** Derived uptime in terms of the reports held: for each second, what the latest report of the
    subject's status up to then says. */
module ReportedUptime {
  import opened Wrappers
  import opened Events
  import opened Sorting
  import opened LedgerSpec
  import opened History
  import opened Uptime

  /** A held report of the subject's status, later than second `after` if that is positive. */
  predicate Reports(e: SyncEvent, subject: NaraName, after: int) {
    && e.payload.Observation? && e.payload.obs.subject == subject && e.payload.obs.kind == StatusChange
    && (after > 0 ==> Seconds(e.timestamp) > after)
  }

  /** Up to second `t` there is such a report, and a latest one says ONLINE. */
  ghost predicate ReportedOnline(events: seq<SyncEvent>, subject: NaraName, after: int, t: int) {
    exists e :: LatestReport(events, subject, after, t, e) && e.payload.Observation?
              && e.payload.obs.onlineState == ONLINE
  }

  ghost predicate LatestReport(events: seq<SyncEvent>, subject: NaraName, after: int, t: int, e: SyncEvent) {
    && e in events && Reports(e, subject, after) && Seconds(e.timestamp) <= t
    && forall x :: x in events && Reports(x, subject, after) && Seconds(x.timestamp) <= t ==>
         Seconds(x.timestamp) <= Seconds(e.timestamp)
  }

  /** The seconds in `[from, until)` at which the subject is reported online. */
  ghost function ReportedSeconds(events: seq<SyncEvent>, subject: NaraName, after: int, from: int, until: int): nat
    decreases until - from
  {
    if until <= from then 0
    else ReportedSeconds(events, subject, after, from, until - 1)
         + if ReportedOnline(events, subject, after, until - 1) then 1 else 0
  }

  /** Reports of one second agree on whether the subject is online, name one of the three states, and lie
      between the epoch and `now`. */
  ghost predicate Settled(events: seq<SyncEvent>, subject: NaraName, after: int, now: int) {
    && (forall e :: e in events && Reports(e, subject, after) ==>
          0 < Seconds(e.timestamp) <= now && !e.payload.obs.onlineState.OtherState?)
    && forall a, b :: a in events && b in events && Reports(a, subject, after) && Reports(b, subject, after)
                      && Seconds(a.timestamp) == Seconds(b.timestamp) ==>
         (a.payload.obs.onlineState == ONLINE <==> b.payload.obs.onlineState == ONLINE)
  }

  // ---------- reports are the statuses the derivation collects ----------

  function StatusIn(e: SyncEvent): StatusEvent
    requires e.payload.Observation?
  {
    StatusEvent(Seconds(e.timestamp), e.payload.obs.onlineState)
  }

  lemma ReportsAreCollected(events: seq<SyncEvent>, subject: NaraName, after: int)
    ensures forall e :: e in events && Reports(e, subject, after) ==> StatusIn(e) in Statuses(events, subject, after)
    ensures forall s :: s in Statuses(events, subject, after) ==>
              exists e :: e in events && Reports(e, subject, after) && StatusIn(e) == s
  {
    var q := StatusChangesAfter(subject, after);
    var m := Matching(events, q);
    MatchingMembers(events, q);
    forall e | e in events && Reports(e, subject, after) ensures StatusIn(e) in ToStatuses(m) {
      var i :| 0 <= i < |m| && m[i] == e;
      assert ToStatuses(m)[i] == StatusIn(e);
    }
    forall s | s in ToStatuses(m) ensures exists e :: e in events && Reports(e, subject, after) && StatusIn(e) == s {
      var i :| 0 <= i < |m| && ToStatuses(m)[i] == s;
      assert m[i] in m;
    }
  }

  lemma OnlineIsReported(events: seq<SyncEvent>, subject: NaraName, after: int, t: int)
    ensures OnlineAt(Statuses(events, subject, after), t) <==> ReportedOnline(events, subject, after, t)
  {
    var statuses := Statuses(events, subject, after);
    ReportsAreCollected(events, subject, after);
    if OnlineAt(statuses, t) {
      var s :| LatestAt(statuses, t, s) && s.state == ONLINE;
      var e :| e in events && Reports(e, subject, after) && StatusIn(e) == s;
      assert LatestReport(events, subject, after, t, e);
    }
    if ReportedOnline(events, subject, after, t) {
      var e :| LatestReport(events, subject, after, t, e) && e.payload.Observation?
                && e.payload.obs.onlineState == ONLINE;
      assert LatestAt(statuses, t, StatusIn(e));
    }
  }

  lemma {:induction false} SecondsAreReported(events: seq<SyncEvent>, subject: NaraName, after: int, from: int,
                                              until: int)
    ensures OnlineSeconds(Statuses(events, subject, after), from, until) == ReportedSeconds(events, subject, after, from, until)
    decreases until - from
  {
    if from < until {
      SecondsAreReported(events, subject, after, from, until - 1);
      OnlineIsReported(events, subject, after, until - 1);
    }
  }

  lemma SettledIsOrderly(events: seq<SyncEvent>, subject: NaraName, after: int, now: int)
    requires Settled(events, subject, after, now)
    ensures Orderly(Statuses(events, subject, after)) && forall s :: s in Statuses(events, subject, after) ==>
              s.time <= now
  {
    ReportsAreCollected(events, subject, after);
  }

  // ---------- derived uptime ----------

  /** Uptime after a cutoff: the seconds before now at which the latest report after the cutoff says
      ONLINE. */
  lemma UptimeAfterIsReported(events: seq<SyncEvent>, subject: NaraName, after: int, now: int, r: int)
    requires AddsUpTo(Statuses(events, subject, after), 0, now, r) && 0 <= now && Settled(events, subject, after, now)
    ensures r == ReportedSeconds(events, subject, after, 0, now)
  {
    SettledIsOrderly(events, subject, after, now);
    UptimeIsMeasure(Statuses(events, subject, after), now, r);
    SecondsAreReported(events, subject, after, 0, now);
  }

  /** No backfill names a start time. */
  predicate AssumesNothing(events: seq<SyncEvent>, subject: NaraName) {
    FirstBackfill(events, subject).None? || FirstBackfill(events, subject).value.startTime <= 0
  }

  /** Total uptime: the latest checkpoint's, and the seconds reported online after it; without a
      checkpoint and a backfill, all seconds reported online. */
  lemma TotalIsReported(events: seq<SyncEvent>, subject: NaraName, now: int, r: int)
    requires IsTotalUptime(events, subject, now, r) && 0 <= now
    ensures match LatestCheckpoint(events, subject)
            case Some(c) =>
              && c.payload.Checkpoint?
              && (Settled(events, subject, c.payload.cp.asOfTime, now) ==>
                    r == c.payload.cp.observation.totalUptime
                         + ReportedSeconds(events, subject, c.payload.cp.asOfTime, 0, now))
            case None =>
              AssumesNothing(events, subject) && Settled(events, subject, 0, now) ==>
                r == ReportedSeconds(events, subject, 0, 0, now)
  {
    LatestIsLatest(events, subject);
    match LatestCheckpoint(events, subject)
    case Some(c) =>
      if Settled(events, subject, c.payload.cp.asOfTime, now) {
        UptimeAfterIsReported(events, subject, c.payload.cp.asOfTime, now, r - c.payload.cp.observation.totalUptime);
      }
    case None =>
      if AssumesNothing(events, subject) && Settled(events, subject, 0, now) {
        UptimeAfterIsReported(events, subject, 0, now, r);
      }
  }

  // ---------- with a backfill ----------

  /** Since a backfill's start the subject counts as online until reported otherwise. */
  ghost predicate AssumedOnline(events: seq<SyncEvent>, subject: NaraName, since: int, t: int) {
    && since <= t
    && (ReportedOnline(events, subject, since, t)
        || forall e :: e in events && Reports(e, subject, since) ==> Seconds(e.timestamp) > t)
  }

  ghost function AssumedSeconds(events: seq<SyncEvent>, subject: NaraName, since: int, from: int, until: int): nat
    decreases until - from
  {
    if until <= from then 0
    else AssumedSeconds(events, subject, since, from, until - 1)
         + if AssumedOnline(events, subject, since, until - 1) then 1 else 0
  }

  lemma AssumedIsBackfill(events: seq<SyncEvent>, subject: NaraName, since: int, t: int)
    requires since > 0
    ensures OnlineAt(FromBackfill(Statuses(events, subject, 0), since), t) <==> AssumedOnline(events, subject, since, t)
  {
    var statuses, later := Statuses(events, subject, 0), Statuses(events, subject, since);
    var w := FromBackfill(statuses, since);
    StatusesAfter(events, subject, 0, since);
    AfterMembers(statuses, since);
    assert After(statuses, since) == later;
    ReportsAreCollected(events, subject, since);
    OnlineIsReported(events, subject, since, t);
    if OnlineAt(later, t) {
      var s :| LatestAt(later, t, s) && s.state == ONLINE;
      assert LatestAt(w, t, s);
    }
    if OnlineAt(w, t) {
      var s :| LatestAt(w, t, s) && s.state == ONLINE;
      assert w[0] in w;
      if s in later {
        assert LatestAt(later, t, s);
      }
    }
    if since <= t && forall e :: e in events && Reports(e, subject, since) ==> Seconds(e.timestamp) > t {
      assert LatestAt(w, t, w[0]);
    }
  }

  lemma {:induction false} AssumedAreBackfill(events: seq<SyncEvent>, subject: NaraName, since: int, from: int,
                                              until: int)
    requires since > 0
    ensures OnlineSeconds(FromBackfill(Statuses(events, subject, 0), since), from, until)
            == AssumedSeconds(events, subject, since, from, until)
    decreases until - from
  {
    if from < until {
      AssumedAreBackfill(events, subject, since, from, until - 1);
      AssumedIsBackfill(events, subject, since, until - 1);
    }
  }

  /** Total uptime with a backfill and no checkpoint: the seconds since the backfill's start at which the
      subject is reported online or not yet reported on - if and only if that start is not after now,
      and no report of OFFLINE or MISSING is as old as it (unless both are now). Otherwise less. */
  lemma BackfilledTotalIsReported(events: seq<SyncEvent>, subject: NaraName, now: int, r: int, b: ObservationPayload)
    requires IsTotalUptime(events, subject, now, r) && 0 <= now && Settled(events, subject, 0, now)
    requires LatestCheckpoint(events, subject).None? && FirstBackfill(events, subject) == Some(b) && b.startTime > 0
    ensures r <= AssumedSeconds(events, subject, b.startTime, 0, now)
    ensures r == AssumedSeconds(events, subject, b.startTime, 0, now)
            <==> && b.startTime <= now
                 && forall e :: e in events && Reports(e, subject, 0) && e.payload.obs.onlineState != ONLINE ==>
                      Seconds(e.timestamp) > b.startTime || Seconds(e.timestamp) == b.startTime == now
  {
    var statuses := Statuses(events, subject, 0);
    SettledIsOrderly(events, subject, 0, now);
    BackfillUptimeIff(statuses, b.startTime, now, r);
    AssumedAreBackfill(events, subject, b.startTime, 0, now);
    ReportsAreCollected(events, subject, 0);
    EarlyReports(events, subject, b.startTime, now);
  }

  lemma EarlyReports(events: seq<SyncEvent>, subject: NaraName, since: int, now: int)
    ensures (forall s :: s in Statuses(events, subject, 0) && s.state != ONLINE ==>
              s.time > since || s.time == since == now)
            <==> forall e :: e in events && Reports(e, subject, 0) && e.payload.obs.onlineState != ONLINE ==>
                   Seconds(e.timestamp) > since || Seconds(e.timestamp) == since == now
  {
    ReportsAreCollected(events, subject, 0);
    if forall s :: s in Statuses(events, subject, 0) && s.state != ONLINE ==> s.time > since || s.time == since == now {
      forall e | e in events && Reports(e, subject, 0) && e.payload.obs.onlineState != ONLINE
        ensures Seconds(e.timestamp) > since || Seconds(e.timestamp) == since == now
      {
        assert StatusIn(e) in Statuses(events, subject, 0);
      }
    }
  }
}
