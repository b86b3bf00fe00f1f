/** Restart counts and uptime derived from checkpoints plus events. */
module History {
  import opened Wrappers
  import opened Events
  import opened Sorting
  import opened LedgerSpec
  import opened LedgerInvariants

  // ---------- baselines ----------

  /** The checkpoint with the latest as-of time; among equals the one held first. */
  function LatestCheckpoint(events: seq<SyncEvent>, subject: NaraName): Option<SyncEvent> {
    if events == [] then None
    else
      var previous, e := LatestCheckpoint(events[..|events| - 1], subject), events[|events| - 1];
      if IsCheckpointOf(e, subject) && e.payload.cp.asOfTime > AsOf(previous) then Some(e) else previous
  }

  function AsOf(c: Option<SyncEvent>): int {
    if c.Some? && c.value.payload.Checkpoint? then c.value.payload.cp.asOfTime else 0
  }

  lemma {:induction false} LatestIsLatest(events: seq<SyncEvent>, subject: NaraName)
    ensures var latest := LatestCheckpoint(events, subject);
            && AsOf(latest) >= 0
            && (latest.Some? ==> latest.value in events && IsCheckpointOf(latest.value, subject) && AsOf(latest) > 0)
            && forall e :: e in events && IsCheckpointOf(e, subject) ==> e.payload.cp.asOfTime <= AsOf(latest)
  {
    if events != [] {
      var front, last := events[..|events| - 1], events[|events| - 1];
      LatestIsLatest(front, subject);
      assert forall e :: e in events <==> e in front || e == last;
    }
  }

  /** The baseline by position: no checkpoint about the subject has a later as-of time, and none held before
      it one as late. There is none exactly if no checkpoint about the subject has a positive one. */
  lemma {:induction false} BaselineIs(events: seq<SyncEvent>, subject: NaraName) returns (i: nat)
    ensures LatestCheckpoint(events, subject).None? <==>
            forall e :: e in events && e.payload.Checkpoint? && e.payload.cp.subject == subject ==> e.payload.cp.asOfTime <= 0
    ensures LatestCheckpoint(events, subject).Some? ==>
              && i < |events| && LatestCheckpoint(events, subject) == Some(events[i])
              && events[i].payload.Checkpoint? && events[i].payload.cp.subject == subject && events[i].payload.cp.asOfTime > 0
              && (forall j :: 0 <= j < |events| && events[j].payload.Checkpoint? && events[j].payload.cp.subject == subject ==>
                    && events[j].payload.cp.asOfTime <= events[i].payload.cp.asOfTime
                    && (j < i ==> events[j].payload.cp.asOfTime < events[i].payload.cp.asOfTime))
  {
    i := 0;
    if events != [] {
      var front, last := events[..|events| - 1], events[|events| - 1];
      i := BaselineIs(front, subject);
      LatestIsLatest(front, subject);
      assert forall e :: e in events <==> e in front || e == last;
      if IsCheckpointOf(last, subject) && last.payload.cp.asOfTime > AsOf(LatestCheckpoint(front, subject)) {
        i := |front|;
      }
      assert forall j :: 0 <= j < |front| ==> events[j] == front[j] && front[j] in front;
    }
  }

  method GetCheckpointEvent(events: seq<SyncEvent>, subject: NaraName) returns (latest: Option<SyncEvent>)
    ensures latest == LatestCheckpoint(events, subject)
  {
    latest := None;
    var latestAsOfTime := 0;
    for i := 0 to |events|
      invariant latest == LatestCheckpoint(events[..i], subject)
      invariant latestAsOfTime == AsOf(latest)
    {
      assert events[..i + 1][..i] == events[..i];
      LatestIsLatest(events[..i], subject);
      if IsCheckpointOf(events[i], subject) && events[i].payload.cp.asOfTime > latestAsOfTime {
        latest := Some(events[i]);
        latestAsOfTime := events[i].payload.cp.asOfTime;
      }
    }
    assert events[..|events|] == events;
  }

  predicate IsBackfillOf(e: SyncEvent, subject: NaraName) {
    e.payload.Observation? && e.payload.obs.subject == subject && e.payload.obs.isBackfill
  }

  function FirstBackfill(events: seq<SyncEvent>, subject: NaraName): Option<ObservationPayload> {
    if events == [] then None
    else
      var earlier := FirstBackfill(events[..|events| - 1], subject);
      if earlier.Some? then earlier
      else if IsBackfillOf(events[|events| - 1], subject) then Some(events[|events| - 1].payload.obs)
      else None
  }

  /** The backfill by position. */
  lemma {:induction false} BackfillIs(events: seq<SyncEvent>, subject: NaraName) returns (i: nat)
    ensures FirstBackfill(events, subject).None? <==>
            forall e :: e in events && e.payload.Observation? && e.payload.obs.subject == subject ==> !e.payload.obs.isBackfill
    ensures FirstBackfill(events, subject).Some? ==>
              && i < |events| && events[i].payload.Observation? && events[i].payload.obs.subject == subject
              && events[i].payload.obs.isBackfill && FirstBackfill(events, subject) == Some(events[i].payload.obs)
              && forall j :: 0 <= j < i && events[j].payload.Observation? && events[j].payload.obs.subject == subject ==>
                   !events[j].payload.obs.isBackfill
  {
    i := 0;
    if events != [] {
      var front, last := events[..|events| - 1], events[|events| - 1];
      i := BackfillIs(front, subject);
      assert forall e :: e in events <==> e in front || e == last;
      if FirstBackfill(front, subject).None? && IsBackfillOf(last, subject) {
        i := |front|;
        assert forall j :: 0 <= j < |front| ==> events[j] in front;
      }
    }
  }

  method GetBackfill(events: seq<SyncEvent>, subject: NaraName) returns (backfill: Option<ObservationPayload>)
    ensures backfill == FirstBackfill(events, subject)
  {
    for i := 0 to |events|
      invariant FirstBackfill(events[..i], subject) == None
    {
      assert events[..i + 1][..i] == events[..i];
      if IsBackfillOf(events[i], subject) {
        StaysFirst(events, i + 1, subject);
        return Some(events[i].payload.obs);
      }
    }
    assert events[..|events|] == events;
    return None;
  }

  lemma {:induction false} StaysFirst(events: seq<SyncEvent>, i: nat, subject: NaraName)
    requires i <= |events| && FirstBackfill(events[..i], subject).Some?
    ensures FirstBackfill(events, subject) == FirstBackfill(events[..i], subject)
    decreases |events|
  {
    if i == |events| {
      assert events[..i] == events;
    } else {
      var front := events[..|events| - 1];
      assert front[..i] == events[..i];
      StaysFirst(front, i, subject);
    }
  }

  // ---------- restarts ----------

  /** A restart report that counts on its own: backfills are baselines, not restarts. */
  predicate IsOwnRestart(e: SyncEvent, subject: NaraName) {
    IsRestartOf(e, subject) && !e.payload.obs.isBackfill
  }

  /** The distinct start times of the restarts of `subject` after `after` (all, if that is 0). */
  function StartTimes(events: seq<SyncEvent>, subject: NaraName, after: int): set<int> {
    set e | e in events && IsOwnRestart(e, subject) && !(after > 0 && e.payload.obs.startTime <= after) ::
      e.payload.obs.startTime
  }

  method CountStartTimesAfter(events: seq<SyncEvent>, subject: NaraName, after: int) returns (n: int)
    ensures n == |StartTimes(events, subject, after)|
  {
    var startTimes: set<int> := {};
    for i := 0 to |events|
      invariant startTimes == StartTimes(events[..i], subject, after)
    {
      assert forall e :: e in events[..i + 1] <==> e in events[..i] || e == events[i];
      if !events[i].payload.Observation? || events[i].payload.obs.subject != subject {
        continue;
      }
      if !events[i].payload.obs.kind.Restart? || events[i].payload.obs.isBackfill {
        continue;
      }
      if after > 0 && events[i].payload.obs.startTime <= after {
        continue;
      }
      startTimes := startTimes + {events[i].payload.obs.startTime};
    }
    assert events[..|events|] == events;
    n := |startTimes|;
  }

  method CountStartTimesExcluding(events: seq<SyncEvent>, subject: NaraName, exclude: int) returns (n: int)
    ensures n == |StartTimes(events, subject, 0) - {exclude}|
  {
    var startTimes: set<int> := {};
    for i := 0 to |events|
      invariant startTimes == StartTimes(events[..i], subject, 0) - {exclude}
    {
      assert forall e :: e in events[..i + 1] <==> e in events[..i] || e == events[i];
      if !events[i].payload.Observation? || events[i].payload.obs.subject != subject {
        continue;
      }
      if !events[i].payload.obs.kind.Restart? || events[i].payload.obs.isBackfill {
        continue;
      }
      if events[i].payload.obs.startTime == exclude {
        continue;
      }
      startTimes := startTimes + {events[i].payload.obs.startTime};
    }
    assert events[..|events|] == events;
    n := |startTimes|;
  }

  /** The count a derivation starts from, and the start times it adds to it. */
  function BaseRestarts(events: seq<SyncEvent>, subject: NaraName): int {
    match LatestCheckpoint(events, subject)
    case Some(e) => if e.payload.Checkpoint? then e.payload.cp.observation.restarts else 0
    case None =>
      match FirstBackfill(events, subject)
      case Some(b) => b.restartNum
      case None => 0
  }

  function CountedStarts(events: seq<SyncEvent>, subject: NaraName): set<int> {
    if LatestCheckpoint(events, subject).Some? then
      StartTimes(events, subject, AsOf(LatestCheckpoint(events, subject)))
    else match FirstBackfill(events, subject)
      case Some(b) => StartTimes(events, subject, 0) - {b.startTime}
      case None => StartTimes(events, subject, 0)
  }

  function RestartCount(events: seq<SyncEvent>, subject: NaraName): int {
    BaseRestarts(events, subject) + |CountedStarts(events, subject)|
  }

  method DeriveRestartCount(events: seq<SyncEvent>, subject: NaraName) returns (restarts: int)
    ensures restarts == RestartCount(events, subject)
  {
    var checkpoint := GetCheckpointEvent(events, subject);
    LatestIsLatest(events, subject);
    if checkpoint.Some? {
      var newRestarts := CountStartTimesAfter(events, subject, checkpoint.value.payload.cp.asOfTime);
      return checkpoint.value.payload.cp.observation.restarts + newRestarts;
    }
    var backfill := GetBackfill(events, subject);
    if backfill.Some? {
      var newRestarts := CountStartTimesExcluding(events, subject, backfill.value.startTime);
      return backfill.value.restartNum + newRestarts;
    }
    restarts := CountStartTimesAfter(events, subject, 0);
  }

  /** The start times that restart reports about the subject name, backfills apart. */
  function ReportedStarts(events: seq<SyncEvent>, subject: NaraName): set<int> {
    set e | && e in events && e.payload.Observation? && e.payload.obs.subject == subject && e.payload.obs.kind == Restart
            && !e.payload.obs.isBackfill :: e.payload.obs.startTime
  }

  /** The restart count: the latest checkpoint's and one for each different start time reported after it;
      without a checkpoint, the backfill's and one for each other start time; without either, one for
      each start time. */
  lemma RestartCountIs(events: seq<SyncEvent>, subject: NaraName)
    ensures var starts := ReportedStarts(events, subject);
            match LatestCheckpoint(events, subject)
            case Some(c) =>
              && c.payload.Checkpoint?
              && RestartCount(events, subject)
                 == c.payload.cp.observation.restarts + |set s | s in starts && s > c.payload.cp.asOfTime|
            case None =>
              match FirstBackfill(events, subject)
              case Some(b) => RestartCount(events, subject) == b.restartNum + |starts - {b.startTime}|
              case None => RestartCount(events, subject) == |starts|
  {
    LatestIsLatest(events, subject);
    var starts := ReportedStarts(events, subject);
    assert StartTimes(events, subject, 0) == starts;
    match LatestCheckpoint(events, subject)
    case Some(c) =>
      assert StartTimes(events, subject, c.payload.cp.asOfTime) == set s | s in starts && s > c.payload.cp.asOfTime;
    case None =>
  }

  /** What a derivation would have counted at time `asOf`. */
  function RestartsAsOf(events: seq<SyncEvent>, subject: NaraName, asOf: int): int {
    BaseRestarts(events, subject) + |set s | s in CountedStarts(events, subject) && s <= asOf|
  }

  /** The one thing a snapshot at `asOf` can miscount: a start time that the backfill already
      stands for, reported as a restart after `asOf`. */
  predicate BackfillReportedAfter(full: seq<SyncEvent>, subject: NaraName, asOf: int) {
    && LatestCheckpoint(full, subject).None?
    && FirstBackfill(full, subject).Some?
    && FirstBackfill(full, subject).value.startTime in StartTimes(full, subject, asOf)
  }

  /** A checkpoint that records the count as of `asOf` stands for everything up to `asOf`: deriving
      from it and the restarts after `asOf` gives the count of the full log, whether or not the
      older restarts are still held - if and only if no restart after `asOf` repeats the start
      time of the backfill it replaces. */
  lemma SnapshotKeepsRestarts(full: seq<SyncEvent>, subject: NaraName, c: SyncEvent, log: seq<SyncEvent>)
    requires LatestCheckpoint(log, subject) == Some(c) && AsOf(Some(c)) > AsOf(LatestCheckpoint(full, subject))
    requires IsCheckpointOf(c, subject)
    requires c.payload.cp.observation.restarts == RestartsAsOf(full, subject, c.payload.cp.asOfTime)
    requires StartTimes(log, subject, c.payload.cp.asOfTime) == StartTimes(full, subject, c.payload.cp.asOfTime)
    ensures RestartCount(log, subject) == RestartCount(full, subject)
            <==> !BackfillReportedAfter(full, subject, c.payload.cp.asOfTime)
  {
    var asOf := c.payload.cp.asOfTime;
    LatestIsLatest(full, subject);
    var later, after := StartTimes(full, subject, asOf), CountedAfter(full, subject, asOf);
    SplitAt(CountedStarts(full, subject), asOf);
    assert CountedStarts(log, subject) == later;
    CountedAfterSnapshot(full, subject, asOf);
  }

  function CountedAfter(full: seq<SyncEvent>, subject: NaraName, asOf: int): set<int> {
    set s | s in CountedStarts(full, subject) && s > asOf
  }

  lemma SplitAt(starts: set<int>, asOf: int)
    ensures |starts| == |set s | s in starts && s <= asOf| + |set s | s in starts && s > asOf|
  {
    var upTo, after := set s | s in starts && s <= asOf, set s | s in starts && s > asOf;
    assert starts == upTo + after;
  }

  lemma CountedAfterSnapshot(full: seq<SyncEvent>, subject: NaraName, asOf: int)
    requires asOf > AsOf(LatestCheckpoint(full, subject))
    ensures |CountedAfter(full, subject, asOf)| == |StartTimes(full, subject, asOf)|
            <==> !BackfillReportedAfter(full, subject, asOf)
  {
    LatestIsLatest(full, subject);
    var later, after := StartTimes(full, subject, asOf), CountedAfter(full, subject, asOf);
    if BackfillReportedAfter(full, subject, asOf) {
      assert after == later - {FirstBackfill(full, subject).value.startTime};
    } else {
      assert after == later;
    }
  }

  /** The suffix form: keep any part of the log that still has every restart after `asOf`, and add
      the checkpoint. */
  lemma SuffixIsSnapshotLog(full: seq<SyncEvent>, subject: NaraName, c: SyncEvent, kept: seq<SyncEvent>)
    requires IsCheckpointOf(c, subject) && c.payload.cp.asOfTime > AsOf(LatestCheckpoint(full, subject))
    requires forall e :: e in kept ==> e in full
    requires forall e :: e in full && IsOwnRestart(e, subject) && e.payload.obs.startTime > c.payload.cp.asOfTime ==> e in kept
    ensures LatestCheckpoint(kept + [c], subject) == Some(c)
    ensures StartTimes(kept + [c], subject, c.payload.cp.asOfTime) == StartTimes(full, subject, c.payload.cp.asOfTime)
  {
    assert (kept + [c])[..|kept|] == kept;
    LatestIsLatest(full, subject);
    LatestIsLatest(kept, subject);
    assert forall e :: e in kept + [c] <==> e in kept || e == c;
  }

  // ---------- uptime ----------

  datatype StatusEvent = StatusEvent(time: int, state: OnlineState)

  function ByTime(): StatusEvent -> Rank {
    (s: StatusEvent) => ByNumber(s.time)
  }

  function StatusOf(e: SyncEvent): StatusEvent {
    StatusEvent(Seconds(e.timestamp), if e.payload.Observation? then e.payload.obs.onlineState else NoState)
  }

  function ToStatuses(s: seq<SyncEvent>): seq<StatusEvent> {
    seq(|s|, i requires 0 <= i < |s| => StatusOf(s[i]))
  }

  /** The status changes of `subject` later than `after` (all, if that is 0), in ledger order. */
  function Statuses(events: seq<SyncEvent>, subject: NaraName, after: int): seq<StatusEvent> {
    ToStatuses(Matching(events, StatusChangesAfter(subject, after)))
  }

  method CollectStatuses(events: seq<SyncEvent>, subject: NaraName, after: int) returns (statuses: seq<StatusEvent>)
    ensures statuses == Statuses(events, subject, after)
  {
    statuses := [];
    ghost var q := StatusChangesAfter(subject, after);
    for i := 0 to |events|
      invariant statuses == ToStatuses(Matching(events[..i], q))
    {
      assert events[..i + 1] == events[..i] + [events[i]];
      MatchingSnoc(events[..i], events[i], q);
      var e := events[i];
      if !e.payload.Observation? || e.payload.obs.subject != subject || !e.payload.obs.kind.StatusChange? {
        continue;
      }
      var eventTimeSec := Seconds(e.timestamp);
      if after > 0 && eventTimeSec <= after {
        continue;
      }
      statuses := statuses + [StatusEvent(eventTimeSec, e.payload.obs.onlineState)];
    }
    assert events[..|events|] == events;
  }

  /** Online time closed by an OFFLINE or MISSING, and the start of an open online period (0 if none). */
  datatype Tally = Tally(uptime: int, onlineStart: int)

  function Next(t: Tally, s: StatusEvent): Tally {
    if s.state.ONLINE? && t.onlineStart == 0 then Tally(t.uptime, s.time)
    else if (s.state.OFFLINE? || s.state.MISSING?) && t.onlineStart > 0
    then Tally(t.uptime + s.time - t.onlineStart, 0)
    else t
  }

  function TallyUp(s: seq<StatusEvent>, since: int): Tally {
    if s == [] then Tally(0, since) else Next(TallyUp(s[..|s| - 1], since), s[|s| - 1])
  }

  function Closed(t: Tally, now: int): int {
    t.uptime + if t.onlineStart > 0 then now - t.onlineStart else 0
  }

  /** `r` is what the loop over some time-sorted arrangement of `statuses` adds up to. */
  ghost predicate AddsUpTo(statuses: seq<StatusEvent>, since: int, now: int, r: int) {
    exists sorted :: SortedArrangement(statuses, sorted, ByTime()) && r == Closed(TallyUp(sorted, since), now)
  }

  method SumOnlinePeriods(statuses: seq<StatusEvent>, since: int, now: int) returns (uptime: int)
    ensures AddsUpTo(statuses, since, now, uptime)
  {
    var sorted := SortSlice(statuses, ByTime());
    uptime := 0;
    var onlineStart := since;
    for i := 0 to |sorted|
      invariant Tally(uptime, onlineStart) == TallyUp(sorted[..i], since)
    {
      assert sorted[..i + 1][..i] == sorted[..i];
      var se := sorted[i];
      if se.state == ONLINE && onlineStart == 0 {
        onlineStart := se.time;
      } else if (se.state == OFFLINE || se.state == MISSING) && onlineStart > 0 {
        uptime := uptime + se.time - onlineStart;
        onlineStart := 0;
      }
    }
    assert sorted[..|sorted|] == sorted;
    if onlineStart > 0 {
      uptime := uptime + now - onlineStart;
    }
    assert uptime == Closed(TallyUp(sorted, since), now);
  }

  method DeriveUptimeAfter(events: seq<SyncEvent>, subject: NaraName, after: int, now: int) returns (uptime: int)
    ensures AddsUpTo(Statuses(events, subject, after), 0, now, uptime)
  {
    var statuses := CollectStatuses(events, subject, after);
    uptime := SumOnlinePeriods(statuses, 0, now);
  }

  /** Checkpoint: its uptime plus what came after. Backfill: online since its start time.
      Otherwise: the status changes alone. */
  ghost predicate IsTotalUptime(events: seq<SyncEvent>, subject: NaraName, now: int, r: int) {
    match LatestCheckpoint(events, subject)
    case Some(c) =>
      c.payload.Checkpoint? && AddsUpTo(Statuses(events, subject, c.payload.cp.asOfTime), 0, now, r - c.payload.cp.observation.totalUptime)
    case None =>
      AddsUpTo(Statuses(events, subject, 0), AssumedOnlineSince(events, subject), now, r)
  }

  function AssumedOnlineSince(events: seq<SyncEvent>, subject: NaraName): int {
    match FirstBackfill(events, subject)
    case Some(b) => if b.startTime > 0 then b.startTime else 0
    case None => 0
  }

  method DeriveTotalUptime(events: seq<SyncEvent>, subject: NaraName, now: int) returns (uptime: int)
    ensures IsTotalUptime(events, subject, now, uptime)
  {
    var checkpoint := GetCheckpointEvent(events, subject);
    LatestIsLatest(events, subject);
    var baseUptime, afterTime, assumeOnlineSince := 0, 0, 0;
    if checkpoint.Some? {
      baseUptime := checkpoint.value.payload.cp.observation.totalUptime;
      afterTime := checkpoint.value.payload.cp.asOfTime;
    } else {
      var backfill := GetBackfill(events, subject);
      if backfill.Some? {
        assumeOnlineSince := backfill.value.startTime;
      }
    }
    var statuses := CollectStatuses(events, subject, afterTime);
    if assumeOnlineSince > 0 && |statuses| == 0 {
      assert SortedArrangement(statuses, [], ByTime());
      assert TallyUp([], assumeOnlineSince) == Tally(0, assumeOnlineSince);
      return now - assumeOnlineSince;
    }
    var onlineStart := if assumeOnlineSince > 0 then assumeOnlineSince else 0;
    var more := SumOnlinePeriods(statuses, onlineStart, now);
    uptime := baseUptime + more;
  }
}
