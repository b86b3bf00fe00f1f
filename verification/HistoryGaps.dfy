/** Concrete ledgers on which promises about paging and checkpoints fail: the conditions in
    `Paging.FetchAll`, `History.SnapshotKeepsRestarts`, `Snapshots.CheckpointKeepsUptime` and
    `Opinions.DerivationsAgree` are needed. All are about a nara called bob. */
module HistoryGaps {
  import opened Wrappers
  import opened Decimal
  import opened Events
  import opened Sorting
  import opened LedgerSpec
  import opened History
  import Paging
  import Opinions

  function Sight(id: string): SyncEvent {
    SyncEvent(id, 1, "", Seen("ann", "bob", "mesh"))
  }

  /** Two events at the same time and a page of one: the second event is on no page. */
  lemma TiesAreLost() returns (events: seq<SyncEvent>, cursor: string)
    ensures |events| == 2 && Paging.IsPage(Paging.Rest(events, 0, [], []), 1, [events[0]], cursor)
    ensures |Paging.Rest(events, 0, [], [])| == 2 && Paging.Rest(events, Paging.CursorTime(cursor), [], []) == []
  {
    var a, b := Sight("a"), Sight("b");
    events, cursor := [a] + [b], FormatInt(1);
    TwoMatches(a, b, Page(0, [], []));
    TwoMatches(a, b, Page(1, [], []));
    ParseFormatInt(1);
    assert Paging.IsPageOf(events, events, 1, [a], cursor);
  }

  /** A valid event from before 1970, and no other: it is on no page of any size. */
  lemma NegativeTimesAreLost() returns (e: SyncEvent)
    ensures IsValid(e) && e in Paging.AllMatches([e], [], []) && Paging.Rest([e], 0, [], []) == []
    ensures forall size :: size > 0 ==> Paging.NoStraddling([e], [], [], size)
  {
    e := Sight("a").(timestamp := -1);
    MatchingSnoc([], e, Page(0, [], []));
    assert [] + [e] == [e] && [e][..0] == [];
    assert Paging.Wanted([], [], e);
  }

  lemma TwoMatches(a: SyncEvent, b: SyncEvent, q: Query)
    ensures Matching([a] + [b], q) == (if Matches(q, a) then [a] else []) + (if Matches(q, b) then [b] else [])
  {
    MatchingSnoc([], a, q);
    MatchingSnoc([a], b, q);
    assert [] + [a] == [a];
  }

  function Report(id: string, backfill: bool): SyncEvent {
    SyncEvent(id, 1, "", Observation(ObservationPayload("ann", "bob", Restart, CRITICAL, backfill, 20, 7, 0, NoState)))
  }

  function Snapshot(restarts: int, totalUptime: int): SyncEvent {
    SyncEvent("c", 1, "", Checkpoint(CheckpointPayload(2, "bob", "b", "", NaraObservation(restarts, totalUptime, 1), 10, 1, [], [])))
  }

  lemma TwoEvents(a: SyncEvent, b: SyncEvent)
    ensures LatestCheckpoint([a] + [b], "bob") ==
            if IsCheckpointOf(b, "bob") && b.payload.cp.asOfTime > AsOf(LatestCheckpoint([a], "bob")) then Some(b)
            else LatestCheckpoint([a], "bob")
    ensures FirstBackfill([a] + [b], "bob") ==
            if FirstBackfill([a], "bob").Some? then FirstBackfill([a], "bob")
            else if IsBackfillOf(b, "bob") then Some(b.payload.obs) else None
  {
    assert ([a] + [b])[..1] == [a];
  }

  function Reports(): seq<SyncEvent> {
    [Report("a", true)] + [Report("b", false)]
  }

  lemma CountOfReports()
    ensures LatestCheckpoint(Reports(), "bob").None?
    ensures RestartCount(Reports(), "bob") == 7 && RestartsAsOf(Reports(), "bob", 10) == 7
  {
    TwoEvents(Report("a", true), Report("b", false));
    assert Report("b", false) in Reports();
    assert StartTimes(Reports(), "bob", 0) == {20};
    assert CountedStarts(Reports(), "bob") == {};
  }

  lemma StartsWithSnapshot()
    ensures StartTimes(Reports() + [Snapshot(7, 0)], "bob", 10) == {20}
  {
    var log := Reports() + [Snapshot(7, 0)];
    assert log[1] == Report("b", false) && log[1] in log;
  }

  lemma CountWithSnapshot()
    ensures RestartCount(Reports() + [Snapshot(7, 0)], "bob") == 8
  {
    var log := Reports() + [Snapshot(7, 0)];
    CountOfReports();
    StartsWithSnapshot();
    assert log[..2] == Reports();
    assert LatestCheckpoint(log, "bob") == Some(Snapshot(7, 0));
  }

  /** A backfill and a restart report with its start time, then a checkpoint of what they amount to
      as of an earlier second: the count rises from 7 to 8. */
  lemma RepeatedBackfillCountsTwice() returns (full: seq<SyncEvent>, c: SyncEvent)
    ensures IsCheckpointOf(c, "bob") && c.payload.cp.observation.restarts == RestartsAsOf(full, "bob", c.payload.cp.asOfTime)
    ensures RestartCount(full, "bob") == 7 && RestartCount(full + [c], "bob") == 8
  {
    full, c := Reports(), Snapshot(7, 0);
    CountOfReports();
    CountWithSnapshot();
  }

  function Arrival(): SyncEvent {
    SyncEvent("s", 5_000_000_000, "", Observation(ObservationPayload("ann", "bob", StatusChange, CASUAL, false, 0, 0, 0, ONLINE)))
  }

  /** Online since second 5, checkpoint at second 10 with those 5 seconds, now second 20: the total
      falls from 15 to 5. */
  lemma CheckpointLosesUptime() returns (full: seq<SyncEvent>, c: SyncEvent)
    ensures IsCheckpointOf(c, "bob") && c.payload.cp.asOfTime == 10 && c.payload.cp.observation.totalUptime == 5
    ensures IsTotalUptime(full, "bob", 10, 5) && IsTotalUptime(full, "bob", 20, 15)
    ensures IsTotalUptime(full + [c], "bob", 20, 5)
  {
    var e := Arrival();
    full, c := [e], Snapshot(0, 5);
    var s := [StatusEvent(5, ONLINE)];
    MatchingSnoc([], e, StatusChangesAfter("bob", 0));
    assert [] + [e] == [e];
    assert Statuses(full, "bob", 0) == s;
    assert s[..0] == [] && TallyUp(s, 0) == Tally(0, 5);
    assert SortedArrangement(s, s, ByTime());
    TwoMatches(e, c, StatusChangesAfter("bob", 10));
    TwoEvents(e, c);
    assert Statuses(full + [c], "bob", 10) == [];
    assert SortedArrangement<StatusEvent>([], [], ByTime());
  }

  /** A backfill that starts after the checkpoint: the ledger's derivation does not count it, the
      opinion's does. */
  lemma LateBackfillCountsOnce() returns (events: seq<SyncEvent>)
    ensures RestartCount(events, "bob") == 7
    ensures |Opinions.RestartStartsAfter(Opinions.ToRecords(Matching(events, OpinionsOn("bob"))), AsOf(LatestCheckpoint(events, "bob")))| == 1
  {
    var c, b := Snapshot(7, 0), Report("b", true);
    events := [c] + [b];
    TwoEvents(c, b);
    TwoMatches(c, b, OpinionsOn("bob"));
    assert StartTimes(events, "bob", 10) == {};
    var r := Opinions.ToRecords(Matching(events, OpinionsOn("bob")));
    assert r == [Opinions.RecordOf(b)];
    assert Opinions.RestartStartsAfter(r, 10) == {20};
  }
}
