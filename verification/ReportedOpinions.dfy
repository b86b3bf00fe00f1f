/** Derived opinions in terms of the observations held: which of their numbers count. */
module ReportedOpinions {
  import opened Wrappers
  import opened Decimal
  import opened Events
  import opened Sorting
  import opened LedgerSpec
  import opened Projections
  import opened History
  import opened TrimmedMean
  import opened Opinions

  /** A restart or first sighting of the subject. */
  predicate Tells(e: SyncEvent, subject: NaraName) {
    && e.payload.Observation? && e.payload.obs.subject == subject
    && (e.payload.obs.kind == Restart || e.payload.obs.kind == FirstSeen)
  }

  /** The positive start times told, in ledger order. */
  function ToldStarts(events: seq<SyncEvent>, subject: NaraName): seq<int> {
    if events == [] then []
    else
      var front, e := ToldStarts(events[..|events| - 1], subject), events[|events| - 1];
      if Tells(e, subject) && e.payload.obs.startTime > 0 then front + [e.payload.obs.startTime] else front
  }

  /** Does the event report a restart of the subject with a positive number? */
  predicate Numbers(e: SyncEvent, subject: NaraName) {
    Tells(e, subject) && e.payload.obs.kind == Restart && e.payload.obs.restartNum > 0
  }

  function ToldRestarts(events: seq<SyncEvent>, subject: NaraName): seq<int> {
    if events == [] then []
    else
      var front, e := ToldRestarts(events[..|events| - 1], subject), events[|events| - 1];
      if Numbers(e, subject) then front + [e.payload.obs.restartNum] else front
  }

  function Tellers(events: seq<SyncEvent>, subject: NaraName): set<NaraName> {
    set e | e in events && e.payload.Observation? && Numbers(e, subject) :: e.payload.obs.observer
  }

  /** The largest number of restarts told, or zero. */
  ghost predicate MostRestarts(events: seq<SyncEvent>, subject: NaraName, n: int) {
    && n >= 0 && (n == 0 || exists e :: e in events && Tells(e, subject) && e.payload.obs.restartNum == n)
    && forall e :: e in events && Tells(e, subject) ==> e.payload.obs.restartNum <= n
  }

  /** The latest last restart told, or zero. */
  ghost predicate LatestRestart(events: seq<SyncEvent>, subject: NaraName, n: int) {
    && n >= 0 && (n == 0 || exists e :: e in events && Tells(e, subject) && e.payload.obs.lastRestart == n)
    && forall e :: e in events && Tells(e, subject) ==> e.payload.obs.lastRestart <= n
  }

  // ---------- records are what the events tell ----------

  lemma {:induction false} CollectedAreTold(events: seq<SyncEvent>, subject: NaraName)
    ensures var records := ToRecords(Matching(events, OpinionsOn(subject)));
            && Collect(records, PositiveStart()) == ToldStarts(events, subject)
            && Collect(records, ReportedRestarts()) == ToldRestarts(events, subject)
  {
    if events != [] {
      var front, e := events[..|events| - 1], events[|events| - 1];
      CollectedAreTold(front, subject);
      var told := Matching(front, OpinionsOn(subject));
      if Matches(OpinionsOn(subject), e) {
        assert ToRecords(told + [e]) == ToRecords(told) + [RecordOf(e)];
        CollectOneMore(ToRecords(told), RecordOf(e));
      }
    }
  }

  lemma CollectOneMore(records: seq<Record>, r: Record)
    ensures Collect(records + [r], PositiveStart())
            == Collect(records, PositiveStart()) + if r.startTime > 0 then [r.startTime] else []
    ensures Collect(records + [r], ReportedRestarts())
            == Collect(records, ReportedRestarts()) + if Opinions.Reports(r) then [r.restartNum] else []
  {
    assert (records + [r])[..|records|] == records;
  }

  lemma RecordsAreTold(events: seq<SyncEvent>, subject: NaraName)
    ensures var records := ToRecords(Matching(events, OpinionsOn(subject)));
            && (forall e :: e in events && Tells(e, subject) ==> RecordOf(e) in records)
            && (forall r :: r in records ==> exists e :: e in events && Tells(e, subject) && RecordOf(e) == r)
  {
    var m := Matching(events, OpinionsOn(subject));
    MatchingMembers(events, OpinionsOn(subject));
    forall e | e in events && Tells(e, subject) ensures RecordOf(e) in ToRecords(m) {
      var i :| 0 <= i < |m| && m[i] == e;
      assert ToRecords(m)[i] == RecordOf(e);
    }
    forall r | r in ToRecords(m) ensures exists e :: e in events && Tells(e, subject) && RecordOf(e) == r {
      var i :| 0 <= i < |m| && ToRecords(m)[i] == r;
      assert m[i] in m;
    }
  }

  lemma TellerOf(events: seq<SyncEvent>, subject: NaraName, r: Record) returns (e: SyncEvent)
    requires r in ToRecords(Matching(events, OpinionsOn(subject)))
    ensures e in events && Tells(e, subject) && RecordOf(e) == r
  {
    var m := Matching(events, OpinionsOn(subject));
    MatchingMembers(events, OpinionsOn(subject));
    var i :| 0 <= i < |m| && ToRecords(m)[i] == r;
    e := m[i];
  }

  lemma NumbersOf(records: seq<Record>, r: Record)
    requires r in records
    ensures r.restartNum in RestartNums(records) && r.lastRestart in LastRestarts(records)
  {
    var i :| 0 <= i < |records| && records[i] == r;
    assert RestartNums(records)[i] == r.restartNum && LastRestarts(records)[i] == r.lastRestart;
  }

  lemma MostIsTold(events: seq<SyncEvent>, subject: NaraName, n: int)
    requires IsMax(RestartNums(ToRecords(Matching(events, OpinionsOn(subject)))), n)
    ensures MostRestarts(events, subject, n)
  {
    var records := ToRecords(Matching(events, OpinionsOn(subject)));
    RecordsAreTold(events, subject);
    forall e | e in events && Tells(e, subject) ensures e.payload.obs.restartNum <= n {
      NumbersOf(records, RecordOf(e));
    }
    if n != 0 {
      var i :| 0 <= i < |records| && records[i].restartNum == n;
      var e := TellerOf(events, subject, records[i]);
    }
  }

  lemma LatestIsTold(events: seq<SyncEvent>, subject: NaraName, n: int)
    requires IsMax(LastRestarts(ToRecords(Matching(events, OpinionsOn(subject)))), n)
    ensures LatestRestart(events, subject, n)
  {
    var records := ToRecords(Matching(events, OpinionsOn(subject)));
    RecordsAreTold(events, subject);
    forall e | e in events && Tells(e, subject) ensures e.payload.obs.lastRestart <= n {
      NumbersOf(records, RecordOf(e));
    }
    if n != 0 {
      var i :| 0 <= i < |records| && records[i].lastRestart == n;
      var e := TellerOf(events, subject, records[i]);
    }
  }

  lemma ReportersAreTellers(events: seq<SyncEvent>, subject: NaraName)
    ensures Reporters(ToRecords(Matching(events, OpinionsOn(subject)))) == Tellers(events, subject)
  {
    var records := ToRecords(Matching(events, OpinionsOn(subject)));
    RecordsAreTold(events, subject);
    forall e | e in events && Numbers(e, subject) ensures e.payload.obs.observer in Reporters(records) {
      assert RecordOf(e) in records;
    }
  }

  // ---------- opinions ----------

  lemma MeanMoves(a: seq<int>, b: seq<int>, m: int)
    requires multiset(a) == multiset(b) && IsMeanPositive(a, m)
    ensures IsMeanPositive(b, m)
  {
    KeepRearranged(a, b, 1, MAX_INT64);
  }

  lemma MaxMoves(a: seq<int>, b: seq<int>, m: int)
    requires (forall v :: v in a <==> v in b) && IsMax(a, m)
    ensures IsMax(b, m)
  {
  }

  lemma ConsensusMoves(a: seq<Record>, b: seq<Record>, o: Opinion)
    requires multiset(a) == multiset(b) && IsConsensus(a, o) && a != []
    ensures b != [] && IsConsensus(b, o)
  {
    SameElements(a, b);
    RearrangedNumbers(a, b);
    CollectRearranged(a, b, PositiveStart());
    CollectRearranged(a, b, ReportedRestarts());
    SameElements(Collect(a, PositiveStart()), Collect(b, PositiveStart()));
    MaxMoves(LastRestarts(a), LastRestarts(b), o.lastRestart);
    if Collect(a, PositiveStart()) != [] {
      MeanMoves(Collect(a, PositiveStart()), Collect(b, PositiveStart()), o.startTime);
    }
    RestartsMove(a, b, o.restarts);
  }

  lemma RestartsMove(a: seq<Record>, b: seq<Record>, n: int)
    requires multiset(a) == multiset(b) && IsRestarts(a, n)
    ensures IsRestarts(b, n)
  {
    RearrangedNumbers(a, b);
    CollectRearranged(a, b, ReportedRestarts());
    if |Reporters(a)| <= 1 {
      MaxMoves(RestartNums(a), RestartNums(b), n);
    } else {
      var mean :| IsMeanPositive(Collect(a, ReportedRestarts()), mean)
                && if mean == 0 then IsMax(RestartNums(a), n) else n == mean;
      MeanMoves(Collect(a, ReportedRestarts()), Collect(b, ReportedRestarts()), mean);
      if mean == 0 {
        MaxMoves(RestartNums(a), RestartNums(b), n);
      }
    }
  }

  /** The opinion of a projection that is up to date, in terms of what the ledger holds: the start time is
      the trimmed mean of the positive start times told; the last restart the latest told; the restart
      count the largest number told if at most one nara reports restarts with a number, and
      otherwise the trimmed mean of these numbers. With nothing told, all are zero. */
  lemma OpinionIsTold(ledger: Ledger, p: Replay, subject: NaraName, now: int, o: Opinion)
    requires UpToDate(ledger, p)
              && IsOpinion(ledger.events, RecordsFor(Fold(Handle, map[], p.processed), subject), subject, now, o)
    ensures LatestRestart(ledger.events, subject, o.lastRestart)
    ensures if ToldStarts(ledger.events, subject) == [] then o.startTime == 0
            else IsMeanPositive(ToldStarts(ledger.events, subject), o.startTime)
    ensures if |Tellers(ledger.events, subject)| <= 1 then MostRestarts(ledger.events, subject, o.restarts)
            else exists mean :: IsMeanPositive(ToldRestarts(ledger.events, subject), mean)
                                && if mean == 0 then MostRestarts(ledger.events, subject, o.restarts) else o.restarts == mean
    ensures (exists e :: e in ledger.events && Tells(e, subject)) ==>
              IsTotalUptime(ledger.events, subject, now, o.totalUptime)
    ensures (forall e :: e in ledger.events ==> !Tells(e, subject)) ==> o == Opinion(0, 0, 0, 0)
  {
    var q := OpinionsOn(subject);
    var records := RecordsFor(Fold(Handle, map[], p.processed), subject);
    var held := ToRecords(Matching(ledger.events, q));
    ReplayedRecords(p.processed, subject);
    MatchingRearranged(p.processed, ledger.events, q);
    ToRecordsRearranged(Matching(p.processed, q), Matching(ledger.events, q));
    SameElements(records, held);
    RecordsAreTold(ledger.events, subject);
    if records == [] {
      NothingTold(ledger.events, subject);
    } else {
      ConsensusMoves(records, held, o);
      HeldOpinion(ledger.events, subject, o);
    }
  }

  lemma NothingTold(events: seq<SyncEvent>, subject: NaraName)
    requires Matching(events, OpinionsOn(subject)) == []
    ensures forall e :: e in events ==> !Tells(e, subject)
    ensures ToldStarts(events, subject) == [] && Tellers(events, subject) == {}
  {
    MatchingMembers(events, OpinionsOn(subject));
    CollectedAreTold(events, subject);
    forall e | e in events ensures !Tells(e, subject) {
      assert e !in Matching(events, OpinionsOn(subject));
    }
  }

  lemma HeldOpinion(events: seq<SyncEvent>, subject: NaraName, o: Opinion)
    requires var held := ToRecords(Matching(events, OpinionsOn(subject))); held != [] && IsConsensus(held, o)
    ensures exists e :: e in events && Tells(e, subject)
    ensures LatestRestart(events, subject, o.lastRestart)
    ensures if ToldStarts(events, subject) == [] then o.startTime == 0 else IsMeanPositive(ToldStarts(events, subject), o.startTime)
    ensures if |Tellers(events, subject)| <= 1 then MostRestarts(events, subject, o.restarts)
            else exists mean :: IsMeanPositive(ToldRestarts(events, subject), mean)
                                && if mean == 0 then MostRestarts(events, subject, o.restarts) else o.restarts == mean
  {
    var held := ToRecords(Matching(events, OpinionsOn(subject)));
    CollectedAreTold(events, subject);
    LatestIsTold(events, subject, o.lastRestart);
    ReportersAreTellers(events, subject);
    RecordsAreTold(events, subject);
    assert held[0] in held;
    if |Reporters(held)| <= 1 {
      MostIsTold(events, subject, o.restarts);
    } else {
      var mean :| IsMeanPositive(Collect(held, ReportedRestarts()), mean)
                && if mean == 0 then IsMax(RestartNums(held), o.restarts) else o.restarts == mean;
      if mean == 0 {
        MostIsTold(events, subject, o.restarts);
      }
      assert IsMeanPositive(ToldRestarts(events, subject), mean);
    }
  }

  // ---------- opinions from a checkpoint ----------

  /** A restart of the subject that starts after second `asOf`. */
  predicate TellsLater(e: SyncEvent, subject: NaraName, asOf: int) {
    Tells(e, subject) && e.payload.obs.kind == Restart && e.payload.obs.startTime > asOf
  }

  /** The last restart is the latest told by a restart after `asOf`, if one of them names any, or else the
      latest start time of these, or zero. */
  ghost predicate LastTold(events: seq<SyncEvent>, subject: NaraName, asOf: int, n: int) {
    if exists e :: e in events && TellsLater(e, subject, asOf) && e.payload.obs.lastRestart > 0
    then && (exists e :: e in events && TellsLater(e, subject, asOf) && e.payload.obs.lastRestart == n)
         && forall e :: e in events && TellsLater(e, subject, asOf) ==> e.payload.obs.lastRestart <= n
    else && (n == 0 || exists e :: e in events && TellsLater(e, subject, asOf) && e.payload.obs.startTime == n)
         && forall e :: e in events && TellsLater(e, subject, asOf) ==> e.payload.obs.startTime <= n
  }

  /** After a checkpoint the start times counted are those told later, and the last restart is told later. */
  lemma CheckpointOpinionIsTold(ledger: Ledger, p: Replay, subject: NaraName, asOf: int, n: int)
    requires UpToDate(ledger, p) && asOf >= 0
    requires IsLastRestart(RestartsAfter(RecordsFor(Fold(Handle, map[], p.processed), subject), asOf), n)
    ensures RestartStartsAfter(RecordsFor(Fold(Handle, map[], p.processed), subject), asOf)
            == set e | e in ledger.events && e.payload.Observation? && TellsLater(e, subject, asOf) :: e.payload.obs.startTime
    ensures LastTold(ledger.events, subject, asOf, n)
  {
    var q := OpinionsOn(subject);
    var records := RecordsFor(Fold(Handle, map[], p.processed), subject);
    var held := ToRecords(Matching(ledger.events, q));
    ReplayedRecords(p.processed, subject);
    MatchingRearranged(p.processed, ledger.events, q);
    ToRecordsRearranged(Matching(p.processed, q), Matching(ledger.events, q));
    SameElements(records, held);
    LaterAreTold(ledger.events, subject, asOf, records);
    LaterStartsAreTold(ledger.events, subject, asOf, records);
    LastIsTold(ledger.events, subject, asOf, records, n);
  }

  /** The records after `asOf` are those of the restarts told later. */
  ghost predicate LaterTold(events: seq<SyncEvent>, subject: NaraName, asOf: int, later: seq<Record>) {
    && (forall e :: e in events && TellsLater(e, subject, asOf) ==> RecordOf(e) in later)
    && (forall r :: r in later ==> exists e :: e in events && TellsLater(e, subject, asOf) && RecordOf(e) == r)
  }

  lemma LaterAreTold(events: seq<SyncEvent>, subject: NaraName, asOf: int, records: seq<Record>)
    requires forall r :: r in records <==> r in ToRecords(Matching(events, OpinionsOn(subject)))
    ensures LaterTold(events, subject, asOf, RestartsAfter(records, asOf))
  {
    RecordsAreTold(events, subject);
    LaterStarts(records, asOf);
    var later := RestartsAfter(records, asOf);
    forall r | r in later ensures exists e :: e in events && TellsLater(e, subject, asOf) && RecordOf(e) == r {
      var e := TellerOf(events, subject, r);
      assert TellsLater(e, subject, asOf);
    }
  }

  lemma LaterStartsAreTold(events: seq<SyncEvent>, subject: NaraName, asOf: int, records: seq<Record>)
    requires LaterTold(events, subject, asOf, RestartsAfter(records, asOf))
    ensures RestartStartsAfter(records, asOf)
            == set e | e in events && e.payload.Observation? && TellsLater(e, subject, asOf) :: e.payload.obs.startTime
  {
    LaterStarts(records, asOf);
    forall e | e in events && TellsLater(e, subject, asOf)
      ensures e.payload.obs.startTime in RestartStartsAfter(records, asOf)
    {
      assert RecordOf(e) in records;
    }
    forall t | t in RestartStartsAfter(records, asOf)
      ensures exists e :: e in events && TellsLater(e, subject, asOf) && e.payload.obs.startTime == t
    {
      var r :| r in records && r.kind.Restart? && r.startTime > asOf && r.startTime == t;
      assert r in RestartsAfter(records, asOf);
      var e :| e in events && TellsLater(e, subject, asOf) && RecordOf(e) == r;
    }
  }

  lemma LastIsTold(events: seq<SyncEvent>, subject: NaraName, asOf: int, records: seq<Record>, n: int)
    requires LaterTold(events, subject, asOf, RestartsAfter(records, asOf))
    requires IsLastRestart(RestartsAfter(records, asOf), n)
    ensures LastTold(events, subject, asOf, n)
  {
    var later := RestartsAfter(records, asOf);
    var named :| IsMax(LastRestarts(later), named) && if named == 0 then IsMax(StartsOf(later), n) else n == named;
    forall e | e in events && TellsLater(e, subject, asOf) ensures e.payload.obs.lastRestart <= named {
      NumbersOf(later, RecordOf(e));
    }
    if named != 0 {
      var i :| 0 <= i < |later| && later[i].lastRestart == named;
      assert later[i] in later;
    } else {
      forall e | e in events && TellsLater(e, subject, asOf) ensures e.payload.obs.startTime <= n {
        assert RecordOf(e) in later;
        var i :| 0 <= i < |later| && later[i] == RecordOf(e);
        assert StartsOf(later)[i] == e.payload.obs.startTime;
        assert e.payload.obs.startTime in StartsOf(later);
      }
      if n != 0 {
        var i :| 0 <= i < |later| && later[i].startTime == n;
        assert later[i] in later;
      }
    }
  }
}
