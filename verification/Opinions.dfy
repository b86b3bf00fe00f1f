/** The opinion read model: what the network believes about a nara's start time and restarts. */
module Opinions {
  import opened Wrappers
  import opened Decimal
  import opened Events
  import opened Sorting
  import opened LedgerSpec
  import opened LedgerInvariants
  import opened Projections
  import opened History
  import opened Uptime
  import opened Snapshots
  import opened TrimmedMean

  datatype Record = Record(observer: NaraName, kind: ObservationKind, startTime: int, restartNum: int, lastRestart: int)

  type Records = map<NaraName, seq<Record>>

  function RecordOf(e: SyncEvent): Record {
    if e.payload.Observation? then
      var o := e.payload.obs;
      Record(o.observer, o.kind, o.startTime, o.restartNum, o.lastRestart)
    else Record("", OtherKind(""), 0, 0, 0)
  }

  function RecordsFor(records: Records, subject: NaraName): seq<Record> {
    if subject in records then records[subject] else []
  }

  /** The handler given to the projection engine: restarts and first sightings are appended. */
  function Handle(records: Records, e: SyncEvent): Records {
    if !e.payload.Observation? then records
    else if !e.payload.obs.kind.Restart? && !e.payload.obs.kind.FirstSeen? then records
    else records[e.payload.obs.subject := RecordsFor(records, e.payload.obs.subject) + [RecordOf(e)]]
  }

  class OpinionRecords {
    var observationsBySubject: Records

    constructor ()
      ensures observationsBySubject == map[]
    {
      observationsBySubject := map[];
    }

    method HandleEvent(e: SyncEvent)
      modifies this
      ensures observationsBySubject == Handle(old(observationsBySubject), e)
    {
      if !e.payload.Observation? {
        return;
      }
      var obs := e.payload.obs;
      if obs.kind != Restart && obs.kind != FirstSeen {
        return;
      }
      var record := Record(obs.observer, obs.kind, obs.startTime, obs.restartNum, obs.lastRestart);
      var known := if obs.subject in observationsBySubject then observationsBySubject[obs.subject] else [];
      observationsBySubject := observationsBySubject[obs.subject := known + [record]];
    }
  }

  function ToRecords(s: seq<SyncEvent>): seq<Record> {
    seq(|s|, i requires 0 <= i < |s| => RecordOf(s[i]))
  }

  /** After a replay the records about a subject are those of its restart and first-seen
      observations, in the order handled. */
  lemma {:induction false} ReplayedRecords(s: seq<SyncEvent>, subject: NaraName)
    ensures RecordsFor(Fold(Handle, map[], s), subject) == ToRecords(Matching(s, OpinionsOn(subject)))
  {
    if s != [] {
      ReplayedRecords(s[..|s| - 1], subject);
    }
  }

  // ---------- collecting values ----------

  function Collect(records: seq<Record>, f: Record -> Option<int>): seq<int> {
    if records == [] then []
    else
      var rest := Collect(records[..|records| - 1], f);
      match f(records[|records| - 1])
      case Some(v) => rest + [v]
      case None => rest
  }

  function PositiveStart(): Record -> Option<int> {
    (r: Record) => if r.startTime > 0 then Some(r.startTime) else None
  }

  function ReportedRestarts(): Record -> Option<int> {
    (r: Record) => if Reports(r) then Some(r.restartNum) else None
  }

  predicate Reports(r: Record) {
    r.restartNum > 0 && r.kind.Restart?
  }

  function Reporters(records: seq<Record>): set<NaraName> {
    set r | r in records && Reports(r) :: r.observer
  }

  lemma {:induction false} CollectConcat(a: seq<Record>, b: seq<Record>, f: Record -> Option<int>)
    ensures Collect(a + b, f) == Collect(a, f) + Collect(b, f)
  {
    if b == [] {
      assert a + b == a;
    } else {
      assert (a + b)[..|a + b| - 1] == a + b[..|b| - 1];
      CollectConcat(a, b[..|b| - 1], f);
    }
  }

  lemma MiddleOut<T>(p: seq<T>, m: seq<T>, q: seq<T>)
    ensures multiset(p + m + q) == multiset(p + q) + multiset(m)
  {
  }

  lemma CollectMiddleOut(p: seq<Record>, m: seq<Record>, q: seq<Record>, f: Record -> Option<int>)
    ensures multiset(Collect(p + m + q, f)) == multiset(Collect(p + q, f)) + multiset(Collect(m, f))
  {
    CollectConcat(p + m, q, f);
    CollectConcat(p, m, f);
    CollectConcat(p, q, f);
  }

  lemma TakeOut<T>(a: seq<T>, b: seq<T>) returns (k: nat)
    requires multiset(a) == multiset(b) && a != []
    ensures k < |b| && b[k] == a[|a| - 1]
    ensures a == a[..|a| - 1] + [b[k]] && b == b[..k] + [b[k]] + b[k + 1..]
    ensures multiset(b[..k] + b[k + 1..]) == multiset(a[..|a| - 1])
  {
    var n := |a| - 1;
    SameElements(a, b);
    assert a[n] in a;
    k :| 0 <= k < |b| && b[k] == a[n];
    assert a == a[..n] + [a[n]] + [] && a[..n] + [] == a[..n];
    assert b == b[..k] + [b[k]] + b[k + 1..];
    MiddleOut(a[..n], [a[n]], []);
    MiddleOut(b[..k], [b[k]], b[k + 1..]);
    CancelRight(multiset(b[..k] + b[k + 1..]), multiset(a[..n]), multiset{a[n]});
  }

  lemma {:induction false} CollectRearranged(a: seq<Record>, b: seq<Record>, f: Record -> Option<int>)
    requires multiset(a) == multiset(b)
    ensures multiset(Collect(a, f)) == multiset(Collect(b, f))
  {
    SameElements(a, b);
    if a != [] {
      var n := |a| - 1;
      var k := TakeOut(a, b);
      CollectRearranged(a[..n], b[..k] + b[k + 1..], f);
      CollectMiddleOut(b[..k], [b[k]], b[k + 1..], f);
      CollectConcat(a[..n], [b[k]], f);
    }
  }

  /** The largest of zero and the values. */
  ghost predicate IsMax(values: seq<int>, m: int) {
    && m >= 0 && (m == 0 || m in values)
    && forall v :: v in values ==> v <= m
  }

  function RestartNums(records: seq<Record>): seq<int> {
    seq(|records|, i requires 0 <= i < |records| => records[i].restartNum)
  }

  function LastRestarts(records: seq<Record>): seq<int> {
    seq(|records|, i requires 0 <= i < |records| => records[i].lastRestart)
  }

  ghost predicate IsMeanPositive(values: seq<int>, m: int) {
    exists sorted :: SortedArrangement(Keep(values, 1, MAX_INT64), sorted, Identity()) && m == OfSorted(sorted)
  }

  // ---------- opinions from observations ----------

  datatype Opinion = Opinion(startTime: int, restarts: int, lastRestart: int, totalUptime: int)

  ghost predicate IsStartTime(records: seq<Record>, t: int) {
    var values := Collect(records, PositiveStart());
    if values == [] then t == 0 else IsMeanPositive(values, t)
  }

  /** One observer or none: the highest number reported. Several: their trimmed mean. */
  ghost predicate IsRestarts(records: seq<Record>, n: int) {
    if |Reporters(records)| <= 1 then IsMax(RestartNums(records), n)
    else exists mean :: IsMeanPositive(Collect(records, ReportedRestarts()), mean)
                        && if mean == 0 then IsMax(RestartNums(records), n) else n == mean
  }

  /** What the records say; nothing if there are none. */
  ghost predicate IsConsensus(records: seq<Record>, o: Opinion) {
    if records == [] then o == Opinion(0, 0, 0, 0)
    else IsStartTime(records, o.startTime) && IsRestarts(records, o.restarts) && IsMax(LastRestarts(records), o.lastRestart)
  }

  /** The records' consensus, with the total uptime that the ledger gives. */
  ghost predicate IsOpinion(events: seq<SyncEvent>, records: seq<Record>, subject: NaraName, now: int, o: Opinion) {
    IsConsensus(records, o) && (records != [] ==> IsTotalUptime(events, subject, now, o.totalUptime))
  }

  ghost predicate Int64Records(records: seq<Record>) {
    forall r :: r in records ==> IsInt64(r.startTime) && IsInt64(r.restartNum)
  }

  method DeriveStartTime(records: seq<Record>) returns (startTime: int)
    requires Int64Records(records)
    ensures IsStartTime(records, startTime)
  {
    var values: seq<int> := [];
    for i := 0 to |records|
      invariant values == Collect(records[..i], PositiveStart())
      invariant forall v :: v in values ==> IsInt64(v)
    {
      assert records[..i + 1][..i] == records[..i];
      assert records[i] in records;
      if records[i].startTime > 0 {
        values := values + [records[i].startTime];
      }
    }
    assert records[..|records|] == records;
    if |values| == 0 {
      return 0;
    }
    startTime := TrimmedMeanPositive(values);
  }

  method CollectReports(records: seq<Record>) returns (maxRestarts: int, observers: set<NaraName>, values: seq<int>)
    requires Int64Records(records)
    ensures IsMax(RestartNums(records), maxRestarts)
    ensures observers == Reporters(records) && values == Collect(records, ReportedRestarts())
    ensures forall v :: v in values ==> IsInt64(v)
  {
    maxRestarts, observers, values := 0, {}, [];
    for i := 0 to |records|
      invariant IsMax(RestartNums(records[..i]), maxRestarts)
      invariant observers == Reporters(records[..i])
      invariant values == Collect(records[..i], ReportedRestarts())
      invariant forall v :: v in values ==> IsInt64(v)
    {
      OneMoreRecord(records, i);
      assert records[i] in records;
      if records[i].restartNum > maxRestarts {
        maxRestarts := records[i].restartNum;
      }
      if records[i].restartNum > 0 && records[i].kind == Restart {
        observers := observers + {records[i].observer};
        values := values + [records[i].restartNum];
      }
    }
    assert records[..|records|] == records;
  }

  lemma OneMoreRecord(records: seq<Record>, i: nat)
    requires i < |records|
    ensures records[..i + 1][..i] == records[..i]
    ensures RestartNums(records[..i + 1]) == RestartNums(records[..i]) + [records[i].restartNum]
    ensures LastRestarts(records[..i + 1]) == LastRestarts(records[..i]) + [records[i].lastRestart]
    ensures Reporters(records[..i + 1]) == Reporters(records[..i]) + if Reports(records[i]) then {records[i].observer} else {}
  {
  }

  method DeriveRestarts(records: seq<Record>) returns (restarts: int)
    requires Int64Records(records)
    ensures IsRestarts(records, restarts)
  {
    var maxRestarts, observers, values := CollectReports(records);
    if |observers| <= 1 {
      return maxRestarts;
    }
    restarts := TrimmedMeanPositive(values);
    assert IsMeanPositive(values, restarts);
    if restarts == 0 {
      restarts := maxRestarts;
    }
  }

  method DeriveLastRestart(records: seq<Record>) returns (lastRestart: int)
    ensures IsMax(LastRestarts(records), lastRestart)
  {
    lastRestart := 0;
    for i := 0 to |records|
      invariant IsMax(LastRestarts(records[..i]), lastRestart)
    {
      OneMoreRecord(records, i);
      if records[i].lastRestart > lastRestart {
        lastRestart := records[i].lastRestart;
      }
    }
    assert records[..|records|] == records;
  }

  method DeriveOpinion(events: seq<SyncEvent>, records: seq<Record>, subject: NaraName, now: int) returns (o: Opinion)
    requires Int64Records(records)
    ensures IsOpinion(events, records, subject, now, o)
  {
    if |records| == 0 {
      return Opinion(0, 0, 0, 0);
    }
    var startTime := DeriveStartTime(records);
    var restarts := DeriveRestarts(records);
    var lastRestart := DeriveLastRestart(records);
    var totalUptime := DeriveTotalUptime(events, subject, now);
    o := Opinion(startTime, restarts, lastRestart, totalUptime);
  }

  // ---------- determinism ----------

  lemma MeanPositiveUnique(a: seq<int>, b: seq<int>, m: int, n: int)
    requires multiset(a) == multiset(b) && IsMeanPositive(a, m) && IsMeanPositive(b, n)
    ensures m == n
  {
    var sa :| SortedArrangement(Keep(a, 1, MAX_INT64), sa, Identity()) && m == OfSorted(sa);
    var sb :| SortedArrangement(Keep(b, 1, MAX_INT64), sb, Identity()) && n == OfSorted(sb);
    KeepRearranged(a, b, 1, MAX_INT64);
    OrderIsIrrelevant(Keep(a, 1, MAX_INT64), Keep(b, 1, MAX_INT64), sa, sb);
  }

  lemma MaxUnique(a: seq<int>, b: seq<int>, m: int, n: int)
    requires (forall v :: v in a <==> v in b) && IsMax(a, m) && IsMax(b, n)
    ensures m == n
  {
  }

  lemma RearrangedNumbers(a: seq<Record>, b: seq<Record>)
    requires multiset(a) == multiset(b)
    ensures forall v :: v in RestartNums(a) <==> v in RestartNums(b)
    ensures forall v :: v in LastRestarts(a) <==> v in LastRestarts(b)
    ensures Reporters(a) == Reporters(b)
  {
    SameElements(a, b);
    NumbersWithin(a, b);
    NumbersWithin(b, a);
  }

  lemma NumbersWithin(a: seq<Record>, b: seq<Record>)
    requires forall r :: r in a ==> r in b
    ensures forall v :: v in RestartNums(a) ==> v in RestartNums(b)
    ensures forall v :: v in LastRestarts(a) ==> v in LastRestarts(b)
  {
    forall i | 0 <= i < |a| ensures a[i].restartNum in RestartNums(b) && a[i].lastRestart in LastRestarts(b) {
      assert a[i] in b;
      var j :| 0 <= j < |b| && b[j] == a[i];
      assert RestartNums(b)[j] == a[i].restartNum && LastRestarts(b)[j] == a[i].lastRestart;
    }
  }

  lemma RestartsUnique(a: seq<Record>, b: seq<Record>, m: int, n: int)
    requires multiset(a) == multiset(b) && IsRestarts(a, m) && IsRestarts(b, n)
    ensures m == n
  {
    RearrangedNumbers(a, b);
    if |Reporters(a)| > 1 {
      CollectRearranged(a, b, ReportedRestarts());
      var ma :| IsMeanPositive(Collect(a, ReportedRestarts()), ma)
                && if ma == 0 then IsMax(RestartNums(a), m) else m == ma;
      var mb :| IsMeanPositive(Collect(b, ReportedRestarts()), mb)
                && if mb == 0 then IsMax(RestartNums(b), n) else n == mb;
      MeanPositiveUnique(Collect(a, ReportedRestarts()), Collect(b, ReportedRestarts()), ma, mb);
      if ma == 0 {
        MaxUnique(RestartNums(a), RestartNums(b), m, n);
      }
    } else {
      MaxUnique(RestartNums(a), RestartNums(b), m, n);
    }
  }

  lemma StartTimeUnique(a: seq<Record>, b: seq<Record>, m: int, n: int)
    requires multiset(a) == multiset(b) && IsStartTime(a, m) && IsStartTime(b, n)
    ensures m == n
  {
    CollectRearranged(a, b, PositiveStart());
    var va, vb := Collect(a, PositiveStart()), Collect(b, PositiveStart());
    SameElements(va, vb);
    if va != [] {
      MeanPositiveUnique(va, vb, m, n);
    }
  }

  lemma ConsensusUnique(a: seq<Record>, b: seq<Record>, x: Opinion, y: Opinion)
    requires multiset(a) == multiset(b) && IsConsensus(a, x) && IsConsensus(b, y)
    ensures x.startTime == y.startTime && x.restarts == y.restarts && x.lastRestart == y.lastRestart
    ensures a == [] ==> x == y
  {
    SameElements(a, b);
    if a != [] {
      StartTimeUnique(a, b, x.startTime, y.startTime);
      RestartsUnique(a, b, x.restarts, y.restarts);
      RearrangedNumbers(a, b);
      MaxUnique(LastRestarts(a), LastRestarts(b), x.lastRestart, y.lastRestart);
    }
  }

  // ---------- a minority of reports ----------

  lemma MeanPositiveResists(values: seq<int>, m: int, lo: int, hi: int)
    requires IsMeanPositive(values, m) && 0 < lo <= hi <= MAX_INT64 && MajorityIn(values, lo, hi)
    ensures m >= 1 && lo / 5 <= m <= 5 * hi
  {
    var sorted :| SortedArrangement(Keep(values, 1, MAX_INT64), sorted, Identity()) && m == OfSorted(sorted);
    KeepMembers(values, 1, MAX_INT64);
    SameElements(Keep(values, 1, MAX_INT64), sorted);
    Scale(5 * hi, |sorted|, |values|);
    MajorityOfPositive(values, sorted, lo, hi);
    MajorityFits(sorted, lo, hi);
    MinorityCannotMovePositive(values, sorted, lo, hi, m);
  }

  /** If more than half of the positive start times reported lie in `[lo, hi]`, the opinion is
      within a factor of five of that, whatever the others are; so is the restart count if at
      least two naras report. With one reporter the largest number counts, whatever it is. */
  lemma OpinionResistsMinority(records: seq<Record>, o: Opinion, lo: int, hi: int)
    requires IsConsensus(records, o) && 0 < lo <= hi <= MAX_INT64
    ensures MajorityIn(Collect(records, PositiveStart()), lo, hi) ==> lo / 5 <= o.startTime <= 5 * hi
    ensures |Reporters(records)| >= 2 && MajorityIn(Collect(records, ReportedRestarts()), lo, hi) ==>
              lo / 5 <= o.restarts <= 5 * hi
  {
    var starts, reports := Collect(records, PositiveStart()), Collect(records, ReportedRestarts());
    if MajorityIn(starts, lo, hi) {
      KeepMembers(starts, lo, hi);
      MeanPositiveResists(starts, o.startTime, lo, hi);
    }
    if |Reporters(records)| >= 2 && MajorityIn(reports, lo, hi) {
      var mean :| IsMeanPositive(reports, mean)
                  && if mean == 0 then IsMax(RestartNums(records), o.restarts) else o.restarts == mean;
      MeanPositiveResists(reports, mean, lo, hi);
    }
  }

  lemma ToRecordsTakeOut(b: seq<SyncEvent>, k: nat)
    requires k < |b|
    ensures multiset(ToRecords(b)) == multiset(ToRecords(b[..k] + b[k + 1..])) + multiset{RecordOf(b[k])}
  {
    assert ToRecords(b) == ToRecords(b[..k]) + [RecordOf(b[k])] + ToRecords(b[k + 1..]);
    assert ToRecords(b[..k] + b[k + 1..]) == ToRecords(b[..k]) + ToRecords(b[k + 1..]);
  }

  lemma {:induction false} ToRecordsRearranged(a: seq<SyncEvent>, b: seq<SyncEvent>)
    requires multiset(a) == multiset(b)
    ensures multiset(ToRecords(a)) == multiset(ToRecords(b))
  {
    SameElements(a, b);
    if a != [] {
      var n := |a| - 1;
      var k := TakeOut(a, b);
      ToRecordsRearranged(a[..n], b[..k] + b[k + 1..]);
      ToRecordsTakeOut(b, k);
      ToRecordsTakeOut(a, n);
      assert a[..n] + a[n + 1..] == a[..n];
    }
  }

  lemma {:induction false} ToStatusesRearranged(a: seq<SyncEvent>, b: seq<SyncEvent>)
    requires multiset(a) == multiset(b)
    ensures multiset(ToStatuses(a)) == multiset(ToStatuses(b))
  {
    SameElements(a, b);
    if a != [] {
      var n := |a| - 1;
      var k := TakeOut(a, b);
      ToStatusesRearranged(a[..n], b[..k] + b[k + 1..]);
      assert ToStatuses(a) == ToStatuses(a[..n]) + [StatusOf(b[k])];
      assert ToStatuses(b) == ToStatuses(b[..k]) + [StatusOf(b[k])] + ToStatuses(b[k + 1..]);
      assert ToStatuses(b[..k] + b[k + 1..]) == ToStatuses(b[..k]) + ToStatuses(b[k + 1..]);
    }
  }

  /** Nothing in the two ledgers depends on the order of events: the same checkpoint is the latest,
      the same backfill the first, and no two status changes of one second contradict each other. */
  ghost predicate SameBaseline(a: seq<SyncEvent>, b: seq<SyncEvent>, subject: NaraName) {
    && LatestCheckpoint(a, subject) == LatestCheckpoint(b, subject)
    && AssumedStart(a, subject) == AssumedStart(b, subject)
    && Orderly(BaseStatuses(a, subject))
  }

  lemma TotalUnique(a: seq<SyncEvent>, b: seq<SyncEvent>, subject: NaraName, now: int, r: int, r': int)
    requires multiset(a) == multiset(b) && SameBaseline(a, b, subject)
    requires IsTotalUptime(a, subject, now, r) && IsTotalUptime(b, subject, now, r')
    ensures r == r'
  {
    var q := StatusChangesAfter(subject, AsOf(LatestCheckpoint(a, subject)));
    TotalParts(a, subject, now, r);
    TotalParts(b, subject, now, r');
    MatchingRearranged(a, b, q);
    ToStatusesRearranged(Matching(a, q), Matching(b, q));
    SumUnique(BaseStatuses(a, subject), BaseStatuses(b, subject), AssumedStart(a, subject), now,
              r - BaseUptime(a, subject), r' - BaseUptime(b, subject));
  }

  /** Same events, same opinion: two projections that are up to date with ledgers holding the
      same events derive the same start time, restarts and last restart, whatever order the
      events came in and however often the projections were reset; and the same total uptime,
      if the order decides no tie. */
  lemma SameEventsSameOpinion(ledger1: Ledger, p1: Replay, ledger2: Ledger, p2: Replay, subject: NaraName, now: int,
                              x: Opinion, y: Opinion)
    requires UpToDate(ledger1, p1) && UpToDate(ledger2, p2) && multiset(ledger1.events) == multiset(ledger2.events)
    requires IsOpinion(ledger1.events, RecordsFor(Fold(Handle, map[], p1.processed), subject), subject, now, x)
    requires IsOpinion(ledger2.events, RecordsFor(Fold(Handle, map[], p2.processed), subject), subject, now, y)
    ensures x.startTime == y.startTime && x.restarts == y.restarts && x.lastRestart == y.lastRestart
    ensures SameBaseline(ledger1.events, ledger2.events, subject) ==> x == y
  {
    SameRecords(ledger1, p1, ledger2, p2, subject);
    var a, b := RecordsFor(Fold(Handle, map[], p1.processed), subject), RecordsFor(Fold(Handle, map[], p2.processed), subject);
    ConsensusUnique(a, b, x, y);
    SameElements(a, b);
    if a != [] && SameBaseline(ledger1.events, ledger2.events, subject) {
      TotalUnique(ledger1.events, ledger2.events, subject, now, x.totalUptime, y.totalUptime);
    }
  }

  lemma SameRecords(ledger1: Ledger, p1: Replay, ledger2: Ledger, p2: Replay, subject: NaraName)
    requires UpToDate(ledger1, p1) && UpToDate(ledger2, p2) && multiset(ledger1.events) == multiset(ledger2.events)
    ensures multiset(RecordsFor(Fold(Handle, map[], p1.processed), subject))
            == multiset(RecordsFor(Fold(Handle, map[], p2.processed), subject))
  {
    ReplayedRecords(p1.processed, subject);
    ReplayedRecords(p2.processed, subject);
    MatchingRearranged(p1.processed, p2.processed, OpinionsOn(subject));
    ToRecordsRearranged(Matching(p1.processed, OpinionsOn(subject)), Matching(p2.processed, OpinionsOn(subject)));
  }

  // ---------- opinions from a checkpoint ----------

  /** The restart reports with a start time after the checkpoint. */
  function RestartsAfter(records: seq<Record>, asOf: int): seq<Record> {
    if records == [] then []
    else
      var front, last := RestartsAfter(records[..|records| - 1], asOf), records[|records| - 1];
      if last.kind.Restart? && last.startTime > asOf then front + [last] else front
  }

  function RestartStartsAfter(records: seq<Record>, asOf: int): set<int> {
    set r | r in records && r.kind.Restart? && r.startTime > asOf :: r.startTime
  }

  lemma {:induction false} LaterStarts(records: seq<Record>, asOf: int)
    ensures forall r :: r in RestartsAfter(records, asOf) <==> r in records && r.kind.Restart? && r.startTime > asOf
  {
    if records != [] {
      LaterStarts(records[..|records| - 1], asOf);
      assert records == records[..|records| - 1] + [records[|records| - 1]];
    }
  }

  function StartsOf(records: seq<Record>): seq<int> {
    seq(|records|, i requires 0 <= i < |records| => records[i].startTime)
  }

  method CollectLater(records: seq<Record>, asOf: int) returns (later: seq<Record>)
    ensures later == RestartsAfter(records, asOf)
  {
    later := [];
    for i := 0 to |records|
      invariant later == RestartsAfter(records[..i], asOf)
    {
      assert records[..i + 1][..i] == records[..i];
      if records[i].kind == Restart && records[i].startTime > asOf {
        later := later + [records[i]];
      }
    }
    assert records[..|records|] == records;
  }

  method CountStarts(later: seq<Record>) returns (n: nat)
    requires forall r :: r in later ==> r.startTime > 0
    ensures n == |set r | r in later :: r.startTime|
  {
    var starts: set<int> := {};
    for i := 0 to |later|
      invariant starts == set r | r in later[..i] :: r.startTime
    {
      assert forall r :: r in later[..i + 1] <==> r in later[..i] || r == later[i];
      assert later[i] in later;
      if later[i].startTime > 0 {
        starts := starts + {later[i].startTime};
      }
    }
    assert later[..|later|] == later;
    n := |starts|;
  }

  method LatestStart(later: seq<Record>) returns (start: int)
    ensures IsMax(StartsOf(later), start)
  {
    start := 0;
    for i := 0 to |later|
      invariant IsMax(StartsOf(later[..i]), start)
    {
      assert StartsOf(later[..i + 1]) == StartsOf(later[..i]) + [later[i].startTime];
      if later[i].startTime > start {
        start := later[i].startTime;
      }
    }
    assert later[..|later|] == later;
  }

  /** The latest restart the later reports name, or else the latest start time they have. */
  ghost predicate IsLastRestart(later: seq<Record>, n: int) {
    exists named :: IsMax(LastRestarts(later), named) && if named == 0 then IsMax(StartsOf(later), n) else n == named
  }

  /** An opinion from the latest checkpoint and what came after; without a checkpoint, the records'
      opinion. */
  method DeriveFromCheckpoint(events: seq<SyncEvent>, records: seq<Record>, subject: NaraName, now: int)
    returns (o: Opinion, used: bool)
    requires Int64Records(records)
    ensures used == LatestCheckpoint(events, subject).Some?
    ensures !used ==> IsOpinion(events, records, subject, now, o)
    ensures used ==> var c := LatestCheckpoint(events, subject).value.payload;
                     && c.Checkpoint? && o.startTime == c.cp.observation.startTime
                     && o.restarts == c.cp.observation.restarts + |RestartStartsAfter(records, c.cp.asOfTime)|
                     && IsLastRestart(RestartsAfter(records, c.cp.asOfTime), o.lastRestart)
                     && IsTotalUptime(events, subject, now, o.totalUptime)
  {
    var checkpoint := GetCheckpointEvent(events, subject);
    LatestIsLatest(events, subject);
    if checkpoint.None? {
      o := DeriveOpinion(events, records, subject, now);
      return o, false;
    }
    var cp := checkpoint.value.payload.cp;
    var later := CollectLater(records, cp.asOfTime);
    LaterStarts(records, cp.asOfTime);
    assert (set r | r in later :: r.startTime) == RestartStartsAfter(records, cp.asOfTime);
    var more := CountStarts(later);
    var lastRestart := DeriveLastRestart(later);
    ghost var named := lastRestart;
    if lastRestart == 0 && |later| > 0 {
      lastRestart := LatestStart(later);
    }
    assert IsMax(LastRestarts(later), named) && if named == 0 then IsMax(StartsOf(later), lastRestart) else lastRestart == named;
    var uptime := DeriveUptimeAfter(events, subject, cp.asOfTime, now);
    return Opinion(cp.observation.startTime, cp.observation.restarts + more, lastRestart,
                   cp.observation.totalUptime + uptime), true;
  }

  /** A backfill that starts after the checkpoint and that no restart report repeats. */
  ghost predicate LateBackfill(events: seq<SyncEvent>, subject: NaraName, asOf: int) {
    exists e :: e in events && IsRestartOf(e, subject) && e.payload.obs.isBackfill
                && e.payload.obs.startTime > asOf && e.payload.obs.startTime !in StartTimes(events, subject, asOf)
  }

  lemma RecordStarts(events: seq<SyncEvent>, done: seq<SyncEvent>, subject: NaraName, asOf: int)
    requires multiset(done) == multiset(events) && asOf > 0
    ensures var starts := RestartStartsAfter(ToRecords(Matching(done, OpinionsOn(subject))), asOf);
            && StartTimes(events, subject, asOf) <= starts
            && (starts == StartTimes(events, subject, asOf) <==> !LateBackfill(events, subject, asOf))
  {
    SameElements(done, events);
    MatchingMembers(done, OpinionsOn(subject));
    var m := Matching(done, OpinionsOn(subject));
    var starts := RestartStartsAfter(ToRecords(m), asOf);
    forall e | e in events && IsRestartOf(e, subject) && e.payload.obs.startTime > asOf ensures e.payload.obs.startTime in starts {
      var i :| 0 <= i < |m| && m[i] == e;
      assert ToRecords(m)[i] == RecordOf(e);
      assert RecordOf(e) in ToRecords(m);
    }
    forall t | t in starts ensures exists e :: e in events && IsRestartOf(e, subject) && e.payload.obs.startTime == t && t > asOf {
      var r :| r in ToRecords(m) && r.kind.Restart? && r.startTime > asOf && r.startTime == t;
      var i :| 0 <= i < |m| && ToRecords(m)[i] == r;
      assert m[i] in m;
    }
  }

  /** When the projection is up to date, both derivations count the same restarts - if and only
      if there is no late backfill, which one counts and the other does not. */
  lemma DerivationsAgree(ledger: Ledger, p: Replay, subject: NaraName, c: SyncEvent, restarts: int)
    requires UpToDate(ledger, p) && LatestCheckpoint(ledger.events, subject) == Some(c) && IsCheckpointOf(c, subject)
    requires c.payload.cp.asOfTime > 0
    requires var records := RecordsFor(Fold(Handle, map[], p.processed), subject);
             restarts == c.payload.cp.observation.restarts + |RestartStartsAfter(records, c.payload.cp.asOfTime)|
    ensures restarts >= RestartCount(ledger.events, subject)
    ensures restarts == RestartCount(ledger.events, subject) <==> !LateBackfill(ledger.events, subject, c.payload.cp.asOfTime)
  {
    var asOf := c.payload.cp.asOfTime;
    ReplayedRecords(p.processed, subject);
    RecordStarts(ledger.events, p.processed, subject, asOf);
    var starts, own := RestartStartsAfter(ToRecords(Matching(p.processed, OpinionsOn(subject))), asOf), StartTimes(ledger.events, subject, asOf);
    SubsetSize(own, starts);
  }
}
