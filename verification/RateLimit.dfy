/** The sliding-window limit on observations about one subject. */
module RateLimit {
  import opened Events
  import opened Sorting

  type Counts = map<NaraName, seq<int>>

  const WINDOW_SEC := 300
  const MAX_EVENTS := 10

  function Stamps(c: Counts, subject: NaraName): seq<int> {
    if subject in c then c[subject] else []
  }

  /** The entries not older than `from`, in order. */
  function Recent(ts: seq<int>, from: int): seq<int> {
    if ts == [] then []
    else if ts[|ts| - 1] >= from then Recent(ts[..|ts| - 1], from) + [ts[|ts| - 1]]
    else Recent(ts[..|ts| - 1], from)
  }

  class ObservationRateLimit {
    var subjectCounts: Counts
    const windowSec: nat
    const maxEvents: nat

    constructor ()
      ensures subjectCounts == map[] && windowSec == 300 && maxEvents == 10
    {
      subjectCounts, windowSec, maxEvents := map[], WINDOW_SEC, MAX_EVENTS;
    }

    static method KeepRecent(ts: seq<int>, from: int) returns (valid: seq<int>)
      ensures valid == Recent(ts, from)
    {
      valid := [];
      for i := 0 to |ts|
        invariant valid == Recent(ts[..i], from)
      {
        assert ts[..i + 1][..i] == ts[..i];
        if ts[i] >= from {
          valid := valid + [ts[i]];
        }
      }
      assert ts[..|ts|] == ts;
    }

    method CheckAndAdd(subject: NaraName, timestamp: int) returns (allowed: bool)
      modifies this
      ensures allowed == Admits(old(subjectCounts), windowSec, maxEvents, subject, timestamp)
      ensures subjectCounts == Checked(old(subjectCounts), windowSec, maxEvents, subject, timestamp)
    {
      var valid := KeepRecent(if subject in subjectCounts then subjectCounts[subject] else [], timestamp - windowSec);
      if |valid| >= maxEvents {
        return false;
      }
      subjectCounts := subjectCounts[subject := valid + [timestamp]];
      allowed := true;
    }

    method Cleanup(now: int)
      modifies this
      ensures subjectCounts == Cleaned(old(subjectCounts), windowSec, now)
    {
      var todo := subjectCounts.Keys;
      ghost var before := subjectCounts;
      while todo != {}
        invariant todo <= before.Keys
        invariant forall s :: s in todo ==> s in subjectCounts && subjectCounts[s] == before[s]
        invariant forall s :: s in subjectCounts ==> s in before
        invariant forall s :: s in before && s !in todo ==>
                    if Recent(before[s], now - windowSec) == [] then s !in subjectCounts
                    else s in subjectCounts && subjectCounts[s] == Recent(before[s], now - windowSec)
        decreases todo
      {
        var subject :| subject in todo;
        todo := todo - {subject};
        var valid := KeepRecent(subjectCounts[subject], now - windowSec);
        if |valid| == 0 {
          subjectCounts := subjectCounts - {subject};
        } else {
          subjectCounts := subjectCounts[subject := valid];
        }
      }
      assert subjectCounts == Cleaned(before, windowSec, now);
    }
  }

  predicate Admits(c: Counts, window: nat, max: nat, subject: NaraName, t: int) {
    |Recent(Stamps(c, subject), t - window)| < max
  }

  /** A refusal stores nothing; an admission also drops what left the window. */
  function Checked(c: Counts, window: nat, max: nat, subject: NaraName, t: int): Counts {
    if Admits(c, window, max, subject, t) then c[subject := Recent(Stamps(c, subject), t - window) + [t]] else c
  }

  function Cleaned(c: Counts, window: nat, now: int): Counts {
    map s | s in c && Recent(c[s], now - window) != [] :: Recent(c[s], now - window)
  }

  // ---------- runs ----------

  datatype LimiterOp = Check(subject: NaraName, time: int) | CleanupAt(time: int)

  function After(c: Counts, window: nat, max: nat, op: LimiterOp): Counts {
    match op
    case Check(subject, t) => Checked(c, window, max, subject, t)
    case CleanupAt(now) => Cleaned(c, window, now)
  }

  function Limiter(ops: seq<LimiterOp>, window: nat, max: nat): Counts {
    if ops == [] then map[] else After(Limiter(ops[..|ops| - 1], window, max), window, max, ops[|ops| - 1])
  }

  function Extended(h: seq<int>, window: nat, max: nat, subject: NaraName, op: LimiterOp): seq<int> {
    if op.Check? && op.subject == subject && |Recent(h, op.time - window)| < max then h + [op.time] else h
  }

  /** Everything ever admitted about `subject`, by a limiter that forgets nothing. */
  function Admitted(ops: seq<LimiterOp>, window: nat, max: nat, subject: NaraName): seq<int> {
    if ops == [] then []
    else Extended(Admitted(ops[..|ops| - 1], window, max, subject), window, max, subject, ops[|ops| - 1])
  }

  /** Checks come in time order, and a cleanup is not later than the next check. It may be earlier
      than the checks before it. */
  ghost predicate InTimeOrder(ops: seq<LimiterOp>) {
    forall i, j :: 0 <= i < j < |ops| && ops[j].Check? ==> ops[i].time <= ops[j].time
  }

  /** No operation so far is later than `t`. */
  ghost predicate NotAfter(ops: seq<LimiterOp>, t: int) {
    forall op :: op in ops ==> op.time <= t
  }

  lemma {:induction false} RecentConcat(a: seq<int>, b: seq<int>, from: int)
    ensures Recent(a + b, from) == Recent(a, from) + Recent(b, from)
  {
    if b == [] {
      assert a + b == a;
    } else {
      assert a + b == (a + b[..|b| - 1]) + [b[|b| - 1]];
      assert (a + b)[..|a + b| - 1] == a + b[..|b| - 1];
      RecentConcat(a, b[..|b| - 1], from);
    }
  }

  /** Looking back less far sees no difference after dropping what is further back. */
  lemma {:induction false} RecentTwice(ts: seq<int>, near: int, far: int)
    requires far <= near
    ensures Recent(Recent(ts, far), near) == Recent(ts, near)
  {
    if ts != [] {
      var front, last := ts[..|ts| - 1], ts[|ts| - 1];
      RecentTwice(front, near, far);
      RecentConcat(Recent(front, far), if last >= far then [last] else [], near);
      assert [last][..0] == [];
      assert Recent([last], near) == if last >= near then [last] else [];
    }
  }

  lemma RecentSnoc(ts: seq<int>, x: int, from: int)
    ensures Recent(ts + [x], from) == Recent(ts, from) + if x >= from then [x] else []
  {
  }

  lemma CheckKeepsAgreement(c: Counts, h: seq<int>, window: nat, max: nat, subject: NaraName, op: LimiterOp, t: int)
    requires op.Check? && op.time <= t
    requires Recent(Stamps(c, subject), op.time - window) == Recent(h, op.time - window)
    ensures Recent(Stamps(After(c, window, max, op), subject), t - window)
            == Recent(Extended(h, window, max, subject, op), t - window)
  {
    var known, near, far := Stamps(c, subject), t - window, op.time - window;
    StampsAfter(c, window, max, subject, op);
    NearFollowsFar(known, h, near, far, op.time);
  }

  lemma NearFollowsFar(known: seq<int>, h: seq<int>, near: int, far: int, x: int)
    requires far <= near && Recent(known, far) == Recent(h, far)
    ensures Recent(known, near) == Recent(h, near) == Recent(Recent(known, far), near)
    ensures Recent(Recent(known, far) + [x], near) == Recent(h + [x], near)
  {
    RecentTwice(known, near, far);
    RecentTwice(h, near, far);
    RecentSnoc(Recent(known, far), x, near);
    RecentSnoc(h, x, near);
  }

  lemma StampsAfter(c: Counts, window: nat, max: nat, subject: NaraName, op: LimiterOp)
    ensures var known, far := Stamps(c, subject), op.time - window;
            Stamps(After(c, window, max, op), subject)
            == if op.CleanupAt? then Recent(known, far)
               else if op.subject == subject && |Recent(known, far)| < max then Recent(known, far) + [op.time]
               else known
  {
  }

  lemma InTimeOrderFront(ops: seq<LimiterOp>)
    requires InTimeOrder(ops) && ops != []
    ensures InTimeOrder(ops[..|ops| - 1])
    ensures ops[|ops| - 1].Check? ==> NotAfter(ops[..|ops| - 1], ops[|ops| - 1].time)
    ensures forall t :: NotAfter(ops, t) ==> NotAfter(ops[..|ops| - 1], t) && ops[|ops| - 1].time <= t
  {
    assert ops == ops[..|ops| - 1] + [ops[|ops| - 1]];
  }

  lemma CleanupKeepsAgreement(c: Counts, h: seq<int>, window: nat, max: nat, subject: NaraName, now: int, t: int)
    requires now <= t && Recent(Stamps(c, subject), t - window) == Recent(h, t - window)
    ensures Recent(Stamps(After(c, window, max, CleanupAt(now)), subject), t - window) == Recent(h, t - window)
  {
    StampsAfter(c, window, max, subject, CleanupAt(now));
    RecentTwice(Stamps(c, subject), t - window, now - window);
  }

  /** What the limiter still knows is all that any later decision can depend on. */
  lemma {:induction false} ForgettingIsHarmless(ops: seq<LimiterOp>, window: nat, max: nat, subject: NaraName, t: int)
    requires InTimeOrder(ops) && NotAfter(ops, t)
    ensures Recent(Stamps(Limiter(ops, window, max), subject), t - window)
            == Recent(Admitted(ops, window, max, subject), t - window)
  {
    if ops != [] {
      var front, last := ops[..|ops| - 1], ops[|ops| - 1];
      InTimeOrderFront(ops);
      if last.Check? {
        ForgettingIsHarmless(front, window, max, subject, last.time);
        CheckKeepsAgreement(Limiter(front, window, max), Admitted(front, window, max, subject), window, max, subject, last, t);
      } else {
        ForgettingIsHarmless(front, window, max, subject, t);
        CleanupKeepsAgreement(Limiter(front, window, max), Admitted(front, window, max, subject), window, max, subject,
                              last.time, t);
      }
    }
  }

  /** Cleanups and the pruning inside checks change no decision: the limiter answers like one that
      remembers every admission. */
  lemma DecisionsAgree(ops: seq<LimiterOp>, window: nat, max: nat, subject: NaraName, t: int)
    requires InTimeOrder(ops) && NotAfter(ops, t)
    ensures Admits(Limiter(ops, window, max), window, max, subject, t)
            <==> |Recent(Admitted(ops, window, max, subject), t - window)| < max
  {
    ForgettingIsHarmless(ops, window, max, subject, t);
  }

  // ---------- the limit ----------

  /** How many admissions fall into the closed interval. */
  function CountIn(ts: seq<int>, from: int, to: int): nat {
    if ts == [] then 0
    else CountIn(ts[..|ts| - 1], from, to) + if from <= ts[|ts| - 1] <= to then 1 else 0
  }

  lemma {:induction false} CountInRecent(ts: seq<int>, from: int, to: int)
    ensures CountIn(ts, from, to) <= |Recent(ts, from)|
    ensures (forall i :: 0 <= i < |ts| ==> ts[i] <= to) ==> CountIn(ts, from, to) == |Recent(ts, from)|
  {
    if ts != [] {
      CountInRecent(ts[..|ts| - 1], from, to);
    }
  }

  lemma {:induction false} RecentShrinks(ts: seq<int>, near: int, far: int)
    requires far <= near
    ensures |Recent(ts, near)| <= |Recent(ts, far)|
  {
    if ts != [] {
      RecentShrinks(ts[..|ts| - 1], near, far);
    }
  }

  ghost predicate Upto(h: seq<int>, t: int) {
    forall i :: 0 <= i < |h| ==> h[i] <= t
  }

  lemma AdmissionKeepsWindow(h: seq<int>, window: nat, max: nat, subject: NaraName, op: LimiterOp, from: int)
    requires Upto(h, op.time) && CountIn(h, from, from + window) <= max
    ensures CountIn(Extended(h, window, max, subject, op), from, from + window) <= max
  {
    if Extended(h, window, max, subject, op) != h && from <= op.time <= from + window {
      assert (h + [op.time])[..|h|] == h;
      CountInRecent(h, from, from + window);
      RecentShrinks(h, from, op.time - window);
    } else {
      assert (h + [op.time])[..|h|] == h;
    }
  }

  lemma {:induction false} AdmittedInOrder(ops: seq<LimiterOp>, window: nat, max: nat, subject: NaraName, t: int)
    requires InTimeOrder(ops) && NotAfter(ops, t)
    ensures Ascending(Admitted(ops, window, max, subject)) && Upto(Admitted(ops, window, max, subject), t)
  {
    if ops != [] {
      var front, last := ops[..|ops| - 1], ops[|ops| - 1];
      InTimeOrderFront(ops);
      AdmittedInOrder(front, window, max, subject, if last.Check? then last.time else t);
    }
  }

  /** The admissions about a subject are in time order, and no closed window of `window`
      seconds holds more than `max` of them. */
  lemma {:induction false} WindowNeverOverfull(ops: seq<LimiterOp>, window: nat, max: nat, subject: NaraName, from: int)
    requires InTimeOrder(ops)
    ensures Ascending(Admitted(ops, window, max, subject))
    ensures CountIn(Admitted(ops, window, max, subject), from, from + window) <= max
  {
    if ops != [] {
      var front, last := ops[..|ops| - 1], ops[|ops| - 1];
      InTimeOrderFront(ops);
      WindowNeverOverfull(front, window, max, subject, from);
      if last.Check? {
        AdmittedInOrder(front, window, max, subject, last.time);
        AdmissionKeepsWindow(Admitted(front, window, max, subject), window, max, subject, last, from);
      }
    }
  }

  /** An event is refused exactly when the window that ends with it is full of admissions. */
  lemma RefusedOnlyWhenFull(ops: seq<LimiterOp>, window: nat, max: nat, subject: NaraName, t: int)
    requires InTimeOrder(ops) && NotAfter(ops, t)
    ensures !Admits(Limiter(ops, window, max), window, max, subject, t)
            <==> CountIn(Admitted(ops, window, max, subject), t - window, t) == max
  {
    AdmittedInOrder(ops, window, max, subject, t);
    DecisionsAgree(ops, window, max, subject, t);
    WindowNeverOverfull(ops, window, max, subject, t - window);
    CountInRecent(Admitted(ops, window, max, subject), t - window, t);
  }
}
