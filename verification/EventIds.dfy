/** Event IDs, as the texts that are hashed: when two events share one. */
module EventIds {
  import opened Decimal
  import opened Events
  import opened Attestations
  import opened Convergence
  import opened Replicas

  // ---------- texts joined by colons ----------

  function Join(parts: seq<string>): string
    requires parts != []
  {
    if |parts| == 1 then parts[0] else parts[0] + ":" + Join(parts[1..])
  }

  ghost predicate Separable(parts: seq<string>) {
    parts != [] && forall i :: 0 <= i < |parts| - 1 ==> ':' !in parts[i]
  }

  /** Only the last part may contain a colon: then the shorter list is the other one's beginning, and its
      last part all the rest. */
  lemma {:induction false} JoinSeparates(a: seq<string>, b: seq<string>)
    requires Separable(a) && Separable(b) && |a| <= |b| && Join(a) == Join(b)
    ensures a[..|a| - 1] == b[..|a| - 1] && a[|a| - 1] == Join(b[|a| - 1..])
    decreases |a|
  {
    if |a| == 1 {
      assert b[0..] == b;
    } else {
      assert ':' !in a[0] && ':' !in b[0];
      FirstColon(a[0], Join(a[1..]), b[0], Join(b[1..]));
      SeparableRest(a);
      SeparableRest(b);
      JoinSeparates(a[1..], b[1..]);
      assert a[1..][..|a| - 2] == a[1..|a| - 1] && b[1..][..|a| - 2] == b[1..|a| - 1];
      assert a[..|a| - 1] == [a[0]] + a[1..|a| - 1] && b[..|a| - 1] == [b[0]] + b[1..|a| - 1];
      assert b[1..][|a| - 2..] == b[|a| - 1..];
    }
  }

  lemma SeparableRest(parts: seq<string>)
    requires Separable(parts) && |parts| > 1
    ensures Separable(parts[1..])
  {
    assert forall i :: 0 <= i < |parts| - 2 ==> parts[1..][i] == parts[i + 1];
  }

  lemma JoinSame(a: seq<string>, b: seq<string>)
    requires Separable(a) && Separable(b) && |a| == |b| && Join(a) == Join(b)
    ensures a == b
  {
    JoinSeparates(a, b);
    assert b[|a| - 1..] == [b[|a| - 1]];
    assert a == a[..|a| - 1] + [a[|a| - 1]] && b == b[..|a| - 1] + [b[|a| - 1]];
  }

  lemma JoinMore(first: string, rest: seq<string>)
    requires rest != []
    ensures Join([first] + rest) == first + ":" + Join(rest)
  {
    assert ([first] + rest)[1..] == rest;
  }

  lemma Join2(a: string, b: string)
    ensures Join([a, b]) == a + ":" + b
  {
    assert [a, b][1..] == [b];
  }

  lemma Join3(a: string, b: string, c: string)
    ensures Join([a, b, c]) == a + ":" + b + ":" + c
  {
    assert [a, b, c][1..] == [b, c];
    Join2(b, c);
    assert a + ":" + (b + ":" + c) == a + ":" + b + ":" + c;
  }

  lemma Join4(a: string, b: string, c: string, d: string)
    ensures Join([a, b, c, d]) == a + ":" + b + ":" + c + ":" + d
  {
    assert [a, b, c, d][1..] == [b, c, d];
    Join3(b, c, d);
    assert a + ":" + (b + ":" + c + ":" + d) == a + ":" + b + ":" + c + ":" + d;
  }

  lemma Join5(a: string, b: string, c: string, d: string, e: string)
    ensures Join([a, b, c, d, e]) == a + ":" + b + ":" + c + ":" + d + ":" + e
  {
    assert [a, b, c, d, e][1..] == [b, c, d, e];
    Join4(b, c, d, e);
    assert a + ":" + (b + ":" + c + ":" + d + ":" + e) == a + ":" + b + ":" + c + ":" + d + ":" + e;
  }

  // ---------- what an event's text is made of ----------

  /** The name or ID that a checkpoint's text puts first. */
  function SubjectShown(cp: CheckpointPayload): string {
    if cp.subjectID == "" then cp.subject else cp.subjectID
  }

  function CheckpointParts(cp: CheckpointPayload): seq<string> {
    if cp.version == 0 || cp.version == 1 then ["checkpoint"] + ValueParts(cp)
    else ["checkpoint", "v2"] + ValueParts(cp) + [cp.previousCheckpointID]
  }

  lemma {:induction false} JoinAppend(parts: seq<string>, last: string)
    requires parts != []
    ensures Join(parts + [last]) == Join(parts) + ":" + last
  {
    if |parts| == 1 {
      assert parts + [last] == [parts[0], last];
      Join2(parts[0], last);
    } else {
      assert (parts + [last])[1..] == parts[1..] + [last];
      JoinAppend(parts[1..], last);
      assert parts[0] + ":" + (Join(parts[1..]) + ":" + last) == (parts[0] + ":" + Join(parts[1..])) + ":" + last;
    }
  }

  function ValueParts(cp: CheckpointPayload): seq<string> {
    [SubjectShown(cp), FormatInt(cp.asOfTime), FormatInt(cp.observation.startTime), FormatInt(cp.observation.restarts),
     FormatInt(cp.observation.totalUptime)]
  }

  function ValueText(cp: CheckpointPayload): string {
    SubjectShown(cp) + ":" + FormatInt(cp.asOfTime) + ":" + FormatInt(cp.observation.startTime)
    + ":" + FormatInt(cp.observation.restarts) + ":" + FormatInt(cp.observation.totalUptime)
  }

  lemma ValuesJoin(cp: CheckpointPayload)
    ensures Join(ValueParts(cp)) == ValueText(cp)
  {
    var p := ValueParts(cp);
    Join5(p[0], p[1], p[2], p[3], p[4]);
  }

  lemma FirstFormat(values: seq<string>, text: string)
    requires values != [] && Join(values) == text
    ensures Join(["checkpoint"] + values) == "checkpoint:" + text
  {
    JoinMore("checkpoint", values);
    assert "checkpoint" + ":" + text == "checkpoint:" + text;
  }

  lemma SecondFormat(values: seq<string>, text: string, previous: string)
    requires values != [] && Join(values) == text
    ensures Join(["checkpoint", "v2"] + values + [previous]) == "checkpoint:v2:" + text + ":" + previous
  {
    var tail := values + [previous];
    JoinAppend(values, previous);
    JoinMore("v2", tail);
    JoinMore("checkpoint", ["v2"] + tail);
    assert ["checkpoint", "v2"] + values + [previous] == ["checkpoint"] + (["v2"] + tail);
    assert "checkpoint" + ":" + ("v2" + ":" + (text + ":" + previous)) == "checkpoint:v2:" + text + ":" + previous;
  }

  lemma CheckpointText(cp: CheckpointPayload)
    ensures CheckpointContent(cp) == Join(CheckpointParts(cp))
  {
    ValuesJoin(cp);
    assert CheckpointContent(cp) == if cp.version == 0 || cp.version == 1 then "checkpoint:" + ValueText(cp)
                                    else "checkpoint:v2:" + ValueText(cp) + ":" + cp.previousCheckpointID;
    if cp.version == 0 || cp.version == 1 {
      FirstFormat(ValueParts(cp), ValueText(cp));
    } else {
      SecondFormat(ValueParts(cp), ValueText(cp), cp.previousCheckpointID);
    }
  }

  /** What an event names is free of colons, except where its text ends with it. */
  predicate ColonFree(p: Payload) {
    match p
    case Social(kind, actor, target, reason, _) => ':' !in kind && ':' !in actor && ':' !in target && ':' !in reason
    case Ping(observer, target, _) => ':' !in observer && ':' !in target
    case HeyThere(from, publicKey, _) => ':' !in from && ':' !in publicKey
    case Chau(from, _) => ':' !in from
    case Seen(observer, subject, _) => ':' !in observer && ':' !in subject
    case Checkpoint(cp) => ':' !in SubjectShown(cp)
    case Observation(_) => true
    case NoPayload(service) => ':' !in service
  }

  lemma HeaderSeparates(a: SyncEvent, b: SyncEvent)
    requires ComputeID(a) == ComputeID(b) && ':' !in Service(a.payload) && ':' !in Service(b.payload)
    ensures a.timestamp == b.timestamp && Service(a.payload) == Service(b.payload)
    ensures ContentString(a.payload) == ContentString(b.payload)
  {
    var pa := [FormatInt(a.timestamp), Service(a.payload), ContentString(a.payload)];
    var pb := [FormatInt(b.timestamp), Service(b.payload), ContentString(b.payload)];
    Join3(pa[0], pa[1], pa[2]);
    Join3(pb[0], pb[1], pb[2]);
    FormatIntHasNoColon(a.timestamp);
    FormatIntHasNoColon(b.timestamp);
    JoinSame(pa, pb);
    assert pa[0] == pb[0] && pa[1] == pb[1] && pa[2] == pb[2];
    FormatIntInjective(a.timestamp, b.timestamp);
  }

  lemma SameCheckpointValues(a: CheckpointPayload, b: CheckpointPayload)
    requires CheckpointParts(a) == CheckpointParts(b)
    ensures (a.version == 0 || a.version == 1) <==> (b.version == 0 || b.version == 1)
    ensures SubjectShown(a) == SubjectShown(b) && a.asOfTime == b.asOfTime && a.observation == b.observation
    ensures a.version != 0 && a.version != 1 ==> a.previousCheckpointID == b.previousCheckpointID
  {
    var pa, pb := CheckpointParts(a), CheckpointParts(b);
    assert |pa| == |pb|;
    var k := if a.version == 0 || a.version == 1 then 1 else 2;
    assert pa[k] == pb[k] && pa[k + 1] == pb[k + 1] && pa[k + 2] == pb[k + 2];
    assert pa[k + 3] == pb[k + 3] && pa[k + 4] == pb[k + 4];
    FormatIntInjective(a.asOfTime, b.asOfTime);
    FormatIntInjective(a.observation.startTime, b.observation.startTime);
    FormatIntInjective(a.observation.restarts, b.observation.restarts);
    FormatIntInjective(a.observation.totalUptime, b.observation.totalUptime);
    assert k == 2 ==> pa[7] == pb[7];
  }

  lemma CheckpointPartsSeparable(cp: CheckpointPayload)
    requires ':' !in SubjectShown(cp)
    ensures Separable(CheckpointParts(cp))
  {
    FormatIntHasNoColon(cp.asOfTime);
    FormatIntHasNoColon(cp.observation.startTime);
    FormatIntHasNoColon(cp.observation.restarts);
    FormatIntHasNoColon(cp.observation.totalUptime);
  }

  lemma JoinHasColon(parts: seq<string>)
    requires |parts| > 1
    ensures ':' in Join(parts)
  {
    assert (parts[0] + ":" + Join(parts[1..]))[|parts[0]|] == ':';
  }

  /** The text of a checkpoint tells the two formats apart. */
  lemma FormatsDiffer(a: CheckpointPayload, b: CheckpointPayload)
    requires ':' !in SubjectShown(a) && ':' !in SubjectShown(b) && |CheckpointParts(a)| < |CheckpointParts(b)|
    ensures CheckpointContent(a) != CheckpointContent(b)
  {
    CheckpointText(a);
    CheckpointText(b);
    CheckpointPartsSeparable(a);
    CheckpointPartsSeparable(b);
    JoinHasColon(CheckpointParts(b)[5..]);
    FormatIntHasNoColon(a.observation.totalUptime);
    if Join(CheckpointParts(a)) == Join(CheckpointParts(b)) {
      JoinSeparates(CheckpointParts(a), CheckpointParts(b));
    }
  }

  lemma CheckpointTextDetermines(a: CheckpointPayload, b: CheckpointPayload)
    requires ':' !in SubjectShown(a) && ':' !in SubjectShown(b) && CheckpointContent(a) == CheckpointContent(b)
    ensures CheckpointParts(a) == CheckpointParts(b)
  {
    if |CheckpointParts(a)| < |CheckpointParts(b)| {
      FormatsDiffer(a, b);
    } else if |CheckpointParts(b)| < |CheckpointParts(a)| {
      FormatsDiffer(b, a);
    } else {
      CheckpointText(a);
      CheckpointText(b);
      CheckpointPartsSeparable(a);
      CheckpointPartsSeparable(b);
      JoinSame(CheckpointParts(a), CheckpointParts(b));
    }
  }

  /** Two payloads of one service with the same text, other than observations and checkpoints. */
  lemma TextDetermines(a: Payload, b: Payload)
    requires ValidPayload(a) && ValidPayload(b) && ColonFree(a) && ColonFree(b)
    requires Service(a) == Service(b) && ContentString(a) == ContentString(b)
    requires !a.Observation? && !b.Observation? && !a.Checkpoint? && !b.Checkpoint?
    ensures a == b
  {
    assert Service(a) == Service(b);
    match a
    case Social(kind, actor, target, reason, witnessedBy) =>
      Join5(kind, actor, target, reason, witnessedBy);
      Join5(b.kind, b.actor, b.target, b.reason, b.witnessedBy);
      JoinSame([kind, actor, target, reason, witnessedBy], [b.kind, b.actor, b.target, b.reason, b.witnessedBy]);
    case Ping(observer, target, rtt) =>
      Join3(observer, target, rtt.rendered);
      Join3(b.observer, b.target, b.rtt.rendered);
      JoinSame([observer, target, rtt.rendered], [b.observer, b.target, b.rtt.rendered]);
    case HeyThere(from, publicKey, meshIP) =>
      HeyThereText(a);
      HeyThereText(b);
      JoinSame(["hey_there", from, publicKey, meshIP], ["hey_there", b.from, b.publicKey, b.meshIP]);
    case Chau(from, publicKey) =>
      ChauText(a);
      ChauText(b);
      JoinSame(["chau", from, publicKey], ["chau", b.from, b.publicKey]);
    case Seen(observer, subject, via) =>
      SeenText(a);
      SeenText(b);
      JoinSame(["seen", observer, subject, via], ["seen", b.observer, b.subject, b.via]);
  }

  lemma HeyThereText(p: Payload)
    requires p.HeyThere?
    ensures ContentString(p) == Join(["hey_there", p.from, p.publicKey, p.meshIP])
  {
    Join4("hey_there", p.from, p.publicKey, p.meshIP);
    assert "hey_there" + ":" + p.from == "hey_there:" + p.from;
  }

  lemma ChauText(p: Payload)
    requires p.Chau?
    ensures ContentString(p) == Join(["chau", p.from, p.publicKey])
  {
    Join3("chau", p.from, p.publicKey);
    assert "chau" + ":" + p.from == "chau:" + p.from;
  }

  lemma SeenText(p: Payload)
    requires p.Seen?
    ensures ContentString(p) == Join(["seen", p.observer, p.subject, p.via])
  {
    Join4("seen", p.observer, p.subject, p.via);
    assert "seen" + ":" + p.observer == "seen:" + p.observer;
  }

  function ObservationParts(o: ObservationPayload): seq<string> {
    if o.kind.Restart? then [o.subject, "restart", FormatInt(o.restartNum), FormatInt(o.startTime)]
    else [o.observer, o.subject, KindText(o.kind), StateText(o.onlineState), FormatInt(o.startTime), FormatInt(o.restartNum)]
  }

  lemma ObservationText(o: ObservationPayload)
    ensures ObservationContent(o) == Join(ObservationParts(o))
  {
    var p := ObservationParts(o);
    if o.kind.Restart? {
      Join4(p[0], p[1], p[2], p[3]);
      assert o.subject + ":" + "restart" + ":" + p[2] == o.subject + ":restart:" + p[2];
    } else {
      JoinAppend([p[0], p[1], p[2], p[3], p[4]], p[5]);
      Join5(p[0], p[1], p[2], p[3], p[4]);
      assert p == [p[0], p[1], p[2], p[3], p[4]] + [p[5]];
    }
  }

  predicate ObservationColonFree(o: ObservationPayload) {
    ':' !in o.observer && ':' !in o.subject && ':' !in StateText(o.onlineState)
  }

  lemma ObservationSeparable(o: ObservationPayload)
    requires ObservationColonFree(o) && ValidObservation(o)
    ensures Separable(ObservationParts(o)) && forall p :: p in ObservationParts(o) ==> ':' !in p
  {
    FormatIntHasNoColon(o.restartNum);
    FormatIntHasNoColon(o.startTime);
  }

  /** Restarts are not taken for anything else. */
  lemma RestartTextDiffers(a: ObservationPayload, b: ObservationPayload)
    requires ValidObservation(a) && ValidObservation(b) && ObservationColonFree(a) && ObservationColonFree(b)
    requires a.kind.Restart? && !b.kind.Restart?
    ensures ObservationContent(a) != ObservationContent(b)
  {
    ObservationText(a);
    ObservationText(b);
    ObservationSeparable(a);
    ObservationSeparable(b);
    JoinHasColon(ObservationParts(b)[3..]);
    assert ObservationParts(a)[3] in ObservationParts(a);
    if Join(ObservationParts(a)) == Join(ObservationParts(b)) {
      JoinSeparates(ObservationParts(a), ObservationParts(b));
    }
  }

  /** Two observations share a computed ID exactly if they have one timestamp and report the same restart of
      one nara, whoever observed it, or agree in all they show. */
  lemma ObservationsShareIdIff(a: SyncEvent, b: SyncEvent)
    requires a.payload.Observation? && b.payload.Observation? && IsValid(a) && IsValid(b)
    requires ObservationColonFree(a.payload.obs) && ObservationColonFree(b.payload.obs)
    ensures ComputeID(a) == ComputeID(b) <==>
            var x, y := a.payload.obs, b.payload.obs;
            && a.timestamp == b.timestamp && x.subject == y.subject && x.kind == y.kind
            && x.startTime == y.startTime && x.restartNum == y.restartNum
            && (x.kind != Restart ==> x.observer == y.observer && StateText(x.onlineState) == StateText(y.onlineState))
  {
    if ComputeID(a) == ComputeID(b) {
      var x, y := a.payload.obs, b.payload.obs;
      HeaderSeparates(a, b);
      if x.kind.Restart? != y.kind.Restart? {
        if x.kind.Restart? {
          RestartTextDiffers(x, y);
        } else {
          RestartTextDiffers(y, x);
        }
      } else {
        SameObservation(x, y);
      }
    }
  }

  lemma SameObservation(x: ObservationPayload, y: ObservationPayload)
    requires ValidObservation(x) && ValidObservation(y) && ObservationColonFree(x) && ObservationColonFree(y)
    requires ObservationContent(x) == ObservationContent(y) && x.kind.Restart? == y.kind.Restart?
    ensures x.subject == y.subject && x.kind == y.kind && x.startTime == y.startTime && x.restartNum == y.restartNum
    ensures x.kind != Restart ==> x.observer == y.observer && StateText(x.onlineState) == StateText(y.onlineState)
  {
    ObservationText(x);
    ObservationText(y);
    ObservationSeparable(x);
    ObservationSeparable(y);
    var p, q := ObservationParts(x), ObservationParts(y);
    JoinSame(p, q);
    assert p[0] == q[0] && p[1] == q[1] && p[2] == q[2] && p[3] == q[3];
    if x.kind.Restart? {
      FormatIntInjective(x.restartNum, y.restartNum);
      FormatIntInjective(x.startTime, y.startTime);
    } else {
      assert p[4] == q[4] && p[5] == q[5];
      FormatIntInjective(x.startTime, y.startTime);
      FormatIntInjective(x.restartNum, y.restartNum);
      assert "first-seen" != "status-change";
    }
  }

  // ---------- computed IDs stand for what is hashed ----------

  predicate SameName(a: SyncEvent, b: SyncEvent) {
    a.payload.Checkpoint? && b.payload.Checkpoint? && SubjectShown(a.payload.cp) == SubjectShown(b.payload.cp) ==>
      a.payload.cp.subject == b.payload.cp.subject
  }

  /** A checkpoint's subject has one name. */
  ghost predicate OneName(events: set<SyncEvent>) {
    forall a, b :: a in events && b in events ==> SameName(a, b)
  }

  lemma SharedIdSameCopy(a: SyncEvent, b: SyncEvent)
    requires a.id == ComputeID(a) && b.id == ComputeID(b) && a.id == b.id && ColonFree(a.payload) && ColonFree(b.payload)
    requires IsValid(a) && IsValid(b) && !a.payload.Observation?
    requires SameName(a, b)
    ensures Bare(a) == Bare(b)
  {
    HeaderSeparates(a, b);
    if a.payload.Checkpoint? {
      CheckpointTextDetermines(a.payload.cp, b.payload.cp);
      SameCheckpointValues(a.payload.cp, b.payload.cp);
    } else {
      TextDetermines(a.payload, b.payload);
    }
  }

  /** What the convergence theorems ask of IDs, for events whose IDs are computed: nothing more than names
      without colons, and that a checkpoint's subject has one name. */
  lemma ComputedIdsAreHashes(events: set<SyncEvent>)
    requires forall e :: e in events ==> e.id == ComputeID(e) && ColonFree(e.payload)
    requires OneName(events)
    ensures IdsAreHashes(events)
  {
    forall x, y | x in BareSet(events) && y in BareSet(events) && Acceptable(x) && Acceptable(y)
                  && !x.payload.Observation? && x.id == y.id
      ensures x == y
    {
      var a :| a in events && Bare(a) == x;
      var b :| b in events && Bare(b) == y;
      assert IsValid(a) && IsValid(b);
      SharedIdSameCopy(a, b);
    }
  }
}
