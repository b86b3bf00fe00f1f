/** The unified event of the sync ledger and its service payloads.

    In the source an event carries a service string and seven nullable payload pointers;
    here the payload's constructor is the service. Event IDs are SHA-256 prefixes in the
    source; here the hash is ideal, so an ID is the hashed text itself.
 */
module Events {
  import opened Decimal

  type NaraName = string
  type NaraID = string

  datatype OnlineState = ONLINE | OFFLINE | MISSING | OtherState(text: string)

  const NoState := OtherState("")

  datatype ObservationKind = Restart | FirstSeen | StatusChange | OtherKind(text: string)

  const CASUAL := 1
  const CRITICAL := 3

  /** Ideal signatures: nobody but the holder of `key` makes `Signed(key, content)`. */
  datatype Signature = Signed(key: string, content: string) | Unsigned(text: string)

  predicate Verifies(key: string, content: string, signature: Signature) {
    signature == Signed(key, content)
  }

  /** The state a checkpoint or attestation speaks about. */
  datatype NaraObservation = NaraObservation(restarts: int, totalUptime: int, startTime: int)

  datatype ObservationPayload = ObservationPayload(
    observer: NaraName,
    subject: NaraName,
    kind: ObservationKind,
    importance: int,
    isBackfill: bool,
    startTime: int,
    restartNum: int,
    lastRestart: int,
    onlineState: OnlineState)

  datatype CheckpointPayload = CheckpointPayload(
    version: int,
    subject: NaraName,
    subjectID: NaraID,
    previousCheckpointID: string,
    observation: NaraObservation,
    asOfTime: int,
    round: int,
    voterIDs: seq<NaraID>,
    signatures: seq<Signature>)

  /** A round-trip time is a float in the source. The ledger reads only whether it is
      positive and its one-decimal rendering. */
  datatype RoundTrip = RoundTrip(positive: bool, rendered: string)

  datatype Payload =
    | Social(kind: string, actor: NaraName, target: NaraName, reason: string, witnessedBy: NaraName)
    | Ping(observer: NaraName, target: NaraName, rtt: RoundTrip)
    | Observation(obs: ObservationPayload)
    | HeyThere(from: NaraName, publicKey: string, meshIP: string)
    | Chau(from: NaraName, publicKey: string)
    | Seen(observer: NaraName, subject: NaraName, via: string)
    | Checkpoint(cp: CheckpointPayload)
    | NoPayload(service: string)

  /** Timestamps are in nanoseconds. */
  datatype SyncEvent = SyncEvent(id: string, timestamp: int, emitter: NaraName, payload: Payload)

  function Service(p: Payload): string {
    match p
    case Social(_, _, _, _, _) => "social"
    case Ping(_, _, _) => "ping"
    case Observation(_) => "observation"
    case HeyThere(_, _, _) => "hey-there"
    case Chau(_, _) => "chau"
    case Seen(_, _, _) => "seen"
    case Checkpoint(_) => "checkpoint"
    case NoPayload(service) => service
  }

  function StateText(s: OnlineState): string {
    match s
    case ONLINE => "ONLINE"
    case OFFLINE => "OFFLINE"
    case MISSING => "MISSING"
    case OtherState(text) => text
  }

  function KindText(k: ObservationKind): string {
    match k
    case Restart => "restart"
    case FirstSeen => "first-seen"
    case StatusChange => "status-change"
    case OtherKind(text) => text
  }

  function ObservationContent(o: ObservationPayload): string {
    if o.kind.Restart? then
      o.subject + ":restart:" + FormatInt(o.restartNum) + ":" + FormatInt(o.startTime)
    else
      o.observer + ":" + o.subject + ":" + KindText(o.kind) + ":" + StateText(o.onlineState)
      + ":" + FormatInt(o.startTime) + ":" + FormatInt(o.restartNum)
  }

  function CheckpointContent(c: CheckpointPayload): string {
    var id := if c.subjectID == "" then c.subject else c.subjectID;
    var values := id + ":" + FormatInt(c.asOfTime) + ":" + FormatInt(c.observation.startTime)
                  + ":" + FormatInt(c.observation.restarts) + ":" + FormatInt(c.observation.totalUptime);
    if c.version == 0 || c.version == 1 then "checkpoint:" + values
    else "checkpoint:v2:" + values + ":" + c.previousCheckpointID
  }

  function ContentString(p: Payload): string {
    match p
    case Social(kind, actor, target, reason, witnessedBy) =>
      kind + ":" + actor + ":" + target + ":" + reason + ":" + witnessedBy
    case Ping(observer, target, rtt) => observer + ":" + target + ":" + rtt.rendered
    case Observation(obs) => ObservationContent(obs)
    case HeyThere(from, publicKey, meshIP) => "hey_there:" + from + ":" + publicKey + ":" + meshIP
    case Chau(from, publicKey) => "chau:" + from + ":" + publicKey
    case Seen(observer, subject, via) => "seen:" + observer + ":" + subject + ":" + via
    case Checkpoint(cp) => CheckpointContent(cp)
    case NoPayload(_) => ""
  }

  function ComputeID(e: SyncEvent): (id: string)
    ensures id != ""
  {
    FormatInt(e.timestamp) + ":" + Service(e.payload) + ":" + ContentString(e.payload)
  }

  /** Entry points compute the ID of an event that arrives without one. */
  function WithID(e: SyncEvent): (r: SyncEvent)
    ensures r.id != "" && r.timestamp == e.timestamp && r.payload == e.payload && r.emitter == e.emitter
    ensures e.id != "" ==> r == e
  {
    if e.id == "" then e.(id := ComputeID(e)) else e
  }

  predicate ValidObservation(o: ObservationPayload) {
    && o.observer != "" && o.subject != ""
    && CASUAL <= o.importance <= CRITICAL
    && match o.kind
       case Restart => o.startTime > 0 && o.restartNum >= 0
       case FirstSeen => o.startTime > 0
       case StatusChange => !o.onlineState.OtherState?
       case OtherKind(_) => false
  }

  predicate ValidCheckpoint(c: CheckpointPayload) {
    && c.subject != ""
    && c.asOfTime > 0
    && c.observation.restarts >= 0
    && c.observation.totalUptime >= 0
    && |c.voterIDs| == |c.signatures|
  }

  predicate ValidPayload(p: Payload) {
    match p
    case Social(kind, actor, target, _, _) =>
      kind in {"tease", "observed", "gossip", "observation", "service"} && actor != "" && target != ""
    case Ping(observer, target, rtt) => observer != "" && target != "" && rtt.positive
    case Observation(obs) => ValidObservation(obs)
    case HeyThere(from, publicKey, _) => from != "" && publicKey != ""
    case Chau(from, _) => from != ""
    case Seen(observer, subject, via) => observer != "" && subject != "" && via != ""
    case Checkpoint(cp) => ValidCheckpoint(cp)
    case NoPayload(_) => false
  }

  predicate IsValid(e: SyncEvent) {
    e.timestamp != 0 && ValidPayload(e.payload)
  }

  function GetActor(e: SyncEvent): NaraName {
    match e.payload
    case Social(_, actor, _, _, _) => actor
    case Ping(observer, _, _) => observer
    case Observation(obs) => obs.observer
    case HeyThere(from, _, _) => from
    case Chau(from, _) => from
    case Seen(observer, _, _) => observer
    case Checkpoint(_) => ""
    case NoPayload(_) => ""
  }

  function GetTarget(e: SyncEvent): NaraName {
    match e.payload
    case Social(_, _, target, _, _) => target
    case Ping(_, target, _) => target
    case Observation(obs) => obs.subject
    case HeyThere(from, _, _) => from
    case Chau(from, _) => from
    case Seen(_, subject, _) => subject
    case Checkpoint(cp) => cp.subject
    case NoPayload(_) => ""
  }

  /** Does the event involve `name` as emitter, author or target? */
  predicate Involves(e: SyncEvent, name: NaraName) {
    || e.emitter == name
    || match e.payload
       case Social(_, actor, target, _, witnessedBy) => actor == name || target == name || witnessedBy == name
       case Ping(observer, target, _) => observer == name || target == name
       case Observation(obs) => obs.observer == name || obs.subject == name
       case HeyThere(from, _, _) => from == name
       case Chau(from, _) => from == name
       case Seen(observer, subject, _) => observer == name || subject == name
       case Checkpoint(cp) => cp.subject == name
       case NoPayload(_) => false
  }

  const CHECKPOINT_CUTOFF := 1768774453

  /** Old checkpoints about "r2d2", made before a bug fix, are refused at every door. */
  predicate FilteredCheckpoint(e: SyncEvent) {
    e.payload.Checkpoint? && e.payload.cp.asOfTime <= CHECKPOINT_CUTOFF && e.payload.cp.subject == "r2d2"
  }

  /** The callback that tells whether a nara has no known public key. */
  datatype KeyRing = NoChecker | Checker(known: set<NaraName>)

  predicate UnknownNara(keys: KeyRing, name: NaraName) {
    keys.Checker? && name != "" && name !in keys.known
  }

  predicate FromUnknownNara(keys: KeyRing, e: SyncEvent) {
    match e.payload
    case Social(_, actor, target, _, witnessedBy) =>
      UnknownNara(keys, actor) || UnknownNara(keys, target) || UnknownNara(keys, witnessedBy)
    case Ping(observer, target, _) => UnknownNara(keys, observer) || UnknownNara(keys, target)
    case Observation(obs) => UnknownNara(keys, obs.observer) || UnknownNara(keys, obs.subject)
    case HeyThere(from, _, _) => UnknownNara(keys, from)
    case Chau(from, _) => UnknownNara(keys, from)
    case Seen(observer, subject, _) => UnknownNara(keys, observer) || UnknownNara(keys, subject)
    case Checkpoint(_) => false
    case NoPayload(_) => false
  }

  const CRITICAL_PRIORITY := 0

  function PruningPriority(e: SyncEvent): int {
    match e.payload
    case Checkpoint(_) => 0
    case Observation(obs) =>
      (match obs.kind
       case Restart => 0
       case FirstSeen => 0
       case StatusChange => 1
       case OtherKind(_) => 2)
    case HeyThere(_, _, _) => 1
    case Chau(_, _) => 1
    case Social(_, _, _, _, _) => 2
    case Seen(_, _, _) => 3
    case Ping(_, _, _) => 4
    case NoPayload(_) => 2
  }

  predicate Critical(e: SyncEvent) {
    PruningPriority(e) == CRITICAL_PRIORITY
  }

  predicate IsRestartOf(e: SyncEvent, subject: NaraName) {
    e.payload.Observation? && e.payload.obs.kind.Restart? && e.payload.obs.subject == subject
  }

  predicate IsCheckpointOf(e: SyncEvent, subject: NaraName) {
    e.payload.Checkpoint? && e.payload.cp.subject == subject
  }
}
