/** The two-round checkpoint protocol of one proposer, step by step.

    Vote handlers, vote-window timers and finalizers run concurrently. A step below is what one
    of them does between two lock operations; a run is any interleaving of steps. A pending
    proposal, a heap object in the source, is an entry of `pendings`; a pointer to it is its
    index. What a thread remembers between two steps is in its `Thread` value. */
module CheckpointProtocol {
  import opened Wrappers
  import opened Events
  import opened Sorting
  import opened Attestations
  import opened CheckpointConsensus
  import T = TrimmedMean

  /** The nara that proposes. */
  datatype Config = Config(name: NaraName, id: NaraID, key: string)

  /** Why a proposal is made: on its own, or because the round of pending `p` failed. */
  datatype Origin = First | Second(p: nat, means: NaraObservation)

  /** `origin` is history: the source does not keep it. */
  datatype Pending = Pending(proposal: Proposal, votes: seq<Vote>, round: int, finalized: bool, origin: Origin)

  datatype Thread =
    | Idle
    | Delivered(vote: Vote)
    | Matched(vote: Vote, p: nat)
    | Admitted(vote: Vote, p: nat)
    | Finalizer
    | Claiming(p: nat)
    | Claimed(p: nat)
    | Deciding(p: nat, votes: seq<Vote>)
    | Proposing(origin: Origin)
    | Stamping

  datatype Verdict = Agreed(cp: CheckpointPayload) | Retry | GaveUp

  /** History: how the finalization of pending `p` ended, on which copy of its votes, and which keys were
      known then. */
  datatype Outcome = Outcome(p: nat, votes: seq<Vote>, uptime: map<NaraName, int>, known: map<NaraID, string>, verdict: Verdict)

  datatype Shared = Shared(
    pendings: seq<Pending>,
    current: Option<nat>,
    lastCheckpointTime: int,
    ledger: seq<CheckpointPayload>,
    outcomes: seq<Outcome>)

  datatype System = System(shared: Shared, threads: seq<Thread>)

  /** Everything a step takes from outside: the clock, the known keys, the ledger's current
      derivations, the connection, and the result of the search for consensus. */
  datatype Choice = Choice(
    now: int,
    known: map<NaraID, string>,
    uptime: map<NaraName, int>,
    found: Option<CheckpointPayload>,
    means: NaraObservation,
    derived: NaraObservation,
    lastSeen: string,
    connected: bool,
    published: bool)

  datatype Action = Deliver(vote: Vote) | Propose | Step(i: nat, choice: Choice)

  // ---------- what the steps do ----------

  predicate Accepted(cfg: Config, v: Vote, known: map<NaraID, string>) {
    && v.att.subject == cfg.name
    && v.att.attesterID in known && Verifies(known[v.att.attesterID], SignableContent(v.att), v.att.signature)
    && EffectiveVersion(v.att.version) >= 2
  }

  /** The vote names the proposal's timestamp and round. */
  predicate Fits(pending: Pending, v: Vote) {
    v.proposalTS == pending.proposal.att.asOfTime && v.round == pending.round
  }

  function RoundOf(origin: Origin): int {
    if origin.First? then 1 else 2
  }

  function NewProposal(cfg: Config, origin: Origin, c: Choice): Proposal {
    var values := if origin.Second? then origin.means else c.derived;
    var claim := Attestation(2, cfg.name, cfg.id, values, cfg.name, cfg.id, c.lastSeen, c.now, Unsigned(""));
    Proposal(SignAs(claim, Voter(cfg.name, cfg.id, cfg.key)), RoundOf(origin))
  }

  function NewPending(cfg: Config, origin: Origin, c: Choice): Pending {
    Pending(NewProposal(cfg, origin, c), [], RoundOf(origin), false, origin)
  }

  function VerdictOn(pending: Pending, found: Option<CheckpointPayload>): Verdict {
    if found.Some? then Agreed(found.value) else if pending.round == 1 then Retry else GaveUp
  }

  predicate Accepts(cp: CheckpointPayload, known: map<NaraID, string>) {
    |cp.signatures| == |cp.voterIDs| && ValidSigners(cp, known, |cp.voterIDs|) >= MIN_CHECKPOINT_SIGNATURES
  }

  lemma AcceptsIsTwo(cp: CheckpointPayload, known: map<NaraID, string>)
    ensures Accepts(cp, known) <==> TwoVerify(cp, known)
  {
    if |cp.signatures| == |cp.voterIDs| {
      SomeValid(cp, known, |cp.voterIDs|);
    }
  }

  /** Does nara `name` store a final checkpoint that it receives? */
  predicate TakesFinal(name: NaraName, cp: CheckpointPayload, known: map<NaraID, string>) {
    cp.subject != name && |cp.signatures| >= MIN_VOTERS && Accepts(cp, known)
  }

  /** Pointers that are followed point somewhere. */
  predicate Points(s: Shared, t: Thread) {
    && (s.current.Some? ==> s.current.value < |s.pendings|)
    && match t
       case Matched(_, p) => p < |s.pendings|
       case Admitted(_, p) => p < |s.pendings|
       case Claiming(p) => p < |s.pendings|
       case Claimed(p) => p < |s.pendings|
       case Deciding(p, _) => p < |s.pendings|
       case _ => true
  }

  function Append(s: Shared, p: nat, v: Vote): Shared
    requires p < |s.pendings|
  {
    s.(pendings := s.pendings[p := s.pendings[p].(votes := s.pendings[p].votes + [v])])
  }

  function Finalize(s: Shared, p: nat): Shared
    requires p < |s.pendings|
  {
    s.(pendings := s.pendings[p := s.pendings[p].(finalized := true)])
  }

  function Conclude(s: Shared, o: Outcome, known: map<NaraID, string>): Shared {
    s.(outcomes := s.outcomes + [o],
       ledger := if o.verdict.Agreed? && Accepts(o.verdict.cp, known) then s.ledger + [o.verdict.cp] else s.ledger)
  }

  function AfterVerdict(o: Outcome, means: NaraObservation): Thread {
    if !o.verdict.Retry? then Stamping else if o.votes == [] then Idle else Proposing(Second(o.p, means))
  }

  function Receive(cfg: Config, s: Shared, v: Vote, known: map<NaraID, string>): Thread
    requires Points(s, Delivered(v))
  {
    if Accepted(cfg, v, known) && s.current.Some? && Fits(s.pendings[s.current.value], v)
    then Matched(v, s.current.value) else Idle
  }

  /** One step of a thread: the new shared state and where the thread stands then. */
  function Advance(cfg: Config, s: Shared, t: Thread, c: Choice): (Shared, Thread)
    requires Points(s, t)
  {
    match t
    case Idle => (s, Idle)
    case Delivered(v) => (s, Receive(cfg, s, v, c.known))
    case Matched(v, p) => (s, if s.pendings[p].finalized then Idle else Admitted(v, p))
    case Admitted(v, p) => (Append(s, p, v), if |s.pendings[p].votes| + 1 >= MIN_VOTERS then Finalizer else Idle)
    case Finalizer => (s, if s.current.None? then Idle else Claiming(s.current.value))
    case Claiming(p) => if s.pendings[p].finalized then (s, Idle) else (Finalize(s, p), Claimed(p))
    case Claimed(p) => (s, Deciding(p, s.pendings[p].votes))
    case Deciding(p, votes) =>
      var o := Outcome(p, votes, c.uptime, c.known, VerdictOn(s.pendings[p], c.found));
      (Conclude(s, o, c.known), AfterVerdict(o, c.means))
    case Proposing(origin) =>
      if !c.connected then (s, Idle)
      else (s.(pendings := s.pendings + [NewPending(cfg, origin, c)], current := Some(|s.pendings|)),
            if c.published then Finalizer else Idle)
    case Stamping => (s.(lastCheckpointTime := c.now), Idle)
  }

  ghost predicate MeanOf(values: seq<int>, mean: int) {
    exists sorted :: SortedArrangement(values, sorted, T.Identity()) && mean == T.OfSorted(sorted)
  }

  function Restarts(votes: seq<Vote>): seq<int> {
    seq(|votes|, i requires 0 <= i < |votes| => votes[i].att.observation.restarts)
  }

  function Uptimes(votes: seq<Vote>): seq<int> {
    seq(|votes|, i requires 0 <= i < |votes| => votes[i].att.observation.totalUptime)
  }

  function StartTimes(votes: seq<Vote>): seq<int> {
    seq(|votes|, i requires 0 <= i < |votes| => votes[i].att.observation.startTime)
  }

  /** The values of round 2: the trimmed mean of what the votes of round 1 say. */
  ghost predicate MeansOf(votes: seq<Vote>, o: NaraObservation) {
    MeanOf(Restarts(votes), o.restarts) && MeanOf(Uptimes(votes), o.totalUptime) && MeanOf(StartTimes(votes), o.startTime)
  }

  ghost predicate Legal(sys: System, a: Action) {
    match a
    case Step(i, c) =>
      && i < |sys.threads| && Points(sys.shared, sys.threads[i])
      && (sys.threads[i].Deciding? ==> DecidedBy(sys.shared, sys.threads[i].p, sys.threads[i].votes, c))
    case _ => true
  }

  ghost predicate DecidedBy(s: Shared, p: nat, votes: seq<Vote>, c: Choice)
    requires p < |s.pendings|
  {
    Finds(s.pendings[p].proposal, votes, c.uptime, c.found) && MeansOf(votes, c.means)
  }

  ghost function Apply(cfg: Config, sys: System, a: Action): System
    requires Legal(sys, a)
  {
    match a
    case Deliver(v) => sys.(threads := sys.threads + [Delivered(v)])
    case Propose => sys.(threads := sys.threads + [Proposing(First)])
    case Step(i, c) =>
      var r := Advance(cfg, sys.shared, sys.threads[i], c);
      System(r.0, sys.threads[i := r.1])
  }

  ghost function Start(lastCheckpointTime: int): System {
    System(Shared([], None, lastCheckpointTime, [], []), [])
  }

  /** The actions, in this order, lead from `sys` to `end`. */
  ghost predicate Run(cfg: Config, sys: System, actions: seq<Action>, end: System)
    decreases |actions|
  {
    if actions == [] then end == sys
    else Legal(sys, actions[0]) && Run(cfg, Apply(cfg, sys, actions[0]), actions[1..], end)
  }

  // ---------- counting ----------

  function Count<X>(s: seq<X>, f: X -> bool): nat {
    if s == [] then 0 else Count(s[..|s| - 1], f) + if f(s[|s| - 1]) then 1 else 0
  }

  lemma CountAppend<X>(s: seq<X>, x: X, f: X -> bool)
    ensures Count(s + [x], f) == Count(s, f) + if f(x) then 1 else 0
  {
    assert (s + [x])[..|s|] == s;
  }

  lemma {:induction false} CountUpdate<X>(s: seq<X>, i: nat, x: X, f: X -> bool)
    requires i < |s|
    ensures Count(s[i := x], f) + (if f(s[i]) then 1 else 0) == Count(s, f) + if f(x) then 1 else 0
  {
    var n := |s| - 1;
    if i == n {
      assert s[i := x][..n] == s[..n];
    } else {
      assert s[i := x][..n] == s[..n][i := x];
      CountUpdate(s[..n], i, x, f);
    }
  }

  lemma {:induction false} CountOne<X>(s: seq<X>, i: nat, f: X -> bool)
    requires i < |s| && f(s[i])
    ensures Count(s, f) >= 1
  {
    if i < |s| - 1 {
      CountOne(s[..|s| - 1], i, f);
    }
  }

  lemma {:induction false} CountTwo<X>(s: seq<X>, i: nat, j: nat, f: X -> bool)
    requires i < j < |s| && f(s[i]) && f(s[j])
    ensures Count(s, f) >= 2
  {
    if j < |s| - 1 {
      CountTwo(s[..|s| - 1], i, j, f);
    } else {
      CountOne(s[..j], i, f);
    }
  }

  lemma {:induction false} CountNone<X>(s: seq<X>, f: X -> bool)
    requires forall x :: x in s ==> !f(x)
    ensures Count(s, f) == 0
  {
    if s != [] {
      CountNone(s[..|s| - 1], f);
    }
  }

  lemma {:induction false} CountFewer<X>(s: seq<X>, f: X -> bool, g: X -> bool)
    requires forall x :: x in s && f(x) ==> g(x)
    ensures Count(s, f) <= Count(s, g)
  {
    if s != [] {
      CountFewer(s[..|s| - 1], f, g);
    }
  }
}
