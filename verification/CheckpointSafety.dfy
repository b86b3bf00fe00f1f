/** What every run of the checkpoint protocol keeps, however the steps interleave. */
module CheckpointSafety {
  import opened Wrappers
  import opened Events
  import opened Sorting
  import opened Attestations
  import opened CheckpointConsensus
  import opened CheckpointProtocol

  // ---------- pointers, and what only grows ----------

  ghost predicate AllPoint(sys: System) {
    && Points(sys.shared, Idle)
    && (forall t :: t in sys.threads ==> Points(sys.shared, t))
    && (forall o :: o in sys.shared.outcomes ==> o.p < |sys.shared.pendings|)
  }

  ghost predicate PendingGrows(a: Pending, b: Pending) {
    && a.proposal == b.proposal && a.round == b.round && a.origin == b.origin
    && a.votes <= b.votes && (a.finalized ==> b.finalized)
  }

  ghost predicate Grows(s: Shared, s': Shared) {
    && |s.pendings| <= |s'.pendings|
    && (forall p :: 0 <= p < |s.pendings| ==> PendingGrows(s.pendings[p], s'.pendings[p]))
    && s.outcomes <= s'.outcomes
  }

  lemma StepGrows(cfg: Config, s: Shared, t: Thread, c: Choice)
    requires Points(s, t)
    ensures Grows(s, Advance(cfg, s, t, c).0) && Points(Advance(cfg, s, t, c).0, Advance(cfg, s, t, c).1)
  {
  }

  lemma StepPoints(cfg: Config, sys: System, a: Action)
    requires Legal(sys, a) && AllPoint(sys)
    ensures AllPoint(Apply(cfg, sys, a))
  {
    var after := Apply(cfg, sys, a);
    if a.Step? {
      StepGrows(cfg, sys.shared, sys.threads[a.i], a.choice);
    }
    forall t | t in after.threads ensures Points(after.shared, t) {
      assert t in sys.threads ==> Points(sys.shared, t);
    }
  }

  // ---------- each pending proposal is finalized at most once ----------

  function HoldsClaim(p: nat): Thread -> bool {
    (t: Thread) => (t.Claimed? && t.p == p) || (t.Deciding? && t.p == p)
  }

  function EndsOf(p: nat): Outcome -> bool {
    (o: Outcome) => o.p == p
  }

  /** The threads that won the right to finalize `p` and have not used it yet, and the
      finalizations of `p` that have ended. */
  function Tokens(sys: System, p: nat): nat {
    Count(sys.threads, HoldsClaim(p)) + Count(sys.shared.outcomes, EndsOf(p))
  }

  ghost predicate OneToken(sys: System, p: nat)
    requires p < |sys.shared.pendings|
  {
    Tokens(sys, p) == if sys.shared.pendings[p].finalized then 1 else 0
  }

  ghost predicate OneTokenEach(sys: System) {
    forall p :: 0 <= p < |sys.shared.pendings| ==> OneToken(sys, p)
  }

  lemma NewHasNoToken(sys: System)
    requires AllPoint(sys)
    ensures Tokens(sys, |sys.shared.pendings|) == 0
  {
    CountNone(sys.threads, HoldsClaim(|sys.shared.pendings|));
    CountNone(sys.shared.outcomes, EndsOf(|sys.shared.pendings|));
  }

  lemma StepToken(cfg: Config, sys: System, i: nat, c: Choice, p: nat)
    requires Legal(sys, Step(i, c)) && AllPoint(sys) && OneTokenEach(sys)
    requires p < |Apply(cfg, sys, Step(i, c)).shared.pendings|
    ensures OneToken(Apply(cfg, sys, Step(i, c)), p)
  {
    var s, t := sys.shared, sys.threads[i];
    var r := Advance(cfg, s, t, c);
    CountUpdate(sys.threads, i, r.1, HoldsClaim(p));
    if p == |s.pendings| {
      NewHasNoToken(sys);
    } else {
      assert OneToken(sys, p);
      if t.Deciding? {
        CountAppend(s.outcomes, Outcome(t.p, t.votes, c.uptime, c.known, VerdictOn(s.pendings[t.p], c.found)), EndsOf(p));
      }
      if t.Claimed? || t.Deciding? {
        assert t in sys.threads;
      }
    }
  }

  lemma StepTokens(cfg: Config, sys: System, a: Action)
    requires Legal(sys, a) && AllPoint(sys) && OneTokenEach(sys)
    ensures OneTokenEach(Apply(cfg, sys, a))
  {
    var after := Apply(cfg, sys, a);
    forall p | 0 <= p < |after.shared.pendings| ensures OneToken(after, p) {
      if a.Step? {
        StepToken(cfg, sys, a.i, a.choice, p);
      } else {
        assert OneToken(sys, p);
        CountAppend(sys.threads, after.threads[|sys.threads|], HoldsClaim(p));
      }
    }
  }

  // ---------- votes ----------

  /** Every vote held for a proposal names its timestamp and round; so does every vote on its way
      there. */
  ghost predicate AllFit(pending: Pending) {
    forall v :: v in pending.votes ==> Fits(pending, v)
  }

  ghost predicate OnItsWay(s: Shared, t: Thread) {
    match t
    case Matched(v, p) => p < |s.pendings| && Fits(s.pendings[p], v)
    case Admitted(v, p) => p < |s.pendings| && Fits(s.pendings[p], v)
    case _ => true
  }

  ghost predicate VotesFit(sys: System) {
    && (forall x :: x in sys.shared.pendings ==> AllFit(x))
    && (forall t :: t in sys.threads ==> OnItsWay(sys.shared, t))
  }

  lemma StepPendingsFit(cfg: Config, s: Shared, t: Thread, c: Choice, p: nat)
    requires Points(s, t) && OnItsWay(s, t) && forall x :: x in s.pendings ==> AllFit(x)
    requires p < |Advance(cfg, s, t, c).0.pendings|
    ensures AllFit(Advance(cfg, s, t, c).0.pendings[p])
  {
    if p < |s.pendings| {
      assert s.pendings[p] in s.pendings;
    }
  }

  lemma StaysOnItsWay(s: Shared, s': Shared, t: Thread)
    requires Grows(s, s') && OnItsWay(s, t)
    ensures OnItsWay(s', t)
  {
  }

  lemma StepVotesFit(cfg: Config, sys: System, a: Action)
    requires Legal(sys, a) && VotesFit(sys)
    ensures VotesFit(Apply(cfg, sys, a))
  {
    if a.Step? {
      var s, t, after := sys.shared, sys.threads[a.i], Apply(cfg, sys, a);
      StepGrows(cfg, s, t, a.choice);
      forall x | x in after.shared.pendings ensures AllFit(x) {
        var p :| 0 <= p < |after.shared.pendings| && after.shared.pendings[p] == x;
        StepPendingsFit(cfg, s, t, a.choice, p);
      }
      forall u | u in after.threads ensures OnItsWay(after.shared, u) {
        if u in sys.threads {
          StaysOnItsWay(s, after.shared, u);
        } else {
          NextOnItsWay(cfg, s, t, a.choice);
        }
      }
    }
  }

  lemma NextOnItsWay(cfg: Config, s: Shared, t: Thread, c: Choice)
    requires Points(s, t) && OnItsWay(s, t)
    ensures OnItsWay(Advance(cfg, s, t, c).0, Advance(cfg, s, t, c).1)
  {
  }

  // ---------- how finalizations end ----------

  /** Do the votes settle on a checkpoint? */
  ghost predicate Agreeable(votes: seq<Vote>) {
    |votes| >= MIN_VOTERS && (AnyGroup(votes) || |Approvals(votes)| >= MIN_VOTERS)
  }

  /** Exactly one of the three branches, and the right one. */
  ghost predicate EndsWell(s: Shared, o: Outcome) {
    && o.p < |s.pendings| && o.votes <= s.pendings[o.p].votes
    && match o.verdict
       case Agreed(cp) => Agreeable(o.votes) && Finds(s.pendings[o.p].proposal, o.votes, o.uptime, Some(cp))
       case Retry => !Agreeable(o.votes) && s.pendings[o.p].round == 1
       case GaveUp => !Agreeable(o.votes) && s.pendings[o.p].round != 1
  }

  /** The copy a finalizer works on is a prefix of the votes: nothing is removed or reordered. */
  ghost predicate CopiesVotes(s: Shared, t: Thread) {
    t.Deciding? ==> t.p < |s.pendings| && t.votes <= s.pendings[t.p].votes
  }

  ghost predicate AllEndWell(sys: System) {
    && (forall o :: o in sys.shared.outcomes ==> EndsWell(sys.shared, o))
    && (forall t :: t in sys.threads ==> CopiesVotes(sys.shared, t))
  }

  lemma StillEndsWell(s: Shared, s': Shared, o: Outcome)
    requires Grows(s, s') && EndsWell(s, o)
    ensures EndsWell(s', o)
  {
  }

  lemma StillCopies(s: Shared, s': Shared, t: Thread)
    requires Grows(s, s') && CopiesVotes(s, t)
    ensures CopiesVotes(s', t)
  {
  }

  lemma NewEndsWell(s: Shared, p: nat, votes: seq<Vote>, c: Choice)
    requires p < |s.pendings| && votes <= s.pendings[p].votes && DecidedBy(s, p, votes, c)
    ensures EndsWell(s, Outcome(p, votes, c.uptime, c.known, VerdictOn(s.pendings[p], c.found)))
  {
  }

  lemma StepEndsWell(cfg: Config, sys: System, i: nat, c: Choice, o: Outcome)
    requires Legal(sys, Step(i, c)) && AllEndWell(sys) && o in Apply(cfg, sys, Step(i, c)).shared.outcomes
    ensures EndsWell(Apply(cfg, sys, Step(i, c)).shared, o)
  {
    var s, t := sys.shared, sys.threads[i];
    StepGrows(cfg, s, t, c);
    if o !in s.outcomes {
      assert t.Deciding? && t in sys.threads;
      NewEndsWell(s, t.p, t.votes, c);
    }
    StillEndsWell(s, Advance(cfg, s, t, c).0, o);
  }

  lemma StepsEndWell(cfg: Config, sys: System, a: Action)
    requires Legal(sys, a) && AllEndWell(sys)
    ensures AllEndWell(Apply(cfg, sys, a))
  {
    if a.Step? {
      var s, t, after := sys.shared, sys.threads[a.i], Apply(cfg, sys, a);
      StepGrows(cfg, s, t, a.choice);
      forall o | o in after.shared.outcomes ensures EndsWell(after.shared, o) {
        StepEndsWell(cfg, sys, a.i, a.choice, o);
      }
      forall u | u in after.threads ensures CopiesVotes(after.shared, u) {
        if u in sys.threads {
          StillCopies(s, after.shared, u);
        }
      }
    }
  }

  // ---------- where round 2 comes from ----------

  /** Round 1 of pending `p` failed on some votes whose means are `means`. */
  ghost predicate Licensed(s: Shared, p: nat, means: NaraObservation) {
    exists o :: o in s.outcomes && FailedOn(o, p) && MeansOf(o.votes, means)
  }

  predicate FailedOn(o: Outcome, p: nat) {
    o.p == p && o.verdict.Retry? && o.votes != []
  }

  ghost predicate OriginLicensed(s: Shared, origin: Origin) {
    origin.Second? ==> origin.p < |s.pendings| && Licensed(s, origin.p, origin.means)
  }

  predicate SelfSigned(cfg: Config, x: Pending) {
    && x.round == RoundOf(x.origin) == x.proposal.round
    && x.proposal.att.version == 2 && x.proposal.att.subject == cfg.name
    && x.proposal.att.subjectID == cfg.id == x.proposal.att.attesterID
    && x.proposal.att.signature == Signed(cfg.key, SignableContent(x.proposal.att))
    && (x.origin.Second? ==> x.proposal.att.observation == x.origin.means)
  }

  ghost predicate WellBorn(cfg: Config, sys: System) {
    && (forall x :: x in sys.shared.pendings ==> SelfSigned(cfg, x) && OriginLicensed(sys.shared, x.origin))
    && (forall t :: t in sys.threads && t.Proposing? ==> OriginLicensed(sys.shared, t.origin))
  }

  lemma StillLicensed(s: Shared, s': Shared, origin: Origin)
    requires Grows(s, s') && OriginLicensed(s, origin)
    ensures OriginLicensed(s', origin)
  {
  }

  lemma NewIsSelfSigned(cfg: Config, origin: Origin, c: Choice)
    ensures SelfSigned(cfg, NewPending(cfg, origin, c))
  {
  }

  lemma StepPendingWellBorn(cfg: Config, sys: System, i: nat, c: Choice, p: nat)
    requires Legal(sys, Step(i, c)) && WellBorn(cfg, sys)
    requires p < |Advance(cfg, sys.shared, sys.threads[i], c).0.pendings|
    ensures var s' := Advance(cfg, sys.shared, sys.threads[i], c).0;
            SelfSigned(cfg, s'.pendings[p]) && OriginLicensed(s', s'.pendings[p].origin)
  {
    var s, t := sys.shared, sys.threads[i];
    var s' := Advance(cfg, s, t, c).0;
    StepGrows(cfg, s, t, c);
    if p < |s.pendings| {
      assert s.pendings[p] in s.pendings && PendingGrows(s.pendings[p], s'.pendings[p]);
      StillLicensed(s, s', s.pendings[p].origin);
    } else {
      assert t in sys.threads;
      NewIsSelfSigned(cfg, t.origin, c);
      StillLicensed(s, s', t.origin);
    }
  }

  lemma NewThreadLicensed(cfg: Config, s: Shared, t: Thread, c: Choice)
    requires Points(s, t) && Advance(cfg, s, t, c).1.Proposing?
    requires t.Deciding? ==> DecidedBy(s, t.p, t.votes, c)
    ensures OriginLicensed(Advance(cfg, s, t, c).0, Advance(cfg, s, t, c).1.origin)
  {
  }

  lemma StepWellBorn(cfg: Config, sys: System, a: Action)
    requires Legal(sys, a) && WellBorn(cfg, sys)
    ensures WellBorn(cfg, Apply(cfg, sys, a))
  {
    if a.Step? {
      var s, t, after := sys.shared, sys.threads[a.i], Apply(cfg, sys, a);
      StepGrows(cfg, s, t, a.choice);
      forall x | x in after.shared.pendings ensures SelfSigned(cfg, x) && OriginLicensed(after.shared, x.origin) {
        var p :| 0 <= p < |after.shared.pendings| && after.shared.pendings[p] == x;
        StepPendingWellBorn(cfg, sys, a.i, a.choice, p);
      }
      forall u | u in after.threads && u.Proposing? ensures OriginLicensed(after.shared, u.origin) {
        if u in sys.threads {
          StillLicensed(s, after.shared, u.origin);
        } else {
          NewThreadLicensed(cfg, s, t, a.choice);
        }
      }
    }
  }

  // ---------- at most one round 2 for each round 1 ----------

  function CarriesFrom(p: nat): Thread -> bool {
    (t: Thread) => t.Proposing? && t.origin.Second? && t.origin.p == p
  }

  function BornFrom(p: nat): Pending -> bool {
    (x: Pending) => x.origin.Second? && x.origin.p == p
  }

  function FailureOf(p: nat): Outcome -> bool {
    (o: Outcome) => FailedOn(o, p)
  }

  /** Round-2 proposals that come from `p`, made or about to be made. */
  function Successors(sys: System, p: nat): nat {
    Count(sys.threads, CarriesFrom(p)) + Count(sys.shared.pendings, BornFrom(p))
  }

  ghost predicate FewSuccessors(sys: System, p: nat) {
    Successors(sys, p) <= Count(sys.shared.outcomes, FailureOf(p))
  }

  lemma {:induction false} SameOriginsSameCount(a: seq<Pending>, b: seq<Pending>, p: nat)
    requires |a| == |b| && forall i :: 0 <= i < |a| ==> a[i].origin == b[i].origin
    ensures Count(a, BornFrom(p)) == Count(b, BornFrom(p))
  {
    if a != [] {
      SameOriginsSameCount(a[..|a| - 1], b[..|b| - 1], p);
    }
  }

  /** A verdict may add one failure and then one successor. */
  lemma DecideFewSuccessors(cfg: Config, sys: System, i: nat, c: Choice, p: nat)
    requires Legal(sys, Step(i, c)) && FewSuccessors(sys, p) && sys.threads[i].Deciding?
    ensures FewSuccessors(Apply(cfg, sys, Step(i, c)), p)
  {
    var s, t := sys.shared, sys.threads[i];
    var o := Outcome(t.p, t.votes, c.uptime, c.known, VerdictOn(s.pendings[t.p], c.found));
    CountUpdate(sys.threads, i, AfterVerdict(o, c.means), CarriesFrom(p));
    CountAppend(s.outcomes, o, FailureOf(p));
  }

  /** A proposer turns from a successor about to be made into one made, or gives up. */
  lemma ProposeFewSuccessors(cfg: Config, sys: System, i: nat, c: Choice, p: nat)
    requires Legal(sys, Step(i, c)) && FewSuccessors(sys, p) && sys.threads[i].Proposing?
    ensures FewSuccessors(Apply(cfg, sys, Step(i, c)), p)
  {
    var s, t := sys.shared, sys.threads[i];
    CountUpdate(sys.threads, i, Advance(cfg, s, t, c).1, CarriesFrom(p));
    CountAppend(s.pendings, NewPending(cfg, t.origin, c), BornFrom(p));
  }

  lemma OtherFewSuccessors(cfg: Config, sys: System, i: nat, c: Choice, p: nat)
    requires Legal(sys, Step(i, c)) && FewSuccessors(sys, p) && !sys.threads[i].Proposing? && !sys.threads[i].Deciding?
    ensures FewSuccessors(Apply(cfg, sys, Step(i, c)), p)
  {
    var s, t := sys.shared, sys.threads[i];
    var r := Advance(cfg, s, t, c);
    CountUpdate(sys.threads, i, r.1, CarriesFrom(p));
    SameOriginsSameCount(s.pendings, r.0.pendings, p);
  }

  lemma StepFewSuccessors(cfg: Config, sys: System, a: Action, p: nat)
    requires Legal(sys, a) && FewSuccessors(sys, p)
    ensures FewSuccessors(Apply(cfg, sys, a), p)
  {
    if a.Step? {
      if sys.threads[a.i].Deciding? {
        DecideFewSuccessors(cfg, sys, a.i, a.choice, p);
      } else if sys.threads[a.i].Proposing? {
        ProposeFewSuccessors(cfg, sys, a.i, a.choice, p);
      } else {
        OtherFewSuccessors(cfg, sys, a.i, a.choice, p);
      }
    } else {
      CountAppend(sys.threads, if a.Deliver? then Delivered(a.vote) else Proposing(First), CarriesFrom(p));
    }
  }

  // ---------- every run ----------

  ghost predicate Safe(cfg: Config, sys: System) {
    && AllPoint(sys) && OneTokenEach(sys) && VotesFit(sys) && AllEndWell(sys) && WellBorn(cfg, sys)
    && (forall p: nat :: FewSuccessors(sys, p))
  }

  lemma StartIsSafe(cfg: Config, time: int)
    ensures Safe(cfg, Start(time))
  {
  }

  lemma StepStaysSafe(cfg: Config, sys: System, a: Action)
    requires Legal(sys, a) && Safe(cfg, sys)
    ensures Safe(cfg, Apply(cfg, sys, a))
  {
    StepPoints(cfg, sys, a);
    StepTokens(cfg, sys, a);
    StepVotesFit(cfg, sys, a);
    StepsEndWell(cfg, sys, a);
    StepWellBorn(cfg, sys, a);
    forall p: nat ensures FewSuccessors(Apply(cfg, sys, a), p) {
      StepFewSuccessors(cfg, sys, a, p);
    }
  }

  lemma {:induction false} RunStaysSafe(cfg: Config, sys: System, actions: seq<Action>, end: System)
    requires Safe(cfg, sys) && Run(cfg, sys, actions, end)
    ensures Safe(cfg, end)
    decreases |actions|
  {
    if actions != [] {
      StepStaysSafe(cfg, sys, actions[0]);
      RunStaysSafe(cfg, Apply(cfg, sys, actions[0]), actions[1..], end);
    }
  }

  ghost predicate Reachable(cfg: Config, sys: System) {
    exists time, actions :: Run(cfg, Start(time), actions, sys)
  }

  lemma ReachableIsSafe(cfg: Config, sys: System)
    requires Reachable(cfg, sys)
    ensures Safe(cfg, sys)
  {
    var time, actions :| Run(cfg, Start(time), actions, sys);
    StartIsSafe(cfg, time);
    RunStaysSafe(cfg, Start(time), actions, sys);
  }

  // ---------- the promises ----------

  /** No proposal's finalization ends twice, and none ends that was not marked finalized. */
  lemma FinalizedAtMostOnce(cfg: Config, sys: System, i: nat, j: nat)
    requires Reachable(cfg, sys) && i < j < |sys.shared.outcomes|
    ensures sys.shared.outcomes[i].p != sys.shared.outcomes[j].p
    ensures sys.shared.outcomes[i].p < |sys.shared.pendings| && sys.shared.pendings[sys.shared.outcomes[i].p].finalized
  {
    ReachableIsSafe(cfg, sys);
    var p := sys.shared.outcomes[i].p;
    assert sys.shared.outcomes[i] in sys.shared.outcomes;
    assert OneToken(sys, p);
    CountOne(sys.shared.outcomes, i, EndsOf(p));
    if sys.shared.outcomes[j].p == p {
      CountTwo(sys.shared.outcomes, i, j, EndsOf(p));
    }
  }

  /** Once no finalizer is under way, the finalized proposals are exactly those whose
      finalization has ended. */
  lemma EveryFinalizationEnds(cfg: Config, sys: System, p: nat)
    requires Reachable(cfg, sys) && p < |sys.shared.pendings|
    requires forall t :: t in sys.threads ==> !HoldsClaim(p)(t)
    ensures sys.shared.pendings[p].finalized <==> exists o :: o in sys.shared.outcomes && o.p == p
  {
    ReachableIsSafe(cfg, sys);
    assert OneToken(sys, p);
    CountNone(sys.threads, HoldsClaim(p));
    if o :| o in sys.shared.outcomes && o.p == p {
      var i :| 0 <= i < |sys.shared.outcomes| && sys.shared.outcomes[i] == o;
      CountOne(sys.shared.outcomes, i, EndsOf(p));
    } else {
      CountNone(sys.shared.outcomes, EndsOf(p));
    }
  }

  /** A finalization succeeds, retries or gives up: by whether a prefix of the votes held
      settles on a checkpoint, and by the round. */
  lemma FinalizationEndsInOneBranch(cfg: Config, sys: System, o: Outcome)
    requires Reachable(cfg, sys) && o in sys.shared.outcomes
    ensures o.p < |sys.shared.pendings| && o.votes <= sys.shared.pendings[o.p].votes
    ensures o.verdict.Agreed? <==> Agreeable(o.votes)
    ensures o.verdict.Retry? <==> !Agreeable(o.votes) && sys.shared.pendings[o.p].round == 1
    ensures o.verdict.GaveUp? <==> !Agreeable(o.votes) && sys.shared.pendings[o.p].round == 2
    ensures o.verdict.Agreed? ==> Finds(sys.shared.pendings[o.p].proposal, o.votes, o.uptime, Some(o.verdict.cp))
  {
    ReachableIsSafe(cfg, sys);
    assert EndsWell(sys.shared, o) && sys.shared.pendings[o.p] in sys.shared.pendings;
    assert SelfSigned(cfg, sys.shared.pendings[o.p]);
  }

  lemma HeldVotesFit(cfg: Config, sys: System, p: nat, v: Vote)
    requires Reachable(cfg, sys) && p < |sys.shared.pendings| && v in sys.shared.pendings[p].votes
    ensures v.proposalTS == sys.shared.pendings[p].proposal.att.asOfTime && v.round == sys.shared.pendings[p].round
  {
    ReachableIsSafe(cfg, sys);
    assert AllFit(sys.shared.pendings[p]);
  }

  /** A round-2 proposal proposes the trimmed means of votes on which a round 1 failed. */
  lemma RoundTwoComesFromFailure(cfg: Config, sys: System, q: nat) returns (p: nat, o: Outcome)
    requires Reachable(cfg, sys) && q < |sys.shared.pendings| && sys.shared.pendings[q].round != 1
    ensures p < |sys.shared.pendings| && sys.shared.pendings[p].round == 1 && sys.shared.pendings[q].round == 2
    ensures o in sys.shared.outcomes && FailedOn(o, p) && o.votes <= sys.shared.pendings[p].votes && !Agreeable(o.votes)
    ensures MeansOf(o.votes, sys.shared.pendings[q].proposal.att.observation)
  {
    ReachableIsSafe(cfg, sys);
    var x := sys.shared.pendings[q];
    assert SelfSigned(cfg, x) && OriginLicensed(sys.shared, x.origin);
    p := x.origin.p;
    o :| o in sys.shared.outcomes && FailedOn(o, p) && MeansOf(o.votes, x.origin.means);
    assert EndsWell(sys.shared, o);
  }

  /** No round 1 has two second rounds. */
  lemma OneRoundTwoEach(cfg: Config, sys: System, i: nat, j: nat)
    requires Reachable(cfg, sys) && i < j < |sys.shared.pendings|
    requires sys.shared.pendings[i].origin.Second? && sys.shared.pendings[j].origin.Second?
    ensures sys.shared.pendings[i].origin.p != sys.shared.pendings[j].origin.p
  {
    ReachableIsSafe(cfg, sys);
    var p := sys.shared.pendings[i].origin.p;
    if sys.shared.pendings[j].origin.p == p {
      assert sys.shared.pendings[i] in sys.shared.pendings;
      assert FewSuccessors(sys, p) && OneToken(sys, p);
      CountFewer(sys.shared.outcomes, FailureOf(p), EndsOf(p));
      CountTwo(sys.shared.pendings, i, j, BornFrom(p));
    }
  }

  // ---------- no vote is invented or counted twice ----------

  /** How often `v` is held, by all proposals ever made. */
  function HeldCopies(pendings: seq<Pending>, v: Vote): nat {
    if pendings == [] then 0 else HeldCopies(pendings[..|pendings| - 1], v) + multiset(pendings[|pendings| - 1].votes)[v]
  }

  function Carries(v: Vote): Thread -> bool {
    (t: Thread) => (t.Delivered? && t.vote == v) || (t.Matched? && t.vote == v) || (t.Admitted? && t.vote == v)
  }

  function Copies(sys: System, v: Vote): nat {
    HeldCopies(sys.shared.pendings, v) + Count(sys.threads, Carries(v))
  }

  function Delivers(v: Vote): Action -> bool {
    (a: Action) => a == Deliver(v)
  }

  lemma {:induction false} HeldCopiesUpdate(pendings: seq<Pending>, p: nat, x: Pending, v: Vote)
    requires p < |pendings|
    ensures HeldCopies(pendings[p := x], v) + multiset(pendings[p].votes)[v] == HeldCopies(pendings, v) + multiset(x.votes)[v]
  {
    var n := |pendings| - 1;
    if p == n {
      assert pendings[p := x][..n] == pendings[..n];
    } else {
      assert pendings[p := x][..n] == pendings[..n][p := x];
      HeldCopiesUpdate(pendings[..n], p, x, v);
    }
  }

  lemma SharedKeepsCopies(cfg: Config, s: Shared, t: Thread, c: Choice, v: Vote)
    requires Points(s, t)
    ensures HeldCopies(Advance(cfg, s, t, c).0.pendings, v)
            == HeldCopies(s.pendings, v) + if t.Admitted? && t.vote == v then 1 else 0
  {
    match t
    case Admitted(w, p) =>
      HeldCopiesUpdate(s.pendings, p, s.pendings[p].(votes := s.pendings[p].votes + [w]), v);
    case Claiming(p) =>
      HeldCopiesUpdate(s.pendings, p, s.pendings[p].(finalized := true), v);
    case Proposing(origin) =>
      assert (s.pendings + [NewPending(cfg, origin, c)])[..|s.pendings|] == s.pendings;
    case _ =>
  }

  /** A thread carries its vote on, hands it over, or drops it. */
  lemma ThreadKeepsCopies(cfg: Config, s: Shared, t: Thread, c: Choice, v: Vote)
    requires Points(s, t)
    ensures Carries(v)(Advance(cfg, s, t, c).1) ==> Carries(v)(t) && !t.Admitted?
  {
  }

  lemma StepKeepsCopies(cfg: Config, sys: System, a: Action, v: Vote)
    requires Legal(sys, a)
    ensures Copies(Apply(cfg, sys, a), v) <= Copies(sys, v) + if Delivers(v)(a) then 1 else 0
  {
    if a.Step? {
      var t := sys.threads[a.i];
      SharedKeepsCopies(cfg, sys.shared, t, a.choice, v);
      ThreadKeepsCopies(cfg, sys.shared, t, a.choice, v);
      CountUpdate(sys.threads, a.i, Advance(cfg, sys.shared, t, a.choice).1, Carries(v));
    } else {
      CountAppend(sys.threads, if a.Deliver? then Delivered(a.vote) else Proposing(First), Carries(v));
    }
  }

  lemma {:induction false} CountFirst<X>(s: seq<X>, f: X -> bool)
    requires s != []
    ensures Count(s, f) == Count(s[1..], f) + if f(s[0]) then 1 else 0
  {
    if |s| > 1 {
      CountFirst(s[..|s| - 1], f);
      assert s[1..][..|s| - 2] == s[..|s| - 1][1..];
    }
  }

  lemma {:induction false} RunKeepsCopies(cfg: Config, sys: System, actions: seq<Action>, end: System, v: Vote)
    requires Run(cfg, sys, actions, end)
    ensures Copies(end, v) <= Copies(sys, v) + Count(actions, Delivers(v))
    decreases |actions|
  {
    if actions != [] {
      StepKeepsCopies(cfg, sys, actions[0], v);
      RunKeepsCopies(cfg, Apply(cfg, sys, actions[0]), actions[1..], end, v);
      CountFirst(actions, Delivers(v));
    }
  }

  /** Over all proposals together a vote is held at most as often as it was delivered. */
  lemma VotesComeFromDeliveries(cfg: Config, time: int, actions: seq<Action>, end: System, v: Vote)
    requires Run(cfg, Start(time), actions, end)
    ensures HeldCopies(end.shared.pendings, v) <= Count(actions, Delivers(v))
  {
    RunKeepsCopies(cfg, Start(time), actions, end, v);
  }

  // ---------- overwritten proposals ----------

  /** `p` is neither the current proposal nor about to be claimed. */
  ghost predicate Abandoned(sys: System, p: nat) {
    && p < |sys.shared.pendings| && !sys.shared.pendings[p].finalized
    && sys.shared.current != Some(p)
    && (forall t :: t in sys.threads ==> t != Claiming(p))
  }

  lemma StepStaysAbandoned(cfg: Config, sys: System, a: Action, p: nat)
    requires Legal(sys, a) && Abandoned(sys, p)
    ensures Abandoned(Apply(cfg, sys, a), p)
  {
    var after := Apply(cfg, sys, a);
    if a.Step? {
      assert sys.threads[a.i] in sys.threads;
    }
    forall t | t in after.threads ensures t != Claiming(p) {
      assert t in sys.threads ==> t != Claiming(p);
    }
  }

  /** Finalizers act on whatever proposal is current when they look. So a proposal that another
      one replaced first is never finalized, however many votes it has or still gets. */
  lemma {:induction false} AbandonedForever(cfg: Config, sys: System, actions: seq<Action>, end: System, p: nat)
    requires Run(cfg, sys, actions, end) && Abandoned(sys, p)
    ensures Abandoned(end, p)
    decreases |actions|
  {
    if actions != [] {
      StepStaysAbandoned(cfg, sys, actions[0], p);
      AbandonedForever(cfg, Apply(cfg, sys, actions[0]), actions[1..], end, p);
    }
  }

  /** Two proposals in a row: the first one is abandoned. */
  lemma ReplacedProposal(cfg: Config, time: int) returns (sys: System)
    ensures Reachable(cfg, sys) && Abandoned(sys, 0)
  {
    var c := AnyChoice();
    var s0 := Start(time);
    var s1 := Apply(cfg, s0, Propose);
    var s2 := Apply(cfg, s1, Step(0, c));
    var s3 := Apply(cfg, s2, Propose);
    sys := Apply(cfg, s3, Step(1, c));
    OneStep(cfg, s0, Propose);
    OneStep(cfg, s1, Step(0, c));
    OneStep(cfg, s2, Propose);
    OneStep(cfg, s3, Step(1, c));
    RunConcat(cfg, s2, [Propose], s3, [Step(1, c)], sys);
    RunConcat(cfg, s1, [Step(0, c)], s2, [Propose] + [Step(1, c)], sys);
    RunConcat(cfg, s0, [Propose], s1, [Step(0, c)] + ([Propose] + [Step(1, c)]), sys);
  }

  lemma ClaimFinalizes(cfg: Config, sys: System, p: nat, i: nat, c: Choice) returns (actions: seq<Action>, end: System)
    requires AllPoint(sys) && p < |sys.shared.pendings| && i < |sys.threads|
    requires sys.threads[i] == Claiming(p) || (sys.threads[i] == Finalizer && sys.shared.current == Some(p))
    ensures Run(cfg, sys, actions, end) && p < |end.shared.pendings| && end.shared.pendings[p].finalized
  {
    var step := Step(i, c);
    if sys.threads[i] == Claiming(p) {
      actions, end := [step], Apply(cfg, sys, step);
      assert Run(cfg, end, actions[1..], end);
    } else {
      var middle := Apply(cfg, sys, step);
      assert middle.threads[i] == Claiming(p) && Legal(middle, step);
      actions, end := [step, step], Apply(cfg, middle, step);
      assert actions[1..] == [step];
      assert Run(cfg, middle, [step], end);
    }
  }

  lemma {:induction false} RunConcat(cfg: Config, a: System, first: seq<Action>, b: System, second: seq<Action>,
                                     c: System)
    requires Run(cfg, a, first, b) && Run(cfg, b, second, c)
    ensures Run(cfg, a, first + second, c)
    decreases |first|
  {
    if first == [] {
      assert first + second == second;
    } else {
      assert (first + second)[1..] == first[1..] + second;
      RunConcat(cfg, Apply(cfg, a, first[0]), first[1..], b, second, c);
    }
  }

  /** Some nara's vote that the proposer would accept for `x`, and what it has to know for that. */
  function AnyVote(cfg: Config, x: Pending): Vote {
    var claim := Attestation(2, cfg.name, cfg.id, NaraObservation(0, 0, 0), "ann", "ann's id", "", 0, Unsigned(""));
    Vote(SignAs(claim, Voter("ann", "ann's id", "ann's key")), x.proposal.att.asOfTime, x.round, false)
  }

  function AnyChoice(): Choice {
    Choice(0, map["ann's id" := "ann's key"], map[], None, NaraObservation(0, 0, 0), NaraObservation(0, 0, 0), "", true, true)
  }

  lemma AnyVoteIsReceived(cfg: Config, s: Shared, p: nat)
    requires Points(s, Idle) && s.current == Some(p)
    ensures var v := AnyVote(cfg, s.pendings[p]); Receive(cfg, s, v, AnyChoice().known) == Matched(v, p)
  {
    SignatureNotSigned(AnyVote(cfg, s.pendings[p]).att);
  }

  /** An open current proposal can always get one more vote. */
  lemma OneMoreVote(cfg: Config, sys: System, p: nat) returns (actions: seq<Action>, end: System)
    requires AllPoint(sys) && sys.shared.current == Some(p) && !sys.shared.pendings[p].finalized
    ensures Run(cfg, sys, actions, end) && AllPoint(end)
    ensures end.shared == Append(sys.shared, p, AnyVote(cfg, sys.shared.pendings[p]))
    ensures |end.threads| > |sys.threads|
    ensures |end.shared.pendings[p].votes| >= MIN_VOTERS ==> end.threads[|sys.threads|] == Finalizer
  {
    var v, step := AnyVote(cfg, sys.shared.pendings[p]), Step(|sys.threads|, AnyChoice());
    AnyVoteIsReceived(cfg, sys.shared, p);
    var s1 := Apply(cfg, sys, Deliver(v));
    var s2 := Apply(cfg, s1, step);
    assert s2 == System(sys.shared, sys.threads + [Matched(v, p)]);
    var s3 := Apply(cfg, s2, step);
    assert s3 == System(sys.shared, sys.threads + [Admitted(v, p)]);
    end := Apply(cfg, s3, step);
    StepPoints(cfg, sys, Deliver(v));
    StepPoints(cfg, s1, step);
    StepPoints(cfg, s2, step);
    StepPoints(cfg, s3, step);
    actions := [Deliver(v)] + ([step] + ([step] + [step]));
    OneStep(cfg, s3, step);
    OneStep(cfg, s2, step);
    OneStep(cfg, s1, step);
    OneStep(cfg, sys, Deliver(v));
    RunConcat(cfg, s2, [step], s3, [step], end);
    RunConcat(cfg, s1, [step], s2, [step] + [step], end);
    RunConcat(cfg, sys, [Deliver(v)], s1, [step] + ([step] + [step]), end);
  }

  lemma OneStep(cfg: Config, sys: System, a: Action)
    requires Legal(sys, a)
    ensures Run(cfg, sys, [a], Apply(cfg, sys, a))
  {
    assert [a][1..] == [];
    assert Run(cfg, Apply(cfg, sys, a), [], Apply(cfg, sys, a));
  }

  lemma {:induction false} FiveVotesFinalize(cfg: Config, sys: System, p: nat)
      returns (actions: seq<Action>, end: System)
    requires AllPoint(sys) && sys.shared.current == Some(p) && !sys.shared.pendings[p].finalized
    ensures Run(cfg, sys, actions, end) && p < |end.shared.pendings| && end.shared.pendings[p].finalized
    decreases MIN_VOTERS - |sys.shared.pendings[p].votes|
  {
    var first, middle := OneMoreVote(cfg, sys, p);
    var rest;
    if |middle.shared.pendings[p].votes| >= MIN_VOTERS {
      rest, end := ClaimFinalizes(cfg, middle, p, |sys.threads|, AnyChoice());
    } else {
      rest, end := FiveVotesFinalize(cfg, middle, p);
    }
    RunConcat(cfg, sys, first, middle, rest, end);
    actions := first + rest;
  }

  /** The condition is exact: an open proposal that is not abandoned can still be finalized. It may
      take votes that are yet to come; `CheckpointLiveness` says what is finalized without them. */
  lemma FinalizableUntilAbandoned(cfg: Config, sys: System, p: nat) returns (actions: seq<Action>, end: System)
    requires Reachable(cfg, sys) && p < |sys.shared.pendings| && !sys.shared.pendings[p].finalized && !Abandoned(sys, p)
    ensures Run(cfg, sys, actions, end) && p < |end.shared.pendings| && end.shared.pendings[p].finalized
  {
    ReachableIsSafe(cfg, sys);
    if sys.shared.current == Some(p) {
      actions, end := FiveVotesFinalize(cfg, sys, p);
    } else {
      var i :| 0 <= i < |sys.threads| && sys.threads[i] == Claiming(p);
      actions, end := ClaimFinalizes(cfg, sys, p, i, AnyChoice());
    }
  }
}
