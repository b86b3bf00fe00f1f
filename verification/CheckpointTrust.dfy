/** What the checkpoint protocol is worth when the naras taking part are honest. */
module CheckpointTrust {
  import opened Wrappers
  import opened Events
  import opened Sorting
  import opened Attestations
  import opened CheckpointConsensus
  import opened CheckpointProtocol
  import opened CheckpointSafety
  import T = TrimmedMean

  // ---------- from proposal to vote and back ----------

  /** `a` and `b` are at most `tolerance` apart. */
  predicate Near(a: int, b: int, tolerance: nat) {
    b - tolerance <= a <= b + tolerance
  }

  /** Every other nara that knows the proposer's key and has booted votes on the proposal, and the
      proposer that knows the voter's key admits that vote to that proposal. With a wrong key on
      either side there is no vote, or it is not admitted. The vote approves, and signs the proposed
      values, exactly if the voter derives 5 restarts more or less and 60 seconds more or less; else
      it signs the voter's own values. It always names the last checkpoint the voter saw. */
  lemma ProposalRoundTrip(cfg: Config, x: Pending, voter: Voter, ours: View, voterKnows: map<NaraID, string>,
                          proposerKnows: map<NaraID, string>)
    requires SelfSigned(cfg, x) && voter.name != cfg.name && cfg.id in voterKnows && voter.id in proposerKnows
    ensures var vote := HandleProposal(x.proposal, voter, ours, voterKnows, true);
            && (vote.Some? <==> voterKnows[cfg.id] == cfg.key)
            && (vote.Some? ==>
                  var ourDerived, proposed := ours.observation, x.proposal.att.observation;
                  var close := && Near(proposed.restarts, ourDerived.restarts, 5) && Near(proposed.totalUptime, ourDerived.totalUptime, 60)
                               && Near(proposed.startTime, ourDerived.startTime, 60);
                  && vote.value.approved == close
                  && vote.value.att.observation == (if close then proposed else ourDerived)
                  && vote.value.att.lastSeenCheckpointID == ours.lastCheckpointID)
            && (vote.Some? ==> Fits(x, vote.value) && (Accepted(cfg, vote.value, proposerKnows) <==> proposerKnows[voter.id] == voter.key))
  {
    SignatureNotSigned(CastVote(x.proposal, voter, ours).att);
  }

  // ---------- votes reach the proposal they were cast on ----------

  /** The vote an honest nara casts on some proposal made so far. */
  ghost predicate CastOnSome(s: Shared, v: Vote, keys: map<NaraID, string>) {
    exists q :: 0 <= q < |s.pendings| && HonestVote(v, s.pendings[q].proposal, keys)
  }

  ghost predicate HonestRun(cfg: Config, keys: map<NaraID, string>, sys: System, actions: seq<Action>, end: System)
    decreases |actions|
  {
    if actions == [] then end == sys
    else
      && Legal(sys, actions[0])
      && (actions[0].Deliver? ==> CastOnSome(sys.shared, actions[0].vote, keys))
      && HonestRun(cfg, keys, Apply(cfg, sys, actions[0]), actions[1..], end)
  }

  lemma {:induction false} HonestRunIsRun(cfg: Config, keys: map<NaraID, string>, sys: System, actions: seq<Action>,
                                          end: System)
    requires HonestRun(cfg, keys, sys, actions, end)
    ensures Run(cfg, sys, actions, end)
    decreases |actions|
  {
    if actions != [] {
      HonestRunIsRun(cfg, keys, Apply(cfg, sys, actions[0]), actions[1..], end);
    }
  }

  ghost predicate HoldsHonest(s: Shared, x: Pending, keys: map<NaraID, string>) {
    forall v :: v in x.votes ==> CastOnSome(s, v, keys)
  }

  ghost predicate BringsHonest(s: Shared, t: Thread, keys: map<NaraID, string>) {
    match t
    case Delivered(v) => CastOnSome(s, v, keys)
    case Matched(v, _) => CastOnSome(s, v, keys)
    case Admitted(v, _) => CastOnSome(s, v, keys)
    case _ => true
  }

  ghost predicate AllHonest(sys: System, keys: map<NaraID, string>) {
    && (forall x :: x in sys.shared.pendings ==> HoldsHonest(sys.shared, x, keys))
    && (forall t :: t in sys.threads ==> BringsHonest(sys.shared, t, keys))
  }

  lemma StillCast(s: Shared, s': Shared, v: Vote, keys: map<NaraID, string>)
    requires Grows(s, s') && CastOnSome(s, v, keys)
    ensures CastOnSome(s', v, keys)
  {
  }

  lemma StillBrings(s: Shared, s': Shared, t: Thread, keys: map<NaraID, string>)
    requires Grows(s, s') && BringsHonest(s, t, keys)
    ensures BringsHonest(s', t, keys)
  {
  }

  lemma StepHoldsHonest(cfg: Config, s: Shared, t: Thread, c: Choice, keys: map<NaraID, string>, p: nat)
    requires Points(s, t) && BringsHonest(s, t, keys) && forall x :: x in s.pendings ==> HoldsHonest(s, x, keys)
    requires p < |Advance(cfg, s, t, c).0.pendings|
    ensures HoldsHonest(Advance(cfg, s, t, c).0, Advance(cfg, s, t, c).0.pendings[p], keys)
  {
    var s' := Advance(cfg, s, t, c).0;
    StepGrows(cfg, s, t, c);
    forall v | v in s'.pendings[p].votes ensures CastOnSome(s', v, keys) {
      if p < |s.pendings| {
        assert HoldsHonest(s, s.pendings[p], keys);
        StillCast(s, s', v, keys);
      }
    }
  }

  lemma StepStaysHonest(cfg: Config, sys: System, a: Action, keys: map<NaraID, string>)
    requires Legal(sys, a) && AllHonest(sys, keys) && (a.Deliver? ==> CastOnSome(sys.shared, a.vote, keys))
    ensures AllHonest(Apply(cfg, sys, a), keys)
  {
    if a.Step? {
      var s, t, after := sys.shared, sys.threads[a.i], Apply(cfg, sys, a);
      StepGrows(cfg, s, t, a.choice);
      forall x | x in after.shared.pendings ensures HoldsHonest(after.shared, x, keys) {
        var p :| 0 <= p < |after.shared.pendings| && after.shared.pendings[p] == x;
        StepHoldsHonest(cfg, s, t, a.choice, keys, p);
      }
      forall u | u in after.threads ensures BringsHonest(after.shared, u, keys) {
        if u in sys.threads {
          StillBrings(s, after.shared, u, keys);
        } else {
          NextBrings(cfg, s, t, a.choice, keys);
        }
      }
    }
  }

  lemma NextBrings(cfg: Config, s: Shared, t: Thread, c: Choice, keys: map<NaraID, string>)
    requires Points(s, t) && BringsHonest(s, t, keys)
    ensures BringsHonest(Advance(cfg, s, t, c).0, Advance(cfg, s, t, c).1, keys)
  {
  }

  lemma {:induction false} RunStaysHonest(cfg: Config, keys: map<NaraID, string>, sys: System, actions: seq<Action>,
                                          end: System)
    requires HonestRun(cfg, keys, sys, actions, end) && AllHonest(sys, keys)
    ensures AllHonest(end, keys)
    decreases |actions|
  {
    if actions != [] {
      StepStaysHonest(cfg, sys, actions[0], keys);
      RunStaysHonest(cfg, keys, Apply(cfg, sys, actions[0]), actions[1..], end);
    }
  }

  /** No two proposals of the same round in the same second. */
  ghost predicate DistinctStamps(s: Shared) {
    forall p, q :: 0 <= p < q < |s.pendings| && s.pendings[p].round == s.pendings[q].round ==>
      s.pendings[p].proposal.att.asOfTime != s.pendings[q].proposal.att.asOfTime
  }

  /** Timestamp and round identify a proposal: a held vote was cast on the very proposal that
      holds it. */
  lemma VotesReachTheirProposal(cfg: Config, keys: map<NaraID, string>, time: int, actions: seq<Action>, sys: System,
                                p: nat, v: Vote)
    requires HonestRun(cfg, keys, Start(time), actions, sys) && DistinctStamps(sys.shared)
    requires p < |sys.shared.pendings| && v in sys.shared.pendings[p].votes
    ensures HonestVote(v, sys.shared.pendings[p].proposal, keys)
  {
    HonestRunIsRun(cfg, keys, Start(time), actions, sys);
    HeldVotesFit(cfg, sys, p, v);
    ReachableIsSafe(cfg, sys);
    RunStaysHonest(cfg, keys, Start(time), actions, sys);
    assert HoldsHonest(sys.shared, sys.shared.pendings[p], keys);
    var q :| 0 <= q < |sys.shared.pendings| && HonestVote(v, sys.shared.pendings[q].proposal, keys);
    assert SelfSigned(cfg, sys.shared.pendings[p]) && SelfSigned(cfg, sys.shared.pendings[q]);
    assert p < q || q < p || p == q;
  }

  /** Even without that, a held vote was cast on a proposal of the same second. */
  lemma VotesReachTheirSecond(cfg: Config, keys: map<NaraID, string>, time: int, actions: seq<Action>, sys: System,
                              p: nat, v: Vote)
    requires HonestRun(cfg, keys, Start(time), actions, sys)
    requires p < |sys.shared.pendings| && v in sys.shared.pendings[p].votes
    ensures HonestVoteNear(v, sys.shared.pendings[p].proposal, keys)
  {
    HonestRunIsRun(cfg, keys, Start(time), actions, sys);
    HeldVotesFit(cfg, sys, p, v);
    ReachableIsSafe(cfg, sys);
    RunStaysHonest(cfg, keys, Start(time), actions, sys);
    assert HoldsHonest(sys.shared, sys.shared.pendings[p], keys);
    var q :| 0 <= q < |sys.shared.pendings| && HonestVote(v, sys.shared.pendings[q].proposal, keys);
    assert SelfSigned(cfg, sys.shared.pendings[p]) && SelfSigned(cfg, sys.shared.pendings[q]);
    assert v.proposalTS == sys.shared.pendings[q].proposal.att.asOfTime;
  }

  function KnownNaras(ids: seq<NaraID>, known: map<NaraID, string>): set<NaraID> {
    set id | id in ids && id in known
  }

  /** Where no signer is listed twice, known signatures are known naras. */
  lemma {:induction false} KnownSignersAreNaras(cp: CheckpointPayload, known: map<NaraID, string>, n: nat)
    requires Distinct(cp.voterIDs) && n <= |cp.voterIDs| == |cp.signatures|
    ensures KnownSigners(cp, known, n) == |KnownNaras(cp.voterIDs[..n], known)|
  {
    if n > 0 {
      KnownSignersAreNaras(cp, known, n - 1);
      assert cp.voterIDs[..n] == cp.voterIDs[..n - 1] + [cp.voterIDs[n - 1]];
      OneMoreNara(cp.voterIDs[..n - 1], cp.voterIDs[n - 1], known);
    }
  }

  lemma OneMoreNara(ids: seq<NaraID>, id: NaraID, known: map<NaraID, string>)
    requires id !in ids
    ensures |KnownNaras(ids + [id], known)| == |KnownNaras(ids, known)| + if id in known then 1 else 0
  {
    if id in known {
      assert KnownNaras(ids + [id], known) == KnownNaras(ids, known) + {id};
    } else {
      assert KnownNaras(ids + [id], known) == KnownNaras(ids, known);
    }
  }

  lemma AllNarasKnown(cp: CheckpointPayload, known: map<NaraID, string>)
    requires |cp.voterIDs| == |cp.signatures|
    ensures Distinct(cp.voterIDs) ==> KnownSigners(cp, known, |cp.voterIDs|) == |KnownNaras(cp.voterIDs, known)|
  {
    assert cp.voterIDs[..|cp.voterIDs|] == cp.voterIDs;
    if Distinct(cp.voterIDs) {
      KnownSignersAreNaras(cp, known, |cp.voterIDs|);
    }
  }

  /** So every checkpoint agreed on by a value group carries only signatures that verify, and is
      stored by every nara that knows the signers of two of them, the proposer and all others;
      whether the search succeeded in round 1 or 2, and however the threads interleaved. Two
      signatures may be one signer's; if no signer is listed twice, they are two naras'. */
  lemma AgreedCheckpointsVerify(cfg: Config, keys: map<NaraID, string>, time: int, actions: seq<Action>, sys: System,
                                o: Outcome, known: map<NaraID, string>)
      returns (key: ValueKey, winners: seq<Vote>, ranked: seq<Vote>)
    requires HonestRun(cfg, keys, Start(time), actions, sys)
    requires cfg.id in keys && keys[cfg.id] == cfg.key && ':' !in cfg.id && KnowsPart(known, keys)
    requires o in sys.shared.outcomes && o.verdict.Agreed?
    ensures o.p < |sys.shared.pendings|
    ensures FoundBy(sys.shared.pendings[o.p].proposal, o.votes, o.uptime, key, winners, ranked, o.verdict.cp)
    ensures |o.verdict.cp.signatures| == |o.verdict.cp.voterIDs|
    ensures winners == Group(o.votes, key) ==>
              var trusted := KnownSigners(o.verdict.cp, known, |o.verdict.cp.voterIDs|) >= MIN_CHECKPOINT_SIGNATURES;
              && (Accepts(o.verdict.cp, known) <==> trusted)
              && (forall name :: name != cfg.name ==> (TakesFinal(name, o.verdict.cp, known) <==> trusted))
              && (Distinct(o.verdict.cp.voterIDs) ==>
                    (trusted <==> |KnownNaras(o.verdict.cp.voterIDs, known)| >= MIN_CHECKPOINT_SIGNATURES))
  {
    HonestRunIsRun(cfg, keys, Start(time), actions, sys);
    FinalizationEndsInOneBranch(cfg, sys, o);
    ReachableIsSafe(cfg, sys);
    var x := sys.shared.pendings[o.p];
    assert SelfSigned(cfg, x);
    forall v | v in o.votes ensures HonestVoteNear(v, x.proposal, keys) {
      assert v in x.votes;
      VotesReachTheirSecond(cfg, keys, time, actions, sys, o.p, v);
    }
    key, winners, ranked :| FoundBy(x.proposal, o.votes, o.uptime, key, winners, ranked, o.verdict.cp);
    ListedCount(x.proposal, o.votes, o.uptime, key, winners, ranked, o.verdict.cp);
    if winners == Group(o.votes, key) {
      HonestSignaturesVerify(x.proposal, o.votes, o.uptime, key, winners, ranked, o.verdict.cp, keys, known);
      AllNarasKnown(o.verdict.cp, known);
    }
  }

  // ---------- round 2 resists a minority ----------

  lemma MeanResists(values: seq<int>, mean: int, lo: int, hi: int)
    requires MeanOf(values, mean) && 0 < lo <= hi && T.MajorityIn(values, lo, hi)
    ensures lo / 5 <= mean <= 5 * hi
  {
    var sorted :| SortedArrangement(values, sorted, T.Identity()) && mean == T.OfSorted(sorted);
    SameElements(values, sorted);
    T.KeepRearranged(values, sorted, lo, hi);
    T.MajorityFits(sorted, lo, hi);
    T.MinorityCannotMove(sorted, lo, hi);
  }

  /** Whatever a minority of the voters of round 1 signs, each value proposed in round 2 is within
      a factor of five of the honest majority's. */
  lemma RoundTwoResists(cfg: Config, sys: System, q: nat, lo: int, hi: int) returns (p: nat, o: Outcome)
    requires Reachable(cfg, sys) && q < |sys.shared.pendings| && sys.shared.pendings[q].round != 1 && 0 < lo <= hi
    ensures p < |sys.shared.pendings| && o in sys.shared.outcomes && FailedOn(o, p)
    ensures o.votes <= sys.shared.pendings[p].votes
    ensures var claim := sys.shared.pendings[q].proposal.att.observation;
            && (T.MajorityIn(Restarts(o.votes), lo, hi) ==> lo / 5 <= claim.restarts <= 5 * hi)
            && (T.MajorityIn(Uptimes(o.votes), lo, hi) ==> lo / 5 <= claim.totalUptime <= 5 * hi)
            && (T.MajorityIn(StartTimes(o.votes), lo, hi) ==> lo / 5 <= claim.startTime <= 5 * hi)
  {
    p, o := RoundTwoComesFromFailure(cfg, sys, q);
    var claim := sys.shared.pendings[q].proposal.att.observation;
    if T.MajorityIn(Restarts(o.votes), lo, hi) {
      MeanResists(Restarts(o.votes), claim.restarts, lo, hi);
    }
    if T.MajorityIn(Uptimes(o.votes), lo, hi) {
      MeanResists(Uptimes(o.votes), claim.totalUptime, lo, hi);
    }
    if T.MajorityIn(StartTimes(o.votes), lo, hi) {
      MeanResists(StartTimes(o.votes), claim.startTime, lo, hi);
    }
  }
}
