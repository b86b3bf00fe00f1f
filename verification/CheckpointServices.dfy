/** The proposer's side of the checkpoint service, one method per critical section. Each method is
    a step of the protocol; run without interference, they make up the source's handlers. */
module CheckpointServices {
  import opened Wrappers
  import opened Decimal
  import opened Events
  import opened Attestations
  import opened CheckpointConsensus
  import opened CheckpointProtocol
  import T = TrimmedMean

  /** Vote values travel as 64-bit integers. */
  predicate FitsInt64(votes: seq<Vote>) {
    forall v :: v in votes ==>
      IsInt64(v.att.observation.restarts) && IsInt64(v.att.observation.totalUptime) && IsInt64(v.att.observation.startTime)
  }

  class CheckpointService {
    const cfg: Config
    var pendings: seq<Pending>
    var myPendingProposal: Option<nat>
    var lastCheckpointTime: int
    var ledger: seq<CheckpointPayload>
    ghost var outcomes: seq<Outcome>

    ghost function State(): Shared
      reads this
    {
      Shared(pendings, myPendingProposal, lastCheckpointTime, ledger, outcomes)
    }

    constructor (cfg: Config, lastCheckpointTime: int)
      ensures this.cfg == cfg && State() == Start(lastCheckpointTime).shared
    {
      this.cfg := cfg;
      pendings, myPendingProposal, this.lastCheckpointTime, ledger, outcomes := [], None, lastCheckpointTime, [], [];
    }

    // ---------- the steps of a vote ----------

    /** A vote on this nara, signed by its voter over its own text under a key we know, in protocol
        version 2 or later, that names the second and round of the current proposal. */
    ghost predicate ForCurrent(vote: Vote, known: map<NaraID, string>)
      reads this
    {
      && vote.att.subject == cfg.name && vote.att.version >= 2
      && vote.att.attesterID in known && vote.att.signature == Signed(known[vote.att.attesterID], SignableContent(vote.att))
      && myPendingProposal.Some? && myPendingProposal.value < |pendings|
      && vote.proposalTS == pendings[myPendingProposal.value].proposal.att.asOfTime
      && vote.round == pendings[myPendingProposal.value].round
    }

    method MatchVote(vote: Vote, known: map<NaraID, string>) returns (next: Thread)
      requires Points(State(), Delivered(vote))
      ensures next == Receive(cfg, State(), vote, known)
      ensures next.Matched? <==> ForCurrent(vote, known)
      ensures next.Matched? ==> next == Matched(vote, myPendingProposal.value)
      ensures !next.Matched? ==> next == Idle
    {
      if vote.att.subject != cfg.name {
        return Idle;
      }
      if vote.att.attesterID !in known
         || !Verifies(known[vote.att.attesterID], SignableContent(vote.att), vote.att.signature) {
        return Idle;
      }
      if EffectiveVersion(vote.att.version) < 2 {
        return Idle;
      }
      if myPendingProposal.None? {
        return Idle;
      }
      var pending := pendings[myPendingProposal.value];
      if vote.proposalTS != pending.proposal.att.asOfTime || vote.round != pending.round {
        return Idle;
      }
      next := Matched(vote, myPendingProposal.value);
    }

    method CheckOpen(vote: Vote, p: nat, ghost c: Choice) returns (next: Thread)
      requires Points(State(), Matched(vote, p))
      ensures (State(), next) == Advance(cfg, State(), Matched(vote, p), c)
      ensures next == if pendings[p].finalized then Idle else Admitted(vote, p)
    {
      next := if pendings[p].finalized then Idle else Admitted(vote, p);
    }

    method AppendVote(vote: Vote, p: nat, ghost c: Choice) returns (next: Thread)
      requires Points(State(), Admitted(vote, p))
      modifies this`pendings
      ensures (State(), next) == Advance(cfg, old(State()), Admitted(vote, p), c)
      ensures pendings == old(pendings)[p := old(pendings)[p].(votes := old(pendings)[p].votes + [vote])]
      ensures next == if |old(pendings)[p].votes| >= 4 then Finalizer else Idle
    {
      pendings := pendings[p := pendings[p].(votes := pendings[p].votes + [vote])];
      next := if |pendings[p].votes| >= MIN_VOTERS then Finalizer else Idle;
    }

    // ---------- the steps of a finalizer ----------

    method TestAndSetFinalized(p: nat, ghost c: Choice) returns (next: Thread)
      requires Points(State(), Claiming(p))
      modifies this`pendings
      ensures (State(), next) == Advance(cfg, old(State()), Claiming(p), c)
      ensures pendings == old(pendings)[p := old(pendings)[p].(finalized := true)]
      ensures next == if old(pendings)[p].finalized then Idle else Claimed(p)
    {
      if pendings[p].finalized {
        return Idle;
      }
      pendings := pendings[p := pendings[p].(finalized := true)];
      next := Claimed(p);
    }

    method Means(votes: seq<Vote>) returns (means: NaraObservation)
      requires FitsInt64(votes)
      ensures MeansOf(votes, means)
    {
      var restartVals, uptimeVals, firstSeenVals := [], [], [];
      for i := 0 to |votes|
        invariant restartVals == Restarts(votes[..i]) && uptimeVals == Uptimes(votes[..i])
        invariant firstSeenVals == StartTimes(votes[..i])
      {
        restartVals := restartVals + [votes[i].att.observation.restarts];
        uptimeVals := uptimeVals + [votes[i].att.observation.totalUptime];
        firstSeenVals := firstSeenVals + [votes[i].att.observation.startTime];
      }
      assert votes[..|votes|] == votes;
      var restarts := T.TrimmedMeanInt64(restartVals);
      var totalUptime := T.TrimmedMeanInt64(uptimeVals);
      var firstSeen := T.TrimmedMeanInt64(firstSeenVals);
      means := NaraObservation(restarts, totalUptime, firstSeen);
    }

    method StoreCheckpoint(cp: CheckpointPayload, known: map<NaraID, string>)
      modifies this`ledger
      ensures ledger == if TwoVerify(cp, known) then old(ledger) + [cp] else old(ledger)
    {
      AcceptsIsTwo(cp, known);
      var result := VerifySignatureWithCounts(cp, known);
      if !result.valid {
        return;
      }
      ledger := ledger + [cp];
    }

    /** Takes one of the three branches. A checkpoint that was found is stored if two of its signatures
        verify. */
    method EndFinalization(p: nat, votes: seq<Vote>, c: Choice) returns (next: Thread)
      requires Points(State(), Deciding(p, votes))
      modifies this`ledger, this`outcomes
      ensures (State(), next) == Advance(cfg, old(State()), Deciding(p, votes), c)
      ensures ledger == if c.found.Some? && TwoVerify(c.found.value, c.known) then old(ledger) + [c.found.value] else old(ledger)
      ensures |outcomes| == |old(outcomes)| + 1 && outcomes[..|old(outcomes)|] == old(outcomes)
      ensures var verdict := outcomes[|old(outcomes)|].verdict;
              && (c.found.Some? ==> verdict == Agreed(c.found.value) && next == Stamping)
              && (c.found.None? && pendings[p].round == 1 ==> verdict == Retry)
              && (c.found.None? && pendings[p].round == 1 && votes != [] ==> next == Proposing(Second(p, c.means)))
              && (c.found.None? && pendings[p].round == 1 && votes == [] ==> next == Idle)
              && (c.found.None? && pendings[p].round != 1 ==> verdict == GaveUp && next == Stamping)
    {
      if c.found.Some? {
        AcceptsIsTwo(c.found.value, c.known);
      }
      outcomes := outcomes + [Outcome(p, votes, c.uptime, c.known, VerdictOn(pendings[p], c.found))];
      if c.found.Some? {
        StoreCheckpoint(c.found.value, c.known);
        next := Stamping;
      } else if pendings[p].round == 1 {
        next := if |votes| == 0 then Idle else Proposing(Second(p, c.means));
      } else {
        next := Stamping;
      }
    }

    /** What the finalizer finds on its copy of the votes. `base` supplies the inputs it reads. */
    method Decide(p: nat, votes: seq<Vote>, base: Choice) returns (c: Choice)
      requires Points(State(), Deciding(p, votes)) && FitsInt64(votes)
      requires pendings[p].proposal.att.attesterID == pendings[p].proposal.att.subjectID
      ensures DecidedBy(State(), p, votes, c) && c == base.(found := c.found, means := c.means)
    {
      var found := TryFindConsensus(pendings[p].proposal, votes, base.uptime);
      var means := Means(votes);
      c := base.(found := found, means := means);
    }

    /** A connected proposer replaces its pending proposal by one that it signs: its own derivation in
        round 1, the means in round 2, as of now. */
    method ProposeCheckpointRound(origin: Origin, c: Choice) returns (next: Thread)
      modifies this`pendings, this`myPendingProposal
      requires Points(State(), Proposing(origin))
      ensures (State(), next) == Advance(cfg, old(State()), Proposing(origin), c)
      ensures !c.connected ==> State() == old(State()) && next == Idle
      ensures c.connected ==>
                && |pendings| == |old(pendings)| + 1 && pendings[..|old(pendings)|] == old(pendings)
                && myPendingProposal == Some(|old(pendings)|) && next == if c.published then Finalizer else Idle
      ensures c.connected ==>
                var x := pendings[|old(pendings)|];
                var att := x.proposal.att;
                && x.votes == [] && !x.finalized && x.origin == origin
                && x.round == x.proposal.round == (if origin.Second? then 2 else 1)
                && att.observation == (if origin.Second? then origin.means else c.derived)
                && att.subject == att.attester == cfg.name && att.subjectID == att.attesterID == cfg.id
                && att.version == 2 && att.asOfTime == c.now && att.lastSeenCheckpointID == c.lastSeen
                && att.signature == Signed(cfg.key, SignableContent(att))
    {
      if !c.connected {
        return Idle;
      }
      var values := if origin.Second? then origin.means else c.derived;
      var attestation := Attestation(2, cfg.name, cfg.id, values, cfg.name, cfg.id, c.lastSeen, c.now, Unsigned(""));
      attestation := attestation.(signature := Signed(cfg.key, SignableContent(attestation)));
      var round := if origin.Second? then 2 else 1;
      pendings := pendings + [Pending(Proposal(attestation, round), [], round, false, origin)];
      myPendingProposal := Some(|pendings| - 1);
      next := if c.published then Finalizer else Idle;
    }

    // ---------- undisturbed handlers ----------

    /** Will the vote be added? */
    ghost predicate Admits(vote: Vote, known: map<NaraID, string>)
      requires Points(State(), Idle)
      reads this
    {
      ForCurrent(vote, known) && !pendings[myPendingProposal.value].finalized
    }

    /** A vote is added exactly if it is accepted, names the current proposal, and that is open.
        The fifth vote and every later one asks for finalization. */
    method HandleVote(vote: Vote, known: map<NaraID, string>, ghost c: Choice) returns (finalize: bool)
      requires Points(State(), Idle)
      modifies this`pendings
      ensures old(Admits(vote, known)) ==>
                var p := myPendingProposal.value;
                && |pendings| == |old(pendings)| && pendings[p].votes == old(pendings)[p].votes + [vote]
                && State() == Append(old(State()), p, vote)
      ensures !old(Admits(vote, known)) ==> State() == old(State())
      ensures finalize <==> old(Admits(vote, known)) && |old(pendings)[myPendingProposal.value].votes| >= MIN_VOTERS - 1
    {
      var next := MatchVote(vote, known);
      if !next.Matched? {
        return false;
      }
      var p := next.p;
      next := CheckOpen(vote, p, c);
      if !next.Admitted? {
        return false;
      }
      next := AppendVote(vote, p, c);
      finalize := next == Finalizer;
    }

    ghost predicate Open()
      requires Points(State(), Idle)
      reads this
    {
      myPendingProposal.Some? && !pendings[myPendingProposal.value].finalized
    }

    /** An open proposal is finalized on all its votes; otherwise nothing happens. */
    method FinalizeProposal(base: Choice) returns (next: Thread)
      requires Points(State(), Idle)
      requires forall x :: x in pendings ==> FitsInt64(x.votes) && x.proposal.att.attesterID == x.proposal.att.subjectID
      modifies this`pendings, this`ledger, this`outcomes
      ensures !old(Open()) ==> State() == old(State()) && next == Idle
      ensures old(Open()) ==> pendings == Finalize(old(State()), myPendingProposal.value).pendings
      ensures old(Open()) ==> |outcomes| == |old(outcomes)| + 1 && outcomes[..|old(outcomes)|] == old(outcomes)
      ensures old(Open()) ==>
                var o := outcomes[|old(outcomes)|];
                && o.p == myPendingProposal.value && o.votes == old(pendings)[o.p].votes
                && (next.Proposing? <==> o.verdict.Retry? && o.votes != [])
                && (next.Proposing? ==> next.origin.Second? && next.origin.p == o.p && MeansOf(o.votes, next.origin.means))
                && (next.Stamping? <==> !o.verdict.Retry?)
      ensures old(Open()) ==>
                var o, proposal := outcomes[|old(outcomes)|], old(pendings)[myPendingProposal.value].proposal;
                && (o.verdict.Agreed? ==> Finds(proposal, o.votes, base.uptime, Some(o.verdict.cp)))
                && (!o.verdict.Agreed? ==> Finds(proposal, o.votes, base.uptime, None))
                && (o.verdict.Retry? <==> !o.verdict.Agreed? && old(pendings)[o.p].round == 1)
                && ledger == if o.verdict.Agreed? && TwoVerify(o.verdict.cp, base.known) then old(ledger) + [o.verdict.cp]
                             else old(ledger)
    {
      if myPendingProposal.None? {
        return Idle;
      }
      var p := myPendingProposal.value;
      assert old(pendings)[p] in old(pendings);
      next := TestAndSetFinalized(p, base);
      if next == Idle {
        return;
      }
      var votes := pendings[p].votes;
      var c := Decide(p, votes, base);
      next := EndFinalization(p, votes, c);
    }
  }
}
