/** Which checkpoints a proposer's ledger receives from its own finalizations. */
module CheckpointLedger {
  import opened Wrappers
  import opened Events
  import opened Sorting
  import opened Attestations
  import opened CheckpointConsensus
  import opened CheckpointProtocol
  import opened CheckpointSafety
  import opened CheckpointTrust

  /** The checkpoints agreed on of which the proposer itself could verify two signatures, in the order
      in which their finalizations ended. */
  ghost function Stored(outcomes: seq<Outcome>): seq<CheckpointPayload> {
    if outcomes == [] then []
    else
      var o := outcomes[|outcomes| - 1];
      Stored(outcomes[..|outcomes| - 1])
      + if o.verdict.Agreed? && TwoVerify(o.verdict.cp, o.known) then [o.verdict.cp] else []
  }

  lemma VerdictStores(s: Shared, o: Outcome)
    requires s.ledger == Stored(s.outcomes)
    ensures Conclude(s, o, o.known).ledger == Stored(Conclude(s, o, o.known).outcomes)
  {
    assert (s.outcomes + [o])[..|s.outcomes|] == s.outcomes;
    if o.verdict.Agreed? {
      AcceptsIsTwo(o.verdict.cp, o.known);
    }
  }

  lemma OtherStepsLeave(cfg: Config, s: Shared, t: Thread, c: Choice)
    requires Points(s, t) && !t.Deciding?
    ensures Advance(cfg, s, t, c).0.ledger == s.ledger && Advance(cfg, s, t, c).0.outcomes == s.outcomes
  {
  }

  lemma StepStores(cfg: Config, sys: System, a: Action)
    requires Legal(sys, a) && sys.shared.ledger == Stored(sys.shared.outcomes)
    ensures Apply(cfg, sys, a).shared.ledger == Stored(Apply(cfg, sys, a).shared.outcomes)
  {
    if a.Step? {
      var s, t, c := sys.shared, sys.threads[a.i], a.choice;
      if t.Deciding? {
        VerdictStores(s, Outcome(t.p, t.votes, c.uptime, c.known, VerdictOn(s.pendings[t.p], c.found)));
      } else {
        OtherStepsLeave(cfg, s, t, c);
      }
    }
  }

  lemma {:induction false} RunStores(cfg: Config, sys: System, actions: seq<Action>, end: System)
    requires Run(cfg, sys, actions, end) && sys.shared.ledger == Stored(sys.shared.outcomes)
    ensures end.shared.ledger == Stored(end.shared.outcomes)
    decreases |actions|
  {
    if actions != [] {
      StepStores(cfg, sys, actions[0]);
      RunStores(cfg, Apply(cfg, sys, actions[0]), actions[1..], end);
    }
  }

  /** However the threads interleave, the ledger holds exactly these checkpoints, in this order. */
  lemma LedgerIsStored(cfg: Config, sys: System)
    requires Reachable(cfg, sys)
    ensures sys.shared.ledger == Stored(sys.shared.outcomes)
  {
    var time, actions :| Run(cfg, Start(time), actions, sys);
    RunStores(cfg, Start(time), actions, sys);
  }

  lemma {:induction false} StoredWas(outcomes: seq<Outcome>, cp: CheckpointPayload) returns (o: Outcome)
    requires cp in Stored(outcomes)
    ensures o in outcomes && o.verdict == Agreed(cp) && TwoVerify(cp, o.known)
  {
    var front, last := outcomes[..|outcomes| - 1], outcomes[|outcomes| - 1];
    if cp in Stored(front) {
      o := StoredWas(front, cp);
    } else {
      o := last;
    }
  }

  lemma {:induction false} IsStored(outcomes: seq<Outcome>, i: nat)
    requires i < |outcomes| && outcomes[i].verdict.Agreed? && TwoVerify(outcomes[i].verdict.cp, outcomes[i].known)
    ensures outcomes[i].verdict.cp in Stored(outcomes)
  {
    if i < |outcomes| - 1 {
      IsStored(outcomes[..|outcomes| - 1], i);
    }
  }

  predicate IsAgreed(o: Outcome) {
    o.verdict.Agreed?
  }

  lemma {:induction false} StoredAtMostOnce(outcomes: seq<Outcome>)
    ensures |Stored(outcomes)| <= Count(outcomes, IsAgreed)
  {
    if outcomes != [] {
      StoredAtMostOnce(outcomes[..|outcomes| - 1]);
    }
  }

  /** So a checkpoint held is one that a finalization of an own proposal agreed on, found among a prefix
      of that proposal's votes, with two signatures that verify; and there are no more of them than
      finalizations that agreed, one for each proposal at most. */
  lemma HeldWasAgreed(cfg: Config, sys: System, cp: CheckpointPayload) returns (o: Outcome)
    requires Reachable(cfg, sys) && cp in sys.shared.ledger
    ensures o in sys.shared.outcomes && o.verdict == Agreed(cp) && TwoVerify(cp, o.known)
    ensures o.p < |sys.shared.pendings| && o.votes <= sys.shared.pendings[o.p].votes && sys.shared.pendings[o.p].finalized
    ensures Finds(sys.shared.pendings[o.p].proposal, o.votes, o.uptime, Some(cp))
    ensures cp.subject == cfg.name && cp.subjectID == cfg.id
    ensures |sys.shared.ledger| <= Count(sys.shared.outcomes, IsAgreed) <= |sys.shared.outcomes|
  {
    LedgerIsStored(cfg, sys);
    o := StoredWas(sys.shared.outcomes, cp);
    StoredAtMostOnce(sys.shared.outcomes);
    CountWithin(sys.shared.outcomes, IsAgreed);
    FinalizationEndsInOneBranch(cfg, sys, o);
    ReachableIsSafe(cfg, sys);
    EndedWasFinalized(cfg, sys, o);
    assert SelfSigned(cfg, sys.shared.pendings[o.p]);
  }

  lemma EndedWasFinalized(cfg: Config, sys: System, o: Outcome)
    requires Safe(cfg, sys) && o in sys.shared.outcomes
    ensures o.p < |sys.shared.pendings| && sys.shared.pendings[o.p].finalized
  {
    var i :| 0 <= i < |sys.shared.outcomes| && sys.shared.outcomes[i] == o;
    assert OneToken(sys, o.p);
    CountOne(sys.shared.outcomes, i, EndsOf(o.p));
  }

  lemma {:induction false} CountWithin<X>(s: seq<X>, f: X -> bool)
    ensures Count(s, f) <= |s|
  {
    if s != [] {
      CountWithin(s[..|s| - 1], f);
    }
  }

  /** Among honest naras: a checkpoint that a value group agreed on is stored by its proposer - exactly if
      it then knew the signers of two listed signatures. */
  lemma AgreedIsStored(cfg: Config, keys: map<NaraID, string>, time: int, actions: seq<Action>, sys: System, o: Outcome)
      returns (key: ValueKey, winners: seq<Vote>, ranked: seq<Vote>)
    requires HonestRun(cfg, keys, Start(time), actions, sys)
    requires cfg.id in keys && keys[cfg.id] == cfg.key && ':' !in cfg.id && KnowsPart(o.known, keys)
    requires o in sys.shared.outcomes && o.verdict.Agreed?
    ensures o.p < |sys.shared.pendings|
    ensures FoundBy(sys.shared.pendings[o.p].proposal, o.votes, o.uptime, key, winners, ranked, o.verdict.cp)
    ensures winners == Group(o.votes, key) ==>
              var trusted := KnownSigners(o.verdict.cp, o.known, |o.verdict.cp.voterIDs|) >= 2;
              && (trusted ==> o.verdict.cp in sys.shared.ledger)
              && (trusted <==> TwoVerify(o.verdict.cp, o.known))
  {
    key, winners, ranked := AgreedCheckpointsVerify(cfg, keys, time, actions, sys, o, o.known);
    HonestRunIsRun(cfg, keys, Start(time), actions, sys);
    AcceptsIsTwo(o.verdict.cp, o.known);
    LedgerIsStored(cfg, sys);
    if TwoVerify(o.verdict.cp, o.known) {
      var i :| 0 <= i < |sys.shared.outcomes| && sys.shared.outcomes[i] == o;
      IsStored(sys.shared.outcomes, i);
    }
  }
}
