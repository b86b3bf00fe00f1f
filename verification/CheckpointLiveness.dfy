/** Which pending proposals are finalized.

    Whoever finalizes takes the proposal that is current when it looks. So what decides over a
    proposal is whether a finalizer looked while it was current: started by its own timer, by a
    fifth vote, or by another proposal's timer or votes. */
module CheckpointLiveness {
  import opened Wrappers
  import opened CheckpointConsensus
  import opened CheckpointProtocol
  import opened CheckpointSafety

  /** With this action a finalizer looks at `p`. */
  ghost predicate Looks(sys: System, a: Action, p: nat) {
    a.Step? && a.i < |sys.threads| && sys.threads[a.i] == Finalizer && sys.shared.current == Some(p)
  }

  /** Some action of the run does. */
  ghost predicate LookedAt(cfg: Config, sys: System, actions: seq<Action>, p: nat)
    decreases |actions|
  {
    && actions != [] && Legal(sys, actions[0])
    && (Looks(sys, actions[0], p) || LookedAt(cfg, Apply(cfg, sys, actions[0]), actions[1..], p))
  }

  ghost predicate Done(sys: System, p: nat) {
    p < |sys.shared.pendings| && (sys.shared.pendings[p].finalized || Claiming(p) in sys.threads)
  }

  lemma StaysInThreads(threads: seq<Thread>, i: nat, t: Thread, u: Thread)
    requires i < |threads| && u in threads && u != threads[i]
    ensures u in threads[i := t]
  {
    var j :| 0 <= j < |threads| && threads[j] == u;
    assert threads[i := t][j] == u;
  }

  lemma StepStaysDone(cfg: Config, sys: System, a: Action, p: nat)
    requires Legal(sys, a) && AllPoint(sys) && (Done(sys, p) || Looks(sys, a, p))
    ensures Done(Apply(cfg, sys, a), p)
  {
    if a.Step? {
      var t, r := sys.threads[a.i], Advance(cfg, sys.shared, sys.threads[a.i], a.choice);
      StepGrows(cfg, sys.shared, t, a.choice);
      if Looks(sys, a, p) {
        assert sys.threads[a.i := r.1][a.i] == Claiming(p);
      } else if !sys.shared.pendings[p].finalized && t != Claiming(p) {
        StaysInThreads(sys.threads, a.i, r.1, Claiming(p));
      }
    }
  }

  lemma NewlyDone(cfg: Config, sys: System, a: Action, p: nat)
    requires Legal(sys, a) && AllPoint(sys) && Done(Apply(cfg, sys, a), p)
    ensures Done(sys, p) || Looks(sys, a, p)
  {
    var after := Apply(cfg, sys, a);
    if a.Step? {
      assert sys.threads[a.i] in sys.threads;
    }
    if Claiming(p) in after.threads {
      var j :| 0 <= j < |after.threads| && after.threads[j] == Claiming(p);
      assert j < |sys.threads|;
      assert after.threads[j] == sys.threads[j] ==> Claiming(p) in sys.threads;
    }
  }

  lemma {:induction false} DoneIffLookedAt(cfg: Config, sys: System, actions: seq<Action>, end: System, p: nat)
    requires AllPoint(sys) && Run(cfg, sys, actions, end)
    ensures Done(end, p) <==> Done(sys, p) || LookedAt(cfg, sys, actions, p)
    decreases |actions|
  {
    if actions != [] {
      StepPoints(cfg, sys, actions[0]);
      DoneIffLookedAt(cfg, Apply(cfg, sys, actions[0]), actions[1..], end, p);
      if Done(sys, p) || Looks(sys, actions[0], p) {
        StepStaysDone(cfg, sys, actions[0], p);
      }
      if Done(Apply(cfg, sys, actions[0]), p) {
        NewlyDone(cfg, sys, actions[0], p);
      }
    }
  }

  /** In every run, once nobody is about to claim `p`: it is finalized if and only if some finalizer
      looked while it was the current proposal. */
  lemma FinalizedIffLookedAt(cfg: Config, time: int, actions: seq<Action>, end: System, p: nat)
    requires Run(cfg, Start(time), actions, end) && p < |end.shared.pendings| && Claiming(p) !in end.threads
    ensures end.shared.pendings[p].finalized <==> LookedAt(cfg, Start(time), actions, p)
  {
    DoneIffLookedAt(cfg, Start(time), actions, end, p);
  }

  // ---------- what a caller can count on ----------

  /** While `p` is current, somebody has seen to it or is about to. */
  ghost predicate Watched(sys: System, p: nat) {
    p < |sys.shared.pendings| && (sys.shared.current == Some(p) ==> Done(sys, p) || Finalizer in sys.threads)
  }

  lemma StepStaysWatched(cfg: Config, sys: System, a: Action, p: nat)
    requires Legal(sys, a) && AllPoint(sys) && Watched(sys, p)
    ensures Watched(Apply(cfg, sys, a), p)
  {
    var after := Apply(cfg, sys, a);
    if after.shared.current == Some(p) {
      assert sys.shared.current == Some(p);
      if Done(sys, p) || Looks(sys, a, p) {
        StepStaysDone(cfg, sys, a, p);
      } else if a.Step? {
        StaysInThreads(sys.threads, a.i, Advance(cfg, sys.shared, sys.threads[a.i], a.choice).1, Finalizer);
      }
    }
  }

  lemma {:induction false} RunStaysWatched(cfg: Config, sys: System, actions: seq<Action>, end: System, p: nat)
    requires AllPoint(sys) && Run(cfg, sys, actions, end) && Watched(sys, p)
    ensures Watched(end, p)
    decreases |actions|
  {
    if actions != [] {
      StepPoints(cfg, sys, actions[0]);
      StepStaysWatched(cfg, sys, actions[0], p);
      RunStaysWatched(cfg, Apply(cfg, sys, actions[0]), actions[1..], end, p);
    }
  }

  ghost predicate FullIsWatched(sys: System, p: nat) {
    p < |sys.shared.pendings| && |sys.shared.pendings[p].votes| >= MIN_VOTERS ==> Watched(sys, p)
  }

  lemma StepFullIsWatched(cfg: Config, sys: System, a: Action, p: nat)
    requires Legal(sys, a) && AllPoint(sys) && FullIsWatched(sys, p)
    ensures FullIsWatched(Apply(cfg, sys, a), p)
  {
    if Watched(sys, p) {
      StepStaysWatched(cfg, sys, a, p);
    } else if a.Step? {
      var after := Apply(cfg, sys, a);
      assert after.threads[a.i] in after.threads;
    }
  }

  lemma {:induction false} RunFullIsWatched(cfg: Config, sys: System, actions: seq<Action>, end: System, p: nat)
    requires AllPoint(sys) && Run(cfg, sys, actions, end) && FullIsWatched(sys, p)
    ensures FullIsWatched(end, p)
    decreases |actions|
  {
    if actions != [] {
      StepPoints(cfg, sys, actions[0]);
      StepFullIsWatched(cfg, sys, actions[0], p);
      RunFullIsWatched(cfg, Apply(cfg, sys, actions[0]), actions[1..], end, p);
    }
  }

  /** The finalizers that can still look at `p`, or have just done so, are through. */
  ghost predicate Settled(sys: System, p: nat) {
    Finalizer !in sys.threads && Claiming(p) !in sys.threads
  }

  /** The current proposal is finalized once it holds five votes and the finalizers are through. */
  lemma FullProposalIsFinalized(cfg: Config, sys: System, p: nat)
    requires Reachable(cfg, sys) && sys.shared.current == Some(p) && Settled(sys, p)
    ensures p < |sys.shared.pendings|
    ensures |sys.shared.pendings[p].votes| >= MIN_VOTERS ==> sys.shared.pendings[p].finalized
  {
    ReachableIsSafe(cfg, sys);
    var time, actions :| Run(cfg, Start(time), actions, sys);
    RunFullIsWatched(cfg, Start(time), actions, sys, p);
  }

  /** With this action proposal `p` is made, and publishing it succeeds. */
  ghost predicate Publishes(sys: System, a: Action, p: nat) {
    && a.Step? && a.i < |sys.threads| && sys.threads[a.i].Proposing? && |sys.shared.pendings| == p
    && a.choice.connected && a.choice.published
  }

  ghost predicate PublishedIn(cfg: Config, sys: System, actions: seq<Action>, p: nat)
    decreases |actions|
  {
    && actions != [] && Legal(sys, actions[0])
    && (Publishes(sys, actions[0], p) || PublishedIn(cfg, Apply(cfg, sys, actions[0]), actions[1..], p))
  }

  lemma PublishingWatches(cfg: Config, sys: System, a: Action, p: nat)
    requires Legal(sys, a) && Publishes(sys, a, p)
    ensures Watched(Apply(cfg, sys, a), p)
  {
    var after := Apply(cfg, sys, a);
    assert after.threads[a.i] == Finalizer;
  }

  lemma {:induction false} PublishedIsWatched(cfg: Config, sys: System, actions: seq<Action>, end: System, p: nat)
    requires AllPoint(sys) && Run(cfg, sys, actions, end) && PublishedIn(cfg, sys, actions, p)
    ensures Watched(end, p)
    decreases |actions|
  {
    var next := Apply(cfg, sys, actions[0]);
    StepPoints(cfg, sys, actions[0]);
    if Publishes(sys, actions[0], p) {
      PublishingWatches(cfg, sys, actions[0], p);
      RunStaysWatched(cfg, next, actions[1..], end, p);
    } else {
      PublishedIsWatched(cfg, next, actions[1..], end, p);
    }
  }

  /** The current proposal is finalized once the finalizers are through, if its publication
      succeeded: its timer is one of them. */
  lemma PublishedProposalIsFinalized(cfg: Config, time: int, actions: seq<Action>, end: System, p: nat)
    requires Run(cfg, Start(time), actions, end) && end.shared.current == Some(p) && Settled(end, p)
    requires PublishedIn(cfg, Start(time), actions, p)
    ensures p < |end.shared.pendings| && end.shared.pendings[p].finalized
  {
    PublishedIsWatched(cfg, Start(time), actions, end, p);
  }

  // ---------- a proposal that nobody is left to finalize ----------

  ghost predicate AllIdle(sys: System) {
    forall t :: t in sys.threads ==> t.Idle?
  }

  /** A proposal whose publication failed: it is current and open, no timer was started for it,
      and all threads are through. */
  lemma UnpublishedProposal(cfg: Config, time: int) returns (sys: System)
    ensures Reachable(cfg, sys) && AllIdle(sys)
    ensures |sys.shared.pendings| == 1 && sys.shared.current == Some(0) && !sys.shared.pendings[0].finalized
    ensures !Abandoned(sys, 0)
  {
    var step := Step(0, AnyChoice().(published := false));
    var proposing := Apply(cfg, Start(time), Propose);
    sys := Apply(cfg, proposing, step);
    OneStep(cfg, Start(time), Propose);
    OneStep(cfg, proposing, step);
    RunConcat(cfg, Start(time), [Propose], proposing, [step], sys);
  }

  /** Short of another vote or another proposal nothing happens any more. */
  lemma {:induction false} IdleForever(cfg: Config, sys: System, actions: seq<Action>, end: System)
    requires AllIdle(sys) && Run(cfg, sys, actions, end) && forall a :: a in actions ==> a.Step?
    ensures end == sys
    decreases |actions|
  {
    if actions != [] {
      var i := actions[0].i;
      assert sys.threads[i] in sys.threads;
      assert sys.threads[i := Idle] == sys.threads;
      IdleForever(cfg, sys, actions[1..], end);
    }
  }
}
