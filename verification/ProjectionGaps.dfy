/** Two concrete histories in which a projection ends up stale, showing that the provisos
    of `Projections.ReplayIsExact` are needed. */
module ProjectionGaps {
  import opened Events
  import opened Sorting
  import opened LedgerSpec
  import opened LedgerInvariants
  import opened Forgetting
  import opened Projections

  function Visit(): SyncEvent {
    SyncEvent("a", 1, "", Seen("ann", "bob", "mesh"))
  }

  function StrangerRestart(): SyncEvent {
    SyncEvent("r", 2, "", Observation(ObservationPayload("eve", "bob", Restart, 3, false, 1, 1, 0, NoState)))
  }

  function LatePing(): SyncEvent {
    SyncEvent("g", 3, "", Ping("ann", "bob", RoundTrip(true, "1.0")))
  }

  function Friends(): KeyRing {
    Checker({"ann", "bob"})
  }

  function Before(): Ledger {
    Ledger([Visit(), StrangerRestart()], {"a", "r"}, 0)
  }

  function AfterQuietPrune(): Ledger {
    Ledger([StrangerRestart(), LatePing(), Visit()], {"a", "r", "g"}, 0)
  }

  lemma BeforeIsSound()
    ensures Sound(Before())
  {
    SmallLedgerIsCapped(Before().events);
  }

  lemma QuietOrder()
    ensures Sorted(AfterQuietPrune().events, PruneOrder(Friends()))
  {
  }

  lemma QuietPrune()
    ensures Pruned(Appended(Before(), LatePing()), 2, Friends(), AfterQuietPrune())
  {
    var added, order := Appended(Before(), LatePing()), AfterQuietPrune().events;
    QuietOrder();
    assert added.events == [Visit(), StrangerRestart(), LatePing()];
    assert added.ids == {"a", "r", "g"};
    assert PruneLength(order, 2, 0);
    assert PruneOutcome(added, 2, Friends(), order, 0, AfterQuietPrune());
  }

  lemma QuietPruneStep()
    ensures Step(Before(), 2, AddOp(LatePing(), Friends()), AfterQuietPrune())
  {
    var ledger, e, ledger' := Before(), LatePing(), AfterQuietPrune();
    CountWithinLength(ledger.events, PingsTo("bob"));
    QuietPrune();
    assert PlainAddVia(ledger, 2, Friends(), e, ledger, false, ledger', true);
    assert Add(ledger, 2, Friends(), e, ledger', true);
  }

  lemma RunAfterQuietPrune(p: Replay)
    requires p == Replay(Before().events, 2, 0)
    ensures RanComplete(AfterQuietPrune(), p, Replay(Before().events + [Visit()], 3, 0))
  {
    assert AfterQuietPrune().events[2..] == [Visit()] == [Visit()][..1];
    assert RanTo(AfterQuietPrune(), p, p, [Visit()], 1, Replay(Before().events + [Visit()], 3, 0));
  }

  /** A prune that removes nothing still reorders the events, and does not bump the version.
      A projection that was up to date then handles an old event again and never sees the
      new one. */
  lemma QuietPruneMakesStale() returns (p: Replay, p': Replay)
    ensures Sound(Before()) && UpToDate(Before(), p)
    ensures Step(Before(), 2, AddOp(LatePing(), Friends()), AfterQuietPrune())
    ensures RanComplete(AfterQuietPrune(), p, p')
    ensures LatePing() in AfterQuietPrune().events && LatePing() !in p'.processed
    ensures p'.position == |AfterQuietPrune().events|
  {
    p := Replay(Before().events, 2, 0);
    p' := Replay(Before().events + [Visit()], 3, 0);
    BeforeIsSound();
    QuietPruneStep();
    RunAfterQuietPrune(p);
  }

  function AfterRemoval(): Ledger {
    Ledger([StrangerRestart()], {"r"}, 1)
  }

  lemma RemovalStep()
    ensures RemovedFor(Before(), "ann", AfterRemoval())
  {
    var s := Before().events;
    assert s[..1] == [Visit()] && s[..0] == [];
    assert Matching(s[..1], NotInvolving("ann")) == [];
    assert Matching(s, NotInvolving("ann")) == [StrangerRestart()];
    assert IdsOf([StrangerRestart()]) == {"r"};
  }

  /** A first run that was cut short has recorded no version, so it cannot notice that the
      events it had handled have since been removed: it skips a held event for good. */
  lemma CutFirstRunMakesStale() returns (p: Replay, p': Replay)
    ensures Sound(Before()) && Ran(Before(), FreshReplay, 1, p)
    ensures Step(Before(), 0, RemoveOp("ann"), AfterRemoval())
    ensures RanComplete(AfterRemoval(), p, p') && p'.lastVersion == AfterRemoval().version
    ensures StrangerRestart() in AfterRemoval().events && StrangerRestart() !in p'.processed
  {
    p := Replay([Visit()], 1, -1);
    p' := Replay([Visit()], 1, 1);
    BeforeIsSound();
    RemovalStep();
    CutRun();
    RunAfterRemoval();
  }

  lemma RunAfterRemoval()
    ensures RanComplete(AfterRemoval(), Replay([Visit()], 1, -1), Replay([Visit()], 1, 1))
  {
    var p := Replay([Visit()], 1, -1);
    assert [Visit()] + [] == [Visit()];
    assert RanTo(AfterRemoval(), p, p, [], 0, Replay([Visit()], 1, 1));
  }

  lemma CutRun()
    ensures Ran(Before(), FreshReplay, 1, Replay([Visit()], 1, -1))
  {
    var todo := Before().events;
    assert todo[0..] == todo && [] + todo[..1] == [Visit()];
    assert RanTo(Before(), FreshReplay, FreshReplay, todo, 1, Replay([Visit()], 1, -1));
  }
}
