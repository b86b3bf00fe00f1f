/** What holds of whole world journeys. */
module Journeys {
  import opened Events
  import opened Sorting
  import opened World

  // ---------- runs ----------

  /** One nara handling the message: under its name, with its key and stamp, and what it saw. */
  datatype Visit = Visit(name: NaraName, key: string, stamp: string, around: Surroundings, next: NaraName)

  function After(j: Journey, v: Visit): Journey {
    Extended(j, v.name, v.key, v.around.now, v.stamp)
  }

  /** The visitor accepts the chain, signs, and sends the message on unless it is complete or
      stuck. */
  ghost predicate Handles(j: Journey, v: Visit) {
    && ChainVerifies(j, v.around.keys)
    && if v.name == j.originator then v.next == ""
       else Chosen(v.name, After(j, v), v.around.clout, v.around.online, v.next)
  }

  /** From `j` on its way to `at`, the visits lead to `end` on its way to `next` ("": nowhere). */
  ghost predicate Travels(j: Journey, at: NaraName, visits: seq<Visit>, end: Journey, next: NaraName)
    decreases |visits|
  {
    if visits == [] then end == j && next == at
    else at != "" && visits[0].name == at && Handles(j, visits[0]) && Travels(After(j, visits[0]), visits[0].next, visits[1..], end, next)
  }

  ghost predicate Starts(j: Journey, clout: map<NaraName, int>, online: seq<NaraName>, first: NaraName) {
    j.hops == [] && Chosen(j.originator, j, clout, online, first)
  }

  // ---------- no nara is visited twice ----------

  /** Nobody signed twice, the originator at most at the end, and the next one has not signed. */
  ghost predicate OnCourse(j: Journey, at: NaraName) {
    && Distinct(Names(j.hops))
    && (forall i :: 0 <= i < |j.hops| - 1 ==> j.hops[i].nara != j.originator)
    && (at != "" ==> at !in Names(j.hops) && !Complete(j))
  }

  lemma NamesExtended(j: Journey, v: Visit)
    ensures Names(After(j, v).hops) == Names(j.hops) + [v.name]
  {
  }

  lemma OriginatorNotYet(j: Journey, at: NaraName)
    requires OnCourse(j, at) && !Complete(j)
    ensures j.originator !in Names(j.hops)
  {
  }

  lemma VisitStaysOnCourse(j: Journey, v: Visit)
    requires OnCourse(j, v.name) && v.name != "" && Handles(j, v)
    ensures OnCourse(After(j, v), v.next)
  {
    NamesExtended(j, v);
    OriginatorNotYet(j, v.name);
    assert forall i :: 0 <= i < |j.hops| ==> j.hops[i].nara == Names(j.hops)[i];
  }

  lemma {:induction false} RunStaysOnCourse(j: Journey, at: NaraName, visits: seq<Visit>, end: Journey, next: NaraName)
    requires OnCourse(j, at) && Travels(j, at, visits, end, next)
    ensures OnCourse(end, next)
    decreases |visits|
  {
    if visits != [] {
      VisitStaysOnCourse(j, visits[0]);
      RunStaysOnCourse(After(j, visits[0]), visits[0].next, visits[1..], end, next);
    }
  }

  /** In every run, whoever is online or known when, and whatever the clout: the signers are
      pairwise different and the originator signs last or not at all. */
  lemma NobodyIsVisitedTwice(j: Journey, clout: map<NaraName, int>, online: seq<NaraName>, first: NaraName,
                             visits: seq<Visit>, end: Journey, next: NaraName)
    requires Starts(j, clout, online, first) && Travels(j, first, visits, end, next)
    ensures Distinct(Names(end.hops))
    ensures forall i :: 0 <= i < |end.hops| - 1 ==> end.hops[i].nara != end.originator
    ensures next != "" ==> next !in Names(end.hops)
  {
    RunStaysOnCourse(j, first, visits, end, next);
  }

  // ---------- everybody is visited ----------

  /** All naras see the same naras online and know all their keys. */
  ghost predicate InWorld(world: set<NaraName>, keys: map<NaraName, string>, v: Visit) {
    && (forall nara :: nara in v.around.online <==> nara in world)
    && (forall nara :: nara in world ==> nara in keys && nara in v.around.keys && v.around.keys[nara] == keys[nara])
    && (v.name in world ==> v.key == keys[v.name])
  }

  function Signed(j: Journey): set<NaraName> {
    set nara | nara in Names(j.hops)
  }

  /** Home is next exactly if everybody else has signed. */
  ghost predicate Touring(world: set<NaraName>, keys: map<NaraName, string>, j: Journey, at: NaraName) {
    && OnCourse(j, at) && j.originator in world && Signed(j) <= world
    && ChainVerifies(j, keys)
    && (Complete(j) ==> at == "" && Signed(j) == world)
    && (!Complete(j) ==> at in world && at != "" && (at == j.originator <==> world - {j.originator} <= Signed(j)))
  }

  lemma HopStillVerifies(j: Journey, v: Visit, keys: map<NaraName, string>, i: nat)
    requires i < |j.hops| && HopVerifies(j, keys, i)
    ensures HopVerifies(After(j, v), keys, i)
  {
  }

  /** A nara that signs with its own key extends a chain that verifies. */
  lemma ExtendedChainVerifies(j: Journey, v: Visit, keys: map<NaraName, string>)
    requires ChainVerifies(j, keys) && v.name in keys && v.key == keys[v.name]
    ensures ChainVerifies(After(j, v), keys)
  {
    var after := After(j, v);
    forall i | 0 <= i < |after.hops| ensures HopVerifies(after, keys, i) {
      if i < |j.hops| {
        HopStillVerifies(j, v, keys, i);
      } else {
        assert after.hops[..i] == j.hops;
      }
    }
  }

  lemma SignedExtended(j: Journey, v: Visit)
    ensures Signed(After(j, v)) == Signed(j) + {v.name}
  {
    NamesExtended(j, v);
  }

  lemma NextInWorld(world: set<NaraName>, keys: map<NaraName, string>, j: Journey, v: Visit)
    requires Touring(world, keys, j, v.name) && InWorld(world, keys, v) && Handles(j, v) && "" !in world
    requires v.name != "" && v.name != j.originator
    ensures v.next in world && (v.next == j.originator <==> world - {j.originator} <= Signed(After(j, v)))
  {
    var after := After(j, v);
    SignedExtended(j, v);
    if !(world - {j.originator} <= Signed(after)) {
      var nara :| nara in world && nara != j.originator && nara !in Signed(after);
      assert nara in v.around.online && Candidate(v.name, after, nara);
    } else {
      forall nara | nara in v.around.online ensures !Candidate(v.name, after, nara) {
        assert nara in world - {j.originator} ==> nara in Signed(after);
      }
    }
  }

  lemma VisitStaysTouring(world: set<NaraName>, keys: map<NaraName, string>, j: Journey, v: Visit)
    requires Touring(world, keys, j, v.name) && InWorld(world, keys, v) && Handles(j, v) && "" !in world && v.name != ""
    ensures Touring(world, keys, After(j, v), v.next)
  {
    VisitStaysOnCourse(j, v);
    SignedExtended(j, v);
    ExtendedChainVerifies(j, v, keys);
    if v.name != j.originator {
      NextInWorld(world, keys, j, v);
    }
  }

  lemma {:induction false} RunStaysTouring(world: set<NaraName>, keys: map<NaraName, string>, j: Journey, at: NaraName,
                                           visits: seq<Visit>, end: Journey, next: NaraName)
    requires Touring(world, keys, j, at) && Travels(j, at, visits, end, next) && "" !in world
    requires forall v :: v in visits ==> InWorld(world, keys, v)
    ensures Touring(world, keys, end, next) && |end.hops| == |j.hops| + |visits| && end.originator == j.originator
    decreases |visits|
  {
    if visits != [] {
      VisitStaysTouring(world, keys, j, visits[0]);
      RunStaysTouring(world, keys, After(j, visits[0]), visits[0].next, visits[1..], end, next);
    }
  }

  lemma StartsTouring(world: set<NaraName>, keys: map<NaraName, string>, j: Journey, clout: map<NaraName, int>,
                      online: seq<NaraName>, first: NaraName)
    requires Starts(j, clout, online, first) && (forall nara :: nara in online <==> nara in world)
    requires j.originator in world && |world| >= 2 && "" !in world
    ensures Touring(world, keys, j, first)
  {
    if world <= {j.originator} {
      SubsetSize(world, {j.originator});
    }
    var other :| other in world && other != j.originator;
    assert other in online && Candidate(j.originator, j, other);
    assert other in world - {j.originator} && other !in Signed(j);
  }

  lemma SignersCount(j: Journey)
    requires Distinct(Names(j.hops))
    ensures |Signed(j)| == |j.hops|
  {
    DistinctCardinality(Names(j.hops));
  }

  /** With a fixed world of at least two naras, the originator among them, a journey is complete
      exactly when every nara has signed once: after as many hops as there are naras. Until then
      it is on its way to a nara of the world, for whom its chain verifies. */
  lemma JourneyVisitsEverybody(world: set<NaraName>, keys: map<NaraName, string>, j: Journey, clout: map<NaraName, int>,
                               online: seq<NaraName>, first: NaraName, visits: seq<Visit>, end: Journey, next: NaraName)
    requires Starts(j, clout, online, first) && Travels(j, first, visits, end, next)
    requires (forall nara :: nara in online <==> nara in world) && forall v :: v in visits ==> InWorld(world, keys, v)
    requires j.originator in world && |world| >= 2 && "" !in world
    ensures |end.hops| == |visits| <= |world|
    ensures Complete(end) <==> |visits| == |world|
    ensures Complete(end) ==> Distinct(Names(end.hops)) && Signed(end) == world && next == ""
    ensures !Complete(end) ==> next in world && next !in Signed(end)
    ensures ChainVerifies(end, keys)
  {
    StartsTouring(world, keys, j, clout, online, first);
    RunStaysTouring(world, keys, j, first, visits, end, next);
    SignersCount(end);
    SubsetSize(Signed(end), world);
    if !Complete(end) {
      OriginatorNotYet(end, next);
      assert end.originator !in Signed(end);
    }
  }

  // ---------- a journey that is not complete goes on ----------

  lemma {:induction false} Highest(names: seq<NaraName>, clout: map<NaraName, int>) returns (best: NaraName)
    requires names != []
    ensures best in names && forall nara :: nara in names ==> Score(clout, nara) <= Score(clout, best)
  {
    var front, last := names[..|names| - 1], names[|names| - 1];
    best := last;
    if front != [] {
      var other := Highest(front, clout);
      best := if Score(clout, other) > Score(clout, last) then other else last;
    }
    assert names == front + [last];
  }

  lemma SomewhereToGo(current: NaraName, j: Journey, clout: map<NaraName, int>, online: seq<NaraName>)
      returns (next: NaraName)
    ensures Chosen(current, j, clout, online, next)
  {
    CandidatesAre(current, j, online);
    var candidates := Candidates(current, j, online);
    if candidates == [] {
      next := if current != j.originator && j.originator in online then j.originator else "";
    } else {
      next := Highest(candidates, clout);
      assert candidates[0] in candidates;
    }
  }

  lemma {:induction false} OneMore(j: Journey, at: NaraName, visits: seq<Visit>, middle: Journey, v: Visit)
    requires Travels(j, at, visits, middle, v.name) && v.name != "" && Handles(middle, v)
    ensures Travels(j, at, visits + [v], After(middle, v), v.next)
    decreases |visits|
  {
    if visits == [] {
      assert [v][1..] == [];
    } else {
      assert (visits + [v])[1..] == visits[1..] + [v];
      OneMore(After(j, visits[0]), visits[0].next, visits[1..], middle, v);
    }
  }

  /** Whatever the nara it reaches sees of clout and clock, it can take the journey one step
      further. So a journey ends complete. */
  lemma JourneyGoesOn(world: set<NaraName>, keys: map<NaraName, string>, j: Journey, clout: map<NaraName, int>,
                      online: seq<NaraName>, first: NaraName, visits: seq<Visit>, end: Journey, next: NaraName,
                      stamp: string, around: Surroundings) returns (v: Visit)
    requires Starts(j, clout, online, first) && Travels(j, first, visits, end, next) && |visits| < |world|
    requires (forall nara :: nara in online <==> nara in world) && forall v :: v in visits ==> InWorld(world, keys, v)
    requires j.originator in world && |world| >= 2 && "" !in world
    requires (forall nara :: nara in around.online <==> nara in world) && around.keys == keys && world <= keys.Keys
    ensures InWorld(world, keys, v) && v.around == around
    ensures Travels(j, first, visits + [v], After(end, v), v.next)
  {
    JourneyVisitsEverybody(world, keys, j, clout, online, first, visits, end, next);
    v := Visit(next, keys[next], stamp, around, "");
    if next != end.originator {
      var onward := SomewhereToGo(next, After(end, v), around.clout, around.online);
      v := v.(next := onward);
    }
    OneMore(j, first, visits, end, v);
  }

  // ---------- rewards ----------

  function Total(names: seq<NaraName>, rewards: map<NaraName, int>): int
    requires forall nara :: nara in names ==> nara in rewards
  {
    if names == [] then 0 else Total(names[..|names| - 1], rewards) + rewards[names[|names| - 1]]
  }

  lemma {:induction false} TotalIs(names: seq<NaraName>, rewards: map<NaraName, int>, originator: NaraName)
    requires Distinct(names) && forall nara :: nara in names ==> nara in rewards
    requires forall nara :: nara in rewards ==> rewards[nara] == if nara == originator then 10 else 2
    ensures Total(names, rewards) == 2 * |names| + if originator in names then 8 else 0
  {
    if names != [] {
      var front, last := names[..|names| - 1], names[|names| - 1];
      TotalIs(front, rewards, originator);
      assert names == front + [last];
      assert last !in front;
    }
  }

  /** A completed journey through a world of n naras pays 10 + 2 (n - 1), however its rewards are
      enumerated; an unfinished one pays nothing. */
  lemma RewardsTotal(world: set<NaraName>, j: Journey, names: seq<NaraName>)
    requires j.originator in world && (Complete(j) ==> Signed(j) == world)
    requires Distinct(names) && forall nara :: nara in names <==> nara in Rewards(j)
    ensures Total(names, Rewards(j)) == if Complete(j) then 10 + 2 * (|world| - 1) else 0
  {
    if Complete(j) {
      assert Rewards(j).Keys == world;
      assert (set nara | nara in names) == world;
      DistinctCardinality(names);
      TotalIs(names, Rewards(j), j.originator);
    } else {
      assert (set nara | nara in names) == {};
      DistinctCardinality(names);
    }
  }

  // ---------- what a chain proves ----------

  /** A signature pins everything before it: two verifying chains that share one, wherever it
      stands, are the same journey with the same hops up to there, and the same signer. So no hop can
      be left out, altered or moved while a later one is kept. */
  lemma SignaturePinsPast(a: Journey, b: Journey, keysA: map<NaraName, string>, keysB: map<NaraName, string>, i: nat,
                          k: nat)
    requires ChainVerifies(a, keysA) && ChainVerifies(b, keysB) && i < |a.hops| && k < |b.hops|
    requires a.hops[i].signature == b.hops[k].signature
    ensures i == k && a.id == b.id && a.message == b.message && a.originator == b.originator
    ensures a.hops[..i] == b.hops[..i] && a.hops[i].nara == b.hops[k].nara
  {
    assert HopVerifies(a, keysA, i) && HopVerifies(b, keysB, k);
    assert |a.hops[..i]| == i && |b.hops[..k]| == k;
  }

  /** A hop can be replaced by another one exactly at the end of the chain: anywhere else, whatever
      the new hop says and whoever signs it, the next signature fails. */
  lemma ReplacedHopIff(j: Journey, keys: map<NaraName, string>, i: nat, h: WorldHop)
    requires ChainVerifies(j, keys) && i < |j.hops| && h != j.hops[i]
    ensures var changed := j.(hops := j.hops[i := h]);
            ChainVerifies(changed, keys) <==> i == |j.hops| - 1 && HopVerifies(changed, keys, i)
    ensures h.nara == j.hops[i].nara && h.signature == j.hops[i].signature ==>
              (ChainVerifies(j.(hops := j.hops[i := h]), keys) <==> i == |j.hops| - 1)
  {
    var changed := j.(hops := j.hops[i := h]);
    assert changed.hops[..i] == j.hops[..i];
    assert HopVerifies(j, keys, i);
    if i == |j.hops| - 1 {
      forall k | 0 <= k < i ensures HopVerifies(changed, keys, k) {
        assert HopVerifies(j, keys, k) && changed.hops[..k] == j.hops[..k];
      }
    } else {
      assert HopVerifies(j, keys, i + 1);
      assert changed.hops[..i + 1][i] != j.hops[..i + 1][i];
      assert !HopVerifies(changed, keys, i + 1);
    }
  }

  /** The last hop's timestamp and stamp are signed by nobody yet: any others verify as well. */
  lemma LastStampIsUnsigned(j: Journey, keys: map<NaraName, string>, timestamp: int, stamp: string)
    requires j.hops != []
    ensures var n := |j.hops| - 1;
            ChainVerifies(j, keys) <==> ChainVerifies(j.(hops := j.hops[n := j.hops[n].(timestamp := timestamp, stamp := stamp)]), keys)
  {
    var n := |j.hops| - 1;
    var k := j.(hops := j.hops[n := j.hops[n].(timestamp := timestamp, stamp := stamp)]);
    forall i | 0 <= i < |j.hops| ensures HopVerifies(j, keys, i) <==> HopVerifies(k, keys, i) {
      assert k.hops[..i] == j.hops[..i];
    }
  }

  /** The last hops can be cut off: what is left verifies. */
  lemma TailCanBeCut(j: Journey, keys: map<NaraName, string>, n: nat)
    requires ChainVerifies(j, keys) && n <= |j.hops|
    ensures ChainVerifies(j.(hops := j.hops[..n]), keys)
  {
    var k := j.(hops := j.hops[..n]);
    forall i | 0 <= i < n ensures HopVerifies(k, keys, i) {
      assert HopVerifies(j, keys, i) && k.hops[..i] == j.hops[..i];
    }
  }
}
