/** World journeys: a message that visits every nara online, signed at each hop, and returns. */
module World {
  import opened Events
  import opened Sorting

  /** Hashing and signing are ideal: a signature contains the data it was made over. The other
      signatures are texts that are no valid encoding, or that decode to something else. */
  datatype HopSignature = HopSigned(key: string, data: HopData) | Undecodable(text: string) | Forged(text: string)

  /** What a hop signs: everything before it, but not its own timestamp and stamp. */
  datatype HopData = HopData(id: string, message: string, originator: NaraName, previous: seq<WorldHop>, current: NaraName)

  datatype WorldHop = WorldHop(nara: NaraName, timestamp: int, signature: HopSignature, stamp: string)

  datatype Journey = Journey(id: string, message: string, originator: NaraName, hops: seq<WorldHop>)

  datatype ChainError =
    | NoError
    | UnknownKey(name: NaraName)
    | BadEncoding(name: NaraName)
    | BadSignature(name: NaraName, hop: nat)

  // ---------- specifications ----------

  function DataForHop(j: Journey, i: nat): HopData
    requires i < |j.hops|
  {
    HopData(j.id, j.message, j.originator, j.hops[..i], j.hops[i].nara)
  }

  function HopError(j: Journey, keys: map<NaraName, string>, i: nat): ChainError
    requires i < |j.hops|
  {
    var hop := j.hops[i];
    if hop.nara !in keys then UnknownKey(hop.nara)
    else if hop.signature.Undecodable? then BadEncoding(hop.nara)
    else if hop.signature != HopSigned(keys[hop.nara], DataForHop(j, i)) then BadSignature(hop.nara, i)
    else NoError
  }

  /** Every hop is signed with the key of the nara it names, over everything before it. */
  ghost predicate ChainVerifies(j: Journey, keys: map<NaraName, string>) {
    forall i :: 0 <= i < |j.hops| ==> HopVerifies(j, keys, i)
  }

  predicate HopVerifies(j: Journey, keys: map<NaraName, string>, i: nat)
    requires i < |j.hops|
  {
    j.hops[i].nara in keys && j.hops[i].signature == HopSigned(keys[j.hops[i].nara], DataForHop(j, i))
  }

  ghost predicate FirstError(j: Journey, keys: map<NaraName, string>, error: ChainError) {
    exists i :: 0 <= i < |j.hops| && FirstErrorAt(j, keys, error, i)
  }

  ghost predicate FirstErrorAt(j: Journey, keys: map<NaraName, string>, error: ChainError, i: nat)
    requires i < |j.hops|
  {
    !HopVerifies(j, keys, i) && error == HopError(j, keys, i) && forall k :: 0 <= k < i ==> HopVerifies(j, keys, k)
  }

  function Names(hops: seq<WorldHop>): seq<NaraName> {
    seq(|hops|, i requires 0 <= i < |hops| => hops[i].nara)
  }

  predicate Complete(j: Journey) {
    j.hops != [] && j.hops[|j.hops| - 1].nara == j.originator
  }

  function Extended(j: Journey, nara: NaraName, key: string, now: int, stamp: string): Journey {
    var signature := HopSigned(key, HopData(j.id, j.message, j.originator, j.hops, nara));
    j.(hops := j.hops + [WorldHop(nara, now, signature, stamp)])
  }

  /** May `nara` be visited next? */
  predicate Candidate(current: NaraName, j: Journey, nara: NaraName) {
    nara != current && nara != j.originator && nara !in Names(j.hops)
  }

  function Candidates(current: NaraName, j: Journey, online: seq<NaraName>): seq<NaraName> {
    if online == [] then []
    else
      var front, last := Candidates(current, j, online[..|online| - 1]), online[|online| - 1];
      if Candidate(current, j, last) then front + [last] else front
  }

  /** Clout scores, floats in the source, matter only by their order. No score means zero. */
  function Score(clout: map<NaraName, int>, nara: NaraName): int {
    if nara in clout then clout[nara] else 0
  }

  /** An unvisited nara of highest clout; if there is none, home; or nowhere (""). */
  ghost predicate Chosen(current: NaraName, j: Journey, clout: map<NaraName, int>, online: seq<NaraName>,
                         next: NaraName) {
    if exists nara :: nara in online && Candidate(current, j, nara) then
      && next in online && Candidate(current, j, next)
      && forall nara :: nara in online && Candidate(current, j, nara) ==> Score(clout, nara) <= Score(clout, next)
    else next == if current != j.originator && j.originator in online then j.originator else ""
  }

  function Travellers(j: Journey): set<NaraName> {
    {j.originator} + set nara | nara in Names(j.hops)
  }

  function Rewards(j: Journey): map<NaraName, int> {
    if Complete(j) then map nara | nara in Travellers(j) :: if nara == j.originator then 10 else 2 else map[]
  }

  // ---------- the message ----------

  class WorldMessage {
    const id: string
    const originalMessage: string
    const originator: NaraName
    var hops: seq<WorldHop>

    function Value(): Journey
      reads this
    {
      Journey(id, originalMessage, originator, hops)
    }

    /** The ID, a hash of text and clock in the source, is a parameter. */
    constructor (id: string, message: string, originator: NaraName)
      ensures Value() == Journey(id, message, originator, [])
    {
      this.id, originalMessage, this.originator, hops := id, message, originator, [];
    }

    method AddHop(nara: NaraName, key: string, now: int, stamp: string)
      modifies this`hops
      ensures Value() == Extended(old(Value()), nara, key, now, stamp)
      ensures hops == old(hops) + [WorldHop(nara, now, HopSigned(key, HopData(id, originalMessage, originator, old(hops), nara)), stamp)]
    {
      var signature := HopSigned(key, HopData(id, originalMessage, originator, hops, nara));
      hops := hops + [WorldHop(nara, now, signature, stamp)];
    }

    lemma NamesOfHops()
      ensures forall nara :: nara in Names(hops) <==> exists h :: h in hops && h.nara == nara
    {
      forall nara ensures nara in Names(hops) <==> exists h :: h in hops && h.nara == nara {
        if nara in Names(hops) {
          var i :| 0 <= i < |hops| && Names(hops)[i] == nara;
          assert hops[i] in hops;
        }
        if h :| h in hops && h.nara == nara {
          var i :| 0 <= i < |hops| && hops[i] == h;
          assert Names(hops)[i] == nara;
        }
      }
    }

    method HasVisited(nara: NaraName) returns (visited: bool)
      ensures visited <==> nara in Names(hops)
      ensures visited <==> exists h :: h in hops && h.nara == nara
    {
      NamesOfHops();
      for i := 0 to |hops|
        invariant nara !in Names(hops[..i])
      {
        if hops[i].nara == nara {
          assert Names(hops)[i] == nara;
          return true;
        }
        assert Names(hops[..i + 1]) == Names(hops[..i]) + [hops[i].nara];
      }
      assert hops[..|hops|] == hops;
      return false;
    }

    method IsComplete() returns (complete: bool)
      ensures complete <==> Complete(Value())
    {
      if |hops| == 0 {
        return false;
      }
      complete := hops[|hops| - 1].nara == originator;
    }

    lemma ChainIs(keys: map<NaraName, string>)
      ensures ChainVerifies(Value(), keys) <==>
              forall i :: 0 <= i < |hops| ==>
                && hops[i].nara in keys
                && hops[i].signature == HopSigned(keys[hops[i].nara], HopData(id, originalMessage, originator, hops[..i], hops[i].nara))
    {
      forall i | 0 <= i < |hops|
        ensures HopVerifies(Value(), keys, i) <==>
                hops[i].nara in keys
                && hops[i].signature == HopSigned(keys[hops[i].nara], HopData(id, originalMessage, originator, hops[..i], hops[i].nara))
      {
      }
    }

    method VerifyChain(keys: map<NaraName, string>) returns (error: ChainError)
      ensures error.NoError? <==> ChainVerifies(Value(), keys)
      ensures error.NoError? <==>
              forall i :: 0 <= i < |hops| ==>
                && hops[i].nara in keys
                && hops[i].signature == HopSigned(keys[hops[i].nara], HopData(id, originalMessage, originator, hops[..i], hops[i].nara))
      ensures !error.NoError? ==> FirstError(Value(), keys, error)
    {
      for i := 0 to |hops|
        invariant forall k :: 0 <= k < i ==> HopVerifies(Value(), keys, k)
      {
        ChainIs(keys);
        var hop := hops[i];
        error := NoError;
        if hop.nara !in keys {
          error := UnknownKey(hop.nara);
        } else if hop.signature.Undecodable? {
          error := BadEncoding(hop.nara);
        } else {
          var dataToVerify := HopData(id, originalMessage, originator, hops[..i], hop.nara);
          if hop.signature != HopSigned(keys[hop.nara], dataToVerify) {
            error := BadSignature(hop.nara, i);
          }
        }
        if !error.NoError? {
          assert FirstErrorAt(Value(), keys, error, i);
          return;
        }
      }
      ChainIs(keys);
      error := NoError;
    }

    /** Could `nara` be next after `current`? */
    ghost predicate Unvisited(current: NaraName, online: seq<NaraName>, nara: NaraName)
      reads this
    {
      nara in online && nara != current && nara != originator && forall h :: h in hops ==> h.nara != nara
    }

    lemma UnvisitedIsCandidate(current: NaraName, online: seq<NaraName>)
      ensures forall nara :: Unvisited(current, online, nara) <==> nara in online && Candidate(current, Value(), nara)
    {
      NamesOfHops();
    }

    lemma ChosenIs(current: NaraName, clout: map<NaraName, int>, online: seq<NaraName>, next: NaraName)
      requires Chosen(current, Value(), clout, online, next)
      ensures (exists nara :: Unvisited(current, online, nara)) ==>
                && Unvisited(current, online, next)
                && forall nara :: Unvisited(current, online, nara) ==>
                     (if nara in clout then clout[nara] else 0) <= (if next in clout then clout[next] else 0)
      ensures !(exists nara :: Unvisited(current, online, nara)) ==>
                next == if current != originator && originator in online then originator else ""
    {
      UnvisitedIsCandidate(current, online);
    }

    method ChooseNextNara(current: NaraName, clout: map<NaraName, int>, online: seq<NaraName>) returns (next: NaraName)
      ensures Chosen(current, Value(), clout, online, next)
      ensures (exists nara :: Unvisited(current, online, nara)) ==>
                && Unvisited(current, online, next)
                && forall nara :: Unvisited(current, online, nara) ==>
                     (if nara in clout then clout[nara] else 0) <= (if next in clout then clout[next] else 0)
      ensures !(exists nara :: Unvisited(current, online, nara)) ==>
                next == if current != originator && originator in online then originator else ""
    {
      var candidates := CollectCandidates(current, online);
      CandidatesAre(current, Value(), online);
      if |candidates| == 0 {
        next := if current != originator && originator in online then originator else "";
      } else {
        var sorted := SortSlice(candidates, ByClout(clout));
        SameElements(candidates, sorted);
        HighestFirst(sorted, clout);
        assert sorted[0] in candidates;
        next := sorted[0];
      }
      ChosenIs(current, clout, online, next);
    }

    method CollectCandidates(current: NaraName, online: seq<NaraName>) returns (candidates: seq<NaraName>)
      ensures candidates == Candidates(current, Value(), online)
    {
      candidates := [];
      for i := 0 to |online|
        invariant candidates == Candidates(current, Value(), online[..i])
      {
        assert online[..i + 1][..i] == online[..i];
        var nara := online[i];
        if nara == current {
          continue;
        }
        if nara == originator {
          continue;
        }
        var visited := HasVisited(nara);
        if visited {
          continue;
        }
        candidates := candidates + [nara];
      }
      assert online[..|online|] == online;
    }

    method CalculateWorldRewards() returns (rewards: map<NaraName, int>)
      ensures rewards == Rewards(Value())
      ensures hops == [] || hops[|hops| - 1].nara != originator ==> rewards == map[]
      ensures hops != [] && hops[|hops| - 1].nara == originator ==>
                && originator in rewards && rewards[originator] == 10
                && (forall h :: h in hops && h.nara != originator ==> h.nara in rewards && rewards[h.nara] == 2)
                && (forall nara :: nara in rewards ==> exists h :: h in hops && h.nara == nara)
    {
      NamesOfHops();
      rewards := map[];
      var complete := IsComplete();
      if !complete {
        return;
      }
      rewards := rewards[originator := 10];
      for i := 0 to |hops|
        invariant rewards.Keys == {originator} + set nara | nara in Names(hops[..i])
        invariant forall nara :: nara in rewards ==> rewards[nara] == if nara == originator then 10 else 2
      {
        assert Names(hops[..i + 1]) == Names(hops[..i]) + [hops[i].nara];
        if hops[i].nara != originator {
          rewards := rewards[hops[i].nara := 2];
        }
      }
      assert hops[..|hops|] == hops;
    }
  }

  function ByClout(clout: map<NaraName, int>): NaraName -> Rank {
    (nara: NaraName) => ByNumber(-Score(clout, nara))
  }

  lemma HighestFirst(sorted: seq<NaraName>, clout: map<NaraName, int>)
    requires Sorted(sorted, ByClout(clout)) && sorted != []
    ensures forall nara :: nara in sorted ==> Score(clout, nara) <= Score(clout, sorted[0])
  {
  }

  lemma {:induction false} CandidatesAre(current: NaraName, j: Journey, online: seq<NaraName>)
    ensures forall nara :: nara in Candidates(current, j, online) <==> nara in online && Candidate(current, j, nara)
  {
    if online != [] {
      CandidatesAre(current, j, online[..|online| - 1]);
      assert online == online[..|online| - 1] + [online[|online| - 1]];
    }
  }

  // ---------- a nara that takes part ----------

  /** What a nara knows and sees when the message arrives. */
  datatype Surroundings = Surroundings(
    keys: map<NaraName, string>,
    clout: map<NaraName, int>,
    online: seq<NaraName>,
    reachable: set<NaraName>,
    now: int)

  datatype Handled =
    | Rejected(error: ChainError)
    | Completed
    | Stuck
    | SendFailed(next: NaraName)
    | Forwarded(next: NaraName)

  class WorldJourneyHandler {
    const name: NaraName
    const key: string
    const stamps: seq<string>

    constructor (name: NaraName, key: string, stamps: seq<string>)
      ensures this.name == name && this.key == key && this.stamps == stamps
    {
      this.name, this.key, this.stamps := name, key, stamps;
    }

    method Send(next: NaraName, around: Surroundings) returns (r: Handled)
      ensures r == if next == "" then Stuck else if next in around.reachable then Forwarded(next) else SendFailed(next)
    {
      if next == "" {
        return Stuck;
      }
      r := if next in around.reachable then Forwarded(next) else SendFailed(next);
    }

    method StartJourney(id: string, message: string, around: Surroundings) returns (wm: WorldMessage, r: Handled)
      ensures fresh(wm) && wm.Value() == Journey(id, message, name, [])
      ensures exists next :: Chosen(name, wm.Value(), around.clout, around.online, next)
                             && r == SendResult(next, around)
    {
      wm := new WorldMessage(id, message, name);
      var next := wm.ChooseNextNara(name, around.clout, around.online);
      r := Send(next, around);
    }

    /** A message whose chain does not verify is left as it is. Otherwise this nara signs it; it
        completes exactly at its originator, and is forwarded by everyone else. */
    method HandleIncoming(wm: WorldMessage, around: Surroundings) returns (r: Handled)
      requires |stamps| > 0
      modifies wm`hops
      ensures r.Rejected? <==> !ChainVerifies(old(wm.Value()), around.keys)
      ensures r.Rejected? ==> wm.Value() == old(wm.Value()) && FirstError(wm.Value(), around.keys, r.error)
      ensures !r.Rejected? ==>
                wm.Value() == Extended(old(wm.Value()), name, key, around.now, stamps[|old(wm.hops)| % |stamps|])
      ensures r.Completed? <==> !r.Rejected? && name == wm.originator
      ensures !r.Rejected? && !r.Completed? ==>
                exists next :: Chosen(name, wm.Value(), around.clout, around.online, next) && r == SendResult(next, around)
    {
      var error := wm.VerifyChain(around.keys);
      if !error.NoError? {
        return Rejected(error);
      }
      wm.AddHop(name, key, around.now, stamps[|wm.hops| % |stamps|]);
      var complete := wm.IsComplete();
      if complete {
        return Completed;
      }
      var next := wm.ChooseNextNara(name, around.clout, around.online);
      r := Send(next, around);
    }
  }

  function SendResult(next: NaraName, around: Surroundings): Handled {
    if next == "" then Stuck else if next in around.reachable then Forwarded(next) else SendFailed(next)
  }
}
