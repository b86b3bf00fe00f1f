/** What the search for consensus finds, told without its groups, keys and sorting: which votes back
    the checkpoint, that no other values had more, and whose signatures are listed. */
module FoundCheckpoints {
  import opened Wrappers
  import opened Events
  import opened Sorting
  import opened Attestations
  import opened CheckpointConsensus

  /** How many votes sign these values and this last checkpoint. */
  function Signing(votes: seq<Vote>, o: NaraObservation, ref: string): nat {
    if votes == [] then 0
    else
      var last := votes[|votes| - 1].att;
      Signing(votes[..|votes| - 1], o, ref) + if last.observation == o && last.lastSeenCheckpointID == ref then 1 else 0
  }

  function Approving(votes: seq<Vote>): nat {
    if votes == [] then 0 else Approving(votes[..|votes| - 1]) + if votes[|votes| - 1].approved then 1 else 0
  }

  /** `backers` are exactly the votes that sign these values and this last checkpoint. */
  ghost predicate Signers(votes: seq<Vote>, backers: seq<Vote>, o: NaraObservation, ref: string) {
    forall v: Vote :: multiset(backers)[v]
                      == if v.att.observation == o && v.att.lastSeenCheckpointID == ref then multiset(votes)[v] else 0
  }

  /** `backers` are exactly the votes that approve. */
  ghost predicate Approvers(votes: seq<Vote>, backers: seq<Vote>) {
    forall v: Vote :: multiset(backers)[v] == if v.approved then multiset(votes)[v] else 0
  }

  lemma {:induction false} GroupIs(votes: seq<Vote>, key: ValueKey)
    ensures |Group(votes, key)| == Signing(votes, key.observation, key.lastSeenCheckpointID)
    ensures Signers(votes, Group(votes, key), key.observation, key.lastSeenCheckpointID)
  {
    if votes != [] {
      GroupIs(votes[..|votes| - 1], key);
      assert votes == votes[..|votes| - 1] + [votes[|votes| - 1]];
    }
  }

  lemma {:induction false} ApprovalsAre(votes: seq<Vote>)
    ensures |Approvals(votes)| == Approving(votes) && Approvers(votes, Approvals(votes))
  {
    if votes != [] {
      ApprovalsAre(votes[..|votes| - 1]);
      assert votes == votes[..|votes| - 1] + [votes[|votes| - 1]];
    }
  }

  /** The values of the checkpoint are those of the most votes, five at least; or the proposer's, if
      five or more votes, and more than sign any values, approve. */
  ghost predicate BackedBy(proposal: Proposal, votes: seq<Vote>, cp: CheckpointPayload, backers: seq<Vote>) {
    && |backers| >= 5
    && if Signers(votes, backers, cp.observation, cp.previousCheckpointID)
       then (forall o, ref :: Signing(votes, o, ref) <= |backers|) && Approving(votes) <= |backers|
       else && Approvers(votes, backers)
            && cp.observation == proposal.att.observation && cp.previousCheckpointID == proposal.att.lastSeenCheckpointID
            && forall o, ref :: Signing(votes, o, ref) < |backers|
  }

  lemma WinsIs(proposal: Proposal, votes: seq<Vote>, key: ValueKey, winners: seq<Vote>)
    requires Wins(proposal, votes, key, winners)
    ensures |winners| >= 5
    ensures || (&& Signers(votes, winners, key.observation, key.lastSeenCheckpointID)
                && (forall o, ref :: Signing(votes, o, ref) <= |winners|) && Approving(votes) <= |winners|)
            || (&& Approvers(votes, winners) && key == KeyOf(proposal.att) && Approving(votes) == |winners|
                && forall o, ref :: Signing(votes, o, ref) < |winners|)
  {
    GroupIs(votes, key);
    ApprovalsAre(votes);
    forall o, ref ensures Signing(votes, o, ref) == |Group(votes, ValueKey(o, ref))| {
      GroupIs(votes, ValueKey(o, ref));
    }
    if AnyGroup(votes) {
      LargestExists(votes);
    }
  }

  lemma LargestExists(votes: seq<Vote>)
    requires AnyGroup(votes)
    ensures exists k :: LargestGroup(votes, k)
  {
    var k :| |Group(votes, k)| >= MIN_VOTERS;
    LargestFrom(votes, k);
  }

  lemma {:induction false} LargestFrom(votes: seq<Vote>, k: ValueKey)
    requires |Group(votes, k)| >= MIN_VOTERS
    ensures exists best :: LargestGroup(votes, best)
    decreases |votes| - |Group(votes, k)|
  {
    GroupFits(votes, k);
    if !LargestGroup(votes, k) {
      var larger :| |Group(votes, larger)| > |Group(votes, k)|;
      GroupFits(votes, larger);
      LargestFrom(votes, larger);
    }
  }

  lemma {:induction false} GroupFits(votes: seq<Vote>, k: ValueKey)
    ensures |Group(votes, k)| <= |votes|
  {
    if votes != [] {
      GroupFits(votes[..|votes| - 1], k);
    }
  }

  /** The uptime that the proposer's ledger gives a voter. */
  function Known(uptime: map<NaraName, int>, v: Vote): int {
    if v.att.attester in uptime then uptime[v.att.attester] else 0
  }

  /** The signatures listed: the proposer's first if its values won, then those of `listed`; ten at
      most. */
  ghost predicate Lists(proposal: Proposal, cp: CheckpointPayload, listed: seq<Vote>, left: seq<Vote>) {
    var won := cp.observation == proposal.att.observation && cp.previousCheckpointID == proposal.att.lastSeenCheckpointID;
    var head := if won then 1 else 0;
    && |cp.voterIDs| == |cp.signatures| == head + |listed| <= 10 && (left != [] ==> head + |listed| == 10)
    && (won ==> cp.voterIDs[0] == proposal.att.attesterID && cp.signatures[0] == proposal.att.signature)
    && forall i :: 0 <= i < |listed| ==>
         cp.voterIDs[head + i] == listed[i].att.attesterID && cp.signatures[head + i] == listed[i].att.signature
  }

  /** The longest up are listed first, and who is left off is up no longer than who is listed. */
  ghost predicate LongestUp(uptime: map<NaraName, int>, listed: seq<Vote>, left: seq<Vote>) {
    && (forall i, j :: 0 <= i < j < |listed| ==> Known(uptime, listed[j]) <= Known(uptime, listed[i]))
    && forall a, b :: a in listed && b in left ==> Known(uptime, b) <= Known(uptime, a)
  }

  lemma RankedUptimes(uptime: map<NaraName, int>, ranked: seq<Vote>, i: nat, j: nat)
    requires Sorted(ranked, ByUptime(uptime)) && i < j < |ranked|
    ensures Known(uptime, ranked[j]) <= Known(uptime, ranked[i])
  {
    assert !Below(ByUptime(uptime)(ranked[j]), ByUptime(uptime)(ranked[i]));
  }

  lemma FrontIsLongestUp(uptime: map<NaraName, int>, ranked: seq<Vote>, n: nat)
    requires Sorted(ranked, ByUptime(uptime)) && n <= |ranked|
    ensures LongestUp(uptime, ranked[..n], ranked[n..])
  {
    forall i, j | 0 <= i < j < n ensures Known(uptime, ranked[..n][j]) <= Known(uptime, ranked[..n][i]) {
      RankedUptimes(uptime, ranked, i, j);
    }
    forall a, b | a in ranked[..n] && b in ranked[n..] ensures Known(uptime, b) <= Known(uptime, a) {
      var i :| 0 <= i < n && ranked[..n][i] == a;
      var j :| 0 <= j < |ranked| - n && ranked[n..][j] == b;
      RankedUptimes(uptime, ranked, i, n + j);
    }
  }

  lemma ListingIs(proposal: Proposal, key: ValueKey, ranked: seq<Vote>, cp: CheckpointPayload)
    requires cp == CheckpointFor(proposal, key, Listed(proposal, key, ranked))
    ensures Lists(proposal, cp, ListedVotes(proposal, key, ranked), ranked[|ListedVotes(proposal, key, ranked)|..])
    ensures ListedVotes(proposal, key, ranked) == ranked[..|ListedVotes(proposal, key, ranked)|]
  {
  }

  lemma Backing(proposal: Proposal, votes: seq<Vote>, uptime: map<NaraName, int>, key: ValueKey, winners: seq<Vote>,
                ranked: seq<Vote>, cp: CheckpointPayload)
    requires FoundBy(proposal, votes, uptime, key, winners, ranked, cp)
    ensures BackedBy(proposal, votes, cp, winners)
  {
    WinsIs(proposal, votes, key, winners);
  }

  lemma Listing(proposal: Proposal, votes: seq<Vote>, uptime: map<NaraName, int>, key: ValueKey, winners: seq<Vote>,
                ranked: seq<Vote>, cp: CheckpointPayload) returns (listed: seq<Vote>, left: seq<Vote>)
    requires FoundBy(proposal, votes, uptime, key, winners, ranked, cp)
    ensures multiset(winners) == multiset(listed) + multiset(left)
    ensures Lists(proposal, cp, listed, left) && LongestUp(uptime, listed, left)
  {
    ListingIs(proposal, key, ranked, cp);
    var n := |ListedVotes(proposal, key, ranked)|;
    FrontIsLongestUp(uptime, ranked, n);
    listed, left := ranked[..n], ranked[n..];
    assert ranked == listed + left;
  }

  /** A found checkpoint: it speaks of the proposal's nara, second and round; its values are backed;
      and it lists the backers with the most uptime. */
  lemma WhatIsFound(proposal: Proposal, votes: seq<Vote>, uptime: map<NaraName, int>, cp: CheckpointPayload)
      returns (backers: seq<Vote>, listed: seq<Vote>, left: seq<Vote>)
    requires Finds(proposal, votes, uptime, Some(cp))
    ensures cp.subject == proposal.att.subject && cp.subjectID == proposal.att.subjectID
    ensures cp.asOfTime == proposal.att.asOfTime && cp.round == proposal.round && cp.version == 2
    ensures BackedBy(proposal, votes, cp, backers)
    ensures multiset(backers) == multiset(listed) + multiset(left)
    ensures Lists(proposal, cp, listed, left) && LongestUp(uptime, listed, left)
  {
    var key, winners, ranked :| FoundBy(proposal, votes, uptime, key, winners, ranked, cp);
    Backing(proposal, votes, uptime, key, winners, ranked, cp);
    backers := winners;
    listed, left := Listing(proposal, votes, uptime, key, winners, ranked, cp);
  }

  /** Nothing is found exactly if no values and no approval reach five votes. */
  lemma NothingIsFoundIff(proposal: Proposal, votes: seq<Vote>, uptime: map<NaraName, int>,
                          r: Option<CheckpointPayload>)
    requires Finds(proposal, votes, uptime, r)
    ensures r.None? <==> (forall o, ref :: Signing(votes, o, ref) < 5) && Approving(votes) < 5
  {
    ApprovalsAre(votes);
    forall o, ref ensures Signing(votes, o, ref) == |Group(votes, ValueKey(o, ref))| <= |votes| {
      GroupIs(votes, ValueKey(o, ref));
      GroupFits(votes, ValueKey(o, ref));
    }
    ApprovingFits(votes);
    if r.Some? {
      var key, winners, ranked :| FoundBy(proposal, votes, uptime, key, winners, ranked, r.value);
      GroupIs(votes, key);
    }
  }

  lemma {:induction false} ApprovingFits(votes: seq<Vote>)
    ensures Approving(votes) <= |votes|
  {
    if votes != [] {
      ApprovingFits(votes[..|votes| - 1]);
    }
  }
}
