/** How a proposer turns votes into a checkpoint. */
module CheckpointConsensus {
  import opened Wrappers
  import opened Events
  import opened Sorting
  import opened Attestations

  const MIN_VOTERS := 5
  const MAX_SIGNATURES := 10

  datatype Proposal = Proposal(att: Attestation, round: int)

  datatype Vote = Vote(att: Attestation, proposalTS: int, round: int, approved: bool)

  // ---------- voting ----------

  /** What a voter derives from its own ledger about the subject. */
  datatype View = View(observation: NaraObservation, lastCheckpointID: string)

  datatype Voter = Voter(name: NaraName, id: NaraID, key: string)

  function ValuesMatch(a: int, b: int, tolerance: int): bool {
    (if a - b < 0 then b - a else a - b) <= tolerance
  }

  predicate Approves(proposal: Proposal, ours: NaraObservation) {
    && ValuesMatch(proposal.att.observation.restarts, ours.restarts, 5)
    && ValuesMatch(proposal.att.observation.totalUptime, ours.totalUptime, 60)
    && ValuesMatch(proposal.att.observation.startTime, ours.startTime, 60)
  }

  function SignAs(a: Attestation, voter: Voter): Attestation {
    a.(signature := Signed(voter.key, SignableContent(a)))
  }

  /** The vote of an honest nara: it signs the proposer's values if they are close to its own,
      otherwise its own - but always its own view of the last checkpoint. */
  function CastVote(proposal: Proposal, voter: Voter, ours: View): Vote {
    var approved := Approves(proposal, ours.observation);
    var claim := Attestation(2, proposal.att.subject, proposal.att.subjectID,
                             if approved then proposal.att.observation else ours.observation,
                             voter.name, voter.id, ours.lastCheckpointID, proposal.att.asOfTime, Unsigned(""));
    Vote(SignAs(claim, voter), proposal.att.asOfTime, proposal.round, approved)
  }

  /** A nara votes on other naras' proposals, once it has recovered its ledger at boot, if the
      signature verifies under the subject's key and the protocol version is its own. */
  predicate Entertains(proposal: Proposal, voter: Voter, known: map<NaraID, string>, booted: bool) {
    && proposal.att.subject != voter.name && booted
    && proposal.att.subjectID in known
    && Verifies(known[proposal.att.subjectID], SignableContent(proposal.att), proposal.att.signature)
    && EffectiveVersion(proposal.att.version) >= 2
  }

  function HandleProposal(proposal: Proposal, voter: Voter, ours: View, known: map<NaraID, string>,
                          booted: bool): Option<Vote> {
    if Entertains(proposal, voter, known, booted) then Some(CastVote(proposal, voter, ours)) else None
  }

  /** A proposal is a self-attestation. */
  ghost predicate HonestProposal(p: Proposal, keys: map<NaraID, string>) {
    p.att.version == 2 && p.att.attesterID == p.att.subjectID && HonestlySigned(p.att, keys) && ':' !in p.att.subjectID
  }

  ghost predicate HonestVote(v: Vote, p: Proposal, keys: map<NaraID, string>) {
    exists voter, ours :: v == CastVote(p, voter, ours) && KnownVoter(voter, keys)
  }

  ghost predicate KnownVoter(voter: Voter, keys: map<NaraID, string>) {
    voter.id in keys && keys[voter.id] == voter.key && ':' !in voter.id
  }

  // ---------- groups of votes ----------

  /** Votes are grouped by the values they sign, the last checkpoint included. */
  datatype ValueKey = ValueKey(observation: NaraObservation, lastSeenCheckpointID: string)

  function KeyOf(a: Attestation): ValueKey {
    ValueKey(a.observation, a.lastSeenCheckpointID)
  }

  function Group(votes: seq<Vote>, key: ValueKey): seq<Vote> {
    if votes == [] then []
    else
      var front, last := Group(votes[..|votes| - 1], key), votes[|votes| - 1];
      if KeyOf(last.att) == key then front + [last] else front
  }

  function Approvals(votes: seq<Vote>): seq<Vote> {
    if votes == [] then []
    else
      var front, last := Approvals(votes[..|votes| - 1]), votes[|votes| - 1];
      if last.approved then front + [last] else front
  }

  /** A largest group of at least five votes for the same values. */
  ghost predicate LargestGroup(votes: seq<Vote>, key: ValueKey) {
    && |Group(votes, key)| >= MIN_VOTERS
    && forall k :: |Group(votes, k)| <= |Group(votes, key)|
  }

  ghost predicate AnyGroup(votes: seq<Vote>) {
    exists k :: |Group(votes, k)| >= MIN_VOTERS
  }

  /** The winning values and the votes behind them: the largest group, unless more votes
      approved the proposal. Approvals agree on the proposer's values, not on the checkpoint. */
  ghost predicate Wins(proposal: Proposal, votes: seq<Vote>, key: ValueKey, winners: seq<Vote>) {
    if AnyGroup(votes) && exists k :: LargestGroup(votes, k) && |Approvals(votes)| <= |Group(votes, k)|
    then LargestGroup(votes, key) && winners == Group(votes, key)
    else |Approvals(votes)| >= MIN_VOTERS && key == KeyOf(proposal.att) && winners == Approvals(votes)
  }

  function ByUptime(uptime: map<NaraName, int>): Vote -> Rank {
    (v: Vote) => ByNumber(-UptimeOf(uptime, v.att.attester))
  }

  function UptimeOf(uptime: map<NaraName, int>, name: NaraName): int {
    if name in uptime then uptime[name] else 0
  }

  predicate ProposerListed(proposal: Proposal, key: ValueKey) {
    key == KeyOf(proposal.att)
  }

  /** The attestations listed on the checkpoint: the proposer first if its values won, then the
      winners with the most uptime, ten signatures at most. */
  function Listed(proposal: Proposal, key: ValueKey, ranked: seq<Vote>): seq<Attestation> {
    (if ProposerListed(proposal, key) then [proposal.att] else []) + AttestationsOf(ListedVotes(proposal, key, ranked))
  }

  function ListedVotes(proposal: Proposal, key: ValueKey, ranked: seq<Vote>): seq<Vote> {
    if |ranked| <= Room(proposal, key) then ranked else ranked[..Room(proposal, key)]
  }

  function Room(proposal: Proposal, key: ValueKey): nat {
    if ProposerListed(proposal, key) then MAX_SIGNATURES - 1 else MAX_SIGNATURES
  }

  function AttestationsOf(votes: seq<Vote>): seq<Attestation> {
    seq(|votes|, i requires 0 <= i < |votes| => votes[i].att)
  }

  function IDsOf(atts: seq<Attestation>): seq<NaraID> {
    seq(|atts|, i requires 0 <= i < |atts| => atts[i].attesterID)
  }

  function SignaturesOf(atts: seq<Attestation>): seq<Signature> {
    seq(|atts|, i requires 0 <= i < |atts| => atts[i].signature)
  }

  /** The checkpoint for `key` with the listed attestations. The proposer's own ID and signature
      are listed as the subject's. */
  function CheckpointFor(proposal: Proposal, key: ValueKey, listed: seq<Attestation>): CheckpointPayload {
    CheckpointPayload(2, proposal.att.subject, proposal.att.subjectID, key.lastSeenCheckpointID, key.observation,
                      proposal.att.asOfTime, proposal.round, IDsOf(listed), SignaturesOf(listed))
  }

  ghost predicate Finds(proposal: Proposal, votes: seq<Vote>, uptime: map<NaraName, int>,
                        r: Option<CheckpointPayload>) {
    match r
    case None => |votes| < MIN_VOTERS || (!AnyGroup(votes) && |Approvals(votes)| < MIN_VOTERS)
    case Some(cp) => |votes| >= MIN_VOTERS && exists key, winners, ranked :: FoundBy(proposal, votes, uptime, key, winners, ranked, cp)
  }

  ghost predicate FoundBy(proposal: Proposal, votes: seq<Vote>, uptime: map<NaraName, int>, key: ValueKey,
                          winners: seq<Vote>, ranked: seq<Vote>, cp: CheckpointPayload) {
    && Wins(proposal, votes, key, winners)
    && SortedArrangement(winners, ranked, ByUptime(uptime))
    && cp == CheckpointFor(proposal, key, Listed(proposal, key, ranked))
  }

  // ---------- the search for consensus ----------

  type Groups = map<ValueKey, seq<Vote>>

  ghost predicate AreGroups(votes: seq<Vote>, groups: Groups) {
    forall k :: (if k in groups then groups[k] else []) == Group(votes, k)
  }

  method GroupVotes(votes: seq<Vote>) returns (groups: Groups)
    ensures AreGroups(votes, groups)
  {
    groups := map[];
    for i := 0 to |votes|
      invariant AreGroups(votes[..i], groups)
    {
      assert votes[..i + 1][..i] == votes[..i];
      var key := KeyOf(votes[i].att);
      var known := if key in groups then groups[key] else [];
      assert known == Group(votes[..i], key);
      groups := groups[key := known + [votes[i]]];
    }
    assert votes[..|votes|] == votes;
  }

  method CollectApprovals(votes: seq<Vote>) returns (approvals: seq<Vote>)
    ensures approvals == Approvals(votes)
  {
    approvals := [];
    for i := 0 to |votes|
      invariant approvals == Approvals(votes[..i])
    {
      assert votes[..i + 1][..i] == votes[..i];
      if votes[i].approved {
        approvals := approvals + [votes[i]];
      }
    }
    assert votes[..|votes|] == votes;
  }

  /** The map is walked in no particular order; of equally large groups any may be found. */
  method FindLargest(votes: seq<Vote>, groups: Groups) returns (best: Option<ValueKey>)
    requires AreGroups(votes, groups)
    ensures best.Some? ==> LargestGroup(votes, best.value)
    ensures best.None? ==> !AnyGroup(votes)
  {
    best := None;
    var todo := groups.Keys;
    while todo != {}
      invariant todo <= groups.Keys
      invariant best.Some? ==> best.value in groups && |groups[best.value]| >= MIN_VOTERS
      invariant best.Some? ==> forall k :: k in groups && k !in todo ==> |groups[k]| <= |groups[best.value]|
      invariant best.None? ==> forall k :: k in groups && k !in todo ==> |groups[k]| < MIN_VOTERS
      decreases todo
    {
      var key :| key in todo;
      todo := todo - {key};
      if |groups[key]| >= MIN_VOTERS && (best.None? || |groups[key]| > |groups[best.value]|) {
        best := Some(key);
      }
    }
    forall k ensures |Group(votes, k)| == if k in groups then |groups[k]| else 0 {
    }
  }

  method FindWinners(proposal: Proposal, votes: seq<Vote>) returns (key: ValueKey, winners: seq<Vote>)
    ensures |winners| >= MIN_VOTERS ==> Wins(proposal, votes, key, winners)
    ensures |winners| < MIN_VOTERS ==> !AnyGroup(votes) && |Approvals(votes)| < MIN_VOTERS
  {
    var groups := GroupVotes(votes);
    var best := FindLargest(votes, groups);
    key, winners := KeyOf(proposal.att), [];
    if best.Some? {
      assert groups[best.value] == Group(votes, best.value);
      key, winners := best.value, groups[best.value];
    }
    var approvals := CollectApprovals(votes);
    if |approvals| >= MIN_VOTERS && |approvals| > |winners| {
      key, winners := KeyOf(proposal.att), approvals;
    }
  }

  method ListVoters(proposal: Proposal, key: ValueKey, ranked: seq<Vote>)
      returns (ids: seq<NaraID>, signatures: seq<Signature>)
    requires proposal.att.attesterID == proposal.att.subjectID
    ensures ids == IDsOf(Listed(proposal, key, ranked)) && signatures == SignaturesOf(Listed(proposal, key, ranked))
  {
    ids, signatures := [], [];
    var maxVoters := MAX_SIGNATURES;
    ghost var head: seq<Attestation> := [];
    if key.observation == proposal.att.observation && key.lastSeenCheckpointID == proposal.att.lastSeenCheckpointID {
      ids, signatures := [proposal.att.subjectID], [proposal.att.signature];
      head := [proposal.att];
      maxVoters := maxVoters - 1;
    }
    var n := if |ranked| <= maxVoters then |ranked| else maxVoters;
    for i := 0 to n
      invariant ids == IDsOf(head + AttestationsOf(ranked[..i]))
      invariant signatures == SignaturesOf(head + AttestationsOf(ranked[..i]))
    {
      assert head + AttestationsOf(ranked[..i + 1]) == (head + AttestationsOf(ranked[..i])) + [ranked[i].att];
      ids := ids + [ranked[i].att.attesterID];
      signatures := signatures + [ranked[i].att.signature];
    }
    assert |ranked| <= maxVoters ==> ranked[..n] == ranked;
  }

  method TryFindConsensus(proposal: Proposal, votes: seq<Vote>, uptime: map<NaraName, int>)
      returns (r: Option<CheckpointPayload>)
    requires proposal.att.attesterID == proposal.att.subjectID
    ensures Finds(proposal, votes, uptime, r)
  {
    if |votes| < MIN_VOTERS {
      return None;
    }
    var key, winners := FindWinners(proposal, votes);
    if |winners| < MIN_VOTERS {
      return None;
    }
    var ranked := SortSlice(winners, ByUptime(uptime));
    var ids, signatures := ListVoters(proposal, key, ranked);
    var cp := CheckpointPayload(2, proposal.att.subject, proposal.att.subjectID, key.lastSeenCheckpointID, key.observation,
                                proposal.att.asOfTime, proposal.round, ids, signatures);
    assert FoundBy(proposal, votes, uptime, key, winners, ranked, cp);
    r := Some(cp);
  }

  // ---------- what the search guarantees ----------

  lemma {:induction false} GroupMembers(votes: seq<Vote>, key: ValueKey)
    ensures forall v :: v in Group(votes, key) ==> v in votes && KeyOf(v.att) == key
  {
    if votes != [] {
      GroupMembers(votes[..|votes| - 1], key);
    }
  }

  lemma {:induction false} ApprovalMembers(votes: seq<Vote>)
    ensures forall v :: v in Approvals(votes) ==> v in votes && v.approved
  {
    if votes != [] {
      ApprovalMembers(votes[..|votes| - 1]);
    }
  }

  /** A verifying nara may know only some of the keys, but knows them right. */
  ghost predicate KnowsPart(known: map<NaraID, string>, keys: map<NaraID, string>) {
    forall id :: id in known ==> id in keys && known[id] == keys[id]
  }

  /** What every listed attestation has in common with the checkpoint: everything except,
      possibly, the last checkpoint its signer saw. */
  ghost predicate ListsClaim(a: Attestation, cp: CheckpointPayload, keys: map<NaraID, string>) {
    && HonestlySigned(a, keys) && ':' !in a.attesterID && ':' !in a.subjectID
    && a.version == 2 && a.subjectID == cp.subjectID && a.asOfTime == cp.asOfTime && a.observation == cp.observation
  }

  /** A vote that an honest nara cast on this proposal or on another one of the same nara and second.
      Such votes look alike to the proposer: a vote names its proposal by timestamp and round. */
  ghost predicate HonestVoteNear(v: Vote, p: Proposal, keys: map<NaraID, string>) {
    exists q: Proposal :: q.att.subjectID == p.att.subjectID && q.att.asOfTime == p.att.asOfTime && HonestVote(v, q, keys)
  }

  /** All votes are honest ones on the proposal; or, if a value group won, at least near it. */
  ghost predicate HonestBallot(p: Proposal, votes: seq<Vote>, key: ValueKey, winners: seq<Vote>,
                               keys: map<NaraID, string>) {
    && (forall v :: v in votes ==> HonestVoteNear(v, p, keys))
    && (winners != Group(votes, key) ==> forall v :: v in votes ==> HonestVote(v, p, keys))
  }

  lemma WinnersClaim(proposal: Proposal, votes: seq<Vote>, key: ValueKey, winners: seq<Vote>, v: Vote,
                     keys: map<NaraID, string>)
    requires HonestProposal(proposal, keys) && Wins(proposal, votes, key, winners) && v in winners
    requires HonestBallot(proposal, votes, key, winners, keys)
    ensures HonestlySigned(v.att, keys) && ':' !in v.att.attesterID && v.att.subjectID == proposal.att.subjectID
    ensures v.att.version == 2 && v.att.asOfTime == proposal.att.asOfTime && v.att.observation == key.observation
    ensures winners == Group(votes, key) ==> v.att.lastSeenCheckpointID == key.lastSeenCheckpointID
  {
    GroupMembers(votes, key);
    ApprovalMembers(votes);
    assert v in votes && HonestVoteNear(v, proposal, keys);
    var q: Proposal :| q.att.subjectID == proposal.att.subjectID && q.att.asOfTime == proposal.att.asOfTime
                       && HonestVote(v, q, keys) && (winners != Group(votes, key) ==> q == proposal);
    var voter, ours :| v == CastVote(q, voter, ours) && KnownVoter(voter, keys);
    SignatureNotSigned(v.att);
  }

  lemma SignatureNotSigned(a: Attestation)
    ensures SignableContent(a) == SignableContent(a.(signature := Unsigned("")))
  {
  }

  lemma ListedClaims(proposal: Proposal, votes: seq<Vote>, uptime: map<NaraName, int>, key: ValueKey,
                     winners: seq<Vote>,
                     ranked: seq<Vote>, cp: CheckpointPayload, keys: map<NaraID, string>)
    requires HonestProposal(proposal, keys) && FoundBy(proposal, votes, uptime, key, winners, ranked, cp)
    requires HonestBallot(proposal, votes, key, winners, keys)
    ensures forall a :: a in Listed(proposal, key, ranked) ==> ListsClaim(a, cp, keys)
    ensures winners == Group(votes, key) ==>
              forall a :: a in Listed(proposal, key, ranked) ==> a.lastSeenCheckpointID == cp.previousCheckpointID
  {
    SameElements(winners, ranked);
    forall v | v in ranked
      ensures ListsClaim(v.att, cp, keys)
      ensures winners == Group(votes, key) ==> v.att.lastSeenCheckpointID == cp.previousCheckpointID
    {
      WinnersClaim(proposal, votes, key, winners, v, keys);
    }
    forall a | a in Listed(proposal, key, ranked)
      ensures (a == proposal.att && key == KeyOf(proposal.att)) || exists v :: v in ranked && v.att == a
    {
      ListedFrom(proposal, key, ranked, a);
    }
  }

  lemma ListedFrom(proposal: Proposal, key: ValueKey, ranked: seq<Vote>, a: Attestation)
    requires a in Listed(proposal, key, ranked)
    ensures (a == proposal.att && ProposerListed(proposal, key)) || exists v :: v in ranked && v.att == a
  {
  }

  /** Of the first `n` listed signers, those the verifier knows and that saw checkpoint `ref`. */
  function Agreeing(listed: seq<Attestation>, known: map<NaraID, string>, ref: string, n: nat): nat
    requires n <= |listed|
  {
    if n == 0 then 0
    else Agreeing(listed, known, ref, n - 1)
         + if listed[n - 1].attesterID in known && listed[n - 1].lastSeenCheckpointID == ref then 1 else 0
  }

  lemma OneSignature(cp: CheckpointPayload, listed: seq<Attestation>, known: map<NaraID, string>,
                     keys: map<NaraID, string>, i: nat)
    requires cp.voterIDs == IDsOf(listed) && cp.signatures == SignaturesOf(listed) && cp.version == 2
    requires KnowsPart(known, keys) && i < |listed| && ListsClaim(listed[i], cp, keys)
    ensures SignerValid(cp, known, i) <==>
            listed[i].attesterID in known && listed[i].lastSeenCheckpointID == cp.previousCheckpointID
  {
    var a := listed[i];
    if a.attesterID in known {
      assert HonestlySigned(a, known);
      VerifiesIffClaimMatches(cp, known, i, a);
    }
  }

  lemma {:induction false} CountSignatures(cp: CheckpointPayload, listed: seq<Attestation>, known: map<NaraID, string>,
                                           keys: map<NaraID, string>, n: nat)
    requires cp.voterIDs == IDsOf(listed) && cp.signatures == SignaturesOf(listed) && cp.version == 2
    requires KnowsPart(known, keys) && n <= |listed| && forall a :: a in listed ==> ListsClaim(a, cp, keys)
    ensures ValidSigners(cp, known, n) == Agreeing(listed, known, cp.previousCheckpointID, n)
  {
    if n > 0 {
      CountSignatures(cp, listed, known, keys, n - 1);
      OneSignature(cp, listed, known, keys, n - 1);
    }
  }

  lemma {:induction false} AllAgree(cp: CheckpointPayload, listed: seq<Attestation>, known: map<NaraID, string>, n: nat)
    requires cp.voterIDs == IDsOf(listed) && n <= |listed|
    requires forall a :: a in listed ==> a.lastSeenCheckpointID == cp.previousCheckpointID
    ensures Agreeing(listed, known, cp.previousCheckpointID, n) == KnownSigners(cp, known, n)
  {
    if n > 0 {
      AllAgree(cp, listed, known, n - 1);
    }
  }

  /** With an honest proposer and honest voters: the signatures of a found checkpoint that
      verify, for a nara that knows any part of the keys, are exactly those of known signers
      whose last-seen checkpoint is the one the new checkpoint names as its predecessor. If a
      value group won, that is every known signer, even if some votes were cast on another
      proposal of the same second. */
  lemma HonestSignaturesVerify(proposal: Proposal, votes: seq<Vote>, uptime: map<NaraName, int>, key: ValueKey,
                               winners: seq<Vote>,
                               ranked: seq<Vote>, cp: CheckpointPayload, keys: map<NaraID, string>, known: map<NaraID, string>)
    requires HonestProposal(proposal, keys) && FoundBy(proposal, votes, uptime, key, winners, ranked, cp)
    requires HonestBallot(proposal, votes, key, winners, keys) && KnowsPart(known, keys)
    ensures |cp.voterIDs| == |cp.signatures| == |Listed(proposal, key, ranked)|
    ensures ValidSigners(cp, known, |cp.voterIDs|)
            == Agreeing(Listed(proposal, key, ranked), known, cp.previousCheckpointID, |cp.voterIDs|)
    ensures winners == Group(votes, key) ==>
              ValidSigners(cp, known, |cp.voterIDs|) == KnownSigners(cp, known, |cp.voterIDs|)
  {
    var listed := Listed(proposal, key, ranked);
    ListedClaims(proposal, votes, uptime, key, winners, ranked, cp, keys);
    CountSignatures(cp, listed, known, keys, |listed|);
    if winners == Group(votes, key) {
      AllAgree(cp, listed, known, |listed|);
    }
  }

  // ---------- approvals that do not agree on the last checkpoint ----------

  lemma {:induction false} SingletonGroups(votes: seq<Vote>, key: ValueKey)
    requires forall i, j :: 0 <= i < j < |votes| ==>
               votes[i].att.lastSeenCheckpointID != votes[j].att.lastSeenCheckpointID
    ensures |Group(votes, key)| <= 1
    ensures Group(votes, key) != [] ==> exists v :: v in votes && v.att.lastSeenCheckpointID == key.lastSeenCheckpointID
  {
    if votes != [] {
      var front, last := votes[..|votes| - 1], votes[|votes| - 1];
      SingletonGroups(front, key);
      assert votes == front + [last];
      forall v | v in front ensures v.att.lastSeenCheckpointID != last.att.lastSeenCheckpointID {
      }
    }
  }

  lemma {:induction false} AllApprove(votes: seq<Vote>)
    requires forall v :: v in votes ==> v.approved
    ensures Approvals(votes) == votes
  {
    if votes != [] {
      AllApprove(votes[..|votes| - 1]);
      assert votes == votes[..|votes| - 1] + [votes[|votes| - 1]];
    }
  }

  lemma {:induction false} OnlyFirstAgrees(listed: seq<Attestation>, known: map<NaraID, string>, ref: string, n: nat)
    requires n <= |listed| && forall i :: 0 < i < |listed| ==> listed[i].lastSeenCheckpointID != ref
    ensures Agreeing(listed, known, ref, n) <= 1
    ensures n <= 1 ==> Agreeing(listed, known, ref, n) <= n
  {
    if n > 0 {
      OnlyFirstAgrees(listed, known, ref, n - 1);
    }
  }

  /** If every vote approves but each voter saw a different last checkpoint, none of them the
      proposer's, then a checkpoint is found - and no nara will ever accept it: at most the
      proposer's own signature verifies. */
  lemma ScatteredApprovalsFail(p: Proposal, votes: seq<Vote>, uptime: map<NaraName, int>, r: Option<CheckpointPayload>,
                               keys: map<NaraID, string>, known: map<NaraID, string>)
    requires HonestProposal(p, keys) && KnowsPart(known, keys) && |votes| >= MIN_VOTERS && Finds(p, votes, uptime, r)
    requires forall v :: v in votes ==>
               HonestVote(v, p, keys) && v.approved && v.att.lastSeenCheckpointID != p.att.lastSeenCheckpointID
    requires forall i, j :: 0 <= i < j < |votes| ==>
               votes[i].att.lastSeenCheckpointID != votes[j].att.lastSeenCheckpointID
    ensures r.Some? && |r.value.signatures| == |r.value.voterIDs|
    ensures ValidSigners(r.value, known, |r.value.voterIDs|) < MIN_CHECKPOINT_SIGNATURES
  {
    AllApprove(votes);
    forall k ensures |Group(votes, k)| <= 1 {
      SingletonGroups(votes, k);
    }
    var key, winners, ranked :| FoundBy(p, votes, uptime, key, winners, ranked, r.value);
    assert key == KeyOf(p.att) && winners == votes;
    assert forall v :: v in votes ==> HonestVote(v, p, keys) ==> HonestVoteNear(v, p, keys);
    HonestSignaturesVerify(p, votes, uptime, key, winners, ranked, r.value, keys, known);
    ScatteredListing(p, votes, ranked);
    OnlyFirstAgrees(Listed(p, key, ranked), known, p.att.lastSeenCheckpointID, |r.value.voterIDs|);
  }

  lemma ScatteredListing(p: Proposal, votes: seq<Vote>, ranked: seq<Vote>)
    requires multiset(ranked) == multiset(votes)
    requires forall v :: v in votes ==> v.att.lastSeenCheckpointID != p.att.lastSeenCheckpointID
    ensures var listed := Listed(p, KeyOf(p.att), ranked);
            forall i :: 0 < i < |listed| ==> listed[i].lastSeenCheckpointID != p.att.lastSeenCheckpointID
  {
    SameElements(votes, ranked);
    var listed := Listed(p, KeyOf(p.att), ranked);
    forall i | 0 < i < |listed| ensures listed[i].lastSeenCheckpointID != p.att.lastSeenCheckpointID {
      assert listed[i] == ranked[i - 1].att && ranked[i - 1] in ranked;
    }
  }

  function StrayVote(p: Proposal, id: NaraID): Vote {
    CastVote(p, Voter(id, id, "key " + id), View(p.att.observation, id))
  }

  /** Five such votes. */
  lemma ScatteredApprovalsExist() returns (p: Proposal, votes: seq<Vote>, keys: map<NaraID, string>)
    ensures HonestProposal(p, keys) && |votes| == MIN_VOTERS
    ensures forall v :: v in votes ==>
              HonestVote(v, p, keys) && v.approved && v.att.lastSeenCheckpointID != p.att.lastSeenCheckpointID
    ensures forall i, j :: 0 <= i < j < |votes| ==>
              votes[i].att.lastSeenCheckpointID != votes[j].att.lastSeenCheckpointID
  {
    var ids := ["1", "2", "3", "4", "5"];
    keys := map["1" := "key 1", "2" := "key 2", "3" := "key 3", "4" := "key 4", "5" := "key 5", "b" := "key b"];
    var claim := Attestation(2, "bob", "b", NaraObservation(0, 0, 1), "bob", "b", "", 1, Unsigned(""));
    p := Proposal(SignAs(claim, Voter("bob", "b", "key b")), 1);
    SignatureNotSigned(p.att);
    votes := seq(5, i requires 0 <= i < 5 => StrayVote(p, ids[i]));
    forall v | v in votes ensures HonestVote(v, p, keys) && v.approved && v.att.lastSeenCheckpointID != "" {
      var i :| 0 <= i < 5 && votes[i] == v;
      assert KnownVoter(Voter(ids[i], ids[i], "key " + ids[i]), keys);
    }
  }

  lemma {:induction false} AllKnown(cp: CheckpointPayload, keys: map<NaraID, string>, n: nat)
    requires n <= |cp.voterIDs| && forall id :: id in cp.voterIDs ==> id in keys
    ensures KnownSigners(cp, keys, n) == n
  {
    if n > 0 {
      AllKnown(cp, keys, n - 1);
      assert cp.voterIDs[n - 1] in cp.voterIDs;
    }
  }

  /** Five to ten signatures are listed, six or more if the proposer's values won. */
  lemma ListedCount(proposal: Proposal, votes: seq<Vote>, uptime: map<NaraName, int>, key: ValueKey, winners: seq<Vote>,
                    ranked: seq<Vote>, cp: CheckpointPayload)
    requires FoundBy(proposal, votes, uptime, key, winners, ranked, cp)
    ensures MIN_VOTERS <= |cp.voterIDs| <= MAX_SIGNATURES
    ensures key == KeyOf(proposal.att) ==> |cp.voterIDs| > MIN_VOTERS && cp.voterIDs[0] == proposal.att.attesterID
  {
    SameElements(winners, ranked);
  }

  /** A checkpoint won by a value group passes its own proposer's verification. */
  lemma GroupCheckpointIsAccepted(proposal: Proposal, votes: seq<Vote>, uptime: map<NaraName, int>, key: ValueKey,
                                  winners: seq<Vote>,
                                  ranked: seq<Vote>, cp: CheckpointPayload, keys: map<NaraID, string>)
    requires HonestProposal(proposal, keys) && FoundBy(proposal, votes, uptime, key, winners, ranked, cp)
    requires HonestBallot(proposal, votes, key, winners, keys) && winners == Group(votes, key)
    ensures ValidSigners(cp, keys, |cp.voterIDs|) == |cp.voterIDs| >= MIN_CHECKPOINT_SIGNATURES
  {
    var listed := Listed(proposal, key, ranked);
    HonestSignaturesVerify(proposal, votes, uptime, key, winners, ranked, cp, keys, keys);
    ListedClaims(proposal, votes, uptime, key, winners, ranked, cp, keys);
    ListedCount(proposal, votes, uptime, key, winners, ranked, cp);
    forall id | id in cp.voterIDs ensures id in keys {
      var i :| 0 <= i < |listed| && IDsOf(listed)[i] == id;
      assert listed[i] in listed;
    }
    AllKnown(cp, keys, |cp.voterIDs|);
  }

  // ---------- when consensus must be found ----------

  /** The vote of a nara whose own view is within tolerance and that saw the proposer's last
      checkpoint. */
  ghost predicate NearbyVote(v: Vote, p: Proposal) {
    exists voter, ours :: v == CastVote(p, voter, ours) && NearbyView(p, ours)
  }

  predicate NearbyView(p: Proposal, ours: View) {
    Approves(p, ours.observation) && ours.lastCheckpointID == p.att.lastSeenCheckpointID
  }

  lemma {:induction false} NearbyVotesGroup(p: Proposal, votes: seq<Vote>)
    requires forall v :: v in votes ==> NearbyVote(v, p)
    ensures Group(votes, KeyOf(p.att)) == votes == Approvals(votes)
    ensures forall k :: k != KeyOf(p.att) ==> Group(votes, k) == []
  {
    if votes != [] {
      var front, last := votes[..|votes| - 1], votes[|votes| - 1];
      NearbyVotesGroup(p, front);
      assert last in votes && votes == front + [last];
    }
  }

  /** If every voter's own derivation is within tolerance of the proposal, five votes always
      make a checkpoint: of the proposer's values, with the proposer's signature first. */
  lemma NearbyVotersAgree(p: Proposal, votes: seq<Vote>, uptime: map<NaraName, int>, r: Option<CheckpointPayload>)
    requires (forall v :: v in votes ==> NearbyVote(v, p)) && |votes| >= MIN_VOTERS
    requires Finds(p, votes, uptime, r)
    ensures r.Some? && r.value.observation == p.att.observation
    ensures r.value.previousCheckpointID == p.att.lastSeenCheckpointID
    ensures r.value.voterIDs[..1] == [p.att.attesterID] && r.value.signatures[..1] == [p.att.signature]
    ensures |r.value.voterIDs| == if |votes| < MAX_SIGNATURES then |votes| + 1 else MAX_SIGNATURES
  {
    NearbyVotesGroup(p, votes);
    assert |Group(votes, KeyOf(p.att))| >= MIN_VOTERS;
    assert LargestGroup(votes, KeyOf(p.att));
    var key, winners, ranked :| FoundBy(p, votes, uptime, key, winners, ranked, r.value);
    SameElements(winners, ranked);
  }

  // ---------- voters and votes ----------

  ghost predicate DistinctVoters(votes: seq<Vote>) {
    forall i, j :: 0 <= i < j < |votes| ==> votes[i].att.attesterID != votes[j].att.attesterID
  }

  /** Votes are counted, not voters: five copies of one vote make a checkpoint whose signatures
      all come from that voter (and the proposer). */
  lemma OneVoterIsEnough(proposal: Proposal, v: Vote, uptime: map<NaraName, int>, r: Option<CheckpointPayload>)
    requires Finds(proposal, [v, v, v, v, v], uptime, r)
    ensures r.Some?
    ensures forall id :: id in r.value.voterIDs ==> id in {v.att.attesterID, proposal.att.attesterID}
  {
    var votes := [v, v, v, v, v];
    FiveInGroup(v);
    assert AnyGroup(votes);
    var key, winners, ranked :| FoundBy(proposal, votes, uptime, key, winners, ranked, r.value);
    SignersAmong(proposal, votes, key, winners, ranked);
  }

  /** Every listed signer is the proposer or has cast one of the votes. */
  lemma SignersAmong(proposal: Proposal, votes: seq<Vote>, key: ValueKey, winners: seq<Vote>, ranked: seq<Vote>)
    requires Wins(proposal, votes, key, winners) && multiset(ranked) == multiset(winners)
    ensures forall id :: id in IDsOf(Listed(proposal, key, ranked)) ==>
              id == proposal.att.attesterID || exists v :: v in votes && v.att.attesterID == id
  {
    GroupMembers(votes, key);
    ApprovalMembers(votes);
    SameElements(winners, ranked);
    var listed := Listed(proposal, key, ranked);
    forall id | id in IDsOf(listed)
      ensures id == proposal.att.attesterID || exists v :: v in votes && v.att.attesterID == id
    {
      var i :| 0 <= i < |listed| && IDsOf(listed)[i] == id;
      assert listed[i] in listed;
      ListedFrom(proposal, key, ranked, listed[i]);
    }
  }

  lemma FiveInGroup(v: Vote)
    ensures |Group([v, v, v, v, v], KeyOf(v.att))| == 5
  {
    var key := KeyOf(v.att);
    assert [v][..0] == [] && [v, v][..1] == [v] && [v, v, v][..2] == [v, v] && [v, v, v, v][..3] == [v, v, v]
           && [v, v, v, v, v][..4] == [v, v, v, v];
    assert |Group([v], key)| == 1;
    assert |Group([v, v], key)| == 2;
    assert |Group([v, v, v], key)| == 3;
    assert |Group([v, v, v, v], key)| == 4;
  }

  // With one vote per voter, the listed signatures come from different naras.

  lemma {:induction false} GroupDistinct(votes: seq<Vote>, key: ValueKey)
    requires DistinctVoters(votes)
    ensures DistinctVoters(Group(votes, key))
  {
    if votes != [] {
      var front := votes[..|votes| - 1];
      GroupDistinct(front, key);
      GroupMembers(front, key);
      LastDiffers(votes);
    }
  }

  lemma {:induction false} ApprovalsDistinct(votes: seq<Vote>)
    requires DistinctVoters(votes)
    ensures DistinctVoters(Approvals(votes))
  {
    if votes != [] {
      var front := votes[..|votes| - 1];
      ApprovalsDistinct(front);
      ApprovalMembers(front);
      LastDiffers(votes);
    }
  }

  lemma LastDiffers(votes: seq<Vote>)
    requires DistinctVoters(votes) && votes != []
    ensures forall v :: v in votes[..|votes| - 1] ==> v.att.attesterID != votes[|votes| - 1].att.attesterID
  {
  }

  lemma RankedDistinct(winners: seq<Vote>, ranked: seq<Vote>)
    requires DistinctVoters(winners) && multiset(ranked) == multiset(winners)
    ensures DistinctVoters(ranked)
  {
    assert Distinct(winners);
    DistinctRearranged(winners, ranked);
    SameElements(winners, ranked);
    forall i, j | 0 <= i < j < |ranked| ensures ranked[i].att.attesterID != ranked[j].att.attesterID {
      assert ranked[i] in winners && ranked[j] in winners;
      var p :| 0 <= p < |winners| && winners[p] == ranked[i];
      var q :| 0 <= q < |winners| && winners[q] == ranked[j];
      assert ranked[i] != ranked[j];
      assert p < q || q < p;
    }
  }

  lemma RankedByOthers(proposal: Proposal, votes: seq<Vote>, key: ValueKey, winners: seq<Vote>, ranked: seq<Vote>)
    requires Wins(proposal, votes, key, winners) && multiset(ranked) == multiset(winners)
    requires DistinctVoters(votes) && forall v :: v in votes ==> v.att.attesterID != proposal.att.attesterID
    ensures DistinctVoters(ranked) && forall v :: v in ranked ==> v.att.attesterID != proposal.att.attesterID
  {
    GroupDistinct(votes, key);
    ApprovalsDistinct(votes);
    GroupMembers(votes, key);
    ApprovalMembers(votes);
    RankedDistinct(winners, ranked);
    SameElements(winners, ranked);
  }

  /** One vote per voter, none by the proposer: then all listed signers are different naras. */
  lemma SignersAreDistinct(proposal: Proposal, votes: seq<Vote>, uptime: map<NaraName, int>, key: ValueKey,
                           winners: seq<Vote>,
                           ranked: seq<Vote>, cp: CheckpointPayload)
    requires FoundBy(proposal, votes, uptime, key, winners, ranked, cp)
    requires DistinctVoters(votes) && forall v :: v in votes ==> v.att.attesterID != proposal.att.attesterID
    ensures Distinct(cp.voterIDs)
  {
    RankedByOthers(proposal, votes, key, winners, ranked);
    ListedDistinct(proposal, key, ranked);
  }

  lemma ListedDistinct(proposal: Proposal, key: ValueKey, ranked: seq<Vote>)
    requires DistinctVoters(ranked) && forall v :: v in ranked ==> v.att.attesterID != proposal.att.attesterID
    ensures Distinct(IDsOf(Listed(proposal, key, ranked)))
  {
    var listed := ListedVotes(proposal, key, ranked);
    assert forall v :: v in listed ==> v in ranked;
    DistinctListingIff(proposal, key, ranked);
  }

  /** No two of the votes are by one voter, and none is by a proposer that is listed anyway. */
  ghost predicate OneVoteEach(proposal: Proposal, key: ValueKey, votes: seq<Vote>) {
    && DistinctVoters(votes)
    && (ProposerListed(proposal, key) ==> forall v :: v in votes ==> v.att.attesterID != proposal.att.attesterID)
  }

  lemma DistinctListingIff(proposal: Proposal, key: ValueKey, ranked: seq<Vote>)
    ensures Distinct(IDsOf(Listed(proposal, key, ranked))) <==> OneVoteEach(proposal, key, ListedVotes(proposal, key, ranked))
  {
    var ids, listed := IDsOf(Listed(proposal, key, ranked)), ListedVotes(proposal, key, ranked);
    var head := if ProposerListed(proposal, key) then 1 else 0;
    assert |ids| == head + |listed| && forall i :: 0 <= i < |listed| ==> ids[head + i] == listed[i].att.attesterID;
    assert head == 1 ==> ids[0] == proposal.att.attesterID;
    if Distinct(ids) {
      forall i, j | 0 <= i < j < |listed| ensures listed[i].att.attesterID != listed[j].att.attesterID {
        assert ids[head + i] != ids[head + j];
      }
      forall i | 0 <= i < |listed| && head == 1 ensures listed[i].att.attesterID != proposal.att.attesterID {
        assert ids[0] != ids[head + i];
      }
    }
    if OneVoteEach(proposal, key, listed) {
      DistinctIds(proposal, key, listed, ids, head);
    }
  }

  lemma DistinctIds(proposal: Proposal, key: ValueKey, listed: seq<Vote>, ids: seq<NaraID>, head: nat)
    requires OneVoteEach(proposal, key, listed) && head == if ProposerListed(proposal, key) then 1 else 0
    requires |ids| == head + |listed| && forall i :: 0 <= i < |listed| ==> ids[head + i] == listed[i].att.attesterID
    requires head == 1 ==> ids[0] == proposal.att.attesterID
    ensures Distinct(ids)
  {
    forall i, j | 0 <= i < j < |ids| ensures ids[i] != ids[j] {
      assert ids[j] == listed[j - head].att.attesterID && listed[j - head] in listed;
      assert i >= head ==> ids[head + (i - head)] == listed[i - head].att.attesterID;
    }
  }

  lemma OneVoteEachRearranged(proposal: Proposal, key: ValueKey, a: seq<Vote>, b: seq<Vote>)
    requires multiset(a) == multiset(b) && OneVoteEach(proposal, key, a)
    ensures OneVoteEach(proposal, key, b)
  {
    RankedDistinct(a, b);
    SameElements(a, b);
  }

  /** The signers of a found checkpoint are different naras - at least five, or six if the
      proposer's values won - if and only if each listed vote is by another voter and none is by
      a listed proposer. If all winners fit on the checkpoint, that can be read off the winning
      votes. */
  lemma SignersAreDistinctIff(proposal: Proposal, votes: seq<Vote>, uptime: map<NaraName, int>, key: ValueKey,
                              winners: seq<Vote>, ranked: seq<Vote>, cp: CheckpointPayload)
    requires FoundBy(proposal, votes, uptime, key, winners, ranked, cp)
    ensures Distinct(cp.voterIDs) <==> OneVoteEach(proposal, key, ListedVotes(proposal, key, ranked))
    ensures |winners| <= Room(proposal, key) ==> (Distinct(cp.voterIDs) <==> OneVoteEach(proposal, key, winners))
    ensures Distinct(cp.voterIDs) ==>
              |set id | id in cp.voterIDs| >= if ProposerListed(proposal, key) then MIN_VOTERS + 1 else MIN_VOTERS
  {
    DistinctListingIff(proposal, key, ranked);
    ListedCount(proposal, votes, uptime, key, winners, ranked, cp);
    SameElements(winners, ranked);
    if |winners| <= Room(proposal, key) {
      if OneVoteEach(proposal, key, winners) {
        OneVoteEachRearranged(proposal, key, winners, ranked);
      }
      if OneVoteEach(proposal, key, ranked) {
        OneVoteEachRearranged(proposal, key, ranked, winners);
      }
    }
    if Distinct(cp.voterIDs) {
      DistinctCardinality(cp.voterIDs);
    }
  }
}
