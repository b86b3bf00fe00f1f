/** Signed claims about a nara's state, and the verification of a checkpoint's signatures. */
module Attestations {
  import opened Decimal
  import opened Events

  const MIN_CHECKPOINT_SIGNATURES := 2

  datatype Attestation = Attestation(
    version: int,
    subject: NaraName,
    subjectID: NaraID,
    observation: NaraObservation,
    attester: NaraName,
    attesterID: NaraID,
    lastSeenCheckpointID: string,
    asOfTime: int,
    signature: Signature)

  /** Version 0 means version 1. */
  function EffectiveVersion(version: int): int {
    if version == 0 then 1 else version
  }

  /** The text that is signed. From version 2 on it ends with the last checkpoint the attester saw. */
  function SignableContent(a: Attestation): string {
    var version := EffectiveVersion(a.version);
    "attestation:v" + (FormatInt(version) + ":" + (a.attesterID + ":" + (a.subjectID + ":" + (
      FormatInt(a.asOfTime) + ":" + (FormatInt(a.observation.restarts) + ":" + (
        FormatInt(a.observation.totalUptime) + ":" +
        if version == 1 then FormatInt(a.observation.startTime)
        else FormatInt(a.observation.startTime) + ":" + a.lastSeenCheckpointID))))))
  }

  /** What a signature vouches for. The attester's and the subject's names are not in it. */
  predicate SameClaim(a: Attestation, b: Attestation) {
    && EffectiveVersion(a.version) == EffectiveVersion(b.version)
    && a.attesterID == b.attesterID && a.subjectID == b.subjectID
    && a.asOfTime == b.asOfTime && a.observation == b.observation
    && (EffectiveVersion(a.version) != 1 ==> a.lastSeenCheckpointID == b.lastSeenCheckpointID)
  }

  lemma {:induction false} FirstColon(a: string, x: string, b: string, y: string)
    requires a + ":" + x == b + ":" + y && ':' !in a && ':' !in b
    ensures a == b && x == y
  {
    var s, t := a + ":" + x, b + ":" + y;
    assert s[|a|] == ':' && t[|b|] == ':';
    assert |a| == |b|;
    assert a == s[..|a|] && b == t[..|b|];
    assert x == s[|a| + 1..] && y == t[|b| + 1..];
  }

  lemma FirstNumber(m: int, x: string, n: int, y: string)
    requires FormatInt(m) + ":" + x == FormatInt(n) + ":" + y
    ensures m == n && x == y
  {
    FormatIntHasNoColon(m);
    FormatIntHasNoColon(n);
    FirstColon(FormatInt(m), x, FormatInt(n), y);
    FormatIntInjective(m, n);
  }

  /** The signed text determines the claim, if the IDs contain no colon. */
  lemma ContentDeterminesClaim(a: Attestation, b: Attestation)
    requires SignableContent(a) == SignableContent(b)
    requires ':' !in a.attesterID && ':' !in a.subjectID && ':' !in b.attesterID && ':' !in b.subjectID
    ensures SameClaim(a, b)
  {
    var n := |"attestation:v"|;
    var va, vb := EffectiveVersion(a.version), EffectiveVersion(b.version);
    var a6 := if va == 1 then FormatInt(a.observation.startTime)
              else FormatInt(a.observation.startTime) + ":" + a.lastSeenCheckpointID;
    var b6 := if vb == 1 then FormatInt(b.observation.startTime)
              else FormatInt(b.observation.startTime) + ":" + b.lastSeenCheckpointID;
    var a5, b5 := FormatInt(a.observation.totalUptime) + ":" + a6, FormatInt(b.observation.totalUptime) + ":" + b6;
    var a4, b4 := FormatInt(a.observation.restarts) + ":" + a5, FormatInt(b.observation.restarts) + ":" + b5;
    var a3, b3 := FormatInt(a.asOfTime) + ":" + a4, FormatInt(b.asOfTime) + ":" + b4;
    var a2, b2 := a.subjectID + ":" + a3, b.subjectID + ":" + b3;
    var a1, b1 := a.attesterID + ":" + a2, b.attesterID + ":" + b2;
    assert SignableContent(a)[n..] == FormatInt(va) + ":" + a1;
    assert SignableContent(b)[n..] == FormatInt(vb) + ":" + b1;
    FirstNumber(va, a1, vb, b1);
    FirstColon(a.attesterID, a2, b.attesterID, b2);
    FirstColon(a.subjectID, a3, b.subjectID, b3);
    FirstNumber(a.asOfTime, a4, b.asOfTime, b4);
    FirstNumber(a.observation.restarts, a5, b.observation.restarts, b5);
    FirstNumber(a.observation.totalUptime, a6, b.observation.totalUptime, b6);
    if va == 1 {
      FormatIntInjective(a.observation.startTime, b.observation.startTime);
    } else {
      FirstNumber(a.observation.startTime, a.lastSeenCheckpointID, b.observation.startTime, b.lastSeenCheckpointID);
    }
  }

  lemma SameClaimSameContent(a: Attestation, b: Attestation)
    requires SameClaim(a, b)
    ensures SignableContent(a) == SignableContent(b)
  {
  }

  // ---------- verification of a checkpoint ----------

  datatype VerificationResult = VerificationResult(valid: bool, validCount: nat, knownCount: nat, totalCount: nat)

  /** The claim a voter's signature on the checkpoint has to vouch for. */
  function ExpectedClaim(cp: CheckpointPayload, voterID: NaraID): Attestation {
    Attestation(EffectiveVersion(cp.version), cp.subject, cp.subjectID, cp.observation, "", voterID,
                if EffectiveVersion(cp.version) >= 2 then cp.previousCheckpointID else "", cp.asOfTime, Unsigned(""))
  }

  predicate SignerKnown(cp: CheckpointPayload, keys: map<NaraID, string>, i: nat)
    requires i < |cp.voterIDs|
  {
    cp.voterIDs[i] in keys
  }

  predicate SignerValid(cp: CheckpointPayload, keys: map<NaraID, string>, i: nat)
    requires i < |cp.voterIDs| && |cp.signatures| == |cp.voterIDs|
  {
    && SignerKnown(cp, keys, i)
    && Verifies(keys[cp.voterIDs[i]], SignableContent(ExpectedClaim(cp, cp.voterIDs[i])), cp.signatures[i])
  }

  /** How many of the first `n` listed signatures verify. */
  function ValidSigners(cp: CheckpointPayload, keys: map<NaraID, string>, n: nat): nat
    requires n <= |cp.voterIDs| && |cp.signatures| == |cp.voterIDs|
  {
    if n == 0 then 0 else ValidSigners(cp, keys, n - 1) + if SignerValid(cp, keys, n - 1) then 1 else 0
  }

  function KnownSigners(cp: CheckpointPayload, keys: map<NaraID, string>, n: nat): nat
    requires n <= |cp.voterIDs|
  {
    if n == 0 then 0 else KnownSigners(cp, keys, n - 1) + if SignerKnown(cp, keys, n - 1) then 1 else 0
  }

  method VerifySignatureWithCounts(cp: CheckpointPayload, keys: map<NaraID, string>) returns (r: VerificationResult)
    ensures r.totalCount == |cp.voterIDs|
    ensures r.valid <==> r.validCount >= MIN_CHECKPOINT_SIGNATURES
    ensures |cp.signatures| != |cp.voterIDs| ==> r.validCount == 0 && r.knownCount == 0
    ensures |cp.signatures| == |cp.voterIDs| ==>
              && r.validCount == ValidSigners(cp, keys, |cp.voterIDs|)
              && r.knownCount == KnownSigners(cp, keys, |cp.voterIDs|)
  {
    if |cp.voterIDs| != |cp.signatures| {
      return VerificationResult(false, 0, 0, |cp.voterIDs|);
    }
    var validCount, knownCount := 0, 0;
    for i := 0 to |cp.voterIDs|
      invariant validCount == ValidSigners(cp, keys, i)
      invariant knownCount == KnownSigners(cp, keys, i)
    {
      var voterID := cp.voterIDs[i];
      if voterID !in keys {
        continue;
      }
      knownCount := knownCount + 1;
      var content := SignableContent(ExpectedClaim(cp, voterID));
      if Verifies(keys[voterID], content, cp.signatures[i]) {
        validCount := validCount + 1;
      }
    }
    r := VerificationResult(validCount >= MIN_CHECKPOINT_SIGNATURES, validCount, knownCount, |cp.voterIDs|);
  }

  /** At least two of the listed signatures verify. */
  ghost predicate TwoVerify(cp: CheckpointPayload, keys: map<NaraID, string>) {
    && |cp.signatures| == |cp.voterIDs|
    && exists i, j :: 0 <= i < j < |cp.voterIDs| && SignerValid(cp, keys, i) && SignerValid(cp, keys, j)
  }

  lemma {:induction false} SomeValid(cp: CheckpointPayload, keys: map<NaraID, string>, n: nat)
    requires n <= |cp.voterIDs| == |cp.signatures|
    ensures ValidSigners(cp, keys, n) >= 1 <==> exists i :: 0 <= i < n && SignerValid(cp, keys, i)
    ensures ValidSigners(cp, keys, n) >= 2 <==> exists i, j :: 0 <= i < j < n && SignerValid(cp, keys, i) && SignerValid(cp, keys, j)
  {
    if n > 0 {
      SomeValid(cp, keys, n - 1);
      if SignerValid(cp, keys, n - 1) && ValidSigners(cp, keys, n - 1) >= 1 {
        var i :| 0 <= i < n - 1 && SignerValid(cp, keys, i);
        assert 0 <= i < n - 1 < n && SignerValid(cp, keys, n - 1);
      }
    }
  }

  /** The attestation behind a listed signature: made by that voter, with its own key. */
  ghost predicate HonestlySigned(a: Attestation, keys: map<NaraID, string>) {
    a.attesterID in keys && a.signature == Signed(keys[a.attesterID], SignableContent(a))
  }

  /** A listed signature verifies exactly when its attestation makes the checkpoint's claim. */
  lemma VerifiesIffClaimMatches(cp: CheckpointPayload, keys: map<NaraID, string>, i: nat, a: Attestation)
    requires i < |cp.voterIDs| && |cp.signatures| == |cp.voterIDs|
    requires cp.voterIDs[i] == a.attesterID && cp.signatures[i] == a.signature && HonestlySigned(a, keys)
    requires ':' !in a.attesterID && ':' !in a.subjectID && ':' !in cp.subjectID
    ensures SignerValid(cp, keys, i) <==> SameClaim(a, ExpectedClaim(cp, a.attesterID))
  {
    var expected := ExpectedClaim(cp, a.attesterID);
    if SignerValid(cp, keys, i) {
      ContentDeterminesClaim(a, expected);
    }
    if SameClaim(a, expected) {
      SameClaimSameContent(a, expected);
    }
  }

  /** With a colon in an ID two different claims can have the same text. */
  lemma ColonsConfuseClaims() returns (a: Attestation, b: Attestation)
    ensures SignableContent(a) == SignableContent(b) && a.attesterID != b.attesterID && a.subjectID != b.subjectID
  {
    var o := NaraObservation(0, 0, 0);
    a := Attestation(2, "", "z", o, "", "x:y", "", 1, Unsigned(""));
    b := Attestation(2, "", "y:z", o, "", "x", "", 1, Unsigned(""));
    assert "x:y" + ":" + "z" == "x" + ":" + "y:z";
    var rest := FormatInt(1) + ":" + (FormatInt(0) + ":" + (FormatInt(0) + ":" + (FormatInt(0) + ":" + "")));
    assert "x:y" + ":" + ("z" + ":" + rest) == "x" + ":" + ("y:z" + ":" + rest);
  }
}
