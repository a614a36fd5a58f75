/** Ready and verifyPollProjection: the service's check of one poll's tables against its own log, and what passing it means
    for the index of spent credentials. The store is one value: Ready is taken while nothing else commits. */
module Ready {
  import opened Wrappers
  import opened Artifacts
  import opened Store
  import opened Members
  import opened Tallies
  import opened Sequencer
  import opened Refinement
  import opened Collisions
  import opened Safety
  import opened Audit
  import opened Completeness
  import History

  /* verifyPollProjection */

  // The order in which a query lists the rows of poll_credits: each fingerprint once.
  predicate Listing(order: seq<string>, credits: map<string, CreditRow>) {
    && (forall i :: 0 <= i < |order| ==> order[i] in credits)
    && (forall f | f in credits :: f in order)
    && (forall i, j :: 0 <= i < j < |order| ==> order[i] != order[j])
  }

  predicate KeyMatches(w: World, publicKey: string, fingerprint: string) {
    w.ssh.parse(publicKey).Some? && w.ssh.fingerprint(w.ssh.parse(publicKey).value) == fingerprint
  }

  function KeysOf(order: seq<string>, credits: map<string, CreditRow>): (keys: seq<string>)
    requires forall i :: 0 <= i < |order| ==> order[i] in credits
    ensures |keys| == |order|
  {
    seq(|order|, i requires 0 <= i < |order| => credits[order[i]].sshPublicKey)
  }

  predicate RowMatches(w: World, row: PollRow, poll: Poll) {
    && poll.schemaVersion == SCHEMA_VERSION && poll.protocol == PROTOCOL && row.pollID == poll.pollID
    && row.artifactHash == HashBytes(w, POLL_ARTIFACT, row.artifact)
    && row.closesAt == poll.closesAt && row.eligibilityCommitment == poll.eligibilityCommitment
  }

  predicate ChoicesMatch(rows: seq<ChoiceRow>, choices: seq<Choice>) {
    |rows| == |choices| && forall i :: 0 <= i < |rows| ==> rows[i] == ChoiceRow(choices[i].id, choices[i].title, i)
  }

  predicate CreditsMatch(w: World, credits: map<string, CreditRow>, order: seq<string>, poll: Poll) {
    && |order| == poll.eligibleCount
    && (forall i :: 0 <= i < |order| ==> order[i] in credits && KeyMatches(w, credits[order[i]].sshPublicKey, order[i]))
    && Normalized(w, KeysOf(order, credits)).Ok? && Normalized(w, KeysOf(order, credits)).value.1 == poll.eligibilityCommitment
  }

  predicate ProjectionMatches(w: World, file: PollFile, order: seq<string>, poll: Poll) {
    RowMatches(w, file.row, poll) && ChoicesMatch(file.choices, poll.choices) && CreditsMatch(w, file.credits, order, poll)
  }

  method VerifyPollProjection(w: World, file: PollFile, order: seq<string>, poll: Poll) returns (result: Result<()>)
    requires Listing(order, file.credits)
    ensures result == if ProjectionMatches(w, file, order, poll) then Ok(()) else Err("projection_content_mismatch")
  {
    hide Normalized, HashBytes;
    if poll.schemaVersion != SCHEMA_VERSION || poll.protocol != PROTOCOL || file.row.pollID != poll.pollID
       || file.row.artifactHash != HashBytes(w, POLL_ARTIFACT, file.row.artifact) || file.row.closesAt != poll.closesAt
       || file.row.eligibilityCommitment != poll.eligibilityCommitment || |file.choices| != |poll.choices| {
      return Err("projection_content_mismatch");
    }
    for index := 0 to |file.choices|
      invariant forall i :: 0 <= i < index ==> file.choices[i] == ChoiceRow(poll.choices[i].id, poll.choices[i].title, i)
    {
      var choice := file.choices[index];
      if choice.position != index || choice.choiceID != poll.choices[index].id || choice.title != poll.choices[index].title {
        return Err("projection_content_mismatch");
      }
    }
    if |order| != poll.eligibleCount {
      return Err("projection_content_mismatch");
    }
    var encodedKeys: seq<string> := [];
    for index := 0 to |order|
      invariant encodedKeys == KeysOf(order, file.credits)[..index]
      invariant forall i :: 0 <= i < index ==> KeyMatches(w, file.credits[order[i]].sshPublicKey, order[i])
    {
      var credit := file.credits[order[index]];
      if !KeyMatches(w, credit.sshPublicKey, order[index]) {
        return Err("projection_content_mismatch");
      }
      encodedKeys := encodedKeys + [credit.sshPublicKey];
    }
    assert encodedKeys == KeysOf(order, file.credits);
    var normalized := NormalizeMembers(w, encodedKeys);
    if normalized.Err? || normalized.value.1 != poll.eligibilityCommitment {
      return Err("projection_content_mismatch");
    }
    return Ok(());
  }

  /* The credit stream */

  function RequestOf(row: CreditRow): string { if row.claim.Some? then row.claim.value.requestID else "" }
  function BlindedOf(row: CreditRow): string { if row.claim.Some? then row.claim.value.blindedMessageHash else "" }
  function SignatureOf(row: CreditRow): string { if row.claim.Some? then row.claim.value.blindSignature else "" }

  // The key a credit event names, where its artifact is a claim.
  function ClaimantOf(w: World, event: CreditEvent): Option<string> {
    match w.credit.read(event.artifact)
    case None => None
    case Some(record) => if record.kind == "credit_claimed" && record.sshFingerprint != "" then Some(record.sshFingerprint) else None
  }

  // The row of the claimant holds what the event records.
  predicate RowAgrees(w: World, credits: map<string, CreditRow>, record: CreditRecord) {
    && record.sshFingerprint in credits
    && RequestOf(credits[record.sshFingerprint]) == record.issuanceRequestID
    && BlindedOf(credits[record.sshFingerprint]) == record.blindedMessageHash
    && HashBytes(w, "vota:blind-signature:v1", SignatureOf(credits[record.sshFingerprint])) == record.blindSignatureHash
  }

  predicate CreditEventSound(w: World, p: string, credits: map<string, CreditRow>, event: CreditEvent) {
    && ClaimantOf(w, event).Some? && RowAgrees(w, credits, w.credit.read(event.artifact).value)
    && match w.checkpoint.read(event.signature)
       case None => false
       case Some(checkpoint) =>
         && checkpoint.pollID == p && checkpoint.sequence == event.sequence && checkpoint.eventHash == event.eventHash
         && VerifyCheckpoint(w, CREDIT_CHECKPOINTS, w.keyText, checkpoint)
  }

  predicate ClaimedBefore(w: World, events: seq<CreditEvent>, n: nat, fingerprint: string)
    requires n <= |events|
  {
    exists i :: 0 <= i < n && ClaimantOf(w, events[i]) == Some(fingerprint)
  }

  // What Ready finds wrong with the i-th credit event.
  function CreditProblem(w: World, p: string, credits: map<string, CreditRow>, events: seq<CreditEvent>, i: nat): Option<string>
    requires i < |events|
  {
    var event := events[i];
    match ClaimantOf(w, event)
    case None => Some("projection_content_mismatch")
    case Some(fingerprint) =>
      if ClaimedBefore(w, events, i, fingerprint) || !RowAgrees(w, credits, w.credit.read(event.artifact).value)
      then Some("projection_content_mismatch")
      else match w.checkpoint.read(event.signature)
           case None => Some("invalid_credit_checkpoint")
           case Some(checkpoint) =>
             if checkpoint.pollID != p || checkpoint.sequence != event.sequence || checkpoint.eventHash != event.eventHash
             then Some("invalid_credit_checkpoint")
             else if !VerifyCheckpoint(w, CREDIT_CHECKPOINTS, w.keyText, checkpoint) then Some("invalid_sequencer_signature")
             else None
  }

  predicate CreditsFine(w: World, p: string, credits: map<string, CreditRow>, events: seq<CreditEvent>, n: nat)
    requires n <= |events|
  {
    forall i :: 0 <= i < n ==> CreditProblem(w, p, credits, events, i).None?
  }

  predicate DistinctClaimants(w: World, events: seq<CreditEvent>) {
    forall i, j :: 0 <= i < j < |events| ==> ClaimantOf(w, events[i]) != ClaimantOf(w, events[j])
  }

  predicate CreditStreamSound(w: World, p: string, credits: map<string, CreditRow>, events: seq<CreditEvent>) {
    && NumberedCredits(events) && ChainedCredits(w, p, events)
    && (forall i :: 0 <= i < |events| ==> CreditEventSound(w, p, credits, events[i]))
    && DistinctClaimants(w, events)
  }

  // The code a credit stream is rejected with: the replay's, or that of the first bad event.
  predicate CreditsReject(w: World, p: string, credits: map<string, CreditRow>, events: seq<CreditEvent>, code: string) {
    if !(NumberedCredits(events) && ChainedCredits(w, p, events)) then FirstProblem(w, "credit", CreditLinks(p, events), code)
    else exists i :: 0 <= i < |events| && CreditsFine(w, p, credits, events, i) && CreditProblem(w, p, credits, events, i) == Some(code)
  }

  lemma CreditProblemMeans(w: World, p: string, credits: map<string, CreditRow>, events: seq<CreditEvent>, i: nat)
    requires i < |events|
    ensures CreditProblem(w, p, credits, events, i).None? <==>
              CreditEventSound(w, p, credits, events[i]) && !ClaimedBefore(w, events, i, ClaimantOf(w, events[i]).value)
  {
    hide RowAgrees, VerifyCheckpoint, ClaimedBefore;
  }

  // No event has a problem exactly when each is sound and no key is named twice.
  lemma CreditsFineMeans(w: World, p: string, credits: map<string, CreditRow>, events: seq<CreditEvent>)
    ensures CreditsFine(w, p, credits, events, |events|) <==>
              (forall i :: 0 <= i < |events| ==> CreditEventSound(w, p, credits, events[i])) && DistinctClaimants(w, events)
  {
    hide CreditProblem, CreditEventSound, ClaimantOf;
    forall i: nat | i < |events| ensures CreditEventSound(w, p, credits, events[i]) ==> ClaimantOf(w, events[i]).Some? {
      CreditEventClaimant(w, p, credits, events[i]);
    }
    forall i: nat | i < |events| ensures CreditProblem(w, p, credits, events, i).None? <==>
              CreditEventSound(w, p, credits, events[i]) && !ClaimedBefore(w, events, i, ClaimantOf(w, events[i]).value) {
      CreditProblemMeans(w, p, credits, events, i);
    }
  }

  method CheckCreditEvent(w: World, p: string, credits: map<string, CreditRow>, events: seq<CreditEvent>, index: nat, seen: set<string>)
    returns (problem: Option<string>)
    requires index < |events| && forall f :: f in seen <==> ClaimedBefore(w, events, index, f)
    ensures problem == CreditProblem(w, p, credits, events, index)
  {
    hide ClaimedBefore, HashBytes, VerifyCheckpoint;
    var event := events[index];
    var record := w.credit.read(event.artifact);
    if record.None? || record.value.kind != "credit_claimed" || record.value.sshFingerprint == "" {
      return Some("projection_content_mismatch");
    }
    var fingerprint := record.value.sshFingerprint;
    if fingerprint in seen {
      return Some("projection_content_mismatch");
    }
    if fingerprint !in credits {
      return Some("projection_content_mismatch");
    }
    var credit := credits[fingerprint];
    if RequestOf(credit) != record.value.issuanceRequestID || BlindedOf(credit) != record.value.blindedMessageHash
       || HashBytes(w, "vota:blind-signature:v1", SignatureOf(credit)) != record.value.blindSignatureHash {
      return Some("projection_content_mismatch");
    }
    var checkpoint := w.checkpoint.read(event.signature);
    if checkpoint.None? || checkpoint.value.pollID != p || checkpoint.value.sequence != event.sequence
       || checkpoint.value.eventHash != event.eventHash {
      return Some("invalid_credit_checkpoint");
    }
    if !VerifyCheckpoint(w, CREDIT_CHECKPOINTS, w.keyText, checkpoint.value) {
      return Some("invalid_sequencer_signature");
    }
    return None;
  }

  method CheckCredits(w: World, p: string, credits: map<string, CreditRow>, events: seq<CreditEvent>) returns (result: Result<()>)
    ensures result.Ok? <==> CreditStreamSound(w, p, credits, events)
    ensures result.Err? ==> CreditsReject(w, p, credits, events, result.code)
  {
    hide CreditProblem, CreditEventSound, ClaimantOf, NumberedCredits, ChainedCredits, DistinctClaimants, CreditLinks, ClaimedBefore;
    var replayed := ReplayCredit(w, p, events);
    if replayed.Err? {
      return Err(replayed.code);
    }
    CreditsFineMeans(w, p, credits, events);
    NoneClaimed(w, events);
    var seen: set<string> := {};
    for index := 0 to |events|
      invariant CreditsFine(w, p, credits, events, index)
      invariant forall f :: f in seen <==> ClaimedBefore(w, events, index, f)
    {
      var problem := CheckCreditEvent(w, p, credits, events, index, seen);
      if problem.Some? {
        return Err(problem.value);
      }
      ClaimedNext(w, p, credits, events, index);
      seen := seen + {w.credit.read(events[index].artifact).value.sshFingerprint};
    }
    return Ok(());
  }

  lemma NoneClaimed(w: World, events: seq<CreditEvent>)
    ensures forall f :: !ClaimedBefore(w, events, 0, f)
  {
  }

  lemma ClaimedNext(w: World, p: string, credits: map<string, CreditRow>, events: seq<CreditEvent>, n: nat)
    requires n < |events| && CreditProblem(w, p, credits, events, n).None?
    ensures w.credit.read(events[n].artifact).Some?
    ensures forall f :: ClaimedBefore(w, events, n + 1, f) <==>
              ClaimedBefore(w, events, n, f) || f == w.credit.read(events[n].artifact).value.sshFingerprint
  {
    hide RowAgrees, VerifyCheckpoint;
  }

  lemma CreditEventClaimant(w: World, p: string, credits: map<string, CreditRow>, event: CreditEvent)
    ensures CreditEventSound(w, p, credits, event) ==> ClaimantOf(w, event).Some?
  {
  }

  /* The ballot stream */

  predicate KindSound(w: World, artifactHash: string, events: seq<BallotEvent>, i: nat)
    requires i < |events|
  {
    var event := events[i];
    if event.kind == "poll_created" then i == 0 && w.created.read(event.artifact) == Some(PollCreatedRecord("poll_created", artifactHash))
    else if event.kind == "ballot_accepted" then i != 0
    else event.kind == "poll_closed" && i != 0 && i == |events| - 1
  }

  predicate KindsSound(w: World, row: PollRow, events: seq<BallotEvent>) {
    && (forall i :: 0 <= i < |events| ==> KindSound(w, row.artifactHash, events, i))
    && events != []
    && ((events[|events| - 1].kind == "poll_closed") <==> row.state == "closed")
    && (row.state == "open" ==> row.closedAt == "") && (row.state == "closed" ==> row.closedAt != "")
  }

  method CheckKinds(w: World, row: PollRow, events: seq<BallotEvent>) returns (result: Result<()>)
    ensures result == if KindsSound(w, row, events) then Ok(()) else Err("poll_state_mismatch")
  {
    var closedEvent := false;
    for index := 0 to |events|
      invariant forall i :: 0 <= i < index ==> KindSound(w, row.artifactHash, events, i)
      invariant closedEvent <==> index > 0 && events[index - 1].kind == "poll_closed"
      invariant closedEvent ==> index == |events|
    {
      var event := events[index];
      match event.kind {
        case "poll_created" =>
          var record := w.created.read(event.artifact);
          if index != 0 || record.None? || record.value.kind != "poll_created" || record.value.pollHash != row.artifactHash {
            assert !KindSound(w, row.artifactHash, events, index);
            return Err("poll_state_mismatch");
          }
        case "ballot_accepted" =>
          if index == 0 || closedEvent {
            assert !KindSound(w, row.artifactHash, events, index);
            return Err("poll_state_mismatch");
          }
        case "poll_closed" =>
          if index == 0 || index != |events| - 1 || closedEvent {
            assert !KindSound(w, row.artifactHash, events, index);
            return Err("poll_state_mismatch");
          }
          closedEvent := true;
        case _ =>
          assert !KindSound(w, row.artifactHash, events, index);
          return Err("poll_state_mismatch");
      }
    }
    if |events| == 0 || closedEvent != (row.state == "closed") || (row.state == "open" && row.closedAt != "")
       || (row.state == "closed" && row.closedAt == "") {
      return Err("poll_state_mismatch");
    }
    return Ok(());
  }

  // The credential hash of an accepted ballot's record.
  function SpenderOf(w: World, event: BallotEvent): Option<string> {
    if event.kind == "ballot_accepted" && w.ballot.read(event.artifact).Some?
    then Some(w.ballot.read(event.artifact).value.credentialHash) else None
  }

  predicate BallotSound(w: World, p: string, file: PollFile, poll: Poll, event: BallotEvent) {
    match w.ballot.read(event.artifact)
    case None => false
    case Some(record) =>
      && record.sequence == event.sequence && record.pollID == p && ChoiceExists(poll.choices, record.choiceID)
      && VerifyWireCredential(w, poll, record.credential) == Ok(record.credentialHash)
      && Indexed(file, record.credentialHash, event)
      && match w.receipt.read(event.receipt)
         case None => false
         case Some(receipt) =>
           && receipt.eventHash == event.eventHash && receipt.credentialHash == record.credentialHash
           && receipt.choiceID == record.choiceID && VerifyReceipt(w, w.keyText, receipt)
  }

  // The index leads from the credential to this event.
  predicate Indexed(file: PollFile, credentialHash: string, event: BallotEvent) {
    credentialHash in file.spent &&
    var projected := FindEvent(file.ballotEvents, file.spent[credentialHash]);
    projected.Some? && projected.value.sequence == event.sequence && projected.value.eventHash == event.eventHash
  }

  predicate DistinctSpenders(w: World, events: seq<BallotEvent>) {
    forall i, j :: 0 <= i < j < |events| && events[i].kind == events[j].kind == "ballot_accepted" ==>
      SpenderOf(w, events[i]) != SpenderOf(w, events[j])
  }

  predicate AllSound(w: World, p: string, file: PollFile, poll: Poll, events: seq<BallotEvent>) {
    forall i :: 0 <= i < |events| && events[i].kind == "ballot_accepted" ==> BallotSound(w, p, file, poll, events[i])
  }

  predicate BallotsSound(w: World, p: string, file: PollFile, poll: Poll) {
    AllSound(w, p, file, poll, file.ballotEvents) && DistinctSpenders(w, file.ballotEvents)
  }

  // The hashes of the credentials of the accepted ballots, by scanning the log.
  function Spenders(w: World, events: seq<BallotEvent>): set<string> {
    set i | 0 <= i < |events| && SpenderOf(w, events[i]).Some? :: SpenderOf(w, events[i]).value
  }

  lemma SpendersNext(w: World, init: seq<BallotEvent>, last: BallotEvent)
    ensures Spenders(w, init + [last]) == Spenders(w, init) + match SpenderOf(w, last) case None => {} case Some(c) => {c}
  {
    hide SpenderOf;
    var events := init + [last];
    forall x ensures x in Spenders(w, events) <==> x in Spenders(w, init) || SpenderOf(w, last) == Some(x) {
      if x in Spenders(w, init) {
        var i :| 0 <= i < |init| && SpenderOf(w, init[i]) == Some(x);
        assert SpenderOf(w, events[i]) == Some(x);
      }
      assert events[|init|] == last;
      if x in Spenders(w, events) {
        var i :| 0 <= i < |events| && SpenderOf(w, events[i]) == Some(x);
        assert i < |init| ==> init[i] == events[i];
      }
    }
  }

  // A ballot keeps the spenders distinct exactly when its credential is new.
  lemma DistinctNext(w: World, init: seq<BallotEvent>, last: BallotEvent, c: string)
    requires SpenderOf(w, last) == Some(c) && DistinctSpenders(w, init)
    ensures DistinctSpenders(w, init + [last]) <==> c !in Spenders(w, init)
  {
    var events := init + [last];
    assert events[|init|] == last && forall i :: 0 <= i < |init| ==> events[i] == init[i];
    if c in Spenders(w, init) {
      var i :| 0 <= i < |init| && SpenderOf(w, init[i]) == Some(c);
      assert SpenderOf(w, events[i]) == SpenderOf(w, events[|init|]);
    } else {
      forall i, j | 0 <= i < j < |events| && events[i].kind == events[j].kind == "ballot_accepted"
        ensures SpenderOf(w, events[i]) != SpenderOf(w, events[j]) {
        assert SpenderOf(w, init[i]) != Some(c);
      }
    }
  }

  lemma OtherNext(w: World, init: seq<BallotEvent>, last: BallotEvent)
    requires last.kind != "ballot_accepted" && DistinctSpenders(w, init)
    ensures DistinctSpenders(w, init + [last]) && SpenderOf(w, last).None?
  {
  }

  lemma PrefixDistinct(w: World, events: seq<BallotEvent>, n: nat)
    requires n <= |events| && DistinctSpenders(w, events)
    ensures DistinctSpenders(w, events[..n])
  {
  }

  // What Ready finds wrong with the i-th event, if it is an accepted ballot.
  function StoredProblem(w: World, p: string, file: PollFile, poll: Poll, i: nat): Option<string>
    requires i < |file.ballotEvents|
  {
    var event := file.ballotEvents[i];
    if event.kind != "ballot_accepted" then None else
    match w.ballot.read(event.artifact)
    case None => Some("invalid_stored_ballot")
    case Some(record) =>
      if record.sequence != event.sequence || record.pollID != p || !ChoiceExists(poll.choices, record.choiceID)
      then Some("invalid_stored_ballot")
      else if record.credentialHash in Spenders(w, file.ballotEvents[..i]) then Some("duplicate_credential")
      else if VerifyWireCredential(w, poll, record.credential) != Ok(record.credentialHash) then Some("invalid_credential")
      else if !Indexed(file, record.credentialHash, event) then Some("projection_content_mismatch")
      else match w.receipt.read(event.receipt)
           case None => Some("invalid_stored_receipt")
           case Some(receipt) =>
             if receipt.eventHash != event.eventHash || receipt.credentialHash != record.credentialHash
                || receipt.choiceID != record.choiceID then Some("invalid_stored_receipt")
             else ReceiptVerdict(w, w.keyText, receipt)
  }

  predicate StoredFine(w: World, p: string, file: PollFile, poll: Poll, n: nat)
    requires n <= |file.ballotEvents|
  {
    forall i :: 0 <= i < n ==> StoredProblem(w, p, file, poll, i).None?
  }

  predicate BallotsReject(w: World, p: string, file: PollFile, poll: Poll, code: string) {
    exists i :: 0 <= i < |file.ballotEvents| && StoredFine(w, p, file, poll, i) && StoredProblem(w, p, file, poll, i) == Some(code)
  }

  lemma StoredProblemMeans(w: World, p: string, file: PollFile, poll: Poll, i: nat)
    requires i < |file.ballotEvents| && file.ballotEvents[i].kind == "ballot_accepted"
    ensures StoredProblem(w, p, file, poll, i).None? <==>
              BallotSound(w, p, file, poll, file.ballotEvents[i])
              && SpenderOf(w, file.ballotEvents[i]).value !in Spenders(w, file.ballotEvents[..i])
    ensures BallotSound(w, p, file, poll, file.ballotEvents[i]) ==> SpenderOf(w, file.ballotEvents[i]).Some?
  {
    hide VerifyWireCredential, ChoiceExists, Indexed, VerifyReceipt, ReceiptVerdict, Spenders;
    var receipt := w.receipt.read(file.ballotEvents[i].receipt);
    if receipt.Some? { VerdictMeans(w, w.keyText, receipt.value); }
  }

  // No event up to n has a problem exactly when the ballots up to n are sound and of distinct credentials.
  lemma {:induction false} StoredFineMeans(w: World, p: string, file: PollFile, poll: Poll, n: nat)
    requires n <= |file.ballotEvents|
    ensures var events := file.ballotEvents[..n];
            StoredFine(w, p, file, poll, n) <==> AllSound(w, p, file, poll, events) && DistinctSpenders(w, events)
  {
    hide StoredProblem, BallotSound, DistinctSpenders, Spenders, SpenderOf;
    if n == 0 {
      NoSpenders(w);
      assert file.ballotEvents[..0] == [];
    } else {
      var (init, last) := (file.ballotEvents[..n - 1], file.ballotEvents[n - 1]);
      StoredFineMeans(w, p, file, poll, n - 1);
      assert file.ballotEvents[..n] == init + [last];
      assert file.ballotEvents[..n][..n - 1] == init;
      if DistinctSpenders(w, file.ballotEvents[..n]) { PrefixDistinct(w, file.ballotEvents[..n], n - 1); }
      StoredNext(w, p, file, poll, n - 1);
    }
  }

  // One more event: without a problem exactly when it is no ballot, or a sound one of a new credential.
  lemma StoredNext(w: World, p: string, file: PollFile, poll: Poll, k: nat)
    requires k < |file.ballotEvents|
    ensures var (init, last) := (file.ballotEvents[..k], file.ballotEvents[k]);
            DistinctSpenders(w, init) ==>
              (StoredProblem(w, p, file, poll, k).None? <==>
                 (last.kind == "ballot_accepted" ==> BallotSound(w, p, file, poll, last)) && DistinctSpenders(w, init + [last]))
  {
    hide BallotSound, DistinctSpenders, Spenders;
    var (init, last) := (file.ballotEvents[..k], file.ballotEvents[k]);
    if DistinctSpenders(w, init) {
      if last.kind == "ballot_accepted" {
        StoredProblemMeans(w, p, file, poll, k);
        if BallotSound(w, p, file, poll, last) { DistinctNext(w, init, last, SpenderOf(w, last).value); }
      } else {
        OtherNext(w, init, last);
      }
    }
  }

  method CheckStoredBallot(w: World, p: string, file: PollFile, poll: Poll, index: nat, seen: set<string>) returns (problem: Option<string>)
    requires index < |file.ballotEvents| && file.ballotEvents[index].kind == "ballot_accepted"
    requires seen == Spenders(w, file.ballotEvents[..index])
    ensures problem == StoredProblem(w, p, file, poll, index)
  {
    hide Spenders, VerifyWireCredential, ChoiceExists, ReceiptVerdict;
    var event := file.ballotEvents[index];
    var record := w.ballot.read(event.artifact);
    if record.None? || record.value.sequence != event.sequence || record.value.pollID != p
       || !ChoiceExists(poll.choices, record.value.choiceID) {
      return Some("invalid_stored_ballot");
    }
    var hash := record.value.credentialHash;
    if hash in seen {
      return Some("duplicate_credential");
    }
    var verified := VerifyWireCredential(w, poll, record.value.credential);
    if verified.Err? || verified.value != hash {
      return Some("invalid_credential");
    }
    var projected := if hash in file.spent then FindEvent(file.ballotEvents, file.spent[hash]) else None;
    if projected.None? || projected.value.sequence != event.sequence || projected.value.eventHash != event.eventHash {
      return Some("projection_content_mismatch");
    }
    var receipt := w.receipt.read(event.receipt);
    if receipt.None? || receipt.value.eventHash != event.eventHash || receipt.value.credentialHash != hash
       || receipt.value.choiceID != record.value.choiceID {
      return Some("invalid_stored_receipt");
    }
    return ReceiptVerdict(w, w.keyText, receipt.value);
  }

  method CheckBallots(w: World, p: string, file: PollFile, poll: Poll) returns (result: Result<nat>)
    ensures result.Ok? <==> BallotsSound(w, p, file, poll)
    ensures result.Ok? ==> result.value == Accepted(file.ballotEvents)
    ensures result.Err? ==> BallotsReject(w, p, file, poll, result.code)
  {
    hide StoredProblem, BallotSound, DistinctSpenders, Spenders, SpenderOf, Accepted;
    var events := file.ballotEvents;
    var seen: set<string> := {};
    var accepted := 0;
    assert events[..0] == [] && events[..|events|] == events;
    NoSpenders(w);
    StoredFineMeans(w, p, file, poll, |events|);
    for index := 0 to |events|
      invariant StoredFine(w, p, file, poll, index)
      invariant seen == Spenders(w, events[..index])
      invariant accepted == Accepted(events[..index])
    {
      AcceptedNext(w, p, file, poll, index);
      if events[index].kind == "ballot_accepted" {
        var problem := CheckStoredBallot(w, p, file, poll, index, seen);
        if problem.Some? {
          return Err(problem.value);
        }
        seen := seen + {w.ballot.read(events[index].artifact).value.credentialHash};
        accepted := accepted + 1;
      }
    }
    return Ok(accepted);
  }

  // What one more event adds to the credentials seen and the ballots counted.
  lemma AcceptedNext(w: World, p: string, file: PollFile, poll: Poll, k: nat)
    requires k < |file.ballotEvents|
    ensures var (events, event) := (file.ballotEvents, file.ballotEvents[k]);
            if event.kind != "ballot_accepted" then
              && StoredProblem(w, p, file, poll, k).None?
              && Spenders(w, events[..k + 1]) == Spenders(w, events[..k]) && Accepted(events[..k + 1]) == Accepted(events[..k])
            else
              && Accepted(events[..k + 1]) == Accepted(events[..k]) + 1
              && (StoredProblem(w, p, file, poll, k).None? ==>
                    && w.ballot.read(event.artifact).Some?
                    && Spenders(w, events[..k + 1]) == Spenders(w, events[..k]) + {w.ballot.read(event.artifact).value.credentialHash})
  {
    hide Spenders, VerifyWireCredential, ChoiceExists, Indexed, ReceiptVerdict;
    var events := file.ballotEvents;
    assert events[..k + 1] == events[..k] + [events[k]];
    assert History.Init(events[..k + 1]) == events[..k];
    SpendersNext(w, events[..k], events[k]);
  }

  lemma NoSpenders(w: World)
    ensures DistinctSpenders(w, []) && Spenders(w, []) == {} && Accepted([]) == 0
  {
  }

  predicate CheckpointSound(w: World, row: CheckpointRow, event: BallotEvent) {
    match w.checkpoint.read(row.artifact)
    case None => false
    case Some(checkpoint) => checkpoint.eventHash == event.eventHash && VerifyCheckpoint(w, BALLOT_CHECKPOINTS, w.keyText, checkpoint)
  }

  function CheckpointProblem(w: World, row: CheckpointRow, event: BallotEvent): Option<string> {
    match w.checkpoint.read(row.artifact)
    case None => Some("invalid_stored_checkpoint")
    case Some(checkpoint) =>
      if checkpoint.eventHash != event.eventHash then Some("invalid_stored_checkpoint")
      else if !VerifyCheckpoint(w, BALLOT_CHECKPOINTS, w.keyText, checkpoint) then Some("invalid_sequencer_signature")
      else None
  }

  predicate CheckpointsReject(w: World, file: PollFile, code: string) {
    if |file.checkpoints| != |file.ballotEvents| then code == "checkpoint_projection_mismatch"
    else exists i :: 0 <= i < |file.checkpoints|
                     && (forall j :: 0 <= j < i ==> CheckpointSound(w, file.checkpoints[j], file.ballotEvents[j]))
                     && CheckpointProblem(w, file.checkpoints[i], file.ballotEvents[i]) == Some(code)
  }

  method CheckCheckpoints(w: World, file: PollFile) returns (result: Result<()>)
    ensures result.Ok? <==> CheckpointsSound(w, file)
    ensures result.Err? ==> CheckpointsReject(w, file, result.code)
  {
    hide VerifyCheckpoint;
    if |file.checkpoints| != |file.ballotEvents| {
      return Err("checkpoint_projection_mismatch");
    }
    for index := 0 to |file.checkpoints|
      invariant forall i :: 0 <= i < index ==> CheckpointSound(w, file.checkpoints[i], file.ballotEvents[i])
    {
      var checkpoint := w.checkpoint.read(file.checkpoints[index].artifact);
      if checkpoint.None? || checkpoint.value.eventHash != file.ballotEvents[index].eventHash {
        assert CheckpointProblem(w, file.checkpoints[index], file.ballotEvents[index]) == Some("invalid_stored_checkpoint");
        return Err("invalid_stored_checkpoint");
      }
      if !VerifyCheckpoint(w, BALLOT_CHECKPOINTS, w.keyText, checkpoint.value) {
        assert CheckpointProblem(w, file.checkpoints[index], file.ballotEvents[index]) == Some("invalid_sequencer_signature");
        return Err("invalid_sequencer_signature");
      }
    }
    return Ok(());
  }

  predicate CheckpointsSound(w: World, file: PollFile) {
    && |file.checkpoints| == |file.ballotEvents|
    && forall i :: 0 <= i < |file.checkpoints| ==> CheckpointSound(w, file.checkpoints[i], file.ballotEvents[i])
  }

  // ProjectionCounts: the rows of poll_credits with a request id, and of spent_credentials.
  predicate CountsAgree(file: PollFile) {
    |file.creditEvents| == |ClaimedRows(file.credits)| && Accepted(file.ballotEvents) == |file.spent|
  }

  // The bundle Ready audits: all of Audit's reads of one store.
  function Audited(w: World, db: Db, p: string): Result<AuditBundle> {
    AuditFrom(w, [db, db, db, db, db, db, db], p)
  }

  predicate TallySound(w: World, db: Db, p: string)
    requires p in db
  {
    if db[p].row.state == "closed" then
      Audited(w, db, p).Ok? && Accepts(w, Audited(w, db, p).value) && db[p].row.closedAt == Audited(w, db, p).value.tally.closedAt
    else db[p].tally.None?
  }

  /** Everything Ready checks of one poll. */
  predicate PollSound(w: World, db: Db, p: string, order: seq<string>)
    requires p in db
  {
    var file := db[p];
    match w.poll.read(file.row.artifact)
    case None => false
    case Some(poll) =>
      && RequireIssuer(w, file.row).Ok? && VerifyPollArtifact(w, poll)
      && ProjectionMatches(w, file, order, poll)
      && CreditStreamSound(w, p, file.credits, file.creditEvents)
      && Numbered(file.ballotEvents) && Chained(w, p, file.ballotEvents)
      && KindsSound(w, file.row, file.ballotEvents)
      && BallotsSound(w, p, file, poll) && CountsAgree(file) && CheckpointsSound(w, file) && TallySound(w, db, p)
  }

  // The integers of a stored tally are Go ints.
  predicate StoredInRange(w: World, db: Db, p: string) {
    Audited(w, db, p).Ok? ==> InRange(Audited(w, db, p).value.tally)
  }

  // The poll artifact's own check, with its codes.
  function ArtifactProblem(w: World, poll: Poll): Option<string> {
    if !w.keyDecodes(poll.checkpointPublicKey) then Some("invalid_checkpoint_public_key")
    else if !VerifyPoll(w, poll.checkpointPublicKey, poll) then Some("invalid_sequencer_signature")
    else None
  }

  // The code a tally is rejected with: Audit's, VerifyAudit's, or a mismatch of state.
  predicate TallyRejects(w: World, db: Db, p: string, code: string)
    requires p in db
  {
    if db[p].row.state != "closed" then code == "poll_state_mismatch"
    else if Audited(w, db, p).Err? then Audited(w, db, p).code == code
    else if !Accepts(w, Audited(w, db, p).value) then RejectsWith(w, Audited(w, db, p).value, code)
    else code == "poll_state_mismatch"
  }

  // The code Ready reports for a poll, stage by stage.
  predicate PollRejects(w: World, db: Db, p: string, order: seq<string>, code: string)
    requires p in db
  {
    var file := db[p];
    match w.poll.read(file.row.artifact)
    case None => code == "invalid_stored_poll"
    case Some(poll) =>
      if RequireIssuer(w, file.row).Err? then code == RequireIssuer(w, file.row).code
      else if !VerifyPollArtifact(w, poll) then ArtifactProblem(w, poll) == Some(code)
      else if !ProjectionMatches(w, file, order, poll) then code == "projection_content_mismatch"
      else if !CreditStreamSound(w, p, file.credits, file.creditEvents) then CreditsReject(w, p, file.credits, file.creditEvents, code)
      else if !(Numbered(file.ballotEvents) && Chained(w, p, file.ballotEvents))
      then FirstProblem(w, "ballot", BallotLinks(p, file.ballotEvents), code)
      else if !KindsSound(w, file.row, file.ballotEvents) then code == "poll_state_mismatch"
      else if !BallotsSound(w, p, file, poll) then BallotsReject(w, p, file, poll, code)
      else if !CountsAgree(file) then code == "projection_count_mismatch"
      else if !CheckpointsSound(w, file) then CheckpointsReject(w, file, code)
      else TallyRejects(w, db, p, code)
  }

  method CheckTally(w: World, db: Db, p: string) returns (result: Result<()>)
    requires p in db && StoredInRange(w, db, p)
    ensures result.Ok? <==> TallySound(w, db, p)
    ensures result.Err? ==> TallyRejects(w, db, p, result.code)
  {
    hide Audited, Accepts, RejectsWith, InRange;
    var file := db[p];
    if file.row.state != "closed" {
      return if file.tally.None? then Ok(()) else Err("poll_state_mismatch");
    }
    var bundle := ServeAudit(w, [db, db, db, db, db, db, db], p);
    AuditedIs(w, db, p);
    if bundle.Err? {
      return Err(bundle.code);
    }
    var verified := VerifyAudit(w, bundle.value);
    if verified.Err? {
      return verified;
    }
    return if file.row.closedAt == bundle.value.tally.closedAt then Ok(()) else Err("poll_state_mismatch");
  }

  // One poll, in the order Ready looks at it.
  method CheckPoll(w: World, db: Db, p: string, order: seq<string>) returns (result: Result<()>)
    requires p in db && Listing(order, db[p].credits) && StoredInRange(w, db, p)
    ensures result.Ok? <==> PollSound(w, db, p, order)
    ensures result.Err? ==> PollRejects(w, db, p, order, result.code)
  {
    hide RequireIssuer, RowMatches, ChoicesMatch, CreditsMatch, CreditStreamSound, Numbered, Chained, KindsSound, VerifyPoll,
         BallotsSound, CheckpointsSound, TallySound, ClaimedRows, Accepted, Listing, StoredInRange, CreditsReject, BallotsReject,
         CheckpointsReject, TallyRejects, BallotLinks, FirstProblem;
    var file := db[p];
    var artifact := w.poll.read(file.row.artifact);
    if artifact.None? {
      return Err("invalid_stored_poll");
    }
    var poll := artifact.value;
    var issuer := RequireIssuer(w, file.row);
    if issuer.Err? {
      return issuer;
    }
    var problem := ArtifactProblem(w, poll);
    if problem.Some? {
      return Err(problem.value);
    }
    var projection := VerifyPollProjection(w, file, order, poll);
    if projection.Err? {
      return projection;
    }
    var credits := CheckCredits(w, p, file.credits, file.creditEvents);
    if credits.Err? {
      return credits;
    }
    var replayed := ReplayBallot(w, p, file.ballotEvents);
    if replayed.Err? {
      return Err(replayed.code);
    }
    var kinds := CheckKinds(w, file.row, file.ballotEvents);
    if kinds.Err? {
      return kinds;
    }
    var ballots := CheckBallots(w, p, file, poll);
    if ballots.Err? {
      return Err(ballots.code);
    }
    if |file.creditEvents| != |ClaimedRows(file.credits)| || ballots.value != |file.spent| {
      return Err("projection_count_mismatch");
    }
    var checkpoints := CheckCheckpoints(w, file);
    if checkpoints.Err? {
      return checkpoints;
    }
    result := CheckTally(w, db, p);
  }

  lemma AuditedIs(w: World, db: Db, p: string)
    ensures Audited(w, db, p) == AuditFrom(w, [db, db, db, db, db, db, db], p)
  {
  }

  /** Ready over the polls the store lists: every one of them must be sound, and the code is that of the first that is not. */
  method CheckAll(w: World, db: Db, polls: seq<string>, orders: map<string, seq<string>>) returns (result: Result<()>)
    requires forall i :: 0 <= i < |polls| ==>
               && polls[i] in db && polls[i] in orders && Listing(orders[polls[i]], db[polls[i]].credits) && StoredInRange(w, db, polls[i])
    ensures result.Ok? <==> forall i :: 0 <= i < |polls| ==> PollSound(w, db, polls[i], orders[polls[i]])
    ensures result.Err? ==> exists i :: 0 <= i < |polls| && (forall j :: 0 <= j < i ==> PollSound(w, db, polls[j], orders[polls[j]]))
                                        && PollRejects(w, db, polls[i], orders[polls[i]], result.code)
  {
    hide PollSound, Listing, StoredInRange, PollRejects;
    for index := 0 to |polls|
      invariant forall i :: 0 <= i < index ==> PollSound(w, db, polls[i], orders[polls[i]])
    {
      var checked := CheckPoll(w, db, polls[index], orders[polls[index]]);
      if checked.Err? {
        return checked;
      }
    }
    return Ok(());
  }

  /* What a sound poll's index is */

  lemma {:induction false} SpenderCount(w: World, events: seq<BallotEvent>)
    requires DistinctSpenders(w, events)
    requires forall i :: 0 <= i < |events| && events[i].kind == "ballot_accepted" ==> SpenderOf(w, events[i]).Some?
    ensures |Spenders(w, events)| == Accepted(events)
  {
    hide Spenders, DistinctSpenders;
    NoSpenders(w);
    if events != [] {
      var (init, last) := (History.Init(events), History.Last(events));
      assert events == init + [last];
      PrefixDistinct(w, events, |init|);
      SpenderCount(w, init);
      SpendersNext(w, init, last);
      if last.kind == "ballot_accepted" {
        DistinctNext(w, init, last, SpenderOf(w, last).value);
      } else {
        OtherNext(w, init, last);
      }
    }
  }

  // Scanning the log for a credential's ballot.
  function ScanFor(w: World, events: seq<BallotEvent>, credentialHash: string): Option<BallotEvent> {
    if events == [] then None
    else if SpenderOf(w, History.Last(events)) == Some(credentialHash) then Some(History.Last(events))
    else ScanFor(w, History.Init(events), credentialHash)
  }

  lemma {:induction false} ScanFinds(w: World, events: seq<BallotEvent>, c: string)
    ensures ScanFor(w, events, c).None? <==> c !in Spenders(w, events)
    ensures ScanFor(w, events, c).Some? ==>
              exists i :: 0 <= i < |events| && ScanFor(w, events, c) == Some(events[i]) && SpenderOf(w, events[i]) == Some(c)
  {
    if events != [] {
      var init := History.Init(events);
      ScanFinds(w, init, c);
      if ScanFor(w, init, c).Some? {
        var i :| 0 <= i < |init| && ScanFor(w, init, c) == Some(init[i]) && SpenderOf(w, init[i]) == Some(c);
        assert events[i] == init[i];
      }
      if c in Spenders(w, init) {
        var i :| 0 <= i < |init| && SpenderOf(w, init[i]) == Some(c);
        assert SpenderOf(w, events[i]) == Some(c);
      }
      assert SpenderOf(w, events[|init|]) == SpenderOf(w, History.Last(events));
      if c in Spenders(w, events) && SpenderOf(w, History.Last(events)) != Some(c) {
        var i :| 0 <= i < |events| && SpenderOf(w, events[i]) == Some(c);
        assert init[i] == events[i];
      }
    }
  }

  lemma SoundParts(w: World, db: Db, p: string, order: seq<string>)
    requires p in db && PollSound(w, db, p, order)
    ensures w.poll.read(db[p].row.artifact).Some? && BallotsSound(w, p, db[p], w.poll.read(db[p].row.artifact).value)
    ensures Numbered(db[p].ballotEvents) && CountsAgree(db[p])
  {
  }

  lemma AcceptedIndexed(w: World, p: string, file: PollFile, poll: Poll, i: nat)
    requires BallotsSound(w, p, file, poll) && i < |file.ballotEvents| && file.ballotEvents[i].kind == "ballot_accepted"
    ensures SpenderOf(w, file.ballotEvents[i]).Some?
    ensures var c := SpenderOf(w, file.ballotEvents[i]).value;
            c in file.spent && file.spent[c] == file.ballotEvents[i].sequence
  {
  }

  /** A poll that passes has exactly one index entry for each accepted ballot and no other: spent_credentials is the map from
      credential hash to sequence that a scan of the log gives, by counting and distinctness. */
  lemma IndexIsScan(w: World, db: Db, p: string, order: seq<string>)
    requires p in db && PollSound(w, db, p, order)
    ensures db[p].spent.Keys == Spenders(w, db[p].ballotEvents)
    ensures forall i :: 0 <= i < |db[p].ballotEvents| && SpenderOf(w, db[p].ballotEvents[i]).Some? ==>
              var c := SpenderOf(w, db[p].ballotEvents[i]).value;
              c in db[p].spent && db[p].spent[c] == db[p].ballotEvents[i].sequence
  {
    hide PollSound, BallotSound, Accepted, ClaimedRows;
    SoundParts(w, db, p, order);
    var (file, poll) := (db[p], w.poll.read(db[p].row.artifact).value);
    forall i: nat | i < |file.ballotEvents| && file.ballotEvents[i].kind == "ballot_accepted"
      ensures SpenderOf(w, file.ballotEvents[i]).Some?
      ensures var c := SpenderOf(w, file.ballotEvents[i]).value; c in file.spent && file.spent[c] == file.ballotEvents[i].sequence {
      AcceptedIndexed(w, p, file, poll, i);
    }
    SpenderCount(w, file.ballotEvents);
    assert Spenders(w, file.ballotEvents) <= file.spent.Keys;
    SubsetOfSameSize(Spenders(w, file.ballotEvents), file.spent.Keys);
  }

  /** So the indexed lookup and a linear scan of the log find the same ballot for every credential. */
  lemma LookupIsScan(w: World, db: Db, p: string, order: seq<string>, c: string)
    requires p in db && PollSound(w, db, p, order)
    ensures BallotByCredential(db, p, c) == ScanFor(w, db[p].ballotEvents, c)
  {
    hide PollSound, SpenderOf, FindEvent;
    SoundParts(w, db, p, order);
    IndexIsScan(w, db, p, order);
    var events := db[p].ballotEvents;
    ScanFinds(w, events, c);
    if c in Spenders(w, events) {
      var i :| 0 <= i < |events| && ScanFor(w, events, c) == Some(events[i]) && SpenderOf(w, events[i]) == Some(c);
      FindNumbered(events, i);
    }
  }
}
