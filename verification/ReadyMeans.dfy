/** What a poll that Ready passes is, row by row, whatever wrote its tables: the signed artifact, the listed keys, the claims, the log,
    its checkpoints and its tally, with hashes, signatures and domain names written out. */
module ReadyMeans {
  import opened Wrappers
  import opened Artifacts
  import opened Store
  import opened Members
  import opened Tallies
  import opened Sequencer
  import opened Refinement
  import opened Collisions
  import opened Safety
  import opened Audit
  import opened Completeness
  import opened Soundness
  import opened Guards
  import opened Administration
  import opened Ready

  // The poll a stored row decodes to.
  function PollIn(w: World, db: Db, p: string): Poll
    requires p in db && w.poll.read(db[p].row.artifact).Some?
  {
    w.poll.read(db[p].row.artifact).value
  }

  /** The row and the choices are those of the stored artifact, which is the service's own and carries its signature. */
  lemma ReadyPoll(w: World, db: Db, p: string, order: seq<string>)
    requires p in db && PollSound(w, db, p, order)
    ensures w.poll.read(db[p].row.artifact).Some?
    ensures var (poll, file) := (PollIn(w, db, p), db[p]);
            && HoldsPoll(w, db, p, poll) && IssuedByService(w, file.row, poll)
            && poll.schemaVersion == 1 && poll.protocol == "vota-ssh-credit-v1"
            && file.row.pollID == poll.pollID && file.row.closesAt == poll.closesAt
            && file.row.eligibilityCommitment == poll.eligibilityCommitment
            && file.row.artifactHash == w.digest("vota:poll-artifact:v1" + "\0" + file.row.artifact)
            && |file.choices| == |poll.choices|
            && forall i :: 0 <= i < |poll.choices| ==> file.choices[i] == ChoiceRow(poll.choices[i].id, poll.choices[i].title, i)
  {
    hide CreditsMatch, CreditStreamSound, Numbered, Chained, KindsSound, BallotsSound, CountsAgree, CheckpointsSound, TallySound;
  }

  lemma SoundKeys(w: World, db: Db, p: string, order: seq<string>)
    requires p in db && PollSound(w, db, p, order)
    ensures w.poll.read(db[p].row.artifact).Some? && CreditsMatch(w, db[p].credits, order, PollIn(w, db, p))
  {
    hide CreditsMatch, CreditStreamSound, Numbered, Chained, KindsSound, BallotsSound, CountsAgree, CheckpointsSound, TallySound, RowMatches,
         ChoicesMatch, VerifyPollArtifact, RequireIssuer;
  }

  lemma ListingCount(order: seq<string>, credits: map<string, CreditRow>)
    requires Listing(order, credits)
    ensures |order| == |credits|
  {
    ListedSize(order);
    assert (set i | 0 <= i < |order| :: order[i]) == credits.Keys;
  }

  lemma {:induction false} ListedSize(order: seq<string>)
    requires forall i, j :: 0 <= i < j < |order| ==> order[i] != order[j]
    ensures |set i | 0 <= i < |order| :: order[i]| == |order|
  {
    if order != [] {
      var init := order[..|order| - 1];
      ListedSize(init);
      assert (set i | 0 <= i < |order| :: order[i]) == (set i | 0 <= i < |init| :: init[i]) + {order[|order| - 1]};
      assert order[|order| - 1] !in set i | 0 <= i < |init| :: init[i];
    }
  }

  /** There are as many credit rows as the poll has voters, each under its own key's fingerprint, and the sorted list of exactly those keys
      is what the poll commits to. */
  lemma ReadyKeys(w: World, db: Db, p: string, order: seq<string>)
    requires w.ssh.RoundTrips() && p in db && PollSound(w, db, p, order) && Listing(order, db[p].credits)
    ensures w.poll.read(db[p].row.artifact).Some? && |db[p].credits| == PollIn(w, db, p).eligibleCount
    ensures forall f | f in db[p].credits ::
              w.ssh.parse(db[p].credits[f].sshPublicKey).Some? && w.ssh.fingerprint(w.ssh.parse(db[p].credits[f].sshPublicKey).value) == f
    ensures exists members: seq<MemberKey> ::
              && Sorted(members) && DistinctFingerprints(members)
              && (forall k :: k in members <==> OfRow(w, db[p].credits, k))
              && PollIn(w, db, p).eligibilityCommitment == w.digest("vota:eligibility:v1" + "\0" + w.keys.text(Encodings(members)))
  {
    hide PollSound, Normalized, Sorted, DistinctFingerprints, Listing, KeyOf;
    SoundKeys(w, db, p, order);
    ListingCount(order, db[p].credits);
    MatchesListed(w, db[p].credits, order);
    var (credits, keys) := (db[p].credits, KeysOf(order, db[p].credits));
    NormalizedFacts(w, keys);
    var members := Normalized(w, keys).value.0;
    forall k ensures k in members <==> OfRow(w, credits, k) { KeyListed(w, order, credits, k); }
  }

  // The key is the one in some row.
  predicate OfRow(w: World, credits: map<string, CreditRow>, k: MemberKey) {
    exists f | f in credits :: w.ssh.parse(credits[f].sshPublicKey).Some? && KeyOf(w, credits[f].sshPublicKey) == k
  }

  lemma MatchesListed(w: World, credits: map<string, CreditRow>, order: seq<string>)
    requires Listing(order, credits) && forall i :: 0 <= i < |order| ==> order[i] in credits && KeyMatches(w, credits[order[i]].sshPublicKey, order[i])
    ensures forall f | f in credits :: KeyMatches(w, credits[f].sshPublicKey, f)
  {
    hide KeyMatches;
  }

  lemma KeyListed(w: World, order: seq<string>, credits: map<string, CreditRow>, k: MemberKey)
    requires Listing(order, credits)
    ensures OfRow(w, credits, k) <==>
            exists i :: 0 <= i < |order| && w.ssh.parse(KeysOf(order, credits)[i]).Some? && KeyOf(w, KeysOf(order, credits)[i]) == k
  {
    hide KeyOf;
    var keys := KeysOf(order, credits);
    if OfRow(w, credits, k) {
      var f :| f in credits && w.ssh.parse(credits[f].sshPublicKey).Some? && KeyOf(w, credits[f].sshPublicKey) == k;
      var i :| 0 <= i < |order| && order[i] == f;
      assert keys[i] == credits[f].sshPublicKey;
    }
    if i :| 0 <= i < |keys| && w.ssh.parse(keys[i]).Some? && KeyOf(w, keys[i]) == k {
      assert order[i] in credits && credits[order[i]].sshPublicKey == keys[i];
    }
  }

  lemma SoundStreams(w: World, db: Db, p: string, order: seq<string>)
    requires p in db && PollSound(w, db, p, order)
    ensures w.poll.read(db[p].row.artifact).Some?
    ensures CreditStreamSound(w, p, db[p].credits, db[p].creditEvents) && Numbered(db[p].ballotEvents) && Chained(w, p, db[p].ballotEvents)
    ensures KindsSound(w, db[p].row, db[p].ballotEvents) && BallotsSound(w, p, db[p], PollIn(w, db, p)) && CountsAgree(db[p])
    ensures CheckpointsSound(w, db[p]) && TallySound(w, db, p)
  {
    hide CreditsMatch, CreditStreamSound, Numbered, Chained, KindsSound, BallotsSound, CountsAgree, CheckpointsSound, TallySound, RowMatches,
         ChoicesMatch, VerifyPollArtifact, RequireIssuer;
  }

  // The checkpoint of one event, signed under the service's key for one stream.
  predicate Certifies(w: World, domain: string, checkpoint: Checkpoint, eventHash: string) {
    checkpoint.eventHash == eventHash
    && w.verifies(w.keyText, domain + "\0" + w.checkpoint.text(checkpoint.(signature := "")), checkpoint.signature)
  }

  // The row of the event's key holds the request, the blinded message hash and the signature that the event records.
  predicate RecordsRow(w: World, credits: map<string, CreditRow>, record: CreditRecord) {
    && record.kind == "credit_claimed" && record.sshFingerprint in credits
    && var row := credits[record.sshFingerprint];
       var held := if row.claim.Some? then row.claim.value else Issuance("", "", "", "");
       && record.issuanceRequestID == held.requestID && record.blindedMessageHash == held.blindedMessageHash
       && record.blindSignatureHash == w.digest("vota:blind-signature:v1" + "\0" + held.blindSignature)
  }

  // The event is hashed over its stream, poll, place, predecessor and artifact.
  predicate HashedAs(w: World, stream: string, p: string, sequence: nat, previousHash: string, artifact: string, eventHash: string) {
    eventHash == w.digest(stream + "\0" + p + Be64(sequence) + previousHash + artifact)
  }

  lemma CreditIsSound(w: World, p: string, credits: map<string, CreditRow>, event: CreditEvent)
    requires CreditEventSound(w, p, credits, event)
    ensures w.credit.read(event.artifact).Some? && RecordsRow(w, credits, w.credit.read(event.artifact).value)
    ensures ClaimantOf(w, event) == Some(w.credit.read(event.artifact).value.sshFingerprint)
    ensures w.checkpoint.read(event.signature).Some?
    ensures var checkpoint := w.checkpoint.read(event.signature).value;
            checkpoint.pollID == p && checkpoint.sequence == event.sequence && Certifies(w, "vota:credit-checkpoint:v1", checkpoint, event.eventHash)
  {
  }

  lemma CreditLinked(w: World, p: string, events: seq<CreditEvent>, i: nat)
    requires i < |events| && NumberedCredits(events) && ChainedCredits(w, p, events)
    ensures events[i].sequence == i + 1 && events[i].previousHash == if i == 0 then EMPTY_HASH else events[i - 1].eventHash
    ensures HashedAs(w, "vota:credit:event:v1", p, i + 1, events[i].previousHash, events[i].artifact, events[i].eventHash)
  {
    assert LinkedCredit(w, p, events, i);
    assert "vota:" + "credit" + ":event:v1" == "vota:credit:event:v1";
  }

  /** The i-th credit event is numbered, chained and hashed, records what the row of its key holds, and has its signed checkpoint; no two
      events are of one key. */
  lemma ReadyCredits(w: World, db: Db, p: string, order: seq<string>, i: nat)
    requires p in db && PollSound(w, db, p, order) && i < |db[p].creditEvents|
    ensures var events := db[p].creditEvents;
            && events[i].sequence == i + 1 && events[i].previousHash == (if i == 0 then EMPTY_HASH else events[i - 1].eventHash)
            && HashedAs(w, "vota:credit:event:v1", p, i + 1, events[i].previousHash, events[i].artifact, events[i].eventHash)
            && w.credit.read(events[i].artifact).Some? && RecordsRow(w, db[p].credits, w.credit.read(events[i].artifact).value)
            && w.checkpoint.read(events[i].signature).Some?
            && var checkpoint := w.checkpoint.read(events[i].signature).value;
               checkpoint.pollID == p && checkpoint.sequence == i + 1 && Certifies(w, "vota:credit-checkpoint:v1", checkpoint, events[i].eventHash)
    ensures forall j :: i < j < |db[p].creditEvents| && w.credit.read(db[p].creditEvents[j].artifact).Some? ==>
              w.credit.read(db[p].creditEvents[j].artifact).value.sshFingerprint
              != w.credit.read(db[p].creditEvents[i].artifact).value.sshFingerprint
  {
    hide PollSound, KindsSound, BallotsSound, CountsAgree, CheckpointsSound, TallySound, Numbered, Chained, NumberedCredits, ChainedCredits,
         CreditEventSound, ClaimantOf, RecordsRow, Certifies, HashedAs;
    SoundStreams(w, db, p, order);
    var events := db[p].creditEvents;
    CreditLinked(w, p, events, i);
    CreditIsSound(w, p, db[p].credits, events[i]);
    forall j | i < j < |events| && w.credit.read(events[j].artifact).Some?
      ensures w.credit.read(events[j].artifact).value.sshFingerprint != w.credit.read(events[i].artifact).value.sshFingerprint {
      CreditIsSound(w, p, db[p].credits, events[j]);
      assert ClaimantOf(w, events[i]) != ClaimantOf(w, events[j]);
    }
  }

  // The fingerprints the credit events name.
  function Claimants(w: World, events: seq<CreditEvent>): set<string> {
    set i | 0 <= i < |events| && w.credit.read(events[i].artifact).Some? :: w.credit.read(events[i].artifact).value.sshFingerprint
  }

  lemma {:induction false} ClaimantCount(w: World, events: seq<CreditEvent>)
    requires forall i :: 0 <= i < |events| ==> w.credit.read(events[i].artifact).Some?
    requires forall i, j :: 0 <= i < j < |events| ==>
               w.credit.read(events[i].artifact).value.sshFingerprint != w.credit.read(events[j].artifact).value.sshFingerprint
    ensures |Claimants(w, events)| == |events|
  {
    if events != [] {
      var (init, last) := (events[..|events| - 1], w.credit.read(events[|events| - 1].artifact).value.sshFingerprint);
      ClaimantCount(w, init);
      assert Claimants(w, events) == Claimants(w, init) + {last};
      assert last !in Claimants(w, init);
    }
  }

  /** The claimed rows are exactly the keys the credit events name, one event for each, if and only if no event names a row that is not
      claimed; Ready compares the numbers only. */
  lemma ReadyClaims(w: World, db: Db, p: string, order: seq<string>)
    requires p in db && PollSound(w, db, p, order)
    ensures ClaimedRows(db[p].credits) == Claimants(w, db[p].creditEvents) <==>
              forall f | f in Claimants(w, db[p].creditEvents) :: f in db[p].credits && db[p].credits[f].claim.Some?
  {
    hide PollSound, CreditStreamSound, KindsSound, BallotsSound, CheckpointsSound, TallySound, Numbered, Chained, Accepted, Certifies, RecordsRow,
         HashedAs;
    SoundStreams(w, db, p, order);
    var events := db[p].creditEvents;
    forall i: nat | i < |events| ensures w.credit.read(events[i].artifact).Some? { ReadyCredits(w, db, p, order, i); }
    forall i: nat, j: nat | i < j < |events| ensures
        w.credit.read(events[i].artifact).value.sshFingerprint != w.credit.read(events[j].artifact).value.sshFingerprint {
      ReadyCredits(w, db, p, order, i);
    }
    ClaimantCount(w, events);
    if forall f | f in Claimants(w, events) :: f in db[p].credits && db[p].credits[f].claim.Some? {
      assert Claimants(w, events) <= ClaimedRows(db[p].credits);
      SubsetOfSameSize(Claimants(w, events), ClaimedRows(db[p].credits));
    }
  }

  /** The i-th event of the log is numbered, chained and hashed, and has its signed checkpoint. */
  lemma ReadyLog(w: World, db: Db, p: string, order: seq<string>, i: nat)
    requires p in db && PollSound(w, db, p, order) && i < |db[p].ballotEvents|
    ensures |db[p].checkpoints| == |db[p].ballotEvents|
    ensures var (events, row) := (db[p].ballotEvents, db[p].checkpoints[i]);
            && events[i].sequence == i + 1
            && events[i].previousHash == (if i == 0 then EMPTY_HASH else events[i - 1].eventHash)
            && HashedAs(w, "vota:ballot:event:v1", p, i + 1, events[i].previousHash, events[i].artifact, events[i].eventHash)
            && w.checkpoint.read(row.artifact).Some?
            && Certifies(w, "vota:checkpoint:v1", w.checkpoint.read(row.artifact).value, events[i].eventHash)
  {
    hide PollSound, KindsSound, BallotsSound, CountsAgree, TallySound, CreditStreamSound;
    SoundStreams(w, db, p, order);
    assert Linked(w, p, db[p].ballotEvents, i) && CheckpointSound(w, db[p].checkpoints[i], db[p].ballotEvents[i]);
    assert "vota:" + "ballot" + ":event:v1" == "vota:ballot:event:v1";
  }

  /** The log begins with the creation of this very artifact, goes on with ballots only, and ends with a close if and only if the row says
      closed, which has a closing time if and only if it does. */
  lemma ReadyKinds(w: World, db: Db, p: string, order: seq<string>, i: nat)
    requires p in db && PollSound(w, db, p, order) && i < |db[p].ballotEvents|
    ensures var (events, row) := (db[p].ballotEvents, db[p].row);
            && events[0].kind == "poll_created"
            && w.created.read(events[0].artifact) == Some(PollCreatedRecord("poll_created", row.artifactHash))
            && (0 < i < |events| - 1 ==> events[i].kind == "ballot_accepted")
            && (0 < i == |events| - 1 ==> events[i].kind == if row.state == "closed" then "poll_closed" else "ballot_accepted")
            && (row.state == "closed" ==> |events| > 1 && row.closedAt != "") && (row.state == "open" ==> row.closedAt == "")
  {
    hide PollSound, BallotsSound, CountsAgree, TallySound, CreditStreamSound, CheckpointsSound, Numbered, Chained;
    SoundStreams(w, db, p, order);
    assert KindSound(w, db[p].row.artifactHash, db[p].ballotEvents, i) && KindSound(w, db[p].row.artifactHash, db[p].ballotEvents, 0);
    var last := |db[p].ballotEvents| - 1;
    assert KindSound(w, db[p].row.artifactHash, db[p].ballotEvents, last);
  }

  // The receipt is signed under the service's key with the checkpoint of its event.
  predicate SignedReceipt(w: World, receipt: Receipt, eventHash: string, c: string, choiceID: string) {
    && receipt.eventHash == eventHash && receipt.credentialHash == c && receipt.choiceID == choiceID
    && receipt.checkpoint.pollID == receipt.pollID && receipt.checkpoint.sequence == receipt.sequence
    && Certifies(w, "vota:checkpoint:v1", receipt.checkpoint, eventHash)
    && w.verifies(w.keyText, "vota:receipt:v1" + "\0" + w.receipt.text(receipt.(signature := "")), receipt.signature)
  }

  lemma BallotIsSound(w: World, p: string, file: PollFile, poll: Poll, event: BallotEvent)
    requires BallotSound(w, p, file, poll, event)
    ensures w.ballot.read(event.artifact).Some? && w.receipt.read(event.receipt).Some?
    ensures var record := w.ballot.read(event.artifact).value;
            && record.sequence == event.sequence && record.pollID == p
            && Admits(w, poll, BallotRequest(record.credential, record.choiceID)) && record.credentialHash == SpentHash(w, record.credential)
            && record.credentialHash in file.spent
            && SignedReceipt(w, w.receipt.read(event.receipt).value, event.eventHash, record.credentialHash, record.choiceID)
  {
  }

  /** Each accepted ballot of the log names this poll and its own place, carries a credential that is valid for the poll and that no other
      ballot carries, names a listed choice, and has its signed receipt and its index entry. */
  lemma ReadyBallots(w: World, db: Db, p: string, order: seq<string>, i: nat)
    requires p in db && PollSound(w, db, p, order) && i < |db[p].ballotEvents| && db[p].ballotEvents[i].kind == "ballot_accepted"
    ensures w.poll.read(db[p].row.artifact).Some?
    ensures var (file, event) := (db[p], db[p].ballotEvents[i]);
            && w.ballot.read(event.artifact).Some? && w.receipt.read(event.receipt).Some?
            && var record := w.ballot.read(event.artifact).value;
            && record.sequence == i + 1 && record.pollID == p
            && Admits(w, PollIn(w, db, p), BallotRequest(record.credential, record.choiceID))
            && record.credentialHash == SpentHash(w, record.credential)
            && record.credentialHash in file.spent && file.spent[record.credentialHash] == i + 1
            && SignedReceipt(w, w.receipt.read(event.receipt).value, event.eventHash, record.credentialHash, record.choiceID)
            && forall j :: i < j < |file.ballotEvents| && file.ballotEvents[j].kind == "ballot_accepted"
                           && w.ballot.read(file.ballotEvents[j].artifact).Some? ==>
                 w.ballot.read(file.ballotEvents[j].artifact).value.credentialHash != record.credentialHash
  {
    hide PollSound, KindsSound, CountsAgree, TallySound, CreditStreamSound, CheckpointsSound, Chained, BallotSound, Admits, SignedReceipt, SpentHash;
    SoundStreams(w, db, p, order);
    var (file, poll) := (db[p], PollIn(w, db, p));
    assert BallotSound(w, p, file, poll, file.ballotEvents[i]);
    BallotIsSound(w, p, file, poll, file.ballotEvents[i]);
    AcceptedIndexed(w, p, file, poll, i);
    forall j | i < j < |file.ballotEvents| && file.ballotEvents[j].kind == "ballot_accepted" && w.ballot.read(file.ballotEvents[j].artifact).Some?
      ensures w.ballot.read(file.ballotEvents[j].artifact).value.credentialHash != w.ballot.read(file.ballotEvents[i].artifact).value.credentialHash {
      assert SpenderOf(w, file.ballotEvents[i]) != SpenderOf(w, file.ballotEvents[j]);
    }
  }

  /* The codes of a rejection */

  // Of a credit event, the first check that fails.
  lemma CreditCodes(w: World, p: string, credits: map<string, CreditRow>, events: seq<CreditEvent>, i: nat)
    requires i < |events|
    ensures var (code, event) := (CreditProblem(w, p, credits, events, i), events[i]);
            var (record, checkpoint) := (w.credit.read(event.artifact), w.checkpoint.read(event.signature));
            if record.None? || record.value.kind != "credit_claimed" || record.value.sshFingerprint == ""
            then code == Some("projection_content_mismatch")
            else if (exists j :: 0 <= j < i && ClaimantOf(w, events[j]) == Some(record.value.sshFingerprint))
                    || !RecordsRow(w, credits, record.value) then code == Some("projection_content_mismatch")
            else if checkpoint.None? || checkpoint.value.pollID != p || checkpoint.value.sequence != event.sequence
                    || checkpoint.value.eventHash != event.eventHash then code == Some("invalid_credit_checkpoint")
            else code == if Certifies(w, "vota:credit-checkpoint:v1", checkpoint.value, event.eventHash) then None
                         else Some("invalid_sequencer_signature")
  {
  }

  // Of an accepted ballot, the first check that fails.
  lemma StoredCodes(w: World, p: string, file: PollFile, poll: Poll, i: nat)
    requires i < |file.ballotEvents| && file.ballotEvents[i].kind == "ballot_accepted"
    ensures var (code, event) := (StoredProblem(w, p, file, poll, i), file.ballotEvents[i]);
            match w.ballot.read(event.artifact)
            case None => code == Some("invalid_stored_ballot")
            case Some(record) =>
              if record.sequence != event.sequence || record.pollID != p || !ChoiceExists(poll.choices, record.choiceID)
              then code == Some("invalid_stored_ballot")
              else if exists j :: 0 <= j < i && SpenderOf(w, file.ballotEvents[j]) == Some(record.credentialHash)
              then code == Some("duplicate_credential")
              else if w.credentialError(poll.issuerPublicKey, poll.pollID, record.credential).Some?
                      || record.credentialHash != SpentHash(w, record.credential) then code == Some("invalid_credential")
              else if !Indexed(file, record.credentialHash, event) then code == Some("projection_content_mismatch")
              else match w.receipt.read(event.receipt)
                   case None => code == Some("invalid_stored_receipt")
                   case Some(receipt) =>
                     if receipt.eventHash != event.eventHash || receipt.credentialHash != record.credentialHash
                        || receipt.choiceID != record.choiceID then code == Some("invalid_stored_receipt")
                     else if receipt.checkpoint.pollID != receipt.pollID || receipt.checkpoint.sequence != receipt.sequence
                             || receipt.checkpoint.eventHash != receipt.eventHash then code == Some("receipt_binding_mismatch")
                     else code.Some? ==> code == Some("invalid_sequencer_signature")
  {
    hide ChoiceExists, VerifyCheckpoint, ReceiptMessage, Indexed;
    var record := w.ballot.read(file.ballotEvents[i].artifact);
    if record.Some? { SpenderBefore(w, file.ballotEvents, i, record.value.credentialHash); }
  }

  lemma SpenderBefore(w: World, events: seq<BallotEvent>, i: nat, c: string)
    requires i < |events|
    ensures c in Spenders(w, events[..i]) <==> exists j :: 0 <= j < i && SpenderOf(w, events[j]) == Some(c)
  {
    hide SpenderOf;
    if c in Spenders(w, events[..i]) {
      var j :| 0 <= j < i && SpenderOf(w, events[..i][j]) == Some(c);
      assert events[..i][j] == events[j];
    }
    if j :| 0 <= j < i && SpenderOf(w, events[j]) == Some(c) { assert events[..i][j] == events[j]; }
  }

  /* The tally */

  // The stored tally gives each choice, once, the number of ballots of the log that name it, and is signed.
  predicate TallyCountsLog(w: World, poll: Poll, log: seq<BallotEvent>, tally: Tally) {
    && DistinctChoices(poll.choices) && DistinctTotals(tally.totals) && |tally.totals| == |poll.choices|
    && (forall i :: 0 <= i < |poll.choices| ==> ChoiceTotal(poll.choices[i].id, BallotsFor(w, log, poll.choices[i].id)) in tally.totals)
    && tally.ballotCount == Accepted(log) == Sum(tally.totals) && GenuineTally(w, poll, tally)
  }

  lemma AuditedParts(w: World, db: Db, p: string)
    requires Audited(w, db, p).Ok?
    ensures p in db && w.poll.read(db[p].row.artifact).Some? && ReadResult(w, db, p) == Ok(Audited(w, db, p).value.tally)
    ensures Audited(w, db, p).value.poll == PollIn(w, db, p) && Audited(w, db, p).value.events == AuditEvents(db[p].ballotEvents)
  {
    hide DecodeCheckpoints, TallyVerdict, VerifyPollArtifact;
  }

  lemma AcceptedCounts(w: World, b: AuditBundle, log: seq<BallotEvent>)
    requires Accepts(w, b) && b.events == AuditEvents(log)
    ensures TallyCountsLog(w, b.poll, log, b.tally)
  {
    hide EventsFine, Chained, Numbered, BallotsFor, Accepted, VerifyPoll, GenuineTally, AuditEvents, Sum, TallyVerdict;
    AcceptedTally(w, b);
    TallyChecked(w, b.poll, b.tally);
    TimelessCounts(w, log, "");
    forall i | 0 <= i < |b.poll.choices| ensures ChoiceTotal(b.poll.choices[i].id, BallotsFor(w, log, b.poll.choices[i].id)) in b.tally.totals {
      TimelessCounts(w, log, b.poll.choices[i].id);
      assert ChoiceExists(b.poll.choices, b.poll.choices[i].id);
    }
  }

  /** A ready closed poll has a stored tally that counts its log, with the closing time of the row, is what Result answers, and is what the
      closing event records; a ready poll that is not closed has none. */
  lemma ReadyTally(w: World, db: Db, p: string, order: seq<string>)
    requires p in db && PollSound(w, db, p, order)
    ensures w.poll.read(db[p].row.artifact).Some?
    ensures db[p].row.state != "closed" ==> db[p].tally.None?
    ensures db[p].row.state == "closed" ==>
              && db[p].tally.Some? && w.tally.read(db[p].tally.value.artifact).Some?
              && var tally := w.tally.read(db[p].tally.value.artifact).value;
                 && TallyCountsLog(w, PollIn(w, db, p), db[p].ballotEvents, tally) && tally.closedAt == db[p].row.closedAt
                 && ReadResult(w, db, p) == Ok(tally)
                 && db[p].ballotEvents != [] && db[p].ballotEvents[|db[p].ballotEvents| - 1].artifact == w.tally.text(tally)
  {
    hide PollSound, KindsSound, CountsAgree, CreditStreamSound, CheckpointsSound, Chained, Numbered, BallotsSound, Audited, Accepts, TallyCountsLog,
         HoldsPoll, GenuineTally, ReadResult, EventHash, GenuineBallot, VerifyCheckpoint;
    SoundStreams(w, db, p, order);
    if db[p].row.state == "closed" {
      var b := Audited(w, db, p).value;
      AuditedParts(w, db, p);
      ResultGuarded(w, db, p, b.tally);
      AcceptedCounts(w, b, db[p].ballotEvents);
      NotEmpty(w, db[p].row, db[p].ballotEvents);
      AcceptedLog(w, b, |b.events| - 1);
      ReadyKinds(w, db, p, order, |db[p].ballotEvents| - 1);
    }
  }

  lemma NotEmpty(w: World, row: PollRow, events: seq<BallotEvent>)
    requires KindsSound(w, row, events)
    ensures events != []
  {
  }
}
