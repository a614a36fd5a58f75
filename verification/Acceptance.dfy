/** Exactly which bundles VerifyAudit accepts, event by event, with hashes, signatures and domain names written out. */
module Acceptance {
  import opened Wrappers
  import opened Artifacts
  import opened Tallies
  import opened Collisions
  import opened Safety
  import opened Audit
  import opened Soundness
  import opened Completeness
  import opened Guards
  import opened Administration
  import Sequencer
  import Store

  // The bundle names its version, its poll and one key, and poll and tally carry signatures under that key.
  predicate SoundHeader(w: World, b: AuditBundle) {
    && b.schemaVersion == 1 && b.protocol == "vota-ssh-credit-v1" && b.poll.pollID != "" && b.tally.pollID == b.poll.pollID
    && w.keyDecodes(b.checkpointPublicKey) && b.poll.checkpointPublicKey == b.checkpointPublicKey
    && w.verifies(b.checkpointPublicKey, "vota:poll-artifact:v1" + "\0" + w.poll.text(b.poll.(signature := "")), b.poll.signature)
    && GenuineTally(w, b.poll, b.tally)
    && b.events != [] && |b.events| == |b.checkpoints|
  }

  // The i-th event is in its place, carries its own hash and its predecessor's, and its checkpoint is signed.
  predicate SoundLink(w: World, b: AuditBundle, i: nat)
    requires i < |b.events| == |b.checkpoints|
  {
    var (event, checkpoint) := (b.events[i], b.checkpoints[i]);
    && event.sequence == i + 1 && event.previousHash == (if i == 0 then EMPTY_HASH else b.events[i - 1].eventHash)
    && event.eventHash == w.digest("vota:ballot:event:v1" + "\0" + b.poll.pollID + Be64(i + 1) + event.previousHash + event.artifact)
    && checkpoint.sequence == i + 1 && checkpoint.eventHash == event.eventHash
    && w.verifies(b.checkpointPublicKey, "vota:checkpoint:v1" + "\0" + w.checkpoint.text(checkpoint.(signature := "")), checkpoint.signature)
  }

  /** A ballot event of a bundle is genuine exactly when its record names the poll, its place, a credential valid for the poll with its hash,
      and a listed choice, and its receipt repeats all of these, is bound to a checkpoint and both carry signatures under the poll's key. */
  lemma GenuineExactly(w: World, b: AuditBundle, i: nat)
    requires i < |b.events|
    ensures GenuineBallot(w, b, i) <==>
              && w.ballot.read(b.events[i].artifact).Some? && w.receipt.read(b.events[i].receipt).Some?
              && var (event, key) := (b.events[i], b.poll.checkpointPublicKey);
                 var (record, receipt) := (w.ballot.read(event.artifact).value, w.receipt.read(event.receipt).value);
                 var (c, checkpoint) := (SpentHash(w, record.credential), receipt.checkpoint);
                 && record.pollID == b.poll.pollID && record.sequence == i + 1 && record.credentialHash == c
                 && Admits(w, b.poll, Sequencer.BallotRequest(record.credential, record.choiceID))
                 && receipt.pollID == b.poll.pollID && receipt.sequence == event.sequence && receipt.eventHash == event.eventHash
                 && receipt.credentialHash == c && receipt.choiceID == record.choiceID
                 && checkpoint.pollID == receipt.pollID && checkpoint.sequence == receipt.sequence && checkpoint.eventHash == receipt.eventHash
                 && w.verifies(key, "vota:checkpoint:v1" + "\0" + w.checkpoint.text(checkpoint.(signature := "")), checkpoint.signature)
                 && w.verifies(key, "vota:receipt:v1" + "\0" + w.receipt.text(receipt.(signature := "")), receipt.signature)
  {
  }

  // It is the creation and first, the close of this tally and last, or a genuine ballot of a credential not seen before.
  predicate SoundContent(w: World, b: AuditBundle, i: nat)
    requires i < |b.events|
  {
    var event := b.events[i];
    || (event.kind == "poll_created" && i == 0
        && w.created.read(event.artifact)
           == Some(PollCreatedRecord("poll_created", w.digest("vota:poll-artifact:v1" + "\0" + w.poll.text(b.poll)))))
    || (event.kind == "poll_closed" && i == |b.events| - 1 && event.artifact == w.tally.text(b.tally))
    || (event.kind == "ballot_accepted" && GenuineBallot(w, b, i)
        && forall j :: 0 <= j < i ==> SpentAt(w, b, j) != SpentAt(w, b, i))
  }

  predicate SoundTotals(w: World, b: AuditBundle) {
    && b.tally.ballotCount == Accepted(StoreEvents(b.events)) && |b.tally.totals| == |b.poll.choices|
    && forall i :: 0 <= i < |b.tally.totals| ==> b.tally.totals[i].total == BallotsFor(w, StoreEvents(b.events), b.tally.totals[i].choiceID)
  }

  lemma HeaderExact(w: World, b: AuditBundle)
    ensures HeaderProblem(w, b).None? <==> SoundHeader(w, b)
  {
    hide TallyVerdict, GenuineTally;
    TallyChecked(w, b.poll, b.tally);
  }

  lemma SpentBy(w: World, b: AuditBundle, i: nat, c: string)
    requires i < |b.events|
    ensures SpentBefore(w, b, i, c) <==> exists j :: 0 <= j < i && SpentAt(w, b, j) == Some(c)
  {
    if SpentBefore(w, b, i, c) {
      var j :| 0 <= j < i && Spends(w, b, j, c);
      assert SpentAt(w, b, j) == Some(c);
    }
    if j :| 0 <= j < i && SpentAt(w, b, j) == Some(c) { assert Spends(w, b, j, c); }
  }

  lemma BallotExact(w: World, b: AuditBundle, i: nat)
    requires i < |b.events| && b.events[i].kind == "ballot_accepted" && b.events[i].sequence == i + 1
    requires b.poll.checkpointPublicKey == b.checkpointPublicKey
    ensures BallotProblem(w, b, i).None? <==> GenuineBallot(w, b, i) && forall j :: 0 <= j < i ==> SpentAt(w, b, j) != SpentAt(w, b, i)
  {
    hide SpentBefore, ChoiceExists, CredentialHash, VerifyReceipt, ReceiptVerdict;
    var record := w.ballot.read(b.events[i].artifact);
    if record.Some? {
      SpentBy(w, b, i, record.value.credentialHash);
      var receipt := w.receipt.read(b.events[i].receipt);
      if receipt.Some? { VerdictMeans(w, b.checkpointPublicKey, receipt.value); }
    }
  }

  lemma PreimageIs(p: string, event: Store.BallotEvent)
    ensures BallotPreimage(p, event) == "vota:ballot:event:v1" + "\0" + p + Be64(event.sequence) + event.previousHash + event.artifact
  {
    assert "vota:" + "ballot" + ":event:v1" == "vota:ballot:event:v1";
  }

  // The stream is numbered and chained, and no event has a problem, exactly when every event is sound.
  lemma EventExact(w: World, b: AuditBundle, i: nat)
    requires i < |b.events| == |b.checkpoints| && b.poll.checkpointPublicKey == b.checkpointPublicKey
    ensures StoreEvents(b.events)[i].sequence == i + 1 && Linked(w, b.poll.pollID, StoreEvents(b.events), i) && EventProblem(w, b, i).None?
            <==> SoundLink(w, b, i) && SoundContent(w, b, i)
  {
    hide BallotProblem, GenuineBallot, SpentAt, EventPreimage, Be64;
    PreimageIs(b.poll.pollID, StoreEvent(b.events[i]));
    if b.events[i].kind == "ballot_accepted" && b.events[i].sequence == i + 1 { BallotExact(w, b, i); }
  }

  /** VerifyAudit accepts exactly the bundles with a sound header, sound events in place and totals that count them. */
  lemma AcceptsExactly(w: World, b: AuditBundle)
    ensures Accepts(w, b) <==>
              && SoundHeader(w, b)
              && (forall i :: 0 <= i < |b.events| ==> SoundLink(w, b, i) && SoundContent(w, b, i))
              && SoundTotals(w, b)
  {
    hide HeaderProblem, EventProblem, Linked, SoundLink, SoundContent, GenuineTally, BallotsFor, Accepted;
    HeaderExact(w, b);
    if SoundHeader(w, b) {
      forall i: nat | i < |b.events|
        ensures StoreEvents(b.events)[i].sequence == i + 1 && Linked(w, b.poll.pollID, StoreEvents(b.events), i) && EventProblem(w, b, i).None?
                <==> SoundLink(w, b, i) && SoundContent(w, b, i) {
        EventExact(w, b, i);
      }
    }
  }

  /* The codes of a rejection */

  // Of the header, the first check that fails.
  lemma HeaderCodes(w: World, b: AuditBundle)
    ensures var (code, key) := (HeaderProblem(w, b), b.checkpointPublicKey);
            if b.schemaVersion != 1 || b.protocol != "vota-ssh-credit-v1" || b.poll.pollID == "" || b.poll.pollID != b.tally.pollID
            then code == Some("invalid_audit_bundle")
            else if !w.keyDecodes(key) || b.poll.checkpointPublicKey != key then code == Some("invalid_audit_key")
            else if !w.verifies(key, "vota:poll-artifact:v1" + "\0" + w.poll.text(b.poll.(signature := "")), b.poll.signature)
            then code == Some("invalid_sequencer_signature")
            else if !TallyFits(b.poll, b.tally) then code == Some("tally_mismatch")
            else if !w.verifies(key, "vota:tally:v1" + "\0" + w.tally.text(b.tally.(signature := "")), b.tally.signature)
            then code == Some("invalid_sequencer_signature")
            else if b.events == [] || |b.events| != |b.checkpoints| then code == Some("audit_sequence_gap")
            else code.None?
  {
    hide TallyFits;
  }

  // Of a ballot, the first check that fails.
  lemma BallotCodes(w: World, b: AuditBundle, i: nat)
    requires i < |b.events|
    ensures var (code, event) := (BallotProblem(w, b, i), b.events[i]);
            match w.ballot.read(event.artifact)
            case None => code == Some("invalid_ballot_event")
            case Some(record) =>
              if record.pollID != b.poll.pollID || record.sequence != event.sequence then code == Some("invalid_ballot_event")
              else if exists j :: 0 <= j < i && SpentAt(w, b, j) == Some(record.credentialHash) then code == Some("duplicate_credential")
              else if w.credentialError(b.poll.issuerPublicKey, b.poll.pollID, record.credential).Some?
                      || record.credentialHash != SpentHash(w, record.credential) then code == Some("invalid_credential")
              else if !ChoiceExists(b.poll.choices, record.choiceID) then code == Some("invalid_choice")
              else match w.receipt.read(event.receipt)
                   case None => code == Some("invalid_receipt")
                   case Some(receipt) =>
                     if receipt.pollID != b.poll.pollID || receipt.sequence != event.sequence || receipt.eventHash != event.eventHash
                        || receipt.credentialHash != record.credentialHash || receipt.choiceID != record.choiceID
                     then code == Some("invalid_receipt")
                     else if receipt.checkpoint.pollID != receipt.pollID || receipt.checkpoint.sequence != receipt.sequence
                             || receipt.checkpoint.eventHash != receipt.eventHash then code == Some("receipt_binding_mismatch")
                     else code.Some? ==> code == Some("invalid_sequencer_signature")
  {
    hide ChoiceExists, VerifyCheckpoint, ReceiptMessage;
    var record := w.ballot.read(b.events[i].artifact);
    if record.Some? { SpentBy(w, b, i, record.value.credentialHash); }
  }

  // Of the i-th event, the first check that fails; the replay comes after all of these.
  lemma EventCodes(w: World, b: AuditBundle, i: nat)
    requires i < |b.events| == |b.checkpoints|
    ensures var (code, event, checkpoint) := (EventProblem(w, b, i), b.events[i], b.checkpoints[i]);
            if checkpoint.sequence != event.sequence || checkpoint.eventHash != event.eventHash then code == Some("checkpoint_binding_mismatch")
            else if !w.verifies(b.checkpointPublicKey, "vota:checkpoint:v1" + "\0" + w.checkpoint.text(checkpoint.(signature := "")), checkpoint.signature)
            then code == Some("invalid_sequencer_signature")
            else if event.kind == "poll_created" then
              code == if i == 0 && w.created.read(event.artifact)
                                   == Some(PollCreatedRecord("poll_created", w.digest("vota:poll-artifact:v1" + "\0" + w.poll.text(b.poll))))
                      then None else Some("invalid_poll_created_event")
            else if event.kind == "ballot_accepted" then code == BallotProblem(w, b, i)
            else if event.kind == "poll_closed" then
              code == if i == |b.events| - 1 && event.artifact == w.tally.text(b.tally) then None else Some("invalid_close_event")
            else code == Some("invalid_event_type")
  {
    hide BallotProblem;
  }

  /* Audit on any stores */

  lemma {:induction false} CheckpointsDecoded(w: World, rows: seq<Store.CheckpointRow>)
    ensures DecodeCheckpoints(w, rows).Ok? <==> forall i :: 0 <= i < |rows| ==> w.checkpoint.read(rows[i].artifact).Some?
    ensures DecodeCheckpoints(w, rows).Ok? ==>
              && |DecodeCheckpoints(w, rows).value| == |rows|
              && forall i :: 0 <= i < |rows| ==> w.checkpoint.read(rows[i].artifact) == Some(DecodeCheckpoints(w, rows).value[i])
  {
    if rows != [] { CheckpointsDecoded(w, rows[..|rows| - 1]); }
  }

  // The poll a store holds for p, if it is genuine.
  predicate HeldAt(w: World, db: Store.Db, p: string) {
    p in db && w.poll.read(db[p].row.artifact).Some? && HoldsPoll(w, db, p, w.poll.read(db[p].row.artifact).value)
  }

  // What Audit assembles from the store at each of its seven reads.
  predicate Assembled(w: World, views: seq<Store.Db>, p: string, b: AuditBundle)
    requires |views| == 7
  {
    && b.schemaVersion == 1 && b.protocol == "vota-ssh-credit-v1" && b.checkpointPublicKey == w.keyText
    && p in views[0] && views[0][p].row.state == "closed"
    && HoldsPoll(w, views[1], p, b.poll)
    && b.events == AuditEvents(Store.ReadBallotEvents(views[2], p))
    && |b.checkpoints| == |Store.ReadCheckpoints(views[3], p)|
    && (forall i :: 0 <= i < |b.checkpoints| ==> w.checkpoint.read(Store.ReadCheckpoints(views[3], p)[i].artifact) == Some(b.checkpoints[i]))
    && p in views[4] && views[4][p].row.state == "closed" && HeldAt(w, views[5], p)
    && p in views[6] && views[6][p].tally.Some? && w.tally.read(views[6][p].tally.value.artifact) == Some(b.tally)
    && GenuineTally(w, w.poll.read(views[5][p].row.artifact).value, b.tally)
  }

  lemma PollRead(w: World, db: Store.Db, p: string)
    ensures Sequencer.SignedPoll(w, db, p).Ok? <==> HeldAt(w, db, p)
    ensures HeldAt(w, db, p) ==> Sequencer.SignedPoll(w, db, p) == Ok(w.poll.read(db[p].row.artifact).value)
  {
  }

  /** Whatever the store holds at each read, Audit answers exactly with the genuine poll, the log, the decoded checkpoints and a genuine tally
      of a poll that is closed. */
  lemma AuditAssembles(w: World, views: seq<Store.Db>, p: string, b: AuditBundle)
    requires |views| == 7
    ensures AuditFrom(w, views, p) == Ok(b) <==> Assembled(w, views, p, b)
  {
    hide Sequencer.SignedPoll, HeldAt, HoldsPoll, TallyVerdict, GenuineTally, DecodeCheckpoints, AuditEvents;
    PollRead(w, views[1], p);
    PollRead(w, views[5], p);
    HeldPolls(w, views[1], p, b.poll);
    CheckpointsDecoded(w, Store.ReadCheckpoints(views[3], p));
    if HeldAt(w, views[5], p) {
      HeldThere(w, views[5], p);
      TallyChecked(w, w.poll.read(views[5][p].row.artifact).value, b.tally);
    }
    if Assembled(w, views, p, b) {
      assert DecodeCheckpoints(w, Store.ReadCheckpoints(views[3], p)).value == b.checkpoints;
    }
  }

  lemma HeldThere(w: World, db: Store.Db, p: string)
    requires HeldAt(w, db, p)
    ensures p in db && w.poll.read(db[p].row.artifact).Some?
  {
  }

  lemma HeldPolls(w: World, db: Store.Db, p: string, poll: Poll)
    ensures HoldsPoll(w, db, p, poll) <==> HeldAt(w, db, p) && w.poll.read(db[p].row.artifact).value == poll
    ensures HeldAt(w, db, p) ==> p in db && w.poll.read(db[p].row.artifact).Some?
  {
  }
}
