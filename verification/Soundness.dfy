/** What it means that VerifyAudit accepts a bundle, and what it means that Compare accepts two. */
module Soundness {
  import opened Wrappers
  import opened Artifacts
  import opened Tallies
  import opened Refinement
  import opened Collisions
  import opened Safety
  import opened Audit
  import Completeness
  import Runs
  import Sequencer
  import Store
  import History

  /* One bundle */

  // The i-th event is a ballot with a valid credential, a listed choice and a signed receipt for exactly this event.
  predicate GenuineBallot(w: World, b: AuditBundle, i: nat)
    requires i < |b.events|
  {
    match w.ballot.read(b.events[i].artifact)
    case None => false
    case Some(record) =>
      && record.pollID == b.poll.pollID && record.sequence == i + 1
      && w.credentialError(b.poll.issuerPublicKey, b.poll.pollID, record.credential).None?
      && record.credentialHash == CredentialHash(w, record.credential)
      && ChoiceExists(b.poll.choices, record.choiceID)
      && match w.receipt.read(b.events[i].receipt)
         case None => false
         case Some(receipt) =>
           VerifyReceipt(w, b.poll.checkpointPublicKey, receipt) && ReceiptBinds(b, b.events[i], record, receipt)
  }

  // The credential hash of the i-th event, if it is a ballot.
  function SpentAt(w: World, b: AuditBundle, i: nat): Option<string>
    requires i < |b.events|
  {
    if b.events[i].kind == "ballot_accepted" && w.ballot.read(b.events[i].artifact).Some?
    then Some(w.ballot.read(b.events[i].artifact).value.credentialHash) else None
  }

  lemma FineBallot(w: World, b: AuditBundle, i: nat)
    requires Accepts(w, b) && i < |b.events| && b.events[i].kind == "ballot_accepted"
    ensures GenuineBallot(w, b, i) && !SpentBefore(w, b, i, SpentAt(w, b, i).value)
  {
    hide SpentBefore, ChoiceExists, CredentialHash, Chained, TotalsMatch, VerifyPoll, TallyVerdict, VerifyCheckpoint, ReceiptMessage;
    assert EventProblem(w, b, i).None?;
    assert StoreEvents(b.events)[i].sequence == i + 1;
  }

  lemma DistinctBallots(w: World, b: AuditBundle, i: nat, j: nat)
    requires Accepts(w, b) && i < j < |b.events|
    requires b.events[i].kind == "ballot_accepted" && b.events[j].kind == "ballot_accepted"
    ensures SpentAt(w, b, i).Some? && SpentAt(w, b, j).Some? && SpentAt(w, b, i) != SpentAt(w, b, j)
  {
    hide Accepts, ChoiceExists, CredentialHash, VerifyReceipt;
    FineBallot(w, b, i);
    FineBallot(w, b, j);
    assert Spends(w, b, i, SpentAt(w, b, i).value);
  }

  /** Acceptance means: the sequences are exactly 1 to n and every event carries the hash of its fields and of its
      predecessor; every event has its signed checkpoint; every ballot is genuine and no two have one credential; creation and
      close can only be first and last, for this poll and this tally. */
  lemma AcceptedLog(w: World, b: AuditBundle, i: nat)
    requires Accepts(w, b) && i < |b.events|
    ensures b.events[i].sequence == i + 1
    ensures b.events[i].previousHash == if i == 0 then EMPTY_HASH else b.events[i - 1].eventHash
    ensures b.events[i].eventHash == EventHash(w, "ballot", b.poll.pollID, i + 1, b.events[i].previousHash, b.events[i].artifact)
    ensures b.checkpoints[i].sequence == i + 1 && b.checkpoints[i].eventHash == b.events[i].eventHash
    ensures VerifyCheckpoint(w, BALLOT_CHECKPOINTS, b.poll.checkpointPublicKey, b.checkpoints[i])
    ensures b.events[i].kind == "ballot_accepted" ==> GenuineBallot(w, b, i)
    ensures forall j :: i < j < |b.events| && b.events[i].kind == b.events[j].kind == "ballot_accepted" ==> SpentAt(w, b, i) != SpentAt(w, b, j)
    ensures b.events[i].kind == "poll_created" ==>
              i == 0 && w.created.read(b.events[i].artifact) == Some(PollCreatedRecord("poll_created", Sequencer.ArtifactHash(w, b.poll)))
    ensures b.events[i].kind == "poll_closed" ==> i == |b.events| - 1 && b.events[i].artifact == w.tally.text(b.tally)
    ensures b.events[i].kind in ["poll_created", "ballot_accepted", "poll_closed"]
  {
    hide GenuineBallot, BallotProblem, TotalsMatch, VerifyPoll, TallyVerdict, VerifyCheckpoint, EventPreimage, Sequencer.ArtifactHash;
    assert EventProblem(w, b, i).None?;
    assert StoreEvents(b.events)[i].sequence == i + 1;
    assert Linked(w, b.poll.pollID, StoreEvents(b.events), i);
    if b.events[i].kind == "ballot_accepted" {
      FineBallot(w, b, i);
      forall j | i < j < |b.events| && b.events[j].kind == "ballot_accepted" ensures SpentAt(w, b, i) != SpentAt(w, b, j) {
        DistinctBallots(w, b, i, j);
      }
    }
  }

  /** And: the poll's choices are distinct, each appears exactly once among the totals with the number of ballots that name it,
      and the totals add up to the number of ballots. */
  lemma AcceptedTally(w: World, b: AuditBundle)
    requires Accepts(w, b)
    ensures DistinctChoices(b.poll.choices) && DistinctTotals(b.tally.totals)
    ensures forall id :: ChoiceExists(b.poll.choices, id) ==>
              exists i :: 0 <= i < |b.tally.totals| && b.tally.totals[i] == ChoiceTotal(id, BallotsFor(w, StoreEvents(b.events), id))
    ensures Sum(b.tally.totals) == Accepted(StoreEvents(b.events)) == b.tally.ballotCount
    ensures VerifyTally(w, b.poll.checkpointPublicKey, b.tally) && VerifyPoll(w, b.poll.checkpointPublicKey, b.poll)
  {
    hide EventsFine, Chained, Numbered, BallotsFor, Accepted, VerifyPoll, VerifyTally;
    FitsForcesDistinctChoices(b.poll, b.tally);
    forall id | ChoiceExists(b.poll.choices, id)
      ensures exists i :: 0 <= i < |b.tally.totals| && b.tally.totals[i] == ChoiceTotal(id, BallotsFor(w, StoreEvents(b.events), id)) {
      var i :| 0 <= i < |b.tally.totals| && b.tally.totals[i].choiceID == id;
      assert BallotsFor(w, StoreEvents(b.events), b.tally.totals[i].choiceID) == b.tally.totals[i].total;
    }
  }

  /* What acceptance does not mean */

  // The bundle without its last event.
  function Shortened(b: AuditBundle): AuditBundle
    requires Shaped(b)
  {
    b.(events := History.Init(b.events), checkpoints := History.Init(b.checkpoints))
  }

  lemma ShorterEvent(w: World, b: AuditBundle, i: nat)
    requires Accepts(w, b) && i < |b.events| - 1
    ensures EventProblem(w, Shortened(b), i).None?
  {
    hide Sequencer.ArtifactHash, VerifyWireCredential, ChoiceExists, ReceiptVerdict, VerifyCheckpoint, Chained, TotalsMatch, HeaderProblem;
    var c := Shortened(b);
    assert EventProblem(w, b, i).None?;
    assert c.events[i] == b.events[i] && c.checkpoints[i] == b.checkpoints[i];
    forall h | SpentBefore(w, c, i, h) ensures SpentBefore(w, b, i, h) {
      var j :| 0 <= j < i && Spends(w, c, j, h);
      assert Spends(w, b, j, h);
    }
  }

  /** VerifyAudit does not ask for a closing event: an accepted bundle is still accepted without it. */
  lemma CloseNotRequired(w: World, b: AuditBundle)
    requires Accepts(w, b) && b.events[|b.events| - 1].kind == "poll_closed" && |b.events| > 1
    ensures Accepts(w, Shortened(b))
  {
    hide EventProblem, VerifyPoll, TallyVerdict, EventPreimage;
    var c := Shortened(b);
    var (long, short) := (StoreEvents(b.events), StoreEvents(c.events));
    assert long == short + [StoreEvent(History.Last(b.events))];
    forall i | 0 <= i < |c.events| ensures EventProblem(w, c, i).None? { ShorterEvent(w, b, i); }
    forall i | 0 <= i < |short| ensures Linked(w, b.poll.pollID, short, i) { assert Linked(w, b.poll.pollID, long, i); }
    CountNextEvent(w, short, StoreEvent(History.Last(b.events)));
    assert forall id :: BallotsFor(w, long, id) == BallotsFor(w, short, id);
  }

  /* ContainsReceipt and VerifyReceiptForBallot */

  method ContainsReceipt(w: World, b: AuditBundle, credentialHash: string) returns (found: bool)
    ensures found <==> SpentBefore(w, b, |b.events|, credentialHash)
  {
    for index := 0 to |b.events|
      invariant !SpentBefore(w, b, index, credentialHash)
    {
      if b.events[index].kind != "ballot_accepted" {
        continue;
      }
      var record := w.ballot.read(b.events[index].artifact);
      if record.Some? && record.value.credentialHash == credentialHash {
        assert Spends(w, b, index, credentialHash);
        return true;
      }
    }
    return false;
  }

  function ReceiptForBallot(w: World, poll: Poll, request: Sequencer.BallotRequest, receipt: Receipt): Result<()> {
    if !w.keyDecodes(poll.checkpointPublicKey) then Err("invalid_checkpoint_public_key") else
    var expectedHash :- VerifyWireCredential(w, poll, request.credential);
    if receipt.schemaVersion != SCHEMA_VERSION || receipt.protocol != PROTOCOL || receipt.pollID != poll.pollID
       || receipt.credentialHash != expectedHash || receipt.choiceID != request.choiceID then Err("receipt_binding_mismatch")
    else match ReceiptVerdict(w, poll.checkpointPublicKey, receipt)
         case Some(code) => Err(code)
         case None => Ok(())
  }

  // The receipt is for this ballot, names its checkpoint, and both carry a signature under the poll's key.
  predicate ReceiptHolds(w: World, poll: Poll, request: Sequencer.BallotRequest, receipt: Receipt) {
    var (key, checkpoint) := (poll.checkpointPublicKey, receipt.checkpoint);
    && receipt.schemaVersion == 1 && receipt.protocol == "vota-ssh-credit-v1"
    && receipt.pollID == poll.pollID && receipt.choiceID == request.choiceID
    && receipt.credentialHash == w.digest("vota:credential-hash:v1" + "\0" + w.credential.text(request.credential))
    && checkpoint.pollID == receipt.pollID && checkpoint.sequence == receipt.sequence && checkpoint.eventHash == receipt.eventHash
    && w.verifies(key, "vota:checkpoint:v1" + "\0" + w.checkpoint.text(checkpoint.(signature := "")), checkpoint.signature)
    && w.verifies(key, "vota:receipt:v1" + "\0" + w.receipt.text(receipt.(signature := "")), receipt.signature)
  }

  /** VerifyReceiptForBallot accepts exactly the receipts of this ballot: of its poll, its choice and its credential, which is valid for the
      poll, with the checkpoint of its event, signed under the poll's key. */
  lemma ReceiptExact(w: World, poll: Poll, request: Sequencer.BallotRequest, receipt: Receipt)
    ensures ReceiptForBallot(w, poll, request, receipt).Ok? <==>
              && w.keyDecodes(poll.checkpointPublicKey)
              && w.credentialError(poll.issuerPublicKey, poll.pollID, request.credential).None?
              && ReceiptHolds(w, poll, request, receipt)
  {
  }

  // A refusal has the code of the first check that fails.
  lemma ReceiptRefusals(w: World, poll: Poll, request: Sequencer.BallotRequest, receipt: Receipt)
    ensures var (result, invalid) := (ReceiptForBallot(w, poll, request, receipt),
                                      w.credentialError(poll.issuerPublicKey, poll.pollID, request.credential));
            var (key, checkpoint) := (poll.checkpointPublicKey, receipt.checkpoint);
            if !w.keyDecodes(key) then result == Err("invalid_checkpoint_public_key")
            else if invalid.Some? then result == Err(invalid.value)
            else if receipt.schemaVersion != 1 || receipt.protocol != "vota-ssh-credit-v1" || receipt.pollID != poll.pollID
                    || receipt.credentialHash != w.digest("vota:credential-hash:v1" + "\0" + w.credential.text(request.credential))
                    || receipt.choiceID != request.choiceID
                    || checkpoint.pollID != receipt.pollID || checkpoint.sequence != receipt.sequence || checkpoint.eventHash != receipt.eventHash
            then result == Err("receipt_binding_mismatch")
            else result.Err? ==> result == Err("invalid_sequencer_signature")
  {
  }

  /* Two bundles */

  function CompareVerdict(w: World, first: AuditBundle, second: AuditBundle): Result<()>
    requires Accepts(w, first) && Accepts(w, second)
  {
    if first.poll.pollID != second.poll.pollID || first.checkpointPublicKey != second.checkpointPublicKey
    then Err("audit histories describe different polls")
    else if exists i :: 0 <= i < |first.events| && i < |second.events| && first.events[i].eventHash != second.events[i].eventHash
    then Err("audit_fork_detected")
    else Ok(())
  }

  method Compare(w: World, first: AuditBundle, second: AuditBundle) returns (result: Result<()>)
    requires InRange(first.tally) && InRange(second.tally)
    ensures !Accepts(w, first) ==> result.Err? && RejectsWith(w, first, result.code)
    ensures Accepts(w, first) && !Accepts(w, second) ==> result.Err? && RejectsWith(w, second, result.code)
    ensures Accepts(w, first) && Accepts(w, second) ==> result == CompareVerdict(w, first, second)
    ensures Accepts(w, first) && Accepts(w, second) ==>
              if first.poll.pollID != second.poll.pollID || first.checkpointPublicKey != second.checkpointPublicKey
              then result == Err("audit histories describe different polls")
              else if forall i :: 0 <= i < |first.events| && i < |second.events| ==> first.events[i].eventHash == second.events[i].eventHash
              then result == Ok(())
              else result == Err("audit_fork_detected")
  {
    hide Accepts, RejectsWith;
    var _ :- VerifyAudit(w, first);
    var _ :- VerifyAudit(w, second);
    if first.poll.pollID != second.poll.pollID || first.checkpointPublicKey != second.checkpointPublicKey {
      return Err("audit histories describe different polls");
    }
    AcceptedCheckpoints(w, first);
    AcceptedCheckpoints(w, second);
    var bySequence: map<nat, Checkpoint> := map[];
    for index := 0 to |first.checkpoints|
      invariant forall s :: s in bySequence <==> 1 <= s <= index
      invariant forall s | s in bySequence :: bySequence[s] == first.checkpoints[s - 1]
    {
      var checkpoint := first.checkpoints[index];
      bySequence := bySequence[checkpoint.sequence := checkpoint];
    }
    for index := 0 to |second.checkpoints|
      invariant forall i :: 0 <= i < index && i < |first.events| ==> first.events[i].eventHash == second.events[i].eventHash
    {
      var checkpoint := second.checkpoints[index];
      if checkpoint.sequence in bySequence && bySequence[checkpoint.sequence].eventHash != checkpoint.eventHash {
        assert first.events[index].eventHash != second.events[index].eventHash;
        return Err("audit_fork_detected");
      }
    }
    return Ok(());
  }

  /** A bundle compares with itself and with itself without its close. */
  lemma CompareSelf(w: World, b: AuditBundle)
    requires Accepts(w, b)
    ensures CompareVerdict(w, b, b) == Ok(())
    ensures EndsClosed(b) && |b.events| > 1 ==>
              && Accepts(w, Shortened(b))
              && CompareVerdict(w, b, Shortened(b)) == Ok(()) && CompareVerdict(w, Shortened(b), b) == Ok(())
  {
    hide HeaderProblem, EventsFine, TotalsMatch, Chained, Numbered;
    if EndsClosed(b) && |b.events| > 1 { CloseNotRequired(w, b); }
  }

  /** Any two audits of a closed poll, each read at any seven later moments of any runs, are accepted and compare. */
  lemma AuditsCompare(w: World, hs: History.Histories, p: string, runs: seq<seq<Runs.Op>>, views: seq<Store.Db>,
                      others: seq<seq<Runs.Op>>, otherViews: seq<Store.Db>)
    requires w.Honest() && History.AllValid(w, hs) && p in hs && hs[p].closedAt.Some?
    requires |runs| == |views| == 7 && forall i :: 0 <= i < 7 ==> views[i] == History.Render(w, Runs.After(w, hs, runs[i]))
    requires |others| == |otherViews| == 7 && forall i :: 0 <= i < 7 ==> otherViews[i] == History.Render(w, Runs.After(w, hs, others[i]))
    ensures var (a, b) := (Completeness.AuditFrom(w, views, p), Completeness.AuditFrom(w, otherViews, p));
            a.Ok? && b.Ok? && Accepts(w, a.value) && Accepts(w, b.value) && CompareVerdict(w, a.value, b.value) == Ok(())
  {
    hide w.Honest, History.AllValid, History.Render, Runs.After, Completeness.AuditFrom, Accepts, CompareVerdict, Completeness.BundleOf;
    Completeness.AuditPasses(w, hs, p, runs, views);
    Completeness.AuditPasses(w, hs, p, others, otherViews);
    CompareSelf(w, Completeness.AuditFrom(w, views, p).value);
  }

  lemma AcceptedCheckpoints(w: World, b: AuditBundle)
    requires Accepts(w, b)
    ensures |b.checkpoints| == |b.events|
    ensures forall i :: 0 <= i < |b.events| ==> b.checkpoints[i].sequence == i + 1 && b.checkpoints[i].eventHash == b.events[i].eventHash
  {
    hide GenuineBallot, EventHash, VerifyCheckpoint, Sequencer.ArtifactHash;
    forall i | 0 <= i < |b.events| ensures b.checkpoints[i].sequence == i + 1 && b.checkpoints[i].eventHash == b.events[i].eventHash {
      AcceptedLog(w, b, i);
    }
  }

  /** The strict decoder refuses unknown fields: the artifact of one kind of event does not decode as another's. */
  ghost predicate KindsApart(w: World) {
    && (forall s :: w.created.read(s).Some? && w.created.read(s).value.kind == "poll_created" ==> w.ballot.read(s).None?)
    && (forall t :: w.ballot.read(w.tally.text(t)).None? && w.created.read(w.tally.text(t)).None?)
  }

  // Go's slices are no longer than its int.
  predicate FitsGo(b: AuditBundle) {
    |b.events| <= 0x7fff_ffff_ffff_ffff
  }

  predicate SameEvent(a: AuditEvent, b: AuditEvent) {
    && a.sequence == b.sequence && a.kind == b.kind && a.previousHash == b.previousHash && a.eventHash == b.eventHash
    && a.artifact == b.artifact
  }

  function PreimageAt(b: AuditBundle, i: nat): string
    requires i < |b.events|
  {
    BallotPreimage(b.poll.pollID, StoreEvent(b.events[i]))
  }

  predicate CollideAt(w: World, a: AuditBundle, b: AuditBundle, i: nat)
    requires i < |a.events| && i < |b.events|
  {
    Collide(w, PreimageAt(a, i), PreimageAt(b, i))
  }

  lemma PreviousLength(w: World, b: AuditBundle, i: nat)
    requires Accepts(w, b) && i < |b.events|
    ensures |b.events[i].previousHash| == 71
  {
    hide GenuineBallot, EventHash, VerifyCheckpoint, Sequencer.ArtifactHash, Accepts;
    AcceptedLog(w, b, i);
    if i > 0 { AcceptedLog(w, b, i - 1); }
  }

  // One artifact is accepted as one kind of event only.
  lemma SameKind(w: World, a: AuditBundle, b: AuditBundle, i: nat)
    requires KindsApart(w) && Accepts(w, a) && Accepts(w, b) && i < |a.events| && i < |b.events|
    requires a.events[i].artifact == b.events[i].artifact
    ensures a.events[i].kind == b.events[i].kind
  {
    hide EventHash, VerifyCheckpoint, Sequencer.ArtifactHash, Accepts, ChoiceExists, CredentialHash, VerifyReceipt;
    AcceptedLog(w, a, i);
    AcceptedLog(w, b, i);
  }

  // Two accepted events with one hash are the same event, or their hashed bytes are a collision.
  lemma SameHashSameEvent(w: World, a: AuditBundle, b: AuditBundle, i: nat)
    requires KindsApart(w) && Accepts(w, a) && Accepts(w, b) && i < |a.events| && i < |b.events| && FitsGo(a)
    requires a.poll.pollID == b.poll.pollID && a.events[i].eventHash == b.events[i].eventHash
    ensures SameEvent(a.events[i], b.events[i]) || CollideAt(w, a, b, i)
  {
    hide GenuineBallot, EventPreimage, VerifyCheckpoint, Sequencer.ArtifactHash, Accepts, KindsApart;
    AcceptedLog(w, a, i);
    AcceptedLog(w, b, i);
    PreviousLength(w, a, i);
    PreviousLength(w, b, i);
    if PreimageAt(a, i) == PreimageAt(b, i) {
      EventPreimageInjective("ballot", a.poll.pollID, i + 1, a.events[i].previousHash, a.events[i].artifact,
                             "ballot", b.poll.pollID, i + 1, b.events[i].previousHash, b.events[i].artifact);
      SameKind(w, a, b, i);
    }
  }

  /** If Compare accepts two bundles, the shorter log is a prefix of the longer, event by event, in sequence, type, previous
      hash, event hash and artifact, or two of their events collide. */
  lemma CompareMeansPrefix(w: World, a: AuditBundle, b: AuditBundle)
    requires KindsApart(w) && Accepts(w, a) && Accepts(w, b) && FitsGo(a)
    requires CompareVerdict(w, a, b).Ok?
    ensures (forall i :: 0 <= i < |a.events| && i < |b.events| ==> SameEvent(a.events[i], b.events[i]))
            || exists i :: 0 <= i < |a.events| && i < |b.events| && CollideAt(w, a, b, i)
  {
    hide Accepts, KindsApart, CollideAt;
    forall i | 0 <= i < |a.events| && i < |b.events| ensures SameEvent(a.events[i], b.events[i]) || CollideAt(w, a, b, i) {
      SameHashSameEvent(w, a, b, i);
    }
  }

  predicate EndsClosed(b: AuditBundle) {
    b.events != [] && b.events[|b.events| - 1].kind == "poll_closed"
  }

  /** If both logs end in a close they are the same log and the tallies are equal, or two events collide. */
  lemma ClosedLogsEqual(w: World, a: AuditBundle, b: AuditBundle)
    requires Faithful(w.tally) && KindsApart(w) && Accepts(w, a) && Accepts(w, b) && FitsGo(a)
    requires CompareVerdict(w, a, b).Ok? && EndsClosed(a) && EndsClosed(b)
    ensures (&& |a.events| == |b.events| && a.tally == b.tally
             && forall i :: 0 <= i < |a.events| ==> SameEvent(a.events[i], b.events[i]))
            || exists i :: 0 <= i < |a.events| && i < |b.events| && CollideAt(w, a, b, i)
  {
    hide Accepts, KindsApart, CollideAt, CompareVerdict, GenuineBallot, EventHash, VerifyCheckpoint, Sequencer.ArtifactHash;
    CompareMeansPrefix(w, a, b);
    if forall i :: 0 <= i < |a.events| && i < |b.events| ==> SameEvent(a.events[i], b.events[i]) {
      var n := if |a.events| <= |b.events| then |a.events| - 1 else |b.events| - 1;
      assert SameEvent(a.events[n], b.events[n]);
      AcceptedLog(w, a, n);
      AcceptedLog(w, b, n);
      assert w.tally.read(w.tally.text(a.tally)) == Some(a.tally);
      assert w.tally.read(w.tally.text(b.tally)) == Some(b.tally);
    }
  }

  /** And a fork, two different events at one place, is reported. */
  lemma ForksAreDetected(w: World, a: AuditBundle, b: AuditBundle, i: nat)
    requires KindsApart(w) && Accepts(w, a) && Accepts(w, b) && FitsGo(a)
    requires a.poll.pollID == b.poll.pollID && i < |a.events| && i < |b.events| && !SameEvent(a.events[i], b.events[i])
    ensures CompareVerdict(w, a, b).Err? || CollideAt(w, a, b, i)
  {
    hide Accepts, KindsApart, CollideAt;
    if a.events[i].eventHash == b.events[i].eventHash { SameHashSameEvent(w, a, b, i); }
  }
}
