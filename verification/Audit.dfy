/** The independent verifier: replay, VerifyAudit, VerifyReceiptForBallot, ContainsReceipt and Compare, with the loops of the
    source, against what acceptance means. */
module Audit {
  import opened Wrappers
  import opened Artifacts
  import opened Store
  import opened Tallies
  import opened Refinement
  import opened Collisions
  import opened Safety
  import Sequencer
  import History

  datatype AuditEvent = AuditEvent(sequence: nat, kind: string, previousHash: string, eventHash: string, artifact: string,
                                   receipt: string)

  datatype AuditBundle = AuditBundle(schemaVersion: int, protocol: string, poll: Poll, events: seq<AuditEvent>,
                                     checkpoints: seq<Checkpoint>, tally: Tally, checkpointPublicKey: string)

  /* replay */

  datatype ChainEvent = ChainEvent(pollID: string, sequence: nat, previousHash: string, eventHash: string, artifact: string)

  // What is wrong with the i-th event of a stream, if those before it are right.
  function LinkProblem(w: World, stream: string, events: seq<ChainEvent>, i: nat): Option<string>
    requires i < |events|
  {
    var event := events[i];
    if event.sequence != i + 1 then Some("event_sequence_gap")
    else if event.previousHash != (if i == 0 then EMPTY_HASH else events[i - 1].eventHash) then Some("event_chain_broken")
    else if event.eventHash != EventHash(w, stream, event.pollID, event.sequence, event.previousHash, event.artifact)
    then Some("event_hash_mismatch")
    else None
  }

  predicate Intact(w: World, stream: string, events: seq<ChainEvent>, n: nat)
    requires n <= |events|
  {
    forall i :: 0 <= i < n ==> LinkProblem(w, stream, events, i).None?
  }

  function HeadHash(events: seq<ChainEvent>): string {
    if events == [] then EMPTY_HASH else events[|events| - 1].eventHash
  }

  // The error is that of the first bad event.
  predicate FirstProblem(w: World, stream: string, events: seq<ChainEvent>, code: string) {
    exists i :: 0 <= i < |events| && Intact(w, stream, events, i) && LinkProblem(w, stream, events, i) == Some(code)
  }

  method Replay(w: World, stream: string, events: seq<ChainEvent>) returns (result: Result<string>)
    ensures result.Ok? <==> Intact(w, stream, events, |events|)
    ensures result.Ok? ==> result.value == HeadHash(events)
    ensures result.Err? ==> FirstProblem(w, stream, events, result.code)
  {
    hide EventHash;
    var previous := EMPTY_HASH;
    var index := 0;
    while index < |events|
      invariant 0 <= index <= |events|
      invariant Intact(w, stream, events, index)
      invariant previous == if index == 0 then EMPTY_HASH else events[index - 1].eventHash
    {
      var event := events[index];
      if event.sequence != index + 1 {
        assert LinkProblem(w, stream, events, index) == Some("event_sequence_gap");
        return Err("event_sequence_gap");
      }
      if event.previousHash != previous {
        assert LinkProblem(w, stream, events, index) == Some("event_chain_broken");
        return Err("event_chain_broken");
      }
      var expected := EventHash(w, stream, event.pollID, event.sequence, event.previousHash, event.artifact);
      if event.eventHash != expected {
        assert LinkProblem(w, stream, events, index) == Some("event_hash_mismatch");
        return Err("event_hash_mismatch");
      }
      previous := expected;
      index := index + 1;
    }
    return Ok(previous);
  }

  function BallotLinks(p: string, events: seq<BallotEvent>): (links: seq<ChainEvent>)
    ensures |links| == |events|
  {
    seq(|events|, i requires 0 <= i < |events| =>
      ChainEvent(p, events[i].sequence, events[i].previousHash, events[i].eventHash, events[i].artifact))
  }

  function CreditLinks(p: string, events: seq<CreditEvent>): (links: seq<ChainEvent>)
    ensures |links| == |events|
  {
    seq(|events|, i requires 0 <= i < |events| =>
      ChainEvent(p, events[i].sequence, events[i].previousHash, events[i].eventHash, events[i].artifact))
  }

  method ReplayBallot(w: World, p: string, events: seq<BallotEvent>) returns (result: Result<string>)
    ensures result.Ok? <==> Numbered(events) && Chained(w, p, events)
    ensures result.Err? ==> FirstProblem(w, "ballot", BallotLinks(p, events), result.code)
  {
    var values: seq<ChainEvent> := [];
    var index := 0;
    while index < |events|
      invariant 0 <= index <= |events| && values == BallotLinks(p, events)[..index]
    {
      var event := events[index];
      values := values + [ChainEvent(p, event.sequence, event.previousHash, event.eventHash, event.artifact)];
      index := index + 1;
    }
    assert values == BallotLinks(p, events);
    IntactBallots(w, p, events);
    result := Replay(w, "ballot", values);
  }

  lemma IntactBallots(w: World, p: string, events: seq<BallotEvent>)
    ensures Intact(w, "ballot", BallotLinks(p, events), |events|) <==> Numbered(events) && Chained(w, p, events)
  {
    hide EventPreimage;
    var links := BallotLinks(p, events);
    if Intact(w, "ballot", links, |events|) {
      forall i | 0 <= i < |events| ensures events[i].sequence == i + 1 && Linked(w, p, events, i) {
        assert LinkProblem(w, "ballot", links, i).None?;
      }
    }
    if Numbered(events) && Chained(w, p, events) {
      forall i | 0 <= i < |events| ensures LinkProblem(w, "ballot", links, i).None? {
        assert Linked(w, p, events, i);
      }
    }
  }

  predicate NumberedCredits(events: seq<CreditEvent>) {
    forall i :: 0 <= i < |events| ==> events[i].sequence == i + 1
  }

  method ReplayCredit(w: World, p: string, events: seq<CreditEvent>) returns (result: Result<string>)
    ensures result.Ok? <==> NumberedCredits(events) && ChainedCredits(w, p, events)
    ensures result.Err? ==> FirstProblem(w, "credit", CreditLinks(p, events), result.code)
  {
    var values: seq<ChainEvent> := [];
    var index := 0;
    while index < |events|
      invariant 0 <= index <= |events| && values == CreditLinks(p, events)[..index]
    {
      var event := events[index];
      values := values + [ChainEvent(p, event.sequence, event.previousHash, event.eventHash, event.artifact)];
      index := index + 1;
    }
    assert values == CreditLinks(p, events);
    IntactCredits(w, p, events);
    result := Replay(w, "credit", values);
  }

  lemma IntactCredits(w: World, p: string, events: seq<CreditEvent>)
    ensures Intact(w, "credit", CreditLinks(p, events), |events|) <==> NumberedCredits(events) && ChainedCredits(w, p, events)
  {
    hide EventPreimage;
    var links := CreditLinks(p, events);
    if Intact(w, "credit", links, |events|) {
      forall i | 0 <= i < |events| ensures events[i].sequence == i + 1 && LinkedCredit(w, p, events, i) {
        assert LinkProblem(w, "credit", links, i).None?;
      }
    }
    if NumberedCredits(events) && ChainedCredits(w, p, events) {
      forall i | 0 <= i < |events| ensures LinkProblem(w, "credit", links, i).None? {
        assert LinkedCredit(w, p, events, i);
      }
    }
  }

  /* The events of a bundle */

  function StoreEvent(event: AuditEvent): BallotEvent {
    BallotEvent(event.sequence, event.kind, event.previousHash, event.eventHash, event.artifact, event.receipt, "")
  }

  function StoreEvents(events: seq<AuditEvent>): (log: seq<BallotEvent>)
    ensures |log| == |events|
  {
    seq(|events|, i requires 0 <= i < |events| => StoreEvent(events[i]))
  }

  predicate Shaped(b: AuditBundle) {
    b.events != [] && |b.events| == |b.checkpoints|
  }

  // The i-th event is an accepted ballot of this credential.
  predicate Spends(w: World, b: AuditBundle, i: nat, credentialHash: string)
    requires i < |b.events|
  {
    && b.events[i].kind == "ballot_accepted" && w.ballot.read(b.events[i].artifact).Some?
    && w.ballot.read(b.events[i].artifact).value.credentialHash == credentialHash
  }

  predicate SpentBefore(w: World, b: AuditBundle, n: nat, credentialHash: string)
    requires n <= |b.events|
  {
    exists i :: 0 <= i < n && Spends(w, b, i, credentialHash)
  }

  predicate ReceiptBinds(b: AuditBundle, event: AuditEvent, record: BallotRecord, receipt: Receipt) {
    && receipt.pollID == b.poll.pollID && receipt.sequence == event.sequence && receipt.eventHash == event.eventHash
    && receipt.credentialHash == record.credentialHash && receipt.choiceID == record.choiceID
  }

  function ReceiptVerdict(w: World, key: string, receipt: Receipt): Option<string> {
    if receipt.checkpoint.pollID != receipt.pollID || receipt.checkpoint.sequence != receipt.sequence
       || receipt.checkpoint.eventHash != receipt.eventHash then Some("receipt_binding_mismatch")
    else if !VerifyCheckpoint(w, BALLOT_CHECKPOINTS, key, receipt.checkpoint) then Some("invalid_sequencer_signature")
    else if !w.verifies(key, ReceiptMessage(w, receipt), receipt.signature) then Some("invalid_sequencer_signature")
    else None
  }

  lemma VerdictMeans(w: World, key: string, receipt: Receipt)
    ensures ReceiptVerdict(w, key, receipt).None? <==> VerifyReceipt(w, key, receipt)
  {
    hide VerifyCheckpoint, ReceiptMessage;
  }

  function BallotProblem(w: World, b: AuditBundle, i: nat): Option<string>
    requires i < |b.events|
  {
    var event := b.events[i];
    match w.ballot.read(event.artifact)
    case None => Some("invalid_ballot_event")
    case Some(record) =>
      if record.pollID != b.poll.pollID || record.sequence != event.sequence then Some("invalid_ballot_event")
      else if SpentBefore(w, b, i, record.credentialHash) then Some("duplicate_credential")
      else if VerifyWireCredential(w, b.poll, record.credential) != Ok(record.credentialHash) then Some("invalid_credential")
      else if !ChoiceExists(b.poll.choices, record.choiceID) then Some("invalid_choice")
      else match w.receipt.read(event.receipt)
           case None => Some("invalid_receipt")
           case Some(receipt) =>
             if !ReceiptBinds(b, event, record, receipt) then Some("invalid_receipt")
             else ReceiptVerdict(w, b.checkpointPublicKey, receipt)
  }

  // What VerifyAudit's loop finds wrong with the i-th event.
  function EventProblem(w: World, b: AuditBundle, i: nat): Option<string>
    requires i < |b.events| == |b.checkpoints|
  {
    var (event, checkpoint) := (b.events[i], b.checkpoints[i]);
    if checkpoint.sequence != event.sequence || checkpoint.eventHash != event.eventHash then Some("checkpoint_binding_mismatch")
    else if !VerifyCheckpoint(w, BALLOT_CHECKPOINTS, b.checkpointPublicKey, checkpoint) then Some("invalid_sequencer_signature")
    else if event.kind == "poll_created" then
      if i != 0 || w.created.read(event.artifact) != Some(PollCreatedRecord("poll_created", Sequencer.ArtifactHash(w, b.poll)))
      then Some("invalid_poll_created_event") else None
    else if event.kind == "ballot_accepted" then BallotProblem(w, b, i)
    else if event.kind == "poll_closed" then
      if i != |b.events| - 1 || event.artifact != w.tally.text(b.tally) then Some("invalid_close_event") else None
    else Some("invalid_event_type")
  }

  predicate EventsFine(w: World, b: AuditBundle, n: nat)
    requires n <= |b.events| == |b.checkpoints|
  {
    forall i :: 0 <= i < n ==> EventProblem(w, b, i).None?
  }

  function HeaderProblem(w: World, b: AuditBundle): Option<string> {
    if b.schemaVersion != SCHEMA_VERSION || b.protocol != PROTOCOL || b.poll.pollID == "" || b.poll.pollID != b.tally.pollID
    then Some("invalid_audit_bundle")
    else if !w.keyDecodes(b.checkpointPublicKey) || b.poll.checkpointPublicKey != b.checkpointPublicKey then Some("invalid_audit_key")
    else if !VerifyPoll(w, b.checkpointPublicKey, b.poll) then Some("invalid_sequencer_signature")
    else if TallyVerdict(w, b.poll, b.tally).Err? then Some(TallyVerdict(w, b.poll, b.tally).code)
    else if !Shaped(b) then Some("audit_sequence_gap")
    else None
  }

  // The totals of the tally are the numbers of ballots.
  predicate TotalsMatch(w: World, b: AuditBundle) {
    && b.tally.ballotCount == Accepted(StoreEvents(b.events)) && |b.tally.totals| == |b.poll.choices|
    && forall i :: 0 <= i < |b.tally.totals| ==>
         BallotsFor(w, StoreEvents(b.events), b.tally.totals[i].choiceID) == b.tally.totals[i].total
  }

  // What VerifyAudit accepts.
  predicate Accepts(w: World, b: AuditBundle) {
    && HeaderProblem(w, b).None? && Shaped(b)
    && EventsFine(w, b, |b.events|)
    && Numbered(StoreEvents(b.events)) && Chained(w, b.poll.pollID, StoreEvents(b.events))
    && TotalsMatch(w, b)
  }

  // The code VerifyAudit rejects with, stage by stage.
  predicate RejectsWith(w: World, b: AuditBundle, code: string) {
    if HeaderProblem(w, b).Some? then HeaderProblem(w, b) == Some(code)
    else if Shaped(b) && !EventsFine(w, b, |b.events|) then
      exists i :: 0 <= i < |b.events| && EventsFine(w, b, i) && EventProblem(w, b, i) == Some(code)
    else if !(Numbered(StoreEvents(b.events)) && Chained(w, b.poll.pollID, StoreEvents(b.events))) then
      FirstProblem(w, "ballot", BallotLinks(b.poll.pollID, StoreEvents(b.events)), code)
    else code == "tally_mismatch"
  }

  method VerifyAudit(w: World, b: AuditBundle) returns (result: Result<()>)
    requires InRange(b.tally)
    ensures result.Ok? <==> Accepts(w, b)
    ensures result.Err? ==> RejectsWith(w, b, result.code)
  {
    hide VerifyPoll, TallyVerdict, EventProblem, Numbered, Chained, BallotLinks, BallotsFor, Accepted;
    var header := CheckHeader(w, b);
    if header.Err? {
      return header;
    }
    var totals: map<string, nat> := map[];
    var ballotCount := 0;
    var seen: set<string> := {};
    var storeEvents: seq<BallotEvent> := [];
    var index := 0;
    CountedNone(w);
    while index < |b.events|
      invariant 0 <= index <= |b.events| && storeEvents == StoreEvents(b.events)[..index]
      invariant EventsFine(w, b, index)
      invariant forall c :: c in seen <==> SpentBefore(w, b, index, c)
      invariant 0 <= ballotCount == Accepted(storeEvents)
      invariant forall id :: Counter(totals, id) == BallotsFor(w, storeEvents, id)
    {
      var problem, counted := CheckEvent(w, b, index, seen);
      if problem.Some? {
        return Err(problem.value);
      }
      SpentNext(w, b, index);
      CountNextEvent(w, storeEvents, StoreEvent(b.events[index]));
      storeEvents := storeEvents + [StoreEvent(b.events[index])];
      if counted.Some? {
        seen := seen + {counted.value.credentialHash};
        totals := totals[counted.value.choiceID := Counter(totals, counted.value.choiceID) + 1];
        ballotCount := ballotCount + 1;
      }
      index := index + 1;
    }
    assert storeEvents == StoreEvents(b.events);
    var replayed := ReplayBallot(w, b.poll.pollID, storeEvents);
    if replayed.Err? {
      return Err(replayed.code);
    }
    var matching := CheckTally(w, b, totals, ballotCount);
    return if matching then Ok(()) else Err("tally_mismatch");
  }

  // The counter of a Go map[string]int: absent is zero.
  function Counter(totals: map<string, nat>, id: string): nat {
    if id in totals then totals[id] else 0
  }

  method CheckHeader(w: World, b: AuditBundle) returns (result: Result<()>)
    requires InRange(b.tally)
    ensures result == match HeaderProblem(w, b) case None => Ok(()) case Some(code) => Err(code)
  {
    hide VerifyPoll, TallyVerdict;
    if b.schemaVersion != SCHEMA_VERSION || b.protocol != PROTOCOL || b.poll.pollID == "" || b.poll.pollID != b.tally.pollID {
      return Err("invalid_audit_bundle");
    }
    if !w.keyDecodes(b.checkpointPublicKey) || b.poll.checkpointPublicKey != b.checkpointPublicKey {
      return Err("invalid_audit_key");
    }
    if !VerifyPoll(w, b.checkpointPublicKey, b.poll) {
      return Err("invalid_sequencer_signature");
    }
    var tally := VerifyTallyForPoll(w, b.poll, b.tally);
    if tally.Err? {
      return tally;
    }
    if |b.events| == 0 || |b.events| != |b.checkpoints| {
      return Err("audit_sequence_gap");
    }
    return Ok(());
  }

  // The body of VerifyAudit's loop: the problem, or the ballot to count.
  method CheckEvent(w: World, b: AuditBundle, index: nat, seen: set<string>) returns (problem: Option<string>, counted: Option<BallotRecord>)
    requires index < |b.events| == |b.checkpoints|
    requires forall c :: c in seen <==> SpentBefore(w, b, index, c)
    ensures problem == EventProblem(w, b, index)
    ensures counted == if b.events[index].kind == "ballot_accepted" && problem.None? then w.ballot.read(b.events[index].artifact) else None
    ensures b.events[index].kind == "ballot_accepted" && problem.None? ==> counted.Some?
  {
    hide SpentBefore, VerifyWireCredential, ChoiceExists, ReceiptVerdict, Sequencer.ArtifactHash, VerifyCheckpoint;
    var event := b.events[index];
    var checkpoint := b.checkpoints[index];
    counted := None;
    if checkpoint.sequence != event.sequence || checkpoint.eventHash != event.eventHash {
      return Some("checkpoint_binding_mismatch"), None;
    }
    if !VerifyCheckpoint(w, BALLOT_CHECKPOINTS, b.checkpointPublicKey, checkpoint) {
      return Some("invalid_sequencer_signature"), None;
    }
    match event.kind {
      case "poll_created" =>
        var record := w.created.read(event.artifact);
        if index != 0 || record.None? || record.value.kind != "poll_created"
           || record.value.pollHash != Sequencer.ArtifactHash(w, b.poll) {
          return Some("invalid_poll_created_event"), None;
        }
      case "ballot_accepted" =>
        var record := w.ballot.read(event.artifact);
        if record.None? || record.value.pollID != b.poll.pollID || record.value.sequence != event.sequence {
          return Some("invalid_ballot_event"), None;
        }
        if record.value.credentialHash in seen {
          return Some("duplicate_credential"), None;
        }
        var verified := VerifyWireCredential(w, b.poll, record.value.credential);
        if verified.Err? || verified.value != record.value.credentialHash {
          return Some("invalid_credential"), None;
        }
        if !ChoiceExists(b.poll.choices, record.value.choiceID) {
          return Some("invalid_choice"), None;
        }
        var receipt := w.receipt.read(event.receipt);
        if receipt.None? || !ReceiptBinds(b, event, record.value, receipt.value) {
          return Some("invalid_receipt"), None;
        }
        var receiptProblem := ReceiptVerdict(w, b.checkpointPublicKey, receipt.value);
        if receiptProblem.Some? {
          return receiptProblem, None;
        }
        counted := record;
      case "poll_closed" =>
        if index != |b.events| - 1 || event.artifact != w.tally.text(b.tally) {
          return Some("invalid_close_event"), None;
        }
      case _ =>
        return Some("invalid_event_type"), None;
    }
    return None, counted;
  }

  // The last loop: every total against the counter.
  method CheckTally(w: World, b: AuditBundle, totals: map<string, nat>, ballotCount: nat) returns (ok: bool)
    requires ballotCount == Accepted(StoreEvents(b.events))
    requires forall id :: Counter(totals, id) == BallotsFor(w, StoreEvents(b.events), id)
    ensures ok <==> TotalsMatch(w, b)
  {
    hide BallotsFor, Accepted;
    if b.tally.ballotCount != ballotCount || |b.tally.totals| != |b.poll.choices| {
      return false;
    }
    var index := 0;
    while index < |b.tally.totals|
      invariant 0 <= index <= |b.tally.totals|
      invariant forall i :: 0 <= i < index ==> BallotsFor(w, StoreEvents(b.events), b.tally.totals[i].choiceID) == b.tally.totals[i].total
    {
      if Counter(totals, b.tally.totals[index].choiceID) != b.tally.totals[index].total {
        return false;
      }
      index := index + 1;
    }
    return true;
  }

  lemma CountedNone(w: World)
    ensures Accepted([]) == 0 && forall id :: BallotsFor(w, [], id) == 0
  {
  }

  lemma SpentNext(w: World, b: AuditBundle, n: nat)
    requires n < |b.events|
    ensures forall c :: SpentBefore(w, b, n + 1, c) <==> SpentBefore(w, b, n, c) || Spends(w, b, n, c)
  {
  }

  lemma CountNextEvent(w: World, before: seq<BallotEvent>, event: BallotEvent)
    ensures var log := before + [event];
            && Accepted(log) == Accepted(before) + (if event.kind == "ballot_accepted" then 1 else 0)
            && forall id :: BallotsFor(w, log, id) == BallotsFor(w, before, id)
                 + (if event.kind == "ballot_accepted" && w.ballot.read(event.artifact).Some?
                       && w.ballot.read(event.artifact).value.choiceID == id then 1 else 0)
  {
    assert History.Init(before + [event]) == before;
  }
}
