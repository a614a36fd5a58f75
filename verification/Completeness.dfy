/** Service.Audit, and that every bundle it returns for a closed poll passes VerifyAudit, whatever other transactions
    commit between its reads. */
module Completeness {
  import opened Wrappers
  import opened Artifacts
  import opened Store
  import opened Tallies
  import opened Sequencer
  import opened History
  import opened Refinement
  import opened Closing
  import opened Runs
  import opened Collisions
  import opened Safety
  import opened Audit

  /* Service.Audit: seven reads, each of the store as it is then */

  function AuditEventOf(event: BallotEvent): AuditEvent {
    AuditEvent(event.sequence, event.kind, event.previousHash, event.eventHash, event.artifact, event.receipt)
  }

  function AuditEvents(log: seq<BallotEvent>): (events: seq<AuditEvent>)
    ensures |events| == |log|
  {
    seq(|log|, i requires 0 <= i < |log| => AuditEventOf(log[i]))
  }

  // The stored checkpoints decoded in order.
  function DecodeCheckpoints(w: World, rows: seq<CheckpointRow>): Result<seq<Checkpoint>> {
    if rows == [] then Ok([]) else
    var before :- DecodeCheckpoints(w, Init(rows));
    match w.checkpoint.read(Last(rows).artifact)
    case None => Err("invalid_stored_checkpoint")
    case Some(checkpoint) => Ok(before + [checkpoint])
  }

  lemma {:induction false} DecodeFails(w: World, rows: seq<CheckpointRow>, k: nat)
    requires k <= |rows| && DecodeCheckpoints(w, rows[..k]).Err?
    ensures DecodeCheckpoints(w, rows) == Err("invalid_stored_checkpoint")
    decreases |rows|
  {
    if k < |rows| {
      assert Init(rows)[..k] == rows[..k];
      DecodeFails(w, Init(rows), k);
    } else {
      assert rows[..k] == rows;
      DecodeCode(w, rows);
    }
  }

  lemma {:induction false} DecodeCode(w: World, rows: seq<CheckpointRow>)
    ensures DecodeCheckpoints(w, rows).Err? ==> DecodeCheckpoints(w, rows) == Err("invalid_stored_checkpoint")
  {
    if rows != [] { DecodeCode(w, Init(rows)); }
  }

  // Result's three reads.
  function ResultFrom(w: World, a: Db, b: Db, c: Db, p: string): Result<Tally> {
    var stored :- ReadPoll(a, p);
    if stored.state != "closed" then Err("result_unavailable") else
    var poll :- SignedPoll(w, b, p);
    var row :- ReadTally(c, p);
    match w.tally.read(row.artifact)
    case None => Err("invalid_stored_tally")
    case Some(tally) => if TallyVerdict(w, poll, tally).Ok? then Ok(tally) else Err("invalid_stored_tally")
  }

  // views[i] is the store at Audit's i-th read.
  function AuditFrom(w: World, views: seq<Db>, p: string): Result<AuditBundle>
    requires |views| == 7
  {
    var state :- ReadPoll(views[0], p);
    if state.state != "closed" then Err("poll_not_closed") else
    var poll :- SignedPoll(w, views[1], p);
    var tally :- ResultFrom(w, views[4], views[5], views[6], p);
    var checkpoints :- DecodeCheckpoints(w, ReadCheckpoints(views[3], p));
    Ok(AuditBundle(SCHEMA_VERSION, PROTOCOL, poll, AuditEvents(ReadBallotEvents(views[2], p)), checkpoints, tally, w.keyText))
  }

  method ServeAudit(w: World, views: seq<Db>, p: string) returns (result: Result<AuditBundle>)
    requires |views| == 7
    ensures result == AuditFrom(w, views, p)
  {
    hide SignedPoll, ResultFrom, ReadPoll, ReadBallotEvents, ReadCheckpoints;
    var pollState :- ReadPoll(views[0], p);
    if pollState.state != "closed" {
      return Err("poll_not_closed");
    }
    var poll :- SignedPoll(w, views[1], p);
    var rows := ReadBallotEvents(views[2], p);
    var stored := ReadCheckpoints(views[3], p);
    var tally :- ResultFrom(w, views[4], views[5], views[6], p);
    var events: seq<AuditEvent> := [];
    for index := 0 to |rows|
      invariant events == AuditEvents(rows)[..index]
    {
      events := events + [AuditEventOf(rows[index])];
    }
    var checkpoints: seq<Checkpoint> := [];
    assert stored[..0] == [];
    for index := 0 to |stored|
      invariant DecodeCheckpoints(w, stored[..index]) == Ok(checkpoints)
    {
      assert Init(stored[..index + 1]) == stored[..index];
      var checkpoint := w.checkpoint.read(stored[index].artifact);
      if checkpoint.None? {
        DecodeFails(w, stored, index + 1);
        return Err("invalid_stored_checkpoint");
      }
      checkpoints := checkpoints + [checkpoint.value];
    }
    assert stored[..|stored|] == stored && events == AuditEvents(rows);
    return Ok(AuditBundle(SCHEMA_VERSION, PROTOCOL, poll, events, checkpoints, tally, w.keyText));
  }

  /* The bundle of a history */

  function SignedCheckpoints(w: World, p: string, log: seq<BallotEvent>): (checkpoints: seq<Checkpoint>)
    ensures |checkpoints| == |log|
  {
    seq(|log|, i requires 0 <= i < |log| => StreamCheckpoint(w, BALLOT_CHECKPOINTS, p, log[i].sequence, log[i].eventHash))
  }

  function BundleOf(w: World, h: History): AuditBundle
    requires h.closedAt.Some?
  {
    AuditBundle(SCHEMA_VERSION, PROTOCOL, h.poll, AuditEvents(Log(w, h)), SignedCheckpoints(w, h.poll.pollID, Log(w, h)),
                TallyOf(w, h.poll, h.casts, h.closedAt.value), w.keyText)
  }

  lemma CheckpointDecodes(w: World, checkpoint: Checkpoint)
    requires w.Honest()
    ensures w.checkpoint.read(w.checkpoint.text(checkpoint)) == Some(checkpoint)
  {
  }

  lemma {:induction false} CheckpointsDecode(w: World, p: string, log: seq<BallotEvent>)
    requires w.Honest()
    ensures DecodeCheckpoints(w, CheckpointsOf(w, p, log)) == Ok(SignedCheckpoints(w, p, log))
  {
    hide w.Honest, StreamCheckpoint;
    if log == [] {
      assert CheckpointsOf(w, p, log) == [] && SignedCheckpoints(w, p, log) == [];
    } else {
      CheckpointsDecode(w, p, Init(log));
      assert CheckpointsOf(w, p, Init(log)) == Init(CheckpointsOf(w, p, log));
      assert SignedCheckpoints(w, p, log)
          == SignedCheckpoints(w, p, Init(log)) + [StreamCheckpoint(w, BALLOT_CHECKPOINTS, p, Last(log).sequence, Last(log).eventHash)];
      CheckpointDecodes(w, StreamCheckpoint(w, BALLOT_CHECKPOINTS, p, Last(log).sequence, Last(log).eventHash));
    }
  }

  // What is read at any moment after the close.
  lemma ViewReads(w: World, hs: Histories, p: string, run: seq<Op>, view: Db)
    requires w.Honest() && AllValid(w, hs) && p in hs && hs[p].closedAt.Some? && view == Render(w, After(w, hs, run))
    ensures ReadPoll(view, p).Ok? && ReadPoll(view, p).value.state == "closed" && SignedPoll(w, view, p) == Ok(hs[p].poll)
    ensures ReadBallotEvents(view, p) == Log(w, hs[p]) && ReadCheckpoints(view, p) == CheckpointsOf(w, p, Log(w, hs[p]))
    ensures var tally := TallyOf(w, hs[p].poll, hs[p].casts, hs[p].closedAt.value);
            ReadTally(view, p).Ok? && w.tally.read(ReadTally(view, p).value.artifact) == Some(tally) && TallyVerdict(w, hs[p].poll, tally) == Ok(())
  {
    hide Render, AllValid, w.Honest, SignedPoll, ReadPoll, ReadTally, TallyVerdict, Log, TallyOf, DoOp, CheckpointsOf, ReadBallotEvents,
         ReadCheckpoints;
    var later := After(w, hs, run);
    RunValid(w, hs, run);
    ClosedStays(w, hs, run, p);
    ClosedReads(w, later, p);
    SignedPollReads(w, later, p);
    EventReads(w, later, p);
  }

  // Reading at any seven moments after the close gives the one bundle.
  lemma ReadsGiveBundle(w: World, hs: Histories, p: string, runs: seq<seq<Op>>, views: seq<Db>)
    requires w.Honest() && AllValid(w, hs) && p in hs && hs[p].closedAt.Some?
    requires |runs| == |views| == 7 && forall i :: 0 <= i < 7 ==> views[i] == Render(w, After(w, hs, runs[i]))
    ensures AuditFrom(w, views, p) == Ok(BundleOf(w, hs[p]))
  {
    hide Render, AllValid, w.Honest, SignedPoll, ReadPoll, ReadTally, TallyVerdict, DecodeCheckpoints, Log, TallyOf, DoOp, CheckpointsOf,
         AuditEvents, SignedCheckpoints, After, ReadBallotEvents, ReadCheckpoints;
    ViewReads(w, hs, p, runs[0], views[0]);
    ViewReads(w, hs, p, runs[1], views[1]);
    ViewReads(w, hs, p, runs[2], views[2]);
    ViewReads(w, hs, p, runs[3], views[3]);
    ViewReads(w, hs, p, runs[4], views[4]);
    ViewReads(w, hs, p, runs[5], views[5]);
    ViewReads(w, hs, p, runs[6], views[6]);
    ValidAt(w, hs, p);
    CheckpointsDecode(w, p, Log(w, hs[p]));
  }

  lemma EventReads(w: World, hs: Histories, p: string)
    requires AllValid(w, hs) && p in hs
    ensures ReadBallotEvents(Render(w, hs), p) == Log(w, hs[p])
    ensures ReadCheckpoints(Render(w, hs), p) == CheckpointsOf(w, p, Log(w, hs[p]))
  {
    hide Log, CreditLog, CreditsOf, SpentOf, TallyRowOf, CheckpointsOf, RowOf, ChoiceRowsOf, Valid;
  }

  /* The bundle passes */

  lemma CheckpointVerifies(w: World, domain: string, p: string, sequence: nat, eventHash: string)
    requires w.Honest()
    ensures VerifyCheckpoint(w, domain, w.keyText, StreamCheckpoint(w, domain, p, sequence, eventHash))
  {
  }

  lemma ReceiptPasses(w: World, record: BallotRecord, eventHash: string)
    requires w.Honest()
    ensures ReceiptVerdict(w, w.keyText, ReceiptOf(w, record, eventHash)).None?
    ensures w.receipt.read(w.receipt.text(ReceiptOf(w, record, eventHash))) == Some(ReceiptOf(w, record, eventHash))
  {
  }

  // The events of a log by place: creation, ballots, close.
  lemma LogFirst(w: World, h: History)
    ensures Log(w, h)[0] == CreatedEvent(w, h.poll, h.createdAt)
  {
    hide CastEvent, CreatedEvent, TallyOf, ClosedEvent;
    CastLogPrefix(w, h.poll, h.createdAt, h.casts, 0);
    LogExtendsCasts(w, h, 0);
    assert h.casts[..0] == [];
    assert CastLog(w, h.poll, h.createdAt, h.casts)[..1][0] == CastLog(w, h.poll, h.createdAt, h.casts)[0];
  }

  lemma LogBallot(w: World, h: History, k: nat)
    requires k < |h.casts|
    ensures k + 1 < |Log(w, h)|
    ensures var (event, record) := (Log(w, h)[k + 1], CastRecord(w, h.poll, k + 2, h.casts[k]));
            && event.kind == "ballot_accepted" && event.sequence == k + 2 && event.artifact == w.ballot.text(record)
            && event.receipt == w.receipt.text(ReceiptOf(w, record, event.eventHash))
  {
    hide Log, CastRecord, CastLog, FindEvent, ReceiptOf, EventHash;
    LogNumbered(w, h);
    FindNumbered(Log(w, h), k + 1);
    CastEventAt(w, h, k);
    CastLogNumbered(w, h.poll, h.createdAt, h.casts[..k]);
    RecordSequence(w, h.poll, k + 2, h.casts[k]);
  }

  lemma RecordSequence(w: World, poll: Poll, sequence: nat, cast: Cast)
    ensures var record := CastRecord(w, poll, sequence, cast);
            && record.sequence == sequence && record.pollID == poll.pollID && record.credential == cast.ballot.credential
            && record.credentialHash == CredentialHash(w, cast.ballot.credential) && record.choiceID == cast.ballot.choiceID
  {
  }

  lemma RecordDecodes(w: World, record: BallotRecord)
    requires w.Honest()
    ensures w.ballot.read(w.ballot.text(record)) == Some(record)
  {
  }

  // Which credentials the bundle's events spend.
  lemma SpendsOf(w: World, h: History, i: nat, c: string)
    requires w.Honest() && h.closedAt.Some? && i < |BundleOf(w, h).events| && Spends(w, BundleOf(w, h), i, c)
    ensures 1 <= i <= |h.casts| && c == CredentialHash(w, h.casts[i - 1].ballot.credential)
  {
    hide Log, CredentialHash, w.Honest, ReceiptOf, EventHash, BundleOf, CastRecord, CreatedEvent;
    BundleShape(w, h);
    BundleEvent(w, h, i);
    if i == 0 {
      LogFirst(w, h);
      CreatedKind(w, h.poll, h.createdAt);
    } else if i <= |h.casts| {
      LogBallot(w, h, i - 1);
      RecordSequence(w, h.poll, i + 1, h.casts[i - 1]);
      RecordDecodes(w, CastRecord(w, h.poll, i + 1, h.casts[i - 1]));
    } else {
      LogLast(w, h);
    }
  }

  lemma CreatedKind(w: World, poll: Poll, createdAt: string)
    ensures CreatedEvent(w, poll, createdAt).kind == "poll_created"
  {
  }

  lemma BundleEvent(w: World, h: History, i: nat)
    requires h.closedAt.Some? && i < |Log(w, h)|
    ensures BundleOf(w, h).events[i] == AuditEventOf(Log(w, h)[i])
    ensures BundleOf(w, h).checkpoints[i] == StreamCheckpoint(w, BALLOT_CHECKPOINTS, h.poll.pollID, Log(w, h)[i].sequence, Log(w, h)[i].eventHash)
  {
    hide Log, TallyOf, StreamCheckpoint;
  }

  lemma LogLast(w: World, h: History)
    requires h.closedAt.Some?
    ensures var last := Last(Log(w, h));
            last.kind == "poll_closed" && last.artifact == w.tally.text(TallyOf(w, h.poll, h.casts, h.closedAt.value)) && last.receipt == ""
  {
    hide CastLog, TallyOf;
  }

  lemma NotSpentBefore(w: World, h: History, k: nat)
    requires w.Honest() && h.closedAt.Some? && k < |h.casts| && DistinctCredentials(w, h.casts)
    ensures k + 1 < |BundleOf(w, h).events| && !SpentBefore(w, BundleOf(w, h), k + 1, CredentialHash(w, h.casts[k].ballot.credential))
  {
    hide Log, CredentialHash, w.Honest, BundleOf, Spends;
    LogNumbered(w, h);
    var (b, c) := (BundleOf(w, h), CredentialHash(w, h.casts[k].ballot.credential));
    BundleShape(w, h);
    forall i: nat | i < k + 1 ensures !Spends(w, b, i, c) {
      if Spends(w, b, i, c) { SpendsOf(w, h, i, c); }
    }
  }

  lemma BundleShape(w: World, h: History)
    requires h.closedAt.Some?
    ensures |BundleOf(w, h).events| == |BundleOf(w, h).checkpoints| == |Log(w, h)| == |h.casts| + 2
    ensures BundleOf(w, h).poll == h.poll && BundleOf(w, h).checkpointPublicKey == w.keyText
    ensures BundleOf(w, h).tally == TallyOf(w, h.poll, h.casts, h.closedAt.value)
  {
    hide CastLog, TallyOf;
  }

  lemma BallotPasses(w: World, h: History, k: nat)
    requires w.Honest() && Valid(w, h) && h.closedAt.Some? && k < |h.casts|
    ensures k + 1 < |BundleOf(w, h).events| && BallotProblem(w, BundleOf(w, h), k + 1).None?
  {
    hide Log, CredentialHash, w.Honest, ReceiptOf, Valid, BundleOf, ReceiptVerdict, SpentBefore, VerifyWireCredential, ChoiceExists, CastRecord,
         CheckBallot;
    ValidBallot(w, h, k);
    BundleShape(w, h);
    BundleEvent(w, h, k + 1);
    LogBallot(w, h, k);
    NotSpentBefore(w, h, k);
    var record := CastRecord(w, h.poll, k + 2, h.casts[k]);
    var event := Log(w, h)[k + 1];
    RecordSequence(w, h.poll, k + 2, h.casts[k]);
    RecordDecodes(w, record);
    ReceiptPasses(w, record, event.eventHash);
    ReceiptFields(w, record, event.eventHash);
  }

  lemma ValidBallot(w: World, h: History, k: nat)
    requires Valid(w, h) && k < |h.casts|
    ensures VerifyWireCredential(w, h.poll, h.casts[k].ballot.credential) == Ok(CredentialHash(w, h.casts[k].ballot.credential))
    ensures ChoiceExists(h.poll.choices, h.casts[k].ballot.choiceID) && DistinctCredentials(w, h.casts)
  {
  }

  lemma ReceiptFields(w: World, record: BallotRecord, eventHash: string)
    ensures var receipt := ReceiptOf(w, record, eventHash);
            && receipt.schemaVersion == SCHEMA_VERSION && receipt.protocol == PROTOCOL
            && receipt.pollID == record.pollID && receipt.sequence == record.sequence && receipt.credentialHash == record.credentialHash
            && receipt.choiceID == record.choiceID && receipt.eventHash == eventHash
  {
  }

  lemma CreatedDecodes(w: World, record: PollCreatedRecord)
    requires w.Honest()
    ensures w.created.read(w.created.text(record)) == Some(record)
  {
  }

  lemma EventPasses(w: World, h: History, i: nat)
    requires w.Honest() && Valid(w, h) && h.closedAt.Some? && i < |h.casts| + 2
    ensures |BundleOf(w, h).events| == |BundleOf(w, h).checkpoints| == |h.casts| + 2
    ensures EventProblem(w, BundleOf(w, h), i).None?
  {
    hide Log, w.Honest, Valid, ArtifactHash, TallyOf, StreamCheckpoint, VerifyCheckpoint, BallotProblem, EventHash;
    BundleShape(w, h);
    var event := Log(w, h)[i];
    CheckpointVerifies(w, BALLOT_CHECKPOINTS, h.poll.pollID, event.sequence, event.eventHash);
    CheckpointFields(w, h.poll.pollID, event.sequence, event.eventHash);
    if i == 0 {
      LogFirst(w, h);
      CreatedDecodes(w, PollCreatedRecord("poll_created", ArtifactHash(w, h.poll)));
    } else if i <= |h.casts| {
      LogBallot(w, h, i - 1);
      BallotPasses(w, h, i - 1);
    } else {
      LogLast(w, h);
    }
  }

  lemma CheckpointFields(w: World, p: string, sequence: nat, eventHash: string)
    ensures var checkpoint := StreamCheckpoint(w, BALLOT_CHECKPOINTS, p, sequence, eventHash);
            checkpoint.pollID == p && checkpoint.sequence == sequence && checkpoint.eventHash == eventHash
  {
  }

  // Counting and chaining do not look at the recording time, which a bundle leaves out.
  lemma {:induction false} TimelessCounts(w: World, log: seq<BallotEvent>, id: string)
    ensures BallotsFor(w, StoreEvents(AuditEvents(log)), id) == BallotsFor(w, log, id)
    ensures Accepted(StoreEvents(AuditEvents(log))) == Accepted(log)
  {
    if log != [] {
      TimelessCounts(w, Init(log), id);
      assert Init(StoreEvents(AuditEvents(log))) == StoreEvents(AuditEvents(Init(log)));
    }
  }

  lemma TimelessChain(w: World, p: string, log: seq<BallotEvent>)
    requires Numbered(log) && Chained(w, p, log)
    ensures Numbered(StoreEvents(AuditEvents(log))) && Chained(w, p, StoreEvents(AuditEvents(log)))
  {
    hide EventPreimage;
    var events := StoreEvents(AuditEvents(log));
    forall i | 0 <= i < |events| ensures Linked(w, p, events, i) { assert Linked(w, p, log, i); }
  }

  lemma HeaderPasses(w: World, h: History)
    requires w.Honest() && Valid(w, h) && h.closedAt.Some?
    ensures HeaderProblem(w, BundleOf(w, h)).None?
  {
    hide w.Honest, Log, TallyVerdict, GoodMembers, GoodClaims, GoodCasts, TotalsOf, VerifyPoll;
    BundleShape(w, h);
    TallyVerifies(w, h, h.closedAt.value);
    SignatureVerifies(w, "");
    ServicePollVerifies(w, h.poll);
  }

  lemma TotalsPass(w: World, h: History)
    requires w.Honest() && Valid(w, h) && h.closedAt.Some?
    ensures TotalsMatch(w, BundleOf(w, h)) && InRange(BundleOf(w, h).tally)
  {
    hide w.Honest, Log, BallotsFor, Accepted, Valid, Sum, Votes;
    TallyCounts(w, h, h.closedAt.value);
    TimelessCounts(w, Log(w, h), "");
    var b := BundleOf(w, h);
    forall i | 0 <= i < |b.tally.totals| ensures BallotsFor(w, StoreEvents(b.events), b.tally.totals[i].choiceID) == b.tally.totals[i].total {
      TimelessCounts(w, Log(w, h), b.tally.totals[i].choiceID);
    }
    forall i | 0 <= i < |b.tally.totals| ensures 0 <= b.tally.totals[i].total <= |h.casts| {
      VotesBounded(h.casts, h.poll.choices[i].id);
    }
    ValidSize(w, h);
  }

  lemma ValidSize(w: World, h: History)
    requires Valid(w, h)
    ensures |h.casts| < MAX_SEQUENCE
  {
    hide SignedByService, GoodMembers, GoodClaims, GoodCasts;
  }

  lemma {:induction false} VotesBounded(casts: seq<Cast>, id: string)
    ensures Votes(casts, id) <= |casts|
  {
    if casts != [] { VotesBounded(Init(casts), id); }
  }

  // The bundle of every valid closed history passes the independent verifier.
  lemma BundlePasses(w: World, h: History)
    requires w.Honest() && Valid(w, h) && h.closedAt.Some?
    ensures Accepts(w, BundleOf(w, h)) && InRange(BundleOf(w, h).tally)
  {
    hide w.Honest, Log, Valid, HeaderProblem, EventProblem, TotalsMatch, Numbered, Chained, InRange;
    var b := BundleOf(w, h);
    BundleShape(w, h);
    HeaderPasses(w, h);
    TotalsPass(w, h);
    forall i: nat | i < |b.events| ensures EventProblem(w, b, i).None? { EventPasses(w, h, i); }
    LogNumbered(w, h);
    LogChained(w, h);
    TimelessChain(w, h.poll.pollID, Log(w, h));
  }

  /** Once a poll is closed, Audit's reads, taken at any seven later moments of any run, give one bundle, and VerifyAudit
      accepts it. */
  lemma AuditPasses(w: World, hs: Histories, p: string, runs: seq<seq<Op>>, views: seq<Db>)
    requires w.Honest() && AllValid(w, hs) && p in hs && hs[p].closedAt.Some?
    requires |runs| == |views| == 7 && forall i :: 0 <= i < 7 ==> views[i] == Render(w, After(w, hs, runs[i]))
    ensures var result := AuditFrom(w, views, p);
            result.Ok? && result == Ok(BundleOf(w, hs[p])) && Accepts(w, result.value) && InRange(result.value.tally)
  {
    hide Render, AllValid, w.Honest, AuditFrom, BundleOf, Accepts, InRange, Valid, DoOp;
    ReadsGiveBundle(w, hs, p, runs, views);
    ValidAt(w, hs, p);
    BundlePasses(w, hs[p]);
  }

  /** Only a poll that the first read finds closed is audited. */
  lemma AuditOnlyClosed(w: World, hs: Histories, p: string, views: seq<Db>)
    requires |views| == 7 && views[0] == Render(w, hs) && AllValid(w, hs)
    ensures p !in hs ==> AuditFrom(w, views, p) == Err("poll_not_found")
    ensures p in hs && hs[p].closedAt.None? ==> AuditFrom(w, views, p) == Err("poll_not_closed")
  {
    hide SignedPoll, ResultFrom, DecodeCheckpoints, Log, CreditLog, CreditsOf, SpentOf, TallyRowOf, CheckpointsOf, ChoiceRowsOf, Valid;
  }
}
