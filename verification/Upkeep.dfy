/** Every operation keeps the schema, on any store that satisfies it, honest or tampered with, and for any libraries. */
module Upkeep {
  import opened Wrappers
  import opened Artifacts
  import opened Store
  import opened Members
  import opened Tallies
  import opened Sequencer
  import opened History
  import opened Runs
  import S = Schema

  lemma {:induction false} ChoicesKeep(db: Db, p: string, choices: seq<Choice>)
    requires S.Keyed(db) && InsertChoices(db, p, choices).Ok?
    ensures S.Keeps(db, InsertChoices(db, p, choices).value)
  {
    hide S.Keyed, S.OnlyAdds, InsertChoice;
    if choices == [] {
      S.NothingKeeps(db);
    } else {
      var k := |choices| - 1;
      ChoicesKeep(db, p, choices[..k]);
      var before := InsertChoices(db, p, choices[..k]).value;
      S.AddChoiceKeeps(before, p, ChoiceRow(choices[k].id, choices[k].title, k));
      S.KeepsTransitive(db, before, InsertChoices(db, p, choices).value);
    }
  }

  lemma {:induction false} CreditsKeep(db: Db, p: string, members: seq<MemberKey>)
    requires S.Keyed(db) && InsertCredits(db, p, members).Ok?
    ensures S.Keeps(db, InsertCredits(db, p, members).value)
  {
    hide S.Keyed, S.OnlyAdds, InsertCredit;
    if members == [] {
      S.NothingKeeps(db);
    } else {
      var k := |members| - 1;
      CreditsKeep(db, p, members[..k]);
      var before := InsertCredits(db, p, members[..k]).value;
      S.AddCreditKeeps(before, p, members[k].fingerprint, members[k].encoded);
      S.KeepsTransitive(db, before, InsertCredits(db, p, members).value);
    }
  }

  lemma CreateRowsKeep(w: World, db: Db, poll: Poll, members: seq<MemberKey>, createdAt: string)
    requires S.Keyed(db) && CreateRows(w, db, poll, members, createdAt).Ok?
    ensures S.Keeps(db, CreateRows(w, db, poll, members, createdAt).value)
  {
    hide S.Keyed, S.OnlyAdds, InsertPoll, InsertChoices, InsertCredits, InsertBallotEvent, SaveCheckpoint, CreatedEvent, CheckpointRowOf, PollRowOf;
    var p, event := poll.pollID, CreatedEvent(w, poll, createdAt);
    var polls := InsertPoll(db, PollRowOf(w, poll, createdAt)).value;
    var choices := InsertChoices(polls, p, poll.choices).value;
    var credits := InsertCredits(choices, p, members).value;
    var events := InsertBallotEvent(credits, p, event).value;
    S.AddPollKeeps(db, PollRowOf(w, poll, createdAt));
    ChoicesKeep(polls, p, poll.choices);
    CreditsKeep(choices, p, members);
    S.AddBallotEventKeeps(credits, p, event);
    S.AddCheckpointKeeps(events, p, CheckpointRowOf(w, p, 1, event.eventHash));
    S.KeepsTransitive(db, polls, choices);
    S.KeepsTransitive(db, choices, credits);
    S.KeepsTransitive(db, credits, events);
    S.KeepsTransitive(db, events, CreateRows(w, db, poll, members, createdAt).value);
  }

  lemma ClaimRowsKeep(w: World, db: Db, p: string, request: ClaimRequest, fingerprint: string, clock: Clock)
    requires S.Keyed(db) && ClaimRows(w, db, p, request, fingerprint, clock).Ok?
    ensures S.Keeps(db, ClaimRows(w, db, p, request, fingerprint, clock).value.0)
  {
    hide S.Keyed, S.OnlyAdds, ReadPoll, RequireIssuer, RequireOpen, ReadCredit, ClaimCredit, NextCreditEvent, InsertCreditEvent, CreditEventOf,
         BlindedHash;
    S.NothingKeeps(db);
    var after := ClaimRows(w, db, p, request, fingerprint, clock).value.0;
    if after != db {
      var issuance := Issuance(request.requestID, BlindedHash(w, request), w.blindSign(request.blindedMessage).value, w.eventDay(clock.stamp));
      var claimed := ClaimCredit(db, p, fingerprint, issuance).value;
      var next := NextCreditEvent(claimed, p).value;
      S.ClaimKeeps(db, p, fingerprint, issuance);
      S.AddCreditEventKeeps(claimed, p, CreditEventOf(w, p, next.0, next.1, fingerprint, issuance));
      S.KeepsTransitive(db, claimed, after);
    }
  }

  lemma VoteRowsKeep(w: World, db: Db, p: string, poll: Poll, request: BallotRequest, credentialHash: string, clock: Clock)
    requires S.Keyed(db) && VoteRows(w, db, p, poll, request, credentialHash, clock).Ok?
    ensures S.Keeps(db, VoteRows(w, db, p, poll, request, credentialHash, clock).value.0)
  {
    hide S.Keyed, S.OnlyAdds, ReadPoll, BallotByCredential, RetryBallot, RequireOpen, ReadBallotEvents, ChoiceRowExists, ReadChoices,
         NextBallotEvent, SpendCredential, InsertBallotEvent, SaveCheckpoint, AcceptedEvent, RecordOf, CheckpointRowOf, ReceiptOf;
    S.NothingKeeps(db);
    var after := VoteRows(w, db, p, poll, request, credentialHash, clock).value.0;
    if after != db {
      var next := NextBallotEvent(db, p).value;
      var event := AcceptedEvent(w, RecordOf(p, next.0, credentialHash, request), next.1, w.eventDay(clock.stamp));
      var spent := SpendCredential(db, p, credentialHash, next.0).value;
      var inserted := InsertBallotEvent(spent, p, event).value;
      S.SpendKeeps(db, p, credentialHash, next.0);
      S.AddBallotEventKeeps(spent, p, event);
      S.AddCheckpointKeeps(inserted, p, CheckpointRowOf(w, p, next.0, event.eventHash));
      S.KeepsTransitive(db, spent, inserted);
      S.KeepsTransitive(db, inserted, after);
    }
  }

  lemma CloseRowsKeep(w: World, db: Db, p: string, poll: Poll, now: string)
    requires S.Keyed(db) && CloseRows(w, db, p, poll, now).Ok?
    ensures S.Keeps(db, CloseRows(w, db, p, poll, now).value.0)
  {
    hide S.Keyed, S.OnlyAdds, ReadPoll, ReadTally, TallyVerdict, CountBallots, ReadBallotEvents, NextBallotEvent, InsertBallotEvent,
         SaveCheckpoint, Store.ClosePoll, SaveTally, ClosedEvent, CheckpointRowOf, SignTally;
    S.NothingKeeps(db);
    var after := CloseRows(w, db, p, poll, now).value.0;
    if after != db {
      var counted := CountBallots(w, poll.choices, ReadBallotEvents(db, p)).value;
      var tally := SignTally(w, Tally(SCHEMA_VERSION, PROTOCOL, p, counted.1, counted.0, now, ""));
      var next := NextBallotEvent(db, p).value;
      var event := ClosedEvent(w, tally, next.0, next.1);
      var events := InsertBallotEvent(db, p, event).value;
      var checkpoints := SaveCheckpoint(events, p, CheckpointRowOf(w, p, next.0, event.eventHash)).value;
      var closed := Store.ClosePoll(checkpoints, p, now).value;
      S.AddBallotEventKeeps(db, p, event);
      S.AddCheckpointKeeps(events, p, CheckpointRowOf(w, p, next.0, event.eventHash));
      S.CloseKeeps(checkpoints, p, now);
      S.AddTallyKeeps(closed, p, TallyRow(event.artifact, now));
      S.KeepsTransitive(db, events, checkpoints);
      S.KeepsTransitive(db, checkpoints, closed);
      S.KeepsTransitive(db, closed, after);
    }
  }

  lemma TransactKeeps<T>(before: Db, body: Result<(Db, T)>)
    requires S.Sound(before) && (body.Ok? ==> S.Keeps(before, body.value.0))
    ensures S.Sound(Transact(before, body).db)
  {
    hide S.Sound, S.Keeps, Commit;
    if body.Ok? && Commit(before, body.value.0).Ok? { S.CommitKeeps(before, body.value.0); }
  }

  /** Whatever the store holds within its schema, every operation leaves it within its schema. */
  lemma OpKeepsSchema(w: World, db: Db, op: Op)
    requires S.Sound(db)
    ensures S.Sound(StepOp(w, db, op).db)
  {
    hide S.Sound, S.Keeps, S.Keyed, ValidateCreate, CreateRows, CheckClaim, ClaimRows, SignedPoll, CheckBallot, VoteRows, CloseRows, Commit,
         NewPoll, Members.Normalized, ReadPoll, Transact;
    S.SoundKeyed(db);
    match op
    case Create(request, clock) => CreateKeeps(w, db, request, clock);
    case Claiming(p, request, clock) =>
      var check := CheckClaim(w, p, request);
      if check.Ok? {
        if ClaimRows(w, db, p, request, check.value, clock).Ok? { ClaimRowsKeep(w, db, p, request, check.value, clock); }
        TransactKeeps(db, ClaimRows(w, db, p, request, check.value, clock));
      }
    case Voting(p, request, clock) => VoteKeeps(w, db, p, request, clock);
    case Closing(p, request, clock) =>
      var poll := SignedPoll(w, db, p);
      if CheckClose(w, p, request).Ok? && poll.Ok? {
        var now := w.canonicalTime(clock.stamp);
        if CloseRows(w, db, p, poll.value, now).Ok? { CloseRowsKeep(w, db, p, poll.value, now); }
        TransactKeeps(db, CloseRows(w, db, p, poll.value, now));
      }
  }

  lemma VoteKeeps(w: World, db: Db, p: string, request: BallotRequest, clock: Clock)
    requires S.Sound(db)
    ensures S.Sound(Vote(w, db, p, request, clock).db)
  {
    hide S.Sound, S.Keeps, S.Keyed, SignedPoll, CheckBallot, VoteRows, Commit, Transact;
    S.SoundKeyed(db);
    var poll := SignedPoll(w, db, p);
    if poll.Ok? && CheckBallot(w, poll.value, request).Ok? {
      var hash := CheckBallot(w, poll.value, request).value;
      if VoteRows(w, db, p, poll.value, request, hash, clock).Ok? { VoteRowsKeep(w, db, p, poll.value, request, hash, clock); }
      TransactKeeps(db, VoteRows(w, db, p, poll.value, request, hash, clock));
    }
  }

  // The rows of a creation with its answer, as the transaction returns them.
  function CreateBody(w: World, db: Db, poll: Poll, members: seq<MemberKey>, createdAt: string): Result<(Db, (Poll, bool))> {
    match CreateRows(w, db, poll, members, createdAt)
    case Ok(after) => Ok((after, (poll, true)))
    case Err(code) => Err(code)
  }

  lemma CreateKeeps(w: World, db: Db, request: CreateRequest, clock: Clock)
    requires S.Sound(db)
    ensures S.Sound(CreatePoll(w, db, request, clock).db)
  {
    hide S.Sound, S.Keeps, S.Keyed, ValidateCreate, CreateRows, Commit, NewPoll, Members.Normalized, ReadPoll, Transact;
    S.SoundKeyed(db);
    var validated := ValidateCreate(w, request, clock.check);
    if validated.Ok? {
      var normalized := Members.Normalized(w, Encodings(validated.value.0));
      if normalized.Ok? {
        var (members, commitment) := normalized.value;
        var poll := NewPoll(w, request, members, commitment);
        var createdAt := w.canonicalTime(clock.stamp);
        if CreateRows(w, db, poll, members, createdAt).Ok? { CreateRowsKeep(w, db, poll, members, createdAt); }
        TransactKeeps(db, CreateBody(w, db, poll, members, createdAt));
      }
    }
  }

  /** So every store the service reaches from the empty one satisfies every declared constraint, whatever was requested. */
  lemma {:induction false} RunKeepsSchema(w: World, ops: seq<Op>)
    ensures S.Sound(StepRun(w, map[], ops).0)
  {
    hide StepOp;
    if ops != [] {
      RunKeepsSchema(w, Init(ops));
      OpKeepsSchema(w, StepRun(w, map[], Init(ops)).0, Last(ops));
    }
  }
}
