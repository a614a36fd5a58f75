/** CreatePoll, Claim, Vote, ClosePoll, Poll and Result of internal/sequencer: what each request
    does to the tables and answers, for any store, sound or not. Vote and ClosePoll read the signed
    poll before their transaction, so each is a read and a commit. */
module Sequencer {
  import opened Wrappers
  import opened Artifacts
  import opened Store
  import opened Members
  import opened Tallies
  import Choices

  // service.now() is read once for the open check and once for the time that is recorded.
  datatype Clock = Clock(check: int, stamp: int)

  datatype Step<+T> = Step(db: Db, answer: Result<T>)

  // Store.Transaction: all of the body's writes, or none.
  function Transact<T>(before: Db, body: Result<(Db, T)>): Step<T> {
    match body
    case Err(code) => Step(before, Err(code))
    case Ok((db, value)) =>
      match Commit(before, db)
      case Ok(after) => Step(after, Ok(value))
      case Err(code) => Step(before, Err(code))
  }

  /* Checks */

  // service.Poll: the stored artifact, decoded and verified.
  function SignedPoll(w: World, db: Db, p: string): Result<Poll> {
    var stored :- ReadPoll(db, p);
    match w.poll.read(stored.artifact)
    case None => Err("invalid_stored_poll")
    case Some(poll) => if VerifyPollArtifact(w, poll) then Ok(poll) else Err("invalid_stored_poll")
  }

  function RequireIssuer(w: World, row: PollRow): Result<()> {
    match w.poll.read(row.artifact)
    case None => Err("invalid_stored_poll")
    case Some(poll) =>
      if row.issuerKeyID != w.issuerKeyID || poll.issuerKeyID != w.issuerKeyID || poll.issuerPublicKey != w.issuerPublicKey
      then Err("issuer_key_mismatch") else Ok(())
  }

  function RequireOpen(w: World, row: PollRow, now: int): Result<()> {
    if row.state != "open" then Err("poll_not_open") else
    match w.poll.read(row.artifact)
    case None => Err("projection_content_mismatch")
    case Some(poll) =>
      if poll.pollID != row.pollID || poll.closesAt != row.closesAt then Err("projection_content_mismatch")
      else if !VerifyPollArtifact(w, poll) then Err("invalid_stored_poll")
      else match w.parseTime(poll.closesAt)
           case None => Err("invalid_stored_poll")
           case Some(closesAt) => if now < closesAt then Ok(()) else Err("poll_not_open")
  }

  /* CreatePoll */

  datatype CreateRequest = CreateRequest(requestID: string, question: string, choices: seq<string>, closesAt: string,
                                         members: seq<string>, adminPublicKey: string, sshsig: string)

  // The loop over labels: the first label that is malformed or repeats an earlier one.
  function CheckLabels(w: World, labels: seq<string>): Result<()> {
    if labels == [] then Ok(()) else
    var _ :- CheckLabels(w, labels[..|labels| - 1]);
    var k := |labels| - 1;
    if labels[k] == "" || labels[k] != w.trim(labels[k]) || |labels[k]| > 100 then Err("invalid_choice")
    else if exists i :: 0 <= i < k && w.fold(labels[i]) == w.fold(labels[k]) then Err("duplicate_choice")
    else Ok(())
  }

  // An administrator's key: canonical text, and on the list. The answer is the key.
  function CheckAdmin(w: World, adminPublicKey: string): Result<string> {
    match w.ssh.parse(adminPublicKey)
    case None => Err("invalid_admin_key")
    case Some(key) =>
      if w.ssh.canonical(key) != adminPublicKey then Err("invalid_admin_key")
      else if w.ssh.fingerprint(key) !in w.admins then Err("admin_not_authorized")
      else Ok(key)
  }

  // CreatePollMessage of the request with its members normalised.
  function CreateMessage(w: World, request: CreateRequest, members: seq<MemberKey>): string {
    w.createMessage.text(CreateContent(request.requestID, request.question, request.choices, request.closesAt, Encodings(members),
                                       request.adminPublicKey))
  }

  // validateCreateRequest and the look at the signature that follows it.
  function ValidateCreate(w: World, request: CreateRequest, now: int): Result<(seq<MemberKey>, string)> {
    if !w.isRequestID(request.requestID) then Err("invalid_request_id") else
    if request.question == "" || request.question != w.trim(request.question) || |request.question| > 500
    then Err("invalid_question") else
    if |request.choices| < 2 || |request.choices| > 20 then Err("invalid_choices") else
    var _ :- CheckLabels(w, request.choices);
    var closesAt := w.parseTime(request.closesAt);
    if closesAt.None? || w.canonicalTime(closesAt.value) != request.closesAt || closesAt.value <= now
    then Err("invalid_close_time") else
    var members :- Members.Normalized(w, request.members);
    var key :- CheckAdmin(w, request.adminPublicKey);
    if !w.ssh.verifies(key, ADMIN_NAMESPACE, CreateMessage(w, request, members.0), request.sshsig) then Err("invalid_ssh_signature")
    else Ok(members)
  }

  const POLL_ARTIFACT := "vota:poll-artifact:v1"

  function SignPoll(w: World, poll: Poll): Poll {
    poll.(signature := w.sign(PollMessage(w, poll.(signature := ""))))
  }

  const POLL_ID := "vota:poll-id:v1"

  // The fields a poll's identifier is the hash of, and that identifier.
  function SeedOf(requestID: string, poll: Poll): PollSeed {
    PollSeed(requestID, poll.question, poll.choices, poll.closesAt, poll.issuerKeyID, poll.eligibilityCommitment)
  }

  function PollIDOf(w: World, requestID: string, poll: Poll): string {
    HashBytes(w, POLL_ID, w.pollSeed.text(SeedOf(requestID, poll)))
  }

  function NewPoll(w: World, request: CreateRequest, members: seq<MemberKey>, commitment: string): Poll {
    var choices := Choices.Normalized(w.slug, request.choices);
    var unsigned := Poll(SCHEMA_VERSION, PROTOCOL, "", request.question, choices, request.closesAt, w.issuerKeyID,
                         w.issuerPublicKey, w.keyText, commitment, |members|, "");
    SignPoll(w, unsigned.(pollID := PollIDOf(w, request.requestID, unsigned)))
  }

  function InsertChoices(db: Db, p: string, choices: seq<Choice>): Result<Db> {
    if choices == [] then Ok(db) else
    var k := |choices| - 1;
    var before :- InsertChoices(db, p, choices[..k]);
    InsertChoice(before, p, ChoiceRow(choices[k].id, choices[k].title, k))
  }

  function InsertCredits(db: Db, p: string, members: seq<MemberKey>): Result<Db> {
    if members == [] then Ok(db) else
    var k := |members| - 1;
    var before :- InsertCredits(db, p, members[..k]);
    InsertCredit(before, p, members[k].fingerprint, members[k].encoded)
  }

  function ArtifactHash(w: World, poll: Poll): string {
    HashBytes(w, POLL_ARTIFACT, w.poll.text(poll))
  }

  function PollRowOf(w: World, poll: Poll, createdAt: string): PollRow {
    PollRow(poll.pollID, ArtifactHash(w, poll), w.poll.text(poll), "open", createdAt, poll.closesAt, "",
            poll.issuerKeyID, poll.eligibilityCommitment)
  }

  function CreatedEvent(w: World, poll: Poll, createdAt: string): BallotEvent {
    var artifact := w.created.text(PollCreatedRecord("poll_created", ArtifactHash(w, poll)));
    BallotEvent(1, "poll_created", EMPTY_HASH, EventHash(w, "ballot", poll.pollID, 1, EMPTY_HASH, artifact), artifact,
                "", createdAt)
  }

  function CheckpointRowOf(w: World, p: string, sequence: nat, eventHash: string): CheckpointRow {
    CheckpointRow(sequence, eventHash, w.checkpoint.text(StreamCheckpoint(w, BALLOT_CHECKPOINTS, p, sequence, eventHash)))
  }

  function CreateRows(w: World, db: Db, poll: Poll, members: seq<MemberKey>, createdAt: string): Result<Db> {
    var p := poll.pollID;
    var polls :- InsertPoll(db, PollRowOf(w, poll, createdAt));
    var choices :- InsertChoices(polls, p, poll.choices);
    var credits :- InsertCredits(choices, p, members);
    var event := CreatedEvent(w, poll, createdAt);
    var events :- InsertBallotEvent(credits, p, event);
    SaveCheckpoint(events, p, CheckpointRowOf(w, p, 1, event.eventHash))
  }

  // An existing poll with the same artifact ends the transaction without writing.
  function CreateCommit(w: World, db: Db, poll: Poll, members: seq<MemberKey>, createdAt: string): Step<(Poll, bool)> {
    match ReadPoll(db, poll.pollID)
    case Ok(existing) =>
      if existing.artifact == w.poll.text(poll) then Step(db, Ok((poll, false))) else Step(db, Err("poll_conflict"))
    case Err(_) =>
      Transact(db, match CreateRows(w, db, poll, members, createdAt)
                   case Ok(after) => Ok((after, (poll, true)))
                   case Err(code) => Err(code))
  }

  // CreatePoll normalises the members a second time, from the list validation left.
  function CreatePoll(w: World, db: Db, request: CreateRequest, clock: Clock): Step<(Poll, bool)> {
    match ValidateCreate(w, request, clock.check)
    case Err(code) => Step(db, Err(code))
    case Ok((validated, _)) =>
      match Members.Normalized(w, Encodings(validated))
      case Err(code) => Step(db, Err(code))
      case Ok((members, commitment)) =>
        CreateCommit(w, db, NewPoll(w, request, members, commitment), members, w.canonicalTime(clock.stamp))
  }

  /* Claim */

  datatype ClaimRequest = ClaimRequest(sshPublicKey: string, requestID: string, blindedMessage: string, sshsig: string)

  function ClaimMessage(w: World, p: string, request: ClaimRequest): string {
    w.claimMessage.text(ClaimContent(p, request.requestID, w.digest(request.blindedMessage)))
  }

  // The checks before the transaction; the fingerprint of the claiming key.
  function CheckClaim(w: World, p: string, request: ClaimRequest): Result<string> {
    match w.ssh.parse(request.sshPublicKey)
    case None => Err("invalid_ssh_public_key")
    case Some(key) =>
      if w.ssh.canonical(key) != request.sshPublicKey then Err("invalid_ssh_public_key")
      else if !w.isRequestID(request.requestID) then Err("invalid_issuance_request_id")
      else if !w.isBlindedMessage(request.blindedMessage) then Err("invalid_blinded_message")
      else if !w.ssh.verifies(key, CREDIT_CLAIM_NAMESPACE, ClaimMessage(w, p, request), request.sshsig) then Err("invalid_ssh_signature")
      else Ok(w.ssh.fingerprint(key))
  }

  function BlindedHash(w: World, request: ClaimRequest): string {
    HashBytes(w, "vota:blinded-message:v1", request.blindedMessage)
  }

  function CreditEventOf(w: World, p: string, sequence: nat, previous: string, fingerprint: string, issuance: Issuance): CreditEvent {
    var artifact := w.credit.text(CreditRecord("credit_claimed", fingerprint, issuance.requestID, issuance.blindedMessageHash,
                                               HashBytes(w, "vota:blind-signature:v1", issuance.blindSignature)));
    var eventHash := EventHash(w, "credit", p, sequence, previous, artifact);
    CreditEvent(sequence, previous, eventHash, artifact,
                w.checkpoint.text(StreamCheckpoint(w, CREDIT_CHECKPOINTS, p, sequence, eventHash)), issuance.claimedAt)
  }

  function ClaimRows(w: World, db: Db, p: string, request: ClaimRequest, fingerprint: string, clock: Clock): Result<(Db, (string, bool))> {
    var poll :- ReadPoll(db, p);
    var _ :- RequireIssuer(w, poll);
    var _ :- RequireOpen(w, poll, clock.check);
    var credit :- ReadCredit(db, p, fingerprint);
    if credit.sshPublicKey != request.sshPublicKey then Err("not_eligible") else
    if credit.claim.Some? && credit.claim.value.requestID != "" then
      var held := credit.claim.value;
      if held.requestID == request.requestID && held.blindedMessageHash == BlindedHash(w, request)
      then Ok((db, (held.blindSignature, false)))
      else if held.requestID == request.requestID then Err("issuance_request_mismatch")
      else Err("credit_already_claimed")
    else
      var signature :- w.blindSign(request.blindedMessage);
      var issuance := Issuance(request.requestID, BlindedHash(w, request), signature, w.eventDay(clock.stamp));
      var claimed :- ClaimCredit(db, p, fingerprint, issuance);
      var next :- NextCreditEvent(claimed, p);
      var after :- InsertCreditEvent(claimed, p, CreditEventOf(w, p, next.0, next.1, fingerprint, issuance));
      Ok((after, (signature, true)))
  }

  function Claim(w: World, db: Db, p: string, request: ClaimRequest, clock: Clock): Step<(string, bool)> {
    match CheckClaim(w, p, request)
    case Err(code) => Step(db, Err(code))
    case Ok(fingerprint) => Transact(db, ClaimRows(w, db, p, request, fingerprint, clock))
  }

  /* Vote */

  datatype BallotRequest = BallotRequest(credential: Credential, choiceID: string)

  function CheckBallot(w: World, poll: Poll, request: BallotRequest): Result<string> {
    var credentialHash :- VerifyWireCredential(w, poll, request.credential);
    if ChoiceExists(poll.choices, request.choiceID) then Ok(credentialHash) else Err("invalid_choice")
  }

  function RecordOf(p: string, sequence: nat, credentialHash: string, request: BallotRequest): BallotRecord {
    BallotRecord(SCHEMA_VERSION, PROTOCOL, p, sequence, request.credential, credentialHash, request.choiceID)
  }

  function ReceiptOf(w: World, record: BallotRecord, eventHash: string): Receipt {
    var receipt := Receipt(SCHEMA_VERSION, PROTOCOL, record.pollID, record.sequence, record.credentialHash, record.choiceID,
                           eventHash, StreamCheckpoint(w, BALLOT_CHECKPOINTS, record.pollID, record.sequence, eventHash), "");
    receipt.(signature := w.sign(ReceiptMessage(w, receipt)))
  }

  function AcceptedEvent(w: World, record: BallotRecord, previous: string, day: string): BallotEvent {
    var artifact := w.ballot.text(record);
    var eventHash := EventHash(w, "ballot", record.pollID, record.sequence, previous, artifact);
    BallotEvent(record.sequence, "ballot_accepted", previous, eventHash, artifact,
                w.receipt.text(ReceiptOf(w, record, eventHash)), day)
  }

  // A credential that has voted gets its receipt back for the same ballot, and a refusal for another.
  function RetryBallot(w: World, existing: BallotEvent, credentialHash: string, request: BallotRequest): Result<Receipt> {
    match w.ballot.read(existing.artifact)
    case None => Err("invalid_stored_ballot")
    case Some(record) =>
      if record.credentialHash != credentialHash || record.choiceID != request.choiceID || record.credential != request.credential
      then Err("credential_already_spent")
      else match w.receipt.read(existing.receipt)
           case None => Err("invalid_stored_receipt")
           case Some(receipt) => Ok(receipt)
  }

  predicate ChoiceRowExists(rows: seq<ChoiceRow>, choiceID: string) {
    exists i :: 0 <= i < |rows| && rows[i].choiceID == choiceID
  }

  function VoteRows(w: World, db: Db, p: string, poll: Poll, request: BallotRequest, credentialHash: string, clock: Clock)
    : Result<(Db, (Receipt, bool))>
  {
    var stored :- ReadPoll(db, p);
    var existing := BallotByCredential(db, p, credentialHash);
    if existing.Some? then
      var receipt :- RetryBallot(w, existing.value, credentialHash, request);
      Ok((db, (receipt, false)))
    else if stored.closesAt != poll.closesAt then Err("projection_content_mismatch")
    else
      var _ :- RequireOpen(w, stored, clock.check);
      var events := ReadBallotEvents(db, p);
      if events == [] || events[|events| - 1].kind == "poll_closed" then Err("poll_not_open")
      else if !ChoiceRowExists(ReadChoices(db, p), request.choiceID) then Err("invalid_choice")
      else
        var next :- NextBallotEvent(db, p);
        var event := AcceptedEvent(w, RecordOf(p, next.0, credentialHash, request), next.1, w.eventDay(clock.stamp));
        var spent :- SpendCredential(db, p, credentialHash, next.0);
        var inserted :- InsertBallotEvent(spent, p, event);
        var after :- SaveCheckpoint(inserted, p, CheckpointRowOf(w, p, next.0, event.eventHash));
        Ok((after, (ReceiptOf(w, RecordOf(p, next.0, credentialHash, request), event.eventHash), true)))
  }

  // What follows the read of the signed poll.
  function VoteCommit(w: World, db: Db, p: string, poll: Poll, request: BallotRequest, clock: Clock): Step<(Receipt, bool)> {
    match CheckBallot(w, poll, request)
    case Err(code) => Step(db, Err(code))
    case Ok(credentialHash) => Transact(db, VoteRows(w, db, p, poll, request, credentialHash, clock))
  }

  function Vote(w: World, db: Db, p: string, request: BallotRequest, clock: Clock): Step<(Receipt, bool)> {
    match SignedPoll(w, db, p)
    case Err(code) => Step(db, Err(code))
    case Ok(poll) => VoteCommit(w, db, p, poll, request, clock)
  }

  /* ClosePoll and Result */

  // positions: the last index at which an id is listed.
  function Position(choices: seq<Choice>, id: string): (k: Option<nat>)
    ensures k.Some? ==> k.value < |choices| && choices[k.value].id == id
    ensures k.Some? <==> ChoiceExists(choices, id)
  {
    if choices == [] then None
    else if choices[|choices| - 1].id == id then Some(|choices| - 1)
    else
      var k := Position(choices[..|choices| - 1], id);
      assert k.Some? ==> choices[..|choices| - 1][k.value] == choices[k.value];
      assert forall i :: 0 <= i < |choices| - 1 ==> choices[..|choices| - 1][i] == choices[i];
      k
  }

  function NoVotes(choices: seq<Choice>): (totals: seq<ChoiceTotal>)
    ensures |totals| == |choices|
  {
    seq(|choices|, i requires 0 <= i < |choices| => ChoiceTotal(choices[i].id, 0))
  }

  function AddVote(totals: seq<ChoiceTotal>, k: nat): (after: seq<ChoiceTotal>)
    requires k < |totals|
    ensures |after| == |totals|
  {
    totals[k := totals[k].(total := totals[k].total + 1)]
  }

  // The counting loop of ClosePoll: totals and ballot count, or the first problem met.
  function CountBallots(w: World, choices: seq<Choice>, events: seq<BallotEvent>): (r: Result<(seq<ChoiceTotal>, nat)>)
    ensures r.Ok? ==> |r.value.0| == |choices|
  {
    if events == [] then Ok((NoVotes(choices), 0)) else
    var before :- CountBallots(w, choices, events[..|events| - 1]);
    var event := events[|events| - 1];
    if event.kind == "poll_closed" then Err("poll_not_open")
    else if event.kind != "ballot_accepted" then Ok(before)
    else match w.ballot.read(event.artifact)
         case None => Err("invalid_stored_ballot")
         case Some(record) =>
           match Position(choices, record.choiceID)
           case None => Err("invalid_stored_ballot")
           case Some(k) => Ok((AddVote(before.0, k), before.1 + 1))
  }

  function SignTally(w: World, tally: Tally): Tally {
    tally.(signature := w.sign(TallyMessage(w, tally.(signature := ""))))
  }

  function ClosedEvent(w: World, tally: Tally, sequence: nat, previous: string): BallotEvent {
    var artifact := w.tally.text(tally);
    BallotEvent(sequence, "poll_closed", previous, EventHash(w, "ballot", tally.pollID, sequence, previous, artifact),
                artifact, "", tally.closedAt)
  }

  function CloseRows(w: World, db: Db, p: string, poll: Poll, now: string): Result<(Db, (Tally, bool))> {
    var stored :- ReadPoll(db, p);
    if stored.state == "closed" then
      var row :- ReadTally(db, p);
      match w.tally.read(row.artifact)
      case None => Err("internal_error")
      case Some(tally) =>
        var _ :- TallyVerdict(w, poll, tally);
        Ok((db, (tally, false)))
    else if stored.state != "open" || stored.closesAt != poll.closesAt then Err("poll_not_open")
    else
      var counted :- CountBallots(w, poll.choices, ReadBallotEvents(db, p));
      var tally := SignTally(w, Tally(SCHEMA_VERSION, PROTOCOL, p, counted.1, counted.0, now, ""));
      var next :- NextBallotEvent(db, p);
      var event := ClosedEvent(w, tally, next.0, next.1);
      var events :- InsertBallotEvent(db, p, event);
      var checkpoints :- SaveCheckpoint(events, p, CheckpointRowOf(w, p, next.0, event.eventHash));
      var closed :- ClosePoll(checkpoints, p, now);
      var after :- SaveTally(closed, p, TallyRow(event.artifact, now));
      Ok((after, (tally, true)))
  }

  function CloseCommit(w: World, db: Db, p: string, poll: Poll, now: string): Step<(Tally, bool)> {
    Transact(db, CloseRows(w, db, p, poll, now))
  }

  datatype CloseRequest = CloseRequest(adminPublicKey: string, sshsig: string)

  function CheckClose(w: World, p: string, request: CloseRequest): Result<()> {
    var key :- CheckAdmin(w, request.adminPublicKey);
    var message := w.closeMessage.text(CloseContent(p, request.adminPublicKey));
    if w.ssh.verifies(key, ADMIN_NAMESPACE, message, request.sshsig) then Ok(()) else Err("invalid_ssh_signature")
  }

  function Close(w: World, db: Db, p: string, request: CloseRequest, clock: Clock): Step<(Tally, bool)> {
    match CheckClose(w, p, request)
    case Err(code) => Step(db, Err(code))
    case Ok(_) =>
      match SignedPoll(w, db, p)
      case Err(code) => Step(db, Err(code))
      case Ok(poll) => CloseCommit(w, db, p, poll, w.canonicalTime(clock.stamp))
  }

  function ReadResult(w: World, db: Db, p: string): Result<Tally> {
    var stored :- ReadPoll(db, p);
    if stored.state != "closed" then Err("result_unavailable") else
    var poll :- SignedPoll(w, db, p);
    var row :- ReadTally(db, p);
    match w.tally.read(row.artifact)
    case None => Err("invalid_stored_tally")
    case Some(tally) => if TallyVerdict(w, poll, tally).Ok? then Ok(tally) else Err("invalid_stored_tally")
  }
}
