/** What an answer means on any store, sound or tampered with: the authorisation, the signed poll, the times and the rows that
    were looked at, and every row that was written. Stated with hashes, signatures and domain names written out. */
module Guards {
  import opened Wrappers
  import opened Artifacts
  import opened Store
  import opened Members
  import opened Sequencer
  import opened Refinement
  import opened Runs

  /* Who asked */

  // The text is the canonical form of a key, and that key signed the message.
  predicate SshSigned(w: World, text: string, namespace: string, message: string, signature: string) {
    match w.ssh.parse(text)
    case None => false
    case Some(key) => w.ssh.canonical(key) == text && w.ssh.verifies(key, namespace, message, signature)
  }

  predicate AdminSigned(w: World, text: string, message: string, signature: string) {
    SshSigned(w, text, "vota-poll-admin@vota.local", message, signature) && w.ssh.fingerprint(w.ssh.parse(text).value) in w.admins
  }

  // A claim is signed over its poll, its request id and the digest of its blinded message.
  predicate ClaimSigned(w: World, p: string, request: ClaimRequest) {
    SshSigned(w, request.sshPublicKey, "vota-credit-claim@vota.local",
              w.claimMessage.text(ClaimContent(p, request.requestID, w.digest(request.blindedMessage))), request.sshsig)
  }

  predicate CloseSigned(w: World, p: string, request: CloseRequest) {
    AdminSigned(w, request.adminPublicKey, w.closeMessage.text(CloseContent(p, request.adminPublicKey)), request.sshsig)
  }

  // A creation is signed over everything that is asked for, with the members in their normal form.
  predicate CreateSigned(w: World, request: CreateRequest, members: seq<MemberKey>) {
    AdminSigned(w, request.adminPublicKey,
                w.createMessage.text(CreateContent(request.requestID, request.question, request.choices, request.closesAt,
                                                   Encodings(members), request.adminPublicKey)), request.sshsig)
  }

  /* What the store holds */

  // The stored artifact of p is this poll, signed with the key it names.
  predicate HoldsPoll(w: World, db: Db, p: string, poll: Poll) {
    && p in db && w.poll.read(db[p].row.artifact) == Some(poll)
    && w.keyDecodes(poll.checkpointPublicKey)
    && w.verifies(poll.checkpointPublicKey, "vota:poll-artifact:v1" + "\0" + w.poll.text(poll.(signature := "")), poll.signature)
  }

  // The row says open, agrees with the signed poll, and the poll's closing time is still to come.
  predicate OpenRow(w: World, row: PollRow, poll: Poll, now: int) {
    && row.state == "open" && row.pollID == poll.pollID && row.closesAt == poll.closesAt
    && w.parseTime(poll.closesAt).Some? && now < w.parseTime(poll.closesAt).value
  }

  predicate IssuedByService(w: World, row: PollRow, poll: Poll) {
    row.issuerKeyID == poll.issuerKeyID == w.issuerKeyID && poll.issuerPublicKey == w.issuerPublicKey
  }

  /** Poll answers with a poll exactly when it is the stored artifact and carries its own signature. */
  lemma PollGuarded(w: World, db: Db, p: string, poll: Poll)
    ensures SignedPoll(w, db, p) == Ok(poll) <==> HoldsPoll(w, db, p, poll)
  {
  }

  // A transaction that fails changes nothing, and one that succeeds is its writes.
  lemma TransactMeans<T>(before: Db, body: Result<(Db, T)>)
    ensures Transact(before, body).answer.Err? ==> Transact(before, body).db == before
    ensures Transact(before, body).answer.Ok? ==>
              body.Ok? && Transact(before, body) == Step(body.value.0, Ok(body.value.1)) && DeferredKeysHold(before, body.value.0)
  {
    hide DeferredKeysHold;
  }

  lemma CreateRefused(w: World, db: Db, request: CreateRequest, clock: Clock)
    ensures CreatePoll(w, db, request, clock).answer.Err? ==> CreatePoll(w, db, request, clock).db == db
  {
    hide Commit, CreateRows, ValidateCreate, Members.Normalized, NewPoll;
  }

  lemma ClaimRefused(w: World, db: Db, p: string, request: ClaimRequest, clock: Clock)
    ensures Claim(w, db, p, request, clock).answer.Err? ==> Claim(w, db, p, request, clock).db == db
  {
    hide Commit, ClaimRows, CheckClaim;
  }

  lemma VoteRefused(w: World, db: Db, p: string, request: BallotRequest, clock: Clock)
    ensures Vote(w, db, p, request, clock).answer.Err? ==> Vote(w, db, p, request, clock).db == db
  {
    hide Commit, VoteRows, SignedPoll, CheckBallot;
  }

  lemma CloseRefused(w: World, db: Db, p: string, request: CloseRequest, clock: Clock)
    ensures Close(w, db, p, request, clock).answer.Err? ==> Close(w, db, p, request, clock).db == db
  {
    hide Commit, CloseRows, SignedPoll, CheckClose;
  }

  /** Whatever the store holds, a refused call leaves it as it was. */
  lemma RefusalsChangeNothing(w: World, db: Db, op: Op)
    ensures StepOp(w, db, op).answer.Err? ==> StepOp(w, db, op).db == db
  {
    hide CreatePoll, Claim, Vote, Close;
    match op
    case Create(request, clock) => CreateRefused(w, db, request, clock);
    case Claiming(p, request, clock) => ClaimRefused(w, db, p, request, clock);
    case Voting(p, request, clock) => VoteRefused(w, db, p, request, clock);
    case Closing(p, request, clock) => CloseRefused(w, db, p, request, clock);
  }

  /* Claim */

  lemma ClaimChecked(w: World, p: string, request: ClaimRequest)
    ensures CheckClaim(w, p, request).Ok? <==>
              ClaimSigned(w, p, request) && w.isRequestID(request.requestID) && w.isBlindedMessage(request.blindedMessage)
    ensures CheckClaim(w, p, request).Ok? ==> CheckClaim(w, p, request).value == w.ssh.fingerprint(w.ssh.parse(request.sshPublicKey).value)
  {
  }

  /** What a key signs to claim binds the claim: one signed text is for one poll, one request id and one blinded message, or two blinded
      messages have one digest. */
  lemma ClaimTextBinds(w: World, p: string, a: ClaimRequest, q: string, b: ClaimRequest)
    requires Faithful(w.claimMessage) && ClaimMessage(w, p, a) == ClaimMessage(w, q, b)
    ensures p == q && a.requestID == b.requestID
    ensures a.blindedMessage == b.blindedMessage || Collide(w, a.blindedMessage, b.blindedMessage)
  {
    var (x, y) := (ClaimContent(p, a.requestID, w.digest(a.blindedMessage)), ClaimContent(q, b.requestID, w.digest(b.blindedMessage)));
    assert w.claimMessage.read(w.claimMessage.text(x)) == Some(x) && w.claimMessage.read(w.claimMessage.text(y)) == Some(y);
  }

  lemma ClaimAnswered(w: World, db: Db, p: string, request: ClaimRequest, clock: Clock)
    requires Claim(w, db, p, request, clock).answer.Ok?
    ensures CheckClaim(w, p, request).Ok?
    ensures var rows := ClaimRows(w, db, p, request, CheckClaim(w, p, request).value, clock);
            rows.Ok? && Claim(w, db, p, request, clock) == Step(rows.value.0, Ok(rows.value.1))
  {
    hide CheckClaim, ClaimRows, Transact;
    TransactMeans(db, ClaimRows(w, db, p, request, CheckClaim(w, p, request).value, clock));
  }

  lemma OpenGuarded(w: World, db: Db, p: string, now: int)
    requires p in db && RequireOpen(w, db[p].row, now).Ok?
    ensures w.poll.read(db[p].row.artifact).Some?
    ensures var poll := w.poll.read(db[p].row.artifact).value; HoldsPoll(w, db, p, poll) && OpenRow(w, db[p].row, poll, now)
  {
  }

  lemma IssuerGuarded(w: World, row: PollRow)
    requires RequireIssuer(w, row).Ok?
    ensures w.poll.read(row.artifact).Some? && IssuedByService(w, row, w.poll.read(row.artifact).value)
  {
  }

  /** An answered claim is signed by the key it names, over this poll, this request id and this blinded message, and well-formed; the
      poll is the service's own, genuine and open; and the key is on the list, under that very text. */
  lemma ClaimGuarded(w: World, db: Db, p: string, request: ClaimRequest, clock: Clock)
    requires Claim(w, db, p, request, clock).answer.Ok?
    ensures ClaimSigned(w, p, request) && w.isRequestID(request.requestID) && w.isBlindedMessage(request.blindedMessage)
    ensures p in db && w.poll.read(db[p].row.artifact).Some?
    ensures var poll := w.poll.read(db[p].row.artifact).value;
            HoldsPoll(w, db, p, poll) && OpenRow(w, db[p].row, poll, clock.check) && IssuedByService(w, db[p].row, poll)
    ensures var fingerprint := w.ssh.fingerprint(w.ssh.parse(request.sshPublicKey).value);
            fingerprint in db[p].credits && db[p].credits[fingerprint].sshPublicKey == request.sshPublicKey
  {
    hide CheckClaim, RequireIssuer, RequireOpen, BlindedHash, ClaimCredit, NextCreditEvent, InsertCreditEvent, CreditEventOf, HoldsPoll,
         ClaimSigned;
    ClaimAnswered(w, db, p, request, clock);
    ClaimChecked(w, p, request);
    OpenGuarded(w, db, p, clock.check);
    IssuerGuarded(w, db[p].row);
  }

  lemma CreditAppended(db: Db, p: string, event: CreditEvent)
    requires NextCreditEvent(db, p).Ok? && event.sequence == NextCreditEvent(db, p).value.0 && InsertCreditEvent(db, p, event).Ok?
    ensures p in db && InsertCreditEvent(db, p, event).value == db[p := db[p].(creditEvents := db[p].creditEvents + [event])]
    ensures NextCreditEvent(db, p).value
         == if db[p].creditEvents == [] then (1, EMPTY_HASH)
            else (db[p].creditEvents[|db[p].creditEvents| - 1].sequence + 1, db[p].creditEvents[|db[p].creditEvents| - 1].eventHash)
  {
    hide CreditHashTaken;
  }

  // The signed event of a claim, field by field.
  predicate RecordsClaim(w: World, p: string, events: seq<CreditEvent>, event: CreditEvent, fingerprint: string, issuance: Issuance) {
    var checkpoint := Checkpoint(1, "vota-ssh-credit-v1", p, event.sequence, event.eventHash, "");
    var previous := if events == [] then (0, EMPTY_HASH) else (events[|events| - 1].sequence, events[|events| - 1].eventHash);
    && event.sequence == previous.0 + 1 && event.previousHash == previous.1
    && event.artifact == w.credit.text(CreditRecord("credit_claimed", fingerprint, issuance.requestID, issuance.blindedMessageHash,
                                                    w.digest("vota:blind-signature:v1" + "\0" + issuance.blindSignature)))
    && event.eventHash == w.digest("vota:credit:event:v1" + "\0" + p + Be64(event.sequence) + event.previousHash + event.artifact)
    && event.signature == w.checkpoint.text(checkpoint.(signature := w.sign("vota:credit-checkpoint:v1" + "\0" + w.checkpoint.text(checkpoint))))
    && event.recordedAt == issuance.claimedAt
  }

  // The store with one credit row claimed.
  function WithClaim(db: Db, p: string, fingerprint: string, issuance: Issuance): Db
    requires p in db && fingerprint in db[p].credits
  {
    db[p := db[p].(credits := db[p].credits[fingerprint := db[p].credits[fingerprint].(claim := Some(issuance))])]
  }

  lemma ClaimRowsParts(w: World, db: Db, p: string, request: ClaimRequest, fingerprint: string, clock: Clock)
    requires ClaimRows(w, db, p, request, fingerprint, clock).Ok?
    ensures p in db && fingerprint in db[p].credits
    ensures var rows := ClaimRows(w, db, p, request, fingerprint, clock).value;
            var row := db[p].credits[fingerprint];
            if rows.1.1 then
              var issuance := Issuance(request.requestID, BlindedHash(w, request), rows.1.0, w.eventDay(clock.stamp));
              var claimed := WithClaim(db, p, fingerprint, issuance);
              && row.claim.None? && w.blindSign(request.blindedMessage) == Ok(rows.1.0) && NextCreditEvent(claimed, p).Ok?
              && var next := NextCreditEvent(claimed, p).value;
                 InsertCreditEvent(claimed, p, CreditEventOf(w, p, next.0, next.1, fingerprint, issuance)) == Ok(rows.0)
            else
              rows.0 == db && row.claim.Some? && row.claim.value.requestID == request.requestID
              && row.claim.value.blindedMessageHash == BlindedHash(w, request) && row.claim.value.blindSignature == rows.1.0
  {
    hide RequireIssuer, RequireOpen, NextCreditEvent, InsertCreditEvent, CreditEventOf, BlindedHash;
  }

  /** What an answered claim leaves: a row claimed before gives its signature to the same request id and blinded message and nothing is
      written; a row not yet claimed takes the claim, one signed event follows the last one, and no other row changes. */
  lemma ClaimEffect(w: World, db: Db, p: string, request: ClaimRequest, clock: Clock)
    requires Claim(w, db, p, request, clock).answer.Ok?
    ensures p in db && w.ssh.parse(request.sshPublicKey).Some?
    ensures var fingerprint := w.ssh.fingerprint(w.ssh.parse(request.sshPublicKey).value);
            var out := Claim(w, db, p, request, clock);
            var blinded := w.digest("vota:blinded-message:v1" + "\0" + request.blindedMessage);
            fingerprint in db[p].credits &&
            var row := db[p].credits[fingerprint];
            if out.answer.value.1 then
              var issuance := Issuance(request.requestID, blinded, out.answer.value.0, w.eventDay(clock.stamp));
              && row.claim.None? && w.blindSign(request.blindedMessage) == Ok(out.answer.value.0)
              && p in out.db && out.db[p].creditEvents != []
              && var event := out.db[p].creditEvents[|out.db[p].creditEvents| - 1];
              && RecordsClaim(w, p, db[p].creditEvents, event, fingerprint, issuance)
              && out.db == db[p := db[p].(credits := db[p].credits[fingerprint := row.(claim := Some(issuance))],
                                          creditEvents := db[p].creditEvents + [event])]
            else
              out.db == db && row.claim.Some? && row.claim.value.requestID == request.requestID
              && row.claim.value.blindedMessageHash == blinded && row.claim.value.blindSignature == out.answer.value.0
  {
    hide CheckClaim, ClaimRows, Claim, NextCreditEvent, InsertCreditEvent, RecordsClaim, CreditEventOf;
    ClaimAnswered(w, db, p, request, clock);
    ClaimChecked(w, p, request);
    var fingerprint := CheckClaim(w, p, request).value;
    ClaimRowsParts(w, db, p, request, fingerprint, clock);
    var out := Claim(w, db, p, request, clock);
    if out.answer.value.1 {
      var issuance := Issuance(request.requestID, BlindedHash(w, request), out.answer.value.0, w.eventDay(clock.stamp));
      var claimed := WithClaim(db, p, fingerprint, issuance);
      var next := NextCreditEvent(claimed, p).value;
      var event := CreditEventOf(w, p, next.0, next.1, fingerprint, issuance);
      CreditEventSequence(w, p, next, fingerprint, issuance);
      CreditAppended(claimed, p, event);
      CreditRecorded(w, p, db[p].creditEvents, next, fingerprint, issuance);
      assert out.db == claimed[p := claimed[p].(creditEvents := claimed[p].creditEvents + [event])];
      assert out.db[p].creditEvents == db[p].creditEvents + [event];
    }
  }

  lemma CreditEventSequence(w: World, p: string, next: (nat, string), fingerprint: string, issuance: Issuance)
    ensures CreditEventOf(w, p, next.0, next.1, fingerprint, issuance).sequence == next.0
  {
    hide EventHash;
  }

  lemma CreditRecorded(w: World, p: string, events: seq<CreditEvent>, next: (nat, string), fingerprint: string, issuance: Issuance)
    requires next == if events == [] then (1, EMPTY_HASH) else (events[|events| - 1].sequence + 1, events[|events| - 1].eventHash)
    ensures RecordsClaim(w, p, events, CreditEventOf(w, p, next.0, next.1, fingerprint, issuance), fingerprint, issuance)
  {
    assert "vota:" + "credit" + ":event:v1" == "vota:credit:event:v1";
  }

  // The refusals of a claim, the first that applies: each with its code, and nothing changes.
  lemma ClaimRefusals(w: World, db: Db, p: string, request: ClaimRequest, clock: Clock)
    ensures var key := w.ssh.parse(request.sshPublicKey);
            var refused := code => Claim(w, db, p, request, clock) == Step(db, Err(code));
            if key.None? || w.ssh.canonical(key.value) != request.sshPublicKey then refused("invalid_ssh_public_key")
            else if !w.isRequestID(request.requestID) then refused("invalid_issuance_request_id")
            else if !w.isBlindedMessage(request.blindedMessage) then refused("invalid_blinded_message")
            else if !ClaimSigned(w, p, request) then refused("invalid_ssh_signature")
            else if p !in db then refused("poll_not_found")
            else if w.poll.read(db[p].row.artifact).None? then refused("invalid_stored_poll")
            else
              var (poll, row, fingerprint) := (w.poll.read(db[p].row.artifact).value, db[p].row, w.ssh.fingerprint(key.value));
              if !IssuedByService(w, row, poll) then refused("issuer_key_mismatch")
              else if row.state != "open" then refused("poll_not_open")
              else if poll.pollID != row.pollID || poll.closesAt != row.closesAt then refused("projection_content_mismatch")
              else if !HoldsPoll(w, db, p, poll) || w.parseTime(poll.closesAt).None? then refused("invalid_stored_poll")
              else if clock.check >= w.parseTime(poll.closesAt).value then refused("poll_not_open")
              else if fingerprint !in db[p].credits || db[p].credits[fingerprint].sshPublicKey != request.sshPublicKey
              then refused("not_eligible")
              else if db[p].credits[fingerprint].claim.None? || db[p].credits[fingerprint].claim.value.requestID == "" then true
              else if db[p].credits[fingerprint].claim.value.requestID != request.requestID then refused("credit_already_claimed")
              else if db[p].credits[fingerprint].claim.value.blindedMessageHash
                      != w.digest("vota:blinded-message:v1" + "\0" + request.blindedMessage) then refused("issuance_request_mismatch")
              else Claim(w, db, p, request, clock).answer.Ok?
  {
    hide ClaimCredit, NextCreditEvent, InsertCreditEvent, CreditEventOf, ClaimMessage, PollMessage;
    PollMessageIs(w, db, p);
    ClaimMessageIs(w, p, request);
    CommitNothing(db);
  }

  lemma ClaimMessageIs(w: World, p: string, request: ClaimRequest)
    ensures ClaimMessage(w, p, request) == w.claimMessage.text(ClaimContent(p, request.requestID, w.digest(request.blindedMessage)))
  {
  }

  lemma PollMessageIs(w: World, db: Db, p: string)
    ensures p in db && w.poll.read(db[p].row.artifact).Some? ==>
              var poll := w.poll.read(db[p].row.artifact).value;
              HoldsPoll(w, db, p, poll) <==> VerifyPollArtifact(w, poll)
  {
  }

  /* Vote */

  lemma VoteAnswered(w: World, db: Db, p: string, request: BallotRequest, clock: Clock)
    requires Vote(w, db, p, request, clock).answer.Ok?
    ensures SignedPoll(w, db, p).Ok? && CheckBallot(w, SignedPoll(w, db, p).value, request).Ok?
    ensures var poll := SignedPoll(w, db, p).value;
            var rows := VoteRows(w, db, p, poll, request, CheckBallot(w, poll, request).value, clock);
            rows.Ok? && Vote(w, db, p, request, clock) == Step(rows.value.0, Ok(rows.value.1))
  {
    hide SignedPoll, CheckBallot, VoteRows, Transact;
    var poll := SignedPoll(w, db, p).value;
    TransactMeans(db, VoteRows(w, db, p, poll, request, CheckBallot(w, poll, request).value, clock));
  }

  // The credential is valid for the poll, and the choice is one of the poll's.
  predicate Admits(w: World, poll: Poll, request: BallotRequest) {
    && w.credentialError(poll.issuerPublicKey, poll.pollID, request.credential).None?
    && exists i :: 0 <= i < |poll.choices| && poll.choices[i].id == request.choiceID
  }

  function SpentHash(w: World, credential: Credential): string {
    w.digest("vota:credential-hash:v1" + "\0" + w.credential.text(credential))
  }

  lemma BallotChecked(w: World, poll: Poll, request: BallotRequest)
    ensures CheckBallot(w, poll, request).Ok? <==> Admits(w, poll, request)
    ensures CheckBallot(w, poll, request).Ok? ==> CheckBallot(w, poll, request).value == SpentHash(w, request.credential)
  {
  }

  // What a fresh ballot's transaction looked at, and its writes.
  lemma VoteRowsParts(w: World, db: Db, p: string, poll: Poll, request: BallotRequest, c: string, clock: Clock)
    requires VoteRows(w, db, p, poll, request, c, clock).Ok?
    ensures p in db
    ensures var rows := VoteRows(w, db, p, poll, request, c, clock).value;
            if rows.1.1 then
              && RequireOpen(w, db[p].row, clock.check).Ok? && db[p].row.closesAt == poll.closesAt
              && db[p].ballotEvents != [] && db[p].ballotEvents[|db[p].ballotEvents| - 1].kind != "poll_closed"
              && ChoiceRowExists(db[p].choices, request.choiceID) && NextBallotEvent(db, p).Ok?
              && var next := NextBallotEvent(db, p).value;
                 var event := AcceptedEvent(w, RecordOf(p, next.0, c, request), next.1, w.eventDay(clock.stamp));
                 var spent := SpendCredential(db, p, c, next.0);
                 && rows.1.0 == ReceiptOf(w, RecordOf(p, next.0, c, request), event.eventHash)
                 && spent.Ok? && InsertBallotEvent(spent.value, p, event).Ok?
                 && SaveCheckpoint(InsertBallotEvent(spent.value, p, event).value, p, CheckpointRowOf(w, p, next.0, event.eventHash)) == Ok(rows.0)
            else
              && rows.0 == db && BallotByCredential(db, p, c).Some?
              && RetryBallot(w, BallotByCredential(db, p, c).value, c, request) == Ok(rows.1.0)
  {
    hide RequireOpen, BallotByCredential, RetryBallot, ChoiceRowExists, NextBallotEvent, SpendCredential, InsertBallotEvent, SaveCheckpoint,
         AcceptedEvent, ReceiptOf, RecordOf, CheckpointRowOf;
  }

  /** An answered ballot carries a credential that is valid for the stored, genuine poll, and names one of its choices; one accepted
      for the first time came while the poll was open and not closed in its log. */
  lemma VoteGuarded(w: World, db: Db, p: string, request: BallotRequest, clock: Clock)
    requires Vote(w, db, p, request, clock).answer.Ok?
    ensures p in db && w.poll.read(db[p].row.artifact).Some?
    ensures var poll := w.poll.read(db[p].row.artifact).value;
            && HoldsPoll(w, db, p, poll) && Admits(w, poll, request)
            && (Vote(w, db, p, request, clock).answer.value.1 ==>
                  && OpenRow(w, db[p].row, poll, clock.check)
                  && (exists i :: 0 <= i < |db[p].choices| && db[p].choices[i].choiceID == request.choiceID)
                  && db[p].ballotEvents != [] && db[p].ballotEvents[|db[p].ballotEvents| - 1].kind != "poll_closed")
  {
    hide SignedPoll, CheckBallot, VoteRows, RequireOpen, HoldsPoll, Vote;
    VoteAnswered(w, db, p, request, clock);
    var poll := SignedPoll(w, db, p).value;
    PollGuarded(w, db, p, poll);
    BallotChecked(w, poll, request);
    HeldPoll(w, db, p, poll);
    VoteRowsParts(w, db, p, poll, request, CheckBallot(w, poll, request).value, clock);
    if Vote(w, db, p, request, clock).answer.value.1 { OpenGuarded(w, db, p, clock.check); }
  }

  lemma HeldPoll(w: World, db: Db, p: string, poll: Poll)
    requires HoldsPoll(w, db, p, poll)
    ensures p in db && w.poll.read(db[p].row.artifact) == Some(poll)
  {
  }

  // The receipt of a ballot, field by field, with its two signatures.
  predicate Receipts(w: World, p: string, sequence: nat, eventHash: string, c: string, choiceID: string, receipt: Receipt) {
    var checkpoint := Checkpoint(1, "vota-ssh-credit-v1", p, sequence, eventHash, "");
    var signed := checkpoint.(signature := w.sign("vota:checkpoint:v1" + "\0" + w.checkpoint.text(checkpoint)));
    var unsigned := Receipt(1, "vota-ssh-credit-v1", p, sequence, c, choiceID, eventHash, signed, "");
    receipt == unsigned.(signature := w.sign("vota:receipt:v1" + "\0" + w.receipt.text(unsigned)))
  }

  // The event of a ballot, field by field.
  predicate RecordsBallot(w: World, p: string, events: seq<BallotEvent>, event: BallotEvent, request: BallotRequest, receipt: Receipt, day: string)
    requires events != []
  {
    var (last, c) := (events[|events| - 1], SpentHash(w, request.credential));
    && event.kind == "ballot_accepted" && event.sequence == last.sequence + 1 && event.previousHash == last.eventHash
    && event.artifact == w.ballot.text(BallotRecord(1, "vota-ssh-credit-v1", p, event.sequence, request.credential, c, request.choiceID))
    && event.eventHash == w.digest("vota:ballot:event:v1" + "\0" + p + Be64(event.sequence) + event.previousHash + event.artifact)
    && Receipts(w, p, event.sequence, event.eventHash, c, request.choiceID, receipt)
    && event.receipt == w.receipt.text(receipt) && event.recordedAt == day
  }

  lemma BallotRecorded(w: World, p: string, events: seq<BallotEvent>, request: BallotRequest, day: string)
    requires events != []
    ensures var last := events[|events| - 1];
            var record := RecordOf(p, last.sequence + 1, SpentHash(w, request.credential), request);
            var event := AcceptedEvent(w, record, last.eventHash, day);
            && event.sequence == last.sequence + 1
            && RecordsBallot(w, p, events, event, request, ReceiptOf(w, record, event.eventHash), day)
            && ReceiptOf(w, record, event.eventHash).checkpoint == StreamCheckpoint(w, BALLOT_CHECKPOINTS, p, event.sequence, event.eventHash)
  {
    assert "vota:" + "ballot" + ":event:v1" == "vota:ballot:event:v1";
  }

  lemma BallotAppended(db: Db, p: string, c: string, event: BallotEvent, row: CheckpointRow)
    requires NextBallotEvent(db, p).Ok? && event.sequence == NextBallotEvent(db, p).value.0
    requires SpendCredential(db, p, c, event.sequence).Ok?
    requires InsertBallotEvent(SpendCredential(db, p, c, event.sequence).value, p, event).Ok?
    requires SaveCheckpoint(InsertBallotEvent(SpendCredential(db, p, c, event.sequence).value, p, event).value, p, row).Ok?
    ensures p in db && c !in db[p].spent
    ensures SaveCheckpoint(InsertBallotEvent(SpendCredential(db, p, c, event.sequence).value, p, event).value, p, row).value
         == db[p := db[p].(spent := db[p].spent[c := event.sequence], ballotEvents := db[p].ballotEvents + [event],
                           checkpoints := PlaceCheckpoint(db[p].checkpoints, row))]
  {
    hide BallotHashTaken, FindEvent;
    var spent := SpendCredential(db, p, c, event.sequence).value;
    assert InsertBallotEvent(spent, p, event).value == spent[p := spent[p].(ballotEvents := db[p].ballotEvents + [event])];
  }

  /** What an answered ballot leaves: the stored receipt of the same ballot and nothing written, or one new event after the last with its
      receipt, its index entry and its checkpoint, and no other change. */
  lemma VoteEffect(w: World, db: Db, p: string, request: BallotRequest, clock: Clock)
    requires Vote(w, db, p, request, clock).answer.Ok?
    ensures p in db
    ensures var (out, c, events) := (Vote(w, db, p, request, clock), SpentHash(w, request.credential), db[p].ballotEvents);
            if out.answer.value.1 then
              && c !in db[p].spent && events != [] && p in out.db && out.db[p].ballotEvents != []
              && var (event, receipt) := (out.db[p].ballotEvents[|out.db[p].ballotEvents| - 1], out.answer.value.0);
              && RecordsBallot(w, p, events, event, request, receipt, w.eventDay(clock.stamp))
              && out.db == db[p := db[p].(spent := db[p].spent[c := event.sequence], ballotEvents := events + [event],
                                          checkpoints := PlaceCheckpoint(db[p].checkpoints,
                                            CheckpointRow(event.sequence, event.eventHash, w.checkpoint.text(receipt.checkpoint))))]
            else
              && out.db == db && c in db[p].spent
              && exists i :: 0 <= i < |events| && events[i].sequence == db[p].spent[c] && HoldsBallot(w, events[i], c, request, out.answer.value.0)
  {
    hide SignedPoll, CheckBallot, VoteRows, RequireOpen, Vote, RecordsBallot, NextBallotEvent, SpendCredential, InsertBallotEvent, SaveCheckpoint,
         AcceptedEvent, ReceiptOf, RecordOf, PlaceCheckpoint, RetryBallot, HoldsBallot, FindEvent, SpentHash;
    VoteAnswered(w, db, p, request, clock);
    var poll := SignedPoll(w, db, p).value;
    BallotChecked(w, poll, request);
    var (c, out) := (SpentHash(w, request.credential), Vote(w, db, p, request, clock));
    VoteRowsParts(w, db, p, poll, request, c, clock);
    if out.answer.value.1 {
      NextAfterLast(db, p);
      var next := NextBallotEvent(db, p).value;
      var event := AcceptedEvent(w, RecordOf(p, next.0, c, request), next.1, w.eventDay(clock.stamp));
      BallotRecorded(w, p, db[p].ballotEvents, request, w.eventDay(clock.stamp));
      BallotAppended(db, p, c, event, CheckpointRowOf(w, p, next.0, event.eventHash));
      assert out.db[p].ballotEvents == db[p].ballotEvents + [event];
    } else {
      var held := BallotByCredential(db, p, c).value;
      RetryMeans(w, held, c, request);
      var i :| 0 <= i < |db[p].ballotEvents| && db[p].ballotEvents[i] == held;
    }
  }

  lemma NextAfterLast(db: Db, p: string)
    requires p in db && db[p].ballotEvents != [] && NextBallotEvent(db, p).Ok?
    ensures var last := db[p].ballotEvents[|db[p].ballotEvents| - 1]; NextBallotEvent(db, p).value == (last.sequence + 1, last.eventHash)
  {
  }

  // The event is the ballot of this credential and choice, and holds this receipt.
  predicate HoldsBallot(w: World, event: BallotEvent, c: string, request: BallotRequest, receipt: Receipt) {
    && w.ballot.read(event.artifact).Some? && w.receipt.read(event.receipt) == Some(receipt)
    && var record := w.ballot.read(event.artifact).value;
       record.credentialHash == c && record.choiceID == request.choiceID && record.credential == request.credential
  }

  lemma RetryMeans(w: World, event: BallotEvent, c: string, request: BallotRequest)
    ensures forall receipt :: RetryBallot(w, event, c, request) == Ok(receipt) <==> HoldsBallot(w, event, c, request, receipt)
  {
  }

  // The refusals of a ballot before its transaction, the first that applies: each with its code, and nothing changes.
  lemma VoteRefusals(w: World, db: Db, p: string, request: BallotRequest, clock: Clock)
    ensures var refused := code => Vote(w, db, p, request, clock) == Step(db, Err(code));
            if p !in db then refused("poll_not_found")
            else if w.poll.read(db[p].row.artifact).None? then refused("invalid_stored_poll")
            else
              var poll := w.poll.read(db[p].row.artifact).value;
              var invalid := w.credentialError(poll.issuerPublicKey, poll.pollID, request.credential);
              if !HoldsPoll(w, db, p, poll) then refused("invalid_stored_poll")
              else if invalid.Some? then refused(invalid.value)
              else !Admits(w, poll, request) ==> refused("invalid_choice")
  {
    hide VoteRows, HoldsPoll, SignedPoll, CredentialHash;
    if p in db && w.poll.read(db[p].row.artifact).Some? {
      ReadsPoll(w, db, p, w.poll.read(db[p].row.artifact).value);
    } else {
      NoPoll(w, db, p);
    }
  }

  // Then the refusals of a credential that has voted: another choice or credential, or a row that does not decode.
  lemma RetryRefusals(w: World, db: Db, p: string, poll: Poll, request: BallotRequest, clock: Clock)
    requires HoldsPoll(w, db, p, poll) && Admits(w, poll, request)
    requires var c := SpentHash(w, request.credential); c in db[p].spent && FindEvent(db[p].ballotEvents, db[p].spent[c]).Some?
    ensures var refused := code => Vote(w, db, p, request, clock) == Step(db, Err(code));
            var c := SpentHash(w, request.credential);
            var event := FindEvent(db[p].ballotEvents, db[p].spent[c]).value;
            var record := w.ballot.read(event.artifact);
            if record.None? then refused("invalid_stored_ballot")
            else if record.value.credentialHash != c || record.value.choiceID != request.choiceID || record.value.credential != request.credential
            then refused("credential_already_spent")
            else if w.receipt.read(event.receipt).None? then refused("invalid_stored_receipt")
            else Vote(w, db, p, request, clock).answer.Ok?
  {
    hide RequireOpen, HoldsPoll, Admits, SpentHash, FindEvent, SignedPoll, CheckBallot, Commit;
    HeldPoll(w, db, p, poll);
    ReadsPoll(w, db, p, poll);
    BallotChecked(w, poll, request);
    CommitNothing(db);
  }

  // And those of one that has not: a poll that is not open, by its row, its signed time or its log, or a choice without a row.
  lemma FreshRefusals(w: World, db: Db, p: string, poll: Poll, request: BallotRequest, clock: Clock)
    requires HoldsPoll(w, db, p, poll) && Admits(w, poll, request)
    requires var c := SpentHash(w, request.credential); c !in db[p].spent || FindEvent(db[p].ballotEvents, db[p].spent[c]).None?
    ensures var refused := code => Vote(w, db, p, request, clock) == Step(db, Err(code));
            var (row, events) := (db[p].row, db[p].ballotEvents);
            if row.closesAt != poll.closesAt then refused("projection_content_mismatch")
            else if row.state != "open" then refused("poll_not_open")
            else if poll.pollID != row.pollID then refused("projection_content_mismatch")
            else if w.parseTime(poll.closesAt).None? then refused("invalid_stored_poll")
            else if clock.check >= w.parseTime(poll.closesAt).value then refused("poll_not_open")
            else if events == [] || events[|events| - 1].kind == "poll_closed" then refused("poll_not_open")
            else (forall i :: 0 <= i < |db[p].choices| ==> db[p].choices[i].choiceID != request.choiceID) ==> refused("invalid_choice")
  {
    hide RequireOpen, HoldsPoll, Admits, SpentHash, FindEvent, SignedPoll, CheckBallot, NextBallotEvent, SpendCredential, InsertBallotEvent,
         SaveCheckpoint, AcceptedEvent, ReceiptOf, CheckpointRowOf, Commit, RetryBallot;
    HeldPoll(w, db, p, poll);
    ReadsPoll(w, db, p, poll);
    BallotChecked(w, poll, request);
    if db[p].row.closesAt == poll.closesAt { OpenRefusals(w, db, p, poll, clock.check); }
  }

  lemma NoPoll(w: World, db: Db, p: string)
    requires p !in db || w.poll.read(db[p].row.artifact).None?
    ensures SignedPoll(w, db, p) == Err(if p in db then "invalid_stored_poll" else "poll_not_found")
  {
  }

  lemma ReadsPoll(w: World, db: Db, p: string, poll: Poll)
    requires p in db && w.poll.read(db[p].row.artifact) == Some(poll)
    ensures SignedPoll(w, db, p) == if HoldsPoll(w, db, p, poll) then Ok(poll) else Err("invalid_stored_poll")
  {
  }

  lemma OpenRefusals(w: World, db: Db, p: string, poll: Poll, now: int)
    requires HoldsPoll(w, db, p, poll) && db[p].row.closesAt == poll.closesAt
    ensures RequireOpen(w, db[p].row, now) ==
            if db[p].row.state != "open" then Err("poll_not_open")
            else if poll.pollID != db[p].row.pollID then Err("projection_content_mismatch")
            else if w.parseTime(poll.closesAt).None? then Err("invalid_stored_poll")
            else if now >= w.parseTime(poll.closesAt).value then Err("poll_not_open")
            else Ok(())
  {
  }
}
