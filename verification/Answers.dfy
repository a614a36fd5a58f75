/** What the answers of a run mean: who was entitled to each, what a second answer repeats, and which call each row of the tables
    comes from. */
module Answers {
  import opened Wrappers
  import opened Artifacts
  import opened Store
  import opened Members
  import opened Sequencer
  import opened History
  import opened Refinement
  import opened Creation
  import opened Runs
  import opened Safety
  import opened Completeness
  import opened Guards
  import opened Administration
  import opened Provenance

  /* One answer */

  lemma ClaimDue(w: World, hs: Histories, p: string, request: ClaimRequest, clock: Clock)
    requires DoClaim(w, hs, p, request, clock).answer.Ok?
    ensures CheckClaim(w, p, request).Ok? && p in hs && IsOpen(w, hs[p], clock.check)
    ensures MemberKey(request.sshPublicKey, CheckClaim(w, p, request).value) in hs[p].members
  {
    hide CheckClaim, CreditHashUsed, CreditLog, ClaimOf, IsOpen, BlindedHash;
  }

  /** In any run a claim is answered only if it is signed by its key over this poll, request id and blinded message, well-formed, for an
      open poll, before its closing time, and of a key on its list. */
  lemma AnsweredClaim(w: World, hs: Histories, ops: seq<Op>, j: nat)
    requires w.Honest() && AllValid(w, hs) && j < |ops| && ops[j].Claiming? && Replies(w, hs, ops)[j].Ok?
    ensures var (before, p, request) := (After(w, hs, ops[..j]), ops[j].p, ops[j].claim);
            && ClaimSigned(w, p, request) && w.isRequestID(request.requestID) && w.isBlindedMessage(request.blindedMessage)
            && p in before && before[p].closedAt.None? && InTime(w, before[p].poll, ops[j].clock.check)
            && Fingerprint(w, request.sshPublicKey).Some?
            && MemberKey(request.sshPublicKey, Fingerprint(w, request.sshPublicKey).value) in before[p].members
  {
    hide DoClaim, DoCreate, DoVote, DoClose, AllValid, CheckClaim, w.Honest, ClaimSigned;
    ReplyAt(w, hs, ops, j);
    ClaimDue(w, After(w, hs, ops[..j]), ops[j].p, ops[j].claim, ops[j].clock);
    ClaimChecked(w, ops[j].p, ops[j].claim);
    ParsedKey(w, ops[j].p, ops[j].claim);
  }

  lemma VoteDue(w: World, hs: Histories, p: string, request: BallotRequest, clock: Clock)
    requires DoVote(w, hs, p, request, clock).answer.Ok?
    ensures p in hs && CheckBallot(w, hs[p].poll, request).Ok?
    ensures DoVote(w, hs, p, request, clock).answer.value.1 ==> IsOpen(w, hs[p], clock.check)
  {
    hide CheckBallot, CastLog, LogHashUsed, ReceiptAt, IsOpen, CastIndex;
  }

  // The k-th ballot's receipt is for its event, which records it.
  predicate NamesEvent(w: World, h: History, k: nat, request: BallotRequest, receipt: Receipt) {
    k + 1 < |Log(w, h)| &&
    var (event, c) := (Log(w, h)[k + 1], SpentHash(w, request.credential));
    && event.kind == "ballot_accepted" && event.sequence == k + 2 && event.receipt == w.receipt.text(receipt)
    && event.artifact == w.ballot.text(BallotRecord(1, "vota-ssh-credit-v1", h.poll.pollID, k + 2, request.credential, c, request.choiceID))
    && Receipts(w, h.poll.pollID, k + 2, event.eventHash, c, request.choiceID, receipt)
  }

  lemma ReceiptNames(w: World, h: History, k: nat)
    requires k < |h.casts|
    ensures NamesEvent(w, h, k, h.casts[k].ballot, ReceiptAt(w, h, k))
  {
    hide Log, CastLog, EventHash, CastEvent;
    LogBallot(w, h, k);
    LogNumbered(w, h);
    FindNumbered(Log(w, h), k + 1);
    CastEventAt(w, h, k);
    ReceiptsOf(w, CastRecord(w, h.poll, k + 2, h.casts[k]), Log(w, h)[k + 1].eventHash);
  }

  lemma ReceiptsOf(w: World, record: BallotRecord, eventHash: string)
    ensures Receipts(w, record.pollID, record.sequence, eventHash, record.credentialHash, record.choiceID, ReceiptOf(w, record, eventHash))
  {
  }

  /** In any run a ballot is answered only if its credential is valid for this poll and its choice listed, and for the first time only while
      the poll is open; its receipt is the signed receipt of the event that records this very ballot. */
  lemma AnsweredVote(w: World, hs: Histories, ops: seq<Op>, j: nat)
    requires w.Honest() && AllValid(w, hs) && j < |ops| && ops[j].Voting? && Replies(w, hs, ops)[j].Ok?
    ensures var (before, after, p, reply) := (After(w, hs, ops[..j]), After(w, hs, ops[..j + 1]), ops[j].p, Replies(w, hs, ops)[j].value);
            && p in before && Admits(w, before[p].poll, ops[j].ballot)
            && (reply.1 ==> before[p].closedAt.None? && InTime(w, before[p].poll, ops[j].clock.check))
            && p in after && reply.0.ReceiptAnswer?
            && exists k | 0 <= k < |after[p].casts| ::
                 after[p].casts[k].ballot == ops[j].ballot && NamesEvent(w, after[p], k, ops[j].ballot, reply.0.receipt)
  {
    hide DoClaim, DoCreate, DoVote, DoClose, AllValid, CheckBallot, w.Honest, Admits, NamesEvent, ReceiptAt, CastIndex, Extends, ChoiceExists;
    var (before, p) := (After(w, hs, ops[..j]), ops[j].p);
    ReplyAt(w, hs, ops, j);
    LaterPrefix(w, hs, ops, j, j + 1);
    VoteDue(w, before, p, ops[j].ballot, ops[j].clock);
    BallotChecked(w, before[p].poll, ops[j].ballot);
    VoteRecorded(w, before, p, ops[j].ballot, ops[j].clock);
    var after := After(w, hs, ops[..j + 1]);
    var k := CastIndex(w, after[p].casts, CredentialHash(w, ops[j].ballot.credential)).value;
    ReceiptNames(w, after[p], k);
  }

  lemma CloseDue(w: World, hs: Histories, p: string, request: CloseRequest, clock: Clock)
    requires DoClose(w, hs, p, request, clock).answer.Ok?
    ensures CheckClose(w, p, request).Ok? && p in hs
  {
    hide CheckClose, LogHashUsed, Log, TallyOf;
  }

  /** In any run a close is answered only if an administrator signed it for this poll, and with the tally that counts the ballots of the log. */
  lemma AnsweredClose(w: World, hs: Histories, ops: seq<Op>, j: nat)
    requires w.Honest() && AllValid(w, hs) && j < |ops| && ops[j].Closing? && Replies(w, hs, ops)[j].Ok?
    ensures var (after, p, reply) := (After(w, hs, ops[..j + 1]), ops[j].p, Replies(w, hs, ops)[j].value);
            && CloseSigned(w, p, ops[j].close) && p in After(w, hs, ops[..j]) && p in after && after[p].closedAt.Some? && reply.0.TallyAnswer?
            && reply.0.tally.closedAt == after[p].closedAt.value && Counts(w, after[p].poll, Log(w, after[p]), reply.0.tally)
  {
    hide DoClaim, DoCreate, DoVote, DoClose, AllValid, CheckClose, w.Honest, CloseSigned, Extends, TotalsOf, Log, Counts, Valid;
    var (before, p) := (After(w, hs, ops[..j]), ops[j].p);
    ReplyAt(w, hs, ops, j);
    LaterPrefix(w, hs, ops, j, j + 1);
    CloseDue(w, before, p, ops[j].close, ops[j].clock);
    CloseChecked(w, p, ops[j].close);
    CloseRecorded(w, before, p, ops[j].close, ops[j].clock);
    RunValid(w, hs, ops[..j + 1]);
    var after := After(w, hs, ops[..j + 1]);
    ValidAt(w, after, p);
    TallyCounts(w, after[p], after[p].closedAt.value);
  }

  /** In any run a creation is answered only if it was acceptable when it came and an administrator signed it, and with the poll it asks for. */
  lemma AnsweredCreate(w: World, hs: Histories, ops: seq<Op>, j: nat)
    requires w.Honest() && AllValid(w, hs) && j < |ops| && ops[j].Create? && Replies(w, hs, ops)[j].Ok?
    ensures var (after, request, reply) := (After(w, hs, ops[..j + 1]), ops[j].create, Replies(w, hs, ops)[j].value);
            && Acceptable(w, request, ops[j].clock.check) && Members.Normalized(w, request.members).Ok? && reply.0.PollAnswer?
            && CreateSigned(w, request, Members.Normalized(w, request.members).value.0)
            && AsksFor(w, request, Members.Normalized(w, request.members).value.0, reply.0.poll)
            && reply.0.poll.pollID in after && after[reply.0.poll.pollID].poll == reply.0.poll
  {
    hide DoClaim, DoCreate, DoVote, DoClose, AllValid, w.Honest, Extends, CreatePoll, Acceptable, CreateSigned, AsksFor, Members.Normalized, Render;
    var before := After(w, hs, ops[..j]);
    ReplyAt(w, hs, ops, j);
    LaterPrefix(w, hs, ops, j, j + 1);
    RunValid(w, hs, ops[..j]);
    HonestKeys(w);
    CreateRefines(w, before, ops[j].create, ops[j].clock);
    CreateGuarded(w, Render(w, before), ops[j].create, ops[j].clock);
    CreateStored(w, before, ops[j].create, ops[j].clock);
  }

  lemma CreateStored(w: World, hs: Histories, request: CreateRequest, clock: Clock)
    requires w.Honest() && DoCreate(w, hs, request, clock).answer.Ok?
    ensures var out := DoCreate(w, hs, request, clock);
            out.answer.value.0.pollID in out.histories && out.histories[out.answer.value.0.pollID].poll == out.answer.value.0
  {
    hide ValidateCreate, NewPoll, PollHashUsed, LogHashUsed, DistinctChoices, CreatedEvent, ArtifactHash;
    PollTextsAgree(w);
  }

  lemma PollTextsAgree(w: World)
    requires w.Honest()
    ensures forall a, b :: w.poll.text(a) == w.poll.text(b) ==> a == b
  {
    forall a, b | w.poll.text(a) == w.poll.text(b) ensures a == b {
      assert w.poll.read(w.poll.text(a)) == Some(a) && w.poll.read(w.poll.text(b)) == Some(b);
    }
  }

  /* One blinded message */

  /** In any run, two answered claims of one key at one poll are for one request id and one blinded message, or the two blinded messages
      collide; both get one signature. */
  lemma OneBlindedMessage(w: World, hs: Histories, ops: seq<Op>, i: nat, j: nat)
    requires w.Honest() && AllValid(w, hs) && i < j < |ops| && ops[i].Claiming? && ops[j].Claiming?
    requires ops[i].p == ops[j].p && ops[i].claim.sshPublicKey == ops[j].claim.sshPublicKey
    requires Replies(w, hs, ops)[i].Ok? && Replies(w, hs, ops)[j].Ok?
    ensures ops[i].claim.requestID == ops[j].claim.requestID
    ensures ops[i].claim.blindedMessage == ops[j].claim.blindedMessage
            || Collide(w, "vota:blinded-message:v1" + "\0" + ops[i].claim.blindedMessage,
                          "vota:blinded-message:v1" + "\0" + ops[j].claim.blindedMessage)
    ensures Replies(w, hs, ops)[j].value.0 == Replies(w, hs, ops)[i].value.0
  {
    hide DoClaim, DoCreate, DoVote, DoClose, AllValid, CheckClaim, w.Honest;
    ReplyAt(w, hs, ops, i);
    ReplyAt(w, hs, ops, j);
    ClaimDue(w, After(w, hs, ops[..i]), ops[i].p, ops[i].claim, ops[i].clock);
    ClaimDue(w, After(w, hs, ops[..j]), ops[j].p, ops[j].claim, ops[j].clock);
    ParsedKey(w, ops[i].p, ops[i].claim);
    ParsedKey(w, ops[j].p, ops[j].claim);
    OneSignaturePerKey(w, hs, ops, i, j);
    PrefixCancels("vota:blinded-message:v1" + "\0", ops[i].claim.blindedMessage, ops[j].claim.blindedMessage);
  }

  /* A second answer */

  // The calls are for the same thing: the poll's creation, the key's claim, the ballot, the close.
  predicate SameCall(w: World, a: Op, b: Op) {
    match a
    case Create(_, _) => b.Create?
    case Claiming(p, request, _) =>
      b.Claiming? && b.p == p && b.claim.sshPublicKey == request.sshPublicKey && b.claim.requestID == request.requestID
      && BlindedDigest(w, b.claim.blindedMessage) == BlindedDigest(w, request.blindedMessage)
    case Voting(p, request, _) => b.Voting? && b.p == p && b.ballot == request
    case Closing(p, _, _) => b.Closing? && b.p == p
  }

  lemma {:induction false} RepliesPrefix(w: World, hs: Histories, ops: seq<Op>, j: nat)
    requires j <= |ops|
    ensures Replies(w, hs, ops[..j]) == Replies(w, hs, ops)[..j]
    decreases |ops|
  {
    hide DoOp;
    if j < |ops| {
      RepliesPrefix(w, hs, Init(ops), j);
      assert Init(ops)[..j] == ops[..j];
    } else {
      assert ops[..j] == ops;
    }
  }

  lemma CreateRepeats(w: World, hs: Histories, request: CreateRequest, clock: Clock)
    requires w.Honest() && DoCreate(w, hs, request, clock).answer.Ok? && !DoCreate(w, hs, request, clock).answer.value.1
    ensures var poll := DoCreate(w, hs, request, clock).answer.value.0; poll.pollID in hs && hs[poll.pollID].poll == poll
  {
    hide ValidateCreate, NewPoll, PollHashUsed, LogHashUsed, DistinctChoices, CreatedEvent, ArtifactHash;
    PollTextsAgree(w);
  }

  lemma ClaimRepeats(w: World, hs: Histories, p: string, request: ClaimRequest, clock: Clock)
    requires DoClaim(w, hs, p, request, clock).answer.Ok? && !DoClaim(w, hs, p, request, clock).answer.value.1
    ensures p in hs && CheckClaim(w, p, request).Ok? && MemberKey(request.sshPublicKey, CheckClaim(w, p, request).value) in hs[p].members
    ensures var (held, f) := (ClaimOf(hs[p].claims, CheckClaim(w, p, request).value), CheckClaim(w, p, request).value);
            && held.Some? && held.value.requestID == request.requestID && held.value.blindedMessageHash == BlindedHash(w, request)
            && held.value.blindSignature == DoClaim(w, hs, p, request, clock).answer.value.0
            && exists i :: 0 <= i < |hs[p].claims| && hs[p].claims[i] == Claimed(f, held.value)
  {
    hide CheckClaim, CreditHashUsed, CreditLog, IsOpen, BlindedHash, ClaimOf;
    if p in hs && CheckClaim(w, p, request).Ok? { ClaimOfSome(hs[p].claims, CheckClaim(w, p, request).value); }
  }

  lemma VoteRepeats(w: World, hs: Histories, p: string, request: BallotRequest, clock: Clock)
    requires DoVote(w, hs, p, request, clock).answer.Ok? && !DoVote(w, hs, p, request, clock).answer.value.1
    ensures p in hs
    ensures exists k :: 0 <= k < |hs[p].casts| && hs[p].casts[k].ballot == request
                        && ReceiptAt(w, hs[p], k) == DoVote(w, hs, p, request, clock).answer.value.0
  {
    hide CheckBallot, CastLog, LogHashUsed, ReceiptAt, IsOpen, CastIndex;
  }

  lemma CloseRepeats(w: World, hs: Histories, p: string, request: CloseRequest, clock: Clock)
    requires DoClose(w, hs, p, request, clock).answer.Ok? && !DoClose(w, hs, p, request, clock).answer.value.1
    ensures p in hs && hs[p].closedAt.Some?
    ensures DoClose(w, hs, p, request, clock).answer.value.0 == TallyOf(w, hs[p].poll, hs[p].casts, hs[p].closedAt.value)
  {
    hide CheckClose, LogHashUsed, Log, TallyOf;
  }

  lemma EmptyRuns(w: World, ops: seq<Op>)
    requires w.Honest()
    ensures AllValid(w, After(w, map[], ops))
  {
    hide AllValid, w.Honest, DoOp;
    EmptyValid(w);
    RunValid(w, map[], ops);
  }

  // The first answer of the thing that a second answer at j repeats.
  predicate First(w: World, ops: seq<Op>, i: nat, j: nat)
    requires i < j < |ops| && Replies(w, map[], ops)[j].Ok?
  {
    SameCall(w, ops[i], ops[j]) && Replies(w, map[], ops)[i] == Ok((Replies(w, map[], ops)[j].value.0, true))
  }

  lemma FirstClaim(w: World, ops: seq<Op>, j: nat)
    requires w.Honest() && j < |ops| && ops[j].Claiming? && Replies(w, map[], ops)[j].Ok? && !Replies(w, map[], ops)[j].value.1
    ensures exists i | 0 <= i < j :: First(w, ops, i, j)
  {
    hide DoClaim, DoCreate, DoVote, DoClose, AllValid, CheckClaim, w.Honest, Accounted, ClaimOf, ClaimSigned, InTime;
    var (before, p, request) := (After(w, map[], ops[..j]), ops[j].p, ops[j].claim);
    ReplyAt(w, map[], ops, j);
    EmptyRuns(w, ops[..j]);
    ClaimRepeats(w, before, p, request, ops[j].clock);
    var held := ClaimOf(before[p].claims, CheckClaim(w, p, request).value).value;
    var k :| 0 <= k < |before[p].claims| && before[p].claims[k] == Claimed(CheckClaim(w, p, request).value, held);
    EverythingAccounted(w, ops[..j], p);
    AccountedClaim(w, ops[..j], before[p], k);
    var i :| 0 <= i < j && ClaimBy(w, ops[..j], before[p], k, i);
    RepliesPrefix(w, map[], ops, j);
    ValidAt(w, before, p);
    ValidMembers(w, before, p);
    MemberUnique(before[p].members, MemberKey(request.sshPublicKey, CheckClaim(w, p, request).value),
                 MemberKey(ops[i].claim.sshPublicKey, CheckClaim(w, p, request).value));
    assert First(w, ops, i, j);
  }

  lemma AccountedClaim(w: World, ops: seq<Op>, h: History, k: nat)
    requires Accounted(w, ops, h) && k < |h.claims|
    ensures exists i | 0 <= i < |ops| :: ClaimBy(w, ops, h, k, i)
  {
    hide ClaimBy, PollAccounted, BallotAccounted, CloseAccounted;
    assert ClaimAccounted(w, ops, h, k);
  }

  lemma AccountedBallot(w: World, ops: seq<Op>, h: History, k: nat)
    requires Accounted(w, ops, h) && k < |h.casts|
    ensures exists i | 0 <= i < |ops| :: BallotBy(w, ops, h, k, i)
  {
    hide BallotBy, PollAccounted, ClaimAccounted, CloseAccounted;
    assert BallotAccounted(w, ops, h, k);
  }

  lemma AccountedPoll(w: World, ops: seq<Op>, h: History)
    requires Accounted(w, ops, h)
    ensures exists i | 0 <= i < |ops| :: PollBy(w, ops, h, i)
    ensures h.closedAt.Some? ==> exists i | 0 <= i < |ops| :: CloseBy(w, ops, h, i)
  {
    hide PollBy, CloseBy, BallotAccounted, ClaimAccounted;
  }

  lemma FirstVote(w: World, ops: seq<Op>, j: nat)
    requires w.Honest() && j < |ops| && ops[j].Voting? && Replies(w, map[], ops)[j].Ok? && !Replies(w, map[], ops)[j].value.1
    ensures exists i | 0 <= i < j :: First(w, ops, i, j)
  {
    hide DoClaim, DoCreate, DoVote, DoClose, AllValid, w.Honest, Accounted, Admits, InTime, ReceiptAt;
    var (before, p) := (After(w, map[], ops[..j]), ops[j].p);
    ReplyAt(w, map[], ops, j);
    EmptyRuns(w, ops[..j]);
    VoteRepeats(w, before, p, ops[j].ballot, ops[j].clock);
    var k :| 0 <= k < |before[p].casts| && before[p].casts[k].ballot == ops[j].ballot
             && ReceiptAt(w, before[p], k) == DoVote(w, before, p, ops[j].ballot, ops[j].clock).answer.value.0;
    EverythingAccounted(w, ops[..j], p);
    AccountedBallot(w, ops[..j], before[p], k);
    var i :| 0 <= i < j && BallotBy(w, ops[..j], before[p], k, i);
    RepliesPrefix(w, map[], ops, j);
    ValidAt(w, before, p);
    assert First(w, ops, i, j);
  }

  lemma FirstOther(w: World, ops: seq<Op>, j: nat)
    requires w.Honest() && j < |ops| && (ops[j].Create? || ops[j].Closing?) && Replies(w, map[], ops)[j].Ok? && !Replies(w, map[], ops)[j].value.1
    ensures exists i | 0 <= i < j :: First(w, ops, i, j)
  {
    hide DoClaim, DoCreate, DoVote, DoClose, AllValid, w.Honest, Accounted, CloseSigned, TallyOf, AsksFor, Acceptable, CreateSigned,
         Members.Normalized;
    var before := After(w, map[], ops[..j]);
    ReplyAt(w, map[], ops, j);
    EmptyRuns(w, ops[..j]);
    var p;
    if ops[j].Create? {
      CreateRepeats(w, before, ops[j].create, ops[j].clock);
      p := DoCreate(w, before, ops[j].create, ops[j].clock).answer.value.0.pollID;
    } else {
      CloseRepeats(w, before, ops[j].p, ops[j].close, ops[j].clock);
      p := ops[j].p;
    }
    EverythingAccounted(w, ops[..j], p);
    AccountedPoll(w, ops[..j], before[p]);
    ValidAt(w, before, p);
    RepliesPrefix(w, map[], ops, j);
    if ops[j].Create? {
      var i :| 0 <= i < j && PollBy(w, ops[..j], before[p], i);
      assert First(w, ops, i, j);
    } else {
      var i :| 0 <= i < j && CloseBy(w, ops[..j], before[p], i);
      assert First(w, ops, i, j);
    }
  }

  /** In every run from the empty store, an answer that created nothing repeats, word for word, the answer of an earlier call for the same
      thing that did. */
  lemma AnsweredBefore(w: World, ops: seq<Op>, j: nat)
    requires w.Honest() && j < |ops| && Replies(w, map[], ops)[j].Ok? && !Replies(w, map[], ops)[j].value.1
    ensures exists i | 0 <= i < j :: First(w, ops, i, j)
  {
    hide First, Replies, w.Honest;
    match ops[j]
    case Claiming(_, _, _) => FirstClaim(w, ops, j);
    case Voting(_, _, _) => FirstVote(w, ops, j);
    case _ => FirstOther(w, ops, j);
  }

  /* The rows of the tables */

  // The row of a claimed credit is what this call, signed with the row's own key, left.
  predicate RowOfClaim(w: World, p: string, fingerprint: string, row: CreditRow, op: Op, reply: Reply) {
    && op.Claiming? && op.p == p && ClaimSigned(w, p, op.claim) && op.claim.sshPublicKey == row.sshPublicKey
    && Fingerprint(w, row.sshPublicKey) == Some(fingerprint) && row.claim.Some?
    && row.claim.value == Issuance(op.claim.requestID, BlindedDigest(w, op.claim.blindedMessage), row.claim.value.blindSignature,
                                   w.eventDay(op.clock.stamp))
    && w.blindSign(op.claim.blindedMessage) == Ok(row.claim.value.blindSignature)
    && reply == Ok((SignatureAnswer(row.claim.value.blindSignature), true))
  }

  predicate ClaimRow(w: World, ops: seq<Op>, replies: seq<Reply>, p: string, fingerprint: string, row: CreditRow)
    requires |replies| == |ops|
  {
    exists j | 0 <= j < |ops| :: RowOfClaim(w, p, fingerprint, row, ops[j], replies[j])
  }

  lemma ClaimRowMade(w: World, ops: seq<Op>, h: History, fingerprint: string)
    requires Valid(w, h) && Accounted(w, ops, h)
    requires fingerprint in CreditsOf(h.members, h.claims) && CreditsOf(h.members, h.claims)[fingerprint].claim.Some?
    ensures ClaimRow(w, ops, Replies(w, map[], ops), h.poll.pollID, fingerprint, CreditsOf(h.members, h.claims)[fingerprint])
  {
    hide SignedByService, GoodCasts, GoodClaims, Accounted, ClaimSigned, InTime, Canonical, Sorted, CreditsOf;
    CreditRows(h.members, h.claims, fingerprint);
    ClaimOfSome(h.claims, fingerprint);
    var row := CreditsOf(h.members, h.claims)[fingerprint];
    var k :| 0 <= k < |h.claims| && h.claims[k] == Claimed(fingerprint, row.claim.value);
    AccountedClaim(w, ops, h, k);
    var j :| 0 <= j < |ops| && ClaimBy(w, ops, h, k, j);
    MemberUnique(h.members, MemberKey(row.sshPublicKey, fingerprint), MemberKey(ops[j].claim.sshPublicKey, fingerprint));
    assert RowOfClaim(w, h.poll.pollID, fingerprint, row, ops[j], Replies(w, map[], ops)[j]);
  }

  // The event records the ballot of this call, admitted by the stored poll, and keeps its receipt and its day.
  predicate RowOfBallot(w: World, row: PollRow, event: BallotEvent, op: Op, reply: Reply) {
    && op.Voting? && op.p == row.pollID && w.poll.read(row.artifact).Some? && Admits(w, w.poll.read(row.artifact).value, op.ballot)
    && event.artifact == w.ballot.text(BallotRecord(1, "vota-ssh-credit-v1", op.p, event.sequence, op.ballot.credential,
                                                    SpentHash(w, op.ballot.credential), op.ballot.choiceID))
    && reply.Ok? && reply.value.1 && reply.value.0.ReceiptAnswer? && event.receipt == w.receipt.text(reply.value.0.receipt)
    && event.recordedAt == w.eventDay(op.clock.stamp)
  }

  lemma DayOfCast(w: World, h: History, k: nat)
    requires k < |h.casts|
    ensures k + 1 < |Log(w, h)| && Log(w, h)[k + 1].recordedAt == h.casts[k].day
  {
    hide Log, CastLog, EventHash, FindEvent, ReceiptOf;
    LogNumbered(w, h);
    FindNumbered(Log(w, h), k + 1);
    CastEventAt(w, h, k);
  }

  lemma BallotPlaces(w: World, h: History, i: nat)
    requires i < |Log(w, h)| && Log(w, h)[i].kind == "ballot_accepted"
    ensures 1 <= i <= |h.casts|
  {
    hide Log, CreatedEvent;
    LogFirst(w, h);
    LogNumbered(w, h);
    CreatedKind(w, h.poll, h.createdAt);
    if h.closedAt.Some? { LogLast(w, h); }
  }

  predicate BallotRow(w: World, ops: seq<Op>, replies: seq<Reply>, row: PollRow, event: BallotEvent)
    requires |replies| == |ops|
  {
    exists j | 0 <= j < |ops| :: RowOfBallot(w, row, event, ops[j], replies[j])
  }

  lemma BallotRowMade(w: World, ops: seq<Op>, h: History, i: nat)
    requires w.Honest() && Accounted(w, ops, h) && i < |Log(w, h)| && Log(w, h)[i].kind == "ballot_accepted"
    ensures BallotRow(w, ops, Replies(w, map[], ops), RowOf(w, h), Log(w, h)[i])
  {
    hide w.Honest, Accounted, Admits, InTime, Log, ReceiptAt, Receipts, RowOf, SpentHash;
    BallotPlaces(w, h, i);
    AccountedBallot(w, ops, h, i - 1);
    var j :| 0 <= j < |ops| && BallotBy(w, ops, h, i - 1, j);
    ReceiptNames(w, h, i - 1);
    DayOfCast(w, h, i - 1);
    PollText(w, h.poll);
    StoredRow(w, h);
    assert RowOfBallot(w, RowOf(w, h), Log(w, h)[i], ops[j], Replies(w, map[], ops)[j]);
  }

  lemma PollText(w: World, poll: Poll)
    requires w.Honest()
    ensures w.poll.read(w.poll.text(poll)) == Some(poll)
  {
  }

  lemma StoredRow(w: World, h: History)
    ensures RowOf(w, h).pollID == h.poll.pollID && RowOf(w, h).artifact == w.poll.text(h.poll)
    ensures RowOf(w, h).state == (if h.closedAt.Some? then "closed" else "open") && (h.closedAt.Some? ==> RowOf(w, h).closedAt == h.closedAt.value)
  {
    hide ArtifactHash;
  }

  // The stored poll is the one this call, signed by an administrator, asked for and was answered with.
  predicate RowOfPoll(w: World, row: PollRow, op: Op, reply: Reply) {
    && op.Create? && w.poll.read(row.artifact).Some? && Acceptable(w, op.create, op.clock.check) && Members.Normalized(w, op.create.members).Ok?
    && var (poll, members) := (w.poll.read(row.artifact).value, Members.Normalized(w, op.create.members).value.0);
       CreateSigned(w, op.create, members) && AsksFor(w, op.create, members, poll) && reply == Ok((PollAnswer(poll), true))
  }

  // The row was closed by this call, signed by an administrator for this poll.
  predicate RowOfClose(w: World, row: PollRow, op: Op, reply: Reply) {
    op.Closing? && op.p == row.pollID && CloseSigned(w, op.p, op.close) && row.closedAt == w.canonicalTime(op.clock.stamp)
    && reply.Ok? && reply.value.1
  }

  predicate PollRowMade(w: World, ops: seq<Op>, replies: seq<Reply>, row: PollRow)
    requires |replies| == |ops|
  {
    && (exists j | 0 <= j < |ops| :: RowOfPoll(w, row, ops[j], replies[j]))
    && (row.state == "closed" ==> exists j | 0 <= j < |ops| :: RowOfClose(w, row, ops[j], replies[j]))
  }

  lemma PollRowAccounted(w: World, ops: seq<Op>, h: History)
    requires w.Honest() && Accounted(w, ops, h)
    ensures PollRowMade(w, ops, Replies(w, map[], ops), RowOf(w, h))
  {
    hide w.Honest, Accounted, Acceptable, CreateSigned, AsksFor, CloseSigned, Members.Normalized, TallyOf, RowOf;
    PollText(w, h.poll);
    StoredRow(w, h);
    AccountedPoll(w, ops, h);
    var j :| 0 <= j < |ops| && PollBy(w, ops, h, j);
    assert RowOfPoll(w, RowOf(w, h), ops[j], Replies(w, map[], ops)[j]);
    if h.closedAt.Some? {
      var k :| 0 <= k < |ops| && CloseBy(w, ops, h, k);
      assert RowOfClose(w, RowOf(w, h), ops[k], Replies(w, map[], ops)[k]);
    }
  }

  // Every row of a poll's tables that a call of the run must answer for.
  ghost predicate RowsMade(w: World, ops: seq<Op>, replies: seq<Reply>, p: string, file: PollFile) {
    && |replies| == |ops|
    && PollRowMade(w, ops, replies, file.row)
    && (forall f | f in file.credits && file.credits[f].claim.Some? :: ClaimRow(w, ops, replies, p, f, file.credits[f]))
    && (forall i | 0 <= i < |file.ballotEvents| && file.ballotEvents[i].kind == "ballot_accepted" ::
          BallotRow(w, ops, replies, file.row, file.ballotEvents[i]))
  }

  lemma TablesMade(w: World, ops: seq<Op>, h: History)
    requires w.Honest() && Valid(w, h) && Accounted(w, ops, h)
    ensures RowsMade(w, ops, Replies(w, map[], ops), h.poll.pollID, Tables(w, h))
  {
    hide w.Honest, Valid, Accounted, Tables, PollRowMade, ClaimRow, BallotRow;
    TablesParts(w, h);
    PollRowAccounted(w, ops, h);
    forall f | f in Tables(w, h).credits && Tables(w, h).credits[f].claim.Some?
      ensures ClaimRow(w, ops, Replies(w, map[], ops), h.poll.pollID, f, Tables(w, h).credits[f]) {
      ClaimRowMade(w, ops, h, f);
    }
    forall i | 0 <= i < |Tables(w, h).ballotEvents| && Tables(w, h).ballotEvents[i].kind == "ballot_accepted"
      ensures BallotRow(w, ops, Replies(w, map[], ops), Tables(w, h).row, Tables(w, h).ballotEvents[i]) {
      BallotRowMade(w, ops, h, i);
    }
  }

  /** In the tables of every run each poll was created, each closed one closed, each claimed credit claimed and each accepted ballot cast by
      one answered call: signed by an administrator, signed with the row's own key, or with a credential the stored poll admits. */
  lemma RowsAccounted(w: World, ops: seq<Op>, p: string)
    requires w.Honest() && p in StepRun(w, map[], ops).0
    ensures RowsMade(w, ops, StepRun(w, map[], ops).1, p, StepRun(w, map[], ops).0[p])
  {
    hide AllValid, w.Honest, DoOp, StepOp, StepRun, Tables, Valid, Accounted, RowsMade;
    var hs := After(w, map[], ops);
    EmptyValid(w);
    RunRefines(w, map[], ops);
    RenderKeys(w, hs);
    RenderAt(w, hs, p);
    EmptyRuns(w, ops);
    ValidAt(w, hs, p);
    EverythingAccounted(w, ops, p);
    TablesMade(w, ops, hs[p]);
  }
}
