/** What holds over every run: one blind signature per key, one ballot per credential, a close that
    nothing changes, and tables whose counts agree. */
module Safety {
  import opened Wrappers
  import opened Artifacts
  import opened Store
  import opened Members
  import opened Tallies
  import opened Sequencer
  import opened History
  import opened Refinement
  import opened Closing
  import opened Runs
  import Choices

  /* A reply is the operation's answer where the run had got to */

  lemma {:induction false} ReplyAt(w: World, hs: Histories, ops: seq<Op>, k: nat)
    requires k < |ops|
    ensures Replies(w, hs, ops)[k] == DoOp(w, After(w, hs, ops[..k]), ops[k]).answer
    decreases |ops|
  {
    hide DoOp;
    if k < |ops| - 1 {
      ReplyAt(w, hs, Init(ops), k);
      assert Init(ops)[..k] == ops[..k];
    }
  }

  // The state after the k-th operation grows into the state after every later prefix.
  lemma LaterPrefix(w: World, hs: Histories, ops: seq<Op>, i: nat, j: nat)
    requires i < j <= |ops|
    ensures After(w, hs, ops[..i + 1]) == DoOp(w, After(w, hs, ops[..i]), ops[i]).histories
    ensures Extends(After(w, hs, ops[..i + 1]), After(w, hs, ops[..j]))
  {
    hide DoOp, Extends;
    assert Init(ops[..i + 1]) == ops[..i] && Last(ops[..i + 1]) == ops[i];
    assert ops[..j] == ops[..i + 1] + ops[i + 1..j];
    RunConcat(w, hs, ops[..i + 1], ops[i + 1..j]);
    RunExtends(w, After(w, hs, ops[..i + 1]), ops[i + 1..j]);
  }

  /* Claims */

  // The server holds this signature for this request.
  predicate Issued(w: World, hs: Histories, p: string, request: ClaimRequest, signature: string) {
    p in hs && CheckClaim(w, p, request).Ok? &&
    var held := ClaimOf(hs[p].claims, CheckClaim(w, p, request).value);
    held.Some? && held.value.requestID == request.requestID && held.value.blindedMessageHash == BlindedHash(w, request)
    && held.value.blindSignature == signature
    && MemberKey(request.sshPublicKey, CheckClaim(w, p, request).value) in hs[p].members
  }

  lemma ClaimRecorded(w: World, hs: Histories, p: string, request: ClaimRequest, clock: Clock)
    requires DoClaim(w, hs, p, request, clock).answer.Ok?
    ensures var out := DoClaim(w, hs, p, request, clock);
            Issued(w, out.histories, p, request, out.answer.value.0)
  {
    hide CheckClaim, CreditHashUsed, CreditLog, BlindedHash;
  }

  lemma {:induction false} ClaimOfPrefix(claims: seq<Claimed>, later: seq<Claimed>, f: string)
    requires claims <= later && DistinctClaims(later) && ClaimOf(claims, f).Some?
    ensures ClaimOf(later, f) == ClaimOf(claims, f)
    decreases |later|
  {
    if claims == later {
    } else {
      assert claims <= Init(later);
      ClaimOfSome(claims, f);
      var i :| 0 <= i < |claims| && claims[i] == Claimed(f, ClaimOf(claims, f).value);
      assert later[i].fingerprint != Last(later).fingerprint;
      ClaimOfPrefix(claims, Init(later), f);
    }
  }

  lemma IssuedStays(w: World, hs: Histories, later: Histories, p: string, request: ClaimRequest, signature: string)
    requires AllValid(w, later) && Extends(hs, later) && Issued(w, hs, p, request, signature)
    ensures Issued(w, later, p, request, signature)
  {
    hide CheckClaim, SignedByService, GoodMembers, GoodCasts, BlindedHash;
    ClaimOfPrefix(hs[p].claims, later[p].claims, CheckClaim(w, p, request).value);
  }

  // The same key, request id and blinded message, signed again.
  predicate Repeats(w: World, p: string, again: ClaimRequest, request: ClaimRequest) {
    CheckClaim(w, p, again).Ok? && again == request.(sshsig := again.sshsig)
  }

  /** Repeating an issued claim gives the same signature, and only while the poll is open: the check that the
      poll is open comes before the look at the claim. */
  lemma ClaimRetry(w: World, hs: Histories, p: string, request: ClaimRequest, signature: string, again: ClaimRequest, clock: Clock)
    requires Issued(w, hs, p, request, signature) && Repeats(w, p, again, request)
    ensures DoClaim(w, hs, p, again, clock)
         == Outcome(hs, if IsOpen(w, hs[p], clock.check) then Ok((signature, false)) else Err("poll_not_open"))
  {
    SameClaimant(w, p, again, request);
    hide CheckClaim, BlindedHash;
  }

  lemma SameClaimant(w: World, p: string, again: ClaimRequest, request: ClaimRequest)
    requires Repeats(w, p, again, request) && CheckClaim(w, p, request).Ok?
    ensures CheckClaim(w, p, again) == CheckClaim(w, p, request) && BlindedHash(w, again) == BlindedHash(w, request)
  {
  }

  // Another request of a key that has claimed is never given a signature of its own.
  lemma ClaimOther(w: World, hs: Histories, p: string, request: ClaimRequest, signature: string, other: ClaimRequest, clock: Clock)
    requires Issued(w, hs, p, request, signature) && CheckClaim(w, p, other) == CheckClaim(w, p, request)
    ensures var out := DoClaim(w, hs, p, other, clock);
            && out.histories == hs
            && (out.answer.Ok? ==> out.answer == Ok((signature, false)) && other.requestID == request.requestID
                                   && BlindedHash(w, other) == BlindedHash(w, request))
  {
    hide CheckClaim, BlindedHash, IsOpen;
  }

  /** In any run, all the successful claims of one fingerprint at one poll get one and the same blind signature, for one
      request id and one blinded message hash, and only the first creates anything. */
  lemma OneSignaturePerKey(w: World, hs: Histories, ops: seq<Op>, i: nat, j: nat)
    requires w.Honest() && AllValid(w, hs) && i < j < |ops|
    requires ops[i].Claiming? && ops[j].Claiming? && ops[i].p == ops[j].p
    requires CheckClaim(w, ops[i].p, ops[i].claim) == CheckClaim(w, ops[j].p, ops[j].claim)
    requires Replies(w, hs, ops)[i].Ok? && Replies(w, hs, ops)[j].Ok?
    ensures Replies(w, hs, ops)[j] == Ok((Replies(w, hs, ops)[i].value.0, false))
    ensures ops[j].claim.requestID == ops[i].claim.requestID && BlindedHash(w, ops[j].claim) == BlindedHash(w, ops[i].claim)
  {
    hide AllValid, w.Honest, DoClaim, DoVote, DoClose, DoCreate, Extends, CheckClaim, BlindedHash, Issued;
    var (p, request, before, at) := (ops[i].p, ops[i].claim, After(w, hs, ops[..i]), After(w, hs, ops[..j]));
    ReplyAt(w, hs, ops, i);
    ReplyAt(w, hs, ops, j);
    LaterPrefix(w, hs, ops, i, j);
    RunValid(w, hs, ops[..j]);
    ClaimRecorded(w, before, p, request, ops[i].clock);
    var signature := DoClaim(w, before, p, request, ops[i].clock).answer.value.0;
    IssuedStays(w, After(w, hs, ops[..i + 1]), at, p, request, signature);
    ClaimOther(w, at, p, request, signature, ops[j].claim, ops[j].clock);
  }

  /** In any run, once a claim is answered with a signature, every later claim of the same key, request id and blinded message gets
      that signature if and only if the poll is open when it arrives, and changes nothing either way. */
  lemma ClaimIsFinal(w: World, hs: Histories, ops: seq<Op>, i: nat, j: nat)
    requires w.Honest() && AllValid(w, hs) && i < j < |ops|
    requires ops[i].Claiming? && ops[j].Claiming? && ops[i].p == ops[j].p
    requires Repeats(w, ops[j].p, ops[j].claim, ops[i].claim) && Replies(w, hs, ops)[i].Ok?
    ensures var (later, p) := (After(w, hs, ops[..j]), ops[j].p);
            && p in later && After(w, hs, ops[..j + 1]) == later
            && Replies(w, hs, ops)[j] == if IsOpen(w, later[p], ops[j].clock.check) then Ok((Replies(w, hs, ops)[i].value.0, false))
                                         else Err("poll_not_open")
  {
    hide AllValid, w.Honest, DoClaim, DoVote, DoClose, DoCreate, Extends, Issued, IsOpen, Repeats;
    var (p, request, before, at) := (ops[i].p, ops[i].claim, After(w, hs, ops[..i]), After(w, hs, ops[..j]));
    ReplyAt(w, hs, ops, i);
    ReplyAt(w, hs, ops, j);
    LaterPrefix(w, hs, ops, i, j);
    LaterPrefix(w, hs, ops, j, j + 1);
    RunValid(w, hs, ops[..j]);
    ClaimRecorded(w, before, p, request, ops[i].clock);
    var signature := DoClaim(w, before, p, request, ops[i].clock).answer.value.0;
    IssuedStays(w, After(w, hs, ops[..i + 1]), at, p, request, signature);
    IssuedHasPoll(w, at, p, request, signature);
    ClaimRetry(w, at, p, request, signature, ops[j].claim, ops[j].clock);
  }

  lemma IssuedHasPoll(w: World, hs: Histories, p: string, request: ClaimRequest, signature: string)
    requires Issued(w, hs, p, request, signature)
    ensures p in hs
  {
  }

  /** So a claim that was answered, repeated after a close that was answered, is refused: it is the open check that refuses it. */
  lemma ClaimAfterClose(w: World, hs: Histories, p: string, request: ClaimRequest, close: CloseRequest, again: ClaimRequest,
                        a: Clock, b: Clock, c: Clock)
    requires w.Honest() && AllValid(w, hs) && Repeats(w, p, again, request)
    requires var ops := [Claiming(p, request, a), Closing(p, close, b), Claiming(p, again, c)];
             Replies(w, hs, ops)[0].Ok? && Replies(w, hs, ops)[1].Ok?
    ensures Replies(w, hs, [Claiming(p, request, a), Closing(p, close, b), Claiming(p, again, c)])[2] == Err("poll_not_open")
  {
    hide AllValid, w.Honest, DoClaim, DoClose, Replies, Repeats;
    var ops := [Claiming(p, request, a), Closing(p, close, b), Claiming(p, again, c)];
    ClaimIsFinal(w, hs, ops, 0, 2);
    ReplyAt(w, hs, ops, 1);
    assert Init(ops[..2]) == ops[..1] && Last(ops[..2]) == ops[1];
    CloseRecorded(w, After(w, hs, ops[..1]), p, close, b);
  }

  /* Ballots */

  // The server holds this ballot and answers it with this receipt.
  predicate Recorded(w: World, hs: Histories, p: string, request: BallotRequest, receipt: Receipt) {
    p in hs && CheckBallot(w, hs[p].poll, request).Ok? &&
    var k := CastIndex(w, hs[p].casts, CredentialHash(w, request.credential));
    k.Some? && hs[p].casts[k.value].ballot == request && ReceiptAt(w, hs[p], k.value) == receipt
  }

  lemma VoteRecorded(w: World, hs: Histories, p: string, request: BallotRequest, clock: Clock)
    requires DoVote(w, hs, p, request, clock).answer.Ok?
    ensures var out := DoVote(w, hs, p, request, clock);
            Recorded(w, out.histories, p, request, out.answer.value.0)
  {
    hide CheckBallot, CastLog, LogHashUsed, ReceiptAt, CredentialHash;
    CheckedHash(w, hs[p].poll, request);
  }

  lemma {:induction false} CastIndexPrefix(w: World, casts: seq<Cast>, later: seq<Cast>, c: string)
    requires casts <= later && DistinctCredentials(w, later) && CastIndex(w, casts, c).Some?
    ensures CastIndex(w, later, c) == CastIndex(w, casts, c)
    decreases |later|
  {
    hide CredentialHash;
    if casts != later {
      assert casts <= Init(later);
      var k := CastIndex(w, casts, c).value;
      assert CredentialHash(w, later[k].ballot.credential) != CredentialHash(w, Last(later).ballot.credential);
      CastIndexPrefix(w, casts, Init(later), c);
    }
  }

  // A receipt does not depend on later ballots, nor on the close.
  lemma ReceiptStays(w: World, h: History, later: History, k: nat)
    requires Grows(h, later) && k < |h.casts|
    ensures ReceiptAt(w, later, k) == ReceiptAt(w, h, k)
  {
    hide CastLog, ReceiptOf;
    assert later.casts[..k + 1] == h.casts[..k + 1];
  }

  lemma RecordedStays(w: World, hs: Histories, later: Histories, p: string, request: BallotRequest, receipt: Receipt)
    requires AllValid(w, later) && Extends(hs, later) && Recorded(w, hs, p, request, receipt)
    ensures Recorded(w, later, p, request, receipt)
  {
    hide CheckBallot, SignedByService, GoodMembers, GoodClaims, CredentialHash, ReceiptAt;
    var c := CredentialHash(w, request.credential);
    CastIndexPrefix(w, hs[p].casts, later[p].casts, c);
    ReceiptStays(w, hs[p], later[p], CastIndex(w, hs[p].casts, c).value);
  }

  /** Once a ballot is recorded, presenting its credential again gives the receipt for that ballot and a refusal for
      any other choice, listed or not, open or closed, and changes nothing. */
  lemma VoteAgain(w: World, hs: Histories, p: string, request: BallotRequest, receipt: Receipt, other: BallotRequest, clock: Clock)
    requires Recorded(w, hs, p, request, receipt) && other.credential == request.credential
    ensures DoVote(w, hs, p, other, clock)
         == Outcome(hs, if other.choiceID == request.choiceID then Ok((receipt, false))
                        else if ChoiceExists(hs[p].poll.choices, other.choiceID) then Err("credential_already_spent")
                        else Err("invalid_choice"))
  {
  }

  lemma CredentialTexts(w: World, a: Credential, b: Credential)
    requires Faithful(w.credential) && a != b && CredentialHash(w, a) == CredentialHash(w, b)
    ensures Collide(w, "vota:credential-hash:v1" + "\0" + w.credential.text(a), "vota:credential-hash:v1" + "\0" + w.credential.text(b))
  {
    assert w.credential.read(w.credential.text(a)) == Some(a);
    assert w.credential.read(w.credential.text(b)) == Some(b);
    PrefixCancels("vota:credential-hash:v1" + "\0", w.credential.text(a), w.credential.text(b));
  }

  /** A ballot refused as already spent was preceded by a ballot of its own credential for another choice, or its
      credential collides with one that voted. */
  lemma SpentOnlyByOwner(w: World, hs: Histories, p: string, request: BallotRequest, clock: Clock)
    requires Faithful(w.credential) && p in hs && CheckBallot(w, hs[p].poll, request).Ok?
    requires DoVote(w, hs, p, request, clock).answer == Err("credential_already_spent")
    ensures exists k :: 0 <= k < |hs[p].casts| &&
              var held := hs[p].casts[k].ballot;
              if held.credential == request.credential then held.choiceID != request.choiceID
              else Collide(w, "vota:credential-hash:v1" + "\0" + w.credential.text(held.credential),
                              "vota:credential-hash:v1" + "\0" + w.credential.text(request.credential))
  {
    hide CheckBallot, CredentialHash, CastLog, LogHashUsed, ReceiptAt, IsOpen;
    CheckedHash(w, hs[p].poll, request);
    var k := CastIndex(w, hs[p].casts, CredentialHash(w, request.credential)).value;
    var held := hs[p].casts[k].ballot;
    if held.credential != request.credential { CredentialTexts(w, held.credential, request.credential); }
  }

  /** In any run, once a ballot has been answered with a receipt, every later identical ballot is answered with the
      same receipt and every later ballot of that credential for another choice is refused. */
  lemma BallotIsFinal(w: World, hs: Histories, ops: seq<Op>, i: nat, j: nat)
    requires w.Honest() && AllValid(w, hs) && i < j < |ops|
    requires ops[i].Voting? && ops[j].Voting? && ops[i].p == ops[j].p && Replies(w, hs, ops)[i].Ok?
    requires ops[j].ballot.credential == ops[i].ballot.credential
    ensures var (later, p) := (After(w, hs, ops[..j]), ops[j].p);
            && p in later && After(w, hs, ops[..j + 1]) == later
            && Replies(w, hs, ops)[j] == if ops[j].ballot == ops[i].ballot then Ok((Replies(w, hs, ops)[i].value.0, false))
                                         else if ChoiceExists(later[p].poll.choices, ops[j].ballot.choiceID)
                                         then Err("credential_already_spent") else Err("invalid_choice")
  {
    hide AllValid, w.Honest, DoVote, DoClaim, DoClose, DoCreate, Extends, Recorded, ChoiceExists;
    var (p, request, before, at) := (ops[i].p, ops[i].ballot, After(w, hs, ops[..i]), After(w, hs, ops[..j]));
    ReplyAt(w, hs, ops, i);
    ReplyAt(w, hs, ops, j);
    LaterPrefix(w, hs, ops, i, j);
    LaterPrefix(w, hs, ops, j, j + 1);
    RunValid(w, hs, ops[..j]);
    VoteRecorded(w, before, p, request, ops[i].clock);
    var receipt := DoVote(w, before, p, request, ops[i].clock).answer.value.0;
    RecordedStays(w, After(w, hs, ops[..i + 1]), at, p, request, receipt);
    RecordedHasPoll(w, at, p, request, receipt);
    VoteAgain(w, at, p, request, receipt, ops[j].ballot, ops[j].clock);
  }

  lemma RecordedHasPoll(w: World, hs: Histories, p: string, request: BallotRequest, receipt: Receipt)
    requires Recorded(w, hs, p, request, receipt)
    ensures p in hs
  {
  }

  /* Closing */

  // How many accepted ballots of the log name a choice: the reference the tally is held against.
  function BallotsFor(w: World, log: seq<BallotEvent>, choiceID: string): nat {
    if log == [] then 0 else
    BallotsFor(w, Init(log), choiceID) +
    if Last(log).kind == "ballot_accepted" && w.ballot.read(Last(log).artifact).Some?
       && w.ballot.read(Last(log).artifact).value.choiceID == choiceID then 1 else 0
  }

  function Accepted(log: seq<BallotEvent>): nat {
    if log == [] then 0 else Accepted(Init(log)) + if Last(log).kind == "ballot_accepted" then 1 else 0
  }

  lemma BallotCounted(w: World, before: seq<BallotEvent>, record: BallotRecord, previous: string, day: string, choiceID: string)
    requires w.Honest()
    ensures var log := before + [AcceptedEvent(w, record, previous, day)];
            && BallotsFor(w, log, choiceID) == BallotsFor(w, before, choiceID) + (if record.choiceID == choiceID then 1 else 0)
            && Accepted(log) == Accepted(before) + 1
  {
  }

  lemma {:induction false} LogCounts(w: World, poll: Poll, createdAt: string, casts: seq<Cast>, choiceID: string)
    requires w.Honest()
    ensures BallotsFor(w, CastLog(w, poll, createdAt, casts), choiceID) == Votes(casts, choiceID)
    ensures Accepted(CastLog(w, poll, createdAt, casts)) == |casts|
  {
    hide w.Honest, AcceptedEvent;
    if casts == [] {
      assert Init(CastLog(w, poll, createdAt, casts)) == [];
    } else {
      LogCounts(w, poll, createdAt, Init(casts), choiceID);
      var before := CastLog(w, poll, createdAt, Init(casts));
      BallotCounted(w, before, CastRecord(w, poll, |before| + 1, Last(casts)), Last(before).eventHash, Last(casts).day, choiceID);
    }
  }

  lemma ClosedCounts(w: World, h: History, choiceID: string)
    requires w.Honest()
    ensures BallotsFor(w, Log(w, h), choiceID) == Votes(h.casts, choiceID) && Accepted(Log(w, h)) == |h.casts|
  {
    hide w.Honest, CastLog, TallyOf;
    LogCounts(w, h.poll, h.createdAt, h.casts, choiceID);
    if h.closedAt.Some? { assert Init(Log(w, h)) == CastLog(w, h.poll, h.createdAt, h.casts); }
  }

  // A tally that counts the ballots of a log: per choice, in the poll's order, and in all.
  predicate Counts(w: World, poll: Poll, log: seq<BallotEvent>, tally: Tally) {
    && tally.ballotCount == Accepted(log) == Sum(tally.totals)
    && |tally.totals| == |poll.choices|
    && forall i :: 0 <= i < |poll.choices| ==> tally.totals[i] == ChoiceTotal(poll.choices[i].id, BallotsFor(w, log, poll.choices[i].id))
  }

  lemma TallyCounts(w: World, h: History, at: string)
    requires w.Honest() && Valid(w, h)
    ensures Counts(w, h.poll, Log(w, h), TallyOf(w, h.poll, h.casts, at))
  {
    hide Valid, w.Honest, Log, Sum, ChoicesListed, DistinctChoices, Votes;
    ValidListed(w, h);
    TotalsSum(h.poll.choices, h.casts);
    ClosedCounts(w, h, "");
    forall i | 0 <= i < |h.poll.choices|
      ensures TallyOf(w, h.poll, h.casts, at).totals[i] == ChoiceTotal(h.poll.choices[i].id, BallotsFor(w, Log(w, h), h.poll.choices[i].id)) {
      ClosedCounts(w, h, h.poll.choices[i].id);
    }
  }

  lemma CloseRecorded(w: World, hs: Histories, p: string, close: CloseRequest, clock: Clock)
    requires DoClose(w, hs, p, close, clock).answer.Ok?
    ensures var out := DoClose(w, hs, p, close, clock);
            p in out.histories && out.histories[p].closedAt.Some?
            && out.answer.value.0 == TallyOf(w, out.histories[p].poll, out.histories[p].casts, out.histories[p].closedAt.value)
  {
    hide Log, TallyOf, LogHashUsed;
  }

  lemma CloseOfClosed(w: World, hs: Histories, p: string, close: CloseRequest, clock: Clock)
    requires p in hs && hs[p].closedAt.Some? && CheckClose(w, p, close).Ok?
    ensures DoClose(w, hs, p, close, clock)
         == Outcome(hs, Ok((TallyOf(w, hs[p].poll, hs[p].casts, hs[p].closedAt.value), false)))
  {
    hide Log, TallyOf, LogHashUsed;
  }

  lemma ClosedStays(w: World, hs: Histories, ops: seq<Op>, p: string)
    requires p in hs && hs[p].closedAt.Some?
    ensures p in After(w, hs, ops) && After(w, hs, ops)[p] == hs[p]
  {
    hide DoOp;
    RunExtends(w, hs, ops);
    assert Grows(hs[p], After(w, hs, ops)[p]);
  }

  lemma RenderAt(w: World, hs: Histories, p: string)
    requires p in hs
    ensures p in Render(w, hs) && Render(w, hs)[p] == Tables(w, hs[p])
  {
  }

  /** The close that succeeds fixes the poll: whatever runs afterwards, every row of the poll stays as it is,
      Result and every authorised ClosePoll answer that tally, and the tally counts the ballots of the log. */
  lemma CloseIsFinal(w: World, hs: Histories, p: string, close: CloseRequest, clock: Clock, ops: seq<Op>)
    requires w.Honest() && AllValid(w, hs) && DoClose(w, hs, p, close, clock).answer.Ok?
    ensures var (closed, tally) := (DoClose(w, hs, p, close, clock).histories, DoClose(w, hs, p, close, clock).answer.value.0);
            var (db, later) := (Render(w, closed), Render(w, After(w, closed, ops)));
            && p in db && p in later && later[p] == db[p]
            && Counts(w, closed[p].poll, db[p].ballotEvents, tally)
            && ReadResult(w, later, p) == Ok(tally)
            && forall request': CloseRequest, clock': Clock :: CheckClose(w, p, request').Ok? ==>
                 Close(w, later, p, request', clock') == Step(later, Ok((tally, false)))
  {
    hide Render, Tables, AllValid, w.Honest, DoClose, DoOp, Close, ReadResult, TallyOf, Counts, Log, Valid;
    var (closed, tally) := (DoClose(w, hs, p, close, clock).histories, DoClose(w, hs, p, close, clock).answer.value.0);
    CloseRecorded(w, hs, p, close, clock);
    CloseValid(w, hs, p, close, clock);
    var later := After(w, closed, ops);
    RunValid(w, closed, ops);
    ClosedStays(w, closed, ops, p);
    RenderAt(w, closed, p);
    RenderAt(w, later, p);
    TablesParts(w, closed[p]);
    ValidAt(w, closed, p);
    TallyCounts(w, closed[p], closed[p].closedAt.value);
    ResultReads(w, later, p);
    forall request': CloseRequest, clock': Clock | CheckClose(w, p, request').Ok?
      ensures Close(w, Render(w, later), p, request', clock') == Step(Render(w, later), Ok((tally, false))) {
      CloseRefines(w, later, p, request', clock');
      CloseOfClosed(w, later, p, request', clock');
    }
  }

  lemma ValidAt(w: World, hs: Histories, p: string)
    requires AllValid(w, hs) && p in hs
    ensures Valid(w, hs[p]) && hs[p].poll.pollID == p
  {
  }

  /* Creation */

  lemma ValidationIgnoresTime(w: World, request: CreateRequest, a: int, b: int)
    requires ValidateCreate(w, request, a).Ok? && ValidateCreate(w, request, b).Ok?
    ensures ValidateCreate(w, request, a) == ValidateCreate(w, request, b)
  {
    hide CheckLabels, Members.Normalized;
  }

  /** Creating a poll again with the same request, whatever ran in between, gives the same poll and changes nothing,
      as long as validation still accepts the request. */
  lemma CreateRetry(w: World, hs: Histories, request: CreateRequest, clock: Clock, ops: seq<Op>, again: Clock)
    requires DoCreate(w, hs, request, clock).answer.Ok?
    ensures var out := DoCreate(w, hs, request, clock);
            var later := After(w, out.histories, ops);
            match ValidateCreate(w, request, again.check)
            case Err(code) => DoCreate(w, later, request, again) == Outcome(later, Err(code))
            case Ok(_) => DoCreate(w, later, request, again) == Outcome(later, Ok((out.answer.value.0, false)))
  {
    hide ValidateCreate, NewPoll, PollHashUsed, LogHashUsed, DistinctChoices, CreatedEvent, DoOp;
    var out := DoCreate(w, hs, request, clock);
    var poll := out.answer.value.0;
    assert poll.pollID in out.histories && w.poll.text(out.histories[poll.pollID].poll) == w.poll.text(poll);
    RunExtends(w, out.histories, ops);
    assert Grows(out.histories[poll.pollID], After(w, out.histories, ops)[poll.pollID]);
    if ValidateCreate(w, request, again.check).Ok? {
      ValidationIgnoresTime(w, request, clock.check, again.check);
    }
  }

  // Labels whose identifiers collide are refused by the primary key, and nothing is written.
  lemma ClashingLabelsRefused(w: World, hs: Histories, request: CreateRequest, clock: Clock)
    requires w.Honest() && AllValid(w, hs) && Choices.Clash(w.slug, request.choices)
    ensures DoCreate(w, hs, request, clock).histories == hs
    ensures DoCreate(w, hs, request, clock).answer.Err?
  {
    hide LogHashUsed, DistinctChoices, CreatedEvent, Choices.Clash, GoodMembers, GoodClaims, GoodCasts, ValidateCreate, PollHashUsed,
         ArtifactHash, PollIDOf;
    Choices.DistinctExactly(w.slug, request.choices);
  }

  /* Counts of the tables */

  function FingerprintsOf(claims: seq<Claimed>): set<string> {
    set i | 0 <= i < |claims| :: claims[i].fingerprint
  }

  lemma {:induction false} FingerprintCount(claims: seq<Claimed>)
    requires DistinctClaims(claims)
    ensures |FingerprintsOf(claims)| == |claims|
  {
    if claims != [] {
      FingerprintCount(Init(claims));
      assert FingerprintsOf(claims) == FingerprintsOf(Init(claims)) + {Last(claims).fingerprint};
      assert Last(claims).fingerprint !in FingerprintsOf(Init(claims));
    }
  }

  lemma {:induction false} MemberCount(members: seq<MemberKey>)
    requires DistinctFingerprints(members)
    ensures |Unclaimed(members)| == |members|
  {
    if members != [] {
      MemberCount(Init(members));
      UnclaimedRows(Init(members), Last(members).fingerprint);
    }
  }

  // The rows of a credit table that have been claimed.
  function ClaimedRows(credits: map<string, CreditRow>): set<string> {
    set f | f in credits && credits[f].claim.Some?
  }

  lemma CreditCounts(w: World, h: History)
    requires Valid(w, h)
    ensures |ClaimedRows(CreditsOf(h.members, h.claims))| == |h.claims| <= |CreditsOf(h.members, h.claims)| == |h.members|
    ensures forall f :: f in ClaimedRows(CreditsOf(h.members, h.claims)) <==> f in FingerprintsOf(h.claims)
  {
    hide SignedByService, GoodCasts, MemberIn;
    var credits := CreditsOf(h.members, h.claims);
    forall f ensures f in ClaimedRows(credits) <==> f in FingerprintsOf(h.claims) {
      CreditRows(h.members, h.claims, f);
      ClaimOfSome(h.claims, f);
      if f in FingerprintsOf(h.claims) {
        var i :| 0 <= i < |h.claims| && h.claims[i].fingerprint == f;
      }
    }
    assert ClaimedRows(credits) == FingerprintsOf(h.claims);
    FingerprintCount(h.claims);
    MemberCount(h.members);
    forall f ensures f in credits <==> f in Unclaimed(h.members) {
      CreditRows(h.members, h.claims, f);
      UnclaimedRows(h.members, f);
    }
    assert credits.Keys == Unclaimed(h.members).Keys;
    assert ClaimedRows(credits) <= credits.Keys;
    SubsetSize(ClaimedRows(credits), credits.Keys);
  }

  lemma {:induction false} SpentCount(w: World, casts: seq<Cast>)
    requires DistinctCredentials(w, casts)
    ensures |SpentOf(w, casts)| == |casts|
  {
    hide CredentialHash;
    if casts != [] {
      SpentCount(w, Init(casts));
      SpentIndex(w, Init(casts), CredentialHash(w, Last(casts).ballot.credential));
      CastIndexNone(w, Init(casts), CredentialHash(w, Last(casts).ballot.credential));
    }
  }

  /** In the tables of every run from the empty store: claimed credit rows and credit events are equal in number and
      at most the eligible count, spent credentials and accepted ballots are equal in number, and the choices have
      distinct identifiers. */
  lemma TablesAgree(w: World, ops: seq<Op>, p: string)
    requires w.Honest() && p in StepRun(w, map[], ops).0
    ensures var file := StepRun(w, map[], ops).0[p];
            && |ClaimedRows(file.credits)| == |file.creditEvents| <= |file.credits|
            && (exists poll :: w.poll.read(file.row.artifact) == Some(poll) && poll.pollID == p && poll.eligibleCount == |file.credits|
                               && DistinctChoices(poll.choices) && file.choices == ChoiceRowsOf(poll.choices))
            && |file.spent| == Accepted(file.ballotEvents)
  {
    hide w.Honest, StepOp, DoOp, CreditsOf, CreditLog, Log, SpentOf, Render, Tables, ClaimedRows, DistinctCredentials, DistinctChoices,
         GoodMembers, GoodClaims, Accepted, StepRun;
    EmptyValid(w);
    RunRefines(w, map[], ops);
    RunValid(w, map[], ops);
    var hs := After(w, map[], ops);
    RenderKeys(w, hs);
    RenderAt(w, hs, p);
    ValidAt(w, hs, p);
    TablesParts(w, hs[p]);
    CreditCounts(w, hs[p]);
    SpentCount(w, hs[p].casts);
    ClosedCounts(w, hs[p], "");
    PollReads(w, hs[p]);
  }
}
