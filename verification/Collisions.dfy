/** The refusals that only a hash collision can cause: each comes with two different byte strings,
    one hashed for an earlier row and one for the refused row, that have the same digest. */
module Collisions {
  import opened Wrappers
  import opened Artifacts
  import opened Store
  import opened Members
  import opened Sequencer
  import opened History
  import opened Refinement
  import opened Creation

  /* What was hashed for each row */

  function BallotPreimage(p: string, event: BallotEvent): string {
    EventPreimage("ballot", p, event.sequence, event.previousHash, event.artifact)
  }

  function CreditPreimage(p: string, event: CreditEvent): string {
    EventPreimage("credit", p, event.sequence, event.previousHash, event.artifact)
  }

  function PollPreimage(w: World, poll: Poll): string {
    POLL_ARTIFACT + "\0" + w.poll.text(poll)
  }

  // Every event carries the hash of its own fields, and the hash of the event before it.
  predicate Chained(w: World, p: string, log: seq<BallotEvent>) {
    forall i :: 0 <= i < |log| ==> Linked(w, p, log, i)
  }

  predicate Linked(w: World, p: string, log: seq<BallotEvent>, i: nat)
    requires i < |log|
  {
    && log[i].eventHash == w.digest(BallotPreimage(p, log[i]))
    && log[i].previousHash == if i == 0 then EMPTY_HASH else log[i - 1].eventHash
  }

  predicate ChainedCredits(w: World, p: string, log: seq<CreditEvent>) {
    forall i :: 0 <= i < |log| ==> LinkedCredit(w, p, log, i)
  }

  predicate LinkedCredit(w: World, p: string, log: seq<CreditEvent>, i: nat)
    requires i < |log|
  {
    && log[i].eventHash == w.digest(CreditPreimage(p, log[i]))
    && log[i].previousHash == if i == 0 then EMPTY_HASH else log[i - 1].eventHash
  }

  lemma DigestLength(w: World, x: string)
    ensures |w.digest(x)| == 71
  {
  }

  lemma LinkedLength(w: World, p: string, log: seq<BallotEvent>, i: nat)
    requires i < |log| && Chained(w, p, log)
    ensures Linked(w, p, log, i) && |log[i].previousHash| == 71
  {
    hide EventPreimage;
    if i > 0 {
      assert Linked(w, p, log, i - 1);
      DigestLength(w, BallotPreimage(p, log[i - 1]));
    }
  }

  lemma LinkedCreditLength(w: World, p: string, log: seq<CreditEvent>, i: nat)
    requires i < |log| && ChainedCredits(w, p, log)
    ensures LinkedCredit(w, p, log, i) && |log[i].previousHash| == 71
  {
    hide EventPreimage;
    if i > 0 {
      assert LinkedCredit(w, p, log, i - 1);
      DigestLength(w, CreditPreimage(p, log[i - 1]));
    }
  }

  lemma ChainedAppend(w: World, p: string, log: seq<BallotEvent>, event: BallotEvent)
    requires Chained(w, p, log) && event.eventHash == w.digest(BallotPreimage(p, event))
    requires event.previousHash == if log == [] then EMPTY_HASH else Last(log).eventHash
    ensures Chained(w, p, log + [event])
  {
    hide EventPreimage;
    forall i | 0 <= i <= |log| ensures Linked(w, p, log + [event], i) {
      if i < |log| { assert Linked(w, p, log, i); }
    }
  }

  lemma ChainedCreditsAppend(w: World, p: string, log: seq<CreditEvent>, event: CreditEvent)
    requires ChainedCredits(w, p, log) && event.eventHash == w.digest(CreditPreimage(p, event))
    requires event.previousHash == if log == [] then EMPTY_HASH else Last(log).eventHash
    ensures ChainedCredits(w, p, log + [event])
  {
    hide EventPreimage;
    forall i | 0 <= i <= |log| ensures LinkedCredit(w, p, log + [event], i) {
      if i < |log| { assert LinkedCredit(w, p, log, i); }
    }
  }

  lemma {:induction false} CastLogChained(w: World, poll: Poll, createdAt: string, casts: seq<Cast>)
    ensures Chained(w, poll.pollID, CastLog(w, poll, createdAt, casts))
  {
    hide EventPreimage, ReceiptOf, CredentialHash, Chained, CastLog;
    if casts == [] {
      ChainedAppend(w, poll.pollID, [], CreatedEvent(w, poll, createdAt)) by { EmptyChained(w, poll.pollID); }
      CastLogEmpty(w, poll, createdAt);
    } else {
      var before := CastLog(w, poll, createdAt, Init(casts));
      CastLogChained(w, poll, createdAt, Init(casts));
      ChainedAppend(w, poll.pollID, before, CastEvent(w, poll, before, Last(casts)));
      CastLogNext(w, poll, createdAt, Init(casts), Last(casts));
      assert casts == Init(casts) + [Last(casts)];
    }
  }

  lemma EmptyChained(w: World, p: string)
    ensures Chained(w, p, []) && ChainedCredits(w, p, [])
  {
  }

  lemma CastLogEmpty(w: World, poll: Poll, createdAt: string)
    ensures CastLog(w, poll, createdAt, []) == [] + [CreatedEvent(w, poll, createdAt)]
  {
  }

  lemma LogChained(w: World, h: History)
    ensures Chained(w, h.poll.pollID, Log(w, h))
  {
    hide EventPreimage, CastLog, Chained;
    CastLogChained(w, h.poll, h.createdAt, h.casts);
    if h.closedAt.Some? {
      var open := CastLog(w, h.poll, h.createdAt, h.casts);
      ChainedAppend(w, h.poll.pollID, open,
                    ClosedEvent(w, TallyOf(w, h.poll, h.casts, h.closedAt.value), |open| + 1, Last(open).eventHash));
    }
  }

  lemma {:induction false} CreditLogChained(w: World, p: string, claims: seq<Claimed>)
    ensures ChainedCredits(w, p, CreditLog(w, p, claims))
  {
    hide EventPreimage, ChainedCredits;
    EmptyChained(w, p);
    if claims != [] {
      var before := CreditLog(w, p, Init(claims));
      CreditLogChained(w, p, Init(claims));
      ChainedCreditsAppend(w, p, before,
        CreditEventOf(w, p, |claims|, if before == [] then EMPTY_HASH else Last(before).eventHash,
                      Last(claims).fingerprint, Last(claims).issuance));
    }
  }

  /* The clashes */

  lemma ValidSizes(w: World, hs: Histories, q: string)
    requires AllValid(w, hs) && q in hs
    ensures hs[q].poll.pollID == q && |q| == 71
    ensures |hs[q].casts| < MAX_SEQUENCE && |hs[q].claims| <= MAX_SEQUENCE
  {
    hide GoodMembers, GoodClaims, GoodCasts;
  }

  /** A ballot event refused for its hash names an event already stored whose hashed bytes differ and
      whose digest is the same. */
  lemma BallotHashClash(w: World, hs: Histories, p: string, event: BallotEvent)
    requires AllValid(w, hs) && |p| == 71 && |event.previousHash| == 71
    requires event.eventHash == w.digest(BallotPreimage(p, event)) && event.sequence <= MAX_SEQUENCE + 1
    requires p in hs ==> event.sequence > |Log(w, hs[p])|
    requires LogHashUsed(w, hs, event.eventHash)
    ensures exists q, i :: q in hs && 0 <= i < |Log(w, hs[q])|
              && Collide(w, BallotPreimage(q, Log(w, hs[q])[i]), BallotPreimage(p, event))
  {
    hide Log, AllValid, EventPreimage;
    var q :| q in hs && exists i :: 0 <= i < |Log(w, hs[q])| && Log(w, hs[q])[i].eventHash == event.eventHash;
    var log := Log(w, hs[q]);
    var i :| 0 <= i < |log| && log[i].eventHash == event.eventHash;
    ValidSizes(w, hs, q);
    LogNumbered(w, hs[q]);
    LogChained(w, hs[q]);
    LinkedLength(w, q, log, i);
    if BallotPreimage(q, log[i]) == BallotPreimage(p, event) {
      EventPreimageInjective("ballot", q, log[i].sequence, log[i].previousHash, log[i].artifact,
                             "ballot", p, event.sequence, event.previousHash, event.artifact);
    }
  }

  lemma CreditHashClash(w: World, hs: Histories, p: string, event: CreditEvent)
    requires AllValid(w, hs) && p in hs && |event.previousHash| == 71
    requires event.eventHash == w.digest(CreditPreimage(p, event)) && event.sequence == |hs[p].claims| + 1
    requires CreditHashUsed(w, hs, event.eventHash)
    ensures exists q, i :: q in hs && 0 <= i < |hs[q].claims|
              && Collide(w, CreditPreimage(q, CreditLog(w, hs[q].poll.pollID, hs[q].claims)[i]), CreditPreimage(p, event))
  {
    hide CreditLog, AllValid, EventPreimage;
    ValidSizes(w, hs, p);
    var q :| q in hs && exists i :: 0 <= i < |hs[q].claims| && CreditLog(w, hs[q].poll.pollID, hs[q].claims)[i].eventHash == event.eventHash;
    var log := CreditLog(w, hs[q].poll.pollID, hs[q].claims);
    var i :| 0 <= i < |hs[q].claims| && log[i].eventHash == event.eventHash;
    ValidSizes(w, hs, q);
    CreditLogNumbered(w, q, hs[q].claims);
    CreditLogChained(w, q, hs[q].claims);
    LinkedCreditLength(w, q, log, i);
    if CreditPreimage(q, log[i]) == CreditPreimage(p, event) {
      EventPreimageInjective("credit", q, log[i].sequence, log[i].previousHash, log[i].artifact,
                             "credit", p, event.sequence, event.previousHash, event.artifact);
    }
  }

  lemma PollTextsDiffer(w: World, a: Poll, b: Poll)
    requires w.Honest() && a != b
    ensures w.poll.text(a) != w.poll.text(b)
  {
  }

  lemma PollHashClash(w: World, hs: Histories, poll: Poll)
    requires w.Honest() && AllValid(w, hs) && poll.pollID !in hs && PollHashUsed(w, hs, ArtifactHash(w, poll))
    ensures exists q :: q in hs && Collide(w, PollPreimage(w, hs[q].poll), PollPreimage(w, poll))
  {
    hide AllValid, w.Honest;
    var q :| q in hs && ArtifactHash(w, hs[q].poll) == ArtifactHash(w, poll);
    ValidSizes(w, hs, q);
    PollTextsDiffer(w, hs[q].poll, poll);
    PrefixCancels(POLL_ARTIFACT + "\0", w.poll.text(hs[q].poll), w.poll.text(poll));
  }

  /** A fresh, eligible claim, a fresh ballot or a first close on an open poll is refused by the store only
      when the event sequence is exhausted or its event collides with a stored one. */
  lemma VoteRefusedOnlyByCollision(w: World, hs: Histories, p: string, request: BallotRequest, clock: Clock)
    requires w.Honest() && AllValid(w, hs)
    requires DoVote(w, hs, p, request, clock).answer == Err("ballot_event_write_failed")
    requires p in hs && CheckBallot(w, hs[p].poll, request).Ok?
    ensures var event := Last(CastLog(w, hs[p].poll, hs[p].createdAt, hs[p].casts + [Cast(request, w.eventDay(clock.stamp))]));
            exists q, i :: q in hs && 0 <= i < |Log(w, hs[q])|
              && Collide(w, BallotPreimage(q, Log(w, hs[q])[i]), BallotPreimage(p, event))
  {
    hide Log, CastLog, AllValid, w.Honest, LogHashUsed, CheckBallot, EventPreimage, ReceiptAt, CastIndex;
    var h := hs[p];
    var casts := h.casts + [Cast(request, w.eventDay(clock.stamp))];
    var log := CastLog(w, h.poll, h.createdAt, casts);
    CastLogChained(w, h.poll, h.createdAt, casts);
    CastLogNumbered(w, h.poll, h.createdAt, casts);
    ValidSizes(w, hs, p);
    OpenLog(w, h);
    LinkedLength(w, p, log, |h.casts| + 1);
    BallotHashClash(w, hs, p, Last(log));
  }

  lemma ClaimRefusedForHash(w: World, hs: Histories, p: string, request: ClaimRequest, clock: Clock)
    requires (forall m :: w.blindSign(m) != Err("credit_event_write_failed"))
    requires DoClaim(w, hs, p, request, clock).answer == Err("credit_event_write_failed")
    ensures p in hs && CheckClaim(w, p, request).Ok? && w.blindSign(request.blindedMessage).Ok?
    ensures var issuance := Issuance(request.requestID, BlindedHash(w, request), w.blindSign(request.blindedMessage).value, w.eventDay(clock.stamp));
            CreditHashUsed(w, hs, Last(CreditLog(w, p, hs[p].claims + [Claimed(CheckClaim(w, p, request).value, issuance)])).eventHash)
  {
    hide CreditHashUsed, CreditLog, IsOpen, ClaimOf, BlindedHash;
  }

  lemma ClaimRefusedOnlyByCollision(w: World, hs: Histories, p: string, request: ClaimRequest, clock: Clock)
    requires w.Honest() && AllValid(w, hs)
    requires (forall m :: w.blindSign(m) != Err("credit_event_write_failed"))
    requires DoClaim(w, hs, p, request, clock).answer == Err("credit_event_write_failed")
    ensures p in hs && CheckClaim(w, p, request).Ok? && w.blindSign(request.blindedMessage).Ok?
    ensures var issuance := Issuance(request.requestID, BlindedHash(w, request), w.blindSign(request.blindedMessage).value, w.eventDay(clock.stamp));
            var event := Last(CreditLog(w, p, hs[p].claims + [Claimed(CheckClaim(w, p, request).value, issuance)]));
            exists q, i :: q in hs && 0 <= i < |hs[q].claims|
              && Collide(w, CreditPreimage(q, CreditLog(w, hs[q].poll.pollID, hs[q].claims)[i]), CreditPreimage(p, event))
  {
    hide AllValid, w.Honest, CreditHashUsed, EventPreimage, CreditLog, DoClaim, CheckClaim, BlindedHash;
    ClaimRefusedForHash(w, hs, p, request, clock);
    var issuance := Issuance(request.requestID, BlindedHash(w, request), w.blindSign(request.blindedMessage).value, w.eventDay(clock.stamp));
    var claims := hs[p].claims + [Claimed(CheckClaim(w, p, request).value, issuance)];
    var log := CreditLog(w, p, claims);
    CreditLogChained(w, p, claims);
    CreditLogNumbered(w, p, claims);
    LinkedCreditLength(w, p, log, |claims| - 1);
    CreditHashClash(w, hs, p, Last(log));
  }

  lemma CloseRefusedOnlyByCollision(w: World, hs: Histories, p: string, request: CloseRequest, clock: Clock)
    requires w.Honest() && AllValid(w, hs) && p in hs
    requires DoClose(w, hs, p, request, clock).answer == Err("ballot_event_write_failed")
    ensures var event := Last(Log(w, hs[p].(closedAt := Some(w.canonicalTime(clock.stamp)))));
            exists q, i :: q in hs && 0 <= i < |Log(w, hs[q])|
              && Collide(w, BallotPreimage(q, Log(w, hs[q])[i]), BallotPreimage(p, event))
  {
    hide AllValid, w.Honest, LogHashUsed, EventPreimage, Log, TallyOf;
    var after := hs[p].(closedAt := Some(w.canonicalTime(clock.stamp)));
    var log := Log(w, after);
    LogChained(w, after);
    LogNumbered(w, after);
    LogNumbered(w, hs[p]);
    ValidSizes(w, hs, p);
    LinkedLength(w, p, log, |log| - 1);
    BallotHashClash(w, hs, p, Last(log));
  }

  /* Creation */

  function SeedPreimage(w: World, requestID: string, poll: Poll): string {
    POLL_ID + "\0" + w.pollSeed.text(SeedOf(requestID, poll))
  }

  function MembersPreimage(w: World, members: seq<MemberKey>): string {
    ELIGIBILITY + "\0" + w.keys.text(Encodings(members))
  }

  lemma SeedTextsDiffer(w: World, a: PollSeed, b: PollSeed)
    requires Faithful(w.pollSeed) && a != b
    ensures w.pollSeed.text(a) != w.pollSeed.text(b)
  {
    assert w.pollSeed.read(w.pollSeed.text(a)) == Some(a);
    assert w.pollSeed.read(w.pollSeed.text(b)) == Some(b);
  }

  lemma KeyTextsDiffer(w: World, a: seq<string>, b: seq<string>)
    requires w.Honest() && a != b
    ensures w.keys.text(a) != w.keys.text(b)
  {
    assert w.keys.read(w.keys.text(a)) == Some(a);
    assert w.keys.read(w.keys.text(b)) == Some(b);
  }

  // Two key lists of different lengths with one commitment collide.
  lemma CommitmentClash(w: World, a: seq<MemberKey>, b: seq<MemberKey>)
    requires w.Honest() && |a| != |b| && Commitment(w, a) == Commitment(w, b)
    ensures Collide(w, MembersPreimage(w, a), MembersPreimage(w, b))
  {
    hide w.Honest;
    assert |Encodings(a)| != |Encodings(b)|;
    KeyTextsDiffer(w, Encodings(a), Encodings(b));
    PrefixCancels(ELIGIBILITY + "\0", w.keys.text(Encodings(a)), w.keys.text(Encodings(b)));
  }

  // Two signed polls of the service that agree in the hashed fields differ at most in how many keys are listed.
  lemma SameSeedSamePoll(w: World, a: Poll, m: seq<MemberKey>, b: Poll, n: seq<MemberKey>, x: string, y: string)
    requires SignedBut(w, a, m) && SignedBut(w, b, n) && a.pollID == b.pollID
    ensures SeedOf(x, a) == SeedOf(y, b) && |m| == |n| ==> a == b
  {
    assert SeedOf(x, a) == SeedOf(y, b) && |m| == |n| ==> a.(signature := "") == b.(signature := "");
  }

  // What SignedByService says but for the choices being distinct.
  predicate SignedBut(w: World, poll: Poll, members: seq<MemberKey>) {
    && poll == SignPoll(w, poll)
    && poll.schemaVersion == SCHEMA_VERSION && poll.protocol == PROTOCOL
    && poll.issuerPublicKey == w.issuerPublicKey && poll.checkpointPublicKey == w.keyText
    && poll.eligibilityCommitment == Commitment(w, members) && poll.eligibleCount == |members|
  }

  lemma StoredPoll(w: World, hs: Histories, p: string)
    requires AllValid(w, hs) && p in hs
    ensures SignedBut(w, hs[p].poll, hs[p].members) && hs[p].poll.pollID == p == PollIDOf(w, hs[p].requestID, hs[p].poll)
  {
    hide GoodMembers, GoodClaims, GoodCasts;
  }

  lemma RequestedPoll(w: World, request: CreateRequest, members: seq<MemberKey>)
    ensures var poll := NewPoll(w, request, members, Commitment(w, members));
            SignedBut(w, poll, members) && poll.pollID == PollIDOf(w, request.requestID, poll) && |poll.pollID| == 71
  {
    hide Commitment;
    var poll := NewPoll(w, request, members, Commitment(w, members));
    assert poll.(signature := "") == poll.(signature := "").(signature := "");
  }

  /** A poll refused because another poll has its identifier collides with it: in what the identifiers are the hash of, or, if
      that is the same, in what the commitments are. */
  lemma PollIDClash(w: World, hs: Histories, p: string, requestID: string, poll: Poll, members: seq<MemberKey>)
    requires w.Honest() && Faithful(w.pollSeed) && AllValid(w, hs) && p in hs
    requires SignedBut(w, poll, members) && poll.pollID == p == PollIDOf(w, requestID, poll) && hs[p].poll != poll
    ensures Collide(w, SeedPreimage(w, hs[p].requestID, hs[p].poll), SeedPreimage(w, requestID, poll))
            || Collide(w, MembersPreimage(w, hs[p].members), MembersPreimage(w, members))
  {
    hide w.Honest, AllValid, Commitment;
    StoredPoll(w, hs, p);
    SameSeedSamePoll(w, hs[p].poll, hs[p].members, poll, members, hs[p].requestID, requestID);
    var (a, b) := (SeedOf(hs[p].requestID, hs[p].poll), SeedOf(requestID, poll));
    if a != b {
      SeedTextsDiffer(w, a, b);
      PrefixCancels(POLL_ID + "\0", w.pollSeed.text(a), w.pollSeed.text(b));
    } else {
      CommitmentClash(w, hs[p].members, members);
    }
  }

  // The bytes that collide when a valid request is refused as a conflict.
  predicate ConflictExplained(w: World, hs: Histories, requestID: string, poll: Poll, members: seq<MemberKey>) {
    if poll.pollID in hs then
      var h := hs[poll.pollID];
      Collide(w, SeedPreimage(w, h.requestID, h.poll), SeedPreimage(w, requestID, poll))
      || Collide(w, MembersPreimage(w, h.members), MembersPreimage(w, members))
    else exists q | q in hs :: Collide(w, PollPreimage(w, hs[q].poll), PollPreimage(w, poll))
  }

  /** A request that passes validation is refused as a conflict, or for the hash of its first event, only together with a named
      collision: of the polls' identifiers, of their commitments, of their artifacts, or of event 1 with a stored event. */
  lemma CreateRefusedOnlyByCollision(w: World, hs: Histories, request: CreateRequest, clock: Clock)
    requires w.Honest() && Faithful(w.pollSeed) && AllValid(w, hs) && ValidateCreate(w, request, clock.check).Ok?
    ensures var (members, commitment) := ValidateCreate(w, request, clock.check).value;
            var poll := NewPoll(w, request, members, commitment);
            var event := CreatedEvent(w, poll, w.canonicalTime(clock.stamp));
            var answer := DoCreate(w, hs, request, clock).answer;
            && (answer == Err("poll_conflict") ==> ConflictExplained(w, hs, request.requestID, poll, members))
            && (answer == Err("ballot_event_write_failed") ==>
                  exists q, i :: q in hs && 0 <= i < |Log(w, hs[q])|
                    && Collide(w, BallotPreimage(q, Log(w, hs[q])[i]), BallotPreimage(poll.pollID, event)))
            && (answer.Ok? || answer == Err("poll_conflict") || answer == Err("ballot_event_write_failed")
                || (answer == Err("choice_write_failed") && !DistinctChoices(poll.choices)))
  {
    hide w.Honest, AllValid, ValidateCreate, NewPoll, PollHashUsed, LogHashUsed, DistinctChoices, Log, Commitment, SignedBut, GoodMembers,
         EventPreimage, PollIDOf, ArtifactHash;
    HonestKeys(w);
    var (members, commitment) := ValidateCreate(w, request, clock.check).value;
    ValidatedMembers(w, request, clock.check);
    RequestedPoll(w, request, members);
    var poll := NewPoll(w, request, members, commitment);
    if poll.pollID in hs {
      if hs[poll.pollID].poll != poll { PollIDClash(w, hs, poll.pollID, request.requestID, poll, members); }
    } else if PollHashUsed(w, hs, ArtifactHash(w, poll)) {
      PollHashClash(w, hs, poll);
    } else if LogHashUsed(w, hs, CreatedEvent(w, poll, w.canonicalTime(clock.stamp)).eventHash) {
      BallotHashClash(w, hs, poll.pollID, CreatedEvent(w, poll, w.canonicalTime(clock.stamp)));
    }
  }
}
