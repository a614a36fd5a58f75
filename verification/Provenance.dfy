/** Where every row of a run comes from: each poll, claim, ballot and close was put there by one call that was authorised, in time and
    answered, and every later answer repeats the first. */
module Provenance {
  import opened Wrappers
  import opened Artifacts
  import opened Store
  import opened Members
  import opened Sequencer
  import opened History
  import opened Creation
  import opened Runs
  import opened Safety
  import opened Guards
  import opened Administration

  predicate InTime(w: World, poll: Poll, now: int) {
    w.parseTime(poll.closesAt).Some? && now < w.parseTime(poll.closesAt).value
  }

  function Fingerprint(w: World, text: string): Option<string> {
    match w.ssh.parse(text)
    case None => None
    case Some(key) => Some(w.ssh.fingerprint(key))
  }

  function BlindedDigest(w: World, blindedMessage: string): string {
    w.digest("vota:blinded-message:v1" + "\0" + blindedMessage)
  }

  /* The call that made each thing */

  // A claim by a listed key, signed with it, in time, recorded as it was made and signed blindly.
  predicate MakesClaim(w: World, h: History, claim: Claimed, op: Op) {
    && op.Claiming? && op.p == h.poll.pollID && ClaimSigned(w, op.p, op.claim)
    && w.isRequestID(op.claim.requestID) && w.isBlindedMessage(op.claim.blindedMessage)
    && Fingerprint(w, op.claim.sshPublicKey) == Some(claim.fingerprint)
    && MemberKey(op.claim.sshPublicKey, claim.fingerprint) in h.members && InTime(w, h.poll, op.clock.check)
    && w.blindSign(op.claim.blindedMessage) == Ok(claim.issuance.blindSignature)
    && claim.issuance == Issuance(op.claim.requestID, BlindedDigest(w, op.claim.blindedMessage), claim.issuance.blindSignature,
                                  w.eventDay(op.clock.stamp))
  }

  // A ballot with a credential valid for the poll and one of its choices, in time.
  predicate CastsBallot(w: World, h: History, cast: Cast, op: Op) {
    && op.Voting? && op.p == h.poll.pollID && Admits(w, h.poll, op.ballot) && InTime(w, h.poll, op.clock.check)
    && cast == Cast(op.ballot, w.eventDay(op.clock.stamp))
  }

  // A creation an administrator signed, acceptable when it came, for this very poll and these members.
  predicate MakesPoll(w: World, h: History, op: Op) {
    && op.Create? && Acceptable(w, op.create, op.clock.check) && Members.Normalized(w, op.create.members).Ok?
    && h.members == Members.Normalized(w, op.create.members).value.0 && CreateSigned(w, op.create, h.members)
    && AsksFor(w, op.create, h.members, h.poll) && h.createdAt == w.canonicalTime(op.clock.stamp)
  }

  // A close an administrator signed for this poll.
  predicate ClosesPoll(w: World, h: History, op: Op) {
    op.Closing? && op.p == h.poll.pollID && CloseSigned(w, op.p, op.close) && h.closedAt == Some(w.canonicalTime(op.clock.stamp))
  }

  /* What one call adds */

  lemma ClaimShape(w: World, hs: Histories, p: string, request: ClaimRequest, clock: Clock)
    requires DoClaim(w, hs, p, request, clock).histories != hs
    ensures p in hs && CheckClaim(w, p, request).Ok? && IsOpen(w, hs[p], clock.check) && w.blindSign(request.blindedMessage).Ok?
    ensures MemberKey(request.sshPublicKey, CheckClaim(w, p, request).value) in hs[p].members
    ensures var signature := w.blindSign(request.blindedMessage).value;
            var issuance := Issuance(request.requestID, BlindedHash(w, request), signature, w.eventDay(clock.stamp));
            DoClaim(w, hs, p, request, clock)
            == Outcome(hs[p := hs[p].(claims := hs[p].claims + [Claimed(CheckClaim(w, p, request).value, issuance)])], Ok((signature, true)))
  {
    hide CheckClaim, CreditHashUsed, CreditLog, ClaimOf, IsOpen, BlindedHash;
  }

  lemma ClaimMade(w: World, h: History, request: ClaimRequest, clock: Clock, signature: string)
    requires CheckClaim(w, h.poll.pollID, request).Ok? && IsOpen(w, h, clock.check) && w.blindSign(request.blindedMessage) == Ok(signature)
    requires MemberKey(request.sshPublicKey, CheckClaim(w, h.poll.pollID, request).value) in h.members
    ensures var issuance := Issuance(request.requestID, BlindedHash(w, request), signature, w.eventDay(clock.stamp));
            MakesClaim(w, h, Claimed(CheckClaim(w, h.poll.pollID, request).value, issuance), Claiming(h.poll.pollID, request, clock))
  {
    hide CheckClaim, ClaimSigned;
    ClaimChecked(w, h.poll.pollID, request);
    assert BlindedHash(w, request) == BlindedDigest(w, request.blindedMessage);
    ParsedKey(w, h.poll.pollID, request);
  }

  lemma ParsedKey(w: World, p: string, request: ClaimRequest)
    requires CheckClaim(w, p, request).Ok?
    ensures Fingerprint(w, request.sshPublicKey) == Some(CheckClaim(w, p, request).value)
  {
  }

  lemma ClaimAdds(w: World, hs: Histories, p: string, request: ClaimRequest, clock: Clock)
    requires AllValid(w, hs) && DoClaim(w, hs, p, request, clock).histories != hs
    ensures var out := DoClaim(w, hs, p, request, clock);
            && p in hs && p in out.histories && out.histories == hs[p := out.histories[p]]
            && |out.histories[p].claims| == |hs[p].claims| + 1
            && var claim := Last(out.histories[p].claims);
               && out.histories[p] == hs[p].(claims := hs[p].claims + [claim])
               && MakesClaim(w, out.histories[p], claim, Claiming(p, request, clock))
               && out.answer == Ok((claim.issuance.blindSignature, true))
  {
    hide CheckClaim, DoClaim, AllValid, IsOpen, BlindedHash, MakesClaim;
    ClaimShape(w, hs, p, request, clock);
    ValidAt(w, hs, p);
    var out := DoClaim(w, hs, p, request, clock);
    SameOpen(w, hs[p], out.histories[p], clock.check);
    ClaimMade(w, out.histories[p], request, clock, out.answer.value.0);
  }

  lemma SameOpen(w: World, h: History, later: History, now: int)
    requires h.poll == later.poll && h.closedAt == later.closedAt
    ensures IsOpen(w, h, now) == IsOpen(w, later, now)
  {
  }

  lemma VoteAdds(w: World, hs: Histories, p: string, request: BallotRequest, clock: Clock)
    requires AllValid(w, hs) && DoVote(w, hs, p, request, clock).histories != hs
    ensures var out := DoVote(w, hs, p, request, clock);
            && p in hs && p in out.histories && out.histories == hs[p := out.histories[p]]
            && |out.histories[p].casts| == |hs[p].casts| + 1
            && var cast := Last(out.histories[p].casts);
               && out.histories[p] == hs[p].(casts := hs[p].casts + [cast])
               && CastsBallot(w, out.histories[p], cast, Voting(p, request, clock))
               && out.answer == Ok((ReceiptAt(w, out.histories[p], |hs[p].casts|), true))
  {
    hide CheckBallot, LogHashUsed, CastLog, CastIndex, ReceiptAt, Valid, Admits;
    if p in hs {
      ValidAt(w, hs, p);
      BallotChecked(w, hs[p].poll, request);
    }
  }

  lemma CloseAdds(w: World, hs: Histories, p: string, request: CloseRequest, clock: Clock)
    requires AllValid(w, hs) && DoClose(w, hs, p, request, clock).histories != hs
    ensures var out := DoClose(w, hs, p, request, clock);
            && p in hs && p in out.histories && out.histories == hs[p := out.histories[p]] && hs[p].closedAt.None?
            && out.histories[p] == hs[p].(closedAt := out.histories[p].closedAt)
            && ClosesPoll(w, out.histories[p], Closing(p, request, clock))
            && out.answer == Ok((TallyOf(w, hs[p].poll, hs[p].casts, w.canonicalTime(clock.stamp)), true))
  {
    hide CheckClose, LogHashUsed, Log, TallyOf, Valid, CloseSigned;
    CloseChecked(w, p, request);
    if p in hs { ValidAt(w, hs, p); }
  }

  lemma CreateAdds(w: World, hs: Histories, request: CreateRequest, clock: Clock)
    requires w.ssh.RoundTrips() && DoCreate(w, hs, request, clock).histories != hs
    ensures var out := DoCreate(w, hs, request, clock);
            && out.answer.Ok? && out.answer.value.1
            && var (poll, p) := (out.answer.value.0, out.answer.value.0.pollID);
               && p !in hs && p in out.histories && out.histories == hs[p := out.histories[p]] && out.histories[p].poll == poll
               && out.histories[p].claims == [] && out.histories[p].casts == [] && out.histories[p].closedAt.None?
               && MakesPoll(w, out.histories[p], Create(request, clock))
  {
    hide ValidateCreate, NewPoll, PollHashUsed, LogHashUsed, DistinctChoices, CreatedEvent, ArtifactHash, Acceptable, CreateSigned, AsksFor,
         Members.Normalized, Commitment;
    CreateChecked(w, request, clock.check);
    if ValidateCreate(w, request, clock.check).Ok? {
      var members := Members.Normalized(w, request.members).value.0;
      SameSize(w, request.members);
      NormalizedFacts(w, request.members);
      NewPollMeans(w, request, members);
    }
  }

  /* Over runs */

  // A history and a later one of the same poll.
  lemma LastStep(w: World, hs: Histories, ops: seq<Op>)
    requires ops != []
    ensures After(w, hs, ops) == DoOp(w, After(w, hs, Init(ops)), Last(ops)).histories
    ensures Replies(w, hs, ops) == Replies(w, hs, Init(ops)) + [DoOp(w, After(w, hs, Init(ops)), Last(ops)).answer]
  {
    hide DoOp;
  }

  // The call that last changed this poll, or none did.
  lemma StepTouches(w: World, hs: Histories, op: Op, p: string)
    requires w.Honest() && AllValid(w, hs) && p in DoOp(w, hs, op).histories
    requires p !in hs || DoOp(w, hs, op).histories[p] != hs[p]
    ensures var (out, h) := (DoOp(w, hs, op), DoOp(w, hs, op).histories[p]);
            match op
            case Create(_, _) =>
              && p !in hs && MakesPoll(w, h, op) && h.claims == [] && h.casts == [] && h.closedAt.None?
              && out.answer == Ok((PollAnswer(h.poll), true))
            case Claiming(_, _, _) =>
              && p in hs && h.claims != [] && h == hs[p].(claims := hs[p].claims + [Last(h.claims)])
              && MakesClaim(w, h, Last(h.claims), op)
              && out.answer == Ok((SignatureAnswer(Last(h.claims).issuance.blindSignature), true))
            case Voting(_, _, _) =>
              && p in hs && h.casts != [] && h == hs[p].(casts := hs[p].casts + [Last(h.casts)])
              && CastsBallot(w, h, Last(h.casts), op)
              && out.answer == Ok((ReceiptAnswer(ReceiptAt(w, h, |h.casts| - 1)), true))
            case Closing(_, _, _) =>
              && p in hs && hs[p].closedAt.None? && h == hs[p].(closedAt := h.closedAt)
              && ClosesPoll(w, h, op) && h.closedAt.Some?
              && out.answer == Ok((TallyAnswer(TallyOf(w, h.poll, h.casts, h.closedAt.value)), true))
  {
    hide DoCreate, DoClaim, DoVote, DoClose, w.Honest, AllValid, MakesPoll, MakesClaim, CastsBallot, ReceiptAt, TallyOf, CloseSigned;
    match op
    case Create(request, clock) =>
      HonestKeys(w);
      CreateAdds(w, hs, request, clock);
    case Claiming(q, request, clock) => ClaimAdds(w, hs, q, request, clock);
    case Voting(q, request, clock) => VoteAdds(w, hs, q, request, clock);
    case Closing(q, request, clock) => CloseAdds(w, hs, q, request, clock);
  }

  // The j-th call of the run made this, and its answer said so.
  predicate PollBy(w: World, ops: seq<Op>, h: History, j: nat) {
    j < |ops| && MakesPoll(w, h, ops[j]) && Replies(w, map[], ops)[j] == Ok((PollAnswer(h.poll), true))
  }

  predicate ClaimBy(w: World, ops: seq<Op>, h: History, i: nat, j: nat)
    requires i < |h.claims|
  {
    j < |ops| && MakesClaim(w, h, h.claims[i], ops[j])
    && Replies(w, map[], ops)[j] == Ok((SignatureAnswer(h.claims[i].issuance.blindSignature), true))
  }

  predicate BallotBy(w: World, ops: seq<Op>, h: History, k: nat, j: nat)
    requires k < |h.casts|
  {
    j < |ops| && CastsBallot(w, h, h.casts[k], ops[j]) && Replies(w, map[], ops)[j] == Ok((ReceiptAnswer(ReceiptAt(w, h, k)), true))
  }

  predicate CloseBy(w: World, ops: seq<Op>, h: History, j: nat)
    requires h.closedAt.Some?
  {
    j < |ops| && ClosesPoll(w, h, ops[j])
    && Replies(w, map[], ops)[j] == Ok((TallyAnswer(TallyOf(w, h.poll, h.casts, h.closedAt.value)), true))
  }

  predicate PollAccounted(w: World, ops: seq<Op>, h: History) {
    exists j | 0 <= j < |ops| :: PollBy(w, ops, h, j)
  }

  predicate ClaimAccounted(w: World, ops: seq<Op>, h: History, i: nat)
    requires i < |h.claims|
  {
    exists j | 0 <= j < |ops| :: ClaimBy(w, ops, h, i, j)
  }

  predicate BallotAccounted(w: World, ops: seq<Op>, h: History, k: nat)
    requires k < |h.casts|
  {
    exists j | 0 <= j < |ops| :: BallotBy(w, ops, h, k, j)
  }

  predicate CloseAccounted(w: World, ops: seq<Op>, h: History)
    requires h.closedAt.Some?
  {
    exists j | 0 <= j < |ops| :: CloseBy(w, ops, h, j)
  }

  // Everything of the history was put there by a call of the run.
  predicate Accounted(w: World, ops: seq<Op>, h: History) {
    && PollAccounted(w, ops, h)
    && (forall i | 0 <= i < |h.claims| :: ClaimAccounted(w, ops, h, i))
    && (forall k | 0 <= k < |h.casts| :: BallotAccounted(w, ops, h, k))
    && (h.closedAt.Some? ==> CloseAccounted(w, ops, h))
  }

  // What made a part of a history made that part of every later one.
  lemma StillMade(w: World, h: History, later: History, op: Op)
    requires Grows(h, later)
    ensures MakesPoll(w, h, op) ==> MakesPoll(w, later, op)
    ensures forall i :: 0 <= i < |h.claims| && MakesClaim(w, h, h.claims[i], op) ==> MakesClaim(w, later, later.claims[i], op)
    ensures forall k :: 0 <= k < |h.casts| && CastsBallot(w, h, h.casts[k], op) ==> CastsBallot(w, later, later.casts[k], op)
  {
    hide ClaimSigned, Acceptable, CreateSigned, AsksFor, Admits, Members.Normalized, InTime;
  }

  lemma PollLifts(w: World, ops: seq<Op>, h: History, later: History, j: nat)
    requires ops != [] && Grows(h, later) && PollBy(w, Init(ops), h, j)
    ensures PollBy(w, ops, later, j)
  {
    hide MakesPoll, DoOp;
    LastStep(w, map[], ops);
    StillMade(w, h, later, ops[j]);
  }

  lemma ClaimLifts(w: World, ops: seq<Op>, h: History, later: History, i: nat, j: nat)
    requires ops != [] && Grows(h, later) && i < |h.claims| && ClaimBy(w, Init(ops), h, i, j)
    ensures ClaimBy(w, ops, later, i, j)
  {
    hide MakesClaim, DoOp;
    LastStep(w, map[], ops);
    StillMade(w, h, later, ops[j]);
  }

  lemma BallotLifts(w: World, ops: seq<Op>, h: History, later: History, k: nat, j: nat)
    requires ops != [] && Grows(h, later) && k < |h.casts| && BallotBy(w, Init(ops), h, k, j)
    ensures BallotBy(w, ops, later, k, j)
  {
    hide CastsBallot, ReceiptAt, DoOp;
    LastStep(w, map[], ops);
    StillMade(w, h, later, ops[j]);
    ReceiptStays(w, h, later, k);
  }

  lemma CloseLifts(w: World, ops: seq<Op>, h: History, later: History, j: nat)
    requires ops != [] && Grows(h, later) && h.closedAt.Some? && CloseBy(w, Init(ops), h, j)
    ensures later == h && CloseBy(w, ops, later, j)
  {
    hide ClosesPoll, TallyOf, DoOp;
    LastStep(w, map[], ops);
  }

  // What the last call did not add was accounted for before.
  lemma Lifts(w: World, ops: seq<Op>, h: History, later: History)
    requires ops != [] && Grows(h, later) && Accounted(w, Init(ops), h)
    ensures PollAccounted(w, ops, later)
    ensures forall i | 0 <= i < |h.claims| :: ClaimAccounted(w, ops, later, i)
    ensures forall k | 0 <= k < |h.casts| :: BallotAccounted(w, ops, later, k)
    ensures h.closedAt.Some? ==> CloseAccounted(w, ops, later)
  {
    hide PollBy, ClaimBy, BallotBy, CloseBy;
    var j :| 0 <= j < |Init(ops)| && PollBy(w, Init(ops), h, j);
    PollLifts(w, ops, h, later, j);
    forall i | 0 <= i < |h.claims| ensures ClaimAccounted(w, ops, later, i) {
      assert ClaimAccounted(w, Init(ops), h, i);
      var j :| 0 <= j < |Init(ops)| && ClaimBy(w, Init(ops), h, i, j);
      ClaimLifts(w, ops, h, later, i, j);
    }
    forall k | 0 <= k < |h.casts| ensures BallotAccounted(w, ops, later, k) {
      assert BallotAccounted(w, Init(ops), h, k);
      var j :| 0 <= j < |Init(ops)| && BallotBy(w, Init(ops), h, k, j);
      BallotLifts(w, ops, h, later, k, j);
    }
    if h.closedAt.Some? {
      var j :| 0 <= j < |Init(ops)| && CloseBy(w, Init(ops), h, j);
      CloseLifts(w, ops, h, later, j);
    }
  }

  // What the last call added, it accounts for.
  lemma LastAdds(w: World, ops: seq<Op>, p: string)
    requires w.Honest() && ops != [] && p in After(w, map[], ops) && AllValid(w, After(w, map[], Init(ops)))
    requires var before := After(w, map[], Init(ops)); p !in before || After(w, map[], ops)[p] != before[p]
    ensures var (before, h) := (After(w, map[], Init(ops)), After(w, map[], ops)[p]);
            match Last(ops)
            case Create(_, _) =>
              && p !in before && PollAccounted(w, ops, h) && h.claims == [] && h.casts == [] && h.closedAt.None?
            case Claiming(_, _, _) =>
              && p in before && h.claims != [] && h == before[p].(claims := Init(h.claims) + [Last(h.claims)])
              && before[p].claims == Init(h.claims) && ClaimAccounted(w, ops, h, |h.claims| - 1)
            case Voting(_, _, _) =>
              && p in before && h.casts != [] && h == before[p].(casts := Init(h.casts) + [Last(h.casts)])
              && before[p].casts == Init(h.casts) && BallotAccounted(w, ops, h, |h.casts| - 1)
            case Closing(_, _, _) =>
              && p in before && before[p].closedAt.None? && h.closedAt.Some? && h == before[p].(closedAt := h.closedAt)
              && CloseAccounted(w, ops, h)
  {
    hide DoOp, w.Honest, AllValid, MakesPoll, MakesClaim, CastsBallot, ClosesPoll, ReceiptAt, TallyOf;
    LastStep(w, map[], ops);
    StepTouches(w, After(w, map[], Init(ops)), Last(ops), p);
    var (h, j) := (After(w, map[], ops)[p], |ops| - 1);
    match Last(ops)
    case Create(_, _) => assert PollBy(w, ops, h, j);
    case Claiming(_, _, _) => assert ClaimBy(w, ops, h, |h.claims| - 1, j);
    case Voting(_, _, _) => assert BallotBy(w, ops, h, |h.casts| - 1, j);
    case Closing(_, _, _) => assert CloseBy(w, ops, h, j);
  }

  /** In every run from the empty store each poll, each claim, each ballot and each close of each history was made by one call of the run
      that was entitled to make it, whose answer was that poll, signature, receipt or tally. */
  lemma {:induction false} EverythingAccounted(w: World, ops: seq<Op>, p: string)
    requires w.Honest() && p in After(w, map[], ops)
    ensures Accounted(w, ops, After(w, map[], ops)[p])
  {
    hide DoOp, w.Honest, AllValid, PollAccounted, ClaimAccounted, BallotAccounted, CloseAccounted, Extends;
    var (before, after) := (After(w, map[], Init(ops)), After(w, map[], ops));
    EmptyValid(w);
    RunValid(w, map[], Init(ops));
    LastStep(w, map[], ops);
    OpExtends(w, before, Last(ops));
    if p in before {
      EverythingAccounted(w, Init(ops), p);
      GrowsAt(before, after, p);
      Lifts(w, ops, before[p], after[p]);
    }
    if p !in before || after[p] != before[p] {
      LastAdds(w, ops, p);
    }
  }

  lemma GrowsAt(hs: Histories, later: Histories, p: string)
    requires Extends(hs, later) && p in hs
    ensures p in later && Grows(hs[p], later[p])
  {
  }
}
