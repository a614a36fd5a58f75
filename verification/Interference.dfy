/** Claims and votes do not interfere: a ballot stream says nothing about the claims made beside it, and
    the order in which claims and votes are interleaved changes nothing. */
module Interference {
  import opened Wrappers
  import opened Artifacts
  import opened Store
  import opened Sequencer
  import opened History
  import opened Runs

  // Equal but for the claims.
  predicate SameBallots(a: Histories, b: Histories) {
    a.Keys == b.Keys && forall p | p in a :: a[p].(claims := b[p].claims) == b[p]
  }

  // Equal but for the ballots.
  predicate SameClaims(a: Histories, b: Histories) {
    a.Keys == b.Keys && forall p | p in a :: a[p].(casts := b[p].casts) == b[p]
  }

  /* What each operation reads */

  lemma SameLogs(w: World, a: History, b: History)
    requires a.(claims := b.claims) == b
    ensures Log(w, a) == Log(w, b)
  {
    hide CastLog, TallyOf, ClosedEvent;
  }

  lemma LogHashesAgree(w: World, a: Histories, b: Histories, hash: string)
    requires SameBallots(a, b)
    ensures LogHashUsed(w, a, hash) <==> LogHashUsed(w, b, hash)
  {
    hide Log;
    forall p | p in a ensures Log(w, a[p]) == Log(w, b[p]) { SameLogs(w, a[p], b[p]); }
  }

  lemma CreditHashesAgree(w: World, a: Histories, b: Histories, hash: string)
    requires SameClaims(a, b)
    ensures CreditHashUsed(w, a, hash) <==> CreditHashUsed(w, b, hash)
  {
  }

  lemma PollHashesAgree(w: World, a: Histories, b: Histories, hash: string)
    requires SameBallots(a, b)
    ensures PollHashUsed(w, a, hash) <==> PollHashUsed(w, b, hash)
  {
    hide ArtifactHash;
  }

  lemma CreateSame(w: World, a: Histories, b: Histories, request: CreateRequest, clock: Clock)
    requires SameBallots(a, b)
    ensures var (x, y) := (DoCreate(w, a, request, clock), DoCreate(w, b, request, clock));
            x.answer == y.answer && SameBallots(x.histories, y.histories)
  {
    hide ValidateCreate, NewPoll, PollHashUsed, LogHashUsed, DistinctChoices, CreatedEvent, ArtifactHash;
    if ValidateCreate(w, request, clock.check).Ok? {
      var (members, commitment) := ValidateCreate(w, request, clock.check).value;
      var poll := NewPoll(w, request, members, commitment);
      PollHashesAgree(w, a, b, ArtifactHash(w, poll));
      LogHashesAgree(w, a, b, CreatedEvent(w, poll, w.canonicalTime(clock.stamp)).eventHash);
    }
  }

  lemma VoteSame(w: World, a: Histories, b: Histories, p: string, request: BallotRequest, clock: Clock)
    requires SameBallots(a, b)
    ensures var (x, y) := (DoVote(w, a, p, request, clock), DoVote(w, b, p, request, clock));
            x.answer == y.answer && SameBallots(x.histories, y.histories)
  {
    hide CheckBallot, LogHashUsed, CastLog, CastIndex, ReceiptOf, CastRecord;
    if p in a {
      var h := a[p];
      LogHashesAgree(w, a, b, Last(CastLog(w, h.poll, h.createdAt, h.casts + [Cast(request, w.eventDay(clock.stamp))])).eventHash);
    }
  }

  lemma CloseSame(w: World, a: Histories, b: Histories, p: string, request: CloseRequest, clock: Clock)
    requires SameBallots(a, b)
    ensures var (x, y) := (DoClose(w, a, p, request, clock), DoClose(w, b, p, request, clock));
            x.answer == y.answer && SameBallots(x.histories, y.histories)
  {
    hide LogHashUsed, Log, TallyOf;
    if p in a {
      var (g, h) := (a[p].(closedAt := Some(w.canonicalTime(clock.stamp))), b[p].(closedAt := Some(w.canonicalTime(clock.stamp))));
      SameLogs(w, g, h);
      LogHashesAgree(w, a, b, Last(Log(w, g)).eventHash);
    }
  }

  // Everything but a claim answers and acts without looking at the claims.
  lemma OthersIgnoreClaims(w: World, a: Histories, b: Histories, op: Op)
    requires SameBallots(a, b) && !op.Claiming?
    ensures DoOp(w, a, op).answer == DoOp(w, b, op).answer
    ensures SameBallots(DoOp(w, a, op).histories, DoOp(w, b, op).histories)
  {
    hide DoCreate, DoVote, DoClose, SameBallots;
    match op
    case Create(request, clock) => CreateSame(w, a, b, request, clock);
    case Voting(p, request, clock) => VoteSame(w, a, b, p, request, clock);
    case Closing(p, request, clock) => CloseSame(w, a, b, p, request, clock);
  }

  // A claim acts on claims only.
  lemma ClaimKeepsBallots(w: World, hs: Histories, op: Op)
    requires op.Claiming?
    ensures SameBallots(DoOp(w, hs, op).histories, hs)
  {
    hide CheckClaim, CreditHashUsed, CreditLog, ClaimOf, BlindedHash, IsOpen;
  }

  // A claim looks at claims only, and a vote acts on ballots only.
  lemma ClaimsIgnoreBallots(w: World, a: Histories, b: Histories, op: Op)
    requires SameClaims(a, b) && op.Claiming?
    ensures DoOp(w, a, op).answer == DoOp(w, b, op).answer
    ensures SameClaims(DoOp(w, a, op).histories, DoOp(w, b, op).histories)
  {
    hide CheckClaim, CreditHashUsed, CreditLog, ClaimOf, BlindedHash;
    var p, request := op.p, op.claim;
    if p in a && CheckClaim(w, p, request).Ok? && w.blindSign(request.blindedMessage).Ok? {
      var issuance := Issuance(request.requestID, BlindedHash(w, request), w.blindSign(request.blindedMessage).value, w.eventDay(op.clock.stamp));
      var claims := a[p].claims + [Claimed(CheckClaim(w, p, request).value, issuance)];
      CreditHashesAgree(w, a, b, Last(CreditLog(w, p, claims)).eventHash);
    }
  }

  lemma VoteKeepsClaims(w: World, hs: Histories, op: Op)
    requires op.Voting?
    ensures SameClaims(DoOp(w, hs, op).histories, hs)
  {
    hide CheckBallot, LogHashUsed, CastLog, CastIndex, ReceiptAt, IsOpen;
  }

  lemma SameBallotsTransitive(a: Histories, b: Histories, c: Histories)
    requires SameBallots(a, b) && SameBallots(b, c)
    ensures SameBallots(a, c)
  {
  }

  lemma SameClaimsTransitive(a: Histories, b: Histories, c: Histories)
    requires SameClaims(a, b) && SameClaims(b, c)
    ensures SameClaims(a, c)
  {
  }

  /* Runs with operations left out */

  function WithoutClaims(ops: seq<Op>): seq<Op> {
    if ops == [] then [] else WithoutClaims(Init(ops)) + if Last(ops).Claiming? then [] else [Last(ops)]
  }

  function OnlyClaims(ops: seq<Op>): seq<Op> {
    if ops == [] then [] else OnlyClaims(Init(ops)) + if Last(ops).Claiming? then [Last(ops)] else []
  }

  // The replies to the operations that WithoutClaims, or OnlyClaims, keeps.
  function RepliesWithoutClaims(ops: seq<Op>, replies: seq<Reply>): seq<Reply>
    requires |ops| == |replies|
  {
    if ops == [] then [] else
    RepliesWithoutClaims(Init(ops), Init(replies)) + if Last(ops).Claiming? then [] else [Last(replies)]
  }

  function RepliesToClaims(ops: seq<Op>, replies: seq<Reply>): seq<Reply>
    requires |ops| == |replies|
  {
    if ops == [] then [] else
    RepliesToClaims(Init(ops), Init(replies)) + if Last(ops).Claiming? then [Last(replies)] else []
  }

  lemma RunOneMore(w: World, hs: Histories, ops: seq<Op>, op: Op)
    ensures After(w, hs, ops + [op]) == DoOp(w, After(w, hs, ops), op).histories
    ensures Replies(w, hs, ops + [op]) == Replies(w, hs, ops) + [DoOp(w, After(w, hs, ops), op).answer]
  {
    assert Init(ops + [op]) == ops;
  }

  /** Deleting every claim from any run leaves every ballot stream, its index, receipts, checkpoints and tally, and the
      reply to every other operation, as they were. */
  lemma {:induction false} ClaimsLeaveNoTrace(w: World, hs: Histories, ops: seq<Op>)
    ensures SameBallots(After(w, hs, ops), After(w, hs, WithoutClaims(ops)))
    ensures RepliesWithoutClaims(ops, Replies(w, hs, ops)) == Replies(w, hs, WithoutClaims(ops))
  {
    hide DoOp, SameBallots;
    if ops == [] {
      SameBallotsReflexive(hs);
    } else {
      var (init, op) := (Init(ops), Last(ops));
      var (full, thin) := (After(w, hs, init), After(w, hs, WithoutClaims(init)));
      ClaimsLeaveNoTrace(w, hs, init);
      assert ops == init + [op];
      RunOneMore(w, hs, init, op);
      assert Init(Replies(w, hs, ops)) == Replies(w, hs, init);
      if op.Claiming? {
        ClaimKeepsBallots(w, full, op);
        SameBallotsTransitive(DoOp(w, full, op).histories, full, thin);
        assert WithoutClaims(ops) == WithoutClaims(init);
      } else {
        OthersIgnoreClaims(w, full, thin, op);
        RunOneMore(w, hs, WithoutClaims(init), op);
      }
    }
  }

  lemma SameBallotsReflexive(hs: Histories)
    ensures SameBallots(hs, hs) && SameClaims(hs, hs)
  {
  }

  // The ballot tables are a function of what SameBallots compares.
  lemma BallotTablesAgree(w: World, a: Histories, b: Histories, p: string)
    requires SameBallots(a, b) && p in a
    ensures var (x, y) := (Render(w, a)[p], Render(w, b)[p]);
            y == x.(credits := y.credits, creditEvents := y.creditEvents)
  {
  }

  predicate ClaimsAndVotes(ops: seq<Op>) {
    forall i :: 0 <= i < |ops| ==> ops[i].Claiming? || ops[i].Voting?
  }

  lemma {:induction false} VotesLeaveNoTrace(w: World, hs: Histories, ops: seq<Op>)
    requires ClaimsAndVotes(ops)
    ensures SameClaims(After(w, hs, ops), After(w, hs, OnlyClaims(ops)))
    ensures RepliesToClaims(ops, Replies(w, hs, ops)) == Replies(w, hs, OnlyClaims(ops))
  {
    hide DoOp, SameClaims;
    if ops == [] {
      SameBallotsReflexive(hs);
    } else {
      var (init, op) := (Init(ops), Last(ops));
      var (full, thin) := (After(w, hs, init), After(w, hs, OnlyClaims(init)));
      VotesLeaveNoTrace(w, hs, init);
      assert ops == init + [op];
      RunOneMore(w, hs, init, op);
      assert Init(Replies(w, hs, ops)) == Replies(w, hs, init);
      if op.Claiming? {
        ClaimsIgnoreBallots(w, full, thin, op);
        RunOneMore(w, hs, OnlyClaims(init), op);
      } else {
        VoteKeepsClaims(w, full, op);
        SameClaimsTransitive(DoOp(w, full, op).histories, full, thin);
        assert OnlyClaims(ops) == OnlyClaims(init);
      }
    }
  }

  lemma SameBoth(a: Histories, b: Histories, c: Histories, v: Histories)
    requires SameClaims(a, c) && SameClaims(b, c) && SameBallots(a, v) && SameBallots(b, v)
    ensures a == b
  {
  }

  /** Two runs with the same claims in the same order and the same votes in the same order, interleaved in any two ways,
      end in identical tables and give identical replies to every claim and to every vote. */
  lemma InterleavingIrrelevant(w: World, hs: Histories, a: seq<Op>, b: seq<Op>)
    requires ClaimsAndVotes(a) && ClaimsAndVotes(b)
    requires OnlyClaims(a) == OnlyClaims(b) && WithoutClaims(a) == WithoutClaims(b)
    ensures After(w, hs, a) == After(w, hs, b)
    ensures RepliesToClaims(a, Replies(w, hs, a)) == RepliesToClaims(b, Replies(w, hs, b))
    ensures RepliesWithoutClaims(a, Replies(w, hs, a)) == RepliesWithoutClaims(b, Replies(w, hs, b))
  {
    hide DoOp, SameClaims, SameBallots;
    ClaimsLeaveNoTrace(w, hs, a);
    ClaimsLeaveNoTrace(w, hs, b);
    VotesLeaveNoTrace(w, hs, a);
    VotesLeaveNoTrace(w, hs, b);
    SameBoth(After(w, hs, a), After(w, hs, b), After(w, hs, OnlyClaims(a)), After(w, hs, WithoutClaims(a)));
  }

  /** So a whole run, from a creation through any mixture of claims and votes to whatever follows, has the same tables
      whichever way the mixture was interleaved. */
  lemma WholeRunsAgree(w: World, ops: seq<Op>, a: seq<Op>, b: seq<Op>, rest: seq<Op>)
    requires w.Honest() && ClaimsAndVotes(a) && ClaimsAndVotes(b)
    requires OnlyClaims(a) == OnlyClaims(b) && WithoutClaims(a) == WithoutClaims(b)
    ensures StepRun(w, map[], ops + a + rest).0 == StepRun(w, map[], ops + b + rest).0
  {
    hide w.Honest, DoOp, StepOp, AllValid, Render, After, Replies, StepRun, ClaimsAndVotes, OnlyClaims, WithoutClaims;
    EmptyValid(w);
    RunRefines(w, map[], ops + a + rest);
    RunRefines(w, map[], ops + b + rest);
    RunConcat(w, map[], ops + a, rest);
    RunConcat(w, map[], ops + b, rest);
    RunConcat(w, map[], ops, a);
    RunConcat(w, map[], ops, b);
    InterleavingIrrelevant(w, After(w, map[], ops), a, b);
  }

  /* The day is all that is kept of when a claim or a ballot came */

  /** Two claims, or two ballots, that differ only in when on one day they came, before or after the closing time alike, have the same answer
      and leave the same histories. */
  lemma OnlyTheDayIsKept(w: World, hs: Histories, p: string, claim: ClaimRequest, ballot: BallotRequest, a: Clock, b: Clock)
    requires w.eventDay(a.stamp) == w.eventDay(b.stamp)
    requires p in hs ==> IsOpen(w, hs[p], a.check) == IsOpen(w, hs[p], b.check)
    ensures DoClaim(w, hs, p, claim, a) == DoClaim(w, hs, p, claim, b)
    ensures DoVote(w, hs, p, ballot, a) == DoVote(w, hs, p, ballot, b)
  {
    hide CheckClaim, CreditHashUsed, CreditLog, ClaimOf, BlindedHash, IsOpen, CheckBallot, LogHashUsed, CastLog, CastIndex, ReceiptAt;
  }
}
