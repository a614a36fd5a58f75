/** Whole runs. An operation at the tables is the simple machine's operation at the histories, and
    any interleaving of calls that read first and commit later is the machine run in commit order. */
module Runs {
  import opened Wrappers
  import opened Artifacts
  import opened Store
  import opened Members
  import opened Sequencer
  import opened History
  import opened Refinement
  import opened Closing
  import opened Creation

  datatype Op =
    | Create(create: CreateRequest, clock: Clock)
    | Claiming(p: string, claim: ClaimRequest, clock: Clock)
    | Voting(p: string, ballot: BallotRequest, clock: Clock)
    | Closing(p: string, close: CloseRequest, clock: Clock)

  datatype Answer = PollAnswer(poll: Poll) | SignatureAnswer(signature: string) | ReceiptAnswer(receipt: Receipt)
                  | TallyAnswer(tally: Tally)

  // The answer and whether the call created something.
  type Reply = Result<(Answer, bool)>

  function OfPoll(r: Result<(Poll, bool)>): Reply {
    match r case Ok((x, created)) => Ok((PollAnswer(x), created)) case Err(code) => Err(code)
  }

  function OfSignature(r: Result<(string, bool)>): Reply {
    match r case Ok((x, created)) => Ok((SignatureAnswer(x), created)) case Err(code) => Err(code)
  }

  function OfReceipt(r: Result<(Receipt, bool)>): Reply {
    match r case Ok((x, created)) => Ok((ReceiptAnswer(x), created)) case Err(code) => Err(code)
  }

  function OfTally(r: Result<(Tally, bool)>): Reply {
    match r case Ok((x, created)) => Ok((TallyAnswer(x), created)) case Err(code) => Err(code)
  }

  // One operation of the simple machine.
  function DoOp(w: World, hs: Histories, op: Op): Outcome<(Answer, bool)> {
    match op
    case Create(request, clock) =>
      var out := DoCreate(w, hs, request, clock);
      Outcome(out.histories, OfPoll(out.answer))
    case Claiming(p, request, clock) =>
      var out := DoClaim(w, hs, p, request, clock);
      Outcome(out.histories, OfSignature(out.answer))
    case Voting(p, request, clock) =>
      var out := DoVote(w, hs, p, request, clock);
      Outcome(out.histories, OfReceipt(out.answer))
    case Closing(p, request, clock) =>
      var out := DoClose(w, hs, p, request, clock);
      Outcome(out.histories, OfTally(out.answer))
  }

  // The same operation on the tables, its read and its transaction back to back.
  function StepOp(w: World, db: Db, op: Op): Step<(Answer, bool)> {
    match op
    case Create(request, clock) =>
      var out := CreatePoll(w, db, request, clock);
      Step(out.db, OfPoll(out.answer))
    case Claiming(p, request, clock) =>
      var out := Claim(w, db, p, request, clock);
      Step(out.db, OfSignature(out.answer))
    case Voting(p, request, clock) =>
      var out := Vote(w, db, p, request, clock);
      Step(out.db, OfReceipt(out.answer))
    case Closing(p, request, clock) =>
      var out := Close(w, db, p, request, clock);
      Step(out.db, OfTally(out.answer))
  }

  lemma StepRefines(w: World, hs: Histories, op: Op)
    requires w.Honest() && AllValid(w, hs)
    ensures StepOp(w, Render(w, hs), op) == Step(Render(w, DoOp(w, hs, op).histories), DoOp(w, hs, op).answer)
  {
    hide Render, AllValid, w.Honest, CreatePoll, Claim, Vote, Close, DoCreate, DoClaim, DoVote, DoClose;
    match op
    case Create(request, clock) => CreateRefines(w, hs, request, clock);
    case Claiming(p, request, clock) => ClaimRefines(w, hs, p, request, clock);
    case Voting(p, request, clock) => VoteRefines(w, hs, p, request, clock);
    case Closing(p, request, clock) => CloseRefines(w, hs, p, request, clock);
  }

  /* What every operation keeps */

  lemma NewPollSigned(w: World, request: CreateRequest, members: seq<MemberKey>, now: int)
    requires w.Honest() && ValidateCreate(w, request, now) == Ok((members, Commitment(w, members)))
    ensures var poll := NewPoll(w, request, members, Commitment(w, members));
            DistinctChoices(poll.choices) ==> SignedByService(w, poll, members)
  {
  }

  lemma NewPollIdentified(w: World, request: CreateRequest, members: seq<MemberKey>, commitment: string)
    ensures var poll := NewPoll(w, request, members, commitment);
            poll.pollID == PollIDOf(w, request.requestID, poll)
  {
  }

  lemma CreateValid(w: World, hs: Histories, request: CreateRequest, clock: Clock)
    requires w.Honest() && AllValid(w, hs)
    ensures AllValid(w, DoCreate(w, hs, request, clock).histories)
  {
    hide ValidateCreate, NewPoll, SignedByService, GoodMembers, PollHashUsed, LogHashUsed, DistinctChoices, w.Honest, CreatedEvent,
         PollIDOf, ArtifactHash;
    HonestKeys(w);
    if ValidateCreate(w, request, clock.check).Ok? {
      var (members, commitment) := ValidateCreate(w, request, clock.check).value;
      ValidatedMembers(w, request, clock.check);
      NewPollSigned(w, request, members, clock.check);
      NewPollIdentified(w, request, members, commitment);
    }
  }

  lemma MemberFound(members: seq<MemberKey>, key: MemberKey)
    requires key in members
    ensures MemberIn(members, key.fingerprint)
  {
    var i :| 0 <= i < |members| && members[i] == key;
  }

  lemma ClaimsExtend(w: World, members: seq<MemberKey>, claims: seq<Claimed>, f: string, issuance: Issuance)
    requires GoodClaims(w, members, claims) && MemberIn(members, f) && ClaimOf(claims, f).None? && w.isRequestID(issuance.requestID)
    ensures GoodClaims(w, members, claims + [Claimed(f, issuance)])
  {
    hide MemberIn;
    ClaimOfSome(claims, f);
  }

  lemma RequestChecked(w: World, p: string, request: ClaimRequest)
    requires CheckClaim(w, p, request).Ok?
    ensures w.isRequestID(request.requestID)
  {
  }

  lemma ClaimValid(w: World, hs: Histories, p: string, request: ClaimRequest, clock: Clock)
    requires AllValid(w, hs)
    ensures AllValid(w, DoClaim(w, hs, p, request, clock).histories)
  {
    hide CheckClaim, SignedByService, GoodMembers, GoodCasts, GoodClaims, CreditHashUsed, IsOpen, CreditLog, ClaimOf, MemberIn;
    if CheckClaim(w, p, request).Ok? && p in hs {
      var f, h := CheckClaim(w, p, request).value, hs[p];
      RequestChecked(w, p, request);
      if MemberKey(request.sshPublicKey, f) in h.members && ClaimOf(h.claims, f).None? && w.blindSign(request.blindedMessage).Ok? {
        MemberFound(h.members, MemberKey(request.sshPublicKey, f));
        ClaimsExtend(w, h.members, h.claims, f,
                     Issuance(request.requestID, BlindedHash(w, request), w.blindSign(request.blindedMessage).value, w.eventDay(clock.stamp)));
      }
    }
  }

  lemma CastsExtend(w: World, poll: Poll, casts: seq<Cast>, cast: Cast)
    requires GoodCasts(w, poll, casts) && CheckBallot(w, poll, cast.ballot).Ok?
    requires CastIndex(w, casts, CheckBallot(w, poll, cast.ballot).value).None?
    ensures GoodCasts(w, poll, casts + [cast])
  {
    hide CheckBallot, CredentialHash;
    CheckedHash(w, poll, cast.ballot);
    CastIndexNone(w, casts, CredentialHash(w, cast.ballot.credential));
  }

  lemma VoteValid(w: World, hs: Histories, p: string, request: BallotRequest, clock: Clock)
    requires AllValid(w, hs)
    ensures AllValid(w, DoVote(w, hs, p, request, clock).histories)
  {
    hide CheckBallot, SignedByService, GoodMembers, GoodCasts, GoodClaims, LogHashUsed, IsOpen, CastLog, CastIndex, ReceiptAt;
    if p in hs && CheckBallot(w, hs[p].poll, request).Ok? {
      var h := hs[p];
      if CastIndex(w, h.casts, CheckBallot(w, h.poll, request).value).None? {
        CastsExtend(w, h.poll, h.casts, Cast(request, w.eventDay(clock.stamp)));
      }
    }
  }

  lemma TimesNonEmpty(w: World, t: int)
    requires w.Honest()
    ensures w.canonicalTime(t) != ""
  {
  }

  lemma CloseValid(w: World, hs: Histories, p: string, request: CloseRequest, clock: Clock)
    requires w.Honest() && AllValid(w, hs)
    ensures AllValid(w, DoClose(w, hs, p, request, clock).histories)
  {
    hide SignedByService, GoodMembers, GoodCasts, GoodClaims, LogHashUsed, Log, TallyOf, w.Honest;
    TimesNonEmpty(w, clock.stamp);
  }

  lemma OpValid(w: World, hs: Histories, op: Op)
    requires w.Honest() && AllValid(w, hs)
    ensures AllValid(w, DoOp(w, hs, op).histories)
  {
    hide AllValid, w.Honest, DoCreate, DoClaim, DoVote, DoClose;
    match op
    case Create(request, clock) => CreateValid(w, hs, request, clock);
    case Claiming(p, request, clock) => ClaimValid(w, hs, p, request, clock);
    case Voting(p, request, clock) => VoteValid(w, hs, p, request, clock);
    case Closing(p, request, clock) => CloseValid(w, hs, p, request, clock);
  }

  /* Runs */

  function After(w: World, hs: Histories, ops: seq<Op>): Histories {
    if ops == [] then hs else DoOp(w, After(w, hs, Init(ops)), Last(ops)).histories
  }

  function Replies(w: World, hs: Histories, ops: seq<Op>): (replies: seq<Reply>)
    ensures |replies| == |ops|
  {
    if ops == [] then [] else Replies(w, hs, Init(ops)) + [DoOp(w, After(w, hs, Init(ops)), Last(ops)).answer]
  }

  function StepRun(w: World, db: Db, ops: seq<Op>): (Db, seq<Reply>) {
    if ops == [] then (db, []) else
    var (before, replies) := StepRun(w, db, Init(ops));
    var step := StepOp(w, before, Last(ops));
    (step.db, replies + [step.answer])
  }

  lemma EmptyValid(w: World)
    ensures AllValid(w, map[]) && Render(w, map[]) == map[]
  {
  }

  lemma {:induction false} RunValid(w: World, hs: Histories, ops: seq<Op>)
    requires w.Honest() && AllValid(w, hs)
    ensures AllValid(w, After(w, hs, ops))
  {
    hide AllValid, w.Honest, DoOp;
    if ops != [] {
      RunValid(w, hs, Init(ops));
      OpValid(w, After(w, hs, Init(ops)), Last(ops));
    }
  }

  /** A run on the tables is the machine's run: the tables are those of its histories, the replies its replies. */
  lemma {:induction false} RunRefines(w: World, hs: Histories, ops: seq<Op>)
    requires w.Honest() && AllValid(w, hs)
    ensures StepRun(w, Render(w, hs), ops) == (Render(w, After(w, hs, ops)), Replies(w, hs, ops))
  {
    hide AllValid, w.Honest, DoOp, StepOp, Render;
    if ops != [] {
      RunRefines(w, hs, Init(ops));
      RunValid(w, hs, Init(ops));
      StepRefines(w, After(w, hs, Init(ops)), Last(ops));
    }
  }

  /* Histories only grow, and a closed one does not change at all */

  predicate Grows(h: History, later: History) {
    && later.requestID == h.requestID && later.poll == h.poll && later.members == h.members && later.createdAt == h.createdAt
    && h.claims <= later.claims && h.casts <= later.casts
    && (h.closedAt.Some? ==> later == h)
  }

  predicate Extends(hs: Histories, later: Histories) {
    forall p | p in hs :: p in later && Grows(hs[p], later[p])
  }

  lemma CreateExtends(w: World, hs: Histories, request: CreateRequest, clock: Clock)
    ensures Extends(hs, DoCreate(w, hs, request, clock).histories)
  {
    hide ValidateCreate, NewPoll, PollHashUsed, LogHashUsed, DistinctChoices, CreatedEvent, ArtifactHash;
  }

  lemma ClaimExtends(w: World, hs: Histories, p: string, request: ClaimRequest, clock: Clock)
    ensures Extends(hs, DoClaim(w, hs, p, request, clock).histories)
  {
    hide CheckClaim, CreditHashUsed, CreditLog, ClaimOf, BlindedHash;
  }

  lemma VoteExtends(w: World, hs: Histories, p: string, request: BallotRequest, clock: Clock)
    ensures Extends(hs, DoVote(w, hs, p, request, clock).histories)
  {
    hide CheckBallot, LogHashUsed, CastLog, CastIndex, ReceiptAt;
  }

  lemma CloseExtends(w: World, hs: Histories, p: string, request: CloseRequest, clock: Clock)
    ensures Extends(hs, DoClose(w, hs, p, request, clock).histories)
  {
    hide LogHashUsed, Log, TallyOf;
  }

  lemma OpExtends(w: World, hs: Histories, op: Op)
    ensures Extends(hs, DoOp(w, hs, op).histories)
  {
    hide Extends, DoCreate, DoClaim, DoVote, DoClose;
    match op
    case Create(request, clock) => CreateExtends(w, hs, request, clock);
    case Claiming(p, request, clock) => ClaimExtends(w, hs, p, request, clock);
    case Voting(p, request, clock) => VoteExtends(w, hs, p, request, clock);
    case Closing(p, request, clock) => CloseExtends(w, hs, p, request, clock);
  }

  lemma ExtendsTransitive(a: Histories, b: Histories, c: Histories)
    requires Extends(a, b) && Extends(b, c)
    ensures Extends(a, c)
  {
  }

  lemma {:induction false} RunExtends(w: World, hs: Histories, ops: seq<Op>)
    ensures Extends(hs, After(w, hs, ops))
  {
    hide DoOp;
    if ops != [] {
      RunExtends(w, hs, Init(ops));
      OpExtends(w, After(w, hs, Init(ops)), Last(ops));
      ExtendsTransitive(hs, After(w, hs, Init(ops)), After(w, hs, ops));
    }
  }

  lemma {:induction false} RunConcat(w: World, hs: Histories, first: seq<Op>, second: seq<Op>)
    ensures After(w, hs, first + second) == After(w, After(w, hs, first), second)
    decreases |second|
  {
    hide DoOp;
    if second == [] {
      assert first + second == first;
    } else {
      RunConcat(w, hs, first, Init(second));
      assert Init(first + second) == first + Init(second);
    }
  }

  /* Concurrent calls */

  // A call that has started: for Vote and ClosePoll, with the signed poll it read.
  datatype Pending = Pending(op: Op, read: Option<Poll>)

  datatype System = System(db: Db, pending: map<nat, Pending>)

  // Start reads and checks; Finish runs the transaction of a started call.
  datatype Event = Start(id: nat, op: Op) | Finish(id: nat)

  datatype Done = Done(op: Op, reply: Reply)

  // Everything a call does before its transaction: its reply if that ends it, what it read if not.
  function Begin(w: World, db: Db, op: Op): Result<Pending> {
    match op
    case Create(request, clock) => Ok(Pending(op, None))
    case Claiming(p, request, clock) => Ok(Pending(op, None))
    case Voting(p, request, clock) =>
      var poll :- SignedPoll(w, db, p);
      Ok(Pending(op, Some(poll)))
    case Closing(p, request, clock) =>
      var _ :- CheckClose(w, p, request);
      var poll :- SignedPoll(w, db, p);
      Ok(Pending(op, Some(poll)))
  }

  function Complete(w: World, db: Db, pending: Pending): Step<(Answer, bool)> {
    match pending.op
    case Create(request, clock) => StepOp(w, db, pending.op)
    case Claiming(p, request, clock) => StepOp(w, db, pending.op)
    case Voting(p, request, clock) =>
      (match pending.read
       case None => StepOp(w, db, pending.op)
       case Some(poll) =>
         var out := VoteCommit(w, db, p, poll, request, clock);
         Step(out.db, OfReceipt(out.answer)))
    case Closing(p, request, clock) =>
      (match pending.read
       case None => StepOp(w, db, pending.op)
       case Some(poll) =>
         var out := CloseCommit(w, db, p, poll, w.canonicalTime(clock.stamp));
         Step(out.db, OfTally(out.answer)))
  }

  function Micro(w: World, s: System, e: Event): (System, seq<Done>) {
    match e
    case Start(id, op) =>
      if id in s.pending then (s, []) else
      (match Begin(w, s.db, op)
       case Ok(pending) => (s.(pending := s.pending[id := pending]), [])
       case Err(code) => (s, [Done(op, Err(code))]))
    case Finish(id) =>
      if id !in s.pending then (s, []) else
      var step := Complete(w, s.db, s.pending[id]);
      (System(step.db, s.pending - {id}), [Done(s.pending[id].op, step.answer)])
  }

  // A schedule, and the calls it completes in the order they commit.
  function Play(w: World, s: System, schedule: seq<Event>): (System, seq<Done>) {
    if schedule == [] then (s, []) else
    var (before, done) := Play(w, s, Init(schedule));
    var (after, more) := Micro(w, before, Last(schedule));
    (after, done + more)
  }

  function OpsOf(done: seq<Done>): (ops: seq<Op>)
    ensures |ops| == |done|
  {
    seq(|done|, i requires 0 <= i < |done| => done[i].op)
  }

  function RepliesOf(done: seq<Done>): (replies: seq<Reply>)
    ensures |replies| == |done|
  {
    seq(|done|, i requires 0 <= i < |done| => done[i].reply)
  }

  // What a pending call read is still what it would read.
  ghost predicate ReadsCurrent(w: World, hs: Histories, pending: Pending) {
    match pending.op
    case Create(_, _) => pending.read.None?
    case Claiming(_, _, _) => pending.read.None?
    case Voting(p, _, _) => p in hs && pending.read == Some(hs[p].poll)
    case Closing(p, request, _) => CheckClose(w, p, request).Ok? && p in hs && pending.read == Some(hs[p].poll)
  }

  ghost predicate AllCurrent(w: World, hs: Histories, pending: map<nat, Pending>) {
    forall id | id in pending :: ReadsCurrent(w, hs, pending[id])
  }

  // A read taken earlier is still current after any operation: a poll's artifact never changes.
  lemma CurrentStays(w: World, hs: Histories, later: Histories, pending: map<nat, Pending>)
    requires AllCurrent(w, hs, pending) && Extends(hs, later)
    ensures AllCurrent(w, later, pending)
  {
  }

  lemma BeginReads(w: World, hs: Histories, op: Op)
    requires w.Honest() && AllValid(w, hs)
    ensures var began := Begin(w, Render(w, hs), op);
            match began
            case Ok(pending) => pending.op == op && ReadsCurrent(w, hs, pending)
            case Err(code) => DoOp(w, hs, op) == Outcome(hs, Err(code))
  {
    hide Render, AllValid, w.Honest, SignedPoll, DoClaim, DoCreate;
    if op.Voting? || op.Closing? { SignedPollReads(w, hs, op.p); }
  }

  lemma CompleteRefines(w: World, hs: Histories, pending: Pending)
    requires w.Honest() && AllValid(w, hs) && ReadsCurrent(w, hs, pending)
    ensures var out := DoOp(w, hs, pending.op);
            Complete(w, Render(w, hs), pending) == Step(Render(w, out.histories), out.answer)
  {
    hide Render, AllValid, w.Honest, StepOp, VoteCommit, CloseCommit, DoCreate, DoClaim, DoVote, DoClose;
    match pending.op
    case Create(request, clock) => StepRefines(w, hs, pending.op);
    case Claiming(p, request, clock) => StepRefines(w, hs, pending.op);
    case Voting(p, request, clock) => VoteCommitRefines(w, hs, p, request, clock);
    case Closing(p, request, clock) =>
      CloseCommitRefines(w, hs, p, request, clock);
  }

  lemma OneMore(w: World, hs: Histories, done: seq<Done>, more: Done)
    ensures OpsOf(done + [more]) == OpsOf(done) + [more.op] && RepliesOf(done + [more]) == RepliesOf(done) + [more.reply]
    ensures After(w, hs, OpsOf(done + [more])) == DoOp(w, After(w, hs, OpsOf(done)), more.op).histories
    ensures Replies(w, hs, OpsOf(done + [more])) == Replies(w, hs, OpsOf(done)) + [DoOp(w, After(w, hs, OpsOf(done)), more.op).answer]
  {
  }

  lemma MicroRefines(w: World, hs: Histories, s: System, e: Event)
    requires w.Honest() && AllValid(w, hs) && s.db == Render(w, hs) && AllCurrent(w, hs, s.pending)
    ensures var (after, done) := Micro(w, s, e);
            (done == [] && after.db == s.db && AllCurrent(w, hs, after.pending))
            || (&& |done| == 1
                && done[0].reply == DoOp(w, hs, done[0].op).answer
                && after.db == Render(w, DoOp(w, hs, done[0].op).histories)
                && AllCurrent(w, DoOp(w, hs, done[0].op).histories, after.pending))
  {
    hide Render, AllValid, w.Honest, Begin, Complete, DoOp, Extends, ReadsCurrent;
    match e
    case Start(id, op) =>
      BeginReads(w, hs, op);
    case Finish(id) =>
      if id in s.pending {
        var op := s.pending[id].op;
        CompleteRefines(w, hs, s.pending[id]);
        OpExtends(w, hs, op);
        CurrentStays(w, hs, DoOp(w, hs, op).histories, s.pending);
      }
  }

  /** Every interleaving of concurrent calls, each reading before its transaction, gives the tables
      and the replies of running the completed calls one after another in commit order. */
  lemma {:induction false} Serialises(w: World, hs: Histories, schedule: seq<Event>)
    requires w.Honest() && AllValid(w, hs)
    ensures var (s, done) := Play(w, System(Render(w, hs), map[]), schedule);
            && s.db == Render(w, After(w, hs, OpsOf(done)))
            && RepliesOf(done) == Replies(w, hs, OpsOf(done))
            && AllCurrent(w, After(w, hs, OpsOf(done)), s.pending)
  {
    hide Render, AllValid, w.Honest, Micro, DoOp, AllCurrent;
    var start := System(Render(w, hs), map[]);
    if schedule == [] {
      assert OpsOf([]) == [] && RepliesOf([]) == [];
      assert AllCurrent(w, hs, map[]) by { NothingPending(w, hs); }
    } else {
      Serialises(w, hs, Init(schedule));
      var (before, done) := Play(w, start, Init(schedule));
      var (after, more) := Micro(w, before, Last(schedule));
      RunValid(w, hs, OpsOf(done));
      MicroRefines(w, After(w, hs, OpsOf(done)), before, Last(schedule));
      if more == [] {
        assert done + more == done;
      } else {
        assert more == [more[0]];
        OneMore(w, hs, done, more[0]);
      }
    }
  }

  lemma NothingPending(w: World, hs: Histories)
    ensures AllCurrent(w, hs, map[])
  {
  }
}
