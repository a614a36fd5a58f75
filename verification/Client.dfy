/** The vote command of internal/cli/sequencercmd/commands.go as a crash-recovery protocol: save the state file, claim, vote,
    save the receipt, remove the state file. A process may stop between any two steps, a request may be processed late or
    more than once, a reply may be late or lost, and other clients go on meanwhile. One process at a time uses a key. */
module Client {
  import opened Wrappers
  import opened Artifacts
  import opened Store
  import opened Sequencer
  import opened History
  import opened Refinement
  import opened Runs
  import opened Safety
  import opened Audit
  import opened Completeness
  import opened Soundness

  // voteState: the request id, the blinded message, and the secret Finalize needs.
  datatype VoteState = VoteState(pollURL: string, pollID: string, requestID: string, blindedMessage: string, secret: string)

  /** What stays the same for one voter: the poll, the key, and blind.Finalize of a saved state and a blind signature. */
  datatype Voter = Voter(pollURL: string, p: string, publicKey: string, sshSign: string -> string,
                         finalize: (VoteState, string) -> Option<Credential>)

  // Where the process is; every phase but Idle holds the state that was loaded or created.
  datatype Phase =
    | Idle
    | Loaded(state: VoteState, choiceID: string)
    | AwaitSignature(state: VoteState, choiceID: string)
    | Holding(state: VoteState, ballot: BallotRequest)
    | AwaitReceipt(state: VoteState, ballot: BallotRequest)
    | HasReceipt(state: VoteState, receipt: Receipt)
    | Written(state: VoteState)

  /** The server, this voter's files, every request the voter has sent, every successful reply the server has made to one,
      and the process. */
  datatype Site = Site(hs: Histories, file: Option<VoteState>, receipts: seq<Receipt>, claims: set<VoteState>, votes: set<BallotRequest>,
                       signatures: set<(VoteState, string)>, recorded: set<(BallotRequest, Receipt)>, phase: Phase)

  datatype Move =
    | Begin(choiceID: string, created: VoteState)
    | SendClaim
    | ServeClaim(claim: VoteState, clock: Clock)
    | TakeSignature(signature: string)
    | SendVote
    | ServeVote(vote: BallotRequest, clock: Clock)
    | TakeReceipt(answer: Receipt)
    | WriteReceipt
    | RemoveState
    | Crash
    | Other(op: Op)

  // The claim of a state, signed by the voter's SSH agent.
  function ClaimRequestOf(w: World, v: Voter, state: VoteState): ClaimRequest {
    var unsigned := ClaimRequest(v.publicKey, state.requestID, state.blindedMessage, "");
    unsigned.(sshsig := v.sshSign(ClaimMessage(w, v.p, unsigned)))
  }

  predicate Matches(v: Voter, state: VoteState) {
    state.pollURL == v.pollURL && state.pollID == v.p
  }

  // A new state has a request id that was never sent, and is for this poll.
  predicate Fresh(v: Voter, s: Site, state: VoteState) {
    Matches(v, state) && forall c | c in s.claims :: c.requestID != state.requestID
  }

  // Whether another client's operation leaves this key alone.
  predicate LeavesKey(w: World, v: Voter, op: Op) {
    op.Claiming? && op.p == v.p ==> CheckClaim(w, op.p, op.claim).Err? || Some(CheckClaim(w, op.p, op.claim).value) != FingerprintOf(w, v)
  }

  function FingerprintOf(w: World, v: Voter): Option<string> {
    match w.ssh.parse(v.publicKey)
    case None => None
    case Some(key) => Some(w.ssh.fingerprint(key))
  }

  // Which moves are possible.
  predicate Enabled(w: World, v: Voter, s: Site, m: Move) {
    match m
    case Begin(choiceID, created) => s.phase.Idle? && (s.file.None? ==> Fresh(v, s, created)) && (s.file.Some? ==> Matches(v, s.file.value))
    case SendClaim => s.phase.Loaded?
    case ServeClaim(claim, clock) => claim in s.claims
    case TakeSignature(signature) =>
      s.phase.AwaitSignature? && (s.phase.state, signature) in s.signatures && v.finalize(s.phase.state, signature).Some?
    case SendVote => s.phase.Holding?
    case ServeVote(vote, clock) => vote in s.votes
    case TakeReceipt(answer) =>
      s.phase.AwaitReceipt? && v.p in s.hs && ReceiptForBallot(w, s.hs[v.p].poll, s.phase.ballot, answer).Ok?
    case WriteReceipt => s.phase.HasReceipt?
    case RemoveState => s.phase.Written?
    case Crash => true
    case Other(op) => LeavesKey(w, v, op)
  }

  function Next(w: World, v: Voter, s: Site, m: Move): Site
    requires Enabled(w, v, s, m)
  {
    match m
    case Begin(choiceID, created) =>
      var state := if s.file.Some? then s.file.value else created;
      s.(file := Some(state), phase := Loaded(state, choiceID))
    case SendClaim => s.(claims := s.claims + {s.phase.state}, phase := AwaitSignature(s.phase.state, s.phase.choiceID))
    case ServeClaim(claim, clock) =>
      var out := DoClaim(w, s.hs, v.p, ClaimRequestOf(w, v, claim), clock);
      s.(hs := out.histories, signatures := if out.answer.Ok? then s.signatures + {(claim, out.answer.value.0)} else s.signatures)
    case TakeSignature(signature) =>
      s.(phase := Holding(s.phase.state, BallotRequest(v.finalize(s.phase.state, signature).value, s.phase.choiceID)))
    case SendVote => s.(votes := s.votes + {s.phase.ballot}, phase := AwaitReceipt(s.phase.state, s.phase.ballot))
    case ServeVote(vote, clock) =>
      var out := DoVote(w, s.hs, v.p, vote, clock);
      s.(hs := out.histories, recorded := if out.answer.Ok? then s.recorded + {(vote, out.answer.value.0)} else s.recorded)
    case TakeReceipt(answer) => s.(phase := HasReceipt(s.phase.state, answer))
    case WriteReceipt => s.(receipts := s.receipts + [s.phase.receipt], phase := Written(s.phase.state))
    case RemoveState => s.(file := None, phase := Idle)
    case Crash => s.(phase := Idle)
    case Other(op) => s.(hs := DoOp(w, s.hs, op).histories)
  }

  /* The invariant */

  // The server's claim for the voter's key.
  function ServerClaim(w: World, v: Voter, hs: Histories): Option<Issuance> {
    match FingerprintOf(w, v)
    case None => None
    case Some(f) => if v.p in hs then ClaimOf(hs[v.p].claims, f) else None
  }

  // The claim held is the one this state makes, with the signature of its blinded message, so that making it again gives the same.
  predicate HoldsFor(w: World, v: Voter, hs: Histories, state: VoteState, held: Issuance) {
    Issued(w, hs, v.p, ClaimRequestOf(w, v, state), held.blindSignature) && w.blindSign(state.blindedMessage) == Ok(held.blindSignature)
  }

  /** The promise: if the server holds a claim of this key, the voter can go on from the state file, or has a receipt. */
  predicate NotStranded(w: World, v: Voter, s: Site) {
    ServerClaim(w, v, s.hs).Some? ==>
      s.receipts != [] || (s.file.Some? && HoldsFor(w, v, s.hs, s.file.value, ServerClaim(w, v, s.hs).value))
  }

  predicate PhaseFits(w: World, v: Voter, s: Site) {
    && (!s.phase.Idle? ==> s.file == Some(s.phase.state))
    && (s.phase.Holding? ==> FromSignature(v, s, s.phase.ballot.credential))
    && (s.phase.AwaitReceipt? ==> s.phase.ballot in s.votes)
    && (s.phase.HasReceipt? ==> OfSentBallot(w, v, s, s.phase.receipt))
    && (s.phase.Written? ==> s.receipts != [])
  }

  predicate FromSignature(v: Voter, s: Site, credential: Credential) {
    exists pair | pair in s.signatures :: v.finalize(pair.0, pair.1) == Some(credential)
  }

  // The receipt passes VerifyReceiptForBallot for a ballot the voter sent.
  predicate OfSentBallot(w: World, v: Voter, s: Site, receipt: Receipt) {
    v.p in s.hs && exists vote | vote in s.votes :: ReceiptForBallot(w, s.hs[v.p].poll, vote, receipt).Ok?
  }

  // The server made this receipt.
  predicate FromServer(s: Site, receipt: Receipt) {
    exists pair | pair in s.recorded :: pair.1 == receipt
  }

  predicate DistinctRequests(s: Site) {
    && (forall a, b | a in s.claims && b in s.claims :: a.requestID == b.requestID ==> a == b)
    && (forall a | a in s.claims :: s.receipts != [] || s.file == Some(a))
    && (s.file.Some? ==> forall a | a in s.claims :: a.requestID == s.file.value.requestID ==> a == s.file.value)
  }

  predicate RepliesTrue(w: World, v: Voter, s: Site) {
    && (forall pair | pair in s.signatures :: pair.0 in s.claims && Issued(w, s.hs, v.p, ClaimRequestOf(w, v, pair.0), pair.1))
    && (forall pair | pair in s.recorded :: pair.0 in s.votes && Recorded(w, s.hs, v.p, pair.0, pair.1))
  }

  predicate SentFits(w: World, v: Voter, s: Site) {
    && (forall vote | vote in s.votes :: FromSignature(v, s, vote.credential))
    && (forall i :: 0 <= i < |s.receipts| ==> OfSentBallot(w, v, s, s.receipts[i]))
  }

  ghost predicate Inv(w: World, v: Voter, s: Site) {
    && AllValid(w, s.hs)
    && NotStranded(w, v, s) && PhaseFits(w, v, s) && DistinctRequests(s) && RepliesTrue(w, v, s) && SentFits(w, v, s)
  }

  /* Starting out */

  // A voter who has done nothing, and whose key has claimed nothing.
  ghost predicate Initial(w: World, v: Voter, s: Site) {
    && AllValid(w, s.hs) && ServerClaim(w, v, s.hs).None?
    && s.file.None? && s.receipts == [] && s.claims == {} && s.votes == {} && s.signatures == {} && s.recorded == {} && s.phase.Idle?
  }

  lemma InitialInv(w: World, v: Voter, s: Site)
    requires Initial(w, v, s)
    ensures Inv(w, v, s)
  {
  }

  /* Moves of the server */

  lemma RepliesStay(w: World, v: Voter, s: Site, later: Histories)
    requires RepliesTrue(w, v, s) && Extends(s.hs, later) && AllValid(w, later)
    ensures RepliesTrue(w, v, s.(hs := later))
  {
    hide AllValid, Extends, Issued, Recorded;
    forall pair | pair in s.signatures ensures Issued(w, later, v.p, ClaimRequestOf(w, v, pair.0), pair.1) {
      IssuedStays(w, s.hs, later, v.p, ClaimRequestOf(w, v, pair.0), pair.1);
    }
    forall pair | pair in s.recorded ensures Recorded(w, later, v.p, pair.0, pair.1) {
      RecordedStays(w, s.hs, later, v.p, pair.0, pair.1);
    }
  }

  lemma {:induction false} ClaimOfAppend(claims: seq<Claimed>, claim: Claimed, f: string)
    ensures ClaimOf(claims + [claim], f) == if claim.fingerprint == f then Some(claim.issuance) else ClaimOf(claims, f)
  {
    assert Init(claims + [claim]) == claims && Last(claims + [claim]) == claim;
  }

  lemma HoldingStays(w: World, v: Voter, s: Site, later: Histories)
    requires NotStranded(w, v, s) && Extends(s.hs, later) && AllValid(w, later) && ServerClaim(w, v, later) == ServerClaim(w, v, s.hs)
    ensures NotStranded(w, v, s.(hs := later))
  {
  }

  // Only claims change claims.
  lemma OthersKeepClaims(w: World, hs: Histories, op: Op, p: string)
    requires !op.Claiming?
    ensures var later := DoOp(w, hs, op).histories;
            if p in hs then p in later && later[p].claims == hs[p].claims else p in later ==> later[p].claims == []
  {
    hide CheckBallot, LogHashUsed, PollHashUsed, CastLog, Log, CastIndex, ReceiptAt, TallyOf, ValidateCreate, NewPoll, CreatedEvent,
         DistinctChoices, IsOpen, CheckClose, ArtifactHash;
  }

  // Other clients' operations do not touch this key's claim.
  lemma OtherKeepsClaim(w: World, v: Voter, hs: Histories, op: Op)
    requires LeavesKey(w, v, op)
    ensures ServerClaim(w, v, DoOp(w, hs, op).histories) == ServerClaim(w, v, hs)
  {
    hide CheckClaim, CreditHashUsed, CreditLog, BlindedHash, IsOpen, ClaimOf, DoCreate, DoVote, DoClose;
    NoClaimYet();
    if !op.Claiming? {
      OthersKeepClaims(w, hs, op, v.p);
    } else if op.p in hs && CheckClaim(w, op.p, op.claim).Ok? && FingerprintOf(w, v).Some? && w.blindSign(op.claim.blindedMessage).Ok? {
      ClaimOfAppend(hs[op.p].claims,
        Claimed(CheckClaim(w, op.p, op.claim).value,
                Issuance(op.claim.requestID, BlindedHash(w, op.claim), w.blindSign(op.claim.blindedMessage).value, w.eventDay(op.clock.stamp))),
        FingerprintOf(w, v).value);
    }
  }

  lemma NoClaimYet()
    ensures forall f :: ClaimOf([], f).None?
  {
  }

  // A claim the voter sent leaves the server holding nothing, what it held, or exactly that claim.
  lemma ServedClaim(w: World, v: Voter, hs: Histories, state: VoteState, clock: Clock)
    ensures var later := DoClaim(w, hs, v.p, ClaimRequestOf(w, v, state), clock).histories;
            ServerClaim(w, v, later) == ServerClaim(w, v, hs)
            || (ServerClaim(w, v, later).Some? && HoldsFor(w, v, later, state, ServerClaim(w, v, later).value))
  {
    hide CreditHashUsed, CreditLog, BlindedHash, IsOpen, ClaimOf;
    var request := ClaimRequestOf(w, v, state);
    if v.p in hs && CheckClaim(w, v.p, request).Ok? && w.blindSign(request.blindedMessage).Ok? {
      ClaimOfAppend(hs[v.p].claims,
        Claimed(CheckClaim(w, v.p, request).value,
                Issuance(request.requestID, BlindedHash(w, request), w.blindSign(request.blindedMessage).value, w.eventDay(clock.stamp))),
        FingerprintOf(w, v).value);
    }
  }

  lemma VotesKeepClaim(w: World, v: Voter, hs: Histories, vote: BallotRequest, clock: Clock)
    ensures ServerClaim(w, v, DoVote(w, hs, v.p, vote, clock).histories) == ServerClaim(w, v, hs)
  {
    OtherKeepsClaim(w, v, hs, Voting(v.p, vote, clock));
  }

  /* Every move keeps the invariant */

  lemma ServeClaimKeeps(w: World, v: Voter, s: Site, m: Move)
    requires w.Honest() && Inv(w, v, s) && Enabled(w, v, s, m) && m.ServeClaim?
    ensures Inv(w, v, Next(w, v, s, m))
  {
    hide w.Honest, AllValid, DoClaim, Issued, Recorded, ServerClaim, HoldsFor, Extends, PhaseFits, SentFits, SamePoll;
    var (claim, clock) := (m.claim, m.clock);
    var request := ClaimRequestOf(w, v, claim);
    var out := DoClaim(w, s.hs, v.p, request, clock);
    ClaimValid(w, s.hs, v.p, request, clock);
    OpExtends(w, s.hs, Claiming(v.p, request, clock));
    RepliesStay(w, v, s, out.histories);
    ServedClaim(w, v, s.hs, claim, clock);
    if ServerClaim(w, v, out.histories) == ServerClaim(w, v, s.hs) { HoldingStays(w, v, s, out.histories); }
    if out.answer.Ok? { ClaimRecorded(w, s.hs, v.p, request, clock); }
    PollStays(s.hs, Next(w, v, s, m).hs, v.p);
    MoreReplies(w, v, s, Next(w, v, s, m));
  }

  predicate SamePoll(hs: Histories, later: Histories, p: string) {
    p in hs ==> p in later && later[p].poll == hs[p].poll
  }

  lemma PollStays(hs: Histories, later: Histories, p: string)
    requires Extends(hs, later)
    ensures SamePoll(hs, later, p)
  {
  }

  // What was backed by a reply still is when there are more replies.
  lemma MoreReplies(w: World, v: Voter, s: Site, later: Site)
    requires PhaseFits(w, v, s) && SentFits(w, v, s) && s.signatures <= later.signatures && s.recorded <= later.recorded
    requires later.file == s.file && later.receipts == s.receipts && later.votes == s.votes && later.phase == s.phase
    requires SamePoll(s.hs, later.hs, v.p)
    ensures PhaseFits(w, v, later) && SentFits(w, v, later)
  {
  }

  lemma ServeVoteKeeps(w: World, v: Voter, s: Site, m: Move)
    requires w.Honest() && Inv(w, v, s) && Enabled(w, v, s, m) && m.ServeVote?
    ensures Inv(w, v, Next(w, v, s, m))
  {
    hide w.Honest, AllValid, DoVote, Issued, Recorded, ServerClaim, HoldsFor, Extends, PhaseFits, SentFits, SamePoll;
    var (vote, clock) := (m.vote, m.clock);
    var out := DoVote(w, s.hs, v.p, vote, clock);
    VoteValid(w, s.hs, v.p, vote, clock);
    OpExtends(w, s.hs, Voting(v.p, vote, clock));
    RepliesStay(w, v, s, out.histories);
    VotesKeepClaim(w, v, s.hs, vote, clock);
    HoldingStays(w, v, s, out.histories);
    if out.answer.Ok? { VoteRecorded(w, s.hs, v.p, vote, clock); }
    PollStays(s.hs, Next(w, v, s, m).hs, v.p);
    MoreReplies(w, v, s, Next(w, v, s, m));
  }

  lemma OtherKeeps(w: World, v: Voter, s: Site, m: Move)
    requires w.Honest() && Inv(w, v, s) && Enabled(w, v, s, m) && m.Other?
    ensures Inv(w, v, Next(w, v, s, m))
  {
    hide w.Honest, AllValid, DoOp, Issued, Recorded, ServerClaim, HoldsFor, Extends, LeavesKey;
    var op := m.op;
    OpValid(w, s.hs, op);
    OpExtends(w, s.hs, op);
    RepliesStay(w, v, s, DoOp(w, s.hs, op).histories);
    OtherKeepsClaim(w, v, s.hs, op);
    HoldingStays(w, v, s, DoOp(w, s.hs, op).histories);
    PollStays(s.hs, Next(w, v, s, m).hs, v.p);
    MoreReplies(w, v, s, Next(w, v, s, m));
  }

  // The voter's own moves change no table.
  predicate Own(m: Move) {
    !m.ServeClaim? && !m.ServeVote? && !m.Other?
  }

  lemma OwnReplies(w: World, v: Voter, s: Site, m: Move)
    requires RepliesTrue(w, v, s) && NotStranded(w, v, s) && PhaseFits(w, v, s) && Enabled(w, v, s, m) && Own(m)
    ensures RepliesTrue(w, v, Next(w, v, s, m)) && NotStranded(w, v, Next(w, v, s, m))
  {
    hide Issued, Recorded, ServerClaim, ReceiptForBallot, FromSignature, OfSentBallot;
  }

  lemma OwnRequests(w: World, v: Voter, s: Site, m: Move)
    requires DistinctRequests(s) && PhaseFits(w, v, s) && Enabled(w, v, s, m) && Own(m)
    ensures DistinctRequests(Next(w, v, s, m))
  {
    hide ReceiptForBallot, FromSignature, OfSentBallot;
  }

  lemma OwnBacking(w: World, v: Voter, s: Site, m: Move)
    requires SentFits(w, v, s) && PhaseFits(w, v, s) && Enabled(w, v, s, m) && Own(m)
    ensures SentFits(w, v, Next(w, v, s, m)) && PhaseFits(w, v, Next(w, v, s, m))
  {
    hide ReceiptForBallot;
  }

  lemma OwnMoveKeeps(w: World, v: Voter, s: Site, m: Move)
    requires Inv(w, v, s) && Enabled(w, v, s, m) && Own(m)
    ensures Inv(w, v, Next(w, v, s, m))
  {
    hide AllValid, NotStranded, PhaseFits, DistinctRequests, RepliesTrue, SentFits, ReceiptForBallot;
    OwnReplies(w, v, s, m);
    OwnRequests(w, v, s, m);
    OwnBacking(w, v, s, m);
  }

  lemma MoveKeeps(w: World, v: Voter, s: Site, m: Move)
    requires w.Honest() && Inv(w, v, s) && Enabled(w, v, s, m)
    ensures Inv(w, v, Next(w, v, s, m))
  {
    hide w.Honest, Inv, Next, Enabled;
    match m
    case ServeClaim(_, _) => ServeClaimKeeps(w, v, s, m);
    case ServeVote(_, _) => ServeVoteKeeps(w, v, s, m);
    case Other(_) => OtherKeeps(w, v, s, m);
    case _ => OwnMoveKeeps(w, v, s, m);
  }

  /* Runs */

  // The sites that some sequence of possible moves leads to.
  predicate Moves(w: World, v: Voter, sites: seq<Site>, moves: seq<Move>) {
    |sites| == |moves| + 1 &&
    forall i :: 0 <= i < |moves| ==> Enabled(w, v, sites[i], moves[i]) && sites[i + 1] == Next(w, v, sites[i], moves[i])
  }

  lemma {:induction false} RunKeeps(w: World, v: Voter, sites: seq<Site>, moves: seq<Move>, k: nat)
    requires w.Honest() && Moves(w, v, sites, moves) && Initial(w, v, sites[0]) && k < |sites|
    ensures Inv(w, v, sites[k])
  {
    hide w.Honest, Inv, Next, Enabled, Initial;
    if k == 0 {
      InitialInv(w, v, sites[0]);
    } else {
      RunKeeps(w, v, sites, moves, k - 1);
      assert Enabled(w, v, sites[k - 1], moves[k - 1]);
      MoveKeeps(w, v, sites[k - 1], moves[k - 1]);
    }
  }

  /* What the invariant gives */

  lemma SameState(w: World, v: Voter, s: Site, a: (VoteState, string), b: (VoteState, string))
    requires Inv(w, v, s) && a in s.signatures && b in s.signatures
    ensures a == b
  {
    hide AllValid, NotStranded, PhaseFits, SentFits, Recorded, BlindedHash;
    assert Issued(w, s.hs, v.p, ClaimRequestOf(w, v, a.0), a.1) && Issued(w, s.hs, v.p, ClaimRequestOf(w, v, b.0), b.1);
    SameFingerprint(w, v.p, ClaimRequestOf(w, v, a.0), ClaimRequestOf(w, v, b.0));
  }

  lemma SameFingerprint(w: World, p: string, a: ClaimRequest, b: ClaimRequest)
    requires a.sshPublicKey == b.sshPublicKey && CheckClaim(w, p, a).Ok? && CheckClaim(w, p, b).Ok?
    ensures CheckClaim(w, p, a) == CheckClaim(w, p, b)
  {
  }

  // Every ballot the voter ever sends is of one credential.
  lemma OneCredential(w: World, v: Voter, s: Site, a: BallotRequest, b: BallotRequest)
    requires Inv(w, v, s) && a in s.votes && b in s.votes
    ensures a.credential == b.credential
  {
    hide AllValid, NotStranded, PhaseFits, DistinctRequests, RepliesTrue;
    assert FromSignature(v, s, a.credential) && FromSignature(v, s, b.credential);
    var x :| x in s.signatures && v.finalize(x.0, x.1) == Some(a.credential);
    var y :| y in s.signatures && v.finalize(y.0, y.1) == Some(b.credential);
    SameState(w, v, s, x, y);
  }

  // The server answers one credential with one receipt.
  lemma OneReceipt(w: World, hs: Histories, p: string, a: BallotRequest, b: BallotRequest, x: Receipt, y: Receipt)
    requires Recorded(w, hs, p, a, x) && Recorded(w, hs, p, b, y) && a.credential == b.credential
    ensures a == b && x == y
  {
    hide CheckBallot, CredentialHash, ReceiptAt;
  }

  /** Over every run, with crashes, lost and late messages anywhere and any receipts delivered: a claimed key is never stranded; at most
      one of the ballots the voter sent is ever recorded; and all the saved receipts that the server made are equal. */
  lemma CrashSafe(w: World, v: Voter, sites: seq<Site>, moves: seq<Move>, k: nat)
    requires w.Honest() && Moves(w, v, sites, moves) && Initial(w, v, sites[0]) && k < |sites|
    ensures NotStranded(w, v, sites[k])
    ensures forall a, b :: FromServer(sites[k], a) && FromServer(sites[k], b) ==> a == b
    ensures v.p in sites[k].hs ==>
              var casts := sites[k].hs[v.p].casts;
              forall i, j :: 0 <= i < j < |casts| ==> !(casts[i].ballot in sites[k].votes && casts[j].ballot in sites[k].votes)
  {
    hide w.Honest, Enabled, Next, Moves, Initial, NotStranded, PhaseFits, DistinctRequests, RepliesTrue, SentFits, AllValid;
    RunKeeps(w, v, sites, moves, k);
    var s := sites[k];
    ReceiptsEqual(w, v, s);
    if v.p in s.hs {
      ValidAt(w, s.hs, v.p);
      BallotsApart(w, v, s);
    }
  }

  // The server makes one receipt at most for this voter.
  lemma ReceiptsEqual(w: World, v: Voter, s: Site)
    requires Inv(w, v, s)
    ensures forall a, b :: FromServer(s, a) && FromServer(s, b) ==> a == b
  {
    hide AllValid, NotStranded, PhaseFits, DistinctRequests, Issued, Recorded, FromSignature;
    forall a, b | FromServer(s, a) && FromServer(s, b) ensures a == b {
      var x :| x in s.recorded && x.1 == a;
      var y :| y in s.recorded && y.1 == b;
      OneCredential(w, v, s, x.0, y.0);
      OneReceipt(w, s.hs, v.p, x.0, y.0, x.1, y.1);
    }
  }

  /** Whatever receipts the network delivers, a saved one is signed under the poll's key for this poll and for the credential and the choice
      of a ballot the voter sent; so all the saved receipts are of one credential. */
  lemma SavedReceipts(w: World, v: Voter, sites: seq<Site>, moves: seq<Move>, k: nat, i: nat, j: nat)
    requires w.Honest() && Moves(w, v, sites, moves) && Initial(w, v, sites[0]) && k < |sites|
    requires i < |sites[k].receipts| && j < |sites[k].receipts|
    ensures v.p in sites[k].hs && exists vote | vote in sites[k].votes :: ReceiptHolds(w, sites[k].hs[v.p].poll, vote, sites[k].receipts[i])
    ensures sites[k].receipts[i].pollID == v.p && sites[k].receipts[i].credentialHash == sites[k].receipts[j].credentialHash
  {
    hide w.Honest, Enabled, Next, Moves, Initial, NotStranded, PhaseFits, DistinctRequests, RepliesTrue, AllValid, FromSignature, ReceiptForBallot;
    RunKeeps(w, v, sites, moves, k);
    var s := sites[k];
    assert OfSentBallot(w, v, s, s.receipts[i]) && OfSentBallot(w, v, s, s.receipts[j]);
    ValidAt(w, s.hs, v.p);
    var a :| a in s.votes && ReceiptForBallot(w, s.hs[v.p].poll, a, s.receipts[i]).Ok?;
    var b :| b in s.votes && ReceiptForBallot(w, s.hs[v.p].poll, b, s.receipts[j]).Ok?;
    ReceiptExact(w, s.hs[v.p].poll, a, s.receipts[i]);
    ReceiptExact(w, s.hs[v.p].poll, b, s.receipts[j]);
    OneCredential(w, v, s, a, b);
  }

  // Every state the command has worked with or sent is for this poll, at this address.
  predicate ForThisPoll(v: Voter, s: Site) {
    && (!s.phase.Idle? ==> Matches(v, s.phase.state))
    && (forall state | state in s.claims :: Matches(v, state))
  }

  /** Over every run every claim the voter sends is of a state made for this poll, whatever state file is found. */
  lemma {:induction false} OnlyThisPoll(w: World, v: Voter, sites: seq<Site>, moves: seq<Move>, k: nat)
    requires Moves(w, v, sites, moves) && ForThisPoll(v, sites[0]) && k < |sites|
    ensures ForThisPoll(v, sites[k])
  {
    hide Enabled, Next, ForThisPoll;
    if k > 0 {
      OnlyThisPoll(w, v, sites, moves, k - 1);
      assert Enabled(w, v, sites[k - 1], moves[k - 1]);
      StaysWithPoll(w, v, sites[k - 1], moves[k - 1]);
    }
  }

  lemma StaysWithPoll(w: World, v: Voter, s: Site, m: Move)
    requires ForThisPoll(v, s) && Enabled(w, v, s, m)
    ensures ForThisPoll(v, Next(w, v, s, m))
  {
    hide DoClaim, DoVote, DoOp, ReceiptForBallot, LeavesKey;
  }

  // Every receipt the process takes is one the server made for the ballot it sent.
  predicate Genuine(sites: seq<Site>, moves: seq<Move>)
    requires |sites| == |moves| + 1
  {
    forall i :: 0 <= i < |moves| && moves[i].TakeReceipt? ==>
      sites[i].phase.AwaitReceipt? && (sites[i].phase.ballot, moves[i].answer) in sites[i].recorded
  }

  predicate AllFromServer(s: Site) {
    && (s.phase.HasReceipt? ==> FromServer(s, s.phase.receipt))
    && (forall i :: 0 <= i < |s.receipts| ==> FromServer(s, s.receipts[i]))
  }

  lemma GenuineMove(w: World, v: Voter, s: Site, m: Move)
    requires AllFromServer(s) && Enabled(w, v, s, m)
    requires m.TakeReceipt? ==> s.phase.AwaitReceipt? && (s.phase.ballot, m.answer) in s.recorded
    ensures AllFromServer(Next(w, v, s, m))
  {
    hide DoClaim, DoVote, DoOp, ReceiptForBallot, LeavesKey, Fresh, Matches;
    var later := Next(w, v, s, m);
    if m.TakeReceipt? { assert FromServer(later, m.answer); }
    forall i | 0 <= i < |s.receipts| ensures FromServer(later, s.receipts[i]) {
      assert FromServer(s, s.receipts[i]);
      var pair :| pair in s.recorded && pair.1 == s.receipts[i];
      assert pair in later.recorded;
    }
    if s.phase.HasReceipt? {
      assert FromServer(s, s.phase.receipt);
      var pair :| pair in s.recorded && pair.1 == s.phase.receipt;
      assert pair in later.recorded;
    }
  }

  lemma {:induction false} GenuineRun(w: World, v: Voter, sites: seq<Site>, moves: seq<Move>, k: nat)
    requires Moves(w, v, sites, moves) && Genuine(sites, moves) && AllFromServer(sites[0]) && k < |sites|
    ensures AllFromServer(sites[k])
  {
    hide Enabled, Next, AllFromServer;
    if k > 0 {
      GenuineRun(w, v, sites, moves, k - 1);
      assert Enabled(w, v, sites[k - 1], moves[k - 1]);
      GenuineMove(w, v, sites[k - 1], moves[k - 1]);
    }
  }

  /** If what is delivered comes from the server, all the receipts a voter ever saves are equal. */
  lemma OneSavedReceipt(w: World, v: Voter, sites: seq<Site>, moves: seq<Move>, k: nat, i: nat, j: nat)
    requires w.Honest() && Moves(w, v, sites, moves) && Initial(w, v, sites[0]) && Genuine(sites, moves) && k < |sites|
    requires i < |sites[k].receipts| && j < |sites[k].receipts|
    ensures sites[k].receipts[i] == sites[k].receipts[j]
  {
    hide w.Honest, Enabled, Next, Inv, AllValid;
    RunKeeps(w, v, sites, moves, k);
    GenuineRun(w, v, sites, moves, k);
    ReceiptsEqual(w, v, sites[k]);
    assert FromServer(sites[k], sites[k].receipts[i]) && FromServer(sites[k], sites[k].receipts[j]);
  }

  lemma BallotsApart(w: World, v: Voter, s: Site)
    requires Inv(w, v, s) && v.p in s.hs && Valid(w, s.hs[v.p])
    ensures var casts := s.hs[v.p].casts;
            forall i, j :: 0 <= i < j < |casts| ==> !(casts[i].ballot in s.votes && casts[j].ballot in s.votes)
  {
    hide AllValid, NotStranded, PhaseFits, DistinctRequests, RepliesTrue, SentFits, SignedByService, GoodMembers, GoodClaims, CredentialHash;
    var casts := s.hs[v.p].casts;
    forall i, j | 0 <= i < j < |casts| ensures !(casts[i].ballot in s.votes && casts[j].ballot in s.votes) {
      assert CredentialHash(w, casts[i].ballot.credential) != CredentialHash(w, casts[j].ballot.credential);
      if casts[i].ballot in s.votes && casts[j].ballot in s.votes {
        OneCredential(w, v, s, casts[i].ballot, casts[j].ballot);
      }
    }
  }

  /* Recovery */

  /** A voter whose claim the server holds, with no receipt yet, gets the blind signature again by running the command
      once more, exactly while the poll is open. */
  lemma Recoverable(w: World, v: Voter, s: Site, clock: Clock)
    requires Inv(w, v, s) && ServerClaim(w, v, s.hs).Some? && s.receipts == []
    ensures s.file.Some? && v.p in s.hs
    ensures DoClaim(w, s.hs, v.p, ClaimRequestOf(w, v, s.file.value), clock)
         == Outcome(s.hs, if IsOpen(w, s.hs[v.p], clock.check) then Ok((ServerClaim(w, v, s.hs).value.blindSignature, false))
                          else Err("poll_not_open"))
  {
    hide AllValid, PhaseFits, DistinctRequests, RepliesTrue, SentFits, IsOpen, DoClaim, CheckClaim, BlindedHash;
    var request := ClaimRequestOf(w, v, s.file.value);
    ClaimRetry(w, s.hs, v.p, request, ServerClaim(w, v, s.hs).value.blindSignature, request, clock);
  }

  /** The receipt of a recorded ballot passes VerifyReceiptForBallot. */
  lemma ReceiptAccepted(w: World, hs: Histories, p: string, ballot: BallotRequest, receipt: Receipt)
    requires w.Honest() && AllValid(w, hs) && Recorded(w, hs, p, ballot, receipt)
    ensures ReceiptForBallot(w, hs[p].poll, ballot, receipt) == Ok(())
  {
    hide w.Honest, AllValid, CredentialHash, ReceiptOf, ReceiptVerdict, CastRecord, CastLog, VerifyWireCredential;
    var (h, c) := (hs[p], CredentialHash(w, ballot.credential));
    var k := CastIndex(w, h.casts, c).value;
    var record := CastRecord(w, h.poll, k + 2, h.casts[k]);
    var eventHash := Last(CastLog(w, h.poll, h.createdAt, h.casts[..k + 1])).eventHash;
    ValidAt(w, hs, p);
    SignatureVerifies(w, "");
    CheckedHash(w, h.poll, ballot);
    RecordSequence(w, h.poll, k + 2, h.casts[k]);
    ReceiptPasses(w, record, eventHash);
    ReceiptFields(w, record, eventHash);
  }

  // The two halves of one uninterrupted command: up to the credential, and on to the receipt.
  function ClaimHalf(state: VoteState, choiceID: string, signature: string, clock: Clock): seq<Move> {
    [Begin(choiceID, state), SendClaim, ServeClaim(state, clock), TakeSignature(signature)]
  }

  function VoteHalf(ballot: BallotRequest, receipt: Receipt, clock: Clock): seq<Move> {
    [SendVote, ServeVote(ballot, clock), TakeReceipt(receipt), WriteReceipt, RemoveState]
  }

  // The state the command goes on from: the saved one, or a new one if none is saved.
  predicate StateFor(v: Voter, s: Site, state: VoteState) {
    Matches(v, state) && (s.file == Some(state) || (s.file.None? && Fresh(v, s, state)))
  }

  lemma ClaimCompletes(w: World, v: Voter, s: Site, state: VoteState, choiceID: string, clock: Clock) returns (sites: seq<Site>)
    requires s.phase.Idle? && StateFor(v, s, state)
    requires var claimed := DoClaim(w, s.hs, v.p, ClaimRequestOf(w, v, state), clock);
             claimed.answer.Ok? && v.finalize(state, claimed.answer.value.0).Some?
    ensures var claimed := DoClaim(w, s.hs, v.p, ClaimRequestOf(w, v, state), clock);
            var signature := claimed.answer.value.0;
            && Moves(w, v, sites, ClaimHalf(state, choiceID, signature, clock)) && sites[0] == s
            && sites[4].phase == Holding(state, BallotRequest(v.finalize(state, signature).value, choiceID))
            && sites[4].hs == claimed.histories && sites[4].receipts == s.receipts
  {
    hide DoClaim;
    var signature := DoClaim(w, s.hs, v.p, ClaimRequestOf(w, v, state), clock).answer.value.0;
    var begun := Next(w, v, s, Begin(choiceID, state));
    var sent := Next(w, v, begun, SendClaim);
    var served := Next(w, v, sent, ServeClaim(state, clock));
    sites := [s, begun, sent, served, Next(w, v, served, TakeSignature(signature))];
  }

  lemma VoteCompletes(w: World, v: Voter, s: Site, clock: Clock) returns (sites: seq<Site>)
    requires w.Honest() && AllValid(w, s.hs) && s.phase.Holding?
    requires DoVote(w, s.hs, v.p, s.phase.ballot, clock).answer.Ok?
    ensures var voted := DoVote(w, s.hs, v.p, s.phase.ballot, clock);
            && Moves(w, v, sites, VoteHalf(s.phase.ballot, voted.answer.value.0, clock)) && sites[0] == s
            && sites[5].hs == voted.histories && sites[5].file.None? && sites[5].phase.Idle?
            && sites[5].receipts == s.receipts + [voted.answer.value.0]
  {
    hide w.Honest, AllValid, DoVote, ReceiptForBallot, Recorded;
    var ballot := s.phase.ballot;
    var voted := DoVote(w, s.hs, v.p, ballot, clock);
    var receipt := voted.answer.value.0;
    VoteValid(w, s.hs, v.p, ballot, clock);
    VoteRecorded(w, s.hs, v.p, ballot, clock);
    ReceiptAccepted(w, voted.histories, v.p, ballot, receipt);
    RecordedHasPoll(w, voted.histories, v.p, ballot, receipt);
    var sent := Next(w, v, s, SendVote);
    var served := Next(w, v, sent, ServeVote(ballot, clock));
    var taken := Next(w, v, served, TakeReceipt(receipt));
    var written := Next(w, v, taken, WriteReceipt);
    sites := [s, sent, served, taken, written, Next(w, v, written, RemoveState)];
  }

  lemma MovesJoin(w: World, v: Voter, a: seq<Site>, b: seq<Site>, first: seq<Move>, second: seq<Move>)
    requires Moves(w, v, a, first) && Moves(w, v, b, second) && a[|first|] == b[0]
    ensures Moves(w, v, a[..|first|] + b, first + second)
  {
    hide Enabled, Next;
    var (sites, moves) := (a[..|first|] + b, first + second);
    forall i | 0 <= i < |moves| ensures Enabled(w, v, sites[i], moves[i]) && sites[i + 1] == Next(w, v, sites[i], moves[i]) {
      if i < |first| {
        assert Enabled(w, v, a[i], first[i]) && sites[i + 1] == a[i + 1];
      } else {
        assert Enabled(w, v, b[i - |first|], second[i - |first|]);
      }
    }
  }

  // The server answers the claim, the signature finalises, and the server answers the ballot.
  predicate Answered(w: World, v: Voter, hs: Histories, state: VoteState, choiceID: string, a: Clock, b: Clock) {
    var claimed := DoClaim(w, hs, v.p, ClaimRequestOf(w, v, state), a);
    claimed.answer.Ok? &&
    var credential := v.finalize(state, claimed.answer.value.0);
    credential.Some? && DoVote(w, claimed.histories, v.p, BallotRequest(credential.value, choiceID), b).answer.Ok?
  }

  /** An idle voter whose claim and ballot the server answers, from a new or a saved state, ends the command with the receipt saved
      and the state file gone. */
  lemma CommandCompletes(w: World, v: Voter, s: Site, state: VoteState, choiceID: string, a: Clock, b: Clock) returns (sites: seq<Site>)
    requires w.Honest() && AllValid(w, s.hs) && s.phase.Idle? && StateFor(v, s, state) && Answered(w, v, s.hs, state, choiceID, a, b)
    ensures var claimed := DoClaim(w, s.hs, v.p, ClaimRequestOf(w, v, state), a);
            var ballot := BallotRequest(v.finalize(state, claimed.answer.value.0).value, choiceID);
            var voted := DoVote(w, claimed.histories, v.p, ballot, b);
            && Moves(w, v, sites, ClaimHalf(state, choiceID, claimed.answer.value.0, a) + VoteHalf(ballot, voted.answer.value.0, b))
            && sites[0] == s && sites[9].hs == voted.histories && sites[9].file.None? && sites[9].phase.Idle?
            && sites[9].receipts == s.receipts + [voted.answer.value.0]
  {
    hide w.Honest, AllValid, DoClaim, DoVote, Enabled, Next, StateFor;
    ClaimValid(w, s.hs, v.p, ClaimRequestOf(w, v, state), a);
    var first := ClaimCompletes(w, v, s, state, choiceID, a);
    var second := VoteCompletes(w, v, first[4], b);
    var (signature, ballot) := (DoClaim(w, s.hs, v.p, ClaimRequestOf(w, v, state), a).answer.value.0, first[4].phase.ballot);
    var receipt := DoVote(w, first[4].hs, v.p, ballot, b).answer.value.0;
    MovesJoin(w, v, first, second, ClaimHalf(state, choiceID, signature, a), VoteHalf(ballot, receipt, b));
    sites := first[..4] + second;
  }

  /* After the close */

  /** A voter whose ballot is recorded but whose receipt was lost cannot fetch it by running the command after the close: the claim,
      which comes first, is refused, although the ballot itself would be answered with the receipt. */
  lemma LostReceiptAfterClose(w: World, v: Voter, s: Site, ballot: BallotRequest, receipt: Receipt, a: Clock, b: Clock)
    requires Inv(w, v, s) && ServerClaim(w, v, s.hs).Some? && s.receipts == []
    requires Recorded(w, s.hs, v.p, ballot, receipt) && s.hs[v.p].closedAt.Some?
    ensures s.file.Some? && DoClaim(w, s.hs, v.p, ClaimRequestOf(w, v, s.file.value), a) == Outcome(s.hs, Err("poll_not_open"))
    ensures DoVote(w, s.hs, v.p, ballot, b) == Outcome(s.hs, Ok((receipt, false)))
  {
    hide Inv, DoClaim, DoVote, CastIndex, CredentialHash, ReceiptAt, VerifyWireCredential;
    Recoverable(w, v, s, a);
    VoteAgain(w, s.hs, v.p, ballot, receipt, ballot, b);
  }

  // A closed poll, a voter without a receipt, and a process that has no signature yet.
  predicate ClosedOut(v: Voter, s: Site) {
    && v.p in s.hs && s.hs[v.p].closedAt.Some? && s.receipts == []
    && (s.phase.Idle? || s.phase.Loaded? || s.phase.AwaitSignature?)
  }

  lemma ClosedClaim(w: World, hs: Histories, p: string, request: ClaimRequest, clock: Clock)
    requires p in hs && hs[p].closedAt.Some?
    ensures DoClaim(w, hs, p, request, clock).histories == hs && DoClaim(w, hs, p, request, clock).answer.Err?
  {
    hide CheckClaim, CreditLog, CreditHashUsed, ClaimOf;
  }

  lemma ClosedMove(w: World, v: Voter, s: Site, m: Move)
    requires ClosedOut(v, s) && Enabled(w, v, s, m) && !m.TakeSignature?
    ensures ClosedOut(v, Next(w, v, s, m)) && Next(w, v, s, m).signatures == s.signatures
  {
    hide DoClaim, DoVote, DoOp, ReceiptForBallot, LeavesKey, Fresh, Matches;
    match m
    case ServeClaim(claim, clock) => ClosedClaim(w, s.hs, v.p, ClaimRequestOf(w, v, claim), clock);
    case ServeVote(vote, clock) =>
      VoteExtends(w, s.hs, v.p, vote, clock);
      ClosedExtends(s.hs, DoVote(w, s.hs, v.p, vote, clock).histories, v.p);
    case Other(op) =>
      OpExtends(w, s.hs, op);
      ClosedExtends(s.hs, DoOp(w, s.hs, op).histories, v.p);
    case _ =>
  }

  lemma ClosedExtends(hs: Histories, later: Histories, p: string)
    requires Extends(hs, later) && p in hs && hs[p].closedAt.Some?
    ensures p in later && later[p] == hs[p]
  {
    assert Grows(hs[p], later[p]);
  }

  /** Over every run after the close in which no signature sent before it arrives late: the server makes no signature, and no
      receipt is ever saved, however often the command is run. */
  lemma {:induction false} NoReceiptAfterClose(w: World, v: Voter, sites: seq<Site>, moves: seq<Move>, k: nat)
    requires Moves(w, v, sites, moves) && ClosedOut(v, sites[0]) && k < |sites|
    requires forall i :: 0 <= i < |moves| ==> !moves[i].TakeSignature?
    ensures ClosedOut(v, sites[k]) && sites[k].signatures == sites[0].signatures
  {
    hide ClosedOut, Enabled, Next;
    if k > 0 {
      NoReceiptAfterClose(w, v, sites, moves, k - 1);
      assert Enabled(w, v, sites[k - 1], moves[k - 1]);
      ClosedMove(w, v, sites[k - 1], moves[k - 1]);
    }
  }
}
