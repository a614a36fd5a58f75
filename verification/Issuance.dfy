/** The credential protocol in its place: a service whose issuer is the RSA key of BlindRsa, and a voter whose client finalises with
    it. A key on the list that votes on an open poll ends with a receipt. */
module Issuance {
  import opened Wrappers
  import opened Artifacts
  import opened Store
  import opened Members
  import opened Sequencer
  import opened History
  import opened Runs
  import opened Collisions
  import opened Safety
  import opened Client
  import O = Octets
  import B = BlindRsa
  import C = Credentials

  /* Texts as octets */

  function Bytes(s: string): (o: O.Octets)
    ensures |o| == |s|
  {
    seq(|s|, i requires 0 <= i < |s| => s[i] as int % 256)
  }

  function Text(o: O.Octets): (s: string)
    ensures |s| == |o|
  {
    seq(|o|, i requires 0 <= i < |o| => o[i] as char)
  }

  lemma BytesOfText(o: O.Octets)
    ensures Bytes(Text(o)) == o
  {
  }

  /* The service's issuer and the voter's client */

  function Inner(c: Credential): B.Credential {
    B.Credential(Bytes(c.issuerKeyID), Bytes(c.serial), Bytes(c.signature))
  }

  function Outer(c: B.Credential): Credential {
    Credential(Text(c.issuerKeyID), Text(c.serial), Text(c.signature))
  }

  /** The service signs, checks and names its key as BlindRsa does. The random draws that hide a signature are taken to succeed;
      BlindRsa.BlindSign proves that its answer is then this one. */
  ghost predicate IssuesWith(w: World, lib: B.Library, key: B.PrivateKey) {
    && B.UsablePrivateKey(lib, key) && key.Sound() && key.public.e % 2 != 0 && key.public.n > 1
    && w.issuerKeyID == Text(lib.keyID(key.public))
    && (forall m :: w.blindSign(m) == if B.SigningInput(key, Bytes(m)) then Ok(Text(B.ServerAnswer(key, Bytes(m))))
                                      else Err("invalid_blinded_message"))
    && (forall m :: w.isBlindedMessage(m) <==> |m| == O.ByteLen(key.public.n))
    && (forall p, c :: w.credentialError(w.issuerPublicKey, p, c)
                    == if B.Verify(lib, key.public, Bytes(p), Inner(c)).Ok? then None else Some("invalid_credential"))
  }

  /** The client finalises as BlindRsa does; stateOf decodes the secret part of a state file. */
  ghost predicate FinalizesWith(v: Voter, lib: B.Library, key: B.PublicKey, stateOf: string -> B.State) {
    forall state, signature :: v.finalize(state, signature) ==
      match B.Finalized(lib, key, stateOf(state.secret), Bytes(signature))
      case Ok(c) => Some(Outer(c))
      case Err(_) => None
  }

  // The state holds a request that Prepare made for this poll.
  predicate PreparedBy(v: Voter, state: VoteState, lib: B.Library, key: B.PublicKey, stateOf: string -> B.State, serial: O.Octets,
                       random: B.Randomness)
  {
    var request := B.Prepared(lib, key, Bytes(v.p), lib.keyID(key), serial, random);
    request.Ok? && state.blindedMessage == Text(request.value.blindedMessage) && stateOf(state.secret) == request.value.state
  }

  // The credential of a prepared state.
  function CredentialOf(w: World, v: Voter, state: VoteState): Option<Credential> {
    match w.blindSign(state.blindedMessage)
    case Err(_) => None
    case Ok(signature) => v.finalize(state, signature)
  }

  // In octets: the answer to a prepared request finalises to a credential that verifies.
  lemma HonestCredential(lib: B.Library, key: B.PrivateKey, pollID: O.Octets, serial: O.Octets, random: B.Randomness)
    requires B.UsablePrivateKey(lib, key) && key.Sound() && key.public.e % 2 != 0 && key.public.n > 1
    requires B.Prepared(lib, key.public, pollID, lib.keyID(key.public), serial, random).Ok?
    ensures var request := B.Prepared(lib, key.public, pollID, lib.keyID(key.public), serial, random).value;
            var final := B.Finalized(lib, key.public, request.state, B.ServerAnswer(key, request.blindedMessage));
            && B.SigningInput(key, request.blindedMessage) && final.Ok? && final.value.serial == serial
            && B.Verify(lib, key.public, pollID, final.value) == Ok(())
  {
    hide B.Prepared, B.Verify, B.ServerAnswer, B.FinalizeAccepts, B.WellSizedState, B.CredentialMessage, B.ValidPublicKey, key.Sound,
         B.UsablePrivateKey, B.SigningInput, B.FinalCredential, O.BitLen, O.ByteLen;
    var request := B.Prepared(lib, key.public, pollID, lib.keyID(key.public), serial, random).value;
    B.HonestRequest(lib, key, pollID, serial, random);
    B.PreparedParts(lib, key.public, pollID, lib.keyID(key.public), serial, random);
    B.FinalizedVerifies(lib, key.public, request.state, B.ServerAnswer(key, request.blindedMessage));
  }

  /** A prepared request is answered, and its answer finalises to a credential of its serial that the service accepts. */
  lemma CredentialIssued(w: World, v: Voter, state: VoteState, lib: B.Library, key: B.PrivateKey, stateOf: string -> B.State,
                         serial: O.Octets, random: B.Randomness)
    requires IssuesWith(w, lib, key) && FinalizesWith(v, lib, key.public, stateOf)
    requires PreparedBy(v, state, lib, key.public, stateOf, serial, random)
    ensures w.blindSign(state.blindedMessage).Ok? && CredentialOf(w, v, state).Some?
    ensures var c := CredentialOf(w, v, state).value;
            c.serial == Text(serial) && w.credentialError(w.issuerPublicKey, v.p, c).None?
  {
    hide B.Prepared, B.Verify, B.ServerAnswer, B.Finalized, B.SigningInput, key.Sound, B.UsablePrivateKey, Bytes, Text, O.ByteLen;
    var request := B.Prepared(lib, key.public, Bytes(v.p), lib.keyID(key.public), serial, random).value;
    HonestCredential(lib, key, Bytes(v.p), serial, random);
    BytesOfText(request.blindedMessage);
    BytesOfText(B.ServerAnswer(key, request.blindedMessage));
    var c := B.Finalized(lib, key.public, request.state, B.ServerAnswer(key, request.blindedMessage)).value;
    BytesOfText(c.issuerKeyID);
    BytesOfText(c.serial);
    BytesOfText(c.signature);
    assert Inner(Outer(c)) == c;
    var signature := w.blindSign(state.blindedMessage).value;
    assert v.finalize(state, signature) == Some(Outer(c));
  }

  /* The claim of a listed key */

  // A fresh claim's credit event, and the collision that alone can refuse it.
  predicate ClaimCollides(w: World, hs: Histories, p: string, request: ClaimRequest, clock: Clock)
    requires p in hs && CheckClaim(w, p, request).Ok? && w.blindSign(request.blindedMessage).Ok?
  {
    var issuance := Issuance(request.requestID, BlindedHash(w, request), w.blindSign(request.blindedMessage).value, w.eventDay(clock.stamp));
    var event := Last(CreditLog(w, p, hs[p].claims + [Claimed(CheckClaim(w, p, request).value, issuance)]));
    exists q, i :: q in hs && 0 <= i < |hs[q].claims|
                   && Collide(w, CreditPreimage(q, CreditLog(w, hs[q].poll.pollID, hs[q].claims)[i]), CreditPreimage(p, event))
  }

  // There are never more claims than keys, so the credit sequence is not exhausted.
  lemma ClaimsFit(w: World, hs: Histories, p: string)
    requires AllValid(w, hs) && p in hs
    ensures |hs[p].claims| < MAX_SEQUENCE
  {
    hide CreditsOf, ClaimedRows, SignedByService, GoodClaims, GoodCasts;
    ValidAt(w, hs, p);
    CreditCounts(w, hs[p]);
  }

  // What a claim leaves alone.
  predicate SameBut(hs: Histories, later: Histories, p: string) {
    && p in hs && p in later && later[p] == hs[p].(claims := later[p].claims)
  }

  lemma FreshClaimAnswered(w: World, hs: Histories, p: string, request: ClaimRequest, clock: Clock)
    requires AllValid(w, hs) && p in hs && IsOpen(w, hs[p], clock.check)
    requires CheckClaim(w, p, request).Ok? && w.blindSign(request.blindedMessage).Ok?
    requires MemberKey(request.sshPublicKey, CheckClaim(w, p, request).value) in hs[p].members
    requires ClaimOf(hs[p].claims, CheckClaim(w, p, request).value).None?
    ensures var out := DoClaim(w, hs, p, request, clock);
            && (out.answer == Ok((w.blindSign(request.blindedMessage).value, true)) || out.answer == Err("credit_event_write_failed"))
            && SameBut(hs, out.histories, p)
  {
    hide AllValid, CheckClaim, CreditLog, CreditHashUsed, IsOpen, ClaimOf, BlindedHash;
    ClaimsFit(w, hs, p);
  }

  /** A listed key's claim from the saved or a new state is answered with the signature of its blinded message, or its event
      collides with a stored one. */
  lemma ListedClaim(w: World, v: Voter, s: Site, state: VoteState, clock: Clock)
    requires w.Honest() && Inv(w, v, s) && StateFor(v, s, state) && s.receipts == [] && v.p in s.hs
    requires CheckClaim(w, v.p, ClaimRequestOf(w, v, state)).Ok? && w.blindSign(state.blindedMessage).Ok?
    requires MemberKey(v.publicKey, CheckClaim(w, v.p, ClaimRequestOf(w, v, state)).value) in s.hs[v.p].members
    requires IsOpen(w, s.hs[v.p], clock.check) && forall m :: w.blindSign(m) != Err("credit_event_write_failed")
    ensures var out := DoClaim(w, s.hs, v.p, ClaimRequestOf(w, v, state), clock);
            SameBut(s.hs, out.histories, v.p)
            && ((out.answer.Ok? && out.answer.value.0 == w.blindSign(state.blindedMessage).value)
                || ClaimCollides(w, s.hs, v.p, ClaimRequestOf(w, v, state), clock))
  {
    hide w.Honest, AllValid, DoClaim, IsOpen, PhaseFits, DistinctRequests, RepliesTrue, SentFits, CreditLog, BlindedHash, CreditPreimage;
    var request := ClaimRequestOf(w, v, state);
    ListedFingerprint(w, v, v.p, request);
    if ServerClaim(w, v, s.hs).Some? {
      Recoverable(w, v, s, clock);
    } else {
      FreshClaimAnswered(w, s.hs, v.p, request, clock);
      if DoClaim(w, s.hs, v.p, request, clock).answer == Err("credit_event_write_failed") {
        ClaimRefusedOnlyByCollision(w, s.hs, v.p, request, clock);
      }
    }
  }

  lemma ListedFingerprint(w: World, v: Voter, p: string, request: ClaimRequest)
    requires request.sshPublicKey == v.publicKey && CheckClaim(w, p, request).Ok?
    ensures FingerprintOf(w, v) == Some(CheckClaim(w, p, request).value)
  {
  }

  /* The ballot of a valid credential */

  function CredentialPreimage(w: World, c: Credential): string {
    "vota:credential-hash:v1" + "\0" + w.credential.text(c)
  }

  predicate CredentialCollides(w: World, h: History, c: Credential) {
    exists k :: 0 <= k < |h.casts| && Collide(w, CredentialPreimage(w, h.casts[k].ballot.credential), CredentialPreimage(w, c))
  }

  predicate BallotCollides(w: World, hs: Histories, p: string, request: BallotRequest, clock: Clock)
    requires p in hs
  {
    var event := Last(CastLog(w, hs[p].poll, hs[p].createdAt, hs[p].casts + [Cast(request, w.eventDay(clock.stamp))]));
    exists q, i :: q in hs && 0 <= i < |Log(w, hs[q])| && Collide(w, BallotPreimage(q, Log(w, hs[q])[i]), BallotPreimage(p, event))
  }

  // No recorded ballot has this credential's serial but this very ballot.
  predicate SerialUnused(h: History, request: BallotRequest) {
    forall k :: 0 <= k < |h.casts| && h.casts[k].ballot.credential.serial == request.credential.serial ==> h.casts[k].ballot == request
  }

  lemma BallotChecked(w: World, hs: Histories, p: string, request: BallotRequest)
    requires AllValid(w, hs) && p in hs && w.credentialError(w.issuerPublicKey, p, request.credential).None?
    requires ChoiceExists(hs[p].poll.choices, request.choiceID)
    ensures CheckBallot(w, hs[p].poll, request) == Ok(CredentialHash(w, request.credential))
  {
    hide GoodMembers, GoodClaims, GoodCasts, CredentialHash, ChoiceExists;
    ValidAt(w, hs, p);
  }

  /** A ballot of an accepted credential for a listed choice of an open poll is answered, or the ballot sequence is exhausted, or
      its credential or its event collides with a stored one. */
  lemma ListedBallot(w: World, hs: Histories, p: string, request: BallotRequest, clock: Clock)
    requires w.Honest() && Faithful(w.credential) && AllValid(w, hs) && p in hs && IsOpen(w, hs[p], clock.check)
    requires w.credentialError(w.issuerPublicKey, p, request.credential).None? && ChoiceExists(hs[p].poll.choices, request.choiceID)
    requires SerialUnused(hs[p], request)
    ensures DoVote(w, hs, p, request, clock).answer.Ok? || |hs[p].casts| + 1 >= MAX_SEQUENCE
            || CredentialCollides(w, hs[p], request.credential) || BallotCollides(w, hs, p, request, clock)
  {
    hide w.Honest, AllValid, CheckBallot, CastLog, LogHashUsed, ReceiptAt, IsOpen, CredentialHash, Log, BallotPreimage, ChoiceExists;
    BallotChecked(w, hs, p, request);
    var k := CastIndex(w, hs[p].casts, CredentialHash(w, request.credential));
    if k.Some? {
      var held := hs[p].casts[k.value].ballot;
      if held.credential != request.credential { CredentialTexts(w, held.credential, request.credential); }
    } else if DoVote(w, hs, p, request, clock).answer == Err("ballot_event_write_failed") {
      VoteRefusedOnlyByCollision(w, hs, p, request, clock);
    }
  }

  /* The whole command */

  // What else can stop a listed key on an open poll: a named collision, or 2^63 - 2 ballots.
  predicate Stopped(w: World, v: Voter, s: Site, state: VoteState, choiceID: string, a: Clock, b: Clock)
    requires v.p in s.hs && CheckClaim(w, v.p, ClaimRequestOf(w, v, state)).Ok? && w.blindSign(state.blindedMessage).Ok?
    requires CredentialOf(w, v, state).Some?
  {
    var later := DoClaim(w, s.hs, v.p, ClaimRequestOf(w, v, state), a).histories;
    var credential := CredentialOf(w, v, state).value;
    || ClaimCollides(w, s.hs, v.p, ClaimRequestOf(w, v, state), a)
    || |s.hs[v.p].casts| + 1 >= MAX_SEQUENCE
    || CredentialCollides(w, s.hs[v.p], credential)
    || (v.p in later && BallotCollides(w, later, v.p, BallotRequest(credential, choiceID), b))
  }

  lemma ListedKeyAnswered(w: World, v: Voter, s: Site, state: VoteState, choiceID: string, a: Clock, b: Clock)
    requires w.Honest() && Faithful(w.credential) && Inv(w, v, s) && StateFor(v, s, state) && s.receipts == [] && v.p in s.hs
    requires CheckClaim(w, v.p, ClaimRequestOf(w, v, state)).Ok? && w.blindSign(state.blindedMessage).Ok? && CredentialOf(w, v, state).Some?
    requires MemberKey(v.publicKey, CheckClaim(w, v.p, ClaimRequestOf(w, v, state)).value) in s.hs[v.p].members
    requires IsOpen(w, s.hs[v.p], a.check) && IsOpen(w, s.hs[v.p], b.check) && ChoiceExists(s.hs[v.p].poll.choices, choiceID)
    requires forall m :: w.blindSign(m) != Err("credit_event_write_failed")
    requires w.credentialError(w.issuerPublicKey, v.p, CredentialOf(w, v, state).value).None?
    requires SerialUnused(s.hs[v.p], BallotRequest(CredentialOf(w, v, state).value, choiceID))
    ensures Answered(w, v, s.hs, state, choiceID, a, b) || Stopped(w, v, s, state, choiceID, a, b)
  {
    hide w.Honest, AllValid, Inv, StateFor, DoClaim, DoVote, CheckClaim, ClaimCollides, CredentialCollides, BallotCollides, ChoiceExists;
    var request := ClaimRequestOf(w, v, state);
    var out := DoClaim(w, s.hs, v.p, request, a);
    InvValid(w, v, s);
    ListedClaim(w, v, s, state, a);
    ClaimValid(w, s.hs, v.p, request, a);
    ListedBallot(w, out.histories, v.p, BallotRequest(CredentialOf(w, v, state).value, choiceID), b);
    SameCasts(w, s.hs, out.histories, v.p, CredentialOf(w, v, state).value);
  }

  lemma SameCasts(w: World, hs: Histories, later: Histories, p: string, c: Credential)
    requires SameBut(hs, later, p)
    ensures later[p].casts == hs[p].casts && (CredentialCollides(w, later[p], c) <==> CredentialCollides(w, hs[p], c))
  {
  }

  lemma InvValid(w: World, v: Voter, s: Site)
    requires Inv(w, v, s)
    ensures AllValid(w, s.hs)
  {
  }

  // The sites of one uninterrupted command that ends with its receipt as the only one saved, and no state file.
  ghost predicate Saves(w: World, v: Voter, s: Site, state: VoteState, choiceID: string, a: Clock, b: Clock, sites: seq<Site>) {
    exists signature, ballot, receipt ::
      && Moves(w, v, sites, ClaimHalf(state, choiceID, signature, a) + VoteHalf(ballot, receipt, b))
      && sites[0] == s && sites[9].phase.Idle? && sites[9].file.None? && sites[9].receipts == [receipt]
  }

  lemma CommandSaves(w: World, v: Voter, s: Site, state: VoteState, choiceID: string, a: Clock, b: Clock) returns (sites: seq<Site>)
    requires w.Honest() && Inv(w, v, s) && s.phase.Idle? && StateFor(v, s, state) && s.receipts == []
    requires Answered(w, v, s.hs, state, choiceID, a, b)
    ensures Saves(w, v, s, state, choiceID, a, b, sites)
  {
    hide w.Honest, AllValid, Inv, StateFor, DoClaim, DoVote, Enabled, Next;
    InvValid(w, v, s);
    sites := CommandCompletes(w, v, s, state, choiceID, a, b);
    var claimed := DoClaim(w, s.hs, v.p, ClaimRequestOf(w, v, state), a);
    var ballot := BallotRequest(v.finalize(state, claimed.answer.value.0).value, choiceID);
    var receipt := DoVote(w, claimed.histories, v.p, ballot, b).answer.value.0;
    assert Moves(w, v, sites, ClaimHalf(state, choiceID, claimed.answer.value.0, a) + VoteHalf(ballot, receipt, b));
    assert sites[9].receipts == [receipt];
  }

  /** With the issuer's and the client's cryptography being BlindRsa's, a listed key that runs the command on an open poll, for the
      first time or again, from a state Prepare made, ends with a receipt saved and no state file; only a named hash collision or an
      exhausted ballot sequence can stop it. */
  lemma ListedKeyVotes(w: World, v: Voter, s: Site, state: VoteState, choiceID: string, a: Clock, b: Clock, lib: B.Library,
                       key: B.PrivateKey, stateOf: string -> B.State, serial: O.Octets, random: B.Randomness)
    returns (sites: seq<Site>)
    requires w.Honest() && Faithful(w.credential) && Inv(w, v, s) && s.phase.Idle? && StateFor(v, s, state) && s.receipts == []
    requires IssuesWith(w, lib, key) && FinalizesWith(v, lib, key.public, stateOf)
    requires PreparedBy(v, state, lib, key.public, stateOf, serial, random)
    requires v.p in s.hs && CheckClaim(w, v.p, ClaimRequestOf(w, v, state)).Ok?
    requires MemberKey(v.publicKey, CheckClaim(w, v.p, ClaimRequestOf(w, v, state)).value) in s.hs[v.p].members
    requires IsOpen(w, s.hs[v.p], a.check) && IsOpen(w, s.hs[v.p], b.check) && ChoiceExists(s.hs[v.p].poll.choices, choiceID)
    requires forall k :: 0 <= k < |s.hs[v.p].casts| && s.hs[v.p].casts[k].ballot.credential.serial == Text(serial) ==>
               CredentialOf(w, v, state).Some? && s.hs[v.p].casts[k].ballot == BallotRequest(CredentialOf(w, v, state).value, choiceID)
    ensures w.blindSign(state.blindedMessage).Ok? && CredentialOf(w, v, state).Some?
    ensures Stopped(w, v, s, state, choiceID, a, b)
            || Saves(w, v, s, state, choiceID, a, b, sites)
  {
    hide w.Honest, AllValid, Inv, StateFor, DoClaim, DoVote, CheckClaim, PreparedBy, Stopped, Saves, IsOpen, ChoiceExists, Answered,
         Text, Bytes;
    CredentialIssued(w, v, state, lib, key, stateOf, serial, random);
    NoSuchSignError(w, lib, key);
    ListedKeyAnswered(w, v, s, state, choiceID, a, b);
    sites := [];
    if Answered(w, v, s.hs, state, choiceID, a, b) {
      sites := CommandSaves(w, v, s, state, choiceID, a, b);
    }
  }

  lemma NoSuchSignError(w: World, lib: B.Library, key: B.PrivateKey)
    requires IssuesWith(w, lib, key)
    ensures forall m :: w.blindSign(m) != Err("credit_event_write_failed")
  {
    hide B.UsablePrivateKey, key.Sound, B.SigningInput, B.ServerAnswer, B.Verify;
  }

  /* What every recorded ballot carries */

  // A recorded ballot's credential was accepted by the service's key for the ballot's poll.
  lemma RecordedVerifies(w: World, h: History, k: nat, lib: B.Library, key: B.PrivateKey)
    requires IssuesWith(w, lib, key) && Valid(w, h) && k < |h.casts|
    ensures B.Verify(lib, key.public, Bytes(h.poll.pollID), Inner(h.casts[k].ballot.credential)).Ok?
  {
    hide B.Verify, B.SigningInput, B.ServerAnswer, B.UsablePrivateKey, key.Sound, Bytes, Inner, GoodMembers, GoodClaims, ChoiceExists;
    assert CheckBallot(w, h.poll, h.casts[k].ballot).Ok?;
  }

  /** In any run every recorded ballot carries a credential whose signature, raised to the issuer's public exponent, is the encoding of the
      ballot's own poll, the issuer's key and the credential's serial. */
  lemma RecordedBallotSigned(w: World, ops: seq<Op>, p: string, k: nat, lib: B.Library, key: B.PrivateKey)
    requires w.Honest() && IssuesWith(w, lib, key) && p in After(w, map[], ops) && k < |After(w, map[], ops)[p].casts|
    ensures var c := Inner(After(w, map[], ops)[p].casts[k].ballot.credential);
            C.WellFormed(lib, key.public, Bytes(p), c) && exists salt :: C.OpensWith(lib, key.public, Bytes(p), c, salt)
  {
    hide w.Honest, AllValid, DoOp, IssuesWith, Valid, B.Verify, C.WellFormed, C.OpensWith, Bytes, Inner;
    EmptyValid(w);
    RunValid(w, map[], ops);
    ValidAt(w, After(w, map[], ops), p);
    var h := After(w, map[], ops)[p];
    RecordedVerifies(w, h, k, lib, key);
    C.VerifyExact(lib, key.public, Bytes(p), Inner(h.casts[k].ballot.credential));
  }

  /** So a signature that counts at two polls exhibits two octet strings with one SHA-384 value. */
  lemma OneSignatureOnePoll(w: World, hs: Histories, p: string, i: nat, q: string, j: nat, lib: B.Library, key: B.PrivateKey)
    requires AllValid(w, hs) && IssuesWith(w, lib, key) && p in hs && q in hs && i < |hs[p].casts| && j < |hs[q].casts|
    requires Bytes(p) != Bytes(q)
    requires var (c, d) := (Inner(hs[p].casts[i].ballot.credential), Inner(hs[q].casts[j].ballot.credential));
             c.signature == d.signature
    ensures var (c, d) := (Inner(hs[p].casts[i].ballot.credential), Inner(hs[q].casts[j].ballot.credential));
            && C.WellFormed(lib, key.public, Bytes(p), c) && C.WellFormed(lib, key.public, Bytes(q), d)
            && C.SaltIn(lib, key.public, Bytes(p), c).Some?
            && var (a, b, salt) := (C.SignedMessage(Bytes(p), c), C.SignedMessage(Bytes(q), d), C.SaltIn(lib, key.public, Bytes(p), c).value);
               C.Sha384Collide(lib, a, b) || C.Sha384Collide(lib, C.SaltedInput(lib, a, salt), C.SaltedInput(lib, b, salt))
  {
    hide AllValid, IssuesWith, Valid, B.Verify, C.Sha384Collide, C.SaltedInput, C.SignedMessage, Bytes, Inner;
    ValidAt(w, hs, p);
    ValidAt(w, hs, q);
    RecordedVerifies(w, hs[p], i, lib, key);
    RecordedVerifies(w, hs[q], j, lib, key);
    C.SignatureNamesPoll(lib, key.public, Bytes(p), Inner(hs[p].casts[i].ballot.credential), Bytes(q), Inner(hs[q].casts[j].ballot.credential));
  }
}
