/** The simple machine behind the tables. A poll's history is what was created, claimed, voted and
    closed, in order; every row of its tables is a function of it. */
module History {
  import opened Wrappers
  import opened Artifacts
  import opened Store
  import opened Members
  import opened Sequencer

  datatype Claimed = Claimed(fingerprint: string, issuance: Issuance)
  datatype Cast = Cast(ballot: BallotRequest, day: string)

  datatype History = History(requestID: string, poll: Poll, members: seq<MemberKey>, createdAt: string, claims: seq<Claimed>,
                             casts: seq<Cast>, closedAt: Option<string>)

  // The simple machine's whole state: one history per poll id.
  type Histories = map<string, History>

  /* The tables of a history */

  function Last<T>(s: seq<T>): T
    requires s != []
  {
    s[|s| - 1]
  }

  function Init<T>(s: seq<T>): seq<T>
    requires s != []
  {
    s[..|s| - 1]
  }

  // The ballot stream without its closing event: the creation, then one event a ballot.
  function CastLog(w: World, poll: Poll, createdAt: string, casts: seq<Cast>): (log: seq<BallotEvent>)
    ensures |log| == |casts| + 1
  {
    if casts == [] then [CreatedEvent(w, poll, createdAt)] else
    var before := CastLog(w, poll, createdAt, Init(casts));
    before + [CastEvent(w, poll, before, Last(casts))]
  }

  function CastRecord(w: World, poll: Poll, sequence: nat, cast: Cast): BallotRecord {
    RecordOf(poll.pollID, sequence, CredentialHash(w, cast.ballot.credential), cast.ballot)
  }

  function CastEvent(w: World, poll: Poll, before: seq<BallotEvent>, cast: Cast): BallotEvent
    requires before != []
  {
    AcceptedEvent(w, CastRecord(w, poll, |before| + 1, cast), Last(before).eventHash, cast.day)
  }

  // How many ballots name a choice.
  function Votes(casts: seq<Cast>, choiceID: string): nat {
    if casts == [] then 0 else Votes(Init(casts), choiceID) + if Last(casts).ballot.choiceID == choiceID then 1 else 0
  }

  function TotalsOf(choices: seq<Choice>, casts: seq<Cast>): seq<ChoiceTotal> {
    seq(|choices|, i requires 0 <= i < |choices| => ChoiceTotal(choices[i].id, Votes(casts, choices[i].id)))
  }

  function TallyOf(w: World, poll: Poll, casts: seq<Cast>, closedAt: string): Tally {
    SignTally(w, Tally(SCHEMA_VERSION, PROTOCOL, poll.pollID, |casts|, TotalsOf(poll.choices, casts), closedAt, ""))
  }

  function Log(w: World, h: History): (log: seq<BallotEvent>)
    ensures log != []
  {
    var open := CastLog(w, h.poll, h.createdAt, h.casts);
    match h.closedAt
    case None => open
    case Some(at) => open + [ClosedEvent(w, TallyOf(w, h.poll, h.casts, at), |open| + 1, Last(open).eventHash)]
  }

  function SpentOf(w: World, casts: seq<Cast>): map<string, nat> {
    if casts == [] then map[]
    else SpentOf(w, Init(casts))[CredentialHash(w, Last(casts).ballot.credential) := |casts| + 1]
  }

  function CheckpointsOf(w: World, p: string, log: seq<BallotEvent>): (rows: seq<CheckpointRow>)
    ensures |rows| == |log|
  {
    seq(|log|, i requires 0 <= i < |log| => CheckpointRowOf(w, p, log[i].sequence, log[i].eventHash))
  }

  function CreditLog(w: World, p: string, claims: seq<Claimed>): (log: seq<CreditEvent>)
    ensures |log| == |claims|
  {
    if claims == [] then [] else
    var before := CreditLog(w, p, Init(claims));
    before + [CreditEventOf(w, p, |claims|, if before == [] then EMPTY_HASH else Last(before).eventHash,
                            Last(claims).fingerprint, Last(claims).issuance)]
  }

  function Unclaimed(members: seq<MemberKey>): map<string, CreditRow> {
    if members == [] then map[]
    else Unclaimed(Init(members))[Last(members).fingerprint := CreditRow(Last(members).encoded, None)]
  }

  function CreditsOf(members: seq<MemberKey>, claims: seq<Claimed>): map<string, CreditRow> {
    if claims == [] then Unclaimed(members) else
    var before := CreditsOf(members, Init(claims));
    var f := Last(claims).fingerprint;
    if f in before then before[f := before[f].(claim := Some(Last(claims).issuance))] else before
  }

  function ChoiceRowsOf(choices: seq<Choice>): (rows: seq<ChoiceRow>)
    ensures |rows| == |choices|
  {
    seq(|choices|, i requires 0 <= i < |choices| => ChoiceRow(choices[i].id, choices[i].title, i))
  }

  function RowOf(w: World, h: History): PollRow {
    var row := PollRowOf(w, h.poll, h.createdAt);
    match h.closedAt
    case None => row
    case Some(at) => row.(state := "closed", closedAt := at)
  }

  function TallyRowOf(w: World, h: History): Option<TallyRow> {
    match h.closedAt
    case None => None
    case Some(at) => Some(TallyRow(w.tally.text(TallyOf(w, h.poll, h.casts, at)), at))
  }

  function Tables(w: World, h: History): PollFile {
    PollFile(RowOf(w, h), ChoiceRowsOf(h.poll.choices), CreditsOf(h.members, h.claims),
             CreditLog(w, h.poll.pollID, h.claims), Log(w, h), SpentOf(w, h.casts), TallyRowOf(w, h),
             CheckpointsOf(w, h.poll.pollID, Log(w, h)))
  }

  function Render(w: World, hs: Histories): Db {
    map p | p in hs :: Tables(w, hs[p])
  }

  lemma RenderUpdate(w: World, hs: Histories, p: string, h: History)
    ensures Render(w, hs[p := h]) == Render(w, hs)[p := Tables(w, h)]
  {
    hide Tables;
  }

  /* What holds of every history the machine reaches */

  predicate DistinctClaims(claims: seq<Claimed>) {
    forall i, j :: 0 <= i < j < |claims| ==> claims[i].fingerprint != claims[j].fingerprint
  }

  predicate DistinctCredentials(w: World, casts: seq<Cast>) {
    forall i, j :: 0 <= i < j < |casts| ==>
      CredentialHash(w, casts[i].ballot.credential) != CredentialHash(w, casts[j].ballot.credential)
  }

  predicate MemberIn(members: seq<MemberKey>, fingerprint: string) {
    exists i :: 0 <= i < |members| && members[i].fingerprint == fingerprint
  }

  predicate SignedByService(w: World, poll: Poll, members: seq<MemberKey>) {
    && poll == SignPoll(w, poll)
    && poll.schemaVersion == SCHEMA_VERSION && poll.protocol == PROTOCOL && |poll.pollID| == 71
    && poll.issuerKeyID == w.issuerKeyID && poll.issuerPublicKey == w.issuerPublicKey
    && poll.checkpointPublicKey == w.keyText
    && poll.eligibilityCommitment == Commitment(w, members) && poll.eligibleCount == |members|
    && w.parseTime(poll.closesAt).Some?
    && DistinctChoices(poll.choices)
  }

  predicate GoodMembers(w: World, members: seq<MemberKey>) {
    && 2 <= |members| <= 1000 && Sorted(members) && DistinctFingerprints(members)
    && Canonical(w, members)
  }

  predicate GoodClaims(w: World, members: seq<MemberKey>, claims: seq<Claimed>) {
    && DistinctClaims(claims)
    && (forall i :: 0 <= i < |claims| ==>
          MemberIn(members, claims[i].fingerprint) && w.isRequestID(claims[i].issuance.requestID))
  }

  predicate GoodCasts(w: World, poll: Poll, casts: seq<Cast>) {
    && DistinctCredentials(w, casts)
    && (forall i :: 0 <= i < |casts| ==> CheckBallot(w, poll, casts[i].ballot).Ok?)
  }

  predicate Valid(w: World, h: History) {
    && SignedByService(w, h.poll, h.members)
    && GoodMembers(w, h.members)
    && GoodClaims(w, h.members, h.claims)
    && GoodCasts(w, h.poll, h.casts)
    && |h.casts| < MAX_SEQUENCE && |h.claims| <= MAX_SEQUENCE
    && (h.closedAt.Some? ==> h.closedAt.value != "")
  }

  ghost predicate AllValid(w: World, hs: Histories) {
    forall p :: p in hs ==> hs[p].poll.pollID == p == PollIDOf(w, hs[p].requestID, hs[p].poll) && Valid(w, hs[p])
  }

  /* The machine's steps. A hash already used in another row is the one outcome that reaches
     across polls; it is a digest collision (see module Collisions). */

  predicate LogHashUsed(w: World, hs: Histories, hash: string) {
    exists p | p in hs :: exists i :: 0 <= i < |Log(w, hs[p])| && Log(w, hs[p])[i].eventHash == hash
  }

  predicate CreditHashUsed(w: World, hs: Histories, hash: string) {
    exists p | p in hs ::
      exists i :: 0 <= i < |hs[p].claims| && CreditLog(w, hs[p].poll.pollID, hs[p].claims)[i].eventHash == hash
  }

  predicate PollHashUsed(w: World, hs: Histories, hash: string) {
    exists p | p in hs :: ArtifactHash(w, hs[p].poll) == hash
  }

  datatype Outcome<+T> = Outcome(histories: Histories, answer: Result<T>)

  function DoCreate(w: World, hs: Histories, request: CreateRequest, clock: Clock): Outcome<(Poll, bool)> {
    match ValidateCreate(w, request, clock.check)
    case Err(code) => Outcome(hs, Err(code))
    case Ok((members, commitment)) =>
      var poll := NewPoll(w, request, members, commitment);
      var createdAt := w.canonicalTime(clock.stamp);
      if poll.pollID in hs then
        Outcome(hs, if w.poll.text(hs[poll.pollID].poll) == w.poll.text(poll) then Ok((poll, false)) else Err("poll_conflict"))
      else if PollHashUsed(w, hs, ArtifactHash(w, poll)) then Outcome(hs, Err("poll_conflict"))
      else if !DistinctChoices(poll.choices) then Outcome(hs, Err("choice_write_failed"))
      else if LogHashUsed(w, hs, CreatedEvent(w, poll, createdAt).eventHash) then Outcome(hs, Err("ballot_event_write_failed"))
      else Outcome(hs[poll.pollID := History(request.requestID, poll, members, createdAt, [], [], None)], Ok((poll, true)))
  }

  predicate IsOpen(w: World, h: History, now: int) {
    h.closedAt.None? && w.parseTime(h.poll.closesAt).Some? && now < w.parseTime(h.poll.closesAt).value
  }

  function ClaimOf(claims: seq<Claimed>, fingerprint: string): Option<Issuance> {
    if claims == [] then None
    else if Last(claims).fingerprint == fingerprint then Some(Last(claims).issuance)
    else ClaimOf(Init(claims), fingerprint)
  }

  function DoClaim(w: World, hs: Histories, p: string, request: ClaimRequest, clock: Clock): Outcome<(string, bool)> {
    match CheckClaim(w, p, request)
    case Err(code) => Outcome(hs, Err(code))
    case Ok(fingerprint) =>
      if p !in hs then Outcome(hs, Err("poll_not_found")) else
      var h := hs[p];
      if !IsOpen(w, h, clock.check) then Outcome(hs, Err("poll_not_open"))
      else if MemberKey(request.sshPublicKey, fingerprint) !in h.members then Outcome(hs, Err("not_eligible"))
      else match ClaimOf(h.claims, fingerprint)
      case Some(held) =>
        Outcome(hs, if held.requestID != request.requestID then Err("credit_already_claimed")
                    else if held.blindedMessageHash == BlindedHash(w, request) then Ok((held.blindSignature, false))
                    else Err("issuance_request_mismatch"))
      case None =>
        match w.blindSign(request.blindedMessage)
        case Err(code) => Outcome(hs, Err(code))
        case Ok(signature) =>
          var issuance := Issuance(request.requestID, BlindedHash(w, request), signature, w.eventDay(clock.stamp));
          var claims := h.claims + [Claimed(fingerprint, issuance)];
          if |h.claims| >= MAX_SEQUENCE then Outcome(hs, Err("event_read_failed"))
          else if CreditHashUsed(w, hs, Last(CreditLog(w, p, claims)).eventHash) then Outcome(hs, Err("credit_event_write_failed"))
          else Outcome(hs[p := h.(claims := claims)], Ok((signature, true)))
  }

  // The place of a credential hash among the ballots.
  function CastIndex(w: World, casts: seq<Cast>, credentialHash: string): (k: Option<nat>)
    ensures k.Some? ==> k.value < |casts| && CredentialHash(w, casts[k.value].ballot.credential) == credentialHash
  {
    if casts == [] then None
    else if CredentialHash(w, Last(casts).ballot.credential) == credentialHash then Some(|casts| - 1)
    else CastIndex(w, Init(casts), credentialHash)
  }

  // The receipt of the k-th ballot.
  function ReceiptAt(w: World, h: History, k: nat): Receipt
    requires k < |h.casts|
  {
    var log := CastLog(w, h.poll, h.createdAt, h.casts[..k + 1]);
    ReceiptOf(w, CastRecord(w, h.poll, k + 2, h.casts[k]), Last(log).eventHash)
  }

  function DoVote(w: World, hs: Histories, p: string, request: BallotRequest, clock: Clock): Outcome<(Receipt, bool)> {
    if p !in hs then Outcome(hs, Err("poll_not_found")) else
    var h := hs[p];
    match CheckBallot(w, h.poll, request)
    case Err(code) => Outcome(hs, Err(code))
    case Ok(credentialHash) =>
      match CastIndex(w, h.casts, credentialHash)
      case Some(k) =>
        Outcome(hs, if h.casts[k].ballot == request then Ok((ReceiptAt(w, h, k), false)) else Err("credential_already_spent"))
      case None =>
        if !IsOpen(w, h, clock.check) then Outcome(hs, Err("poll_not_open"))
        else
          var casts := h.casts + [Cast(request, w.eventDay(clock.stamp))];
          if |h.casts| + 1 >= MAX_SEQUENCE then Outcome(hs, Err("event_read_failed"))
          else if LogHashUsed(w, hs, Last(CastLog(w, h.poll, h.createdAt, casts)).eventHash)
          then Outcome(hs, Err("ballot_event_write_failed"))
          else
            var after := h.(casts := casts);
            Outcome(hs[p := after], Ok((ReceiptAt(w, after, |h.casts|), true)))
  }

  function DoClose(w: World, hs: Histories, p: string, request: CloseRequest, clock: Clock): Outcome<(Tally, bool)> {
    match CheckClose(w, p, request)
    case Err(code) => Outcome(hs, Err(code))
    case Ok(_) =>
      if p !in hs then Outcome(hs, Err("poll_not_found")) else
      var h := hs[p];
      match h.closedAt
      case Some(at) => Outcome(hs, Ok((TallyOf(w, h.poll, h.casts, at), false)))
      case None =>
        var at := w.canonicalTime(clock.stamp);
        var after := h.(closedAt := Some(at));
        if |h.casts| + 1 >= MAX_SEQUENCE then Outcome(hs, Err("event_read_failed"))
        else if LogHashUsed(w, hs, Last(Log(w, after)).eventHash) then Outcome(hs, Err("ballot_event_write_failed"))
        else Outcome(hs[p := after], Ok((TallyOf(w, h.poll, h.casts, at), true)))
  }
}
