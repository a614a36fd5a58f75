/** CreatePoll, ClosePoll and Result on any store: who may do it, what is asked, and everything that is written or read. */
module Administration {
  import opened Wrappers
  import opened Artifacts
  import opened Store
  import opened Members
  import opened Tallies
  import opened Sequencer
  import opened History
  import opened Refinement
  import opened Creation
  import opened Safety
  import opened Guards
  import Choices

  /* What may be asked */

  predicate GoodLabel(w: World, title: string) {
    title != "" && title == w.trim(title) && |title| <= 100
  }

  // Between 2 and 20 labels, each trimmed, non-empty and of at most 100 bytes, no two the same after folding.
  predicate GoodLabels(w: World, labels: seq<string>) {
    && (forall i :: 0 <= i < |labels| ==> GoodLabel(w, labels[i]))
    && (forall i, j :: 0 <= i < j < |labels| ==> w.fold(labels[i]) != w.fold(labels[j]))
  }

  // Keys that parse, no two with one fingerprint.
  predicate GoodKeys(w: World, texts: seq<string>) {
    && (forall i :: 0 <= i < |texts| ==> w.ssh.parse(texts[i]).Some?)
    && (forall i, j :: 0 <= i < j < |texts| ==> w.ssh.fingerprint(w.ssh.parse(texts[i]).value) != w.ssh.fingerprint(w.ssh.parse(texts[j]).value))
  }

  predicate GoodTime(w: World, text: string, now: int) {
    w.parseTime(text).Some? && w.canonicalTime(w.parseTime(text).value) == text && w.parseTime(text).value > now
  }

  predicate Acceptable(w: World, request: CreateRequest, now: int) {
    && w.isRequestID(request.requestID)
    && request.question != "" && request.question == w.trim(request.question) && |request.question| <= 500
    && 2 <= |request.choices| <= 20 && GoodLabels(w, request.choices)
    && GoodTime(w, request.closesAt, now)
    && 2 <= |request.members| <= 1000 && GoodKeys(w, request.members)
  }

  lemma {:induction false} LabelsChecked(w: World, labels: seq<string>)
    ensures CheckLabels(w, labels).Ok? <==> GoodLabels(w, labels)
  {
    if labels != [] {
      var k := |labels| - 1;
      LabelsChecked(w, labels[..k]);
      if GoodLabels(w, labels) { assert GoodLabels(w, labels[..k]); }
    }
  }

  lemma KeysChecked(w: World, texts: seq<string>)
    ensures Members.Normalized(w, texts).Ok? <==> 2 <= |texts| <= 1000 && GoodKeys(w, texts)
  {
    CollectChecked(w, texts);
  }

  lemma CollectChecked(w: World, texts: seq<string>)
    ensures Collect(w, texts).Ok? <==> GoodKeys(w, texts)
  {
    if GoodKeys(w, texts) { CollectAccepts(w, texts); }
    if Collect(w, texts).Ok? { CollectOk(w, texts); }
  }

  /** validateCreateRequest and the signature check accept exactly what is acceptable and signed by an administrator. */
  lemma CreateChecked(w: World, request: CreateRequest, now: int)
    ensures ValidateCreate(w, request, now).Ok? <==>
              Acceptable(w, request, now) && Members.Normalized(w, request.members).Ok?
              && CreateSigned(w, request, Members.Normalized(w, request.members).value.0)
    ensures ValidateCreate(w, request, now).Ok? ==> ValidateCreate(w, request, now) == Members.Normalized(w, request.members)
  {
    hide CheckLabels, Members.Normalized, GoodLabels, GoodKeys;
    LabelsChecked(w, request.choices);
    KeysChecked(w, request.members);
  }

  // The refusals before the transaction, the first that applies: each with its code, and nothing changes.
  lemma CreateRefusals(w: World, db: Db, request: CreateRequest, clock: Clock)
    ensures var refused := code => CreatePoll(w, db, request, clock) == Step(db, Err(code));
            var (admin, members) := (w.ssh.parse(request.adminPublicKey), Members.Normalized(w, request.members));
            if !w.isRequestID(request.requestID) then refused("invalid_request_id")
            else if request.question == "" || request.question != w.trim(request.question) || |request.question| > 500
            then refused("invalid_question")
            else if !(2 <= |request.choices| <= 20) then refused("invalid_choices")
            else if !GoodLabels(w, request.choices) then exists code :: FirstBadLabel(w, request.choices, code) && refused(code)
            else if !GoodTime(w, request.closesAt, clock.check) then refused("invalid_close_time")
            else if !(2 <= |request.members| <= 1000) then refused("invalid_members")
            else if !GoodKeys(w, request.members) then exists code :: FirstBadKey(w, request.members, code) && refused(code)
            else if admin.None? || w.ssh.canonical(admin.value) != request.adminPublicKey then refused("invalid_admin_key")
            else if w.ssh.fingerprint(admin.value) !in w.admins then refused("admin_not_authorized")
            else (members.Ok? && !CreateSigned(w, request, members.value.0)) ==> refused("invalid_ssh_signature")
  {
    hide CheckLabels, Members.Normalized, GoodLabels, GoodKeys, CreateCommit, NewPoll, FirstBadLabel, FirstBadKey;
    LabelsChecked(w, request.choices);
    LabelCodes(w, request.choices);
    KeysChecked(w, request.members);
    KeyCodes(w, request.members);
  }

  // The code is that of the first label that is malformed or repeats an earlier one.
  predicate FirstBadLabel(w: World, labels: seq<string>, code: string) {
    exists k | 0 <= k < |labels| ::
      GoodLabels(w, labels[..k]) && !GoodLabels(w, labels[..k + 1])
      && code == if GoodLabel(w, labels[k]) then "duplicate_choice" else "invalid_choice"
  }

  // The code is that of the first key that does not parse or has the fingerprint of an earlier one.
  predicate FirstBadKey(w: World, texts: seq<string>, code: string) {
    exists k | 0 <= k < |texts| ::
      GoodKeys(w, texts[..k]) && !GoodKeys(w, texts[..k + 1])
      && code == if w.ssh.parse(texts[k]).Some? then "duplicate_eligible_key" else "invalid_member_key"
  }

  lemma {:induction false} LabelCodes(w: World, labels: seq<string>)
    ensures CheckLabels(w, labels).Err? ==> FirstBadLabel(w, labels, CheckLabels(w, labels).code)
  {
    hide CheckLabels, GoodLabels, GoodLabel, FirstBadLabel;
    NoLabels(w);
    if CheckLabels(w, labels).Err? {
      var before := labels[..|labels| - 1];
      LastLabel(w, labels);
      LabelsChecked(w, labels);
      LabelsChecked(w, before);
      if CheckLabels(w, before).Err? {
        LabelCodes(w, before);
        BadBefore(w, labels, CheckLabels(w, before).code);
      } else {
        BadLast(w, labels);
      }
    }
  }

  lemma BadBefore(w: World, labels: seq<string>, code: string)
    requires labels != [] && FirstBadLabel(w, labels[..|labels| - 1], code)
    ensures FirstBadLabel(w, labels, code)
  {
    hide GoodLabels, GoodLabel;
    var before := labels[..|labels| - 1];
    var j :| 0 <= j < |before| && GoodLabels(w, before[..j]) && !GoodLabels(w, before[..j + 1])
             && code == if GoodLabel(w, before[j]) then "duplicate_choice" else "invalid_choice";
    assert before[..j] == labels[..j] && before[..j + 1] == labels[..j + 1];
  }

  lemma BadLast(w: World, labels: seq<string>)
    requires labels != [] && GoodLabels(w, labels[..|labels| - 1]) && !GoodLabels(w, labels)
    ensures FirstBadLabel(w, labels, if GoodLabel(w, labels[|labels| - 1]) then "duplicate_choice" else "invalid_choice")
  {
    hide GoodLabels, GoodLabel;
    assert labels[..|labels| - 1 + 1] == labels;
  }

  lemma NoLabels(w: World)
    ensures CheckLabels(w, []).Ok?
  {
  }

  lemma LastLabel(w: World, labels: seq<string>)
    requires labels != [] && CheckLabels(w, labels).Err?
    ensures var before := CheckLabels(w, labels[..|labels| - 1]);
            CheckLabels(w, labels).code ==
            if before.Err? then before.code else if GoodLabel(w, labels[|labels| - 1]) then "duplicate_choice" else "invalid_choice"
  {
  }

  lemma {:induction false} CollectCodes(w: World, texts: seq<string>)
    ensures Collect(w, texts).Err? ==> FirstBadKey(w, texts, Collect(w, texts).code)
  {
    hide GoodKeys, FingerprintIn, KeyOf;
    if Collect(w, texts).Err? {
      var k := |texts| - 1;
      CollectChecked(w, texts);
      CollectChecked(w, texts[..k]);
      assert texts[..k + 1] == texts;
      if Collect(w, texts[..k]).Err? {
        CollectCodes(w, texts[..k]);
        var j :| 0 <= j < k && GoodKeys(w, texts[..k][..j]) && !GoodKeys(w, texts[..k][..j + 1])
                 && Collect(w, texts).code == if w.ssh.parse(texts[..k][j]).Some? then "duplicate_eligible_key" else "invalid_member_key";
        assert texts[..k][..j] == texts[..j] && texts[..k][..j + 1] == texts[..j + 1];
      }
    }
  }

  lemma KeyCodes(w: World, texts: seq<string>)
    ensures var keys := Members.Normalized(w, texts);
            if !(2 <= |texts| <= 1000) then keys == Err("invalid_members")
            else keys.Err? ==> FirstBadKey(w, texts, keys.code)
  {
    hide FirstBadKey;
    CollectCodes(w, texts);
  }

  /* What is created */

  // The poll is the one asked for, by and for this service, under the hash of what identifies it and with the service's signature.
  predicate AsksFor(w: World, request: CreateRequest, members: seq<MemberKey>, poll: Poll) {
    && poll.schemaVersion == 1 && poll.protocol == "vota-ssh-credit-v1"
    && poll.question == request.question && poll.closesAt == request.closesAt
    && |poll.choices| == |request.choices| && (forall i :: 0 <= i < |request.choices| ==> poll.choices[i].title == request.choices[i])
    && poll.issuerKeyID == w.issuerKeyID && poll.issuerPublicKey == w.issuerPublicKey && poll.checkpointPublicKey == w.keyText
    && poll.eligibleCount == |members| == |request.members|
    && poll.eligibilityCommitment == w.digest("vota:eligibility:v1" + "\0" + w.keys.text(Encodings(members)))
    && poll.pollID == w.digest("vota:poll-id:v1" + "\0" + w.pollSeed.text(
         PollSeed(request.requestID, request.question, poll.choices, request.closesAt, w.issuerKeyID, poll.eligibilityCommitment)))
    && poll.signature == w.sign("vota:poll-artifact:v1" + "\0" + w.poll.text(poll.(signature := "")))
  }

  lemma NewPollMeans(w: World, request: CreateRequest, members: seq<MemberKey>)
    requires |members| == |request.members|
    ensures AsksFor(w, request, members, NewPoll(w, request, members, Commitment(w, members)))
  {
    hide Choices.IdOf;
    var poll := NewPoll(w, request, members, Commitment(w, members));
    assert poll.(signature := "").(signature := "") == poll.(signature := "");
  }

  lemma SameSize(w: World, texts: seq<string>)
    requires w.ssh.RoundTrips() && Members.Normalized(w, texts).Ok?
    ensures |Members.Normalized(w, texts).value.0| == |texts|
  {
    CollectOk(w, texts);
    FingerprintsSeparate(w, texts);
    SortCorrect(Collect(w, texts).value);
  }

  lemma CreateAnswered(w: World, db: Db, request: CreateRequest, clock: Clock)
    requires w.ssh.RoundTrips() && CreatePoll(w, db, request, clock).answer.Ok?
    ensures ValidateCreate(w, request, clock.check).Ok? && Members.Normalized(w, request.members).Ok?
    ensures var members := Members.Normalized(w, request.members).value.0;
            && GoodMembers(w, members) && |members| == |request.members|
            && CreatePoll(w, db, request, clock)
               == CreateCommit(w, db, NewPoll(w, request, members, Commitment(w, members)), members, w.canonicalTime(clock.stamp))
  {
    hide Members.Normalized, ValidateCreate, GoodMembers, NewPoll, CreateCommit, Commitment;
    CreateChecked(w, request, clock.check);
    ValidatedMembers(w, request, clock.check);
    SameSize(w, request.members);
  }

  lemma CommitAnswers(w: World, db: Db, poll: Poll, members: seq<MemberKey>, createdAt: string)
    requires CreateCommit(w, db, poll, members, createdAt).answer.Ok?
    ensures CreateCommit(w, db, poll, members, createdAt).answer.value.0 == poll
  {
    hide CreateRows, Commit;
  }

  /** An answered creation was acceptable when it came and signed by an administrator over what was asked, and the poll in the answer is
      that poll. */
  lemma CreateGuarded(w: World, db: Db, request: CreateRequest, clock: Clock)
    requires w.ssh.RoundTrips() && CreatePoll(w, db, request, clock).answer.Ok?
    ensures Acceptable(w, request, clock.check) && Members.Normalized(w, request.members).Ok?
    ensures var members := Members.Normalized(w, request.members).value.0;
            CreateSigned(w, request, members) && AsksFor(w, request, members, CreatePoll(w, db, request, clock).answer.value.0)
  {
    hide Members.Normalized, ValidateCreate, GoodMembers, NewPoll, CreateCommit, Acceptable, CreateSigned, AsksFor, CreatePoll, Commitment;
    CreateAnswered(w, db, request, clock);
    CreateChecked(w, request, clock.check);
    var members := Members.Normalized(w, request.members).value.0;
    NewPollMeans(w, request, members);
    CommitAnswers(w, db, NewPoll(w, request, members, Commitment(w, members)), members, w.canonicalTime(clock.stamp));
  }

  // The rows of a new poll: the poll, its choices in order, one unclaimed credit for each member, the first event and its checkpoint.
  ghost predicate NewRows(w: World, poll: Poll, members: seq<MemberKey>, createdAt: string, file: PollFile) {
    var (artifact, p) := (w.poll.text(poll), poll.pollID);
    var artifactHash := w.digest("vota:poll-artifact:v1" + "\0" + artifact);
    && file.row == PollRow(p, artifactHash, artifact, "open", createdAt, poll.closesAt, "", poll.issuerKeyID, poll.eligibilityCommitment)
    && |file.choices| == |poll.choices|
    && (forall i :: 0 <= i < |poll.choices| ==> file.choices[i] == ChoiceRow(poll.choices[i].id, poll.choices[i].title, i))
    && (forall f :: f in file.credits <==> MemberIn(members, f))
    && (forall i :: 0 <= i < |members| ==>
          members[i].fingerprint in file.credits && file.credits[members[i].fingerprint] == CreditRow(members[i].encoded, None))
    && file.creditEvents == [] && file.spent == map[] && file.tally.None?
    && |file.ballotEvents| == |file.checkpoints| == 1 && FirstRows(w, p, artifactHash, createdAt, file.ballotEvents[0], file.checkpoints[0])
  }

  // The creation event of the poll with this artifact hash, and the checkpoint signed for it.
  predicate FirstRows(w: World, p: string, artifactHash: string, createdAt: string, event: BallotEvent, row: CheckpointRow) {
    var checkpoint := Checkpoint(1, "vota-ssh-credit-v1", p, 1, event.eventHash, "");
    && event.sequence == 1 && event.kind == "poll_created" && event.previousHash == EMPTY_HASH && event.receipt == ""
    && event.artifact == w.created.text(PollCreatedRecord("poll_created", artifactHash)) && event.recordedAt == createdAt
    && event.eventHash == w.digest("vota:ballot:event:v1" + "\0" + p + Be64(1) + EMPTY_HASH + event.artifact)
    && row.sequence == 1 && row.eventHash == event.eventHash
    && row.artifact == w.checkpoint.text(checkpoint.(signature := w.sign("vota:checkpoint:v1" + "\0" + w.checkpoint.text(checkpoint))))
  }

  lemma FirstRowsOf(w: World, poll: Poll, createdAt: string)
    ensures var event := CreatedEvent(w, poll, createdAt);
            FirstRows(w, poll.pollID, ArtifactHash(w, poll), createdAt, event, CheckpointRowOf(w, poll.pollID, 1, event.eventHash))
  {
    hide ArtifactHash;
    assert "vota:" + "ballot" + ":event:v1" == "vota:ballot:event:v1";
  }

  lemma PollRowFields(w: World, poll: Poll, createdAt: string)
    ensures ArtifactHash(w, poll) == w.digest("vota:poll-artifact:v1" + "\0" + w.poll.text(poll))
    ensures PollRowOf(w, poll, createdAt)
         == PollRow(poll.pollID, ArtifactHash(w, poll), w.poll.text(poll), "open", createdAt, poll.closesAt, "", poll.issuerKeyID,
                    poll.eligibilityCommitment)
  {
  }

  lemma CreditsOfMembers(members: seq<MemberKey>)
    requires DistinctFingerprints(members)
    ensures forall f :: f in Unclaimed(members) <==> MemberIn(members, f)
    ensures forall i :: 0 <= i < |members| ==>
              members[i].fingerprint in Unclaimed(members) && Unclaimed(members)[members[i].fingerprint] == CreditRow(members[i].encoded, None)
  {
    forall f ensures f in Unclaimed(members) <==> MemberIn(members, f) { UnclaimedRows(members, f); }
    forall i | 0 <= i < |members|
      ensures members[i].fingerprint in Unclaimed(members) && Unclaimed(members)[members[i].fingerprint] == CreditRow(members[i].encoded, None) {
      var f := members[i].fingerprint;
      assert MemberIn(members, f);
      UnclaimedRows(members, f);
      MemberUnique(members, members[i], MemberKey(Unclaimed(members)[f].sshPublicKey, f));
    }
  }

  lemma NewTables(w: World, requestID: string, poll: Poll, members: seq<MemberKey>, createdAt: string)
    requires DistinctFingerprints(members)
    ensures NewRows(w, poll, members, createdAt, Tables(w, History(requestID, poll, members, createdAt, [], [], None)))
  {
    hide Unclaimed, MemberIn, Tables, FirstRows, CreatedEvent, CheckpointRowOf, PollRowOf, ArtifactHash;
    CreatedTables(w, requestID, poll, members, createdAt);
    CreditsOfMembers(members);
    PollRowFields(w, poll, createdAt);
    FirstRowsOf(w, poll, createdAt);
    var event := CreatedEvent(w, poll, createdAt);
    assert event.sequence == 1 by { FirstSequence(w, poll, createdAt); }
    assert CheckpointsOf(w, poll.pollID, [event]) == [CheckpointRowOf(w, poll.pollID, 1, event.eventHash)];
  }

  lemma FirstSequence(w: World, poll: Poll, createdAt: string)
    ensures CreatedEvent(w, poll, createdAt).sequence == 1
  {
    hide EventHash, ArtifactHash;
  }

  /** What an answered creation leaves: all the rows of a poll that was not there, or nothing new beside the same stored artifact. */
  lemma CreateEffect(w: World, db: Db, request: CreateRequest, clock: Clock)
    requires w.ssh.RoundTrips() && CreatePoll(w, db, request, clock).answer.Ok? && Members.Normalized(w, request.members).Ok?
    ensures var (out, members) := (CreatePoll(w, db, request, clock), Members.Normalized(w, request.members).value.0);
            var (poll, p) := (out.answer.value.0, out.answer.value.0.pollID);
            if out.answer.value.1 then
              p !in db && p in out.db && NewRows(w, poll, members, w.canonicalTime(clock.stamp), out.db[p]) && out.db == db[p := out.db[p]]
            else out.db == db && p in db && db[p].row.artifact == w.poll.text(poll)
  {
    hide Members.Normalized, ValidateCreate, NewPoll, CreatePoll, CreateRows, Tables, NewRows, ArtifactHashTaken, BallotHashTaken, Commitment,
         DistinctChoices, CreatedEvent, Canonical, Commit;
    CreateAnswered(w, db, request, clock);
    var members := Members.Normalized(w, request.members).value.0;
    var (poll, createdAt) := (NewPoll(w, request, members, Commitment(w, members)), w.canonicalTime(clock.stamp));
    if poll.pollID !in db {
      CreateRowsForm(w, db, request.requestID, poll, members, createdAt);
      CreatedCommits(w, db, request.requestID, poll, members, createdAt);
      NewTables(w, request.requestID, poll, members, createdAt);
    }
  }

  /* Closing and the result */

  // Every accepted ballot of the log decodes to a listed choice, and the log is not closed.
  predicate Countable(w: World, choices: seq<Choice>, events: seq<BallotEvent>) {
    forall i :: 0 <= i < |events| ==>
      && events[i].kind != "poll_closed"
      && (events[i].kind == "ballot_accepted" ==>
            w.ballot.read(events[i].artifact).Some? && ChoiceExists(choices, w.ballot.read(events[i].artifact).value.choiceID))
  }

  // The totals, in the order of the choices, are the numbers of ballots of the log; the last of equal choices has them all.
  predicate CountsLog(w: World, choices: seq<Choice>, events: seq<BallotEvent>, totals: seq<ChoiceTotal>) {
    && |totals| == |choices|
    && forall i :: 0 <= i < |choices| ==>
         totals[i] == ChoiceTotal(choices[i].id, if Position(choices, choices[i].id) == Some(i) then BallotsFor(w, events, choices[i].id) else 0)
  }

  lemma {:induction false} CountMeans(w: World, choices: seq<Choice>, events: seq<BallotEvent>)
    ensures CountBallots(w, choices, events).Ok? <==> Countable(w, choices, events)
    ensures CountBallots(w, choices, events).Ok? ==>
              CountsLog(w, choices, events, CountBallots(w, choices, events).value.0)
              && CountBallots(w, choices, events).value.1 == Accepted(events)
  {
    hide Position;
    if events != [] {
      CountMeans(w, choices, Init(events));
      if Countable(w, choices, events) { assert Countable(w, choices, Init(events)); }
      assert events == Init(events) + [Last(events)];
    }
  }

  lemma CloseChecked(w: World, p: string, request: CloseRequest)
    ensures CheckClose(w, p, request).Ok? <==> CloseSigned(w, p, request)
  {
  }

  // The refusals of a close before its transaction.
  lemma CloseRefusals(w: World, db: Db, p: string, request: CloseRequest, clock: Clock)
    ensures var refused := code => Close(w, db, p, request, clock) == Step(db, Err(code));
            var admin := w.ssh.parse(request.adminPublicKey);
            if admin.None? || w.ssh.canonical(admin.value) != request.adminPublicKey then refused("invalid_admin_key")
            else if w.ssh.fingerprint(admin.value) !in w.admins then refused("admin_not_authorized")
            else if !CloseSigned(w, p, request) then refused("invalid_ssh_signature")
            else if p !in db then refused("poll_not_found")
            else if w.poll.read(db[p].row.artifact).None? then refused("invalid_stored_poll")
            else !HoldsPoll(w, db, p, w.poll.read(db[p].row.artifact).value) ==> refused("invalid_stored_poll")
  {
    hide CloseRows, SignedPoll, HoldsPoll;
    if p in db && w.poll.read(db[p].row.artifact).Some? {
      ReadsPoll(w, db, p, w.poll.read(db[p].row.artifact).value);
    } else {
      NoPoll(w, db, p);
    }
  }

  // The tally's structure fits the poll, and it carries a signature under the poll's key.
  predicate GenuineTally(w: World, poll: Poll, tally: Tally) {
    && w.keyDecodes(poll.checkpointPublicKey) && TallyFits(poll, tally)
    && w.verifies(poll.checkpointPublicKey, "vota:tally:v1" + "\0" + w.tally.text(tally.(signature := "")), tally.signature)
  }

  lemma TallyChecked(w: World, poll: Poll, tally: Tally)
    ensures TallyVerdict(w, poll, tally).Ok? <==> GenuineTally(w, poll, tally)
  {
  }

  lemma CloseAnswered(w: World, db: Db, p: string, request: CloseRequest, clock: Clock)
    requires Close(w, db, p, request, clock).answer.Ok?
    ensures CheckClose(w, p, request).Ok? && SignedPoll(w, db, p).Ok?
    ensures var rows := CloseRows(w, db, p, SignedPoll(w, db, p).value, w.canonicalTime(clock.stamp));
            rows.Ok? && Close(w, db, p, request, clock) == Step(rows.value.0, Ok(rows.value.1))
  {
    hide SignedPoll, CheckClose, CloseRows, Transact;
    TransactMeans(db, CloseRows(w, db, p, SignedPoll(w, db, p).value, w.canonicalTime(clock.stamp)));
  }

  // The four writes of a first close, as one change.
  lemma CloseWritten(w: World, db: Db, p: string, event: BallotEvent, row: CheckpointRow, now: string, tally: TallyRow, after: Db)
    requires NextBallotEvent(db, p).Ok? && event.sequence == NextBallotEvent(db, p).value.0
    requires var events := InsertBallotEvent(db, p, event);
             events.Ok? &&
             var checkpoints := SaveCheckpoint(events.value, p, row);
             checkpoints.Ok? &&
             var closed := ClosePoll(checkpoints.value, p, now);
             closed.Ok? && SaveTally(closed.value, p, tally) == Ok(after)
    ensures p in db && db[p].row.state == "open" && db[p].tally.None?
    ensures after == db[p := db[p].(row := db[p].row.(state := "closed", closedAt := now), ballotEvents := db[p].ballotEvents + [event],
                                    tally := Some(tally), checkpoints := PlaceCheckpoint(db[p].checkpoints, row))]
  {
    hide BallotHashTaken, FindEvent, PlaceCheckpoint;
    var events := InsertBallotEvent(db, p, event).value;
    assert events == db[p := db[p].(ballotEvents := db[p].ballotEvents + [event])];
  }

  lemma CloseRowsParts(w: World, db: Db, p: string, poll: Poll, now: string)
    requires CloseRows(w, db, p, poll, now).Ok?
    ensures p in db
    ensures var rows := CloseRows(w, db, p, poll, now).value;
            if rows.1.1 then
              && db[p].row.state == "open" && db[p].row.closesAt == poll.closesAt
              && CountBallots(w, poll.choices, db[p].ballotEvents).Ok? && NextBallotEvent(db, p).Ok?
              && var (counted, next) := (CountBallots(w, poll.choices, db[p].ballotEvents).value, NextBallotEvent(db, p).value);
                 var tally := SignTally(w, Tally(SCHEMA_VERSION, PROTOCOL, p, counted.1, counted.0, now, ""));
                 var event := ClosedEvent(w, tally, next.0, next.1);
                 var events := InsertBallotEvent(db, p, event);
                 && rows.1.0 == tally && events.Ok?
                 && var checkpoints := SaveCheckpoint(events.value, p, CheckpointRowOf(w, p, next.0, event.eventHash));
                    checkpoints.Ok? && ClosePoll(checkpoints.value, p, now).Ok?
                    && SaveTally(ClosePoll(checkpoints.value, p, now).value, p, TallyRow(event.artifact, now)) == Ok(rows.0)
            else
              && rows.0 == db && db[p].row.state == "closed" && db[p].tally.Some?
              && w.tally.read(db[p].tally.value.artifact) == Some(rows.1.0) && TallyVerdict(w, poll, rows.1.0).Ok?
  {
    hide TallyVerdict, CountBallots, NextBallotEvent, InsertBallotEvent, SaveCheckpoint, ClosePoll, SaveTally, SignTally, ClosedEvent, CheckpointRowOf;
  }

  // The closing event of a tally, field by field.
  predicate RecordsClose(w: World, p: string, events: seq<BallotEvent>, event: BallotEvent, tally: Tally) {
    var previous := if events == [] then (0, EMPTY_HASH) else (events[|events| - 1].sequence, events[|events| - 1].eventHash);
    && event.kind == "poll_closed" && event.sequence == previous.0 + 1 && event.previousHash == previous.1
    && event.artifact == w.tally.text(tally) && event.receipt == "" && event.recordedAt == tally.closedAt
    && event.eventHash == w.digest("vota:ballot:event:v1" + "\0" + p + Be64(event.sequence) + event.previousHash + event.artifact)
  }

  // The service's tally of a log: who it is for, the counts, the time, and the signature.
  predicate Tallied(w: World, p: string, poll: Poll, events: seq<BallotEvent>, tally: Tally, closedAt: string) {
    && tally.schemaVersion == 1 && tally.protocol == "vota-ssh-credit-v1" && tally.pollID == p && tally.closedAt == closedAt
    && Countable(w, poll.choices, events) && CountsLog(w, poll.choices, events, tally.totals) && tally.ballotCount == Accepted(events)
    && tally.signature == w.sign("vota:tally:v1" + "\0" + w.tally.text(tally.(signature := "")))
  }

  lemma CloseRecords(w: World, p: string, poll: Poll, events: seq<BallotEvent>, next: (nat, string), now: string)
    requires next == if events == [] then (1, EMPTY_HASH) else (events[|events| - 1].sequence + 1, events[|events| - 1].eventHash)
    requires CountBallots(w, poll.choices, events).Ok?
    ensures var counted := CountBallots(w, poll.choices, events).value;
            var tally := SignTally(w, Tally(SCHEMA_VERSION, PROTOCOL, p, counted.1, counted.0, now, ""));
            var event := ClosedEvent(w, tally, next.0, next.1);
            && Tallied(w, p, poll, events, tally, now) && RecordsClose(w, p, events, event, tally) && event.sequence == next.0
  {
    hide CountBallots, Countable, CountsLog, Accepted;
    CountMeans(w, poll.choices, events);
    assert "vota:" + "ballot" + ":event:v1" == "vota:ballot:event:v1";
  }

  lemma NextIs(db: Db, p: string)
    requires p in db && NextBallotEvent(db, p).Ok?
    ensures var events := db[p].ballotEvents;
            NextBallotEvent(db, p).value
            == if events == [] then (1, EMPTY_HASH) else (events[|events| - 1].sequence + 1, events[|events| - 1].eventHash)
  {
  }

  /** An answered close is signed by an administrator, for a stored, genuine poll. The first one counts the ballots of the log and writes
      the tally, one closing event and its checkpoint, and the new state; a later one answers the stored tally, verified again. */
  lemma CloseGuarded(w: World, db: Db, p: string, request: CloseRequest, clock: Clock)
    requires Close(w, db, p, request, clock).answer.Ok?
    ensures CloseSigned(w, p, request) && p in db && w.poll.read(db[p].row.artifact).Some?
    ensures var (out, poll) := (Close(w, db, p, request, clock), w.poll.read(db[p].row.artifact).value);
            var (tally, now) := (out.answer.value.0, w.canonicalTime(clock.stamp));
            HoldsPoll(w, db, p, poll) &&
            if out.answer.value.1 then
              && db[p].row.state == "open" && db[p].row.closesAt == poll.closesAt && db[p].tally.None?
              && Tallied(w, p, poll, db[p].ballotEvents, tally, now)
              && p in out.db && out.db[p].ballotEvents != []
              && var event := out.db[p].ballotEvents[|out.db[p].ballotEvents| - 1];
                 && RecordsClose(w, p, db[p].ballotEvents, event, tally)
                 && out.db == db[p := db[p].(row := db[p].row.(state := "closed", closedAt := now), ballotEvents := db[p].ballotEvents + [event],
                                             tally := Some(TallyRow(w.tally.text(tally), now)),
                                             checkpoints := PlaceCheckpoint(db[p].checkpoints, CheckpointRowOf(w, p, event.sequence, event.eventHash)))]
            else
              && out.db == db && db[p].row.state == "closed" && db[p].tally.Some?
              && w.tally.read(db[p].tally.value.artifact) == Some(tally) && GenuineTally(w, poll, tally)
  {
    hide SignedPoll, CheckClose, CloseRows, Close, HoldsPoll, CloseSigned, TallyVerdict, GenuineTally, Tallied, RecordsClose, CountBallots,
         NextBallotEvent, InsertBallotEvent, SaveCheckpoint, ClosePoll, SaveTally, SignTally, CheckpointRowOf, PlaceCheckpoint, EventHash;
    CloseAnswered(w, db, p, request, clock);
    CloseChecked(w, p, request);
    var (poll, out, now) := (SignedPoll(w, db, p).value, Close(w, db, p, request, clock), w.canonicalTime(clock.stamp));
    PollGuarded(w, db, p, poll);
    HeldPoll(w, db, p, poll);
    CloseRowsParts(w, db, p, poll, now);
    if out.answer.value.1 {
      NextIs(db, p);
      var (next, tally) := (NextBallotEvent(db, p).value, out.answer.value.0);
      CloseRecords(w, p, poll, db[p].ballotEvents, next, now);
      var event := ClosedEvent(w, tally, next.0, next.1);
      CloseWritten(w, db, p, event, CheckpointRowOf(w, p, next.0, event.eventHash), now, TallyRow(event.artifact, now), out.db);
      assert out.db[p].ballotEvents == db[p].ballotEvents + [event];
    } else {
      TallyChecked(w, poll, out.answer.value.0);
    }
  }

  /** Result answers with a tally exactly when the row says closed, the poll is genuine, and the stored tally decodes to it, fits the poll
      and is signed; an open poll has none. */
  lemma ResultGuarded(w: World, db: Db, p: string, tally: Tally)
    ensures ReadResult(w, db, p) == Ok(tally) <==>
              && p in db && db[p].row.state == "closed" && w.poll.read(db[p].row.artifact).Some?
              && HoldsPoll(w, db, p, w.poll.read(db[p].row.artifact).value)
              && db[p].tally.Some? && w.tally.read(db[p].tally.value.artifact) == Some(tally)
              && GenuineTally(w, w.poll.read(db[p].row.artifact).value, tally)
    ensures p in db && db[p].row.state != "closed" ==> ReadResult(w, db, p) == Err("result_unavailable")
  {
    hide SignedPoll, HoldsPoll, TallyVerdict, GenuineTally;
    if p in db && w.poll.read(db[p].row.artifact).Some? {
      var poll := w.poll.read(db[p].row.artifact).value;
      ReadsPoll(w, db, p, poll);
      TallyChecked(w, poll, tally);
    } else {
      NoPoll(w, db, p);
    }
  }
}
