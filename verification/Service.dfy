/** The service itself: each operation runs its checks, its reads and its transaction one statement
    after the other against the database, and is proved to do what module Sequencer says. */
module Services {
  import opened Wrappers
  import opened Artifacts
  import opened Store
  import opened Members
  import opened Tallies
  import S = Sequencer
  import Choices

  type Clock = S.Clock

  /* Loops that stop early */

  lemma {:induction false} LabelsFail(w: World, labels: seq<string>, k: nat)
    requires k <= |labels| && S.CheckLabels(w, labels[..k]).Err?
    ensures S.CheckLabels(w, labels) == S.CheckLabels(w, labels[..k])
    decreases |labels|
  {
    if k == |labels| {
      assert labels[..k] == labels;
    } else {
      assert labels[..|labels| - 1][..k] == labels[..k];
      LabelsFail(w, labels[..|labels| - 1], k);
    }
  }

  lemma {:induction false} ChoicesFail(db: Db, p: string, choices: seq<Choice>, k: nat)
    requires k <= |choices| && S.InsertChoices(db, p, choices[..k]).Err?
    ensures S.InsertChoices(db, p, choices) == S.InsertChoices(db, p, choices[..k])
    decreases |choices|
  {
    hide InsertChoice;
    if k == |choices| {
      assert choices[..k] == choices;
    } else {
      assert choices[..|choices| - 1][..k] == choices[..k];
      ChoicesFail(db, p, choices[..|choices| - 1], k);
    }
  }

  lemma {:induction false} CreditsFail(db: Db, p: string, members: seq<MemberKey>, k: nat)
    requires k <= |members| && S.InsertCredits(db, p, members[..k]).Err?
    ensures S.InsertCredits(db, p, members) == S.InsertCredits(db, p, members[..k])
    decreases |members|
  {
    hide InsertCredit;
    if k == |members| {
      assert members[..k] == members;
    } else {
      assert members[..|members| - 1][..k] == members[..k];
      CreditsFail(db, p, members[..|members| - 1], k);
    }
  }

  lemma CreditsStep(db: Db, p: string, members: seq<MemberKey>, k: nat)
    requires k < |members| && S.InsertCredits(db, p, members[..k]).Ok?
    ensures S.InsertCredits(db, p, members[..k + 1])
         == InsertCredit(S.InsertCredits(db, p, members[..k]).value, p, members[k].fingerprint, members[k].encoded)
  {
    hide InsertCredit;
    assert members[..k + 1][..k] == members[..k];
  }

  lemma ChoicesStep(db: Db, p: string, choices: seq<Choice>, k: nat)
    requires k < |choices| && S.InsertChoices(db, p, choices[..k]).Ok?
    ensures S.InsertChoices(db, p, choices[..k + 1])
         == InsertChoice(S.InsertChoices(db, p, choices[..k]).value, p, ChoiceRow(choices[k].id, choices[k].title, k))
  {
    hide InsertChoice;
    assert choices[..k + 1][..k] == choices[..k];
  }

  lemma {:induction false} CountFails(w: World, choices: seq<Choice>, events: seq<BallotEvent>, k: nat)
    requires k <= |events| && S.CountBallots(w, choices, events[..k]).Err?
    ensures S.CountBallots(w, choices, events) == S.CountBallots(w, choices, events[..k])
    decreases |events|
  {
    if k == |events| {
      assert events[..k] == events;
    } else {
      assert events[..|events| - 1][..k] == events[..k];
      CountFails(w, choices, events[..|events| - 1], k);
    }
  }

  /* validateCreateRequest */

  // A label among the first k has this folded form.
  predicate Folded(w: World, labels: seq<string>, k: nat, form: string)
    requires k <= |labels|
  {
    exists i :: 0 <= i < k && w.fold(labels[i]) == form
  }

  lemma LabelsStep(w: World, labels: seq<string>, k: nat)
    requires k < |labels| && S.CheckLabels(w, labels[..k]).Ok?
    ensures S.CheckLabels(w, labels[..k + 1]) ==
            if labels[k] == "" || labels[k] != w.trim(labels[k]) || |labels[k]| > 100 then Err("invalid_choice")
            else if Folded(w, labels, k, w.fold(labels[k])) then Err("duplicate_choice") else Ok(())
  {
    var through := labels[..k + 1];
    assert through[..k] == labels[..k];
    if Folded(w, labels, k, w.fold(labels[k])) {
      var i :| 0 <= i < k && w.fold(labels[i]) == w.fold(labels[k]);
      assert w.fold(through[i]) == w.fold(through[k]);
    }
  }

  method CheckLabels(w: World, labels: seq<string>) returns (result: Result<()>)
    ensures result == S.CheckLabels(w, labels)
  {
    var seen: set<string> := {};
    var index := 0;
    assert labels[..0] == [];
    while index < |labels|
      invariant 0 <= index <= |labels|
      invariant S.CheckLabels(w, labels[..index]).Ok?
      invariant forall form :: form in seen <==> Folded(w, labels, index, form)
    {
      hide S.CheckLabels;
      var choice := labels[index];
      LabelsStep(w, labels, index);
      if choice == "" || choice != w.trim(choice) || |choice| > 100 {
        LabelsFail(w, labels, index + 1);
        return Err("invalid_choice");
      }
      if w.fold(choice) in seen {
        LabelsFail(w, labels, index + 1);
        return Err("duplicate_choice");
      }
      seen := seen + {w.fold(choice)};
      index := index + 1;
    }
    assert labels[..index] == labels;
    return S.CheckLabels(w, labels);
  }

  method CheckAdmin(w: World, adminPublicKey: string) returns (result: Result<string>)
    ensures result == S.CheckAdmin(w, adminPublicKey)
  {
    var key := w.ssh.parse(adminPublicKey);
    if key.None? {
      return Err("invalid_admin_key");
    }
    if w.ssh.canonical(key.value) != adminPublicKey {
      return Err("invalid_admin_key");
    }
    if w.ssh.fingerprint(key.value) !in w.admins {
      return Err("admin_not_authorized");
    }
    return Ok(key.value);
  }

  method ValidateCreate(w: World, request: S.CreateRequest, now: int) returns (result: Result<(seq<MemberKey>, string)>)
    ensures result == S.ValidateCreate(w, request, now)
  {
    if !w.isRequestID(request.requestID) {
      return Err("invalid_request_id");
    }
    if request.question == "" || request.question != w.trim(request.question) || |request.question| > 500 {
      return Err("invalid_question");
    }
    if |request.choices| < 2 || |request.choices| > 20 {
      return Err("invalid_choices");
    }
    var labels := CheckLabels(w, request.choices);
    if labels.Err? {
      return Err(labels.code);
    }
    var closesAt := w.parseTime(request.closesAt);
    if closesAt.None? || w.canonicalTime(closesAt.value) != request.closesAt || closesAt.value <= now {
      return Err("invalid_close_time");
    }
    var members := NormalizeMembers(w, request.members);
    if members.Err? {
      return Err(members.code);
    }
    var admin := CheckAdmin(w, request.adminPublicKey);
    if admin.Err? {
      return Err(admin.code);
    }
    if !w.ssh.verifies(admin.value, ADMIN_NAMESPACE, S.CreateMessage(w, request, members.value.0), request.sshsig) {
      return Err("invalid_ssh_signature");
    }
    return members;
  }

  /* The counting loop of ClosePoll */

  method Positions(choices: seq<Choice>) returns (positions: map<string, nat>)
    ensures forall id :: id in positions <==> S.Position(choices, id).Some?
    ensures forall id | id in positions :: S.Position(choices, id) == Some(positions[id])
  {
    positions := map[];
    var index := 0;
    while index < |choices|
      invariant 0 <= index <= |choices|
      invariant forall id :: id in positions <==> S.Position(choices[..index], id).Some?
      invariant forall id | id in positions :: S.Position(choices[..index], id) == Some(positions[id])
    {
      assert choices[..index + 1][..index] == choices[..index];
      positions := positions[choices[index].id := index];
      index := index + 1;
    }
    assert choices[..index] == choices;
  }

  lemma CountStart(w: World, choices: seq<Choice>, events: seq<BallotEvent>)
    ensures S.CountBallots(w, choices, events[..0]) == Ok((S.NoVotes(choices), 0))
  {
  }

  lemma CountStep(w: World, choices: seq<Choice>, events: seq<BallotEvent>, k: nat)
    requires k < |events| && S.CountBallots(w, choices, events[..k]).Ok?
    ensures var (before, record) := (S.CountBallots(w, choices, events[..k]).value, w.ballot.read(events[k].artifact));
            S.CountBallots(w, choices, events[..k + 1]) ==
            if events[k].kind == "poll_closed" then Err("poll_not_open")
            else if events[k].kind != "ballot_accepted" then Ok(before)
            else if record.None? || S.Position(choices, record.value.choiceID).None? then Err("invalid_stored_ballot")
            else Ok((S.AddVote(before.0, S.Position(choices, record.value.choiceID).value), before.1 + 1))
  {
    hide S.Position, S.AddVote;
    assert events[..k + 1][..k] == events[..k] && events[..k + 1][k] == events[k];
  }

  // Counting a vote in place is AddVote on the array's contents.
  lemma Bumped(before: seq<ChoiceTotal>, after: seq<ChoiceTotal>, k: nat)
    requires k < |before| == |after| && after[k] == before[k].(total := before[k].total + 1)
    requires forall i :: 0 <= i < |before| && i != k ==> after[i] == before[i]
    ensures after == S.AddVote(before, k)
  {
  }

  // totals is updated in place, one vote at a time.
  method CountBallots(w: World, choices: seq<Choice>, events: seq<BallotEvent>) returns (result: Result<(seq<ChoiceTotal>, nat)>)
    ensures result == S.CountBallots(w, choices, events)
  {
    hide S.CountBallots, S.Position, S.AddVote;
    var totals := new ChoiceTotal[|choices|](i requires 0 <= i < |choices| => ChoiceTotal(choices[i].id, 0));
    var positions := Positions(choices);
    var ballotCount := 0;
    var index := 0;
    assert totals[..] == S.NoVotes(choices);
    CountStart(w, choices, events);
    while index < |events|
      invariant 0 <= index <= |events| && 0 <= ballotCount
      invariant S.CountBallots(w, choices, events[..index]) == Ok((totals[..], ballotCount))
    {
      var event := events[index];
      CountStep(w, choices, events, index);
      if event.kind == "poll_closed" {
        CountFails(w, choices, events, index + 1);
        return Err("poll_not_open");
      }
      if event.kind == "ballot_accepted" {
        var record := w.ballot.read(event.artifact);
        if record.None? || record.value.choiceID !in positions {
          CountFails(w, choices, events, index + 1);
          return Err("invalid_stored_ballot");
        }
        var position := positions[record.value.choiceID];
        ghost var before := totals[..];
        totals[position] := totals[position].(total := totals[position].total + 1);
        Bumped(before, totals[..], position);
        ballotCount := ballotCount + 1;
      }
      index := index + 1;
    }
    assert events[..index] == events;
    return Ok((totals[..], ballotCount));
  }

  class Service {
    const w: World
    const store: Database

    constructor (w: World, store: Database)
      ensures this.w == w && this.store == store
    {
      this.w := w;
      this.store := store;
    }

    // Poll: the stored artifact, decoded and verified.
    method Poll(p: string) returns (result: Result<Artifacts.Poll>)
      ensures result == S.SignedPoll(w, store.db, p)
    {
      var stored :- ReadPoll(store.db, p);
      var poll := w.poll.read(stored.artifact);
      if poll.None? || !VerifyPollArtifact(w, poll.value) {
        return Err("invalid_stored_poll");
      }
      return Ok(poll.value);
    }

    /* Store.Transaction: what follows a body that wrote store.db and ended in result */

    method Finish<T>(result: Result<T>) returns (answer: Result<T>)
      modifies store`db
      ensures result.Err? ==> store.db == store.snapshot && answer == result
      ensures result.Ok? ==> S.Step(store.db, answer) == S.Transact(store.snapshot, Ok((old(store.db), result.value)))
    {
      if result.Err? {
        store.Rollback();
        return result;
      }
      var _ :- store.CommitTx();
      return result;
    }

    /* CreatePoll */

    method InsertChoiceRows(p: string, choices: seq<Choice>) returns (result: Result<()>)
      modifies store`db
      ensures var rows := S.InsertChoices(old(store.db), p, choices);
              if rows.Ok? then result.Ok? && store.db == rows.value else result == Err(rows.code)
    {
      ghost var before := store.db;
      var index := 0;
      assert S.InsertChoices(before, p, choices[..0]) == Ok(before);
      while index < |choices|
        invariant 0 <= index <= |choices|
        invariant S.InsertChoices(before, p, choices[..index]) == Ok(store.db)
      {
        hide S.InsertChoices, InsertChoice;
        ChoicesStep(before, p, choices, index);
        var inserted := store.Exec(InsertChoice(store.db, p, ChoiceRow(choices[index].id, choices[index].title, index)));
        if inserted.Err? {
          ChoicesFail(before, p, choices, index + 1);
          return inserted;
        }
        index := index + 1;
      }
      assert choices[..index] == choices;
      return Ok(());
    }

    method InsertCreditRows(p: string, members: seq<MemberKey>) returns (result: Result<()>)
      modifies store`db
      ensures var rows := S.InsertCredits(old(store.db), p, members);
              if rows.Ok? then result.Ok? && store.db == rows.value else result == Err(rows.code)
    {
      ghost var before := store.db;
      var index := 0;
      assert S.InsertCredits(before, p, members[..0]) == Ok(before);
      while index < |members|
        invariant 0 <= index <= |members|
        invariant S.InsertCredits(before, p, members[..index]) == Ok(store.db)
      {
        hide S.InsertCredits, InsertCredit;
        CreditsStep(before, p, members, index);
        var inserted := store.Exec(InsertCredit(store.db, p, members[index].fingerprint, members[index].encoded));
        if inserted.Err? {
          CreditsFail(before, p, members, index + 1);
          return inserted;
        }
        index := index + 1;
      }
      assert members[..index] == members;
      return Ok(());
    }

    method CreateBody(poll: Artifacts.Poll, members: seq<MemberKey>, createdAt: string) returns (result: Result<()>)
      modifies store`db
      ensures var rows := S.CreateRows(w, old(store.db), poll, members, createdAt);
              if rows.Ok? then result.Ok? && store.db == rows.value else result == Err(rows.code)
    {
      hide InsertPoll, InsertBallotEvent, SaveCheckpoint, S.InsertChoices, S.InsertCredits, S.PollRowOf, S.CreatedEvent, S.CheckpointRowOf;
      var p := poll.pollID;
      var _ :- store.Exec(InsertPoll(store.db, S.PollRowOf(w, poll, createdAt)));
      var _ :- InsertChoiceRows(p, poll.choices);
      var _ :- InsertCreditRows(p, members);
      var event := S.CreatedEvent(w, poll, createdAt);
      var _ :- store.Exec(InsertBallotEvent(store.db, p, event));
      var _ :- store.Exec(SaveCheckpoint(store.db, p, S.CheckpointRowOf(w, p, 1, event.eventHash)));
      return Ok(());
    }

    method CreatePoll(request: S.CreateRequest, clock: Clock) returns (answer: Result<(Artifacts.Poll, bool)>)
      modifies store
      ensures S.Step(store.db, answer) == S.CreatePoll(w, old(store.db), request, clock)
    {
      hide S.ValidateCreate, S.CreateRows, Commit, Choices.Normalized, Members.Normalized;
      var validated :- ValidateCreate(w, request, clock.check);
      var normalized :- NormalizeMembers(w, Encodings(validated.0));
      var (members, commitment) := normalized;
      var choices := Choices.NormalizedChoices(w.slug, request.choices);
      var pollID := HashBytes(w, S.POLL_ID,
                              w.pollSeed.text(PollSeed(request.requestID, request.question, choices, request.closesAt,
                                                       w.issuerKeyID, commitment)));
      var poll := Artifacts.Poll(SCHEMA_VERSION, PROTOCOL, pollID, request.question, choices, request.closesAt, w.issuerKeyID,
                                 w.issuerPublicKey, w.keyText, commitment, |members|, "");
      poll := poll.(signature := w.sign(PollMessage(w, poll)));
      assert poll == S.NewPoll(w, request, members, commitment);
      var now := w.canonicalTime(clock.stamp);
      store.Begin();
      var existing := ReadPoll(store.db, pollID);
      if existing.Ok? {
        store.Rollback();
        if existing.value.artifact != w.poll.text(poll) {
          return Err("poll_conflict");
        }
        return Ok((poll, false));
      }
      var body := CreateBody(poll, members, now);
      var committed :- Finish(body);
      return Ok((poll, true));
    }

    /* Claim */

    method ClaimBody(p: string, request: S.ClaimRequest, fingerprint: string, clock: Clock) returns (result: Result<(string, bool)>)
      modifies store`db
      ensures var rows := S.ClaimRows(w, old(store.db), p, request, fingerprint, clock);
              if rows.Ok? then result == Ok(rows.value.1) && store.db == rows.value.0 else result == Err(rows.code)
    {
      hide S.RequireIssuer, S.RequireOpen, ReadPoll, ReadCredit, ClaimCredit, NextCreditEvent, InsertCreditEvent, S.CreditEventOf, S.BlindedHash;
      var poll :- ReadPoll(store.db, p);
      var _ :- S.RequireIssuer(w, poll);
      var _ :- S.RequireOpen(w, poll, clock.check);
      var credit :- ReadCredit(store.db, p, fingerprint);
      if credit.sshPublicKey != request.sshPublicKey {
        return Err("not_eligible");
      }
      var blindedHash := S.BlindedHash(w, request);
      if credit.claim.Some? && credit.claim.value.requestID != "" {
        if credit.claim.value.requestID == request.requestID && credit.claim.value.blindedMessageHash == blindedHash {
          return Ok((credit.claim.value.blindSignature, false));
        }
        if credit.claim.value.requestID == request.requestID {
          return Err("issuance_request_mismatch");
        }
        return Err("credit_already_claimed");
      }
      var blindSignature :- w.blindSign(request.blindedMessage);
      var issuance := Issuance(request.requestID, blindedHash, blindSignature, w.eventDay(clock.stamp));
      var _ :- store.Exec(ClaimCredit(store.db, p, fingerprint, issuance));
      var next :- NextCreditEvent(store.db, p);
      var _ :- store.Exec(InsertCreditEvent(store.db, p, S.CreditEventOf(w, p, next.0, next.1, fingerprint, issuance)));
      return Ok((blindSignature, true));
    }

    method Claim(p: string, request: S.ClaimRequest, clock: Clock) returns (answer: Result<(string, bool)>)
      modifies store
      ensures S.Step(store.db, answer) == S.Claim(w, old(store.db), p, request, clock)
    {
      hide S.ClaimRows, S.ClaimMessage, Commit;
      var parsed := w.ssh.parse(request.sshPublicKey);
      if parsed.None? {
        return Err("invalid_ssh_public_key");
      }
      if w.ssh.canonical(parsed.value) != request.sshPublicKey {
        return Err("invalid_ssh_public_key");
      }
      var fingerprint := w.ssh.fingerprint(parsed.value);
      if !w.isRequestID(request.requestID) {
        return Err("invalid_issuance_request_id");
      }
      if !w.isBlindedMessage(request.blindedMessage) {
        return Err("invalid_blinded_message");
      }
      if !w.ssh.verifies(parsed.value, CREDIT_CLAIM_NAMESPACE, S.ClaimMessage(w, p, request), request.sshsig) {
        return Err("invalid_ssh_signature");
      }
      store.Begin();
      var body := ClaimBody(p, request, fingerprint, clock);
      answer := Finish(body);
    }

    /* Vote */

    // The ballot of a credential that has voted already.
    method VoteAgain(existing: BallotEvent, credentialHash: string, request: S.BallotRequest) returns (result: Result<Receipt>)
      ensures result == S.RetryBallot(w, existing, credentialHash, request)
    {
      var record := w.ballot.read(existing.artifact);
      if record.None? {
        return Err("invalid_stored_ballot");
      }
      if record.value.credentialHash != credentialHash || record.value.choiceID != request.choiceID
         || record.value.credential != request.credential {
        return Err("credential_already_spent");
      }
      var receipt := w.receipt.read(existing.receipt);
      if receipt.None? {
        return Err("invalid_stored_receipt");
      }
      return Ok(receipt.value);
    }

    method VoteBody(p: string, poll: Artifacts.Poll, request: S.BallotRequest, credentialHash: string, clock: Clock)
      returns (result: Result<(Receipt, bool)>)
      modifies store`db
      ensures var rows := S.VoteRows(w, old(store.db), p, poll, request, credentialHash, clock);
              if rows.Ok? then result == Ok(rows.value.1) && store.db == rows.value.0 else result == Err(rows.code)
    {
      hide S.RequireOpen, ReadPoll, BallotByCredential, S.RetryBallot, ReadBallotEvents, S.ChoiceRowExists, ReadChoices, NextBallotEvent,
           SpendCredential, InsertBallotEvent, SaveCheckpoint, S.AcceptedEvent, S.ReceiptOf, S.RecordOf, S.CheckpointRowOf;
      var stored :- ReadPoll(store.db, p);
      var existing := BallotByCredential(store.db, p, credentialHash);
      if existing.Some? {
        var receipt :- VoteAgain(existing.value, credentialHash, request);
        return Ok((receipt, false));
      }
      if stored.closesAt != poll.closesAt {
        return Err("projection_content_mismatch");
      }
      var _ :- S.RequireOpen(w, stored, clock.check);
      var events := ReadBallotEvents(store.db, p);
      if events == [] || events[|events| - 1].kind == "poll_closed" {
        return Err("poll_not_open");
      }
      if !S.ChoiceRowExists(ReadChoices(store.db, p), request.choiceID) {
        return Err("invalid_choice");
      }
      var next :- NextBallotEvent(store.db, p);
      var record := S.RecordOf(p, next.0, credentialHash, request);
      var event := S.AcceptedEvent(w, record, next.1, w.eventDay(clock.stamp));
      var _ :- store.Exec(SpendCredential(store.db, p, credentialHash, next.0));
      var _ :- store.Exec(InsertBallotEvent(store.db, p, event));
      var _ :- store.Exec(SaveCheckpoint(store.db, p, S.CheckpointRowOf(w, p, next.0, event.eventHash)));
      return Ok((S.ReceiptOf(w, record, event.eventHash), true));
    }

    method Vote(p: string, request: S.BallotRequest, clock: Clock) returns (answer: Result<(Receipt, bool)>)
      modifies store
      ensures S.Step(store.db, answer) == S.Vote(w, old(store.db), p, request, clock)
    {
      hide S.SignedPoll, VerifyWireCredential, S.VoteRows, Commit;
      var poll :- Poll(p);
      var credentialHash :- VerifyWireCredential(w, poll, request.credential);
      if !ChoiceExists(poll.choices, request.choiceID) {
        return Err("invalid_choice");
      }
      store.Begin();
      var body := VoteBody(p, poll, request, credentialHash, clock);
      answer := Finish(body);
    }

    /* ClosePoll and Result */

    method CloseBody(p: string, poll: Artifacts.Poll, now: string) returns (result: Result<(Tally, bool)>)
      modifies store`db
      ensures var rows := S.CloseRows(w, old(store.db), p, poll, now);
              if rows.Ok? then result == Ok(rows.value.1) && store.db == rows.value.0 else result == Err(rows.code)
    {
      hide ReadPoll, ReadTally, TallyVerdict, S.CountBallots, ReadBallotEvents, NextBallotEvent, InsertBallotEvent, SaveCheckpoint,
           Store.ClosePoll, SaveTally, S.ClosedEvent, S.CheckpointRowOf, S.SignTally;
      var stored :- ReadPoll(store.db, p);
      if stored.state == "closed" {
        var row :- ReadTally(store.db, p);
        var tally := w.tally.read(row.artifact);
        if tally.None? {
          return Err("internal_error");
        }
        var _ :- TallyVerdict(w, poll, tally.value);
        return Ok((tally.value, false));
      }
      if stored.state != "open" || stored.closesAt != poll.closesAt {
        return Err("poll_not_open");
      }
      var counted :- CountBallots(w, poll.choices, ReadBallotEvents(store.db, p));
      var tally := S.SignTally(w, Tally(SCHEMA_VERSION, PROTOCOL, p, counted.1, counted.0, now, ""));
      var next :- NextBallotEvent(store.db, p);
      var event := S.ClosedEvent(w, tally, next.0, next.1);
      var _ :- store.Exec(InsertBallotEvent(store.db, p, event));
      var _ :- store.Exec(SaveCheckpoint(store.db, p, S.CheckpointRowOf(w, p, next.0, event.eventHash)));
      var _ :- store.Exec(Store.ClosePoll(store.db, p, now));
      var _ :- store.Exec(SaveTally(store.db, p, TallyRow(event.artifact, now)));
      return Ok((tally, true));
    }

    method ClosePoll(p: string, request: S.CloseRequest, clock: Clock) returns (answer: Result<(Tally, bool)>)
      modifies store
      ensures S.Step(store.db, answer) == S.Close(w, old(store.db), p, request, clock)
    {
      hide S.SignedPoll, S.CloseRows, Commit;
      var key :- CheckAdmin(w, request.adminPublicKey);
      if !w.ssh.verifies(key, ADMIN_NAMESPACE, w.closeMessage.text(CloseContent(p, request.adminPublicKey)), request.sshsig) {
        return Err("invalid_ssh_signature");
      }
      var poll :- Poll(p);
      store.Begin();
      var body := CloseBody(p, poll, w.canonicalTime(clock.stamp));
      answer := Finish(body);
    }

    method Result(p: string) returns (result: Result<Tally>)
      ensures result == S.ReadResult(w, store.db, p)
    {
      hide S.SignedPoll, TallyVerdict;
      var stored :- ReadPoll(store.db, p);
      if stored.state != "closed" {
        return Err("result_unavailable");
      }
      var poll :- Poll(p);
      var row :- ReadTally(store.db, p);
      var tally := w.tally.read(row.artifact);
      if tally.None? || TallyVerdict(w, poll, tally.value).Err? {
        return Err("invalid_stored_tally");
      }
      return Ok(tally.value);
    }
  }
}
