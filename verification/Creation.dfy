/** Creating a poll: all of its rows appear, or none, and the transaction is the simple machine's step. */
module Creation {
  import opened Wrappers
  import opened Artifacts
  import opened Store
  import opened Members
  import opened Sequencer
  import opened History
  import opened Refinement

  /* The rows a creation inserts */

  lemma ChoiceRowsNext(choices: seq<Choice>)
    requires choices != []
    ensures var k := |choices| - 1;
            ChoiceRowsOf(choices) == ChoiceRowsOf(choices[..k]) + [ChoiceRow(choices[k].id, choices[k].title, k)]
  {
  }

  // The choices go in exactly when their ids are distinct: the primary key refuses a repeated one.
  lemma {:induction false} ChoicesInserted(db: Db, p: string, choices: seq<Choice>)
    requires p in db && db[p].choices == []
    ensures InsertChoices(db, p, choices) ==
            if DistinctChoices(choices) then Ok(db[p := db[p].(choices := ChoiceRowsOf(choices))])
            else Err("choice_write_failed")
  {
    if choices == [] {
      assert db[p := db[p].(choices := [])] == db;
    } else {
      var k := |choices| - 1;
      var init := choices[..k];
      ChoicesInserted(db, p, init);
      ChoiceRowsNext(choices);
      if DistinctChoices(init) {
        ChoiceInserted(db[p := db[p].(choices := ChoiceRowsOf(init))], p, choices);
        assert db[p := db[p].(choices := ChoiceRowsOf(init))][p := db[p].(choices := ChoiceRowsOf(choices))]
            == db[p := db[p].(choices := ChoiceRowsOf(choices))];
      } else {
        var i, j :| 0 <= i < j < |init| && init[i].id == init[j].id;
        assert choices[i].id == choices[j].id;
      }
    }
  }

  lemma ChoiceInserted(db: Db, p: string, choices: seq<Choice>)
    requires choices != [] && p in db && db[p].choices == ChoiceRowsOf(choices[..|choices| - 1])
    requires DistinctChoices(choices[..|choices| - 1])
    ensures var k := |choices| - 1;
            InsertChoice(db, p, ChoiceRow(choices[k].id, choices[k].title, k)) ==
            if DistinctChoices(choices) then Ok(db[p := db[p].(choices := ChoiceRowsOf(choices))])
            else Err("choice_write_failed")
  {
    var k := |choices| - 1;
    var init, rows := choices[..k], db[p].choices;
    assert forall i :: 0 <= i < k ==> init[i] == choices[i];
    ChoiceRowsNext(choices);
    if DistinctChoices(choices) {
      assert forall i :: 0 <= i < |rows| ==> rows[i].choiceID == choices[i].id && rows[i].position == i;
      assert PlaceChoice(rows, ChoiceRow(choices[k].id, choices[k].title, k)) == ChoiceRowsOf(choices);
    } else {
      var i, j :| 0 <= i < j < |choices| && choices[i].id == choices[j].id;
      assert j == k;
      assert rows[i].choiceID == choices[k].id;
    }
  }

  lemma {:induction false} UnclaimedKeys(members: seq<MemberKey>, f: string)
    requires f in Unclaimed(members)
    ensures exists i :: 0 <= i < |members| && members[i].fingerprint == f && members[i].encoded == Unclaimed(members)[f].sshPublicKey
  {
    if members != [] {
      if Last(members).fingerprint == f {
        assert members[|members| - 1].fingerprint == f;
      } else {
        UnclaimedKeys(Init(members), f);
        var i :| 0 <= i < |Init(members)| && Init(members)[i].fingerprint == f
                 && Init(members)[i].encoded == Unclaimed(Init(members))[f].sshPublicKey;
        assert members[i] == Init(members)[i];
      }
    }
  }

  lemma {:induction false} CreditsInserted(db: Db, p: string, members: seq<MemberKey>)
    requires p in db && db[p].credits == map[] && DistinctFingerprints(members) && DistinctEncodings(members)
    ensures InsertCredits(db, p, members) == Ok(db[p := db[p].(credits := Unclaimed(members))])
  {
    if members == [] {
      assert db[p := db[p].(credits := map[])] == db;
    } else {
      var k := |members| - 1;
      var init := members[..k];
      CreditsInserted(db, p, init);
      forall f | f in Unclaimed(init) ensures f != members[k].fingerprint && Unclaimed(init)[f].sshPublicKey != members[k].encoded {
        UnclaimedKeys(init, f);
        var i :| 0 <= i < |init| && init[i].fingerprint == f && init[i].encoded == Unclaimed(init)[f].sshPublicKey;
        assert members[i] == init[i];
      }
      var before := db[p := db[p].(credits := Unclaimed(init))];
      assert before[p := before[p].(credits := Unclaimed(members))] == db[p := db[p].(credits := Unclaimed(members))];
    }
  }

  lemma SortedDistinct(members: seq<MemberKey>)
    requires Sorted(members)
    ensures DistinctEncodings(members)
  {
    forall i, j | 0 <= i < j < |members| ensures members[i].encoded != members[j].encoded {
      LessTotal(members[i].encoded, members[j].encoded);
    }
  }

  // An inserted poll has no rows in any other table yet.
  function Fresh(row: PollRow): PollFile {
    PollFile(row, [], map[], [], [], map[], None, [])
  }

  lemma NewBallotHashes(db: Db, p: string, file: PollFile, hash: string)
    requires p !in db && file.ballotEvents == []
    ensures BallotHashTaken(db[p := file], hash) <==> BallotHashTaken(db, hash)
  {
    var after := db[p := file];
    if BallotHashTaken(after, hash) {
      var q :| q in after && exists i :: 0 <= i < |after[q].ballotEvents| && after[q].ballotEvents[i].eventHash == hash;
      assert q in db && db[q] == after[q];
    }
    if BallotHashTaken(db, hash) {
      var q :| q in db && exists i :: 0 <= i < |db[q].ballotEvents| && db[q].ballotEvents[i].eventHash == hash;
      assert q in after && db[q] == after[q];
    }
  }

  lemma CreatedTables(w: World, requestID: string, poll: Poll, members: seq<MemberKey>, createdAt: string)
    ensures var row := PollRowOf(w, poll, createdAt);
            var log := [CreatedEvent(w, poll, createdAt)];
            Tables(w, History(requestID, poll, members, createdAt, [], [], None)) ==
            PollFile(row, ChoiceRowsOf(poll.choices), Unclaimed(members), [], log, map[], None,
                     CheckpointsOf(w, poll.pollID, log))
  {
    hide CheckpointsOf, ChoiceRowsOf, Unclaimed, CreatedEvent, ArtifactHash;
  }

  // The first event and its checkpoint.
  lemma FirstEvent(w: World, db: Db, poll: Poll, createdAt: string)
    requires poll.pollID in db && db[poll.pollID].ballotEvents == [] && db[poll.pollID].checkpoints == []
    ensures var p, event := poll.pollID, CreatedEvent(w, poll, createdAt);
            var inserted := InsertBallotEvent(db, p, event);
            if BallotHashTaken(db, event.eventHash) then inserted == Err("ballot_event_write_failed")
            else
              && inserted.Ok?
              && SaveCheckpoint(inserted.value, p, CheckpointRowOf(w, p, 1, event.eventHash))
                 == Ok(db[p := db[p].(ballotEvents := [event], checkpoints := CheckpointsOf(w, p, [event]))])
  {
    hide BallotHashTaken, CheckpointRowOf, InsertBallotEvent, SaveCheckpoint;
    var p, event := poll.pollID, CreatedEvent(w, poll, createdAt);
    assert CheckpointsOf(w, p, []) == [];
    AppendForm(w, db, p, event);
    assert db[p].ballotEvents + [event] == [event];
  }

  /** Either every row of the poll, its first event and that event's checkpoint, or an error. */
  lemma CreateRowsForm(w: World, db: Db, requestID: string, poll: Poll, members: seq<MemberKey>, createdAt: string)
    requires poll.pollID !in db && Sorted(members) && DistinctFingerprints(members)
    ensures CreateRows(w, db, poll, members, createdAt) ==
            if ArtifactHashTaken(db, ArtifactHash(w, poll)) then Err("poll_conflict")
            else if !DistinctChoices(poll.choices) then Err("choice_write_failed")
            else if BallotHashTaken(db, CreatedEvent(w, poll, createdAt).eventHash) then Err("ballot_event_write_failed")
            else Ok(db[poll.pollID := Tables(w, History(requestID, poll, members, createdAt, [], [], None))])
  {
    hide ArtifactHashTaken, BallotHashTaken, DistinctChoices, ArtifactHash, CreatedEvent, CheckpointRowOf, ChoiceRowsOf,
         Unclaimed, InsertChoices, InsertCredits, InsertBallotEvent, SaveCheckpoint, Tables, CheckpointsOf, Sorted,
         DistinctFingerprints, DistinctEncodings;
    var p, row := poll.pollID, PollRowOf(w, poll, createdAt);
    var event := CreatedEvent(w, poll, createdAt);
    if !ArtifactHashTaken(db, ArtifactHash(w, poll)) {
      var polls := db[p := Fresh(row)];
      assert row.(state := "open", closedAt := "") == row;
      assert InsertPoll(db, row) == Ok(polls);
      ChoicesInserted(polls, p, poll.choices);
      if DistinctChoices(poll.choices) {
        var choices := polls[p := polls[p].(choices := ChoiceRowsOf(poll.choices))];
        SortedDistinct(members);
        CreditsInserted(choices, p, members);
        var credits := choices[p := choices[p].(credits := Unclaimed(members))];
        FirstEvent(w, credits, poll, createdAt);
        assert credits == db[p := credits[p]];
        NewBallotHashes(db, p, credits[p], event.eventHash);
        CreatedTables(w, requestID, poll, members, createdAt);
        assert credits[p := credits[p].(ballotEvents := [event], checkpoints := CheckpointsOf(w, p, [event]))]
            == db[p := Tables(w, History(requestID, poll, members, createdAt, [], [], None))];
      }
    }
  }

  /* The transaction */

  lemma CreatedCommits(w: World, db: Db, requestID: string, poll: Poll, members: seq<MemberKey>, createdAt: string)
    requires poll.pollID !in db
    ensures var after := db[poll.pollID := Tables(w, History(requestID, poll, members, createdAt, [], [], None))];
            Commit(db, after) == Ok(after)
  {
  }

  lemma ValidatedMembers(w: World, request: CreateRequest, now: int)
    requires w.ssh.RoundTrips() && ValidateCreate(w, request, now).Ok?
    ensures var (members, commitment) := ValidateCreate(w, request, now).value;
            && GoodMembers(w, members) && commitment == Commitment(w, members)
            && w.parseTime(request.closesAt).Some?
            && Members.Normalized(w, Encodings(members)) == Ok((members, commitment))
  {
    hide CheckLabels, Members.Normalized;
    NormalizedFacts(w, request.members);
    NormalizedIdempotent(w, request.members);
  }

  lemma CreateNew(w: World, hs: Histories, requestID: string, poll: Poll, members: seq<MemberKey>, createdAt: string)
    requires poll.pollID !in hs && GoodMembers(w, members)
    ensures CreateCommit(w, Render(w, hs), poll, members, createdAt) ==
            if PollHashUsed(w, hs, ArtifactHash(w, poll)) then Step(Render(w, hs), Err("poll_conflict"))
            else if !DistinctChoices(poll.choices) then Step(Render(w, hs), Err("choice_write_failed"))
            else if LogHashUsed(w, hs, CreatedEvent(w, poll, createdAt).eventHash)
            then Step(Render(w, hs), Err("ballot_event_write_failed"))
            else Step(Render(w, hs[poll.pollID := History(requestID, poll, members, createdAt, [], [], None)]), Ok((poll, true)))
  {
    hide Render, Tables, PollHashUsed, ArtifactHashTaken, BallotHashTaken, LogHashUsed, CreateRows, DistinctChoices, Commit,
         ArtifactHash, CreatedEvent, Sorted, DistinctFingerprints, Canonical;
    var db := Render(w, hs);
    RenderKeys(w, hs);
    CreateRowsForm(w, db, requestID, poll, members, createdAt);
    ArtifactQuery(w, hs, ArtifactHash(w, poll));
    BallotQuery(w, hs, CreatedEvent(w, poll, createdAt).eventHash);
    CreatedCommits(w, db, requestID, poll, members, createdAt);
    RenderUpdate(w, hs, poll.pollID, History(requestID, poll, members, createdAt, [], [], None));
  }

  lemma CreateAgain(w: World, hs: Histories, poll: Poll, members: seq<MemberKey>, createdAt: string)
    requires poll.pollID in hs
    ensures CreateCommit(w, Render(w, hs), poll, members, createdAt) ==
            Step(Render(w, hs), if w.poll.text(hs[poll.pollID].poll) == w.poll.text(poll) then Ok((poll, false)) else Err("poll_conflict"))
  {
    hide CreateRows, Log, CreditLog, CreditsOf, SpentOf, CheckpointsOf, ChoiceRowsOf, TallyRowOf, ArtifactHash;
  }

  lemma CreateRefines(w: World, hs: Histories, request: CreateRequest, clock: Clock)
    requires w.Honest() && AllValid(w, hs)
    ensures var out := DoCreate(w, hs, request, clock);
            CreatePoll(w, Render(w, hs), request, clock) == Step(Render(w, out.histories), out.answer)
  {
    hide Render, AllValid, w.Honest, ValidateCreate, NewPoll, CreateCommit, PollHashUsed, LogHashUsed, DistinctChoices,
         CreatedEvent, ArtifactHash, GoodMembers, Members.Normalized;
    HonestKeys(w);
    if ValidateCreate(w, request, clock.check).Ok? {
      var (members, commitment) := ValidateCreate(w, request, clock.check).value;
      ValidatedMembers(w, request, clock.check);
      var poll := NewPoll(w, request, members, commitment);
      if poll.pollID in hs {
        CreateAgain(w, hs, poll, members, w.canonicalTime(clock.stamp));
      } else {
        CreateNew(w, hs, request.requestID, poll, members, w.canonicalTime(clock.stamp));
      }
    }
  }

  lemma HonestKeys(w: World)
    requires w.Honest()
    ensures w.ssh.RoundTrips()
  {
  }
}
