/** Closing a poll: what the counting loop counts, that the signed tally verifies, and that the
    transaction is the simple machine's step. */
module Closing {
  import opened Wrappers
  import opened Artifacts
  import opened Store
  import opened Tallies
  import opened Sequencer
  import opened History
  import opened Refinement

  /* Counting */

  predicate ChoicesListed(choices: seq<Choice>, casts: seq<Cast>) {
    forall i :: 0 <= i < |casts| ==> ChoiceExists(choices, casts[i].ballot.choiceID)
  }

  // One more ballot adds one vote at its choice's place.
  lemma TotalsNext(choices: seq<Choice>, casts: seq<Cast>, cast: Cast, k: nat)
    requires DistinctChoices(choices) && k < |choices| && choices[k].id == cast.ballot.choiceID
    ensures TotalsOf(choices, casts + [cast]) == AddVote(TotalsOf(choices, casts), k)
  {
  }

  // One ballot event counts as one vote for its choice.
  lemma CountNext(w: World, choices: seq<Choice>, before: seq<BallotEvent>, record: BallotRecord, previous: string, day: string, k: nat)
    requires w.Honest() && Position(choices, record.choiceID) == Some(k)
    requires CountBallots(w, choices, before).Ok?
    ensures CountBallots(w, choices, before + [AcceptedEvent(w, record, previous, day)])
         == Ok((AddVote(CountBallots(w, choices, before).value.0, k), CountBallots(w, choices, before).value.1 + 1))
  {
    hide ReceiptOf, EventHash;
    var events := before + [AcceptedEvent(w, record, previous, day)];
    assert events[..|events| - 1] == before;
    assert w.ballot.read(w.ballot.text(record)) == Some(record);
  }

  lemma CountNone(w: World, poll: Poll, createdAt: string)
    ensures CountBallots(w, poll.choices, [CreatedEvent(w, poll, createdAt)]) == Ok((NoVotes(poll.choices), 0))
  {
    assert [CreatedEvent(w, poll, createdAt)][..0] == [];
  }

  // The loop of ClosePoll counts, for every choice, the ballots that name it.
  lemma {:induction false} CountsCasts(w: World, poll: Poll, createdAt: string, casts: seq<Cast>)
    requires w.Honest() && DistinctChoices(poll.choices) && ChoicesListed(poll.choices, casts)
    ensures CountBallots(w, poll.choices, CastLog(w, poll, createdAt, casts)) == Ok((TotalsOf(poll.choices, casts), |casts|))
  {
    hide w.Honest, AcceptedEvent, CountBallots;
    if casts == [] {
      CountNone(w, poll, createdAt);
      assert TotalsOf(poll.choices, []) == NoVotes(poll.choices);
    } else {
      CountsCasts(w, poll, createdAt, Init(casts));
      assert casts == Init(casts) + [Last(casts)];
      var before := CastLog(w, poll, createdAt, Init(casts));
      var k := Position(poll.choices, Last(casts).ballot.choiceID).value;
      CountNext(w, poll.choices, before, CastRecord(w, poll, |before| + 1, Last(casts)), Last(before).eventHash, Last(casts).day, k);
      TotalsNext(poll.choices, Init(casts), Last(casts), k);
    }
  }

  /* The tally fits its poll */

  lemma {:induction false} SumAddVote(totals: seq<ChoiceTotal>, k: nat)
    requires k < |totals|
    ensures Sum(AddVote(totals, k)) == Sum(totals) + 1
  {
    var after := AddVote(totals, k);
    if k == |totals| - 1 {
      assert after[..k] == totals[..k];
    } else {
      SumAddVote(Init(totals), k);
      assert Init(after) == AddVote(Init(totals), k);
    }
  }

  lemma {:induction false} SumNone(choices: seq<Choice>)
    ensures Sum(NoVotes(choices)) == 0
  {
    if choices != [] {
      SumNone(Init(choices));
      assert Init(NoVotes(choices)) == NoVotes(Init(choices));
    }
  }

  // Every accepted ballot is counted once: the totals add up to the number of ballots.
  lemma {:induction false} TotalsSum(choices: seq<Choice>, casts: seq<Cast>)
    requires DistinctChoices(choices) && ChoicesListed(choices, casts)
    ensures Sum(TotalsOf(choices, casts)) == |casts|
  {
    if casts == [] {
      assert TotalsOf(choices, []) == NoVotes(choices);
      SumNone(choices);
    } else {
      TotalsSum(choices, Init(casts));
      assert casts == Init(casts) + [Last(casts)];
      var k := Position(choices, Last(casts).ballot.choiceID).value;
      TotalsNext(choices, Init(casts), Last(casts), k);
      SumAddVote(TotalsOf(choices, Init(casts)), k);
    }
  }

  lemma TotalsFit(choices: seq<Choice>, casts: seq<Cast>)
    requires DistinctChoices(choices)
    ensures TotalsListed(choices, TotalsOf(choices, casts)) && DistinctTotals(TotalsOf(choices, casts))
  {
  }

  lemma ValidListed(w: World, h: History)
    requires Valid(w, h)
    ensures ChoicesListed(h.poll.choices, h.casts) && DistinctChoices(h.poll.choices)
    ensures h.poll.schemaVersion == SCHEMA_VERSION && h.poll.protocol == PROTOCOL && h.poll.checkpointPublicKey == w.keyText
  {
    hide VerifyWireCredential, GoodMembers, GoodClaims;
  }

  lemma TallySigned(w: World, tally: Tally)
    requires w.Honest()
    ensures VerifyTally(w, w.keyText, SignTally(w, tally)) && w.keyDecodes(w.keyText)
  {
    SignatureVerifies(w, TallyMessage(w, tally.(signature := "")));
  }

  // The tally ClosePoll signs passes VerifyTallyForPoll.
  lemma TallyVerifies(w: World, h: History, at: string)
    requires w.Honest() && Valid(w, h)
    ensures TallyVerdict(w, h.poll, TallyOf(w, h.poll, h.casts, at)) == Ok(())
  {
    hide Valid, w.Honest, Sum, TotalsListed, DistinctTotals, DistinctChoices, ChoicesListed, VerifyTally;
    ValidListed(w, h);
    TotalsSum(h.poll.choices, h.casts);
    TotalsFit(h.poll.choices, h.casts);
    TallySigned(w, Tally(SCHEMA_VERSION, PROTOCOL, h.poll.pollID, |h.casts|, TotalsOf(h.poll.choices, h.casts), at, ""));
  }

  /* The transaction */

  // Closing appends the closing event and its checkpoint, marks the poll closed and stores the tally.
  lemma CloseTables(w: World, h: History, at: string)
    requires h.closedAt.None?
    ensures Tables(w, h.(closedAt := Some(at))) ==
            Tables(w, h).(row := Tables(w, h).row.(state := "closed", closedAt := at),
                          ballotEvents := Log(w, h.(closedAt := Some(at))),
                          tally := Some(TallyRow(w.tally.text(TallyOf(w, h.poll, h.casts, at)), at)),
                          checkpoints := CheckpointsOf(w, h.poll.pollID, Log(w, h.(closedAt := Some(at)))))
    ensures Log(w, h.(closedAt := Some(at)))
         == Log(w, h) + [ClosedEvent(w, TallyOf(w, h.poll, h.casts, at), |Log(w, h)| + 1, Last(Log(w, h)).eventHash)]
  {
    hide CheckpointsOf, CreditLog, CreditsOf, CastLog, SpentOf, ChoiceRowsOf, TallyOf, ClosedEvent, ArtifactHash;
  }

  // The four writes of a close.
  function CloseWrites(w: World, db: Db, p: string, tally: Tally): Result<Db> {
    var next :- NextBallotEvent(db, p);
    var event := ClosedEvent(w, tally, next.0, next.1);
    var events :- InsertBallotEvent(db, p, event);
    var checkpoints :- SaveCheckpoint(events, p, CheckpointRowOf(w, p, next.0, event.eventHash));
    var closed :- ClosePoll(checkpoints, p, tally.closedAt);
    SaveTally(closed, p, TallyRow(event.artifact, tally.closedAt))
  }

  lemma CloseWritesForm(w: World, db: Db, p: string, tally: Tally)
    requires p in db && db[p].ballotEvents != [] && Numbered(db[p].ballotEvents)
    requires db[p].checkpoints == CheckpointsOf(w, p, db[p].ballotEvents)
    requires db[p].row.state == "open" && db[p].tally.None?
    ensures var events := db[p].ballotEvents;
            var event := ClosedEvent(w, tally, |events| + 1, Last(events).eventHash);
            var log := events + [event];
            CloseWrites(w, db, p, tally) ==
            if |events| >= MAX_SEQUENCE then Err("event_read_failed")
            else if BallotHashTaken(db, event.eventHash) then Err("ballot_event_write_failed")
            else Ok(db[p := db[p].(row := db[p].row.(state := "closed", closedAt := tally.closedAt), ballotEvents := log,
                                   tally := Some(TallyRow(w.tally.text(tally), tally.closedAt)),
                                   checkpoints := CheckpointsOf(w, p, log))])
  {
    hide CheckpointsOf, BallotHashTaken, CheckpointRowOf, InsertBallotEvent, SaveCheckpoint;
    var events := db[p].ballotEvents;
    var event := ClosedEvent(w, tally, |events| + 1, Last(events).eventHash);
    AppendForm(w, db, p, event);
    var log := events + [event];
    if |events| < MAX_SEQUENCE && !BallotHashTaken(db, event.eventHash) {
      var mid := db[p := db[p].(ballotEvents := log, checkpoints := CheckpointsOf(w, p, log))];
      var closed := mid[p := mid[p].(row := mid[p].row.(state := "closed", closedAt := tally.closedAt))];
      assert ClosePoll(mid, p, tally.closedAt) == Ok(closed);
      assert closed[p := closed[p].(tally := Some(TallyRow(w.tally.text(tally), tally.closedAt)))]
          == db[p := db[p].(row := db[p].row.(state := "closed", closedAt := tally.closedAt), ballotEvents := log,
                            tally := Some(TallyRow(w.tally.text(tally), tally.closedAt)),
                            checkpoints := CheckpointsOf(w, p, log))];
    }
  }

  lemma OpenParts(w: World, hs: Histories, p: string)
    requires AllValid(w, hs) && p in hs && hs[p].closedAt.None?
    ensures var db, h := Render(w, hs), hs[p];
            && h.poll.pollID == p && p in db && db[p] == Tables(w, h)
            && db[p].ballotEvents == Log(w, h) && Numbered(Log(w, h)) && |Log(w, h)| == |h.casts| + 1
            && db[p].checkpoints == CheckpointsOf(w, p, Log(w, h))
            && db[p].row.state == "open" && db[p].row.closesAt == h.poll.closesAt && db[p].tally.None?
  {
    hide Log, CreditLog, CreditsOf, SpentOf, CheckpointsOf, ChoiceRowsOf, ArtifactHash, Valid;
    LogNumbered(w, hs[p]);
  }

  // The tables after a close.
  lemma CloseRendered(w: World, hs: Histories, p: string, at: string)
    requires AllValid(w, hs) && p in hs && hs[p].closedAt.None?
    ensures var db, h := Render(w, hs), hs[p];
            var closed := h.(closedAt := Some(at));
            var log := Log(w, closed);
            && Render(w, hs[p := closed])
               == db[p := db[p].(row := db[p].row.(state := "closed", closedAt := at), ballotEvents := log,
                                 tally := Some(TallyRow(w.tally.text(TallyOf(w, h.poll, h.casts, at)), at)),
                                 checkpoints := CheckpointsOf(w, p, log))]
            && log == Log(w, h) + [ClosedEvent(w, TallyOf(w, h.poll, h.casts, at), |h.casts| + 2, Last(Log(w, h)).eventHash)]
            && TallyOf(w, h.poll, h.casts, at).closedAt == at
  {
    hide Tables, Valid, AllValid, Log, CheckpointsOf, ClosedEvent;
    OpenParts(w, hs, p);
    CloseTables(w, hs[p], at);
    RenderUpdate(w, hs, p, hs[p].(closedAt := Some(at)));
  }

  lemma FreshClose(w: World, hs: Histories, p: string, at: string)
    requires AllValid(w, hs) && p in hs && hs[p].closedAt.None?
    ensures var db, h := Render(w, hs), hs[p];
            var closed := h.(closedAt := Some(at));
            var after := Render(w, hs[p := closed]);
            && Commit(db, after) == Ok(after)
            && CloseWrites(w, db, p, TallyOf(w, h.poll, h.casts, at)) ==
               if |h.casts| + 1 >= MAX_SEQUENCE then Err("event_read_failed")
               else if LogHashUsed(w, hs, Last(Log(w, closed)).eventHash) then Err("ballot_event_write_failed")
               else Ok(after)
  {
    hide Render, Tables, AllValid, Log, CheckpointsOf, TallyOf, ClosedEvent, CloseWrites, BallotHashTaken, LogHashUsed, Commit;
    var db, h := Render(w, hs), hs[p];
    var closed := h.(closedAt := Some(at));
    OpenParts(w, hs, p);
    CloseRendered(w, hs, p, at);
    CloseWritesForm(w, db, p, TallyOf(w, h.poll, h.casts, at));
    BallotQuery(w, hs, Last(Log(w, closed)).eventHash);
    ClaimCommits(w, hs, p, closed);
  }

  // What the transaction of ClosePoll reads from an open poll's tables.
  lemma CloseReads(w: World, hs: Histories, p: string)
    requires w.Honest() && AllValid(w, hs) && p in hs && hs[p].closedAt.None?
    ensures var db, h := Render(w, hs), hs[p];
            && ReadPoll(db, p) == Ok(db[p].row) && db[p].row.state == "open" && db[p].row.closesAt == h.poll.closesAt
            && CountBallots(w, h.poll.choices, ReadBallotEvents(db, p)) == Ok((TotalsOf(h.poll.choices, h.casts), |h.casts|))
  {
    hide Tables, w.Honest, CountBallots, CastLog, Log, CheckpointsOf;
    OpenParts(w, hs, p);
    OpenLog(w, hs[p]);
    ValidListed(w, hs[p]);
    CountsCasts(w, hs[p].poll, hs[p].createdAt, hs[p].casts);
  }

  lemma ValidPollID(w: World, hs: Histories, p: string)
    requires AllValid(w, hs) && p in hs
    ensures hs[p].poll.pollID == p
  {
  }

  // What it reads from a closed poll's.
  lemma ClosedReads(w: World, hs: Histories, p: string)
    requires w.Honest() && AllValid(w, hs) && p in hs && hs[p].closedAt.Some?
    ensures var db, h := Render(w, hs), hs[p];
            var tally := TallyOf(w, h.poll, h.casts, h.closedAt.value);
            && p in db && ReadPoll(db, p) == Ok(db[p].row) && db[p].row.state == "closed"
            && ReadTally(db, p).Ok? && w.tally.read(ReadTally(db, p).value.artifact) == Some(tally)
            && TallyVerdict(w, h.poll, tally) == Ok(())
  {
    hide Log, CreditLog, CreditsOf, SpentOf, CheckpointsOf, ChoiceRowsOf, ArtifactHash, TallyOf, TallyVerdict, Valid;
    var h := hs[p];
    TallyVerifies(w, h, h.closedAt.value);
    TallyDecodes(w, TallyOf(w, h.poll, h.casts, h.closedAt.value));
  }

  lemma TallyDecodes(w: World, tally: Tally)
    requires w.Honest()
    ensures w.tally.read(w.tally.text(tally)) == Some(tally)
  {
  }

  // An open poll's transaction is the count and the four writes.
  lemma CloseRowsForm(w: World, db: Db, p: string, poll: Poll, now: string)
    requires ReadPoll(db, p).Ok? && ReadPoll(db, p).value.state == "open" && ReadPoll(db, p).value.closesAt == poll.closesAt
    requires CountBallots(w, poll.choices, ReadBallotEvents(db, p)).Ok?
    ensures var counted := CountBallots(w, poll.choices, ReadBallotEvents(db, p)).value;
            var tally := SignTally(w, Tally(SCHEMA_VERSION, PROTOCOL, p, counted.1, counted.0, now, ""));
            CloseRows(w, db, p, poll, now) == match CloseWrites(w, db, p, tally)
                                              case Ok(after) => Ok((after, (tally, true)))
                                              case Err(code) => Err(code)
  {
    hide CountBallots, ReadPoll, ReadBallotEvents, NextBallotEvent, InsertBallotEvent, SaveCheckpoint, ClosePoll, SaveTally,
         EventHash, CheckpointRowOf, TallyMessage;
  }

  lemma CloseAgain(w: World, hs: Histories, p: string, now: string)
    requires w.Honest() && AllValid(w, hs) && p in hs && hs[p].closedAt.Some?
    ensures CloseCommit(w, Render(w, hs), p, hs[p].poll, now)
         == Step(Render(w, hs), Ok((TallyOf(w, hs[p].poll, hs[p].casts, hs[p].closedAt.value), false)))
  {
    hide Render, AllValid, w.Honest, ReadPoll, ReadTally, TallyVerdict, Commit, TallyOf;
    ClosedReads(w, hs, p);
    CommitNothing(Render(w, hs));
  }

  lemma CloseFirst(w: World, hs: Histories, p: string, at: string)
    requires w.Honest() && AllValid(w, hs) && p in hs && hs[p].closedAt.None?
    ensures var h := hs[p];
            var closed := h.(closedAt := Some(at));
            CloseCommit(w, Render(w, hs), p, h.poll, at) ==
            if |h.casts| + 1 >= MAX_SEQUENCE then Step(Render(w, hs), Err("event_read_failed"))
            else if LogHashUsed(w, hs, Last(Log(w, closed)).eventHash) then Step(Render(w, hs), Err("ballot_event_write_failed"))
            else Step(Render(w, hs[p := closed]), Ok((TallyOf(w, h.poll, h.casts, at), true)))
  {
    hide Render, AllValid, w.Honest, Log, CountBallots, ReadPoll, ReadBallotEvents, CloseRows, CloseWrites, Commit, TotalsOf,
         LogHashUsed;
    CloseReads(w, hs, p);
    CloseRowsForm(w, Render(w, hs), p, hs[p].poll, at);
    ValidPollID(w, hs, p);
    FreshClose(w, hs, p, at);
  }

  // The transaction of ClosePoll, given the signed poll that an earlier read returned.
  lemma CloseCommitRefines(w: World, hs: Histories, p: string, request: CloseRequest, clock: Clock)
    requires w.Honest() && AllValid(w, hs) && p in hs && CheckClose(w, p, request).Ok?
    ensures var out := DoClose(w, hs, p, request, clock);
            CloseCommit(w, Render(w, hs), p, hs[p].poll, w.canonicalTime(clock.stamp)) == Step(Render(w, out.histories), out.answer)
  {
    hide Render, AllValid, w.Honest, Log, CloseCommit, TallyOf, LogHashUsed;
    if hs[p].closedAt.Some? {
      CloseAgain(w, hs, p, w.canonicalTime(clock.stamp));
    } else {
      CloseFirst(w, hs, p, w.canonicalTime(clock.stamp));
    }
  }

  lemma CloseRefines(w: World, hs: Histories, p: string, request: CloseRequest, clock: Clock)
    requires w.Honest() && AllValid(w, hs)
    ensures var out := DoClose(w, hs, p, request, clock);
            Close(w, Render(w, hs), p, request, clock) == Step(Render(w, out.histories), out.answer)
  {
    hide CloseCommit, SignedPoll, Render, AllValid, w.Honest, Log, TallyOf, LogHashUsed;
    SignedPollReads(w, hs, p);
    if p in hs && CheckClose(w, p, request).Ok? { CloseCommitRefines(w, hs, p, request, clock); }
  }

  // Result answers with the tally of the close, and only for a closed poll.
  lemma ResultReads(w: World, hs: Histories, p: string)
    requires w.Honest() && AllValid(w, hs)
    ensures ReadResult(w, Render(w, hs), p) ==
            if p !in hs then Err("poll_not_found")
            else match hs[p].closedAt
                 case None => Err("result_unavailable")
                 case Some(at) => Ok(TallyOf(w, hs[p].poll, hs[p].casts, at))
  {
    hide SignedPoll, AllValid, w.Honest, Log, TallyOf, ReadTally, Tables, TallyVerdict;
    SignedPollReads(w, hs, p);
    if p in hs {
      if hs[p].closedAt.Some? { ClosedReads(w, hs, p); } else { OpenParts(w, hs, p); }
    }
  }
}
