/** Every transaction on the tables of valid histories is the simple machine's step: the same
    answer, and the tables of the machine's next histories. */
module Refinement {
  import opened Wrappers
  import opened Artifacts
  import opened Store
  import opened Members
  import opened Sequencer
  import opened History

  /* The shape of the ballot stream */

  predicate Numbered(log: seq<BallotEvent>) {
    forall i :: 0 <= i < |log| ==> log[i].sequence == i + 1
  }

  lemma {:induction false} CastLogNumbered(w: World, poll: Poll, createdAt: string, casts: seq<Cast>)
    ensures Numbered(CastLog(w, poll, createdAt, casts))
  {
    if casts != [] { CastLogNumbered(w, poll, createdAt, Init(casts)); }
  }

  lemma LogNumbered(w: World, h: History)
    ensures Numbered(Log(w, h))
    ensures |Log(w, h)| == |h.casts| + 1 + if h.closedAt.Some? then 1 else 0
  {
    CastLogNumbered(w, h.poll, h.createdAt, h.casts);
  }

  // Earlier events do not depend on later ballots.
  lemma {:induction false} CastLogPrefix(w: World, poll: Poll, createdAt: string, casts: seq<Cast>, k: nat)
    requires k <= |casts|
    ensures CastLog(w, poll, createdAt, casts)[..k + 1] == CastLog(w, poll, createdAt, casts[..k])
    decreases |casts|
  {
    hide CastEvent, CreatedEvent;
    if k == |casts| {
      assert casts[..k] == casts;
    } else {
      var before := CastLog(w, poll, createdAt, Init(casts));
      CastLogPrefix(w, poll, createdAt, Init(casts), k);
      assert Init(casts)[..k] == casts[..k];
      assert CastLog(w, poll, createdAt, casts)[..k + 1] == before[..k + 1];
    }
  }

  lemma {:induction false} FindNumbered(log: seq<BallotEvent>, k: nat)
    requires Numbered(log) && k < |log|
    ensures FindEvent(log, k + 1) == Some(log[k])
    decreases |log|
  {
    if k < |log| - 1 { FindNumbered(log[..|log| - 1], k); }
  }

  lemma InitOfPrefix<T>(s: seq<T>, k: nat)
    requires k < |s|
    ensures Init(s[..k + 1]) == s[..k] && Last(s[..k + 1]) == s[k]
  {
  }

  lemma LogExtendsCasts(w: World, h: History, i: nat)
    requires i <= |h.casts|
    ensures Log(w, h)[i] == CastLog(w, h.poll, h.createdAt, h.casts)[i]
  {
  }

  // The event of the k-th ballot.
  lemma CastEventAt(w: World, h: History, k: nat)
    requires k < |h.casts|
    ensures FindEvent(Log(w, h), k + 2) == Some(Last(CastLog(w, h.poll, h.createdAt, h.casts[..k + 1])))
    ensures Last(CastLog(w, h.poll, h.createdAt, h.casts[..k + 1]))
         == CastEvent(w, h.poll, CastLog(w, h.poll, h.createdAt, h.casts[..k]), h.casts[k])
  {
    hide Log, CastEvent, FindEvent;
    LogNumbered(w, h);
    FindNumbered(Log(w, h), k + 1);
    LogExtendsCasts(w, h, k + 1);
    CastLogPrefix(w, h.poll, h.createdAt, h.casts, k + 1);
    InitOfPrefix(h.casts, k);
  }

  /* The spent index */

  lemma {:induction false} SpentIndex(w: World, casts: seq<Cast>, c: string)
    ensures c in SpentOf(w, casts) <==> CastIndex(w, casts, c).Some?
    ensures c in SpentOf(w, casts) ==> SpentOf(w, casts)[c] == CastIndex(w, casts, c).value + 2
  {
    if casts != [] { SpentIndex(w, Init(casts), c); }
  }

  lemma {:induction false} CastIndexNone(w: World, casts: seq<Cast>, c: string)
    ensures CastIndex(w, casts, c).None? <==> forall k :: 0 <= k < |casts| ==> CredentialHash(w, casts[k].ballot.credential) != c
  {
    if casts != [] { CastIndexNone(w, Init(casts), c); }
  }

  // The index finds the event of the ballot that spent the credential.
  lemma IndexFinds(w: World, hs: Histories, p: string, c: string)
    requires p in hs
    ensures BallotByCredential(Render(w, hs), p, c) ==
            match CastIndex(w, hs[p].casts, c)
            case None => None
            case Some(k) => Some(Last(CastLog(w, hs[p].poll, hs[p].createdAt, hs[p].casts[..k + 1])))
  {
    SpentIndex(w, hs[p].casts, c);
    var k := CastIndex(w, hs[p].casts, c);
    if k.Some? { CastEventAt(w, hs[p], k.value); }
  }

  /* The credit table */

  lemma MemberSplit(members: seq<MemberKey>, f: string)
    requires members != []
    ensures MemberIn(members, f) <==> MemberIn(Init(members), f) || Last(members).fingerprint == f
  {
    if MemberIn(members, f) && Last(members).fingerprint != f {
      var i :| 0 <= i < |members| && members[i].fingerprint == f;
      assert Init(members)[i].fingerprint == f;
    }
    if MemberIn(Init(members), f) {
      var i :| 0 <= i < |Init(members)| && Init(members)[i].fingerprint == f;
      assert members[i].fingerprint == f;
    }
    assert members[|members| - 1] == Last(members);
  }

  lemma {:induction false} UnclaimedRows(members: seq<MemberKey>, f: string)
    requires DistinctFingerprints(members)
    ensures f in Unclaimed(members) <==> MemberIn(members, f)
    ensures f in Unclaimed(members) ==> Unclaimed(members)[f].claim.None? && MemberKey(Unclaimed(members)[f].sshPublicKey, f) in members
  {
    if members != [] {
      hide MemberIn;
      UnclaimedRows(Init(members), f);
      MemberSplit(members, f);
      assert members == Init(members) + [Last(members)];
    }
  }

  lemma {:induction false} CreditRows(members: seq<MemberKey>, claims: seq<Claimed>, f: string)
    requires DistinctFingerprints(members)
    ensures f in CreditsOf(members, claims) <==> MemberIn(members, f)
    ensures f in CreditsOf(members, claims) ==>
              && CreditsOf(members, claims)[f].claim == ClaimOf(claims, f)
              && MemberKey(CreditsOf(members, claims)[f].sshPublicKey, f) in members
  {
    if claims == [] { UnclaimedRows(members, f); } else { CreditRows(members, Init(claims), f); }
  }

  lemma MemberUnique(members: seq<MemberKey>, a: MemberKey, b: MemberKey)
    requires DistinctFingerprints(members) && a in members && b in members && a.fingerprint == b.fingerprint
    ensures a == b
  {
  }

  // A claiming key is on the list exactly when its row is there and holds that key.
  lemma Eligible(members: seq<MemberKey>, claims: seq<Claimed>, publicKey: string, f: string)
    requires DistinctFingerprints(members)
    ensures MemberKey(publicKey, f) in members <==>
            f in CreditsOf(members, claims) && CreditsOf(members, claims)[f].sshPublicKey == publicKey
  {
    CreditRows(members, claims, f);
    if MemberKey(publicKey, f) in members {
      var i :| 0 <= i < |members| && members[i] == MemberKey(publicKey, f);
      MemberUnique(members, MemberKey(publicKey, f), MemberKey(CreditsOf(members, claims)[f].sshPublicKey, f));
    }
  }

  lemma {:induction false} ClaimOfSome(claims: seq<Claimed>, f: string)
    ensures ClaimOf(claims, f).Some? <==> exists i :: 0 <= i < |claims| && claims[i].fingerprint == f
    ensures ClaimOf(claims, f).Some? ==> exists i :: 0 <= i < |claims| && claims[i] == Claimed(f, ClaimOf(claims, f).value)
  {
    if claims != [] {
      ClaimOfSome(Init(claims), f);
      assert claims == Init(claims) + [Last(claims)];
      if exists i :: 0 <= i < |Init(claims)| && Init(claims)[i].fingerprint == f {
        var i :| 0 <= i < |Init(claims)| && Init(claims)[i].fingerprint == f;
        assert claims[i].fingerprint == f;
      }
      if ClaimOf(Init(claims), f).Some? {
        var i :| 0 <= i < |Init(claims)| && Init(claims)[i] == Claimed(f, ClaimOf(Init(claims), f).value);
        assert claims[i] == Init(claims)[i];
      }
      assert claims[|claims| - 1] == Last(claims);
    }
  }

  lemma {:induction false} CreditLogNumbered(w: World, p: string, claims: seq<Claimed>)
    ensures forall i :: 0 <= i < |claims| ==> CreditLog(w, p, claims)[i].sequence == i + 1
  {
    if claims != [] { CreditLogNumbered(w, p, Init(claims)); }
  }

  /* Constraints that look across polls */

  lemma BallotQuery(w: World, hs: Histories, hash: string)
    ensures BallotHashTaken(Render(w, hs), hash) <==> LogHashUsed(w, hs, hash)
  {
    hide Log, CreditLog, RowOf, CreditsOf, ChoiceRowsOf, SpentOf, TallyRowOf, CheckpointsOf;
    var db := Render(w, hs);
    if LogHashUsed(w, hs, hash) {
      var p :| p in hs && exists i :: 0 <= i < |Log(w, hs[p])| && Log(w, hs[p])[i].eventHash == hash;
      assert db[p].ballotEvents == Log(w, hs[p]);
    }
    if BallotHashTaken(db, hash) {
      var p :| p in db && exists i :: 0 <= i < |db[p].ballotEvents| && db[p].ballotEvents[i].eventHash == hash;
      assert db[p].ballotEvents == Log(w, hs[p]);
    }
  }

  lemma CreditQuery(w: World, hs: Histories, hash: string)
    ensures CreditHashTaken(Render(w, hs), hash) <==> CreditHashUsed(w, hs, hash)
  {
    hide Log, CreditLog, RowOf, CreditsOf, ChoiceRowsOf, SpentOf, TallyRowOf, CheckpointsOf;
    var db := Render(w, hs);
    if CreditHashUsed(w, hs, hash) {
      var p :| p in hs && exists i :: 0 <= i < |hs[p].claims| && CreditLog(w, hs[p].poll.pollID, hs[p].claims)[i].eventHash == hash;
      assert db[p].creditEvents == CreditLog(w, hs[p].poll.pollID, hs[p].claims);
    }
    if CreditHashTaken(db, hash) {
      var p :| p in db && exists i :: 0 <= i < |db[p].creditEvents| && db[p].creditEvents[i].eventHash == hash;
      assert db[p].creditEvents == CreditLog(w, hs[p].poll.pollID, hs[p].claims);
    }
  }

  lemma ArtifactQuery(w: World, hs: Histories, hash: string)
    ensures ArtifactHashTaken(Render(w, hs), hash) <==> PollHashUsed(w, hs, hash)
  {
    hide Log, CreditLog, CreditsOf, ChoiceRowsOf, SpentOf, TallyRowOf, CheckpointsOf, ArtifactHash;
    var db := Render(w, hs);
    if PollHashUsed(w, hs, hash) {
      var p :| p in hs && ArtifactHash(w, hs[p].poll) == hash;
      assert db[p].row == RowOf(w, hs[p]);
    }
    if ArtifactHashTaken(db, hash) {
      var p :| p in db && db[p].row.artifactHash == hash;
      assert db[p].row == RowOf(w, hs[p]);
    }
  }

  /* Reading the poll row */

  // A signature made by the service verifies.
  lemma SignatureVerifies(w: World, m: string)
    requires w.Honest()
    ensures w.keyDecodes(w.keyText) && w.verifies(w.keyText, m, w.sign(m))
  {
  }

  lemma ServicePollVerifies(w: World, poll: Poll)
    requires w.Honest() && poll == SignPoll(w, poll) && poll.checkpointPublicKey == w.keyText
    ensures VerifyPollArtifact(w, poll)
  {
  }

  lemma PollReads(w: World, h: History)
    requires w.Honest() && SignedByService(w, h.poll, h.members)
    ensures w.poll.read(RowOf(w, h).artifact) == Some(h.poll) && VerifyPollArtifact(w, h.poll)
    ensures RequireIssuer(w, RowOf(w, h)) == Ok(())
  {
  }

  lemma OpenReads(w: World, h: History, now: int)
    requires w.Honest() && SignedByService(w, h.poll, h.members)
    ensures RequireOpen(w, RowOf(w, h), now) == if IsOpen(w, h, now) then Ok(()) else Err("poll_not_open")
  {
  }

  /* Claim */

  // What the reads of the Claim transaction return.
  lemma ClaimReads(w: World, hs: Histories, p: string, f: string)
    requires w.Honest() && AllValid(w, hs) && p in hs
    ensures var db, h := Render(w, hs), hs[p];
            var credits := CreditsOf(h.members, h.claims);
            && ReadPoll(db, p) == Ok(RowOf(w, h)) && RequireIssuer(w, RowOf(w, h)) == Ok(())
            && (f in credits <==> MemberIn(h.members, f))
            && (ReadCredit(db, p, f) == if f in credits then Ok(credits[f]) else Err("not_eligible"))
            && (f in credits ==> credits[f].claim == ClaimOf(h.claims, f))
    ensures forall publicKey :: MemberKey(publicKey, f) in hs[p].members <==>
              f in CreditsOf(hs[p].members, hs[p].claims) && CreditsOf(hs[p].members, hs[p].claims)[f].sshPublicKey == publicKey
  {
    hide Log, CreditLog, ChoiceRowsOf, SpentOf, TallyRowOf, CheckpointsOf, RowOf, RequireIssuer, CreditsOf, ClaimOf;
    var h := hs[p];
    PollReads(w, h);
    CreditRows(h.members, h.claims, f);
    forall publicKey ensures MemberKey(publicKey, f) in h.members <==>
              f in CreditsOf(h.members, h.claims) && CreditsOf(h.members, h.claims)[f].sshPublicKey == publicKey {
      Eligible(h.members, h.claims, publicKey, f);
    }
  }

  lemma RequestIDsNonEmpty(w: World, hs: Histories, p: string, f: string)
    requires w.Honest() && AllValid(w, hs) && p in hs && ClaimOf(hs[p].claims, f).Some?
    ensures ClaimOf(hs[p].claims, f).value.requestID != ""
  {
    hide SignedByService, GoodCasts, GoodMembers;
    ClaimOfSome(hs[p].claims, f);
  }

  lemma ClaimRefines(w: World, hs: Histories, p: string, request: ClaimRequest, clock: Clock)
    requires w.Honest() && AllValid(w, hs)
    ensures var out := DoClaim(w, hs, p, request, clock);
            Claim(w, Render(w, hs), p, request, clock) == Step(Render(w, out.histories), out.answer)
  {
    hide Tables, RowOf, RequireIssuer, RequireOpen, CheckClaim, CreditsOf, CreditLog, AllValid, w.Honest, IsOpen,
         CreditEventOf, BlindedHash, MemberIn, InsertCreditEvent, NextCreditEvent, ClaimCredit, ClaimOf, Commit;
    var db := Render(w, hs);
    var check := CheckClaim(w, p, request);
    if check.Ok? && p in hs {
      var f, h := check.value, hs[p];
      ClaimReads(w, hs, p, f);
      ClaimOpen(w, hs, p, clock.check);
      CommitNothing(db);
      if ClaimOf(h.claims, f).Some? {
        RequestIDsNonEmpty(w, hs, p, f);
      } else if IsOpen(w, h, clock.check) && MemberKey(request.sshPublicKey, f) in h.members
                && w.blindSign(request.blindedMessage).Ok? {
        var signature := w.blindSign(request.blindedMessage).value;
        FreshClaim(w, hs, p, f, Issuance(request.requestID, BlindedHash(w, request), signature, w.eventDay(clock.stamp)));
      }
    }
  }

  lemma CommitNothing(db: Db)
    ensures Commit(db, db) == Ok(db)
  {
  }

  lemma ClaimOpen(w: World, hs: Histories, p: string, now: int)
    requires w.Honest() && AllValid(w, hs) && p in hs
    ensures RequireOpen(w, RowOf(w, hs[p]), now) == if IsOpen(w, hs[p], now) then Ok(()) else Err("poll_not_open")
  {
    hide RequireOpen, IsOpen, RowOf, SignedByService, GoodMembers, GoodClaims, GoodCasts;
    OpenReads(w, hs[p], now);
  }

  // The three writes of a fresh claim, and its commit.
  function ClaimWrites(w: World, db: Db, p: string, f: string, issuance: Issuance): Result<Db> {
    var claimed :- ClaimCredit(db, p, f, issuance);
    var next :- NextCreditEvent(claimed, p);
    InsertCreditEvent(claimed, p, CreditEventOf(w, p, next.0, next.1, f, issuance))
  }

  // One more claim changes the credit row and appends one credit event, nothing else.
  lemma ClaimTables(w: World, h: History, f: string, issuance: Issuance)
    requires DistinctFingerprints(h.members) && MemberIn(h.members, f)
    ensures var claims := h.claims + [Claimed(f, issuance)];
            var credits := CreditsOf(h.members, h.claims);
            f in credits &&
            Tables(w, h.(claims := claims)) ==
            Tables(w, h).(credits := credits[f := credits[f].(claim := Some(issuance))],
                          creditEvents := CreditLog(w, h.poll.pollID, claims))
  {
    hide ChoiceRowsOf, SpentOf, CheckpointsOf, CreditLog, CastLog, TallyOf, PollRowOf, ClosedEvent;
    var claims := h.claims + [Claimed(f, issuance)];
    assert Init(claims) == h.claims && Last(claims) == Claimed(f, issuance);
    CreditRows(h.members, h.claims, f);
    assert Log(w, h.(claims := claims)) == Log(w, h);
  }

  lemma CreditLogNext(w: World, db: Db, p: string, claims: seq<Claimed>, f: string, issuance: Issuance)
    requires p in db && db[p].creditEvents == CreditLog(w, p, claims)
    ensures |claims| >= MAX_SEQUENCE ==> NextCreditEvent(db, p) == Err("event_read_failed")
    ensures |claims| < MAX_SEQUENCE ==> NextCreditEvent(db, p).Ok?
    ensures |claims| < MAX_SEQUENCE ==>
              (var next := NextCreditEvent(db, p).value;
               var event := CreditEventOf(w, p, next.0, next.1, f, issuance);
               && CreditLog(w, p, claims + [Claimed(f, issuance)]) == CreditLog(w, p, claims) + [event]
               && PlaceCreditEvent(db[p].creditEvents, event) == CreditLog(w, p, claims) + [event]
               && event.sequence == |claims| + 1)
  {
    CreditLogNumbered(w, p, claims);
    var after := claims + [Claimed(f, issuance)];
    assert Init(after) == claims && Last(after) == Claimed(f, issuance);
  }

  lemma CreditInserted(db: Db, p: string, event: CreditEvent, log: seq<CreditEvent>)
    requires p in db && event.sequence == |db[p].creditEvents| + 1 && PlaceCreditEvent(db[p].creditEvents, event) == log
    requires forall i :: 0 <= i < |db[p].creditEvents| ==> db[p].creditEvents[i].sequence == i + 1
    ensures InsertCreditEvent(db, p, event) ==
            if CreditHashTaken(db, event.eventHash) then Err("credit_event_write_failed")
            else Ok(db[p := db[p].(creditEvents := log)])
  {
    hide CreditHashTaken, PlaceCreditEvent;
  }

  lemma ClaimWritesForm(w: World, db: Db, p: string, f: string, issuance: Issuance, claims: seq<Claimed>)
    requires p in db && f in db[p].credits && db[p].credits[f].claim.None? && db[p].creditEvents == CreditLog(w, p, claims)
    ensures var log := CreditLog(w, p, claims + [Claimed(f, issuance)]);
            ClaimWrites(w, db, p, f, issuance) ==
            if |claims| >= MAX_SEQUENCE then Err("event_read_failed")
            else if CreditHashTaken(db, Last(log).eventHash) then Err("credit_event_write_failed")
            else Ok(db[p := db[p].(credits := db[p].credits[f := db[p].credits[f].(claim := Some(issuance))], creditEvents := log)])
  {
    hide CreditLog, CreditEventOf, PlaceCreditEvent, NextCreditEvent, CreditHashTaken;
    var log := CreditLog(w, p, claims + [Claimed(f, issuance)]);
    var claimed := ClaimCredit(db, p, f, issuance).value;
    CreditLogNumbered(w, p, claims);
    CreditLogNext(w, claimed, p, claims, f, issuance);
    SameCreditHashes(db, claimed, p, Last(log).eventHash);
    if |claims| < MAX_SEQUENCE {
      CreditInserted(claimed, p, Last(log), log);
      assert claimed[p := claimed[p].(creditEvents := log)]
          == db[p := db[p].(credits := db[p].credits[f := db[p].credits[f].(claim := Some(issuance))], creditEvents := log)];
    }
  }

  // The tables after one more claim.
  lemma ClaimRendered(w: World, hs: Histories, p: string, f: string, issuance: Issuance)
    requires AllValid(w, hs) && p in hs && MemberIn(hs[p].members, f) && ClaimOf(hs[p].claims, f).None?
    ensures var db, h := Render(w, hs), hs[p];
            var claims := h.claims + [Claimed(f, issuance)];
            && f in db[p].credits && db[p].credits[f].claim.None? && db[p].creditEvents == CreditLog(w, p, h.claims)
            && Render(w, hs[p := h.(claims := claims)])
               == db[p := db[p].(credits := db[p].credits[f := db[p].credits[f].(claim := Some(issuance))],
                                 creditEvents := CreditLog(w, p, claims))]
  {
    hide Tables, RowOf, CreditsOf, CreditLog, Valid, MemberIn, ClaimOf;
    var db, h := Render(w, hs), hs[p];
    var claims := h.claims + [Claimed(f, issuance)];
    ValidMembers(w, hs, p);
    CreditRows(h.members, h.claims, f);
    TablesParts(w, h);
    ClaimTables(w, h, f, issuance);
    RenderUpdate(w, hs, p, h.(claims := claims));
    assert h.poll.pollID == p && db[p] == Tables(w, h);
  }

  lemma ClaimCommits(w: World, hs: Histories, p: string, h: History)
    requires p in hs && hs[p].casts == h.casts
    ensures Commit(Render(w, hs), Render(w, hs[p := h])) == Ok(Render(w, hs[p := h]))
  {
  }

  lemma FreshClaim(w: World, hs: Histories, p: string, f: string, issuance: Issuance)
    requires AllValid(w, hs) && p in hs && MemberIn(hs[p].members, f) && ClaimOf(hs[p].claims, f).None?
    ensures var db, h := Render(w, hs), hs[p];
            var claims := h.claims + [Claimed(f, issuance)];
            var after := Render(w, hs[p := h.(claims := claims)]);
            && Commit(db, after) == Ok(after)
            && ClaimWrites(w, db, p, f, issuance) ==
               if |h.claims| >= MAX_SEQUENCE then Err("event_read_failed")
               else if CreditHashUsed(w, hs, Last(CreditLog(w, p, claims)).eventHash) then Err("credit_event_write_failed")
               else Ok(after)
  {
    hide Render, CreditLog, AllValid, MemberIn, ClaimOf, Commit, ClaimWrites, CreditHashTaken, CreditHashUsed;
    var db, h := Render(w, hs), hs[p];
    var claims := h.claims + [Claimed(f, issuance)];
    RenderKeys(w, hs);
    ClaimRendered(w, hs, p, f, issuance);
    ClaimWritesForm(w, db, p, f, issuance, h.claims);
    ClaimCommits(w, hs, p, h.(claims := claims));
    CreditQuery(w, hs, Last(CreditLog(w, p, claims)).eventHash);
  }

  lemma RenderKeys(w: World, hs: Histories)
    ensures Render(w, hs).Keys == hs.Keys
  {
  }

  lemma ValidMembers(w: World, hs: Histories, p: string)
    requires AllValid(w, hs) && p in hs
    ensures DistinctFingerprints(hs[p].members)
  {
  }

  lemma TablesParts(w: World, h: History)
    ensures Tables(w, h).credits == CreditsOf(h.members, h.claims)
    ensures Tables(w, h).creditEvents == CreditLog(w, h.poll.pollID, h.claims)
    ensures Tables(w, h).ballotEvents == Log(w, h)
    ensures Tables(w, h).checkpoints == CheckpointsOf(w, h.poll.pollID, Log(w, h))
    ensures Tables(w, h).row == RowOf(w, h) && Tables(w, h).tally == TallyRowOf(w, h)
    ensures Tables(w, h).spent == SpentOf(w, h.casts) && Tables(w, h).choices == ChoiceRowsOf(h.poll.choices)
  {
  }

  lemma SameCreditHashes(db: Db, after: Db, p: string, hash: string)
    requires p in db && p in after && after == db[p := after[p]] && after[p].creditEvents == db[p].creditEvents
    ensures CreditHashTaken(after, hash) <==> CreditHashTaken(db, hash)
  {
    assert forall q | q in db :: after[q].creditEvents == db[q].creditEvents;
    assert after.Keys == db.Keys;
  }

  /* Vote */

  // The writes of a fresh ballot.
  function VoteWrites(w: World, db: Db, p: string, request: BallotRequest, c: string, day: string): Result<(Db, Receipt)> {
    var next :- NextBallotEvent(db, p);
    var event := AcceptedEvent(w, RecordOf(p, next.0, c, request), next.1, day);
    var spent :- SpendCredential(db, p, c, next.0);
    var inserted :- InsertBallotEvent(spent, p, event);
    var after :- SaveCheckpoint(inserted, p, CheckpointRowOf(w, p, next.0, event.eventHash));
    Ok((after, ReceiptOf(w, RecordOf(p, next.0, c, request), event.eventHash)))
  }

  lemma CastLogNext(w: World, poll: Poll, createdAt: string, casts: seq<Cast>, cast: Cast)
    ensures CastLog(w, poll, createdAt, casts + [cast])
         == CastLog(w, poll, createdAt, casts) + [CastEvent(w, poll, CastLog(w, poll, createdAt, casts), cast)]
  {
    assert Init(casts + [cast]) == casts && Last(casts + [cast]) == cast;
  }

  lemma CheckpointsNext(w: World, p: string, log: seq<BallotEvent>, event: BallotEvent)
    requires Numbered(log) && event.sequence == |log| + 1
    ensures CheckpointsOf(w, p, log + [event]) == CheckpointsOf(w, p, log) + [CheckpointRowOf(w, p, event.sequence, event.eventHash)]
    ensures PlaceCheckpoint(CheckpointsOf(w, p, log), CheckpointRowOf(w, p, event.sequence, event.eventHash))
         == CheckpointsOf(w, p, log + [event])
    ensures forall i :: 0 <= i < |log| ==> CheckpointsOf(w, p, log)[i].sequence == i + 1
  {
    assert CheckpointsOf(w, p, log + [event]) == CheckpointsOf(w, p, log) + [CheckpointRowOf(w, p, event.sequence, event.eventHash)];
  }

  lemma SameBallotHashes(db: Db, after: Db, p: string, hash: string)
    requires p in db && p in after && after == db[p := after[p]] && after[p].ballotEvents == db[p].ballotEvents
    ensures BallotHashTaken(after, hash) <==> BallotHashTaken(db, hash)
  {
    assert forall q | q in db :: after[q].ballotEvents == db[q].ballotEvents;
    assert after.Keys == db.Keys;
  }

  // Appending an event and its checkpoint to a numbered stream: one constraint can refuse it.
  lemma AppendForm(w: World, db: Db, p: string, event: BallotEvent)
    requires p in db && Numbered(db[p].ballotEvents) && event.sequence == |db[p].ballotEvents| + 1
    requires BallotEventAllowed(event)
    requires db[p].checkpoints == CheckpointsOf(w, p, db[p].ballotEvents)
    ensures var log := db[p].ballotEvents + [event];
            var inserted := InsertBallotEvent(db, p, event);
            if BallotHashTaken(db, event.eventHash) then inserted == Err("ballot_event_write_failed")
            else
              && inserted == Ok(db[p := db[p].(ballotEvents := log)])
              && SaveCheckpoint(inserted.value, p, CheckpointRowOf(w, p, event.sequence, event.eventHash))
                 == Ok(db[p := db[p].(ballotEvents := log, checkpoints := CheckpointsOf(w, p, log))])
  {
    hide BallotHashTaken, StreamCheckpoint, BallotEventAllowed;
    var log := db[p].ballotEvents + [event];
    CheckpointsNext(w, p, db[p].ballotEvents, event);
    FindNumbered(log, |log| - 1);
    assert PlaceBallotEvent(db[p].ballotEvents, event) == log;
    if !BallotHashTaken(db, event.eventHash) {
      var mid := db[p := db[p].(ballotEvents := log)];
      assert mid[p := mid[p].(checkpoints := CheckpointsOf(w, p, log))]
          == db[p := db[p].(ballotEvents := log, checkpoints := CheckpointsOf(w, p, log))];
    }
  }

  lemma ReceiptsNonEmpty(w: World)
    requires w.Honest()
    ensures forall r :: w.receipt.text(r) != ""
  {
  }

  lemma VoteWritesForm(w: World, db: Db, p: string, poll: Poll, createdAt: string, casts: seq<Cast>, cast: Cast, c: string)
    requires w.Honest() && p in db && poll.pollID == p && c == CredentialHash(w, cast.ballot.credential)
    requires db[p].ballotEvents == CastLog(w, poll, createdAt, casts)
    requires db[p].checkpoints == CheckpointsOf(w, p, db[p].ballotEvents)
    requires c !in db[p].spent && forall d | d in db[p].spent :: db[p].spent[d] <= |casts| + 1
    ensures var log := CastLog(w, poll, createdAt, casts + [cast]);
            VoteWrites(w, db, p, cast.ballot, c, cast.day) ==
            if |casts| + 1 >= MAX_SEQUENCE then Err("event_read_failed")
            else if BallotHashTaken(db, Last(log).eventHash) then Err("ballot_event_write_failed")
            else Ok((db[p := db[p].(ballotEvents := log, spent := db[p].spent[c := |casts| + 2], checkpoints := CheckpointsOf(w, p, log))],
                     ReceiptOf(w, CastRecord(w, poll, |casts| + 2, cast), Last(log).eventHash)))
  {
    hide CastLog, CheckpointsOf, BallotHashTaken, w.Honest, CheckpointRowOf, ReceiptOf, CredentialHash, InsertBallotEvent, SaveCheckpoint;
    var before := CastLog(w, poll, createdAt, casts);
    CastLogNumbered(w, poll, createdAt, casts);
    CastLogNext(w, poll, createdAt, casts, cast);
    ReceiptsNonEmpty(w);
    if |casts| + 1 < MAX_SEQUENCE {
      var event := CastEvent(w, poll, before, cast);
      var spent := db[p := db[p].(spent := db[p].spent[c := |casts| + 2])];
      SameBallotHashes(db, spent, p, event.eventHash);
      AppendForm(w, spent, p, event);
      assert event == AcceptedEvent(w, RecordOf(p, |casts| + 2, c, cast.ballot), Last(before).eventHash, cast.day);
      assert NextBallotEvent(db, p) == Ok((|casts| + 2, Last(before).eventHash));
      assert SpendCredential(db, p, c, |casts| + 2) == Ok(spent);
      var log := before + [event];
      assert spent[p := spent[p].(ballotEvents := log, checkpoints := CheckpointsOf(w, p, log))]
          == db[p := db[p].(ballotEvents := log, spent := db[p].spent[c := |casts| + 2], checkpoints := CheckpointsOf(w, p, log))];
    }
  }

  // One more ballot appends to the ballot stream, the index and the checkpoints, nothing else.
  lemma VoteTables(w: World, h: History, cast: Cast)
    requires h.closedAt.None?
    ensures var casts := h.casts + [cast];
            var log := CastLog(w, h.poll, h.createdAt, casts);
            Tables(w, h.(casts := casts)) ==
            Tables(w, h).(ballotEvents := log,
                          spent := SpentOf(w, h.casts)[CredentialHash(w, cast.ballot.credential) := |h.casts| + 2],
                          checkpoints := CheckpointsOf(w, h.poll.pollID, log))
  {
  }

  lemma FreshVote(w: World, hs: Histories, p: string, cast: Cast)
    requires w.Honest() && AllValid(w, hs) && p in hs && hs[p].closedAt.None?
    requires CastIndex(w, hs[p].casts, CredentialHash(w, cast.ballot.credential)).None?
    ensures var db, h, c := Render(w, hs), hs[p], CredentialHash(w, cast.ballot.credential);
            var casts := h.casts + [cast];
            var writes := VoteWrites(w, db, p, cast.ballot, c, cast.day);
            if |h.casts| + 1 >= MAX_SEQUENCE then writes == Err("event_read_failed")
            else if LogHashUsed(w, hs, Last(CastLog(w, h.poll, h.createdAt, casts)).eventHash)
            then writes == Err("ballot_event_write_failed")
            else
              && writes == Ok((Render(w, hs[p := h.(casts := casts)]), ReceiptAt(w, h.(casts := casts), |h.casts|)))
              && Commit(db, writes.value.0) == Ok(writes.value.0)
  {
    hide Tables, RowOf, CreditsOf, CreditLog, CastLog, w.Honest, Valid, Commit, VoteWrites, BallotHashTaken, LogHashUsed,
         CheckpointsOf, ReceiptOf, CredentialHash, CastIndex, SpentOf, CastRecord;
    var db, h, c := Render(w, hs), hs[p], CredentialHash(w, cast.ballot.credential);
    var casts := h.casts + [cast];
    var log := CastLog(w, h.poll, h.createdAt, casts);
    TablesParts(w, h);
    SpentIndexAll(w, h.casts);
    SpentIndex(w, h.casts, c);
    OpenLog(w, h);
    VoteWritesForm(w, db, p, h.poll, h.createdAt, h.casts, cast, c);
    VoteTables(w, h, cast);
    BallotQuery(w, hs, Last(log).eventHash);
    RenderUpdate(w, hs, p, h.(casts := casts));
    assert casts[..|h.casts| + 1] == casts && casts[|h.casts|] == cast;
    assert db[p] == Tables(w, h);
    var after := db[p := Tables(w, h.(casts := casts))];
    CastLogNumbered(w, h.poll, h.createdAt, casts);
    FindNumbered(log, |h.casts| + 1);
    OneSpentCommit(db, after, p, c);
  }

  lemma OpenLog(w: World, h: History)
    requires h.closedAt.None?
    ensures Log(w, h) == CastLog(w, h.poll, h.createdAt, h.casts)
  {
  }

  lemma SpentIndexAll(w: World, casts: seq<Cast>)
    ensures forall d | d in SpentOf(w, casts) :: 2 <= SpentOf(w, casts)[d] <= |casts| + 1
  {
  }

  // A transaction that spends one credential on an event it inserts commits.
  lemma OneSpentCommit(db: Db, after: Db, p: string, c: string)
    requires p in db && p in after && after == db[p := after[p]]
    requires c in after[p].spent && FindEvent(after[p].ballotEvents, after[p].spent[c]).Some?
    requires forall d | d in after[p].spent :: d == c || d in db[p].spent
    ensures Commit(db, after) == Ok(after)
  {
  }

  // Presenting a spent credential again: the stored receipt for the same ballot, a refusal for any other.
  lemma RetryReads(w: World, h: History, k: nat, request: BallotRequest)
    requires w.Honest() && k < |h.casts|
    requires CredentialHash(w, request.credential) == CredentialHash(w, h.casts[k].ballot.credential)
    ensures RetryBallot(w, Last(CastLog(w, h.poll, h.createdAt, h.casts[..k + 1])), CredentialHash(w, request.credential), request)
         == if h.casts[k].ballot == request then Ok(ReceiptAt(w, h, k)) else Err("credential_already_spent")
  {
  }

  lemma VoteReads(w: World, hs: Histories, p: string, request: BallotRequest)
    requires w.Honest() && AllValid(w, hs) && p in hs
    requires CheckBallot(w, hs[p].poll, request).Ok?
    ensures var db, h := Render(w, hs), hs[p];
            && ReadPoll(db, p) == Ok(RowOf(w, h)) && RowOf(w, h).closesAt == h.poll.closesAt
            && SignedPoll(w, db, p) == Ok(h.poll)
            && ChoiceRowExists(ReadChoices(db, p), request.choiceID)
            && ReadBallotEvents(db, p) == Log(w, h)
            && (h.closedAt.None? ==> Last(Log(w, h)).kind != "poll_closed")
  {
    hide Log, CreditLog, CreditsOf, SpentOf, TallyRowOf, CheckpointsOf, VerifyPollArtifact, ArtifactHash, VerifyWireCredential;
    var h := hs[p];
    PollReads(w, h);
    var i :| 0 <= i < |h.poll.choices| && h.poll.choices[i].id == request.choiceID;
    assert ChoiceRowsOf(h.poll.choices)[i].choiceID == request.choiceID;
    LastKind(w, h);
  }

  lemma LastKind(w: World, h: History)
    ensures h.closedAt.None? ==> Last(Log(w, h)).kind != "poll_closed"
  {
  }

  lemma SignedPollReads(w: World, hs: Histories, p: string)
    requires w.Honest() && AllValid(w, hs)
    ensures SignedPoll(w, Render(w, hs), p) == if p in hs then Ok(hs[p].poll) else Err("poll_not_found")
  {
    hide Log, CreditLog, CreditsOf, SpentOf, TallyRowOf, CheckpointsOf, VerifyPollArtifact, ArtifactHash, ChoiceRowsOf;
    if p in hs { PollReads(w, hs[p]); }
  }

  lemma CheckedHash(w: World, poll: Poll, request: BallotRequest)
    requires CheckBallot(w, poll, request).Ok?
    ensures CheckBallot(w, poll, request).value == CredentialHash(w, request.credential)
  {
  }

  // The transaction of Vote, given the signed poll that an earlier read returned.
  lemma VoteCommitRefines(w: World, hs: Histories, p: string, request: BallotRequest, clock: Clock)
    requires w.Honest() && AllValid(w, hs) && p in hs
    ensures var out := DoVote(w, hs, p, request, clock);
            VoteCommit(w, Render(w, hs), p, hs[p].poll, request, clock) == Step(Render(w, out.histories), out.answer)
  {
    hide Tables, RowOf, RequireOpen, CheckBallot, AllValid, w.Honest, AcceptedEvent, ReceiptOf, Log, CastLog, BallotByCredential,
         SpendCredential, InsertBallotEvent, SaveCheckpoint, NextBallotEvent, ChoiceRowExists, ReadBallotEvents, ReadChoices,
         Commit, CredentialHash, CastIndex, RetryBallot, ReceiptAt, LogHashUsed, IsOpen, CheckpointRowOf, RecordOf, Render, ReadPoll;
    var db, h := Render(w, hs), hs[p];
    if CheckBallot(w, h.poll, request).Ok? {
      var c := CheckBallot(w, h.poll, request).value;
      CheckedHash(w, h.poll, request);
      VoteReads(w, hs, p, request);
      ClaimOpen(w, hs, p, clock.check);
      IndexFinds(w, hs, p, c);
      CommitNothing(db);
      var k := CastIndex(w, h.casts, c);
      if k.Some? {
        RetryReads(w, h, k.value, request);
      } else if IsOpen(w, h, clock.check) {
        OpenMeansNotClosed(w, h, clock.check);
        FreshVote(w, hs, p, Cast(request, w.eventDay(clock.stamp)));
      }
    }
  }

  lemma OpenMeansNotClosed(w: World, h: History, now: int)
    requires IsOpen(w, h, now)
    ensures h.closedAt.None?
  {
  }

  lemma VoteRefines(w: World, hs: Histories, p: string, request: BallotRequest, clock: Clock)
    requires w.Honest() && AllValid(w, hs)
    ensures var out := DoVote(w, hs, p, request, clock);
            Vote(w, Render(w, hs), p, request, clock) == Step(Render(w, out.histories), out.answer)
  {
    hide VoteCommit, SignedPoll, Render, AllValid, w.Honest, CheckBallot;
    SignedPollReads(w, hs, p);
    if p in hs { VoteCommitRefines(w, hs, p, request, clock); }
  }
}
