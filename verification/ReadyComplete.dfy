/** Every store a run can reach passes Ready, for all of its polls, open or closed. */
module ReadyComplete {
  import opened Wrappers
  import opened Artifacts
  import opened Store
  import opened Members
  import opened Tallies
  import opened Sequencer
  import opened History
  import opened Refinement
  import opened Creation
  import opened Runs
  import opened Collisions
  import opened Safety
  import opened Audit
  import opened Completeness
  import opened Ready

  /* The eligible keys */

  lemma {:induction false} DistinctSize(order: seq<string>)
    requires forall i, j :: 0 <= i < j < |order| ==> order[i] != order[j]
    ensures |Elements(order)| == |order|
  {
    if order != [] {
      DistinctSize(Init(order));
      assert Elements(order) == Elements(Init(order)) + {Last(order)} by {
        assert order == Init(order) + [Last(order)];
      }
    }
  }

  lemma ListingSize(order: seq<string>, credits: map<string, CreditRow>)
    requires Listing(order, credits)
    ensures |order| == |credits|
  {
    DistinctSize(order);
    assert Elements(order) == credits.Keys;
  }

  lemma ListedKey(w: World, h: History, f: string)
    requires Valid(w, h) && f in CreditsOf(h.members, h.claims)
    ensures var key := CreditsOf(h.members, h.claims)[f].sshPublicKey;
            MemberKey(key, f) in h.members && KeyMatches(w, key, f) && KeyOf(w, key) == MemberKey(key, f)
  {
    hide SignedByService, GoodClaims, GoodCasts, Sorted, CreditsOf;
    CreditRows(h.members, h.claims, f);
  }

  // Each listed key is its member.
  lemma KeysCollected(w: World, h: History, order: seq<string>)
    requires Valid(w, h) && Listing(order, CreditsOf(h.members, h.claims))
    ensures var keys := KeysOf(order, CreditsOf(h.members, h.claims));
            && Collect(w, keys).Ok? && |Collect(w, keys).value| == |order|
            && forall i :: 0 <= i < |order| ==>
                 Collect(w, keys).value[i].fingerprint == order[i] && Collect(w, keys).value[i] in h.members
  {
    hide Valid, CreditsOf, Listing, Canonical, KeyOf;
    var credits := CreditsOf(h.members, h.claims);
    ListingIn(order, credits);
    var keys := KeysOf(order, credits);
    forall i | 0 <= i < |order|
      ensures w.ssh.parse(keys[i]).Some? && KeyOf(w, keys[i]).fingerprint == order[i] && KeyOf(w, keys[i]) in h.members {
      ListedKey(w, h, order[i]);
    }
    CollectAccepts(w, keys);
    CollectOk(w, keys);
  }

  lemma SameMembers(h: History, order: seq<string>, collected: seq<MemberKey>)
    requires DistinctFingerprints(h.members) && Listing(order, CreditsOf(h.members, h.claims)) && |collected| == |order|
    requires forall i :: 0 <= i < |order| ==> collected[i].fingerprint == order[i] && collected[i] in h.members
    ensures forall k :: k in collected <==> k in h.members
  {
    hide CreditsOf, Listing, DistinctFingerprints;
    ListingIn(order, CreditsOf(h.members, h.claims));
    forall k | k in h.members ensures k in collected {
      MemberFound(h.members, k);
      CreditRows(h.members, h.claims, k.fingerprint);
      var i :| 0 <= i < |order| && order[i] == k.fingerprint;
      MemberUnique(h.members, k, collected[i]);
    }
  }

  // Normalising the stored keys, in whatever order they are listed, gives back the members of the poll.
  lemma KeysNormalize(w: World, h: History, order: seq<string>)
    requires w.ssh.RoundTrips() && Valid(w, h) && Listing(order, CreditsOf(h.members, h.claims))
    ensures |order| == h.poll.eligibleCount
    ensures Normalized(w, KeysOf(order, CreditsOf(h.members, h.claims))) == Ok((h.members, h.poll.eligibilityCommitment))
  {
    hide Valid, CreditsOf, Commitment, Listing, Sorted, Collect, DistinctFingerprints, w.ssh.RoundTrips, DistinctEncodings, ClaimedRows;
    var credits := CreditsOf(h.members, h.claims);
    ListingIn(order, credits);
    ListingSize(order, credits);
    CreditCounts(w, h);
    ValidKeys(w, h);
    KeysCollected(w, h, order);
    var collected := Collect(w, KeysOf(order, credits)).value;
    SameMembers(h, order, collected);
    FingerprintsSeparate(w, KeysOf(order, credits));
    SortCorrect(collected);
    SortedUnique(Sort(collected), h.members);
  }

  lemma ListingIn(order: seq<string>, credits: map<string, CreditRow>)
    requires Listing(order, credits)
    ensures forall i :: 0 <= i < |order| ==> order[i] in credits
    ensures forall f | f in credits :: exists i :: 0 <= i < |order| && order[i] == f
    ensures forall i, j :: 0 <= i < j < |order| ==> order[i] != order[j]
  {
  }

  lemma ValidKeys(w: World, h: History)
    requires Valid(w, h)
    ensures Sorted(h.members) && DistinctFingerprints(h.members) && 2 <= |h.members| <= 1000
    ensures h.poll.eligibilityCommitment == Commitment(w, h.members) && h.poll.eligibleCount == |h.members|
  {
    hide GoodClaims, GoodCasts;
  }

  lemma CreditsPass(w: World, h: History, order: seq<string>)
    requires w.ssh.RoundTrips() && Valid(w, h) && Listing(order, CreditsOf(h.members, h.claims))
    ensures CreditsMatch(w, CreditsOf(h.members, h.claims), order, h.poll)
  {
    hide Valid, CreditsOf, Commitment, Listing, Normalized;
    var credits := CreditsOf(h.members, h.claims);
    ListingIn(order, credits);
    KeysNormalize(w, h, order);
    forall i | 0 <= i < |order| ensures KeyMatches(w, credits[order[i]].sshPublicKey, order[i]) { ListedKey(w, h, order[i]); }
  }

  /* The credit stream */

  lemma {:induction false} CreditLogAt(w: World, p: string, claims: seq<Claimed>, i: nat)
    requires i < |claims|
    ensures var (event, claim) := (CreditLog(w, p, claims)[i], claims[i]);
            && event.sequence == i + 1
            && event.artifact == w.credit.text(CreditRecord("credit_claimed", claim.fingerprint, claim.issuance.requestID,
                 claim.issuance.blindedMessageHash, HashBytes(w, "vota:blind-signature:v1", claim.issuance.blindSignature)))
            && event.signature == w.checkpoint.text(StreamCheckpoint(w, CREDIT_CHECKPOINTS, p, event.sequence, event.eventHash))
    decreases |claims|
  {
    hide EventHash, HashBytes, StreamCheckpoint;
    if i < |claims| - 1 { CreditLogAt(w, p, Init(claims), i); }
  }

  lemma CreditDecodes(w: World, record: CreditRecord)
    requires w.Honest()
    ensures w.credit.read(w.credit.text(record)) == Some(record)
  {
  }

  lemma CreditCheckpointFields(w: World, p: string, sequence: nat, eventHash: string)
    ensures var checkpoint := StreamCheckpoint(w, CREDIT_CHECKPOINTS, p, sequence, eventHash);
            checkpoint.pollID == p && checkpoint.sequence == sequence && checkpoint.eventHash == eventHash
  {
  }

  lemma ClaimAt(w: World, h: History, i: nat)
    requires w.Honest() && Valid(w, h) && i < |h.claims|
    ensures var f := h.claims[i].fingerprint;
            && f != "" && f in CreditsOf(h.members, h.claims)
            && CreditsOf(h.members, h.claims)[f].claim == Some(h.claims[i].issuance)
  {
    hide SignedByService, GoodCasts, CreditsOf, Sorted;
    var f := h.claims[i].fingerprint;
    CreditRows(h.members, h.claims, f);
    ClaimOfSome(h.claims, f);
    var j :| 0 <= j < |h.claims| && h.claims[j] == Claimed(f, ClaimOf(h.claims, f).value);
    var m :| 0 <= m < |h.members| && h.members[m].fingerprint == f;
    assert h.members[m] in h.members;
  }

  lemma CreditEventPasses(w: World, h: History, i: nat)
    requires w.Honest() && Valid(w, h) && i < |h.claims|
    ensures var event := CreditLog(w, h.poll.pollID, h.claims)[i];
            CreditEventSound(w, h.poll.pollID, CreditsOf(h.members, h.claims), event) && ClaimantOf(w, event) == Some(h.claims[i].fingerprint)
  {
    hide w.Honest, Valid, CreditLog, CreditsOf, HashBytes, StreamCheckpoint, VerifyCheckpoint;
    var (p, claim) := (h.poll.pollID, h.claims[i]);
    var event := CreditLog(w, p, h.claims)[i];
    CreditLogAt(w, p, h.claims, i);
    ClaimAt(w, h, i);
    CreditDecodes(w, CreditRecord("credit_claimed", claim.fingerprint, claim.issuance.requestID, claim.issuance.blindedMessageHash,
                                  HashBytes(w, "vota:blind-signature:v1", claim.issuance.blindSignature)));
    CheckpointDecodes(w, StreamCheckpoint(w, CREDIT_CHECKPOINTS, p, event.sequence, event.eventHash));
    CheckpointVerifies(w, CREDIT_CHECKPOINTS, p, event.sequence, event.eventHash);
    CreditCheckpointFields(w, p, event.sequence, event.eventHash);
  }

  lemma CreditStreamPasses(w: World, h: History)
    requires w.Honest() && Valid(w, h)
    ensures CreditStreamSound(w, h.poll.pollID, CreditsOf(h.members, h.claims), CreditLog(w, h.poll.pollID, h.claims))
  {
    hide w.Honest, Valid, CreditLog, CreditsOf, CreditEventSound, ClaimantOf, ChainedCredits;
    var events := CreditLog(w, h.poll.pollID, h.claims);
    CreditLogNumbered(w, h.poll.pollID, h.claims);
    CreditLogChained(w, h.poll.pollID, h.claims);
    ValidClaims(w, h);
    forall i | 0 <= i < |events| ensures CreditEventSound(w, h.poll.pollID, CreditsOf(h.members, h.claims), events[i])
                                 ensures ClaimantOf(w, events[i]) == Some(h.claims[i].fingerprint) {
      CreditEventPasses(w, h, i);
    }
  }

  lemma ValidClaims(w: World, h: History)
    requires Valid(w, h)
    ensures DistinctClaims(h.claims) && DistinctCredentials(w, h.casts)
    ensures h.closedAt.Some? ==> h.closedAt.value != ""
  {
    hide SignedByService, GoodMembers;
  }

  /* The ballot stream */

  lemma KindPasses(w: World, h: History, i: nat)
    requires w.Honest() && i < |Log(w, h)|
    ensures KindSound(w, ArtifactHash(w, h.poll), Log(w, h), i)
    ensures Log(w, h)[i].kind == "ballot_accepted" <==> 1 <= i <= |h.casts|
    ensures Log(w, h)[i].kind == "poll_closed" <==> i == |h.casts| + 1
  {
    hide w.Honest, Log, ArtifactHash, CastRecord, ReceiptOf;
    LogNumbered(w, h);
    if i == 0 {
      LogFirst(w, h);
      FirstKind(w, h.poll, h.createdAt);
      CreatedDecodes(w, PollCreatedRecord("poll_created", ArtifactHash(w, h.poll)));
    } else if i <= |h.casts| {
      LogBallot(w, h, i - 1);
    } else {
      LogLast(w, h);
    }
  }

  lemma FirstKind(w: World, poll: Poll, createdAt: string)
    ensures var event := CreatedEvent(w, poll, createdAt);
            event.kind == "poll_created" && event.artifact == w.created.text(PollCreatedRecord("poll_created", ArtifactHash(w, poll)))
  {
  }

  lemma KindsPass(w: World, h: History)
    requires w.Honest() && Valid(w, h)
    ensures KindsSound(w, RowOf(w, h), Log(w, h))
  {
    hide w.Honest, Valid, Log, KindSound, ArtifactHash;
    LogNumbered(w, h);
    ValidClaims(w, h);
    forall i: nat | i < |Log(w, h)| ensures KindSound(w, ArtifactHash(w, h.poll), Log(w, h), i) { KindPasses(w, h, i); }
    KindPasses(w, h, |Log(w, h)| - 1);
  }

  lemma {:induction false} CastIndexAt(w: World, casts: seq<Cast>, k: nat)
    requires k < |casts| && DistinctCredentials(w, casts)
    ensures CastIndex(w, casts, CredentialHash(w, casts[k].ballot.credential)) == Some(k)
    decreases |casts|
  {
    hide CredentialHash;
    if k < |casts| - 1 {
      assert CredentialHash(w, casts[k].ballot.credential) != CredentialHash(w, Last(casts).ballot.credential);
      CastIndexAt(w, Init(casts), k);
    }
  }

  lemma SequenceAt(w: World, h: History, i: nat)
    requires i < |Log(w, h)|
    ensures Log(w, h)[i].sequence == i + 1
  {
    hide Log;
    LogNumbered(w, h);
  }

  lemma BallotIndexed(w: World, h: History, k: nat)
    requires k < |h.casts| && DistinctCredentials(w, h.casts)
    ensures k + 1 < |Log(w, h)| && Indexed(Tables(w, h), CredentialHash(w, h.casts[k].ballot.credential), Log(w, h)[k + 1])
  {
    hide Log, Tables, SpentOf, CastIndex, FindEvent, DistinctCredentials, Numbered, CredentialHash;
    var c := CredentialHash(w, h.casts[k].ballot.credential);
    TablesParts(w, h);
    LogNumbered(w, h);
    CastIndexAt(w, h.casts, k);
    SpentIndex(w, h.casts, c);
    assert SpentOf(w, h.casts)[c] == k + 2;
    FindNumbered(Log(w, h), k + 1);
    SequenceAt(w, h, k + 1);
  }

  lemma ReceiptVerifies(w: World, receipt: Receipt)
    requires ReceiptVerdict(w, w.keyText, receipt).None?
    ensures VerifyReceipt(w, w.keyText, receipt)
  {
    hide VerifyCheckpoint, ReceiptMessage;
  }

  lemma StoredBallotPasses(w: World, h: History, k: nat)
    requires w.Honest() && Valid(w, h) && k < |h.casts|
    ensures k + 1 < |Log(w, h)| && BallotSound(w, h.poll.pollID, Tables(w, h), h.poll, Log(w, h)[k + 1])
    ensures SpenderOf(w, Log(w, h)[k + 1]) == Some(CredentialHash(w, h.casts[k].ballot.credential))
  {
    hide w.Honest, Valid, Log, CredentialHash, CastRecord, ReceiptOf, ReceiptVerdict, VerifyReceipt, VerifyWireCredential, ChoiceExists, Indexed,
         Tables;
    ValidBallot(w, h, k);
    LogBallot(w, h, k);
    var (event, record) := (Log(w, h)[k + 1], CastRecord(w, h.poll, k + 2, h.casts[k]));
    RecordSequence(w, h.poll, k + 2, h.casts[k]);
    RecordDecodes(w, record);
    ReceiptPasses(w, record, event.eventHash);
    ReceiptFields(w, record, event.eventHash);
    ReceiptVerifies(w, ReceiptOf(w, record, event.eventHash));
    BallotIndexed(w, h, k);
  }

  lemma AcceptedEventPasses(w: World, h: History, i: nat)
    requires w.Honest() && Valid(w, h) && i < |Log(w, h)| && Log(w, h)[i].kind == "ballot_accepted"
    ensures 1 <= i <= |h.casts| && BallotSound(w, h.poll.pollID, Tables(w, h), h.poll, Log(w, h)[i])
    ensures SpenderOf(w, Log(w, h)[i]) == Some(CredentialHash(w, h.casts[i - 1].ballot.credential))
  {
    hide w.Honest, Valid, Log, Tables, BallotSound, SpenderOf, KindSound, CredentialHash;
    KindPasses(w, h, i);
    StoredBallotPasses(w, h, i - 1);
  }

  lemma SpendersPass(w: World, h: History)
    requires w.Honest() && Valid(w, h)
    ensures DistinctSpenders(w, Log(w, h))
  {
    hide w.Honest, Valid, Log, BallotSound, SpenderOf, CredentialHash, Tables;
    ValidClaims(w, h);
    var log := Log(w, h);
    forall i: nat, j: nat | i < j < |log| && log[i].kind == log[j].kind == "ballot_accepted"
      ensures SpenderOf(w, log[i]) != SpenderOf(w, log[j]) {
      AcceptedEventPasses(w, h, i);
      AcceptedEventPasses(w, h, j);
      DistinctAt(w, h.casts, i - 1, j - 1);
    }
  }

  lemma DistinctAt(w: World, casts: seq<Cast>, i: nat, j: nat)
    requires DistinctCredentials(w, casts) && i < j < |casts|
    ensures CredentialHash(w, casts[i].ballot.credential) != CredentialHash(w, casts[j].ballot.credential)
  {
  }

  lemma BallotsPass(w: World, h: History)
    requires w.Honest() && Valid(w, h)
    ensures BallotsSound(w, h.poll.pollID, Tables(w, h), h.poll)
  {
    hide w.Honest, Valid, Log, Tables, BallotSound, SpenderOf, DistinctSpenders, CredentialHash;
    TablesParts(w, h);
    SpendersPass(w, h);
    var log := Log(w, h);
    forall i: nat | i < |log| && log[i].kind == "ballot_accepted" ensures BallotSound(w, h.poll.pollID, Tables(w, h), h.poll, log[i]) {
      AcceptedEventPasses(w, h, i);
    }
  }

  lemma CountsPass(w: World, h: History)
    requires w.Honest() && Valid(w, h)
    ensures CountsAgree(Tables(w, h))
  {
    hide w.Honest, Valid, Log, Tables, CreditsOf, CreditLog, SpentOf, ClaimedRows, Accepted, BallotsFor;
    TablesParts(w, h);
    ValidClaims(w, h);
    CreditCounts(w, h);
    SpentCount(w, h.casts);
    ClosedCounts(w, h, "");
  }

  lemma CheckpointsPass(w: World, h: History)
    requires w.Honest()
    ensures CheckpointsSound(w, Tables(w, h))
  {
  }

  lemma ProjectionPasses(w: World, h: History)
    requires w.Honest() && Valid(w, h)
    ensures RowMatches(w, RowOf(w, h), h.poll) && ChoicesMatch(ChoiceRowsOf(h.poll.choices), h.poll.choices)
  {
    hide HashBytes, GoodMembers, GoodClaims, GoodCasts, w.Honest;
  }

  /* The tally */

  lemma ClosedTallyPasses(w: World, hs: Histories, p: string)
    requires w.Honest() && AllValid(w, hs) && p in hs && hs[p].closedAt.Some?
    ensures Audited(w, Render(w, hs), p) == Ok(BundleOf(w, hs[p])) && Accepts(w, BundleOf(w, hs[p])) && InRange(BundleOf(w, hs[p]).tally)
    ensures BundleOf(w, hs[p]).tally.closedAt == hs[p].closedAt.value
  {
    hide Render, AllValid, w.Honest, AuditFrom, Accepts, InRange, Valid, Log;
    var db := Render(w, hs);
    var (runs, views) := ([[], [], [], [], [], [], []], [db, db, db, db, db, db, db]);
    assert forall i :: 0 <= i < 7 ==> runs[i] == [] && views[i] == Render(w, After(w, hs, runs[i]));
    AuditPasses(w, hs, p, runs, views);
  }

  lemma TallyPasses(w: World, hs: Histories, p: string)
    requires w.Honest() && AllValid(w, hs) && p in hs
    ensures p in Render(w, hs) && TallySound(w, Render(w, hs), p) && (hs[p].closedAt.Some? ==> StoredInRange(w, Render(w, hs), p))
  {
    hide Render, Tables, AllValid, w.Honest, Audited, Accepts, InRange, Log, BundleOf, TallyOf, ArtifactHash;
    RenderAt(w, hs, p);
    TablesParts(w, hs[p]);
    if hs[p].closedAt.Some? { ClosedTallyPasses(w, hs, p); }
  }

  lemma RangeOpen(w: World, hs: Histories, p: string)
    requires AllValid(w, hs) && p in hs && hs[p].closedAt.None?
    ensures Audited(w, Render(w, hs), p) == Err("poll_not_closed")
  {
  }

  // One poll of a reachable store.
  lemma PollPasses(w: World, hs: Histories, p: string, order: seq<string>)
    requires w.Honest() && AllValid(w, hs) && p in hs && Listing(order, Render(w, hs)[p].credits)
    ensures PollSound(w, Render(w, hs), p, order) && StoredInRange(w, Render(w, hs), p)
  {
    hide Render, Tables, AllValid, Valid, w.Honest, Log, CreditLog, CreditsOf, SpentOf, RequireIssuer, VerifyPollArtifact, RowMatches,
         ChoicesMatch, CreditsMatch, CreditStreamSound, Chained, Numbered, KindsSound, BallotsSound, CountsAgree, CheckpointsSound, TallySound,
         Listing, ArtifactHash, StoredInRange;
    var h := hs[p];
    RenderAt(w, hs, p);
    ValidAt(w, hs, p);
    ValidSigned(w, h);
    TablesParts(w, h);
    HonestKeys(w);
    PollReads(w, h);
    ProjectionPasses(w, h);
    CreditsPass(w, h, order);
    CreditStreamPasses(w, h);
    LogNumbered(w, h);
    LogChained(w, h);
    KindsPass(w, h);
    BallotsPass(w, h);
    CountsPass(w, h);
    CheckpointsPass(w, h);
    TallyPasses(w, hs, p);
    RangeAny(w, hs, p);
  }

  lemma RangeAny(w: World, hs: Histories, p: string)
    requires w.Honest() && AllValid(w, hs) && p in hs
    ensures StoredInRange(w, Render(w, hs), p)
  {
    hide Render, AllValid, w.Honest, Audited, InRange, TallySound;
    if hs[p].closedAt.Some? { TallyPasses(w, hs, p); } else { RangeOpen(w, hs, p); }
  }

  lemma ValidSigned(w: World, h: History)
    requires Valid(w, h)
    ensures SignedByService(w, h.poll, h.members)
  {
    hide GoodMembers, GoodClaims, GoodCasts;
  }

  /** After any run from the empty store, with the keys unchanged and nothing in flight, every poll passes Ready. */
  lemma ReachableIsReady(w: World, ops: seq<Op>, p: string, order: seq<string>)
    requires w.Honest() && p in StepRun(w, map[], ops).0 && Listing(order, StepRun(w, map[], ops).0[p].credits)
    ensures PollSound(w, StepRun(w, map[], ops).0, p, order) && StoredInRange(w, StepRun(w, map[], ops).0, p)
  {
    hide Render, AllValid, w.Honest, StepOp, DoOp, PollSound, StoredInRange, Listing;
    EmptyValid(w);
    RunRefines(w, map[], ops);
    RunValid(w, map[], ops);
    RenderKeys(w, After(w, map[], ops));
    PollPasses(w, After(w, map[], ops), p, order);
  }
}
