/** The SQLite store (migrations/001_initial.sql, internal/sequencerstore). Every child table
    references polls, so the store is a map from poll id to that poll's slice of the eight tables.
    Tables ordered by an integer key are sequences in key order; a NULL text is "". */
module Store {
  import opened Wrappers
  import opened Artifacts

  datatype PollRow = PollRow(pollID: string, artifactHash: string, artifact: string, state: string,
                             createdAt: string, closesAt: string, closedAt: string, issuerKeyID: string,
                             eligibilityCommitment: string)
  datatype ChoiceRow = ChoiceRow(choiceID: string, title: string, position: nat)

  // The CHECK on poll_credits: the four claim columns are NULL together.
  datatype Issuance = Issuance(requestID: string, blindedMessageHash: string, blindSignature: string, claimedAt: string)
  datatype CreditRow = CreditRow(sshPublicKey: string, claim: Option<Issuance>)

  datatype CreditEvent = CreditEvent(sequence: nat, previousHash: string, eventHash: string, artifact: string,
                                     signature: string, recordedAt: string)
  datatype BallotEvent = BallotEvent(sequence: nat, kind: string, previousHash: string, eventHash: string,
                                     artifact: string, receipt: string, recordedAt: string)
  datatype TallyRow = TallyRow(artifact: string, createdAt: string)
  datatype CheckpointRow = CheckpointRow(sequence: nat, eventHash: string, artifact: string)

  datatype PollFile = PollFile(row: PollRow, choices: seq<ChoiceRow>, credits: map<string, CreditRow>,
                               creditEvents: seq<CreditEvent>, ballotEvents: seq<BallotEvent>,
                               spent: map<string, nat>, tally: Option<TallyRow>, checkpoints: seq<CheckpointRow>)

  type Db = map<string, PollFile>

  // SQLite's largest INTEGER.
  const MAX_SEQUENCE: nat := 0x7fff_ffff_ffff_ffff

  /* Insertion in key order */

  function PlaceChoice(rows: seq<ChoiceRow>, row: ChoiceRow): seq<ChoiceRow> {
    if rows == [] || rows[|rows| - 1].position < row.position then rows + [row]
    else PlaceChoice(rows[..|rows| - 1], row) + [rows[|rows| - 1]]
  }

  function PlaceCreditEvent(rows: seq<CreditEvent>, row: CreditEvent): seq<CreditEvent> {
    if rows == [] || rows[|rows| - 1].sequence < row.sequence then rows + [row]
    else PlaceCreditEvent(rows[..|rows| - 1], row) + [rows[|rows| - 1]]
  }

  function PlaceBallotEvent(rows: seq<BallotEvent>, row: BallotEvent): seq<BallotEvent> {
    if rows == [] || rows[|rows| - 1].sequence < row.sequence then rows + [row]
    else PlaceBallotEvent(rows[..|rows| - 1], row) + [rows[|rows| - 1]]
  }

  function PlaceCheckpoint(rows: seq<CheckpointRow>, row: CheckpointRow): seq<CheckpointRow> {
    if rows == [] || rows[|rows| - 1].sequence < row.sequence then rows + [row]
    else PlaceCheckpoint(rows[..|rows| - 1], row) + [rows[|rows| - 1]]
  }

  /* UNIQUE constraints that reach across polls */

  predicate ArtifactHashTaken(db: Db, hash: string) {
    exists p | p in db :: db[p].row.artifactHash == hash
  }

  predicate CreditHashTaken(db: Db, hash: string) {
    exists p | p in db :: exists i :: 0 <= i < |db[p].creditEvents| && db[p].creditEvents[i].eventHash == hash
  }

  predicate BallotHashTaken(db: Db, hash: string) {
    exists p | p in db :: exists i :: 0 <= i < |db[p].ballotEvents| && db[p].ballotEvents[i].eventHash == hash
  }

  /* Writes (write.go): the new store, or the constraint's error code */

  function InsertPoll(db: Db, row: PollRow): Result<Db> {
    if row.pollID in db || ArtifactHashTaken(db, row.artifactHash) then Err("poll_conflict")
    else Ok(db[row.pollID := PollFile(row.(state := "open", closedAt := ""), [], map[], [], [], map[], None, [])])
  }

  function InsertChoice(db: Db, p: string, row: ChoiceRow): Result<Db> {
    if p !in db
       || (exists i :: 0 <= i < |db[p].choices|
            && (db[p].choices[i].choiceID == row.choiceID || db[p].choices[i].position == row.position))
    then Err("choice_write_failed")
    else Ok(db[p := db[p].(choices := PlaceChoice(db[p].choices, row))])
  }

  function InsertCredit(db: Db, p: string, fingerprint: string, publicKey: string): Result<Db> {
    if p !in db || fingerprint in db[p].credits
       || (exists f | f in db[p].credits :: db[p].credits[f].sshPublicKey == publicKey)
    then Err("duplicate_eligible_key")
    else Ok(db[p := db[p].(credits := db[p].credits[fingerprint := CreditRow(publicKey, None)])])
  }

  function ClaimCredit(db: Db, p: string, fingerprint: string, issuance: Issuance): Result<Db> {
    if p !in db || fingerprint !in db[p].credits || db[p].credits[fingerprint].claim.Some?
    then Err("credit_already_claimed")
    else Ok(db[p := db[p].(credits := db[p].credits[fingerprint := db[p].credits[fingerprint].(claim := Some(issuance))])])
  }

  function InsertCreditEvent(db: Db, p: string, event: CreditEvent): Result<Db> {
    if p !in db || event.sequence == 0 || CreditHashTaken(db, event.eventHash)
       || (exists i :: 0 <= i < |db[p].creditEvents| && db[p].creditEvents[i].sequence == event.sequence)
    then Err("credit_event_write_failed")
    else Ok(db[p := db[p].(creditEvents := PlaceCreditEvent(db[p].creditEvents, event))])
  }

  // The CHECKs on ballot_events.
  predicate BallotEventAllowed(event: BallotEvent) {
    && event.sequence > 0
    && (event.kind == "poll_created" || event.kind == "ballot_accepted" || event.kind == "poll_closed")
    && (event.kind == "ballot_accepted" <==> event.receipt != "")
  }

  function InsertBallotEvent(db: Db, p: string, event: BallotEvent): Result<Db> {
    if p !in db || !BallotEventAllowed(event) || BallotHashTaken(db, event.eventHash)
       || (exists i :: 0 <= i < |db[p].ballotEvents| && db[p].ballotEvents[i].sequence == event.sequence)
    then Err("ballot_event_write_failed")
    else Ok(db[p := db[p].(ballotEvents := PlaceBallotEvent(db[p].ballotEvents, event))])
  }

  // The foreign key to ballot_events is deferred, so it is not looked at here.
  function SpendCredential(db: Db, p: string, credentialHash: string, sequence: nat): Result<Db> {
    if p !in db || credentialHash in db[p].spent || (exists c | c in db[p].spent :: db[p].spent[c] == sequence)
    then Err("credential_already_spent")
    else Ok(db[p := db[p].(spent := db[p].spent[credentialHash := sequence])])
  }

  function SaveCheckpoint(db: Db, p: string, row: CheckpointRow): Result<Db> {
    if p !in db || FindEvent(db[p].ballotEvents, row.sequence).None?
       || (exists i :: 0 <= i < |db[p].checkpoints| && db[p].checkpoints[i].sequence == row.sequence)
    then Err("checkpoint_write_failed")
    else Ok(db[p := db[p].(checkpoints := PlaceCheckpoint(db[p].checkpoints, row))])
  }

  function ClosePoll(db: Db, p: string, closedAt: string): Result<Db> {
    if p !in db || db[p].row.state != "open" then Err("poll_not_open")
    else Ok(db[p := db[p].(row := db[p].row.(state := "closed", closedAt := closedAt))])
  }

  function SaveTally(db: Db, p: string, row: TallyRow): Result<Db> {
    if p !in db || db[p].tally.Some? then Err("tally_final")
    else Ok(db[p := db[p].(tally := Some(row))])
  }

  // The deferred foreign key of spent_credentials, for the rows this transaction added.
  predicate DeferredKeysHold(before: Db, after: Db) {
    forall p | p in after :: forall c | c in after[p].spent ::
      (p in before && c in before[p].spent) || FindEvent(after[p].ballotEvents, after[p].spent[c]).Some?
  }

  function Commit(before: Db, after: Db): Result<Db> {
    if DeferredKeysHold(before, after) then Ok(after) else Err("transaction_commit_failed")
  }

  /* Reads (read.go) */

  function ReadPoll(db: Db, p: string): Result<PollRow> {
    if p in db then Ok(db[p].row) else Err("poll_not_found")
  }

  function ReadChoices(db: Db, p: string): seq<ChoiceRow> {
    if p in db then db[p].choices else []
  }

  function ReadCredit(db: Db, p: string, fingerprint: string): Result<CreditRow> {
    if p in db && fingerprint in db[p].credits then Ok(db[p].credits[fingerprint]) else Err("not_eligible")
  }

  function ReadBallotEvents(db: Db, p: string): seq<BallotEvent> {
    if p in db then db[p].ballotEvents else []
  }

  function ReadCheckpoints(db: Db, p: string): seq<CheckpointRow> {
    if p in db then db[p].checkpoints else []
  }

  function ReadTally(db: Db, p: string): Result<TallyRow> {
    if p in db && db[p].tally.Some? then Ok(db[p].tally.value) else Err("result_unavailable")
  }

  function FindEvent(events: seq<BallotEvent>, sequence: nat): (e: Option<BallotEvent>)
    ensures e.Some? <==> exists i :: 0 <= i < |events| && events[i].sequence == sequence
    ensures e.Some? ==> e.value in events && e.value.sequence == sequence
  {
    if events == [] then None
    else if events[|events| - 1].sequence == sequence then Some(events[|events| - 1])
    else FindEvent(events[..|events| - 1], sequence)
  }

  // The join of spent_credentials with ballot_events.
  function BallotByCredential(db: Db, p: string, credentialHash: string): Option<BallotEvent> {
    if p in db && credentialHash in db[p].spent then FindEvent(db[p].ballotEvents, db[p].spent[credentialHash]) else None
  }

  // nextEvent: one more than the largest sequence, and the hash stored there.
  function NextCreditEvent(db: Db, p: string): Result<(nat, string)> {
    if p !in db || db[p].creditEvents == [] then Ok((1, EMPTY_HASH))
    else
      var last := db[p].creditEvents[|db[p].creditEvents| - 1];
      if last.sequence >= MAX_SEQUENCE then Err("event_read_failed") else Ok((last.sequence + 1, last.eventHash))
  }

  function NextBallotEvent(db: Db, p: string): Result<(nat, string)> {
    if p !in db || db[p].ballotEvents == [] then Ok((1, EMPTY_HASH))
    else
      var last := db[p].ballotEvents[|db[p].ballotEvents| - 1];
      if last.sequence >= MAX_SEQUENCE then Err("event_read_failed") else Ok((last.sequence + 1, last.eventHash))
  }

  /* The database handle, with one immediate (serialised) transaction at a time */

  function Applied(r: Result<Db>, before: Db): Db {
    if r.Ok? then r.value else before
  }

  function Code(r: Result<Db>): Result<()> {
    if r.Ok? then Ok(()) else Err(r.code)
  }

  class Database {
    var db: Db
    var snapshot: Db

    constructor ()
      ensures db == map[] && snapshot == map[]
    {
      db := map[];
      snapshot := map[];
    }

    method Begin()
      modifies this`snapshot
      ensures snapshot == db
    {
      snapshot := db;
    }

    method Rollback()
      modifies this`db
      ensures db == snapshot
    {
      db := snapshot;
    }

    // A failed commit leaves the store as it was at Begin.
    method CommitTx() returns (err: Result<()>)
      modifies this`db
      ensures db == Applied(Commit(snapshot, old(db)), snapshot) && err == Code(Commit(snapshot, old(db)))
    {
      if !DeferredKeysHold(snapshot, db) {
        db := snapshot;
        return Err("transaction_commit_failed");
      }
      return Ok(());
    }

    // One SQL statement: its effect on the tables, or the constraint it breaks and no effect.
    method Exec(statement: Result<Db>) returns (err: Result<()>)
      modifies this`db
      ensures db == Applied(statement, old(db)) && err == Code(statement)
    {
      if statement.Err? {
        return Err(statement.code);
      }
      db := statement.value;
      return Ok(());
    }
  }
}
