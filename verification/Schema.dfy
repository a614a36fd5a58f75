/** The declared constraints of migrations/001_initial.sql as one predicate on the tables, and that every statement that succeeds
    keeps them: whatever a transaction runs, what it commits satisfies the schema. */
module Schema {
  import opened Wrappers
  import opened Artifacts
  import opened Store

  /* Keys */

  predicate Ascending(keys: seq<nat>) {
    forall i, j :: 0 <= i < j < |keys| ==> keys[i] < keys[j]
  }

  predicate Distinct(texts: seq<string>) {
    forall i, j :: 0 <= i < j < |texts| ==> texts[i] != texts[j]
  }

  function Inserted<T>(s: seq<T>, k: nat, x: T): (t: seq<T>)
    requires k <= |s|
    ensures |t| == |s| + 1
  {
    s[..k] + [x] + s[k..]
  }

  lemma InsertedElements<T>(s: seq<T>, k: nat, x: T)
    requires k <= |s|
    ensures forall y :: y in Inserted(s, k, x) <==> y == x || y in s
  {
    assert s == s[..k] + s[k..];
  }

  lemma AscendingInserted(keys: seq<nat>, k: nat, key: nat)
    requires Ascending(keys) && k <= |keys|
    requires (forall i :: 0 <= i < k ==> keys[i] < key) && (forall i :: k <= i < |keys| ==> key < keys[i])
    ensures Ascending(Inserted(keys, k, key))
  {
  }

  lemma DistinctInserted(texts: seq<string>, k: nat, text: string)
    requires Distinct(texts) && k <= |texts| && text !in texts
    ensures Distinct(Inserted(texts, k, text))
  {
    var t := Inserted(texts, k, text);
    forall i, j | 0 <= i < j < |t| ensures t[i] != t[j] {
      assert i != k ==> t[i] == texts[if i < k then i else i - 1];
      assert j != k ==> t[j] == texts[if j < k then j else j - 1];
    }
  }

  /* The constraints */

  function Positions(rows: seq<ChoiceRow>): (keys: seq<nat>)
    ensures |keys| == |rows|
  {
    seq(|rows|, i requires 0 <= i < |rows| => rows[i].position)
  }

  function ChoiceIDs(rows: seq<ChoiceRow>): (texts: seq<string>)
    ensures |texts| == |rows|
  {
    seq(|rows|, i requires 0 <= i < |rows| => rows[i].choiceID)
  }

  function CreditSequences(events: seq<CreditEvent>): (keys: seq<nat>)
    ensures |keys| == |events|
  {
    seq(|events|, i requires 0 <= i < |events| => events[i].sequence)
  }

  function CreditHashes(events: seq<CreditEvent>): (texts: seq<string>)
    ensures |texts| == |events|
  {
    seq(|events|, i requires 0 <= i < |events| => events[i].eventHash)
  }

  function BallotSequences(events: seq<BallotEvent>): (keys: seq<nat>)
    ensures |keys| == |events|
  {
    seq(|events|, i requires 0 <= i < |events| => events[i].sequence)
  }

  function BallotHashes(events: seq<BallotEvent>): (texts: seq<string>)
    ensures |texts| == |events|
  {
    seq(|events|, i requires 0 <= i < |events| => events[i].eventHash)
  }

  function CheckpointSequences(rows: seq<CheckpointRow>): (keys: seq<nat>)
    ensures |keys| == |rows|
  {
    seq(|rows|, i requires 0 <= i < |rows| => rows[i].sequence)
  }

  predicate ChoicesKeyed(rows: seq<ChoiceRow>) {
    Ascending(Positions(rows)) && Distinct(ChoiceIDs(rows))
  }

  predicate CreditsKeyed(credits: map<string, CreditRow>) {
    forall f, g | f in credits && g in credits :: credits[f].sshPublicKey == credits[g].sshPublicKey ==> f == g
  }

  predicate CreditEventsKeyed(events: seq<CreditEvent>) {
    Ascending(CreditSequences(events)) && Distinct(CreditHashes(events)) && forall e | e in events :: e.sequence > 0
  }

  predicate BallotEventsKeyed(events: seq<BallotEvent>) {
    Ascending(BallotSequences(events)) && Distinct(BallotHashes(events)) && forall e | e in events :: BallotEventAllowed(e)
  }

  predicate SpentKeyed(spent: map<string, nat>) {
    forall c, d | c in spent && d in spent :: spent[c] == spent[d] ==> c == d
  }

  predicate CheckpointsKeyed(rows: seq<CheckpointRow>, events: seq<BallotEvent>) {
    Ascending(CheckpointSequences(rows)) && forall r | r in rows :: r.sequence in BallotSequences(events)
  }

  // The constraints within one poll, but for the deferred foreign key.
  predicate FileKeyed(p: string, file: PollFile) {
    && file.row.pollID == p && (file.row.state == "open" || file.row.state == "closed")
    && ChoicesKeyed(file.choices) && CreditsKeyed(file.credits) && CreditEventsKeyed(file.creditEvents)
    && BallotEventsKeyed(file.ballotEvents) && SpentKeyed(file.spent) && CheckpointsKeyed(file.checkpoints, file.ballotEvents)
  }

  // The UNIQUE columns that reach across polls.
  predicate Apart(a: PollFile, b: PollFile) {
    && a.row.artifactHash != b.row.artifactHash
    && (forall h | h in CreditHashes(a.creditEvents) :: h !in CreditHashes(b.creditEvents))
    && (forall h | h in BallotHashes(a.ballotEvents) :: h !in BallotHashes(b.ballotEvents))
  }

  // Everything SQLite checks at each statement.
  predicate Keyed(db: Db) {
    && (forall p | p in db :: FileKeyed(p, db[p]))
    && (forall p, q | p in db && q in db :: p != q ==> Apart(db[p], db[q]))
  }

  // The deferred foreign key, checked at commit.
  predicate SpentReferences(file: PollFile) {
    forall c | c in file.spent :: file.spent[c] in BallotSequences(file.ballotEvents)
  }

  predicate Sound(db: Db) {
    Keyed(db) && forall p | p in db :: SpentReferences(db[p])
  }

  /* Statements */

  datatype Statement =
    | AddPoll(row: PollRow)
    | AddChoice(p: string, choice: ChoiceRow)
    | AddCredit(p: string, fingerprint: string, publicKey: string)
    | Claim(p: string, fingerprint: string, issuance: Issuance)
    | AddCreditEvent(p: string, credit: CreditEvent)
    | AddBallotEvent(p: string, ballot: BallotEvent)
    | Spend(p: string, credentialHash: string, sequence: nat)
    | AddCheckpoint(p: string, checkpoint: CheckpointRow)
    | Close(p: string, closedAt: string)
    | AddTally(p: string, tally: TallyRow)

  function Apply(db: Db, statement: Statement): Result<Db> {
    match statement
    case AddPoll(row) => InsertPoll(db, row)
    case AddChoice(p, choice) => InsertChoice(db, p, choice)
    case AddCredit(p, fingerprint, publicKey) => InsertCredit(db, p, fingerprint, publicKey)
    case Claim(p, fingerprint, issuance) => ClaimCredit(db, p, fingerprint, issuance)
    case AddCreditEvent(p, credit) => InsertCreditEvent(db, p, credit)
    case AddBallotEvent(p, ballot) => InsertBallotEvent(db, p, ballot)
    case Spend(p, credentialHash, sequence) => SpendCredential(db, p, credentialHash, sequence)
    case AddCheckpoint(p, checkpoint) => SaveCheckpoint(db, p, checkpoint)
    case Close(p, closedAt) => ClosePoll(db, p, closedAt)
    case AddTally(p, tally) => SaveTally(db, p, tally)
  }

  function ApplyAll(db: Db, statements: seq<Statement>): Result<Db> {
    if statements == [] then Ok(db) else
    var before :- ApplyAll(db, statements[..|statements| - 1]);
    Apply(before, statements[|statements| - 1])
  }

  /* Insertion in key order keeps the keys in order */

  lemma {:induction false} ChoicePlaced(rows: seq<ChoiceRow>, row: ChoiceRow) returns (k: nat)
    requires forall i, j :: 0 <= i < j < |rows| ==> rows[i].position < rows[j].position
    requires forall i :: 0 <= i < |rows| ==> rows[i].position != row.position
    ensures k <= |rows| && PlaceChoice(rows, row) == Inserted(rows, k, row)
    ensures forall i :: 0 <= i < k ==> rows[i].position < row.position
    ensures forall i :: k <= i < |rows| ==> row.position < rows[i].position
  {
    if rows == [] || rows[|rows| - 1].position < row.position {
      k := |rows|;
    } else {
      var (init, last) := (rows[..|rows| - 1], rows[|rows| - 1]);
      k := ChoicePlaced(init, row);
      assert Inserted(rows, k, row) == Inserted(init, k, row) + [last];
    }
  }

  lemma {:induction false} CreditEventPlaced(rows: seq<CreditEvent>, row: CreditEvent) returns (k: nat)
    requires forall i, j :: 0 <= i < j < |rows| ==> rows[i].sequence < rows[j].sequence
    requires forall i :: 0 <= i < |rows| ==> rows[i].sequence != row.sequence
    ensures k <= |rows| && PlaceCreditEvent(rows, row) == Inserted(rows, k, row)
    ensures forall i :: 0 <= i < k ==> rows[i].sequence < row.sequence
    ensures forall i :: k <= i < |rows| ==> row.sequence < rows[i].sequence
  {
    if rows == [] || rows[|rows| - 1].sequence < row.sequence {
      k := |rows|;
    } else {
      var (init, last) := (rows[..|rows| - 1], rows[|rows| - 1]);
      k := CreditEventPlaced(init, row);
      assert Inserted(rows, k, row) == Inserted(init, k, row) + [last];
    }
  }

  lemma {:induction false} BallotEventPlaced(rows: seq<BallotEvent>, row: BallotEvent) returns (k: nat)
    requires forall i, j :: 0 <= i < j < |rows| ==> rows[i].sequence < rows[j].sequence
    requires forall i :: 0 <= i < |rows| ==> rows[i].sequence != row.sequence
    ensures k <= |rows| && PlaceBallotEvent(rows, row) == Inserted(rows, k, row)
    ensures forall i :: 0 <= i < k ==> rows[i].sequence < row.sequence
    ensures forall i :: k <= i < |rows| ==> row.sequence < rows[i].sequence
  {
    if rows == [] || rows[|rows| - 1].sequence < row.sequence {
      k := |rows|;
    } else {
      var (init, last) := (rows[..|rows| - 1], rows[|rows| - 1]);
      k := BallotEventPlaced(init, row);
      assert Inserted(rows, k, row) == Inserted(init, k, row) + [last];
    }
  }

  lemma {:induction false} CheckpointPlaced(rows: seq<CheckpointRow>, row: CheckpointRow) returns (k: nat)
    requires forall i, j :: 0 <= i < j < |rows| ==> rows[i].sequence < rows[j].sequence
    requires forall i :: 0 <= i < |rows| ==> rows[i].sequence != row.sequence
    ensures k <= |rows| && PlaceCheckpoint(rows, row) == Inserted(rows, k, row)
    ensures forall i :: 0 <= i < k ==> rows[i].sequence < row.sequence
    ensures forall i :: k <= i < |rows| ==> row.sequence < rows[i].sequence
  {
    if rows == [] || rows[|rows| - 1].sequence < row.sequence {
      k := |rows|;
    } else {
      var (init, last) := (rows[..|rows| - 1], rows[|rows| - 1]);
      k := CheckpointPlaced(init, row);
      assert Inserted(rows, k, row) == Inserted(init, k, row) + [last];
    }
  }

  /* The keys of an insertion */

  lemma PositionsInserted(rows: seq<ChoiceRow>, k: nat, row: ChoiceRow)
    requires k <= |rows|
    ensures Positions(Inserted(rows, k, row)) == Inserted(Positions(rows), k, row.position)
  {
  }

  lemma ChoiceIDsInserted(rows: seq<ChoiceRow>, k: nat, row: ChoiceRow)
    requires k <= |rows|
    ensures ChoiceIDs(Inserted(rows, k, row)) == Inserted(ChoiceIDs(rows), k, row.choiceID)
  {
  }

  lemma CreditSequencesInserted(rows: seq<CreditEvent>, k: nat, row: CreditEvent)
    requires k <= |rows|
    ensures CreditSequences(Inserted(rows, k, row)) == Inserted(CreditSequences(rows), k, row.sequence)
  {
  }

  lemma CreditHashesInserted(rows: seq<CreditEvent>, k: nat, row: CreditEvent)
    requires k <= |rows|
    ensures CreditHashes(Inserted(rows, k, row)) == Inserted(CreditHashes(rows), k, row.eventHash)
  {
  }

  lemma BallotSequencesInserted(rows: seq<BallotEvent>, k: nat, row: BallotEvent)
    requires k <= |rows|
    ensures BallotSequences(Inserted(rows, k, row)) == Inserted(BallotSequences(rows), k, row.sequence)
  {
  }

  lemma BallotHashesInserted(rows: seq<BallotEvent>, k: nat, row: BallotEvent)
    requires k <= |rows|
    ensures BallotHashes(Inserted(rows, k, row)) == Inserted(BallotHashes(rows), k, row.eventHash)
  {
  }

  lemma CheckpointSequencesInserted(rows: seq<CheckpointRow>, k: nat, row: CheckpointRow)
    requires k <= |rows|
    ensures CheckpointSequences(Inserted(rows, k, row)) == Inserted(CheckpointSequences(rows), k, row.sequence)
  {
  }

  /* Each table */

  lemma ChoicesKept(rows: seq<ChoiceRow>, row: ChoiceRow)
    requires ChoicesKeyed(rows) && row.position !in Positions(rows) && row.choiceID !in ChoiceIDs(rows)
    ensures ChoicesKeyed(PlaceChoice(rows, row))
  {
    hide Inserted, Distinct;
    assert forall i :: 0 <= i < |rows| ==> Positions(rows)[i] == rows[i].position;
    var k := ChoicePlaced(rows, row);
    PositionsInserted(rows, k, row);
    ChoiceIDsInserted(rows, k, row);
    AscendingInserted(Positions(rows), k, row.position);
    DistinctInserted(ChoiceIDs(rows), k, row.choiceID);
  }

  lemma CreditEventsKept(rows: seq<CreditEvent>, row: CreditEvent)
    requires CreditEventsKeyed(rows) && row.sequence > 0 && row.sequence !in CreditSequences(rows) && row.eventHash !in CreditHashes(rows)
    ensures CreditEventsKeyed(PlaceCreditEvent(rows, row))
    ensures forall h :: h in CreditHashes(PlaceCreditEvent(rows, row)) <==> h == row.eventHash || h in CreditHashes(rows)
  {
    hide Inserted, Distinct;
    assert forall i :: 0 <= i < |rows| ==> CreditSequences(rows)[i] == rows[i].sequence;
    var k := CreditEventPlaced(rows, row);
    CreditSequencesInserted(rows, k, row);
    CreditHashesInserted(rows, k, row);
    AscendingInserted(CreditSequences(rows), k, row.sequence);
    DistinctInserted(CreditHashes(rows), k, row.eventHash);
    InsertedElements(rows, k, row);
    InsertedElements(CreditHashes(rows), k, row.eventHash);
  }

  lemma BallotEventsKept(rows: seq<BallotEvent>, row: BallotEvent)
    requires BallotEventsKeyed(rows) && BallotEventAllowed(row)
    requires row.sequence !in BallotSequences(rows) && row.eventHash !in BallotHashes(rows)
    ensures BallotEventsKeyed(PlaceBallotEvent(rows, row))
    ensures forall h :: h in BallotHashes(PlaceBallotEvent(rows, row)) <==> h == row.eventHash || h in BallotHashes(rows)
    ensures forall s :: s in BallotSequences(PlaceBallotEvent(rows, row)) <==> s == row.sequence || s in BallotSequences(rows)
  {
    hide Inserted, Distinct, BallotEventAllowed;
    assert forall i :: 0 <= i < |rows| ==> BallotSequences(rows)[i] == rows[i].sequence;
    var k := BallotEventPlaced(rows, row);
    BallotSequencesInserted(rows, k, row);
    BallotHashesInserted(rows, k, row);
    AscendingInserted(BallotSequences(rows), k, row.sequence);
    DistinctInserted(BallotHashes(rows), k, row.eventHash);
    InsertedElements(rows, k, row);
    InsertedElements(BallotHashes(rows), k, row.eventHash);
    InsertedElements(BallotSequences(rows), k, row.sequence);
  }

  lemma CheckpointsKept(rows: seq<CheckpointRow>, row: CheckpointRow, events: seq<BallotEvent>)
    requires CheckpointsKeyed(rows, events) && row.sequence !in CheckpointSequences(rows) && row.sequence in BallotSequences(events)
    ensures CheckpointsKeyed(PlaceCheckpoint(rows, row), events)
  {
    hide Inserted;
    assert forall i :: 0 <= i < |rows| ==> CheckpointSequences(rows)[i] == rows[i].sequence;
    var k := CheckpointPlaced(rows, row);
    CheckpointSequencesInserted(rows, k, row);
    AscendingInserted(CheckpointSequences(rows), k, row.sequence);
    InsertedElements(rows, k, row);
  }

  /* The tests of the statements, on keys */

  lemma FoundSequence(events: seq<BallotEvent>, sequence: nat)
    ensures FindEvent(events, sequence).Some? <==> sequence in BallotSequences(events)
  {
    if FindEvent(events, sequence).Some? {
      var i :| 0 <= i < |events| && events[i].sequence == sequence;
      assert BallotSequences(events)[i] == sequence;
    }
    if sequence in BallotSequences(events) {
      var i :| 0 <= i < |events| && BallotSequences(events)[i] == sequence;
    }
  }

  lemma BallotHashFree(db: Db, hash: string)
    requires !BallotHashTaken(db, hash)
    ensures forall p | p in db :: hash !in BallotHashes(db[p].ballotEvents)
  {
    forall p | p in db ensures hash !in BallotHashes(db[p].ballotEvents) {
      assert forall i :: 0 <= i < |db[p].ballotEvents| ==> db[p].ballotEvents[i].eventHash != hash;
    }
  }

  lemma CreditHashFree(db: Db, hash: string)
    requires !CreditHashTaken(db, hash)
    ensures forall p | p in db :: hash !in CreditHashes(db[p].creditEvents)
  {
    forall p | p in db ensures hash !in CreditHashes(db[p].creditEvents) {
      assert forall i :: 0 <= i < |db[p].creditEvents| ==> db[p].creditEvents[i].eventHash != hash;
    }
  }

  /* Each statement */

  // Nothing the deferred foreign key looks at is taken away.
  predicate OnlyAdds(before: Db, after: Db) {
    forall p | p in before :: p in after && FileAdds(before[p], after[p])
  }

  predicate FileAdds(before: PollFile, after: PollFile) {
    && (forall c | c in before.spent :: c in after.spent && after.spent[c] == before.spent[c])
    && (forall s | s in BallotSequences(before.ballotEvents) :: s in BallotSequences(after.ballotEvents))
  }

  // A step of a transaction: it keeps the schema and only adds.
  predicate Keeps(before: Db, after: Db) {
    Keyed(before) ==> Keyed(after) && OnlyAdds(before, after)
  }

  lemma KeepsTransitive(a: Db, b: Db, c: Db)
    requires Keeps(a, b) && Keeps(b, c)
    ensures Keeps(a, c)
  {
    hide Keyed, BallotSequences;
    if Keyed(a) {
      forall p | p in a ensures p in c && FileAdds(a[p], c[p]) {
        assert FileAdds(a[p], b[p]) && FileAdds(b[p], c[p]);
      }
    }
  }

  // A statement on one poll keeps the schema if it keeps that poll keyed and apart from the others.
  lemma OneFile(db: Db, p: string, file: PollFile)
    requires Keyed(db) && FileKeyed(p, file)
    requires forall q | q in db :: q != p ==> Apart(file, db[q]) && Apart(db[q], file)
    requires p in db ==> FileAdds(db[p], file)
    ensures Keeps(db, db[p := file])
  {
    hide FileKeyed, Apart, BallotSequences;
  }

  // A statement that leaves the hashes alone keeps its poll apart.
  lemma SameHashesApart(db: Db, p: string, file: PollFile)
    requires Keyed(db) && p in db && FileKeyed(p, file)
    requires file.row.artifactHash == db[p].row.artifactHash
    requires file.creditEvents == db[p].creditEvents && file.ballotEvents == db[p].ballotEvents && FileAdds(db[p], file)
    ensures Keeps(db, db[p := file])
  {
    hide FileKeyed, FileAdds;
    forall q | q in db && q != p ensures Apart(file, db[q]) && Apart(db[q], file) {
      assert Apart(db[p], db[q]) && Apart(db[q], db[p]);
    }
    OneFile(db, p, file);
  }

  lemma AddPollKeeps(db: Db, row: PollRow)
    requires Keyed(db) && InsertPoll(db, row).Ok?
    ensures Keeps(db, InsertPoll(db, row).value)
  {
    hide FileKeyed;
    var file := PollFile(row.(state := "open", closedAt := ""), [], map[], [], [], map[], None, []);
    EmptyKeyed(row);
    OneFile(db, row.pollID, file);
  }

  lemma EmptyKeyed(row: PollRow)
    ensures FileKeyed(row.pollID, PollFile(row.(state := "open", closedAt := ""), [], map[], [], [], map[], None, []))
  {
  }

  lemma KeyedAt(db: Db, p: string)
    requires Keyed(db) && p in db
    ensures FileKeyed(p, db[p])
  {
  }

  lemma AddChoiceKeeps(db: Db, p: string, row: ChoiceRow)
    requires Keyed(db) && InsertChoice(db, p, row).Ok?
    ensures Keeps(db, InsertChoice(db, p, row).value)
  {
    hide Keyed, Keeps, BallotSequences, ChoicesKeyed, CreditEventsKeyed, BallotEventsKeyed, CheckpointsKeyed, PlaceChoice;
    KeyedAt(db, p);
    ChoicesKept(db[p].choices, row);
    SameHashesApart(db, p, db[p].(choices := PlaceChoice(db[p].choices, row)));
  }

  lemma AddCreditKeeps(db: Db, p: string, fingerprint: string, publicKey: string)
    requires Keyed(db) && InsertCredit(db, p, fingerprint, publicKey).Ok?
    ensures Keeps(db, InsertCredit(db, p, fingerprint, publicKey).value)
  {
    hide Keyed, Keeps, BallotSequences, ChoicesKeyed, CreditEventsKeyed, BallotEventsKeyed, CheckpointsKeyed;
    KeyedAt(db, p);
    SameHashesApart(db, p, db[p].(credits := db[p].credits[fingerprint := CreditRow(publicKey, None)]));
  }

  lemma ClaimKeeps(db: Db, p: string, fingerprint: string, issuance: Issuance)
    requires Keyed(db) && ClaimCredit(db, p, fingerprint, issuance).Ok?
    ensures Keeps(db, ClaimCredit(db, p, fingerprint, issuance).value)
  {
    hide Keyed, Keeps, BallotSequences, ChoicesKeyed, CreditEventsKeyed, BallotEventsKeyed, CheckpointsKeyed;
    KeyedAt(db, p);
    SameHashesApart(db, p, db[p].(credits := db[p].credits[fingerprint := db[p].credits[fingerprint].(claim := Some(issuance))]));
  }

  lemma AddCreditEventKeeps(db: Db, p: string, event: CreditEvent)
    requires Keyed(db) && InsertCreditEvent(db, p, event).Ok?
    ensures Keeps(db, InsertCreditEvent(db, p, event).value)
  {
    hide ChoicesKeyed, CreditEventsKeyed, BallotEventsKeyed, CheckpointsKeyed, PlaceCreditEvent, CreditsKeyed, SpentKeyed, CreditHashTaken;
    KeyedAt(db, p);
    CreditHashFree(db, event.eventHash);
    assert event.sequence !in CreditSequences(db[p].creditEvents);
    CreditEventsKept(db[p].creditEvents, event);
    var file := db[p].(creditEvents := PlaceCreditEvent(db[p].creditEvents, event));
    forall q | q in db && q != p ensures Apart(file, db[q]) && Apart(db[q], file) {
      assert Apart(db[p], db[q]) && Apart(db[q], db[p]);
    }
    OneFile(db, p, file);
  }

  lemma AddBallotEventKeeps(db: Db, p: string, event: BallotEvent)
    requires Keyed(db) && InsertBallotEvent(db, p, event).Ok?
    ensures Keeps(db, InsertBallotEvent(db, p, event).value)
  {
    hide ChoicesKeyed, CreditEventsKeyed, BallotEventsKeyed, PlaceBallotEvent, CreditsKeyed, SpentKeyed, BallotHashTaken, BallotEventAllowed;
    KeyedAt(db, p);
    BallotHashFree(db, event.eventHash);
    assert event.sequence !in BallotSequences(db[p].ballotEvents);
    BallotEventsKept(db[p].ballotEvents, event);
    var file := db[p].(ballotEvents := PlaceBallotEvent(db[p].ballotEvents, event));
    assert CheckpointsKeyed(file.checkpoints, file.ballotEvents);
    forall q | q in db && q != p ensures Apart(file, db[q]) && Apart(db[q], file) {
      assert Apart(db[p], db[q]) && Apart(db[q], db[p]);
    }
    OneFile(db, p, file);
  }

  lemma SpendKeeps(db: Db, p: string, credentialHash: string, sequence: nat)
    requires Keyed(db) && SpendCredential(db, p, credentialHash, sequence).Ok?
    ensures Keeps(db, SpendCredential(db, p, credentialHash, sequence).value)
  {
    hide Keyed, Keeps, BallotSequences, ChoicesKeyed, CreditsKeyed, CreditEventsKeyed, BallotEventsKeyed, CheckpointsKeyed;
    KeyedAt(db, p);
    SameHashesApart(db, p, db[p].(spent := db[p].spent[credentialHash := sequence]));
  }

  lemma AddCheckpointKeeps(db: Db, p: string, row: CheckpointRow)
    requires Keyed(db) && SaveCheckpoint(db, p, row).Ok?
    ensures Keeps(db, SaveCheckpoint(db, p, row).value)
  {
    hide Keyed, Keeps, BallotSequences, ChoicesKeyed, CreditsKeyed, CreditEventsKeyed, BallotEventsKeyed, CheckpointsKeyed, PlaceCheckpoint, FindEvent;
    KeyedAt(db, p);
    FoundSequence(db[p].ballotEvents, row.sequence);
    assert row.sequence !in CheckpointSequences(db[p].checkpoints);
    CheckpointsKept(db[p].checkpoints, row, db[p].ballotEvents);
    SameHashesApart(db, p, db[p].(checkpoints := PlaceCheckpoint(db[p].checkpoints, row)));
  }

  lemma CloseKeeps(db: Db, p: string, closedAt: string)
    requires Keyed(db) && ClosePoll(db, p, closedAt).Ok?
    ensures Keeps(db, ClosePoll(db, p, closedAt).value)
  {
    hide Keyed, Keeps, BallotSequences, ChoicesKeyed, CreditsKeyed, CreditEventsKeyed, BallotEventsKeyed, CheckpointsKeyed, SpentKeyed;
    KeyedAt(db, p);
    SameHashesApart(db, p, db[p].(row := db[p].row.(state := "closed", closedAt := closedAt)));
  }

  lemma AddTallyKeeps(db: Db, p: string, row: TallyRow)
    requires Keyed(db) && SaveTally(db, p, row).Ok?
    ensures Keeps(db, SaveTally(db, p, row).value)
  {
    hide Keyed, Keeps, BallotSequences, ChoicesKeyed, CreditsKeyed, CreditEventsKeyed, BallotEventsKeyed, CheckpointsKeyed, SpentKeyed;
    KeyedAt(db, p);
    SameHashesApart(db, p, db[p].(tally := Some(row)));
  }

  /** Every statement that succeeds keeps every constraint SQLite checks at once. */
  lemma StatementKeeps(db: Db, statement: Statement)
    requires Keyed(db) && Apply(db, statement).Ok?
    ensures Keeps(db, Apply(db, statement).value)
  {
    hide Keyed, InsertPoll, InsertChoice, InsertCredit, ClaimCredit, InsertCreditEvent, InsertBallotEvent, SpendCredential, SaveCheckpoint,
         ClosePoll, SaveTally;
    match statement
    case AddPoll(row) => AddPollKeeps(db, row);
    case AddChoice(p, choice) => AddChoiceKeeps(db, p, choice);
    case AddCredit(p, fingerprint, publicKey) => AddCreditKeeps(db, p, fingerprint, publicKey);
    case Claim(p, fingerprint, issuance) => ClaimKeeps(db, p, fingerprint, issuance);
    case AddCreditEvent(p, credit) => AddCreditEventKeeps(db, p, credit);
    case AddBallotEvent(p, ballot) => AddBallotEventKeeps(db, p, ballot);
    case Spend(p, credentialHash, sequence) => SpendKeeps(db, p, credentialHash, sequence);
    case AddCheckpoint(p, checkpoint) => AddCheckpointKeeps(db, p, checkpoint);
    case Close(p, closedAt) => CloseKeeps(db, p, closedAt);
    case AddTally(p, tally) => AddTallyKeeps(db, p, tally);
  }

  /* Transactions */

  lemma {:induction false} StatementsKeep(db: Db, statements: seq<Statement>)
    requires Keyed(db) && ApplyAll(db, statements).Ok?
    ensures Keeps(db, ApplyAll(db, statements).value)
  {
    hide Keyed, Apply, OnlyAdds;
    if statements == [] {
      NothingKeeps(db);
    } else {
      var (init, last) := (statements[..|statements| - 1], statements[|statements| - 1]);
      StatementsKeep(db, init);
      StatementKeeps(ApplyAll(db, init).value, last);
      KeepsTransitive(db, ApplyAll(db, init).value, ApplyAll(db, statements).value);
    }
  }

  lemma NothingKeeps(db: Db)
    ensures Keeps(db, db)
  {
  }

  lemma CommitKeeps(before: Db, after: Db)
    requires Sound(before) && Keeps(before, after) && Commit(before, after).Ok?
    ensures Sound(after) && Commit(before, after) == Ok(after)
  {
    hide Keyed, BallotSequences, FindEvent;
    forall p | p in after ensures SpentReferences(after[p]) {
      forall c | c in after[p].spent ensures after[p].spent[c] in BallotSequences(after[p].ballotEvents) {
        FoundSequence(after[p].ballotEvents, after[p].spent[c]);
        if p in before && c in before[p].spent { assert SpentReferences(before[p]) && FileAdds(before[p], after[p]); }
      }
    }
  }

  /** Whatever statements a transaction runs, from a store that satisfies the whole schema, what it commits satisfies it too, the
      deferred foreign key included. */
  lemma TransactionKeeps(before: Db, statements: seq<Statement>)
    requires Sound(before) && ApplyAll(before, statements).Ok? && Commit(before, ApplyAll(before, statements).value).Ok?
    ensures Sound(Commit(before, ApplyAll(before, statements).value).value)
  {
    hide SpentReferences, Keeps, ApplyAll, Commit;
    SoundKeyed(before);
    StatementsKeep(before, statements);
    CommitKeeps(before, ApplyAll(before, statements).value);
  }

  lemma SoundKeyed(db: Db)
    requires Sound(db)
    ensures Keyed(db)
  {
  }
}
