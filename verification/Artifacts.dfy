/** The sequencer's artifacts, and the library functions they are hashed, signed and encoded with.
    A Go string or []byte is a string here: each character stands for one byte. */
module Artifacts {
  import opened Sequences
  import opened Wrappers

  const SCHEMA_VERSION := 1
  const PROTOCOL := "vota-ssh-credit-v1"

  function Repeat(c: char, n: nat): (s: string)
    ensures |s| == n
  {
    if n == 0 then "" else Repeat(c, n - 1) + [c]
  }

  // "sha256:" and 64 hexadecimal digits.
  type HashText = s: string | |s| == 71 witness Repeat('0', 71)

  const EMPTY_HASH: HashText := "sha256:" + Repeat('0', 64)

  datatype Choice = Choice(id: string, title: string)

  datatype Poll = Poll(schemaVersion: int, protocol: string, pollID: string, question: string, choices: seq<Choice>,
                       closesAt: string, issuerKeyID: string, issuerPublicKey: string, checkpointPublicKey: string,
                       eligibilityCommitment: string, eligibleCount: int, signature: string)

  // The fields a poll identifier is the hash of.
  datatype PollSeed = PollSeed(requestID: string, question: string, choices: seq<Choice>, closesAt: string,
                               issuerKeyID: string, eligibilityCommitment: string)

  datatype Credential = Credential(issuerKeyID: string, serial: string, signature: string)

  datatype BallotRecord = BallotRecord(schemaVersion: int, protocol: string, pollID: string, sequence: nat,
                                       credential: Credential, credentialHash: string, choiceID: string)

  datatype Checkpoint = Checkpoint(schemaVersion: int, protocol: string, pollID: string, sequence: nat,
                                   eventHash: string, signature: string)

  datatype Receipt = Receipt(schemaVersion: int, protocol: string, pollID: string, sequence: nat,
                             credentialHash: string, choiceID: string, eventHash: string, checkpoint: Checkpoint,
                             signature: string)

  datatype ChoiceTotal = ChoiceTotal(choiceID: string, total: int)

  datatype Tally = Tally(schemaVersion: int, protocol: string, pollID: string, ballotCount: int,
                         totals: seq<ChoiceTotal>, closedAt: string, signature: string)

  datatype PollCreatedRecord = PollCreatedRecord(kind: string, pollHash: string)

  datatype CreditRecord = CreditRecord(kind: string, sshFingerprint: string, issuanceRequestID: string,
                                       blindedMessageHash: string, blindSignatureHash: string)

  // MarshalCanonical and DecodeStrict for one artifact type.
  datatype Format<!T> = Format(text: T -> string, read: string -> Option<T>)

  ghost predicate Faithful<T(!new)>(f: Format<T>) {
    forall x: T :: f.read(f.text(x)) == Some(x)
  }

  // What an SSH key signs to claim a credit, to create a poll and to close one.
  datatype ClaimContent = ClaimContent(pollID: string, requestID: string, blindedMessageDigest: string)
  datatype CreateContent = CreateContent(requestID: string, question: string, choices: seq<string>, closesAt: string,
                                         members: seq<string>, adminPublicKey: string)
  datatype CloseContent = CloseContent(pollID: string, adminPublicKey: string)

  const CREDIT_CLAIM_NAMESPACE := "vota-credit-claim@vota.local"
  const ADMIN_NAMESPACE := "vota-poll-admin@vota.local"

  // ParsePublicKey, CanonicalPublicKey, Fingerprint and Verify (key, namespace, message, signature) of internal/crypto/sshsig.
  datatype Ssh = Ssh(parse: string -> Option<string>, canonical: string -> string, fingerprint: string -> string,
                     verifies: (string, string, string, string) -> bool) {
    ghost predicate RoundTrips() {
      forall k :: parse(canonical(k)) == Some(k)
    }
  }

  /** Everything the model takes from outside: hashing, Ed25519 with the service's key, the codecs,
      SSH keys, blind signing and verification, time, and the text functions of validation. */
  datatype World = World(
    digest: string -> HashText,
    keyText: string,
    sign: string -> string,
    verifies: (string, string, string) -> bool,
    keyDecodes: string -> bool,
    pollSeed: Format<PollSeed>,
    poll: Format<Poll>,
    created: Format<PollCreatedRecord>,
    ballot: Format<BallotRecord>,
    receipt: Format<Receipt>,
    checkpoint: Format<Checkpoint>,
    tally: Format<Tally>,
    credit: Format<CreditRecord>,
    credential: Format<Credential>,
    keys: Format<seq<string>>,
    claimMessage: Format<ClaimContent>,
    createMessage: Format<CreateContent>,
    closeMessage: Format<CloseContent>,
    ssh: Ssh,
    admins: set<string>,
    issuerKeyID: string,
    issuerPublicKey: string,
    credentialError: (string, string, Credential) -> Option<string>,
    blindSign: string -> Result<string>,
    parseTime: string -> Option<int>,
    canonicalTime: int -> string,
    eventDay: int -> string,
    isRequestID: string -> bool,
    isBlindedMessage: string -> bool,
    trim: string -> string,
    fold: string -> string,
    slug: string -> string)
  {
    /** What the libraries promise: signatures verify, decoding inverts encoding, a canonical SSH
        key parses back to its key, and no time, receipt, fingerprint or
        request id is the empty text. */
    ghost predicate Honest() {
      && SignsHonestly()
      && Faithful(poll) && Faithful(created) && Faithful(ballot) && Faithful(receipt)
      && Faithful(checkpoint) && Faithful(tally) && Faithful(credit) && Faithful(keys)
      && ssh.RoundTrips()
      && NoEmptyTexts()
    }

    ghost predicate SignsHonestly() {
      keyDecodes(keyText) && forall m :: verifies(keyText, m, sign(m))
    }

    ghost predicate NoEmptyTexts() {
      && (forall t :: canonicalTime(t) != "")
      && (forall r :: receipt.text(r) != "")
      && (forall k :: ssh.fingerprint(k) != "")
      && !isRequestID("")
    }
  }

  /* Hashes */

  function HashBytes(w: World, domain: string, value: string): (h: string)
    ensures |h| == 71
  {
    w.digest(domain + "\0" + value)
  }

  function Be64(n: nat): (s: string)
    ensures |s| == 8
  {
    BigEndian(n, 8)
  }

  function BigEndian(n: nat, size: nat): (s: string)
    ensures |s| == size
  {
    if size == 0 then "" else BigEndian(n / 256, size - 1) + [(n % 256) as char]
  }

  function EventPreimage(stream: string, pollID: string, sequence: nat, previousHash: string, artifact: string): string {
    "vota:" + stream + ":event:v1" + "\0" + pollID + Be64(sequence) + previousHash + artifact
  }

  function EventHash(w: World, stream: string, pollID: string, sequence: nat, previousHash: string,
                     artifact: string): (h: string)
    ensures |h| == 71
  {
    w.digest(EventPreimage(stream, pollID, sequence, previousHash, artifact))
  }

  function CredentialHash(w: World, c: Credential): (h: string)
    ensures |h| == 71
  {
    HashBytes(w, "vota:credential-hash:v1", w.credential.text(c))
  }

  // Two different byte strings with one digest.
  predicate Collide(w: World, x: string, y: string) {
    x != y && w.digest(x) == w.digest(y)
  }

  /* Unique decoding of the event preimage */

  lemma PrefixCancels(a: string, b: string, d: string)
    ensures a + b == a + d ==> b == d
  {
    assert b == (a + b)[|a|..] && d == (a + d)[|a|..];
  }

  lemma {:induction false} BigEndianInjective(m: nat, n: nat, size: nat, bound: nat)
    requires BigEndian(m, size) == BigEndian(n, size) && bound == Power256(size) && m < bound && n < bound
    ensures m == n
  {
    if size > 0 {
      Split(BigEndian(m / 256, size - 1), [(m % 256) as char], BigEndian(n / 256, size - 1), [(n % 256) as char]);
      assert (m % 256) as char as int == (n % 256) as char as int;
      BigEndianInjective(m / 256, n / 256, size - 1, Power256(size - 1));
    }
  }

  function Power256(k: nat): nat {
    if k == 0 then 1 else 256 * Power256(k - 1)
  }

  // The number that octets, most significant first, stand for.
  function Value(s: string): nat {
    if s == "" then 0 else 256 * Value(s[..|s| - 1]) + s[|s| - 1] as int
  }

  lemma {:induction false} BigEndianValue(n: nat, size: nat)
    requires n < Power256(size)
    ensures Value(BigEndian(n, size)) == n
  {
    if size > 0 {
      BigEndianValue(n / 256, size - 1);
      assert BigEndian(n, size)[..size - 1] == BigEndian(n / 256, size - 1);
    }
  }

  const SEQUENCE_LIMIT: nat := 0x1_0000_0000_0000_0000

  predicate Stream(s: string) {
    s == "credit" || s == "ballot"
  }

  function Header(stream: string): string {
    "vota:" + stream + ":event:v1" + "\0"
  }

  lemma Headers(s: string, t: string)
    requires Stream(s) && Stream(t)
    ensures |Header(s)| == |Header(t)|
    ensures Header(s) == Header(t) ==> s == t
  {
    assert Header("credit")[5] == 'c' && Header("ballot")[5] == 'b';
  }

  lemma PreimageLayout(stream: string, pollID: string, sequence: nat, previousHash: string, artifact: string)
    ensures EventPreimage(stream, pollID, sequence, previousHash, artifact)
         == Header(stream) + (pollID + (Be64(sequence) + (previousHash + artifact)))
  {
  }

  // What an event hash covers can be read back: stream, poll, sequence, previous hash and artifact.
  lemma EventPreimageInjective(s: string, p: string, n: nat, h: string, a: string,
                               s': string, p': string, n': nat, h': string, a': string)
    requires Stream(s) && Stream(s') && |p| == |p'| && |h| == |h'|
    requires n < SEQUENCE_LIMIT && n' < SEQUENCE_LIMIT
    requires EventPreimage(s, p, n, h, a) == EventPreimage(s', p', n', h', a')
    ensures s == s' && p == p' && n == n' && h == h' && a == a'
  {
    PreimageLayout(s, p, n, h, a);
    PreimageLayout(s', p', n', h', a');
    Headers(s, s');
    Split(Header(s), p + (Be64(n) + (h + a)), Header(s'), p' + (Be64(n') + (h' + a')));
    Split(p, Be64(n) + (h + a), p', Be64(n') + (h' + a'));
    Split(Be64(n), h + a, Be64(n'), h' + a');
    Split(h, a, h', a');
    assert Power256(4) == 256 * Power256(3) && Power256(8) == SEQUENCE_LIMIT by {
      assert Power256(1) == 256 && Power256(2) == 65536 && Power256(3) == 0x100_0000 && Power256(4) == 0x1_0000_0000;
      assert Power256(5) == 0x100_0000_0000 && Power256(6) == 0x1_0000_0000_0000 && Power256(7) == 0x100_0000_0000_0000;
    }
    BigEndianInjective(n, n', 8, SEQUENCE_LIMIT);
  }

  /* Signatures: signValue and verifyValue per artifact */

  function Signed(domain: string, text: string): string {
    domain + "\0" + text
  }

  function PollMessage(w: World, poll: Poll): string {
    Signed("vota:poll-artifact:v1", w.poll.text(poll.(signature := "")))
  }

  predicate VerifyPoll(w: World, key: string, poll: Poll) {
    w.verifies(key, PollMessage(w, poll), poll.signature)
  }

  predicate VerifyPollArtifact(w: World, poll: Poll) {
    w.keyDecodes(poll.checkpointPublicKey) && VerifyPoll(w, poll.checkpointPublicKey, poll)
  }

  function CheckpointMessage(w: World, domain: string, checkpoint: Checkpoint): string {
    Signed(domain, w.checkpoint.text(checkpoint.(signature := "")))
  }

  const BALLOT_CHECKPOINTS := "vota:checkpoint:v1"
  const CREDIT_CHECKPOINTS := "vota:credit-checkpoint:v1"

  predicate VerifyCheckpoint(w: World, domain: string, key: string, checkpoint: Checkpoint) {
    w.verifies(key, CheckpointMessage(w, domain, checkpoint), checkpoint.signature)
  }

  function StreamCheckpoint(w: World, domain: string, pollID: string, sequence: nat, eventHash: string): Checkpoint {
    var checkpoint := Checkpoint(SCHEMA_VERSION, PROTOCOL, pollID, sequence, eventHash, "");
    checkpoint.(signature := w.sign(CheckpointMessage(w, domain, checkpoint)))
  }

  function ReceiptMessage(w: World, receipt: Receipt): string {
    Signed("vota:receipt:v1", w.receipt.text(receipt.(signature := "")))
  }

  predicate VerifyReceipt(w: World, key: string, receipt: Receipt) {
    && receipt.checkpoint.pollID == receipt.pollID
    && receipt.checkpoint.sequence == receipt.sequence
    && receipt.checkpoint.eventHash == receipt.eventHash
    && VerifyCheckpoint(w, BALLOT_CHECKPOINTS, key, receipt.checkpoint)
    && w.verifies(key, ReceiptMessage(w, receipt), receipt.signature)
  }

  function TallyMessage(w: World, tally: Tally): string {
    Signed("vota:tally:v1", w.tally.text(tally.(signature := "")))
  }

  predicate VerifyTally(w: World, key: string, tally: Tally) {
    w.verifies(key, TallyMessage(w, tally), tally.signature)
  }

  /* verifyWireCredential and choiceExists */

  function VerifyWireCredential(w: World, poll: Poll, wire: Credential): Result<string> {
    match w.credentialError(poll.issuerPublicKey, poll.pollID, wire)
    case Some(code) => Err(code)
    case None => Ok(CredentialHash(w, wire))
  }

  predicate ChoiceExists(choices: seq<Choice>, choiceID: string) {
    exists i :: 0 <= i < |choices| && choices[i].id == choiceID
  }

  predicate DistinctChoices(choices: seq<Choice>) {
    forall i, j :: 0 <= i < j < |choices| ==> choices[i].id != choices[j].id
  }
}
