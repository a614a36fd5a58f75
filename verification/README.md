# Vota: a verified model of the anonymous-poll sequencer

Vota runs polls in which only listed SSH keys may vote and nobody learns who voted for what. A key on the list claims one
blind RSA credential, the credential casts one ballot, every ballot is an event of a signed hash chain, and a closed poll can
be checked by anyone from its audit bundle. This project models that program in Dafny and proves what it promises.

`dafny verify dfyconfig.toml` checks everything.

## How the model is built

Three layers, each in the form its source has.

**The store and the service.** `Store` is the SQLite schema: a store is a map from poll id to that poll's slice of the eight
tables, every write is a function that returns the new tables or the code of the constraint it breaks, and `Database` is the
handle with one serialised transaction at a time. `Sequencer` says what each operation does to *any* store, sound or not, and
what it answers. `Services` is the imperative service: the same checks, loops, statements, rollbacks and commits in the
source's order, each method proved to do what `Sequencer` says. `Schema` states the declared constraints as one predicate and
proves that every statement and every committed transaction keeps them, and `Upkeep` that every operation does. `Guards` and
`Administration` state what an answer of each operation means on any store, sound or tampered with: who signed the request,
what was checked, every row that was written and every refusal, with domain names, bounds and fields written out rather than
by the functions that compute them. `History` is the simple machine the tables implement: a poll is who may vote, who claimed,
the ballots in order, and whether it is closed. `Refinement`, `Closing` and `Creation` prove each transaction on the tables of
such histories to be one step of that machine; `Runs` lifts this to whole runs and to arbitrary interleavings of calls that
read first and commit later. `Safety`, `Interference` and `Collisions` state what follows, and `Provenance` and `Answers`
trace every row and every answer of a run to the one call that was entitled to make it.

**The independent verifier.** `Audit`, `Soundness`, `Completeness`, `Ready` and `ReadyComplete` hold `replay`, `VerifyAudit`,
`Compare`, `ContainsReceipt`, `Service.Audit` and `Ready` as loops, and prove what acceptance means, that everything the
machine produces is accepted, and that two accepted logs of one poll cannot fork unseen. `Acceptance` says exactly which bundles
`VerifyAudit` accepts and `Audit` serves, and `ReadyMeans` what the rows of a poll that `Ready` passes are.

**The credentials and the client.** `NumberTheory`, `Octets`, `Pss` and `BlindRsa` are RFC 9474 (sections 4.1 to 4.4) over
EMSA-PSS (RFC 8017, sections 9.1.1 and 9.1.2), with Fermat's little theorem and the Chinese remainder argument proved from
nothing, and `Credentials` says exactly what `Verify`, `Prepare` and `Finalize` accept in terms of the RSA equation. `Client`
is the vote command as a crash-recovery protocol against the server, and `Issuance` joins the two: with the issuer and the
client computing as `BlindRsa` does, a listed key that votes on an open poll ends with a receipt.

## What is assumed

- Hashing is an arbitrary function to 71-character texts. Nothing is assumed about collisions: a claim that needs their absence
  is stated as "this, or these two byte strings collide", and the two strings are named.
- `World.Honest` is the promise of the libraries: a signature made with the service's key verifies, strict decoding inverts
  canonical encoding for each artifact type, a canonical SSH key parses back to its key, and no time, receipt, fingerprint or
  request id is the empty text. Nothing says that signatures cannot be forged; no result needs it.
- A Go string or byte slice of the service is a Dafny string whose characters stand for bytes; base64 and hexadecimal layers are
  part of the codecs. In `Octets`, `Pss` and `BlindRsa` a byte is an integer below 256.
- An SSH signature is checked by an arbitrary function of the key, the namespace, the signed text and the signature
  (`Ssh.verifies`), which includes decoding it; the administrators are a set of fingerprints (`World.admins`). In the text a claim
  signs, the digest of the blinded message stands for its base64 form. The two readings of the clock in one call are the two
  fields of `Clock`.
- The results on Compare also use that strict decoding refuses unknown fields, so that the artifact of one kind of event does not
  decode as another's (`Soundness.KindsApart`), and that a log is no longer than a Go slice can be.
- The integers of a tally handed to VerifyAudit or VerifyTallyForPoll are Go ints (`Tallies.InRange`); every bundle Audit serves
  is proved to be so.
- A NULL text column is the empty text, as Go reads it.
- Blind signing is an arbitrary function of the blinded message in the service layer. `BlindRsa.BlindSign` proves that it is one:
  with a sound key its answer does not depend on the random factor. `Issuance.IssuesWith` says that the service's function is that
  one, taking the random draws that hide a signature to succeed.

## Where the code does less than one might expect

- `docs/security.md:40` makes the same request id and blinded value a condition for repeating a claim. It is not the only one: the
  poll must also be open, because `requireOpen` comes before the look at the claim (internal/sequencer/service.go:262-276).
  `Safety.ClaimIsFinal` is the exact condition over any run and `Safety.ClaimAfterClose` the run that is refused. Ballots can be
  repeated after the close (`Safety.VoteAgain`), but the vote command claims first, so a receipt lost before the close cannot be
  fetched with it afterwards: `Client.LostReceiptAfterClose` and, over whole runs, `Client.NoReceiptAfterClose`.
- A modulus whose bit length is 1 modulo 8 passes every key check, and `Prepare` still refuses it, because the encoding is then
  one octet shorter than the modulus (internal/crypto/blind/blind.go:251-255): `BlindRsa.PrepareSucceeds` is the exact condition,
  and `BlindRsa.Refused2049` a key of 2049 bits that is valid and always refused.
- `normalizedChoices` means to make identifiers distinct and can make two equal ones, as for the labels `a`, `a!`, `a 2`
  (internal/sequencer/helpers.go:113-125): `Choices.DistinctExactly` is the exact condition, `Choices.CollidingLabels` the
  instance, and `Safety.ClashingLabelsRefused` shows the primary key undoes the creation.
- `VerifyAudit` does not ask for a closing event (internal/sequencer/audit.go:118-121): `Soundness.CloseNotRequired`.

## Model

| member | source | states |
|---|---|---|
| NumberTheory.Fermat | internal/crypto/blind/blind.go:122-156 | for a prime p and a not divisible by it, a^(p-1) is 1 modulo p; proved by the binomial theorem, it is what makes the private exponent undo the public one |
| NumberTheory.ChineseRemainder | internal/crypto/blind/blind.go:122-156 | numbers congruent modulo two distinct primes are congruent modulo their product |
| NumberTheory.RsaUndo | internal/crypto/blind/blind.go:122-156 | with d·e ≡ 1 modulo p-1 and q-1, (m^e)^d ≡ m modulo p·q for every m, also those that share a factor with it |
| Octets.LeftPad | internal/crypto/blind/blind.go:307-314 | a value right-aligned in the size with zeros before it, or its last octets if it is longer |
| Octets.LeadingZeros | internal/crypto/blind/blind.go:307-314 | padding the minimal octets of an integer that fits gives its fixed-width octets, so the value is unchanged |
| Octets.RoundTripInt | internal/crypto/blind/blind.go:271-288 | an integer that fits is read back from its octets |
| Octets.RoundTripOctets | internal/crypto/blind/blind.go:160-196 | octets are written back from their integer |
| Pss.MaskOctet | internal/crypto/blind/pss.go:39-50 | each octet of the mask is one of the hash of the seed and the counter of its block |
| Pss.Mgf1SHA384 | internal/crypto/blind/pss.go:39-50 | the counter loop yields exactly the requested length of the MGF1 mask of RFC 8017 |
| Pss.XorInPlace | internal/crypto/blind/pss.go:27-29 | the in-place loop is the pointwise exclusive or |
| Pss.MaskedDataBlock | internal/crypto/blind/pss.go:22-31 | the array holds the masked data block with the bits above emBits cleared |
| Pss.EncodePSS | internal/crypto/blind/pss.go:8-37 | each error case, and otherwise an encoding that EMSA-PSS-VERIFY accepts for the same message with the salt that was put in |
| Pss.EncodingVerifies | internal/crypto/blind/pss.go:8-37 | encode then verify recovers the salt, for every message, salt and size, also when the padding is empty and the separator sits in the masked octet |
| Pss.EncodingUnique | internal/crypto/blind/pss.go:8-37 | conversely, an encoding that verifies with a salt is the one encodePSS makes |
| Pss.ConsistentRange | internal/crypto/blind/pss.go:30-36 | anything that verifies is positive and below 2^emBits as an integer |
| Pss.EncodingRange | internal/crypto/blind/pss.go:30-36 | so what encodePSS makes is positive and below 2^emBits |
| BlindRsa.CredentialMessageInjective | internal/crypto/blind/blind.go:223-242 | equal credential messages have equal poll id, issuer key id and serial |
| BlindRsa.RandomInvertible | internal/crypto/blind/blind.go:290-305 | the first of at most 128 draws that is invertible, with its inverse, or the error |
| BlindRsa.BlindEncodedWithFactor | internal/crypto/blind/blind.go:271-288 | m·r^e modulo n padded to the key size, or the refusal of a value outside 1..n-1 |
| BlindRsa.BlindEncoded | internal/crypto/blind/blind.go:251-269 | the blinded message and the padded inverse, refused unless the encoding has the size of the modulus |
| BlindRsa.Prepare | internal/crypto/blind/blind.go:76-120 | the request for a poll and serial with every error of the code, in its order |
| BlindRsa.BlindSign | internal/crypto/blind/blind.go:122-156 | with a sound key the answer is c^d modulo n whatever random factor hid the exponentiation; with any key an answer opens to the blinded message |
| BlindRsa.Finalize | internal/crypto/blind/blind.go:160-196 | a credential exactly when the unblinded signature opens to the saved encoding, and then Verify accepts it for the state's poll |
| BlindRsa.DoubleBlinding | internal/crypto/blind/blind.go:140-156 | the server's own blinding cancels: the unblinded power is c^d modulo n |
| BlindRsa.BlindedNonZero | internal/crypto/blind/blind.go:271-288 | blinding never gives zero, which BlindSign would refuse |
| BlindRsa.HonestRequest | internal/crypto/blind/blind.go:76-221 | a prepared request is accepted by the server and its answer by Finalize |
| BlindRsa.PrepareSucceeds | internal/crypto/blind/blind.go:251-255 | with sound inputs Prepare succeeds if and only if the bit length of the modulus is not 1 modulo 8 |
| BlindRsa.PrepareRefuses | internal/crypto/blind/blind.go:251-255 | at such a bit length Prepare answers invalid_encoded_message whatever the randomness |
| BlindRsa.Refused2049 | internal/crypto/blind/blind.go:244-255 | the instance: 2^2048 + 1 is a valid public modulus of 2049 bits and is always refused |
| BlindRsa.FinalizedVerifies | internal/crypto/blind/blind.go:160-221 | whatever Finalize accepts, Verify accepts for the state's poll, key and serial; what Verify accepts is Credentials.VerifyExact |
| Credentials.VerifyExact | internal/crypto/blind/blind.go:198-221 | Verify accepts exactly the credentials with a valid, named key and the right sizes whose signature, below the modulus, raised to the public exponent is the EMSA-PSS encoding of their own poll, key and serial with some salt |
| Credentials.VerifyRefusals | internal/crypto/blind/blind.go:198-242 | a refusal carries the code of the first check that fails |
| Credentials.SignatureNamesPoll | internal/crypto/blind/blind.go:198-242 | one signature accepted for two polls or two serials exhibits two octet strings with one SHA-384 value |
| Credentials.PrepareExact | internal/crypto/blind/blind.go:76-118 | every refusal of Prepare in order, and otherwise the encoding and the inverse it keeps and the product it sends |
| Credentials.FactorDrawn | internal/crypto/blind/blind.go:290-305 | the factor is the first usable of at most 128 draws, and there is none exactly when none of them is usable |
| Credentials.FinalizeExact | internal/crypto/blind/blind.go:160-195 | Finalize succeeds exactly when the sizes are right, the quotient opens to the saved encoding and the credential made of it passes Verify, and answers that credential |
| Credentials.OneFinalCredential | internal/crypto/blind/blind.go:160-195 | with a sound key a saved state finalises to one credential at most, whatever answers arrive for it |
| BlindRsa.IssueCredential | internal/crypto/blind/blind.go:76-221 | Prepare, BlindSign, Finalize in a row give a credential that Verify accepts, for every message, serial, salt and pair of invertible factors |
| Artifacts.EventPreimageInjective | internal/sequencerstore/store.go:249-260 | the hashed bytes of an event determine stream, poll id, 64-bit sequence, previous hash and artifact |
| Artifacts.BigEndianValue | internal/sequencerstore/store.go:254-256 | the eight octets, most significant first, stand for the sequence |
| Artifacts.BigEndianInjective | internal/sequencerstore/store.go:254-256 | the eight-byte sequence determines the sequence |
| Store.Database.Exec | internal/sequencerstore/write.go:5-103 | a statement takes effect whole, or its code is returned and no table changes |
| Schema.StatementKeeps | migrations/001_initial.sql:1-89 | every insert or update that succeeds keeps all primary keys, unique columns, checks and immediate foreign keys of the eight tables |
| Schema.TransactionKeeps | migrations/001_initial.sql:65-73 | whatever statements a transaction runs, what it commits satisfies the whole schema, the deferred foreign key of spent_credentials included |
| Store.Database.CommitTx | internal/sequencerstore/store.go:146-160 | commits when every deferred foreign key this transaction added holds, otherwise restores the tables of Begin |
| Store.FindEvent | internal/sequencerstore/read.go:219-240 | finds the event with a sequence if there is one |
| Upkeep.OpKeepsSchema | internal/sequencer/service.go:165-402 | on any store within the schema, honest or tampered with, every operation leaves the store within it |
| Upkeep.RunKeepsSchema | migrations/001_initial.sql:1-89 | so every store reached from the empty one satisfies every declared constraint |
| Members.NormalizeMembers | internal/sequencer/helpers.go:81-111 | the loop computes the specification: first bad or repeated key refused, otherwise the sorted keys and their commitment |
| Members.NormalizedFacts | internal/sequencer/helpers.go:81-111 | the accepted list is sorted, without repeats, and holds exactly the keys given |
| Members.LessMeans | internal/sequencer/helpers.go:100 | the order is by the first byte that differs, a proper prefix first |
| Members.SortedUnique | internal/sequencer/helpers.go:100 | a sorted list is determined by its elements |
| Members.OnlyTheSetMatters | internal/sequencer/helpers.go:81-111 | two accepted lists give the same result if and only if they hold the same set of keys |
| Members.ReorderingAccepted | internal/sequencer/helpers.go:81-111 | any reordering of an accepted list is accepted with the same result |
| Members.NormalizedIdempotent | internal/sequencer/helpers.go:81-111 | normalising the normalised list gives it back |
| Members.CommitmentBinds | internal/sequencer/helpers.go:101-109 | different key sets have different commitments, or the two encodings collide |
| Choices.NormalizedChoices | internal/sequencer/helpers.go:113-125 | the loop with its counter map gives the n-th label of one slug the suffix n |
| Choices.DecimalValue | internal/sequencer/helpers.go:120 | the suffix is the decimal form of the number, without leading zeros |
| Choices.DistinctExactly | internal/sequencer/helpers.go:113-125 | the identifiers are distinct if and only if no renamed label takes the slug of a label |
| Choices.CollidingLabels | internal/sequencer/helpers.go:113-125 | the labels a, a! and a 2 collide |
| Tallies.CheckTotals | internal/sequencer/audit.go:207-231 | the loop accepts exactly non-negative, listed, unrepeated totals that add up to the ballot count, and no intermediate value leaves 64 bits |
| Tallies.VerifyTallyForPoll | internal/sequencer/audit.go:199-233 | the verdict and its code, exactly when header, totals and signature are right |
| Tallies.FitsForcesDistinctChoices | internal/sequencer/audit.go:204-231 | by pigeonhole a tally can fit only a poll with distinct choices, and then lists exactly them |
| Services.ValidateCreate | internal/sequencer/service.go:115-130 | step by step, the checks of the request and of the administrator's signature are those of Sequencer.ValidateCreate, which Administration.CreateChecked and CreateRefusals describe |
| Services.CheckLabels | internal/sequencer/helpers.go:43-53 | the label loop: the first label that is malformed or repeats an earlier one after folding |
| Services.CountBallots | internal/sequencer/close.go:54-82 | the counting loop of ClosePoll over its totals array and position map |
| Services.Service.Poll | internal/sequencer/service.go:209-222 | the stored artifact, decoded and verified |
| Services.Service.CreatePoll | internal/sequencer/service.go:114-205 | step by step against the database: the store and the answer are those of Sequencer.CreatePoll, which Administration.CreateGuarded, CreateEffect and CreateRefusals describe |
| Services.Service.Claim | internal/sequencer/service.go:224-313 | the same for Claim, described by Guards.ClaimGuarded, ClaimEffect and ClaimRefusals |
| Services.Service.Vote | internal/sequencer/service.go:315-402 | the same for Vote, described by Guards.VoteGuarded, VoteEffect and the refusals |
| Services.Service.ClosePoll | internal/sequencer/close.go:11-116 | the same for ClosePoll, described by Administration.CloseGuarded |
| Services.Service.Result | internal/sequencer/close.go:118-142 | the same for Result, described by Administration.ResultGuarded |
| Guards.PollGuarded | internal/sequencer/service.go:209-222 | on any store, Poll answers with a poll exactly when it is the stored artifact and carries its own signature |
| Guards.RefusalsChangeNothing | internal/sequencerstore/store.go:146-160 | on any store, a refused call leaves every table as it was |
| Guards.ClaimTextBinds | internal/sequencer/helpers.go:156-163 | one text signed for a claim is for one poll, one request id and one blinded message, or two messages have one digest |
| Guards.ClaimGuarded | internal/sequencer/service.go:224-266 | on any store, an answered claim is signed by its own canonical key over this poll, request id and blinded message, well-formed, for a genuine open poll of this issuer, and listed under that very text |
| Guards.ClaimEffect | internal/sequencer/service.go:249-311 | it repeats the held signature for the same request id and blinded message and writes nothing, or claims the row, appends one event signed field by field, and changes no other row |
| Guards.ClaimRefusals | internal/sequencer/service.go:225-281 | the first check that fails, in the code's order, with its code and no change |
| Guards.VoteGuarded | internal/sequencer/service.go:316-368 | on any store, an answered ballot has a credential valid for the genuine stored poll and a listed choice, and a first one comes while row, signed closing time and log say open |
| Guards.VoteEffect | internal/sequencer/service.go:334-400 | it returns the stored receipt of the same ballot and writes nothing, or adds one event, index entry and checkpoint with the receipt signed field by field, and changes no other row |
| Guards.VoteRefusals | internal/sequencer/service.go:316-327 | the refusals before the transaction, in order, with their codes |
| Guards.RetryRefusals | internal/sequencer/service.go:338-350 | the refusals of a credential that has voted |
| Guards.FreshRefusals | internal/sequencer/service.go:351-371 | the refusals of one that has not: not open by row, signed time or log, or no choice row |
| Administration.CreateChecked | internal/sequencer/service.go:115-130 | validation accepts exactly an acceptable request, with its bounds on question, labels, time and keys, signed by a listed administrator over all that is asked |
| Administration.CreateRefusals | internal/sequencer/helpers.go:31-79 | the first check that fails, in the code's order, with its code and no change; for labels and keys, that of the first bad one |
| Administration.CreateGuarded | internal/sequencer/service.go:114-162 | an answered creation was acceptable and signed, and the poll answered has the question, closing time, titles, members, issuer, identifier and signature that were asked for |
| Administration.CreateEffect | internal/sequencer/service.go:163-204 | it writes the row, the choices in order, one unclaimed credit for each member, the first event and its checkpoint of a poll not there before, or nothing beside the same stored artifact |
| Administration.CloseGuarded | internal/sequencer/close.go:11-116 | on any store, an answered close is signed by a listed administrator for this poll, which is genuine; the first counts the log and writes tally, event, checkpoint and state, a later one answers the stored tally, verified again |
| Administration.CloseRefusals | internal/sequencer/close.go:12-32 | the refusals before the transaction, in order, with their codes |
| Administration.ResultGuarded | internal/sequencer/close.go:118-142 | on any store, Result answers exactly with the stored tally of a closed, genuine poll that fits the poll and is signed |
| Creation.ChoicesInserted | internal/sequencer/service.go:176-180 | the choice rows go in if and only if the identifiers are distinct |
| Creation.CreateRowsForm | internal/sequencer/service.go:165-204 | on any store: every row of the poll, its first event and checkpoint, or an error that one constraint explains |
| Creation.CreateRefines | internal/sequencer/service.go:114-205 | CreatePoll on the tables is the machine's step: same answer, same next tables |
| Refinement.ClaimRefines | internal/sequencer/service.go:224-313 | the same for Claim, for every request, clock and reachable store |
| Refinement.VoteCommitRefines | internal/sequencer/service.go:328-402 | the transaction of Vote, given the poll an earlier read returned, is the machine's step |
| Refinement.VoteRefines | internal/sequencer/service.go:315-402 | the same for the whole of Vote |
| Refinement.IndexFinds | internal/sequencerstore/read.go:219-240 | the index of spent credentials leads to the event of the ballot that spent the credential |
| Closing.CountsCasts | internal/sequencer/close.go:54-82 | the counting loop finds, for every choice, the number of ballots that name it |
| Closing.TotalsSum | internal/sequencer/close.go:80-84 | the totals add up to the number of ballots |
| Closing.TallyVerifies | internal/sequencer/close.go:84-88 | the tally ClosePoll signs passes VerifyTallyForPoll |
| Closing.CloseCommitRefines | internal/sequencer/close.go:36-115 | the transaction of ClosePoll, open or already closed, is the machine's step |
| Closing.CloseRefines | internal/sequencer/close.go:11-116 | the same for the whole of ClosePoll |
| Closing.ResultReads | internal/sequencer/close.go:118-142 | Result answers with the tally of the close, and only for a closed poll |
| Runs.OpValid | internal/sequencer/service.go:114-402 | every operation keeps the invariant of all polls: signed artifact, distinct choices, distinct claimants from the list, distinct credentials, listed choices |
| Runs.RunRefines | internal/sequencer/service.go:114-402 | a whole run on the tables is the machine's run: same tables, same replies |
| Runs.RunExtends | internal/sequencer/service.go:114-402 | histories only grow, and a closed one does not change |
| Runs.Serialises | internal/sequencerstore/store.go:146-160 | every interleaving of concurrent calls, each with its read before its transaction, gives the tables and replies of running the calls one after another in commit order |
| Collisions.BallotHashClash | internal/sequencerstore/write.go:55-61 | an event refused for its hash differs in its hashed bytes from a stored event with the same digest |
| Collisions.VoteRefusedOnlyByCollision | internal/sequencer/service.go:384-394 | so a fresh ballot is refused by that constraint only together with a named collision |
| Collisions.ClaimRefusedOnlyByCollision | internal/sequencer/service.go:294-307 | the same for a claim |
| Collisions.CloseRefusedOnlyByCollision | internal/sequencer/close.go:99-102 | the same for a close |
| Collisions.CreateRefusedOnlyByCollision | internal/sequencer/service.go:165-204 | a request that passes validation is refused as a conflict, or for the hash of its first event, only together with a named collision, and otherwise only for clashing choices |
| Collisions.PollIDClash | internal/sequencer/service.go:166-170 | a different poll under the same identifier collides in the hashed seed or in the commitment |
| Collisions.PollHashClash | internal/sequencerstore/write.go:5-14 | a poll refused for its artifact hash collides with a stored poll |
| Safety.ClaimRetry | internal/sequencer/service.go:262-281 | repeating an issued claim, signed anew or not, gives the same signature if and only if the poll is open |
| Safety.ClaimIsFinal | internal/sequencer/service.go:262-281 | in any run, once a claim is answered, every later claim of that key, request id and blinded message, however signed, gets that signature if and only if the poll is open when it arrives |
| Safety.ClaimAfterClose | internal/sequencer/service.go:262-264 | the run claim, close, same claim: the third is refused as poll_not_open |
| Safety.OneSignaturePerKey | internal/sequencer/service.go:254-311 | in any run all successful claims of one fingerprint at one poll get one signature, for one request id and blinded message hash, and only the first creates anything |
| Safety.VoteAgain | internal/sequencer/service.go:334-350 | a recorded ballot's credential gets its receipt for the same ballot and a refusal for any other choice, listed or not, open or closed, and nothing changes |
| Safety.BallotIsFinal | internal/sequencer/service.go:334-350 | in any run, once a ballot is answered, every later identical request gets the same receipt and every other choice is refused |
| Safety.SpentOnlyByOwner | internal/sequencer/service.go:334-345 | a ballot refused as spent follows another choice of its own credential, or a named collision of credential hashes |
| Safety.CloseIsFinal | internal/sequencer/close.go:36-142 | after the first successful close no row of the poll ever changes, Result and every authorised ClosePoll answer that tally, and the tally counts the ballots of the log per choice and in all |
| Safety.CreateRetry | internal/sequencer/service.go:165-170 | the same request later gives the same poll and writes nothing, for as long as validation accepts it |
| Safety.ClashingLabelsRefused | internal/sequencer/service.go:176-180 | labels whose identifiers clash are always answered with an error and never change a table |
| Safety.TablesAgree | internal/sequencerstore/read.go:40-48 | in the tables of every run claimed rows = credit events ≤ eligible count, spent credentials = accepted ballots, and the choice rows are those of a signed poll with distinct choices |
| Provenance.EverythingAccounted | internal/sequencer/service.go:114-402 | in every run from the empty store each poll, claim, ballot and close of each history was made by one call of the run that was entitled to it, in time, and was answered with that poll, signature, receipt or tally |
| Answers.RowsAccounted | internal/sequencer/service.go:114-402 | so in the tables: each poll and each close is signed by an administrator, each claimed credit signed with the row's own key, each accepted ballot cast with a credential the stored poll admits |
| Answers.AnsweredClaim | internal/sequencer/service.go:224-266 | in any run a claim is answered only if signed by its key, well-formed, for an open poll before its closing time, and listed |
| Answers.AnsweredVote | internal/sequencer/service.go:315-402 | in any run a ballot is answered only with a valid credential and a listed choice, first only while open, and with the signed receipt of the event that records it |
| Answers.AnsweredClose | internal/sequencer/close.go:11-116 | in any run a close is answered only if an administrator signed it, with the tally that counts the log |
| Answers.AnsweredCreate | internal/sequencer/service.go:114-205 | in any run a creation is answered only if acceptable and signed by an administrator, with the poll it asks for |
| Answers.AnsweredBefore | internal/sequencer/service.go:165-350 | in every run an answer that created nothing repeats the answer of an earlier call for the same thing that did |
| Answers.OneBlindedMessage | internal/sequencer/service.go:271-281 | in any run two answered claims of one key at one poll are for one request id and one blinded message, or the two messages collide, and get one signature |
| Interference.OnlyTheDayIsKept | internal/sequencer/helpers.go:302-304 | claims and ballots that differ only in when on one day they came leave the same histories and answers |
| Interference.ClaimsLeaveNoTrace | internal/sequencer/service.go:254-311 | deleting every claim from any run leaves every ballot stream, index, checkpoint and tally and every other reply unchanged |
| Interference.BallotTablesAgree | internal/sequencer/service.go:329-400 | in tables: only poll_credits and credit_events can differ |
| Interference.InterleavingIrrelevant | internal/sequencer/service.go:254-400 | the same claims in order and the same votes in order, interleaved in any two ways, end in identical states and replies |
| Interference.WholeRunsAgree | internal/sequencer/service.go:254-400 | so whole runs around two such interleavings end in identical tables |
| Audit.Replay | internal/sequencerstore/replay.go:29-46 | succeeds exactly on sequences 1 to n, each event linked to the one before and carrying its own hash; the error is that of the first bad event |
| Audit.ReplayBallot | internal/sequencerstore/replay.go:21-27 | the same over ballot events |
| Audit.ReplayCredit | internal/sequencerstore/replay.go:13-19 | the same over credit events |
| Audit.CheckEvent | internal/sequencer/audit.go:78-125 | the body of the loop: the first problem of an event, with its code, or the ballot to count |
| Audit.VerifyAudit | internal/sequencer/audit.go:51-138 | accepts exactly the bundles of Audit.Accepts, and a rejection carries the code of the first stage and first event that fail |
| Acceptance.AcceptsExactly | internal/sequencer/audit.go:51-138 | VerifyAudit accepts exactly a sound header, sound events in place and totals that count them, with every field, hash and signature written out |
| Acceptance.GenuineExactly | internal/sequencer/audit.go:93-117 | a ballot event is genuine exactly when record, credential, choice, receipt and checkpoint name each other and are signed, field by field |
| Acceptance.HeaderCodes | internal/sequencer/audit.go:51-68 | of the header, the code of the first check that fails |
| Acceptance.EventCodes | internal/sequencer/audit.go:78-125 | of the i-th event, the code of the first check that fails |
| Acceptance.BallotCodes | internal/sequencer/audit.go:93-117 | of a ballot event, the code of the first check that fails |
| Acceptance.AuditAssembles | internal/sequencer/audit.go:13-49 | whatever the store holds at each read, Audit answers exactly with the genuine poll, the log, the decoded checkpoints and a genuine tally of a closed poll |
| Soundness.AcceptedLog | internal/sequencer/audit.go:78-128 | acceptance means sequences 1 to n, an intact chain, a signed checkpoint for each event, genuine ballots with distinct credentials and bound receipts, creation only first and close only last |
| Soundness.AcceptedTally | internal/sequencer/audit.go:129-136 | and each choice exactly once among the totals with the number of ballots naming it, adding up to the number of ballots |
| Soundness.CloseNotRequired | internal/sequencer/audit.go:118-121 | an accepted bundle is still accepted without its closing event |
| Soundness.ContainsReceipt | internal/sequenceraudit/audit.go:29-40 | finds a credential hash exactly when an accepted ballot of the log has it |
| Soundness.Compare | internal/sequenceraudit/audit.go:42-62 | both bundles must verify; then the answer is success exactly when they name one poll and key and agree on the event hash wherever both have an event, and otherwise the code of which of the two fails |
| Soundness.CompareSelf | internal/sequenceraudit/audit.go:42-62 | an accepted bundle compares with itself and with itself without its close |
| Soundness.AuditsCompare | internal/sequenceraudit/audit.go:42-62 | any two audits of a closed poll, read at any moments of any runs, compare |
| Soundness.ReceiptExact | internal/sequencer/audit.go:178-191 | VerifyReceiptForBallot accepts exactly the receipts of this ballot's poll, choice and valid credential, bound to a checkpoint, both signed under the poll's key |
| Soundness.ReceiptRefusals | internal/sequencer/audit.go:166-191 | otherwise the code of the first check that fails |
| Soundness.CompareMeansPrefix | internal/sequenceraudit/audit.go:52-61 | then the shorter log is a prefix of the longer in sequence, type, previous hash, event hash and artifact, or two named events collide |
| Soundness.ClosedLogsEqual | internal/sequenceraudit/audit.go:52-61 | and if both end in a close, logs and tallies are equal, or two named events collide |
| Soundness.ForksAreDetected | internal/sequenceraudit/audit.go:56-60 | conversely a fork is reported, or the two events at it collide |
| Completeness.ServeAudit | internal/sequencer/audit.go:13-49 | the bundle assembled from seven reads of the store, each as it is at that read, with the error of the first that fails |
| Completeness.BundlePasses | internal/sequencer/audit.go:51-138 | the bundle of every closed history the machine reaches passes VerifyAudit |
| Completeness.AuditPasses | internal/sequencer/audit.go:13-138 | whatever other transactions commit between its reads, Audit of a closed poll returns that one bundle, and VerifyAudit accepts it |
| Completeness.AuditOnlyClosed | internal/sequencer/audit.go:14-20 | a poll that is missing or open at the first read is refused |
| Ready.VerifyPollProjection | internal/sequencer/audit.go:400-434 | accepts exactly when row, choices, keys and commitment match the signed artifact, with its one code otherwise |
| Ready.CheckCreditEvent | internal/sequencer/audit.go:279-298 | one credit event: its first problem and code, if any |
| Ready.CheckCredits | internal/sequencer/audit.go:271-299 | accepts exactly an intact credit stream whose events match their rows, no key twice, each with its signed checkpoint; a rejection carries the code of the replay or of the first bad event |
| Ready.CheckKinds | internal/sequencer/audit.go:307-330 | accepts exactly creation first, close only last and if and only if the poll is closed; poll_state_mismatch otherwise |
| Ready.CheckStoredBallot | internal/sequencer/audit.go:341-364 | one accepted ballot: its first problem and code, if any |
| Ready.CheckBallots | internal/sequencer/audit.go:335-365 | accepts exactly ballots that are genuine, of distinct credentials, with a receipt and an index entry each; a rejection carries the code of the first bad ballot |
| Ready.CheckCheckpoints | internal/sequencer/audit.go:369-381 | accepts exactly one signed checkpoint for each event, bound to its hash, with the code of the first that is not |
| Ready.CheckTally | internal/sequencer/audit.go:382-395 | a closed poll's audit must be served and accepted with the stored closing time, an open poll must have no tally; each failure with its code |
| Ready.CheckPoll | internal/sequencer/audit.go:257-396 | one poll is ready exactly when everything above and the counts are sound; a rejection carries the code of the first stage that fails |
| Ready.CheckAll | internal/sequencer/audit.go:249-398 | the store is ready exactly when all its polls are, and the code is that of the first that is not |
| ReadyMeans.ReadyPoll | internal/sequencer/audit.go:258-269 | the row and choices of a ready poll are those of its stored artifact, which is genuine and of this issuer |
| ReadyMeans.ReadyKeys | internal/sequencer/audit.go:413-432 | its credit rows are as many as its voters, each under its key's fingerprint, and the sorted list of exactly those keys is what it commits to |
| ReadyMeans.ReadyCredits | internal/sequencer/audit.go:271-299 | its credit events are numbered, chained and hashed, record what the rows of their keys hold, one for a key, each with its signed checkpoint |
| ReadyMeans.ReadyClaims | internal/sequencer/audit.go:366-368 | its claimed rows are exactly the keys of its credit events if and only if every row an event names is claimed |
| ReadyMeans.ReadyLog | internal/sequencer/audit.go:304-381 | its events are numbered, chained and hashed, each with its signed checkpoint |
| ReadyMeans.ReadyKinds | internal/sequencer/audit.go:307-330 | creation of this artifact first, then ballots, and a close last exactly when the row is closed |
| ReadyMeans.ReadyBallots | internal/sequencer/audit.go:335-365 | each ballot names its poll and place, has a valid credential no other has and a listed choice, its signed receipt and its index entry |
| ReadyMeans.CreditCodes | internal/sequencer/audit.go:279-298 | of a credit event, the code of the first check that fails |
| ReadyMeans.StoredCodes | internal/sequencer/audit.go:341-364 | of a stored ballot, the code of the first check that fails |
| ReadyMeans.ReadyTally | internal/sequencer/audit.go:382-395 | a ready closed poll has a stored tally giving each choice the number of ballots of its log, with the row's closing time, equal to its closing event; an open one has none |
| Ready.IndexIsScan | internal/sequencer/audit.go:331-368 | in a ready poll spent_credentials is exactly the map from credential hash to sequence that a scan of the log gives |
| Ready.LookupIsScan | internal/sequencerstore/read.go:219-240 | so the indexed lookup finds what a linear scan finds, for every credential |
| ReadyComplete.KeysNormalize | internal/sequencer/audit.go:413-432 | normalising the stored keys in whatever order they are listed gives back the poll's commitment |
| ReadyComplete.PollPasses | internal/sequencer/audit.go:249-398 | every poll of every valid store is ready, open or closed |
| ReadyComplete.ReachableIsReady | internal/sequencer/audit.go:249-434 | so after any run from the empty store, with nothing in flight, every poll passes Ready |
| Client.MoveKeeps | internal/cli/sequencercmd/commands.go:196-271 | every step of the command, every late or repeated request, every other client's operation and every crash keeps the recovery invariant |
| Client.OneCredential | internal/cli/sequencercmd/commands.go:231-247 | all the ballots a voter ever sends, over crashes and retries, are of one credential |
| Client.CrashSafe | internal/cli/sequencercmd/commands.go:196-271 | over every run a claimed key has a usable state file or a saved receipt, at most one ballot the voter sent is ever recorded, and all receipts the server made for the voter are equal |
| Client.SavedReceipts | internal/cli/sequencercmd/commands.go:247-262 | whatever receipts the network delivers, every saved one is signed for this poll and for the credential and the choice of a ballot the voter sent, and all are of one credential |
| Client.OnlyThisPoll | internal/cli/sequencercmd/commands.go:337-350 | over every run every claim the voter sends is of a state made for this poll, whatever state file is found |
| Client.OneSavedReceipt | internal/cli/sequencercmd/commands.go:247-262 | if what is delivered comes from the server, all receipts a voter ever saves are equal |
| Client.Recoverable | internal/cli/sequencercmd/commands.go:337-350 | a voter whose claim the server holds, without a receipt, gets the same blind signature from the saved state if and only if the poll is open |
| Client.CommandCompletes | internal/cli/sequencercmd/commands.go:214-266 | one uninterrupted command, from a new or a saved state, whose claim and ballot the server answers ends with the receipt saved and the state file gone |
| Client.LostReceiptAfterClose | internal/cli/sequencercmd/commands.go:214-247 | after the close the command cannot fetch the receipt of a recorded ballot: the claim before it is refused, although the ballot would be answered |
| Client.NoReceiptAfterClose | internal/cli/sequencercmd/commands.go:214-247 | over every run after the close the server makes no signature and no receipt is saved, unless a signature sent before arrives late |
| Issuance.HonestCredential | internal/crypto/blind/blind.go:76-221 | the server's answer to a prepared request finalises to a credential of its serial that verifies |
| Issuance.CredentialIssued | internal/cli/sequencercmd/commands.go:231-246 | in the service's terms: a prepared state is signed, finalises, and its credential is accepted |
| Issuance.ListedClaim | internal/sequencer/service.go:254-311 | a listed key's claim on an open poll is answered with the signature of its blinded message, first time or again, or its event collides with a stored one |
| Issuance.ListedBallot | internal/sequencer/service.go:315-402 | a ballot of an accepted credential for a listed choice of an open poll is answered, or the sequence is exhausted, or a named collision |
| Issuance.ListedKeyVotes | internal/cli/sequencercmd/commands.go:196-271 | the whole command: a listed key on an open poll, from a state Prepare made, first time or again, ends with a receipt and no state file, or sequence exhaustion or a named collision |
| Issuance.RecordedBallotSigned | internal/sequencer/service.go:320-323 | in every run each recorded ballot's signature, raised to the issuer's public exponent, is the encoding of its own poll, the issuer's key and its serial |
| Issuance.OneSignatureOnePoll | internal/sequencer/service.go:320-323 | a signature that counts at two polls exhibits two octet strings with one SHA-384 value |
| Client.ReceiptAccepted | internal/sequencer/audit.go:178-191 | the receipt the server returns passes VerifyReceiptForBallot, which Soundness.ReceiptExact describes |

## Left out

- Client.CrashSafe: the vote command is modelled as the steps of a protocol on values rather than as one method, because it is interrupted between any two of them; how a receipt or state file is written to disk is one atomic step, as writeArtifact intends.
- Client.OneCredential: the blind signatures a voter finalises are those the server made for it, and the poll it verifies receipts against is the server's; receipts are whatever the network delivers.
- Completeness.ServeAudit: MaxArtifactBytes is not modelled, so decoding inverts encoding at every size; the largest poll the service accepts stays far below the limit.
- Issuance.ListedKeyVotes: takes it that no other recorded ballot has the credential's random serial; that a fresh serial is unused is a matter of probability.
- HTTP, routing, metrics, logging, configuration, TLS, prompts, file permissions and the commands other than vote.
- The internals of SHA-2, Ed25519, SSH keys and SSHSIG, and of canonical JSON: functions with the hypotheses listed above.
- The slug of a label (choiceID), time parsing and Unicode folding: arbitrary functions.
- Migrations, busy retries, connection pooling and I/O errors of SQLite: a statement either takes effect or breaks a declared constraint.
- Encode and DecodeAndVerify of internal/sequenceraudit, Stats and the read-only HTTP views: they add no property of their own.
- Unforgeability and blindness as probabilistic claims: only algebraic correctness and the non-interference of the stored data are stated.
- The ballot stream with its poll_created event missing: VerifyAudit accepts such a bundle too, and only Ready asks for the event; no instance is built here.
