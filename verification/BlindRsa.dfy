/** Prepare, BlindSign, Finalize and Verify of internal/crypto/blind/blind.go: the RSABSSA
    protocol of RFC 9474 (sections 4.1 to 4.4). Strings are the octets of Go strings. Random
    input is a parameter: the prefix, the salt, and the values cryptorand.Int draws. */
module BlindRsa {
  import opened NumberTheory
  import opened Octets
  import opened Pss
  import opened Sequences
  import opened Wrappers

  const SERIAL_SIZE: nat := 32
  const PREFIX_SIZE: nat := 32
  const MIN_RSA_BITS: nat := 2048

  // "vota:credential:v1"
  const CREDENTIAL_DOMAIN: Octets :=
    [118, 111, 116, 97, 58, 99, 114, 101, 100, 101, 110, 116, 105, 97, 108, 58, 118, 49]

  datatype PublicKey = PublicKey(n: nat, e: nat)

  datatype PrivateKey = PrivateKey(public: PublicKey, d: nat, p: nat, q: nat) {
    // What rsa.PrivateKey.Validate establishes.
    ghost predicate Sound() {
      public.n == p * q && KeyPair(p, q, public.e, d)
    }
  }

  /** The parts of the standard library the protocol is parametric in: SHA-384, the key
      identifier, and the verdict of rsa.PrivateKey.Validate. */
  datatype Library = Library(sha384: Hash, keyID: PublicKey -> Octets, validates: PrivateKey -> bool)

  datatype Randomness = Randomness(prefix: Octets, salt: Octets, draws: seq<nat>)

  datatype State = State(pollID: Octets, issuerKeyID: Octets, serial: Octets, messagePrefix: Octets,
                         inverse: Octets, encodedMessage: Octets)
  datatype Request = Request(blindedMessage: Octets, state: State)
  datatype Credential = Credential(issuerKeyID: Octets, serial: Octets, signature: Octets)

  /* The credential message */

  function CredentialMessage(pollID: Octets, issuerKeyID: Octets, serial: Octets): Result<Octets> {
    if pollID == [] || |pollID| > 512 then Err("invalid_poll_id")
    else if issuerKeyID == [] || |issuerKeyID| > 128 then Err("invalid_issuer_key_id")
    else if |serial| != SERIAL_SIZE then Err("invalid_credential_serial")
    else Ok(CREDENTIAL_DOMAIN + [0] + I2OSP(|pollID|, 4) + pollID + I2OSP(|issuerKeyID|, 4) + issuerKeyID + serial)
  }

  lemma Regroup(a: Octets, b: Octets, c: Octets)
    ensures a + b + c == a + (b + c)
  {
  }

  lemma LengthPrefixed(a: Octets, b: Octets, c: Octets, d: Octets)
    requires |a| <= 512 && |c| <= 512
    requires I2OSP(|a|, 4) + a + b == I2OSP(|c|, 4) + c + d
    ensures a == c && b == d
  {
    Regroup(I2OSP(|a|, 4), a, b);
    Regroup(I2OSP(|c|, 4), c, d);
    Split(I2OSP(|a|, 4), a + b, I2OSP(|c|, 4), c + d);
    FourOctets();
    RoundTripInt(|a|, 4);
    RoundTripInt(|c|, 4);
    Split(a, b, c, d);
  }

  lemma FourOctets()
    ensures Pow(256, 4) > 512
  {
  }

  lemma MessageLayout(p: Octets, k: Octets, s: Octets)
    requires CredentialMessage(p, k, s).Ok?
    ensures CredentialMessage(p, k, s).value
         == (CREDENTIAL_DOMAIN + [0]) + (I2OSP(|p|, 4) + p + (I2OSP(|k|, 4) + k + s))
  {
  }

  // The message a credential signs determines its poll, its issuer key and its serial.
  lemma CredentialMessageInjective(p1: Octets, k1: Octets, s1: Octets, p2: Octets, k2: Octets, s2: Octets)
    requires CredentialMessage(p1, k1, s1).Ok?
    requires CredentialMessage(p1, k1, s1) == CredentialMessage(p2, k2, s2)
    ensures p1 == p2 && k1 == k2 && s1 == s2
  {
    var t1 := I2OSP(|k1|, 4) + k1 + s1;
    var t2 := I2OSP(|k2|, 4) + k2 + s2;
    MessageLayout(p1, k1, s1);
    MessageLayout(p2, k2, s2);
    Split(CREDENTIAL_DOMAIN + [0], I2OSP(|p1|, 4) + p1 + t1, CREDENTIAL_DOMAIN + [0], I2OSP(|p2|, 4) + p2 + t2);
    LengthPrefixed(p1, t1, p2, t2);
    LengthPrefixed(k1, s1, k2, s2);
  }

  /* Keys and random factors */

  predicate ValidPublicKey(key: PublicKey) {
    BitLen(key.n) >= MIN_RSA_BITS && key.e >= 3 && key.e % 2 != 0
  }

  // The first of the drawn values below the modulus that has an inverse.
  function FirstInvertible(draws: seq<nat>, modulus: nat): (factor: Option<nat>)
    requires modulus > 1
    ensures factor.Some? ==> 0 < factor.value && Invertible(factor.value, modulus)
  {
    if draws == [] then None
    else if draws[0] != 0 && Invertible(draws[0], modulus) then Some(draws[0])
    else FirstInvertible(draws[1..], modulus)
  }

  // randomInvertible tries 128 values.
  function First128<T>(draws: seq<T>): seq<T> {
    if |draws| < 128 then draws else draws[..128]
  }

  method RandomInvertible(modulus: nat, draws: seq<nat>) returns (result: Result<(nat, nat)>)
    requires modulus > 1
    ensures match FirstInvertible(First128(draws), modulus)
            case None => result == Err("random_failed")
            case Some(factor) => result == Ok((factor, ModInverse(factor, modulus)))
  {
    var limit := if |draws| < 128 then |draws| else 128;
    ghost var usable := First128(draws);
    var attempts := 0;
    while attempts < limit
      invariant 0 <= attempts <= limit
      invariant FirstInvertible(usable, modulus) == FirstInvertible(usable[attempts..], modulus)
    {
      var value := draws[attempts];
      assert usable[attempts..][0] == value;
      assert usable[attempts..][1..] == usable[attempts + 1..];
      if value != 0 && Invertible(value, modulus) {
        return Ok((value, ModInverse(value, modulus)));
      }
      attempts := attempts + 1;
    }
    return Err("random_failed");
  }

  /* Prepare */

  // The blinded representative of a message encoding: m * r^e modulo n.
  function Blinded(key: PublicKey, m: nat, factor: nat): nat
    requires key.n > 0
  {
    (m * Pow(factor, key.e)) % key.n
  }

  method BlindEncodedWithFactor(key: PublicKey, encoded: Octets, factor: nat) returns (result: Result<Octets>)
    ensures !ValidPublicKey(key) ==> result == Err("invalid_issuer_public_key")
    ensures ValidPublicKey(key) && !(|encoded| == ByteLen(key.n) && 0 < factor < key.n && Invertible(factor, key.n))
            ==> result == Err("invalid_blind_factor")
    ensures ValidPublicKey(key) && |encoded| == ByteLen(key.n) && 0 < factor < key.n && Invertible(factor, key.n) ==>
              result == if OS2IP(encoded) < key.n then Ok(I2OSP(Blinded(key, OS2IP(encoded), factor), ByteLen(key.n)))
                        else Err("invalid_encoded_message")
  {
    if !ValidPublicKey(key) {
      return Err("invalid_issuer_public_key");
    }
    ModulusPositive(key);
    var size := ByteLen(key.n);
    if |encoded| != size || factor <= 0 || factor >= key.n || !Invertible(factor, key.n) {
      return Err("invalid_blind_factor");
    }
    var message := OS2IP(encoded);
    if message >= key.n {
      return Err("invalid_encoded_message");
    }
    var blinder := Pow(factor, key.e) % key.n;
    var blinded := message * blinder;
    blinded := blinded % key.n;
    MulRemainder(message, Pow(factor, key.e), key.n);
    BelowModulusFits(blinded, key.n);
    LeadingZeros(blinded, size);
    var padded := LeftPad(MinimalBytes(blinded), size);
    return Ok(padded);
  }

  lemma ModulusPositive(key: PublicKey)
    requires BitLen(key.n) >= MIN_RSA_BITS
    ensures key.n > 1
    ensures Pow(2, BitLen(key.n) - 1) <= key.n
  {
    BitLenBounds(key.n);
    assert BitLen(1) == 1 + BitLen(0);
  }

  lemma MulRemainder(a: nat, b: nat, n: nat)
    requires n > 0
    ensures (a * (b % n)) % n == (a * b) % n
  {
    CongruentRefl(a, n);
    CongruentRemainder(b, n);
    CongruentMul(a, a, b % n, b, n);
    CongruentMod(a * (b % n), a * b, n);
  }

  // blindEncoded by cases: the blinded representative and the inverse of its factor.
  function BlindedPair(key: PublicKey, encoded: Octets, draws: seq<nat>): Result<(Octets, Octets)>
    requires key.n > 1
  {
    var size := ByteLen(key.n);
    if |encoded| != size || OS2IP(encoded) >= key.n then Err("invalid_encoded_message") else
    match FirstInvertible(First128(draws), key.n)
    case None => Err("random_failed")
    case Some(factor) =>
      if factor >= key.n then Err("invalid_blind_factor")
      else Ok((I2OSP(Blinded(key, OS2IP(encoded), factor), size), I2OSP(ModInverse(factor, key.n), size)))
  }

  // What Prepare answers, by cases on its input.
  function Prepared(lib: Library, key: PublicKey, pollID: Octets, issuerKeyID: Octets, serial: Octets,
                    random: Randomness): Result<Request>
  {
    if !ValidPublicKey(key) then Err("invalid_issuer_public_key") else
    if issuerKeyID != lib.keyID(key) then Err("wrong_issuer_key") else
    var message :- CredentialMessage(pollID, issuerKeyID, serial);
    if |random.prefix| != PREFIX_SIZE || |random.salt| != SALT_SIZE then Err("random_failed") else
    ModulusPositive(key);
    var encoded := PssEncoding(lib.sha384, random.prefix + message, BitLen(key.n) - 1, random.salt);
    var pair :- BlindedPair(key, encoded, random.draws);
    Ok(Request(pair.0, State(pollID, issuerKeyID, serial, random.prefix, pair.1, encoded)))
  }

  lemma Eighths(b: nat)
    requires b > 0
    ensures (b - 1 + 7) / 8 == if b % 8 == 1 then (b + 7) / 8 - 1 else (b + 7) / 8
  {
  }

  lemma EncodedSize(n: nat)
    requires BitLen(n) >= MIN_RSA_BITS
    ensures EncodedLength(BitLen(n) - 1) == if BitLen(n) % 8 == 1 then ByteLen(n) - 1 else ByteLen(n)
  {
    Eighths(BitLen(n));
  }

  // An encoding for this modulus is a representative: consistent, positive and below n.
  lemma EncodingBelowModulus(lib: Library, key: PublicKey, message: Octets, salt: Octets)
    requires ValidPublicKey(key) && |salt| == SALT_SIZE
    ensures var em := PssEncoding(lib.sha384, message, BitLen(key.n) - 1, salt);
            0 < OS2IP(em) < key.n && VerifiedSalt(lib.sha384, message, em, BitLen(key.n) - 1).Some?
  {
    hide PssEncoding, VerifiedSalt;
    EncodingRange(lib.sha384, message, BitLen(key.n) - 1, salt);
    ModulusPositive(key);
  }

  // blindEncoded: blind an encoding with a drawn factor.
  method BlindEncoded(key: PublicKey, encoded: Octets, draws: seq<nat>) returns (result: Result<(Octets, Octets)>)
    requires ValidPublicKey(key) && key.n > 1
    ensures result == BlindedPair(key, encoded, draws)
  {
    var size := ByteLen(key.n);
    if |encoded| != size {
      return Err("invalid_encoded_message");
    }
    var message := OS2IP(encoded);
    if message >= key.n {
      return Err("invalid_encoded_message");
    }
    var drawn :- RandomInvertible(key.n, draws);
    var (factor, inverse) := drawn;
    var blinded :- BlindEncodedWithFactor(key, encoded, factor);
    BelowModulusFits(inverse, key.n);
    LeadingZeros(inverse, size);
    var padded := LeftPad(MinimalBytes(inverse), size);
    return Ok((blinded, padded));
  }

  method Prepare(lib: Library, key: PublicKey, pollID: Octets, issuerKeyID: Octets, serial: Octets,
                 random: Randomness) returns (result: Result<Request>)
    ensures result == Prepared(lib, key, pollID, issuerKeyID, serial, random)
  {
    hide PssEncoding, VerifiedSalt, CredentialMessage, BitLen, BlindedPair;
    if !ValidPublicKey(key) {
      return Err("invalid_issuer_public_key");
    }
    if issuerKeyID != lib.keyID(key) {
      return Err("wrong_issuer_key");
    }
    var message :- CredentialMessage(pollID, issuerKeyID, serial);
    if |random.prefix| != PREFIX_SIZE || |random.salt| != SALT_SIZE {
      return Err("random_failed");
    }
    var prepared := random.prefix + message;
    var encoding := EncodePSS(lib.sha384, prepared, BitLen(key.n) - 1, random.salt);
    assert encoding.Ok?;
    var encoded := encoding.value;
    ModulusPositive(key);
    var pair :- BlindEncoded(key, encoded, random.draws);
    return Ok(Request(pair.0, State(pollID, issuerKeyID, serial, random.prefix, pair.1, encoded)));
  }

  /* BlindSign */

  // Signing a blinded value and dividing the factor out signs the value itself.
  lemma Unblind(key: PrivateKey, m: nat, factor: nat, inverse: nat)
    requires key.Sound() && key.public.n > 1 && IsInverse(factor, inverse, key.public.n)
    ensures var n := key.public.n;
            Congruent(Pow(Blinded(key.public, m, factor), key.d) * inverse, Pow(m, key.d), n)
  {
    var n, e, d := key.public.n, key.public.e, key.d;
    var r := Pow(factor, e);
    CongruentRemainder(m * r, n);
    CongruentPow((m * r) % n, m * r, d, n);
    PowProduct(m, r, d);
    PowMul(factor, e, d);
    RsaUndo(key.p, key.q, e, d, factor);
    // (m*r)^d = m^d * factor^(e*d), congruent to m^d * factor.
    CongruentRefl(Pow(m, d), n);
    CongruentMul(Pow(m, d), Pow(m, d), Pow(factor, e * d), factor, n);
    CongruentTrans(Pow((m * r) % n, d), Pow(m, d) * Pow(factor, e * d), Pow(m, d) * factor, n);
    CongruentRefl(inverse, n);
    CongruentMul(Pow((m * r) % n, d), Pow(m, d) * factor, inverse, inverse, n);
    CongruentMod(factor * inverse, 1, n);
    CongruentMul(Pow(m, d), Pow(m, d), factor * inverse, 1, n);
    Associate(Pow(m, d), factor, inverse);
    CongruentTrans(Pow((m * r) % n, d) * inverse, Pow(m, d) * (factor * inverse), Pow(m, d) * 1, n);
  }

  // Raising a signature to the public exponent gives the signed representative back.
  lemma SignatureOpens(key: PrivateKey, m: nat)
    requires key.Sound() && m < key.public.n
    ensures Pow(Pow(m, key.d) % key.public.n, key.public.e) % key.public.n == m
  {
    var n, e, d := key.public.n, key.public.e, key.d;
    CongruentRemainder(Pow(m, d), n);
    CongruentPow(Pow(m, d) % n, Pow(m, d), e, n);
    PowMul(m, d, e);
    assert d * e == e * d;
    RsaUndo(key.p, key.q, e, d, m);
    CongruentTrans(Pow(Pow(m, d) % n, e), Pow(m, e * d), m, n);
    CongruentMod(Pow(Pow(m, d) % n, e), m, n);
    RemainderUnique(m, n, 0, m);
  }

  predicate SigningInput(key: PrivateKey, blindedMessage: Octets) {
    && |blindedMessage| == ByteLen(key.public.n)
    && 0 < OS2IP(blindedMessage) < key.public.n
  }

  predicate UsablePrivateKey(lib: Library, key: PrivateKey) {
    BitLen(key.public.n) >= MIN_RSA_BITS && key.public.e >= 3 && lib.validates(key)
  }

  // The server's answer to a blinded message, when its key is sound.
  function ServerAnswer(key: PrivateKey, blindedMessage: Octets): Octets
    requires key.public.n > 0
  {
    I2OSP(Pow(OS2IP(blindedMessage), key.d) % key.public.n, ByteLen(key.public.n))
  }

  /** BlindSign. With a sound key the answer is c^d modulo n whatever random factor hid the
      exponentiation; with any key an answer opens to the blinded message. */
  method BlindSign(lib: Library, key: PrivateKey, blindedMessage: Octets, draws: seq<nat>)
    returns (result: Result<Octets>)
    ensures BitLen(key.public.n) < 2048 || key.public.e < 3 || !lib.validates(key) <==> result == Err("invalid_issuer_private_key")
    ensures !UsablePrivateKey(lib, key) <==> result == Err("invalid_issuer_private_key")
    ensures UsablePrivateKey(lib, key) && !SigningInput(key, blindedMessage) <==> result == Err("invalid_blinded_message")
    ensures result.Ok? ==> |blindedMessage| == ByteLen(key.public.n) && 0 < OS2IP(blindedMessage) < key.public.n
    ensures result.Ok? ==> |result.value| == ByteLen(key.public.n)
                           && Pow(OS2IP(result.value), key.public.e) % key.public.n == OS2IP(blindedMessage)
    ensures UsablePrivateKey(lib, key) && SigningInput(key, blindedMessage) && key.Sound() ==>
              result == if FirstInvertible(First128(draws), key.public.n).None?
                        then Err("random_failed")
                        else Ok(ServerAnswer(key, blindedMessage))
  {
    if BitLen(key.public.n) < MIN_RSA_BITS || key.public.e < 3 {
      return Err("invalid_issuer_private_key");
    }
    if !lib.validates(key) {
      return Err("invalid_issuer_private_key");
    }
    var n, e := key.public.n, key.public.e;
    ModulusPositive(key.public);
    var size := ByteLen(n);
    if |blindedMessage| != size {
      return Err("invalid_blinded_message");
    }
    var ciphertext := OS2IP(blindedMessage);
    if ciphertext <= 0 || ciphertext >= n {
      return Err("invalid_blinded_message");
    }
    var drawn :- RandomInvertible(n, draws);
    var (factor, inverse) := drawn;
    var blinder := Pow(factor, e) % n;
    var blinded := ciphertext * blinder;
    blinded := blinded % n;
    MulRemainder(ciphertext, Pow(factor, e), n);
    var signed := Pow(blinded, key.d) % n;
    signed := signed * inverse;
    signed := signed % n;
    ghost var value := Pow(ciphertext, key.d) % n;
    if key.Sound() {
      DoubleBlinding(key, ciphertext, factor, inverse);
      assert signed == value;
      SignatureOpens(key, ciphertext);
    }
    var check := Pow(signed, e) % n;
    if check != ciphertext {
      return Err("blind_sign_failed");
    }
    BelowModulusFits(signed, n);
    LeadingZeros(signed, size);
    RoundTripInt(signed, size);
    var padded := LeftPad(MinimalBytes(signed), size);
    return Ok(padded);
  }

  lemma DoubleBlinding(key: PrivateKey, c: nat, factor: nat, inverse: nat)
    requires key.Sound() && key.public.n > 1 && IsInverse(factor, inverse, key.public.n)
    ensures var n := key.public.n;
            (Pow(Blinded(key.public, c, factor), key.d) % n * inverse) % n == Pow(c, key.d) % n
  {
    var n := key.public.n;
    var x := Pow(Blinded(key.public, c, factor), key.d);
    Unblind(key, c, factor, inverse);
    CongruentMod(x * inverse, Pow(c, key.d), n);
    MulRemainder(inverse, x, n);
    assert inverse * (x % n) == x % n * inverse;
  }

  /* Finalize and Verify */

  // rsa.VerifyPSS with a fixed salt length (RFC 8017, section 8.1.2).
  predicate VerifiesPSS(lib: Library, key: PublicKey, message: Octets, signature: Octets)
    requires key.n > 0
  {
    && |signature| == ByteLen(key.n)
    && OS2IP(signature) < key.n
    && BitLen(key.n) > 0
    && var m := Pow(OS2IP(signature), key.e) % key.n;
       var emLen := EncodedLength(BitLen(key.n) - 1);
       m < Pow(256, emLen) && VerifiedSalt(lib.sha384, message, I2OSP(m, emLen), BitLen(key.n) - 1).Some?
  }

  function Verify(lib: Library, key: PublicKey, pollID: Octets, credential: Credential): Result<()> {
    if !ValidPublicKey(key) then Err("invalid_issuer_public_key") else
    if credential.issuerKeyID != lib.keyID(key) then Err("wrong_issuer_key") else
    var message :- CredentialMessage(pollID, credential.issuerKeyID, credential.serial);
    if |credential.signature| != PREFIX_SIZE + ByteLen(key.n) then Err("invalid_credential") else
    ModulusPositive(key);
    var prefix, signature := credential.signature[..PREFIX_SIZE], credential.signature[PREFIX_SIZE..];
    if VerifiesPSS(lib, key, prefix + message, signature) then Ok(()) else Err("invalid_credential")
  }

  predicate WellSizedState(key: PublicKey, state: State, blindSignature: Octets) {
    var size := ByteLen(key.n);
    && |state.messagePrefix| == PREFIX_SIZE
    && |state.inverse| == size && |state.encodedMessage| == size && |blindSignature| == size
    && 0 < OS2IP(state.inverse) < key.n
  }

  // The signature left after the client's factor is divided out.
  function Unblinded(key: PublicKey, state: State, blindSignature: Octets): (s: nat)
    requires key.n > 0
    ensures s < key.n
  {
    (OS2IP(blindSignature) * OS2IP(state.inverse)) % key.n
  }

  // The unblinded signature opens to the stored encoding and is a PSS signature of the message.
  predicate FinalizeAccepts(lib: Library, key: PublicKey, state: State, blindSignature: Octets, message: Octets) {
    && key.n > 0
    && Pow(Unblinded(key, state, blindSignature), key.e) % key.n == OS2IP(state.encodedMessage)
    && VerifiesPSS(lib, key, state.messagePrefix + message,
                   I2OSP(Unblinded(key, state, blindSignature), ByteLen(key.n)))
  }

  function FinalCredential(key: PublicKey, state: State, blindSignature: Octets): Credential
    requires key.n > 0
  {
    Credential(state.issuerKeyID, state.serial,
               state.messagePrefix + I2OSP(Unblinded(key, state, blindSignature), ByteLen(key.n)))
  }

  // What Finalize answers, by cases on its input.
  function Finalized(lib: Library, key: PublicKey, state: State, blindSignature: Octets): Result<Credential> {
    if !ValidPublicKey(key) then Err("invalid_issuer_public_key") else
    if state.issuerKeyID != lib.keyID(key) then Err("wrong_issuer_key") else
    var message :- CredentialMessage(state.pollID, state.issuerKeyID, state.serial);
    if !WellSizedState(key, state, blindSignature) then Err("invalid_blind_state") else
    if FinalizeAccepts(lib, key, state, blindSignature, message) then Ok(FinalCredential(key, state, blindSignature))
    else Err("invalid_blind_signature")
  }

  // A finalised credential is a signature of its own poll, key and serial.
  lemma FinalizedVerifies(lib: Library, key: PublicKey, state: State, blindSignature: Octets)
    requires Finalized(lib, key, state, blindSignature).Ok?
    ensures var credential := Finalized(lib, key, state, blindSignature).value;
            && credential.issuerKeyID == state.issuerKeyID && credential.serial == state.serial
            && Verify(lib, key, state.pollID, credential) == Ok(())
  {
    hide VerifiesPSS, CredentialMessage, BitLen, Unblinded, OS2IP, I2OSP;
    var credential := Finalized(lib, key, state, blindSignature).value;
    assert credential.signature[..PREFIX_SIZE] == state.messagePrefix;
    assert credential.signature[PREFIX_SIZE..] == I2OSP(Unblinded(key, state, blindSignature), ByteLen(key.n));
  }

  /** Finalize returns a credential exactly when the unblinded signature opens to the stored
      encoding; what it returns always passes Verify for the state's poll. */
  method Finalize(lib: Library, key: PublicKey, state: State, blindSignature: Octets) returns (result: Result<Credential>)
    ensures result == Finalized(lib, key, state, blindSignature)
    ensures result.Ok? ==>
              && result.value.issuerKeyID == state.issuerKeyID && result.value.serial == state.serial
              && Verify(lib, key, state.pollID, result.value) == Ok(())
  {
    hide VerifiesPSS, CredentialMessage, BitLen, ByteLen, Verify, OS2IP, I2OSP, Pow, MinimalBytes, LeftPadded;
    if !ValidPublicKey(key) {
      return Err("invalid_issuer_public_key");
    }
    if state.issuerKeyID != lib.keyID(key) {
      return Err("wrong_issuer_key");
    }
    var message :- CredentialMessage(state.pollID, state.issuerKeyID, state.serial);
    ModulusPositive(key);
    var size := ByteLen(key.n);
    if |state.messagePrefix| != PREFIX_SIZE || |state.inverse| != size
       || |state.encodedMessage| != size || |blindSignature| != size {
      return Err("invalid_blind_state");
    }
    var inverse := OS2IP(state.inverse);
    if inverse <= 0 || inverse >= key.n {
      return Err("invalid_blind_state");
    }
    var signed := OS2IP(blindSignature);
    signed := signed * inverse;
    signed := signed % key.n;
    MinimalPadded(signed, key.n);
    var signature := LeftPad(MinimalBytes(signed), size);
    var encoded := Pow(signed, key.e) % key.n;
    MinimalPadded(encoded, key.n);
    var padded := LeftPad(MinimalBytes(encoded), size);
    SameOctets(encoded, key.n, state.encodedMessage);
    if padded != state.encodedMessage {
      return Err("invalid_blind_signature");
    }
    var prepared := state.messagePrefix + message;
    if !VerifiesPSS(lib, key, prepared, signature) {
      return Err("invalid_blind_signature");
    }
    var combined := state.messagePrefix + signature;
    FinalizedVerifies(lib, key, state, blindSignature);
    return Ok(Credential(state.issuerKeyID, state.serial, combined));
  }

  // Padding the minimal octets of a value below the modulus to its size gives the fixed-width octets.
  lemma MinimalPadded(x: nat, n: nat)
    requires x < n
    ensures LeftPadded(MinimalBytes(x), ByteLen(n)) == I2OSP(x, ByteLen(n))
  {
    BelowModulusFits(x, n);
    LeadingZeros(x, ByteLen(n));
  }

  lemma SameOctets(x: nat, n: nat, em: Octets)
    requires x < n && |em| == ByteLen(n)
    ensures I2OSP(x, ByteLen(n)) == em <==> x == OS2IP(em)
  {
    FitsAndRoundTrips(x, n);
    RoundTripOctets(em);
  }

  /* The honest run */

  // Blinding never produces zero, which BlindSign would reject.
  lemma BlindedNonZero(key: PublicKey, m: nat, factor: nat)
    requires key.n > 1 && 0 < m < key.n && Invertible(factor, key.n)
    ensures 0 < Blinded(key, m, factor) < key.n
  {
    var n, i := key.n, ModInverse(factor, key.n);
    var r := Pow(factor, key.e);
    if (m * r) % n == 0 {
      CongruentMod(m * r, 0, n);
      CongruentRefl(Pow(i, key.e), n);
      CongruentMul(m * r, 0, Pow(i, key.e), Pow(i, key.e), n);
      Associate(m, r, Pow(i, key.e));
      PowProduct(factor, i, key.e);
      CongruentMod(factor * i, 1, n);
      CongruentPow(factor * i, 1, key.e, n);
      PowOne(key.e);
      CongruentRefl(m, n);
      CongruentMul(m, m, Pow(factor * i, key.e), 1, n);
      CongruentSym(m * Pow(factor * i, key.e), m, n);
      CongruentTrans(m, m * Pow(factor * i, key.e), 0, n);
      CongruentMod(m, 0, n);
      RemainderUnique(m, n, 0, m);
    }
  }

  // The signature the server's answer yields after unblinding: m^d modulo n.
  lemma ClientUnblinds(key: PrivateKey, m: nat, factor: nat, inverse: nat)
    requires key.Sound() && key.public.n > 1 && m < key.public.n && IsInverse(factor, inverse, key.public.n)
    ensures var n := key.public.n;
            var s := (Pow(Blinded(key.public, m, factor), key.d) % n * inverse) % n;
            s < n && Pow(s, key.public.e) % n == m
  {
    DoubleBlinding(key, m, factor, inverse);
    SignatureOpens(key, m);
  }

  lemma FitsAndRoundTrips(x: nat, n: nat)
    requires x < n
    ensures OS2IP(I2OSP(x, ByteLen(n))) == x
  {
    BelowModulusFits(x, n);
    RoundTripInt(x, ByteLen(n));
  }

  lemma InverseNonZero(a: nat, i: nat, n: nat)
    requires n > 1 && IsInverse(a, i, n)
    ensures i > 0
  {
    assert a * 0 == 0;
  }

  // In octets: blinding m, signing and unblinding yields a signature that opens to m.
  lemma OctetsUnblind(key: PrivateKey, m: nat, factor: nat, state: State, blindedMessage: Octets)
    requires key.Sound() && key.public.n > 1 && 0 < m < key.public.n && Invertible(factor, key.public.n)
    requires blindedMessage == I2OSP(Blinded(key.public, m, factor), ByteLen(key.public.n))
    requires state.inverse == I2OSP(ModInverse(factor, key.public.n), ByteLen(key.public.n))
    ensures SigningInput(key, blindedMessage)
    ensures 0 < OS2IP(state.inverse) < key.public.n
    ensures Pow(Unblinded(key.public, state, ServerAnswer(key, blindedMessage)), key.public.e) % key.public.n == m
  {
    var n := key.public.n;
    var inverse := ModInverse(factor, n);
    BlindedNonZero(key.public, m, factor);
    var c := Blinded(key.public, m, factor);
    FitsAndRoundTrips(c, n);
    InverseNonZero(factor, inverse, n);
    FitsAndRoundTrips(inverse, n);
    FitsAndRoundTrips(Pow(c, key.d) % n, n);
    ClientUnblinds(key, m, factor, inverse);
  }

  // A signature that opens to a consistent encoding of the full size passes PSS verification.
  lemma OpensVerifies(lib: Library, key: PublicKey, message: Octets, em: Octets, s: nat)
    requires ValidPublicKey(key) && key.n > 0 && s < key.n && |em| == ByteLen(key.n) == EncodedLength(BitLen(key.n) - 1)
    requires VerifiedSalt(lib.sha384, message, em, BitLen(key.n) - 1).Some? && OS2IP(em) < key.n
    requires Pow(s, key.e) % key.n == OS2IP(em)
    ensures VerifiesPSS(lib, key, message, I2OSP(s, ByteLen(key.n)))
  {
    FitsAndRoundTrips(s, key.n);
    BelowModulusFits(OS2IP(em), key.n);
    RoundTripOctets(em);
  }

  // What a prepared request is made of.
  lemma PreparedParts(lib: Library, key: PublicKey, pollID: Octets, issuerKeyID: Octets, serial: Octets, client: Randomness)
    requires Prepared(lib, key, pollID, issuerKeyID, serial, client).Ok?
    ensures key.n > 1 && ValidPublicKey(key) && issuerKeyID == lib.keyID(key)
    ensures |client.prefix| == PREFIX_SIZE && |client.salt| == SALT_SIZE
    ensures CredentialMessage(pollID, issuerKeyID, serial).Ok? && FirstInvertible(First128(client.draws), key.n).Some?
    ensures var message := CredentialMessage(pollID, issuerKeyID, serial).value;
            var request := Prepared(lib, key, pollID, issuerKeyID, serial, client).value;
            var factor := FirstInvertible(First128(client.draws), key.n).value;
            var em := PssEncoding(lib.sha384, client.prefix + message, BitLen(key.n) - 1, client.salt);
            && |em| == ByteLen(key.n) && OS2IP(em) < key.n
            && request.state == State(pollID, issuerKeyID, serial, client.prefix, I2OSP(ModInverse(factor, key.n), ByteLen(key.n)), em)
            && request.blindedMessage == I2OSP(Blinded(key, OS2IP(em), factor), ByteLen(key.n))
  {
    hide PssEncoding, VerifiedSalt, CredentialMessage, Blinded, FirstInvertible, First128, BitLen, ByteLen, OS2IP, I2OSP, ModInverse;
    ModulusPositive(key);
  }

  lemma HonestRequest(lib: Library, key: PrivateKey, pollID: Octets, serial: Octets, client: Randomness)
    requires UsablePrivateKey(lib, key) && key.Sound() && key.public.e % 2 != 0
    requires Prepared(lib, key.public, pollID, lib.keyID(key.public), serial, client).Ok?
    ensures var request := Prepared(lib, key.public, pollID, lib.keyID(key.public), serial, client).value;
            && SigningInput(key, request.blindedMessage)
            && WellSizedState(key.public, request.state, ServerAnswer(key, request.blindedMessage))
            && FinalizeAccepts(lib, key.public, request.state, ServerAnswer(key, request.blindedMessage),
                               CredentialMessage(pollID, lib.keyID(key.public), serial).value)
  {
    hide PssEncoding, VerifiedSalt, Prepared, CredentialMessage, FirstInvertible, First128, BitLen, Unblinded, Blinded,
         VerifiesPSS, OS2IP, I2OSP, ByteLen, ModInverse, Pow, Invertible, key.Sound, EncodedLength;
    var n := key.public.n;
    PreparedParts(lib, key.public, pollID, lib.keyID(key.public), serial, client);
    var message := CredentialMessage(pollID, lib.keyID(key.public), serial).value;
    var request := Prepared(lib, key.public, pollID, lib.keyID(key.public), serial, client).value;
    var factor := FirstInvertible(First128(client.draws), n).value;
    var em := request.state.encodedMessage;
    EncodingBelowModulus(lib, key.public, client.prefix + message, client.salt);
    OctetsUnblind(key, OS2IP(em), factor, request.state, request.blindedMessage);
    OpensVerifies(lib, key.public, client.prefix + message, em,
                  Unblinded(key.public, request.state, ServerAnswer(key, request.blindedMessage)));
  }

  lemma {:induction false} FirstInvertibleBelow(draws: seq<nat>, n: nat)
    requires n > 1 && (forall i :: 0 <= i < |draws| ==> draws[i] < n)
    ensures FirstInvertible(draws, n).Some? ==> FirstInvertible(draws, n).value < n
  {
    if draws != [] {
      FirstInvertibleBelow(draws[1..], n);
    }
  }

  // With sound inputs Prepare fails in one case only: a modulus whose bit length is 1 modulo 8.
  lemma PrepareSucceeds(lib: Library, key: PublicKey, pollID: Octets, serial: Octets, client: Randomness)
    requires ValidPublicKey(key) && key.n > 1 && CredentialMessage(pollID, lib.keyID(key), serial).Ok?
    requires |client.prefix| == PREFIX_SIZE && |client.salt| == SALT_SIZE
    requires (forall i :: 0 <= i < |client.draws| ==> client.draws[i] < key.n)
    requires FirstInvertible(First128(client.draws), key.n).Some?
    ensures Prepared(lib, key, pollID, lib.keyID(key), serial, client).Ok? <==> BitLen(key.n) % 8 != 1
  {
    hide PssEncoding, VerifiedSalt, BitLen, Blinded, CredentialMessage, FirstInvertible, OS2IP, I2OSP, ModInverse;
    FirstInvertibleBelow(First128(client.draws), key.n);
    var message := client.prefix + CredentialMessage(pollID, lib.keyID(key), serial).value;
    EncodedSize(key.n);
    EncodingBelowModulus(lib, key, message, client.salt);
  }

  // The refusal: such a key's encoding is one octet shorter than its modulus.
  lemma PrepareRefuses(lib: Library, key: PublicKey, pollID: Octets, serial: Octets, client: Randomness)
    requires ValidPublicKey(key) && BitLen(key.n) % 8 == 1 && CredentialMessage(pollID, lib.keyID(key), serial).Ok?
    requires |client.prefix| == PREFIX_SIZE && |client.salt| == SALT_SIZE
    ensures Prepared(lib, key, pollID, lib.keyID(key), serial, client) == Err("invalid_encoded_message")
  {
    hide PssEncoding, BitLen, Blinded, CredentialMessage, FirstInvertible, OS2IP, I2OSP, ModInverse;
    EncodedSize(key.n);
    ModulusPositive(key);
  }

  // The first modulus of 2049 bits that is odd.
  const KEY_2049: PublicKey := PublicKey(Pow(2, 2048) + 1, 65537)

  lemma KeyOf2049Bits()
    ensures BitLen(KEY_2049.n) == 2049
  {
    hide Pow, BitLen;
    NextPower(2048);
    BitLenIs(KEY_2049.n, 2049);
  }

  lemma NextPower(k: nat)
    requires k > 0
    ensures Pow(2, k) + 1 < Pow(2, k + 1)
  {
    PowMonotone(2, 1, k);
  }

  /** A key of 2049 bits is a valid public key, and Prepare refuses it for every poll, serial and randomness. */
  lemma Refused2049(lib: Library, pollID: Octets, serial: Octets, client: Randomness)
    requires CredentialMessage(pollID, lib.keyID(KEY_2049), serial).Ok?
    requires |client.prefix| == PREFIX_SIZE && |client.salt| == SALT_SIZE
    ensures ValidPublicKey(KEY_2049)
    ensures Prepared(lib, KEY_2049, pollID, lib.keyID(KEY_2049), serial, client) == Err("invalid_encoded_message")
  {
    hide Pow, BitLen, Prepared, CredentialMessage;
    KeyOf2049Bits();
    PrepareRefuses(lib, KEY_2049, pollID, serial, client);
  }

  /** Issuance is correct for every message, serial, salt, prefix and pair of invertible factors:
      the server accepts the blinded message, Finalize accepts its answer, and the credential
      verifies for the poll. */
  method IssueCredential(lib: Library, key: PrivateKey, pollID: Octets, serial: Octets, client: Randomness,
                         serverDraws: seq<nat>) returns (result: Result<Credential>)
    requires UsablePrivateKey(lib, key) && key.Sound() && key.public.e % 2 != 0 && key.public.n > 1
    requires CredentialMessage(pollID, lib.keyID(key.public), serial).Ok?
    requires |client.prefix| == PREFIX_SIZE && |client.salt| == SALT_SIZE
    requires (forall i :: 0 <= i < |client.draws| ==> client.draws[i] < key.public.n)
    requires FirstInvertible(First128(client.draws), key.public.n).Some?
    requires FirstInvertible(First128(serverDraws), key.public.n).Some?
    ensures result.Ok? <==> BitLen(key.public.n) % 8 != 1
    ensures result.Ok? ==> Verify(lib, key.public, pollID, result.value) == Ok(()) && result.value.serial == serial
  {
    PrepareSucceeds(lib, key.public, pollID, serial, client);
    var request :- Prepare(lib, key.public, pollID, lib.keyID(key.public), serial, client);
    HonestRequest(lib, key, pollID, serial, client);
    var signed := BlindSign(lib, key, request.blindedMessage, serverDraws);
    assert signed.Ok?;
    result := Finalize(lib, key.public, request.state, signed.value);
  }
}
