/** What the credential checks of internal/crypto/blind/blind.go accept, in terms of the RSA equation and the encoding alone. */
module Credentials {
  import opened NumberTheory
  import opened Octets
  import opened Pss
  import opened BlindRsa
  import opened Wrappers

  /* Verify */

  // The checks of sizes and names, with their bounds.
  predicate WellFormed(lib: Library, key: PublicKey, pollID: Octets, c: Credential) {
    && BitLen(key.n) >= 2048 && key.e >= 3 && key.e % 2 == 1
    && c.issuerKeyID == lib.keyID(key)
    && 1 <= |pollID| <= 512 && 1 <= |c.issuerKeyID| <= 128 && |c.serial| == 32
    && |c.signature| == 32 + ByteLen(key.n)
  }

  // What a credential signs: its prefix and the message that names its poll, its key and its serial.
  function SignedMessage(pollID: Octets, c: Credential): Octets
    requires |c.signature| >= 32
  {
    c.signature[..32] + (CREDENTIAL_DOMAIN + [0] + I2OSP(|pollID|, 4) + pollID + I2OSP(|c.issuerKeyID|, 4) + c.issuerKeyID + c.serial)
  }

  // The signature, raised to the public exponent, is the encoding of the message with this salt.
  predicate OpensWith(lib: Library, key: PublicKey, pollID: Octets, c: Credential, salt: Octets)
    requires WellFormed(lib, key, pollID, c)
  {
    var s := OS2IP(c.signature[32..]);
    && |salt| == 48 && s < key.n
    && Pow(s, key.e) % key.n == OS2IP(PssEncoding(lib.sha384, SignedMessage(pollID, c), BitLen(key.n) - 1, salt))
  }

  // A representative whose octets verify is the encoding of the message with the recovered salt, and no other.
  lemma RepresentativeVerifies(sha384: Hash, message: Octets, m: nat, emBits: nat, salt: Octets)
    requires emBits >= MIN_BITS && |salt| == SALT_SIZE
    ensures m < Pow(256, EncodedLength(emBits)) && VerifiedSalt(sha384, message, I2OSP(m, EncodedLength(emBits)), emBits) == Some(salt)
            <==> m == OS2IP(PssEncoding(sha384, message, emBits, salt))
  {
    hide VerifiedSalt, PssEncoding;
    var em := PssEncoding(sha384, message, emBits, salt);
    OS2IPBound(em);
    RoundTripOctets(em);
    EncodingVerifies(sha384, message, emBits, salt);
    if m < Pow(256, EncodedLength(emBits)) && VerifiedSalt(sha384, message, I2OSP(m, EncodedLength(emBits)), emBits) == Some(salt) {
      EncodingUnique(sha384, message, I2OSP(m, EncodedLength(emBits)), emBits, salt);
      RoundTripInt(m, EncodedLength(emBits));
    }
  }

  // The signature opens to the encoding of the message with this salt.
  predicate EncodesWith(lib: Library, key: PublicKey, message: Octets, signature: Octets, salt: Octets)
    requires key.n > 0 && BitLen(key.n) - 1 >= MIN_BITS
  {
    |salt| == SALT_SIZE && Pow(OS2IP(signature), key.e) % key.n == OS2IP(PssEncoding(lib.sha384, message, BitLen(key.n) - 1, salt))
  }

  // rsa.VerifyPSS accepts exactly the signatures that open to an encoding of the message.
  lemma PssExact(lib: Library, key: PublicKey, message: Octets, signature: Octets)
    requires key.n > 0 && BitLen(key.n) - 1 >= MIN_BITS
    ensures VerifiesPSS(lib, key, message, signature) <==>
              && |signature| == ByteLen(key.n) && OS2IP(signature) < key.n
              && exists salt :: EncodesWith(lib, key, message, signature, salt)
  {
    hide VerifiedSalt, PssEncoding, OS2IP, I2OSP, Pow, BitLen, ByteLen, EncodedLength;
    var m := Pow(OS2IP(signature), key.e) % key.n;
    var verified := VerifiedSalt(lib.sha384, message, I2OSP(m, EncodedLength(BitLen(key.n) - 1)), BitLen(key.n) - 1);
    if VerifiesPSS(lib, key, message, signature) {
      RepresentativeVerifies(lib.sha384, message, m, BitLen(key.n) - 1, verified.value);
      assert EncodesWith(lib, key, message, signature, verified.value);
    }
    if salt :| EncodesWith(lib, key, message, signature, salt) {
      RepresentativeVerifies(lib.sha384, message, m, BitLen(key.n) - 1, salt);
    }
  }

  /** Verify accepts exactly the well-formed credentials whose signature, raised to the public exponent, is the EMSA-PSS encoding of
      their own poll, key and serial with some salt of 48 octets. */
  lemma VerifyExact(lib: Library, key: PublicKey, pollID: Octets, c: Credential)
    ensures Verify(lib, key, pollID, c).Ok? <==>
              WellFormed(lib, key, pollID, c) && exists salt :: OpensWith(lib, key, pollID, c, salt)
  {
    hide VerifiesPSS, PssEncoding, OS2IP, I2OSP, Pow, BitLen, ByteLen;
    if WellFormed(lib, key, pollID, c) {
      ModulusPositive(key);
      var signature := c.signature[32..];
      PssExact(lib, key, SignedMessage(pollID, c), signature);
      if OS2IP(signature) < key.n {
        if salt :| EncodesWith(lib, key, SignedMessage(pollID, c), signature, salt) { assert OpensWith(lib, key, pollID, c, salt); }
        if salt :| OpensWith(lib, key, pollID, c, salt) { assert EncodesWith(lib, key, SignedMessage(pollID, c), signature, salt); }
      }
    }
  }

  // A refusal has the code of the first check that fails.
  lemma VerifyRefusals(lib: Library, key: PublicKey, pollID: Octets, c: Credential)
    ensures BitLen(key.n) < 2048 || key.e < 3 || key.e % 2 == 0 ==> Verify(lib, key, pollID, c) == Err("invalid_issuer_public_key")
    ensures BitLen(key.n) >= 2048 && key.e >= 3 && key.e % 2 == 1 ==>
              && (c.issuerKeyID != lib.keyID(key) ==> Verify(lib, key, pollID, c) == Err("wrong_issuer_key"))
              && (c.issuerKeyID == lib.keyID(key) ==>
                    && (!(1 <= |pollID| <= 512) ==> Verify(lib, key, pollID, c) == Err("invalid_poll_id"))
                    && (1 <= |pollID| <= 512 && !(1 <= |c.issuerKeyID| <= 128) ==> Verify(lib, key, pollID, c) == Err("invalid_issuer_key_id"))
                    && (1 <= |pollID| <= 512 && 1 <= |c.issuerKeyID| <= 128 && |c.serial| != 32 ==>
                          Verify(lib, key, pollID, c) == Err("invalid_credential_serial")))
    ensures BitLen(key.n) >= 2048 && key.e >= 3 && key.e % 2 == 1 && c.issuerKeyID == lib.keyID(key) && Verify(lib, key, pollID, c).Err?
            && 1 <= |pollID| <= 512 && 1 <= |c.issuerKeyID| <= 128 && |c.serial| == 32 ==>
              Verify(lib, key, pollID, c) == Err("invalid_credential")
  {
    hide VerifiesPSS, BitLen, ByteLen, I2OSP;
  }

  /* One signature, one credential */

  predicate Sha384Collide(lib: Library, x: Octets, y: Octets) {
    x != y && lib.sha384(x) == lib.sha384(y)
  }

  // What the second hash of the encoding covers.
  function SaltedInput(lib: Library, message: Octets, salt: Octets): Octets {
    Zeros(8) + lib.sha384(message) + salt
  }

  // The salt in the encoding that a credential's signature opens to, if it is one of its message.
  function SaltIn(lib: Library, key: PublicKey, pollID: Octets, c: Credential): Option<Octets>
    requires WellFormed(lib, key, pollID, c) && key.n > 0
  {
    var m := Pow(OS2IP(c.signature[32..]), key.e) % key.n;
    VerifiedSalt(lib.sha384, SignedMessage(pollID, c), I2OSP(m, EncodedLength(BitLen(key.n) - 1)), BitLen(key.n) - 1)
  }

  lemma VerifyOpens(lib: Library, key: PublicKey, pollID: Octets, c: Credential)
    requires Verify(lib, key, pollID, c).Ok?
    ensures WellFormed(lib, key, pollID, c) && key.n > 0
    ensures SaltIn(lib, key, pollID, c).Some? && OpensWith(lib, key, pollID, c, SaltIn(lib, key, pollID, c).value)
  {
    hide VerifiedSalt, PssEncoding, OS2IP, I2OSP, Pow, BitLen, ByteLen, EncodedLength;
    ModulusPositive(key);
    var m := Pow(OS2IP(c.signature[32..]), key.e) % key.n;
    RepresentativeVerifies(lib.sha384, SignedMessage(pollID, c), m, BitLen(key.n) - 1, SaltIn(lib, key, pollID, c).value);
  }

  // One octet string that verifies for two messages holds one hash of both.
  lemma SameEncoding(sha384: Hash, em: Octets, emBits: nat, a: Octets, b: Octets)
    requires VerifiedSalt(sha384, a, em, emBits).Some? && VerifiedSalt(sha384, b, em, emBits).Some?
    ensures VerifiedSalt(sha384, a, em, emBits) == VerifiedSalt(sha384, b, em, emBits)
    ensures var salt := VerifiedSalt(sha384, a, em, emBits).value; SaltedHash(sha384, a, salt) == SaltedHash(sha384, b, salt)
  {
    hide RecoveredBlock, SaltedHash, WellShaped;
  }

  lemma HashesEqual(lib: Library, a: Octets, b: Octets, salt: Octets)
    requires a != b && SaltedHash(lib.sha384, a, salt) == SaltedHash(lib.sha384, b, salt)
    ensures Sha384Collide(lib, a, b) || Sha384Collide(lib, SaltedInput(lib, a, salt), SaltedInput(lib, b, salt))
  {
    var (x, y) := (lib.sha384(a), lib.sha384(b));
    if x != y {
      assert (Zeros(8) + x + salt)[8..8 + H_LEN] == x && (Zeros(8) + y + salt)[8..8 + H_LEN] == y;
    }
  }

  // Accepted credentials that sign one message are for one poll and have one serial.
  lemma MessageNames(lib: Library, key: PublicKey, p: Octets, c: Credential, q: Octets, d: Credential)
    requires WellFormed(lib, key, p, c) && WellFormed(lib, key, q, d) && c.signature == d.signature
    requires SignedMessage(p, c) == SignedMessage(q, d)
    ensures p == q && c == d
  {
    hide I2OSP, ByteLen, BitLen;
    var (prefix, x, y) := (c.signature[..32], CredentialMessage(p, c.issuerKeyID, c.serial), CredentialMessage(q, d.issuerKeyID, d.serial));
    assert SignedMessage(p, c) == prefix + x.value && SignedMessage(q, d) == prefix + y.value;
    assert x.value == (prefix + x.value)[32..] && y.value == (prefix + y.value)[32..];
    CredentialMessageInjective(p, c.issuerKeyID, c.serial, q, d.issuerKeyID, d.serial);
  }

  /** One signature cannot serve two polls or two serials: accepted for another poll or with another serial, it exhibits two octet
      strings with one SHA-384 value, the messages themselves or the salted inputs made of their hashes. */
  lemma SignatureNamesPoll(lib: Library, key: PublicKey, p: Octets, c: Credential, q: Octets, d: Credential)
    requires Verify(lib, key, p, c).Ok? && Verify(lib, key, q, d).Ok? && c.signature == d.signature && (p != q || c.serial != d.serial)
    ensures WellFormed(lib, key, p, c) && WellFormed(lib, key, q, d) && key.n > 0 && SaltIn(lib, key, p, c).Some?
    ensures var (a, b, salt) := (SignedMessage(p, c), SignedMessage(q, d), SaltIn(lib, key, p, c).value);
            Sha384Collide(lib, a, b) || Sha384Collide(lib, SaltedInput(lib, a, salt), SaltedInput(lib, b, salt))
  {
    hide VerifiedSalt, SaltedHash, OpensWith, Verify, OS2IP, I2OSP, Pow, BitLen, ByteLen, EncodedLength, SaltedInput, Sha384Collide;
    VerifyOpens(lib, key, p, c);
    VerifyOpens(lib, key, q, d);
    var (a, b) := (SignedMessage(p, c), SignedMessage(q, d));
    var em := I2OSP(Pow(OS2IP(c.signature[32..]), key.e) % key.n, EncodedLength(BitLen(key.n) - 1));
    SameEncoding(lib.sha384, em, BitLen(key.n) - 1, a, b);
    if a == b { MessageNames(lib, key, p, c, q, d); }
    HashesEqual(lib, a, b, SaltIn(lib, key, p, c).value);
  }

  /* Prepare */

  // The k-th draw is the first of the first 128 that is not zero and has an inverse.
  predicate FirstUsable(draws: seq<nat>, modulus: nat, k: nat)
    requires modulus > 1
  {
    k < |draws| && k < 128 && draws[k] != 0 && Invertible(draws[k], modulus)
    && forall i :: 0 <= i < k ==> draws[i] == 0 || !Invertible(draws[i], modulus)
  }

  lemma {:induction false} FirstMeans(draws: seq<nat>, modulus: nat)
    requires modulus > 1
    ensures match FirstInvertible(draws, modulus)
            case None => forall i :: 0 <= i < |draws| ==> draws[i] == 0 || !Invertible(draws[i], modulus)
            case Some(factor) =>
              exists k :: 0 <= k < |draws| && draws[k] == factor && factor != 0 && Invertible(factor, modulus)
                          && forall i :: 0 <= i < k ==> draws[i] == 0 || !Invertible(draws[i], modulus)
  {
    hide Invertible;
    if draws != [] && (draws[0] == 0 || !Invertible(draws[0], modulus)) {
      FirstMeans(draws[1..], modulus);
      if FirstInvertible(draws[1..], modulus).Some? {
        var factor := FirstInvertible(draws[1..], modulus).value;
        var k :| 0 <= k < |draws[1..]| && draws[1..][k] == factor && factor != 0 && Invertible(factor, modulus)
                 && forall i :: 0 <= i < k ==> draws[1..][i] == 0 || !Invertible(draws[1..][i], modulus);
        assert draws[k + 1] == factor;
        forall i | 0 <= i < k + 1 ensures draws[i] == 0 || !Invertible(draws[i], modulus) {
          if i > 0 { assert draws[i] == draws[1..][i - 1]; }
        }
      } else {
        forall i | 0 <= i < |draws| ensures draws[i] == 0 || !Invertible(draws[i], modulus) {
          if i > 0 { assert draws[i] == draws[1..][i - 1]; }
        }
      }
    }
  }

  /** randomInvertible's factor is the first usable of at most 128 draws, and there is none exactly when none of them is usable. */
  lemma FactorDrawn(draws: seq<nat>, modulus: nat, factor: nat)
    requires modulus > 1
    ensures FirstInvertible(First128(draws), modulus) == Some(factor) <==> exists k: nat :: FirstUsable(draws, modulus, k) && draws[k] == factor
    ensures FirstInvertible(First128(draws), modulus).None? <==> forall k: nat :: !FirstUsable(draws, modulus, k)
  {
    hide Invertible;
    var drawn := First128(draws);
    FirstMeans(drawn, modulus);
    assert forall i :: 0 <= i < |drawn| ==> drawn[i] == draws[i];
    if FirstInvertible(drawn, modulus).Some? {
      var first := FirstInvertible(drawn, modulus).value;
      var k :| 0 <= k < |drawn| && drawn[k] == first && first != 0 && Invertible(first, modulus)
               && forall i :: 0 <= i < k ==> drawn[i] == 0 || !Invertible(drawn[i], modulus);
      forall i | 0 <= i < k ensures draws[i] == 0 || !Invertible(draws[i], modulus) { assert drawn[i] == draws[i]; }
      assert FirstUsable(draws, modulus, k);
    }
  }

  // The message of a request that is not yet signed, after its random prefix.
  function RequestMessage(pollID: Octets, issuerKeyID: Octets, serial: Octets, prefix: Octets): Octets {
    prefix + (CREDENTIAL_DOMAIN + [0] + I2OSP(|pollID|, 4) + pollID + I2OSP(|issuerKeyID|, 4) + issuerKeyID + serial)
  }

  /** Prepare refuses with the code of the first check that fails; otherwise it keeps the encoding of the message and the inverse of the
      first usable factor, and sends that encoding times the factor to the public exponent. */
  lemma PrepareExact(lib: Library, key: PublicKey, pollID: Octets, issuerKeyID: Octets, serial: Octets, random: Randomness)
    requires key.n > 1
    ensures var result := Prepared(lib, key, pollID, issuerKeyID, serial, random);
            var factor := FirstInvertible(First128(random.draws), key.n);
            if BitLen(key.n) < 2048 || key.e < 3 || key.e % 2 == 0 then result == Err("invalid_issuer_public_key")
            else if issuerKeyID != lib.keyID(key) then result == Err("wrong_issuer_key")
            else if !(1 <= |pollID| <= 512) then result == Err("invalid_poll_id")
            else if !(1 <= |issuerKeyID| <= 128) then result == Err("invalid_issuer_key_id")
            else if |serial| != 32 then result == Err("invalid_credential_serial")
            else if |random.prefix| != 32 || |random.salt| != 48 then result == Err("random_failed")
            else if BitLen(key.n) % 8 == 1 then result == Err("invalid_encoded_message")
            else if factor.None? then result == Err("random_failed")
            else if factor.value >= key.n then result == Err("invalid_blind_factor")
            else
              var em := PssEncoding(lib.sha384, RequestMessage(pollID, issuerKeyID, serial, random.prefix), BitLen(key.n) - 1, random.salt);
              result == Ok(Request(I2OSP(OS2IP(em) * Pow(factor.value, key.e) % key.n, ByteLen(key.n)),
                                   State(pollID, issuerKeyID, serial, random.prefix,
                                         I2OSP(ModInverse(factor.value, key.n), ByteLen(key.n)), em)))
  {
    hide PssEncoding, VerifiedSalt, BitLen, ByteLen, FirstInvertible, First128, OS2IP, I2OSP, ModInverse, Pow, Invertible, BlindedPair;
    if ValidPublicKey(key) && |random.prefix| == 32 && |random.salt| == 48 {
      var em := PssEncoding(lib.sha384, RequestMessage(pollID, issuerKeyID, serial, random.prefix), BitLen(key.n) - 1, random.salt);
      EncodedSize(key.n);
      EncodingBelowModulus(lib, key, RequestMessage(pollID, issuerKeyID, serial, random.prefix), random.salt);
      PairExact(key, em, random.draws);
    }
  }

  lemma PairExact(key: PublicKey, em: Octets, draws: seq<nat>)
    requires key.n > 1
    ensures var factor := FirstInvertible(First128(draws), key.n);
            BlindedPair(key, em, draws) ==
            if |em| != ByteLen(key.n) || OS2IP(em) >= key.n then Err("invalid_encoded_message")
            else if factor.None? then Err("random_failed")
            else if factor.value >= key.n then Err("invalid_blind_factor")
            else Ok((I2OSP(OS2IP(em) * Pow(factor.value, key.e) % key.n, ByteLen(key.n)), I2OSP(ModInverse(factor.value, key.n), ByteLen(key.n))))
  {
    hide ByteLen, FirstInvertible, First128, OS2IP, I2OSP, ModInverse, Pow, Invertible;
  }

  /* Finalize */

  // The value left when the saved inverse divides the client's factor out of the server's answer.
  function Quotient(key: PublicKey, state: State, blindSignature: Octets): nat
    requires key.n > 0
  {
    OS2IP(blindSignature) * OS2IP(state.inverse) % key.n
  }

  /** Finalize succeeds exactly when the state is well-sized for a valid key it names, the quotient opens to the saved encoding, and the
      credential made of it passes Verify for the state's poll; that credential is the answer. */
  lemma FinalizeExact(lib: Library, key: PublicKey, state: State, blindSignature: Octets)
    requires key.n > 0
    ensures var s := Quotient(key, state, blindSignature);
            var c := Credential(state.issuerKeyID, state.serial, state.messagePrefix + I2OSP(s, ByteLen(key.n)));
            && (Finalized(lib, key, state, blindSignature).Ok? <==>
                  && |state.messagePrefix| == 32 && |state.inverse| == |state.encodedMessage| == |blindSignature| == ByteLen(key.n)
                  && 0 < OS2IP(state.inverse) < key.n
                  && Pow(s, key.e) % key.n == OS2IP(state.encodedMessage)
                  && Verify(lib, key, state.pollID, c).Ok?)
            && (Finalized(lib, key, state, blindSignature).Ok? ==> Finalized(lib, key, state, blindSignature) == Ok(c))
  {
    hide VerifiesPSS, OS2IP, I2OSP, Pow, BitLen, ByteLen, CredentialMessage;
    var s := Quotient(key, state, blindSignature);
    var signature := state.messagePrefix + I2OSP(s, ByteLen(key.n));
    if |state.messagePrefix| == 32 {
      assert signature[..32] == state.messagePrefix && signature[32..] == I2OSP(s, ByteLen(key.n));
    }
  }

  // Raising to the public exponent is injective below the modulus.
  lemma OpensOnce(key: PrivateKey, a: nat, b: nat)
    requires key.Sound() && a < key.public.n && b < key.public.n
    requires Pow(a, key.public.e) % key.public.n == Pow(b, key.public.e) % key.public.n
    ensures a == b
  {
    var (n, e, d) := (key.public.n, key.public.e, key.d);
    CongruentMod(Pow(a, e), Pow(b, e), n);
    CongruentPow(Pow(a, e), Pow(b, e), d, n);
    PowMul(a, e, d);
    PowMul(b, e, d);
    RsaUndo(key.p, key.q, e, d, a);
    RsaUndo(key.p, key.q, e, d, b);
    CongruentSym(Pow(a, e * d), a, n);
    CongruentTrans(a, Pow(a, e * d), Pow(b, e * d), n);
    CongruentTrans(a, Pow(b, e * d), b, n);
    CongruentMod(a, b, n);
    RemainderUnique(a, n, 0, a);
    RemainderUnique(b, n, 0, b);
  }

  /** With a sound key a state finalises to one credential at most, whatever answers arrive for it. */
  lemma OneFinalCredential(lib: Library, key: PrivateKey, state: State, a: Octets, b: Octets)
    requires key.Sound() && key.public.n > 0
    requires Finalized(lib, key.public, state, a).Ok? && Finalized(lib, key.public, state, b).Ok?
    ensures Finalized(lib, key.public, state, a) == Finalized(lib, key.public, state, b)
  {
    hide Finalized, Verify, OS2IP, I2OSP, Pow, ByteLen, key.Sound;
    FinalizeExact(lib, key.public, state, a);
    FinalizeExact(lib, key.public, state, b);
    OpensOnce(key, Quotient(key.public, state, a), Quotient(key.public, state, b));
  }
}
