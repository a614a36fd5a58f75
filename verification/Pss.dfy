/** encodePSS and mgf1SHA384 of internal/crypto/blind/pss.go, against EMSA-PSS-VERIFY of
    section 9.1.2 of RFC 8017. SHA-384 is an arbitrary function with 48-octet values. */
module Pss {
  import opened Wrappers
  import opened NumberTheory
  import opened Octets

  const H_LEN: nat := 48
  const SALT_SIZE: nat := 48

  type Digest = d: Octets | |d| == H_LEN witness Zeros(48)
  type Hash = Octets -> Digest

  function HashOf(sha384: Hash, message: Octets): (d: Octets)
    ensures |d| == H_LEN
  {
    sha384(message)
  }

  function Counter(index: nat): Octets {
    I2OSP(index, 4)
  }

  // The first 'count' blocks of MGF1 (RFC 8017, section B.2.1).
  function MgfBlocks(sha384: Hash, seed: Octets, count: nat): (t: Octets)
    ensures |t| == H_LEN * count
  {
    if count == 0 then [] else MgfBlocks(sha384, seed, count - 1) + HashOf(sha384, seed + Counter(count - 1))
  }

  // The number of blocks that cover 'length' octets.
  function BlocksFor(length: nat): (count: nat)
    ensures H_LEN * count >= length && (count > 0 ==> H_LEN * (count - 1) < length)
  {
    (length + H_LEN - 1) / H_LEN
  }

  function Mgf1(sha384: Hash, seed: Octets, length: nat): (mask: Octets)
    ensures |mask| == length
  {
    MgfBlocks(sha384, seed, BlocksFor(length))[..length]
  }

  lemma {:induction false} BlockOctet(sha384: Hash, seed: Octets, count: nat, block: nat, k: nat)
    requires block < count && k < H_LEN
    ensures H_LEN * block + k < H_LEN * count
    ensures MgfBlocks(sha384, seed, count)[H_LEN * block + k] == sha384(seed + I2OSP(block, 4))[k]
  {
    hide HashOf, I2OSP;
    var before := MgfBlocks(sha384, seed, count - 1);
    if block < count - 1 {
      BlockOctet(sha384, seed, count - 1, block, k);
      assert MgfBlocks(sha384, seed, count)[H_LEN * block + k] == before[H_LEN * block + k];
    } else {
      assert |before| == H_LEN * block;
      LastBlock(sha384, seed, count);
    }
  }

  lemma LastBlock(sha384: Hash, seed: Octets, count: nat)
    requires count > 0
    ensures MgfBlocks(sha384, seed, count) == MgfBlocks(sha384, seed, count - 1) + sha384(seed + I2OSP(count - 1, 4))
  {
  }

  // Each octet of the mask is one of the hash of the seed and its block's counter.
  lemma MaskOctet(sha384: Hash, seed: Octets, length: nat, i: nat)
    requires i < length
    ensures Mgf1(sha384, seed, length)[i] == sha384(seed + I2OSP(i / 48, 4))[i % 48]
  {
    BlockOctet(sha384, seed, BlocksFor(length), i / 48, i % 48);
  }

  method Mgf1SHA384(sha384: Hash, seed: Octets, length: nat) returns (mask: Octets)
    ensures mask == Mgf1(sha384, seed, length)
  {
    var output: Octets := [];
    var index := 0;
    while |output| < length
      invariant output == MgfBlocks(sha384, seed, index)
      invariant index > 0 ==> H_LEN * (index - 1) < length
      decreases length - |output|
    {
      output := output + HashOf(sha384, seed + Counter(index));
      index := index + 1;
    }
    assert index == BlocksFor(length);
    mask := output[..length];
  }

  // Exclusive or of the low n bits.
  function XorBits(a: nat, b: nat, n: nat): nat {
    if n == 0 then 0 else (a + b) % 2 + 2 * XorBits(a / 2, b / 2, n - 1)
  }

  // The low n bits: what '& (0xff >> (8 - n))' keeps of an octet.
  function LowBits(a: nat, n: nat): nat {
    if n == 0 then 0 else a % 2 + 2 * LowBits(a / 2, n - 1)
  }

  lemma {:induction false} XorBound(a: nat, b: nat, n: nat)
    ensures XorBits(a, b, n) < Pow(2, n)
  {
    if n > 0 { XorBound(a / 2, b / 2, n - 1); }
  }

  lemma {:induction false} LowBitsBound(a: nat, n: nat)
    ensures LowBits(a, n) < Pow(2, n) && LowBits(a, n) <= a
  {
    if n > 0 { LowBitsBound(a / 2, n - 1); }
  }

  lemma {:induction false} LowBitsWhole(a: nat, n: nat)
    requires a < Pow(2, n)
    ensures LowBits(a, n) == a
  {
    if n > 0 { LowBitsWhole(a / 2, n - 1); }
  }

  lemma Halves(r: nat, q: nat)
    requires r < 2
    ensures (r + 2 * q) % 2 == r && (r + 2 * q) / 2 == q
  {
  }

  lemma Parity(a: nat, m: nat, y: nat)
    ensures ((a + m) % 2 + 2 * y + m) % 2 == a % 2
  {
  }

  lemma LowOfXor(a: nat, m: nat, n: nat, k: nat)
    requires 0 < k <= n
    ensures LowBits(XorBits(a, m, n), k) == (a + m) % 2 + 2 * LowBits(XorBits(a / 2, m / 2, n - 1), k - 1)
  {
    Halves((a + m) % 2, XorBits(a / 2, m / 2, n - 1));
  }

  // Unmasking with the same mask, when only k of n bits were kept in between, restores those k bits.
  lemma {:induction false} XorTwice(a: nat, m: nat, n: nat, k: nat)
    requires k <= n
    ensures LowBits(XorBits(LowBits(XorBits(a, m, n), k), m, n), k) == LowBits(a, k)
  {
    if k > 0 {
      XorTwice(a / 2, m / 2, n - 1, k - 1);
      XorTwiceStep(a, m, n, k);
    }
  }

  lemma XorTwiceStep(a: nat, m: nat, n: nat, k: nat)
    requires 0 < k <= n
    ensures var y := LowBits(XorBits(a / 2, m / 2, n - 1), k - 1);
            LowBits(XorBits(LowBits(XorBits(a, m, n), k), m, n), k)
            == a % 2 + 2 * LowBits(XorBits(y, m / 2, n - 1), k - 1)
  {
    var y := LowBits(XorBits(a / 2, m / 2, n - 1), k - 1);
    var r := (a + m) % 2;
    LowOfXor(a, m, n, k);
    Halves(r, y);
    LowOfXor(r + 2 * y, m, n, k);
    Parity(a, m, y);
  }

  lemma {:induction false} LowBitsIdempotent(a: nat, k: nat)
    ensures LowBits(LowBits(a, k), k) == LowBits(a, k)
  {
    if k > 0 { LowBitsIdempotent(a / 2, k - 1); }
  }

  lemma EightBits()
    ensures Pow(2, 8) == 256
  {
    assert Pow(2, 1) == 2 && Pow(2, 2) == 4 && Pow(2, 3) == 8 && Pow(2, 4) == 16;
    assert Pow(2, 5) == 32 && Pow(2, 6) == 64 && Pow(2, 7) == 128;
  }

  function XorByte(a: byte, b: byte): byte {
    XorBound(a, b, 8);
    EightBits();
    XorBits(a, b, 8)
  }

  function KeepLow(a: byte, unused: nat): byte
    requires unused < 8
  {
    LowBitsBound(a, 8 - unused);
    LowBits(a, 8 - unused)
  }

  // The octet laws behind masking: what is kept survives a second exclusive or.
  lemma MaskLaws(b: byte, m: byte, unused: nat)
    requires unused < 8
    ensures KeepLow(KeepLow(XorByte(b, m), unused), unused) == KeepLow(XorByte(b, m), unused)
    ensures KeepLow(XorByte(KeepLow(XorByte(b, m), unused), m), unused) == KeepLow(b, unused)
    ensures XorByte(XorByte(b, m), m) == b
    ensures KeepLow(0, unused) == 0 && KeepLow(1, unused) == 1
  {
    LowBitsIdempotent(XorByte(b, m), 8 - unused);
    XorTwice(b, m, 8, 8 - unused);
    XorTwice(b, m, 8, 8);
    EightBits();
    LowBitsWhole(b, 8);
    LowBitsWhole(XorByte(b, m), 8);
    LowBitsWhole(XorByte(XorByte(b, m), m), 8);
    SmallBits(8 - unused);
  }

  lemma {:induction false} SmallBits(k: nat)
    requires k > 0
    ensures LowBits(0, k) == 0 && LowBits(1, k) == 1
  {
    if k > 1 { SmallBits(k - 1); }
    assert LowBits(0, k - 1) == 0;
  }

  function Xor(a: Octets, b: Octets): (c: Octets)
    requires |a| == |b|
    ensures |c| == |a|
  {
    seq(|a|, i requires 0 <= i < |a| => XorByte(a[i], b[i]))
  }

  function ClearTop(s: Octets, unused: nat): (t: Octets)
    requires |s| > 0 && unused < 8
    ensures |t| == |s|
  {
    [KeepLow(s[0], unused)] + s[1..]
  }

  // The hash of eight zero octets, the message hash and the salt.
  function SaltedHash(sha384: Hash, message: Octets, salt: Octets): (d: Octets)
    ensures |d| == H_LEN
  {
    HashOf(sha384, Zeros(8) + HashOf(sha384, message) + salt)
  }

  function EncodedLength(emBits: nat): nat {
    (emBits + 7) / 8
  }

  // Steps 3, 4 and 6: the length, the trailer octet and the bits above emBits.
  predicate WellShaped(em: Octets, emBits: nat) {
    && |em| == EncodedLength(emBits)
    && |em| >= H_LEN + SALT_SIZE + 2
    && em[|em| - 1] == 0xbc
    && KeepLow(em[0], 8 * |em| - emBits) == em[0]
  }

  // Steps 5 and 7 to 9: the data block behind the mask.
  function RecoveredBlock(sha384: Hash, em: Octets, emBits: nat): (db: Octets)
    requires WellShaped(em, emBits)
    ensures |db| == |em| - H_LEN - 1
  {
    var dbLen := |em| - H_LEN - 1;
    ClearTop(Xor(em[..dbLen], Mgf1(sha384, em[dbLen..|em| - 1], dbLen)), 8 * |em| - emBits)
  }

  /** EMSA-PSS-VERIFY with a salt of SALT_SIZE octets: the salt of a consistent encoding. */
  function VerifiedSalt(sha384: Hash, message: Octets, em: Octets, emBits: nat): (salt: Option<Octets>)
    ensures salt.Some? ==> |salt.value| == SALT_SIZE && WellShaped(em, emBits)
  {
    if !WellShaped(em, emBits) then None else
    var db := RecoveredBlock(sha384, em, emBits);
    var psLen := |db| - SALT_SIZE - 1;
    if db[..psLen] != Zeros(psLen) || db[psLen] != 1 then None else
    var salt := db[psLen + 1..];
    if SaltedHash(sha384, message, salt) == em[|db|..|em| - 1] then Some(salt) else None
  }

  lemma PrefixPlusTail(s: Octets, k: nat)
    requires k <= |s|
    ensures s == s[..k] + s[k..]
  {
  }

  // The data block before masking: zero padding, the separator 0x01, the salt.
  function DataBlock(psLen: nat, salt: Octets): Octets {
    Zeros(psLen) + [1] + salt
  }

  // Unmasking recovers the data block, separator included, whatever the top-bit mask cleared.
  lemma Unmasked(psLen: nat, salt: Octets, mask: Octets, unused: nat)
    requires |mask| == psLen + 1 + |salt| && unused < 8
    ensures var masked := ClearTop(Xor(DataBlock(psLen, salt), mask), unused);
            && KeepLow(masked[0], unused) == masked[0]
            && ClearTop(Xor(masked, mask), unused) == DataBlock(psLen, salt)
  {
    var db := DataBlock(psLen, salt);
    var masked := ClearTop(Xor(db, mask), unused);
    MaskLaws(db[0], mask[0], unused);
    var back := ClearTop(Xor(masked, mask), unused);
    assert back[0] == db[0] by {
      assert db[0] == 0 || db[0] == 1;
    }
    forall i | 0 < i < |db| ensures back[i] == db[i] {
      assert masked[i] == XorByte(db[i], mask[i]);
      assert back[i] == XorByte(masked[i], mask[i]);
      MaskLaws(db[i], mask[i], unused);
    }
    assert back == db;
  }

  // The exclusive-or loop of encodePSS, in place.
  method XorInPlace(db: array<byte>, mask: Octets)
    requires |mask| == db.Length
    modifies db
    ensures db[..] == Xor(old(db[..]), mask)
  {
    var index := 0;
    while index < db.Length
      invariant 0 <= index <= db.Length
      invariant forall i :: 0 <= i < index ==> db[i] == XorByte(old(db[i]), mask[i])
      invariant forall i :: index <= i < db.Length ==> db[i] == old(db[i])
    {
      db[index] := XorByte(db[index], mask[index]);
      index := index + 1;
    }
  }

  // The masked data block of encodePSS, computed in an array.
  method MaskedDataBlock(mask: Octets, salt: Octets, unusedBits: nat) returns (masked: Octets)
    requires |mask| > |salt| && unusedBits < 8
    ensures masked == ClearTop(Xor(DataBlock(|mask| - |salt| - 1, salt), mask), unusedBits)
  {
    var dbLen := |mask|;
    var db := new byte[dbLen](_ => 0);
    db[dbLen - |salt| - 1] := 1;
    forall i | 0 <= i < |salt| {
      db[dbLen - |salt| + i] := salt[i];
    }
    ghost var block := DataBlock(dbLen - |salt| - 1, salt);
    assert db[..] == block;
    XorInPlace(db, mask);
    ghost var mixed := db[..];
    db[0] := KeepLow(db[0], unusedBits);
    masked := db[..];
    assert masked[0] == KeepLow(mixed[0], unusedBits) && masked[1..] == mixed[1..];
  }

  method Assemble(db: Octets, hash: Octets, emLen: nat) returns (em: Octets)
    requires |hash| == H_LEN && emLen == |db| + H_LEN + 1
    ensures em == Assembled(db, hash)
  {
    var encoded := new byte[emLen](_ => 0);
    forall i | 0 <= i < |db| {
      encoded[i] := db[i];
    }
    forall i | 0 <= i < H_LEN {
      encoded[|db| + i] := hash[i];
    }
    encoded[emLen - 1] := 0xbc;
    em := encoded[..];
    assert em[..|db|] == db && em[|db|..emLen - 1] == hash;
  }

  // EMSA-PSS-ENCODE (RFC 8017, section 9.1.1), steps 5 to 12.
  function PssEncoding(sha384: Hash, message: Octets, emBits: nat, salt: Octets): (em: Octets)
    requires |salt| == SALT_SIZE && emBits >= MIN_BITS
    ensures |em| == EncodedLength(emBits)
  {
    var h := SaltedHash(sha384, message, salt);
    var emLen := EncodedLength(emBits);
    var dbLen := emLen - H_LEN - 1;
    Assembled(ClearTop(Xor(DataBlock(dbLen - SALT_SIZE - 1, salt), Mgf1(sha384, h, dbLen)), 8 * emLen - emBits), h)
  }

  lemma EncodingVerifies(sha384: Hash, message: Octets, emBits: nat, salt: Octets)
    requires |salt| == SALT_SIZE && emBits >= MIN_BITS
    ensures VerifiedSalt(sha384, message, PssEncoding(sha384, message, emBits, salt), emBits) == Some(salt)
  {
    var emLen := EncodedLength(emBits);
    var dbLen := emLen - H_LEN - 1;
    var mask := Mgf1(sha384, SaltedHash(sha384, message, salt), dbLen);
    Unmasked(dbLen - SALT_SIZE - 1, salt, mask, 8 * emLen - emBits);
    AssembledVerifies(sha384, message,
                      ClearTop(Xor(DataBlock(dbLen - SALT_SIZE - 1, salt), mask), 8 * emLen - emBits), emBits, salt);
  }

  /** encodePSS. The result verifies for the same message and yields the salt that was put in. */
  method EncodePSS(sha384: Hash, message: Octets, emBits: nat, salt: Octets) returns (result: Result<Octets>)
    ensures |salt| != SALT_SIZE ==> result == Err("invalid_pss_salt")
    ensures |salt| == SALT_SIZE && emBits < 777 ==> result == Err("issuer_key_too_small")
    ensures |salt| == SALT_SIZE && emBits >= MIN_BITS ==>
              && result == Ok(PssEncoding(sha384, message, emBits, salt))
              && VerifiedSalt(sha384, message, result.value, emBits) == Some(salt)
  {
    if |salt| != SALT_SIZE {
      return Err("invalid_pss_salt");
    }
    var emLen := (emBits + 7) / 8;
    if emBits < 8 * H_LEN + 8 * |salt| + 9 || emLen < H_LEN + |salt| + 2 {
      return Err("issuer_key_too_small");
    }
    var messageHash := HashOf(sha384, message);
    var hashInput := Zeros(8) + messageHash + salt;
    var hash := HashOf(sha384, hashInput);
    var dbLen := emLen - H_LEN - 1;
    var mask := Mgf1SHA384(sha384, hash, dbLen);
    var unusedBits := 8 * emLen - emBits;
    var db := MaskedDataBlock(mask, salt, unusedBits);
    var encoded := Assemble(db, hash, emLen);
    EncodingVerifies(sha384, message, emBits, salt);
    return Ok(encoded);
  }

  const MIN_BITS: nat := 8 * H_LEN + 8 * SALT_SIZE + 9

  function Assembled(masked: Octets, hash: Octets): Octets {
    masked + hash + [0xbc]
  }

  lemma AssembledVerifies(sha384: Hash, message: Octets, masked: Octets, emBits: nat, salt: Octets)
    requires |salt| == SALT_SIZE && emBits >= MIN_BITS
    requires |masked| == EncodedLength(emBits) - H_LEN - 1
    requires var unused := 8 * EncodedLength(emBits) - emBits;
             && KeepLow(masked[0], unused) == masked[0]
             && ClearTop(Xor(masked, Mgf1(sha384, SaltedHash(sha384, message, salt), |masked|)), unused)
                == DataBlock(|masked| - SALT_SIZE - 1, salt)
    ensures VerifiedSalt(sha384, message, Assembled(masked, SaltedHash(sha384, message, salt)), emBits) == Some(salt)
  {
    var h := SaltedHash(sha384, message, salt);
    var em := Assembled(masked, h);
    var dbLen := |masked|;
    var psLen := dbLen - SALT_SIZE - 1;
    var db := DataBlock(psLen, salt);
    assert em[..dbLen] == masked && em[dbLen..|em| - 1] == h && em[|em| - 1] == 0xbc;
    assert db[..psLen] == Zeros(psLen) && db[psLen] == 1 && db[psLen + 1..] == salt;
  }

  lemma ShortIsBelow(em: Octets, unused: nat)
    requires |em| > 0 && unused < 8 && KeepLow(em[0], unused) == em[0]
    ensures OS2IP(em) < Pow(2, 8 * |em| - unused)
  {
    LowBitsBound(em[0], 8 - unused);
    OS2IPHead(em);
    OS2IPBound(em[1..]);
    RangeAlgebra(em[0], Pow(2, 8 - unused), Pow(256, |em| - 1), OS2IP(em[1..]));
    PowersOf256(|em| - 1);
    PowAdd(2, 8 - unused, 8 * (|em| - 1));
  }

  // A consistent encoding, read as an integer, is positive and has at most emBits bits.
  lemma ConsistentRange(sha384: Hash, message: Octets, em: Octets, emBits: nat)
    requires VerifiedSalt(sha384, message, em, emBits).Some?
    ensures 0 < OS2IP(em) < Pow(2, emBits)
  {
    hide VerifiedSalt;
    var last := |em| - 1;
    OS2IPAppend(em[..last], em[last]);
    assert em == em[..last] + [em[last]];
    assert em[..last - H_LEN][0] == em[0];
    ShortIsBelow(em, 8 * |em| - emBits);
  }

  lemma RangeAlgebra(h: nat, bound: nat, p: nat, rest: nat)
    requires h < bound && rest < p
    ensures h * p + rest < bound * p
  {
    ProductSign(p, bound - h);
    Distribute(p, h, bound - h);
  }

  // What encodePSS makes is consistent, positive and shorter than emBits bits.
  lemma EncodingRange(sha384: Hash, message: Octets, emBits: nat, salt: Octets)
    requires |salt| == SALT_SIZE && emBits >= MIN_BITS
    ensures VerifiedSalt(sha384, message, PssEncoding(sha384, message, emBits, salt), emBits).Some?
    ensures 0 < OS2IP(PssEncoding(sha384, message, emBits, salt)) < Pow(2, emBits)
  {
    EncodingVerifies(sha384, message, emBits, salt);
    ConsistentRange(sha384, message, PssEncoding(sha384, message, emBits, salt), emBits);
  }

  // A consistent encoding is the one EMSA-PSS-ENCODE makes from the same message and salt.
  lemma EncodingUnique(sha384: Hash, message: Octets, em: Octets, emBits: nat, salt: Octets)
    requires emBits >= MIN_BITS && VerifiedSalt(sha384, message, em, emBits) == Some(salt)
    ensures em == PssEncoding(sha384, message, emBits, salt)
  {
    hide Mgf1, SaltedHash, Xor, ClearTop, Zeros, KeepLow;
    var h := SaltedHash(sha384, message, salt);
    var dbLen := |em| - H_LEN - 1;
    SplitEncoding(em, dbLen);
    MaskedIsUnique(em[..dbLen], Mgf1(sha384, h, dbLen), 8 * |em| - emBits, dbLen - SALT_SIZE - 1, salt);
  }

  lemma SplitEncoding(em: Octets, dbLen: nat)
    requires 0 < dbLen < |em| && em[|em| - 1] == 0xbc
    ensures em == Assembled(em[..dbLen], em[dbLen..|em| - 1])
    ensures em[..dbLen][0] == em[0]
  {
  }

  lemma MaskedIsUnique(masked: Octets, mask: Octets, unused: nat, psLen: nat, salt: Octets)
    requires |masked| == |mask| == psLen + 1 + |salt| && unused < 8
    requires KeepLow(masked[0], unused) == masked[0]
    requires var db := ClearTop(Xor(masked, mask), unused);
             db[..psLen] == Zeros(psLen) && db[psLen] == 1 && db[psLen + 1..] == salt
    ensures masked == ClearTop(Xor(DataBlock(psLen, salt), mask), unused)
  {
    var db := ClearTop(Xor(masked, mask), unused);
    PrefixPlusTail(db, psLen);
    assert db[psLen..] == [db[psLen]] + db[psLen + 1..];
    assert db == DataBlock(psLen, salt);
    MaskTwice(masked, mask, unused);
  }

  lemma MaskTwice(masked: Octets, mask: Octets, unused: nat)
    requires |masked| == |mask| > 0 && unused < 8 && KeepLow(masked[0], unused) == masked[0]
    ensures ClearTop(Xor(ClearTop(Xor(masked, mask), unused), mask), unused) == masked
  {
    var db := ClearTop(Xor(masked, mask), unused);
    var again := ClearTop(Xor(db, mask), unused);
    MaskLaws(masked[0], mask[0], unused);
    forall i | 0 < i < |masked| ensures again[i] == masked[i] {
      assert db[i] == XorByte(masked[i], mask[i]);
      assert again[i] == XorByte(db[i], mask[i]);
      MaskLaws(masked[i], mask[i], unused);
    }
  }
}
