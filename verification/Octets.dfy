/** Octet strings and the non-negative integers they spell, most significant octet first
    (OS2IP and I2OSP of RFC 8017, section 4), together with big.Int.Bytes and leftPad. */
module Octets {
  import opened NumberTheory

  type byte = b: nat | b < 256
  type Octets = seq<byte>

  function Zeros(n: nat): (z: Octets)
    ensures |z| == n
  {
    seq(n, _ => 0)
  }

  function OS2IP(s: Octets): nat {
    if |s| == 0 then 0 else 256 * OS2IP(s[..|s| - 1]) + s[|s| - 1]
  }

  function LowByte(n: nat): byte {
    n % 256
  }

  // The big-endian octets of n in exactly 'size' octets, dropping what does not fit.
  function I2OSP(n: nat, size: nat): (s: Octets)
    ensures |s| == size
    decreases size
  {
    if size == 0 then [] else I2OSP(n / 256, size - 1) + [LowByte(n)]
  }

  // big.Int.Bytes: the shortest big-endian spelling.
  function MinimalBytes(n: nat): Octets {
    if n == 0 then [] else MinimalBytes(n / 256) + [LowByte(n)]
  }

  lemma {:induction false} OS2IPBound(s: Octets)
    ensures OS2IP(s) < Pow(256, |s|)
  {
    if |s| > 0 {
      OS2IPBound(s[..|s| - 1]);
    }
  }

  lemma OS2IPAppend(s: Octets, b: byte)
    ensures OS2IP(s + [b]) == 256 * OS2IP(s) + b
  {
  }

  lemma {:induction false} RoundTripInt(n: nat, size: nat)
    requires n < Pow(256, size)
    ensures OS2IP(I2OSP(n, size)) == n
  {
    if size > 0 {
      assert n / 256 < Pow(256, size - 1) by {
        assert Pow(256, size) == 256 * Pow(256, size - 1);
      }
      RoundTripInt(n / 256, size - 1);
      OS2IPAppend(I2OSP(n / 256, size - 1), LowByte(n));
    }
  }

  lemma {:induction false} RoundTripOctets(s: Octets)
    ensures I2OSP(OS2IP(s), |s|) == s
  {
    if |s| > 0 {
      var init, last := s[..|s| - 1], s[|s| - 1];
      RoundTripOctets(init);
      assert OS2IP(s) / 256 == OS2IP(init) && OS2IP(s) % 256 == last;
      assert s == init + [last];
    }
  }

  lemma {:induction false} OS2IPHead(s: Octets)
    requires |s| > 0
    ensures OS2IP(s) == s[0] * Pow(256, |s| - 1) + OS2IP(s[1..])
  {
    if |s| == 1 {
      assert s[..0] == [] && s[1..] == [];
    } else {
      var init, last := s[..|s| - 1], s[|s| - 1];
      OS2IPHead(init);
      var tail := s[1..];
      assert tail[..|tail| - 1] == init[1..] && tail[|tail| - 1] == last;
      HeadAlgebra(s[0], Pow(256, |s| - 2), OS2IP(init[1..]));
      assert Pow(256, |s| - 1) == 256 * Pow(256, |s| - 2);
    }
  }

  lemma HeadAlgebra(h: nat, p: nat, r: nat)
    ensures 256 * (h * p + r) == h * (256 * p) + 256 * r
  {
    Associate(h, 256, p);
  }

  // What leftPad returns: the value right-aligned in 'size' octets.
  function LeftPadded(value: Octets, size: nat): (s: Octets)
    ensures |s| == size
  {
    if |value| >= size then value[|value| - size..] else Zeros(size - |value|) + value
  }

  method LeftPad(value: Octets, size: nat) returns (padded: Octets)
    ensures padded == LeftPadded(value, size)
  {
    if |value| >= size {
      return value[|value| - size..];
    }
    var output := new byte[size](_ => 0);
    var offset := size - |value|;
    var index := 0;
    while index < |value|
      invariant 0 <= index <= |value|
      invariant forall k :: 0 <= k < offset ==> output[k] == 0
      invariant forall k :: 0 <= k < index ==> output[offset + k] == value[k]
    {
      output[offset + index] := value[index];
      index := index + 1;
    }
    RightAligned(output[..], value, offset);
    return output[..];
  }

  lemma RightAligned(s: Octets, value: Octets, offset: nat)
    requires |s| == offset + |value|
    requires forall k :: 0 <= k < offset ==> s[k] == 0
    requires forall k :: 0 <= k < |value| ==> s[offset + k] == value[k]
    ensures s == Zeros(offset) + value
  {
    forall k | 0 <= k < |s| ensures s[k] == (Zeros(offset) + value)[k] {
      if k >= offset { assert s[offset + (k - offset)] == value[k - offset]; }
    }
  }

  lemma {:induction false} LeadingZeros(n: nat, size: nat)
    requires n < Pow(256, size)
    ensures |MinimalBytes(n)| <= size
    ensures LeftPadded(MinimalBytes(n), size) == I2OSP(n, size)
  {
    if size > 0 {
      LeadingZeros(n / 256, size - 1);
      var m, last := MinimalBytes(n / 256), LowByte(n);
      if n == 0 {
        assert Zeros(size) == Zeros(size - 1) + [0];
      } else {
        assert I2OSP(n, size) == Zeros(size - 1 - |m|) + m + [last];
        assert LeftPadded(m + [last], size) == Zeros(size - 1 - |m|) + (m + [last]);
      }
    }
  }

  /* Bit length */

  function BitLen(n: nat): nat {
    if n == 0 then 0 else 1 + BitLen(n / 2)
  }

  lemma {:induction false} BitLenBounds(n: nat)
    ensures n < Pow(2, BitLen(n))
    ensures n > 0 ==> BitLen(n) > 0 && Pow(2, BitLen(n) - 1) <= n
  {
    if n > 0 {
      BitLenBounds(n / 2);
      if n == 1 { assert BitLen(1) == 1 && Pow(2, 0) == 1; }
    }
  }

  lemma BitLenIs(n: nat, bits: nat)
    requires bits > 0 && Pow(2, bits - 1) <= n < Pow(2, bits)
    ensures BitLen(n) == bits
  {
    hide Pow, BitLen;
    BitLenBounds(n);
    PowPositive(2, bits - 1);
    if BitLen(n) < bits { PowMonotone(2, BitLen(n), bits - 1); }
    if BitLen(n) > bits { PowMonotone(2, bits, BitLen(n) - 1); }
  }

  lemma {:induction false} PowersOf256(k: nat)
    ensures Pow(256, k) == Pow(2, 8 * k)
  {
    if k > 0 {
      PowersOf256(k - 1);
      PowAdd(2, 8, 8 * (k - 1));
      assert Pow(2, 8) == 256 by {
        assert Pow(2, 4) == 16;
        PowAdd(2, 4, 4);
      }
    }
  }

  // rsa.PublicKey.Size: the octets of the modulus.
  function ByteLen(n: nat): nat {
    (BitLen(n) + 7) / 8
  }

  lemma BelowModulusFits(m: nat, n: nat)
    requires m <= n
    ensures m < Pow(256, ByteLen(n))
  {
    BitLenBounds(n);
    PowersOf256(ByteLen(n));
    PowMonotone(2, BitLen(n), 8 * ByteLen(n));
  }
}
