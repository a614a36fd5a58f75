/** The arithmetic under blind RSA: powers, Fermat's little theorem, the Chinese remainder
    step for two primes, and inverses modulo n. Nothing here is assumed. */
module NumberTheory {

  function Pow(b: nat, e: nat): nat
    decreases e
  {
    if e == 0 then 1 else b * Pow(b, e - 1)
  }

  // a and b leave the same remainder modulo n, stated without '%'.
  ghost predicate Congruent(a: int, b: int, n: nat) {
    exists k: int :: a - b == n * k
  }

  ghost predicate Divides(d: nat, n: int) {
    exists k: int :: n == d * k
  }

  ghost predicate Prime(p: nat) {
    p >= 2 && forall d: nat :: 1 < d < p ==> !Divides(d, p)
  }

  lemma Distribute(a: int, b: int, c: int)
    ensures a * (b + c) == a * b + a * c
  {
  }

  lemma Associate(a: int, b: int, c: int)
    ensures a * b * c == a * (b * c)
  {
  }

  lemma DividesIntro(d: nat, k: int)
    ensures Divides(d, d * k)
  {
  }

  lemma DividesElim(d: nat, n: int) returns (k: int)
    requires Divides(d, n)
    ensures n == d * k
  {
    k :| n == d * k;
  }

  lemma ProductSign(d: nat, k: int)
    ensures k <= 0 ==> d * k <= 0
    ensures k < 0 ==> d * k <= -(d as int)
    ensures k > 0 ==> d * k >= d
  {
    if k > 0 {
      Distribute(d, k - 1, 1);
      assert d * (k - 1) >= 0;
    } else if k < 0 {
      Distribute(d, k + 1, -1);
      assert d * (k + 1) <= 0;
    }
  }

  // A positive number is at least each of its divisors.
  lemma DivisorBound(d: nat, n: nat)
    requires Divides(d, n) && n > 0
    ensures 0 < d <= n
  {
    var k := DividesElim(d, n);
    ProductSign(d, k);
  }

  lemma SmallMultiple(n: nat, t: int)
    requires -(n as int) < n * t < n
    ensures t == 0
  {
    ProductSign(n, t);
  }

  // The quotient and remainder are the only ones.
  lemma RemainderUnique(x: int, n: nat, k: int, r: int)
    requires x == n * k + r && 0 <= r < n
    ensures x % n == r
  {
    var q := x / n;
    assert x == n * q + x % n;
    Distribute(n, k, -q);
    assert n * -q == -(n * q);
    SmallMultiple(n, k - q);
  }

  lemma CongruentMod(a: int, b: int, n: nat)
    requires n > 0
    ensures Congruent(a, b, n) <==> a % n == b % n
  {
    assert a == n * (a / n) + a % n;
    assert b == n * (b / n) + b % n;
    if Congruent(a, b, n) {
      var k: int :| a - b == n * k;
      Distribute(n, b / n, k);
      RemainderUnique(a, n, b / n + k, b % n);
    }
    if a % n == b % n {
      Distribute(n, a / n, -(b / n));
      assert n * -(b / n) == -(n * (b / n));
      assert a - b == n * (a / n - b / n);
    }
  }

  lemma CongruentRefl(a: int, n: nat)
    ensures Congruent(a, a, n)
  {
    assert a - a == n * 0;
  }

  lemma CongruentSym(a: int, b: int, n: nat)
    requires Congruent(a, b, n)
    ensures Congruent(b, a, n)
  {
    var k: int :| a - b == n * k;
    assert b - a == n * (-k);
  }

  lemma CongruentTrans(a: int, b: int, c: int, n: nat)
    requires Congruent(a, b, n) && Congruent(b, c, n)
    ensures Congruent(a, c, n)
  {
    var j: int :| a - b == n * j;
    var k: int :| b - c == n * k;
    assert a - c == n * (j + k);
  }

  lemma CongruentMul(a: int, b: int, c: int, d: int, n: nat)
    requires Congruent(a, b, n) && Congruent(c, d, n)
    ensures Congruent(a * c, b * d, n)
  {
    var j: int :| a - b == n * j;
    var k: int :| c - d == n * k;
    calc {
      a * c - b * d;
      (a - b) * c + b * (c - d);
      n * j * c + b * (n * k);
      n * (j * c + b * k);
    }
  }

  lemma CongruentAdd(a: int, b: int, c: int, d: int, n: nat)
    requires Congruent(a, b, n) && Congruent(c, d, n)
    ensures Congruent(a + c, b + d, n)
  {
    var j: int :| a - b == n * j;
    var k: int :| c - d == n * k;
    assert (a + c) - (b + d) == n * (j + k);
  }

  lemma {:induction false} CongruentPow(a: nat, b: nat, e: nat, n: nat)
    requires Congruent(a, b, n)
    ensures Congruent(Pow(a, e), Pow(b, e), n)
  {
    if e == 0 {
      CongruentRefl(1, n);
    } else {
      CongruentPow(a, b, e - 1, n);
      CongruentMul(a, b, Pow(a, e - 1), Pow(b, e - 1), n);
    }
  }

  lemma CongruentRemainder(a: int, n: nat)
    requires n > 0
    ensures Congruent(a % n, a, n)
  {
    CongruentMod(a % n, a, n);
  }

  /* Powers */

  lemma {:induction false} PowAdd(b: nat, x: nat, y: nat)
    ensures Pow(b, x + y) == Pow(b, x) * Pow(b, y)
  {
    if x > 0 {
      PowAdd(b, x - 1, y);
      assert b * Pow(b, x - 1) * Pow(b, y) == b * (Pow(b, x - 1) * Pow(b, y));
    }
  }

  lemma {:induction false} PowMul(b: nat, x: nat, y: nat)
    ensures Pow(Pow(b, x), y) == Pow(b, x * y)
  {
    if y == 0 {
      assert x * y == 0;
    } else {
      PowMul(b, x, y - 1);
      PowAdd(b, x, x * (y - 1));
      assert x * y == x + x * (y - 1);
    }
  }

  lemma Interchange(a: int, b: int, x: int, y: int)
    ensures (a * b) * (x * y) == (a * x) * (b * y)
  {
    Associate(a, b, x * y);
    Associate(b, x, y);
    Associate(x, b, y);
    Associate(a, x, b * y);
  }

  lemma {:induction false} PowProduct(a: nat, b: nat, e: nat)
    ensures Pow(a * b, e) == Pow(a, e) * Pow(b, e)
  {
    if e > 0 {
      PowProduct(a, b, e - 1);
      Interchange(a, b, Pow(a, e - 1), Pow(b, e - 1));
    }
  }

  lemma {:induction false} PowOne(e: nat)
    ensures Pow(1, e) == 1
  {
    if e > 0 { PowOne(e - 1); }
  }

  lemma {:induction false} PowPositive(b: nat, e: nat)
    requires b > 0
    ensures Pow(b, e) > 0
  {
    if e > 0 { PowPositive(b, e - 1); }
  }

  lemma {:induction false} PowMonotone(b: nat, x: nat, y: nat)
    requires b > 0 && x <= y
    ensures Pow(b, x) <= Pow(b, y)
  {
    PowAdd(b, x, y - x);
    PowPositive(b, x);
    PowPositive(b, y - x);
    assert Pow(b, x) * Pow(b, y - x) >= Pow(b, x) * 1;
  }

  /* Bezout, Euclid's lemma, and inverses */

  // Extended Euclid: r is a common divisor of a and b and a combination of them.
  function Bezout(a: nat, b: nat): (r: (nat, int, int))
    ensures r.0 as int == a * r.1 + b * r.2
    ensures a + b > 0 ==> r.0 > 0 && Divides(r.0, a) && Divides(r.0, b)
    decreases b
  {
    if b == 0 then
      DividesIntro(a, 1);
      DividesIntro(a, 0);
      (a, 1, 0)
    else
      var (g, x, y) := Bezout(b, a % b);
      BezoutStep(a, b, g, x, y);
      (g, y, x - (a / b) * y)
  }

  lemma BezoutStep(a: nat, b: nat, g: nat, x: int, y: int)
    requires b > 0 && g == b * x + (a % b) * y
    requires g > 0 && Divides(g, b) && Divides(g, a % b)
    ensures g == a * y + b * (x - (a / b) * y)
    ensures Divides(g, a)
  {
    var q := a / b;
    assert a == b * q + a % b;
    calc {
      a * y + b * (x - q * y);
      (b * q + a % b) * y + b * (x - q * y);
      b * x + (a % b) * y;
    }
    var s := DividesElim(g, b);
    var t := DividesElim(g, a % b);
    assert a == g * (s * q + t) by {
      assert b * q == g * (s * q);
    }
    DividesIntro(g, s * q + t);
  }

  lemma CoprimeToPrime(p: nat, a: nat)
    requires Prime(p) && !Divides(p, a)
    ensures Bezout(a, p).0 == 1
  {
    var g := Bezout(a, p).0;
    DivisorBound(g, p);
  }

  lemma MoveIn(b: int, a: int, x: int)
    ensures b * (a * x) == a * b * x
    ensures b * (a * x) == a * (x * b)
  {
    Associate(b, a, x);
    Associate(a, x, b);
  }

  lemma EuclidsLemma(p: nat, a: nat, b: int)
    requires Prime(p) && Divides(p, a * b) && !Divides(p, a)
    ensures Divides(p, b)
  {
    CoprimeToPrime(p, a);
    var (g, x, y) := Bezout(a, p);
    var k := DividesElim(p, a * b);
    Combine(p, a, b, x, y, k);
    DividesIntro(p, k * x + y * b);
  }

  lemma Combine(p: int, a: int, b: int, x: int, y: int, k: int)
    requires a * x + p * y == 1 && a * b == p * k
    ensures b == p * (k * x + y * b)
  {
    Distribute(b, a * x, p * y);
    MoveIn(b, a, x);
    MoveIn(b, p, y);
    Associate(p, k, x);
    Distribute(p, k * x, y * b);
  }

  // big.Int.ModInverse: an inverse in 0..n-1 exactly when one exists.
  predicate IsInverse(a: nat, i: nat, n: nat)
    requires n > 0
  {
    i < n && (a * i) % n == 1 % n
  }

  predicate Invertible(a: nat, n: nat) {
    Bezout(a, n).0 == 1
  }

  function ModInverse(a: nat, n: nat): (i: nat)
    requires n > 0 && Invertible(a, n)
    ensures IsInverse(a, i, n)
  {
    var (g, x, y) := Bezout(a, n);
    ModInverseCorrect(a, n, x, y);
    x % n
  }

  lemma ModInverseCorrect(a: nat, n: nat, x: int, y: int)
    requires n > 0 && a * x + n * y == 1
    ensures IsInverse(a, x % n, n)
  {
    var r := x % n;
    assert a * r - 1 == n * (-(a * (x / n)) - y) by {
      assert x == n * (x / n) + r;
      assert a * x == a * (n * (x / n)) + a * r;
      assert a * (n * (x / n)) == n * (a * (x / n));
    }
    CongruentMod(a * r, 1, n);
  }

  /* Fermat's little theorem through the binomial coefficients of a prime */

  function Binomial(n: nat, k: nat): nat
    decreases n
  {
    if k == 0 then 1 else if n == 0 then 0 else Binomial(n - 1, k - 1) + Binomial(n - 1, k)
  }

  lemma {:induction false} BinomialAbove(n: nat, k: nat)
    requires k > n
    ensures Binomial(n, k) == 0
  {
    if n > 0 {
      BinomialAbove(n - 1, k - 1);
      BinomialAbove(n - 1, k);
    }
  }

  lemma {:induction false} BinomialTop(n: nat)
    ensures Binomial(n, n) == 1
  {
    if n > 0 {
      BinomialTop(n - 1);
      BinomialAbove(n - 1, n);
    }
  }

  lemma AbsorptionAlgebra(n: nat, k: nat, u: nat, v: nat, w: nat, z: nat)
    requires n > 0 && k > 0 && u == v + z && (k - 1) * u == (n - 1) * v && k * w == (n - 1) * z
    ensures k * (u + w) == n * u
  {
    Distribute(k, u, w);
    assert k * u == (k - 1) * u + u;
    Distribute(n - 1, v, z);
    assert n * u == (n - 1) * u + u;
  }

  lemma {:induction false} Absorption(n: nat, k: nat)
    requires n > 0 && k > 0
    ensures k * Binomial(n, k) == n * Binomial(n - 1, k - 1)
  {
    var u, w := Binomial(n - 1, k - 1), Binomial(n - 1, k);
    assert Binomial(n, k) == u + w;
    if n == 1 {
      BinomialAbove(0, k);
      if k > 1 { BinomialAbove(0, k - 1); }
    } else {
      Absorption(n - 1, k);
      if k > 1 { Absorption(n - 1, k - 1); }
      var v := if k == 1 then 0 else Binomial(n - 2, k - 2);
      AbsorptionAlgebra(n, k, u, v, w, Binomial(n - 2, k - 1));
    }
  }

  // Sum of Binomial(n, k) * a^k for k = 0..m.
  function PartialExpansion(n: nat, m: nat, a: nat): nat
    decreases m
  {
    Binomial(n, m) * Pow(a, m) + if m == 0 then 0 else PartialExpansion(n, m - 1, a)
  }

  lemma ExpansionAlgebra(a: int, c: int, d: int, q: int, rest: int)
    ensures (c + d) * (a * q) == d * (a * q) + a * (c * q)
    ensures a * (c * q + rest) == a * (c * q) + a * rest
  {
    Distribute(a * q, c, d);
    Associate(a, q, c);
    Distribute(a, c * q, rest);
  }

  lemma {:induction false} ExpansionStep(n: nat, m: nat, a: nat)
    requires m > 0
    ensures PartialExpansion(n + 1, m, a) == PartialExpansion(n, m, a) + a * PartialExpansion(n, m - 1, a)
  {
    var c, d, q := Binomial(n, m - 1), Binomial(n, m), Pow(a, m - 1);
    var rest := if m == 1 then 0 else PartialExpansion(n, m - 2, a);
    ExpansionAlgebra(a, c, d, q, rest);
    assert Binomial(n + 1, m) == c + d;
    assert PartialExpansion(n, m - 1, a) == c * q + rest;
    assert PartialExpansion(n, m, a) == d * (a * q) + PartialExpansion(n, m - 1, a);
    if m > 1 {
      ExpansionStep(n, m - 1, a);
    } else {
      assert PartialExpansion(n + 1, 0, a) == PartialExpansion(n, 0, a);
    }
  }

  lemma TopTermVanishes(n: nat, a: nat)
    ensures PartialExpansion(n, n + 1, a) == PartialExpansion(n, n, a)
  {
    BinomialAbove(n, n + 1);
    assert 0 * Pow(a, n + 1) == 0;
  }

  lemma PowStep(b: nat, e: nat)
    ensures Pow(b + 1, e + 1) == Pow(b + 1, e) + b * Pow(b + 1, e)
  {
    Distribute(Pow(b + 1, e), b, 1);
  }

  lemma {:induction false} BinomialTheorem(n: nat, a: nat)
    ensures PartialExpansion(n, n, a) == Pow(a + 1, n)
  {
    if n == 0 {
      assert PartialExpansion(0, 0, a) == Binomial(0, 0) * Pow(a, 0) + 0;
    } else {
      BinomialTheorem(n - 1, a);
      ExpansionStep(n - 1, n, a);
      TopTermVanishes(n - 1, a);
      PowStep(a, n - 1);
    }
  }

  lemma PrimeDividesBinomial(p: nat, k: nat)
    requires Prime(p) && 0 < k < p
    ensures Divides(p, Binomial(p, k))
  {
    Absorption(p, k);
    DividesIntro(p, Binomial(p - 1, k - 1));
    if Divides(p, k) { DivisorBound(p, k); }
    EuclidsLemma(p, k, Binomial(p, k));
  }

  lemma {:induction false} MiddleTermsVanish(p: nat, m: nat, a: nat)
    requires Prime(p) && m < p
    ensures Congruent(PartialExpansion(p, m, a), 1, p)
  {
    if m == 0 {
      CongruentRefl(1, p);
    } else {
      MiddleTermsVanish(p, m - 1, a);
      PrimeDividesBinomial(p, m);
      var k := DividesElim(p, Binomial(p, m));
      assert Binomial(p, m) * Pow(a, m) - 0 == p * (k * Pow(a, m));
      CongruentAdd(Binomial(p, m) * Pow(a, m), 0, PartialExpansion(p, m - 1, a), 1, p);
    }
  }

  lemma {:induction false} FermatPower(p: nat, a: nat)
    requires Prime(p)
    ensures Congruent(Pow(a, p), a, p)
  {
    if a == 0 {
      assert Pow(0, p) == 0;
      CongruentRefl(0, p);
    } else {
      FermatPower(p, a - 1);
      BinomialTheorem(p, a - 1);
      MiddleTermsVanish(p, p - 1, a - 1);
      BinomialTop(p);
      CongruentAdd(Pow(a - 1, p), a - 1, PartialExpansion(p, p - 1, a - 1), 1, p);
    }
  }

  // a^(p-1) = 1 modulo p for a not divisible by the prime p.
  lemma Fermat(p: nat, a: nat)
    requires Prime(p) && !Divides(p, a)
    ensures Congruent(Pow(a, p - 1), 1, p)
  {
    FermatPower(p, a);
    var k: int :| Pow(a, p) - a == p * k;
    PowPositive(a, p - 1);
    var w: nat := Pow(a, p - 1) - 1;
    assert a * w == p * k;
    DividesIntro(p, k);
    EuclidsLemma(p, a, w);
    var j := DividesElim(p, w);
    assert Pow(a, p - 1) - 1 == p * j;
  }

  // An exponent that is 1 modulo p-1 acts as 1 modulo the prime p.
  lemma ExponentModPrime(p: nat, m: nat, k: nat)
    requires Prime(p)
    ensures Congruent(Pow(m, 1 + (p - 1) * k), m, p)
  {
    var f := (p - 1) * k;
    PowAdd(m, 1, f);
    assert Pow(m, 1) == m * Pow(m, 0) == m;
    if Divides(p, m) {
      var j := DividesElim(p, m);
      Distribute(m, Pow(m, f), -1);
      Associate(p, j, Pow(m, f) - 1);
      assert m * Pow(m, f) - m == p * (j * (Pow(m, f) - 1));
    } else {
      Fermat(p, m);
      CongruentPow(Pow(m, p - 1), 1, k, p);
      PowOne(k);
      PowMul(m, p - 1, k);
      CongruentRefl(m, p);
      CongruentMul(m, m, Pow(m, f), 1, p);
    }
  }

  // Numbers that agree modulo two distinct primes agree modulo their product.
  lemma ChineseRemainder(p: nat, q: nat, a: int, b: int)
    requires Prime(p) && Prime(q) && p != q
    requires Congruent(a, b, p) && Congruent(a, b, q)
    ensures Congruent(a, b, p * q)
  {
    var j: int :| a - b == p * j;
    if Divides(q, p) { DivisorBound(q, p); }
    assert Divides(q, p * j) by {
      var k: int :| a - b == q * k;
      DividesIntro(q, k);
    }
    EuclidsLemma(q, p, j);
    var i := DividesElim(q, j);
    Associate(p, q, i);
  }

  /** An RSA key: two distinct primes, and exponents that undo each other modulo p-1 and q-1,
      which is what rsa.PrivateKey.Validate checks. */
  ghost predicate KeyPair(p: nat, q: nat, e: nat, d: nat) {
    && Prime(p) && Prime(q) && p != q && e > 0 && d > 0
    && Congruent(e * d, 1, p - 1)
    && Congruent(e * d, 1, q - 1)
  }

  lemma UndoModPrime(p: nat, e: nat, d: nat, m: nat)
    requires Prime(p) && e > 0 && d > 0 && Congruent(e * d, 1, p - 1)
    ensures Congruent(Pow(m, e * d), m, p)
  {
    var k: int :| e * d - 1 == (p - 1) * k;
    assert e * d > 0;
    ProductSign(p - 1, k);
    ExponentModPrime(p, m, k);
  }

  lemma RsaUndo(p: nat, q: nat, e: nat, d: nat, m: nat)
    requires KeyPair(p, q, e, d)
    ensures Congruent(Pow(m, e * d), m, p * q)
  {
    UndoModPrime(p, e, d, m);
    UndoModPrime(q, e, d, m);
    ChineseRemainder(p, q, Pow(m, e * d), m);
  }
}
