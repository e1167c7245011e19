/** Paillier encryption: keys, encryption, decryption and the homomorphic operations. */
module Paillier {
  import opened Residues
  import opened Powers
  import opened Modulus
  import opened Party

  /** Distinct odd primes of the same bit length. */
  ghost predicate GoodPrimes(p: int, q: int) {
    DistinctPrimes(p, q) && p % 2 == 1 && q % 2 == 1 && p < 2 * q && q < 2 * p
  }

  datatype PublicKey = PublicKey(n: Modulus, nSquared: Modulus, nNat: int, nPlusOne: int)
  datatype SecretKey = SecretKey(p: int, q: int, phi: int, phiInv: int, public: PublicKey)

  // ------------------------------------------------------------------ unit groups

  /** A unit modulo two numbers is a unit modulo their product. */
  lemma UnitProduct(x: int, a: int, b: int)
    requires a > 1 && b > 1 && IsUnit(x, a) && IsUnit(x, b)
    ensures a * b > 1 && IsUnit(x, a * b)
  {
    InverseWorks(x, a);
    InverseWorks(x, b);
    var u, v := ModInverse(x, a), ModInverse(x, b);
    hide IsUnit, ModInverse;
    var k := Quotient(x * u, a);
    var l := Quotient(x * v, b);
    MulMono(1, a, b);
    var w := u + v - x * u * v;
    ProductInverse(x, u, v, k, l, a, b);
    RemUnique(x * w, a * b, -(k * l), 1);
    UnitFrom(x, w, a * b);
  }

  lemma ProductInverse(x: int, u: int, v: int, k: int, l: int, a: int, b: int)
    requires x * u == k * a + 1 && x * v == l * b + 1
    ensures x * (u + v - x * u * v) == -(k * l) * (a * b) + 1
  {
    assert x * (u + v - x * u * v) == x * u + x * v - (x * u) * (x * v);
    assert (x * u - 1) * (x * v - 1) == (k * a) * (l * b);
    assert (k * a) * (l * b) == (k * l) * (a * b);
  }

  /** The first prime does not divide (p-1)(q-1). */
  lemma PrimeNotInPhi(p: int, q: int)
    requires GoodPrimes(p, q)
    ensures IsUnit(Phi(p, q), p)
  {
    hide IsUnit;
    if Divides(p, (p - 1) * (q - 1)) {
      PrimeDivides(p, p - 1, q - 1);
      if Divides(p, p - 1) {
        DivisorBound(p, p - 1);
      } else {
        var k :| q - 1 == k * p;
        OnlyOnce(k, p, q - 1);
      }
    }
    PrimeUnit(Phi(p, q), p);
  }

  lemma OnlyOnce(k: int, p: int, x: int)
    requires p > 1 && x == k * p && 0 < x < 2 * p
    ensures x == p
  {
    if k <= 0 {
      MulMono(k, 0, p);
    } else if k >= 2 {
      MulMono(2, k, p);
    }
  }

  lemma PhiSymmetric(p: int, q: int)
    ensures Phi(p, q) == Phi(q, p) && p * q == q * p
  {
  }

  /** gcd(N, phi(N)) = 1 for primes of equal length, in both directions. */
  lemma PhiUnit(p: int, q: int)
    requires GoodPrimes(p, q)
    ensures p * q > 1 && IsUnit(Phi(p, q), p * q)
    ensures Phi(p, q) > 1 && IsUnit(p * q, Phi(p, q))
  {
    hide IsUnit;
    PrimeNotInPhi(p, q);
    PhiSymmetric(p, q);
    PrimeNotInPhi(q, p);
    UnitProduct(Phi(p, q), p, q);
    var n, phi := p * q, Phi(p, q);
    MulMono(2, p - 1, q - 1);
    InverseWorks(phi, n);
    var y := ModInverse(phi, n);
    var k := Quotient(phi * y, n);
    assert n * (-k) == (-y) * phi + 1 by { Transpose(phi, y, k, n); }
    RemUnique(n * (-k), phi, -y, 1);
    UnitFrom(n, -k, phi);
  }

  lemma Transpose(phi: int, y: int, k: int, n: int)
    requires phi * y == k * n + 1
    ensures n * (-k) == (-y) * phi + 1
  {
  }

  // ------------------------------------------------------------------------- keys

  ghost predicate GoodPublic(pk: PublicKey) {
    && pk.nNat > 2 && pk.nNat % 2 == 1
    && Valid(pk.n) && pk.n.n == pk.nNat
    && Valid(pk.nSquared) && pk.nSquared.n == pk.nNat * pk.nNat
    && pk.nPlusOne == pk.nNat + 1
  }

  ghost predicate GoodSecret(sk: SecretKey) {
    && GoodPrimes(sk.p, sk.q) && GoodPublic(sk.public) && sk.public.nNat == sk.p * sk.q
    && sk.phi == Phi(sk.p, sk.q) && sk.phiInv == ModInverse(sk.phi, sk.public.nNat)
  }

  /** NewPublicKey */
  method NewPublicKey(n: int) returns (pk: PublicKey)
    requires n > 2 && n % 2 == 1
    ensures GoodPublic(pk) && pk.nNat == n
  {
    MulMono(1, n, n);
    pk := PublicKey(FromN(n), FromN(n * n), n, n + 1);
  }

  /** NewSecretKeyFromPrimes: the factors of n and of its square are cached. */
  method NewSecretKey(p: int, q: int) returns (sk: SecretKey)
    requires GoodPrimes(p, q)
    ensures GoodSecret(sk) && sk.p == p && sk.q == q
  {
    hide IsUnit, ModInverse;
    var n := FromFactors(p, q);
    PrimeNotDividesPrime(p, q);
    FromFactorsValid(p, q);
    MulMono(2, p, q);
    var phi := (p - 1) * (q - 1);
    var phiInv := ModInverse(phi, p * q);
    var nSquared := FromFactors(p * p, q * q);
    SquaresCoprime(p, q);
    FromFactorsValid(p * p, q * q);
    assert (p * p) * (q * q) == (p * q) * (p * q) by { Shuffle(p, q, p, q); Squares(p, q); }
    OddProduct(p, q);
    sk := SecretKey(p, q, phi, phiInv, PublicKey(n, nSquared, p * q, p * q + 1));
  }

  lemma Squares(p: int, q: int)
    ensures (p * p) * (q * q) == (p * q) * (p * q)
  {
  }

  lemma OddProduct(p: int, q: int)
    requires p % 2 == 1 && q % 2 == 1
    ensures (p * q) % 2 == 1
  {
    var i, j := p / 2, q / 2;
    assert p * q == 2 * (2 * i * j + i + j) + 1;
  }

  /** The squares of coprime numbers are coprime. */
  lemma SquaresCoprime(p: int, q: int)
    requires p > 1 && q > 1 && IsUnit(p, q)
    ensures p * p > 1 && q * q > 1 && IsUnit(p * p, q * q)
  {
    hide IsUnit;
    UnitMul(p, p, q);
    MulMono(1, p, p);
    UnitProduct(p * p, q, q);
  }

  // ------------------------------------------------------------------- encryption

  /** The reference form: (1 + m*N) * rho^N modulo N squared, for any integer m. */
  ghost predicate Encrypts(c: int, n: int, m: int, rho: int) {
    && n > 2 && n * n > 1 && IsUnit(rho, n)
    && c == Rem((1 + m * n) * Pow(rho, n), n * n)
  }

  lemma Square(n: int)
    requires n > 1
    ensures n * n > 1 && n < n * n
  {
    MulMono(2, n, n);
  }

  /** (1 + aN)(1 + bN) = 1 + (a+b)N modulo N squared. */
  lemma OnePlusProduct(a: int, b: int, n: int)
    requires n > 1
    ensures n * n > 1 && Rem((1 + a * n) * (1 + b * n), n * n) == Rem(1 + (a + b) * n, n * n)
  {
    hide Rem;
    Square(n);
    OnePlusAlgebra(a, b, n);
    RemShift(1 + (a + b) * n, n * n, a * b);
  }

  lemma OnePlusAlgebra(a: int, b: int, n: int)
    ensures (1 + a * n) * (1 + b * n) == 1 + (a + b) * n + (a * b) * (n * n)
  {
    assert (1 + a * n) * (1 + b * n) == 1 + a * n + b * n + (a * n) * (b * n);
    assert (a * n) * (b * n) == (a * b) * (n * n) by { Shuffle(a, b, n, n); }
    assert (a + b) * n == a * n + b * n;
  }

  lemma OnePlusUnit(m: int, n: int)
    requires n > 1
    ensures n * n > 1 && IsUnit(1 + m * n, n * n)
  {
    hide Rem, IsUnit;
    Square(n);
    OnePlusProduct(m, -m, n);
    assert 1 + (m + -m) * n == 1;
    RemSmall(1, n * n);
    UnitFrom(1 + m * n, 1 + (-m) * n, n * n);
  }

  /** (N+1)^m = 1 + mN modulo N squared, for exponents of either sign. */
  lemma PlusOnePower(m: int, n: int)
    requires n > 1
    ensures n * n > 1 && PowI(n + 1, m, n * n) == Rem(1 + m * n, n * n)
  {
    hide Rem, IsUnit, Pow, ModInverse;
    Square(n);
    var e := if m < 0 then -m else m;
    PowOnePlus(1, n, e);
    assert 1 + 1 * n == n + 1 && e * 1 == e;
    if m < 0 {
      OnePlusUnit(1, n);
      OnePlusProduct(m, e, n);
      RemMulCong(1 + m * n, 1 + m * n, Pow(n + 1, e), 1 + e * n, n * n);
      assert 1 + (m + e) * n == 1;
      RemSmall(1, n * n);
      PowIUnique(n + 1, m, n * n, 1 + m * n);
    }
  }

  /** EncWithNonce for a message in range; None where the source panics. */
  method EncWithNonce(pk: PublicKey, m: int, nonce: int) returns (c: Option<int>)
    requires GoodPublic(pk)
    ensures c.Some? <==> -((pk.nNat - 1) / 2) <= m <= (pk.nNat - 1) / 2
    ensures c.Some? && IsUnit(nonce, pk.nNat) ==> Encrypts(c.value, pk.nNat, m, nonce)
  {
    hide Rem, IsUnit, Pow, ModInverse, PowI;
    var mAbs := if m < 0 then -m else m;
    var nHalf := pk.nNat / 2;
    if mAbs > nHalf {
      return None;
    }
    var n := pk.nNat;
    var power := ExpI(pk.nSquared, pk.nPlusOne, m);
    var rhoN := Exp(pk.nSquared, nonce, pk.nNat);
    var product := Rem(power * rhoN, pk.nSquared.n);
    PlusOnePower(m, n);
    RemIdem(1 + m * n, n * n);
    RemIdem(Pow(nonce, n), n * n);
    RemMulCong(power, 1 + m * n, rhoN, Pow(nonce, n), n * n);
    c := Some(product);
  }

  // ------------------------------------------------------------------- decryption

  /** SetModSymmetric: the representative between -n/2 and n/2. */
  function Symmetric(x: int, n: int): (r: int)
    requires n > 0
  {
    var r := Rem(x, n);
    if r > n - r then r - n else r
  }

  lemma SymmetricIs(m: int, n: int)
    requires n > 0 && n % 2 == 1 && -((n - 1) / 2) <= m <= (n - 1) / 2
    ensures Symmetric(m, n) == m
  {
    hide Rem;
    if m >= 0 {
      RemSmall(m, n);
    } else {
      RemUnique(m, n, -1, m + n);
    }
  }

  lemma SymmetricCong(x: int, y: int, n: int)
    requires n > 0 && Rem(x, n) == Rem(y, n)
    ensures Symmetric(x, n) == Symmetric(y, n)
  {
  }

  /** rho^(N*phi) = 1 modulo N squared. */
  lemma NonceVanishes(rho: int, p: int, q: int)
    requires DistinctPrimes(p, q) && p * q > 1 && IsUnit(rho, p * q)
    ensures (p * q) * (p * q) > 1 && Phi(p, q) >= 0
    ensures Rem(Pow(Pow(rho, p * q), Phi(p, q)), (p * q) * (p * q)) == 1
  {
    hide Rem, IsUnit, Pow;
    var n, phi := p * q, Phi(p, q);
    Square(n);
    Euler(rho, p, q);
    var t := Quotient(Pow(rho, phi), n);
    PowOnePlus(t, n, n);
    assert Pow(rho, phi) == 1 + t * n;
    PowPow(rho, phi, n);
    PowPow(rho, n, phi);
    assert phi * n == n * phi;
    MultipleVanishes(t, n);
  }

  lemma MultipleVanishes(t: int, n: int)
    requires n > 1
    ensures n * n > 1 && Rem(1 + (n * t) * n, n * n) == 1
  {
    hide Rem;
    Square(n);
    assert 1 + (n * t) * n == 1 + t * (n * n);
    RemShift(1, n * n, t);
    RemSmall(1, n * n);
  }

  /** c^phi = 1 + (phi*m)N modulo N squared. */
  lemma PowerToPhi(c: int, m: int, rho: int, p: int, q: int)
    requires DistinctPrimes(p, q) && Encrypts(c, p * q, m, rho)
    ensures Phi(p, q) >= 0
    ensures Rem(Pow(c, Phi(p, q)), (p * q) * (p * q)) == Rem(1 + (Phi(p, q) * m) * (p * q), (p * q) * (p * q))
  {
    hide Rem, IsUnit, Pow;
    var n, phi := p * q, Phi(p, q);
    NonceVanishes(rho, p, q);
    RemIdem((1 + m * n) * Pow(rho, n), n * n);
    PowCong(c, (1 + m * n) * Pow(rho, n), phi, n * n);
    PowProduct(1 + m * n, Pow(rho, n), phi);
    PowOnePlus(m, n, phi);
    RemSmall(1, n * n);
    RemMulCong(Pow(1 + m * n, phi), 1 + (phi * m) * n, Pow(Pow(rho, n), phi), 1, n * n);
    assert (1 + (phi * m) * n) * 1 == 1 + (phi * m) * n;
  }

  /** The quotient (c^phi - 1) / N is phi*m modulo N. */
  lemma Logarithm(t: int, n: int)
    requires n > 1
    ensures n * n > 1 && (Rem(1 + t * n, n * n) - 1) / n == Rem(t, n)
  {
    hide Rem;
    Square(n);
    var k := Quotient(t, n);
    var r := Rem(t, n);
    RemRange(t, n);
    MulMono(r, n - 1, n);
    LogarithmAlgebra(t, n, k, r);
    RemUnique(1 + t * n, n * n, k, 1 + r * n);
    DivExact(r, n);
  }

  lemma LogarithmAlgebra(t: int, n: int, k: int, r: int)
    requires t == k * n + r && 0 <= r && r * n <= (n - 1) * n && n > 1
    ensures 1 + t * n == k * (n * n) + (1 + r * n) && 0 <= 1 + r * n < n * n
  {
    assert (k * n + r) * n == k * (n * n) + r * n;
  }

  lemma DivExact(r: int, n: int)
    requires n > 0
    ensures (r * n) / n == r
  {
    var d := (r * n) / n;
    assert d * n <= r * n < d * n + n;
    if d < r {
      MulMono(d + 1, r, n);
    } else if d > r {
      MulMono(r + 1, d, n);
    }
  }

  /** ValidateCiphertexts for one ciphertext. */
  predicate ValidCiphertext(pk: PublicKey, c: int)
    requires pk.nSquared.n > 0
  {
    0 <= c < pk.nSquared.n && IsUnit(c, pk.nSquared.n)
  }

  lemma EncryptionValid(c: int, n: int, m: int, rho: int)
    requires Encrypts(c, n, m, rho)
    ensures n * n > 1 && 0 <= c < n * n && IsUnit(c, n * n)
  {
    hide Rem, IsUnit, Pow;
    Square(n);
    UnitProduct(rho, n, n);
    PowUnit(rho, n, n * n);
    OnePlusUnit(m, n);
    var x := (1 + m * n) * Pow(rho, n);
    UnitMul(1 + m * n, Pow(rho, n), n * n);
    RemRange(x, n * n);
    RemIdem(x, n * n);
    UnitCong(c, x, n * n);
  }

  /** Multiplying phi*m by the inverse of phi leaves m. */
  lemma Unscale(m: int, phi: int, n: int)
    requires n > 1 && IsUnit(phi, n)
    ensures Rem(Rem(phi * m, n) * ModInverse(phi, n), n) == Rem(m, n)
  {
    InverseWorks(phi, n);
    hide Rem, IsUnit, ModInverse;
    var i := ModInverse(phi, n);
    RemMul(phi * m, i, n);
    CancelSide(phi, i, m, n);
  }

  /** Dec */
  method Dec(sk: SecretKey, c: int) returns (r: Result<int>)
    requires GoodSecret(sk)
    ensures r.Ok? <==> ValidCiphertext(sk.public, c)
    ensures forall m, rho :: Encrypts(c, sk.public.nNat, m, rho) ==> r == Ok(Symmetric(m, sk.public.nNat))
  {
    hide Rem, IsUnit, Pow, ModInverse, Symmetric;
    var n := sk.public.nNat;
    forall m, rho | Encrypts(c, n, m, rho) ensures ValidCiphertext(sk.public, c) {
      EncryptionValid(c, n, m, rho);
    }
    if !ValidCiphertext(sk.public, c) {
      return Err("paillier: failed to decrypt invalid ciphertext");
    }
    PhiUnit(sk.p, sk.q);
    var result := Exp(sk.public.nSquared, c, sk.phi);
    result := result - 1;
    result := result / n;
    result := Rem(result * sk.phiInv, n);
    forall m, rho | Encrypts(c, n, m, rho) ensures Symmetric(result, n) == Symmetric(m, n) {
      PowerToPhi(c, m, rho, sk.p, sk.q);
      Logarithm(sk.phi * m, n);
      Unscale(m, sk.phi, n);
      RemIdem(m, n);
      SymmetricCong(result, m, n);
    }
    r := Ok(Symmetric(result, n));
  }

  /** The round trip: what was encrypted in range comes back. */
  method RoundTrip(sk: SecretKey, m: int, nonce: int) returns (r: Result<int>)
    requires GoodSecret(sk) && IsUnit(nonce, sk.public.nNat)
    requires -((sk.public.nNat - 1) / 2) <= m <= (sk.public.nNat - 1) / 2
    ensures r == Ok(m)
  {
    hide IsUnit, Encrypts, Symmetric;
    var c := EncWithNonce(sk.public, m, nonce);
    r := Dec(sk, c.value);
    SymmetricIs(m, sk.public.nNat);
  }

  // ------------------------------------------------------------------ homomorphism

  /** A product of ciphertexts encrypts the sum, under the product of the nonces. */
  lemma EncryptsSum(c1: int, c2: int, n: int, m1: int, r1: int, m2: int, r2: int)
    requires Encrypts(c1, n, m1, r1) && Encrypts(c2, n, m2, r2)
    ensures Encrypts(Rem(c1 * c2, n * n), n, m1 + m2, r1 * r2)
  {
    hide Rem, IsUnit, Pow;
    var x1, x2 := (1 + m1 * n) * Pow(r1, n), (1 + m2 * n) * Pow(r2, n);
    UnitMul(r1, r2, n);
    RemIdem(x1, n * n);
    RemIdem(x2, n * n);
    RemMulCong(c1, x1, c2, x2, n * n);
    Shuffle(1 + m1 * n, 1 + m2 * n, Pow(r1, n), Pow(r2, n));
    PowProduct(r1, r2, n);
    OnePlusProduct(m1, m2, n);
    RemMulCong((1 + m1 * n) * (1 + m2 * n), 1 + (m1 + m2) * n, Pow(r1 * r2, n), Pow(r1 * r2, n), n * n);
  }

  /** A positive power encrypts the multiple. */
  lemma EncryptsPower(c: int, n: int, m: int, rho: int, k: nat)
    requires Encrypts(c, n, m, rho)
    ensures Encrypts(Rem(Pow(c, k), n * n), n, k * m, Pow(rho, k))
  {
    hide Rem, IsUnit, Pow;
    var x := (1 + m * n) * Pow(rho, n);
    PowUnit(rho, k, n);
    RemIdem(x, n * n);
    PowCong(c, x, k, n * n);
    PowProduct(1 + m * n, Pow(rho, n), k);
    PowOnePlus(m, n, k);
    PowPow(rho, n, k);
    PowPow(rho, k, n);
    assert n * k == k * n;
    RemMulCong(Pow(1 + m * n, k), 1 + (k * m) * n, Pow(Pow(rho, n), k), Pow(Pow(rho, k), n), n * n);
  }

  /** An inverse encrypts the negative. */
  lemma EncryptsInverse(c: int, n: int, m: int, rho: int)
    requires Encrypts(c, n, m, rho)
    ensures n * n > 1 && Encrypts(ModInverse(c, n * n), n, -m, ModInverse(rho, n * n))
  {
    hide Rem, IsUnit, Pow, ModInverse;
    EncryptionValid(c, n, m, rho);
    UnitProduct(rho, n, n);
    var nn := n * n;
    var i := ModInverse(rho, nn);
    var j := ModInverse(c, nn);
    InverseWorks(rho, nn);
    InverseWorks(c, nn);
    var y := (1 + (-m) * n) * Pow(i, n);
    InverseNonce(rho, i, n);
    InverseForm(c, n, m, rho, i);
    UnitCancel(c, j, y, nn);
    RemSmall(j, nn);
  }

  lemma InverseNonce(rho: int, i: int, n: int)
    requires n > 1 && n * n > 1 && Rem(rho * i, n * n) == 1
    ensures IsUnit(i, n) && Rem(Pow(rho, n) * Pow(i, n), n * n) == 1
  {
    hide Rem, IsUnit, Pow;
    RemSmall(1, n * n);
    PowCong(rho * i, 1, n, n * n);
    PowOne(n);
    PowProduct(rho, i, n);
    DividesWith(n, n * n, n);
    RemFactor(rho * i, 1, n, n * n);
    RemSmall(1, n);
    assert i * rho == rho * i;
    UnitFrom(i, rho, n);
  }

  lemma InverseForm(c: int, n: int, m: int, rho: int, i: int)
    requires Encrypts(c, n, m, rho) && Rem(Pow(rho, n) * Pow(i, n), n * n) == 1
    ensures Rem(c * ((1 + (-m) * n) * Pow(i, n)), n * n) == 1
  {
    hide Rem, IsUnit, Pow;
    var x, y := (1 + m * n) * Pow(rho, n), (1 + (-m) * n) * Pow(i, n);
    RemIdem(x, n * n);
    RemMulCong(c, x, y, y, n * n);
    Shuffle(1 + m * n, 1 + (-m) * n, Pow(rho, n), Pow(i, n));
    OnePlusProduct(m, -m, n);
    assert 1 + (m + -m) * n == 1;
    RemSmall(1, n * n);
    RemMulCong((1 + m * n) * (1 + (-m) * n), 1, Pow(rho, n) * Pow(i, n), 1, n * n);
  }

  /** The nonce of a scaled ciphertext. */
  ghost function ScaledNonce(rho: int, k: int, n: int): int
    requires n > 0
  {
    if k >= 0 then Pow(rho, k) else ModInverse(Pow(rho, -k), n)
  }

  /** A power with an exponent of either sign encrypts the multiple. */
  lemma EncryptsMultiple(c: int, n: int, m: int, rho: int, k: int)
    requires Encrypts(c, n, m, rho)
    ensures Encrypts(PowI(c, k, n * n), n, k * m, ScaledNonce(rho, k, n * n))
  {
    hide Rem, IsUnit, Pow, ModInverse, Encrypts;
    assert n > 2 && n * n > 1 by { Sized(c, n, m, rho); }
    if k >= 0 {
      EncryptsPower(c, n, m, rho, k);
    } else {
      EncryptsPower(c, n, m, rho, -k);
      EncryptsInverse(Rem(Pow(c, -k), n * n), n, -k * m, Pow(rho, -k));
      assert -(-k * m) == k * m;
    }
  }

  lemma Sized(c: int, n: int, m: int, rho: int)
    requires Encrypts(c, n, m, rho)
    ensures n > 2 && n * n > 1
  {
  }

  /** Multiplying with a power of a nonce changes only the nonce. */
  lemma EncryptsRandomized(c: int, n: int, m: int, rho: int, nonce: int)
    requires Encrypts(c, n, m, rho) && IsUnit(nonce, n)
    ensures Encrypts(Rem(c * Rem(Pow(nonce, n), n * n), n * n), n, m, rho * nonce)
  {
    hide Rem, IsUnit, Pow;
    var z := Rem(Pow(nonce, n), n * n);
    assert (1 + 0 * n) * Pow(nonce, n) == Pow(nonce, n);
    assert Encrypts(z, n, 0, nonce);
    EncryptsSum(c, z, n, m, rho, 0, nonce);
  }

  /** A ciphertext whose value is replaced in place. */
  class Ciphertext {
    var c: int

    constructor (c: int)
      ensures this.c == c
    {
      this.c := c;
    }

    /** Clone */
    method Clone() returns (r: Ciphertext)
      ensures fresh(r) && r.c == c
    {
      r := new Ciphertext(c);
    }

    /** Add: the homomorphic sum. */
    method Add(pk: PublicKey, other: Ciphertext?)
      requires GoodPublic(pk)
      modifies this
      ensures other == null ==> c == old(c)
      ensures other != null ==> forall m1, r1, m2, r2 ::
          Encrypts(old(c), pk.nNat, m1, r1) && Encrypts(old(other.c), pk.nNat, m2, r2) ==>
            Encrypts(c, pk.nNat, m1 + m2, r1 * r2)
    {
      hide Rem, IsUnit, Encrypts;
      if other == null {
        return;
      }
      var n := pk.nNat;
      forall m1, r1, m2, r2 | Encrypts(c, n, m1, r1) && Encrypts(other.c, n, m2, r2)
        ensures Encrypts(Rem(c * other.c, n * n), n, m1 + m2, r1 * r2)
      {
        EncryptsSum(c, other.c, n, m1, r1, m2, r2);
      }
      c := Rem(c * other.c, pk.nSquared.n);
    }

    /** Mul: the homomorphic multiple. */
    method Mul(pk: PublicKey, k: int)
      requires GoodPublic(pk)
      modifies this
      ensures forall m, rho :: Encrypts(old(c), pk.nNat, m, rho) ==>
          Encrypts(c, pk.nNat, k * m, ScaledNonce(rho, k, pk.nSquared.n))
    {
      hide Rem, IsUnit, Encrypts, PowI, ScaledNonce;
      var n := pk.nNat;
      forall m, rho | Encrypts(c, n, m, rho)
        ensures Encrypts(PowI(c, k, n * n), n, k * m, ScaledNonce(rho, k, n * n))
      {
        EncryptsMultiple(c, n, m, rho, k);
      }
      c := ExpI(pk.nSquared, c, k);
    }

    /** Randomize with a given nonce. */
    method Randomize(pk: PublicKey, nonce: int)
      requires GoodPublic(pk)
      modifies this
      ensures forall m, rho :: Encrypts(old(c), pk.nNat, m, rho) && IsUnit(nonce, pk.nNat) ==>
          Encrypts(c, pk.nNat, m, rho * nonce)
    {
      hide Rem, IsUnit, Encrypts, Pow;
      var n := pk.nNat;
      forall m, rho | Encrypts(c, n, m, rho) && IsUnit(nonce, n)
        ensures Encrypts(Rem(c * Rem(Pow(nonce, n), n * n), n * n), n, m, rho * nonce)
      {
        EncryptsRandomized(c, n, m, rho, nonce);
      }
      var tmp := Exp(pk.nSquared, nonce, pk.nNat);
      c := Rem(c * tmp, pk.nSquared.n);
    }
  }

  // ------------------------------------------------------------ nonce recovery

  /** Modulo N the ciphertext is rho^N. */
  lemma CiphertextModN(c: int, n: int, m: int, rho: int)
    requires Encrypts(c, n, m, rho)
    ensures Rem(c, n) == Rem(Pow(rho, n), n)
  {
    hide Rem, IsUnit, Pow;
    var x := (1 + m * n) * Pow(rho, n);
    RemIdem(x, n * n);
    DividesWith(n, n * n, n);
    RemFactor(c, x, n, n * n);
    RemShift(1, n, m);
    RemMulCong(1 + m * n, 1, Pow(rho, n), Pow(rho, n), n);
    assert 1 * Pow(rho, n) == Pow(rho, n);
  }

  /** The N-th root: raising rho^N to the inverse of N modulo phi gives rho back. */
  lemma RootOfPower(rho: int, p: int, q: int)
    requires GoodPrimes(p, q) && p * q > 1 && IsUnit(rho, p * q) && Phi(p, q) > 1
    ensures ModInverse(p * q, Phi(p, q)) >= 0
    ensures Rem(Pow(Pow(rho, p * q), ModInverse(p * q, Phi(p, q))), p * q) == Rem(rho, p * q)
  {
    PhiUnit(p, q);
    var n, phi := p * q, Phi(p, q);
    InverseWorks(n, phi);
    hide Rem, IsUnit, Pow, ModInverse;
    var i := ModInverse(n, phi);
    var k := Quotient(n * i, phi);
    assert k >= 0 by { QuotientNonneg(n, i, k, phi); }
    PowPow(rho, n, i);
    assert n * i == phi * k + 1;
    PowAdd(rho, phi * k, 1);
    PowPow(rho, phi, k);
    Euler(rho, p, q);
    RemSmall(1, n);
    PowCong(Pow(rho, phi), 1, k, n);
    PowOne(k);
    PowSelf(rho);
    RemMulCong(Pow(rho, phi * k), 1, rho, rho, n);
    assert 1 * rho == rho;
  }

  lemma PowSelf(x: int)
    ensures Pow(x, 1) == x
  {
    assert Pow(x, 1) == x * Pow(x, 0);
  }

  lemma QuotientNonneg(n: int, i: int, k: int, phi: int)
    requires n > 1 && i >= 0 && phi > 1 && n * i == k * phi + 1
    ensures k >= 0
  {
    if k < 0 {
      MulMono(k, -1, phi);
      MulMono(0, i, n);
    }
  }

  /** DecWithRandomness: the plaintext and the nonce modulo N. */
  method DecWithRandomness(sk: SecretKey, c: int) returns (r: Result<(int, int)>)
    requires GoodSecret(sk)
    ensures r.Ok? <==> ValidCiphertext(sk.public, c)
    ensures forall m, rho :: Encrypts(c, sk.public.nNat, m, rho) ==>
        r == Ok((Symmetric(m, sk.public.nNat), Rem(rho, sk.public.nNat)))
  {
    hide Rem, IsUnit, Pow, ModInverse, Symmetric, Encrypts, PowI;
    var n := sk.public.nNat;
    var plain := Dec(sk, c);
    if plain.Err? {
      return Err(plain.error);
    }
    var mNeg := -plain.value;
    var x := ExpI(sk.public.n, sk.public.nPlusOne, mNeg);
    x := Rem(x * c, n);
    PhiUnit(sk.p, sk.q);
    assert ModInverse(n, sk.phi) >= 0 by { InverseWorks(n, sk.phi); }
    var nInverse := ModInverse(n, sk.phi);
    var nonce := Exp(sk.public.n, x, nInverse);
    PlusOneVanishes(mNeg, n);
    forall m, rho | Encrypts(c, n, m, rho) ensures nonce == Rem(rho, n) {
      CiphertextModN(c, n, m, rho);
      assert IsUnit(rho, n) by { NonceUnit(c, n, m, rho); }
      RemMulCong(PowI(n + 1, mNeg, n), 1, c, Pow(rho, n), n);
      assert 1 * Pow(rho, n) == Pow(rho, n);
      RemIdem(PowI(n + 1, mNeg, n) * c, n);
      PowCong(x, Pow(rho, n), nInverse, n);
      RootOfPower(rho, sk.p, sk.q);
    }
    r := Ok((plain.value, nonce));
  }

  lemma NonceUnit(c: int, n: int, m: int, rho: int)
    requires Encrypts(c, n, m, rho)
    ensures IsUnit(rho, n)
  {
  }

  /** (N+1)^e = 1 modulo N. */
  lemma PlusOneVanishes(e: int, n: int)
    requires n > 1
    ensures Rem(PowI(n + 1, e, n), n) == Rem(1, n)
  {
    hide Rem, IsUnit, Pow, ModInverse;
    var k := if e < 0 then -e else e;
    assert 1 + 1 * n == n + 1;
    RemShift(1, n, 1);
    RemSmall(1, n);
    PowCong(n + 1, 1, k, n);
    PowOne(k);
    RemIdem(Pow(n + 1, k), n);
    if e < 0 {
      assert 1 * 1 == 1;
      UnitFrom(1, 1, n);
      UnitCong(n + 1, 1, n);
      assert 1 * Pow(n + 1, k) == Pow(n + 1, k);
      PowIUnique(n + 1, e, n, 1);
      RemIdem(1, n);
    }
  }

  // ------------------------------------------------------- every valid ciphertext

  lemma InversePower(u: int, n: int, phi: int, i: int, k: int, m: int)
    requires m > 1 && phi > 1 && n > 0 && i >= 0 && n * i == k * phi + 1 && Rem(Pow(u, phi), m) == 1
    ensures Rem(Pow(Pow(u, i), n), m) == Rem(u, m)
  {
    hide Rem, Pow;
    assert k >= 0 by { NotNegative(k, phi, n, i); }
    PowPow(u, i, n);
    PowPow(u, phi, k);
    assert i * n == phi * k + 1;
    PowAdd(u, phi * k, 1);
    PowFirst(u);
    RemSmall(1, m);
    PowCong(Pow(u, phi), 1, k, m);
    PowOne(k);
    RemMulCong(Pow(u, phi * k), 1, u, u, m);
  }

  lemma NotNegative(k: int, phi: int, n: int, i: int)
    requires phi > 1 && n > 0 && i >= 0 && n * i == k * phi + 1
    ensures k >= 0
  {
    MulMono(0, i, n);
    if k < 0 {
      MulMono(k, -1, phi);
    }
  }

  lemma PowFirst(u: int)
    ensures Pow(u, 1) == u
  {
    assert Pow(u, 1) == u * Pow(u, 0);
  }

  /** A unit whose phi-th power is one is an n-th power. */
  lemma NthPower(u: int, n: int, phi: int, m: int) returns (rho: int)
    requires n > 1 && phi > 1 && m > 1 && IsUnit(n, phi) && IsUnit(u, m) && Rem(Pow(u, phi), m) == 1
    ensures IsUnit(rho, m) && Rem(Pow(rho, n), m) == Rem(u, m)
  {
    hide Rem, Pow, IsUnit, ModInverse;
    InverseWorks(n, phi);
    var i := ModInverse(n, phi);
    var k := Quotient(n * i, phi);
    rho := Pow(u, i);
    PowUnit(u, i, m);
    InversePower(u, n, phi, i, k, m);
  }

  /** Dividing out 1 + m*n leaves a number whose phi-th power is one. */
  lemma Unmasked(c: int, n: int, phi: nat, t: int, m: int)
    requires n > 1 && n * n > 1 && Rem(Pow(c, phi), n * n) == Rem(1 + t * n, n * n) && Rem(phi * m, n) == Rem(t, n)
    ensures Rem(Pow(c * (1 + (-m) * n), phi), n * n) == 1
  {
    hide Rem, Pow;
    var v := 1 + (-m) * n;
    PowProduct(c, v, phi);
    PowOnePlus(-m, n, phi);
    RemMulCong(Pow(c, phi), 1 + t * n, Pow(v, phi), 1 + (phi * (-m)) * n, n * n);
    OnePlusProduct(t, phi * (-m), n);
    CongDivides(t, phi * m, n);
    var k :| t - phi * m == k * n;
    Opposite(phi, m);
    assert t + phi * (-m) == n * k;
    MultipleVanishes(k, n);
  }

  lemma Opposite(a: int, b: int)
    ensures a * (-b) == -(a * b)
  {
  }

  lemma Reassemble(c: int, m: int, n: int, y: int)
    requires n > 1 && n * n > 1 && Rem(y, n * n) == Rem(c * (1 + (-m) * n), n * n)
    ensures Rem((1 + m * n) * y, n * n) == Rem(c, n * n)
  {
    hide Rem;
    var a, b := 1 + m * n, 1 + (-m) * n;
    RemMulCong(a, a, y, c * b, n * n);
    OnePlusProduct(m, -m, n);
    assert 1 + (m + -m) * n == 1;
    RemMulCong(a * b, 1, c, c, n * n);
    assert (a * b) * c == a * (c * b) by { Trade(a, b, c); }
  }

  lemma Trade(a: int, b: int, c: int)
    ensures (a * b) * c == a * (c * b)
  {
  }

  lemma PhiPower(c: int, p: int, q: int) returns (t: int)
    requires GoodPrimes(p, q) && p * q > 1 && IsUnit(c, (p * q) * (p * q))
    ensures Phi(p, q) > 1 && Pow(c, Phi(p, q)) == t * (p * q) + 1
  {
    hide Rem, Pow, IsUnit;
    var n := p * q;
    Square(n);
    PhiUnit(p, q);
    DividesWith(n, n * n, n);
    UnitFactor(c, n, n * n);
    Euler(c, p, q);
    t := Quotient(Pow(c, Phi(p, q)), n);
  }

  /** Every number that passes for a ciphertext encrypts something: encryption is onto the units. */
  lemma EveryUnitEncrypts(c: int, p: int, q: int) returns (m: int, rho: int)
    requires GoodPrimes(p, q) && p * q > 2 && IsUnit(c, (p * q) * (p * q)) && 0 <= c < (p * q) * (p * q)
    ensures Encrypts(c, p * q, m, rho)
  {
    hide Rem, Pow, IsUnit, ModInverse, Phi;
    var n, phi := p * q, Phi(p, q);
    Square(n);
    PhiUnit(p, q);
    var t := PhiPower(c, p, q);
    InverseWorks(phi, n);
    m := ModInverse(phi, n) * t;
    assert Rem(phi * m, n) == Rem(t, n) by {
      RemMulCong(phi * ModInverse(phi, n), 1, t, t, n) by { RemSmall(1, n); }
      MulAssoc(phi, ModInverse(phi, n), t);
    }
    assert Pow(c, phi) == 1 + t * n;
    Unmasked(c, n, phi, t, m);
    OnePlusUnit(-m, n);
    var u := c * (1 + (-m) * n);
    UnitMul(c, 1 + (-m) * n, n * n);
    rho := NthPower(u, n, phi, n * n);
    Reassemble(c, m, n, Pow(rho, n));
    RemSmall(c, n * n);
    DividesWith(n, n * n, n);
    UnitFactor(rho, n, n * n);
  }

  /** Decryption succeeds exactly for encryptions. */
  lemma ValidIff(sk: SecretKey, c: int)
    requires GoodSecret(sk)
    ensures ValidCiphertext(sk.public, c) <==> exists m, rho :: Encrypts(c, sk.public.nNat, m, rho)
  {
    hide Rem, Pow, IsUnit, Encrypts, ModInverse, Valid;
    if ValidCiphertext(sk.public, c) {
      var m, rho := EveryUnitEncrypts(c, sk.p, sk.q);
      assert Encrypts(c, sk.public.nNat, m, rho);
    }
    if m, rho :| Encrypts(c, sk.public.nNat, m, rho) {
      EncryptionValid(c, sk.public.nNat, m, rho);
    }
  }
}
