/** Multiplicative-to-additive conversion: one encrypted product, masked, and no wrap-around. */
module Mta {
  import opened Residues
  import opened Zq
  import opened Party
  import opened Encoding
  import opened Paillier

  const L_PRIME := 1280
  const BITS_PAILLIER := 2048

  /** A number of exactly BITS_PAILLIER bits. */
  predicate Long(n: int) {
    Pow2(BITS_PAILLIER - 1) <= n < Pow2(BITS_PAILLIER)
  }

  ghost predicate LongKey(pk: PublicKey) {
    GoodPublic(pk) && Long(pk.nNat)
  }

  /** A sample of IntervalLPrime. */
  predicate InLPrime(b: int) {
    0 - Pow2(L_PRIME) < b < Pow2(L_PRIME)
  }

  lemma {:induction false} Pow2Grows(a: nat, b: nat)
    requires a <= b
    ensures Pow2(a) <= Pow2(b)
  {
    if a < b {
      Pow2Grows(a, b - 1);
    }
  }

  lemma Pow2Next(a: nat)
    ensures Pow2(a + 1) == 2 * Pow2(a)
  {
  }

  lemma ScalarProduct(a: Scalar, b: Scalar, half: nat)
    requires half == 256
    ensures 0 <= a * b < Pow2(half + half)
  {
    hide Pow2;
    Pow2Order(8);
    Pow2Add(half, half);
    var t := Pow2(half);
    assert a < t && b < t;
    MulMono(0, a, b);
    MulMono(a, t - 1, b);
    MulMono(b, t - 1, t - 1);
    assert b * (t - 1) == (t - 1) * b;
    assert (t - 1) * (t - 1) < t * t;
  }

  /** The parameter sizes leave room: a*b plus any mask stays within half of the modulus. */
  lemma NoWrap(a: Scalar, b: Scalar, betaNeg: int, n: int)
    requires InLPrime(betaNeg) && Long(n) && n % 2 == 1
    ensures -((n - 1) / 2) <= a * b + betaNeg <= (n - 1) / 2
    ensures -((n - 1) / 2) <= betaNeg <= (n - 1) / 2
  {
    hide Pow2;
    ScalarProduct(a, b, 256);
    Pow2Grows(512, L_PRIME);
    Pow2Next(L_PRIME);
    Pow2Grows(L_PRIME + 1, BITS_PAILLIER - 2);
    Pow2Next(BITS_PAILLIER - 2);
  }

  /** Scalars can be encrypted. */
  lemma ScalarInRange(a: Scalar, n: int)
    requires Long(n) && n % 2 == 1
    ensures a <= (n - 1) / 2
  {
    hide Pow2;
    Pow2Order(8);
    Pow2Grows(256, BITS_PAILLIER - 2);
    Pow2Next(BITS_PAILLIER - 2);
  }

  /** newMta: D encrypts a*b - beta under the receiver's key, F encrypts -beta under the sender's. */
  method NewMta(a: int, share: Ciphertext, sender: PublicKey, receiver: PublicKey, betaNeg: int, s: int, r: int)
    returns (D: Ciphertext, F: Ciphertext)
    requires LongKey(sender) && LongKey(receiver) && InLPrime(betaNeg)
    requires IsUnit(s, receiver.nNat) && IsUnit(r, sender.nNat)
    ensures fresh(D) && fresh(F) && Encrypts(F.c, sender.nNat, betaNeg, r)
    ensures forall b, rho :: Encrypts(share.c, receiver.nNat, b, rho) ==>
        Encrypts(D.c, receiver.nNat, betaNeg + a * b, s * ScaledNonce(rho, a, receiver.nSquared.n))
  {
    hide IsUnit, Encrypts, ScaledNonce, GoodPublic, InLPrime, Long;
    OddKey(sender);
    OddKey(receiver);
    NoWrap(0, 0, betaNeg, sender.nNat);
    NoWrap(0, 0, betaNeg, receiver.nNat);
    assert 0 * 0 + betaNeg == betaNeg;
    var f := EncWithNonce(sender, betaNeg, r);
    F := new Ciphertext(f.value);
    var d := EncWithNonce(receiver, betaNeg, s);
    D := new Ciphertext(d.value);
    var tmp := share.Clone();
    tmp.Mul(receiver, a);
    ghost var product, mask := tmp.c, D.c;
    assert Encrypts(mask, receiver.nNat, betaNeg, s);
    D.Add(receiver, tmp);
    forall b, rho | Encrypts(share.c, receiver.nNat, b, rho)
      ensures Encrypts(D.c, receiver.nNat, betaNeg + a * b, s * ScaledNonce(rho, a, receiver.nSquared.n))
    {
      assert Encrypts(product, receiver.nNat, a * b, ScaledNonce(rho, a, receiver.nSquared.n));
    }
  }

  lemma OddKey(pk: PublicKey)
    requires GoodPublic(pk)
    ensures pk.nNat % 2 == 1 && pk.nSquared.n > 0
  {
  }

  /** One conversion: over the integers, what the receiver decrypts and what the sender keeps add up to a*b. */
  method Convert(a: Scalar, b: Scalar, share: Ciphertext, sender: PublicKey, receiver: SecretKey,
                 betaNeg: int, s: int, r: int, ghost rho: int)
    returns (alpha: Result<int>, beta: int)
    requires LongKey(sender) && GoodSecret(receiver) && LongKey(receiver.public) && InLPrime(betaNeg)
    requires IsUnit(s, receiver.public.nNat) && IsUnit(r, sender.nNat)
    requires Encrypts(share.c, receiver.public.nNat, b, rho)
    ensures alpha.Ok? && alpha.value + beta == a * b
  {
    hide IsUnit, Encrypts, ScaledNonce, GoodSecret, Symmetric, InLPrime, Long, GoodPublic;
    var D, F := NewMta(a, share, sender, receiver.public, betaNeg, s, r);
    beta := -betaNeg;
    alpha := Dec(receiver, D.c);
    var n := receiver.public.nNat;
    OddKey(receiver.public);
    NoWrap(a, b, betaNeg, n);
    SymmetricIs(betaNeg + a * b, n);
  }
}
