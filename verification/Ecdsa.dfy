/** ECDSA signatures that carry the whole nonce point. */
module Ecdsa {
  import opened Zq
  import opened Party
  import opened Curve

  datatype Signature = Signature(R: Point, s: Scalar)

  /** FromHash: an arbitrary function from message hashes to scalars. */
  const FromHash: seq<Byte> -> Scalar

  predicate Verify(sig: Signature, public: Point, hash: seq<Byte>) {
    var r := XScalar(sig.R);
    && r != 0 && sig.s != 0
    && Act(Inv(sig.s), Add(ActOnBase(FromHash(hash)), Act(r, public))) == sig.R
  }

  /** Verification is the signing equation s*k = m + r*x in the exponent. */
  lemma VerifyIff(sig: Signature, k: Scalar, x: Scalar, hash: seq<Byte>)
    requires sig.R == ActOnBase(k)
    ensures Verify(sig, ActOnBase(x), hash) <==>
            XScalar(sig.R) != 0 && sig.s != 0 && Mul(sig.s, k) == Add(FromHash(hash), Mul(XScalar(sig.R), x))
  {
    hide Red, Add, Inv;
    var r, m := XScalar(sig.R), FromHash(hash);
    if sig.s != 0 {
      var e := Add(m, Mul(r, x));
      MulAssoc(r, x, G);
      MulAdd(G, m, Mul(r, x));
      assert Add(ActOnBase(m), Act(r, ActOnBase(x))) == ActOnBase(e);
      MulAssoc(Inv(sig.s), e, G);
      BaseInjective(Mul(Inv(sig.s), e), k);
      DivMul(sig.s, k);
      DivMul(sig.s, e);
    }
  }

  /** An accepted signature is accepted for another hash exactly when both hashes are the same scalar. */
  lemma BindsHash(sig: Signature, public: Point, hash: seq<Byte>, other: seq<Byte>)
    requires Verify(sig, public, hash)
    ensures Verify(sig, public, other) <==> FromHash(hash) == FromHash(other)
  {
    hide Mul, Inv;
    var r, a, b := XScalar(sig.R), ActOnBase(FromHash(hash)), ActOnBase(FromHash(other));
    if Verify(sig, public, other) {
      DivMul(sig.s, Add(a, Act(r, public)));
      DivMul(sig.s, Add(b, Act(r, public)));
      SameSummand(a, b, Act(r, public));
      BaseInjective(FromHash(hash), FromHash(other));
    }
  }

  lemma SameSummand(a: Scalar, b: Scalar, c: Scalar)
    ensures Add(a, c) == Add(b, c) <==> a == b
  {
  }
}
