/** BIP-340 signatures ("Default Signing" and "Verification"). */
module Taproot {
  import opened Zq
  import opened Party
  import opened Curve

  type Message = seq<Byte>

  /** The tagged hash "BIP0340/challenge" as a scalar, an arbitrary function. */
  const TaggedChallenge: (XBytes, XBytes, Message) -> Scalar

  /** The 64 bytes of a signature: an x coordinate and a scalar. */
  datatype Signature = Signature(r: XBytes, s: Scalar)

  /** PublicKey.Verify. */
  predicate Verify(pk: XBytes, sig: Signature, m: Message) {
    match LiftX(pk)
    case None => false
    case Some(p) =>
      var e := TaggedChallenge(sig.r, pk, m);
      var check := Sub(ActOnBase(sig.s), Act(e, p));
      check != 0 && EvenY(check) && X(check) == sig.r
  }

  /** The signature equation, for the even-y nonce point R and the even-y key P. */
  lemma VerifyFromEquation(p: Point, r: Point, s: Scalar, m: Message)
    requires p != 0 && EvenY(p) && r != 0 && EvenY(r)
    requires ActOnBase(s) == Add(r, Act(TaggedChallenge(X(r), X(p), m), p))
    ensures Verify(X(p), Signature(X(r), s), m)
  {
    hide Mul;
    LiftXOfPoint(p);
    var ep := Act(TaggedChallenge(X(r), X(p), m), p);
    assert Sub(Add(r, ep), ep) == r;
  }

  /** The equation is also necessary: an accepted signature has it for the lifted points. */
  lemma EquationFromVerify(pk: XBytes, sig: Signature, m: Message)
    requires Verify(pk, sig, m)
    ensures LiftX(pk).Some? && LiftX(sig.r).Some?
    ensures ActOnBase(sig.s) == Add(LiftX(sig.r).value, Act(TaggedChallenge(sig.r, pk, m), LiftX(pk).value))
  {
    hide Mul;
    var p := LiftX(pk).value;
    var ep := Act(TaggedChallenge(sig.r, pk, m), p);
    var check := Sub(ActOnBase(sig.s), ep);
    LiftXOfPoint(check);
  }

  /** SecretKey.Public. */
  function PublicKey(sk: Scalar): (pk: XBytes)
    requires sk != 0
  {
    X(ActOnBase(sk))
  }

  lemma BaseNonzero(s: Scalar)
    requires s != 0
    ensures ActOnBase(s) != 0
  {
    if ActOnBase(s) == 0 {
      NoZeroDivisors(s, G);
    }
  }

  /** SecretKey.Sign with the derived nonce as a parameter: zero is refused, else it verifies. */
  method Sign(sk: Scalar, nonce: Scalar, m: Message) returns (r: Result<Signature>)
    ensures r.Ok? <==> sk != 0 && nonce != 0
    ensures r.Ok? ==> Verify(PublicKey(sk), r.value, m)
  {
    hide Mul;
    if sk == 0 {
      return Err("invalid secret key");
    }
    var d, k := sk, nonce;
    var P := ActOnBase(d);
    var PBytes := X(P);
    if !EvenY(P) {
      d := Neg(d);
    }
    if k == 0 {
      return Err("invalid nonce");
    }
    var R := ActOnBase(k);
    if !EvenY(R) {
      k := Neg(k);
    }
    BaseNonzero(sk);
    BaseNonzero(nonce);
    MulNeg(G, sk);
    MulNeg(G, nonce);
    var RBytes := X(R);
    var e := TaggedChallenge(RBytes, PBytes, m);
    var z := Add(Mul(e, d), k);
    Equation(e, d, k);
    VerifyFromEquation(ActOnBase(d), ActOnBase(k), z, m);
    return Ok(Signature(RBytes, z));
  }

  lemma Equation(e: Scalar, d: Scalar, k: Scalar)
    ensures ActOnBase(Add(Mul(e, d), k)) == Add(ActOnBase(k), Act(e, ActOnBase(d)))
  {
    hide Mul;
    MulAdd(G, Mul(e, d), k);
    MulAssoc(e, d, G);
  }

  /** An accepted signature is accepted for another message exactly when the two challenges are the same. */
  lemma BindsMessage(pk: XBytes, sig: Signature, m: Message, other: Message)
    requires Verify(pk, sig, m)
    ensures LiftX(pk).Some?
    ensures Verify(pk, sig, other) <==> TaggedChallenge(sig.r, pk, m) == TaggedChallenge(sig.r, pk, other)
  {
    hide Mul;
    if Verify(pk, sig, other) {
      EquationFromVerify(pk, sig, m);
      EquationFromVerify(pk, sig, other);
      var p, e, f := LiftX(pk).value, TaggedChallenge(sig.r, pk, m), TaggedChallenge(sig.r, pk, other);
      SameTerm(LiftX(sig.r).value, Act(e, p), Act(f, p));
      MulComm(e, p);
      MulComm(f, p);
      Cancel(p, e, f);
    }
  }

  lemma SameTerm(c: Scalar, a: Scalar, b: Scalar)
    ensures Add(c, a) == Add(c, b) <==> a == b
  {
  }
}
