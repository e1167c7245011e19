/** Two-party ECDSA: one message each way, three multiplications, and masked phi and sigma. */
module DoernerSign {
  import opened Zq
  import opened Party
  import opened Bits
  import opened Curve
  import opened CorrelatedOT
  import ExtendedOT
  import Multiplication
  import Schnorr
  import Ecdsa

  /** A fork of the session hash, and a scalar sampled after writing a point to it. */
  const Fork: (Context, string) -> Context
  const PointScalar: (Context, Point) -> Scalar

  datatype Message1R = Message1R(D: Point, mul0: ExtendedOT.Message, mul1: ExtendedOT.Message, mul2: ExtendedOT.Message)

  datatype Message1S = Message1S(rPrime: Point, rProof: Schnorr.Proof, mul0: Multiplication.Reply,
                                 mul1: Multiplication.Reply, mul2: Multiplication.Reply, muPhi: Scalar, muSig: Scalar)

  /** The three encodings' random bits and paddings. */
  datatype Coins = Coins(gamma0: Bytes, gamma1: Bytes, gamma2: Bytes, extra0: Bytes, extra1: Bytes, extra2: Bytes)

  predicate Fits(gamma: Bytes, extra: Bytes) {
    && |gamma| == Multiplication.NOISE_BYTES
    && 8 * (32 + Multiplication.NOISE_BYTES + |extra|) == ExtendedOT.AdjustBatchSize(Multiplication.GADGET_LEN)
  }

  predicate FitCoins(c: Coins) {
    Fits(c.gamma0, c.extra0) && Fits(c.gamma1, c.extra1) && Fits(c.gamma2, c.extra2)
  }

  // ---------------------------------------------------------------------- sender

  /** The sender's masked values, from its nonce, mask and product shares. */
  ghost predicate Masked(context: Context, public: Point, hash: seq<Byte>, D: Point, kA: Scalar, phi: Scalar,
                         tA1: Scalar, tA2: Scalar, muPhi: Scalar, muSig: Scalar) {
    var R := Act(kA, D);
    && muPhi == Add(PointScalar(context, Sub(Add(G, Act(phi, ActOnBase(kA))), Act(tA1, R))), phi)
    && muSig == Add(PointScalar(context, Sub(Act(tA1, public), ActOnBase(tA2))),
                    Add(Mul(Ecdsa.FromHash(hash), tA1), Mul(XScalar(R), tA2)))
  }

  /** round1S.Finalize: kAPrime, phi, the second alphas and the proof randomness are sampled. */
  method SenderRound1(context: Context, setup: SendSetup, share: Scalar, public: Point, hash: seq<Byte>,
                      msg: Message1R, kAPrime: Scalar, phi: Scalar, hats: (Scalar, Scalar, Scalar), a: Scalar)
    returns (r: Result<Message1S>, ghost t0: Scalar, ghost t1: Scalar, ghost t2: Scalar)
    requires |setup.kDelta| == OT_PARAM
    requires ExtendedOT.Shaped(msg.mul0) && ExtendedOT.Shaped(msg.mul1) && ExtendedOT.Shaped(msg.mul2)
    ensures var kA := Add(PointScalar(context, Act(kAPrime, msg.D)), kAPrime);
            && (r.Ok? <==> msg.D != 0 && kA != 0 && AllAccepted(context, setup, msg))
            && (r.Ok? ==> SentWith(context, setup, share, public, hash, msg, kAPrime, kA, phi, a, t0, t1, t2, r.value))
            && (r.Ok? ==>
                  var gamma1 := Sub(Add(G, Act(phi, ActOnBase(kA))), Act(t0, Act(kA, msg.D)));
                  r.value.muPhi == Add(PointScalar(context, gamma1), phi))
            && (r.Ok? ==>
                  var gamma2 := Sub(Act(t0, public), ActOnBase(Add(t1, t2)));
                  var sigA := Add(Mul(Ecdsa.FromHash(hash), t0), Mul(XScalar(Act(kA, msg.D)), Add(t1, t2)));
                  r.value.muSig == Add(PointScalar(context, gamma2), sigA))
  {
    hide ExtendedOT.Shaped, ExtendedOT.Accepted, Multiplication.Answers, Mul, Add, Inv, Sized;
    t0, t1, t2 := 0, 0, 0;
    if msg.D == 0 {
      return Err("invalid D point"), t0, t1, t2;
    }
    var rPrime := Act(kAPrime, msg.D);
    var kA := Add(PointScalar(context, rPrime), kAPrime);
    var R := Act(kA, msg.D);
    var rProof := Schnorr.NewProof(TranscriptOf(context), R, kA, msg.D, a);
    if rProof.None? {
      assert kA == 0 by {
        if kA != 0 { Schnorr.Completeness(TranscriptOf(context), kA, msg.D, a); }
      }
      return Err("nil response"), t0, t1, t2;
    }
    assert kA != 0;
    var kAInv := Inv(kA);
    var alpha1, alpha2 := Mul(share, kAInv), kAInv;
    var alpha0 := Add(kAInv, phi);
    var mul0 := Multiplication.SendRound1(Fork(context, "Multiply0"), setup, (alpha0, hats.0), msg.mul0);
    var mul1 := Multiplication.SendRound1(Fork(context, "Multiply1"), setup, (alpha1, hats.1), msg.mul1);
    var mul2 := Multiplication.SendRound1(Fork(context, "Multiply1"), setup, (alpha2, hats.2), msg.mul2);
    if mul0.Err? || mul1.Err? || mul2.Err? {
      return Err("multiply"), t0, t1, t2;
    }
    var tA1, tA2 := mul0.value.1, Add(mul1.value.1, mul2.value.1);
    t0, t1, t2 := tA1, mul1.value.1, mul2.value.1;
    var gamma1 := Sub(Add(G, Act(phi, ActOnBase(kA))), Act(tA1, R));
    var muPhi := Add(PointScalar(context, gamma1), phi);
    var sigA := Add(Mul(Ecdsa.FromHash(hash), tA1), Mul(XScalar(R), tA2));
    var gamma2 := Sub(Act(tA1, public), ActOnBase(tA2));
    var muSig := Add(PointScalar(context, gamma2), sigA);
    assert Masked(context, public, hash, msg.D, kA, phi, tA1, tA2, muPhi, muSig);
    r := Ok(Message1S(rPrime, rProof.value, mul0.value.0, mul1.value.0, mul2.value.0, muPhi, muSig));
  }

  ghost predicate AllAccepted(context: Context, setup: SendSetup, msg: Message1R)
    requires |setup.kDelta| == OT_PARAM
    requires ExtendedOT.Shaped(msg.mul0) && ExtendedOT.Shaped(msg.mul1) && ExtendedOT.Shaped(msg.mul2)
  {
    && ExtendedOT.Accepted(Fork(context, "Multiply0"), setup, Multiplication.GADGET_LEN, msg.mul0)
    && ExtendedOT.Accepted(Fork(context, "Multiply1"), setup, Multiplication.GADGET_LEN, msg.mul1)
    && ExtendedOT.Accepted(Fork(context, "Multiply1"), setup, Multiplication.GADGET_LEN, msg.mul2)
  }

  /** Everything in the sender's message, with its three product shares t0, t1 and t2. */
  ghost predicate SentWith(context: Context, setup: SendSetup, share: Scalar, public: Point, hash: seq<Byte>,
                           msg: Message1R, kAPrime: Scalar, kA: Scalar, phi: Scalar, a: Scalar,
                           t0: Scalar, t1: Scalar, t2: Scalar, sent: Message1S)
    requires |setup.kDelta| == OT_PARAM
    requires ExtendedOT.Shaped(msg.mul0) && ExtendedOT.Shaped(msg.mul1) && ExtendedOT.Shaped(msg.mul2)
    requires AllAccepted(context, setup, msg)
  {
    && sent.rPrime == Act(kAPrime, msg.D)
    && Schnorr.NewProof(TranscriptOf(context), Act(kA, msg.D), kA, msg.D, a) == Some(sent.rProof)
    && Multiplication.Answers(Fork(context, "Multiply0"), setup, Add(Inv(kA), phi), msg.mul0, sent.mul0, t0)
    && Multiplication.Answers(Fork(context, "Multiply1"), setup, Mul(share, Inv(kA)), msg.mul1, sent.mul1, t1)
    && Multiplication.Answers(Fork(context, "Multiply1"), setup, Inv(kA), msg.mul2, sent.mul2, t2)
    && Masked(context, public, hash, msg.D, kA, phi, t0, Add(t1, t2), sent.muPhi, sent.muSig)
  }

  // -------------------------------------------------------------------- receiver

  /** The signature the receiver computes from its product shares and the sender's message. */
  function Unmasked(context: Context, public: Point, hash: seq<Byte>, D: Point, kBInv: Scalar, rPrime: Point,
                    muPhi: Scalar, muSig: Scalar, tB1: Scalar, tB2: Scalar): (sig: Ecdsa.Signature)
    ensures sig.R == Add(Act(PointScalar(context, rPrime), D), rPrime)
  {
    var R := Add(Act(PointScalar(context, rPrime), D), rPrime);
    var phi := Add(Neg(PointScalar(context, Act(tB1, R))), muPhi);
    var theta := Add(Neg(Mul(phi, kBInv)), tB1);
    var sigB := Add(Mul(Ecdsa.FromHash(hash), theta), Mul(XScalar(R), tB2));
    var gamma2 := Sub(ActOnBase(tB2), Act(theta, public));
    Ecdsa.Signature(R, Sub(Add(sigB, muSig), PointScalar(context, gamma2)))
  }

  /** The receiver after its first round. */
  class Round2R {
    const context: Context
    const public: Point
    const hash: seq<Byte>
    const kBInv: Scalar
    const D: Point
    const multiply0: Multiplication.Receiver
    const multiply1: Multiplication.Receiver
    const multiply2: Multiplication.Receiver
    const sent: Message1R

    /** round1R.Finalize with nonce kB. */
    constructor (context: Context, setup: ReceiveSetup, share: Scalar, public: Point, hash: seq<Byte>,
                 kB: Scalar, c: Coins)
      requires FitCoins(c) && |setup.k0| == |setup.k1| == OT_PARAM
      ensures this.context == context && this.public == public && this.hash == hash
      ensures kBInv == Inv(kB) && D == sent.D == ActOnBase(kB)
      ensures Multiplication.Prepared(multiply0, Fork(context, "Multiply0"), setup, Inv(kB), c.extra0, sent.mul0)
      ensures Multiplication.Prepared(multiply1, Fork(context, "Multiply1"), setup, Inv(kB), c.extra1, sent.mul1)
      ensures Multiplication.Prepared(multiply2, Fork(context, "Multiply1"), setup, Mul(share, Inv(kB)), c.extra2, sent.mul2)
    {
      hide Multiplication.Prepared, Mul, Inv, ExtendedOT.AdjustBatchSize;
      var point := ActOnBase(kB);
      var inverse := Inv(kB);
      var m0, msg0 := Multiplication.Start(Fork(context, "Multiply0"), setup, inverse, c.gamma0, c.extra0);
      var m1, msg1 := Multiplication.Start(Fork(context, "Multiply1"), setup, inverse, c.gamma1, c.extra1);
      var m2, msg2 := Multiplication.Start(Fork(context, "Multiply1"), setup, Mul(share, inverse), c.gamma2, c.extra2);
      this.context, this.public, this.hash := context, public, hash;
      kBInv, D := inverse, point;
      multiply0, multiply1, multiply2 := m0, m1, m2;
      sent := Message1R(point, msg0, msg1, msg2);
    }

    /** round2R.Finalize on the sender's message. */
    method Finalize(msg: Message1S) returns (r: Result<Ecdsa.Signature>)
      requires Multiplication.Ready(multiply0) && Multiplication.Ready(multiply1) && Multiplication.Ready(multiply2)
      ensures r.Ok? ==> ChecksPass(this, msg) && Ecdsa.Verify(r.value, public, hash)
      ensures r.Ok? ==> Schnorr.Verify(TranscriptOf(context), msg.rProof, r.value.R, D)
      ensures ChecksPass(this, msg) ==>
              exists t0, t1, t2 ::
                && ShareOf(multiply0, msg.mul0, t0) && ShareOf(multiply1, msg.mul1, t1)
                && ShareOf(multiply2, msg.mul2, t2)
                && var sig := Unmasked(context, public, hash, D, kBInv, msg.rPrime, msg.muPhi, msg.muSig, t0, Add(t1, t2));
                   r == if Ecdsa.Verify(sig, public, hash) then Ok(sig) else Err("failed to verify signature")
    {
      hide Multiplication.Passes, Multiplication.ShareIs, Add, Mul, Schnorr.Verify, Ecdsa.Verify, Unmasked;
      var R := Add(Act(PointScalar(context, msg.rPrime), D), msg.rPrime);
      if !Schnorr.Verify(TranscriptOf(context), msg.rProof, R, D) {
        return Err("failed to verify schnorr proof");
      }
      var tB1 := multiply0.Round2(msg.mul0);
      var tB21 := multiply1.Round2(msg.mul1);
      var tB22 := multiply2.Round2(msg.mul2);
      if tB1.Err? || tB21.Err? || tB22.Err? {
        return Err("multiply receive round 2: integrity check failed");
      }
      assert ShareOf(multiply0, msg.mul0, tB1.value) && ShareOf(multiply1, msg.mul1, tB21.value)
          && ShareOf(multiply2, msg.mul2, tB22.value);
      var sig := Unmasked(context, public, hash, D, kBInv, msg.rPrime, msg.muPhi, msg.muSig,
                          tB1.value, Add(tB21.value, tB22.value));
      if !Ecdsa.Verify(sig, public, hash) {
        return Err("failed to verify signature");
      }
      return Ok(sig);
    }
  }

  ghost predicate ProofOk(context: Context, D: Point, msg: Message1S) {
    Schnorr.Verify(TranscriptOf(context), msg.rProof, Add(Act(PointScalar(context, msg.rPrime), D), msg.rPrime), D)
  }

  ghost predicate PassesAll(m: Multiplication.Receiver, reply: Multiplication.Reply)
    requires Multiplication.Ready(m)
    reads m.receiver
  {
    Multiplication.Passes(m.receiver.pads, m.choices, Multiplication.ChiPair(m.receiver.context), reply)
  }

  /** The proof of the nonce point and the checks of the three products. */
  ghost predicate ChecksPass(r: Round2R, msg: Message1S)
    requires Multiplication.Ready(r.multiply0) && Multiplication.Ready(r.multiply1) && Multiplication.Ready(r.multiply2)
    reads r.multiply0.receiver, r.multiply1.receiver, r.multiply2.receiver
  {
    && ProofOk(r.context, r.D, msg)
    && PassesAll(r.multiply0, msg.mul0) && PassesAll(r.multiply1, msg.mul1) && PassesAll(r.multiply2, msg.mul2)
  }

  ghost predicate ShareOf(m: Multiplication.Receiver, reply: Multiplication.Reply, t: Scalar)
    requires Multiplication.Ready(m)
    reads m.receiver
  {
    Multiplication.ShareIs(m.receiver.pads, m.choices, m.gadget, reply, t)
  }

  // --------------------------------------------------------------------- algebra

  /** Both sides compute the same Gamma1, so the receiver recovers phi. */
  lemma SameGamma1(kA: Scalar, kB: Scalar, phi: Scalar, tA1: Scalar, tB1: Scalar)
    requires kA != 0 && kB != 0 && Add(tB1, tA1) == Mul(Add(Inv(kA), phi), Inv(kB))
    ensures var R := Act(kA, ActOnBase(kB));
            Act(tB1, R) == Sub(Add(G, Act(phi, ActOnBase(kA))), Act(tA1, R))
  {
    hide Red, Inv;
    var R := Act(kA, ActOnBase(kB));
    var c := Add(Inv(kA), phi);
    MulAdd(R, tB1, tA1);
    assert Act(Mul(c, Inv(kB)), R) == Add(G, Act(phi, ActOnBase(kA))) by {
      hide Add;
      MulAssoc(c, Inv(kB), R);
      MulSwap(Inv(kB), kA, ActOnBase(kB));
      DivMul(kB, G);
      assert Mul(Inv(kB), R) == ActOnBase(kA);
      MulAdd(ActOnBase(kA), Inv(kA), phi);
      DivMul(kA, G);
    }
  }

  /** The shares of 1/k: the sender's tA1 and the receiver's theta. */
  lemma InverseShares(ia: Scalar, ib: Scalar, phi: Scalar, tA1: Scalar, tB1: Scalar)
    requires Add(tB1, tA1) == Mul(Add(ia, phi), ib)
    ensures Add(Add(Neg(Mul(phi, ib)), tB1), tA1) == Mul(ia, ib)
  {
    hide Red;
    MulAdd(ib, ia, phi);
  }

  /** The shares of x/k. */
  lemma KeyShares(ia: Scalar, ib: Scalar, skA: Scalar, skB: Scalar, t1: Scalar, t2: Scalar, u1: Scalar, u2: Scalar)
    requires Add(u1, t1) == Mul(Mul(skA, ia), ib) && Add(u2, t2) == Mul(ia, Mul(skB, ib))
    ensures Add(Add(u1, u2), Add(t1, t2)) == Mul(Mul(ia, ib), Add(skA, skB))
  {
    hide Add, Mul;
    AddSwap(u1, u2, t1, t2);
    MulAdd(Mul(ia, ib), skA, skB);
    MulAssoc(skA, ia, ib);
    MulComm(skA, Mul(ia, ib));
    MulSwap(ia, skB, ib);
    MulComm(skB, Mul(ia, ib));
  }

  /** Both sides compute the same Gamma2, so the receiver recovers the sender's half of sigma. */
  lemma SameGamma2(w: Scalar, x: Scalar, tA1: Scalar, theta: Scalar, tA2: Scalar, tB2: Scalar)
    requires Add(theta, tA1) == w && Add(tB2, tA2) == Mul(w, x)
    ensures var public := ActOnBase(x);
            Sub(ActOnBase(tB2), Act(theta, public)) == Sub(Act(tA1, public), ActOnBase(tA2))
  {
    hide Red;
    var public := ActOnBase(x);
    MulAdd(public, theta, tA1);
    MulAdd(G, tB2, tA2);
    MulAssoc(w, x, G);
  }

  /** The two halves of sigma add up to (m + r*x) / k. */
  lemma SigmaAdds(w: Scalar, x: Scalar, m: Scalar, r: Scalar, tA1: Scalar, theta: Scalar, tA2: Scalar, tB2: Scalar)
    requires Add(theta, tA1) == w && Add(tB2, tA2) == Mul(w, x)
    ensures Add(Add(Mul(m, theta), Mul(r, tB2)), Add(Mul(m, tA1), Mul(r, tA2))) == Mul(w, Add(m, Mul(r, x)))
  {
    hide Add, Mul;
    AddSwap(Mul(m, theta), Mul(r, tB2), Mul(m, tA1), Mul(r, tA2));
    MulAdd(m, theta, tA1);
    MulAdd(r, tB2, tA2);
    MulAdd(w, m, Mul(r, x));
    MulComm(w, m);
    MulSwap(r, w, x);
  }

  lemma InverseOfProduct(kA: Scalar, kB: Scalar)
    requires kA != 0 && kB != 0
    ensures forall e :: Mul(Mul(Mul(Inv(kA), Inv(kB)), e), Mul(kA, kB)) == e
  {
    hide Red, Inv;
    forall e ensures Mul(Mul(Mul(Inv(kA), Inv(kB)), e), Mul(kA, kB)) == e {
      var w := Mul(Inv(kA), Inv(kB));
      MulComm(Mul(w, e), Mul(kA, kB));
      MulAssoc(kA, kB, Mul(w, e));
      MulAssoc(Inv(kA), Inv(kB), e);
      MulSwap(kB, Inv(kA), Mul(Inv(kB), e));
      DivMul(kB, e);
      DivMul(kA, e);
    }
  }

  lemma Unmasking(h: Scalar, v: Scalar)
    ensures Add(Neg(h), Add(h, v)) == v
  {
  }

  lemma UnmaskingSum(b: Scalar, h: Scalar, v: Scalar)
    ensures Sub(Add(b, Add(h, v)), h) == Add(b, v)
  {
  }

  /** The signature of a run: R = kA*kB*G and s = (m + r*x) / (kA*kB). */
  ghost function Expected(kA: Scalar, kB: Scalar, x: Scalar, hash: seq<Byte>): Ecdsa.Signature {
    var R := Act(kA, ActOnBase(kB));
    Ecdsa.Signature(R, Mul(Mul(Inv(kA), Inv(kB)), Add(Ecdsa.FromHash(hash), Mul(XScalar(R), x))))
  }

  /** From the three products, unmasking gives exactly the expected signature. */
  lemma UnmaskedIsExpected(context: Context, hash: seq<Byte>, kAPrime: Scalar, kA: Scalar, kB: Scalar, phi: Scalar,
                           skA: Scalar, skB: Scalar, t0: Scalar, t1: Scalar, t2: Scalar,
                           u0: Scalar, u1: Scalar, u2: Scalar, muPhi: Scalar, muSig: Scalar)
    requires kA != 0 && kB != 0
    requires kA == Add(PointScalar(context, Act(kAPrime, ActOnBase(kB))), kAPrime)
    requires Masked(context, ActOnBase(Add(skA, skB)), hash, ActOnBase(kB), kA, phi, t0, Add(t1, t2), muPhi, muSig)
    requires Add(u0, t0) == Mul(Add(Inv(kA), phi), Inv(kB))
    requires Add(u1, t1) == Mul(Mul(skA, Inv(kA)), Inv(kB))
    requires Add(u2, t2) == Mul(Inv(kA), Mul(skB, Inv(kB)))
    ensures Unmasked(context, ActOnBase(Add(skA, skB)), hash, ActOnBase(kB), Inv(kB), Act(kAPrime, ActOnBase(kB)),
                     muPhi, muSig, u0, Add(u1, u2)) == Expected(kA, kB, Add(skA, skB), hash)
  {
    hide Mul, Add, Inv, XScalar;
    var D := ActOnBase(kB);
    var R := Act(kA, D);
    var x := Add(skA, skB);
    var public := ActOnBase(x);
    var w := Mul(Inv(kA), Inv(kB));
    MulAdd(D, PointScalar(context, Act(kAPrime, D)), kAPrime);
    SameGamma1(kA, kB, phi, t0, u0);
    Unmasking(PointScalar(context, Act(u0, R)), phi);
    var theta := Add(Neg(Mul(phi, Inv(kB))), u0);
    InverseShares(Inv(kA), Inv(kB), phi, t0, u0);
    KeyShares(Inv(kA), Inv(kB), skA, skB, t1, t2, u1, u2);
    var tA2, tB2 := Add(t1, t2), Add(u1, u2);
    SameGamma2(w, x, t0, theta, tA2, tB2);
    var m, r := Ecdsa.FromHash(hash), XScalar(R);
    SigmaAdds(w, x, m, r, t0, theta, tA2, tB2);
    UnmaskingSum(Add(Mul(m, theta), Mul(r, tB2)), PointScalar(context, Sub(Act(t0, public), ActOnBase(tA2))),
                 Add(Mul(m, t0), Mul(r, tA2)));
  }

  /** The expected signature verifies exactly when r and s are not zero. */
  lemma ExpectedVerifies(kA: Scalar, kB: Scalar, x: Scalar, hash: seq<Byte>)
    requires kA != 0 && kB != 0
    ensures var sig := Expected(kA, kB, x, hash);
            Ecdsa.Verify(sig, ActOnBase(x), hash) <==> XScalar(sig.R) != 0 && sig.s != 0
  {
    hide Mul, Add, Inv, Ecdsa.Verify, XScalar;
    var sig := Expected(kA, kB, x, hash);
    MulAssoc(kA, kB, G);
    Ecdsa.VerifyIff(sig, Mul(kA, kB), x, hash);
    InverseOfProduct(kA, kB);
  }

  // --------------------------------------------------------------------- one run

  /** The nonces are not zero, and the proof of the nonce point is not degenerate. */
  ghost predicate GoodNonces(context: Context, kAPrime: Scalar, kB: Scalar, a: Scalar) {
    var kA := NonceA(context, kAPrime, kB);
    && kB != 0 && kA != 0 && a != 0
    && var proof := Schnorr.NewProof(TranscriptOf(context), Act(kA, ActOnBase(kB)), kA, ActOnBase(kB), a);
       proof.Some? ==> proof.value.response != 0
  }

  /** The sender's nonce, derived from what it sampled. */
  function NonceA(context: Context, kAPrime: Scalar, kB: Scalar): (kA: Scalar) {
    Add(PointScalar(context, Act(kAPrime, ActOnBase(kB))), kAPrime)
  }

  lemma BaseZero(kB: Scalar)
    ensures ActOnBase(kB) == 0 <==> kB == 0
  {
    MulZero(G);
    BaseInjective(kB, 0);
  }

  /** The receiver accepts the sender's proof exactly when it is not degenerate. */
  lemma ProofAccepted(context: Context, kAPrime: Scalar, kB: Scalar, a: Scalar, msg: Message1S)
    requires kB != 0 && NonceA(context, kAPrime, kB) != 0 && msg.rPrime == Act(kAPrime, ActOnBase(kB))
    requires var kA := NonceA(context, kAPrime, kB);
             Schnorr.NewProof(TranscriptOf(context), Act(kA, ActOnBase(kB)), kA, ActOnBase(kB), a) == Some(msg.rProof)
    ensures ProofOk(context, ActOnBase(kB), msg) <==> GoodNonces(context, kAPrime, kB, a)
  {
    var D := ActOnBase(kB);
    BaseZero(kB);
    Schnorr.Completeness(TranscriptOf(context), NonceA(context, kAPrime, kB), D, a);
    hide Schnorr.Verify, Schnorr.NewProof;
    MulAdd(D, PointScalar(context, Act(kAPrime, D)), kAPrime);
  }

  /**
    A whole honest run, for all shares, nonces, masks, coins and messages: the receiver outputs the expected
    signature, accepted for the joint key, exactly when the nonces are good and r and s are not zero.
   */
  method Sign(context: Context, s: SendSetup, r: ReceiveSetup, skA: Scalar, skB: Scalar, hash: seq<Byte>,
              kB: Scalar, c: Coins, kAPrime: Scalar, phi: Scalar, hats: (Scalar, Scalar, Scalar), a: Scalar)
    returns (sig: Result<Ecdsa.Signature>)
    requires Correlated(s, r) && FitCoins(c)
    ensures var expected := Expected(NonceA(context, kAPrime, kB), kB, Add(skA, skB), hash);
            && (sig.Ok? <==> GoodNonces(context, kAPrime, kB, a) && XScalar(expected.R) != 0 && expected.s != 0)
            && (sig.Ok? ==> sig.value == expected && Ecdsa.Verify(expected, ActOnBase(Add(skA, skB)), hash))
  {
    hide Add, Mul, Inv, XScalar, Ecdsa.Verify, Schnorr.Verify, Schnorr.NewProof, Multiplication.Prepared,
      Multiplication.Answers, Multiplication.Passes, Multiplication.ShareIs, Multiplication.Ready, Masked, Unmasked,
      ExtendedOT.Accepted, ExtendedOT.Shaped, Sized, Expected, ProofOk;
    var public := ActOnBase(Add(skA, skB));
    ghost var kA := NonceA(context, kAPrime, kB);
    var receiver := new Round2R(context, r, skB, public, hash, kB, c);
    var msg := receiver.sent;
    Multiplication.MessageAccepted(receiver.multiply0, Fork(context, "Multiply0"), s, r, Inv(kB), c.extra0, msg.mul0);
    Multiplication.MessageAccepted(receiver.multiply1, Fork(context, "Multiply1"), s, r, Inv(kB), c.extra1, msg.mul1);
    Multiplication.MessageAccepted(receiver.multiply2, Fork(context, "Multiply1"), s, r, Mul(skB, Inv(kB)), c.extra2,
                                   msg.mul2);
    BaseZero(kB);
    var reply, t0, t1, t2 := SenderRound1(context, s, skA, public, hash, msg, kAPrime, phi, hats, a);
    if reply.Err? {
      return Err(reply.error);
    }
    var sent := reply.value;
    Multiplication.ReplyCompletes(receiver.multiply0, Fork(context, "Multiply0"), s, r, Inv(kB), c.extra0, msg.mul0,
                                  Add(Inv(kA), phi), sent.mul0, t0);
    Multiplication.ReplyCompletes(receiver.multiply1, Fork(context, "Multiply1"), s, r, Inv(kB), c.extra1, msg.mul1,
                                  Mul(skA, Inv(kA)), sent.mul1, t1);
    Multiplication.ReplyCompletes(receiver.multiply2, Fork(context, "Multiply1"), s, r, Mul(skB, Inv(kB)), c.extra2,
                                  msg.mul2, Inv(kA), sent.mul2, t2);
    ProofAccepted(context, kAPrime, kB, a, sent);
    sig := receiver.Finalize(sent);
    if ChecksPass(receiver, sent) {
      ghost var u0: Scalar, u1: Scalar, u2: Scalar :|
        && ShareOf(receiver.multiply0, sent.mul0, u0) && ShareOf(receiver.multiply1, sent.mul1, u1)
        && ShareOf(receiver.multiply2, sent.mul2, u2)
        && var out := Unmasked(context, public, hash, msg.D, Inv(kB), sent.rPrime, sent.muPhi, sent.muSig, u0, Add(u1, u2));
           sig == if Ecdsa.Verify(out, public, hash) then Ok(out) else Err("failed to verify signature");
      UnmaskedIsExpected(context, hash, kAPrime, kA, kB, phi, skA, skB, t0, t1, t2, u0, u1, u2, sent.muPhi, sent.muSig);
      ExpectedVerifies(kA, kB, Add(skA, skB), hash);
    }
  }
}
