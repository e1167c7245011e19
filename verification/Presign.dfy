/** CMP presigning: the two consistency checks, the signature from a presignature, and blame. */
module Presign {
  import opened Zq
  import opened Party
  import opened Curve
  import Ecdsa

  datatype PreSignature = PreSignature(R: Point, rBar: map<ID, Point>, S: map<ID, Point>,
                                       kShare: Scalar, chiShare: Scalar)

  /** The values of a map in the order of ids. */
  function Listed(m: map<ID, Scalar>, ids: seq<ID>): (r: seq<Scalar>)
    requires forall id :: id in ids ==> id in m
    ensures |r| == |ids| && forall i :: 0 <= i < |ids| ==> r[i] == m[ids[i]]
  {
    seq(|ids|, i requires 0 <= i < |ids| => m[ids[i]])
  }

  /** A loop over a map that adds up its values; ids is the order of the iteration. */
  method SumOver(m: map<ID, Scalar>, ids: seq<ID>) returns (r: Scalar)
    requires forall id :: id in ids ==> id in m
    ensures r == Sum(Listed(m, ids))
  {
    hide Add;
    r := 0;
    ghost var all := Listed(m, ids);
    for i := 0 to |ids|
      invariant r == Sum(all[..i])
    {
      SumStep(all, i);
      r := Add(r, m[ids[i]]);
    }
    SumAll(all);
  }

  // --------------------------------------------------------------- rounds 6 and 7

  /** presign6.Finalize: None where the source goes on to identify who broke the delta check. */
  method Finalize6(ids: seq<ID>, deltas: map<ID, Scalar>, bigDeltas: map<ID, Point>, Gamma: Point)
    returns (r: Option<(Point, map<ID, Point>)>)
    requires forall id :: id in ids ==> id in deltas && id in bigDeltas
    ensures r.Some? <==> ActOnBase(Sum(Listed(deltas, ids))) == Sum(Listed(bigDeltas, ids))
    ensures r.Some? ==>
        var inverse := Inv(Sum(Listed(deltas, ids)));
        && r.value.0 == Act(inverse, Gamma) && r.value.1.Keys == IdSet(ids)
        && forall id :: id in ids ==> r.value.1[id] == Act(inverse, bigDeltas[id])
  {
    hide Mul, Inv, Sum;
    var delta := SumOver(deltas, ids);
    var deltaInv := Inv(delta);
    var R := Act(deltaInv, Gamma);
    var expected := ActOnBase(delta);
    var actual := SumOver(bigDeltas, ids);
    if actual != expected {
      return None;
    }
    var rBar: map<ID, Point> := map[];
    for i := 0 to |ids|
      invariant rBar.Keys == IdSet(ids[..i])
      invariant forall t :: 0 <= t < i ==> rBar[ids[t]] == Act(deltaInv, bigDeltas[ids[t]])
    {
      rBar := rBar[ids[i] := Act(deltaInv, bigDeltas[ids[i]])];
    }
    assert ids[..|ids|] == ids;
    return Some((R, rBar));
  }

  /** presign7.Finalize: None where the source goes on to identify who broke the check of the S shares. */
  method Finalize7(ids: seq<ID>, R: Point, rBar: map<ID, Point>, S: map<ID, Point>, public: Point,
                   kShare: Scalar, chiShare: Scalar)
    returns (r: Option<PreSignature>)
    requires forall id :: id in ids ==> id in S
    ensures r.Some? <==> Sum(Listed(S, ids)) == public
    ensures r.Some? ==> r.value == PreSignature(R, rBar, S, kShare, chiShare)
  {
    var computed := SumOver(S, ids);
    if public != computed {
      return None;
    }
    return Some(PreSignature(R, rBar, S, kShare, chiShare));
  }

  // ------------------------------------------------------------------- signatures

  /** SignatureShare: k_i * m + r * chi_i */
  function SignatureShare(pre: PreSignature, hash: seq<Byte>): (s: Scalar) {
    Add(Mul(Ecdsa.FromHash(hash), pre.kShare), Mul(XScalar(pre.R), pre.chiShare))
  }

  /** What the public data says about the share of one party. */
  predicate ShareOk(pre: PreSignature, id: ID, share: Scalar, hash: seq<Byte>) {
    && id in pre.rBar && id in pre.S
    && Act(share, pre.R) == Add(Act(Ecdsa.FromHash(hash), pre.rBar[id]), Act(XScalar(pre.R), pre.S[id]))
  }

  /** VerifySignatureShares names exactly the parties whose share is not what the public data says. */
  method VerifySignatureShares(pre: PreSignature, ids: seq<ID>, shares: map<ID, Scalar>, hash: seq<Byte>)
    returns (culprits: seq<ID>)
    requires forall id :: id in ids ==> id in shares
    ensures forall id :: id in culprits <==> id in ids && !ShareOk(pre, id, shares[id], hash)
  {
    hide ShareOk;
    culprits := [];
    for i := 0 to |ids|
      invariant forall id :: id in culprits <==> id in ids[..i] && !ShareOk(pre, id, shares[id], hash)
    {
      if !ShareOk(pre, ids[i], shares[ids[i]], hash) {
        culprits := culprits + [ids[i]];
      }
    }
    assert ids[..|ids|] == ids;
  }

  datatype Outcome = Signed(sig: Ecdsa.Signature) | Blamed(culprits: seq<ID>)

  /** sign2.Finalize: the signature, or the parties to blame. */
  method Finish(pre: PreSignature, ids: seq<ID>, shares: map<ID, Scalar>, public: Point, hash: seq<Byte>)
    returns (o: Outcome)
    requires forall id :: id in ids ==> id in shares
    ensures var sig := Ecdsa.Signature(pre.R, Sum(Listed(shares, ids)));
            if Ecdsa.Verify(sig, public, hash) then o == Signed(sig)
            else o.Blamed? && forall id :: id in o.culprits <==> id in ids && !ShareOk(pre, id, shares[id], hash)
  {
    hide ShareOk, Ecdsa.Verify, Sum;
    var s := SumOver(shares, ids);
    var sig := Ecdsa.Signature(pre.R, s);
    if Ecdsa.Verify(sig, public, hash) {
      return Signed(sig);
    }
    var culprits := VerifySignatureShares(pre, ids, shares, hash);
    return Blamed(culprits);
  }

  // ------------------------------------------------------------------------ blame

  /** A presignature that came out of both checks, from some deltas, bigDeltas and Gamma. */
  ghost predicate Checked(pre: PreSignature, ids: seq<ID>, delta: Scalar, bigDeltas: map<ID, Point>, Gamma: Point,
                          public: Point) {
    && (forall id :: id in ids ==> id in pre.rBar && id in pre.S && id in bigDeltas)
    && pre.R == Act(Inv(delta), Gamma)
    && (forall id :: id in ids ==> pre.rBar[id] == Act(Inv(delta), bigDeltas[id]))
    && ActOnBase(delta) == Sum(Listed(bigDeltas, ids)) && Sum(Listed(pre.S, ids)) == public
  }

  /** The delta check makes the RBar shares add up to the base point. */
  lemma RBarSum(pre: PreSignature, ids: seq<ID>, delta: Scalar, bigDeltas: map<ID, Point>, Gamma: Point, public: Point)
    requires Checked(pre, ids, delta, bigDeltas, Gamma, public) && delta != 0
    ensures Sum(Listed(pre.rBar, ids)) == G
  {
    hide Mul, Inv, Add;
    SumScale(Inv(delta), Listed(bigDeltas, ids), Listed(pre.rBar, ids));
    DivMul(delta, G);
  }

  /** A delta of zero makes R the identity, and r zero. */
  lemma ZeroDelta(pre: PreSignature, ids: seq<ID>, delta: Scalar, bigDeltas: map<ID, Point>, Gamma: Point, public: Point)
    requires Checked(pre, ids, delta, bigDeltas, Gamma, public) && XScalar(pre.R) != 0
    ensures delta != 0
  {
    hide Mul, Add, Sum;
    InvZero();
    MulZero(Gamma);
  }

  lemma InvZero()
    ensures Inv(0) == 0
  {
  }

  /** When every share passes, the sum satisfies the verification equation. */
  lemma SumEquation(pre: PreSignature, ids: seq<ID>, shares: map<ID, Scalar>, delta: Scalar, bigDeltas: map<ID, Point>,
                    Gamma: Point, public: Point, hash: seq<Byte>)
    requires Checked(pre, ids, delta, bigDeltas, Gamma, public) && delta != 0
    requires forall id :: id in ids ==> id in shares && ShareOk(pre, id, shares[id], hash)
    ensures Act(Sum(Listed(shares, ids)), pre.R) ==
            Add(ActOnBase(Ecdsa.FromHash(hash)), Act(XScalar(pre.R), public))
  {
    hide Mul, Inv, Add, XScalar;
    var m, r, n := Ecdsa.FromHash(hash), XScalar(pre.R), |ids|;
    var sigma, rb, ss := Listed(shares, ids), Listed(pre.rBar, ids), Listed(pre.S, ids);
    var left := seq(n, i requires 0 <= i < n => Mul(pre.R, sigma[i]));
    var a := seq(n, i requires 0 <= i < n => Mul(m, rb[i]));
    var b := seq(n, i requires 0 <= i < n => Mul(r, ss[i]));
    forall i | 0 <= i < n ensures left[i] == Add(a[i], b[i]) {
      assert ShareOk(pre, ids[i], shares[ids[i]], hash);
      MulComm(pre.R, sigma[i]);
    }
    SumAdd(a, b, left);
    SumScale(pre.R, sigma, left);
    SumScale(m, rb, a);
    SumScale(r, ss, b);
    RBarSum(pre, ids, delta, bigDeltas, Gamma, public);
    MulComm(pre.R, Sum(sigma));
  }

  /** Blame is complete: a signature that fails although r and s are not zero has a share that fails. */
  lemma SomebodyBlamed(pre: PreSignature, ids: seq<ID>, shares: map<ID, Scalar>, delta: Scalar, bigDeltas: map<ID, Point>,
                       Gamma: Point, public: Point, hash: seq<Byte>)
    requires Checked(pre, ids, delta, bigDeltas, Gamma, public) && forall id :: id in ids ==> id in shares
    requires XScalar(pre.R) != 0 && Sum(Listed(shares, ids)) != 0
    requires !Ecdsa.Verify(Ecdsa.Signature(pre.R, Sum(Listed(shares, ids))), public, hash)
    ensures exists id :: id in ids && !ShareOk(pre, id, shares[id], hash)
  {
    hide Mul, Inv, Add, XScalar, ShareOk, Sum;
    ZeroDelta(pre, ids, delta, bigDeltas, Gamma, public);
    if forall id :: id in ids ==> ShareOk(pre, id, shares[id], hash) {
      SumEquation(pre, ids, shares, delta, bigDeltas, Gamma, public, hash);
      DivMul(Sum(Listed(shares, ids)), pre.R);
      assert false;
    }
  }

  /** When every share passes, the signature verifies exactly when r and s are not zero. */
  lemma NobodyBlamed(pre: PreSignature, ids: seq<ID>, shares: map<ID, Scalar>, delta: Scalar, bigDeltas: map<ID, Point>,
                     Gamma: Point, public: Point, hash: seq<Byte>)
    requires Checked(pre, ids, delta, bigDeltas, Gamma, public) && forall id :: id in ids ==> id in shares
    requires forall id :: id in ids ==> ShareOk(pre, id, shares[id], hash)
    ensures Ecdsa.Verify(Ecdsa.Signature(pre.R, Sum(Listed(shares, ids))), public, hash) <==>
            XScalar(pre.R) != 0 && Sum(Listed(shares, ids)) != 0
  {
    hide Mul, Inv, Add, XScalar, ShareOk, Sum;
    if XScalar(pre.R) != 0 && Sum(Listed(shares, ids)) != 0 {
      ZeroDelta(pre, ids, delta, bigDeltas, Gamma, public);
      SumEquation(pre, ids, shares, delta, bigDeltas, Gamma, public, hash);
      DivMul(Sum(Listed(shares, ids)), pre.R);
    }
  }

  /** Blame is sound: the share of a party that followed the protocol always passes, whatever the others did. */
  lemma HonestNotBlamed(pre: PreSignature, ids: seq<ID>, delta: Scalar, bigDeltas: map<ID, Point>, Gamma: Point,
                        public: Point, id: ID, k: Scalar, chi: Scalar, hash: seq<Byte>)
    requires Checked(pre, ids, delta, bigDeltas, Gamma, public) && id in ids
    requires bigDeltas[id] == Act(k, Gamma) && pre.S[id] == Act(chi, pre.R)
    ensures ShareOk(pre, id, SignatureShare(pre.(kShare := k, chiShare := chi), hash), hash)
  {
    hide Mul, Inv, Add, XScalar, Sum;
    var m, r := Ecdsa.FromHash(hash), XScalar(pre.R);
    MulAdd(pre.R, Mul(m, k), Mul(r, chi));
    MulAssoc(r, chi, pre.R);
    MulAssoc(m, k, pre.R);
    MulSwap(Inv(delta), k, Gamma);
  }

  /** Party id sent what the protocol says, for some k and chi of its own. */
  ghost predicate Followed(pre: PreSignature, bigDeltas: map<ID, Point>, Gamma: Point, id: ID, share: Scalar,
                           hash: seq<Byte>) {
    && id in bigDeltas && id in pre.S
    && exists k: Scalar, chi: Scalar ::
         && bigDeltas[id] == Act(k, Gamma) && pre.S[id] == Act(chi, pre.R)
         && share == SignatureShare(pre.(kShare := k, chiShare := chi), hash)
  }

  /** The presignature that rounds 6 and 7 make of what all parties sent. */
  ghost function PreOf(ids: seq<ID>, deltas: map<ID, Scalar>, bigDeltas: map<ID, Point>, Gamma: Point,
                       S: map<ID, Point>, kShare: Scalar, chiShare: Scalar): PreSignature
    requires forall id :: id in ids ==> id in deltas && id in bigDeltas
  {
    var inverse := Inv(Sum(Listed(deltas, ids)));
    PreSignature(Act(inverse, Gamma), map id | id in IdSet(ids) :: Act(inverse, bigDeltas[id]), S, kShare, chiShare)
  }

  /** Where a run stops: at the check of round 6, at the check of round 7, or with the outcome of signing. */
  datatype Stage = DeltaCheck | ShareCheck | Signing(outcome: Outcome)

  /**
    From the broadcasts of round 6 to the end, whatever the parties sent. Both checks passed, the run ends with
    a signature that verifies or with blame. Nobody is blamed exactly when every share passes and r or s is zero,
    and a party that followed the protocol never is.
   */
  method PresignAndSign(ids: seq<ID>, deltas: map<ID, Scalar>, bigDeltas: map<ID, Point>, Gamma: Point,
                        S: map<ID, Point>, public: Point, kShare: Scalar, chiShare: Scalar,
                        shares: map<ID, Scalar>, hash: seq<Byte>)
    returns (r: Stage)
    requires forall id :: id in ids ==> id in deltas && id in bigDeltas && id in S && id in shares
    ensures r.DeltaCheck? <==> ActOnBase(Sum(Listed(deltas, ids))) != Sum(Listed(bigDeltas, ids))
    ensures r.ShareCheck? <==> !r.DeltaCheck? && Sum(Listed(S, ids)) != public
    ensures r.Signing? && r.outcome.Signed? ==> Ecdsa.Verify(r.outcome.sig, public, hash)
    ensures var pre := PreOf(ids, deltas, bigDeltas, Gamma, S, kShare, chiShare);
            r.Signing? && r.outcome.Blamed? ==>
              && (r.outcome.culprits == [] <==>
                    && (forall id :: id in ids ==> ShareOk(pre, id, shares[id], hash))
                    && (XScalar(pre.R) == 0 || Sum(Listed(shares, ids)) == 0))
              && (forall id :: id in r.outcome.culprits ==>
                    id in ids && !Followed(pre, bigDeltas, Gamma, id, shares[id], hash))
  {
    hide Mul, Inv, Add, XScalar, ShareOk, Sum, Ecdsa.Verify, SignatureShare, Followed;
    var sixth := Finalize6(ids, deltas, bigDeltas, Gamma);
    if sixth.None? {
      return DeltaCheck;
    }
    var R, rBar := sixth.value.0, sixth.value.1;
    var seventh := Finalize7(ids, R, rBar, S, public, kShare, chiShare);
    if seventh.None? {
      return ShareCheck;
    }
    var pre := seventh.value;
    ghost var delta := Sum(Listed(deltas, ids));
    assert pre == PreOf(ids, deltas, bigDeltas, Gamma, S, kShare, chiShare) by {
      assert rBar == map id | id in IdSet(ids) :: Act(Inv(delta), bigDeltas[id]);
    }
    assert Checked(pre, ids, delta, bigDeltas, Gamma, public);
    hide Checked, PreOf;
    var o := Finish(pre, ids, shares, public, hash);
    if o.Blamed? {
      BlameIs(pre, ids, shares, delta, bigDeltas, Gamma, public, hash, o.culprits);
    }
    return Signing(o);
  }

  /** Who is blamed when the signature does not verify. */
  lemma BlameIs(pre: PreSignature, ids: seq<ID>, shares: map<ID, Scalar>, delta: Scalar, bigDeltas: map<ID, Point>,
                Gamma: Point, public: Point, hash: seq<Byte>, culprits: seq<ID>)
    requires Checked(pre, ids, delta, bigDeltas, Gamma, public) && forall id :: id in ids ==> id in shares
    requires !Ecdsa.Verify(Ecdsa.Signature(pre.R, Sum(Listed(shares, ids))), public, hash)
    requires forall id :: id in culprits <==> id in ids && !ShareOk(pre, id, shares[id], hash)
    ensures culprits == [] <==>
            && (forall id :: id in ids ==> ShareOk(pre, id, shares[id], hash))
            && (XScalar(pre.R) == 0 || Sum(Listed(shares, ids)) == 0)
    ensures forall id :: id in culprits ==> !Followed(pre, bigDeltas, Gamma, id, shares[id], hash)
  {
    hide Mul, Inv, Add, XScalar, ShareOk, Sum, Ecdsa.Verify, Followed, Checked;
    if culprits == [] {
      forall id | id in ids ensures ShareOk(pre, id, shares[id], hash) {
        assert id !in culprits;
      }
      NobodyBlamed(pre, ids, shares, delta, bigDeltas, Gamma, public, hash);
    } else {
      assert culprits[0] in culprits;
    }
    forall id | id in culprits ensures !Followed(pre, bigDeltas, Gamma, id, shares[id], hash) {
      NotFollowed(pre, ids, shares, delta, bigDeltas, Gamma, public, id, hash);
    }
  }

  /** What honest signers with shares k of the nonce and chi of k*x send, where R is already known. */
  ghost predicate Honest(ids: seq<ID>, k: map<ID, Scalar>, chi: map<ID, Scalar>, gamma: Scalar, x: Scalar,
                         deltas: map<ID, Scalar>, bigDeltas: map<ID, Point>, S: map<ID, Point>) {
    && (forall id :: id in ids ==> id in k && id in chi && id in deltas && id in bigDeltas && id in S)
    && Sum(Listed(k, ids)) != 0 && gamma != 0
    && Sum(Listed(deltas, ids)) == Mul(Sum(Listed(k, ids)), gamma)
    && Sum(Listed(chi, ids)) == Mul(Sum(Listed(k, ids)), x)
    && (forall id :: id in ids ==> bigDeltas[id] == Act(k[id], ActOnBase(gamma)))
    && forall id :: id in ids ==> S[id] == Act(chi[id], Act(Inv(Sum(Listed(deltas, ids))), ActOnBase(gamma)))
  }

  ghost predicate HonestShares(pre: PreSignature, ids: seq<ID>, k: map<ID, Scalar>, chi: map<ID, Scalar>,
                               shares: map<ID, Scalar>, hash: seq<Byte>) {
    forall id :: id in ids ==>
      id in k && id in chi && id in shares &&
      shares[id] == SignatureShare(pre.(kShare := k[id], chiShare := chi[id]), hash)
  }

  /** R of an honest run is not the identity, and k times it is the base point. */
  lemma HonestNonce(kk: Scalar, gamma: Scalar)
    requires kk != 0 && gamma != 0
    ensures var R := Act(Inv(Mul(kk, gamma)), ActOnBase(gamma));
            Mul(kk, gamma) != 0 && Act(kk, R) == G && R != 0
  {
    if Mul(kk, gamma) == 0 {
      NoZeroDivisors(kk, gamma);
    }
    hide Mul, Inv;
    var delta := Mul(kk, gamma);
    var R := Act(Inv(delta), ActOnBase(gamma));
    MulSwap(kk, Inv(delta), ActOnBase(gamma));
    MulAssoc(kk, gamma, G);
    DivMul(delta, G);
    MulZero(kk);
  }

  /** Honest signers pass both checks. */
  lemma HonestChecked(ids: seq<ID>, k: map<ID, Scalar>, chi: map<ID, Scalar>, gamma: Scalar, x: Scalar,
                      deltas: map<ID, Scalar>, bigDeltas: map<ID, Point>, S: map<ID, Point>)
    requires Honest(ids, k, chi, gamma, x, deltas, bigDeltas, S)
    ensures var pre := PreOf(ids, deltas, bigDeltas, ActOnBase(gamma), S, 0, 0);
            pre.R != 0 && Checked(pre, ids, Sum(Listed(deltas, ids)), bigDeltas, ActOnBase(gamma), ActOnBase(x))
  {
    hide Mul, Inv, Add, Sum;
    var kk, Gamma := Sum(Listed(k, ids)), ActOnBase(gamma);
    var pre := PreOf(ids, deltas, bigDeltas, Gamma, S, 0, 0);
    HonestNonce(kk, gamma);
    ScaledSum(k, bigDeltas, ids, Gamma);
    MulAssoc(kk, gamma, G);
    ScaledSum(chi, S, ids, pre.R);
    MulComm(kk, x);
    MulAssoc(x, kk, pre.R);
  }

  lemma ScaledSum(m: map<ID, Scalar>, scaled: map<ID, Point>, ids: seq<ID>, p: Point)
    requires forall id :: id in ids ==> id in m && id in scaled && scaled[id] == Act(m[id], p)
    ensures Sum(Listed(scaled, ids)) == Act(Sum(Listed(m, ids)), p)
  {
    hide Mul, Sum;
    var a, b := Listed(m, ids), Listed(scaled, ids);
    forall i | 0 <= i < |ids| ensures b[i] == Mul(p, a[i]) {
      assert ids[i] in ids;
      MulComm(p, a[i]);
    }
    SumScale(p, a, b);
    MulComm(p, Sum(a));
  }

  /**
    Nobody to blame: any number of signers that all follow the protocol, with a nonce point that is not the
    identity, end with a signature that fails when m + r*x is zero, because s is zero.
   */
  lemma NobodyToBlame(ids: seq<ID>, k: map<ID, Scalar>, chi: map<ID, Scalar>, gamma: Scalar, x: Scalar,
                      deltas: map<ID, Scalar>, bigDeltas: map<ID, Point>, S: map<ID, Point>,
                      shares: map<ID, Scalar>, hash: seq<Byte>)
    requires Honest(ids, k, chi, gamma, x, deltas, bigDeltas, S)
    requires HonestShares(PreOf(ids, deltas, bigDeltas, ActOnBase(gamma), S, 0, 0), ids, k, chi, shares, hash)
    requires var pre := PreOf(ids, deltas, bigDeltas, ActOnBase(gamma), S, 0, 0);
             Add(Ecdsa.FromHash(hash), Mul(XScalar(pre.R), x)) == 0
    ensures var pre, Gamma := PreOf(ids, deltas, bigDeltas, ActOnBase(gamma), S, 0, 0), ActOnBase(gamma);
            && pre.R != 0 && Checked(pre, ids, Sum(Listed(deltas, ids)), bigDeltas, Gamma, ActOnBase(x))
            && (forall id :: id in ids ==>
                  ShareOk(pre, id, shares[id], hash) && Followed(pre, bigDeltas, Gamma, id, shares[id], hash))
            && Sum(Listed(shares, ids)) == 0
            && !Ecdsa.Verify(Ecdsa.Signature(pre.R, Sum(Listed(shares, ids))), ActOnBase(x), hash)
  {
    var Gamma, delta := ActOnBase(gamma), Sum(Listed(deltas, ids));
    var pre := PreOf(ids, deltas, bigDeltas, Gamma, S, 0, 0);
    HonestChecked(ids, k, chi, gamma, x, deltas, bigDeltas, S);
    HonestNonce(Sum(Listed(k, ids)), gamma);
    hide Mul, Inv, Add, Sum, XScalar, ShareOk, Checked, SignatureShare;
    forall id | id in ids
      ensures ShareOk(pre, id, shares[id], hash) && Followed(pre, bigDeltas, Gamma, id, shares[id], hash)
    {
      HonestNotBlamed(pre, ids, delta, bigDeltas, Gamma, ActOnBase(x), id, k[id], chi[id], hash);
    }
    SumEquation(pre, ids, shares, delta, bigDeltas, Gamma, ActOnBase(x), hash);
    var m, r := Ecdsa.FromHash(hash), XScalar(pre.R);
    MulAssoc(r, x, G);
    MulAdd(G, m, Mul(r, x));
    MulZero(G);
    NoZeroDivisors(Sum(Listed(shares, ids)), pre.R);
  }

  lemma NotFollowed(pre: PreSignature, ids: seq<ID>, shares: map<ID, Scalar>, delta: Scalar, bigDeltas: map<ID, Point>,
                    Gamma: Point, public: Point, id: ID, hash: seq<Byte>)
    requires Checked(pre, ids, delta, bigDeltas, Gamma, public) && id in ids && id in shares
    requires !ShareOk(pre, id, shares[id], hash)
    ensures !Followed(pre, bigDeltas, Gamma, id, shares[id], hash)
  {
    hide Mul, Inv, Add, XScalar, ShareOk, Sum, SignatureShare;
    forall k: Scalar, chi: Scalar | bigDeltas[id] == Act(k, Gamma) && pre.S[id] == Act(chi, pre.R)
      ensures shares[id] != SignatureShare(pre.(kShare := k, chiShare := chi), hash)
    {
      HonestNotBlamed(pre, ids, delta, bigDeltas, Gamma, public, id, k, chi, hash);
    }
  }
}
