/**
  FROST key generation and refresh (Figure 1 of eprint 2020/852) from the point of view of one
  honest party. Commitments and shares of the other parties are arbitrary.
 */
module FrostKeygen {
  import opened Zq
  import opened Polynomials
  import opened Party
  import opened Exponents
  import opened Lagrange
  import opened Curve
  import Schnorr

  datatype Config = Config(
    id: ID, threshold: nat, privateShare: Scalar, publicKey: Point, chainKey: seq<Byte>,
    verificationShares: map<ID, Point>)

  datatype TaprootConfig = TaprootConfig(
    id: ID, threshold: nat, privateShare: Scalar, publicKey: XBytes, chainKey: seq<Byte>,
    verificationShares: map<ID, Point>)

  datatype KeygenResult = Plain(config: Config) | Taproot(tconfig: TaprootConfig)

  /** What the rounds know from their peers; the rest is fixed when the session starts. */
  datatype Round = Round1 | Round2 | Round3(phi: map<ID, Exponent>, commitments: map<ID, seq<Byte>>)

  ghost predicate GoodIDs(ids: seq<ID>) {
    && (forall i, j :: 0 <= i < j < |ids| ==> ids[i] != ids[j])
    && GoodPoints(Points(ids))
  }

  /** F is the one polynomial of degree at most t, in the exponent, behind every share. */
  ghost predicate Holds(id: ID, t: nat, share: Scalar, pk: Point, vs: map<ID, Point>, ids: seq<ID>, F: seq<Point>) {
    && |F| == t + 1
    && pk == Eval(F, 0)
    && vs.Keys == IdSet(ids)
    && (forall k :: k in ids ==> vs[k] == Eval(F, ScalarOf(k)))
    && ActOnBase(share) == Eval(F, ScalarOf(id))
  }

  ghost predicate Consistent(c: Config, ids: seq<ID>, F: seq<Point>) {
    Holds(c.id, c.threshold, c.privateShare, c.publicKey, c.verificationShares, ids, F)
  }

  /** A Taproot configuration: the lifted public key is the even-y value of F at zero. */
  ghost predicate TaprootConsistent(c: TaprootConfig, ids: seq<ID>, F: seq<Point>) {
    && LiftX(c.publicKey).Some?
    && Holds(c.id, c.threshold, c.privateShare, LiftX(c.publicKey).value, c.verificationShares, ids, F)
  }

  // ------------------------------------------------------------ joint polynomial

  ghost function AddPoly(a: seq<Point>, b: seq<Point>): (c: seq<Point>)
    requires |a| == |b|
    ensures |c| == |a| && forall i :: 0 <= i < |c| ==> c[i] == Add(a[i], b[i])
  {
    seq(|a|, i requires 0 <= i < |a| => Add(a[i], b[i]))
  }

  /** The prior polynomial plus everything that was committed to. */
  ghost function Joint(prior: seq<Point>, ps: seq<Exponent>): (F: seq<Point>)
    requires forall j :: 0 <= j < |ps| ==> |Full(ps[j])| == |prior|
    ensures |F| == |prior|
  {
    if |ps| == 0 then prior else AddPoly(Joint(prior, ps[..|ps| - 1]), Full(ps[|ps| - 1]))
  }

  lemma {:induction false} JointValue(prior: seq<Point>, ps: seq<Exponent>, x: Scalar)
    requires forall j :: 0 <= j < |ps| ==> |Full(ps[j])| == |prior|
    ensures Eval(Joint(prior, ps), x) == Add(Eval(prior, x), Sum(Values(ps, x)))
  {
    hide Mul;
    if |ps| != 0 {
      var n := |ps| - 1;
      JointValue(prior, ps[..n], x);
      assert Values(ps, x)[..n] == Values(ps[..n], x);
      EvalAdd(Joint(prior, ps[..n]), Full(ps[n]), Joint(prior, ps), x);
      AddAssoc(Eval(prior, x), Sum(Values(ps[..n], x)), Eval(Full(ps[n]), x));
    }
  }

  function Commitments(phi: map<ID, Exponent>, ids: seq<ID>): (ps: seq<Exponent>)
    requires forall k :: k in ids ==> k in phi
    ensures |ps| == |ids| && forall i :: 0 <= i < |ids| ==> ps[i] == phi[ids[i]]
  {
    seq(|ids|, i requires 0 <= i < |ids| => phi[ids[i]])
  }

  /** The shape every commitment must share for the sum of commitments to exist. */
  ghost predicate AllOneShape(phi: map<ID, Exponent>, self: ID) {
    self in phi && forall k :: k in phi ==> SameShape(phi[self], phi[k])
  }

  ghost predicate WellFormed(e: Exponent) {
    e.isConstant || |e.coefficients| > 0
  }

  // ------------------------------------------------------------ loops over parties

  function Lookup(m: map<ID, Scalar>, ids: seq<ID>): (r: seq<Scalar>)
    requires forall k :: k in ids ==> k in m
    ensures |r| == |ids| && forall i :: 0 <= i < |ids| ==> r[i] == m[ids[i]]
  {
    seq(|ids|, i requires 0 <= i < |ids| => m[ids[i]])
  }

  method SumShares(start: Scalar, shares: map<ID, Scalar>, ids: seq<ID>) returns (r: Scalar)
    requires forall k :: k in ids ==> k in shares
    ensures r == Add(start, Sum(Lookup(shares, ids)))
  {
    ghost var s := Lookup(shares, ids);
    r := start;
    for i := 0 to |ids|
      invariant r == Add(start, Sum(s[..i]))
    {
      SumStep(s, i);
      AddAssoc(start, Sum(s[..i]), s[i]);
      r := Add(r, shares[ids[i]]);
    }
    SumAll(s);
  }

  method SumConstants(start: Point, phi: map<ID, Exponent>, ids: seq<ID>) returns (r: Point)
    requires forall k :: k in ids ==> k in phi && WellFormed(phi[k])
    ensures r == Add(start, Sum(Values(Commitments(phi, ids), 0)))
  {
    ghost var vs := Values(Commitments(phi, ids), 0);
    r := start;
    for i := 0 to |ids|
      invariant r == Add(start, Sum(vs[..i]))
    {
      ConstantIsValueAtZero(phi[ids[i]]);
      SumStep(vs, i);
      AddAssoc(start, Sum(vs[..i]), vs[i]);
      r := Add(r, Constant(phi[ids[i]]));
    }
    SumAll(vs);
  }

  method ShiftVerificationShares(vs: map<ID, Point>, sum: Exponent, ids: seq<ID>) returns (r: map<ID, Point>)
    requires forall i, j :: 0 <= i < j < |ids| ==> ids[i] != ids[j]
    requires vs.Keys == IdSet(ids)
    ensures r.Keys == vs.Keys
    ensures forall k :: k in ids ==> r[k] == Add(vs[k], Eval(Full(sum), ScalarOf(k)))
  {
    hide Mul, Add, Eval, Full;
    r := vs;
    for i := 0 to |ids|
      invariant r.Keys == vs.Keys
      invariant forall j :: i <= j < |ids| ==> r[ids[j]] == vs[ids[j]]
      invariant forall j :: 0 <= j < i ==> r[ids[j]] == Add(vs[ids[j]], Eval(Full(sum), ScalarOf(ids[j])))
    {
      var k := ids[i];
      var v := Evaluate(sum, ScalarOf(k));
      r := r[k := Add(r[k], v)];
    }
  }

  method EvaluateForAll(f: seq<Scalar>, ids: seq<ID>) returns (shares: map<ID, Scalar>)
    requires GoodIDs(ids)
    ensures shares.Keys == IdSet(ids)
    ensures forall k :: k in ids ==> shares[k] == Eval(f, ScalarOf(k))
  {
    hide Mul, Eval;
    shares := map[];
    for i := 0 to |ids|
      invariant shares.Keys == IdSet(ids[..i])
      invariant forall j :: 0 <= j < i ==> shares[ids[j]] == Eval(f, ScalarOf(ids[j]))
    {
      assert Points(ids)[i] != 0;
      var share := EvaluatePolynomial(f, ScalarOf(ids[i]));
      shares := shares[ids[i] := share];
      assert ids[..i + 1] == ids[..i] + [ids[i]];
    }
    assert ids[..|ids|] == ids;
  }

  /** Shares that pass the VSS check open the sum of the commitments. */
  lemma SharesOpen(shares: map<ID, Scalar>, phi: map<ID, Exponent>, ids: seq<ID>, x: Scalar)
    requires forall k :: k in ids ==> k in shares && k in phi && ActOnBase(shares[k]) == Eval(Full(phi[k]), x)
    ensures ActOnBase(Sum(Lookup(shares, ids))) == Sum(Values(Commitments(phi, ids), x))
  {
    hide Mul, Eval, Full;
    var s, vs := Lookup(shares, ids), Values(Commitments(phi, ids), x);
    forall i | 0 <= i < |ids| ensures vs[i] == Mul(G, s[i]) {
      assert ids[i] in ids;
      MulComm(G, s[i]);
    }
    SumScale(G, s, vs);
    MulComm(G, Sum(s));
  }

  lemma SumHolds(
      id: ID, t: nat, share: Scalar, pk: Point, vs: map<ID, Point>, ids: seq<ID>, prior: seq<Point>,
      shares: map<ID, Scalar>, phi: map<ID, Exponent>, vs': map<ID, Point>)
    requires Holds(id, t, share, pk, vs, ids, prior)
    requires OneLength(phi, ids, prior) && forall k :: k in ids ==> k in shares
    requires forall k :: k in ids ==> ActOnBase(shares[k]) == Eval(Full(phi[k]), ScalarOf(id))
    requires vs'.Keys == vs.Keys
    requires forall k :: k in ids ==> vs'[k] == Add(vs[k], Sum(Values(Commitments(phi, ids), ScalarOf(k))))
    ensures Holds(id, t, Add(share, Sum(Lookup(shares, ids))), Add(pk, Sum(Values(Commitments(phi, ids), 0))),
                  vs', ids, Outcome(phi, ids, prior))
  {
    hide Mul, Add, Eval, Full, Joint;
    var ps := Commitments(phi, ids);
    JointValue(prior, ps, 0);
    JointValue(prior, ps, ScalarOf(id));
    SharesOpen(shares, phi, ids, ScalarOf(id));
    MulAdd(G, share, Sum(Lookup(shares, ids)));
    forall k | k in ids ensures vs'[k] == Eval(Joint(prior, ps), ScalarOf(k)) {
      JointValue(prior, ps, ScalarOf(k));
    }
  }

  /** Verification shares with the values of all commitments added to them. */
  ghost function Moved(vs: map<ID, Point>, ps: seq<Exponent>): (r: map<ID, Point>)
    ensures r.Keys == vs.Keys && forall k :: k in vs ==> r[k] == Add(vs[k], Sum(Values(ps, ScalarOf(k))))
  {
    map k | k in vs :: Add(vs[k], Sum(Values(ps, ScalarOf(k))))
  }

  /** The share, the public key and the verification shares with everything received added to them. */
  ghost function Added(share: Scalar, pk: Point, vs: map<ID, Point>, ids: seq<ID>, shares: map<ID, Scalar>,
                       phi: map<ID, Exponent>): (Scalar, Point, map<ID, Point>)
    requires forall k :: k in ids ==> k in shares && k in phi
  {
    var ps := Commitments(phi, ids);
    (Add(share, Sum(Lookup(shares, ids))), Add(pk, Sum(Values(ps, 0))), Moved(vs, ps))
  }

  lemma AddedIs(share: Scalar, pk: Point, vs: map<ID, Point>, ids: seq<ID>, shares: map<ID, Scalar>,
                phi: map<ID, Exponent>, vs': map<ID, Point>)
    requires vs.Keys == vs'.Keys == IdSet(ids) && forall k :: k in ids ==> k in shares && k in phi
    requires forall k :: k in ids ==> vs'[k] == Add(vs[k], Sum(Values(Commitments(phi, ids), ScalarOf(k))))
    ensures Added(share, pk, vs, ids, shares, phi) ==
            (Add(share, Sum(Lookup(shares, ids))), Add(pk, Sum(Values(Commitments(phi, ids), 0))), vs')
  {
    hide Add, Values, Moved, Sum;
    assert vs' == Moved(vs, Commitments(phi, ids));
  }

  /** Shares that opened their commitments leave the sums behind one polynomial, if all shapes agree. */
  lemma AddedHolds(
      id: ID, t: nat, share: Scalar, pk: Point, vs: map<ID, Point>, ids: seq<ID>, prior: seq<Point>,
      shares: map<ID, Scalar>, phi: map<ID, Exponent>)
    requires Holds(id, t, share, pk, vs, ids, prior) && AllOneShape(phi, id) && |Full(phi[id])| == t + 1
    requires forall k :: k in ids ==> k in shares && k in phi
    requires forall k :: k in ids ==> ActOnBase(shares[k]) == Eval(Full(phi[k]), ScalarOf(id))
    ensures OneLength(phi, ids, prior)
    ensures var added := Added(share, pk, vs, ids, shares, phi);
            Holds(id, t, added.0, added.1, added.2, ids, Outcome(phi, ids, prior))
  {
    assert |prior| == t + 1 && vs.Keys == IdSet(ids);
    ShapeLength(phi, ids, id, prior);
    hide Mul, Add, Eval, Full, Joint, OneLength, AllOneShape, Values, Holds, Moved, Sum;
    SumHolds(id, t, share, pk, vs, ids, prior, shares, phi, Moved(vs, Commitments(phi, ids)));
  }

  /** Round 3, before the Taproot adjustment: everything received is added up. */
  method AddUp(
      id: ID, t: nat, share: Scalar, pk: Point, vs: map<ID, Point>, ids: seq<ID>, ghost prior: seq<Point>,
      shares: map<ID, Scalar>, phi: map<ID, Exponent>)
    returns (r: Result<(Scalar, Point, map<ID, Point>)>)
    requires GoodIDs(ids) && id in ids && Holds(id, t, share, pk, vs, ids, prior)
    requires shares.Keys == phi.Keys == IdSet(ids)
    requires forall k :: k in ids ==> WellFormed(phi[k]) && ActOnBase(shares[k]) == Eval(Full(phi[k]), ScalarOf(id))
    requires |Full(phi[id])| == t + 1
    ensures r.Ok? <==> AllOneShape(phi, id)
    ensures r.Ok? ==> r.value == Added(share, pk, vs, ids, shares, phi)
    ensures r.Ok? ==> OneLength(phi, ids, prior)
    ensures r.Ok? ==> Holds(id, t, r.value.0, r.value.1, r.value.2, ids, Outcome(phi, ids, prior))
  {
    assert |prior| == t + 1 && vs.Keys == IdSet(ids);
    hide Mul, Add, Neg, Eval, Full, Joint, WellFormed, Holds, OneLength, AllOneShape, Added;
    var ps := Commitments(phi, ids);
    OneShape(phi, ids, id);
    var share' := SumShares(share, shares, ids);
    var pk' := SumConstants(pk, phi, ids);
    var sum := SumExponents(ps);
    if sum.Err? {
      r := Err(sum.error);
    } else {
      ShapeLength(phi, ids, id, prior);
      var vs' := ShiftVerificationShares(vs, sum.value, ids);
      SumHolds(id, t, share, pk, vs, ids, prior, shares, phi, vs');
      AddedIs(share, pk, vs, ids, shares, phi, vs');
      r := Ok((share', pk', vs'));
    }
  }

  // ------------------------------------------------------------ what peers send

  /** The broadcast of round 1. A nil field is None. */
  datatype Broadcast2 = Broadcast2(phi: Option<Exponent>, sigma: Option<Schnorr.Proof>, commitment: seq<Byte>)

  /** The broadcast of round 2: a contribution to the chain key, and how to open its commitment. */
  datatype Broadcast3 = Broadcast3(chainKey: seq<Byte>, decommitment: seq<Byte>)

  const SEC_BYTES := 32
  const DIGEST_BYTES := 2 * SEC_BYTES

  /** The hash that a commitment to a chain key contribution is compared with, an arbitrary function. */
  const CommitmentHash: (Schnorr.Transcript, seq<Byte>, seq<Byte>) -> seq<Byte>

  /** Validate: the right length, and not all zero. */
  predicate ValidBytes(b: seq<Byte>, length: nat) {
    |b| == length && exists i :: 0 <= i < |b| && b[i] != 0
  }

  /**
    Whether round 2 stores a broadcast: refreshing demands an identity constant, otherwise the Schnorr
    proof must verify. Without coefficients the source indexes out of range.
   */
  predicate Stores2(refresh: bool, t: Schnorr.Transcript, body: Broadcast2) {
    && body.phi.Some? && (body.phi.value.isConstant || |body.phi.value.coefficients| > 0)
    && ValidBytes(body.commitment, DIGEST_BYTES)
    && if refresh then Constant(body.phi.value) == 0
       else body.sigma.Some? && Schnorr.Verify(t, body.sigma.value, Constant(body.phi.value), G)
  }

  /** Whether round 3 stores a broadcast: the chain key contribution opens its commitment. */
  predicate Stores3(t: Schnorr.Transcript, commitment: seq<Byte>, body: Broadcast3) {
    && ValidBytes(body.chainKey, SEC_BYTES)
    && ValidBytes(commitment, DIGEST_BYTES) && ValidBytes(body.decommitment, SEC_BYTES)
    && CommitmentHash(t, body.chainKey, body.decommitment) == commitment
  }

  /** A commitment to a chain key opens in one way only, unless the commitment hash collides. */
  lemma OpeningBound(t: Schnorr.Transcript, commitment: seq<Byte>, body: Broadcast3, other: Broadcast3)
    requires Stores3(t, commitment, body) && Stores3(t, commitment, other)
    ensures CommitmentHash(t, body.chainKey, body.decommitment) == CommitmentHash(t, other.chainKey, other.decommitment)
    ensures |body.chainKey| == |other.chainKey| == 32 && |commitment| == 64
  {
    hide CommitmentHash;
  }

  lemma FreshCommitment(f: seq<Scalar>)
    requires |f| > 0
    ensures WellFormed(CommitmentTo(f)) && (f[0] == 0 ==> Constant(CommitmentTo(f)) == 0)
  {
  }

  // ----------------------------------------------------------------- one party

  class Participant {
    const self: ID
    const ids: seq<ID>
    const threshold: nat
    const taproot: bool
    const refresh: bool
    /** The polynomial behind the previous configuration; zero when a new key is made. */
    ghost const prior: seq<Point>

    var privateShare: Scalar
    var verificationShares: map<ID, Point>
    var publicKey: Point
    var f: seq<Scalar>
    var phi: map<ID, Exponent>
    var commitments: map<ID, seq<Byte>>
    var chainKeys: map<ID, seq<Byte>>
    var shareFrom: map<ID, Scalar>

    ghost predicate Valid()
      reads this
    {
      && GoodIDs(ids) && self in ids
      && Holds(self, threshold, privateShare, publicKey, verificationShares, ids, prior)
      && (taproot && refresh ==> publicKey != 0 && EvenY(publicKey))
    }

    ghost predicate ValidPhi()
      reads this
    {
      && Valid()
      && |f| == threshold + 1
      && self in phi
      && phi.Keys <= IdSet(ids)
      && |Full(phi[self])| == threshold + 1
      && (forall x :: Eval(Full(phi[self]), x) == ActOnBase(Eval(f, x)))
      && (forall k :: k in phi ==> WellFormed(phi[k]))
      && (refresh ==> forall k :: k in phi ==> Constant(phi[k]) == 0)
    }

    ghost predicate ValidShares()
      reads this
    {
      && ValidPhi()
      && (forall k :: k in shareFrom ==> k in phi && ActOnBase(shareFrom[k]) == Eval(Full(phi[k]), ScalarOf(self)))
    }

    /** StartKeygenCommon without a previous configuration. */
    constructor New(self: ID, ids: seq<ID>, threshold: nat, taproot: bool)
      requires GoodIDs(ids) && self in ids
      ensures Valid() && this.self == self && this.ids == ids && this.threshold == threshold
      ensures this.taproot == taproot && !refresh && prior == seq(threshold + 1, i => 0)
    {
      this.self, this.ids, this.threshold, this.taproot, this.refresh := self, ids, threshold, taproot, false;
      this.privateShare, this.publicKey := 0, 0;
      this.verificationShares := map k | k in ids :: 0;
      this.f, this.phi, this.shareFrom, this.commitments, this.chainKeys := [], map[], map[], map[], map[];
      this.prior := seq(threshold + 1, i => 0);
      new;
      forall x ensures Eval(prior, x) == 0 {
        assert prior == Padded([], threshold + 1);
        EvalPadded([], threshold + 1, x);
      }
      MulZero(G);
    }

    /** StartKeygenCommon on a previous configuration. */
    constructor Refresh(c: Config, ids: seq<ID>, taproot: bool, ghost F: seq<Point>)
      requires GoodIDs(ids) && c.id in ids && Consistent(c, ids, F)
      requires taproot ==> c.publicKey != 0 && EvenY(c.publicKey)
      ensures Valid() && this.self == c.id && this.ids == ids && threshold == c.threshold
      ensures this.taproot == taproot && refresh && prior == F && publicKey == c.publicKey
    {
      this.self, this.ids, this.threshold, this.taproot, this.refresh := c.id, ids, c.threshold, taproot, true;
      this.privateShare, this.publicKey := c.privateShare, c.publicKey;
      this.verificationShares := c.verificationShares;
      this.f, this.phi, this.shareFrom, this.commitments, this.chainKeys := [], map[], map[], map[], map[];
      this.prior := F;
    }

    /** Round 1: commit to a fresh polynomial, whose constant is zero when refreshing. */
    method Finalize1(secret: Scalar, sampled: seq<Scalar>, chainKey: seq<Byte>)
      requires Valid() && |sampled| == threshold
      modifies this`f, this`phi, this`chainKeys
      ensures ValidPhi() && f == [if refresh then 0 else secret] + sampled && phi == map[self := CommitmentTo(f)]
      ensures chainKeys == map[self := chainKey]
    {
      hide Mul, Eval, Full, CommitmentTo, Holds, GoodIDs, Constant;
      f := [if refresh then 0 else secret] + sampled;
      FreshCommitment(f);
      var commitment := NewPolynomialExponent(f);
      phi := map[self := commitment];
      chainKeys := map[self := chainKey];
    }

    /** Round 2, on receipt of a broadcast. */
    method StoreBroadcast2(from: ID, body: Broadcast2, t: Schnorr.Transcript) returns (ok: bool)
      requires ValidPhi() && from in ids && from != self
      modifies this`phi, this`commitments
      ensures ValidPhi() && (ok <==> Stores2(refresh, t, body))
      ensures phi == if ok then old(phi)[from := body.phi.value] else old(phi)
      ensures commitments == if ok then old(commitments)[from := body.commitment] else old(commitments)
    {
      if (!refresh && (body.sigma.None? || body.sigma.value.response == 0 || body.sigma.value.commitment == 0))
         || body.phi.None? {
        return false;
      }
      var phiFrom := body.phi.value;
      if !ValidBytes(body.commitment, DIGEST_BYTES) || (!phiFrom.isConstant && |phiFrom.coefficients| == 0) {
        return false;
      }
      if refresh {
        if Constant(phiFrom) != 0 {
          return false;
        }
      } else {
        if !Schnorr.Verify(t, body.sigma.value, Constant(phiFrom), G) {
          return false;
        }
      }
      phi := phi[from := phiFrom];
      commitments := commitments[from := body.commitment];
      return true;
    }

    /** Round 3, on receipt of a broadcast. */
    method StoreBroadcast3(from: ID, body: Broadcast3, t: Schnorr.Transcript) returns (ok: bool)
      requires ValidShares() && from in commitments
      modifies this`chainKeys
      ensures ValidShares() && (ok <==> Stores3(t, commitments[from], body))
      ensures chainKeys == if ok then old(chainKeys)[from := body.chainKey] else old(chainKeys)
    {
      if !ValidBytes(body.chainKey, SEC_BYTES) {
        return false;
      }
      if !ValidBytes(commitments[from], DIGEST_BYTES) || !ValidBytes(body.decommitment, SEC_BYTES)
         || CommitmentHash(t, body.chainKey, body.decommitment) != commitments[from] {
        return false;
      }
      chainKeys := chainKeys[from := body.chainKey];
      return true;
    }

    /** Round 2: evaluate the polynomial for every party; each share opens the commitment. */
    method Finalize2() returns (shares: map<ID, Scalar>)
      requires ValidPhi()
      modifies this`shareFrom
      ensures ValidShares() && shareFrom == map[self := Eval(f, ScalarOf(self))]
      ensures shares.Keys == IdSet(ids) - {self} && forall k :: k in shares ==> shares[k] == Eval(f, ScalarOf(k))
      ensures forall k :: k in shares ==> ActOnBase(shares[k]) == Eval(Full(phi[self]), ScalarOf(k))
    {
      hide Mul, Eval, Full;
      var all := EvaluateForAll(f, ids);
      shareFrom := map[self := all[self]];
      shares := all - {self};
    }

    /** Round 3, on receipt of a share: the VSS check against the sender's commitment. */
    method StoreMessage3(from: ID, share: Scalar) returns (ok: bool)
      requires ValidShares() && from in phi
      modifies this`shareFrom
      ensures ValidShares()
      ensures ok <==> ActOnBase(share) == Eval(Full(phi[from]), ScalarOf(self))
      ensures shareFrom == if ok then old(shareFrom)[from := share] else old(shareFrom)
    {
      var expected := ActOnBase(share);
      var actual := Evaluate(phi[from], ScalarOf(self));
      if expected != actual {
        return false;
      }
      shareFrom := shareFrom[from := share];
      return true;
    }

    /** The BIP-340 adjustment: the share and all verification shares change sign together. */
    method NegateAll()
      modifies this`privateShare, this`verificationShares
      ensures privateShare == Neg(old(privateShare))
      ensures verificationShares == map k | k in old(verificationShares) :: Neg(old(verificationShares)[k])
    {
      privateShare := Neg(privateShare);
      verificationShares := map k | k in verificationShares :: Neg(verificationShares[k]);
    }

    /**
      Round 3. Fails exactly when the commitments differ in shape (the source panics). Otherwise
      the result is behind one polynomial of degree t that depends on the commitments alone.
     */
    method Finalize3() returns (r: Result<KeygenResult>)
      requires ValidShares() && phi.Keys == shareFrom.Keys == IdSet(ids)
      modifies this`privateShare, this`shareFrom, this`publicKey, this`verificationShares
      ensures r.Ok? <==> AllOneShape(phi, self)
      ensures r.Ok? ==> r.value == ResultOf(self, threshold, taproot,
          Added(old(privateShare), old(publicKey), old(verificationShares), ids, old(shareFrom), phi))
      ensures r.Ok? ==> OneLength(phi, ids, prior)
      ensures r.Ok? ==> Finished(r.value, self, threshold, taproot, ids, Outcome(phi, ids, prior))
    {
      hide Mul, Add, Neg, Eval, Full, Outcome, Added;
      var added := AddUp(self, threshold, privateShare, publicKey, verificationShares, ids, prior, shareFrom, phi);
      shareFrom := map[];
      if added.Err? {
        return Err(added.error);
      }
      ResultFinished(self, threshold, taproot, added.value, ids, Outcome(phi, ids, prior));
      privateShare, publicKey, verificationShares := added.value.0, added.value.1, added.value.2;
      if taproot {
        var xBytes := X(publicKey);
        if !EvenY(publicKey) {
          NegateAll();
        }
        return Ok(Taproot(TaprootConfig(self, threshold, privateShare, xBytes, [], verificationShares)));
      }
      return Ok(Plain(Config(self, threshold, privateShare, publicKey, [], verificationShares)));
    }
  }

  /** The result of round 3 from the sums, after the BIP-340 adjustment. */
  function ResultOf(self: ID, t: nat, taproot: bool, added: (Scalar, Point, map<ID, Point>)): (r: KeygenResult) {
    if !taproot then Plain(Config(self, t, added.0, added.1, [], added.2))
    else if EvenY(added.1) then Taproot(TaprootConfig(self, t, added.0, X(added.1), [], added.2))
    else Taproot(TaprootConfig(self, t, Neg(added.0), X(added.1), [], map k | k in added.2 :: Neg(added.2[k])))
  }

  lemma ResultFinished(self: ID, t: nat, taproot: bool, added: (Scalar, Point, map<ID, Point>), ids: seq<ID>,
                       F: seq<Point>)
    requires Holds(self, t, added.0, added.1, added.2, ids, F)
    ensures Finished(ResultOf(self, t, taproot, added), self, t, taproot, ids, F)
  {
    hide Mul, Add, Neg, Eval;
    if taproot && !EvenY(added.1) {
      NegatedHolds(self, t, added.0, added.1, added.2, ids, F);
    }
  }

  ghost predicate OneLength(phi: map<ID, Exponent>, ids: seq<ID>, prior: seq<Point>) {
    forall k :: k in ids ==> k in phi && |Full(phi[k])| == |prior|
  }

  /** The polynomial behind the outcome, a function of the prior polynomial and the commitments. */
  ghost function Outcome(phi: map<ID, Exponent>, ids: seq<ID>, prior: seq<Point>): (F: seq<Point>)
    requires OneLength(phi, ids, prior)
  {
    Joint(prior, Commitments(phi, ids))
  }

  /** The polynomial or its negation, whichever has an even y coordinate at zero. */
  ghost function Evened(F: seq<Point>): (r: seq<Point>) {
    if EvenY(Eval(F, 0)) then F else Negated(F)
  }

  /** A result behind the polynomial F, or behind its negation when Taproot demands an even key. */
  ghost predicate Finished(r: KeygenResult, self: ID, t: nat, taproot: bool, ids: seq<ID>, F: seq<Point>) {
    if !taproot then
      r.Plain? && r.config.id == self && r.config.threshold == t && Consistent(r.config, ids, F)
    else
      && r.Taproot? && r.tconfig.id == self && r.tconfig.threshold == t
      && r.tconfig.publicKey == X(Eval(F, 0))
      && Holds(self, t, r.tconfig.privateShare, Eval(Evened(F), 0), r.tconfig.verificationShares, ids, Evened(F))
  }

  /** A Taproot key that is not the identity lifts to the even value of the polynomial at zero. */
  lemma FinishedLifts(c: TaprootConfig, self: ID, t: nat, ids: seq<ID>, F: seq<Point>)
    requires Finished(Taproot(c), self, t, true, ids, F) && Eval(F, 0) != 0
    ensures TaprootConsistent(c, ids, Evened(F))
  {
    hide Mul, Add, Neg, Eval, LiftX;
    EvalNeg(F, 0);
    LiftXOfPoint(Eval(F, 0));
  }

  lemma OneShape(phi: map<ID, Exponent>, ids: seq<ID>, self: ID)
    requires self in ids && phi.Keys == IdSet(ids)
    ensures AllOneShape(phi, self) <==>
            forall j :: 0 <= j < |ids| ==> SameShape(Commitments(phi, ids)[0], Commitments(phi, ids)[j])
  {
    var ps := Commitments(phi, ids);
    var s :| 0 <= s < |ids| && ids[s] == self;
    if forall j :: 0 <= j < |ids| ==> SameShape(ps[0], ps[j]) {
      forall k | k in phi ensures SameShape(phi[self], phi[k]) {
        var j :| 0 <= j < |ids| && ids[j] == k;
        assert SameShape(ps[0], ps[s]) && SameShape(ps[0], ps[j]);
      }
    }
    if AllOneShape(phi, self) {
      forall j | 0 <= j < |ids| ensures SameShape(ps[0], ps[j]) {
        assert ids[0] in phi && ids[j] in phi;
      }
    }
  }

  /** One shape means one length, the length of our own commitment. */
  lemma ShapeLength(phi: map<ID, Exponent>, ids: seq<ID>, self: ID, prior: seq<Point>)
    requires AllOneShape(phi, self) && |Full(phi[self])| == |prior| && forall k :: k in ids ==> k in phi
    ensures OneLength(phi, ids, prior)
  {
  }

  lemma NegatedHolds(id: ID, t: nat, share: Scalar, pk: Point, vs: map<ID, Point>, ids: seq<ID>, F: seq<Point>)
    requires Holds(id, t, share, pk, vs, ids, F)
    ensures Holds(id, t, Neg(share), Neg(pk), map k | k in vs :: Neg(vs[k]), ids, Negated(F))
  {
    EvalNeg(F, 0);
    EvalNeg(F, ScalarOf(id));
    MulNeg(G, share);
    forall k | k in ids ensures Neg(vs[k]) == Eval(Negated(F), ScalarOf(k)) {
      EvalNeg(F, ScalarOf(k));
    }
  }

  lemma RefreshKeepsConstant(prior: seq<Point>, ps: seq<Exponent>)
    requires forall j :: 0 <= j < |ps| ==> |Full(ps[j])| == |prior| && WellFormed(ps[j]) && Constant(ps[j]) == 0
    ensures Eval(Joint(prior, ps), 0) == Eval(prior, 0)
  {
    JointValue(prior, ps, 0);
    forall j | 0 <= j < |ps| ensures Values(ps, 0)[j] == 0 {
      ConstantIsValueAtZero(ps[j]);
    }
    SumZero(Values(ps, 0));
  }

  /** A refresh keeps the public key: every commitment that was stored has an identity constant. */
  lemma RefreshKeepsPublicKey(phi: map<ID, Exponent>, ids: seq<ID>, prior: seq<Point>)
    requires OneLength(phi, ids, prior)
    requires forall k :: k in ids ==> WellFormed(phi[k]) && Constant(phi[k]) == 0
    ensures Eval(Outcome(phi, ids, prior), 0) == Eval(prior, 0)
  {
    RefreshKeepsConstant(prior, Commitments(phi, ids));
  }

  // ------------------------------------------------------------ what keygen gives

  function PublicKeyOf(r: KeygenResult): (p: Option<Point>) {
    match r
    case Plain(c) => Some(c.publicKey)
    case Taproot(c) => LiftX(c.publicKey)
  }

  function SharesOf(r: KeygenResult): (vs: map<ID, Point>) {
    if r.Plain? then r.config.verificationShares else r.tconfig.verificationShares
  }

  function PrivateShareOf(r: KeygenResult): (s: Scalar) {
    if r.Plain? then r.config.privateShare else r.tconfig.privateShare
  }

  /**
    Two results behind one polynomial have the same public key and verification shares, and each
    private share opens its own verification share.
   */
  lemma FinishedAgree(
      a: ID, b: ID, t: nat, taproot: bool, ids: seq<ID>, F: seq<Point>, ra: KeygenResult, rb: KeygenResult)
    requires a in ids && b in ids
    requires Finished(ra, a, t, taproot, ids, F) && Finished(rb, b, t, taproot, ids, F)
    ensures SharesOf(ra).Keys == SharesOf(rb).Keys == IdSet(ids)
    ensures PublicKeyOf(ra) == PublicKeyOf(rb) && SharesOf(ra) == SharesOf(rb)
    ensures ActOnBase(PrivateShareOf(ra)) == SharesOf(rb)[a] && ActOnBase(PrivateShareOf(rb)) == SharesOf(ra)[b]
  {
    hide Mul, Add, Neg, Eval, LiftX;
  }

  /** Any t+1 verification shares of a result interpolate to its key, the lifted one with Taproot. */
  lemma FinishedReconstructs(
      a: ID, t: nat, taproot: bool, ids: seq<ID>, F: seq<Point>, r: KeygenResult, quorum: seq<ID>, terms: seq<Point>)
    requires Finished(r, a, t, taproot, ids, F) && (taproot ==> Eval(F, 0) != 0)
    requires GoodIDs(quorum) && (forall k :: k in quorum ==> k in ids) && |quorum| == |terms| > t
    requires forall k :: k in ids ==> k in SharesOf(r)
    requires forall j :: 0 <= j < |quorum| ==> terms[j] == Act(Lambda(Points(quorum), j), SharesOf(r)[quorum[j]])
    ensures PublicKeyOf(r) == Some(Sum(terms))
  {
    hide Mul, Add, Neg, Eval, Lambda, LiftX;
    if taproot {
      FinishedLifts(r.tconfig, a, t, ids, F);
    }
    AnyQuorumReconstructs(SharesOf(r), ids, if taproot then Evened(F) else F, quorum, terms);
  }

  lemma AnyQuorumReconstructs(vs: map<ID, Point>, ids: seq<ID>, F: seq<Point>, quorum: seq<ID>, terms: seq<Point>)
    requires GoodIDs(quorum) && (forall k :: k in quorum ==> k in ids) && |quorum| >= |F|
    requires vs.Keys == IdSet(ids) && forall k :: k in ids ==> vs[k] == Eval(F, ScalarOf(k))
    requires |terms| == |quorum|
    requires forall j :: 0 <= j < |quorum| ==> terms[j] == Act(Lambda(Points(quorum), j), vs[quorum[j]])
    ensures Sum(terms) == Eval(F, 0)
  {
    hide Mul, Add, Eval, Lambda;
    var xs := Points(quorum);
    forall j | 0 <= j < |xs| ensures terms[j] == Mul(Lambda(xs, j), Eval(F, xs[j])) {
      assert quorum[j] in quorum;
    }
    Reconstruct(xs, F, terms);
  }
}
