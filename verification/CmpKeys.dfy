/** CMP key generation and refresh, configurations, and their life up to signing. */
module CmpKeys {
  import opened Zq
  import opened Polynomials
  import opened Party
  import Parties
  import opened Exponents
  import opened Lagrange
  import FrostKeygen
  import opened KeyLifecycle
  import Paillier
  import Mta
  import CmpSign

  /** The part of a configuration that concerns the shared key. */
  datatype Config = Config(id: ID, threshold: nat, ecdsa: Scalar, chainKey: seq<Byte>, public: map<ID, Point>)

  /** F is the polynomial of degree at most t, in the exponent, behind all shares. */
  ghost predicate Consistent(c: Config, ids: seq<ID>, F: seq<Point>) {
    FrostKeygen.Holds(c.id, c.threshold, c.ecdsa, Eval(F, 0), c.public, ids, F)
  }

  // ---------------------------------------------------------------------- rounds

  /**
    Round 3, on receipt of a commitment: the constant must be left out exactly when ours is zero, and
    the degree must be t. So all stored commitments have one shape.
   */
  method StoreCommitment(ownConstantIsZero: bool, t: nat, phi: map<ID, Exponent>, from: ID, phiFrom: Exponent)
    returns (r: Result<map<ID, Exponent>>)
    requires forall k :: k in phi ==> phi[k].isConstant == ownConstantIsZero && Degree(phi[k]) == t
    ensures r.Ok? <==> phiFrom.isConstant == ownConstantIsZero && Degree(phiFrom) == t
    ensures r.Ok? ==> r.value == phi[from := phiFrom]
    ensures r.Ok? ==> forall k :: k in r.value ==> r.value[k].isConstant == ownConstantIsZero && Degree(r.value[k]) == t
  {
    if !(ownConstantIsZero == phiFrom.isConstant) {
      return Err("vss polynomial has incorrect constant");
    }
    if Degree(phiFrom) != t {
      return Err("vss polynomial has incorrect degree");
    }
    return Ok(phi[from := phiFrom]);
  }

  /** A plaintext that is not a scalar. */
  ghost predicate NoScalar(m: int, n: int) {
    -((n - 1) / 2) <= m <= (n - 1) / 2 && !(0 <= m < Q)
  }

  /** Round 4, on receipt of an encrypted share: decrypt, reject what is not a scalar, check the commitment. */
  method StoreShare(sk: Paillier.SecretKey, c: int, phiFrom: Exponent, self: ID) returns (r: Result<Scalar>)
    requires Paillier.GoodSecret(sk)
    ensures r.Ok? ==> ActOnBase(r.value) == Eval(Full(phiFrom), ScalarOf(self))
    ensures forall share: Scalar, rho :: Mta.Long(sk.public.nNat) && Paillier.Encrypts(c, sk.public.nNat, share, rho) ==>
        if ActOnBase(share) == Eval(Full(phiFrom), ScalarOf(self)) then r == Ok(share) else r.Err?
    ensures forall m, rho :: Paillier.Encrypts(c, sk.public.nNat, m, rho) && NoScalar(m, sk.public.nNat) ==> r.Err?
  {
    hide Mul, Eval, Full, Paillier.Encrypts, Paillier.Symmetric, Mta.Long, Red;
    assert sk.public.nNat > 0 && sk.public.nNat % 2 == 1;
    var decrypted := Paillier.Dec(sk, c);
    forall share: Scalar, rho | Mta.Long(sk.public.nNat) && Paillier.Encrypts(c, sk.public.nNat, share, rho)
      ensures decrypted == Ok(share) && Red(share) == share
    {
      Mta.ScalarInRange(share, sk.public.nNat);
      Paillier.SymmetricIs(share, sk.public.nNat);
      RedSmall(share);
    }
    forall m, rho | Paillier.Encrypts(c, sk.public.nNat, m, rho) && NoScalar(m, sk.public.nNat)
      ensures decrypted == Ok(m)
    {
      Paillier.SymmetricIs(m, sk.public.nNat);
    }
    if decrypted.Err? {
      return Err(decrypted.error);
    }
    var share := Red(decrypted.value);
    if decrypted.value != share {
      return Err("decrypted share is not in correct range");
    }
    var expected := Evaluate(phiFrom, ScalarOf(self));
    if ActOnBase(share) != expected {
      return Err("failed to validate VSS share");
    }
    return Ok(share);
  }

  /** What every party has checked of all commitments before round 4 ends. */
  ghost predicate Committed(phi: map<ID, Exponent>, ids: seq<ID>, constantIsZero: bool, t: nat) {
    phi.Keys == IdSet(ids) && forall k :: k in phi ==> phi[k].isConstant == constantIsZero && Degree(phi[k]) == t
  }

  /** Checked commitments can always be summed. */
  lemma CommittedShape(phi: map<ID, Exponent>, ids: seq<ID>, constantIsZero: bool, t: nat, prior: seq<Point>)
    requires Committed(phi, ids, constantIsZero, t) && |prior| == t + 1
    ensures FrostKeygen.OneLength(phi, ids, prior)
    ensures forall k :: k in ids ==> FrostKeygen.WellFormed(phi[k])
    ensures forall i, j :: 0 <= i < |ids| && 0 <= j < |ids| ==>
        SameShape(FrostKeygen.Commitments(phi, ids)[i], FrostKeygen.Commitments(phi, ids)[j])
  {
  }

  /** Round 4: add up the shares, sum the commitments, and evaluate them for every party. */
  method Finalize4(id: ID, t: nat, share: Scalar, public: map<ID, Point>, ids: seq<ID>, shares: map<ID, Scalar>,
                   phi: map<ID, Exponent>, chainKey: seq<Byte>, ghost constantIsZero: bool, ghost prior: seq<Point>)
    returns (r: Config)
    requires FrostKeygen.GoodIDs(ids) && id in ids && Committed(phi, ids, constantIsZero, t)
    requires FrostKeygen.Holds(id, t, share, Eval(prior, 0), public, ids, prior) && shares.Keys == IdSet(ids)
    requires forall k :: k in ids ==> ActOnBase(shares[k]) == Eval(Full(phi[k]), ScalarOf(id))
    ensures r.id == id && r.threshold == t && r.chainKey == chainKey && FrostKeygen.OneLength(phi, ids, prior)
    ensures Consistent(r, ids, FrostKeygen.Outcome(phi, ids, prior))
  {
    CommittedShape(phi, ids, constantIsZero, t, prior);
    hide Mul, Add, Eval, Full, FrostKeygen.Joint;
    var updated := FrostKeygen.SumShares(share, shares, ids);
    var sum := SumExponents(FrostKeygen.Commitments(phi, ids));
    var vs := FrostKeygen.ShiftVerificationShares(public, sum.value, ids);
    FrostKeygen.SumHolds(id, t, share, Eval(prior, 0), public, ids, prior, shares, phi, vs);
    r := Config(id, t, updated, chainKey, vs);
  }

  // --------------------------------------------------------------- configurations

  /** PublicPoint: the interpolation of all public shares is the value of the polynomial at zero. */
  method PublicPoint(c: Config, ids: seq<ID>) returns (sum: Point)
    requires c.public.Keys == IdSet(ids) && forall i, j :: 0 <= i < j < |ids| ==> ids[i] != ids[j]
    ensures forall F :: Consistent(c, ids, F) && FrostKeygen.GoodIDs(ids) && |F| <= |ids| ==> sum == Eval(F, 0)
  {
    hide Mul, Add, Eval, Lambda;
    var l := LagrangeCoefficients(ids);
    sum := 0;
    ghost var terms := seq(|ids|, j requires 0 <= j < |ids| => Act(Lambda(Points(ids), j), c.public[ids[j]]));
    for j := 0 to |ids|
      invariant sum == Sum(terms[..j])
    {
      SumStep(terms, j);
      sum := Add(sum, Act(l[ids[j]], c.public[ids[j]]));
    }
    SumAll(terms);
    forall F | Consistent(c, ids, F) && FrostKeygen.GoodIDs(ids) && |F| <= |ids| ensures Sum(terms) == Eval(F, 0) {
      FrostKeygen.AnyQuorumReconstructs(c.public, ids, F, ids, terms);
    }
  }

  predicate ValidThreshold(t: int, n: int) {
    0 <= t <= 0xFFFF_FFFF && n > 0 && t <= n - 1
  }

  /** Enough known signers, sorted and without duplicates, this party among them. */
  ghost predicate Quorum(c: Config, signers: seq<ID>) {
    && c.threshold < |signers| && c.threshold < 0x1_0000_0000 && Parties.Sorted(signers) && c.id in signers
    && forall k :: k in signers ==> k in c.public
  }

  /** Any t+1 parties, in order and this one among them, are enough for its consistent configuration. */
  lemma ThresholdSuffices(c: Config, signers: seq<ID>, ids: seq<ID>, F: seq<Point>)
    requires Consistent(c, ids, F) && |F| <= 0x1_0000_0000 && (forall k :: k in signers ==> k in ids)
    requires Parties.Sorted(signers) && c.id in signers
    ensures Quorum(c, signers) <==> |signers| >= |F|
  {
    hide Eval, Mul;
  }

  /** CanSign: enough known signers, sorted and without duplicates, this party among them. */
  method CanSign(c: Config, signers: seq<ID>) returns (ok: bool)
    ensures ok <==> c.threshold < |signers| && c.threshold < 0x1_0000_0000 && Parties.Sorted(signers) && c.id in signers &&
                    forall k :: k in signers ==> k in c.public
    ensures ok ==> forall i, j :: 0 <= i < j < |signers| ==> signers[i] != signers[j]
  {
    if !ValidThreshold(c.threshold, |signers|) {
      return false;
    }
    var sorted := Parties.Valid(signers);
    if !sorted {
      return false;
    }
    Parties.SortedDistinct(signers);
    var contained := Parties.Contains(signers, c.id);
    if !contained {
      return false;
    }
    for j := 0 to |signers|
      invariant forall i :: 0 <= i < j ==> signers[i] in c.public
    {
      if signers[j] !in c.public {
        return false;
      }
    }
    return true;
  }

  /** d is c with every share moved by the adjustment. */
  ghost predicate Derived(c: Config, d: Config, adjust: Scalar) {
    && d.id == c.id && d.threshold == c.threshold && d.ecdsa == Add(c.ecdsa, adjust)
    && AllShifted(c.public, d.public, ActOnBase(adjust))
  }

  method Derive(c: Config, adjust: Scalar, newChainKey: seq<Byte>) returns (r: Result<Config>)
    ensures r.Ok? <==> |newChainKey| == 32 || (newChainKey == [] && |c.chainKey| == 32)
    ensures r.Ok? ==> Derived(c, r.value, adjust)
    ensures r.Ok? ==> r.value.chainKey == if newChainKey != [] then newChainKey else c.chainKey
  {
    hide Mul, Add;
    var chainKey := NextChainKey(c.chainKey, newChainKey);
    if chainKey.Err? {
      return Err(chainKey.error);
    }
    var adjustG := ActOnBase(adjust);
    var public := AddToAll(c.public, adjustG);
    return Ok(Config(c.id, c.threshold, Add(c.ecdsa, adjust), chainKey.value, public));
  }

  // ------------------------------------------------------------------- lifecycle

  /** What one party holds after one step, as Derive and Finalize4 guarantee it. */
  ghost predicate Moves(s: Step, ids: seq<ID>, F: seq<Point>, c: Config, d: Config)
    requires |F| > 0 && StepAllowed(s, ids, F)
  {
    match s
    case Derivation(a) => Derived(c, d, a)
    case Refreshing(phi) =>
      d.id == c.id && d.threshold == c.threshold && Consistent(d, ids, FrostKeygen.Outcome(phi, ids, F))
  }

  lemma StepConsistent(s: Step, ids: seq<ID>, F: seq<Point>, c: Config, d: Config)
    requires Consistent(c, ids, F) && StepAllowed(s, ids, F) && Moves(s, ids, F, c, d)
    ensures Consistent(d, ids, After(s, ids, F))
  {
    hide Mul, Add, Eval;
    match s
    case Derivation(a) =>
      ShiftHolds(c.id, c.threshold, c.ecdsa, Eval(F, 0), c.public, ids, F, a, d.public);
      ShiftValue(F, ActOnBase(a), 0);
    case Refreshing(_) =>
  }

  ghost predicate PartyRun(steps: seq<Step>, ids: seq<ID>, Fs: seq<seq<Point>>, cs: seq<Config>)
    requires PolynomialRun(steps, ids, Fs)
  {
    |cs| == |Fs| && forall i :: 0 <= i < |steps| ==> Moves(steps[i], ids, Fs[i], cs[i], cs[i + 1])
  }

  /**
    Any sequence of full refreshes and common derivations keeps every party behind one polynomial of the
    same degree, and moves the key by exactly the sum of the adjustments.
   */
  lemma {:induction false} Lifecycle(steps: seq<Step>, ids: seq<ID>, Fs: seq<seq<Point>>, cs: seq<Config>)
    requires PolynomialRun(steps, ids, Fs) && PartyRun(steps, ids, Fs, cs) && Consistent(cs[0], ids, Fs[0])
    ensures Consistent(cs[|steps|], ids, Fs[|steps|]) && |Fs[|steps|]| == |Fs[0]|
    ensures cs[|steps|].id == cs[0].id && cs[|steps|].threshold == cs[0].threshold
    ensures Eval(Fs[|steps|], 0) == Add(Eval(Fs[0], 0), ActOnBase(Adjustments(steps)))
  {
    hide Mul, Eval;
    if |steps| == 0 {
      MulZero(G);
    } else {
      var n := |steps| - 1;
      var s := steps[n];
      Lifecycle(steps[..n], ids, Fs[..n + 1], cs[..n + 1]);
      StepConsistent(s, ids, Fs[n], cs[n], cs[n + 1]);
      StepMovesSecret(s, ids, Fs[n]);
      if s.Derivation? {
        MulAdd(G, Adjustments(steps[..n]), s.adjust);
        AddAssoc(Eval(Fs[0], 0), ActOnBase(Adjustments(steps[..n])), ActOnBase(s.adjust));
      }
    }
  }

  // --------------------------------------------------------------------- signing

  /** The polynomial of scalars behind a polynomial in the exponent. */
  ghost function Logarithm(F: seq<Point>): (f: seq<Scalar>)
    ensures |f| == |F|
  {
    seq(|F|, i requires 0 <= i < |F| => Mul(Inv(G), F[i]))
  }

  lemma LogarithmValue(F: seq<Point>, x: Scalar)
    ensures Eval(F, x) == ActOnBase(Eval(Logarithm(F), x))
  {
    hide Mul, Inv, Eval;
    var f := Logarithm(F);
    forall i | 0 <= i < |F| ensures F[i] == Mul(G, f[i]) {
      DivMul(G, F[i]);
    }
    EvalScale(G, f, F, x);
    MulComm(G, Eval(f, x));
  }

  /** Distinct parties among good ones are good. */
  lemma SubsetGood(signers: seq<ID>, ids: seq<ID>)
    requires FrostKeygen.GoodIDs(ids) && (forall k :: k in signers ==> k in ids)
    requires forall i, j :: 0 <= i < j < |signers| ==> signers[i] != signers[j]
    ensures GoodPoints(Points(signers))
  {
    var xs, ys := Points(signers), Points(ids);
    forall i | 0 <= i < |xs| ensures xs[i] != 0 {
      assert signers[i] in ids;
      var k :| 0 <= k < |ids| && ids[k] == signers[i];
      assert ys[k] != 0;
    }
    forall i, j | 0 <= i < j < |xs| ensures xs[i] != xs[j] {
      assert signers[i] in ids && signers[j] in ids;
      var k :| 0 <= k < |ids| && ids[k] == signers[i];
      var l :| 0 <= l < |ids| && ids[l] == signers[j];
      assert k != l;
      assert ys[k] != ys[l];
    }
  }

  /**
    Any signers that one of their configurations accepts hold shares of one polynomial of scalars, as
    signing needs them, and its value at zero is the secret behind the public point.
   */
  lemma QuorumCanSign(cs: seq<Config>, signers: seq<ID>, ids: seq<ID>, F: seq<Point>, shares: seq<Scalar>,
                      publics: seq<Point>)
    requires FrostKeygen.GoodIDs(ids) && |cs| == |signers| == |shares| == |publics|
    requires exists i :: 0 <= i < |cs| && Quorum(cs[i], signers)
    requires forall j :: 0 <= j < |cs| ==>
        && cs[j].id == signers[j] && Consistent(cs[j], ids, F) && signers[j] in cs[j].public
        && shares[j] == cs[j].ecdsa && publics[j] == cs[j].public[signers[j]]
    ensures CmpSign.SharesOf(signers, Logarithm(F), shares, publics)
    ensures ActOnBase(Eval(Logarithm(F), 0)) == Eval(F, 0)
  {
    var i :| 0 <= i < |cs| && Quorum(cs[i], signers);
    Parties.SortedDistinct(signers);
    assert |signers| >= |F| && forall k :: k in signers ==> k in ids;
    SubsetGood(signers, ids);
    hide Mul, Eval;
    forall j | 0 <= j < |signers|
      ensures shares[j] == Eval(Logarithm(F), ScalarOf(signers[j])) && publics[j] == ActOnBase(shares[j])
    {
      LogarithmValue(F, ScalarOf(signers[j]));
      BaseInjective(shares[j], Eval(Logarithm(F), ScalarOf(signers[j])));
    }
    LogarithmValue(F, 0);
  }
}
