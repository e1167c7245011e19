/** Schnorr proofs of knowledge of a discrete logarithm with respect to an arbitrary generator. */
module Schnorr {
  import opened Zq
  import opened Party

  datatype Proof = Proof(commitment: Point, response: Scalar)

  /** The Fiat-Shamir challenge: an arbitrary function of the transcript and of what is hashed. */
  type Transcript(==, !new, 0)
  const Challenge: (Transcript, Point, Point, Point) -> Scalar

  /** NewProof with randomness a. The source dereferences a nil response where this is None. */
  function NewProof(t: Transcript, public: Point, private: Scalar, gen: Point, a: Scalar): (r: Option<Proof>) {
    var commitment := Act(a, gen);
    if public == 0 || private == 0 then None
    else Some(Proof(commitment, Add(Mul(Challenge(t, commitment, public, gen), private), a)))
  }

  predicate Verify(t: Transcript, proof: Proof, public: Point, gen: Point) {
    && proof.response != 0
    && proof.commitment != 0
    && public != 0
    && Act(proof.response, gen) ==
       Add(Act(Challenge(t, proof.commitment, public, gen), public), proof.commitment)
  }

  /** An honest proof is accepted exactly when neither of its two parts is degenerate. */
  lemma Completeness(t: Transcript, private: Scalar, gen: Point, a: Scalar)
    requires private != 0 && gen != 0
    ensures var public := Act(private, gen);
            var proof := NewProof(t, public, private, gen, a);
            && proof.Some?
            && (Verify(t, proof.value, public, gen) <==> a != 0 && proof.value.response != 0)
  {
    hide Red, Add;
    var public := Act(private, gen);
    if public == 0 {
      NoZeroDivisors(private, gen);
    }
    var e := Challenge(t, Act(a, gen), public, gen);
    MulAdd(gen, Mul(e, private), a);
    MulAssoc(e, private, gen);
    MulZero(gen);
    if Act(a, gen) == 0 {
      NoZeroDivisors(a, gen);
    }
  }

  lemma SubSame(a: Scalar, b: Scalar, c: Scalar)
    ensures Sub(Add(a, c), Add(b, c)) == Sub(a, b)
    ensures Sub(a, b) == 0 <==> a == b
  {
  }

  /**
    Special soundness: two accepted proofs with one commitment and different challenges give the secret behind the
    public point.
   */
  lemma SpecialSoundness(t: Transcript, t': Transcript, proof: Proof, proof': Proof, public: Point, gen: Point)
    requires Verify(t, proof, public, gen) && Verify(t', proof', public, gen) && proof.commitment == proof'.commitment
    requires Challenge(t, proof.commitment, public, gen) != Challenge(t', proof.commitment, public, gen)
    ensures var e, e' := Challenge(t, proof.commitment, public, gen), Challenge(t', proof.commitment, public, gen);
            public == Act(Mul(Inv(Sub(e, e')), Sub(proof.response, proof'.response)), gen) && public != 0
  {
    hide Red, Inv;
    var e, e' := Challenge(t, proof.commitment, public, gen), Challenge(t', proof.commitment, public, gen);
    var d, z := Sub(e, e'), Sub(proof.response, proof'.response);
    MulSub(gen, proof.response, proof'.response);
    MulSub(public, e, e');
    SubSame(Act(e, public), Act(e', public), proof.commitment);
    MulAssoc(Inv(d), z, gen);
    DivMul(d, public);
  }
}
