/** The base random oblivious transfer, one instance at a time. */
module RandomOT {
  import opened Zq
  import opened Party
  import opened Bits
  import opened Encoding
  import Schnorr

  const POINT_BYTES := 33

  type Codec = (Point -> Bytes, Bytes -> Option<Point>)

  /** Encodings have one length; every point but the identity can be read back, and the identity cannot. */
  ghost predicate IsCodec(c: Codec) {
    forall p: Point :: |c.0(p)| == POINT_BYTES && c.1(c.0(p)) == if p != 0 then Some(p) else None
  }

  function PlainCodec(): (c: Codec)
    ensures IsCodec(c)
  {
    var c: Codec := ((p: Point) => ZeroBytes(1) + ScalarBytes(p),
                     (b: Bytes) => if |b| == POINT_BYTES && ScalarFromBytes(b[1..]) != Some(0)
                                   then ScalarFromBytes(b[1..]) else None);
    assert IsCodec(c) by {
      hide ScalarBytes, ScalarFromBytes, ZeroBytes;
      forall p: Point ensures |c.0(p)| == POINT_BYTES && c.1(c.0(p)) == if p != 0 then Some(p) else None {
        ScalarRoundTrip(p);
        assert c.0(p)[1..] == ScalarBytes(p);
      }
    }
    c
  }

  type PointCodec = c: Codec | IsCodec(c) witness PlainCodec()

  /** MarshalBinary and UnmarshalBinary of points. */
  const POINTS: PointCodec

  function PointBytes(p: Point): (b: Bytes)
    ensures |b| == POINT_BYTES
  {
    POINTS.0(p)
  }

  function PointFromBytes(b: Bytes): (r: Option<Point>) {
    POINTS.1(b)
  }

  /** BLAKE3 keyed with the nonce of the instance: an arbitrary function. */
  const KeyedHash: (Bytes, Bytes) -> Block

  // ----------------------------------------------------------------------- setup

  datatype SetupMessage = SetupMessage(B: Point, proof: Schnorr.Proof)
  datatype SendSetup = SendSetup(b: Scalar, B: Point, bB: Point)

  /** RandomOTSetupSend with secret b and proof randomness a. */
  function SetupSend(t: Schnorr.Transcript, b: Scalar, a: Scalar): (r: Option<(SetupMessage, SendSetup)>) {
    var B := ActOnBase(b);
    match Schnorr.NewProof(t, B, b, G, a)
    case None => None
    case Some(proof) => Some((SetupMessage(B, proof), SendSetup(b, B, Act(b, B))))
  }

  /** RandomOTSetupReceive */
  function SetupReceive(t: Schnorr.Transcript, msg: SetupMessage): (r: Result<Point>) {
    if Schnorr.Verify(t, msg.proof, msg.B, G) then Ok(msg.B)
    else Err("RandomOTSetupReceive: Schnorr proof failed to verify")
  }

  // -------------------------------------------------------------------- instance

  datatype Receiver = Receiver(nonce: Bytes, choice: bool, B: Point,
                               randChoice: Block, receivedChallenge: Block, hhRandChoice: Block)
  {
    /** Round 1 with randomness a: sends a*G, plus B when the choice is set. */
    method Round1(a: Scalar) returns (r: Receiver, aBytes: Bytes)
      ensures (r, aBytes) == ReceiveRound1(this, a)
    {
      var A := ActOnBase(a);
      aBytes := PointBytes(A);
      var aPlusBBytes := PointBytes(Add(A, B));
      aBytes := Select(aBytes, choice, aPlusBBytes);
      r := this.(randChoice := KeyedHash(nonce, PointBytes(Act(a, B))));
    }

    method Round2(challenge: Block) returns (r: Receiver, response: Block)
      ensures (r, response) == ReceiveRound2(this, challenge)
    {
      var hh := KeyedHash(nonce, KeyedHash(nonce, randChoice));
      response := XorMasked(hh, choice, challenge);
      r := this.(receivedChallenge := challenge, hhRandChoice := hh);
    }

    method Round3(decommit0: Block, decommit1: Block) returns (r: Result<Block>)
      ensures r == ReceiveRound3(this, decommit0, decommit1)
    {
      var h0 := KeyedHash(nonce, decommit0);
      var h1 := KeyedHash(nonce, decommit1);
      var actual := XorMasked(h0, true, h1);
      if receivedChallenge != actual {
        return Err("RandomOTReceive Round 3: incorrect decommitment");
      }
      var hChoice := Select(h0, choice, h1);
      if hChoice != hhRandChoice {
        return Err("RandomOTReceive Round 3: incorrect decommitment");
      }
      return Ok(randChoice);
    }
  }

  datatype Sender = Sender(nonce: Bytes, b: Scalar, B: Point, bB: Point, rand0: Block, rand1: Block,
                           decommit0: Block, decommit1: Block, hDecommit0: Block)
  {
    method Round1(aBytes: Bytes) returns (r: Result<(Sender, Block)>)
      ensures r == SendRound1(this, aBytes)
    {
      var A := PointFromBytes(aBytes);
      if A.None? {
        return Err("UnmarshalBinary");
      }
      var bA := Act(b, A.value);
      var r0 := KeyedHash(nonce, PointBytes(bA));
      var r1 := KeyedHash(nonce, PointBytes(Sub(bA, bB)));
      var d0 := KeyedHash(nonce, r0);
      var d1 := KeyedHash(nonce, r1);
      var hd0 := KeyedHash(nonce, d0);
      var challenge := XorMasked(KeyedHash(nonce, d1), true, hd0);
      XorComm(KeyedHash(nonce, d1), hd0);
      return Ok((Sender(nonce, b, B, bB, r0, r1, d0, d1, hd0), challenge));
    }
  }

  function NewReceiver(nonce: Bytes, B: Point, choice: bool): (r: Receiver) {
    Receiver(nonce, choice, B, ZeroBytes(OT_BYTES), ZeroBytes(OT_BYTES), ZeroBytes(OT_BYTES))
  }

  function NewSender(nonce: Bytes, setup: SendSetup): (r: Sender) {
    var zero := ZeroBytes(OT_BYTES);
    Sender(nonce, setup.b, setup.B, setup.bB, zero, zero, zero, zero, zero)
  }

  ghost function ReceiveRound1(r: Receiver, a: Scalar): (Receiver, Bytes) {
    (r.(randChoice := KeyedHash(r.nonce, PointBytes(Act(a, r.B)))),
     PointBytes(if r.choice then Add(ActOnBase(a), r.B) else ActOnBase(a)))
  }

  ghost function ReceiveRound2(r: Receiver, challenge: Block): (Receiver, Block) {
    var hh := KeyedHash(r.nonce, KeyedHash(r.nonce, r.randChoice));
    (r.(receivedChallenge := challenge, hhRandChoice := hh), if r.choice then XorBytes(hh, challenge) else hh)
  }

  ghost function ReceiveRound3(r: Receiver, decommit0: Block, decommit1: Block): Result<Block> {
    var h0, h1 := KeyedHash(r.nonce, decommit0), KeyedHash(r.nonce, decommit1);
    if r.receivedChallenge == XorBytes(h0, h1) && (if r.choice then h1 else h0) == r.hhRandChoice then Ok(r.randChoice)
    else Err("RandomOTReceive Round 3: incorrect decommitment")
  }

  ghost function SendRound1(s: Sender, aBytes: Bytes): Result<(Sender, Block)> {
    match PointFromBytes(aBytes)
    case None => Err("UnmarshalBinary")
    case Some(A) =>
      var r0 := KeyedHash(s.nonce, PointBytes(Act(s.b, A)));
      var r1 := KeyedHash(s.nonce, PointBytes(Sub(Act(s.b, A), s.bB)));
      var d0, d1 := KeyedHash(s.nonce, r0), KeyedHash(s.nonce, r1);
      var hd0, hd1 := KeyedHash(s.nonce, d0), KeyedHash(s.nonce, d1);
      Ok((Sender(s.nonce, s.b, s.B, s.bB, r0, r1, d0, d1, hd0), XorBytes(hd0, hd1)))
  }

  /** Round 2 of the sender: on a good response, open both commitments and output both pads. */
  function SendRound2(s: Sender, response: Block): (r: Result<((Block, Block), (Block, Block))>) {
    if response == s.hDecommit0 then Ok(((s.decommit0, s.decommit1), (s.rand0, s.rand1)))
    else Err("RandomOTSender Round2: invalid response")
  }

  /** What the receiver sends in round 1, as a point. */
  function Blinded(B: Point, choice: bool, a: Scalar): (A: Point) {
    if choice then Add(ActOnBase(a), B) else ActOnBase(a)
  }

  /** Whatever the choice, the receiver's a*B is the sender's pad point for that choice. */
  lemma PadPoint(b: Scalar, choice: bool, a: Scalar)
    ensures var A := Blinded(ActOnBase(b), choice, a);
            var bA := Act(b, A);
            Act(a, ActOnBase(b)) == if choice then Sub(bA, Act(b, ActOnBase(b))) else bA
  {
    hide Red;
    MulSwap(a, b, G);
    MulAdd(b, ActOnBase(a), ActOnBase(b));
  }

  /** The sender reads what the receiver sends exactly when the blinded point is not the identity. */
  lemma BlindedRead(nonce: Bytes, setup: SendSetup, choice: bool, a: Scalar)
    ensures SendRound1(NewSender(nonce, setup), ReceiveRound1(NewReceiver(nonce, setup.B, choice), a).1).Ok? <==>
            Blinded(setup.B, choice, a) != 0
  {
    hide Add, Mul, XorBytes, ZeroBytes;
    assert ReceiveRound1(NewReceiver(nonce, setup.B, choice), a).1 == PointBytes(Blinded(setup.B, choice, a));
  }

  /**
    A whole honest instance: unless the blinded point is the identity, no side aborts and the
    receiver ends with the pad of its choice.
   */
  lemma Transfer(nonce: Bytes, b: Scalar, choice: bool, a: Scalar)
    requires Blinded(ActOnBase(b), choice, a) != 0
    ensures var setup := SendSetup(b, ActOnBase(b), Act(b, ActOnBase(b)));
            var (r1, aBytes) := ReceiveRound1(NewReceiver(nonce, setup.B, choice), a);
            var sent1 := SendRound1(NewSender(nonce, setup), aBytes);
            && sent1.Ok?
            && var (s1, challenge) := sent1.value;
               var (r2, response) := ReceiveRound2(r1, challenge);
               var sent2 := SendRound2(s1, response);
               && sent2.Ok?
               && var ((d0, d1), (rand0, rand1)) := sent2.value;
                  ReceiveRound3(r2, d0, d1) == Ok(if choice then rand1 else rand0)
  {
    hide Add, Mul, XorBytes, ZeroBytes;
    PadPoint(b, choice, a);
    var setup := SendSetup(b, ActOnBase(b), Act(b, ActOnBase(b)));
    var (r1, aBytes) := ReceiveRound1(NewReceiver(nonce, setup.B, choice), a);
    assert aBytes == PointBytes(Blinded(setup.B, choice, a));
    var (s1, challenge) := SendRound1(NewSender(nonce, setup), aBytes).value;
    assert r1.randChoice == if choice then s1.rand1 else s1.rand0;
    var hd1 := KeyedHash(nonce, s1.decommit1);
    XorTwice(s1.hDecommit0, hd1);
    XorComm(s1.hDecommit0, hd1);
    assert XorBytes(hd1, XorBytes(s1.hDecommit0, hd1)) == s1.hDecommit0 by {
      XorComm(hd1, XorBytes(s1.hDecommit0, hd1));
    }
  }

  lemma PointBytesInjective(p: Point, q: Point)
    ensures PointBytes(p) == PointBytes(q) <==> p == q
  {
    assert POINTS.1(POINTS.0(p)) == if p != 0 then Some(p) else None;
    assert POINTS.1(POINTS.0(q)) == if q != 0 then Some(q) else None;
  }

  /**
    What the sender's pads are: hashes of b*A and of b*(A - B), which are different points unless b is zero. It
    opens its commitments exactly to who knows the double hash of the first pad.
   */
  lemma PadsOf(nonce: Bytes, b: Scalar, aBytes: Bytes, response: Block)
    requires var setup := SendSetup(b, ActOnBase(b), Act(b, ActOnBase(b)));
             SendRound1(NewSender(nonce, setup), aBytes).Ok?
    ensures var setup := SendSetup(b, ActOnBase(b), Act(b, ActOnBase(b)));
            var (s, challenge) := SendRound1(NewSender(nonce, setup), aBytes).value;
            && PointFromBytes(aBytes).Some?
            && var A := PointFromBytes(aBytes).value;
               var in0, in1 := PointBytes(Act(b, A)), PointBytes(Act(b, Sub(A, ActOnBase(b))));
               && s.rand0 == KeyedHash(nonce, in0) && s.rand1 == KeyedHash(nonce, in1) && (in0 != in1 <==> b != 0)
               && (SendRound2(s, response).Ok? <==> response == KeyedHash(nonce, KeyedHash(nonce, s.rand0)))
               && (SendRound2(s, response).Ok? ==> SendRound2(s, response).value.1 == (s.rand0, s.rand1))
  {
    hide Mul, XorBytes, ZeroBytes, PointBytes, Sub;
    var A := PointFromBytes(aBytes).value;
    MulSub(b, A, ActOnBase(b));
    PointBytesInjective(Act(b, A), Act(b, Sub(A, ActOnBase(b))));
    Apart(Act(b, A), Act(b, ActOnBase(b)));
    MulZero(b);
    MulZero(G);
    if Act(b, ActOnBase(b)) == 0 {
      NoZeroDivisors(b, ActOnBase(b));
      if b != 0 {
        NoZeroDivisors(b, G);
      }
    }
  }

  lemma Apart(p: Point, d: Point)
    ensures Sub(p, d) == p <==> d == 0
  {
  }

  /** A receiver accepts one opening only, unless the hash collides: both commitments are bound by the challenge. */
  lemma OpeningBound(r: Receiver, d0: Block, d1: Block, e0: Block, e1: Block)
    requires ReceiveRound3(r, d0, d1).Ok? && ReceiveRound3(r, e0, e1).Ok?
    ensures KeyedHash(r.nonce, d0) == KeyedHash(r.nonce, e0) && KeyedHash(r.nonce, d1) == KeyedHash(r.nonce, e1)
    ensures XorBytes(KeyedHash(r.nonce, d0), KeyedHash(r.nonce, d1)) == r.receivedChallenge
  {
    hide XorBytes;
    var h0, h1, g0, g1 := KeyedHash(r.nonce, d0), KeyedHash(r.nonce, d1), KeyedHash(r.nonce, e0), KeyedHash(r.nonce, e1);
    XorTwice(h0, h1);
    XorTwice(g0, g1);
    XorComm(h0, h1);
    XorComm(g0, g1);
    XorTwice(h1, h0);
    XorTwice(g1, g0);
  }
}
