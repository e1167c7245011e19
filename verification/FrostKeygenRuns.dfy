/**
  FROST key generation and refresh as rounds of the handler: what whole runs of two honest parties agree on,
  whatever the other parties send to each of them.
 */
module FrostKeygenRuns {
  import opened Zq
  import opened Polynomials
  import opened Party
  import opened Exponents
  import opened Lagrange
  import opened Handler
  import opened HandlerRuns
  import opened HandlerStorage
  import opened HandlerTrace
  import opened Echo
  import opened Rounds
  import K = FrostKeygen
  import Schnorr

  /** What one party starts from, and the randomness it samples. */
  datatype Env = Env(
    self: ID, ids: seq<ID>, threshold: nat, taproot: bool, refresh: bool,
    privateShare: Scalar, publicKey: Point, verificationShares: map<ID, Point>,
    secret: Scalar, sampled: seq<Scalar>, proofNonce: Scalar, chainKey: Data, decommitment: Data,
    transcript: ID -> Schnorr.Transcript)

  /** A party behind the previous polynomial, which is zero when a new key is made. */
  ghost predicate GoodEnv(env: Env, prior: seq<Point>) {
    && K.GoodIDs(env.ids) && env.self in env.ids && |env.sampled| == env.threshold
    && K.Holds(env.self, env.threshold, env.privateShare, env.publicKey, env.verificationShares, env.ids, prior)
  }

  // ---------------------------------------------------------------------- content

  /** The encodings of the three contents, arbitrary functions. */
  const EncodeB2: K.Broadcast2 -> Data
  const EncodeB3: K.Broadcast3 -> Data
  const EncodeM3: Scalar -> Data
  const DecodeB2: Data -> Option<K.Broadcast2>
  const DecodeB3: Data -> Option<K.Broadcast3>
  const DecodeM3: Data -> Option<Scalar>

  /** Decoding an encoded commitment gives it back. */
  ghost predicate Codec() {
    forall b :: DecodeB2(EncodeB2(b)) == Some(b)
  }

  ghost function Own(env: Env): (f: seq<Scalar>)
    ensures |f| == |env.sampled| + 1
  {
    [if env.refresh then 0 else env.secret] + env.sampled
  }

  ghost function OwnPhi(env: Env): Exponent {
    CommitmentTo(Own(env))
  }

  ghost function OwnBroadcast(env: Env, sigma: Option<Schnorr.Proof>): K.Broadcast2 {
    K.Broadcast2(Some(OwnPhi(env)), sigma, K.CommitmentHash(env.transcript(env.self), env.chainKey, env.decommitment))
  }

  /** The commitment in a broadcast of round 1. */
  function PhiOf(d: Data): (e: Exponent) {
    var b := DecodeB2(d);
    if b.Some? && b.value.phi.Some? then b.value.phi.value else Exponent(true, [])
  }

  function CommitmentOf(d: Data): (c: Data) {
    var b := DecodeB2(d);
    if b.Some? then b.value.commitment else []
  }

  function ShareOf(d: Data): (s: Scalar) {
    var s := DecodeM3(d);
    if s.Some? then s.value else 0
  }

  /** All commitments, our own included. */
  ghost function AllPhi(env: Env, b: map<ID, Data>): map<ID, Exponent> {
    (map id | id in b :: PhiOf(b[id]))[env.self := OwnPhi(env)]
  }

  ghost function AllShares(env: Env, m: map<ID, Data>): map<ID, Scalar> {
    (map id | id in m :: ShareOf(m[id]))[env.self := Eval(Own(env), ScalarOf(env.self))]
  }

  /** IDSlice.Remove */
  function Remove(ids: seq<ID>, id: ID): (r: seq<ID>) {
    if |ids| == 0 then []
    else (if ids[0] == id then [] else [ids[0]]) + Remove(ids[1..], id)
  }

  lemma {:induction false} RemoveShorter(ids: seq<ID>, id: ID)
    ensures |Remove(ids, id)| <= |ids| && (id in ids ==> |Remove(ids, id)| < |ids|)
  {
    if |ids| != 0 {
      RemoveShorter(ids[1..], id);
    }
  }

  ghost function ShareMessages(env: Env, to: seq<ID>): (r: seq<Outgoing>)
    ensures |r| == |to| && forall i :: 0 <= i < |r| ==> r[i].number == 3 && !r[i].broadcast
  {
    seq(|to|, i requires 0 <= i < |to| =>
      Outgoing(Some(to[i]), 3, EncodeM3(Eval(Own(env), ScalarOf(to[i]))), false))
  }

  // ----------------------------------------------------------------------- rounds

  function NumberOf(h: Header): (n: nat) {
    if !h.Keygen? then 0 else if h.keygen.Round1? then 1 else if h.keygen.Round2? then 2 else 3
  }

  ghost predicate StoresBroadcast(env: Env, h: Header, from: ID, d: Data) {
    && h.Keygen?
    && match h.keygen
       case Round1 => false
       case Round2 => DecodeB2(d).Some? && K.Stores2(env.refresh, env.transcript(from), DecodeB2(d).value)
       case Round3(_, commitments) =>
         DecodeB3(d).Some? && from in commitments &&
         K.Stores3(env.transcript(from), commitments[from], DecodeB3(d).value)
  }

  ghost predicate StoresMessage(env: Env, h: Header, from: ID, d: Data) {
    && h.Keygen? && h.keygen.Round3? && DecodeM3(d).Some? && from in h.keygen.phi
    && ActOnBase(ShareOf(d)) == Eval(Full(h.keygen.phi[from]), ScalarOf(env.self))
  }

  ghost function Finalize1(env: Env): Handler.Outcome {
    var sigma := if env.refresh then None
                 else Schnorr.NewProof(env.transcript(env.self), ActOnBase(env.secret), env.secret, G, env.proofNonce);
    if !env.refresh && sigma.None? then Failed("nil response")
    else Next(Keygen(K.Round2), [Outgoing(None, 2, EncodeB2(OwnBroadcast(env, sigma)), true)])
  }

  ghost function Finalize2(env: Env, b: map<ID, Data>): Handler.Outcome {
    Next(Keygen(K.Round3(AllPhi(env, b), map id | id in b :: CommitmentOf(b[id]))),
         [Outgoing(None, 3, EncodeB3(K.Broadcast3(env.chainKey, env.decommitment)), true)] +
         ShareMessages(env, Remove(env.ids, env.self)))
  }

  /** A panic of the source is an error here; so is a call before everything has arrived, which cannot happen. */
  ghost function Finalize3(env: Env, phi: map<ID, Exponent>, m: map<ID, Data>): Handler.Outcome {
    var shares := AllShares(env, m);
    if phi.Keys == shares.Keys == IdSet(env.ids) && K.AllOneShape(phi, env.self) then
      Handler.Finished(Some(Key(K.ResultOf(env.self, env.threshold, env.taproot,
        K.Added(env.privateShare, env.publicKey, env.verificationShares, env.ids, shares, phi)))), [])
    else Failed("not all the same shape")
  }

  ghost function FinalizeRound(env: Env, h: Header, b: map<ID, Data>, m: map<ID, Data>): Handler.Outcome {
    if !h.Keygen? then Failed("not a round of this protocol")
    else match h.keygen
      case Round1 => Finalize1(env)
      case Round2 => Finalize2(env, b)
      case Round3(phi, _) => Finalize3(env, phi, m)
  }

  /** Key generation as the handler runs it, with any order of reading queues. */
  ghost function KeygenProtocol(env: Env, order: nat -> seq<ID>, hash: Data -> Digest, session: Data): Protocol {
    Protocol(
      h => NumberOf(h),
      (h: Header) => h.Keygen? && !h.keygen.Round1?,
      (h: Header) => h.Keygen? && h.keygen.Round3?,
      (h: Header, from: ID, d: Data) => StoresBroadcast(env, h, from, d),
      (h: Header, from: ID, b: Option<Data>, d: Data) => StoresMessage(env, h, from, d),
      (h: Header, b: map<ID, Data>, m: map<ID, Data>) => FinalizeRound(env, h, b, m),
      order,
      (h: Header, ms: seq<Message>) => hash(EchoInput(hash, session, ms)))
  }

  /** The session of one party; all of them take part, in the same order of parties. */
  function SessionOf(self: ID, ids: seq<ID>, name: Data, ssid: Data): (s: Session) {
    Session(self, ids, name, ssid, 3)
  }

  ghost predicate IsKeygen(env: Env, p: Protocol, s: Session, hash: Data -> Digest, session: Data) {
    && p == KeygenProtocol(env, p.order, hash, session)
    && s == SessionOf(env.self, env.ids, s.name, s.ssid)
    && env.self in env.ids && forall n :: Covers(p.order(n), env.ids)
  }

  /** One broadcast, then one broadcast and a share for every other party. */
  function Budget(n: nat): (b: nat -> nat) {
    (k: nat) => if k == 1 then 1 else if k == 2 then n else 0
  }

  lemma OutcomeShape(env: Env, h: Header, b: map<ID, Data>, m: map<ID, Data>)
    requires env.self in env.ids
    ensures var o := FinalizeRound(env, h, b, m);
            && !SilentOutcome(o) && Sent(o) <= Budget(|env.ids|)(NumberOf(h))
            && (o.Next? ==> NumberOf(o.header) == NumberOf(h) + 1 <= 3)
            && (o.Next? ==> forall i :: 0 <= i < |o.msgs| ==> o.msgs[i].number == NumberOf(o.header))
            && (o.Aborted? || o.Finished? ==> o.msgs == [])
  {
    hide K.Added, K.ResultOf, K.AllOneShape, AllPhi, OwnBroadcast, Schnorr.NewProof, Eval;
    RemoveShorter(env.ids, env.self);
  }

  /** Its rounds follow each other, send for the next round, never end silently and keep within the budget. */
  lemma KeygenShape(env: Env, p: Protocol, s: Session, hash: Data -> Digest, session: Data)
    requires IsKeygen(env, p, s, hash, session)
    ensures Sane(p, s) && Numbered(p) && Loud(p) && Within(p, Budget(|env.ids|)) && FramedEcho(p, hash, session)
  {
    hide FinalizeRound, EchoInput, Covers, SilentOutcome, Sent;
    forall h, b, m
      ensures var o := p.finalize(h, b, m);
              && !SilentOutcome(o) && Sent(o) <= Budget(|env.ids|)(p.number(h)) && NumberedOutcome(p, o)
              && (o.Next? ==> p.number(h) < p.number(o.header) <= 3)
    {
      OutcomeShape(env, h, b, m);
    }
  }

  lemma BudgetFits(n: nat)
    requires n > 0
    ensures Total(Budget(n), 4) <= 2 * n
  {
    var b := Budget(n);
    assert Total(b, 2) == b(0) + b(1) && Total(b, 4) == Total(b, 2) + b(2) + b(3);
  }

  /** No run of key generation fills the channel, and the channel is closed once, at the end. */
  lemma KeygenChannel(env: Env, p: Protocol, s: Session, hash: Data -> Digest, session: Data, ms: seq<Message>)
    requires IsKeygen(env, p, s, hash, session)
    ensures Bounded(p, s)
    ensures var st := Run(p, s, Keygen(K.Round1), ms);
            |st.out| <= 2 * |s.parties| && ClosedOnce(st)
  {
    hide KeygenProtocol, Run, Within, Numbered, ClosedOnce, Total;
    KeygenShape(env, p, s, hash, session);
    BudgetFits(|env.ids|);
    assert p.number(Keygen(K.Round1)) == 1 by { NumberIs(env, p, s, hash, session); }
    BufferSuffices(p, s, Budget(|env.ids|), Keygen(K.Round1), ms);
    LoudClosedOnce(p, s, Keygen(K.Round1), ms);
  }

  lemma NumberIs(env: Env, p: Protocol, s: Session, hash: Data -> Digest, session: Data)
    requires IsKeygen(env, p, s, hash, session)
    ensures forall h :: p.number(h) == NumberOf(h)
    ensures forall h, b, m :: p.finalize(h, b, m) == FinalizeRound(env, h, b, m)
  {
  }

  // ------------------------------------------------------------------ where a result comes from

  const R1: Header := Keygen(K.Round1)
  const R2: Header := Keygen(K.Round2)

  /** The commitments that a party has got, read off its queue of round 2. */
  ghost function PhiIn(env: Env, p: Protocol, s: Session, st: State): map<ID, Exponent> {
    AllPhi(env, GotB(p, s, st, R2))
  }

  /** A result is made in round 3, which was entered from round 2 with the commitments queued there. */
  lemma ResultRounds(env: Env, p: Protocol, s: Session, hash: Data -> Digest, session: Data, st: State)
    requires IsKeygen(env, p, s, hash, session) && Traced(p, s, R1, st) && st.result.Some?
    ensures Finalized(2) in st.log && 2 in st.rounds && st.rounds[2] == R2
    ensures Finalized(3) in st.log && 3 in st.rounds && st.rounds[3].Keygen? && st.rounds[3].keygen.Round3?
    ensures st.rounds[3].keygen.phi == PhiIn(env, p, s, st)
    ensures Handler.Finished(st.result, []) == Finalize3(env, PhiIn(env, p, s, st), GotM(p, st, st.rounds[3]))
  {
    hide Traced, IsKeygen, PhiIn, GotB, GotM;
    LastRound(env, p, s, hash, session, st);
    RoundBefore(env, p, s, hash, session, st);
  }

  lemma LastRound(env: Env, p: Protocol, s: Session, hash: Data -> Digest, session: Data, st: State)
    requires IsKeygen(env, p, s, hash, session) && Traced(p, s, R1, st) && st.result.Some?
    ensures Finalized(3) in st.log && 3 in st.rounds && st.rounds[3].Keygen? && st.rounds[3].keygen.Round3?
    ensures Handler.Finished(st.result, []) == Finalize3(env, st.rounds[3].keygen.phi, GotM(p, st, st.rounds[3]))
  {
    NumberIs(env, p, s, hash, session);
    hide IsKeygen, GotB, GotM, Finalize3, Traced, FinalizeRound;
    var k := ResultFrom(p, s, R1, st);
    FinishedFrom(env, st.rounds[k], GotB(p, s, st, st.rounds[k]), GotM(p, st, st.rounds[k]));
  }

  lemma RoundBefore(env: Env, p: Protocol, s: Session, hash: Data -> Digest, session: Data, st: State)
    requires IsKeygen(env, p, s, hash, session) && Traced(p, s, R1, st)
    requires 3 in st.rounds && st.rounds[3].Keygen? && st.rounds[3].keygen.Round3?
    ensures Finalized(2) in st.log && 2 in st.rounds && st.rounds[2] == R2
    ensures st.rounds[3].keygen.phi == PhiIn(env, p, s, st)
  {
    NumberIs(env, p, s, hash, session);
    hide IsKeygen, GotB, GotM, Traced, FinalizeRound, AllPhi;
    var k := RoundFrom(p, s, R1, st, 3);
    NextFrom(env, st.rounds[k], GotB(p, s, st, st.rounds[k]), GotM(p, st, st.rounds[k]));
  }

  lemma FinishedFrom(env: Env, h: Header, b: map<ID, Data>, m: map<ID, Data>)
    requires FinalizeRound(env, h, b, m).Finished?
    ensures h.Keygen? && h.keygen.Round3? && FinalizeRound(env, h, b, m) == Finalize3(env, h.keygen.phi, m)
    ensures FinalizeRound(env, h, b, m).msgs == []
  {
  }

  lemma NextFrom(env: Env, h: Header, b: map<ID, Data>, m: map<ID, Data>)
    requires FinalizeRound(env, h, b, m).Next?
    ensures var next := FinalizeRound(env, h, b, m).header;
            next.Keygen? && !next.keygen.Round1? && (next.keygen.Round3? ==> h == R2 && next.keygen.phi == AllPhi(env, b))
  {
  }

  /** Everybody's commitment and share are in, and passed their checks. */
  ghost predicate Supplied(env: Env, phi: map<ID, Exponent>, shares: map<ID, Scalar>) {
    && phi.Keys == shares.Keys == IdSet(env.ids) && env.self in env.ids
    && (forall k :: k in env.ids ==> ActOnBase(shares[k]) == Eval(Full(phi[k]), ScalarOf(env.self)))
    && phi[env.self] == OwnPhi(env)
  }

  lemma GotAll(env: Env, p: Protocol, s: Session, hash: Data -> Digest, session: Data, st: State)
    requires IsKeygen(env, p, s, hash, session) && QueueOk(s, st.broadcast) && QueueOk(s, st.messages)
    requires forall n :: n in st.messages ==> s.self !in st.messages[n]
    requires AllIn(p, s, st, R2) && 3 in st.rounds && st.rounds[3].Keygen? && st.rounds[3].keygen.Round3?
    requires AllIn(p, s, st, st.rounds[3])
    ensures GotB(p, s, st, R2).Keys == IdSet(env.ids) - {env.self}
    ensures GotM(p, st, st.rounds[3]).Keys == IdSet(env.ids) - {env.self}
    ensures 2 in st.broadcast && 2 in st.hashes && forall id :: id in env.ids ==> id in st.broadcast[2]
  {
    forall id ensures id in GotB(p, s, st, R2) <==> id in env.ids && id != env.self {
      if id in st.broadcast[2] {
        Entry(s, st.broadcast, 2, id);
      }
    }
    forall id ensures id in GotM(p, st, st.rounds[3]) <==> id in env.ids && id != env.self {
      if id in st.messages[3] {
        Entry(s, st.messages, 3, id);
      }
    }
  }

  lemma OwnOpens(env: Env)
    ensures |Full(OwnPhi(env))| == |env.sampled| + 1
    ensures ActOnBase(Eval(Own(env), ScalarOf(env.self))) == Eval(Full(OwnPhi(env)), ScalarOf(env.self))
  {
    CommitmentOpens(Own(env));
  }

  lemma RunSupplied(env: Env, p: Protocol, s: Session, hash: Data -> Digest, session: Data, st: State)
    requires IsKeygen(env, p, s, hash, session) && QueueOk(s, st.broadcast) && QueueOk(s, st.messages)
    requires forall n :: n in st.messages ==> s.self !in st.messages[n]
    requires AllIn(p, s, st, R2) && 3 in st.rounds && st.rounds[3].Keygen? && st.rounds[3].keygen.Round3?
    requires AllIn(p, s, st, st.rounds[3]) && Checked(p, s, st, st.rounds[3])
    requires st.rounds[3].keygen.phi == PhiIn(env, p, s, st)
    ensures Supplied(env, PhiIn(env, p, s, st), AllShares(env, GotM(p, st, st.rounds[3])))
  {
    GotAll(env, p, s, hash, session, st);
    CheckedShares(env, p, s, hash, session, st);
    hide QueueOk, AllIn, Checked, GotB, GotM, IsKeygen;
    SharesOpen(env, GotB(p, s, st, R2), GotM(p, st, st.rounds[3]), st.rounds[3]);
  }

  lemma CheckedShares(env: Env, p: Protocol, s: Session, hash: Data -> Digest, session: Data, st: State)
    requires IsKeygen(env, p, s, hash, session) && 3 in st.rounds && Checked(p, s, st, st.rounds[3])
    ensures env.self in env.ids
    ensures forall id :: id in GotM(p, st, st.rounds[3]) ==>
        StoresMessage(env, st.rounds[3], id, GotM(p, st, st.rounds[3])[id])
  {
    hide GotB, GotM, StoresMessage, EchoInput, FinalizeRound, StoresBroadcast;
    var h, m := st.rounds[3], GotM(p, st, st.rounds[3]);
    forall id | id in m ensures StoresMessage(env, h, id, m[id]) {
      assert p.okM(h, id, Lookup(GotB(p, s, st, h), id), m[id]);
    }
  }

  /** Shares that were stored open the commitments; our own opens ours. */
  lemma SharesOpen(env: Env, b: map<ID, Data>, m: map<ID, Data>, h: Header)
    requires b.Keys == m.Keys == IdSet(env.ids) - {env.self} && env.self in env.ids
    requires h.Keygen? && h.keygen.Round3? && h.keygen.phi == AllPhi(env, b)
    requires forall id :: id in m ==> StoresMessage(env, h, id, m[id])
    ensures Supplied(env, AllPhi(env, b), AllShares(env, m))
  {
    OwnOpens(env);
    hide Eval, Full, OwnPhi, Own, ShareOf, PhiOf;
    var phi, shares := AllPhi(env, b), AllShares(env, m);
    assert phi.Keys == IdSet(env.ids) && shares.Keys == IdSet(env.ids);
    forall k | k in env.ids ensures ActOnBase(shares[k]) == Eval(Full(phi[k]), ScalarOf(env.self)) {
      if k != env.self {
        assert k in m && StoresMessage(env, h, k, m[k]);
      }
    }
  }

  /** The result of round 3 on checked input is behind one polynomial, which depends on the commitments alone. */
  lemma FinishedBehind(env: Env, prior: seq<Point>, phi: map<ID, Exponent>, m: map<ID, Data>)
    requires GoodEnv(env, prior) && Supplied(env, phi, AllShares(env, m)) && Finalize3(env, phi, m).Finished?
    ensures K.OneLength(phi, env.ids, prior)
    ensures Finalize3(env, phi, m).result.value.Key?
    ensures K.Finished(Finalize3(env, phi, m).result.value.key, env.self, env.threshold, env.taproot, env.ids,
                       K.Outcome(phi, env.ids, prior))
  {
    OwnOpens(env);
    hide Eval, Full, OwnPhi, Own, K.Added, K.ResultOf, K.Holds, AllShares, K.Outcome, K.OneLength, K.GoodIDs,
      K.AllOneShape, K.Finished;
    var shares := AllShares(env, m);
    K.AddedHolds(env.self, env.threshold, env.privateShare, env.publicKey, env.verificationShares, env.ids, prior,
                 shares, phi);
    K.ResultFinished(env.self, env.threshold, env.taproot,
                     K.Added(env.privateShare, env.publicKey, env.verificationShares, env.ids, shares, phi), env.ids,
                     K.Outcome(phi, env.ids, prior));
  }

  /**
    A run that has a result, whatever the peers sent: all commitments were in, and the key and every share are
    values of one polynomial of degree t that is a function of the commitments in the queue.
   */
  lemma KeygenResult(env: Env, prior: seq<Point>, p: Protocol, s: Session, hash: Data -> Digest, session: Data,
                     ms: seq<Message>)
    requires IsKeygen(env, p, s, hash, session) && GoodEnv(env, prior) && Bounded(p, s)
    requires Run(p, s, R1, ms).result.Some?
    ensures var st := Run(p, s, R1, ms);
            && Past(p, s, st, 2) && PhiIn(env, p, s, st).Keys == IdSet(env.ids)
            && K.OneLength(PhiIn(env, p, s, st), env.ids, prior) && st.result.value.Key?
            && K.Finished(st.result.value.key, env.self, env.threshold, env.taproot, env.ids,
                          K.Outcome(PhiIn(env, p, s, st), env.ids, prior))
  {
    var st := Run(p, s, R1, ms);
    hide Run, K.Finished, K.Outcome, K.OneLength, GotB, GotM, AllPhi, Finalize3, AllShares, GoodEnv, Supplied;
    KeygenShape(env, p, s, hash, session);
    RunTraced(p, s, R1, ms);
    RunStorage(p, s, R1, ms);
    StorageQueues(p, s, st);
    ResultRounds(env, p, s, hash, session, st);
    TracedAt(p, s, R1, st, 2);
    TracedAt(p, s, R1, st, 3);
    hide Traced, Storage, AllIn, Checked, FinalizeRound, EchoInput;
    GotAll(env, p, s, hash, session, st);
    RunSupplied(env, p, s, hash, session, st);
    FinishedBehind(env, prior, PhiIn(env, p, s, st), GotM(p, st, st.rounds[3]));
    SuppliedKeys(env, PhiIn(env, p, s, st), AllShares(env, GotM(p, st, st.rounds[3])));
  }

  lemma SuppliedKeys(env: Env, phi: map<ID, Exponent>, shares: map<ID, Scalar>)
    requires Supplied(env, phi, shares)
    ensures phi.Keys == IdSet(env.ids)
  {
  }

  lemma QueuedConstants(env: Env, p: Protocol, s: Session, hash: Data -> Digest, session: Data, st: State)
    requires IsKeygen(env, p, s, hash, session) && env.refresh && Checked(p, s, st, R2)
    ensures forall k :: k in PhiIn(env, p, s, st) ==>
        K.WellFormed(PhiIn(env, p, s, st)[k]) && Constant(PhiIn(env, p, s, st)[k]) == 0
  {
    hide GotB, EchoInput, FinalizeRound, StoresMessage;
    var b := GotB(p, s, st, R2);
    forall k | k in b ensures K.WellFormed(PhiOf(b[k])) && Constant(PhiOf(b[k])) == 0 {
      assert p.okB(R2, k, b[k]);
      assert StoresBroadcast(env, R2, k, b[k]);
    }
  }

  /** A refresh that has a result leaves the value at zero, and with it the key, where it was. */
  lemma RefreshKeepsKey(env: Env, prior: seq<Point>, p: Protocol, s: Session, hash: Data -> Digest, session: Data,
                        ms: seq<Message>)
    requires IsKeygen(env, p, s, hash, session) && GoodEnv(env, prior) && Bounded(p, s) && env.refresh
    requires Run(p, s, R1, ms).result.Some?
    ensures var phi := PhiIn(env, p, s, Run(p, s, R1, ms));
            K.OneLength(phi, env.ids, prior) && Eval(K.Outcome(phi, env.ids, prior), 0) == Eval(prior, 0)
  {
    var st := Run(p, s, R1, ms);
    hide Run, K.Finished, K.Outcome, K.OneLength, PhiIn, GoodEnv, Past, Checked, AllIn;
    KeygenResult(env, prior, p, s, hash, session, ms);
    KeygenShape(env, p, s, hash, session);
    RunTraced(p, s, R1, ms);
    ResultRounds(env, p, s, hash, session, st);
    TracedAt(p, s, R1, st, 2);
    hide Traced, IsKeygen;
    QueuedConstants(env, p, s, hash, session, st);
    K.RefreshKeepsPublicKey(PhiIn(env, p, s, st), env.ids, prior);
  }

  /** Somebody has proved in k's transcript to know the logarithm of a point. */
  ghost predicate Proved(env: Env, k: ID, public: Point) {
    exists sigma :: Schnorr.Verify(env.transcript(k), sigma, public, G)
  }

  lemma QueuedProofs(env: Env, p: Protocol, s: Session, hash: Data -> Digest, session: Data, st: State)
    requires IsKeygen(env, p, s, hash, session) && !env.refresh && Checked(p, s, st, R2)
    ensures forall k :: k in PhiIn(env, p, s, st) && k != env.self ==>
        K.WellFormed(PhiIn(env, p, s, st)[k]) && Proved(env, k, Constant(PhiIn(env, p, s, st)[k]))
  {
    hide GotB, EchoInput, FinalizeRound, StoresMessage, Schnorr.Verify, K.ValidBytes;
    var b := GotB(p, s, st, R2);
    forall k | k in b ensures K.WellFormed(PhiOf(b[k])) && Proved(env, k, Constant(PhiOf(b[k]))) {
      assert p.okB(R2, k, b[k]);
      assert StoresBroadcast(env, R2, k, b[k]);
    }
  }

  /** In every run that makes a new key and has a result, every peer has proved to know the constant it committed to. */
  lemma ProofsChecked(env: Env, p: Protocol, s: Session, hash: Data -> Digest, session: Data, ms: seq<Message>)
    requires IsKeygen(env, p, s, hash, session) && Bounded(p, s) && !env.refresh && Run(p, s, R1, ms).result.Some?
    ensures var phi := PhiIn(env, p, s, Run(p, s, R1, ms));
            forall k :: k in phi && k != env.self ==> K.WellFormed(phi[k]) && Proved(env, k, Constant(phi[k]))
  {
    var st := Run(p, s, R1, ms);
    hide Run, PhiIn, Checked, AllIn;
    KeygenShape(env, p, s, hash, session);
    RunTraced(p, s, R1, ms);
    ResultRounds(env, p, s, hash, session, st);
    TracedAt(p, s, R1, st, 2);
    hide Traced, IsKeygen;
    QueuedProofs(env, p, s, hash, session, st);
  }

  // ------------------------------------------------------------------- agreement

  /** Our own commitment is the one in our broadcast of round 1. */
  lemma OwnQueued(env: Env, p: Protocol, s: Session, hash: Data -> Digest, session: Data, st: State)
    requires IsKeygen(env, p, s, hash, session) && Traced(p, s, R1, st) && Codec()
    requires 2 in st.broadcast && env.self in st.broadcast[2]
    ensures PhiOf(DataOf(st.broadcast[2][env.self])) == OwnPhi(env)
  {
    NumberIs(env, p, s, hash, session);
    assert s.self == env.self;
    hide IsKeygen, GotB, GotM, Traced, Announced, FinalizeRound, OwnPhi, PhiOf, Codec;
    var k := OwnFrom(p, s, R1, st, 2);
    AnnouncedOwn(env, st.rounds[k], GotB(p, s, st, st.rounds[k]), GotM(p, st, st.rounds[k]), st.broadcast[2][env.self]);
  }

  lemma AnnouncedOwn(env: Env, h: Header, b: map<ID, Data>, m: map<ID, Data>, own: Message)
    requires Announced(FinalizeRound(env, h, b, m), 2, own) && Codec()
    ensures PhiOf(DataOf(own)) == OwnPhi(env)
  {
    hide OwnPhi, Schnorr.NewProof, K.Added, K.ResultOf, AllPhi;
    var o := FinalizeRound(env, h, b, m);
    var i :| 0 <= i < |Msgs(o)| && Msgs(o)[i].broadcast && Msgs(o)[i].number == 2 && own.data == Some(Msgs(o)[i].data);
    assert h == R1;
  }

  /** Every commitment a party works with is the one in its queue. */
  lemma PhiQueued(env: Env, p: Protocol, s: Session, hash: Data -> Digest, session: Data, st: State, id: ID)
    requires IsKeygen(env, p, s, hash, session) && Traced(p, s, R1, st) && Codec()
    requires 2 in st.broadcast && id in st.broadcast[2]
    ensures id in PhiIn(env, p, s, st) && PhiIn(env, p, s, st)[id] == PhiOf(DataOf(st.broadcast[2][id]))
  {
    if id == env.self {
      OwnQueued(env, p, s, hash, session, st);
    }
  }

  /** Equal broadcasts of round 2 are equal commitments. */
  lemma SamePhi(ei: Env, ej: Env, p: Protocol, q: Protocol, si: Session, sj: Session, hash: Data -> Digest,
                session: Data, a: State, b: State)
    requires IsKeygen(ei, p, si, hash, session) && IsKeygen(ej, q, sj, hash, session) && ei.ids == ej.ids && Codec()
    requires Traced(p, si, R1, a) && Traced(q, sj, R1, b) && SameRound(ei.ids, a, b, 2)
    requires PhiIn(ei, p, si, a).Keys == PhiIn(ej, q, sj, b).Keys == IdSet(ei.ids)
    ensures PhiIn(ei, p, si, a) == PhiIn(ej, q, sj, b)
  {
    hide Traced, IsKeygen, PhiIn, PhiOf, Codec;
    forall id | id in ei.ids ensures PhiIn(ei, p, si, a)[id] == PhiIn(ej, q, sj, b)[id] {
      PhiQueued(ei, p, si, hash, session, a, id);
      PhiQueued(ej, q, sj, hash, session, b, id);
    }
  }

  /** What the verification shares of t+1 parties interpolate to. */
  ghost predicate Quorum(r: K.KeygenResult, ids: seq<ID>, t: nat, quorum: seq<ID>, terms: seq<Point>) {
    && K.GoodIDs(quorum) && (forall k :: k in quorum ==> k in ids && k in K.SharesOf(r)) && |quorum| == |terms| > t
    && forall j :: 0 <= j < |quorum| ==> terms[j] == Act(Lambda(Points(quorum), j), K.SharesOf(r)[quorum[j]])
  }

  /** Two results fit together: one key, one list of verification shares that open, and any quorum gives the key. */
  ghost predicate Agree(a: ID, ra: K.KeygenResult, b: ID, rb: K.KeygenResult, ids: seq<ID>, t: nat) {
    && K.SharesOf(ra).Keys == IdSet(ids) && a in ids && b in ids
    && K.PublicKeyOf(ra) == K.PublicKeyOf(rb) && K.SharesOf(ra) == K.SharesOf(rb)
    && ActOnBase(K.PrivateShareOf(ra)) == K.SharesOf(rb)[a] && ActOnBase(K.PrivateShareOf(rb)) == K.SharesOf(ra)[b]
    && forall quorum, terms :: Quorum(ra, ids, t, quorum, terms) && K.PublicKeyOf(ra).Some? ==>
         K.PublicKeyOf(ra) == Some(Sum(terms))
  }

  lemma OnePolynomialAgrees(a: ID, ra: K.KeygenResult, b: ID, rb: K.KeygenResult, ids: seq<ID>, t: nat, taproot: bool,
                            F: seq<Point>)
    requires a in ids && b in ids
    requires K.Finished(ra, a, t, taproot, ids, F) && K.Finished(rb, b, t, taproot, ids, F)
    ensures Agree(a, ra, b, rb, ids, t)
  {
    hide K.Finished, K.PublicKeyOf, K.SharesOf, K.PrivateShareOf, Lambda, K.GoodIDs, Mul, Eval;
    K.FinishedAgree(a, b, t, taproot, ids, F, ra, rb);
    if taproot && K.PublicKeyOf(ra).Some? {
      KeyNotIdentity(ra, a, t, taproot, ids, F);
    }
    forall quorum, terms | Quorum(ra, ids, t, quorum, terms) && K.PublicKeyOf(ra).Some?
      ensures K.PublicKeyOf(ra) == Some(Sum(terms))
    {
      K.FinishedReconstructs(a, t, taproot, ids, F, ra, quorum, terms);
    }
  }

  lemma KeyNotIdentity(r: K.KeygenResult, a: ID, t: nat, taproot: bool, ids: seq<ID>, F: seq<Point>)
    requires K.Finished(r, a, t, taproot, ids, F) && taproot && K.PublicKeyOf(r).Some?
    ensures Eval(F, 0) != 0
  {
    hide Eval;
  }

  /**
    Agreement. Whatever the other parties send to each of them: if the runs of two honest parties i and j both
    end with a result, what i stored from j in round 3 came from j, and the hash of the broadcasts of round 2 has
    no collision, then the two results fit together. No common polynomial is assumed; it is derived from the echo.
   */
  lemma KeygenAgreement(ei: Env, ej: Env, prior: seq<Point>, p: Protocol, q: Protocol, si: Session, sj: Session,
                        hash: Data -> Digest, session: Data, mi: seq<Message>, mj: seq<Message>)
    requires IsKeygen(ei, p, si, hash, session) && IsKeygen(ej, q, sj, hash, session) && IsHash(hash) && Codec()
    requires Bounded(p, si) && Bounded(q, sj)
    requires GoodEnv(ei, prior) && GoodEnv(ej, prior) && ei.ids == ej.ids && ei.self != ej.self
    requires ei.threshold == ej.threshold && ei.taproot == ej.taproot
    requires Run(p, si, R1, mi).result.Some? && Run(q, sj, R1, mj).result.Some?
    requires Authentic(Run(p, si, R1, mi), ej.self, Run(q, sj, R1, mj), 3)
    requires HashedSafely(hash, session, ei.ids, Run(p, si, R1, mi), Run(q, sj, R1, mj), 2)
    ensures var ra, rb := Run(p, si, R1, mi).result.value, Run(q, sj, R1, mj).result.value;
            ra.Key? && rb.Key? && Agree(ei.self, ra.key, ej.self, rb.key, ei.ids, ei.threshold)
  {
    var a, b := Run(p, si, R1, mi), Run(q, sj, R1, mj);
    hide Run, KeygenProtocol, K.Finished, K.Outcome, K.OneLength, PhiIn, Authentic, HashedSafely, IsHash, FramedEcho,
      Traced, Agree, Numbered, Past, SameRound, NoCollision, Codec, K.GoodIDs, K.Holds;
    KeygenResult(ei, prior, p, si, hash, session, mi);
    KeygenResult(ej, prior, q, sj, hash, session, mj);
    KeygenShape(ei, p, si, hash, session);
    KeygenShape(ej, q, sj, hash, session);
    FramedNoCollision(p, q, hash, session, ei.ids, a, b, 2);
    Agreement(p, q, si, sj, R1, R1, mi, mj, 2);
    RunTraced(p, si, R1, mi);
    RunTraced(q, sj, R1, mj);
    SamePhi(ei, ej, p, q, si, sj, hash, session, a, b);
    OnePolynomialAgrees(ei.self, a.result.value.key, ej.self, b.result.value.key, ei.ids, ei.threshold, ei.taproot,
                        K.Outcome(PhiIn(ei, p, si, a), ei.ids, prior));
  }
}
