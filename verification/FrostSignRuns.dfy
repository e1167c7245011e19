/** FROST signing as rounds of the handler: what whole runs of honest signers among arbitrary ones end with. */
module FrostSignRuns {
  import opened Zq
  import opened Party
  import opened Curve
  import opened Handler
  import opened HandlerRuns
  import opened HandlerStorage
  import opened HandlerTrace
  import opened Echo
  import opened Rounds
  import K = FrostKeygen
  import S = FrostSign
  import T = Taproot

  /** What one signer starts from, and its two nonces. */
  datatype Env = Env(self: ID, ids: seq<ID>, taproot: bool, M: S.Message, Y: Point, YShares: map<ID, Point>,
                     s: Scalar, d: Scalar, e: Scalar)

  ghost predicate GoodEnv(env: Env, F: seq<Point>) {
    && S.GoodKey(env.self, env.ids, env.Y, env.YShares, env.s, F)
    && (env.taproot ==> env.Y != 0 && EvenY(env.Y))
  }

  // ---------------------------------------------------------------------- content

  /** The encodings of the two contents, arbitrary functions. */
  const EncodeB2: ((Point, Point)) -> Data
  const EncodeB3: Scalar -> Data
  const DecodeB2: Data -> Option<(Point, Point)>
  const DecodeB3: Data -> Option<Scalar>

  /** Decoding encoded nonce commitments gives them back. */
  ghost predicate Codec() {
    forall c :: DecodeB2(EncodeB2(c)) == Some(c)
  }

  function NoncesOf(d: Data): (c: (Point, Point)) {
    if DecodeB2(d).Some? then DecodeB2(d).value else (0, 0)
  }

  function ResponseOf(d: Data): (z: Scalar) {
    if DecodeB3(d).Some? then DecodeB3(d).value else 0
  }

  function OwnNonces(env: Env): (c: (Point, Point)) {
    (ActOnBase(env.d), ActOnBase(env.e))
  }

  ghost function AllD(env: Env, b: map<ID, Data>): map<ID, Point> {
    (map id | id in b :: NoncesOf(b[id]).0)[env.self := OwnNonces(env).0]
  }

  ghost function AllE(env: Env, b: map<ID, Data>): map<ID, Point> {
    (map id | id in b :: NoncesOf(b[id]).1)[env.self := OwnNonces(env).1]
  }

  ghost function AllZ(env: Env, z: Scalar, b: map<ID, Data>): map<ID, Scalar> {
    (map id | id in b :: ResponseOf(b[id]))[env.self := z]
  }

  // ----------------------------------------------------------------------- rounds

  function NumberOf(h: Header): (n: nat) {
    if !h.Signing? then 0 else if h.signing.Round1? then 1 else if h.signing.Round2? then 2 else 3
  }

  ghost predicate StoresBroadcast(env: Env, h: Header, from: ID, d: Data) {
    && h.Signing?
    && match h.signing
       case Round1 => false
       case Round2 => DecodeB2(d).Some? && NoncesOf(d).0 != 0 && NoncesOf(d).1 != 0
       case Round3(_, _, ch, _) =>
         && DecodeB3(d).Some? && from in ch.lambda && from in env.YShares && from in ch.RShares
         && S.ResponseOk(ResponseOf(d), ch.c, ch.lambda[from], env.YShares[from], ch.RShares[from])
  }

  /** A call before everything has arrived cannot happen. */
  ghost function Finalize2(env: Env, b: map<ID, Data>): Outcome {
    var D, E := AllD(env, b), AllE(env, b);
    if D.Keys == IdSet(env.ids) && env.self in env.ids then
      var ch := S.ChallengeIn(env.ids, env.taproot, env.M, env.Y, D, E);
      var z := S.OwnResponse(env.self, env.ids, env.taproot, env.M, env.s, env.d, env.e, D, E, ch);
      Next(Signing(S.Round3(D, E, ch, z)), [Outgoing(None, 3, EncodeB3(z), true)])
    else Failed("incomplete")
  }

  ghost function Finalize3(env: Env, R: Point, zs: map<ID, Scalar>): Outcome {
    if zs.Keys == IdSet(env.ids) then
      var r := S.SignatureOf(env.taproot, env.M, env.Y, R, Add(0, Sum(K.Lookup(zs, env.ids))));
      if r.Abort? then Aborted(Some(r.error), [], []) else Finished(Some(Signature(r)), [])
    else Failed("incomplete")
  }

  ghost function FinalizeRound(env: Env, h: Header, b: map<ID, Data>): Outcome {
    if !h.Signing? then Failed("not a round of this protocol")
    else match h.signing
      case Round1 => Next(Signing(S.Round2), [Outgoing(None, 2, EncodeB2(OwnNonces(env)), true)])
      case Round2 => Finalize2(env, b)
      case Round3(_, _, ch, z) => Finalize3(env, ch.R, AllZ(env, z, b))
  }

  /** Signing as the handler runs it, with any order of reading queues. */
  ghost function SignProtocol(env: Env, order: nat -> seq<ID>, hash: Data -> Digest, session: Data): Protocol {
    Protocol(
      h => NumberOf(h),
      (h: Header) => h.Signing? && !h.signing.Round1?,
      (h: Header) => false,
      (h: Header, from: ID, d: Data) => StoresBroadcast(env, h, from, d),
      (h: Header, from: ID, b: Option<Data>, d: Data) => false,
      (h: Header, b: map<ID, Data>, m: map<ID, Data>) => FinalizeRound(env, h, b),
      order,
      (h: Header, ms: seq<Message>) => hash(EchoInput(hash, session, ms)))
  }

  ghost predicate IsSigning(env: Env, p: Protocol, s: Session, hash: Data -> Digest, session: Data) {
    && p == SignProtocol(env, p.order, hash, session)
    && s == Session(env.self, env.ids, s.name, s.ssid, 3)
    && env.self in env.ids && forall n :: Covers(p.order(n), env.ids)
  }

  /** One broadcast in each of the first two rounds. */
  function Budget(): (b: nat -> nat) {
    (k: nat) => if k == 1 || k == 2 then 1 else 0
  }

  lemma OutcomeShape(env: Env, h: Header, b: map<ID, Data>)
    ensures var o := FinalizeRound(env, h, b);
            && !SilentOutcome(o) && Sent(o) <= Budget()(NumberOf(h))
            && (o.Next? ==> NumberOf(o.header) == NumberOf(h) + 1 <= 3)
            && (o.Next? ==> forall i :: 0 <= i < |o.msgs| ==> o.msgs[i].number == NumberOf(o.header))
            && (o.Aborted? || o.Finished? ==> o.msgs == [])
  {
    hide S.SignatureOf, S.ChallengeIn, S.OwnResponse, AllD, AllE, AllZ, OwnNonces;
  }

  /** Its rounds follow each other, send for the next round, never end silently and keep within the budget. */
  lemma SignShape(env: Env, p: Protocol, s: Session, hash: Data -> Digest, session: Data)
    requires IsSigning(env, p, s, hash, session)
    ensures Sane(p, s) && Numbered(p) && Loud(p) && Within(p, Budget()) && FramedEcho(p, hash, session)
  {
    hide FinalizeRound, EchoInput, Covers, SilentOutcome, Sent;
    forall h, b, m
      ensures var o := p.finalize(h, b, m);
              && !SilentOutcome(o) && Sent(o) <= Budget()(p.number(h)) && NumberedOutcome(p, o)
              && (o.Next? ==> p.number(h) < p.number(o.header) <= 3)
    {
      OutcomeShape(env, h, b);
    }
  }

  lemma BudgetFits(n: nat)
    requires n > 0
    ensures Total(Budget(), 4) <= 2 * n
  {
    var b := Budget();
    assert Total(b, 2) == b(0) + b(1) && Total(b, 4) == Total(b, 2) + b(2) + b(3);
  }

  const R1: Header := Signing(S.Round1)
  const R2: Header := Signing(S.Round2)

  lemma ProtocolIs(env: Env, p: Protocol, s: Session, hash: Data -> Digest, session: Data)
    requires IsSigning(env, p, s, hash, session)
    ensures forall h :: p.number(h) == NumberOf(h)
    ensures forall h, b, m :: p.finalize(h, b, m) == FinalizeRound(env, h, b)
    ensures forall h, from, d :: p.okB(h, from, d) == StoresBroadcast(env, h, from, d)
  {
  }

  /** No run of signing fills the channel, and the channel is closed once, at the end. */
  lemma SignChannel(env: Env, p: Protocol, s: Session, hash: Data -> Digest, session: Data, ms: seq<Message>)
    requires IsSigning(env, p, s, hash, session)
    ensures Bounded(p, s)
    ensures var st := Run(p, s, R1, ms);
            |st.out| <= 2 * |s.parties| && ClosedOnce(st)
  {
    hide SignProtocol, Run, Within, Numbered, ClosedOnce, Total;
    SignShape(env, p, s, hash, session);
    BudgetFits(|env.ids|);
    ProtocolIs(env, p, s, hash, session);
    BufferSuffices(p, s, Budget(), R1, ms);
    LoudClosedOnce(p, s, R1, ms);
  }

  // ------------------------------------------------------------------ where a result comes from

  ghost function DIn(env: Env, p: Protocol, s: Session, st: State): map<ID, Point> {
    AllD(env, GotB(p, s, st, R2))
  }

  ghost function EIn(env: Env, p: Protocol, s: Session, st: State): map<ID, Point> {
    AllE(env, GotB(p, s, st, R2))
  }

  /** The challenge for the nonce commitments in the queue of round 2. */
  ghost predicate Challenges(env: Env, p: Protocol, s: Session, st: State, ch: S.Challenged) {
    var D, E := DIn(env, p, s, st), EIn(env, p, s, st);
    D.Keys == E.Keys == IdSet(env.ids) && ch == S.ChallengeIn(env.ids, env.taproot, env.M, env.Y, D, E)
  }

  lemma NextFrom(env: Env, h: Header, b: map<ID, Data>)
    requires FinalizeRound(env, h, b).Next?
    ensures var next := FinalizeRound(env, h, b).header;
            && next.Signing? && !next.signing.Round1?
            && (next.signing.Round3? ==> h == R2 && FinalizeRound(env, h, b) == Finalize2(env, b))
  {
  }

  lemma FinishedFrom(env: Env, h: Header, b: map<ID, Data>)
    requires FinalizeRound(env, h, b).Finished?
    ensures h.Signing? && h.signing.Round3?
  {
  }

  /** Round 3 was entered from round 2 with the nonce commitments queued there. */
  lemma RoundBefore(env: Env, p: Protocol, s: Session, hash: Data -> Digest, session: Data, st: State)
    requires IsSigning(env, p, s, hash, session) && Traced(p, s, R1, st) && 3 in st.rounds
    ensures Finalized(2) in st.log && 2 in st.rounds && st.rounds[2] == R2
    ensures st.rounds[3].Signing? && st.rounds[3].signing.Round3?
    ensures Finalize2(env, GotB(p, s, st, R2)).Next? && Finalize2(env, GotB(p, s, st, R2)).header == st.rounds[3]
  {
    ProtocolIs(env, p, s, hash, session);
    assert st.rounds[3] != R1 by { hide IsSigning, AllIn, Checked; assert RoundTraced(p, s, R1, st, 3); }
    hide IsSigning, GotB, GotM, Traced, FinalizeRound, Finalize2;
    var k := RoundFrom(p, s, R1, st, 3);
    NextFrom(env, st.rounds[k], GotB(p, s, st, st.rounds[k]));
    assert NumberOf(st.rounds[3]) == 3 by { assert RoundTraced(p, s, R1, st, 3); }
  }

  lemma GotAll(env: Env, p: Protocol, s: Session, hash: Data -> Digest, session: Data, st: State, h: Header)
    requires IsSigning(env, p, s, hash, session) && QueueOk(s, st.broadcast) && AllIn(p, s, st, h)
    requires h.Signing? && !h.signing.Round1?
    ensures GotB(p, s, st, h).Keys == IdSet(env.ids) - {env.self}
    ensures NumberOf(h) in st.hashes && NumberOf(h) in st.broadcast
    ensures forall id :: id in env.ids ==> id in st.broadcast[NumberOf(h)]
  {
    var n := NumberOf(h);
    forall id ensures id in GotB(p, s, st, h) <==> id in env.ids && id != env.self {
      if id in st.broadcast[n] {
        Entry(s, st.broadcast, n, id);
      }
    }
  }

  /** What round 2 makes of everybody's nonce commitments. */
  lemma SecondRound(env: Env, F: seq<Point>, b: map<ID, Data>)
    requires GoodEnv(env, F) && b.Keys == IdSet(env.ids) - {env.self}
    ensures AllD(env, b).Keys == AllE(env, b).Keys == IdSet(env.ids)
    ensures var D, E := AllD(env, b), AllE(env, b);
            var ch := S.ChallengeIn(env.ids, env.taproot, env.M, env.Y, D, E);
            && S.Committed(env.ids, env.taproot, env.M, env.Y, D, E, ch) && env.self in ch.lambda
            && var z := S.OwnResponse(env.self, env.ids, env.taproot, env.M, env.s, env.d, env.e, D, E, ch);
               && Finalize2(env, b) == Next(Signing(S.Round3(D, E, ch, z)), [Outgoing(None, 3, EncodeB3(z), true)])
               && S.Passed(env.ids, env.YShares, ch, S.Only(env.self, z))
  {
    var D, E := AllD(env, b), AllE(env, b);
    assert D.Keys == IdSet(env.ids) && E.Keys == IdSet(env.ids);
    assert D[env.self] == ActOnBase(env.d) && E[env.self] == ActOnBase(env.e);
    hide AllD, AllE, S.ChallengeIn, S.Committed, S.Passed, Mul, Add, S.OwnResponse;
    S.CommittedIs(env.ids, env.taproot, env.M, env.Y, D, E, S.ChallengeIn(env.ids, env.taproot, env.M, env.Y, D, E));
    OwnPasses(env, F, D, E, S.ChallengeIn(env.ids, env.taproot, env.M, env.Y, D, E));
  }

  lemma OwnPasses(env: Env, F: seq<Point>, D: map<ID, Point>, E: map<ID, Point>, ch: S.Challenged)
    requires GoodEnv(env, F) && D.Keys == E.Keys == IdSet(env.ids)
    requires D[env.self] == ActOnBase(env.d) && E[env.self] == ActOnBase(env.e)
    requires S.Committed(env.ids, env.taproot, env.M, env.Y, D, E, ch)
    ensures env.self in ch.lambda
    ensures S.Passed(env.ids, env.YShares, ch, S.Only(env.self,
              S.OwnResponse(env.self, env.ids, env.taproot, env.M, env.s, env.d, env.e, D, E, ch)))
  {
    assert env.self in env.ids && forall k :: k in env.ids ==> k in ch.lambda && k in ch.RShares && k in env.YShares;
    var rho := S.Rho(env.M, S.Bundle(env.ids, D, E), env.self);
    S.RShareIs(env.M, env.ids, D, E, env.self);
    S.OwnShare(env.taproot, ch.R, rho, env.d, env.e);
    hide S.Committed, S.GoodKey, Mul, Add, S.RShare, S.Signed, S.Bundle, S.Passed, K.GoodIDs, S.Response;
    S.OwnResponsePasses(env.self, env.ids, env.YShares, env.s, S.Signed(env.taproot, ch.R, env.d),
                        S.Signed(env.taproot, ch.R, env.e), rho, ch);
  }

  /** Responses that were stored have passed, so with our own all of them have. */
  lemma AllPass(env: Env, ch: S.Challenged, z: Scalar, b: map<ID, Data>, D: map<ID, Point>, E: map<ID, Point>)
    requires S.Passed(env.ids, env.YShares, ch, S.Only(env.self, z)) && b.Keys == IdSet(env.ids) - {env.self}
    requires forall id :: id in b ==> StoresBroadcast(env, Signing(S.Round3(D, E, ch, z)), id, b[id])
    requires env.self in env.ids
    ensures S.Passed(env.ids, env.YShares, ch, AllZ(env, z, b)) && AllZ(env, z, b).Keys == IdSet(env.ids)
  {
    hide S.ResponseOk;
    var zs := AllZ(env, z, b);
    assert zs.Keys == IdSet(env.ids);
    forall k | k in zs ensures S.ResponseOk(zs[k], ch.c, ch.lambda[k], env.YShares[k], ch.RShares[k]) {
      if k == env.self {
        assert S.Only(env.self, z)[k] == z;
      } else {
        assert StoresBroadcast(env, Signing(S.Round3(D, E, ch, z)), k, b[k]);
      }
    }
  }

  /** A signature for R that verifies. */
  ghost predicate Verified(env: Env, R: Point, r: S.SignResult) {
    match r
    case PlainSignature(sig) => !env.taproot && sig.R == R && S.Verify(sig, env.Y, env.M)
    case TaprootSignature(sig) => env.taproot && sig.r == X(R) && T.Verify(X(env.Y), sig, env.M)
    case Abort(_) => false
  }

  /** What round 3 returns once all responses have passed. */
  lemma ThirdRound(env: Env, F: seq<Point>, D: map<ID, Point>, E: map<ID, Point>, ch: S.Challenged, zs: map<ID, Scalar>)
    requires GoodEnv(env, F) && S.Committed(env.ids, env.taproot, env.M, env.Y, D, E, ch)
    requires S.Passed(env.ids, env.YShares, ch, zs) && zs.Keys == IdSet(env.ids)
    ensures var o := Finalize3(env, ch.R, zs);
            if env.taproot && ch.R == 0 then o.Aborted? && o.reason.Some?
            else o.Finished? && o.result.Some? && o.result.value.Signature? && Verified(env, ch.R, o.result.value.signature)
  {
    hide S.GoodKey, S.Committed, S.Passed, T.Verify, S.Verify, Add;
    S.ResultVerifies(env.self, env.ids, env.taproot, env.M, env.Y, env.YShares, env.s, F, D, E, ch, zs);
  }

  /** The outcome of round 3 for the nonce commitments in the queue. */
  ghost predicate LeadsToSignature(env: Env, p: Protocol, s: Session, st: State, ch: S.Challenged) {
    && Challenges(env, p, s, st, ch) && 3 in st.rounds
    && var o := OutcomeAt(p, s, st, st.rounds[3]);
       if env.taproot && ch.R == 0 then o.Aborted? && o.reason.Some?
       else o.Finished? && o.result.Some? && o.result.value.Signature? && Verified(env, ch.R, o.result.value.signature)
  }

  /** The end of a run: a signature that verifies, or an error when Taproot meets an identity commitment. */
  ghost predicate EndsSigned(env: Env, p: Protocol, s: Session, st: State, ch: S.Challenged) {
    && Challenges(env, p, s, st, ch)
    && if env.taproot && ch.R == 0 then st.err.Some? && st.result.None?
       else st.err.None? && st.result.Some? && st.result.value.Signature? &&
            Verified(env, ch.R, st.result.value.signature)
  }

  /** Rounds 2 and 3 read off a state. */
  lemma StateSigned(env: Env, F: seq<Point>, p: Protocol, s: Session, hash: Data -> Digest, session: Data, st: State)
    requires IsSigning(env, p, s, hash, session) && GoodEnv(env, F) && QueueOk(s, st.broadcast)
    requires 3 in st.rounds && st.rounds[3].Signing? && st.rounds[3].signing.Round3?
    requires Finalize2(env, GotB(p, s, st, R2)).Next? && Finalize2(env, GotB(p, s, st, R2)).header == st.rounds[3]
    requires AllIn(p, s, st, R2) && AllIn(p, s, st, st.rounds[3]) && Checked(p, s, st, st.rounds[3])
    ensures exists ch :: LeadsToSignature(env, p, s, st, ch)
  {
    hide GotB, S.ChallengeIn, S.Committed, S.Passed, S.GoodKey, Finalize2, Finalize3, AllZ, Verified,
      S.OwnResponse, AllD, AllE, QueueOk, AllIn, Checked;
    GotAll(env, p, s, hash, session, st, R2);
    GotAll(env, p, s, hash, session, st, st.rounds[3]);
    CheckedResponses(env, p, s, hash, session, st);
    ProtocolIs(env, p, s, hash, session);
    hide IsSigning;
    var b2, b3 := GotB(p, s, st, R2), GotB(p, s, st, st.rounds[3]);
    SecondRound(env, F, b2);
    var D, E := AllD(env, b2), AllE(env, b2);
    var ch := S.ChallengeIn(env.ids, env.taproot, env.M, env.Y, D, E);
    var z := st.rounds[3].signing.z;
    AllPass(env, ch, z, b3, D, E) by { hide GoodEnv; }
    ThirdRound(env, F, D, E, ch, AllZ(env, z, b3));
    assert LeadsToSignature(env, p, s, st, ch);
  }

  /**
    Whatever the other signers send: a run that gets past the checks of round 3 has a signature that verifies as
    its result, except that with Taproot a group commitment that is the identity leaves an error.
   */
  lemma SigningSucceeds(env: Env, F: seq<Point>, p: Protocol, s: Session, hash: Data -> Digest, session: Data,
                        ms: seq<Message>)
    requires IsSigning(env, p, s, hash, session) && GoodEnv(env, F) && Bounded(p, s)
    requires Finalized(3) in Run(p, s, R1, ms).log
    ensures Past(p, s, Run(p, s, R1, ms), 2) && exists ch :: EndsSigned(env, p, s, Run(p, s, R1, ms), ch)
  {
    var st := Run(p, s, R1, ms);
    hide Run, GotB, GoodEnv, Finalize2, EchoInput, LeadsToSignature, Closing, Concluded;
    SignShape(env, p, s, hash, session);
    RunTraced(p, s, R1, ms);
    RunStorage(p, s, R1, ms);
    RunClosing(p, s, R1, ms);
    RunConcluded(p, s, R1, ms);
    StorageQueues(p, s, st);
    TracedAt(p, s, R1, st, 3);
    RoundBefore(env, p, s, hash, session, st);
    TracedAt(p, s, R1, st, 2);
    hide Traced, Storage, AllIn, Checked;
    GotAll(env, p, s, hash, session, st, R2);
    StateSigned(env, F, p, s, hash, session, st);
    ShownSigned(env, p, s, st);
  }

  /** The outcome of round 3 is what the state shows. */
  lemma ShownSigned(env: Env, p: Protocol, s: Session, st: State)
    requires Concluded(p, s, st) && Closing(st) && Finalized(3) in st.log && 3 in st.rounds
    requires exists ch :: LeadsToSignature(env, p, s, st, ch)
    ensures exists ch :: EndsSigned(env, p, s, st, ch)
  {
    hide OutcomeAt, Challenges, Verified, Silents;
    var ch :| LeadsToSignature(env, p, s, st, ch);
    assert Shows(s, OutcomeAt(p, s, st, st.rounds[3]), st);
    assert EndsSigned(env, p, s, st, ch);
  }

  /** A result was made in round 3. */
  lemma ResultRound(env: Env, p: Protocol, s: Session, hash: Data -> Digest, session: Data, st: State)
    requires IsSigning(env, p, s, hash, session) && Traced(p, s, R1, st) && st.result.Some?
    ensures Finalized(3) in st.log && 3 in st.rounds
  {
    ProtocolIs(env, p, s, hash, session);
    hide IsSigning, GotB, GotM, Traced, FinalizeRound;
    var k := ResultFrom(p, s, R1, st);
    FinishedFrom(env, st.rounds[k], GotB(p, s, st, st.rounds[k]));
  }

  /** Every result of every run is a signature that verifies, for the nonce commitments in the queue. */
  lemma SignResult(env: Env, F: seq<Point>, p: Protocol, s: Session, hash: Data -> Digest, session: Data,
                   ms: seq<Message>)
    requires IsSigning(env, p, s, hash, session) && GoodEnv(env, F) && Bounded(p, s)
    requires Run(p, s, R1, ms).result.Some?
    ensures var st := Run(p, s, R1, ms);
            && Past(p, s, st, 2) && st.result.value.Signature?
            && exists ch :: Challenges(env, p, s, st, ch) && Verified(env, ch.R, st.result.value.signature)
  {
    var st := Run(p, s, R1, ms);
    hide Run, GoodEnv, Past, Challenges, Verified, Traced;
    SignShape(env, p, s, hash, session);
    RunTraced(p, s, R1, ms);
    ResultRound(env, p, s, hash, session, st);
    SigningSucceeds(env, F, p, s, hash, session, ms);
    var ch :| EndsSigned(env, p, s, st, ch);
    assert Challenges(env, p, s, st, ch) && Verified(env, ch.R, st.result.value.signature);
  }

  lemma CheckedNonces(env: Env, p: Protocol, s: Session, hash: Data -> Digest, session: Data, st: State)
    requires IsSigning(env, p, s, hash, session) && Checked(p, s, st, R2)
    ensures forall k :: k in DIn(env, p, s, st) && k != env.self ==>
        k in EIn(env, p, s, st) && DIn(env, p, s, st)[k] != 0 && EIn(env, p, s, st)[k] != 0
  {
    ProtocolIs(env, p, s, hash, session);
    hide IsSigning, GotB, GotM, NoncesOf;
    var b := GotB(p, s, st, R2);
    forall k | k in b ensures NoncesOf(b[k]).0 != 0 && NoncesOf(b[k]).1 != 0 {
      assert StoresBroadcast(env, R2, k, b[k]);
    }
  }

  /** In every run with a result, no peer's nonce commitments were the identity. */
  lemma NoncesChecked(env: Env, p: Protocol, s: Session, hash: Data -> Digest, session: Data, ms: seq<Message>)
    requires IsSigning(env, p, s, hash, session) && Bounded(p, s) && Run(p, s, R1, ms).result.Some?
    ensures var st := Run(p, s, R1, ms);
            forall k :: k in DIn(env, p, s, st) && k != env.self ==>
              k in EIn(env, p, s, st) && DIn(env, p, s, st)[k] != 0 && EIn(env, p, s, st)[k] != 0
  {
    var st := Run(p, s, R1, ms);
    hide Run, DIn, EIn, GotB;
    SignShape(env, p, s, hash, session);
    RunTraced(p, s, R1, ms);
    ResultRound(env, p, s, hash, session, st);
    RoundBefore(env, p, s, hash, session, st);
    TracedAt(p, s, R1, st, 2);
    hide Traced, IsSigning, AllIn, Checked;
    CheckedNonces(env, p, s, hash, session, st);
  }

  // ------------------------------------------------------------------- agreement

  /** A group commitment and a key admit one signature only. */
  lemma OneSignature(ei: Env, ej: Env, R: Point, r: S.SignResult, t: S.SignResult)
    requires ei.taproot == ej.taproot && ei.M == ej.M && ei.Y == ej.Y && Verified(ei, R, r) && Verified(ej, R, t)
    ensures r == t
  {
    hide T.Verify, Mul, Add;
    if ei.taproot {
      T.EquationFromVerify(X(ei.Y), r.tsig, ei.M);
      T.EquationFromVerify(X(ei.Y), t.tsig, ei.M);
      BaseInjective(r.tsig.s, t.tsig.s);
    } else {
      BaseInjective(r.sig.z, t.sig.z);
    }
  }

  /** Our own nonce commitments are the ones in our broadcast of round 1. */
  lemma OwnQueued(env: Env, p: Protocol, s: Session, hash: Data -> Digest, session: Data, st: State)
    requires IsSigning(env, p, s, hash, session) && Traced(p, s, R1, st) && Codec()
    requires 2 in st.broadcast && env.self in st.broadcast[2]
    ensures NoncesOf(DataOf(st.broadcast[2][env.self])) == OwnNonces(env)
  {
    ProtocolIs(env, p, s, hash, session);
    assert s.self == env.self;
    hide IsSigning, GotB, GotM, Traced, Announced, FinalizeRound, OwnNonces, NoncesOf, Codec;
    var k := OwnFrom(p, s, R1, st, 2);
    AnnouncedOwn(env, st.rounds[k], GotB(p, s, st, st.rounds[k]), st.broadcast[2][env.self]);
  }

  lemma AnnouncedOwn(env: Env, h: Header, b: map<ID, Data>, own: Message)
    requires Announced(FinalizeRound(env, h, b), 2, own) && Codec()
    ensures NoncesOf(DataOf(own)) == OwnNonces(env)
  {
    hide OwnNonces, S.ChallengeIn, S.OwnResponse, S.SignatureOf, AllD, AllE, AllZ;
    var o := FinalizeRound(env, h, b);
    var i :| 0 <= i < |Msgs(o)| && Msgs(o)[i].broadcast && Msgs(o)[i].number == 2 && own.data == Some(Msgs(o)[i].data);
    assert h == R1;
  }

  lemma NoncesQueued(env: Env, p: Protocol, s: Session, hash: Data -> Digest, session: Data, st: State, id: ID)
    requires IsSigning(env, p, s, hash, session) && Traced(p, s, R1, st) && Codec()
    requires 2 in st.broadcast && id in st.broadcast[2]
    ensures id in DIn(env, p, s, st) && id in EIn(env, p, s, st)
    ensures (DIn(env, p, s, st)[id], EIn(env, p, s, st)[id]) == NoncesOf(DataOf(st.broadcast[2][id]))
  {
    if id == env.self {
      OwnQueued(env, p, s, hash, session, st);
    }
  }

  /** Equal broadcasts of round 2 make equal challenges. */
  lemma SameChallenge(ei: Env, ej: Env, p: Protocol, q: Protocol, si: Session, sj: Session, hash: Data -> Digest,
                      session: Data, a: State, b: State, ch: S.Challenged, dh: S.Challenged)
    requires IsSigning(ei, p, si, hash, session) && IsSigning(ej, q, sj, hash, session) && Codec()
    requires ei.ids == ej.ids && ei.taproot == ej.taproot && ei.M == ej.M && ei.Y == ej.Y
    requires Traced(p, si, R1, a) && Traced(q, sj, R1, b) && SameRound(ei.ids, a, b, 2)
    requires Challenges(ei, p, si, a, ch) && Challenges(ej, q, sj, b, dh)
    ensures ch == dh
  {
    hide Traced, IsSigning, DIn, EIn, NoncesOf, Codec, S.ChallengeIn;
    forall id | id in ei.ids
      ensures DIn(ei, p, si, a)[id] == DIn(ej, q, sj, b)[id] && EIn(ei, p, si, a)[id] == EIn(ej, q, sj, b)[id]
    {
      NoncesQueued(ei, p, si, hash, session, a, id);
      NoncesQueued(ej, q, sj, hash, session, b, id);
    }
    assert DIn(ei, p, si, a) == DIn(ej, q, sj, b);
    assert EIn(ei, p, si, a) == EIn(ej, q, sj, b);
  }

  /**
    Agreement. Whatever the other signers send to each of them: two honest signers of one message whose runs both
    have a result hold the same signature, if what i stored from j in round 3 came from j and the hash of the
    broadcasts of round 2 has no collision.
   */
  lemma SignAgreement(ei: Env, ej: Env, F: seq<Point>, p: Protocol, q: Protocol, si: Session, sj: Session,
                      hash: Data -> Digest, session: Data, mi: seq<Message>, mj: seq<Message>)
    requires IsSigning(ei, p, si, hash, session) && IsSigning(ej, q, sj, hash, session) && IsHash(hash) && Codec()
    requires Bounded(p, si) && Bounded(q, sj) && GoodEnv(ei, F) && GoodEnv(ej, F)
    requires ei.ids == ej.ids && ei.self != ej.self && ei.taproot == ej.taproot && ei.M == ej.M && ei.Y == ej.Y
    requires Run(p, si, R1, mi).result.Some? && Run(q, sj, R1, mj).result.Some?
    requires Authentic(Run(p, si, R1, mi), ej.self, Run(q, sj, R1, mj), 3)
    requires HashedSafely(hash, session, ei.ids, Run(p, si, R1, mi), Run(q, sj, R1, mj), 2)
    ensures Run(p, si, R1, mi).result == Run(q, sj, R1, mj).result
  {
    hide Run, IsSigning, Authentic, HashedSafely, IsHash, Traced, Past, SameRound, Codec, Challenges, Verified,
      GoodEnv;
    SignResult(ei, F, p, si, hash, session, mi);
    SignResult(ej, F, q, sj, hash, session, mj);
    RunsAgree(ei, ej, p, q, si, sj, hash, session, mi, mj);
    StatesSame(ei, ej, p, q, si, sj, hash, session, Run(p, si, R1, mi), Run(q, sj, R1, mj));
  }

  lemma RunsAgree(ei: Env, ej: Env, p: Protocol, q: Protocol, si: Session, sj: Session, hash: Data -> Digest,
                  session: Data, mi: seq<Message>, mj: seq<Message>)
    requires IsSigning(ei, p, si, hash, session) && IsSigning(ej, q, sj, hash, session) && IsHash(hash)
    requires Bounded(p, si) && Bounded(q, sj) && ei.ids == ej.ids && ei.self != ej.self
    requires Past(p, si, Run(p, si, R1, mi), 2)
    requires Authentic(Run(p, si, R1, mi), ej.self, Run(q, sj, R1, mj), 3)
    requires HashedSafely(hash, session, ei.ids, Run(p, si, R1, mi), Run(q, sj, R1, mj), 2)
    ensures Traced(p, si, R1, Run(p, si, R1, mi)) && Traced(q, sj, R1, Run(q, sj, R1, mj))
    ensures SameRound(ei.ids, Run(p, si, R1, mi), Run(q, sj, R1, mj), 2)
  {
    hide Run, SignProtocol, Authentic, HashedSafely, IsHash, FramedEcho, Traced, Numbered, Past, SameRound, NoCollision;
    SignShape(ei, p, si, hash, session);
    SignShape(ej, q, sj, hash, session);
    FramedNoCollision(p, q, hash, session, ei.ids, Run(p, si, R1, mi), Run(q, sj, R1, mj), 2);
    Agreement(p, q, si, sj, R1, R1, mi, mj, 2);
    RunTraced(p, si, R1, mi);
    RunTraced(q, sj, R1, mj);
  }

  lemma StatesSame(ei: Env, ej: Env, p: Protocol, q: Protocol, si: Session, sj: Session, hash: Data -> Digest,
                   session: Data, a: State, b: State)
    requires IsSigning(ei, p, si, hash, session) && IsSigning(ej, q, sj, hash, session) && Codec()
    requires ei.ids == ej.ids && ei.taproot == ej.taproot && ei.M == ej.M && ei.Y == ej.Y
    requires Traced(p, si, R1, a) && Traced(q, sj, R1, b) && SameRound(ei.ids, a, b, 2)
    requires a.result.Some? && a.result.value.Signature? && b.result.Some? && b.result.value.Signature?
    requires exists ch :: Challenges(ei, p, si, a, ch) && Verified(ei, ch.R, a.result.value.signature)
    requires exists ch :: Challenges(ej, q, sj, b, ch) && Verified(ej, ch.R, b.result.value.signature)
    ensures a.result == b.result
  {
    hide IsSigning, Traced, SameRound, Codec, Challenges, Verified;
    var ch :| Challenges(ei, p, si, a, ch) && Verified(ei, ch.R, a.result.value.signature);
    var dh :| Challenges(ej, q, sj, b, dh) && Verified(ej, dh.R, b.result.value.signature);
    SameChallenge(ei, ej, p, q, si, sj, hash, session, a, b, ch, dh);
    OneSignature(ei, ej, ch.R, a.result.value.signature, b.result.value.signature);
  }

  lemma CheckedResponses(env: Env, p: Protocol, s: Session, hash: Data -> Digest, session: Data, st: State)
    requires IsSigning(env, p, s, hash, session) && 3 in st.rounds && Checked(p, s, st, st.rounds[3])
    ensures forall id :: id in GotB(p, s, st, st.rounds[3]) ==>
        StoresBroadcast(env, st.rounds[3], id, GotB(p, s, st, st.rounds[3])[id])
  {
    ProtocolIs(env, p, s, hash, session);
    hide IsSigning, GotB, GotM, StoresBroadcast;
  }
}
