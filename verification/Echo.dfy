/**
  Echo broadcast: every message of the round after a broadcast round carries a hash of all broadcasts,
  so two honest parties that get past that round have stored the same broadcasts.
 */
module Echo {
  import opened Party
  import opened Handler
  import opened HandlerRuns
  import opened HandlerStorage
  import F = Framing

  /** Messages are sent for the round that is entered, and the last round sends none. */
  ghost predicate Numbered(p: Protocol) {
    forall h, b, m :: NumberedOutcome(p, p.finalize(h, b, m))
  }

  ghost predicate NumberedOutcome(p: Protocol, o: Outcome) {
    && (o.Next? ==> forall i :: 0 <= i < |o.msgs| ==> o.msgs[i].number == p.number(o.header))
    && (o.Aborted? || o.Finished? ==> o.msgs == [])
  }

  /** A kept hash is the hash of all broadcasts of its round. */
  ghost predicate Hashed(p: Protocol, s: Session, st: State, k: nat) {
    && k in st.rounds && k in st.broadcast
    && (forall id :: id in s.parties ==> id in st.broadcast[k])
    && k in st.hashes && st.hashes[k] == p.echo(st.rounds[k], Listed(st.broadcast[k], s.parties))
  }

  /** A sent message carries the hash of the round before its own. */
  ghost predicate Carries(p: Protocol, st: State, m: Message) {
    m.number > 0 ==>
      && m.verification == Get(st.hashes, m.number - 1)
      && m.number in st.rounds
  }

  /** All messages of round n that the round waited for carry the kept hash d. */
  ghost predicate AllEcho(p: Protocol, s: Session, st: State, n: nat, d: Digest) {
    n in st.rounds && (2 <= n <= s.final ==>
      && n in st.broadcast && n in st.messages
      && (p.isBroadcast(st.rounds[n]) ==>
            forall id :: id in s.parties ==> id in st.broadcast[n] && st.broadcast[n][id].verification == Some(d))
      && (p.expects(st.rounds[n]) ==>
            forall id :: id in s.parties && id != s.self ==>
              id in st.messages[n] && st.messages[n][id].verification == Some(d)))
  }

  ghost predicate Echoed(p: Protocol, s: Session, st: State) {
    && (forall k :: k in st.hashes ==> Hashed(p, s, st, k))
    && (forall m :: m in st.out ==> Carries(p, st, m))
    && (forall k :: k in st.hashes && Finalized(k + 1) in st.log ==> AllEcho(p, s, st, k + 1, st.hashes[k]))
  }

  // ---------------------------------------------------------------- preservation

  ghost predicate SameFinal(a: seq<Event>, b: seq<Event>) {
    forall n :: Finalized(n) in b <==> Finalized(n) in a
  }

  lemma VerifyFinal(p: Protocol, st: State, m: Message)
    requires st.round.Running? && m.data.Some? && Whole(st)
    ensures SameFinal(st.log, VerifyMessage(p, st, m).state.log)
    ensures SameFinal(st.log, VerifyBroadcast(p, st, m).state.log)
  {
  }

  lemma {:induction false} ReadFinal(p: Protocol, s: Session, st: State, ids: seq<ID>)
    requires st.round.Running? && Whole(st)
    ensures SameFinal(st.log, ReadQueue(p, s, st, ids).0.log)
    decreases |ids|
  {
    hide VerifyMessage, VerifyBroadcast;
    if |ids| != 0 {
      var n := p.number(st.round.header);
      if n in st.broadcast && ids[0] in st.broadcast[n] {
        VerifyFinal(p, st, st.broadcast[n][ids[0]]);
      }
      if n in st.messages && ids[0] in st.messages[n] {
        VerifyFinal(p, st, st.messages[n][ids[0]]);
      }
      ReadFinal(p, s, ReadOne(p, s, st, ids[0]).state, ids[1..]);
    }
  }

  /** Entries are only added. */
  ghost predicate Adds(a: Queue, b: Queue) {
    && a.Keys == b.Keys
    && (forall n, id :: n in a && id in a[n] ==> id in b[n] && b[n][id] == a[n][id])
  }

  /** The invariant survives new queue entries, new rounds, and new output that carries its hash. */
  lemma EchoedGrows(p: Protocol, s: Session, a: State, b: State)
    requires Echoed(p, s, a) && Adds(a.broadcast, b.broadcast) && Adds(a.messages, b.messages)
    requires b.hashes == a.hashes && forall n :: n in a.rounds ==> n in b.rounds && b.rounds[n] == a.rounds[n]
    requires SameFinal(a.log, b.log) && forall m :: m in b.out ==> m in a.out || Carries(p, b, m)
    ensures Echoed(p, s, b)
  {
    forall k | k in b.hashes ensures Hashed(p, s, b, k) {
      assert Hashed(p, s, a, k);
      assert Listed(a.broadcast[k], s.parties) == Listed(b.broadcast[k], s.parties);
    }
    forall m | m in b.out ensures Carries(p, b, m) {
      if m in a.out {
        assert Carries(p, a, m);
      }
    }
    forall k | k in b.hashes && Finalized(k + 1) in b.log ensures AllEcho(p, s, b, k + 1, b.hashes[k]) {
      assert AllEcho(p, s, a, k + 1, a.hashes[k]);
    }
  }

  lemma AddsSelf(q: Queue)
    ensures Adds(q, q)
  {
  }

  lemma PutAdds(q: Queue, m: Message)
    ensures Adds(q, Put(q, m))
  {
  }

  /** Keeping the hash of the current round does not touch earlier rounds. */
  lemma HashEchoed(p: Protocol, s: Session, st: State)
    requires Echoed(p, s, st) && st.round.Running? && Latest(p, st)
    requires forall n :: Finalized(n) in st.log ==> n in st.rounds
    ensures Echoed(p, s, WithHash(p, s, st))
  {
    hide Listed;
    var n := p.number(st.round.header);
    var b := WithHash(p, s, st);
    forall k | k in b.hashes ensures Hashed(p, s, b, k) {
      if k in st.hashes {
        assert Hashed(p, s, st, k);
      }
    }
    forall m | m in b.out ensures Carries(p, b, m) {
      assert Carries(p, st, m);
    }
    forall k | k in b.hashes && Finalized(k + 1) in b.log ensures AllEcho(p, s, b, k + 1, b.hashes[k]) {
      assert k + 1 <= n;
      assert AllEcho(p, s, st, k + 1, st.hashes[k]);
    }
  }

  /** The log may record a round whose messages carry the previous hash. */
  lemma LogEchoed(p: Protocol, s: Session, a: State, n: nat)
    requires Echoed(p, s, a) && (n >= 1 && (n - 1) in a.hashes ==> AllEcho(p, s, a, n, a.hashes[n - 1]))
    ensures Echoed(p, s, a.(log := a.log + [Finalized(n)]))
  {
    hide Get, Listed;
    var b := a.(log := a.log + [Finalized(n)]);
    forall k | k in b.hashes ensures Hashed(p, s, b, k) {
      assert Hashed(p, s, a, k);
    }
    forall m | m in b.out ensures Carries(p, b, m) {
      assert Carries(p, a, m);
    }
    forall k | k in b.hashes && Finalized(k + 1) in b.log ensures AllEcho(p, s, b, k + 1, b.hashes[k]) {
      if k + 1 != n {
        assert Finalized(k + 1) in a.log;
      }
      assert AllEcho(p, s, a, k + 1, a.hashes[k]);
    }
  }

  /** Finalizing records that everything the round waited for carries the previous hash. */
  lemma FinalizingEchoed(p: Protocol, s: Session, st: State)
    requires Echoed(p, s, st) && st.round.Running? && Latest(p, st) && QueueOk(s, st.broadcast) && QueueOk(s, st.messages)
    requires forall n :: Finalized(n) in st.log ==> n in st.rounds
    requires Concludes(p, s, st)
    ensures Echoed(p, s, Finalizing(p, s, st))
  {
    hide Echoed, WithHash, Concludes, QueueOk, AllEcho;
    HashEchoed(p, s, st);
    var hashed := WithHash(p, s, st);
    var n := p.number(st.round.header);
    if n >= 1 && (n - 1) in hashed.hashes {
      MatchEcho(p, s, st, hashed);
    }
    LogEchoed(p, s, hashed, n);
  }

  lemma MatchEcho(p: Protocol, s: Session, st: State, hashed: State)
    requires st.round.Running? && Latest(p, st) && QueueOk(s, st.broadcast) && QueueOk(s, st.messages)
    requires Concludes(p, s, st) && hashed == WithHash(p, s, st)
    requires p.number(st.round.header) >= 1 && (p.number(st.round.header) - 1) in hashed.hashes
    ensures AllEcho(p, s, hashed, p.number(st.round.header), hashed.hashes[p.number(st.round.header) - 1])
  {
  }

  lemma {:induction false} ForwardEchoed(p: Protocol, s: Session, st: State, msgs: seq<Outgoing>, v: Option<Digest>)
    ensures var r := Forward(s, st, msgs, v);
            && Adds(st.broadcast, r.broadcast)
            && (forall m :: m in r.out && m !in st.out ==>
                  m.verification == v && exists i :: 0 <= i < |msgs| && m.number == msgs[i].number)
  {
    if |msgs| != 0 {
      var n := |msgs| - 1;
      ForwardEchoed(p, s, st, msgs[..n], v);
      var before := Forward(s, st, msgs[..n], v);
      var sent := Addressed(s, msgs[n], v);
      PutAdds(before.broadcast, sent);
      forall m | m in Forward(s, st, msgs, v).out && m !in st.out
        ensures m.verification == v && exists i :: 0 <= i < |msgs| && m.number == msgs[i].number
      {
        if m in before.out {
          var i :| 0 <= i < n && m.number == msgs[..n][i].number;
          assert m.number == msgs[i].number;
        } else {
          assert m == sent;
        }
      }
    }
  }

  lemma EnterEchoed(p: Protocol, s: Session, now: State, h: Header, msgs: seq<Outgoing>)
    requires Echoed(p, s, now) && Whole(now) && NumberedOutcome(p, Next(h, msgs))
    ensures Echoed(p, s, Enter(p, s, now, h, msgs).state)
  {
    hide Echoed, Forward, ReadQueue;
    var n := p.number(h);
    var v := Get(now.hashes, p.number(h) - 1);
    ForwardEchoed(p, s, now, msgs, v);
    var entered := Entered(p, s, now, h, msgs);
    AddsSelf(now.messages);
    forall m | m in entered.out && m !in now.out ensures Carries(p, entered, m) {
      assert m.number == n && m.verification == v;
    }
    EchoedGrows(p, s, now, entered);
    if n !in now.rounds {
      ReadQueueKeeps(p, s, entered, p.order(n));
      ReadFinal(p, s, entered, p.order(n));
      var (read, failure) := ReadQueue(p, s, entered, p.order(n));
      AddsSelf(read.messages);
      AddsSelf(read.broadcast);
      assert forall m :: m in read.out ==> m in entered.out;
      EchoedGrows(p, s, entered, read);
      if failure.Some? {
        AbortEchoed(p, s, read, Some(failure.value.error), failure.value.culprits);
      }
    }
  }

  lemma AbortEchoed(p: Protocol, s: Session, st: State, error: Option<string>, culprits: seq<ID>)
    requires Echoed(p, s, st)
    ensures Echoed(p, s, Abort(s, st, error, culprits))
  {
    hide Echoed;
    AddsSelf(st.messages);
    AddsSelf(st.broadcast);
    EchoedGrows(p, s, st, Abort(s, st, error, culprits));
  }

  lemma EndEchoed(p: Protocol, s: Session, now: State, result: Option<Value>)
    requires Echoed(p, s, now)
    ensures Echoed(p, s, Forward(s, now, [], None).(round := Over, result := result))
  {
    hide Echoed;
    AddsSelf(now.messages);
    AddsSelf(now.broadcast);
    EchoedGrows(p, s, now, Forward(s, now, [], None).(round := Over, result := result));
  }

  lemma ConcludeEchoed(p: Protocol, s: Session, now: State, o: Outcome)
    requires Echoed(p, s, now) && Whole(now) && NumberedOutcome(p, o)
    ensures Echoed(p, s, Conclude(p, s, now, o).state)
  {
    hide Echoed, Enter, Forward;
    match o
    case Next(h, msgs) => EnterEchoed(p, s, now, h, msgs);
    case Failed(e) => AbortEchoed(p, s, now, Some(e), [s.self]);
    case NoRound => AbortEchoed(p, s, now, None, [s.self]);
    case Aborted(reason, culprits, msgs) =>
      EndEchoed(p, s, now, now.result);
      AbortEchoed(p, s, Forward(s, now, [], None).(round := Over), reason, culprits);
    case Finished(result, msgs) =>
      EndEchoed(p, s, now, result);
      AbortEchoed(p, s, Forward(s, now, [], None).(round := Over, result := result), None, []);
  }

  lemma {:induction false} KnownFinal(p: Protocol, s: Session, st: State)
    requires Storage(p, s, st)
    ensures forall n :: Finalized(n) in st.log ==> n in st.rounds
  {
    forall n | Finalized(n) in st.log ensures n in st.rounds {
      HistoryKnows(p, s, st.rounds, st.log, Finalized(n));
    }
  }

  lemma AdvanceEchoed(p: Protocol, s: Session, st: State)
    requires Echoed(p, s, st) && Storage(p, s, st) && st.round.Running? && Whole(st) && Numbered(p)
    ensures Echoed(p, s, Advance(p, s, st).state)
  {
    KnownFinal(p, s, st);
    hide Echoed, Conclude, ReceivedAll, HashesMatch, WithHash, QueueOk, SlotOk, History;
    HashEchoed(p, s, st);
    AbortEchoed(p, s, WithHash(p, s, st), Some("broadcast verification failed"), []);
    if Concludes(p, s, st) {
      FinalizingEchoed(p, s, st);
      ConcludeEchoed(p, s, Finalizing(p, s, st), OutcomeOf(p, st));
    }
  }

  lemma {:induction false} FinalizeEchoed(p: Protocol, s: Session, st: State)
    requires Echoed(p, s, st) && Storage(p, s, st) && st.round.Running? && Whole(st) && Numbered(p)
    requires Sane(p, s) && !Done(st) && Settled(p, s, st) && Closing(st)
    ensures Echoed(p, s, Finalize(p, s, st))
    decreases Unseen(s, st)
  {
    hide Echoed, Storage, Settled, Advance, Numbered;
    AdvanceEchoed(p, s, st);
    AdvanceStorage(p, s, st);
    AdvanceClosing(p, s, st);
    if Advance(p, s, st).Again? {
      AdvanceEnters(p, s, st);
      FinalizeEchoed(p, s, Advance(p, s, st).state);
    }
  }

  lemma AcceptEchoed(p: Protocol, s: Session, st: State, m: Message)
    requires Echoed(p, s, st) && Storage(p, s, st) && Whole(st) && Numbered(p)
    requires Sane(p, s) && Settled(p, s, st) && Closing(st)
    ensures Echoed(p, s, Accept(p, s, st, m))
  {
    hide Echoed, Storage, Settled, Finalize, CanAccept, VerifyMessage, VerifyBroadcast, Numbered;
    if !Refuses(p, s, st, m) {
      Accepted(s, Number(p, st.round), m);
      if m.number == 0 {
        AbortEchoed(p, s, st, Some("aborted by other party"), [m.from]);
      } else {
        var stored := Store(st, m);
        PutAdds(st.broadcast, m);
        PutAdds(st.messages, m);
        AddsSelf(st.broadcast);
        AddsSelf(st.messages);
        EchoedGrows(p, s, st, stored);
        if Number(p, st.round) == m.number {
          StoreStorage(p, s, st, m);
          VerifyStorage(p, s, st, m);
          VerifyQuiet(p, stored, m);
          VerifyFinal(p, stored, m);
          var step := Verify(p, stored, m);
          AddsSelf(stored.broadcast);
          AddsSelf(stored.messages);
          EchoedGrows(p, s, stored, step.state);
          if step.error.None? {
            FinalizeEchoed(p, s, step.state);
          } else {
            AbortEchoed(p, s, step.state, step.error, [m.from]);
          }
        }
      }
    }
  }

  lemma {:induction false} RunEchoed(p: Protocol, s: Session, h: Header, ms: seq<Message>)
    requires Sane(p, s) && Numbered(p)
    ensures Echoed(p, s, Run(p, s, h, ms))
  {
    hide Accept, Finalize;
    if |ms| == 0 {
      FinalizeEchoed(p, s, Initial(p, s, h));
    } else {
      var before := ms[..|ms| - 1];
      RunEchoed(p, s, h, before);
      RunClosing(p, s, h, before);
      RunStorage(p, s, h, before);
      AcceptEchoed(p, s, Run(p, s, h, before), ms[|ms| - 1]);
    }
  }

  // ------------------------------------------------------------------- agreement

  /** The two lists of broadcasts that a and b have hashed for round k do not collide. */
  ghost predicate NoCollision(p: Protocol, q: Protocol, parties: seq<ID>, a: State, b: State, k: nat) {
    k in a.rounds && k in b.rounds && k in a.broadcast && k in b.broadcast ==>
    (forall id :: id in parties ==> id in a.broadcast[k] && id in b.broadcast[k]) ==>
    p.echo(a.rounds[k], Listed(a.broadcast[k], parties)) == q.echo(b.rounds[k], Listed(b.broadcast[k], parties)) ==>
      Listed(a.broadcast[k], parties) == Listed(b.broadcast[k], parties)
  }

  /** Round k collects broadcasts, round k + 1 waits for all parties, and the state is past its check. */
  ghost predicate Past(p: Protocol, s: Session, st: State, k: nat) {
    && k in st.hashes
    && 2 <= k + 1 <= s.final && Finalized(k + 1) in st.log && k + 1 in st.rounds
    && (p.isBroadcast(st.rounds[k + 1]) || p.expects(st.rounds[k + 1]))
  }

  /** The messages of round n stored from an honest party are messages it sent. */
  ghost predicate Authentic(st: State, from: ID, honest: State, n: nat) {
    && (n in st.broadcast && from in st.broadcast[n] ==> st.broadcast[n][from] in honest.out)
    && (n in st.messages && from in st.messages[n] ==> st.messages[n][from] in honest.out)
  }

  /** Past the check, the hash of the honest party j is the hash of i. */
  lemma SameHash(p: Protocol, q: Protocol, si: Session, j: ID, a: State, b: State, k: nat)
    requires Echoed(p, si, a) && QueueOk(si, a.broadcast) && QueueOk(si, a.messages)
    requires j in si.parties && j != si.self && Past(p, si, a, k) && Authentic(a, j, b, k + 1)
    requires forall m :: m in b.out ==> Carries(q, b, m)
    ensures k in b.hashes && b.hashes[k] == a.hashes[k]
  {
    hide Hashed;
    assert AllEcho(p, si, a, k + 1, a.hashes[k]);
    if p.isBroadcast(a.rounds[k + 1]) {
      Entry(si, a.broadcast, k + 1, j);
      assert Carries(q, b, a.broadcast[k + 1][j]);
    } else {
      Entry(si, a.messages, k + 1, j);
      assert Carries(q, b, a.messages[k + 1][j]);
    }
  }

  /** Equal hashes are hashes of equal broadcasts. */
  lemma SameBroadcasts(p: Protocol, q: Protocol, si: Session, sj: Session, a: State, b: State, k: nat)
    requires si.parties == sj.parties && Hashed(p, si, a, k) && Hashed(q, sj, b, k)
    requires NoCollision(p, q, si.parties, a, b, k) && a.hashes[k] == b.hashes[k]
    ensures forall id :: id in si.parties ==> a.broadcast[k][id] == b.broadcast[k][id]
  {
    var la, lb := Listed(a.broadcast[k], si.parties), Listed(b.broadcast[k], sj.parties);
    assert la == lb;
    forall id | id in si.parties ensures a.broadcast[k][id] == b.broadcast[k][id] {
      var i :| 0 <= i < |si.parties| && si.parties[i] == id;
      assert la[i] == lb[i];
    }
  }

  /** Both states hold the same broadcasts of round k. */
  ghost predicate SameRound(parties: seq<ID>, a: State, b: State, k: nat) {
    && k in a.broadcast && k in b.broadcast
    && forall id :: id in parties ==>
         id in a.broadcast[k] && id in b.broadcast[k] && a.broadcast[k][id] == b.broadcast[k][id]
  }

  /** Agreement read off the two states. */
  lemma StatesAgree(p: Protocol, q: Protocol, si: Session, sj: Session, a: State, b: State, k: nat)
    requires si.parties == sj.parties && si.self != sj.self && sj.self in sj.parties
    requires Echoed(p, si, a) && Echoed(q, sj, b) && QueueOk(si, a.broadcast) && QueueOk(si, a.messages)
    requires Past(p, si, a, k) && Authentic(a, sj.self, b, k + 1) && NoCollision(p, q, si.parties, a, b, k)
    ensures SameRound(si.parties, a, b, k)
  {
    hide NoCollision, QueueOk, Authentic, Carries, AllEcho;
    SameHash(p, q, si, sj.self, a, b, k);
    assert Hashed(p, si, a, k) && Hashed(q, sj, b, k);
    SameBroadcasts(p, q, si, sj, a, b, k);
  }

  /**
    Whatever messages the two honest handlers i and j were given, by whom and in which order they read
    their queues: if i is past the check of round k + 1 and what it stored from j came from j, both hold
    the same broadcasts of round k. The two may run different protocols, as parties with their own secrets do.
   */
  lemma Agreement(p: Protocol, q: Protocol, si: Session, sj: Session, hi: Header, hj: Header,
                  mi: seq<Message>, mj: seq<Message>, k: nat)
    requires Sane(p, si) && Sane(q, sj) && Numbered(p) && Numbered(q)
    requires si.parties == sj.parties && si.self != sj.self
    requires Past(p, si, Run(p, si, hi, mi), k)
    requires Authentic(Run(p, si, hi, mi), sj.self, Run(q, sj, hj, mj), k + 1)
    requires NoCollision(p, q, si.parties, Run(p, si, hi, mi), Run(q, sj, hj, mj), k)
    ensures SameRound(si.parties, Run(p, si, hi, mi), Run(q, sj, hj, mj), k)
  {
    hide Run, Echoed, Past, Authentic, NoCollision, SameRound;
    RunEchoed(p, si, hi, mi);
    RunEchoed(q, sj, hj, mj);
    RunStorage(p, si, hi, mi);
    StorageQueues(p, si, Run(p, si, hi, mi));
    StatesAgree(p, q, si, sj, Run(p, si, hi, mi), Run(q, sj, hj, mj), k);
  }

  // ------------------------------------------------------------------- the hash

  /** A message as Message.Hash writes it. */
  ghost function WireOf(m: Message): F.Wire {
    F.Wire(Some(m.ssid), m.from.name, if m.to.Some? then m.to.value.name else [], m.protocol, m.number, m.data,
           m.broadcast, m.verification)
  }

  /** Names are not empty, and lengths fit the length prefixes. */
  ghost predicate Sendable(m: Message) {
    |m.from.name| > 0 && (m.to.Some? ==> |m.to.value.name| > 0) && F.SmallWire(WireOf(m))
  }

  const MESSAGE: Data := [77, 101, 115, 115, 97, 103, 101]
  const DIGEST_LENGTH: int := 64

  /** A hash function as receivedAll uses it: digests of fixed length. */
  ghost predicate IsHash(hash: Data -> Digest) {
    forall x :: |hash(x)| == DIGEST_LENGTH
  }

  ghost function MessageFrame(hash: Data -> Digest, m: Message): F.Frame {
    F.Frame(MESSAGE, hash(F.Preimage(WireOf(m))))
  }

  /** What receivedAll writes to the session hash: the hash of every broadcast, framed. */
  ghost function EchoInput(hash: Data -> Digest, session: Data, ms: seq<Message>): Data {
    session + F.Stream(seq(|ms|, i requires 0 <= i < |ms| => MessageFrame(hash, ms[i])))
  }

  /** Everything that is hashed on the way to the hash of a list of broadcasts. */
  ghost predicate Hashes(hash: Data -> Digest, session: Data, ms: seq<Message>, x: Data) {
    x == EchoInput(hash, session, ms) || exists i :: 0 <= i < |ms| && x == F.Preimage(WireOf(ms[i]))
  }

  /** The hash has no collision between what is hashed for the one list and for the other. */
  ghost predicate CollisionFree(hash: Data -> Digest, session: Data, ms: seq<Message>, ns: seq<Message>) {
    forall x, y :: Hashes(hash, session, ms, x) && Hashes(hash, session, ns, y) && hash(x) == hash(y) ==> x == y
  }

  lemma WireInjective(m: Message, n: Message)
    requires Sendable(m) && Sendable(n) && WireOf(m) == WireOf(n)
    ensures m == n
  {
  }

  /** Equal hashes of two lists of broadcasts come from equal lists, or from a collision. */
  lemma EchoSeparates(hash: Data -> Digest, session: Data, ms: seq<Message>, ns: seq<Message>)
    requires IsHash(hash) && CollisionFree(hash, session, ms, ns)
    requires (forall i :: 0 <= i < |ms| ==> Sendable(ms[i])) && forall i :: 0 <= i < |ns| ==> Sendable(ns[i])
    requires hash(EchoInput(hash, session, ms)) == hash(EchoInput(hash, session, ns))
    ensures ms == ns
  {
    hide F.Stream, F.Preimage, Sendable;
    var fs := seq(|ms|, i requires 0 <= i < |ms| => MessageFrame(hash, ms[i]));
    var gs := seq(|ns|, i requires 0 <= i < |ns| => MessageFrame(hash, ns[i]));
    var x, y := EchoInput(hash, session, ms), EchoInput(hash, session, ns);
    assert Hashes(hash, session, ms, x) && Hashes(hash, session, ns, y);
    assert x == y;
    assert F.Stream(fs) == x[|session|..] && F.Stream(gs) == y[|session|..];
    F.UniquelyDecodable(fs, gs);
    assert |ms| == |fs| == |gs| == |ns|;
    forall i | 0 <= i < |ms| ensures ms[i] == ns[i] {
      assert fs[i] == gs[i];
      FrameSeparates(hash, session, ms, ns, i);
    }
  }

  /** What is hashed for a list of broadcasts is never the same in two sessions. */
  lemma SessionsSeparate(hash: Data -> Digest, a: Data, b: Data, ms: seq<Message>)
    ensures EchoInput(hash, a, ms) == EchoInput(hash, b, ms) <==> a == b
  {
    hide F.Stream;
    var x, y := EchoInput(hash, a, ms), EchoInput(hash, b, ms);
    var tail := F.Stream(seq(|ms|, i requires 0 <= i < |ms| => MessageFrame(hash, ms[i])));
    assert x == a + tail && y == b + tail;
    if x == y {
      assert a == x[..|x| - |tail|] && b == y[..|y| - |tail|];
    }
  }

  lemma FrameSeparates(hash: Data -> Digest, session: Data, ms: seq<Message>, ns: seq<Message>, i: nat)
    requires CollisionFree(hash, session, ms, ns) && i < |ms| == |ns| && Sendable(ms[i]) && Sendable(ns[i])
    requires MessageFrame(hash, ms[i]) == MessageFrame(hash, ns[i])
    ensures ms[i] == ns[i]
  {
    hide F.Preimage;
    var x, y := F.Preimage(WireOf(ms[i])), F.Preimage(WireOf(ns[i]));
    assert Hashes(hash, session, ms, x) && Hashes(hash, session, ns, y);
    F.HashPreimageInjective(WireOf(ms[i]), WireOf(ns[i]));
    WireInjective(ms[i], ns[i]);
  }

  /** The hash of the broadcasts is the one that receivedAll computes. */
  ghost predicate FramedEcho(p: Protocol, hash: Data -> Digest, session: Data) {
    forall h, ms :: p.echo(h, ms) == hash(EchoInput(hash, session, ms))
  }

  /** All broadcasts of round k can be sent, and their hashes do not collide. */
  ghost predicate HashedSafely(hash: Data -> Digest, session: Data, parties: seq<ID>, a: State, b: State, k: nat) {
    k in a.broadcast && k in b.broadcast && (forall id :: id in parties ==> id in a.broadcast[k] && id in b.broadcast[k]) ==>
      && (forall id :: id in parties ==> Sendable(a.broadcast[k][id]) && Sendable(b.broadcast[k][id]))
      && CollisionFree(hash, session, Listed(a.broadcast[k], parties), Listed(b.broadcast[k], parties))
  }

  lemma FramedNoCollision(p: Protocol, q: Protocol, hash: Data -> Digest, session: Data, parties: seq<ID>,
                          a: State, b: State, k: nat)
    requires IsHash(hash) && FramedEcho(p, hash, session) && FramedEcho(q, hash, session)
    requires HashedSafely(hash, session, parties, a, b, k)
    ensures NoCollision(p, q, parties, a, b, k)
  {
    hide IsHash, CollisionFree, Sendable;
    if k in a.rounds && k in b.rounds && k in a.broadcast && k in b.broadcast &&
       forall id :: id in parties ==> id in a.broadcast[k] && id in b.broadcast[k]
    {
      var la, lb := Listed(a.broadcast[k], parties), Listed(b.broadcast[k], parties);
      if p.echo(a.rounds[k], la) == q.echo(b.rounds[k], lb) {
        EchoSeparates(hash, session, la, lb);
      }
    }
  }
}
