/** What holds of the messages in every run: checked, stored once, broadcast before message before finalizing. */
module HandlerStorage {
  import opened Party
  import opened Handler
  import opened HandlerRuns

  /** A protocol whose queues are read once per sender, and whose rounds move forward. */
  ghost predicate Sane(p: Protocol, s: Session) {
    && Bounded(p, s) && Forwards(p) && s.self in s.parties
    && forall n :: Covers(p.order(n), s.parties)
  }

  predicate Covers(ids: seq<ID>, parties: seq<ID>) {
    && (forall i, j :: 0 <= i < j < |ids| ==> ids[i] != ids[j])
    && (forall id :: id in parties ==> id in ids)
  }

  // --------------------------------------------------------------------- history

  predicate Peer(s: Session, id: ID) {
    id in s.parties && id != s.self
  }

  /** The next event is allowed: nothing is stored twice, and a message only after its broadcast. */
  ghost predicate Allowed(p: Protocol, s: Session, rounds: map<nat, Header>, log: seq<Event>, e: Event) {
    match e
    case StoredBroadcast(n, f) =>
      e !in log && Peer(s, f) && 2 <= n <= s.final && n in rounds && p.isBroadcast(rounds[n])
    case StoredMessage(n, f) =>
      && e !in log && Peer(s, f) && 2 <= n <= s.final && n in rounds && p.expects(rounds[n])
      && (p.isBroadcast(rounds[n]) ==> StoredBroadcast(n, f) in log)
    case Finalized(n) => n in rounds && (2 <= n <= s.final ==> Stocked(p, s, rounds[n], n, log))
    case Silent => true
  }

  /** Everything the round waits for has been stored. */
  ghost predicate Stocked(p: Protocol, s: Session, h: Header, n: nat, log: seq<Event>) {
    forall f :: f in s.parties && f != s.self ==>
      && (p.isBroadcast(h) ==> StoredBroadcast(n, f) in log)
      && (p.expects(h) ==> StoredMessage(n, f) in log)
  }

  ghost predicate History(p: Protocol, s: Session, rounds: map<nat, Header>, log: seq<Event>) {
    |log| == 0 ||
    (History(p, s, rounds, log[..|log| - 1]) && Allowed(p, s, rounds, log[..|log| - 1], log[|log| - 1]))
  }

  lemma HistoryAppend(p: Protocol, s: Session, rounds: map<nat, Header>, log: seq<Event>, e: Event)
    requires History(p, s, rounds, log) && Allowed(p, s, rounds, log, e)
    ensures History(p, s, rounds, log + [e])
  {
    assert (log + [e])[..|log|] == log;
  }

  lemma {:induction false} HistoryGrows(p: Protocol, s: Session, a: map<nat, Header>, b: map<nat, Header>, log: seq<Event>)
    requires History(p, s, a, log) && forall n :: n in a ==> n in b && b[n] == a[n]
    ensures History(p, s, b, log)
  {
    if |log| != 0 {
      HistoryGrows(p, s, a, b, log[..|log| - 1]);
    }
  }

  /** No event is about a round that has not been entered. */
  lemma {:induction false} HistoryKnows(p: Protocol, s: Session, rounds: map<nat, Header>, log: seq<Event>, e: Event)
    requires History(p, s, rounds, log) && e in log && !e.Silent?
    ensures e.number in rounds
  {
    if e != log[|log| - 1] {
      assert e in log[..|log| - 1];
      HistoryKnows(p, s, rounds, log[..|log| - 1], e);
    }
  }

  /** In a history nothing is stored twice. */
  lemma {:induction false} StoredOnce(p: Protocol, s: Session, rounds: map<nat, Header>, log: seq<Event>, i: nat, j: nat)
    requires History(p, s, rounds, log) && i < j < |log| && (log[i].StoredBroadcast? || log[i].StoredMessage?)
    ensures log[i] != log[j]
  {
    var last := |log| - 1;
    if j == last {
      assert log[..last][i] == log[i];
    } else {
      StoredOnce(p, s, rounds, log[..last], i, j);
    }
  }

  /** In a history a broadcast comes before the message of the same sender. */
  lemma {:induction false} BroadcastFirst(p: Protocol, s: Session, rounds: map<nat, Header>, log: seq<Event>, j: nat)
    requires History(p, s, rounds, log) && j < |log| && log[j].StoredMessage?
    ensures log[j].number in rounds
    ensures p.isBroadcast(rounds[log[j].number]) ==>
              exists i :: 0 <= i < j && log[i] == StoredBroadcast(log[j].number, log[j].from)
  {
    var last := |log| - 1;
    if j < last {
      BroadcastFirst(p, s, rounds, log[..last], j);
    } else {
      assert log[..last] == log[..j];
    }
  }

  /** In a history a round is finalized after everything it waits for. */
  lemma {:induction false} FinalizedLast(p: Protocol, s: Session, rounds: map<nat, Header>, log: seq<Event>, j: nat)
    requires History(p, s, rounds, log) && j < |log| && log[j].Finalized? && 2 <= log[j].number <= s.final
    ensures log[j].number in rounds && Stocked(p, s, rounds[log[j].number], log[j].number, log[..j])
  {
    var last := |log| - 1;
    if j < last {
      FinalizedLast(p, s, rounds, log[..last], j);
      assert log[..last][..j] == log[..j];
    } else {
      assert log[..last] == log[..j];
    }
  }

  lemma {:induction false} AllowedAt(p: Protocol, s: Session, rounds: map<nat, Header>, log: seq<Event>, j: nat)
    requires History(p, s, rounds, log) && j < |log|
    ensures Allowed(p, s, rounds, log[..j], log[j])
  {
    var last := |log| - 1;
    if j < last {
      AllowedAt(p, s, rounds, log[..last], j);
      assert log[..last][..j] == log[..j];
    } else {
      assert log[..last] == log[..j];
    }
  }

  /** In a history a round stores nothing after it has been finalized. */
  lemma NothingAfter(p: Protocol, s: Session, rounds: map<nat, Header>, log: seq<Event>, i: nat, j: nat)
    requires History(p, s, rounds, log) && i < j < |log| && log[i].Finalized?
    requires log[j].StoredBroadcast? || log[j].StoredMessage?
    ensures log[j].number != log[i].number
  {
    if log[j].number == log[i].number {
      AllowedAt(p, s, rounds, log, j);
      FinalizedLast(p, s, rounds, log, i);
    }
  }

  // ----------------------------------------------------------------------- slots

  ghost predicate QueueOk(s: Session, q: Queue) {
    && (forall n :: n in q <==> 2 <= n <= s.final)
    && forall n, id :: n in q && id in q[n] ==> EntryOk(s, n, id, q[n][id])
  }

  predicate EntryOk(s: Session, n: nat, id: ID, m: Message) {
    m.from == id && m.number == n && id in s.parties && m.data.Some?
  }

  lemma Entry(s: Session, q: Queue, n: nat, id: ID)
    requires QueueOk(s, q) && n in q && id in q[n]
    ensures EntryOk(s, n, id, q[n][id])
  {
    assert id in q[n] ==> EntryOk(s, n, id, q[n][id]);
  }

  /** What the current round has stored from one sender was queued and checked, and is in the log. */
  ghost predicate SlotOk(p: Protocol, s: Session, st: State, f: ID)
    requires st.round.Running?
  {
    var h := st.round.header;
    var n := p.number(h);
    var r := st.round;
    && (f in r.broadcasts <==> StoredBroadcast(n, f) in st.log)
    && (f in r.messages <==> StoredMessage(n, f) in st.log)
    && (f in r.broadcasts ==>
          && f != s.self && p.isBroadcast(h) && n in st.broadcast && f in st.broadcast[n]
          && st.broadcast[n][f].data == Some(r.broadcasts[f]) && p.okB(h, f, r.broadcasts[f]))
    && (f in r.messages ==>
          && p.expects(h) && n in st.messages && f in st.messages[n]
          && st.messages[n][f].data == Some(r.messages[f])
          && p.okM(h, f, Lookup(r.broadcasts, f), r.messages[f])
          && (p.isBroadcast(h) ==> f in r.broadcasts))
  }

  /** What is queued from one sender for the current round, and can be checked, has been stored. */
  ghost predicate Drained(p: Protocol, s: Session, st: State, f: ID)
    requires st.round.Running?
  {
    var h := st.round.header;
    var n := p.number(h);
    && (p.isBroadcast(h) && f != s.self && n in st.broadcast && f in st.broadcast[n] ==> f in st.round.broadcasts)
    && (p.expects(h) && n in st.messages && f in st.messages[n] ==>
          f in st.round.messages || (p.isBroadcast(h) && !(n in st.broadcast && f in st.broadcast[n])))
  }

  ghost predicate Untouched(st: State, f: ID)
    requires st.round.Running?
  {
    f !in st.round.broadcasts && f !in st.round.messages
  }

  ghost predicate Storage(p: Protocol, s: Session, st: State) {
    && QueueOk(s, st.messages) && QueueOk(s, st.broadcast)
    && (forall n :: n in st.messages ==> s.self !in st.messages[n])
    && Latest(p, st) && History(p, s, st.rounds, st.log)
    && (st.round.Running? ==> forall f :: SlotOk(p, s, st, f))
  }

  /** Between calls, unless the handler has stopped, the current round is drained. */
  ghost predicate Settled(p: Protocol, s: Session, st: State) {
    st.round.Running? && !Done(st) ==> forall f :: f in s.parties ==> Drained(p, s, st, f)
  }

  // ---------------------------------------------------------------- verification

  lemma VerifyMessageStorage(p: Protocol, s: Session, st: State, m: Message)
    requires Storage(p, s, st) && st.round.Running? && m.data.Some?
    requires m.number == p.number(st.round.header) && m.number in st.messages && m.from in st.messages[m.number]
    requires st.messages[m.number][m.from] == m && m.from !in st.round.messages && m.from != s.self
    requires p.isBroadcast(st.round.header) && m.number in st.broadcast && m.from in st.broadcast[m.number] ==>
               m.from in st.round.broadcasts
    ensures var r := VerifyMessage(p, st, m);
            && Storage(p, s, r.state)
            && (forall f :: f != m.from ==> (f in r.state.round.messages <==> f in st.round.messages))
            && r.state.round.broadcasts == st.round.broadcasts
            && (r.error.None? ==> Drained(p, s, r.state, m.from))
  {
    hide History;
    var h := st.round.header;
    assert SlotOk(p, s, st, m.from);
    var r := VerifyMessage(p, st, m);
    if r.state != st {
      HistoryAppend(p, s, st.rounds, st.log, StoredMessage(m.number, m.from));
      forall f ensures SlotOk(p, s, r.state, f) {
        assert SlotOk(p, s, st, f);
      }
    }
  }

  lemma StoreBroadcastStorage(p: Protocol, s: Session, st: State, m: Message)
    requires Storage(p, s, st) && st.round.Running? && m.data.Some?
    requires m.number == p.number(st.round.header) && m.number in st.broadcast && m.from in st.broadcast[m.number]
    requires st.broadcast[m.number][m.from] == m && Untouched(st, m.from) && m.from != s.self
    ensures var r := StoreBroadcast(p, st, m);
            && Storage(p, s, r.state)
            && r.state.round.messages == st.round.messages
            && (forall f :: f != m.from ==> (f in r.state.round.broadcasts <==> f in st.round.broadcasts))
            && (r.error.None? ==> p.isBroadcast(st.round.header) && m.from in r.state.round.broadcasts)
  {
    hide History;
    var r := StoreBroadcast(p, st, m);
    assert SlotOk(p, s, st, m.from);
    if r.state != st {
      HistoryAppend(p, s, st.rounds, st.log, StoredBroadcast(m.number, m.from));
      forall f ensures SlotOk(p, s, r.state, f) {
        assert SlotOk(p, s, st, f);
      }
    }
  }

  lemma VerifyBroadcastStorage(p: Protocol, s: Session, st: State, m: Message)
    requires Storage(p, s, st) && st.round.Running? && m.data.Some? && Whole(st)
    requires m.number == p.number(st.round.header) && m.number in st.broadcast && m.from in st.broadcast[m.number]
    requires st.broadcast[m.number][m.from] == m && Untouched(st, m.from) && m.from != s.self
    ensures var r := VerifyBroadcast(p, st, m);
            && Storage(p, s, r.state)
            && (forall f :: f != m.from ==>
                  && (f in r.state.round.broadcasts <==> f in st.round.broadcasts)
                  && (f in r.state.round.messages <==> f in st.round.messages))
            && (r.error.None? ==> Drained(p, s, r.state, m.from))
  {
    hide VerifyMessage, StoreBroadcast, History, SlotOk;
    StoreBroadcastStorage(p, s, st, m);
    var stored := StoreBroadcast(p, st, m);
    if stored.error.None? && p.expects(st.round.header) && m.number in st.messages && m.from in st.messages[m.number] {
      Entry(s, st.messages, m.number, m.from);
      VerifyMessageStorage(p, s, stored.state, st.messages[m.number][m.from]);
    }
  }

  /** Reading the queue for one sender drains it and touches no other. */
  lemma ReadOneStorage(p: Protocol, s: Session, st: State, id: ID)
    requires Storage(p, s, st) && st.round.Running? && Whole(st) && Untouched(st, id)
    ensures var r := ReadOne(p, s, st, id);
            && Storage(p, s, r.state)
            && (forall f :: f != id ==>
                  && (f in r.state.round.broadcasts <==> f in st.round.broadcasts)
                  && (f in r.state.round.messages <==> f in st.round.messages))
            && (r.error.None? ==> Drained(p, s, r.state, id))
  {
    hide VerifyMessage, VerifyBroadcast, History, SlotOk;
    var n := p.number(st.round.header);
    if p.isBroadcast(st.round.header) {
      if id != s.self && n in st.broadcast && id in st.broadcast[n] {
        Entry(s, st.broadcast, n, id);
        VerifyBroadcastStorage(p, s, st, st.broadcast[n][id]);
      }
    } else if n in st.messages && id in st.messages[n] {
      Entry(s, st.messages, n, id);
      VerifyMessageStorage(p, s, st, st.messages[n][id]);
    }
  }

  /** Reading the whole queue drains every sender. */
  lemma {:induction false} ReadQueueStorage(p: Protocol, s: Session, st: State, ids: seq<ID>)
    requires Storage(p, s, st) && st.round.Running? && Whole(st)
    requires (forall i, j :: 0 <= i < j < |ids| ==> ids[i] != ids[j]) && forall id :: id in ids ==> Untouched(st, id)
    ensures var r := ReadQueue(p, s, st, ids);
            && Storage(p, s, r.0) && Keeps(st, r.0)
            && (forall f :: f !in ids ==>
                  && (f in r.0.round.broadcasts <==> f in st.round.broadcasts)
                  && (f in r.0.round.messages <==> f in st.round.messages))
            && (r.1.None? ==> forall id :: id in ids ==> Drained(p, s, r.0, id))
    decreases |ids|
  {
    hide ReadOne, Storage;
    if |ids| != 0 {
      ReadOneStorage(p, s, st, ids[0]);
      var step := ReadOne(p, s, st, ids[0]);
      if step.error.None? {
        forall id | id in ids[1..] ensures Untouched(step.state, id) {
          assert id in ids && id != ids[0];
        }
        ReadQueueStorage(p, s, step.state, ids[1..]);
      }
    }
  }

  // ------------------------------------------------------------------- finalizing

  /** A queue grows by messages of this party only. */
  ghost predicate Extends(s: Session, a: Queue, b: Queue) {
    && a.Keys == b.Keys
    && (forall n, id :: n in a && id in b[n] ==> id == s.self || id in a[n])
    && (forall n, id :: n in a && id in a[n] ==> id in b[n] && b[n][id] == a[n][id])
  }

  lemma {:induction false} ForwardStorage(p: Protocol, s: Session, st: State, msgs: seq<Outgoing>, v: Option<Digest>)
    requires QueueOk(s, st.broadcast) && s.self in s.parties
    ensures QueueOk(s, Forward(s, st, msgs, v).broadcast)
    ensures Extends(s, st.broadcast, Forward(s, st, msgs, v).broadcast)
  {
    if |msgs| != 0 {
      ForwardStorage(p, s, st, msgs[..|msgs| - 1], v);
    }
  }

  /** Storage does not depend on own broadcasts, hashes, output or how the handler ended. */
  lemma StorageExtends(p: Protocol, s: Session, a: State, b: State)
    requires Storage(p, s, a) && QueueOk(s, b.broadcast) && Extends(s, a.broadcast, b.broadcast)
    requires b.round == a.round || b.round.Over?
    requires b.rounds == a.rounds && b.messages == a.messages && (b.log == a.log || b.log == a.log + [Silent])
    ensures Storage(p, s, b)
  {
    hide History;
    if b.log != a.log {
      HistoryAppend(p, s, a.rounds, a.log, Silent);
    }
    if b.round.Running? {
      forall f ensures SlotOk(p, s, b, f) {
        assert SlotOk(p, s, a, f);
      }
    }
  }

  lemma ExtendsSelf(s: Session, q: Queue)
    ensures Extends(s, q, q)
  {
  }

  lemma FinalizingStorage(p: Protocol, s: Session, st: State)
    requires Storage(p, s, st) && Settled(p, s, st) && !Done(st) && st.round.Running? && ReceivedAll(p, s, st)
    ensures Storage(p, s, Finalizing(p, s, st))
  {
    hide History;
    var h := st.round.header;
    var n := p.number(h);
    if 2 <= n <= s.final {
      forall f | f in s.parties && f != s.self
        ensures (p.isBroadcast(h) ==> StoredBroadcast(n, f) in st.log) && (p.expects(h) ==> StoredMessage(n, f) in st.log)
      {
        assert Drained(p, s, st, f) && SlotOk(p, s, st, f);
        assert p.isBroadcast(h) ==> f in st.broadcast[n];
        assert p.expects(h) ==> f in st.messages[n];
      }
    }
    HistoryAppend(p, s, st.rounds, st.log, Finalized(n));
    var now := Finalizing(p, s, st);
    forall f ensures SlotOk(p, s, now, f) {
      assert SlotOk(p, s, st, f);
    }
  }

  /** A new round starts with nothing stored and nothing logged. */
  lemma EnteredStorage(p: Protocol, s: Session, now: State, h: Header, msgs: seq<Outgoing>)
    requires Storage(p, s, now) && s.self in s.parties && now.round.Running?
    requires p.number(h) >= p.number(now.round.header)
    ensures Storage(p, s, Entered(p, s, now, h, msgs))
  {
    hide History, Forward;
    var n := p.number(h);
    var v := Get(now.hashes, p.number(h) - 1);
    ForwardStorage(p, s, now, msgs, v);
    var sent := Forward(s, now, msgs, v);
    StorageExtends(p, s, now, sent);
    if n !in now.rounds {
      var entered := Entered(p, s, now, h, msgs);
      HistoryGrows(p, s, now.rounds, entered.rounds, now.log);
      forall f ensures SlotOk(p, s, entered, f) {
        if StoredBroadcast(n, f) in now.log {
          HistoryKnows(p, s, now.rounds, now.log, StoredBroadcast(n, f));
        }
        if StoredMessage(n, f) in now.log {
          HistoryKnows(p, s, now.rounds, now.log, StoredMessage(n, f));
        }
      }
    }
  }

  lemma AbortStorage(p: Protocol, s: Session, st: State, error: Option<string>, culprits: seq<ID>)
    requires Storage(p, s, st)
    ensures Storage(p, s, Abort(s, st, error, culprits))
  {
    hide Storage;
    assert QueueOk(s, st.broadcast) by { StorageQueues(p, s, st); }
    ExtendsSelf(s, st.broadcast);
    StorageExtends(p, s, st, Abort(s, st, error, culprits));
  }

  lemma StorageQueues(p: Protocol, s: Session, st: State)
    requires Storage(p, s, st)
    ensures QueueOk(s, st.messages) && QueueOk(s, st.broadcast)
    ensures forall n :: n in st.messages ==> s.self !in st.messages[n]
  {
  }

  lemma EnterStorage(p: Protocol, s: Session, now: State, h: Header, msgs: seq<Outgoing>)
    requires Storage(p, s, now) && Sane(p, s) && now.round.Running? && Whole(now) && !Done(now)
    requires p.number(h) >= p.number(now.round.header) && (p.number(h) in now.rounds ==> Settled(p, s, now))
    ensures var r := Enter(p, s, now, h, msgs);
            Storage(p, s, r.state) && Settled(p, s, r.state)
  {
    hide Storage, Forward, ReadQueue;
    var n := p.number(h);
    EnteredStorage(p, s, now, h, msgs);
    var entered := Entered(p, s, now, h, msgs);
    if n in now.rounds {
      StorageQueues(p, s, now);
      ForwardStorage(p, s, now, msgs, Get(now.hashes, p.number(h) - 1));
      forall f | f in s.parties ensures Drained(p, s, entered, f) {
        assert Drained(p, s, now, f);
      }
    } else {
      assert Covers(p.order(n), s.parties);
      ReadQueueStorage(p, s, entered, p.order(n));
      var (read, failure) := ReadQueue(p, s, entered, p.order(n));
      if failure.Some? {
        AbortStorage(p, s, read, Some(failure.value.error), failure.value.culprits);
      }
    }
  }

  lemma ConcludeStorage(p: Protocol, s: Session, now: State, o: Outcome)
    requires Storage(p, s, now) && Sane(p, s) && now.round.Running? && Whole(now) && !Done(now) && Settled(p, s, now)
    requires o.Next? ==> p.number(o.header) >= p.number(now.round.header)
    ensures var r := Conclude(p, s, now, o);
            Storage(p, s, r.state) && Settled(p, s, r.state)
  {
    hide Storage, Forward, Enter;
    match o
    case Next(h, msgs) => EnterStorage(p, s, now, h, msgs);
    case Failed(e) => AbortStorage(p, s, now, Some(e), [s.self]);
    case NoRound => AbortStorage(p, s, now, None, [s.self]);
    case Aborted(reason, culprits, msgs) =>
      EndStorage(p, s, now, msgs, None, reason, culprits);
    case Finished(result, msgs) =>
      EndStorage(p, s, now, msgs, result, None, []);
  }

  lemma EndStorage(p: Protocol, s: Session, now: State, msgs: seq<Outgoing>, result: Option<Value>,
                   reason: Option<string>, culprits: seq<ID>)
    requires Storage(p, s, now) && s.self in s.parties && now.result.None?
    ensures Storage(p, s, Abort(s, Forward(s, now, msgs, None).(round := Over, result := result), reason, culprits))
  {
    hide Storage, Forward;
    StorageQueues(p, s, now);
    ForwardStorage(p, s, now, msgs, None);
    var end := Forward(s, now, msgs, None).(round := Over, result := result);
    StorageExtends(p, s, now, end);
    AbortStorage(p, s, end, reason, culprits);
  }

  lemma AdvanceStorage(p: Protocol, s: Session, st: State)
    requires Storage(p, s, st) && Sane(p, s) && st.round.Running? && Whole(st) && !Done(st) && Settled(p, s, st)
    ensures var r := Advance(p, s, st);
            Storage(p, s, r.state) && Settled(p, s, r.state)
  {
    hide Storage, Conclude, HashesMatch, ReceivedAll;
    StorageQueues(p, s, st);
    ExtendsSelf(s, st.broadcast);
    var hashed := WithHash(p, s, st);
    StorageExtends(p, s, st, hashed);
    AbortStorage(p, s, hashed, Some("broadcast verification failed"), []);
    forall f | f in s.parties ensures Drained(p, s, hashed, f) {
      assert Drained(p, s, st, f);
    }
    if Concludes(p, s, st) {
      FinalizingStorage(p, s, st);
      var now := Finalizing(p, s, st);
      forall f | f in s.parties ensures Drained(p, s, now, f) {
        assert Drained(p, s, st, f);
      }
      ConcludeStorage(p, s, now, OutcomeOf(p, st));
    }
  }

  lemma {:induction false} FinalizeStorage(p: Protocol, s: Session, st: State)
    requires Storage(p, s, st) && Sane(p, s) && st.round.Running? && Whole(st) && !Done(st) && Settled(p, s, st)
    requires Closing(st)
    ensures Storage(p, s, Finalize(p, s, st)) && Settled(p, s, Finalize(p, s, st))
    decreases Unseen(s, st)
  {
    hide Storage, Settled, Advance;
    AdvanceStorage(p, s, st);
    AdvanceClosing(p, s, st);
    if Advance(p, s, st).Again? {
      AdvanceEnters(p, s, st);
      FinalizeStorage(p, s, Advance(p, s, st).state);
    }
  }

  // ---------------------------------------------------------------------- accept

  /** A message put into a queue is the only new entry. */
  lemma StoreStorage(p: Protocol, s: Session, st: State, m: Message)
    requires Storage(p, s, st) && !Duplicate(st, m) && m.number != 0
    requires m.from in s.parties && m.from != s.self && m.data.Some?
    ensures Storage(p, s, Store(st, m))
  {
    hide History;
    var stored := Store(st, m);
    if st.round.Running? {
      forall f ensures SlotOk(p, s, stored, f) {
        assert SlotOk(p, s, st, f);
      }
    }
  }

  lemma AcceptStorage(p: Protocol, s: Session, st: State, m: Message)
    requires Storage(p, s, st) && Sane(p, s) && Whole(st) && Settled(p, s, st) && Closing(st)
    ensures Storage(p, s, Accept(p, s, st, m)) && Settled(p, s, Accept(p, s, st, m))
  {
    hide Storage, Finalize, CanAccept, VerifyMessage, VerifyBroadcast;
    if !Refuses(p, s, st, m) {
      Accepted(s, Number(p, st.round), m);
      if m.number == 0 {
        AbortStorage(p, s, st, Some("aborted by other party"), [m.from]);
      } else {
        StoreStorage(p, s, st, m);
        var stored := Store(st, m);
        if Number(p, st.round) == m.number {
          VerifyStorage(p, s, st, m);
          VerifyQuiet(p, stored, m);
          var step := Verify(p, stored, m);
          if step.error.None? {
            FinalizeStorage(p, s, step.state);
          } else {
            AbortStorage(p, s, step.state, step.error, [m.from]);
          }
        } else if st.round.Running? {
          forall f | f in s.parties ensures Drained(p, s, stored, f) {
            assert Drained(p, s, st, f);
          }
        }
      }
    }
  }

  lemma NotExpected(p: Protocol, st: State, m: Message)
    requires st.round.Running? && m.data.Some? && Whole(st) && !p.isBroadcast(st.round.header)
    ensures VerifyBroadcast(p, st, m) == StoreBroadcast(p, st, m)
  {
  }

  /** Verifying a message of the current round drains its sender again. */
  lemma VerifyStorage(p: Protocol, s: Session, st: State, m: Message)
    requires Storage(p, s, st) && Storage(p, s, Store(st, m)) && Whole(st) && Settled(p, s, st) && !Done(st)
    requires !Duplicate(st, m) && m.number != 0 && st.round.Running? && m.number == p.number(st.round.header)
    requires m.from in s.parties && m.from != s.self && m.data.Some?
    ensures var step := Verify(p, Store(st, m), m);
            Storage(p, s, step.state) && (step.error.None? ==> Settled(p, s, step.state))
  {
    hide History, VerifyMessage, VerifyBroadcast;
    var stored := Store(st, m);
    assert SlotOk(p, s, st, m.from) && Drained(p, s, st, m.from);
    hide SlotOk;
    if m.broadcast {
      if p.isBroadcast(st.round.header) {
        VerifyBroadcastStorage(p, s, stored, m);
      } else {
        assert VerifyBroadcast(p, stored, m) == StoreBroadcast(p, stored, m) by { NotExpected(p, stored, m); }
      }
    } else {
      VerifyMessageStorage(p, s, stored, m);
    }
    var after := Verify(p, stored, m).state;
    forall f | f in s.parties && f != m.from ensures Drained(p, s, after, f) {
      assert Drained(p, s, st, f);
    }
  }

  /** Every run keeps the storage invariant: its log is a history, its slots are checked queue entries. */
  lemma {:induction false} RunStorage(p: Protocol, s: Session, h: Header, ms: seq<Message>)
    requires Sane(p, s)
    ensures Storage(p, s, Run(p, s, h, ms)) && Settled(p, s, Run(p, s, h, ms))
  {
    hide Accept, Finalize;
    if |ms| == 0 {
      var st := Initial(p, s, h);
      FinalizeStorage(p, s, st);
    } else {
      var before := ms[..|ms| - 1];
      RunStorage(p, s, h, before);
      RunClosing(p, s, h, before);
      AcceptStorage(p, s, Run(p, s, h, before), ms[|ms| - 1]);
    }
  }
}
