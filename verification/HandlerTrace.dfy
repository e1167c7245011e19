/**
  Where rounds and results come from: in every run each round, own broadcast and result is what Finalize
  returned for an earlier round on exactly the messages that were queued for it, all of them checked.
 */
module HandlerTrace {
  import opened Party
  import opened Handler
  import opened HandlerRuns
  import opened HandlerStorage
  import opened Echo

  function Entries(q: Queue, n: nat): (r: map<ID, Message>) {
    if n in q then q[n] else map[]
  }

  function DataOf(m: Message): (d: Data) {
    if m.data.Some? then m.data.value else []
  }

  /** What others have broadcast for the round h. */
  ghost function GotB(p: Protocol, s: Session, st: State, h: Header): map<ID, Data> {
    map id | id in Entries(st.broadcast, p.number(h)) && id != s.self && p.isBroadcast(h) ::
      DataOf(Entries(st.broadcast, p.number(h))[id])
  }

  /** What others have sent for the round h. */
  ghost function GotM(p: Protocol, st: State, h: Header): map<ID, Data> {
    map id | id in Entries(st.messages, p.number(h)) && p.expects(h) :: DataOf(Entries(st.messages, p.number(h))[id])
  }

  /** What Finalize returns for a round on what is queued for it. */
  ghost function OutcomeAt(p: Protocol, s: Session, st: State, h: Header): Outcome {
    p.finalize(h, GotB(p, s, st, h), GotM(p, st, h))
  }

  /** Everything the round waits for is queued. */
  ghost predicate AllIn(p: Protocol, s: Session, st: State, h: Header) {
    var n := p.number(h);
    && (p.isBroadcast(h) && 2 <= n <= s.final ==>
          n in st.hashes && n in st.broadcast && forall id :: id in s.parties ==> id in st.broadcast[n])
    && (p.expects(h) && 2 <= n <= s.final ==>
          n in st.messages && forall id :: id in s.parties && id != s.self ==> id in st.messages[n])
  }

  /** Everything that is queued for the round has passed its checks. */
  ghost predicate Checked(p: Protocol, s: Session, st: State, h: Header) {
    && (forall id :: id in GotB(p, s, st, h) ==> p.okB(h, id, GotB(p, s, st, h)[id]))
    && (forall id :: id in GotM(p, st, h) ==>
          p.okM(h, id, Lookup(GotB(p, s, st, h), id), GotM(p, st, h)[id]))
  }

  /** Round k has been finalized, with everything it waits for, and led to outcome o. */
  ghost predicate Led(p: Protocol, s: Session, st: State, k: nat, o: Outcome) {
    && Finalized(k) in st.log && k in st.rounds
    && o == OutcomeAt(p, s, st, st.rounds[k])
  }

  function Msgs(o: Outcome): (r: seq<Outgoing>) {
    if o.Next? || o.Aborted? || o.Finished? then o.msgs else []
  }

  ghost predicate Announced(o: Outcome, n: nat, m: Message) {
    exists i :: 0 <= i < |Msgs(o)| && Msgs(o)[i].broadcast && Msgs(o)[i].number == n && m.data == Some(Msgs(o)[i].data)
  }

  ghost predicate RoundTraced(p: Protocol, s: Session, h0: Header, st: State, n: nat)
    requires n in st.rounds
  {
    && p.number(st.rounds[n]) == n
    && (st.rounds[n] == h0 || exists k, o :: Led(p, s, st, k, o) && o.Next? && o.header == st.rounds[n])
  }

  ghost predicate ResultTraced(p: Protocol, s: Session, st: State) {
    st.result.Some? ==> exists k, o :: Led(p, s, st, k, o) && o.Finished? && o.result == st.result
  }

  ghost predicate OwnTraced(p: Protocol, s: Session, st: State, n: nat) {
    n in st.broadcast && s.self in st.broadcast[n] ==>
      exists k, o :: Led(p, s, st, k, o) && Announced(o, n, st.broadcast[n][s.self])
  }

  ghost predicate Traced(p: Protocol, s: Session, h0: Header, st: State) {
    && (forall n :: n in st.rounds ==> RoundTraced(p, s, h0, st, n))
    && (forall k :: Finalized(k) in st.log ==>
          k in st.rounds && AllIn(p, s, st, st.rounds[k]) && Checked(p, s, st, st.rounds[k]))
    && ResultTraced(p, s, st)
    && (forall n :: OwnTraced(p, s, st, n))
  }

  lemma TracedAt(p: Protocol, s: Session, h0: Header, st: State, k: nat)
    requires Traced(p, s, h0, st) && Finalized(k) in st.log
    ensures k in st.rounds && AllIn(p, s, st, st.rounds[k]) && Checked(p, s, st, st.rounds[k])
  {
  }

  /** The round that a result came from. */
  lemma ResultFrom(p: Protocol, s: Session, h0: Header, st: State) returns (k: nat)
    requires Traced(p, s, h0, st) && st.result.Some?
    ensures Finalized(k) in st.log && k in st.rounds && p.number(st.rounds[k]) == k
    ensures OutcomeAt(p, s, st, st.rounds[k]).Finished? && OutcomeAt(p, s, st, st.rounds[k]).result == st.result
  {
    hide OutcomeAt, AllIn, Checked, OwnTraced;
    var i, o :| Led(p, s, st, i, o) && o.Finished? && o.result == st.result;
    assert RoundTraced(p, s, h0, st, i);
    k := i;
  }

  /** The round that another round was entered from. */
  lemma RoundFrom(p: Protocol, s: Session, h0: Header, st: State, n: nat) returns (k: nat)
    requires Traced(p, s, h0, st) && n in st.rounds && st.rounds[n] != h0
    ensures Finalized(k) in st.log && k in st.rounds && p.number(st.rounds[k]) == k
    ensures OutcomeAt(p, s, st, st.rounds[k]).Next? && OutcomeAt(p, s, st, st.rounds[k]).header == st.rounds[n]
  {
    hide OutcomeAt, AllIn, Checked, OwnTraced, ResultTraced;
    assert RoundTraced(p, s, h0, st, n);
    var i, o :| Led(p, s, st, i, o) && o.Next? && o.header == st.rounds[n];
    assert RoundTraced(p, s, h0, st, i);
    k := i;
  }

  /** The round that an own broadcast came from. */
  lemma OwnFrom(p: Protocol, s: Session, h0: Header, st: State, n: nat) returns (k: nat)
    requires Traced(p, s, h0, st) && n in st.broadcast && s.self in st.broadcast[n]
    ensures k in st.rounds && Announced(OutcomeAt(p, s, st, st.rounds[k]), n, st.broadcast[n][s.self])
  {
    hide OutcomeAt, AllIn, Checked, RoundTraced, ResultTraced, Announced;
    assert OwnTraced(p, s, st, n);
    var i, o :| Led(p, s, st, i, o) && Announced(o, n, st.broadcast[n][s.self]);
    k := i;
  }

  // ---------------------------------------------------------------- preservation

  /** The second state has everything of the first, and only new queue entries, rounds and hashes. */
  ghost predicate Grows(s: Session, a: State, b: State) {
    && Adds(a.broadcast, b.broadcast) && Adds(a.messages, b.messages)
    && QueueOk(s, b.broadcast) && QueueOk(s, b.messages)
    && (forall n :: n in b.messages ==> s.self !in b.messages[n])
    && (forall n :: n in a.rounds ==> n in b.rounds && b.rounds[n] == a.rounds[n])
    && (forall k :: k in a.hashes ==> k in b.hashes)
    && SameFinal(a.log, b.log)
  }

  /** A queue that already holds something from everybody but us gets nothing more from others. */
  lemma SameEntries(s: Session, a: Queue, b: Queue, n: nat, id: ID)
    requires Adds(a, b) && QueueOk(s, b) && id != s.self
    requires n in a ==> forall f :: f in s.parties && f != s.self ==> f in a[n]
    ensures id in Entries(a, n) <==> id in Entries(b, n)
    ensures id in Entries(a, n) ==> Entries(a, n)[id] == Entries(b, n)[id]
  {
    if n in b && id in b[n] {
      Entry(s, b, n, id);
    }
  }

  lemma SameGotB(p: Protocol, s: Session, a: State, b: State, h: Header)
    requires Adds(a.broadcast, b.broadcast) && QueueOk(s, a.broadcast) && QueueOk(s, b.broadcast) && AllIn(p, s, a, h)
    ensures GotB(p, s, a, h) == GotB(p, s, b, h)
  {
    hide Adds, QueueOk, Entries;
    var n := p.number(h);
    if p.isBroadcast(h) {
      forall id | id != s.self
        ensures id in Entries(a.broadcast, n) <==> id in Entries(b.broadcast, n)
        ensures id in Entries(a.broadcast, n) ==> Entries(a.broadcast, n)[id] == Entries(b.broadcast, n)[id]
      {
        assert n in a.broadcast ==> 2 <= n <= s.final by { QueueRange(s, a.broadcast, n); }
        SameEntries(s, a.broadcast, b.broadcast, n, id);
      }
    }
  }

  lemma SameGotM(p: Protocol, s: Session, a: State, b: State, h: Header)
    requires Adds(a.messages, b.messages) && QueueOk(s, a.messages) && QueueOk(s, b.messages) && AllIn(p, s, a, h)
    requires forall n :: n in b.messages ==> s.self !in b.messages[n]
    ensures GotM(p, a, h) == GotM(p, b, h)
  {
    hide QueueOk;
    var n := p.number(h);
    if p.expects(h) {
      forall id
        ensures id in Entries(a.messages, n) <==> id in Entries(b.messages, n)
        ensures id in Entries(a.messages, n) ==> Entries(a.messages, n)[id] == Entries(b.messages, n)[id]
      {
        assert n in a.messages ==> 2 <= n <= s.final by { QueueRange(s, a.messages, n); }
        if id != s.self {
          SameEntries(s, a.messages, b.messages, n, id);
        }
      }
    }
  }

  lemma QueueRange(s: Session, q: Queue, n: nat)
    requires QueueOk(s, q)
    ensures n in q <==> 2 <= n <= s.final
  {
  }

  lemma QueuesBefore(s: Session, a: Queue, b: Queue)
    requires Adds(a, b) && QueueOk(s, b)
    ensures QueueOk(s, a)
  {
    forall n, id | n in a && id in a[n] ensures EntryOk(s, n, id, a[n][id]) {
      Entry(s, b, n, id);
    }
  }

  /** A filled round gets nothing more. */
  lemma SameGot(p: Protocol, s: Session, a: State, b: State, h: Header)
    requires Grows(s, a, b) && AllIn(p, s, a, h)
    ensures GotB(p, s, a, h) == GotB(p, s, b, h) && GotM(p, a, h) == GotM(p, b, h)
    ensures AllIn(p, s, b, h)
  {
    QueuesBefore(s, a.broadcast, b.broadcast);
    QueuesBefore(s, a.messages, b.messages);
    hide QueueOk, GotB, GotM;
    SameGotB(p, s, a, b, h);
    SameGotM(p, s, a, b, h);
  }

  lemma SameLed(p: Protocol, s: Session, h0: Header, a: State, b: State)
    requires Traced(p, s, h0, a) && Grows(s, a, b)
    ensures forall k, o :: Led(p, s, a, k, o) ==> Led(p, s, b, k, o)
    ensures forall k :: Finalized(k) in b.log ==>
        k in b.rounds && AllIn(p, s, b, b.rounds[k]) && Checked(p, s, b, b.rounds[k])
  {
    hide RoundTraced, ResultTraced, OwnTraced, Adds, QueueOk, GotB, GotM, AllIn;
    forall k | Finalized(k) in b.log
      ensures k in b.rounds && AllIn(p, s, b, b.rounds[k]) && Checked(p, s, b, b.rounds[k])
      ensures b.rounds[k] == a.rounds[k] && OutcomeAt(p, s, a, a.rounds[k]) == OutcomeAt(p, s, b, b.rounds[k])
    {
      SameGot(p, s, a, b, a.rounds[k]);
    }
  }

  /** New rounds, own broadcasts and results must be accounted for; the rest is kept. */
  lemma TracedGrows(p: Protocol, s: Session, h0: Header, a: State, b: State)
    requires Traced(p, s, h0, a) && Grows(s, a, b)
    requires forall n :: n in b.rounds && n !in a.rounds ==> RoundTraced(p, s, h0, b, n)
    requires b.result == a.result || ResultTraced(p, s, b)
    requires forall n :: n in b.broadcast && s.self in b.broadcast[n] ==>
               (n in a.broadcast && s.self in a.broadcast[n]) || OwnTraced(p, s, b, n)
    ensures Traced(p, s, h0, b)
  {
    hide Led, Announced, AllIn, Checked, QueueOk;
    SameLed(p, s, h0, a, b);
    forall n | n in b.rounds ensures RoundTraced(p, s, h0, b, n) {
      if n in a.rounds {
        assert RoundTraced(p, s, h0, a, n);
      }
    }
    forall n ensures OwnTraced(p, s, b, n) {
      assert OwnTraced(p, s, a, n);
    }
  }

  lemma GrowsBy(p: Protocol, s: Session, a: State, b: State)
    requires Storage(p, s, b) && Adds(a.broadcast, b.broadcast) && Adds(a.messages, b.messages)
    requires forall n :: n in a.rounds ==> n in b.rounds && b.rounds[n] == a.rounds[n]
    requires (forall k :: k in a.hashes ==> k in b.hashes) && SameFinal(a.log, b.log)
    ensures Grows(s, a, b)
  {
  }

  /** A step that touches neither rounds, result nor own broadcasts. */
  lemma TracedKeeps(p: Protocol, s: Session, h0: Header, a: State, b: State)
    requires Traced(p, s, h0, a) && Storage(p, s, b) && Adds(a.broadcast, b.broadcast) && Adds(a.messages, b.messages)
    requires b.rounds == a.rounds && b.result == a.result && SameFinal(a.log, b.log)
    requires forall k :: k in a.hashes ==> k in b.hashes
    requires forall n :: n in b.broadcast && s.self in b.broadcast[n] ==> n in a.broadcast && s.self in a.broadcast[n]
    ensures Traced(p, s, h0, b)
  {
    hide Traced, Storage, RoundTraced, ResultTraced, OwnTraced;
    GrowsBy(p, s, a, b);
    TracedGrows(p, s, h0, a, b);
  }

  lemma AbortTraced(p: Protocol, s: Session, h0: Header, st: State, error: Option<string>, culprits: seq<ID>)
    requires Traced(p, s, h0, st) && Storage(p, s, st)
    ensures Traced(p, s, h0, Abort(s, st, error, culprits))
  {
    hide Traced, Storage;
    AddsSelf(st.messages);
    AddsSelf(st.broadcast);
    AbortStorage(p, s, st, error, culprits);
    TracedKeeps(p, s, h0, st, Abort(s, st, error, culprits));
  }

  // ------------------------------------------------------------------- finalizing

  /** When a round is finalized it has stored exactly what is queued for it. */
  lemma StoredIsQueued(p: Protocol, s: Session, st: State)
    requires Storage(p, s, st) && Settled(p, s, st) && !Done(st) && st.round.Running? && ReceivedAll(p, s, st)
    ensures var h := st.round.header;
            st.round.broadcasts == GotB(p, s, st, h) && st.round.messages == GotM(p, st, h)
  {
    hide History, Latest;
    var h := st.round.header;
    var n := p.number(h);
    forall id
      ensures id in st.round.broadcasts <==> id in GotB(p, s, st, h)
      ensures id in st.round.broadcasts ==> st.round.broadcasts[id] == GotB(p, s, st, h)[id]
      ensures id in st.round.messages <==> id in GotM(p, st, h)
      ensures id in st.round.messages ==> st.round.messages[id] == GotM(p, st, h)[id]
    {
      StoredFrom(p, s, st, id);
    }
  }

  lemma StoredFrom(p: Protocol, s: Session, st: State, id: ID)
    requires Storage(p, s, st) && Settled(p, s, st) && !Done(st) && st.round.Running? && ReceivedAll(p, s, st)
    ensures var h := st.round.header;
            && (id in st.round.broadcasts <==> id in GotB(p, s, st, h))
            && (id in st.round.broadcasts ==> st.round.broadcasts[id] == GotB(p, s, st, h)[id])
            && (id in st.round.messages <==> id in GotM(p, st, h))
            && (id in st.round.messages ==> st.round.messages[id] == GotM(p, st, h)[id])
  {
    assert SlotOk(p, s, st, id);
    assert id in s.parties ==> Drained(p, s, st, id);
    StorageQueues(p, s, st);
    hide Storage, Settled;
    var n := p.number(st.round.header);
    if n in st.broadcast && id in st.broadcast[n] {
      Entry(s, st.broadcast, n, id);
    }
    if n in st.messages && id in st.messages[n] {
      Entry(s, st.messages, n, id);
    }
  }

  lemma NowFilled(p: Protocol, s: Session, st: State)
    requires st.round.Running? && ReceivedAll(p, s, st) && QueueOk(s, st.broadcast) && QueueOk(s, st.messages)
    ensures AllIn(p, s, WithHash(p, s, st), st.round.header)
  {
  }

  lemma NowChecked(p: Protocol, s: Session, st: State)
    requires Storage(p, s, st) && Settled(p, s, st) && !Done(st) && st.round.Running? && ReceivedAll(p, s, st)
    ensures Checked(p, s, st, st.round.header)
  {
    StoredIsQueued(p, s, st);
    hide History, Latest, GotB, GotM;
    var h := st.round.header;
    forall id ensures id in GotB(p, s, st, h) ==> p.okB(h, id, GotB(p, s, st, h)[id])
      ensures id in GotM(p, st, h) ==> p.okM(h, id, Lookup(GotB(p, s, st, h), id), GotM(p, st, h)[id])
    {
      assert SlotOk(p, s, st, id);
    }
  }

  /** Recording that round n was finalized, once it is filled and checked. */
  lemma LogTraced(p: Protocol, s: Session, h0: Header, a: State, n: nat)
    requires Traced(p, s, h0, a) && n in a.rounds && AllIn(p, s, a, a.rounds[n]) && Checked(p, s, a, a.rounds[n])
    ensures var b := a.(log := a.log + [Finalized(n)]);
            Traced(p, s, h0, b) && Led(p, s, b, n, OutcomeAt(p, s, b, b.rounds[n]))
  {
    var b := a.(log := a.log + [Finalized(n)]);
    LedKept(p, s, a, b);
    LedIs(p, s, b, n);
    hide Led, AllIn, Checked;
    LoggedRounds(p, s, a, b, n);
    KeptTraces(p, s, h0, a, b);
  }

  lemma KeptTraces(p: Protocol, s: Session, h0: Header, a: State, b: State)
    requires Traced(p, s, h0, a) && b == a.(log := b.log) && forall k, o :: Led(p, s, a, k, o) ==> Led(p, s, b, k, o)
    ensures (forall n :: n in b.rounds ==> RoundTraced(p, s, h0, b, n)) && ResultTraced(p, s, b)
    ensures forall n :: OwnTraced(p, s, b, n)
  {
    hide Led, Announced, AllIn, Checked;
    forall k | k in b.rounds ensures RoundTraced(p, s, h0, b, k) {
      assert RoundTraced(p, s, h0, a, k);
    }
    forall k ensures OwnTraced(p, s, b, k) {
      assert OwnTraced(p, s, a, k);
    }
  }

  lemma LoggedRounds(p: Protocol, s: Session, a: State, b: State, n: nat)
    requires b == a.(log := a.log + [Finalized(n)])
    requires n in a.rounds && AllIn(p, s, a, a.rounds[n]) && Checked(p, s, a, a.rounds[n])
    requires forall k :: Finalized(k) in a.log ==>
        k in a.rounds && AllIn(p, s, a, a.rounds[k]) && Checked(p, s, a, a.rounds[k])
    ensures forall k :: Finalized(k) in b.log ==>
        k in b.rounds && AllIn(p, s, b, b.rounds[k]) && Checked(p, s, b, b.rounds[k])
  {
    SameQueues(p, s, a, b);
    hide GotB, GotM;
    forall k | Finalized(k) in b.log
      ensures k in b.rounds && AllIn(p, s, b, b.rounds[k]) && Checked(p, s, b, b.rounds[k])
    {
      assert k == n || Finalized(k) in a.log;
    }
  }

  lemma LedIs(p: Protocol, s: Session, st: State, k: nat)
    requires Finalized(k) in st.log && k in st.rounds
    ensures Led(p, s, st, k, OutcomeAt(p, s, st, st.rounds[k]))
  {
  }

  lemma LedKept(p: Protocol, s: Session, a: State, b: State)
    requires b == a.(log := b.log) && forall e :: e in a.log ==> e in b.log
    ensures forall k, o :: Led(p, s, a, k, o) ==> Led(p, s, b, k, o)
  {
  }

  lemma FinalizingTraced(p: Protocol, s: Session, h0: Header, st: State)
    requires Traced(p, s, h0, st) && Storage(p, s, st) && Settled(p, s, st) && !Done(st)
    requires st.round.Running? && ReceivedAll(p, s, st)
    ensures var now := Finalizing(p, s, st);
            Traced(p, s, h0, now) && Led(p, s, now, p.number(st.round.header), OutcomeOf(p, st))
  {
    StorageQueues(p, s, st);
    NowFilled(p, s, st);
    NowChecked(p, s, st);
    StoredIsQueued(p, s, st);
    var hashed := WithHash(p, s, st);
    var n := p.number(st.round.header);
    assert n in st.rounds && st.rounds[n] == st.round.header;
    assert Traced(p, s, h0, hashed) by {
      HashTraced(p, s, h0, st);
    }
    assert GotB(p, s, hashed, st.round.header) == GotB(p, s, st, st.round.header);
    assert GotM(p, hashed, st.round.header) == GotM(p, st, st.round.header);
    hide Traced, Storage, Settled, AllIn, WithHash, ReceivedAll, GotB, GotM;
    LogTraced(p, s, h0, hashed, n);
    var now := Finalizing(p, s, st);
    assert GotB(p, s, now, st.round.header) == GotB(p, s, hashed, st.round.header) by { SameQueues(p, s, hashed, now); }
    assert GotM(p, now, st.round.header) == GotM(p, hashed, st.round.header) by { SameQueues(p, s, hashed, now); }
  }

  lemma SameQueues(p: Protocol, s: Session, a: State, b: State)
    requires a.broadcast == b.broadcast && a.messages == b.messages
    ensures forall h :: GotB(p, s, a, h) == GotB(p, s, b, h) && GotM(p, a, h) == GotM(p, b, h)
  {
  }

  lemma HashTraced(p: Protocol, s: Session, h0: Header, st: State)
    requires Traced(p, s, h0, st) && Storage(p, s, st) && st.round.Running?
    ensures Traced(p, s, h0, WithHash(p, s, st)) && Storage(p, s, WithHash(p, s, st))
  {
    StorageQueues(p, s, st);
    hide Traced, Storage, HasBroadcasts, Listed;
    AddsSelf(st.messages);
    AddsSelf(st.broadcast);
    ExtendsSelf(s, st.broadcast);
    var hashed := WithHash(p, s, st);
    StorageExtends(p, s, st, hashed);
    TracedKeeps(p, s, h0, st, hashed);
  }

  // ---------------------------------------------------------------------- moving on

  /** Own broadcasts that appear with Forward are among the forwarded messages. */
  lemma {:induction false} ForwardOwn(s: Session, st: State, msgs: seq<Outgoing>, v: Option<Digest>, n: nat)
    requires var r := Forward(s, st, msgs, v);
             n in r.broadcast && s.self in r.broadcast[n] && !(n in st.broadcast && s.self in st.broadcast[n])
    ensures var r := Forward(s, st, msgs, v);
            exists i :: 0 <= i < |msgs| && msgs[i].broadcast && msgs[i].number == n &&
                        r.broadcast[n][s.self].data == Some(msgs[i].data)
  {
    if |msgs| != 0 {
      var last := |msgs| - 1;
      var before := Forward(s, st, msgs[..last], v);
      if n in before.broadcast && s.self in before.broadcast[n] {
        ForwardOwn(s, st, msgs[..last], v, n);
        var i :| 0 <= i < last && msgs[..last][i].broadcast && msgs[..last][i].number == n &&
                 before.broadcast[n][s.self].data == Some(msgs[..last][i].data);
        assert msgs[i] == msgs[..last][i];
      } else {
        assert msgs[last].broadcast && msgs[last].number == n;
      }
    }
  }

  /** What Forward queues is accounted for by the outcome that is being forwarded. */
  lemma ForwardTraced(p: Protocol, s: Session, h0: Header, now: State, k: nat, o: Outcome, v: Option<Digest>)
    requires Traced(p, s, h0, now) && Storage(p, s, now) && s.self in s.parties && Led(p, s, now, k, o)
    ensures var r := Forward(s, now, Msgs(o), v);
            Traced(p, s, h0, r) && Storage(p, s, r) && Led(p, s, r, k, o)
  {
    StorageQueues(p, s, now);
    ForwardStorage(p, s, now, Msgs(o), v);
    ForwardEchoed(p, s, now, Msgs(o), v);
    hide Traced, Storage, Forward, Led, QueueOk, Msgs;
    var r := Forward(s, now, Msgs(o), v);
    StorageExtends(p, s, now, r);
    AddsSelf(now.messages);
    GrowsBy(p, s, now, r);
    SameLed(p, s, h0, now, r);
    forall n | n in r.broadcast && s.self in r.broadcast[n]
      ensures (n in now.broadcast && s.self in now.broadcast[n]) || OwnTraced(p, s, r, n)
    {
      if !(n in now.broadcast && s.self in now.broadcast[n]) {
        ForwardOwn(s, now, Msgs(o), v, n);
        assert Announced(o, n, r.broadcast[n][s.self]);
      }
    }
    TracedGrows(p, s, h0, now, r);
  }

  lemma EnterTraced(p: Protocol, s: Session, h0: Header, now: State, k: nat, h: Header, msgs: seq<Outgoing>)
    requires Traced(p, s, h0, now) && Storage(p, s, now) && Sane(p, s) && Whole(now) && now.round.Running? && !Done(now)
    requires Led(p, s, now, k, Next(h, msgs)) && p.number(h) >= p.number(now.round.header)
    ensures Traced(p, s, h0, Enter(p, s, now, h, msgs).state)
  {
    hide Traced, Storage, Forward, ReadQueue, Led, Covers;
    var n := p.number(h);
    var v := Get(now.hashes, p.number(h) - 1);
    ForwardTraced(p, s, h0, now, k, Next(h, msgs), v);
    EnteredStorage(p, s, now, h, msgs);
    var sent := Forward(s, now, msgs, v);
    var entered := Entered(p, s, now, h, msgs);
    if n !in now.rounds {
      AddsSelf(sent.messages);
      AddsSelf(sent.broadcast);
      GrowsBy(p, s, sent, entered);
      SameLed(p, s, h0, sent, entered);
      assert Led(p, s, entered, k, Next(h, msgs));
      assert RoundTraced(p, s, h0, entered, n);
      TracedGrows(p, s, h0, sent, entered);
      assert Covers(p.order(n), s.parties);
      ReadTraced(p, s, h0, entered, n);
    }
  }

  lemma ReadTraced(p: Protocol, s: Session, h0: Header, entered: State, n: nat)
    requires Traced(p, s, h0, entered) && Storage(p, s, entered) && Whole(entered)
    requires entered.round.Running? && entered.round == Running(entered.round.header, map[], map[])
    requires Covers(p.order(n), s.parties)
    ensures var (read, failure) := ReadQueue(p, s, entered, p.order(n));
            && Traced(p, s, h0, read) && Storage(p, s, read)
            && (failure.Some? ==> Traced(p, s, h0, Abort(s, read, Some(failure.value.error), failure.value.culprits)))
  {
    hide Traced, Storage, ReadQueue;
    ReadQueueStorage(p, s, entered, p.order(n));
    ReadQueueKeeps(p, s, entered, p.order(n));
    ReadFinal(p, s, entered, p.order(n));
    var (read, failure) := ReadQueue(p, s, entered, p.order(n));
    AddsSelf(read.messages);
    AddsSelf(read.broadcast);
    TracedKeeps(p, s, h0, entered, read);
    if failure.Some? {
      AbortTraced(p, s, h0, read, Some(failure.value.error), failure.value.culprits);
    }
  }

  lemma EndTraced(p: Protocol, s: Session, h0: Header, now: State, k: nat, o: Outcome, result: Option<Value>,
                  reason: Option<string>, culprits: seq<ID>)
    requires Traced(p, s, h0, now) && Storage(p, s, now) && s.self in s.parties && Led(p, s, now, k, o)
    requires result == now.result || (o.Finished? && o.result == result)
    ensures Traced(p, s, h0, Abort(s, Forward(s, now, Msgs(o), None).(round := Over, result := result), reason, culprits))
  {
    hide Traced, Storage, Forward, Led, QueueOk, Msgs;
    ForwardTraced(p, s, h0, now, k, o, None);
    var sent := Forward(s, now, Msgs(o), None);
    var end := sent.(round := Over, result := result);
    StorageQueues(p, s, sent);
    ExtendsSelf(s, sent.broadcast);
    StorageExtends(p, s, sent, end);
    AddsSelf(sent.messages);
    AddsSelf(sent.broadcast);
    GrowsBy(p, s, sent, end);
    SameLed(p, s, h0, sent, end);
    assert Led(p, s, end, k, o);
    TracedGrows(p, s, h0, sent, end);
    AbortTraced(p, s, h0, end, reason, culprits);
  }

  lemma ConcludeTraced(p: Protocol, s: Session, h0: Header, now: State, k: nat, o: Outcome)
    requires Traced(p, s, h0, now) && Storage(p, s, now) && Sane(p, s) && Whole(now) && now.round.Running? && !Done(now)
    requires Led(p, s, now, k, o) && (o.Next? ==> p.number(o.header) >= p.number(now.round.header))
    ensures Traced(p, s, h0, Conclude(p, s, now, o).state)
  {
    hide Traced, Storage, Forward, Led, Enter;
    match o
    case Next(h, msgs) => EnterTraced(p, s, h0, now, k, h, msgs);
    case Failed(e) => AbortTraced(p, s, h0, now, Some(e), [s.self]);
    case NoRound => AbortTraced(p, s, h0, now, None, [s.self]);
    case Aborted(reason, culprits, msgs) =>
      EndTraced(p, s, h0, now, k, o, now.result, reason, culprits);
      assert Forward(s, now, msgs, None).result == now.result;
      assert Forward(s, now, msgs, None).(round := Over) == Forward(s, now, msgs, None).(round := Over, result := now.result);
    case Finished(result, msgs) =>
      EndTraced(p, s, h0, now, k, o, result, None, []);
  }

  lemma AdvanceTraced(p: Protocol, s: Session, h0: Header, st: State)
    requires Traced(p, s, h0, st) && Storage(p, s, st) && Settled(p, s, st) && Sane(p, s)
    requires st.round.Running? && Whole(st) && !Done(st)
    ensures Traced(p, s, h0, Advance(p, s, st).state)
  {
    hide Traced, Storage, Settled, Conclude, ReceivedAll, HashesMatch, Led;
    HashTraced(p, s, h0, st);
    AbortTraced(p, s, h0, WithHash(p, s, st), Some("broadcast verification failed"), []);
    if Concludes(p, s, st) {
      FinalizingTraced(p, s, h0, st);
      FinalizingStorage(p, s, st);
      ConcludeTraced(p, s, h0, Finalizing(p, s, st), p.number(st.round.header), OutcomeOf(p, st));
    }
  }

  lemma {:induction false} FinalizeTraced(p: Protocol, s: Session, h0: Header, st: State)
    requires Traced(p, s, h0, st) && Storage(p, s, st) && Settled(p, s, st) && Sane(p, s)
    requires st.round.Running? && Whole(st) && !Done(st) && Closing(st)
    ensures Traced(p, s, h0, Finalize(p, s, st))
    decreases Unseen(s, st)
  {
    hide Traced, Storage, Settled, Advance;
    AdvanceTraced(p, s, h0, st);
    AdvanceStorage(p, s, st);
    AdvanceClosing(p, s, st);
    if Advance(p, s, st).Again? {
      AdvanceEnters(p, s, st);
      FinalizeTraced(p, s, h0, Advance(p, s, st).state);
    }
  }

  lemma StoreTraced(p: Protocol, s: Session, h0: Header, st: State, m: Message)
    requires Traced(p, s, h0, st) && Storage(p, s, st) && !Duplicate(st, m) && m.number != 0
    requires m.from in s.parties && m.from != s.self && m.data.Some?
    ensures Traced(p, s, h0, Store(st, m)) && Storage(p, s, Store(st, m))
  {
    hide Traced, Storage;
    StoreStorage(p, s, st, m);
    PutAdds(st.broadcast, m);
    PutAdds(st.messages, m);
    AddsSelf(st.broadcast);
    AddsSelf(st.messages);
    TracedKeeps(p, s, h0, st, Store(st, m));
  }

  lemma AcceptTraced(p: Protocol, s: Session, h0: Header, st: State, m: Message)
    requires Traced(p, s, h0, st) && Storage(p, s, st) && Settled(p, s, st) && Sane(p, s) && Whole(st) && Closing(st)
    ensures Traced(p, s, h0, Accept(p, s, st, m))
  {
    hide Traced, Storage, Settled, Finalize, CanAccept, VerifyMessage, VerifyBroadcast;
    if !Refuses(p, s, st, m) {
      Accepted(s, Number(p, st.round), m);
      if m.number == 0 {
        AbortTraced(p, s, h0, st, Some("aborted by other party"), [m.from]);
      } else {
        StoreTraced(p, s, h0, st, m);
        var stored := Store(st, m);
        if Number(p, st.round) == m.number {
          VerifyStorage(p, s, st, m);
          VerifyQuiet(p, stored, m);
          VerifyFinal(p, stored, m);
          var step := Verify(p, stored, m);
          AddsSelf(stored.broadcast);
          AddsSelf(stored.messages);
          TracedKeeps(p, s, h0, stored, step.state);
          if step.error.None? {
            FinalizeTraced(p, s, h0, step.state);
          } else {
            AbortTraced(p, s, h0, step.state, step.error, [m.from]);
          }
        }
      }
    }
  }

  /** In every run, rounds, own broadcasts and the result are outcomes of rounds on what was queued and checked. */
  lemma {:induction false} RunTraced(p: Protocol, s: Session, h: Header, ms: seq<Message>)
    requires Sane(p, s)
    ensures Traced(p, s, h, Run(p, s, h, ms))
  {
    hide Accept, Finalize;
    if |ms| == 0 {
      var st := Initial(p, s, h);
      assert Traced(p, s, h, st) by {
        assert RoundTraced(p, s, h, st, p.number(h));
      }
      FinalizeTraced(p, s, h, st);
    } else {
      var before := ms[..|ms| - 1];
      RunTraced(p, s, h, before);
      RunClosing(p, s, h, before);
      RunStorage(p, s, h, before);
      AcceptTraced(p, s, h, Run(p, s, h, before), ms[|ms| - 1]);
    }
  }

  // ------------------------------------------------------------------- how runs end

  /** The state shows the end that an outcome stands for. */
  ghost predicate Shows(s: Session, o: Outcome, st: State) {
    && (o.Finished? && o.result.Some? ==> st.result == o.result)
    && (o.Failed? ==> st.err == Some(Failure([s.self], o.error)))
    && (o.Aborted? && o.reason.Some? ==> st.err == Some(Failure(o.culprits, o.reason.value)))
  }

  /** Every round that was finalized and ended the protocol has left its result or its error. */
  ghost predicate Concluded(p: Protocol, s: Session, st: State) {
    forall k :: Finalized(k) in st.log && k in st.rounds ==> Shows(s, OutcomeAt(p, s, st, st.rounds[k]), st)
  }

  /** A step that keeps result and error keeps what they show. */
  lemma ConcludedKeeps(p: Protocol, s: Session, h0: Header, a: State, b: State)
    requires Traced(p, s, h0, a) && Concluded(p, s, a) && Grows(s, a, b)
    requires b.result == a.result && (a.err.Some? ==> b.err == a.err)
    ensures Concluded(p, s, b)
  {
    hide RoundTraced, ResultTraced, OwnTraced, Adds, QueueOk, GotB, GotM, AllIn;
    forall k | Finalized(k) in b.log && k in b.rounds ensures Shows(s, OutcomeAt(p, s, b, b.rounds[k]), b) {
      SameGot(p, s, a, b, a.rounds[k]);
      assert Shows(s, OutcomeAt(p, s, a, a.rounds[k]), a);
    }
  }

  lemma AbortConcluded(p: Protocol, s: Session, st: State, error: string, culprits: seq<ID>)
    requires Concluded(p, s, st) && st.err.None?
    ensures Concluded(p, s, Abort(s, st, Some(error), culprits))
  {
    var b := Abort(s, st, Some(error), culprits);
    SameQueues(p, s, st, b);
    hide GotB, GotM;
    forall k | Finalized(k) in b.log && k in b.rounds ensures Shows(s, OutcomeAt(p, s, b, b.rounds[k]), b) {
      assert Shows(s, OutcomeAt(p, s, st, st.rounds[k]), st);
    }
  }

  /** What concluding a round adds to the state. */
  lemma ConcludeGrows(p: Protocol, s: Session, now: State, o: Outcome)
    requires Whole(now)
    ensures var r := Conclude(p, s, now, o).state;
            && Adds(now.broadcast, r.broadcast) && Adds(now.messages, r.messages) && r.hashes == now.hashes
            && (forall n :: n in now.rounds ==> n in r.rounds && r.rounds[n] == now.rounds[n])
            && SameFinal(now.log, r.log)
            && (now.result.None? && now.err.None? ==> Shows(s, o, r))
  {
    hide Adds, Forward, ReadQueue;
    AddsSelf(now.messages);
    AddsSelf(now.broadcast);
    match o
    case Next(h, msgs) =>
      var n := p.number(h);
      ForwardEchoed(p, s, now, msgs, Get(now.hashes, p.number(h) - 1));
      if n !in now.rounds {
        var entered := Entered(p, s, now, h, msgs);
        ReadQueueKeeps(p, s, entered, p.order(n));
        ReadFinal(p, s, entered, p.order(n));
      }
    case Aborted(_, _, msgs) => ForwardEchoed(p, s, now, msgs, None);
    case Finished(_, msgs) => ForwardEchoed(p, s, now, msgs, None);
    case _ =>
  }

  /** Before the end no round has shown one, so only the round that is concluded now has to. */
  lemma ConcludeConcluded(p: Protocol, s: Session, h0: Header, st: State)
    requires Traced(p, s, h0, st) && Storage(p, s, st) && Settled(p, s, st) && Sane(p, s) && Concluded(p, s, st)
    requires st.round.Running? && Whole(st) && !Done(st) && Concludes(p, s, st)
    ensures Concluded(p, s, Advance(p, s, st).state)
  {
    var now, o, n := Finalizing(p, s, st), OutcomeOf(p, st), p.number(st.round.header);
    FinalizingTraced(p, s, h0, st);
    AdvanceStorage(p, s, st);
    ConcludeGrows(p, s, now, o);
    SameQueues(p, s, st, now);
    hide Traced, Storage, Settled, Conclude, ReceivedAll, HashesMatch, GotB, GotM, WithHash, Adds, SameFinal;
    var r := Conclude(p, s, now, o).state;
    GrowsBy(p, s, now, r);
    SameLed(p, s, h0, now, r);
    assert Led(p, s, r, n, o);
    forall k | Finalized(k) in r.log && k in r.rounds ensures Shows(s, OutcomeAt(p, s, r, r.rounds[k]), r) {
      OldOutcome(p, s, h0, st, now, r, n, k);
    }
  }

  lemma OldOutcome(p: Protocol, s: Session, h0: Header, st: State, now: State, r: State, n: nat, k: nat)
    requires now.log == st.log + [Finalized(n)] && now.rounds == st.rounds && !Done(st) && Concluded(p, s, st)
    requires Traced(p, s, h0, now) && Grows(s, now, r) && Finalized(k) in r.log && k in r.rounds
    requires now.broadcast == st.broadcast && now.messages == st.messages
    requires Led(p, s, r, n, OutcomeAt(p, s, now, now.rounds[n])) && Shows(s, OutcomeAt(p, s, now, now.rounds[n]), r)
    requires n in now.rounds
    ensures Shows(s, OutcomeAt(p, s, r, r.rounds[k]), r)
  {
    SameQueues(p, s, st, now);
    SameLed(p, s, h0, now, r);
    assert k in now.rounds && Finalized(k) in now.log;
    LedIs(p, s, now, k);
    if k != n {
      assert Shows(s, OutcomeAt(p, s, st, st.rounds[k]), st);
    }
  }

  lemma AdvanceConcluded(p: Protocol, s: Session, h0: Header, st: State)
    requires Traced(p, s, h0, st) && Storage(p, s, st) && Settled(p, s, st) && Sane(p, s) && Concluded(p, s, st)
    requires st.round.Running? && Whole(st) && !Done(st)
    ensures Concluded(p, s, Advance(p, s, st).state)
  {
    if Concludes(p, s, st) {
      ConcludeConcluded(p, s, h0, st);
    } else {
      HashTraced(p, s, h0, st);
      hide Traced, Storage, Settled, Concluded, Conclude, ReceivedAll, HashesMatch;
      var hashed := WithHash(p, s, st);
      AddsSelf(st.messages);
      AddsSelf(st.broadcast);
      GrowsBy(p, s, st, hashed);
      ConcludedKeeps(p, s, h0, st, hashed);
      AbortConcluded(p, s, hashed, "broadcast verification failed", []);
    }
  }

  lemma {:induction false} FinalizeConcluded(p: Protocol, s: Session, h0: Header, st: State)
    requires Traced(p, s, h0, st) && Storage(p, s, st) && Settled(p, s, st) && Sane(p, s) && Concluded(p, s, st)
    requires st.round.Running? && Whole(st) && !Done(st) && Closing(st)
    ensures Concluded(p, s, Finalize(p, s, st))
    decreases Unseen(s, st)
  {
    hide Traced, Storage, Settled, Advance, Concluded;
    AdvanceTraced(p, s, h0, st);
    AdvanceConcluded(p, s, h0, st);
    AdvanceStorage(p, s, st);
    AdvanceClosing(p, s, st);
    if Advance(p, s, st).Again? {
      AdvanceEnters(p, s, st);
      FinalizeConcluded(p, s, h0, Advance(p, s, st).state);
    }
  }

  lemma AcceptConcluded(p: Protocol, s: Session, h0: Header, st: State, m: Message)
    requires Traced(p, s, h0, st) && Storage(p, s, st) && Settled(p, s, st) && Sane(p, s) && Whole(st) && Closing(st)
    requires Concluded(p, s, st)
    ensures Concluded(p, s, Accept(p, s, st, m))
  {
    hide Traced, Storage, Settled, Concluded, Finalize, CanAccept, VerifyMessage, VerifyBroadcast;
    if !Refuses(p, s, st, m) {
      Accepted(s, Number(p, st.round), m);
      if m.number == 0 {
        AbortConcluded(p, s, st, "aborted by other party", [m.from]);
      } else {
        StoreTraced(p, s, h0, st, m);
        var stored := Store(st, m);
        PutAdds(st.broadcast, m);
        PutAdds(st.messages, m);
        AddsSelf(st.broadcast);
        AddsSelf(st.messages);
        GrowsBy(p, s, st, stored);
        ConcludedKeeps(p, s, h0, st, stored);
        if Number(p, st.round) == m.number {
          VerifyStorage(p, s, st, m);
          VerifyQuiet(p, stored, m);
          VerifyFinal(p, stored, m);
          var step := Verify(p, stored, m);
          AddsSelf(stored.broadcast);
          AddsSelf(stored.messages);
          GrowsBy(p, s, stored, step.state);
          ConcludedKeeps(p, s, h0, stored, step.state);
          TracedKeeps(p, s, h0, stored, step.state);
          if step.error.None? {
            FinalizeConcluded(p, s, h0, step.state);
          } else {
            AbortConcluded(p, s, step.state, step.error.value, [m.from]);
          }
        }
      }
    }
  }

  /** In every run a round that was finalized and ended the protocol has left its result or its error. */
  lemma {:induction false} RunConcluded(p: Protocol, s: Session, h: Header, ms: seq<Message>)
    requires Sane(p, s)
    ensures Concluded(p, s, Run(p, s, h, ms))
  {
    hide Accept, Finalize;
    if |ms| == 0 {
      var st := Initial(p, s, h);
      assert Traced(p, s, h, st) by {
        assert RoundTraced(p, s, h, st, p.number(h));
      }
      FinalizeConcluded(p, s, h, st);
    } else {
      var before := ms[..|ms| - 1];
      RunConcluded(p, s, h, before);
      RunTraced(p, s, h, before);
      RunClosing(p, s, h, before);
      RunStorage(p, s, h, before);
      AcceptConcluded(p, s, h, Run(p, s, h, before), ms[|ms| - 1]);
    }
  }
}
