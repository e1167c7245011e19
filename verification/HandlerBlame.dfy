/**
  Who is blamed, and for what. An abort of another party and a message that fails its check, on receipt or when it
  is read from the queue, leave an error that names its sender; and no error names anybody for another reason.
 */
module HandlerBlame {
  import opened Party
  import opened Handler
  import opened HandlerRuns
  import opened HandlerStorage

  // ------------------------------------------------------------------ evidence

  /** What the current round checks a message together with: the broadcast of the same sender. */
  ghost function Companion(p: Protocol, st: State, id: ID): Option<Data>
    requires st.round.Running?
  {
    var n := p.number(st.round.header);
    if p.isBroadcast(st.round.header) && n in st.broadcast && id in st.broadcast[n] then st.broadcast[n][id].data
    else None
  }

  /** The queued broadcast of a sender is not wanted by the current round, or fails its check. */
  ghost predicate BadBroadcast(p: Protocol, st: State, id: ID)
    requires st.round.Running?
  {
    var h := st.round.header;
    var n := p.number(h);
    && n in st.broadcast && id in st.broadcast[n] && st.broadcast[n][id].data.Some?
    && (!p.isBroadcast(h) || !p.okB(h, id, st.broadcast[n][id].data.value))
  }

  /** The queued message of a sender, with its broadcast if there is to be one, is not wanted or fails its check. */
  ghost predicate BadMessage(p: Protocol, st: State, id: ID)
    requires st.round.Running?
  {
    var h := st.round.header;
    var n := p.number(h);
    && n in st.messages && id in st.messages[n] && st.messages[n][id].data.Some?
    && (p.isBroadcast(h) ==> Companion(p, st, id).Some?)
    && (!p.expects(h) || !p.okM(h, id, Companion(p, st, id), st.messages[n][id].data.value))
  }

  /** What receiving m finds wrong with its sender. */
  ghost predicate FailsNow(p: Protocol, st: State, m: Message)
    requires st.round.Running?
  {
    if m.broadcast then
      || BadBroadcast(p, st, m.from)
      || (p.isBroadcast(st.round.header) && p.expects(st.round.header) && BadMessage(p, st, m.from))
    else BadMessage(p, st, m.from)
  }

  /** What reading the queue of the current round finds wrong with a sender. */
  ghost predicate FailsQueued(p: Protocol, s: Session, st: State, id: ID)
    requires st.round.Running?
  {
    var h := st.round.header;
    id != s.self &&
    if p.isBroadcast(h) then BadBroadcast(p, st, id) || (p.expects(h) && BadMessage(p, st, id)) else BadMessage(p, st, id)
  }

  /** What is known of a sender depends on the round and the queues alone. */
  lemma SameEvidence(p: Protocol, s: Session, a: State, b: State, id: ID)
    requires a.round.Running? && b.round.Running? && a.round.header == b.round.header
    requires a.broadcast == b.broadcast && a.messages == b.messages
    ensures BadBroadcast(p, a, id) == BadBroadcast(p, b, id) && BadMessage(p, a, id) == BadMessage(p, b, id)
    ensures FailsQueued(p, s, a, id) == FailsQueued(p, s, b, id)
  {
  }

  // ------------------------------------------------------------------- one message

  /** A stored broadcast is what a message is checked together with. */
  lemma CompanionIs(p: Protocol, s: Session, st: State, id: ID)
    requires Storage(p, s, st) && st.round.Running?
    requires p.isBroadcast(st.round.header) && Companion(p, st, id).Some? ==> id in st.round.broadcasts
    ensures Companion(p, st, id).Some? || !p.isBroadcast(st.round.header) ==>
              Lookup(st.round.broadcasts, id) == Companion(p, st, id)
  {
    hide History, QueueOk;
    assert SlotOk(p, s, st, id);
  }

  lemma MessageIff(p: Protocol, s: Session, st: State, m: Message)
    requires Storage(p, s, st) && st.round.Running? && m.data.Some?
    requires m.number == p.number(st.round.header) && m.number in st.messages && m.from in st.messages[m.number]
    requires st.messages[m.number][m.from] == m
    requires p.isBroadcast(st.round.header) && Companion(p, st, m.from).Some? ==> m.from in st.round.broadcasts
    ensures VerifyMessage(p, st, m).error.Some? <==> BadMessage(p, st, m.from)
  {
    CompanionIs(p, s, st, m.from);
    StorageQueues(p, s, st);
    hide Storage;
    var n := m.number;
    if n in st.broadcast && m.from in st.broadcast[n] {
      Entry(s, st.broadcast, n, m.from);
    }
  }

  lemma BroadcastIff(p: Protocol, s: Session, st: State, m: Message)
    requires Storage(p, s, st) && st.round.Running? && m.data.Some? && Whole(st)
    requires m.number == p.number(st.round.header) && m.number in st.broadcast && m.from in st.broadcast[m.number]
    requires st.broadcast[m.number][m.from] == m && Untouched(st, m.from) && m.from != s.self
    ensures VerifyBroadcast(p, st, m).error.Some? <==>
            BadBroadcast(p, st, m.from) ||
            (p.isBroadcast(st.round.header) && p.expects(st.round.header) && BadMessage(p, st, m.from))
  {
    hide VerifyMessage, History, SlotOk;
    StoreBroadcastStorage(p, s, st, m);
    var stored := StoreBroadcast(p, st, m);
    if stored.error.None? && p.expects(st.round.header) && m.number in st.messages && m.from in st.messages[m.number] {
      Entry(s, st.messages, m.number, m.from);
      MessageIff(p, s, stored.state, st.messages[m.number][m.from]);
      SameEvidence(p, s, st, stored.state, m.from);
    }
  }

  lemma Unwanted(p: Protocol, st: State, m: Message)
    requires st.round.Running? && m.data.Some? && !p.isBroadcast(st.round.header)
    requires m.number == p.number(st.round.header) && m.number in st.broadcast && m.from in st.broadcast[m.number]
    requires st.broadcast[m.number][m.from] == m
    ensures BadBroadcast(p, st, m.from)
  {
  }

  /** Receiving a message of the current round fails exactly when the queues show why. */
  lemma VerifyIff(p: Protocol, s: Session, st: State, m: Message)
    requires Storage(p, s, st) && Storage(p, s, Store(st, m)) && Whole(st) && Settled(p, s, st) && !Done(st)
    requires !Duplicate(st, m) && m.number != 0 && st.round.Running? && m.number == p.number(st.round.header)
    requires m.from in s.parties && m.from != s.self && m.data.Some?
    ensures Verify(p, Store(st, m), m).error.Some? <==> FailsNow(p, Store(st, m), m)
  {
    var stored := Store(st, m);
    assert SlotOk(p, s, st, m.from) && Drained(p, s, st, m.from);
    hide VerifyMessage, VerifyBroadcast, History, BadMessage, BadBroadcast, Settled, QueueOk;
    if m.broadcast && p.isBroadcast(st.round.header) {
      BroadcastIff(p, s, stored, m);
    } else if m.broadcast {
      NotExpected(p, stored, m);
      assert BadBroadcast(p, stored, m.from) by { Unwanted(p, stored, m); }
    } else {
      MessageIff(p, s, stored, m);
    }
  }

  /**
    A message that fails its check on receipt, alone or together with what its sender had queued, ends the protocol
    with an error that names its sender.
   */
  lemma AcceptBlames(p: Protocol, s: Session, st: State, m: Message)
    requires Storage(p, s, st) && Settled(p, s, st) && Whole(st) && Bounded(p, s)
    requires !Refuses(p, s, st, m) && m.number != 0 && m.number == Number(p, st.round)
    requires FailsNow(p, Store(st, m), m)
    ensures var r := Accept(p, s, st, m);
            && r.err.Some? && r.err.value.culprits == [m.from] && r.result.None?
            && r.closed == st.closed + 1 && r.rounds == st.rounds
  {
    Accepted(s, Number(p, st.round), m);
    StoreStorage(p, s, st, m);
    VerifyIff(p, s, st, m);
    hide Storage, Settled, FailsNow, CanAccept, Finalize, Put;
  }

  /** The abort message of another party ends the protocol with an error that names that party. */
  lemma AbortHeard(p: Protocol, si: Session, sj: Session, st: State, error: string)
    requires Whole(st) && Bounded(p, si) && !Done(st)
    requires si.name == sj.name && si.ssid == sj.ssid && sj.self in si.parties && sj.self != si.self
    ensures var r := Accept(p, si, st, AbortMessage(sj, error));
            && r.err.Some? && r.err.value.culprits == [sj.self] && r.closed == st.closed + 1
            && r == st.(err := r.err, closed := r.closed, out := r.out)
  {
    var m := AbortMessage(sj, error);
    assert CanAccept(si, Number(p, st.round), m);
    hide Finalize, Verify, Store, CanAccept;
  }

  // ------------------------------------------------------------------- the queue

  lemma ReadOneIff(p: Protocol, s: Session, st: State, id: ID)
    requires Storage(p, s, st) && st.round.Running? && Whole(st) && Untouched(st, id)
    ensures ReadOne(p, s, st, id).error.Some? <==> FailsQueued(p, s, st, id)
  {
    StorageQueues(p, s, st);
    hide VerifyMessage, VerifyBroadcast, Storage, QueueOk;
    var n := p.number(st.round.header);
    if p.isBroadcast(st.round.header) {
      if id != s.self && n in st.broadcast && id in st.broadcast[n] {
        Entry(s, st.broadcast, n, id);
        BroadcastIff(p, s, st, st.broadcast[n][id]);
      }
    } else if n in st.messages && id in st.messages[n] {
      Entry(s, st.messages, n, id);
      MessageIff(p, s, st, st.messages[n][id]);
    }
  }

  /** Reading the queue fails exactly when it shows why, and blames a sender for whom it does. */
  lemma {:induction false} ReadQueueBlames(p: Protocol, s: Session, st: State, ids: seq<ID>)
    requires Storage(p, s, st) && st.round.Running? && Whole(st)
    requires (forall i, j :: 0 <= i < j < |ids| ==> ids[i] != ids[j]) && forall id :: id in ids ==> Untouched(st, id)
    ensures var failure := ReadQueue(p, s, st, ids).1;
            if failure.Some? then exists id :: id in ids && failure.value.culprits == [id] && FailsQueued(p, s, st, id)
            else forall id :: id in ids ==> !FailsQueued(p, s, st, id)
    decreases |ids|
  {
    hide ReadOne, Storage, FailsQueued;
    if |ids| != 0 {
      ReadOneStorage(p, s, st, ids[0]);
      ReadOneIff(p, s, st, ids[0]);
      var step := ReadOne(p, s, st, ids[0]);
      if step.error.None? {
        forall id | id in ids[1..] ensures Untouched(step.state, id) && id in ids {
          assert id in ids && id != ids[0];
        }
        ReadQueueBlames(p, s, step.state, ids[1..]);
        forall id ensures FailsQueued(p, s, step.state, id) == FailsQueued(p, s, st, id) {
          SameEvidence(p, s, step.state, st, id);
        }
        assert forall id :: id in ids ==> id == ids[0] || id in ids[1..];
      } else {
        assert ids[0] in ids;
      }
    }
  }

  /** A round that becomes current goes on exactly when nothing in its queue fails, and else blames a sender. */
  lemma EnterBlames(p: Protocol, s: Session, now: State, h: Header, msgs: seq<Outgoing>)
    requires Storage(p, s, now) && Sane(p, s) && now.round.Running? && Whole(now) && !Done(now)
    requires p.number(h) !in now.rounds && p.number(h) >= p.number(now.round.header)
    ensures Entered(p, s, now, h, msgs).round == Running(h, map[], map[])
    ensures var entered, r := Entered(p, s, now, h, msgs), Enter(p, s, now, h, msgs);
            if r.Again? then forall id :: id in s.parties ==> !FailsQueued(p, s, entered, id)
            else && r.state.round.Running? && r.state.round.header == h && r.state.err.Some?
                 && r.state.broadcast == entered.broadcast && r.state.messages == entered.messages
                 && exists id :: r.state.err.value.culprits == [id] && FailsQueued(p, s, entered, id)
  {
    hide Storage, Forward, ReadQueue, FailsQueued;
    EnteredStorage(p, s, now, h, msgs);
    var n, entered := p.number(h), Entered(p, s, now, h, msgs);
    assert Covers(p.order(n), s.parties);
    ReadQueueBlames(p, s, entered, p.order(n));
    ReadQueueKeeps(p, s, entered, p.order(n));
  }

  // --------------------------------------------------------------------- whole runs

  /** An abort message of another party. */
  ghost predicate Aborting(s: Session, m: Message, id: ID) {
    m.from == id && Peer(s, id) && m.number == 0 && m.protocol == s.name && m.ssid == s.ssid && m.data.Some?
  }

  ghost predicate AbortedBy(s: Session, ms: seq<Message>, id: ID) {
    exists m :: m in ms && Aborting(s, m, id)
  }

  /** The reasons there are for an error. */
  ghost predicate Justified(p: Protocol, s: Session, ms: seq<Message>, st: State, f: Failure) {
    || (exists id :: f.culprits == [id] && AbortedBy(s, ms, id))
    || (st.round.Running? && exists id :: f.culprits == [id] && id != s.self &&
                                         (BadBroadcast(p, st, id) || BadMessage(p, st, id)))
    || (f.culprits == [] && st.round.Running? && !HashesMatch(p, st))
    || (f.culprits == [s.self] && st.round.Running? && OutcomeOf(p, st) == Failed(f.error))
    || (st.round.Over? && exists h, b, m :: Blames(p, h, b, m, f))
  }

  /** Finalize of a round itself names the culprits. */
  ghost predicate Blames(p: Protocol, h: Header, b: map<ID, Data>, m: map<ID, Data>, f: Failure) {
    var o := p.finalize(h, b, m);
    o.Aborted? && o.reason == Some(f.error) && o.culprits == f.culprits
  }

  ghost predicate ErrorJustified(p: Protocol, s: Session, ms: seq<Message>, st: State) {
    st.err.Some? ==> Justified(p, s, ms, st, st.err.value)
  }

  lemma ConcludeJustified(p: Protocol, s: Session, ms: seq<Message>, st: State)
    requires Storage(p, s, st) && Sane(p, s) && st.round.Running? && Whole(st) && !Done(st) && Settled(p, s, st)
    requires Concludes(p, s, st)
    ensures ErrorJustified(p, s, ms, Advance(p, s, st).state)
  {
    var now, o := Finalizing(p, s, st), OutcomeOf(p, st);
    FinalizingStorage(p, s, st);
    hide Storage, Settled, ReceivedAll, HashesMatch, WithHash, Forward, Enter, FailsQueued, BadBroadcast, BadMessage;
    assert Forwards(p);
    match o
    case Next(h, msgs) =>
      if p.number(h) !in now.rounds {
        EnterBlames(p, s, now, h, msgs);
        EnterJustified(p, s, ms, now, h, msgs);
      } else {
        KeepsRunning(p, s, now, h, msgs);
      }
    case Aborted(reason, culprits, msgs) =>
      if reason.Some? {
        assert Blames(p, st.round.header, st.round.broadcasts, st.round.messages, Failure(culprits, reason.value));
      }
    case _ =>
  }

  lemma KeepsRunning(p: Protocol, s: Session, now: State, h: Header, msgs: seq<Outgoing>)
    requires Whole(now) && !Done(now) && p.number(h) in now.rounds
    ensures Enter(p, s, now, h, msgs).state.err.None?
  {
    hide Forward;
  }

  lemma EnterJustified(p: Protocol, s: Session, ms: seq<Message>, now: State, h: Header, msgs: seq<Outgoing>)
    requires Storage(p, s, now) && Sane(p, s) && now.round.Running? && Whole(now) && !Done(now)
    requires p.number(h) !in now.rounds && p.number(h) >= p.number(now.round.header)
    ensures ErrorJustified(p, s, ms, Enter(p, s, now, h, msgs).state)
  {
    EnterBlames(p, s, now, h, msgs);
    hide Storage, Forward, ReadQueue, BadBroadcast, BadMessage, Entered;
    var r, entered := Enter(p, s, now, h, msgs), Entered(p, s, now, h, msgs);
    if r.Again? {
      ReadQueueKeeps(p, s, entered, p.order(p.number(h)));
    } else {
      var id :| r.state.err.value.culprits == [id] && FailsQueued(p, s, entered, id);
      SameEvidence(p, s, r.state, entered, id);
    }
  }

  lemma AdvanceJustified(p: Protocol, s: Session, ms: seq<Message>, st: State)
    requires Storage(p, s, st) && Sane(p, s) && st.round.Running? && Whole(st) && !Done(st) && Settled(p, s, st)
    ensures ErrorJustified(p, s, ms, Advance(p, s, st).state)
  {
    hide Storage, Settled, ReceivedAll, Conclude;
    if Concludes(p, s, st) {
      ConcludeJustified(p, s, ms, st);
    }
  }

  lemma {:induction false} FinalizeJustified(p: Protocol, s: Session, ms: seq<Message>, st: State)
    requires Storage(p, s, st) && Sane(p, s) && st.round.Running? && Whole(st) && !Done(st) && Settled(p, s, st)
    requires Closing(st)
    ensures ErrorJustified(p, s, ms, Finalize(p, s, st))
    decreases Unseen(s, st)
  {
    hide Storage, Settled, Advance, ErrorJustified;
    AdvanceJustified(p, s, ms, st);
    AdvanceStorage(p, s, st);
    AdvanceClosing(p, s, st);
    if Advance(p, s, st).Again? {
      AdvanceEnters(p, s, st);
      FinalizeJustified(p, s, ms, Advance(p, s, st).state);
    }
  }

  lemma AcceptJustified(p: Protocol, s: Session, ms: seq<Message>, st: State, m: Message)
    requires Storage(p, s, st) && Sane(p, s) && Whole(st) && Settled(p, s, st) && Closing(st) && !Done(st) && m in ms
    ensures ErrorJustified(p, s, ms, Accept(p, s, st, m))
  {
    hide Storage, Settled, Finalize, VerifyMessage, VerifyBroadcast, FailsNow;
    if !Refuses(p, s, st, m) {
      Accepted(s, Number(p, st.round), m);
      if m.number == 0 {
        assert Aborting(s, m, m.from);
        assert AbortedBy(s, ms, m.from);
      } else if Number(p, st.round) == m.number {
        StoreStorage(p, s, st, m);
        VerifyStorage(p, s, st, m);
        VerifyQuiet(p, Store(st, m), m);
        var step := Verify(p, Store(st, m), m);
        if step.error.None? {
          FinalizeJustified(p, s, ms, step.state);
        } else {
          ReceiptJustified(p, s, ms, st, m);
        }
      }
    }
  }

  lemma ReceiptJustified(p: Protocol, s: Session, ms: seq<Message>, st: State, m: Message)
    requires Storage(p, s, st) && Storage(p, s, Store(st, m)) && Whole(st) && Settled(p, s, st) && !Done(st)
    requires !Duplicate(st, m) && m.number != 0 && st.round.Running? && m.number == p.number(st.round.header)
    requires m.from in s.parties && m.from != s.self && m.data.Some?
    requires Verify(p, Store(st, m), m).error.Some?
    ensures var step := Verify(p, Store(st, m), m);
            ErrorJustified(p, s, ms, Abort(s, step.state, step.error, [m.from]))
  {
    VerifyIff(p, s, st, m);
    hide Storage, Settled, VerifyMessage, VerifyBroadcast, BadBroadcast, BadMessage, Duplicate, Put;
    var step := Verify(p, Store(st, m), m);
    SameEvidence(p, s, Store(st, m), Abort(s, step.state, step.error, [m.from]), m.from);
  }

  lemma JustifiedGrows(p: Protocol, s: Session, ms: seq<Message>, m: Message, st: State)
    requires ErrorJustified(p, s, ms, st)
    ensures ErrorJustified(p, s, ms + [m], st)
  {
    hide BadBroadcast, BadMessage, HashesMatch, OutcomeOf, Blames;
    if st.err.Some? && exists id :: st.err.value.culprits == [id] && AbortedBy(s, ms, id) {
      var id :| st.err.value.culprits == [id] && AbortedBy(s, ms, id);
      var x :| x in ms && Aborting(s, x, id);
      assert x in ms + [m];
      assert AbortedBy(s, ms + [m], id);
    }
  }

  /**
    Soundness of blame in every run: an error names a party that sent an abort, or a party whose queued messages
    for the current round fail its checks, or nobody because the broadcasts of two parties differ, or this party
    because its own round failed, or those whom a round of the protocol named.
   */
  lemma {:induction false} RunJustified(p: Protocol, s: Session, h: Header, ms: seq<Message>)
    requires Sane(p, s)
    ensures ErrorJustified(p, s, ms, Run(p, s, h, ms))
  {
    hide Accept, Finalize, ErrorJustified;
    if |ms| == 0 {
      FinalizeJustified(p, s, ms, Initial(p, s, h));
    } else {
      var before, m := ms[..|ms| - 1], ms[|ms| - 1];
      var st := Run(p, s, h, before);
      assert ms == before + [m];
      RunJustified(p, s, h, before);
      RunClosing(p, s, h, before);
      RunStorage(p, s, h, before);
      if Done(st) {
        assert Accept(p, s, st, m) == st by { DoneKeeps(p, s, st, m); }
        JustifiedGrows(p, s, before, m, st);
      } else {
        AcceptJustified(p, s, ms, st, m);
      }
    }
  }

  lemma DoneKeeps(p: Protocol, s: Session, st: State, m: Message)
    requires Whole(st) && Bounded(p, s) && Done(st)
    ensures Accept(p, s, st, m) == st
  {
  }

  /** A party that fails a check of the current round. */
  ghost predicate Caught(p: Protocol, st: State, id: ID)
    requires st.round.Running?
  {
    var h := st.round.header;
    (p.isBroadcast(h) && BadBroadcast(p, st, id)) || (p.expects(h) && BadMessage(p, st, id))
  }

  /** Completeness of blame in every run: while the handler goes on, nothing queued for its round fails a check. */
  lemma NobodyGetsAway(p: Protocol, s: Session, h: Header, ms: seq<Message>)
    requires Sane(p, s)
    ensures var st := Run(p, s, h, ms);
            st.round.Running? && !Done(st) ==> forall id :: Peer(s, id) ==> !Caught(p, st, id)
  {
    var st := Run(p, s, h, ms);
    RunStorage(p, s, h, ms);
    hide Run;
    if st.round.Running? && !Done(st) {
      forall id | Peer(s, id) ensures !Caught(p, st, id) {
        Passing(p, s, st, id);
      }
    }
  }

  lemma Passing(p: Protocol, s: Session, st: State, id: ID)
    requires Storage(p, s, st) && Settled(p, s, st) && st.round.Running? && !Done(st) && Peer(s, id)
    ensures !Caught(p, st, id)
  {
    assert SlotOk(p, s, st, id) && Drained(p, s, st, id);
    hide History, QueueOk, Settled;
  }

  // -------------------------------------------------------------- aborts spread

  /** An error has been announced to everybody, unless the channel was full. */
  ghost predicate Announced(s: Session, st: State) {
    st.err.Some? ==>
      |st.out| >= 2 * |s.parties| || (|st.out| > 0 && st.out[|st.out| - 1] == AbortMessage(s, st.err.value.error))
  }

  lemma AdvanceAnnounced(p: Protocol, s: Session, st: State)
    requires st.round.Running? && Whole(st) && !Done(st)
    ensures Announced(s, Advance(p, s, st).state)
  {
    hide ReceivedAll, HashesMatch, WithHash, Forward, ReadQueue;
    if Concludes(p, s, st) {
      var now, o := Finalizing(p, s, st), OutcomeOf(p, st);
      if o.Next? {
        ReadQueueAnnounced(p, s, now, o.header, o.msgs);
      }
    }
  }

  lemma ReadQueueAnnounced(p: Protocol, s: Session, now: State, h: Header, msgs: seq<Outgoing>)
    requires Whole(now) && !Done(now)
    ensures Announced(s, Enter(p, s, now, h, msgs).state)
  {
    hide Forward, ReadQueue;
    var n, entered := p.number(h), Entered(p, s, now, h, msgs);
    if n !in now.rounds {
      ReadQueueKeeps(p, s, entered, p.order(n));
    }
  }

  lemma {:induction false} FinalizeAnnounced(p: Protocol, s: Session, st: State)
    requires Ready(p, s, st) && !Done(st) && Closing(st)
    ensures Announced(s, Finalize(p, s, st))
    decreases Unseen(s, st)
  {
    hide Advance, Announced, Closing;
    AdvanceAnnounced(p, s, st);
    AdvanceClosing(p, s, st);
    if Advance(p, s, st).Again? {
      AdvanceEnters(p, s, st);
      FinalizeAnnounced(p, s, Advance(p, s, st).state);
    }
  }

  lemma AcceptAnnounced(p: Protocol, s: Session, st: State, m: Message)
    requires Whole(st) && Bounded(p, s) && Closing(st) && Announced(s, st)
    ensures Announced(s, Accept(p, s, st, m))
  {
    hide Finalize, VerifyMessage, VerifyBroadcast, Silents;
    if !Refuses(p, s, st, m) && m.number != 0 && Number(p, st.round) == m.number {
      Accepted(s, Number(p, st.round), m);
      VerifyQuiet(p, Store(st, m), m);
      var step := Verify(p, Store(st, m), m);
      if step.error.None? {
        FinalizeAnnounced(p, s, step.state);
      }
    }
  }

  lemma {:induction false} RunAnnounced(p: Protocol, s: Session, h: Header, ms: seq<Message>)
    requires Bounded(p, s)
    ensures Announced(s, Run(p, s, h, ms))
  {
    hide Accept, Finalize, Announced;
    if |ms| == 0 {
      FinalizeAnnounced(p, s, Initial(p, s, h));
    } else {
      var before := ms[..|ms| - 1];
      RunAnnounced(p, s, h, before);
      RunClosing(p, s, h, before);
      AcceptAnnounced(p, s, Run(p, s, h, before), ms[|ms| - 1]);
    }
  }

  /**
    Aborts spread: in every run with an error, unless the channel is full, the last message sent is one that ends any
    other handler of the session that is still running, with an error that names this party.
   */
  lemma AbortSpreads(p: Protocol, q: Protocol, si: Session, sj: Session, h: Header, ms: seq<Message>, st: State)
    requires Bounded(p, si) && Run(p, si, h, ms).err.Some? && |Run(p, si, h, ms).out| < 2 * |si.parties|
    requires Bounded(q, sj) && Whole(st) && !Done(st)
    requires si.name == sj.name && si.ssid == sj.ssid && si.self in sj.parties && si.self != sj.self
    ensures var out := Run(p, si, h, ms).out;
            && |out| > 0
            && var r := Accept(q, sj, st, out[|out| - 1]);
               r.err.Some? && r.err.value.culprits == [si.self] && r.closed == st.closed + 1
  {
    hide Run, Accept;
    RunAnnounced(p, si, h, ms);
    AbortHeard(q, sj, si, st, Run(p, si, h, ms).err.value.error);
  }
}
