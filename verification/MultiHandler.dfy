/** The handler as an object: every method has exactly the effect of its transition function. */
module MultiHandler {
  import opened Party
  import opened Handler

  class MultiHandler {
    const p: Protocol
    const s: Session
    var round: Round
    var rounds: map<nat, Header>
    var err: Option<Failure>
    var result: Option<Value>
    var messages: Queue
    var broadcast: Queue
    var broadcastHashes: map<nat, Digest>
    var out: seq<Message>
    var closed: nat
    ghost var log: seq<Event>

    ghost function Contents(): State
      reads this
    {
      State(round, rounds, err, result, messages, broadcast, broadcastHashes, out, closed, log)
    }

    ghost predicate Valid()
      reads this
    {
      Bounded(p, s) && Whole(Contents())
    }

    /** NewMultiHandler */
    constructor (p: Protocol, s: Session, h: Header)
      requires Bounded(p, s)
      ensures this.p == p && this.s == s && Valid() && Contents() == Start(p, s, h)
    {
      this.p, this.s := p, s;
      round, rounds := Running(h, map[], map[]), map[p.number(h) := h];
      err, result := None, None;
      messages, broadcast, broadcastHashes := NewQueue(s.final), NewQueue(s.final), map[];
      out, closed, log := [], 0, [];
      new;
      assert Contents() == Initial(p, s, h);
      FinalizeRound();
    }

    method Store(m: Message)
      modifies this
      ensures Contents() == Handler.Store(old(Contents()), m)
    {
      var q := if m.broadcast then broadcast else messages;
      if m.number !in q || m.from in q[m.number] {
        return;
      }
      q := q[m.number := q[m.number][m.from := m]];
      if m.broadcast {
        broadcast := q;
      } else {
        messages := q;
      }
    }

    method Abort(error: Option<string>, culprits: seq<ID>)
      modifies this
      ensures Contents() == Handler.Abort(s, old(Contents()), error, culprits)
    {
      if error.Some? {
        err := Some(Failure(culprits, error.value));
        if |out| < 2 * |s.parties| {
          out := out + [AbortMessage(s, error.value)];
        }
      } else if result.None? {
        log := log + [Silent];
      }
      closed := closed + 1;
    }

    method VerifyMessage(m: Message) returns (error: Option<string>)
      requires round.Running? && m.data.Some?
      modifies this
      ensures Step(Contents(), error) == Handler.VerifyMessage(p, old(Contents()), m)
    {
      var h := round.header;
      if p.isBroadcast(h) {
        if m.number !in broadcast || m.from !in broadcast[m.number] {
          return None;
        }
      }
      if !p.expects(h) {
        return Some("failed to unmarshal");
      }
      if !p.okM(h, m.from, Lookup(round.broadcasts, m.from), m.data.value) {
        return Some("invalid message");
      }
      round := round.(messages := round.messages[m.from := m.data.value]);
      log := log + [StoredMessage(m.number, m.from)];
      return None;
    }

    method VerifyBroadcastMessage(m: Message) returns (error: Option<string>)
      requires round.Running? && m.data.Some? && Valid()
      modifies this
      ensures Step(Contents(), error) == Handler.VerifyBroadcast(p, old(Contents()), m)
    {
      var h := round.header;
      if !p.isBroadcast(h) {
        return Some("got broadcast message when none was expected");
      }
      if !p.okB(h, m.from, m.data.value) {
        return Some("invalid broadcast");
      }
      round := round.(broadcasts := round.broadcasts[m.from := m.data.value]);
      log := log + [StoredBroadcast(m.number, m.from)];
      if !p.expects(h) || m.number !in messages || m.from !in messages[m.number] {
        return None;
      }
      error := VerifyMessage(messages[m.number][m.from]);
    }

    /** receivedAll, which also keeps the hash of a complete set of broadcasts. */
    method ReceivedAll() returns (all: bool)
      requires round.Running?
      modifies this`broadcastHashes
      ensures all == Handler.ReceivedAll(p, s, old(Contents()))
      ensures Contents() == WithHash(p, s, old(Contents()))
    {
      var h := round.header;
      var n := p.number(h);
      if p.isBroadcast(h) {
        if n !in broadcast {
          return true;
        }
        for i := 0 to |s.parties|
          invariant forall k :: 0 <= k < i ==> s.parties[k] in broadcast[n]
        {
          if s.parties[i] !in broadcast[n] {
            return false;
          }
        }
        if n !in broadcastHashes {
          broadcastHashes := broadcastHashes[n := p.echo(h, Listed(broadcast[n], s.parties))];
        }
      }
      if p.expects(h) {
        if n !in messages {
          return true;
        }
        for i := 0 to |s.parties|
          invariant forall k :: 0 <= k < i && s.parties[k] != s.self ==> s.parties[k] in messages[n]
        {
          if s.parties[i] != s.self && s.parties[i] !in messages[n] {
            return false;
          }
        }
      }
      return true;
    }

    method CheckBroadcastHash() returns (ok: bool)
      requires round.Running?
      ensures ok == HashesMatch(p, Contents())
    {
      var n := p.number(round.header);
      var previous := Get(broadcastHashes, p.number(round.header) - 1);
      if previous.None? {
        return true;
      }
      var first := AllMatch(messages, n, previous.value);
      if !first {
        return false;
      }
      ok := AllMatch(broadcast, n, previous.value);
    }

    /** Forward the messages of Finalize with their headers; own broadcasts are stored. */
    method Forward(msgs: seq<Outgoing>, verification: Option<Digest>)
      modifies this
      ensures Contents() == Handler.Forward(s, old(Contents()), msgs, verification)
    {
      for i := 0 to |msgs|
        invariant Contents() == Handler.Forward(s, old(Contents()), msgs[..i], verification)
      {
        assert msgs[..i + 1][..i] == msgs[..i];
        var m := Addressed(s, msgs[i], verification);
        if m.broadcast {
          Store(m);
        }
        out := out + [m];
      }
      assert msgs[..|msgs|] == msgs;
    }

    /** Read the queue of a round that has just become current; false when the handler has aborted. */
    method ReadQueue(ids: seq<ID>) returns (failure: Option<Failure>)
      requires Valid() && round.Running?
      modifies this
      ensures (Contents(), failure) == Handler.ReadQueue(p, s, old(Contents()), ids)
    {
      failure := None;
      for i := 0 to |ids|
        invariant Valid() && round.Running?
        invariant Handler.ReadQueue(p, s, old(Contents()), ids) == Handler.ReadQueue(p, s, Contents(), ids[i..])
      {
        ghost var before := Contents();
        var error := ReadOne(ids[i]);
        assert ids[i..][1..] == ids[i + 1..];
        if error.Some? {
          failure := Some(Failure([ids[i]], error.value));
          return;
        }
      }
    }

    method ReadOne(id: ID) returns (error: Option<string>)
      requires Valid() && round.Running?
      modifies this
      ensures Step(Contents(), error) == Handler.ReadOne(p, s, old(Contents()), id)
    {
      var n := p.number(round.header);
      if p.isBroadcast(round.header) {
        if id == s.self || n !in broadcast || id !in broadcast[n] {
          return None;
        }
        error := VerifyBroadcastMessage(broadcast[n][id]);
      } else {
        if n !in messages || id !in messages[n] {
          return None;
        }
        error := VerifyMessage(messages[n][id]);
      }
    }

    /** finalize */
    method FinalizeRound()
      requires Valid() && round.Running?
      modifies this
      ensures Valid() && Contents() == Finalize(p, s, old(Contents()))
      decreases Unseen(s, Contents())
    {
      ghost var start := Contents();
      var all := ReceivedAll();
      if !all {
        return;
      }
      var match0 := CheckBroadcastHash();
      if !match0 {
        Abort(Some("broadcast verification failed"), []);
        return;
      }
      log := log + [Finalized(p.number(round.header))];
      ghost var now := Contents();
      assert now == Finalizing(p, s, start);
      var outcome := p.finalize(round.header, round.broadcasts, round.messages);
      assert Advance(p, s, start) == Handler.Conclude(p, s, now, outcome);
      var again := Conclude(outcome);
      if again {
        AdvanceEnters(p, s, start);
        FinalizeRound();
      }
    }

    /** The part of finalize after the round has been finalized; true when the next round is current. */
    method Conclude(outcome: Outcome) returns (again: bool)
      requires Valid()
      modifies this
      ensures Valid()
      ensures Handler.Conclude(p, s, old(Contents()), outcome) == if again then Again(Contents()) else Stop(Contents())
    {
      match outcome
      case Failed(e) =>
        Abort(Some(e), [s.self]);
        return false;
      case NoRound =>
        Abort(None, [s.self]);
        return false;
      case Aborted(reason, culprits, msgs) =>
        Forward(msgs, None);
        round := Over;
        Abort(reason, culprits);
        return false;
      case Finished(value, msgs) =>
        Forward(msgs, None);
        round, result := Over, value;
        Abort(None, []);
        return false;
      case Next(h, msgs) =>
        again := Enter(h, msgs);
    }

    method Enter(h: Header, msgs: seq<Outgoing>) returns (again: bool)
      requires Valid()
      modifies this
      ensures Valid()
      ensures Handler.Enter(p, s, old(Contents()), h, msgs) == if again then Again(Contents()) else Stop(Contents())
    {
      var n := p.number(h);
      Forward(msgs, Get(broadcastHashes, p.number(h) - 1));
      if n in rounds {
        return false;
      }
      rounds, round := rounds[n := h], Running(h, map[], map[]);
      ghost var entered := Contents();
      ReadQueueKeeps(p, s, entered, p.order(n));
      var failure := ReadQueue(p.order(n));
      if failure.Some? {
        Abort(Some(failure.value.error), failure.value.culprits);
        return false;
      }
      return true;
    }

    method Accept(m: Message)
      requires Valid()
      modifies this
      ensures Valid() && Contents() == Handler.Accept(p, s, old(Contents()), m)
    {
      ghost var start := Contents();
      var number := Number(p, round);
      var held := if m.broadcast then broadcast else messages;
      if !CanAccept(s, number, m) || err.Some? || result.Some? || (m.number != 0 && Held(held, m)) {
        return;
      }
      if m.number == 0 {
        Abort(Some("aborted by other party"), [m.from]);
        return;
      }
      Store(m);
      if number != m.number {
        return;
      }
      ghost var stored := Contents();
      var error;
      if m.broadcast {
        error := VerifyBroadcastMessage(m);
      } else {
        error := VerifyMessage(m);
      }
      assert Step(Contents(), error) == Verify(p, stored, m);
      if error.Some? {
        Abort(error, [m.from]);
        return;
      }
      FinalizeRound();
    }
  }

  /** The loop over one queue in checkBroadcastHash. */
  method AllMatch(q: Queue, n: nat, d: Digest) returns (ok: bool)
    ensures ok == AllCarry(q, n, d)
  {
    if n !in q {
      return true;
    }
    var ids := q[n].Keys;
    while ids != {}
      invariant ids <= q[n].Keys
      invariant forall id :: id in q[n] && id !in ids ==> q[n][id].verification == Some(d)
      decreases ids
    {
      var id :| id in ids;
      if q[n][id].verification != Some(d) {
        return false;
      }
      ids := ids - {id};
    }
    return true;
  }
}
