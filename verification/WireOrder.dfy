/**
 The sending side of one session under concurrency (src/session.rs, src/snow_types.rs): the
 keepalive task and any number of `send` calls share the transport, and each holds its lock
 from the write to the enqueue. The receiving side is the session of `Session`.
 */
module WireOrder {
  import opened Common
  import opened ReplayWindow
  import opened SnowTypes
  import opened Session
  import L = SessionLaws

  type Task = nat

  /** A message that was encrypted, with the nonce and the frame of it. */
  datatype Sealed = Sealed(nonce: nat, message: Message, frame: Bytes)

  /**
   `written` is encrypted but not enqueued; `sent` records what the packets of the queue were made
   from, and `used` the nonces of all writes so far.
   */
  datatype State = State(
    session: SessionState,
    lock: Option<Task>,
    written: Option<Sealed>,
    queue: seq<SessionPacket>,
    sent: seq<Sealed>,
    used: seq<nat>)

  datatype Step =
    | Acquire(task: Task)
    | Encrypt(task: Task, message: Message)
    | Enqueue(task: Task)
    | Release(task: Task)

  function Start(stateless: Stateless): State {
    State(NewSession(0, stateless, 0, {}), None, None, [], [], [])
  }

  /** A step of a task that does not hold the lock, or has nothing to enqueue, does not happen. */
  function Next(f: Formats, id: SessionId, s: State, step: Step): State {
    match step
    case Acquire(t) =>
      if s.lock.None? then s.(lock := Some(t)) else s
    case Encrypt(t, m) =>
      if s.lock == Some(t) && s.written.None? then
        var (session, w) := Write(f, s.session, m);
        s.(session := session, used := s.used + [s.session.nextNonce],
           written := if w.Out? then Some(Sealed(s.session.nextNonce, m, w.frame)) else None)
      else s
    case Enqueue(t) =>
      if s.lock == Some(t) && s.written.Some?
      then s.(queue := s.queue + [Envelope(f, id, s.written.value.frame)], sent := s.sent + [s.written.value], written := None)
      else s
    case Release(t) =>
      if s.lock == Some(t) then s.(lock := None, written := None) else s
  }

  function Run(f: Formats, id: SessionId, stateless: Stateless, steps: seq<Step>): State {
    if steps == [] then Start(stateless)
    else Next(f, id, Run(f, id, stateless, steps[..|steps| - 1]), steps[|steps| - 1])
  }

  /** The nonce that a packet carries on the wire. */
  function NonceOf(f: Formats, packet: SessionPacket): nat {
    match f.raw.decode(packet.data)
    case Some(Encrypted(frame)) =>
      (match f.wire.packets.decode(frame)
       case None => 0
       case Some(n) => n.nonce)
    case _ => 0
  }

  function Nonces(f: Formats, queue: seq<SessionPacket>): (r: seq<nat>)
    ensures |r| == |queue| && forall i :: 0 <= i < |r| ==> r[i] == NonceOf(f, queue[i])
  {
    seq(|queue|, i requires 0 <= i < |queue| => NonceOf(f, queue[i]))
  }

  /** The n-th write, failed or not, uses up the n-th value of the 64-bit counter. */
  lemma {:induction false} UsedCounts(f: Formats, id: SessionId, stateless: Stateless, steps: seq<Step>)
    ensures var s := Run(f, id, stateless, steps);
            && s.session.nextNonce == |s.used| % U64
            && s.session.stateless == stateless
            && forall i :: 0 <= i < |s.used| ==> s.used[i] == i % U64
  {
    if steps != [] {
      UsedCounts(f, id, stateless, steps[..|steps| - 1]);
    }
  }

  /** No nonce is used twice exactly as long as there are at most 2^64 writes. */
  lemma NoncesDistinctIff(f: Formats, id: SessionId, stateless: Stateless, steps: seq<Step>)
    ensures var used := Run(f, id, stateless, steps).used;
            NoDuplicates(used) <==> |used| <= U64
  {
    UsedCounts(f, id, stateless, steps);
    var used := Run(f, id, stateless, steps).used;
    if |used| > U64 {
      assert used[0] == used[U64];
    }
  }

  /** The session at the moment it wrote under a nonce, as far as the write is concerned. */
  function Writer(stateless: Stateless, nonce: nat): SessionState {
    NewSession(0, stateless, nonce, {})
  }

  /** The record is what a write of this session under this nonce makes. */
  predicate Written(f: Formats, stateless: Stateless, e: Sealed) {
    Write(f, Writer(stateless, e.nonce), e.message).1 == Out(e.frame)
  }

  ghost predicate AllBelow(sent: seq<Sealed>, n: nat) {
    forall i :: 0 <= i < |sent| ==> sent[i].nonce < n
  }

  ghost predicate Inv(f: Formats, id: SessionId, st: Stateless, s: State) {
    && s.session.stateless == st && s.session.nextNonce <= |s.used|
    && (s.written.Some? ==>
          && s.written.value.nonce < |s.used| && AllBelow(s.sent, s.written.value.nonce)
          && Written(f, st, s.written.value))
    && AllBelow(s.sent, |s.used|)
    && |s.queue| == |s.sent|
    && (forall i :: 0 <= i < |s.sent| ==> Written(f, st, s.sent[i]) && s.queue[i] == Envelope(f, id, s.sent[i].frame))
    && forall i, j :: 0 <= i < j < |s.sent| ==> s.sent[i].nonce < s.sent[j].nonce
  }

  lemma EncryptKeepsInv(f: Formats, id: SessionId, st: Stateless, s: State, t: Task, m: Message)
    requires Inv(f, id, st, s) && s.session.nextNonce == |s.used| < U64
    ensures Inv(f, id, st, Next(f, id, s, Encrypt(t, m)))
  {
    var n := s.session.nextNonce;
    assert Write(f, s.session, m).1 == Write(f, Writer(st, n), m).1;
  }

  lemma {:induction false} RunInv(f: Formats, id: SessionId, st: Stateless, steps: seq<Step>)
    requires |Run(f, id, st, steps).used| <= U64
    ensures Inv(f, id, st, Run(f, id, st, steps))
  {
    if steps != [] {
      var before, step := steps[..|steps| - 1], steps[|steps| - 1];
      var s := Run(f, id, st, before);
      UsedCounts(f, id, st, before);
      RunInv(f, id, st, before);
      match step
      case Encrypt(t, m) =>
        if s.lock == Some(t) && s.written.None? {
          EncryptKeepsInv(f, id, st, s, t, m);
        }
      case _ =>
    }
  }

  lemma NonceOnWire(f: Formats, id: SessionId, st: Stateless, e: Sealed)
    requires f.Valid() && Written(f, st, e)
    ensures NonceOf(f, Envelope(f, id, e.frame)) == e.nonce
  {
    PacketParses(f.wire, st, e.nonce, f.message.encode(e.message));
  }

  /**
   For every interleaving of the keepalive task and the senders, packets leave in strictly
   increasing nonce order. So a network that neither loses nor reorders has none refused.
   */
  lemma NonceOrderIsWireOrder(f: Formats, id: SessionId, st: Stateless, steps: seq<Step>, size: nat)
    requires f.Valid() && size >= 1 && |Run(f, id, st, steps).used| <= U64
    ensures var nonces := Nonces(f, Run(f, id, st, steps).queue);
            Increasing(nonces) && Passed(size, nonces) == nonces
  {
    RunInv(f, id, st, steps);
    var s := Run(f, id, st, steps);
    forall i | 0 <= i < |s.queue| ensures NonceOf(f, s.queue[i]) == s.sent[i].nonce {
      NonceOnWire(f, id, st, s.sent[i]);
    }
    InOrderAllPass(size, Nonces(f, s.queue));
  }

  // ----- At the other end -----

  /** The peer's session after it was handed these packets. */
  function Received(f: Formats, t: SessionState, packets: seq<SessionPacket>): SessionState {
    if packets == [] then t
    else Incoming(f, Received(f, t, packets[..|packets| - 1]), f.raw.decode(packets[|packets| - 1].data)).0
  }

  function PayloadsOf(sent: seq<Sealed>): seq<Bytes> {
    if sent == [] then []
    else
      PayloadsOf(sent[..|sent| - 1])
        + (match sent[|sent| - 1].message case Keepalive => [] case Payload(data) => [data])
  }

  /** One packet that is newer than everything the peer has let through. */
  lemma OneReceived(f: Formats, id: SessionId, st: Stateless, e: Sealed, t: SessionState)
    requires f.Valid() && Written(f, st, e) && |t.seen| <= 1
    requires t.stateless == Stateless(st.key, Peer(st.role)) && forall m :: m in t.seen ==> m < e.nonce
    ensures var after := Incoming(f, t, f.raw.decode(Envelope(f, id, e.frame).data)).0;
            && after.seen == {e.nonce} && after.stateless == t.stateless && after.dead == t.dead
            && after.inbox.queue == t.inbox.queue + PayloadsOf([e])
            && (after.heartbeat <==> t.heartbeat || e.message == Keepalive)
  {
    var s := Writer(st, e.nonce);
    L.EnvelopeRoundTrip(f, id, s, e.message, t);
    L.IncomingIff(f, t, f.raw.decode(Envelope(f, id, e.frame).data));
    SizeOneOffer(t.seen, e.nonce);
    assert [e][..0] == [];
  }

  predicate HasKeepalive(sent: seq<Sealed>) {
    sent != [] && (sent[|sent| - 1].message == Keepalive || HasKeepalive(sent[..|sent| - 1]))
  }

  /** What a session that was handed the packets of these records has got out of them. */
  ghost predicate Got(t: SessionState, after: SessionState, sent: seq<Sealed>) {
    && after.stateless == t.stateless && after.dead == t.dead
    && after.seen == (if sent == [] then t.seen else {sent[|sent| - 1].nonce})
    && after.inbox.queue == t.inbox.queue + PayloadsOf(sent)
    && (after.heartbeat <==> t.heartbeat || HasKeepalive(sent))
  }

  ghost predicate PacketsOf(f: Formats, id: SessionId, st: Stateless, packets: seq<SessionPacket>, sent: seq<Sealed>) {
    && |packets| == |sent|
    && (forall i :: 0 <= i < |sent| ==> Written(f, st, sent[i]) && packets[i] == Envelope(f, id, sent[i].frame))
    && forall i, j :: 0 <= i < j < |sent| ==> sent[i].nonce < sent[j].nonce
  }

  lemma OneMoreReceived(f: Formats, id: SessionId, st: Stateless, t: SessionState, mid: SessionState, before: seq<Sealed>, e: Sealed)
    requires f.Valid() && Written(f, st, e) && Got(t, mid, before) && AllBelow(before, e.nonce)
    requires t.stateless == Stateless(st.key, Peer(st.role)) && t.seen == {}
    ensures Got(t, Incoming(f, mid, f.raw.decode(Envelope(f, id, e.frame).data)).0, before + [e])
  {
    OneReceived(f, id, st, e, mid);
    PayloadsSnoc(before, e);
    assert (before + [e])[..|before|] == before;
    assert t.inbox.queue + PayloadsOf(before) + PayloadsOf([e]) == t.inbox.queue + (PayloadsOf(before) + PayloadsOf([e]));
  }

  lemma PayloadsSnoc(before: seq<Sealed>, e: Sealed)
    ensures PayloadsOf(before + [e]) == PayloadsOf(before) + PayloadsOf([e])
  {
    assert (before + [e])[..|before|] == before && [e][..0] == [];
  }

  lemma {:induction false} AllReceived(f: Formats, id: SessionId, st: Stateless, packets: seq<SessionPacket>, sent: seq<Sealed>,
                                       t: SessionState)
    requires f.Valid() && PacketsOf(f, id, st, packets, sent)
    requires t.stateless == Stateless(st.key, Peer(st.role)) && t.seen == {}
    ensures Got(t, Received(f, t, packets), sent)
  {
    if sent == [] {
      assert t.inbox.queue + [] == t.inbox.queue;
    } else {
      var k := |sent| - 1;
      AllReceived(f, id, st, packets[..k], sent[..k], t);
      OneMoreReceived(f, id, st, t, Received(f, t, packets[..k]), sent[..k], sent[k]);
      assert sent[..k] + [sent[k]] == sent;
    }
  }

  /**
   What leaves is what was meant. For every interleaving of the keepalive task and the senders: a
   matching session that is handed the outgoing packets, in order, queues exactly the payloads that
   were written, in the order in which the senders held the lock, and its flag is set exactly if a
   keepalive was among them.
   */
  lemma {:induction false} QueueReachesPeer(f: Formats, id: SessionId, st: Stateless, steps: seq<Step>, t: SessionState)
    requires f.Valid() && |Run(f, id, st, steps).used| <= U64
    requires t.stateless == Stateless(st.key, Peer(st.role)) && t.seen == {} && t.inbox.queue == []
    ensures var s, after := Run(f, id, st, steps), Received(f, t, Run(f, id, st, steps).queue);
            && (forall i :: 0 <= i < |s.queue| ==> s.queue[i].id == id)
            && after.inbox.queue == PayloadsOf(s.sent)
            && (after.heartbeat <==> t.heartbeat || HasKeepalive(s.sent))
  {
    var s := Run(f, id, st, steps);
    RunInv(f, id, st, steps);
    AllReceived(f, id, st, s.queue, s.sent, t);
    assert [] + PayloadsOf(s.sent) == PayloadsOf(s.sent);
  }
}
