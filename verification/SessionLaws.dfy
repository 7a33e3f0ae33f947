/**
 What a session does to its peer and to its user (src/session.rs): the answer to every packet,
 poll, write and tick, stated from outside.
 */
module SessionLaws {
  import opened Common
  import opened ReplayWindow
  import opened SnowTypes
  import opened Session

  // ----- A packet -----

  /** The message that a packet brings through the window and the decryption, if any. */
  function Brings(f: Formats, stateless: Stateless, seen: set<nat>, raw: Option<RawMessage>): Option<Message> {
    if raw.Some? && raw.value.Encrypted? then Decrypt(f, stateless, seen, raw.value.frame).1 else None
  }

  /**
   What brings a message, from the wire: a frame that parses, with a nonce the window accepts and
   a ciphertext of the peer under that nonce, whose plaintext fits and is the encoding of one.
   */
  lemma BringsIff(f: Formats, st: Stateless, seen: set<nat>, raw: Option<RawMessage>, m: Message)
    requires Faithful(f.message)
    ensures Brings(f, st, seen, raw) == Some(m) <==>
              && raw.Some? && raw.value.Encrypted?
              && var parsed := ParseFrame(f.wire, raw.value.frame);
                 && parsed.Some? && Accepts(seen, parsed.value.nonce) && parsed.value.cipher.Some?
                 && var c := parsed.value.cipher.value;
                    && c == Cipher(st.key, Peer(st.role), parsed.value.nonce, c.plaintext)
                    && |c.plaintext| <= BUFFER && f.message.decode(c.plaintext) == Some(m)
  {
  }

  /**
   Each effect of a packet, in both directions. The flag is set exactly by a keepalive, the queue
   grows exactly by a payload, the window moves exactly by a frame that it accepts, and nothing
   else of the session changes.
   */
  lemma IncomingIff(f: Formats, s: SessionState, raw: Option<RawMessage>)
    ensures var t, brought := Incoming(f, s, raw).0, Brings(f, s.stateless, s.seen, raw);
            && (t.heartbeat <==> s.heartbeat || brought == Some(Keepalive))
            && t.inbox.queue == s.inbox.queue + (if brought.Some? && brought.value.Payload? then [brought.value.data] else [])
            && (!(brought.Some? && brought.value.Payload?) ==> t.inbox == s.inbox)
            && t.seen == (if raw.Some? && raw.value.Encrypted? && ParseFrame(f.wire, raw.value.frame).Some?
                          then Offer(s.seen, WINDOW, ParseFrame(f.wire, raw.value.frame).value.nonce) else s.seen)
            && t == s.(heartbeat := t.heartbeat, inbox := t.inbox, seen := t.seen)
  {
    if raw.Some? && raw.value.Encrypted? {
      DecryptOffers(f, s.stateless, s.seen, raw.value.frame);
    }
  }

  lemma DecryptOffers(f: Formats, st: Stateless, seen: set<nat>, frame: Bytes)
    ensures Decrypt(f, st, seen, frame).0
         == match ParseFrame(f.wire, frame)
            case None => seen
            case Some(parsed) => Offer(seen, WINDOW, parsed.nonce)
  {
  }

  /** It is reported as an error exactly when it does not decode, or is a frame that brings nothing. */
  lemma IncomingFailsIff(f: Formats, s: SessionState, raw: Option<RawMessage>)
    ensures !Incoming(f, s, raw).1 <==>
              raw.None? || (raw.value.Encrypted? && Brings(f, s.stateless, s.seen, raw).None?)
  {
  }

  /** A payload wakes the first registered receiver, and takes it out of the table, if there is one. */
  lemma PayloadWakesFirst(f: Formats, s: SessionState, raw: Option<RawMessage>, data: Bytes)
    requires Brings(f, s.stateless, s.seen, raw) == Some(Payload(data))
    ensures var t := Incoming(f, s, raw).0;
            if s.inbox.wakers == {} then t.inbox.wakers == {} && t.inbox.woken == s.inbox.woken
            else exists w :: w in s.inbox.wakers && (forall v :: v in s.inbox.wakers ==> w <= v)
                        && t.inbox.wakers == s.inbox.wakers - {w} && t.inbox.woken == s.inbox.woken + {w}
  {
    if s.inbox.wakers != {} {
      var w := Least(s.inbox.wakers);
      assert w in s.inbox.wakers && forall v :: v in s.inbox.wakers ==> w <= v;
    }
  }

  // ----- From one session to the other -----

  /** Two sessions that hold the two ends of one transport, with nothing newer let through yet. */
  predicate Ready(s: SessionState, t: SessionState) {
    && t.stateless == Stateless(s.stateless.key, Peer(s.stateless.role))
    && forall m :: m in t.seen ==> m < s.nextNonce
  }

  /** What the peer makes of the packet that a write enqueues. */
  lemma EnvelopeRoundTrip(f: Formats, id: SessionId, s: SessionState, m: Message, t: SessionState)
    requires f.Valid() && Ready(s, t) && Write(f, s, m).1.Out?
    ensures var packet := Envelope(f, id, Write(f, s, m).1.frame);
            && packet.id == id
            && Brings(f, t.stateless, t.seen, f.raw.decode(packet.data)) == Some(m)
            && Incoming(f, t, f.raw.decode(packet.data)).0.seen == Record(t.seen, WINDOW, s.nextNonce)
  {
    var plain := f.message.encode(m);
    PacketParses(f.wire, s.stateless, s.nextNonce, plain);
    if t.seen != {} {
      assert Least(t.seen) in t.seen;
    }
    assert |plain| + TAG <= |f.wire.ciphers.encode(Seal(s.stateless, s.nextNonce, plain))|;
  }

  /** A payload that is sent ends up at the end of the peer's queue, and nowhere else. */
  lemma PayloadArrives(f: Formats, id: SessionId, s: SessionState, data: Bytes, t: SessionState)
    requires f.Valid() && Ready(s, t) && Write(f, s, Payload(data)).1.Out?
    ensures var packet := Envelope(f, id, Write(f, s, Payload(data)).1.frame);
            var after := Incoming(f, t, f.raw.decode(packet.data));
            && packet.id == id && after.1
            && after.0.inbox.queue == t.inbox.queue + [data] && after.0.heartbeat == t.heartbeat
  {
    var packet := Envelope(f, id, Write(f, s, Payload(data)).1.frame);
    EnvelopeRoundTrip(f, id, s, Payload(data), t);
    IncomingIff(f, t, f.raw.decode(packet.data));
    IncomingFailsIff(f, t, f.raw.decode(packet.data));
  }

  /** A keepalive sets the peer's flag and leaves its queue alone. */
  lemma KeepaliveArrives(f: Formats, id: SessionId, s: SessionState, t: SessionState)
    requires f.Valid() && Ready(s, t) && Write(f, s, Keepalive).1.Out?
    ensures var packet := Envelope(f, id, Write(f, s, Keepalive).1.frame);
            var after := Incoming(f, t, f.raw.decode(packet.data));
            packet.id == id && after.1 && after.0.heartbeat && after.0.inbox == t.inbox
  {
    var packet := Envelope(f, id, Write(f, s, Keepalive).1.frame);
    EnvelopeRoundTrip(f, id, s, Keepalive, t);
    IncomingIff(f, t, f.raw.decode(packet.data));
    IncomingFailsIff(f, t, f.raw.decode(packet.data));
  }

  /** After a packet got through the two sessions are ready for the next one. */
  lemma StaysReady(f: Formats, id: SessionId, s: SessionState, m: Message, t: SessionState)
    requires f.Valid() && Ready(s, t) && |t.seen| <= 1 && s.nextNonce + 1 < U64 && Write(f, s, m).1.Out?
    ensures var packet := Envelope(f, id, Write(f, s, m).1.frame);
            var after := Incoming(f, t, f.raw.decode(packet.data)).0;
            Ready(Write(f, s, m).0, after) && |after.seen| <= 1
  {
    EnvelopeRoundTrip(f, id, s, m, t);
    var packet := Envelope(f, id, Write(f, s, m).1.frame);
    IncomingIff(f, t, f.raw.decode(packet.data));
    SizeOneOffer(t.seen, s.nextNonce);
  }

  /**
   Each outcome of a write, and what it leaves. It fails exactly when the ciphertext is too long;
   it overruns exactly when only the packet around it is; and of the session only the counter moves.
   */
  lemma WriteIff(f: Formats, s: SessionState, m: Message)
    ensures var (t, w) := Write(f, s, m);
            var cipher := f.wire.ciphers.encode(Cipher(s.stateless.key, s.stateless.role, s.nextNonce, f.message.encode(m)));
            var packet := f.wire.packets.encode(Nonced(s.nextNonce, cipher));
            && (w == Failed <==> |cipher| > 65535)
            && (w == Overrun <==> |cipher| <= 65535 < |packet|)
            && (w.Out? <==> |cipher| <= 65535 && |packet| <= 65535)
            && (w.Out? ==> w.frame == packet)
            && t == s.(nextNonce := t.nextNonce) && t.nextNonce == (s.nextNonce + 1) % 0x1_0000_0000_0000_0000
  {
  }

  // ----- Polls and ticks -----

  /**
   Each answer of a poll. A dead session answers that it is disconnected, messages or not; a live
   one hands out the very message it takes off the front of the queue, or registers the receiver.
   */
  lemma PollAnswers(i: Inbox, dead: bool, r: nat)
    ensures var (after, answer) := Poll(i, dead, r);
            && (answer == Disconnected <==> dead)
            && (answer == Pending <==> !dead && i.queue == [])
            && (answer.Value? <==> !dead && i.queue != [])
            && (answer.Value? ==> [answer.data] + after.queue == i.queue && after.wakers == i.wakers - {r})
            && (answer == Pending ==> after.queue == i.queue && after.wakers == i.wakers + {r})
            && (answer == Disconnected ==> after.queue == i.queue && after.wakers == i.wakers)
            && after.woken == i.woken - {r}
  {
  }

  /** Two polls in a row return the first two messages, in order. */
  lemma TwoPollsTwoMessages(i: Inbox, r: nat, q: nat)
    requires |i.queue| >= 2
    ensures var (once, first) := Poll(i, false, r);
            var (twice, second) := Poll(once, false, q);
            first.Value? && second.Value? && i.queue == [first.data, second.data] + twice.queue
  {
    var (once, first) := Poll(i, false, r);
    PollAnswers(i, false, r);
    PollAnswers(once, false, q);
  }

  /** Dying wakes every registered receiver, and a tick does nothing else but clear the flag. */
  lemma MonitorIff(s: SessionState)
    ensures var t := MonitorTick(s);
            && (t.dead <==> s.dead || !s.heartbeat)
            && !t.heartbeat
            && t.inbox.woken == s.inbox.woken + (if s.heartbeat then {} else s.inbox.wakers)
            && t == s.(dead := t.dead, heartbeat := false, inbox := s.inbox.(woken := t.inbox.woken))
  {
  }

  // ----- A responder that waits -----

  /** It becomes ready exactly by a keepalive; every frame that parses moves the window, and nothing else changes. */
  lemma ResponderReadyIff(f: Formats, p: ResponderState, raw: Option<RawMessage>)
    ensures var q := p.Incoming(f, raw);
            && (q.ready <==> p.ready || Brings(f, p.stateless, p.seen, raw) == Some(Keepalive))
            && q.seen == (if raw.Some? && raw.value.Encrypted? && ParseFrame(f.wire, raw.value.frame).Some?
                          then Offer(p.seen, WINDOW, ParseFrame(f.wire, raw.value.frame).value.nonce) else p.seen)
            && q == p.(ready := q.ready, seen := q.seen)
  {
  }

  /** The session made of it is alive and fresh, and goes on with its transport, window, counter and peer. */
  lemma ResponderBecomesLive(p: ResponderState)
    ensures var s := p.Session();
            && !s.dead && s.heartbeat && s.inbox == Inbox([], {}, {})
            && s.stateless == p.stateless && s.seen == p.seen && s.nextNonce == p.nextNonce && s.remoteAddr == p.remoteAddr
  {
  }

  // ----- Pending handshakes -----

  /** The latest initiation counts, with the address it came from; nothing else is taken notice of. */
  lemma PokerTakesInitiation(p: PokerState, src: Addr, raw: Option<RawMessage>)
    ensures var q := p.Incoming(src, raw);
            && (q.workingRemoteAddr != p.workingRemoteAddr ==> raw.Some? && raw.value.HandshakeInitiation?)
            && (raw.Some? && raw.value.HandshakeInitiation? ==>
                  q.IsReady() && q.workingRemoteAddr.value == (src, raw.value.initiation))
            && q == p.(workingRemoteAddr := q.workingRemoteAddr)
  {
  }

  lemma InitiatorTakesResponse(p: InitiatorState, src: Addr, raw: Option<RawMessage>)
    ensures var q := p.Incoming(src, raw);
            && (q.workingRemoteAddr != p.workingRemoteAddr ==> raw.Some? && raw.value.HandshakeResponse?)
            && (raw.Some? && raw.value.HandshakeResponse? ==>
                  q.IsReady() && q.workingRemoteAddr.value == (src, raw.value.response))
            && q == p.(workingRemoteAddr := q.workingRemoteAddr)
  {
  }
}
