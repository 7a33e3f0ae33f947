/**
 Pending and established sessions (src/session.rs): what each does with a packet, a send, a
 timer tick and a poll, as functions on values, and the class `Session` proved against them.
 */
module Session {
  import opened Common
  import opened ReplayWindow
  import opened SnowTypes

  type SessionId = nat
  type Addr = nat

  datatype SessionPacket = SessionPacket(id: SessionId, data: Bytes)

  datatype RawMessage =
    | HandshakePoke
    | HandshakeInitiation(initiation: Initiation)
    | HandshakeResponse(response: Response)
    | Encrypted(frame: Bytes)

  datatype Message = Keepalive | Payload(data: Bytes)

  datatype Formats = Formats(wire: Wire, raw: Codec<RawMessage>, message: Codec<Message>) {
    ghost predicate Valid() {
      wire.Valid() && Faithful(raw) && Faithful(message)
    }
  }

  /** Size of the buffers that packets are encrypted into and decrypted into. */
  const BUFFER: nat := 65535

  /** Window size of every transport made by a handshake (`from_stateless`). */
  const WINDOW: nat := 1

  // ----- The queue and the receivers waiting for it -----

  /**
   `wakers` are the receivers registered for a wake-up, `woken` those an executor has been told
   to poll and has not polled yet.
   */
  datatype Inbox = Inbox(queue: seq<Bytes>, wakers: set<nat>, woken: set<nat>)

  const EmptyInbox := Inbox([], {}, {})

  /** Enqueue a payload, then wake the first registered receiver. */
  function Deliver(i: Inbox, data: Bytes): Inbox {
    if i.wakers == {} then i.(queue := i.queue + [data])
    else
      var w := Least(i.wakers);
      Inbox(i.queue + [data], i.wakers - {w}, i.woken + {w})
  }

  datatype Polled = Disconnected | Value(data: Bytes) | Pending

  function Poll(i: Inbox, dead: bool, receiver: nat): (Inbox, Polled) {
    var polled := i.(woken := i.woken - {receiver});
    if dead then (polled, Disconnected)
    else if i.queue != [] then
      (polled.(queue := i.queue[1..], wakers := i.wakers - {receiver}), Value(i.queue[0]))
    else
      (polled.(wakers := i.wakers + {receiver}), Pending)
  }

  // ----- An established session -----

  datatype SessionState = SessionState(
    remoteAddr: Addr,
    stateless: Stateless,
    nextNonce: nat,
    seen: set<nat>,
    inbox: Inbox,
    heartbeat: bool,
    dead: bool)

  /** A session starts alive, with the transport of its handshake, window and counter included. */
  function NewSession(remoteAddr: Addr, stateless: Stateless, nextNonce: nat, seen: set<nat>): SessionState {
    SessionState(remoteAddr, stateless, nextNonce, seen, EmptyInbox, true, false)
  }

  /** Decrypt one frame: the window moves even when the ciphertext does not open. */
  function Decrypt(f: Formats, stateless: Stateless, seen: set<nat>, frame: Bytes): (set<nat>, Option<Message>) {
    match ParseFrame(f.wire, frame)
    case None => (seen, None)
    case Some(parsed) =>
      var (after, plain) := ReadFrame(stateless, WINDOW, seen, parsed, BUFFER);
      (after, if plain.Some? then f.message.decode(plain.value) else None)
  }

  /** One packet for an established session, and whether it was handled without an error. */
  function Incoming(f: Formats, s: SessionState, raw: Option<RawMessage>): (SessionState, bool) {
    match raw
    case None => (s, false)
    case Some(Encrypted(frame)) =>
      var (seen, message) := Decrypt(f, s.stateless, s.seen, frame);
      var after := s.(seen := seen);
      (match message
       case None => (after, false)
       case Some(Keepalive) => (after.(heartbeat := true), true)
       case Some(Payload(data)) => (after.(inbox := Deliver(s.inbox, data)), true))
    case Some(_) => (s, true)
  }

  datatype Written =
    | Failed
    | Overrun           // the packet outgrew the buffer: slicing it panics
    | Out(frame: Bytes)

  /** Encrypt one message. The nonce is used up in every case. */
  function Write(f: Formats, s: SessionState, m: Message): (SessionState, Written) {
    var plain := f.message.encode(m);
    var frame := Packet(f.wire, s.stateless, s.nextNonce, plain);
    (s.(nextNonce := Next64(s.nextNonce)),
     if !Fits(f.wire, s.stateless, s.nextNonce, plain, BUFFER) then Failed else if |frame| > BUFFER then Overrun else Out(frame))
  }

  function Envelope(f: Formats, id: SessionId, frame: Bytes): SessionPacket {
    SessionPacket(id, f.raw.encode(Encrypted(frame)))
  }

  /** One tick of the monitor: no keepalive since the last tick means death. */
  function MonitorTick(s: SessionState): SessionState {
    if s.heartbeat then s.(heartbeat := false)
    else s.(dead := true, inbox := s.inbox.(woken := s.inbox.woken + s.inbox.wakers))
  }

  // ----- Pending sessions -----

  datatype PokerState = PokerState(
    handle: nat,
    workingRemoteAddr: Option<(Addr, Initiation)>,
    responder: SnowResponder)
  {
    function Incoming(src: Addr, raw: Option<RawMessage>): PokerState {
      if raw.Some? && raw.value.HandshakeInitiation?
      then this.(workingRemoteAddr := Some((src, raw.value.initiation)))
      else this
    }

    predicate IsReady() {
      workingRemoteAddr.Some?
    }
  }

  datatype InitiatorState = InitiatorState(
    handle: nat,
    workingRemoteAddr: Option<(Addr, Response)>,
    initiator: SnowInitiator)
  {
    function Incoming(src: Addr, raw: Option<RawMessage>): InitiatorState {
      if raw.Some? && raw.value.HandshakeResponse?
      then this.(workingRemoteAddr := Some((src, raw.value.response)))
      else this
    }

    predicate IsReady() {
      workingRemoteAddr.Some?
    }
  }

  datatype ResponderState = ResponderState(
    handle: nat,
    remoteAddr: Addr,
    stateless: Stateless,
    nextNonce: nat,
    seen: set<nat>,
    ready: bool)
  {
    /**
     Waits for the first keepalive. It becomes ready and then reports an error all the same,
     because no waker is ever stored; every other packet is an error too.
     */
    function Incoming(f: Formats, raw: Option<RawMessage>): ResponderState {
      if raw.Some? && raw.value.Encrypted? then
        var (after, message) := Decrypt(f, stateless, seen, raw.value.frame);
        this.(seen := after, ready := ready || message == Some(Keepalive))
      else this
    }

    function Session(): SessionState {
      NewSession(remoteAddr, stateless, nextNonce, seen)
    }
  }

  // ----- The pending sessions as objects -----

  class PendingSessionPoker {
    const handle: nat
    const responder: SnowResponder
    var workingRemoteAddr: Option<(Addr, Initiation)>

    function State(): PokerState
      reads this
    {
      PokerState(handle, workingRemoteAddr, responder)
    }

    constructor (handle: nat, responder: SnowResponder)
      ensures State() == PokerState(handle, None, responder)
    {
      this.handle, this.responder := handle, responder;
      workingRemoteAddr := None;
    }

    method HandleIncoming(f: Formats, src: Addr, packet: SessionPacket)
      modifies this
      ensures State() == old(State()).Incoming(src, f.raw.decode(packet.data))
    {
      var raw := f.raw.decode(packet.data);
      if raw.Some? && raw.value.HandshakeInitiation? {
        workingRemoteAddr := Some((src, raw.value.initiation));
      }
    }
  }

  class PendingSessionInitiator {
    const handle: nat
    const initiator: SnowInitiator
    var workingRemoteAddr: Option<(Addr, Response)>

    function State(): InitiatorState
      reads this
    {
      InitiatorState(handle, workingRemoteAddr, initiator)
    }

    constructor (handle: nat, initiator: SnowInitiator)
      ensures State() == InitiatorState(handle, None, initiator)
    {
      this.handle, this.initiator := handle, initiator;
      workingRemoteAddr := None;
    }

    method HandleIncoming(f: Formats, src: Addr, packet: SessionPacket)
      modifies this
      ensures State() == old(State()).Incoming(src, f.raw.decode(packet.data))
    {
      var raw := f.raw.decode(packet.data);
      if raw.Some? && raw.value.HandshakeResponse? {
        workingRemoteAddr := Some((src, raw.value.response));
      }
    }
  }

  class PendingSessionResponder {
    const formats: Formats
    const handle: nat
    const remoteAddr: Addr
    const transport: LossyTransportState
    var ready: bool

    ghost predicate Valid() {
      transport.wire == formats.wire && transport.size == WINDOW
    }

    function State(): ResponderState
      reads this, transport
    {
      ResponderState(handle, remoteAddr, transport.stateless, transport.nextNonce, transport.receivedNonces, ready)
    }

    constructor (formats: Formats, handle: nat, remoteAddr: Addr, stateless: Stateless)
      ensures Valid() && this.formats == formats && fresh(transport)
      ensures State() == ResponderState(handle, remoteAddr, stateless, 0, {}, false)
    {
      this.formats, this.handle, this.remoteAddr := formats, handle, remoteAddr;
      transport := new LossyTransportState(formats.wire, stateless, WINDOW);
      ready := false;
    }

    /** Every outcome is an error: a first keepalive sets `ready`, and then no waker is found. */
    method HandleIncoming(packet: SessionPacket)
      requires Valid()
      modifies this, transport
      ensures State() == old(State()).Incoming(formats, formats.raw.decode(packet.data))
    {
      var raw := formats.raw.decode(packet.data);
      if raw.None? || !raw.value.Encrypted? {
        return;
      }
      var decrypted := new byte[BUFFER];
      var len := transport.ReadMessage(raw.value.frame, decrypted);
      if len.None? {
        return;
      }
      var message := formats.message.decode(decrypted[..len.value]);
      if message == Some(Keepalive) {
        ready := true;
      }
    }
  }

  // ----- The session object -----

  datatype SendResult = Sent | Refused | Panicked

  class Session {
    const formats: Formats
    const id: SessionId
    const remoteAddr: Addr
    const transport: LossyTransportState
    var messages: seq<Bytes>
    var wakers: set<nat>
    var woken: set<nat>
    var heartbeat: bool
    var dead: bool
    var outgoing: seq<(Addr, SessionPacket, nat)>

    ghost predicate Valid() {
      transport.wire == formats.wire && transport.size == WINDOW
    }

    function State(): SessionState
      reads this, transport
    {
      SessionState(remoteAddr, transport.stateless, transport.nextNonce, transport.receivedNonces,
                   Inbox(messages, wakers, woken), heartbeat, dead)
    }

    constructor (formats: Formats, id: SessionId, remoteAddr: Addr, transport: LossyTransportState)
      requires transport.wire == formats.wire && transport.size == WINDOW
      ensures Valid() && this.transport == transport && this.formats == formats
      ensures this.id == id && this.remoteAddr == remoteAddr && outgoing == []
      ensures State() == NewSession(remoteAddr, transport.stateless, transport.nextNonce, transport.receivedNonces)
    {
      this.formats, this.id, this.remoteAddr, this.transport := formats, id, remoteAddr, transport;
      messages, wakers, woken := [], {}, {};
      heartbeat, dead := true, false;
      outgoing := [];
    }

    method HandleIncoming(packet: SessionPacket) returns (ok: bool)
      requires Valid()
      modifies this, transport
      ensures (State(), ok) == Incoming(formats, old(State()), formats.raw.decode(packet.data))
      ensures outgoing == old(outgoing)
    {
      var raw := formats.raw.decode(packet.data);
      if raw.None? {
        return false;
      }
      match raw.value
      case Encrypted(encrypted) =>
        var data := new byte[BUFFER];
        var len := transport.ReadMessage(encrypted, data);
        if len.None? {
          return false;
        }
        var message := formats.message.decode(data[..len.value]);
        if message.None? {
          return false;
        }
        match message.value {
          case Keepalive =>
            heartbeat := true;
          case Payload(payload) =>
            messages := messages + [payload];
            if wakers != {} {
              var w := Least(wakers);
              wakers := wakers - {w};
              woken := woken + {w};
            }
        }
        ok := true;
      case _ =>
        ok := true;
    }

    /** Encrypts and enqueues under one lock of the transport. */
    method WriteOut(m: Message) returns (w: Written)
      requires Valid()
      modifies `outgoing, transport
      ensures (State(), w) == Write(formats, old(State()), m)
      ensures outgoing == if w.Out? then old(outgoing) + [(remoteAddr, Envelope(formats, id, w.frame), 64)] else old(outgoing)
    {
      var encrypted := new byte[BUFFER];
      ghost var packet := Packet(formats.wire, transport.stateless, transport.nextNonce, formats.message.encode(m));
      var len := transport.WriteMessage(formats.message.encode(m), encrypted);
      if len.None? {
        return Failed;
      }
      if len.value > BUFFER {
        return Overrun;
      }
      assert packet[..|packet|] == packet;
      w := Out(encrypted[..len.value]);
      outgoing := outgoing + [(remoteAddr, Envelope(formats, id, w.frame), 64)];
    }

    method Send(data: Bytes) returns (r: SendResult)
      requires Valid()
      modifies `outgoing, transport
      ensures old(dead) ==> r == Refused && State() == old(State()) && outgoing == old(outgoing)
      ensures !old(dead) ==>
                var (after, w) := Write(formats, old(State()), Payload(data));
                && State() == after
                && r == (match w case Failed => Refused case Overrun => Panicked case Out(_) => Sent)
                && outgoing == if w.Out? then old(outgoing) + [(remoteAddr, Envelope(formats, id, w.frame), 64)]
                               else old(outgoing)
    {
      if dead {
        return Refused;
      }
      var w := WriteOut(Payload(data));
      match w
      case Failed => r := Refused;
      case Overrun => r := Panicked;
      case Out(_) => r := Sent;
    }

    /** One round of the keepalive task; it goes on unless the session is dead after a successful write. */
    method KeepaliveTick() returns (w: Written, goesOn: bool)
      requires Valid()
      modifies `outgoing, transport
      ensures (State(), w) == Write(formats, old(State()), Keepalive)
      ensures outgoing == if w.Out? then old(outgoing) + [(remoteAddr, Envelope(formats, id, w.frame), 64)] else old(outgoing)
      ensures goesOn <==> w == Failed || (w.Out? && !dead)
    {
      w := WriteOut(Keepalive);
      goesOn := w == Failed || (w.Out? && !dead);
    }

    method Monitor()
      modifies `heartbeat, `dead, `woken
      ensures State() == MonitorTick(old(State()))
    {
      if !heartbeat {
        dead := true;
        woken := woken + wakers;
      } else {
        heartbeat := false;
      }
    }

    /** Marks the session dead. Nobody is woken. */
    method Close()
      modifies `dead
      ensures State() == old(State()).(dead := true)
    {
      dead := true;
    }
  }

  /** A pending receive, sharing the queue and the waker table of its session. */
  class Receiving {
    const session: Session
    const id: nat

    constructor (session: Session, id: nat)
      ensures this.session == session && this.id == id
    {
      this.session, this.id := session, id;
    }

    method PollOnce() returns (r: Polled)
      modifies session
      ensures (session.State().inbox, r) == Poll(old(session.State().inbox), old(session.dead), id)
      ensures session.State() == old(session.State()).(inbox := session.State().inbox)
      ensures session.outgoing == old(session.outgoing)
    {
      session.woken := session.woken - {id};
      if session.dead {
        return Disconnected;
      }
      if session.messages != [] {
        r := Value(session.messages[0]);
        session.messages := session.messages[1..];
        session.wakers := session.wakers - {id};
      } else {
        session.wakers := session.wakers + {id};
        r := Pending;
      }
    }
  }
}
