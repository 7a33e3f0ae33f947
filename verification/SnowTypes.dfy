/**
 Keys, handshake messages and the lossy transport (src/snow_types.rs).

 Noise is idealised: a ciphertext is a term that names its key, sender role, nonce and
 plaintext, and a handshake message is a term that names the ephemerals and static keys it
 was made from. Byte layouts are given by codecs.
 */
module SnowTypes {
  import opened Common
  import opened ReplayWindow

  // ----- Terms -----

  type PublicKey = Bytes

  /** An ephemeral key pair: the `n`-th fresh value drawn by the holder of `owner`. */
  datatype Ephemeral = Ephemeral(owner: PublicKey, n: nat)

  datatype Initiation =
    | Initiation(ephemeral: Ephemeral, from: PublicKey, to: PublicKey)
    | ForgedInitiation

  datatype Response =
    | Response(answered: Ephemeral, ephemeral: Ephemeral, from: PublicKey, to: PublicKey)
    | ForgedResponse

  datatype SessionKey = SessionKey(initiator: Ephemeral, responder: Ephemeral)

  datatype Role = Initiating | Responding

  function Peer(role: Role): Role {
    if role == Initiating then Responding else Initiating
  }

  datatype Cipher = Cipher(key: SessionKey, from: Role, nonce: nat, plaintext: Bytes)

  /** A transport after the handshake, holding both directions of one session key. */
  datatype Stateless = Stateless(key: SessionKey, role: Role)

  datatype Nonced = Nonced(nonce: nat, payload: Bytes)

  /** The byte layouts the transport depends on. A ciphertext is longer than its plaintext by a tag at least. */
  datatype Wire = Wire(ciphers: Codec<Cipher>, packets: Codec<Nonced>) {
    ghost predicate Valid() {
      && Faithful(ciphers)
      && Faithful(packets)
      && forall c: Cipher :: |c.plaintext| + TAG <= |ciphers.encode(c)|
    }
  }

  /** Length of an authentication tag, and the largest Noise message (section 3 of the framework). */
  const TAG: nat := 16
  const MAX_MESSAGE: nat := 65535

  // ----- Handshake: the two messages of the KK pattern -----

  datatype SnowInitiator = SnowInitiator(own: PublicKey, remote: PublicKey, ephemeral: Ephemeral) {
    function InitiationMessage(): Initiation {
      Initiation(ephemeral, own, remote)
    }

    /** Accepts only an answer to this very initiation, from the expected key. */
    function ReceiveResponse(r: Response): Option<SessionKey> {
      if r.Response? && r.answered == ephemeral && r.from == remote && r.to == own
      then Some(SessionKey(ephemeral, r.ephemeral))
      else None
    }
  }

  datatype SnowResponder = SnowResponder(own: PublicKey, remote: PublicKey) {
    /** Answers any initiation made by the expected key for this one, with a fresh ephemeral. */
    function Answer(i: Initiation, drawn: Ephemeral): Option<(SessionKey, Response)> {
      if i.Initiation? && i.from == remote && i.to == own
      then Some((SessionKey(i.ephemeral, drawn), Response(i.ephemeral, drawn, own, remote)))
      else None
    }
  }

  /** A responder answers exactly the initiations that the initiator it waits for can make. */
  lemma AnswersIff(responder: SnowResponder, i: Initiation, drawn: Ephemeral)
    ensures responder.Answer(i, drawn).Some? <==>
              exists e :: i == SnowInitiator(responder.remote, responder.own, e).InitiationMessage()
  {
    if responder.Answer(i, drawn).Some? {
      assert i == SnowInitiator(responder.remote, responder.own, i.ephemeral).InitiationMessage();
    }
  }

  /**
   An initiator accepts exactly the responses that the responder it wants makes to this very
   initiation, and both sides then have the same key.
   */
  lemma ConcludesIff(initiator: SnowInitiator, r: Response, key: SessionKey)
    ensures initiator.ReceiveResponse(r) == Some(key) <==>
              exists drawn :: SnowResponder(initiator.remote, initiator.own).Answer(initiator.InitiationMessage(), drawn)
                              == Some((key, r))
  {
    var responder := SnowResponder(initiator.remote, initiator.own);
    if initiator.ReceiveResponse(r) == Some(key) {
      assert responder.Answer(initiator.InitiationMessage(), r.ephemeral) == Some((key, r));
    }
  }

  // ----- Transport messages -----

  function Seal(st: Stateless, nonce: nat, payload: Bytes): Cipher {
    Cipher(st.key, st.role, nonce, payload)
  }

  /** The library refuses a plaintext whose ciphertext exceeds the buffer or the message limit. */
  predicate Fits(wire: Wire, st: Stateless, nonce: nat, payload: Bytes, capacity: nat) {
    var length := |wire.ciphers.encode(Seal(st, nonce, payload))|;
    length <= capacity && length <= MAX_MESSAGE
  }

  /** Decryption succeeds only for the same key, the peer's direction and the same nonce. */
  function Open(st: Stateless, nonce: nat, c: Option<Cipher>, capacity: nat): Option<Bytes> {
    if c.Some? && c.value == Cipher(st.key, Peer(st.role), nonce, c.value.plaintext) && |c.value.plaintext| <= capacity
    then Some(c.value.plaintext)
    else None
  }

  /** The packet written for a payload. */
  function Packet(wire: Wire, st: Stateless, nonce: nat, payload: Bytes): Bytes {
    wire.packets.encode(Nonced(nonce, wire.ciphers.encode(Seal(st, nonce, payload))))
  }

  datatype Frame = Frame(nonce: nat, cipher: Option<Cipher>)

  function ParseFrame(wire: Wire, packet: Bytes): Option<Frame> {
    match wire.packets.decode(packet)
    case None => None
    case Some(n) => Some(Frame(n.nonce, wire.ciphers.decode(n.payload)))
  }

  /** The window after a frame, and the plaintext if the frame was accepted and opened. */
  function ReadFrame(st: Stateless, size: nat, seen: set<nat>, f: Frame, capacity: nat): (set<nat>, Option<Bytes>) {
    if Accepts(seen, f.nonce)
    then (Record(seen, size, f.nonce), Open(st, f.nonce, f.cipher, capacity))
    else (seen, None)
  }

  lemma PacketParses(wire: Wire, st: Stateless, nonce: nat, payload: Bytes)
    requires wire.Valid()
    ensures ParseFrame(wire, Packet(wire, st, nonce, payload)) == Some(Frame(nonce, Some(Seal(st, nonce, payload))))
  {
  }

  /**
   A matching peer that has let through no nonce as large reads back exactly the payload,
   and nobody else does: not another key, not the writer itself, not under another nonce.
   */
  lemma TransportRoundTrip(wire: Wire, writer: Stateless, nonce: nat, payload: Bytes,
                           reader: Stateless, size: nat, seen: set<nat>, capacity: nat)
    requires wire.Valid()
    requires forall m :: m in seen ==> m < nonce
    ensures var f := ParseFrame(wire, Packet(wire, writer, nonce, payload));
            && f.Some?
            && ReadFrame(reader, size, seen, f.value, capacity).1
               == (if reader == Stateless(writer.key, Peer(writer.role)) && |payload| <= capacity
                   then Some(payload) else None)
            && forall other :: other != nonce ==> Open(reader, other, f.value.cipher, capacity) == None
  {
    PacketParses(wire, writer, nonce, payload);
    if seen != {} { assert Least(seen) in seen; }
  }

  function Min(a: nat, b: nat): nat {
    if a <= b then a else b
  }

  class LossyTransportState {
    const wire: Wire
    const stateless: Stateless
    const size: nat
    var nextNonce: nat
    var receivedNonces: set<nat>

    constructor (wire: Wire, stateless: Stateless, size: nat)
      ensures this.wire == wire && this.stateless == stateless && this.size == size
      ensures nextNonce == 0 && receivedNonces == {}
    {
      this.wire, this.stateless, this.size := wire, stateless, size;
      nextNonce, receivedNonces := 0, {};
    }

    /**
     Encrypts into the caller's buffer, then overwrites the buffer with the serialised packet.
     The result is the packet's length, which the copy does not compare with the buffer's.
     The nonce is used up even when encryption fails.
     */
    method WriteMessage(payload: Bytes, message: array<byte>) returns (r: Option<nat>)
      modifies `nextNonce, message
      ensures nextNonce == Next64(old(nextNonce))
      ensures r.Some? <==> Fits(wire, stateless, old(nextNonce), payload, message.Length)
      ensures r.None? ==> message[..] == old(message[..])
      ensures r.Some? ==>
                var packet := Packet(wire, stateless, old(nextNonce), payload);
                var kept := Min(|packet|, message.Length);
                && r.value == |packet|
                && message[..kept] == packet[..kept]
                && forall i :: kept <= i < message.Length
                               && |wire.ciphers.encode(Seal(stateless, old(nextNonce), payload))| <= i ==>
                     message[i] == old(message[i])
    {
      var nonce := nextNonce;
      nextNonce := Next64(nextNonce);
      var cipher := wire.ciphers.encode(Seal(stateless, nonce, payload));
      if |cipher| > message.Length || |cipher| > MAX_MESSAGE {
        return None;
      }
      var len := |cipher|;
      var i := 0;
      while i < len
        invariant 0 <= i <= len && nextNonce == Next64(old(nextNonce))
        invariant message[..i] == cipher[..i]
        invariant forall j :: i <= j < message.Length ==> message[j] == old(message[j])
      {
        message[i] := cipher[i];
        i := i + 1;
      }
      assert message[..len] == cipher;
      var serialized := wire.packets.encode(Nonced(nonce, message[..len]));
      i := 0;
      while i < message.Length && i < |serialized|
        invariant 0 <= i <= message.Length && i <= |serialized| && nextNonce == Next64(old(nextNonce))
        invariant message[..i] == serialized[..i]
        invariant forall j :: i <= j < message.Length && len <= j ==> message[j] == old(message[j])
      {
        message[i] := serialized[i];
        i := i + 1;
      }
      r := Some(|serialized|);
    }

    /** Checks the nonce, records it, and only then tries to decrypt. */
    method ReadMessage(payload: Bytes, message: array<byte>) returns (r: Option<nat>)
      modifies `receivedNonces, message
      ensures match ParseFrame(wire, payload)
              case None => r == None && receivedNonces == old(receivedNonces)
              case Some(f) =>
                var (seen, plain) := ReadFrame(stateless, size, old(receivedNonces), f, message.Length);
                && receivedNonces == seen
                && (plain.None? ==> r == None)
                && (plain.Some? ==>
                      && r == Some(|plain.value|) && |plain.value| <= message.Length
                      && message[..|plain.value|] == plain.value)
    {
      var nonced := wire.packets.decode(payload);
      if nonced.None? {
        return None;
      }
      var nonce := nonced.value.nonce;
      if nonce in receivedNonces || (receivedNonces != {} && Least(receivedNonces) > nonce) {
        return None;
      }
      receivedNonces := receivedNonces + {nonce};
      while |receivedNonces| > size
        invariant Trim(receivedNonces, size) == Record(old(receivedNonces), size, nonce)
        decreases |receivedNonces|
      {
        receivedNonces := receivedNonces - {Least(receivedNonces)};
      }
      var plain := Open(stateless, nonce, wire.ciphers.decode(nonced.value.payload), message.Length);
      if plain.None? {
        return None;
      }
      var i := 0;
      while i < |plain.value|
        invariant 0 <= i <= |plain.value| <= message.Length
        invariant receivedNonces == Record(old(receivedNonces), size, nonce)
        invariant message[..i] == plain.value[..i]
      {
        message[i] := plain.value[i];
        i := i + 1;
      }
      r := Some(|plain.value|);
    }
  }

  // ----- The derived order on public keys -----

  predicate LexLess(a: Bytes, b: Bytes) {
    if b == [] then false
    else if a == [] then true
    else if a[0] != b[0] then a[0] < b[0]
    else LexLess(a[1..], b[1..])
  }

  lemma {:induction false} LexTrichotomy(a: Bytes, b: Bytes)
    ensures a == b ==> !LexLess(a, b)
    ensures a != b ==> (LexLess(a, b) <==> !LexLess(b, a))
  {
    if a != [] && b != [] && a[0] == b[0] {
      LexTrichotomy(a[1..], b[1..]);
      assert a == [a[0]] + a[1..] && b == [b[0]] + b[1..];
    }
  }
}
