/**
 Byte layouts that meet every assumption made about the original's: numbers in unary, byte strings
 after their length. So the theorems that assume faithful codecs speak of something.
 */
module Layouts {
  import opened Common
  import opened SnowTypes
  import opened Transform
  import S = Session
  import E = EndToEnd

  function Number(n: nat): (r: Bytes)
    ensures |r| == n + 1
  {
    if n == 0 then [0] else [1] + Number(n - 1)
  }

  function Text(b: Bytes): Bytes {
    Number(|b|) + b
  }

  /** Neither is a proper prefix of another of its kind, so what follows can be told apart. */
  lemma {:induction false} NumberPrefix(a: nat, b: nat, r: Bytes, s: Bytes)
    requires Number(a) + r == Number(b) + s
    ensures a == b && r == s
  {
    assert (Number(a) + r)[0] == Number(a)[0] && (Number(b) + s)[0] == Number(b)[0];
    if a > 0 && b > 0 {
      assert (Number(a) + r)[1..] == Number(a - 1) + r;
      assert (Number(b) + s)[1..] == Number(b - 1) + s;
      NumberPrefix(a - 1, b - 1, r, s);
    } else {
      assert a == b;
      assert (Number(a) + r)[1..] == r && (Number(b) + s)[1..] == s;
    }
  }

  lemma TextPrefix(a: Bytes, b: Bytes, r: Bytes, s: Bytes)
    requires Text(a) + r == Text(b) + s
    ensures a == b && r == s
  {
    assert Text(a) + r == Number(|a|) + (a + r) && Text(b) + s == Number(|b|) + (b + s);
    NumberPrefix(|a|, |b|, a + r, b + s);
    assert (a + r)[..|a|] == a && (b + s)[..|b|] == b;
    assert (a + r)[|a|..] == r && (b + s)[|b|..] == s;
  }

  // ----- Each kind of value, followed by anything -----

  function OfEphemeral(e: Ephemeral, rest: Bytes): Bytes {
    Text(e.owner) + (Number(e.n) + rest)
  }

  lemma EphemeralPrefix(a: Ephemeral, b: Ephemeral, r: Bytes, s: Bytes)
    requires OfEphemeral(a, r) == OfEphemeral(b, s)
    ensures a == b && r == s
  {
    TextPrefix(a.owner, b.owner, Number(a.n) + r, Number(b.n) + s);
    NumberPrefix(a.n, b.n, r, s);
  }

  function RoleNumber(role: Role): nat {
    if role == Initiating then 0 else 1
  }

  /** The plaintext comes last but for the tag, a run of zeros. */
  function OfCipher(c: Cipher): Bytes {
    OfEphemeral(c.key.initiator, OfEphemeral(c.key.responder,
      Number(RoleNumber(c.from)) + (Number(c.nonce) + (Text(c.plaintext) + seq(TAG, _ => 0)))))
  }

  lemma CipherInjective(a: Cipher, b: Cipher)
    requires OfCipher(a) == OfCipher(b)
    ensures a == b
  {
    var tag: Bytes := seq(TAG, _ => 0);
    var a4, b4 := Text(a.plaintext) + tag, Text(b.plaintext) + tag;
    var a3, b3 := Number(a.nonce) + a4, Number(b.nonce) + b4;
    var a2, b2 := Number(RoleNumber(a.from)) + a3, Number(RoleNumber(b.from)) + b3;
    EphemeralPrefix(a.key.initiator, b.key.initiator, OfEphemeral(a.key.responder, a2), OfEphemeral(b.key.responder, b2));
    EphemeralPrefix(a.key.responder, b.key.responder, a2, b2);
    NumberPrefix(RoleNumber(a.from), RoleNumber(b.from), a3, b3);
    NumberPrefix(a.nonce, b.nonce, a4, b4);
    TextPrefix(a.plaintext, b.plaintext, tag, tag);
  }

  function OfNonced(n: Nonced): Bytes {
    Number(n.nonce) + n.payload
  }

  lemma NoncedInjective(a: Nonced, b: Nonced)
    requires OfNonced(a) == OfNonced(b)
    ensures a == b
  {
    NumberPrefix(a.nonce, b.nonce, a.payload, b.payload);
  }

  function OfMessage(m: S.Message): Bytes {
    match m
    case Keepalive => [0]
    case Payload(data) => [1] + data
  }

  lemma MessageInjective(a: S.Message, b: S.Message)
    requires OfMessage(a) == OfMessage(b)
    ensures a == b
  {
    assert OfMessage(a)[0] == OfMessage(b)[0] && OfMessage(a)[1..] == OfMessage(b)[1..];
    if a.Payload? {
      assert OfMessage(a)[1..] == a.data && OfMessage(b)[1..] == b.data;
    }
  }

  function OfInitiation(i: Initiation): Bytes {
    match i
    case ForgedInitiation => Number(0)
    case Initiation(e, from, to) => Number(1) + OfEphemeral(e, Text(from) + (Text(to) + []))
  }

  lemma InitiationInjective(a: Initiation, b: Initiation)
    requires OfInitiation(a) == OfInitiation(b)
    ensures a == b
  {
    var ka, kb := if a.Initiation? then 1 else 0, if b.Initiation? then 1 else 0;
    var ra := if a.Initiation? then OfEphemeral(a.ephemeral, Text(a.from) + (Text(a.to) + [])) else [];
    var rb := if b.Initiation? then OfEphemeral(b.ephemeral, Text(b.from) + (Text(b.to) + [])) else [];
    assert OfInitiation(a) == Number(ka) + ra && OfInitiation(b) == Number(kb) + rb;
    NumberPrefix(ka, kb, ra, rb);
    if a.Initiation? {
      EphemeralPrefix(a.ephemeral, b.ephemeral, Text(a.from) + (Text(a.to) + []), Text(b.from) + (Text(b.to) + []));
      TextPrefix(a.from, b.from, Text(a.to) + [], Text(b.to) + []);
      TextPrefix(a.to, b.to, [], []);
    }
  }

  function OfResponse(r: Response): Bytes {
    match r
    case ForgedResponse => Number(0)
    case Response(answered, e, from, to) => Number(1) + OfEphemeral(answered, OfEphemeral(e, Text(from) + (Text(to) + [])))
  }

  lemma ResponseInjective(a: Response, b: Response)
    requires OfResponse(a) == OfResponse(b)
    ensures a == b
  {
    var ka, kb := if a.Response? then 1 else 0, if b.Response? then 1 else 0;
    var ea := if a.Response? then OfEphemeral(a.ephemeral, Text(a.from) + (Text(a.to) + [])) else [];
    var eb := if b.Response? then OfEphemeral(b.ephemeral, Text(b.from) + (Text(b.to) + [])) else [];
    var ra := if a.Response? then OfEphemeral(a.answered, ea) else [];
    var rb := if b.Response? then OfEphemeral(b.answered, eb) else [];
    assert OfResponse(a) == Number(ka) + ra && OfResponse(b) == Number(kb) + rb;
    NumberPrefix(ka, kb, ra, rb);
    if a.Response? {
      EphemeralPrefix(a.answered, b.answered, ea, eb);
      EphemeralPrefix(a.ephemeral, b.ephemeral, Text(a.from) + (Text(a.to) + []), Text(b.from) + (Text(b.to) + []));
      TextPrefix(a.from, b.from, Text(a.to) + [], Text(b.to) + []);
      TextPrefix(a.to, b.to, [], []);
    }
  }

  function RawKind(m: S.RawMessage): nat {
    match m
    case HandshakePoke => 0
    case HandshakeInitiation(_) => 1
    case HandshakeResponse(_) => 2
    case Encrypted(_) => 3
  }

  function RawBody(m: S.RawMessage): Bytes {
    match m
    case HandshakePoke => []
    case HandshakeInitiation(i) => OfInitiation(i)
    case HandshakeResponse(r) => OfResponse(r)
    case Encrypted(frame) => frame
  }

  function OfRaw(m: S.RawMessage): Bytes {
    Number(RawKind(m)) + RawBody(m)
  }

  lemma RawInjective(a: S.RawMessage, b: S.RawMessage)
    requires OfRaw(a) == OfRaw(b)
    ensures a == b
  {
    NumberPrefix(RawKind(a), RawKind(b), RawBody(a), RawBody(b));
    match a
    case HandshakeInitiation(i) => InitiationInjective(i, b.initiation);
    case HandshakeResponse(r) => ResponseInjective(r, b.response);
    case _ =>
  }

  function OfChunk(c: ChunkedData): Bytes {
    Number(c.group) + (Number(c.index) + (Number(c.groupLength) + c.data))
  }

  lemma ChunkInjective(a: ChunkedData, b: ChunkedData)
    requires OfChunk(a) == OfChunk(b)
    ensures a == b
  {
    var a2, b2 := Number(a.groupLength) + a.data, Number(b.groupLength) + b.data;
    NumberPrefix(a.group, b.group, Number(a.index) + a2, Number(b.index) + b2);
    NumberPrefix(a.index, b.index, a2, b2);
    NumberPrefix(a.groupLength, b.groupLength, a.data, b.data);
  }

  // ----- Codecs -----

  /** Decoding is the search for the value that is encoded so. */
  ghost function Inverting<T(!new)>(encode: T -> Bytes): Codec<T> {
    Codec(encode, (b: Bytes) => if exists x :: encode(x) == b then (var x :| encode(x) == b; Some(x)) else None)
  }

  lemma InvertingIsFaithful<T(!new)>(encode: T -> Bytes)
    requires forall x, y :: encode(x) == encode(y) ==> x == y
    ensures Faithful(Inverting(encode))
  {
  }

  ghost const Plain: E.Link := E.Link(
    S.Formats(Wire(Inverting(OfCipher), Inverting(OfNonced)), Inverting(OfRaw), Inverting(OfMessage)),
    Inverting(OfChunk),
    4096,
    0)

  /** The assumptions about byte layouts can be met, all of them at once. */
  lemma PlainIsValid()
    ensures Plain.Valid() && Plain.formats.Valid()
    ensures exists l: E.Link :: l.Valid() && l.formats.Valid()
  {
    forall a, b | OfCipher(a) == OfCipher(b) ensures a == b { CipherInjective(a, b); }
    forall a, b | OfNonced(a) == OfNonced(b) ensures a == b { NoncedInjective(a, b); }
    forall a, b | OfRaw(a) == OfRaw(b) ensures a == b { RawInjective(a, b); }
    forall a, b | OfMessage(a) == OfMessage(b) ensures a == b { MessageInjective(a, b); }
    forall a, b | OfChunk(a) == OfChunk(b) ensures a == b { ChunkInjective(a, b); }
    InvertingIsFaithful(OfCipher);
    InvertingIsFaithful(OfNonced);
    InvertingIsFaithful(OfRaw);
    InvertingIsFaithful(OfMessage);
    InvertingIsFaithful(OfChunk);
    assert forall c: Cipher :: |c.plaintext| + TAG <= |OfCipher(c)|;
  }

  const Someone: Stateless := Stateless(SessionKey(Ephemeral([], 0), Ephemeral([], 1)), Initiating)

  /** The first packet that carries a single byte is short enough. */
  lemma OneByteFits(b: byte)
    ensures var m := S.Payload(OfChunk(ChunkedData(0, 0, 1, [b])));
            S.Write(Plain.formats, S.NewSession(0, Someone, 0, {}), m).1.Out?
  {
    var plain := OfMessage(S.Payload(OfChunk(ChunkedData(0, 0, 1, [b]))));
    assert |plain| == 6;
    assert |OfCipher(Seal(Someone, 0, plain))| <= 100;
    assert |OfNonced(Nonced(0, OfCipher(Seal(Someone, 0, plain))))| <= 200;
  }

  lemma SendTwo(l: E.Link, st: Stateless, a: E.Action, b: E.Action)
    requires l.chunkSize >= 1
    ensures E.SendAll(l, st, [a, b][..0]) == E.StartSending(st)
    ensures E.SendAll(l, st, [a, b][..1]) == E.Act(l, E.StartSending(st), a)
    ensures E.SendAll(l, st, [a, b]) == E.Act(l, E.Act(l, E.StartSending(st), a), b)
  {
    var both, one, none := [a, b], [a], [a][..0];
    assert both[..0] == none && both[..1] == one && one[..0] == none;
    assert E.SendAll(l, st, one) == E.Act(l, E.SendAll(l, st, none), a);
    assert E.SendAll(l, st, both) == E.Act(l, E.SendAll(l, st, both[..1]), b);
  }

  /** So a message goes from end to end: the delivery theorems are about runs that exist. */
  lemma PlainCarriesAMessage(b: byte)
    ensures var actions := [E.Begin([b]), E.WriteChunk];
            var events := E.InOrderEvents(Plain, E.SendAll(Plain, Someone, actions).outgoing) + E.Recvs(2);
            E.ReceiveAll(Plain, Stateless(Someone.key, Responding), {}, events).yielded == [[b]]
  {
    var actions := [E.Begin([b]), E.WriteChunk];
    PlainIsValid();
    OneByteFits(b);
    var start := E.StartSending(Someone);
    var s1 := E.Act(Plain, start, E.Begin([b]));
    SendTwo(Plain, Someone, E.Begin([b]), E.WriteChunk);
    assert Split([b], 4096) == [[b]];
    assert s1.messages == [[b]] && s1.pending == [ChunkedData(0, 0, 1, [b])];
    assert E.AllSmooth(Plain, Someone, actions);
    E.FifoYieldsEveryMessage(Plain, Someone, actions, 2);
    assert [[b]][..0] == [];
    assert E.NonEmpty([[b]]) == [[b]];
  }
}
