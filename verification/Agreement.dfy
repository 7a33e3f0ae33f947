/**
 Any number of handlers on one network, with Noise idealised: who can be established with what.
 The network keeps every message it has seen and may deliver any of them to anyone, under any
 session id, as often as it likes.
 */
module Agreement {
  import opened Common
  import opened SnowTypes
  import H = Handler
  import P = HandlerProofs
  import O = Handshake
  import S = Session

  /** An incarnation of the handler with this key, and a transport it had. */
  datatype Record = Record(key: PublicKey, oneTime: H.OneTimeId, stateless: Stateless)

  /**
   The handlers, every handshake message and ciphertext that was ever sent, and the history of
   incarnations: which have answered an initiation, and which have been established.
   */
  datatype World = World(
    handlers: map<PublicKey, H.State>,
    initiations: set<Initiation>,
    responses: set<Response>,
    ciphers: set<Cipher>,
    responded: set<Record>,
    established: set<Record>)

  datatype Step =
    | Operate(key: PublicKey, op: H.Op)
    | Transmit(key: PublicKey, task: H.TaskId)
    | Deliver(key: PublicKey, src: S.Addr, id: H.SessionId, raw: Option<S.RawMessage>)
    | Emit(writer: Record, nonce: nat, plaintext: Bytes)

  function Start(keys: set<PublicKey>): World {
    World((map k | k in keys :: H.Init(k)), {}, {}, {}, {}, {})
  }

  function RespondedOf(k: PublicKey, s: H.State): set<Record> {
    set id | id in s.responders :: Record(k, s.responders[id].oneTime, s.responders[id].session.stateless)
  }

  function EstablishedOf(k: PublicKey, s: H.State): set<Record> {
    set id | id in s.established :: Record(k, s.established[id].oneTime, s.established[id].session.stateless)
  }

  function Update(w: World, k: PublicKey, t: H.State): World {
    w.(handlers := w.handlers[k := t],
       responded := w.responded + RespondedOf(k, t),
       established := w.established + EstablishedOf(k, t))
  }

  /** The network can deliver what was sent, and anything that is not a genuine message. */
  predicate Deliverable(w: World, f: S.Formats, raw: Option<S.RawMessage>) {
    match raw
    case None => true
    case Some(HandshakePoke) => true
    case Some(HandshakeInitiation(i)) => i.ForgedInitiation? || i in w.initiations
    case Some(HandshakeResponse(r)) => r.ForgedResponse? || r in w.responses
    case Some(Encrypted(frame)) =>
      var parsed := ParseFrame(f.wire, frame);
      parsed.Some? && parsed.value.cipher.Some? ==> parsed.value.cipher.value in w.ciphers
  }

  function Sends(w: World, packet: S.RawMessage): World {
    match packet
    case HandshakeInitiation(i) => w.(initiations := w.initiations + {i})
    case HandshakeResponse(r) => w.(responses := w.responses + {r})
    case _ => w
  }

  /**
   A step that cannot happen does not. An incarnation that has been established can write under
   any nonce at any later time: its own sends and keepalives, also after it was removed.
   */
  function Next(w: World, f: S.Formats, step: Step): World {
    match step
    case Operate(k, op) =>
      if k in w.handlers && !op.OpIncoming? then Update(w, k, H.Apply(w.handlers[k], f, op)) else w
    case Transmit(k, task) =>
      if k in w.handlers && task in w.handlers[k].running then Sends(w, w.handlers[k].running[task].packet) else w
    case Deliver(k, src, id, raw) =>
      if k in w.handlers && Deliverable(w, f, raw)
      then Update(w, k, H.Apply(w.handlers[k], f, H.OpIncoming(src, id, raw)))
      else w
    case Emit(writer, nonce, plaintext) =>
      if writer in w.established then w.(ciphers := w.ciphers + {Seal(writer.stateless, nonce, plaintext)}) else w
  }

  function Run(keys: set<PublicKey>, f: S.Formats, steps: seq<Step>): World {
    if steps == [] then Start(keys) else Next(Run(keys, f, steps[..|steps| - 1]), f, steps[|steps| - 1])
  }

  // ----- Invariants -----

  ghost predicate HasRecord(records: set<Record>, st: Stateless) {
    exists r :: r in records && r.stateless == st
  }

  ghost predicate HandlersOk(w: World) {
    forall k :: k in w.handlers ==>
      var s := w.handlers[k];
      && s.key == k && P.Inv(s) && O.OwnInv(s)
      && RespondedOf(k, s) <= w.responded && EstablishedOf(k, s) <= w.established
  }

  predicate InitiationOk(w: World, i: Initiation) {
    i.Initiation? ==>
      i.from in w.handlers && i.ephemeral.owner == i.from && i.ephemeral.n < w.handlers[i.from].supply
  }

  ghost predicate Backed(w: World, r: Response) {
    r.Response? ==>
      exists q :: q in w.responded && q.key == r.from
                  && q.stateless == Stateless(SessionKey(r.answered, r.ephemeral), Responding)
  }

  ghost predicate MessagesOk(w: World) {
    && (forall i :: i in w.initiations ==> InitiationOk(w, i))
    && (forall r :: r in w.responses ==> Backed(w, r))
    && (forall c :: c in w.ciphers ==> HasRecord(w.established, Stateless(c.key, c.from)))
  }

  ghost predicate PacketOk(w: World, packet: S.RawMessage) {
    match packet
    case HandshakeInitiation(i) => InitiationOk(w, i)
    case HandshakeResponse(r) => Backed(w, r)
    case _ => true
  }

  ghost predicate TasksOk(w: World) {
    forall k, h :: k in w.handlers && h in w.handlers[k].running ==> PacketOk(w, w.handlers[k].running[h].packet)
  }

  predicate RespondedRecordOk(w: World, q: Record) {
    && q.key in w.handlers
    && q.stateless.role == Responding
    && q.stateless.key.responder.owner == q.key
    && q.stateless.key.responder.n < w.handlers[q.key].supply
  }

  ghost predicate RespondedOk(w: World) {
    && (forall q :: q in w.responded ==> RespondedRecordOk(w, q))
    && (forall p, q ::
          p in w.responded && q in w.responded && p.stateless.key.responder == q.stateless.key.responder ==> p == q)
  }

  /** An established incarnation: its peer has at least answered, or is established already. */
  ghost predicate EstablishedRecordOk(w: World, r: Record) {
    && r.key in w.handlers
    && r.oneTime < w.handlers[r.key].supply
    && (forall id :: !P.Pending(w.handlers[r.key], id, r.oneTime))
    && if r.stateless.role == Initiating then
         && r.oneTime >= 2
         && r.stateless.key.initiator == Ephemeral(r.key, r.oneTime - 2)
         && HasRecord(w.responded, Stateless(r.stateless.key, Responding))
       else
         && r in w.responded
         && HasRecord(w.established, Stateless(r.stateless.key, Initiating))
  }

  ghost predicate EstablishedOk(w: World) {
    && (forall r :: r in w.established ==> EstablishedRecordOk(w, r))
    && (forall p, r :: p in w.established && r in w.established && p.key == r.key && p.oneTime == r.oneTime ==> p == r)
  }

  ghost predicate Inv(w: World) {
    HandlersOk(w) && MessagesOk(w) && TasksOk(w) && RespondedOk(w) && EstablishedOk(w)
  }

  // ----- One handler operates -----

  /** What a handler operation with a deliverable packet is given. */
  ghost predicate Allowed(w: World, f: S.Formats, k: PublicKey, op: H.Op) {
    k in w.handlers && (op.OpIncoming? ==> Deliverable(w, f, op.raw))
  }

  lemma HandlersStay(w: World, f: S.Formats, k: PublicKey, op: H.Op)
    requires Inv(w) && Allowed(w, f, k, op)
    ensures HandlersOk(Update(w, k, H.Apply(w.handlers[k], f, op)))
    ensures w.handlers[k].supply <= H.Apply(w.handlers[k], f, op).supply
  {
    var s := w.handlers[k];
    P.ApplyLineage(s, f, op);
    P.LineageKeepsUnique(s, H.Apply(s, f, op));
    P.ApplyTasks(s, f, op);
    P.ApplyReady(s, f, op);
    O.ApplyOrigins(s, f, op);
  }

  lemma RecordsGrow(w: World, v: World, st: Stateless)
    requires w.responded <= v.responded && w.established <= v.established
    ensures HasRecord(w.responded, st) ==> HasRecord(v.responded, st)
    ensures HasRecord(w.established, st) ==> HasRecord(v.established, st)
  {
  }

  lemma MessagesStay(w: World, k: PublicKey, t: H.State)
    requires MessagesOk(w) && k in w.handlers && w.handlers[k].supply <= t.supply
    ensures MessagesOk(Update(w, k, t))
    ensures forall i :: InitiationOk(w, i) ==> InitiationOk(Update(w, k, t), i)
    ensures forall r :: Backed(w, r) ==> Backed(Update(w, k, t), r)
  {
    var v := Update(w, k, t);
    forall r | Backed(w, r) ensures Backed(v, r) {
      if r.Response? {
        var q :| q in w.responded && q.key == r.from
                 && q.stateless == Stateless(SessionKey(r.answered, r.ephemeral), Responding);
        assert q in v.responded;
      }
    }
    forall c | c in w.ciphers ensures HasRecord(v.established, Stateless(c.key, c.from)) {
      RecordsGrow(w, v, Stateless(c.key, c.from));
    }
  }

  lemma TasksStay(w: World, f: S.Formats, k: PublicKey, op: H.Op)
    requires MessagesOk(w) && TasksOk(w) && k in w.handlers && O.OwnInv(w.handlers[k])
    requires w.handlers[k].supply <= H.Apply(w.handlers[k], f, op).supply
    requires w.handlers[k].key == k && H.Apply(w.handlers[k], f, op).key == k
    ensures TasksOk(Update(w, k, H.Apply(w.handlers[k], f, op)))
  {
    var s, t := w.handlers[k], H.Apply(w.handlers[k], f, op);
    var v := Update(w, k, t);
    MessagesStay(w, k, t);
    O.ApplyTaskOrigins(s, f, op);
    forall h | h in t.running ensures PacketOk(v, t.running[h].packet) {
      var packet := t.running[h].packet;
      if !(h in s.running && s.running[h] == t.running[h]) && packet.HandshakeResponse? {
        var r := packet.response;
        var id :| id in t.responders
                  && t.responders[id].session.stateless == Stateless(SessionKey(r.answered, r.ephemeral), Responding);
        assert Record(k, t.responders[id].oneTime, t.responders[id].session.stateless) in RespondedOf(k, t);
      }
    }
  }

  /** An answer that was just made: the poker it came from, and the ephemeral it drew. */
  predicate NewAnswer(k: PublicKey, s: H.State, op: H.Op, q: Record) {
    q.key == k && O.Answered(s, op, q.oneTime, q.stateless)
  }

  lemma RespondedOrigin(k: PublicKey, s: H.State, f: S.Formats, op: H.Op, q: Record)
    requires O.OwnInv(s) && q in RespondedOf(k, H.Apply(s, f, op))
    ensures q in RespondedOf(k, s) || (NewAnswer(k, s, op, q) && s.supply < H.Apply(s, f, op).supply)
  {
    var t := H.Apply(s, f, op);
    O.ApplyOrigins(s, f, op);
    var id :| id in t.responders && q == Record(k, t.responders[id].oneTime, t.responders[id].session.stateless);
    if O.OldResponder(s, q.oneTime, q.stateless) {
      var was :| was in s.responders && s.responders[was].oneTime == q.oneTime
                 && s.responders[was].session.stateless == q.stateless;
    }
  }

  /** A new answer uses an ephemeral that no record has. */
  lemma AnswerIsFresh(w: World, k: PublicKey, op: H.Op, p: Record, q: Record)
    requires RespondedOk(w) && k in w.handlers && w.handlers[k].key == k && p in w.responded && NewAnswer(k, w.handlers[k], op, q)
    ensures q.stateless.role == Responding && q.stateless.key.responder == Ephemeral(k, w.handlers[k].supply)
    ensures p.stateless.key.responder != q.stateless.key.responder
  {
    assert RespondedRecordOk(w, p);
  }

  lemma RespondedStay(w: World, f: S.Formats, k: PublicKey, op: H.Op, t: H.State)
    requires RespondedOk(w) && k in w.handlers && w.handlers[k].key == k && O.OwnInv(w.handlers[k])
    requires RespondedOf(k, w.handlers[k]) <= w.responded
    requires t == H.Apply(w.handlers[k], f, op) && w.handlers[k].supply <= t.supply
    ensures RespondedOk(Update(w, k, t))
  {
    var s, v := w.handlers[k], Update(w, k, t);
    forall q | q in v.responded
      ensures q in w.responded || (NewAnswer(k, s, op, q) && s.supply < t.supply)
    {
      if q !in w.responded { RespondedOrigin(k, s, f, op, q); }
    }
    forall q | q in v.responded ensures RespondedRecordOk(v, q) {
      if q in w.responded {
        assert RespondedRecordOk(w, q);
      } else {
        assert s.key == k;
      }
    }
    forall p, q | p in w.responded && NewAnswer(k, s, op, q) ensures p.stateless.key.responder != q.stateless.key.responder {
      AnswerIsFresh(w, k, op, p, q);
    }
  }

  // ----- New established records -----

  predicate NewlyConcluded(k: PublicKey, s: H.State, op: H.Op, r: Record) {
    r.key == k && O.Concluded(s, op, r.oneTime, r.stateless)
  }

  predicate NewlyConfirmed(k: PublicKey, s: H.State, f: S.Formats, op: H.Op, r: Record) {
    r.key == k && O.Confirmed(s, f, op, r.oneTime, r.stateless)
  }

  predicate NewlyEstablished(k: PublicKey, s: H.State, f: S.Formats, op: H.Op, r: Record) {
    NewlyConcluded(k, s, op, r) || NewlyConfirmed(k, s, f, op, r)
  }

  lemma EstablishedOrigin(k: PublicKey, s: H.State, f: S.Formats, op: H.Op, r: Record)
    requires O.OwnInv(s) && r in EstablishedOf(k, H.Apply(s, f, op))
    ensures r in EstablishedOf(k, s) || NewlyEstablished(k, s, f, op, r)
  {
    var t := H.Apply(s, f, op);
    O.ApplyOrigins(s, f, op);
    var id :| id in t.established && r == Record(k, t.established[id].oneTime, t.established[id].session.stateless);
    if O.OldEstablished(s, r.oneTime, r.stateless) {
      var was :| was in s.established && s.established[was].oneTime == r.oneTime
                 && s.established[was].session.stateless == r.stateless;
    }
  }

  /** An initiator is concluded with the transport of a responder that answered its very initiation. */
  lemma ConcludedHasAnswer(w: World, f: S.Formats, k: PublicKey, op: H.Op, r: Record)
    requires Inv(w) && Allowed(w, f, k, op) && NewlyConcluded(k, w.handlers[k], op, r)
    ensures r.stateless.role == Initiating && 2 <= r.oneTime < w.handlers[k].supply
    ensures r.stateless.key.initiator == Ephemeral(k, r.oneTime - 2)
    ensures HasRecord(w.responded, Stateless(r.stateless.key, Responding))
    ensures r.stateless.key.responder.owner == w.handlers[k].initiators[op.id].session.initiator.remote
    ensures P.AsInitiator(w.handlers[k], op.id, r.oneTime)
  {
    var s := w.handlers[k];
    assert O.InitiatorOk(s, s.initiators[op.id]);
    var response := op.raw.value.response;
    assert Backed(w, response);
    var q :| q in w.responded && q.key == response.from
             && q.stateless == Stateless(SessionKey(response.answered, response.ephemeral), Responding);
    assert RespondedRecordOk(w, q);
  }

  /** A responder is confirmed by a frame that only its established initiator could write. */
  lemma ConfirmedHasInitiator(w: World, f: S.Formats, k: PublicKey, op: H.Op, r: Record)
    requires Inv(w) && Allowed(w, f, k, op) && NewlyConfirmed(k, w.handlers[k], f, op, r)
    ensures r.stateless.role == Responding && r in w.responded && r.oneTime < w.handlers[k].supply
    ensures HasRecord(w.established, Stateless(r.stateless.key, Initiating))
    ensures P.AsResponder(w.handlers[k], op.id, r.oneTime)
  {
    var s := w.handlers[k];
    assert O.ResponderOk(s, s.responders[op.id]);
    assert r in RespondedOf(k, s);
    assert P.Holds(s, op.id, r.oneTime);
  }

  /** What is established is not pending, under any id. */
  lemma EstablishedIsNotPending(k: PublicKey, t: H.State, r: Record)
    requires P.Inv(t) && r in EstablishedOf(k, t)
    ensures r.oneTime < t.supply && forall id :: !P.Pending(t, id, r.oneTime)
  {
    var at :| at in t.established && t.established[at].oneTime == r.oneTime;
    assert P.Holds(t, at, r.oneTime);
    forall id | P.Pending(t, id, r.oneTime) ensures id == at {
      assert P.Holds(t, id, r.oneTime);
    }
  }

  /** An incarnation that is not pending does not become pending again. */
  lemma StaysNotPending(s: H.State, f: S.Formats, op: H.Op, o: H.OneTimeId)
    requires P.Unique(s) && o < s.supply && forall id :: !P.Pending(s, id, o)
    ensures s.supply <= H.Apply(s, f, op).supply
    ensures forall id :: !P.Pending(H.Apply(s, f, op), id, o)
  {
    P.ApplyLineage(s, f, op);
    forall id | P.Pending(H.Apply(s, f, op), id, o) ensures P.Pending(s, id, o) {
    }
  }

  lemma OldRecordStays(w: World, f: S.Formats, k: PublicKey, op: H.Op, t: H.State, r: Record)
    requires Inv(w) && k in w.handlers && t == H.Apply(w.handlers[k], f, op) && r in w.established
    ensures EstablishedRecordOk(Update(w, k, t), r)
  {
    var v := Update(w, k, t);
    assert EstablishedRecordOk(w, r);
    RecordsGrow(w, v, Stateless(r.stateless.key, Responding));
    RecordsGrow(w, v, Stateless(r.stateless.key, Initiating));
    if r.key == k {
      StaysNotPending(w.handlers[k], f, op, r.oneTime);
    }
  }

  lemma NewRecordOk(w: World, f: S.Formats, k: PublicKey, op: H.Op, t: H.State, r: Record)
    requires Inv(w) && Allowed(w, f, k, op) && t == H.Apply(w.handlers[k], f, op) && P.Inv(t)
    requires r in EstablishedOf(k, t)
    requires NewlyEstablished(k, w.handlers[k], f, op, r)
    ensures EstablishedRecordOk(Update(w, k, t), r)
    ensures forall p :: p in w.established && p.key == r.key ==> p.oneTime != r.oneTime
  {
    var v := Update(w, k, t);
    EstablishedIsNotPending(k, t, r);
    if NewlyConcluded(k, w.handlers[k], op, r) {
      ConcludedHasAnswer(w, f, k, op, r);
      RecordsGrow(w, v, Stateless(r.stateless.key, Responding));
    } else {
      ConfirmedHasInitiator(w, f, k, op, r);
      RecordsGrow(w, v, Stateless(r.stateless.key, Initiating));
    }
    forall p | p in w.established && p.key == r.key ensures p.oneTime != r.oneTime {
      assert EstablishedRecordOk(w, p);
      assert P.Pending(w.handlers[k], op.id, r.oneTime);
    }
  }

  lemma EstablishedRecordsOk(w: World, f: S.Formats, k: PublicKey, op: H.Op, t: H.State, r: Record)
    requires Inv(w) && Allowed(w, f, k, op) && t == H.Apply(w.handlers[k], f, op) && P.Inv(t)
    requires r in Update(w, k, t).established
    ensures EstablishedRecordOk(Update(w, k, t), r)
    ensures r in w.established || NewlyEstablished(k, w.handlers[k], f, op, r)
  {
    if r in w.established {
      OldRecordStays(w, f, k, op, t, r);
    } else {
      EstablishedOrigin(k, w.handlers[k], f, op, r);
      NewRecordOk(w, f, k, op, t, r);
    }
  }

  /** One operation establishes at most one incarnation, with one transport. */
  lemma NewRecordsAgree(k: PublicKey, s: H.State, f: S.Formats, op: H.Op, p: Record, r: Record)
    requires P.Exclusive(s) && NewlyEstablished(k, s, f, op, p) && NewlyEstablished(k, s, f, op, r)
    ensures p == r
  {
  }

  /** No incarnation is established with two transports. */
  lemma RecordsAgree(w: World, f: S.Formats, k: PublicKey, op: H.Op, t: H.State, p: Record, r: Record)
    requires Inv(w) && Allowed(w, f, k, op) && t == H.Apply(w.handlers[k], f, op) && P.Inv(t)
    requires p in Update(w, k, t).established && r in Update(w, k, t).established
    requires p.key == r.key && p.oneTime == r.oneTime
    ensures p == r
  {
    EstablishedRecordsOk(w, f, k, op, t, p);
    EstablishedRecordsOk(w, f, k, op, t, r);
    if p !in w.established && r !in w.established {
      NewRecordsAgree(k, w.handlers[k], f, op, p, r);
    } else if p !in w.established {
      EstablishedOrigin(k, w.handlers[k], f, op, p);
      NewRecordOk(w, f, k, op, t, p);
    } else if r !in w.established {
      EstablishedOrigin(k, w.handlers[k], f, op, r);
      NewRecordOk(w, f, k, op, t, r);
    }
  }

  lemma EstablishedStay(w: World, f: S.Formats, k: PublicKey, op: H.Op, t: H.State)
    requires Inv(w) && Allowed(w, f, k, op) && t == H.Apply(w.handlers[k], f, op) && P.Inv(t)
    ensures EstablishedOk(Update(w, k, t))
  {
    var v := Update(w, k, t);
    forall r | r in v.established ensures EstablishedRecordOk(v, r) {
      EstablishedRecordsOk(w, f, k, op, t, r);
    }
    forall p, r | p in v.established && r in v.established && p.key == r.key && p.oneTime == r.oneTime ensures p == r {
      RecordsAgree(w, f, k, op, t, p, r);
    }
  }

  lemma OperationKeepsInv(w: World, f: S.Formats, k: PublicKey, op: H.Op)
    requires Inv(w) && Allowed(w, f, k, op)
    ensures Inv(Update(w, k, H.Apply(w.handlers[k], f, op)))
  {
    var t := H.Apply(w.handlers[k], f, op);
    HandlersStay(w, f, k, op);
    assert Update(w, k, t).handlers[k] == t;
    MessagesStay(w, k, t);
    TasksStay(w, f, k, op);
    RespondedStay(w, f, k, op, t);
    EstablishedStay(w, f, k, op, t);
  }

  // ----- Runs -----

  predicate OnlyMessagesDiffer(w: World, v: World) {
    v.handlers == w.handlers && v.responded == w.responded && v.established == w.established
  }

  /** A message that the records back can join the network. */
  lemma BackedMessagesJoin(w: World, v: World)
    requires OnlyMessagesDiffer(w, v)
    ensures HandlersOk(w) ==> HandlersOk(v)
    ensures forall i :: InitiationOk(w, i) ==> InitiationOk(v, i)
    ensures forall r :: Backed(w, r) ==> Backed(v, r)
  {
  }

  lemma RecordsCarryOver(w: World, v: World)
    requires OnlyMessagesDiffer(w, v)
    ensures RespondedOk(w) ==> RespondedOk(v)
    ensures EstablishedOk(w) ==> EstablishedOk(v)
  {
    assert forall q :: RespondedRecordOk(w, q) ==> RespondedRecordOk(v, q);
    assert forall r :: EstablishedRecordOk(w, r) ==> EstablishedRecordOk(v, r);
  }

  lemma TasksCarryOver(w: World, v: World)
    requires OnlyMessagesDiffer(w, v) && TasksOk(w)
    ensures TasksOk(v)
  {
    BackedMessagesJoin(w, v);
    forall k, h | k in v.handlers && h in v.handlers[k].running ensures PacketOk(v, v.handlers[k].running[h].packet) {
      assert PacketOk(w, w.handlers[k].running[h].packet);
    }
  }

  lemma TransmitKeepsMessages(w: World, packet: S.RawMessage)
    requires MessagesOk(w) && PacketOk(w, packet)
    ensures MessagesOk(Sends(w, packet))
  {
    BackedMessagesJoin(w, Sends(w, packet));
  }

  lemma EmitKeepsMessages(w: World, f: S.Formats, writer: Record, nonce: nat, plaintext: Bytes)
    requires MessagesOk(w)
    ensures MessagesOk(Next(w, f, Emit(writer, nonce, plaintext)))
  {
    BackedMessagesJoin(w, Next(w, f, Emit(writer, nonce, plaintext)));
  }

  lemma TransmitKeepsInv(w: World, k: PublicKey, task: H.TaskId)
    requires Inv(w) && k in w.handlers && task in w.handlers[k].running
    ensures Inv(Sends(w, w.handlers[k].running[task].packet))
  {
    var packet := w.handlers[k].running[task].packet;
    assert PacketOk(w, packet);
    TransmitKeepsMessages(w, packet);
    BackedMessagesJoin(w, Sends(w, packet));
    RecordsCarryOver(w, Sends(w, packet));
    TasksCarryOver(w, Sends(w, packet));
  }

  lemma EmitKeepsInv(w: World, f: S.Formats, writer: Record, nonce: nat, plaintext: Bytes)
    requires Inv(w)
    ensures Inv(Next(w, f, Emit(writer, nonce, plaintext)))
  {
    var v := Next(w, f, Emit(writer, nonce, plaintext));
    EmitKeepsMessages(w, f, writer, nonce, plaintext);
    BackedMessagesJoin(w, v);
    RecordsCarryOver(w, v);
    TasksCarryOver(w, v);
  }

  lemma NextKeepsInv(w: World, f: S.Formats, step: Step)
    requires Inv(w)
    ensures Inv(Next(w, f, step))
  {
    match step
    case Operate(k, op) =>
      if k in w.handlers && !op.OpIncoming? { OperationKeepsInv(w, f, k, op); }
    case Transmit(k, task) =>
      if k in w.handlers && task in w.handlers[k].running { TransmitKeepsInv(w, k, task); }
    case Deliver(k, src, id, raw) =>
      if k in w.handlers && Deliverable(w, f, raw) { OperationKeepsInv(w, f, k, H.OpIncoming(src, id, raw)); }
    case Emit(writer, nonce, plaintext) => EmitKeepsInv(w, f, writer, nonce, plaintext);
  }

  lemma {:induction false} RunInv(keys: set<PublicKey>, f: S.Formats, steps: seq<Step>)
    ensures Inv(Run(keys, f, steps))
  {
    if steps != [] {
      RunInv(keys, f, steps[..|steps| - 1]);
      NextKeepsInv(Run(keys, f, steps[..|steps| - 1]), f, steps[|steps| - 1]);
    }
  }

  // ----- Agreement -----

  /** When an incarnation is established, its peer had answered or was established already. */
  lemma OperationEstablishes(w: World, f: S.Formats, k: PublicKey, op: H.Op, r: Record)
    requires Inv(w) && Allowed(w, f, k, op)
    requires r !in w.established && r in Update(w, k, H.Apply(w.handlers[k], f, op)).established
    ensures r.stateless.role == Responding ==> HasRecord(w.established, Stateless(r.stateless.key, Initiating))
    ensures r.stateless.role == Initiating ==> HasRecord(w.responded, Stateless(r.stateless.key, Responding))
  {
    EstablishedOrigin(k, w.handlers[k], f, op, r);
    if NewlyConcluded(k, w.handlers[k], op, r) {
      ConcludedHasAnswer(w, f, k, op, r);
    } else {
      ConfirmedHasInitiator(w, f, k, op, r);
    }
  }

  lemma EntersAfterPeer(w: World, f: S.Formats, step: Step, r: Record)
    requires Inv(w) && r !in w.established && r in Next(w, f, step).established
    ensures r.stateless.role == Responding ==> HasRecord(w.established, Stateless(r.stateless.key, Initiating))
    ensures r.stateless.role == Initiating ==> HasRecord(w.responded, Stateless(r.stateless.key, Responding))
  {
    match step
    case Operate(k, op) =>
      if k in w.handlers && !op.OpIncoming? { OperationEstablishes(w, f, k, op, r); }
    case Deliver(k, src, id, raw) =>
      if k in w.handlers && Deliverable(w, f, raw) { OperationEstablishes(w, f, k, H.OpIncoming(src, id, raw), r); }
    case _ =>
  }

  /** At some point of the run the peer was there and the incarnation was not yet established. */
  ghost predicate PeerWasFirst(keys: set<PublicKey>, f: S.Formats, steps: seq<Step>, r: Record, n: nat)
    requires n < |steps|
  {
    var w := Run(keys, f, steps[..n]);
    && r !in w.established
    && if r.stateless.role == Responding then HasRecord(w.established, Stateless(r.stateless.key, Initiating))
       else HasRecord(w.responded, Stateless(r.stateless.key, Responding))
  }

  /** An initiator's key is made from the ephemeral of its own initiation, drawn with its one-time id. */
  lemma OwnEphemeral(keys: set<PublicKey>, f: S.Formats, steps: seq<Step>, r: Record)
    requires r in Run(keys, f, steps).established && r.stateless.role == Initiating
    ensures r.oneTime >= 2 && r.stateless.key.initiator == Ephemeral(r.key, r.oneTime - 2)
  {
    RunInv(keys, f, steps);
    assert EstablishedRecordOk(Run(keys, f, steps), r);
  }

  /**
   Agreement. In every run, with reused session ids and old messages still in the network: a
   responder is established only after an initiator incarnation with the matching transport was
   established, and an initiator is established only after a responder incarnation had answered
   that very initiation, with the transport made in that answer.
   */
  lemma {:induction false} HandshakeAgreement(keys: set<PublicKey>, f: S.Formats, steps: seq<Step>, r: Record)
    requires r in Run(keys, f, steps).established
    ensures exists n :: 0 <= n < |steps| && PeerWasFirst(keys, f, steps, r, n)
    ensures r.stateless.role == Initiating ==> r.oneTime >= 2 && r.stateless.key.initiator == Ephemeral(r.key, r.oneTime - 2)
  {
    var m := |steps| - 1;
    var before := steps[..m];
    if r.stateless.role == Initiating { OwnEphemeral(keys, f, steps, r); }
    if r in Run(keys, f, before).established {
      HandshakeAgreement(keys, f, before, r);
      var n :| 0 <= n < |before| && PeerWasFirst(keys, f, before, r, n);
      assert before[..n] == steps[..n];
      assert PeerWasFirst(keys, f, steps, r, n);
    } else {
      RunInv(keys, f, before);
      EntersAfterPeer(Run(keys, f, before), f, steps[m], r);
      assert PeerWasFirst(keys, f, steps, r, m);
    }
  }

  /**
   Agreement is one to one. Two established incarnations never share a transport and a role: an
   initiator is matched by at most one established responder, and a responder by exactly one
   established initiator, the one whose one-time id was drawn with the ephemeral of the key.
   */
  lemma AgreementIsInjective(keys: set<PublicKey>, f: S.Formats, steps: seq<Step>, p: Record, r: Record)
    requires p in Run(keys, f, steps).established && r in Run(keys, f, steps).established
    requires p.stateless.role == r.stateless.role
    requires if p.stateless.role == Initiating then p.stateless.key.initiator == r.stateless.key.initiator
             else p.stateless.key.responder == r.stateless.key.responder
    ensures p == r
  {
    var w := Run(keys, f, steps);
    RunInv(keys, f, steps);
    assert EstablishedRecordOk(w, p) && EstablishedRecordOk(w, r);
  }

  /** Both sides name each other: each is established only with the key it was asked to connect to. */
  lemma PeersAreAsAsked(keys: set<PublicKey>, f: S.Formats, steps: seq<Step>, k: PublicKey, op: H.Op, r: Record)
    requires Allowed(Run(keys, f, steps), f, k, op)
    ensures var s := Run(keys, f, steps).handlers[k];
            && (NewlyConcluded(k, s, op, r) ==>
                  r.stateless.key.responder.owner == s.initiators[op.id].session.initiator.remote)
            && (NewAnswer(k, s, op, r) ==>
                  r.stateless.key.initiator.owner == s.pokers[op.id].session.responder.remote)
  {
    var w := Run(keys, f, steps);
    RunInv(keys, f, steps);
    if NewlyConcluded(k, w.handlers[k], op, r) { ConcludedHasAnswer(w, f, k, op, r); }
    if NewAnswer(k, w.handlers[k], op, r) { assert InitiationOk(w, op.raw.value.initiation); }
  }
}
