/**
 What one operation of a handler does to its entries and its tasks, where each new one comes from,
 and how an undisturbed handshake goes (src/handler.rs, src/session.rs, src/snow_types.rs).
 Noise is idealised.
 */
module Handshake {
  import opened Common
  import opened SnowTypes
  import H = Handler
  import P = HandlerProofs
  import L = SessionLaws
  import R = ReplayWindow
  import S = Session

  /** Facts that every handler's own operations keep. */
  ghost predicate OwnInv(s: H.State) {
    && (forall id :: id in s.pokers ==> PokerOk(s, s.pokers[id]))
    && (forall id :: id in s.initiators ==> InitiatorOk(s, s.initiators[id]))
    && (forall id :: id in s.responders ==> ResponderOk(s, s.responders[id]))
  }

  predicate PokerOk(s: H.State, e: H.Entry<S.PokerState>) {
    e.session.workingRemoteAddr.None? && e.session.responder.own == s.key
  }

  /** The ephemeral of an initiator was drawn just before its one-time id. */
  predicate InitiatorOk(s: H.State, e: H.Entry<S.InitiatorState>) {
    && e.session.workingRemoteAddr.None?
    && e.session.initiator.own == s.key
    && 2 <= e.oneTime < s.supply
    && e.session.initiator.ephemeral == Ephemeral(s.key, e.oneTime - 2)
  }

  predicate ResponderOk(s: H.State, e: H.Entry<S.ResponderState>) {
    !e.session.ready && e.session.stateless.role == Responding
  }

  /** A responder entry that was there before. */
  predicate OldResponder(s: H.State, o: H.OneTimeId, st: Stateless) {
    exists id :: id in s.responders && s.responders[id].oneTime == o && s.responders[id].session.stateless == st
  }

  predicate OldEstablished(s: H.State, o: H.OneTimeId, st: Stateless) {
    exists id :: id in s.established && s.established[id].oneTime == o && s.established[id].session.stateless == st
  }

  /** A responder entry made by answering an initiation that was just delivered. */
  predicate Answered(s: H.State, op: H.Op, o: H.OneTimeId, st: Stateless) {
    && op.OpIncoming? && op.id in s.pokers && s.pokers[op.id].oneTime == o
    && op.raw.Some? && op.raw.value.HandshakeInitiation? && op.raw.value.initiation.Initiation?
    && var i := op.raw.value.initiation;
       i.from == s.pokers[op.id].session.responder.remote && i.to == s.key
       && st == Stateless(SessionKey(i.ephemeral, Ephemeral(s.key, s.supply)), Responding)
  }

  /** An entry established by a response that was just delivered. */
  predicate Concluded(s: H.State, op: H.Op, o: H.OneTimeId, st: Stateless) {
    && op.OpIncoming? && op.id in s.initiators && s.initiators[op.id].oneTime == o
    && op.raw.Some? && op.raw.value.HandshakeResponse?
    && var p := s.initiators[op.id].session.initiator;
       p.ReceiveResponse(op.raw.value.response).Some?
       && st == Stateless(p.ReceiveResponse(op.raw.value.response).value, Initiating)
  }

  /** An entry established by a keepalive of the initiator that was just delivered. */
  predicate Confirmed(s: H.State, f: S.Formats, op: H.Op, o: H.OneTimeId, st: Stateless) {
    && op.OpIncoming? && op.id in s.responders && s.responders[op.id].oneTime == o
    && s.responders[op.id].session.stateless == st
    && op.raw.Some? && op.raw.value.Encrypted?
    && var parsed := ParseFrame(f.wire, op.raw.value.frame);
       parsed.Some? && parsed.value.cipher.Some?
       && parsed.value.cipher.value.key == st.key && parsed.value.cipher.value.from == Peer(st.role)
  }

  /** Every entry after an operation is old or comes from the operation in one of these ways. */
  ghost predicate Origins(s: H.State, f: S.Formats, op: H.Op, t: H.State) {
    && t.key == s.key && s.supply <= t.supply
    && (forall id :: id in t.responders ==>
          var o, st := t.responders[id].oneTime, t.responders[id].session.stateless;
          OldResponder(s, o, st) || (Answered(s, op, o, st) && s.supply < t.supply))
    && (forall id :: id in t.established ==>
          var o, st := t.established[id].oneTime, t.established[id].session.stateless;
          OldEstablished(s, o, st) || Concluded(s, op, o, st) || Confirmed(s, f, op, o, st))
  }

  lemma InitiateOrigins(s: H.State, f: S.Formats, id: H.SessionId, remote: PublicKey, usable: bool)
    requires OwnInv(s)
    ensures Origins(s, f, H.OpInitiate(id, remote, usable), H.Initiate(s, id, remote, usable))
    ensures OwnInv(H.Initiate(s, id, remote, usable))
  {
  }

  lemma RespondOrigins(s: H.State, f: S.Formats, id: H.SessionId, remote: PublicKey, usable: bool)
    requires OwnInv(s)
    ensures Origins(s, f, H.OpRespond(id, remote, usable), H.Respond(s, id, remote, usable))
    ensures OwnInv(H.Respond(s, id, remote, usable))
  {
  }

  /** Nothing new: entries may go, and established sessions may change but for their transport. */
  ghost predicate Shrinks(s: H.State, t: H.State) {
    && t.key == s.key && s.supply <= t.supply
    && (forall id :: id in t.pokers ==> id in s.pokers && t.pokers[id] == s.pokers[id])
    && (forall id :: id in t.initiators ==> id in s.initiators && t.initiators[id] == s.initiators[id])
    && (forall id :: id in t.responders ==> id in s.responders && t.responders[id] == s.responders[id])
    && (forall id :: id in t.established ==>
          id in s.established && t.established[id].oneTime == s.established[id].oneTime
          && t.established[id].session.stateless == s.established[id].session.stateless)
  }

  lemma ShrinksOrigins(s: H.State, f: S.Formats, op: H.Op, t: H.State)
    requires OwnInv(s) && Shrinks(s, t)
    ensures Origins(s, f, op, t) && OwnInv(t)
  {
    forall id | id in t.initiators ensures InitiatorOk(t, t.initiators[id]) {
      assert InitiatorOk(s, s.initiators[id]);
    }
  }

  /** One new responder entry. */
  lemma AnsweredOrigins(s: H.State, f: S.Formats, op: H.Op, t: H.State, id: H.SessionId, e: H.Entry<S.ResponderState>)
    requires OwnInv(s) && ResponderOk(s, e) && Answered(s, op, e.oneTime, e.session.stateless)
    requires t.key == s.key && t.supply > s.supply && t.pokers == s.pokers - {id} && t.initiators == s.initiators
    requires t.responders == s.responders[id := e] && t.established == s.established
    ensures Origins(s, f, op, t) && OwnInv(t)
  {
    ShrinksOrigins(s, f, op, t.(responders := s.responders));
  }

  /** One new established entry. */
  lemma EstablishedOrigins(s: H.State, f: S.Formats, op: H.Op, t: H.State, id: H.SessionId, e: H.Entry<S.SessionState>)
    requires OwnInv(s)
    requires Concluded(s, op, e.oneTime, e.session.stateless) || Confirmed(s, f, op, e.oneTime, e.session.stateless)
    requires t.key == s.key && t.supply == s.supply && t.pokers == s.pokers && t.established == s.established[id := e]
    requires t.initiators == s.initiators || t.initiators == s.initiators - {id}
    requires t.responders == s.responders || t.responders == s.responders - {id}
    ensures Origins(s, f, op, t) && OwnInv(t)
  {
    ShrinksOrigins(s, f, op, t.(established := s.established));
  }

  lemma PokerOrigins(s: H.State, f: S.Formats, src: S.Addr, id: H.SessionId, raw: Option<S.RawMessage>)
    requires OwnInv(s) && id in s.pokers
    ensures Origins(s, f, H.OpIncoming(src, id, raw), H.PokerIncoming(s, src, id, raw))
    ensures OwnInv(H.PokerIncoming(s, src, id, raw))
  {
    var e, op, t := s.pokers[id], H.OpIncoming(src, id, raw), H.PokerIncoming(s, src, id, raw);
    assert PokerOk(s, e);
    if raw.Some? && raw.value.HandshakeInitiation? {
      var answer := e.session.responder.Answer(raw.value.initiation, Ephemeral(s.key, s.supply));
      if answer.Some? {
        AnsweredOrigins(s, f, op, t, id, t.responders[id]);
      } else {
        ShrinksOrigins(s, f, op, t);
      }
    } else {
      ShrinksOrigins(s, f, op, t);
    }
  }

  lemma InitiatorOrigins(s: H.State, f: S.Formats, src: S.Addr, id: H.SessionId, raw: Option<S.RawMessage>)
    requires OwnInv(s) && id in s.initiators
    ensures Origins(s, f, H.OpIncoming(src, id, raw), H.InitiatorIncoming(s, src, id, raw))
    ensures OwnInv(H.InitiatorIncoming(s, src, id, raw))
  {
    var e, op, t := s.initiators[id], H.OpIncoming(src, id, raw), H.InitiatorIncoming(s, src, id, raw);
    assert InitiatorOk(s, e);
    if raw.Some? && raw.value.HandshakeResponse? && e.session.initiator.ReceiveResponse(raw.value.response).Some? {
      EstablishedOrigins(s, f, op, t, id, t.established[id]);
    } else {
      ShrinksOrigins(s, f, op, t);
    }
  }

  /** A responder becomes ready only by opening a frame of its peer. */
  lemma ReadyMeansOpened(p: S.ResponderState, f: S.Formats, raw: Option<S.RawMessage>)
    requires !p.ready && p.Incoming(f, raw).ready
    ensures raw.Some? && raw.value.Encrypted?
    ensures var parsed := ParseFrame(f.wire, raw.value.frame);
            && parsed.Some? && parsed.value.cipher.Some?
            && parsed.value.cipher.value.key == p.stateless.key && parsed.value.cipher.value.from == Peer(p.stateless.role)
  {
  }

  /** A responder entry that waits on. */
  lemma WaitingOrigins(s: H.State, f: S.Formats, op: H.Op, t: H.State, id: H.SessionId, e: H.Entry<S.ResponderState>)
    requires OwnInv(s) && ResponderOk(s, e) && OldResponder(s, e.oneTime, e.session.stateless)
    requires t == s.(responders := s.responders[id := e])
    ensures Origins(s, f, op, t) && OwnInv(t)
  {
    ShrinksOrigins(s, f, op, s);
  }

  lemma ResponderOrigins(s: H.State, f: S.Formats, src: S.Addr, id: H.SessionId, raw: Option<S.RawMessage>)
    requires OwnInv(s) && id in s.responders
    ensures Origins(s, f, H.OpIncoming(src, id, raw), H.ResponderIncoming(s, f, id, raw))
    ensures OwnInv(H.ResponderIncoming(s, f, id, raw))
  {
    var e, op, t := s.responders[id], H.OpIncoming(src, id, raw), H.ResponderIncoming(s, f, id, raw);
    var p := e.session.Incoming(f, raw);
    assert ResponderOk(s, e) && p.stateless == e.session.stateless;
    if p.ready {
      ReadyMeansOpened(e.session, f, raw);
      EstablishedOrigins(s, f, op, t, id, H.Entry(p.Session(), e.oneTime));
    } else {
      WaitingOrigins(s, f, op, t, id, H.Entry(p, e.oneTime));
    }
  }

  lemma CloseShrinks(s: H.State, id: H.SessionId, o: H.OneTimeId)
    ensures Shrinks(s, H.Close(s, id, o))
  {
  }

  lemma RecvFromShrinks(s: H.State, id: H.SessionId)
    ensures Shrinks(s, H.RecvFrom(s, id))
  {
  }

  lemma LocalShrinks(s: H.State, f: S.Formats, id: H.SessionId, l: H.Local)
    ensures Shrinks(s, H.RunLocal(s, f, id, l))
  {
  }

  lemma PollReadyShrinks(s: H.State, o: H.OneTimeId)
    ensures Shrinks(s, H.PollReady(s, o).0)
  {
  }

  lemma DropReadyShrinks(s: H.State, o: H.OneTimeId)
    ensures Shrinks(s, H.DropReady(s, o))
  {
  }

  lemma QuietShrinks(s: H.State, f: S.Formats, op: H.Op)
    requires op.OpClose? || op.OpRecvFrom? || op.OpLocal? || op.OpPollReady? || op.OpDropReady? || op.OpDropSession?
    ensures Shrinks(s, H.Apply(s, f, op))
  {
    match op
    case OpClose(id, o) => CloseShrinks(s, id, o);
    case OpRecvFrom(id) => RecvFromShrinks(s, id);
    case OpLocal(id, l) => LocalShrinks(s, f, id, l);
    case OpPollReady(o) => PollReadyShrinks(s, o);
    case OpDropReady(o) => DropReadyShrinks(s, o);
    case _ =>
  }

  lemma EstablishedShrinks(s: H.State, f: S.Formats, id: H.SessionId, raw: Option<S.RawMessage>)
    requires id in s.established
    ensures Shrinks(s, H.EstablishedIncoming(s, f, id, raw))
  {
  }

  lemma ApplyOrigins(s: H.State, f: S.Formats, op: H.Op)
    requires OwnInv(s)
    ensures Origins(s, f, op, H.Apply(s, f, op)) && OwnInv(H.Apply(s, f, op))
  {
    var t := H.Apply(s, f, op);
    match op
    case OpInitiate(id, remote, usable) => InitiateOrigins(s, f, id, remote, usable);
    case OpRespond(id, remote, usable) => RespondOrigins(s, f, id, remote, usable);
    case OpIncoming(src, id, raw) =>
      if id in s.pokers {
        PokerOrigins(s, f, src, id, raw);
      } else if id in s.initiators {
        InitiatorOrigins(s, f, src, id, raw);
      } else if id in s.responders {
        ResponderOrigins(s, f, src, id, raw);
      } else {
        if id in s.established { EstablishedShrinks(s, f, id, raw); }
        ShrinksOrigins(s, f, op, t);
      }
    case _ =>
      QuietShrinks(s, f, op);
      ShrinksOrigins(s, f, op, t);
  }

  // ----- What the tasks send -----

  /** An initiation made by this handler itself. */
  predicate OwnInitiation(s: H.State, i: Initiation) {
    i.Initiation? && i.from == s.key && i.ephemeral.owner == s.key && i.ephemeral.n < s.supply
  }

  /** A response of one of its responder entries. */
  predicate ResponseOf(s: H.State, r: Response) {
    r.Response? && r.from == s.key
    && exists id :: id in s.responders
                    && s.responders[id].session.stateless == Stateless(SessionKey(r.answered, r.ephemeral), Responding)
  }

  /** Each running task is an old one, or sends a poke, an own initiation or the response of an entry. */
  ghost predicate TaskOrigins(s: H.State, t: H.State) {
    forall h :: h in t.running ==>
      var packet := t.running[h].packet;
      || (h in s.running && s.running[h] == t.running[h])
      || packet == S.HandshakePoke
      || (packet.HandshakeInitiation? && OwnInitiation(t, packet.initiation))
      || (packet.HandshakeResponse? && ResponseOf(t, packet.response))
  }

  lemma FewerTasks(s: H.State, t: H.State)
    requires forall h :: h in t.running ==> h in s.running && s.running[h] == t.running[h]
    ensures TaskOrigins(s, t)
  {
  }

  lemma StartTasks(s: H.State, id: H.SessionId, remote: PublicKey, usable: bool)
    ensures TaskOrigins(s, H.Initiate(s, id, remote, usable)) && TaskOrigins(s, H.Respond(s, id, remote, usable))
  {
  }

  lemma PokerTasks(s: H.State, src: S.Addr, id: H.SessionId, raw: Option<S.RawMessage>)
    requires OwnInv(s) && id in s.pokers
    ensures TaskOrigins(s, H.PokerIncoming(s, src, id, raw))
  {
    var t := H.PokerIncoming(s, src, id, raw);
    assert PokerOk(s, s.pokers[id]);
    if raw.Some? && raw.value.HandshakeInitiation? {
      var answer := s.pokers[id].session.responder.Answer(raw.value.initiation, Ephemeral(s.key, s.supply));
      if answer.Some? {
        assert t.responders[id].session.stateless == Stateless(answer.value.0, Responding);
      }
    }
  }

  lemma InitiatorTasks(s: H.State, src: S.Addr, id: H.SessionId, raw: Option<S.RawMessage>)
    requires id in s.initiators
    ensures TaskOrigins(s, H.InitiatorIncoming(s, src, id, raw))
  {
    FewerTasks(s, H.InitiatorIncoming(s, src, id, raw));
  }

  lemma ResponderTasks(s: H.State, f: S.Formats, id: H.SessionId, raw: Option<S.RawMessage>)
    requires id in s.responders
    ensures TaskOrigins(s, H.ResponderIncoming(s, f, id, raw))
  {
    FewerTasks(s, H.ResponderIncoming(s, f, id, raw));
  }

  lemma IncomingTasks(s: H.State, f: S.Formats, src: S.Addr, id: H.SessionId, raw: Option<S.RawMessage>)
    requires OwnInv(s)
    ensures TaskOrigins(s, H.Incoming(s, f, src, id, raw))
  {
    if id in s.pokers {
      PokerTasks(s, src, id, raw);
    } else if id in s.initiators {
      InitiatorTasks(s, src, id, raw);
    } else if id in s.responders {
      ResponderTasks(s, f, id, raw);
    } else {
      FewerTasks(s, H.Incoming(s, f, src, id, raw));
    }
  }

  lemma ApplyTaskOrigins(s: H.State, f: S.Formats, op: H.Op)
    requires OwnInv(s)
    ensures TaskOrigins(s, H.Apply(s, f, op))
  {
    match op
    case OpInitiate(id, remote, usable) => StartTasks(s, id, remote, usable);
    case OpRespond(id, remote, usable) => StartTasks(s, id, remote, usable);
    case OpIncoming(src, id, raw) => IncomingTasks(s, f, src, id, raw);
    case _ => FewerTasks(s, H.Apply(s, f, op));
  }

  // ----- An undisturbed handshake -----

  /** The keepalive with which an established initiator confirms the handshake. */
  function FirstKeepalive(f: S.Formats, key: SessionKey): S.RawMessage {
    S.Encrypted(Packet(f.wire, Stateless(key, Initiating), 0, f.message.encode(S.Keepalive)))
  }

  lemma OpensAtPeer(f: S.Formats, key: SessionKey)
    requires f.Valid() && |f.message.encode(S.Keepalive)| <= S.BUFFER
    ensures S.Decrypt(f, Stateless(key, Responding), {}, FirstKeepalive(f, key).frame).1 == Some(S.Keepalive)
  {
    PacketParses(f.wire, Stateless(key, Initiating), 0, f.message.encode(S.Keepalive));
  }

  /** A poker that is handed an initiation for it answers, and its task sends the answer. */
  lemma PokerAnswers(b: H.State, id: H.SessionId, src: S.Addr, i: Initiation)
    requires id in b.pokers && PokerOk(b, b.pokers[id])
    requires i.Initiation? && i.from == b.pokers[id].session.responder.remote && i.to == b.key
    ensures var t := H.PokerIncoming(b, src, id, Some(S.HandshakeInitiation(i)));
            && id in t.responders && id !in t.pokers
            && t.responders[id]
               == H.Entry(S.ResponderState(b.supply + 1, src,
                            Stateless(SessionKey(i.ephemeral, Ephemeral(b.key, b.supply)), Responding), 0, {}, false),
                          b.pokers[id].oneTime)
            && b.supply + 1 in t.running
            && t.running[b.supply + 1].packet
               == S.HandshakeResponse(Response(i.ephemeral, Ephemeral(b.key, b.supply), b.key, i.from))
  {
  }

  /** A session that has just been made: alive, with nothing queued and nobody waiting. */
  predicate JustMade(s: S.SessionState, remoteAddr: S.Addr, st: Stateless) {
    && !s.dead && s.heartbeat && s.inbox == S.Inbox([], {}, {})
    && s.stateless == st && s.nextNonce == 0 && s.remoteAddr == remoteAddr
  }

  /** An initiator that is handed the answer to its initiation is established, and its future signalled. */
  lemma InitiatorConcludes(a: H.State, id: H.SessionId, src: S.Addr, r: Response)
    requires id in a.initiators && InitiatorOk(a, a.initiators[id])
    requires r.Response? && r.answered == a.initiators[id].session.initiator.ephemeral
    requires r.from == a.initiators[id].session.initiator.remote && r.to == a.key
    ensures var o := a.initiators[id].oneTime;
            var t := H.InitiatorIncoming(a, src, id, Some(S.HandshakeResponse(r)));
            && id in t.established && id !in t.initiators && t.established[id].oneTime == o
            && JustMade(t.established[id].session, src, Stateless(SessionKey(r.answered, r.ephemeral), Initiating))
            && t.established[id].session.seen == {}
            && (o in a.readies ==> t.readies[o].signals == a.readies[o].signals + 1)
            && a.initiators[id].session.handle !in t.running
            && id in H.RecvFrom(t, id).established
  {
  }

  /** Both sides were started under one id, each with the other's key, and the initiator's task is running. */
  predicate Meet(a: H.State, b: H.State, id: H.SessionId) {
    && id in a.initiators && InitiatorOk(a, a.initiators[id]) && a.initiators[id].session.initiator.remote == b.key
    && a.initiators[id].session.handle in a.running
    && a.running[a.initiators[id].session.handle].packet
       == S.HandshakeInitiation(a.initiators[id].session.initiator.InitiationMessage())
    && id in b.pokers && PokerOk(b, b.pokers[id]) && b.pokers[id].session.responder.remote == a.key
  }

  lemma StartedMeet(a: H.State, b: H.State, id: H.SessionId)
    ensures Meet(H.Initiate(a, id, b.key, true), H.Respond(b, id, a.key, true), id)
  {
  }

  /** The waiting side after it was handed the packet of the initiator's task. */
  function Answering(a: H.State, b: H.State, id: H.SessionId, src: S.Addr): (t: H.State)
    requires Meet(a, b, id)
    ensures id in t.responders && t.responders[id].session.handle in t.running
  {
    PokerAnswers(b, id, src, a.initiators[id].session.initiator.InitiationMessage());
    H.PokerIncoming(b, src, id, Some(a.running[a.initiators[id].session.handle].packet))
  }

  /** The initiator after it was handed the packet of the responder's task. */
  function Concluding(a: H.State, b: H.State, id: H.SessionId, src: S.Addr): H.State
    requires Meet(a, b, id)
  {
    var t := Answering(a, b, id, src);
    H.InitiatorIncoming(a, src, id, Some(t.running[t.responders[id].session.handle].packet))
  }

  /** When they meet, what their tasks send is all it takes to give both sides one key. */
  lemma HandshakeMakesOneKey(a: H.State, b: H.State, id: H.SessionId, src: S.Addr)
    requires Meet(a, b, id)
    ensures var answered, concluded := Answering(a, b, id, src), Concluding(a, b, id, src);
            var r := answered.responders[id].session;
            && id in concluded.established
            && r.stateless.role == Responding && r.seen == {} && r.nextNonce == 0 && !r.ready
            && r.remoteAddr == src
            && JustMade(concluded.established[id].session, src, Stateless(r.stateless.key, Initiating))
            && concluded.established[id].session.seen == {}
            && concluded.established[id].oneTime == a.initiators[id].oneTime
            && answered.responders[id].oneTime == b.pokers[id].oneTime
  {
    var i := a.initiators[id].session.initiator.InitiationMessage();
    PokerAnswers(b, id, src, i);
    InitiatorConcludes(a, id, src, Response(i.ephemeral, Ephemeral(b.key, b.supply), b.key, a.key));
  }

  /** A live session made from a responder that let exactly the keepalive under nonce 0 through. */
  predicate GoesLive(was: S.ResponderState, now: S.SessionState, key: SessionKey) {
    && !now.dead && now.heartbeat && now.inbox == S.Inbox([], {}, {})
    && now.stateless == Stateless(key, Responding) && now.seen == {0}
    && now.nextNonce == was.nextNonce && now.remoteAddr == was.remoteAddr
  }

  /**
   And the first keepalive of the initiator then establishes the responder: a live session with the
   same transport, whose window has let exactly that keepalive through, and a signalled future.
   */
  lemma KeepaliveConfirms(f: S.Formats, b: H.State, id: H.SessionId, key: SessionKey)
    requires f.Valid() && |f.message.encode(S.Keepalive)| <= S.BUFFER
    requires id in b.responders && b.responders[id].session.stateless == Stateless(key, Responding)
    requires b.responders[id].session.seen == {}
    ensures var t := H.ResponderIncoming(b, f, id, Some(FirstKeepalive(f, key)));
            var was := b.responders[id].session;
            && id in t.established && t.established[id].oneTime == b.responders[id].oneTime
            && id !in t.responders && was.handle !in t.running
            && GoesLive(was, t.established[id].session, key)
            && (b.responders[id].oneTime in b.readies ==>
                  t.readies[b.responders[id].oneTime].signals == b.readies[b.responders[id].oneTime].signals + 1)
            && id in H.RecvFrom(t, id).established
  {
    OpensAtPeer(f, key);
    PacketParses(f.wire, Stateless(key, Initiating), 0, f.message.encode(S.Keepalive));
    R.SizeOneOffer({}, 0);
  }

  // ----- And then they talk -----

  predicate Sends(f: S.Formats, s: S.SessionState, m: S.Message) {
    S.Write(f, s, m).1.Out?
  }

  /** What the other side decodes of the packet that this write enqueues. */
  function Sent(f: S.Formats, id: H.SessionId, s: S.SessionState, m: S.Message): Option<S.RawMessage>
    requires Sends(f, s, m)
  {
    f.raw.decode(S.Envelope(f, id, S.Write(f, s, m).1.frame).data)
  }

  lemma FirstKeepaliveIsSent(f: S.Formats, id: H.SessionId, s: S.SessionState, key: SessionKey)
    requires f.Valid() && s.stateless == Stateless(key, Initiating) && s.nextNonce == 0 && Sends(f, s, S.Keepalive)
    ensures Sent(f, id, s, S.Keepalive) == Some(FirstKeepalive(f, key))
    ensures |f.message.encode(S.Keepalive)| <= S.BUFFER
  {
    assert |f.message.encode(S.Keepalive)| + TAG <= |f.wire.ciphers.encode(Seal(s.stateless, 0, f.message.encode(S.Keepalive)))|;
  }

  /**
   From the two tasks to a conversation. Two sides that meet, and hand each other only what their
   tasks and sessions send, end up with two live sessions, and the first message of each side is
   what the other side's queue then holds.
   */
  lemma TalkAfterHandshake(f: S.Formats, a: H.State, b: H.State, id: H.SessionId, src: S.Addr, x: Bytes, y: Bytes)
    requires f.Valid() && Meet(a, b, id)
    requires var concluded := Concluding(a, b, id, src);
             id in concluded.established ==> Sends(f, concluded.established[id].session, S.Keepalive)
    ensures var answered, concluded := Answering(a, b, id, src), Concluding(a, b, id, src);
            && id in concluded.established
            && var s := concluded.established[id].session;
               var confirmed := H.ResponderIncoming(answered, f, id, Sent(f, id, s, S.Keepalive));
               && id in confirmed.established && id in H.RecvFrom(confirmed, id).established
               && var s', t := S.Write(f, s, S.Keepalive).0, confirmed.established[id].session;
                  && (Sends(f, s', S.Payload(x)) ==> S.Incoming(f, t, Sent(f, id, s', S.Payload(x))).0.inbox.queue == [x])
                  && (Sends(f, t, S.Payload(y)) ==> S.Incoming(f, s', Sent(f, id, t, S.Payload(y))).0.inbox.queue == [y])
  {
    HandshakeMakesOneKey(a, b, id, src);
    var answered, concluded := Answering(a, b, id, src), Concluding(a, b, id, src);
    var s, key := concluded.established[id].session, answered.responders[id].session.stateless.key;
    FirstKeepaliveIsSent(f, id, s, key);
    KeepaliveConfirms(f, answered, id, key);
    FirstWords(f, id, s, answered.responders[id].session,
               H.ResponderIncoming(answered, f, id, Some(FirstKeepalive(f, key))).established[id].session, key, src, x, y);
  }

  lemma FirstWords(f: S.Formats, id: H.SessionId, s: S.SessionState, was: S.ResponderState, t: S.SessionState, key: SessionKey,
                   src: S.Addr, x: Bytes, y: Bytes)
    requires f.Valid() && JustMade(s, src, Stateless(key, Initiating)) && s.seen == {}
    requires GoesLive(was, t, key) && was.nextNonce == 0
    ensures var s' := S.Write(f, s, S.Keepalive).0;
            && (Sends(f, s', S.Payload(x)) ==> S.Incoming(f, t, Sent(f, id, s', S.Payload(x))).0.inbox.queue == [x])
            && (Sends(f, t, S.Payload(y)) ==> S.Incoming(f, s', Sent(f, id, t, S.Payload(y))).0.inbox.queue == [y])
  {
    var s' := S.Write(f, s, S.Keepalive).0;
    L.WriteIff(f, s, S.Keepalive);
    assert L.Ready(s', t) && L.Ready(t, s');
    if Sends(f, s', S.Payload(x)) { L.PayloadArrives(f, id, s', x, t); }
    if Sends(f, t, S.Payload(y)) { L.PayloadArrives(f, id, t, y, s'); }
  }
}
