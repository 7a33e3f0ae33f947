/**
 What the handshake tasks send (src/session.rs, src/handler.rs): over whole runs, each running task
 repeats the packet of the very entry it belongs to.
 */
module Retransmits {
  import opened Common
  import opened SnowTypes
  import opened Handler
  import opened HandlerProofs
  import L = SessionLaws
  import O = Handshake
  import S = Session

  /** The packet belongs to the pending entry of this id: a poke, its response, or its initiation. */
  predicate Says(s: State, id: SessionId, packet: S.RawMessage) {
    if id in s.pokers then packet == S.HandshakePoke
    else if id in s.responders then
      && packet.HandshakeResponse? && packet.response.Response? && packet.response.from == s.key
      && s.responders[id].session.stateless
         == Stateless(SessionKey(packet.response.answered, packet.response.ephemeral), Responding)
    else
      id in s.initiators && packet == S.HandshakeInitiation(s.initiators[id].session.initiator.InitiationMessage())
  }

  ghost predicate TasksSay(s: State) {
    forall h :: h in s.running ==> Says(s, s.running[h].id, s.running[h].packet)
  }

  /** Only the tasks of one id can change, and what they send fits its entry. */
  lemma OnlyOneSays(s: State, t: State, id: SessionId)
    requires TasksSay(s) && t.key == s.key && forall i :: i != id ==> SameAt(s, t, i)
    requires forall h :: h in t.running && t.running[h].id != id ==> h in s.running && s.running[h] == t.running[h]
    requires forall h :: h in t.running && t.running[h].id == id ==> Says(t, id, t.running[h].packet)
    ensures TasksSay(t)
  {
    forall h | h in t.running ensures Says(t, t.running[h].id, t.running[h].packet) {
      if t.running[h].id != id {
        assert Says(s, s.running[h].id, s.running[h].packet) && SameAt(s, t, s.running[h].id);
      }
    }
  }

  lemma RemoveSays(s: State, id: SessionId, oneTime: Option<OneTimeId>)
    requires Exclusive(s) && TasksOk(s) && TasksSay(s)
    ensures TasksSay(Remove(s, id, oneTime))
  {
    var t := Remove(s, id, oneTime);
    RemoveSlots(s, id, oneTime);
    forall h | h in t.running ensures Says(t, t.running[h].id, t.running[h].packet) {
      assert Says(s, s.running[h].id, s.running[h].packet);
      if s.running[h].id == id {
        assert SlotOf(s, id).handle == h && h !in Aborted(s, id, oneTime);
      }
    }
  }

  /** After everything of an id is removed, no task is left for it. */
  lemma ClearedIsQuiet(s: State, id: SessionId)
    requires Exclusive(s) && TasksOk(s)
    ensures forall h :: h in Remove(s, id, None).running ==> Remove(s, id, None).running[h].id != id
  {
    RemoveTasks(s, id, None);
  }

  lemma NewInitiatorSays(s: State, t: State, id: SessionId, e: Entry<S.InitiatorState>)
    requires TasksSay(s) && t.key == s.key && id !in s.pokers && id !in s.responders
    requires forall h :: h in s.running ==> s.running[h].id != id
    requires t.pokers == s.pokers && t.responders == s.responders && t.established == s.established
    requires t.initiators == s.initiators[id := e]
    requires t.running == s.running[e.session.handle :=
               Retransmit(id, S.HandshakeInitiation(e.session.initiator.InitiationMessage()), e.oneTime)]
    ensures TasksSay(t)
  {
    OnlyOneSays(s, t, id);
  }

  lemma InitiateSays(s: State, id: SessionId, remote: PublicKey, usable: bool)
    requires Exclusive(s) && TasksOk(s) && TasksSay(s)
    ensures TasksSay(Initiate(s, id, remote, usable))
  {
    var t := Initiate(s, id, remote, usable);
    RemoveSays(s, id, None);
    ClearedIsQuiet(s, id);
    if usable {
      NewInitiatorSays(Remove(s, id, None), t, id, t.initiators[id]);
    }
  }

  lemma RespondSays(s: State, id: SessionId, remote: PublicKey, usable: bool)
    requires Exclusive(s) && TasksOk(s) && TasksSay(s)
    ensures TasksSay(Respond(s, id, remote, usable))
  {
    var cleared, t := Remove(s, id, None), Respond(s, id, remote, usable);
    RemoveSays(s, id, None);
    ClearedIsQuiet(s, id);
    if usable {
      OnlyOneSays(cleared, t, id);
    }
  }

  /** The tasks of an id are the one task of its slot. */
  lemma OneTask(s: State, id: SessionId, h: TaskId)
    requires TasksOk(s) && h in s.running && s.running[h].id == id
    ensures SlotOf(s, id).Taken? && SlotOf(s, id).handle == h
  {
  }

  /** An entry goes on with its task, or without it. */
  lemma GoesOnSays(s: State, t: State, id: SessionId)
    requires TasksSay(s) && t.key == s.key && forall i :: i != id ==> SameAt(s, t, i)
    requires forall h :: h in t.running ==> h in s.running && s.running[h] == t.running[h]
    requires forall packet :: Says(s, id, packet) ==> Says(t, id, packet)
    ensures TasksSay(t)
  {
    OnlyOneSays(s, t, id);
  }

  /** An entry goes and its task with it. */
  lemma GoneSays(s: State, t: State, id: SessionId)
    requires TasksOk(s) && TasksSay(s) && t.key == s.key && forall i :: i != id ==> SameAt(s, t, i)
    requires SlotOf(s, id).Taken? && t.running == s.running - {SlotOf(s, id).handle}
    ensures TasksSay(t)
  {
    forall h | h in t.running ensures t.running[h].id != id {
      if s.running[h].id == id { OneTask(s, id, h); }
    }
    OnlyOneSays(s, t, id);
  }

  /** An entry gets a new task in place of its old one. */
  lemma AnsweredSays(s: State, t: State, id: SessionId, n: TaskId, packet: S.RawMessage)
    requires TasksOk(s) && TasksSay(s) && t.key == s.key && forall i :: i != id ==> SameAt(s, t, i)
    requires SlotOf(s, id).Taken? && Says(t, id, packet)
    requires exists o :: t.running == (s.running - {SlotOf(s, id).handle})[n := Retransmit(id, packet, o)]
    ensures TasksSay(t)
  {
    forall h | h in t.running && t.running[h].id == id ensures Says(t, id, t.running[h].packet) {
      if h != n { OneTask(s, id, h); }
    }
    OnlyOneSays(s, t, id);
  }

  lemma NewResponderSays(s: State, t: State, id: SessionId, e: Entry<S.ResponderState>, r: Response)
    requires Exclusive(s) && TasksOk(s) && TasksSay(s) && id in s.pokers && t.key == s.key
    requires t.pokers == s.pokers - {id} && t.initiators == s.initiators && t.established == s.established
    requires t.responders == s.responders[id := e]
    requires r.Response? && r.from == s.key && e.session.stateless == Stateless(SessionKey(r.answered, r.ephemeral), Responding)
    requires t.running == (s.running - {s.pokers[id].session.handle})[e.session.handle :=
               Retransmit(id, S.HandshakeResponse(r), e.oneTime)]
    ensures TasksSay(t)
  {
    AnsweredSays(s, t, id, e.session.handle, S.HandshakeResponse(r));
  }

  lemma DroppedPokerSays(s: State, t: State, id: SessionId)
    requires Exclusive(s) && TasksOk(s) && TasksSay(s) && id in s.pokers && t.key == s.key
    requires t.pokers == s.pokers - {id} && t.initiators == s.initiators && t.established == s.established
    requires t.responders == s.responders && t.running == s.running - {s.pokers[id].session.handle}
    ensures TasksSay(t)
  {
    GoneSays(s, t, id);
  }

  lemma PokerReadySays(s: State, id: SessionId, o: OneTimeId, p: S.PokerState, src: S.Addr, i: Initiation)
    requires Exclusive(s) && TasksOk(s) && TasksSay(s) && id in s.pokers
    requires p.handle == s.pokers[id].session.handle && p.responder.own == s.key
    ensures TasksSay(PokerReady(s, id, o, p, src, i))
  {
    var t, n := PokerReady(s, id, o, p, src, i), s.supply;
    match p.responder.Answer(i, Ephemeral(s.key, n))
    case None => DroppedPokerSays(s, t, id);
    case Some((key, response)) => NewResponderSays(s, t, id, t.responders[id], response);
  }

  lemma PokerSays(s: State, src: S.Addr, id: SessionId, raw: Option<S.RawMessage>)
    requires Exclusive(s) && TasksOk(s) && TasksSay(s) && id in s.pokers && s.pokers[id].session.responder.own == s.key
    ensures TasksSay(PokerIncoming(s, src, id, raw))
  {
    var e := s.pokers[id];
    var p := e.session.Incoming(src, raw);
    if p.IsReady() {
      PokerReadySays(s, id, e.oneTime, p, p.workingRemoteAddr.value.0, p.workingRemoteAddr.value.1);
    } else {
      GoesOnSays(s, s.(pokers := s.pokers[id := Entry(p, e.oneTime)]), id);
    }
  }

  lemma InitiatorReadySays(s: State, id: SessionId, o: OneTimeId, p: S.InitiatorState, src: S.Addr, r: Response)
    requires Exclusive(s) && TasksOk(s) && TasksSay(s) && id in s.initiators
    requires p.handle == s.initiators[id].session.handle && p.initiator == s.initiators[id].session.initiator
    ensures TasksSay(InitiatorReady(s, id, o, p, src, r))
  {
    var t := InitiatorReady(s, id, o, p, src, r);
    assert forall j :: j != id ==> SameAt(s, t, j);
    GoneSays(s, t, id);
  }

  lemma InitiatorSays(s: State, src: S.Addr, id: SessionId, raw: Option<S.RawMessage>)
    requires Exclusive(s) && TasksOk(s) && TasksSay(s) && id in s.initiators
    ensures TasksSay(InitiatorIncoming(s, src, id, raw))
  {
    var e := s.initiators[id];
    var p := e.session.Incoming(src, raw);
    if p.IsReady() {
      InitiatorReadySays(s, id, e.oneTime, p, p.workingRemoteAddr.value.0, p.workingRemoteAddr.value.1);
    } else {
      GoesOnSays(s, s.(initiators := s.initiators[id := Entry(p, e.oneTime)]), id);
    }
  }

  lemma ConfirmedSays(s: State, t: State, id: SessionId)
    requires Exclusive(s) && TasksOk(s) && TasksSay(s) && id in s.responders && t.key == s.key
    requires t.pokers == s.pokers && t.initiators == s.initiators && t.responders == s.responders - {id}
    requires id in t.established && t.established == s.established[id := t.established[id]]
    requires t.running == s.running - {s.responders[id].session.handle}
    ensures TasksSay(t)
  {
    GoneSays(s, t, id);
  }

  lemma ResponderSays(s: State, f: S.Formats, id: SessionId, raw: Option<S.RawMessage>)
    requires Exclusive(s) && TasksOk(s) && TasksSay(s) && id in s.responders
    ensures TasksSay(ResponderIncoming(s, f, id, raw))
  {
    var e := s.responders[id];
    var p := e.session.Incoming(f, raw);
    L.ResponderReadyIff(f, e.session, raw);
    if p.ready {
      ConfirmedSays(s, ResponderIncoming(s, f, id, raw), id);
    } else {
      GoesOnSays(s, s.(responders := s.responders[id := Entry(p, e.oneTime)]), id);
    }
  }

  lemma IncomingSays(s: State, f: S.Formats, src: S.Addr, id: SessionId, raw: Option<S.RawMessage>)
    requires Exclusive(s) && TasksOk(s) && TasksSay(s) && O.OwnInv(s)
    ensures TasksSay(Incoming(s, f, src, id, raw))
  {
    if id in s.pokers {
      assert O.PokerOk(s, s.pokers[id]);
      PokerSays(s, src, id, raw);
    } else if id in s.initiators {
      InitiatorSays(s, src, id, raw);
    } else if id in s.responders {
      ResponderSays(s, f, id, raw);
    } else if id in s.established {
      QuietSays(s, EstablishedIncoming(s, f, id, raw));
    }
  }

  lemma ApplySays(s: State, f: S.Formats, op: Op)
    requires Exclusive(s) && TasksOk(s) && TasksSay(s) && O.OwnInv(s)
    ensures TasksSay(Apply(s, f, op))
  {
    match op
    case OpInitiate(id, remote, usable) => InitiateSays(s, id, remote, usable);
    case OpRespond(id, remote, usable) => RespondSays(s, id, remote, usable);
    case OpIncoming(src, id, raw) => IncomingSays(s, f, src, id, raw);
    case OpClose(id, o) =>
      RemoveSays(s, id, Some(o));
      if (id, o) in s.closing { QuietSays(Remove(s, id, Some(o)), Close(s, id, o)); }
    case OpRecvFrom(id) => QuietSays(s, RecvFrom(s, id));
    case OpLocal(id, l) => QuietSays(s, RunLocal(s, f, id, l));
    case _ => FutureOpSays(s, f, op);
  }

  /** Established sessions and futures have no say in it. */
  lemma QuietSays(s: State, t: State)
    requires TasksSay(s) && t.key == s.key && t.running == s.running
    requires t.pokers == s.pokers && t.initiators == s.initiators && t.responders == s.responders
    ensures TasksSay(t)
  {
  }

  lemma FutureOpSays(s: State, f: S.Formats, op: Op)
    requires TasksSay(s) && (op.OpPollReady? || op.OpDropReady? || op.OpDropSession?)
    ensures TasksSay(Apply(s, f, op))
  {
    QuietSame(s, f, op);
    QuietSays(s, Apply(s, f, op));
  }

  /**
   In every run each running handshake task sends the packet of its own entry: a poker's pokes, an
   initiator's sends its very initiation, and a responder's the response its transport was made with.
   */
  lemma {:induction false} TasksSendTheirOwn(key: PublicKey, f: S.Formats, ops: seq<Op>)
    ensures TasksSay(Run(key, f, ops)) && O.OwnInv(Run(key, f, ops))
  {
    if ops != [] {
      var before := ops[..|ops| - 1];
      TasksSendTheirOwn(key, f, before);
      RunInv(key, f, before);
      O.ApplyOrigins(Run(key, f, before), f, ops[|ops| - 1]);
      ApplySays(Run(key, f, before), f, ops[|ops| - 1]);
    }
  }
}
