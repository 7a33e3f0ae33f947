/**
 What each operation of the handler means for its user (src/handler.rs): which packets change
 what, what a refused handshake message leaves behind, when a future resolves, and which session
 a receive drops.
 */
module HandlerLaws {
  import opened Common
  import opened SnowTypes
  import opened Handler
  import opened HandlerProofs
  import L = SessionLaws
  import S = Session

  // ----- Starting and closing -----

  /**
   Starting a session replaces whatever had its id, and leaves the other ids alone. What it starts
   is the one entry of that id, new, with a future nobody has signalled; on refused keys there is none.
   */
  lemma StartReplaces(s: State, id: SessionId, remote: PublicKey, usable: bool)
    ensures var t := Initiate(s, id, remote, usable);
            && (forall i :: i != id ==> SameAt(s, t, i))
            && (forall o: OneTimeId :: Holds(t, id, o) <==> usable && o == s.supply + 2)
            && (usable ==> id in t.initiators && s.supply + 2 in t.readies && t.readies[s.supply + 2] == Ready(id, 0, false, false))
            && t.closing == s.closing
    ensures var t := Respond(s, id, remote, usable);
            && (forall i :: i != id ==> SameAt(s, t, i))
            && (forall o: OneTimeId :: Holds(t, id, o) <==> usable && o == s.supply + 1)
            && (usable ==> id in t.pokers && s.supply + 1 in t.readies && t.readies[s.supply + 1] == Ready(id, 0, false, false))
            && t.closing == s.closing
  {
    InitiateReplaces(s, id, remote, usable);
    RespondReplaces(s, id, remote, usable);
  }

  lemma InitiateReplaces(s: State, id: SessionId, remote: PublicKey, usable: bool)
    ensures var t := Initiate(s, id, remote, usable);
            && (forall i :: i != id ==> SameAt(s, t, i))
            && (forall o: OneTimeId :: Holds(t, id, o) <==> usable && o == s.supply + 2)
            && (usable ==> id in t.initiators && s.supply + 2 in t.readies && t.readies[s.supply + 2] == Ready(id, 0, false, false))
            && t.closing == s.closing
  {
    RemoveLineage(s, id, None);
  }

  lemma RespondReplaces(s: State, id: SessionId, remote: PublicKey, usable: bool)
    ensures var t := Respond(s, id, remote, usable);
            && (forall i :: i != id ==> SameAt(s, t, i))
            && (forall o: OneTimeId :: Holds(t, id, o) <==> usable && o == s.supply + 1)
            && (usable ==> id in t.pokers && s.supply + 1 in t.readies && t.readies[s.supply + 1] == Ready(id, 0, false, false))
            && t.closing == s.closing
  {
    RemoveLineage(s, id, None);
  }

  /** A close that nobody asked for does nothing. */
  lemma UnaskedCloseIgnored(s: State, id: SessionId, o: OneTimeId)
    requires (id, o) !in s.closing
    ensures Close(s, id, o) == s
  {
  }

  // ----- Packets -----

  /** Nothing of the handler changes by a packet for an id that it does not have. */
  lemma UnknownIdIgnored(s: State, f: S.Formats, src: S.Addr, id: SessionId, raw: Option<S.RawMessage>)
    requires id !in s.pokers && id !in s.initiators && id !in s.responders && id !in s.established
    ensures Incoming(s, f, src, id, raw) == s
  {
  }

  /** A poker minds initiations only, an initiator responses only. */
  lemma OtherMessagesIgnored(s: State, f: S.Formats, src: S.Addr, id: SessionId, raw: Option<S.RawMessage>)
    requires id in s.pokers ==>
               s.pokers[id].session.workingRemoteAddr.None? && !(raw.Some? && raw.value.HandshakeInitiation?)
    requires id !in s.pokers ==>
               id in s.initiators
               && s.initiators[id].session.workingRemoteAddr.None? && !(raw.Some? && raw.value.HandshakeResponse?)
    ensures Incoming(s, f, src, id, raw) == s
  {
    if id in s.pokers {
      var e := s.pokers[id];
      L.PokerTakesInitiation(e.session, src, raw);
      assert s.pokers[id := e] == s.pokers;
    } else {
      var e := s.initiators[id];
      L.InitiatorTakesResponse(e.session, src, raw);
      assert s.initiators[id := e] == s.initiators;
    }
  }

  /** An initiation that is not for it ends a poker: entry and task are gone, and nothing has come of it. */
  lemma RefusedInitiation(s: State, f: S.Formats, src: S.Addr, id: SessionId, i: Initiation)
    requires id in s.pokers && s.pokers[id].session.responder.Answer(i, Ephemeral(s.key, s.supply)).None?
    ensures var t := Incoming(s, f, src, id, Some(S.HandshakeInitiation(i)));
            && t.pokers == s.pokers - {id} && t.running == s.running - {s.pokers[id].session.handle}
            && t.initiators == s.initiators && t.responders == s.responders && t.established == s.established
            && t.readies == s.readies && t.closing == s.closing
  {
  }

  /** A response that is not for it leaves an initiator as it was, but with its task stopped. */
  lemma RefusedResponse(s: State, f: S.Formats, src: S.Addr, id: SessionId, r: Response)
    requires id !in s.pokers && id in s.initiators && s.initiators[id].session.workingRemoteAddr.None?
    requires s.initiators[id].session.initiator.ReceiveResponse(r).None?
    ensures Incoming(s, f, src, id, Some(S.HandshakeResponse(r)))
         == s.(running := s.running - {s.initiators[id].session.handle})
  {
    var e := s.initiators[id];
    assert s.initiators[id := e] == s.initiators;
  }

  /** A waiting responder that is given no keepalive waits on, and at most its window moves. */
  lemma ResponderWaits(s: State, f: S.Formats, src: S.Addr, id: SessionId, raw: Option<S.RawMessage>)
    requires id !in s.pokers && id !in s.initiators && id in s.responders && !s.responders[id].session.ready
    requires L.Brings(f, s.responders[id].session.stateless, s.responders[id].session.seen, raw) != Some(S.Keepalive)
    ensures var t := Incoming(s, f, src, id, raw);
            && id in t.responders
            && t == s.(responders := s.responders[id := t.responders[id]])
            && t.responders[id].oneTime == s.responders[id].oneTime
            && t.responders[id].session == s.responders[id].session.(seen := t.responders[id].session.seen)
  {
    L.ResponderReadyIff(f, s.responders[id].session, raw);
  }

  /**
   A packet for an established session: the payload it brings, and nothing else, joins the queue,
   a keepalive sets the flag, and neither the rest of the session nor of the handler changes.
   */
  lemma EstablishedReceives(s: State, f: S.Formats, src: S.Addr, id: SessionId, raw: Option<S.RawMessage>)
    requires id !in s.pokers && id !in s.initiators && id !in s.responders && id in s.established
    ensures var t := Incoming(s, f, src, id, raw);
            var was := s.established[id].session;
            var brought := L.Brings(f, was.stateless, was.seen, raw);
            && id in t.established && t == s.(established := s.established[id := t.established[id]])
            && t.established[id].oneTime == s.established[id].oneTime
            && var now := t.established[id].session;
               && now.inbox.queue == was.inbox.queue + (if brought.Some? && brought.value.Payload? then [brought.value.data] else [])
               && (now.heartbeat <==> was.heartbeat || brought == Some(S.Keepalive))
               && now == was.(heartbeat := now.heartbeat, inbox := now.inbox, seen := now.seen)
  {
    L.IncomingIff(f, s.established[id].session, raw);
  }

  /** So a payload that is handed to the handler is what the next receiver gets. */
  lemma PayloadIsReturned(s: State, f: S.Formats, src: S.Addr, id: SessionId, raw: Option<S.RawMessage>, data: Bytes, r: nat)
    requires id !in s.pokers && id !in s.initiators && id !in s.responders && id in s.established
    requires var was := s.established[id].session;
             was.inbox.queue == [] && !was.dead && L.Brings(f, was.stateless, was.seen, raw) == Some(S.Payload(data))
    ensures var t := Incoming(s, f, src, id, raw);
            && id in t.established
            && S.Poll(t.established[id].session.inbox, t.established[id].session.dead, r).1 == S.Value(data)
            && RunLocal(t, f, id, Poll(r)).established[id].session.inbox.queue == []
  {
    EstablishedReceives(s, f, src, id, raw);
    var now := Incoming(s, f, src, id, raw).established[id].session;
    L.PollAnswers(now.inbox, now.dead, r);
  }

  // ----- An established session on its own -----

  /** A write moves the counter by one, a tick of the monitor only its flags, a poll only the queue and wakers. */
  lemma LocalIff(s: State, f: S.Formats, id: SessionId, l: Local)
    requires id in s.established
    ensures var t := RunLocal(s, f, id, l);
            && id in t.established && t == s.(established := s.established[id := t.established[id]])
            && t.established[id].oneTime == s.established[id].oneTime
            && var was, now := s.established[id].session, t.established[id].session;
               match l
               case WriteMessage(_) => now == was.(nextNonce := (was.nextNonce + 1) % U64)
               case Monitor => (now.dead <==> was.dead || !was.heartbeat) && !now.heartbeat
               case Poll(r) =>
                 && now == was.(inbox := now.inbox)
                 && now.inbox.queue == (if was.dead || was.inbox.queue == [] then was.inbox.queue else was.inbox.queue[1..])
  {
    var was := s.established[id].session;
    match l
    case WriteMessage(m) => L.WriteIff(f, was, m);
    case Monitor => L.MonitorIff(was);
    case Poll(r) => L.PollAnswers(was.inbox, was.dead, r);
  }

  /** A receive drops the session exactly when it is dead, and changes nothing else. */
  lemma RecvFromIff(s: State, id: SessionId)
    ensures var t := RecvFrom(s, id);
            && (id in t.established <==> id in s.established && !s.established[id].session.dead)
            && t == s.(established := t.established)
            && t.established == (if id in t.established then s.established else s.established - {id})
  {
  }

  /** Two ticks without a keepalive, and the next receive drops the session; a keepalive in between saves it. */
  lemma SilentSessionIsDropped(s: State, f: S.Formats, src: S.Addr, id: SessionId, raw: Option<S.RawMessage>)
    requires id !in s.pokers && id !in s.initiators && id !in s.responders && id in s.established
    requires !s.established[id].session.dead && s.established[id].session.heartbeat
    ensures var once := RunLocal(s, f, id, Monitor);
            && id !in RecvFrom(RunLocal(once, f, id, Monitor), id).established
            && id in once.established
            && var now := once.established[id].session;
               L.Brings(f, now.stateless, now.seen, raw) == Some(S.Keepalive) ==>
                 id in RecvFrom(RunLocal(Incoming(once, f, src, id, raw), f, id, Monitor), id).established
  {
    var once := RunLocal(s, f, id, Monitor);
    LocalIff(s, f, id, Monitor);
    LocalIff(once, f, id, Monitor);
    EstablishedReceives(once, f, src, id, raw);
    LocalIff(Incoming(once, f, src, id, raw), f, id, Monitor);
    RecvFromIff(RunLocal(once, f, id, Monitor), id);
    RecvFromIff(RunLocal(Incoming(once, f, src, id, raw), f, id, Monitor), id);
  }

  // ----- Futures -----

  /** A poll resolves exactly with an unread signal; without one it leaves its waker. */
  lemma PollReadyIff(s: State, o: OneTimeId)
    requires o in s.readies
    ensures var (t, resolved) := PollReady(s, o);
            var r := s.readies[o];
            && (resolved <==> r.signals > 0)
            && t == s.(readies := s.readies[o := t.readies[o]])
            && t.readies[o] == (if resolved then r.(signals := r.signals - 1, completed := true) else r.(addedWaker := true))
  {
  }

  /** In every run a future resolves only when its own incarnation was established. */
  lemma {:induction false} ResolvesOnlyEstablished(key: PublicKey, f: S.Formats, ops: seq<Op>, o: OneTimeId)
    requires PollReady(Run(key, f, ops), o).1
    ensures WasEstablished(key, f, ops, o)
  {
    PollReadyIff(Run(key, f, ops), o);
    ReadyMeansEstablished(key, f, ops, o);
  }
}
