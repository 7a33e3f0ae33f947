/**
 The handler as an object (src/handler.rs): four maps that every operation takes entries out of
 and puts entries back into, step by step, proved against the functions of `Handler`. An entry
 is moved out of a map by value, as the original moves it.
 */
module HandlerObject {
  import opened Common
  import opened SnowTypes
  import H = Handler
  import P = HandlerProofs
  import S = Session

  lemma MinusInSteps<K, V>(m: map<K, V>, a: set<K>, b: set<K>, c: set<K>)
    ensures m - a - b - c == m - (a + b + c)
  {
  }

  class Handler {
    const formats: S.Formats
    const key: PublicKey
    var pokers: map<H.SessionId, H.Entry<S.PokerState>>
    var initiators: map<H.SessionId, H.Entry<S.InitiatorState>>
    var responders: map<H.SessionId, H.Entry<S.ResponderState>>
    var established: map<H.SessionId, H.Entry<S.SessionState>>
    var running: map<H.TaskId, H.Retransmit>
    var readies: map<H.OneTimeId, H.Ready>
    var closing: set<(H.SessionId, H.OneTimeId)>
    var supply: nat
    /** The operations so far. */
    ghost var history: seq<H.Op>

    /** The handler is where its operations, run as specified, have brought it. */
    ghost predicate Valid()
      reads this
    {
      State() == H.Run(key, formats, history)
    }

    function State(): H.State
      reads this
    {
      H.State(key, pokers, initiators, responders, established, running, readies, closing, supply)
    }

    constructor (formats: S.Formats, key: PublicKey)
      ensures Valid() && history == [] && State() == H.Init(key) && this.formats == formats
    {
      this.formats, this.key := formats, key;
      pokers, initiators, responders, established := map[], map[], map[], map[];
      running, readies, closing, supply := map[], map[], {}, 0;
      history := [];
    }

    /** What every run keeps holds of the object. */
    lemma Keeps()
      requires Valid()
      ensures P.Inv(State())
    {
      P.RunInv(key, formats, history);
    }

    method Fresh() returns (n: nat)
      modifies `supply
      ensures n == old(supply) && supply == n + 1
    {
      n := supply;
      supply := n + 1;
    }

    // ----- Starting and closing -----

    method RemoveEstablished(id: H.SessionId, oneTime: Option<H.OneTimeId>)
      modifies `established
      ensures established == H.Without(old(established), id, oneTime)
    {
      if id in established && H.Names(oneTime, established[id].oneTime) {
        established := established - {id};
      }
    }

    method RemoveResponder(id: H.SessionId, oneTime: Option<H.OneTimeId>)
      modifies `responders, `running
      ensures responders == H.Without(old(responders), id, oneTime)
      ensures running == old(running) - H.ResponderTask(old(State()), id, oneTime)
    {
      if id in responders && H.Names(oneTime, responders[id].oneTime) {
        var removed := responders[id].session;
        responders := responders - {id};
        running := running - {removed.handle};
      }
    }

    method RemovePoker(id: H.SessionId, oneTime: Option<H.OneTimeId>)
      modifies `pokers, `running
      ensures pokers == H.Without(old(pokers), id, oneTime)
      ensures running == old(running) - H.PokerTask(old(State()), id, oneTime)
    {
      if id in pokers && H.Names(oneTime, pokers[id].oneTime) {
        var removed := pokers[id].session;
        pokers := pokers - {id};
        running := running - {removed.handle};
      }
    }

    method RemoveInitiator(id: H.SessionId, oneTime: Option<H.OneTimeId>)
      modifies `initiators, `running
      ensures initiators == H.Without(old(initiators), id, oneTime)
      ensures running == old(running) - H.InitiatorTask(old(State()), id, oneTime)
    {
      if id in initiators && H.Names(oneTime, initiators[id].oneTime) {
        var removed := initiators[id].session;
        initiators := initiators - {id};
        running := running - {removed.handle};
      }
    }

    /** The four maps one after the other; the task of a pending entry is aborted. */
    method RemoveSession(id: H.SessionId, oneTime: Option<H.OneTimeId>)
      modifies `pokers, `initiators, `responders, `established, `running
      ensures State() == H.Remove(old(State()), id, oneTime)
    {
      RemoveEstablished(id, oneTime);
      RemoveResponder(id, oneTime);
      RemovePoker(id, oneTime);
      RemoveInitiator(id, oneTime);
      ghost var before := old(State());
      MinusInSteps(before.running, H.ResponderTask(before, id, oneTime), H.PokerTask(before, id, oneTime), H.InitiatorTask(before, id, oneTime));
    }

    method StartInitiator(id: H.SessionId, remote: PublicKey) returns (oneTime: H.OneTimeId)
      modifies `initiators, `running, `readies, `supply
      ensures oneTime == old(supply) + 2 && supply == old(supply) + 3
      ensures var initiator := SnowInitiator(key, remote, Ephemeral(key, old(supply)));
              && initiators == old(initiators)[id := H.Entry(S.InitiatorState(old(supply) + 1, None, initiator), oneTime)]
              && running == old(running)[old(supply) + 1 :=
                   H.Retransmit(id, S.HandshakeInitiation(initiator.InitiationMessage()), oneTime)]
      ensures readies == old(readies)[oneTime := H.Ready(id, 0, false, false)]
    {
      var n := Fresh();
      var initiator := SnowInitiator(key, remote, Ephemeral(key, n));
      var handle := Fresh();
      oneTime := Fresh();
      running := running[handle := H.Retransmit(id, S.HandshakeInitiation(initiator.InitiationMessage()), oneTime)];
      initiators := initiators[id := H.Entry(S.InitiatorState(handle, None, initiator), oneTime)];
      readies := readies[oneTime := H.Ready(id, 0, false, false)];
    }

    method StartPoker(id: H.SessionId, remote: PublicKey) returns (oneTime: H.OneTimeId)
      modifies `pokers, `running, `readies, `supply
      ensures oneTime == old(supply) + 1 && supply == old(supply) + 2
      ensures pokers == old(pokers)[id := H.Entry(S.PokerState(old(supply), None, SnowResponder(key, remote)), oneTime)]
      ensures running == old(running)[old(supply) := H.Retransmit(id, S.HandshakePoke, oneTime)]
      ensures readies == old(readies)[oneTime := H.Ready(id, 0, false, false)]
    {
      var handle := Fresh();
      oneTime := Fresh();
      running := running[handle := H.Retransmit(id, S.HandshakePoke, oneTime)];
      pokers := pokers[id := H.Entry(S.PokerState(handle, None, SnowResponder(key, remote)), oneTime)];
      readies := readies[oneTime := H.Ready(id, 0, false, false)];
    }

    /** Replaces whatever has this id. Fails, after the removal, on keys the library refuses. */
    method Initiate(id: H.SessionId, remote: PublicKey, usable: bool) returns (ready: Option<SessionReady>)
      requires Valid()
      modifies this
      ensures State() == H.Initiate(old(State()), id, remote, usable)
      ensures ready.Some? <==> usable
      ensures ready.Some? ==> ready.value.For(this, id, initiators[id].oneTime) && ready.value.oneTime in readies
      ensures Valid() && history == old(history) + [H.OpInitiate(id, remote, usable)]
    {
      P.RunSnoc(key, formats, history, H.OpInitiate(id, remote, usable));
      history := history + [H.OpInitiate(id, remote, usable)];
      RemoveSession(id, None);
      ghost var cleared := State();
      ready := None;
      if usable {
        var oneTime := StartInitiator(id, remote);
        assert State() == cleared.(initiators := initiators, running := running, readies := readies, supply := supply);
        var r := new SessionReady(id, oneTime, this);
        ready := Some(r);
      }
    }

    method Respond(id: H.SessionId, remote: PublicKey, usable: bool) returns (ready: Option<SessionReady>)
      requires Valid()
      modifies this
      ensures State() == H.Respond(old(State()), id, remote, usable)
      ensures ready.Some? <==> usable
      ensures ready.Some? ==> ready.value.For(this, id, pokers[id].oneTime) && ready.value.oneTime in readies
      ensures Valid() && history == old(history) + [H.OpRespond(id, remote, usable)]
    {
      P.RunSnoc(key, formats, history, H.OpRespond(id, remote, usable));
      history := history + [H.OpRespond(id, remote, usable)];
      RemoveSession(id, None);
      ghost var cleared := State();
      ready := None;
      if usable {
        var oneTime := StartPoker(id, remote);
        assert State() == cleared.(pokers := pokers, running := running, readies := readies, supply := supply);
        var r := new SessionReady(id, oneTime, this);
        ready := Some(r);
      }
    }

    /** The task that `CloseSession` spawned runs. */
    method RunClose(id: H.SessionId, oneTime: H.OneTimeId)
      requires Valid()
      modifies this
      ensures State() == H.Close(old(State()), id, oneTime)
      ensures Valid() && history == old(history) + [H.OpClose(id, oneTime)]
    {
      P.RunSnoc(key, formats, history, H.OpClose(id, oneTime));
      history := history + [H.OpClose(id, oneTime)];
      if (id, oneTime) in closing {
        closing := closing - {(id, oneTime)};
        RemoveSession(id, Some(oneTime));
      }
    }

    /** Spawns the removal and returns at once. */
    method CloseSession(id: H.SessionId, oneTime: H.OneTimeId)
      modifies `closing
      ensures State() == old(State()).(closing := old(closing) + {(id, oneTime)})
    {
      closing := closing + {(id, oneTime)};
    }

    /** The user's session object goes away. */
    method DropSession(id: H.SessionId, oneTime: H.OneTimeId)
      requires Valid()
      modifies `closing, `history
      ensures State() == old(State()).(closing := old(closing) + {(id, oneTime)})
      ensures Valid() && history == old(history) + [H.OpDropSession(id, oneTime)]
    {
      P.RunSnoc(key, formats, history, H.OpDropSession(id, oneTime));
      history := history + [H.OpDropSession(id, oneTime)];
      CloseSession(id, oneTime);
    }

    // ----- A packet -----

    method UpgradeSession(id: H.SessionId, oneTime: H.OneTimeId, session: S.SessionState)
      modifies `established, `readies
      ensures State() == H.Upgrade(old(State()), id, oneTime, session)
    {
      established := established[id := H.Entry(session, oneTime)];
      if oneTime in readies {
        readies := readies[oneTime := readies[oneTime].(signals := readies[oneTime].signals + 1)];
      }
    }

    method HandlePoker(src: H.S.Addr, packet: S.SessionPacket)
      requires packet.id in pokers
      modifies `pokers, `responders, `running, `supply
      ensures State() == H.PokerIncoming(old(State()), src, packet.id, formats.raw.decode(packet.data))
    {
      var id := packet.id;
      var entry := pokers[id];
      pokers := pokers - {id};
      var pending := entry.session.Incoming(src, formats.raw.decode(packet.data));
      if pending.IsReady() {
        running := running - {pending.handle};
        var n := Fresh();
        var handle := Fresh();
        var (remoteAddr, initiation) := pending.workingRemoteAddr.value;
        var answer := pending.responder.Answer(initiation, Ephemeral(key, n));
        if answer.Some? {
          var (transport, response) := answer.value;
          running := running[handle := H.Retransmit(id, S.HandshakeResponse(response), entry.oneTime)];
          responders := responders[id := H.Entry(
            S.ResponderState(handle, remoteAddr, Stateless(transport, Responding), 0, {}, false), entry.oneTime)];
        }
      } else {
        pokers := pokers[id := H.Entry(pending, entry.oneTime)];
        assert pokers == old(pokers)[id := H.Entry(pending, entry.oneTime)];
      }
    }

    method HandleInitiator(src: H.S.Addr, packet: S.SessionPacket)
      requires packet.id in initiators
      modifies `initiators, `established, `running, `readies
      ensures State() == H.InitiatorIncoming(old(State()), src, packet.id, formats.raw.decode(packet.data))
    {
      var id := packet.id;
      var entry := initiators[id];
      initiators := initiators - {id};
      var pending := entry.session.Incoming(src, formats.raw.decode(packet.data));
      if pending.IsReady() {
        running := running - {pending.handle};
        var (remoteAddr, response) := pending.workingRemoteAddr.value;
        var transport := pending.initiator.ReceiveResponse(response);
        if transport.Some? {
          UpgradeSession(id, entry.oneTime, S.NewSession(remoteAddr, Stateless(transport.value, Initiating), 0, {}));
          return;
        }
        pending := pending.(workingRemoteAddr := None);
      }
      initiators := initiators[id := H.Entry(pending, entry.oneTime)];
      assert initiators == old(initiators)[id := H.Entry(pending, entry.oneTime)];
    }

    method HandleResponder(packet: S.SessionPacket)
      requires packet.id in responders
      modifies `responders, `established, `running, `readies
      ensures State() == H.ResponderIncoming(old(State()), formats, packet.id, formats.raw.decode(packet.data))
    {
      var id := packet.id;
      var entry := responders[id];
      responders := responders - {id};
      var pending := entry.session.Incoming(formats, formats.raw.decode(packet.data));
      if pending.ready {
        running := running - {pending.handle};
        UpgradeSession(id, entry.oneTime, pending.Session());
      } else {
        responders := responders[id := H.Entry(pending, entry.oneTime)];
        assert responders == old(responders)[id := H.Entry(pending, entry.oneTime)];
      }
    }

    /** The first map that has the id gets the packet; a packet for no session is ignored. */
    method HandleIncoming(src: H.S.Addr, packet: S.SessionPacket)
      requires Valid()
      modifies this
      ensures State() == H.Incoming(old(State()), formats, src, packet.id, formats.raw.decode(packet.data))
      ensures Valid() && history == old(history) + [H.OpIncoming(src, packet.id, formats.raw.decode(packet.data))]
    {
      P.RunSnoc(key, formats, history, H.OpIncoming(src, packet.id, formats.raw.decode(packet.data)));
      history := history + [H.OpIncoming(src, packet.id, formats.raw.decode(packet.data))];
      var id := packet.id;
      if id in pokers {
        HandlePoker(src, packet);
      } else if id in initiators {
        HandleInitiator(src, packet);
      } else if id in responders {
        HandleResponder(packet);
      } else if id in established {
        var (session, _) := S.Incoming(formats, established[id].session, formats.raw.decode(packet.data));
        established := established[id := established[id].(session := session)];
      }
    }

    // ----- Using an established session -----

    /** None when no such session is established or it is dead. */
    method Send(id: H.SessionId, data: Bytes) returns (w: Option<S.Written>)
      requires Valid()
      modifies `established, `history
      ensures w.None? <==> id !in old(established) || old(established[id].session.dead)
      ensures w.None? ==> State() == old(State()) && history == old(history)
      ensures w.Some? ==>
                && w.value == S.Write(formats, old(established[id].session), S.Payload(data)).1
                && history == old(history) + [H.OpLocal(id, H.WriteMessage(S.Payload(data)))]
      ensures Valid()
    {
      if id !in established || established[id].session.dead {
        return None;
      }
      w := Some(S.Write(formats, established[id].session, S.Payload(data)).1);
      RunTask(id, H.WriteMessage(S.Payload(data)));
    }

    /** A task of an established session, or a receiver, acts on the state it shares with the entry. */
    method RunTask(id: H.SessionId, l: H.Local)
      requires Valid()
      modifies `established, `history
      ensures State() == H.RunLocal(old(State()), formats, id, l)
      ensures Valid() && history == old(history) + [H.OpLocal(id, l)]
    {
      P.RunSnoc(key, formats, history, H.OpLocal(id, l));
      history := history + [H.OpLocal(id, l)];
      if id in established {
        var session := established[id].session;
        match l {
          case WriteMessage(m) => session := S.Write(formats, session, m).0;
          case Monitor => session := S.MonitorTick(session);
          case Poll(r) => session := session.(inbox := S.Poll(session.inbox, session.dead, r).0);
        }
        established := established[id := H.Entry(session, established[id].oneTime)];
      }
    }

    /** Whether a receiver is handed out. A dead session is dropped instead. */
    method RecvFrom(id: H.SessionId) returns (receiving: bool)
      requires Valid()
      modifies `established, `history
      ensures State() == H.RecvFrom(old(State()), id)
      ensures receiving <==> id in established
      ensures Valid() && history == old(history) + [H.OpRecvFrom(id)]
    {
      P.RunSnoc(key, formats, history, H.OpRecvFrom(id));
      history := history + [H.OpRecvFrom(id)];
      if id !in established {
        return false;
      }
      if established[id].session.dead {
        established := established - {id};
        return false;
      }
      receiving := true;
    }
  }

  /** The future for one incarnation; its channel and its flags are in the handler's table. */
  class SessionReady {
    const id: H.SessionId
    const oneTime: H.OneTimeId
    const handler: Handler

    predicate For(handler: Handler, id: H.SessionId, oneTime: H.OneTimeId) {
      this.handler == handler && this.id == id && this.oneTime == oneTime
    }

    constructor (id: H.SessionId, oneTime: H.OneTimeId, handler: Handler)
      ensures For(handler, id, oneTime)
    {
      this.id, this.oneTime, this.handler := id, oneTime, handler;
    }

    /** Resolves with a signal, and otherwise leaves its waker once. */
    method PollOnce() returns (resolved: bool)
      requires handler.Valid() && oneTime in handler.readies
      modifies handler`readies, handler`history
      ensures (handler.State(), resolved) == H.PollReady(old(handler.State()), oneTime)
      ensures handler.Valid() && handler.history == old(handler.history) + [H.OpPollReady(oneTime)]
    {
      P.RunSnoc(handler.key, handler.formats, handler.history, H.OpPollReady(oneTime));
      handler.history := handler.history + [H.OpPollReady(oneTime)];
      var r := handler.readies[oneTime];
      if r.signals > 0 {
        handler.readies := handler.readies[oneTime := r.(signals := r.signals - 1, completed := true)];
        return true;
      }
      if !r.addedWaker {
        handler.readies := handler.readies[oneTime := r.(addedWaker := true)];
      }
      assert handler.readies == old(handler.readies)[oneTime := r.(addedWaker := true)];
      resolved := false;
    }

    /** Dropped before it resolved, it asks for its incarnation to be closed. */
    method Drop()
      requires handler.Valid() && oneTime in handler.readies && handler.readies[oneTime].id == id
      modifies handler`readies, handler`closing, handler`history
      ensures handler.State() == H.DropReady(old(handler.State()), oneTime)
      ensures handler.Valid() && handler.history == old(handler.history) + [H.OpDropReady(oneTime)]
    {
      P.RunSnoc(handler.key, handler.formats, handler.history, H.OpDropReady(oneTime));
      handler.history := handler.history + [H.OpDropReady(oneTime)];
      var completed := handler.readies[oneTime].completed;
      handler.readies := handler.readies - {oneTime};
      if !completed {
        handler.CloseSession(id, oneTime);
      }
    }
  }
}
