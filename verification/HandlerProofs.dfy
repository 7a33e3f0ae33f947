/** What every run of whole handler operations keeps (src/handler.rs, src/session.rs). */
module HandlerProofs {
  import opened Common
  import opened SnowTypes
  import opened Handler
  import S = Session

  // ----- Where an incarnation is held -----

  predicate AsPoker(s: State, id: SessionId, o: OneTimeId) {
    id in s.pokers && s.pokers[id].oneTime == o
  }

  predicate AsInitiator(s: State, id: SessionId, o: OneTimeId) {
    id in s.initiators && s.initiators[id].oneTime == o
  }

  predicate AsResponder(s: State, id: SessionId, o: OneTimeId) {
    id in s.responders && s.responders[id].oneTime == o
  }

  predicate AsEstablished(s: State, id: SessionId, o: OneTimeId) {
    id in s.established && s.established[id].oneTime == o
  }

  predicate Pending(s: State, id: SessionId, o: OneTimeId) {
    AsPoker(s, id, o) || AsInitiator(s, id, o) || AsResponder(s, id, o)
  }

  predicate Holds(s: State, id: SessionId, o: OneTimeId) {
    Pending(s, id, o) || AsEstablished(s, id, o)
  }

  // ----- The invariants -----

  /** Every session id is in at most one of the four maps. */
  predicate Exclusive(s: State) {
    && (s.pokers.Keys !! s.initiators.Keys !! s.responders.Keys !! s.established.Keys)
  }

  /** Every one-time id is held under at most one session id, and was drawn from the supply. */
  ghost predicate Unique(s: State) {
    && (forall id, o: OneTimeId :: Holds(s, id, o) ==> o < s.supply)
    && forall i, j, o :: Holds(s, i, o) && Holds(s, j, o) ==> i == j
  }

  /** The pending entry of a session id: who it is, its task, and whether the task must be running. */
  datatype Slot = Free | Taken(owner: OneTimeId, handle: TaskId, mustRun: bool)

  function SlotOf(s: State, id: SessionId): Slot {
    if id in s.pokers then Taken(s.pokers[id].oneTime, s.pokers[id].session.handle, true)
    else if id in s.responders then Taken(s.responders[id].oneTime, s.responders[id].session.handle, true)
    else if id in s.initiators then Taken(s.initiators[id].oneTime, s.initiators[id].session.handle, false)
    else Free
  }

  /** Every running task belongs to the pending entry it names, and every poker and responder has one. */
  ghost predicate TasksOk(s: State) {
    && (forall t :: t in s.running ==>
          t < s.supply
          && SlotOf(s, s.running[t].id).Taken?
          && SlotOf(s, s.running[t].id).handle == t
          && SlotOf(s, s.running[t].id).owner == s.running[t].owner)
    && (forall id :: SlotOf(s, id).Taken? ==>
          SlotOf(s, id).handle < s.supply
          && (SlotOf(s, id).mustRun ==> SlotOf(s, id).handle in s.running)
          && (SlotOf(s, id).handle in s.running ==> s.running[SlotOf(s, id).handle].id == id))
  }

  /** A pending incarnation has not signalled, and nobody signals twice. */
  ghost predicate ReadyOk(s: State) {
    && (forall o :: o in s.readies ==> o < s.supply)
    && (forall o :: o in s.readies ==> s.readies[o].signals + (if s.readies[o].completed then 1 else 0) <= 1)
    && (forall id, o :: Pending(s, id, o) && o in s.readies ==> s.readies[o].signals == 0 && !s.readies[o].completed)
  }

  // ----- Lineage: where the incarnations of the next state come from -----

  /** Old incarnations keep their session id and only move forward. */
  ghost predicate Lineage(s: State, t: State) {
    && s.supply <= t.supply
    && (forall i, o: OneTimeId :: AsPoker(t, i, o) && o < s.supply ==> AsPoker(s, i, o))
    && (forall i, o: OneTimeId :: AsInitiator(t, i, o) && o < s.supply ==> AsInitiator(s, i, o))
    && (forall i, o: OneTimeId :: AsResponder(t, i, o) && o < s.supply ==> AsResponder(s, i, o) || AsPoker(s, i, o))
    && (forall i, o: OneTimeId :: AsEstablished(t, i, o) && o < s.supply ==>
          AsEstablished(s, i, o) || AsResponder(s, i, o) || AsInitiator(s, i, o))
  }

  /** New incarnations are pending, drawn from the supply, and there is one at most. */
  ghost predicate NewOnes(s: State, t: State) {
    && (forall i, o: OneTimeId :: Holds(t, i, o) && o >= s.supply ==> Pending(t, i, o) && !AsResponder(t, i, o) && o < t.supply)
    && (forall i, j, o: OneTimeId, q: OneTimeId :: Holds(t, i, o) && o >= s.supply && Holds(t, j, q) && q >= s.supply ==> i == j && o == q)
  }

  lemma LineageKeepsUnique(s: State, t: State)
    requires Unique(s) && Lineage(s, t) && NewOnes(s, t)
    ensures Unique(t)
  {
    forall i, o: OneTimeId | Holds(t, i, o) && o < s.supply ensures Holds(s, i, o) {
    }
  }

  lemma RemoveLineage(s: State, id: SessionId, oneTime: Option<OneTimeId>)
    ensures Lineage(s, Remove(s, id, oneTime))
    ensures forall i, o: OneTimeId :: Holds(Remove(s, id, oneTime), i, o) <==> Holds(s, i, o) && !(i == id && Names(oneTime, o))
  {
  }

  lemma InitiateLineage(s: State, id: SessionId, remote: PublicKey, usable: bool)
    requires Unique(s)
    ensures Lineage(s, Initiate(s, id, remote, usable)) && NewOnes(s, Initiate(s, id, remote, usable))
  {
    var cleared, t := Remove(s, id, None), Initiate(s, id, remote, usable);
    RemoveLineage(s, id, None);
    forall i, o: OneTimeId | Holds(t, i, o)
      ensures Holds(s, i, o) || (usable && i == id && o == s.supply + 2 && AsInitiator(t, i, o))
    {
      assert Holds(cleared, i, o) || i == id;
    }
  }

  lemma RespondLineage(s: State, id: SessionId, remote: PublicKey, usable: bool)
    requires Unique(s)
    ensures Lineage(s, Respond(s, id, remote, usable)) && NewOnes(s, Respond(s, id, remote, usable))
  {
    var cleared, t := Remove(s, id, None), Respond(s, id, remote, usable);
    RemoveLineage(s, id, None);
    forall i, o: OneTimeId | Holds(t, i, o)
      ensures Holds(s, i, o) || (usable && i == id && o == s.supply + 1 && AsPoker(t, i, o))
    {
      assert Holds(cleared, i, o) || i == id;
    }
  }

  /** The entry of one id stays, goes, or moves one stage on; the other ids are left alone. */
  ghost predicate MovesOn(s: State, t: State, id: SessionId) {
    && s.supply <= t.supply
    && (forall i, o: OneTimeId :: AsPoker(t, i, o) ==> AsPoker(s, i, o))
    && (forall i, o: OneTimeId :: AsInitiator(t, i, o) ==> AsInitiator(s, i, o))
    && (forall i, o: OneTimeId :: AsResponder(t, i, o) ==> AsResponder(s, i, o) || (i == id && AsPoker(s, i, o)))
    && (forall i, o: OneTimeId :: AsEstablished(t, i, o) ==>
          AsEstablished(s, i, o) || (i == id && (AsResponder(s, i, o) || AsInitiator(s, i, o))))
  }

  lemma PokerMovesOn(s: State, src: S.Addr, id: SessionId, raw: Option<S.RawMessage>)
    requires id in s.pokers
    ensures MovesOn(s, PokerIncoming(s, src, id, raw), id)
  {
    var t := PokerIncoming(s, src, id, raw);
    assert t.initiators == s.initiators && t.established == s.established;
  }

  lemma InitiatorMovesOn(s: State, src: S.Addr, id: SessionId, raw: Option<S.RawMessage>)
    requires id in s.initiators
    ensures MovesOn(s, InitiatorIncoming(s, src, id, raw), id)
  {
    var t := InitiatorIncoming(s, src, id, raw);
    assert t.pokers == s.pokers && t.responders == s.responders;
  }

  lemma ResponderMovesOn(s: State, f: S.Formats, id: SessionId, raw: Option<S.RawMessage>)
    requires id in s.responders
    ensures MovesOn(s, ResponderIncoming(s, f, id, raw), id)
  {
    var t := ResponderIncoming(s, f, id, raw);
    assert t.pokers == s.pokers && t.initiators == s.initiators;
  }

  lemma EstablishedMovesOn(s: State, f: S.Formats, id: SessionId, raw: Option<S.RawMessage>)
    requires id in s.established
    ensures MovesOn(s, EstablishedIncoming(s, f, id, raw), id)
  {
  }

  lemma IncomingLineage(s: State, f: S.Formats, src: S.Addr, id: SessionId, raw: Option<S.RawMessage>)
    requires Unique(s)
    ensures Lineage(s, Incoming(s, f, src, id, raw)) && NewOnes(s, Incoming(s, f, src, id, raw))
  {
    var t := Incoming(s, f, src, id, raw);
    if id in s.pokers {
      PokerMovesOn(s, src, id, raw);
    } else if id in s.initiators {
      InitiatorMovesOn(s, src, id, raw);
    } else if id in s.responders {
      ResponderMovesOn(s, f, id, raw);
    } else if id in s.established {
      EstablishedMovesOn(s, f, id, raw);
    }
    assert MovesOn(s, t, id);
    OldHoldersOnly(s, t);
  }

  predicate SameMaps(s: State, t: State) {
    && t.pokers == s.pokers && t.initiators == s.initiators
    && t.responders == s.responders && t.established == s.established
    && t.supply == s.supply
  }

  lemma PollReadySame(s: State, o: OneTimeId)
    ensures var t := PollReady(s, o).0; SameMaps(s, t) && t.running == s.running && t.key == s.key && t.closing == s.closing
  {
  }

  lemma DropReadySame(s: State, o: OneTimeId)
    ensures var t := DropReady(s, o); SameMaps(s, t) && t.running == s.running && t.key == s.key
  {
  }

  /** The operations on futures and on session objects leave the maps and the tasks alone. */
  lemma QuietSame(s: State, f: S.Formats, op: Op)
    requires op.OpPollReady? || op.OpDropReady? || op.OpDropSession?
    ensures var t := Apply(s, f, op); SameMaps(s, t) && t.running == s.running && t.key == s.key
  {
    match op
    case OpPollReady(o) => PollReadySame(s, o);
    case OpDropReady(o) => DropReadySame(s, o);
    case _ =>
  }

  lemma SameMapsLineage(s: State, t: State)
    requires Unique(s) && SameMaps(s, t)
    ensures Lineage(s, t) && NewOnes(s, t)
  {
    forall i, o: OneTimeId | Holds(t, i, o) ensures Holds(s, i, o) {
    }
  }

  lemma CloseLineage(s: State, id: SessionId, oneTime: OneTimeId)
    requires Unique(s)
    ensures Lineage(s, Close(s, id, oneTime)) && NewOnes(s, Close(s, id, oneTime))
  {
    var t, removed := Close(s, id, oneTime), Remove(s, id, Some(oneTime));
    RemoveLineage(s, id, Some(oneTime));
    forall i, o: OneTimeId | Holds(t, i, o) ensures Holds(s, i, o) {
      assert SameMaps(removed, t) ==> Holds(removed, i, o);
    }
  }

  lemma RecvFromLineage(s: State, id: SessionId)
    requires Unique(s)
    ensures Lineage(s, RecvFrom(s, id)) && NewOnes(s, RecvFrom(s, id))
  {
    forall i, o: OneTimeId | Holds(RecvFrom(s, id), i, o) ensures Holds(s, i, o) {
    }
  }

  lemma RunLocalLineage(s: State, f: S.Formats, id: SessionId, l: Local)
    requires Unique(s)
    ensures Lineage(s, RunLocal(s, f, id, l)) && NewOnes(s, RunLocal(s, f, id, l))
  {
    forall i, o: OneTimeId | Holds(RunLocal(s, f, id, l), i, o) ensures Holds(s, i, o) {
    }
  }

  lemma ApplyLineage(s: State, f: S.Formats, op: Op)
    requires Unique(s)
    ensures Lineage(s, Apply(s, f, op)) && NewOnes(s, Apply(s, f, op))
  {
    match op
    case OpInitiate(id, remote, usable) => InitiateLineage(s, id, remote, usable);
    case OpRespond(id, remote, usable) => RespondLineage(s, id, remote, usable);
    case OpIncoming(src, id, raw) => IncomingLineage(s, f, src, id, raw);
    case OpClose(id, oneTime) => CloseLineage(s, id, oneTime);
    case OpRecvFrom(id) => RecvFromLineage(s, id);
    case OpLocal(id, l) => RunLocalLineage(s, f, id, l);
    case OpPollReady(oneTime) => SameMapsLineage(s, PollReady(s, oneTime).0);
    case OpDropReady(oneTime) => SameMapsLineage(s, DropReady(s, oneTime));
    case OpDropSession(id, oneTime) => SameMapsLineage(s, Apply(s, f, op));
  }

  lemma OldHoldersOnly(s: State, t: State)
    requires Unique(s) && Lineage(s, t) && forall i, o: OneTimeId :: Holds(t, i, o) ==> Holds(s, i, o)
    ensures NewOnes(s, t)
  {
  }

  // ----- Each operation keeps the invariants -----

  function HandleOf(slot: Slot): set<TaskId> {
    if slot.Taken? then {slot.handle} else {}
  }

  /** The entry of one session id goes, or stays behind without its task. */
  lemma SlotStops(s: State, t: State, id: SessionId)
    requires TasksOk(s) && s.supply <= t.supply
    requires forall i :: i != id ==> SlotOf(t, i) == SlotOf(s, i)
    requires t.running == s.running - HandleOf(SlotOf(s, id))
    requires SlotOf(t, id) == Free || (SlotOf(t, id) == SlotOf(s, id) && !SlotOf(s, id).mustRun)
    ensures TasksOk(t)
  {
  }

  /** The entry of one session id gets a new task in place of its old one. */
  lemma SlotStarts(s: State, t: State, id: SessionId, n: TaskId, packet: S.RawMessage)
    requires TasksOk(s) && s.supply <= n < t.supply
    requires forall i :: i != id ==> SlotOf(t, i) == SlotOf(s, i)
    requires SlotOf(t, id).Taken? && SlotOf(t, id).handle == n
    requires t.running == (s.running - HandleOf(SlotOf(s, id)))[n := Retransmit(id, packet, SlotOf(t, id).owner)]
    ensures TasksOk(t)
  {
  }

  lemma SlotsSame(s: State, t: State)
    requires TasksOk(s) && s.supply == t.supply && s.running == t.running
    requires forall i :: SlotOf(t, i) == SlotOf(s, i)
    ensures TasksOk(t)
  {
  }

  lemma RemoveSlots(s: State, id: SessionId, oneTime: Option<OneTimeId>)
    requires Exclusive(s)
    ensures Exclusive(Remove(s, id, oneTime))
    ensures forall i :: i != id ==> SlotOf(Remove(s, id, oneTime), i) == SlotOf(s, i)
    ensures SlotOf(Remove(s, id, oneTime), id)
         == if SlotOf(s, id).Taken? && Names(oneTime, SlotOf(s, id).owner) then Free else SlotOf(s, id)
    ensures Aborted(s, id, oneTime)
         == if SlotOf(s, id).Taken? && Names(oneTime, SlotOf(s, id).owner) then HandleOf(SlotOf(s, id)) else {}
  {
  }

  lemma RemoveTasks(s: State, id: SessionId, oneTime: Option<OneTimeId>)
    requires Exclusive(s) && TasksOk(s)
    ensures Exclusive(Remove(s, id, oneTime)) && TasksOk(Remove(s, id, oneTime))
    ensures oneTime.None? ==> SlotOf(Remove(s, id, oneTime), id) == Free
    ensures forall i :: i != id ==> SlotOf(Remove(s, id, oneTime), i) == SlotOf(s, i)
  {
    var t := Remove(s, id, oneTime);
    RemoveSlots(s, id, oneTime);
    if SlotOf(t, id) == SlotOf(s, id) {
      assert t.running == s.running;
      SlotsSame(s, t);
    } else {
      SlotStops(s, t, id);
    }
  }

  /** A new initiator under a free session id. */
  lemma InitiatorStarts(s: State, t: State, id: SessionId, e: Entry<S.InitiatorState>, packet: S.RawMessage)
    requires Exclusive(s) && TasksOk(s) && SlotOf(s, id) == Free && id !in s.established
    requires s.supply <= e.session.handle < t.supply && t.initiators == s.initiators[id := e]
    requires t.pokers == s.pokers && t.responders == s.responders && t.established == s.established
    requires t.running == s.running[e.session.handle := Retransmit(id, packet, e.oneTime)]
    ensures Exclusive(t) && TasksOk(t)
  {
    SlotStarts(s, t, id, e.session.handle, packet);
  }

  lemma InitiateTasks(s: State, id: SessionId, remote: PublicKey, usable: bool)
    requires Exclusive(s) && TasksOk(s)
    ensures Exclusive(Initiate(s, id, remote, usable)) && TasksOk(Initiate(s, id, remote, usable))
  {
    RemoveTasks(s, id, None);
    if usable {
      var t := Initiate(s, id, remote, usable);
      var e := t.initiators[id];
      InitiatorStarts(Remove(s, id, None), t, id, e, t.running[e.session.handle].packet);
    }
  }

  /** A new poker under a free session id. */
  lemma PokerStarts(s: State, t: State, id: SessionId, e: Entry<S.PokerState>)
    requires Exclusive(s) && TasksOk(s) && SlotOf(s, id) == Free && id !in s.established
    requires s.supply <= e.session.handle < t.supply && t.pokers == s.pokers[id := e]
    requires t.initiators == s.initiators && t.responders == s.responders && t.established == s.established
    requires t.running == s.running[e.session.handle := Retransmit(id, S.HandshakePoke, e.oneTime)]
    ensures Exclusive(t) && TasksOk(t)
  {
    SlotStarts(s, t, id, e.session.handle, S.HandshakePoke);
  }

  lemma RespondTasks(s: State, id: SessionId, remote: PublicKey, usable: bool)
    requires Exclusive(s) && TasksOk(s)
    ensures Exclusive(Respond(s, id, remote, usable)) && TasksOk(Respond(s, id, remote, usable))
  {
    RemoveTasks(s, id, None);
    if usable {
      var cleared, t := Remove(s, id, None), Respond(s, id, remote, usable);
      PokerStarts(cleared, t, id, t.pokers[id]);
    }
  }

  lemma PokerReadyTasks(s: State, id: SessionId, o: OneTimeId, p: S.PokerState, src: S.Addr, i: Initiation)
    requires Exclusive(s) && TasksOk(s) && id in s.pokers && p.handle == s.pokers[id].session.handle
    ensures Exclusive(PokerReady(s, id, o, p, src, i)) && TasksOk(PokerReady(s, id, o, p, src, i))
  {
    var t, n := PokerReady(s, id, o, p, src, i), s.supply;
    if p.responder.Answer(i, Ephemeral(s.key, n)).Some? {
      SlotStarts(s, t, id, n + 1, t.running[n + 1].packet);
    } else {
      SlotStops(s, t, id);
    }
  }

  lemma PokerTasks(s: State, src: S.Addr, id: SessionId, raw: Option<S.RawMessage>)
    requires Exclusive(s) && TasksOk(s) && id in s.pokers
    ensures Exclusive(PokerIncoming(s, src, id, raw)) && TasksOk(PokerIncoming(s, src, id, raw))
  {
    var e := s.pokers[id];
    var p := e.session.Incoming(src, raw);
    if p.IsReady() {
      PokerReadyTasks(s, id, e.oneTime, p, p.workingRemoteAddr.value.0, p.workingRemoteAddr.value.1);
    } else {
      SlotsSame(s, PokerIncoming(s, src, id, raw));
    }
  }

  lemma InitiatorReadyTasks(s: State, id: SessionId, o: OneTimeId, p: S.InitiatorState, src: S.Addr, r: Response)
    requires Exclusive(s) && TasksOk(s) && id in s.initiators
    requires p.handle == s.initiators[id].session.handle && o == s.initiators[id].oneTime
    ensures Exclusive(InitiatorReady(s, id, o, p, src, r)) && TasksOk(InitiatorReady(s, id, o, p, src, r))
  {
    var aborted := s.(running := s.running - {p.handle});
    match p.initiator.ReceiveResponse(r)
    case None =>
      var t := aborted.(initiators := s.initiators[id := Entry(p.(workingRemoteAddr := None), o)]);
      SlotStops(s, t, id);
    case Some(key) =>
      var gone := aborted.(initiators := s.initiators - {id});
      SlotStops(s, gone, id);
      SameTasks(gone, Upgrade(gone, id, o, S.NewSession(src, Stateless(key, Initiating), 0, {})), id);
  }

  /** Entering the established map, or changing there, starts and stops no task. */
  lemma SameTasks(s: State, t: State, id: SessionId)
    requires Exclusive(s) && TasksOk(s)
    requires t.pokers == s.pokers && t.initiators == s.initiators && t.responders == s.responders
    requires t.running == s.running && t.supply == s.supply
    requires t.established.Keys <= s.established.Keys + {id}
    requires id in s.established || (id !in s.pokers && id !in s.initiators && id !in s.responders)
    ensures Exclusive(t) && TasksOk(t)
  {
    SlotsSame(s, t);
  }

  lemma InitiatorTasks(s: State, src: S.Addr, id: SessionId, raw: Option<S.RawMessage>)
    requires Exclusive(s) && TasksOk(s) && id in s.initiators
    ensures Exclusive(InitiatorIncoming(s, src, id, raw)) && TasksOk(InitiatorIncoming(s, src, id, raw))
  {
    var e := s.initiators[id];
    var p := e.session.Incoming(src, raw);
    if p.IsReady() {
      InitiatorReadyTasks(s, id, e.oneTime, p, p.workingRemoteAddr.value.0, p.workingRemoteAddr.value.1);
    } else {
      SlotsSame(s, InitiatorIncoming(s, src, id, raw));
    }
  }

  lemma ConfirmedTasks(s: State, t: State, id: SessionId)
    requires Exclusive(s) && TasksOk(s) && id in s.responders && t.supply == s.supply
    requires t.pokers == s.pokers && t.initiators == s.initiators && t.responders == s.responders - {id}
    requires t.established.Keys == s.established.Keys + {id}
    requires t.running == s.running - {s.responders[id].session.handle}
    ensures Exclusive(t) && TasksOk(t)
  {
    SlotStops(s, t, id);
  }

  lemma WaitingTasks(s: State, id: SessionId, e: Entry<S.ResponderState>)
    requires Exclusive(s) && TasksOk(s) && id in s.responders
    requires e.oneTime == s.responders[id].oneTime && e.session.handle == s.responders[id].session.handle
    ensures var t := s.(responders := s.responders[id := e]); Exclusive(t) && TasksOk(t)
  {
    SlotsSame(s, s.(responders := s.responders[id := e]));
  }

  lemma ResponderTasks(s: State, f: S.Formats, id: SessionId, raw: Option<S.RawMessage>)
    requires Exclusive(s) && TasksOk(s) && id in s.responders
    ensures Exclusive(ResponderIncoming(s, f, id, raw)) && TasksOk(ResponderIncoming(s, f, id, raw))
  {
    var e := s.responders[id];
    var p := e.session.Incoming(f, raw);
    if p.ready {
      ConfirmedTasks(s, ResponderIncoming(s, f, id, raw), id);
    } else {
      WaitingTasks(s, id, Entry(p, e.oneTime));
    }
  }

  lemma IncomingTasks(s: State, f: S.Formats, src: S.Addr, id: SessionId, raw: Option<S.RawMessage>)
    requires Exclusive(s) && TasksOk(s)
    ensures Exclusive(Incoming(s, f, src, id, raw)) && TasksOk(Incoming(s, f, src, id, raw))
  {
    if id in s.pokers {
      PokerTasks(s, src, id, raw);
    } else if id in s.initiators {
      InitiatorTasks(s, src, id, raw);
    } else if id in s.responders {
      ResponderTasks(s, f, id, raw);
    } else {
      SlotsSame(s, Incoming(s, f, src, id, raw));
    }
  }

  lemma CloseTasks(s: State, id: SessionId, o: OneTimeId)
    requires Exclusive(s) && TasksOk(s)
    ensures Exclusive(Close(s, id, o)) && TasksOk(Close(s, id, o))
  {
    RemoveTasks(s, id, Some(o));
    if (id, o) in s.closing {
      SlotsSame(Remove(s, id, Some(o)), Close(s, id, o));
    }
  }

  lemma RecvFromTasks(s: State, id: SessionId)
    requires Exclusive(s) && TasksOk(s)
    ensures Exclusive(RecvFrom(s, id)) && TasksOk(RecvFrom(s, id))
  {
    if id in s.established {
      SameTasks(s, RecvFrom(s, id), id);
    }
  }

  lemma RunLocalTasks(s: State, f: S.Formats, id: SessionId, l: Local)
    requires Exclusive(s) && TasksOk(s)
    ensures Exclusive(RunLocal(s, f, id, l)) && TasksOk(RunLocal(s, f, id, l))
  {
    if id in s.established {
      SameTasks(s, RunLocal(s, f, id, l), id);
    }
  }

  lemma SameMapsTasks(s: State, t: State)
    requires Exclusive(s) && TasksOk(s) && SameMaps(s, t) && t.running == s.running
    ensures Exclusive(t) && TasksOk(t)
  {
    SlotsSame(s, t);
  }

  lemma QuietTasks(s: State, f: S.Formats, op: Op)
    requires Exclusive(s) && TasksOk(s) && (op.OpPollReady? || op.OpDropReady? || op.OpDropSession?)
    ensures Exclusive(Apply(s, f, op)) && TasksOk(Apply(s, f, op))
  {
    QuietSame(s, f, op);
    SameMapsTasks(s, Apply(s, f, op));
  }

  lemma ApplyTasks(s: State, f: S.Formats, op: Op)
    requires Exclusive(s) && TasksOk(s)
    ensures Exclusive(Apply(s, f, op)) && TasksOk(Apply(s, f, op))
  {
    match op
    case OpInitiate(id, remote, usable) => InitiateTasks(s, id, remote, usable);
    case OpRespond(id, remote, usable) => RespondTasks(s, id, remote, usable);
    case OpIncoming(src, id, raw) => IncomingTasks(s, f, src, id, raw);
    case OpClose(id, oneTime) => CloseTasks(s, id, oneTime);
    case OpRecvFrom(id) => RecvFromTasks(s, id);
    case OpLocal(id, l) => RunLocalTasks(s, f, id, l);
    case _ => QuietTasks(s, f, op);
  }

  // ----- Signals -----

  predicate Signalled(s: State, o: OneTimeId) {
    o in s.readies && (s.readies[o].signals > 0 || s.readies[o].completed)
  }

  /** No future appears or changes, and nothing new is pending. */
  lemma ReadySame(s: State, t: State)
    requires ReadyOk(s) && s.supply <= t.supply && t.readies == s.readies
    requires forall i, o: OneTimeId :: Pending(t, i, o) ==> Pending(s, i, o)
    ensures ReadyOk(t)
  {
  }

  lemma UpgradeReady(s: State, id: SessionId, o: OneTimeId, session: S.SessionState)
    requires ReadyOk(s) && (forall i :: !Pending(s, i, o))
    requires o in s.readies ==> !Signalled(s, o)
    ensures ReadyOk(Upgrade(s, id, o, session))
    ensures AsEstablished(Upgrade(s, id, o, session), id, o)
    ensures forall q :: q != o ==> (Signalled(Upgrade(s, id, o, session), q) <==> Signalled(s, q))
  {
    var t := Upgrade(s, id, o, session);
    forall i, q: OneTimeId | Pending(t, i, q) && q in t.readies ensures !Signalled(t, q) {
      assert Pending(s, i, q);
    }
  }

  /** Nobody else holds the incarnation that an id holds. */
  lemma OnlyHere(s: State, id: SessionId, o: OneTimeId)
    requires Unique(s) && Exclusive(s) && Holds(s, id, o)
    ensures forall i :: i != id ==> !Pending(s, i, o)
  {
    forall i | Pending(s, i, o) ensures i == id {
      assert Holds(s, i, o);
    }
  }

  ghost predicate Inv(s: State) {
    Exclusive(s) && Unique(s) && TasksOk(s) && ReadyOk(s)
  }

  lemma InitiateReady(s: State, id: SessionId, remote: PublicKey, usable: bool)
    requires Inv(s)
    ensures ReadyOk(Initiate(s, id, remote, usable))
    ensures forall q :: Signalled(Initiate(s, id, remote, usable), q) ==> Signalled(s, q)
  {
    var cleared, t := Remove(s, id, None), Initiate(s, id, remote, usable);
    ReadySame(s, cleared);
    forall i, o: OneTimeId | Pending(t, i, o) ensures Pending(cleared, i, o) || o == s.supply + 2 {
    }
    forall i, o: OneTimeId | Pending(cleared, i, o) ensures Holds(s, i, o) {
    }
  }

  lemma RespondReady(s: State, id: SessionId, remote: PublicKey, usable: bool)
    requires Inv(s)
    ensures ReadyOk(Respond(s, id, remote, usable))
    ensures forall q :: Signalled(Respond(s, id, remote, usable), q) ==> Signalled(s, q)
  {
    var cleared, t := Remove(s, id, None), Respond(s, id, remote, usable);
    ReadySame(s, cleared);
    forall i, o: OneTimeId | Pending(t, i, o) ensures Pending(cleared, i, o) || o == s.supply + 1 {
    }
    forall i, o: OneTimeId | Pending(cleared, i, o) ensures Holds(s, i, o) {
    }
  }

  lemma PokerReadyReady(s: State, id: SessionId, p: S.PokerState, src: S.Addr, i: Initiation)
    requires Inv(s) && id in s.pokers
    ensures ReadyOk(PokerReady(s, id, s.pokers[id].oneTime, p, src, i))
    ensures PokerReady(s, id, s.pokers[id].oneTime, p, src, i).readies == s.readies
  {
    var o := s.pokers[id].oneTime;
    assert AsPoker(s, id, o);
    ReadySame(s, PokerReady(s, id, o, p, src, i));
  }

  lemma InitiatorReadyReady(s: State, id: SessionId, p: S.InitiatorState, src: S.Addr, r: Response)
    requires Inv(s) && id in s.initiators
    ensures var o := s.initiators[id].oneTime;
            var t := InitiatorReady(s, id, o, p, src, r);
            ReadyOk(t) && forall q :: Signalled(t, q) ==> Signalled(s, q) || AsEstablished(t, id, q)
  {
    var o := s.initiators[id].oneTime;
    assert AsInitiator(s, id, o);
    var aborted := s.(running := s.running - {p.handle});
    match p.initiator.ReceiveResponse(r)
    case None =>
      ReadySame(s, aborted.(initiators := s.initiators[id := Entry(p.(workingRemoteAddr := None), o)]));
    case Some(key) =>
      var gone := aborted.(initiators := s.initiators - {id});
      ReadySame(s, gone);
      OnlyHere(s, id, o);
      UpgradeReady(gone, id, o, S.NewSession(src, Stateless(key, Initiating), 0, {}));
  }

  lemma ResponderReady(s: State, f: S.Formats, id: SessionId, raw: Option<S.RawMessage>)
    requires Inv(s) && id in s.responders
    ensures var t := ResponderIncoming(s, f, id, raw);
            ReadyOk(t) && forall q :: Signalled(t, q) ==> Signalled(s, q) || AsEstablished(t, id, q)
  {
    var e := s.responders[id];
    assert AsResponder(s, id, e.oneTime);
    var p := e.session.Incoming(f, raw);
    if !p.ready {
      ReadySame(s, ResponderIncoming(s, f, id, raw));
    } else {
      var gone := s.(responders := s.responders - {id}, running := s.running - {p.handle});
      ReadySame(s, gone);
      OnlyHere(s, id, e.oneTime);
      UpgradeReady(gone, id, e.oneTime, p.Session());
    }
  }

  lemma PokerSignals(s: State, src: S.Addr, id: SessionId, raw: Option<S.RawMessage>)
    requires Inv(s) && id in s.pokers
    ensures ReadyOk(PokerIncoming(s, src, id, raw)) && PokerIncoming(s, src, id, raw).readies == s.readies
  {
    var e := s.pokers[id];
    var p := e.session.Incoming(src, raw);
    if p.IsReady() {
      PokerReadyReady(s, id, p, p.workingRemoteAddr.value.0, p.workingRemoteAddr.value.1);
    } else {
      ReadySame(s, PokerIncoming(s, src, id, raw));
    }
  }

  lemma InitiatorSignals(s: State, src: S.Addr, id: SessionId, raw: Option<S.RawMessage>)
    requires Inv(s) && id in s.initiators
    ensures var t := InitiatorIncoming(s, src, id, raw);
            ReadyOk(t) && forall q :: Signalled(t, q) ==> Signalled(s, q) || AsEstablished(t, id, q)
  {
    var e := s.initiators[id];
    var p := e.session.Incoming(src, raw);
    if p.IsReady() {
      InitiatorReadyReady(s, id, p, p.workingRemoteAddr.value.0, p.workingRemoteAddr.value.1);
    } else {
      ReadySame(s, InitiatorIncoming(s, src, id, raw));
    }
  }

  lemma IncomingReady(s: State, f: S.Formats, src: S.Addr, id: SessionId, raw: Option<S.RawMessage>)
    requires Inv(s)
    ensures var t := Incoming(s, f, src, id, raw);
            ReadyOk(t) && forall q :: Signalled(t, q) ==> Signalled(s, q) || AsEstablished(t, id, q)
  {
    if id in s.pokers {
      PokerSignals(s, src, id, raw);
    } else if id in s.initiators {
      InitiatorSignals(s, src, id, raw);
    } else if id in s.responders {
      ResponderReady(s, f, id, raw);
    } else {
      ReadySame(s, Incoming(s, f, src, id, raw));
    }
  }

  /** Futures may go, and may take a signal from their channel. */
  lemma FuturesShrink(s: State, t: State)
    requires ReadyOk(s) && SameMaps(s, t)
    requires forall q :: q in t.readies ==>
               && q in s.readies && (Signalled(t, q) ==> Signalled(s, q))
               && t.readies[q].signals + (if t.readies[q].completed then 1 else 0) <= 1
    ensures ReadyOk(t)
  {
    forall i, q: OneTimeId | Pending(t, i, q) && q in t.readies ensures !Signalled(t, q) {
      assert Pending(s, i, q);
    }
  }

  lemma PollReadyOk(s: State, o: OneTimeId)
    requires Inv(s)
    ensures ReadyOk(PollReady(s, o).0) && forall q :: Signalled(PollReady(s, o).0, q) ==> Signalled(s, q)
  {
    FuturesShrink(s, PollReady(s, o).0);
  }

  lemma DropReadyOk(s: State, o: OneTimeId)
    requires Inv(s)
    ensures ReadyOk(DropReady(s, o)) && forall q :: Signalled(DropReady(s, o), q) ==> Signalled(s, q)
  {
    FuturesShrink(s, DropReady(s, o));
  }

  /** The operations that leave the futures alone and move nothing into a pending map. */
  lemma QuietReady(s: State, f: S.Formats, op: Op)
    requires Inv(s) && (op.OpClose? || op.OpRecvFrom? || op.OpLocal? || op.OpDropSession?)
    ensures ReadyOk(Apply(s, f, op)) && Apply(s, f, op).readies == s.readies
  {
    var t := Apply(s, f, op);
    assert t.readies == s.readies && t.supply == s.supply;
    forall i, o: OneTimeId | Pending(t, i, o) ensures Pending(s, i, o) {
    }
    ReadySame(s, t);
  }

  lemma ApplyReady(s: State, f: S.Formats, op: Op)
    requires Inv(s)
    ensures ReadyOk(Apply(s, f, op))
    ensures forall q :: Signalled(Apply(s, f, op), q) ==>
              Signalled(s, q) || exists id :: AsEstablished(Apply(s, f, op), id, q)
  {
    match op
    case OpInitiate(id, remote, usable) => InitiateReady(s, id, remote, usable);
    case OpRespond(id, remote, usable) => RespondReady(s, id, remote, usable);
    case OpIncoming(src, id, raw) => IncomingReady(s, f, src, id, raw);
    case OpPollReady(o) => PollReadyOk(s, o);
    case OpDropReady(o) => DropReadyOk(s, o);
    case _ => QuietReady(s, f, op);
  }

  // ----- Whole runs -----

  lemma RunSnoc(key: PublicKey, f: S.Formats, ops: seq<Op>, op: Op)
    ensures Run(key, f, ops + [op]) == Apply(Run(key, f, ops), f, op)
  {
    assert (ops + [op])[..|ops|] == ops;
  }

  /** Every operation keeps the maps exclusive, the incarnations unique, the tasks owned and the signals single. */
  lemma ApplyKeepsInv(s: State, f: S.Formats, op: Op)
    requires Inv(s)
    ensures Inv(Apply(s, f, op))
  {
    ApplyLineage(s, f, op);
    LineageKeepsUnique(s, Apply(s, f, op));
    ApplyTasks(s, f, op);
    ApplyReady(s, f, op);
  }

  lemma {:induction false} RunInv(key: PublicKey, f: S.Formats, ops: seq<Op>)
    ensures Inv(Run(key, f, ops))
  {
    if ops != [] {
      var s, op := Run(key, f, ops[..|ops| - 1]), ops[|ops| - 1];
      RunInv(key, f, ops[..|ops| - 1]);
      ApplyKeepsInv(s, f, op);
    }
  }

  /** In every run each session id is in at most one of the four maps. */
  lemma {:induction false} MapsAreExclusive(key: PublicKey, f: S.Formats, ops: seq<Op>)
    ensures Exclusive(Run(key, f, ops)) && Unique(Run(key, f, ops))
  {
    RunInv(key, f, ops);
  }

  /**
   In every run each running handshake task belongs to the pending entry it was started for, no
   incarnation has two, and no poker or responder is without one.
   */
  lemma {:induction false} NoOrphanTasks(key: PublicKey, f: S.Formats, ops: seq<Op>)
    ensures var s := Run(key, f, ops);
            && (forall t :: t in s.running ==>
                  Pending(s, s.running[t].id, s.running[t].owner) && SlotOf(s, s.running[t].id).handle == t)
            && (forall t, u :: t in s.running && u in s.running && s.running[t].owner == s.running[u].owner ==> t == u)
            && (forall id, o :: AsPoker(s, id, o) || AsResponder(s, id, o) ==> SlotOf(s, id).handle in s.running)
  {
    RunInv(key, f, ops);
    var s := Run(key, f, ops);
    forall t | t in s.running
      ensures Pending(s, s.running[t].id, s.running[t].owner) && Holds(s, s.running[t].id, s.running[t].owner)
    {
    }
  }

  /** Over any further run, incarnations that exist already are not created again and never move back. */
  ghost predicate Forward(s: State, t: State) {
    && s.supply <= t.supply
    && (forall i, o: OneTimeId :: AsPoker(t, i, o) && o < s.supply ==> AsPoker(s, i, o))
    && (forall i, o: OneTimeId :: AsInitiator(t, i, o) && o < s.supply ==> AsInitiator(s, i, o))
    && (forall i, o: OneTimeId :: AsResponder(t, i, o) && o < s.supply ==> AsResponder(s, i, o) || AsPoker(s, i, o))
    && (forall i, o: OneTimeId :: AsEstablished(t, i, o) && o < s.supply ==> Holds(s, i, o))
  }

  lemma ForwardThenLineage(s: State, t: State, u: State)
    requires Forward(s, t) && Lineage(t, u)
    ensures Forward(s, u)
  {
  }

  lemma {:induction false} RunForward(key: PublicKey, f: S.Formats, ops: seq<Op>, n: nat)
    requires n <= |ops|
    ensures Forward(Run(key, f, ops[..n]), Run(key, f, ops))
    decreases |ops|
  {
    if n == |ops| {
      assert ops[..n] == ops;
    } else {
      var before := ops[..|ops| - 1];
      assert before[..n] == ops[..n];
      RunForward(key, f, before, n);
      RunInv(key, f, before);
      ApplyLineage(Run(key, f, before), f, ops[|ops| - 1]);
      ForwardThenLineage(Run(key, f, ops[..n]), Run(key, f, before), Run(key, f, ops));
    }
  }

  /** An incarnation that has left the maps never comes back. */
  lemma GoneForGood(key: PublicKey, f: S.Formats, ops: seq<Op>, n: nat, id: SessionId, o: OneTimeId)
    requires n <= |ops| && o < Run(key, f, ops[..n]).supply && !Holds(Run(key, f, ops[..n]), id, o)
    ensures !Holds(Run(key, f, ops), id, o)
  {
    RunForward(key, f, ops, n);
  }

  /** The entries of a session id, at every stage, are the same in both states. */
  predicate SameAt(s: State, t: State, id: SessionId) {
    && (if id in s.pokers then id in t.pokers && t.pokers[id] == s.pokers[id] else id !in t.pokers)
    && (if id in s.initiators then id in t.initiators && t.initiators[id] == s.initiators[id] else id !in t.initiators)
    && (if id in s.responders then id in t.responders && t.responders[id] == s.responders[id] else id !in t.responders)
    && (if id in s.established then id in t.established && t.established[id] == s.established[id] else id !in t.established)
  }

  /** A close leaves other ids alone, and a newer incarnation of its id too, tasks included. */
  lemma CloseIsExact(s: State, id: SessionId, o: OneTimeId)
    requires Inv(s) && (id, o) in s.closing
    ensures var t := Close(s, id, o);
            && !Holds(t, id, o)
            && (forall i :: i != id ==> SameAt(s, t, i))
            && (!Holds(s, id, o) ==> SameAt(s, t, id) && t.running == s.running)
            && (forall h :: h in s.running && s.running[h].owner != o ==> h in t.running && t.running[h] == s.running[h])
            && t.closing == s.closing - {(id, o)} && t.readies == s.readies && t.supply == s.supply
  {
    forall h | h in Aborted(s, id, Some(o)) && h in s.running ensures s.running[h].owner == o {
      AbortedIsNamed(s, id, o, h);
    }
  }

  lemma AbortedIsNamed(s: State, id: SessionId, o: OneTimeId, h: TaskId)
    requires Exclusive(s) && TasksOk(s) && h in s.running && h in Aborted(s, id, Some(o))
    ensures s.running[h].owner == o
  {
    assert SlotOf(s, id).Taken? && SlotOf(s, id).handle == h && SlotOf(s, id).owner == o;
  }

  /**
   Stale closes are safe: running a close for one incarnation removes it for good if it is
   present, and changes nothing for other ids or a newer incarnation of the same id.
   */
  lemma StaleCloseIsSafe(key: PublicKey, f: S.Formats, ops: seq<Op>, later: seq<Op>, id: SessionId, o: OneTimeId)
    requires (id, o) in Run(key, f, ops).closing && o < Run(key, f, ops).supply
    ensures var s, t := Run(key, f, ops), Run(key, f, ops + [OpClose(id, o)]);
            && (forall i :: i != id ==> SameAt(s, t, i))
            && (!Holds(s, id, o) ==> SameAt(s, t, id) && t.running == s.running)
    ensures !Holds(Run(key, f, ops + [OpClose(id, o)] + later), id, o)
  {
    RunInv(key, f, ops);
    RunSnoc(key, f, ops, OpClose(id, o));
    CloseIsExact(Run(key, f, ops), id, o);
    var closed := ops + [OpClose(id, o)];
    assert (closed + later)[..|closed|] == closed;
    GoneForGood(key, f, closed + later, |closed|, id, o);
  }

  ghost predicate WasEstablished(key: PublicKey, f: S.Formats, ops: seq<Op>, o: OneTimeId) {
    exists n, id :: 0 <= n <= |ops| && AsEstablished(Run(key, f, ops[..n]), id, o)
  }

  /** A future is signalled, and so resolves, only once its own incarnation has been established. */
  lemma {:induction false} ReadyMeansEstablished(key: PublicKey, f: S.Formats, ops: seq<Op>, o: OneTimeId)
    requires Signalled(Run(key, f, ops), o)
    ensures WasEstablished(key, f, ops, o)
    ensures var r := Run(key, f, ops).readies[o]; r.signals + (if r.completed then 1 else 0) == 1
  {
    RunInv(key, f, ops);
    if ops != [] {
      var before := ops[..|ops| - 1];
      var s := Run(key, f, before);
      RunInv(key, f, before);
      ApplyReady(s, f, ops[|ops| - 1]);
      if Signalled(s, o) {
        ReadyMeansEstablished(key, f, before, o);
        var n, id :| 0 <= n <= |before| && AsEstablished(Run(key, f, before[..n]), id, o);
        assert before[..n] == ops[..n];
      } else {
        assert ops[..|ops|] == ops;
      }
    }
  }

  /** A future asks for a close only when it is dropped before it has resolved. */
  lemma ClosesAreAsked(s: State, f: S.Formats, op: Op, id: SessionId, o: OneTimeId)
    ensures (id, o) in Apply(s, f, op).closing && (id, o) !in s.closing <==>
              (id, o) !in s.closing
              && (op == OpDropSession(id, o)
                  || (op == OpDropReady(o) && o in s.readies && s.readies[o].id == id && !s.readies[o].completed))
  {
  }
}
