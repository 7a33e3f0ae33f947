/**
 One replay window per incarnation, from the responder that waits for the first keepalive to
 the session built from it (src/session.rs, src/handler.rs, src/snow_types.rs).
 */
module WindowProofs {
  import opened Common
  import opened ReplayWindow
  import opened SnowTypes
  import opened Handler
  import opened HandlerProofs
  import S = Session

  /** The window of an incarnation that has a transport. */
  function SeenAt(s: State, id: SessionId, o: OneTimeId): Option<set<nat>> {
    if AsResponder(s, id, o) then Some(s.responders[id].session.seen)
    else if AsEstablished(s, id, o) then Some(s.established[id].session.seen)
    else None
  }

  /** Where a packet for this session id goes when it is not part of the handshake's first steps. */
  function Target(s: State, id: SessionId): Option<OneTimeId> {
    if id in s.pokers || id in s.initiators then None
    else if id in s.responders then Some(s.responders[id].oneTime)
    else if id in s.established then Some(s.established[id].oneTime)
    else None
  }

  /** The nonce that this incarnation lets through in this operation, if any. */
  function Lets(s: State, f: S.Formats, op: Op, o: OneTimeId): Option<nat> {
    if !(op.OpIncoming? && op.raw.Some? && op.raw.value.Encrypted? && Target(s, op.id) == Some(o)) then None
    else
      match ParseFrame(f.wire, op.raw.value.frame)
      case None => None
      case Some(frame) =>
        if SeenAt(s, op.id, o).Some? && Accepts(SeenAt(s, op.id, o).value, frame.nonce) then Some(frame.nonce) else None
  }

  /** All nonces an incarnation has let through in a run, in order. */
  function PassedBy(key: PublicKey, f: S.Formats, ops: seq<Op>, o: OneTimeId): seq<nat> {
    if ops == [] then []
    else
      var before := ops[..|ops| - 1];
      PassedBy(key, f, before, o)
        + (match Lets(Handler.Run(key, f, before), f, ops[|ops| - 1], o) case None => [] case Some(n) => [n])
  }

  function LastOf(passed: seq<nat>): set<nat> {
    if passed == [] then {} else {passed[|passed| - 1]}
  }

  /** The window holds the last nonce let through; an incarnation without a transport has let none through. */
  ghost predicate WindowInv(s: State, o: OneTimeId, passed: seq<nat>) {
    && Increasing(passed)
    && (forall id :: SeenAt(s, id, o).Some? ==> SeenAt(s, id, o).value == LastOf(passed))
    && (forall id :: AsPoker(s, id, o) || AsInitiator(s, id, o) ==> passed == [])
    && (o >= s.supply ==> passed == [])
  }

  /** A responder's window after a packet is that of the entry it becomes. */
  lemma ResponderWindow(s: State, f: S.Formats, id: SessionId, raw: Option<S.RawMessage>)
    requires id in s.responders
    ensures var e := s.responders[id];
            SeenAt(ResponderIncoming(s, f, id, raw), id, e.oneTime) == Some(e.session.Incoming(f, raw).seen)
  {
  }

  lemma EstablishedWindow(s: State, f: S.Formats, id: SessionId, raw: Option<S.RawMessage>)
    requires id in s.established && id !in s.responders
    ensures var e := s.established[id];
            SeenAt(EstablishedIncoming(s, f, id, raw), id, e.oneTime) == Some(S.Incoming(f, e.session, raw).0.seen)
  {
  }

  /** The window of the target after a packet. */
  function SeenAfter(f: S.Formats, seen: set<nat>, raw: Option<S.RawMessage>): set<nat> {
    if !(raw.Some? && raw.value.Encrypted?) then seen
    else
      match ParseFrame(f.wire, raw.value.frame)
      case None => seen
      case Some(frame) => Offer(seen, S.WINDOW, frame.nonce)
  }

  lemma TargetWindow(s: State, f: S.Formats, src: S.Addr, id: SessionId, raw: Option<S.RawMessage>, o: OneTimeId)
    requires Exclusive(s) && Target(s, id) == Some(o)
    ensures SeenAt(s, id, o).Some?
    ensures SeenAt(Incoming(s, f, src, id, raw), id, o) == Some(SeenAfter(f, SeenAt(s, id, o).value, raw))
  {
    if id in s.responders {
      ResponderWindow(s, f, id, raw);
    } else {
      EstablishedWindow(s, f, id, raw);
    }
  }

  /** A packet moves the window of its target by exactly what the target lets through. */
  lemma TargetMoves(s: State, f: S.Formats, src: S.Addr, id: SessionId, raw: Option<S.RawMessage>, o: OneTimeId)
    requires Exclusive(s) && Target(s, id) == Some(o) && SeenAt(s, id, o).Some? && |SeenAt(s, id, o).value| <= 1
    ensures var t := Incoming(s, f, src, id, raw);
            var lets := Lets(s, f, OpIncoming(src, id, raw), o);
            && SeenAt(t, id, o) == (if lets.Some? then Some({lets.value}) else SeenAt(s, id, o))
            && (lets.Some? ==> forall m :: m in SeenAt(s, id, o).value ==> m < lets.value)
  {
    TargetWindow(s, f, src, id, raw, o);
    if raw.Some? && raw.value.Encrypted? {
      var parsed := ParseFrame(f.wire, raw.value.frame);
      if parsed.Some? { SizeOneOffer(SeenAt(s, id, o).value, parsed.value.nonce); }
    }
  }

  /** A window goes on as it is, or goes with its entry. */
  predicate Kept(s: State, t: State, id: SessionId, o: OneTimeId) {
    SeenAt(t, id, o).Some? ==> SeenAt(t, id, o) == SeenAt(s, id, o)
  }

  lemma SameAtKeeps(s: State, t: State, id: SessionId, o: OneTimeId)
    requires SameAt(s, t, id)
    ensures Kept(s, t, id, o)
  {
  }

  lemma StartsKeep(s: State, j: SessionId, remote: PublicKey, usable: bool, id: SessionId, o: OneTimeId)
    ensures Kept(s, Initiate(s, j, remote, usable), id, o) && Kept(s, Respond(s, j, remote, usable), id, o)
  {
  }

  lemma PokerElsewhere(s: State, src: S.Addr, j: SessionId, raw: Option<S.RawMessage>, id: SessionId)
    requires j != id && j in s.pokers
    ensures SameAt(s, PokerIncoming(s, src, j, raw), id)
  {
  }

  lemma InitiatorElsewhere(s: State, src: S.Addr, j: SessionId, raw: Option<S.RawMessage>, id: SessionId)
    requires j != id && j in s.initiators
    ensures SameAt(s, InitiatorIncoming(s, src, j, raw), id)
  {
  }

  lemma ResponderElsewhere(s: State, f: S.Formats, j: SessionId, raw: Option<S.RawMessage>, id: SessionId)
    requires j != id && j in s.responders
    ensures SameAt(s, ResponderIncoming(s, f, j, raw), id)
  {
  }

  lemma IncomingElsewhere(s: State, f: S.Formats, src: S.Addr, j: SessionId, raw: Option<S.RawMessage>, id: SessionId)
    requires j != id
    ensures SameAt(s, Incoming(s, f, src, j, raw), id)
  {
    if j in s.pokers {
      PokerElsewhere(s, src, j, raw, id);
    } else if j in s.initiators {
      InitiatorElsewhere(s, src, j, raw, id);
    } else if j in s.responders {
      ResponderElsewhere(s, f, j, raw, id);
    }
  }

  lemma CloseKeeps(s: State, j: SessionId, p: OneTimeId, id: SessionId, o: OneTimeId)
    ensures Kept(s, Close(s, j, p), id, o)
  {
  }

  lemma LocalKeeps(s: State, f: S.Formats, j: SessionId, l: Local, id: SessionId, o: OneTimeId)
    ensures Kept(s, RunLocal(s, f, j, l), id, o)
    ensures Kept(s, RecvFrom(s, j), id, o)
  {
  }

  /** Handshake packets give the incarnation an empty window. */
  lemma HandshakeWindow(s: State, f: S.Formats, src: S.Addr, id: SessionId, raw: Option<S.RawMessage>, o: OneTimeId)
    requires Exclusive(s) && (id in s.pokers || id in s.initiators)
    ensures var t := Incoming(s, f, src, id, raw);
            SeenAt(t, id, o).Some? ==> SeenAt(t, id, o) == Some({}) && (AsPoker(s, id, o) || AsInitiator(s, id, o))
  {
  }

  /** How one operation changes the window of one incarnation. */
  lemma ApplyWindow(s: State, f: S.Formats, op: Op, id: SessionId, o: OneTimeId)
    requires Exclusive(s) && SeenAt(Apply(s, f, op), id, o).Some?
    ensures || Kept(s, Apply(s, f, op), id, o)
            || (op.OpIncoming? && op.id == id && Target(s, id) == Some(o))
            || (SeenAt(Apply(s, f, op), id, o) == Some({}) && (AsPoker(s, id, o) || AsInitiator(s, id, o)))
  {
    match op
    case OpInitiate(j, remote, usable) => StartsKeep(s, j, remote, usable, id, o);
    case OpRespond(j, remote, usable) => StartsKeep(s, j, remote, usable, id, o);
    case OpIncoming(src, j, raw) =>
      if j != id {
        IncomingElsewhere(s, f, src, j, raw, id);
        SameAtKeeps(s, Incoming(s, f, src, j, raw), id, o);
      } else if id in s.pokers || id in s.initiators {
        HandshakeWindow(s, f, src, id, raw, o);
      } else {
        TargetHolds(s, f, src, id, raw, o);
      }
    case OpClose(j, p) => CloseKeeps(s, j, p, id, o);
    case OpRecvFrom(j) => LocalKeeps(s, f, j, Monitor, id, o);
    case OpLocal(j, l) => LocalKeeps(s, f, j, l, id, o);
    case _ =>
  }

  /** Only the target of a packet is under its session id afterwards. */
  lemma TargetHolds(s: State, f: S.Formats, src: S.Addr, id: SessionId, raw: Option<S.RawMessage>, o: OneTimeId)
    requires Exclusive(s) && id !in s.pokers && id !in s.initiators
    requires SeenAt(Incoming(s, f, src, id, raw), id, o).Some?
    ensures Target(s, id) == Some(o)
  {
    if id in s.responders {
      assert Incoming(s, f, src, id, raw) == ResponderIncoming(s, f, id, raw);
    } else if id in s.established {
      assert Incoming(s, f, src, id, raw) == EstablishedIncoming(s, f, id, raw);
    }
  }

  lemma LetsOnlyTarget(s: State, f: S.Formats, op: Op, o: OneTimeId)
    requires Lets(s, f, op, o).Some?
    ensures op.OpIncoming? && Target(s, op.id) == Some(o) && SeenAt(s, op.id, o).Some?
  {
  }

  lemma StepKeepsWindow(s: State, f: S.Formats, op: Op, o: OneTimeId, passed: seq<nat>)
    requires Inv(s) && WindowInv(s, o, passed)
    ensures WindowInv(Apply(s, f, op), o,
                      passed + (match Lets(s, f, op, o) case None => [] case Some(n) => [n]))
  {
    var t, lets := Apply(s, f, op), Lets(s, f, op, o);
    var after := passed + (match lets case None => [] case Some(n) => [n]);
    ApplyLineage(s, f, op);
    if lets.Some? {
      LetsOnlyTarget(s, f, op, o);
      TargetMoves(s, f, op.src, op.id, op.raw, o);
      forall x | x in passed ensures x < lets.value {
        assert passed[|passed| - 1] in LastOf(passed);
      }
      IncreasingSnoc(passed, lets.value);
      assert Holds(s, op.id, o);
    } else {
      assert after == passed;
    }
    forall id | SeenAt(t, id, o).Some? ensures SeenAt(t, id, o).value == LastOf(after) {
      ApplyWindow(s, f, op, id, o);
      assert Holds(s, id, o);
      assert lets.Some? ==> id == op.id;
      if op.OpIncoming? && op.id == id && Target(s, id) == Some(o) {
        TargetWindow(s, f, op.src, id, op.raw, o);
        TargetMoves(s, f, op.src, id, op.raw, o);
      }
    }
    forall id | AsPoker(t, id, o) || AsInitiator(t, id, o) ensures after == [] {
      assert o < s.supply ==> Holds(s, id, o);
    }
  }

  /**
   The nonces let through while the responder waits and those let through by the session it
   becomes form one increasing sequence: the keepalive that confirmed the handshake, like any
   other packet, is never accepted again.
   */
  lemma {:induction false} WindowSurvivesUpgrade(key: PublicKey, f: S.Formats, ops: seq<Op>, o: OneTimeId)
    ensures Increasing(PassedBy(key, f, ops, o))
    ensures WindowInv(Handler.Run(key, f, ops), o, PassedBy(key, f, ops, o))
  {
    if ops != [] {
      var before := ops[..|ops| - 1];
      WindowSurvivesUpgrade(key, f, before, o);
      RunInv(key, f, before);
      StepKeepsWindow(Handler.Run(key, f, before), f, ops[|ops| - 1], o, PassedBy(key, f, before, o));
    }
  }
}
