/**
 The nonces that an incarnation writes under, over whole runs of the handler (src/handler.rs,
 src/snow_types.rs): from its handshake on they are counted up one by one.
 */
module HandlerNonces {
  import opened Common
  import opened SnowTypes
  import opened Handler
  import opened HandlerProofs
  import L = SessionLaws
  import S = Session

  /** The nonces under which an incarnation has written in a run, in order. */
  function WritesBy(key: PublicKey, f: S.Formats, ops: seq<Op>, o: OneTimeId): seq<nat> {
    if ops == [] then []
    else
      var before, op := ops[..|ops| - 1], ops[|ops| - 1];
      var s := Handler.Run(key, f, before);
      WritesBy(key, f, before, o)
        + (if op.OpLocal? && op.local.WriteMessage? && AsEstablished(s, op.id, o) then [s.established[op.id].session.nextNonce] else [])
  }

  /** Counters go with their incarnation: from responder to session, and from zero otherwise. */
  ghost predicate CountersGo(s: State, t: State) {
    && s.supply <= t.supply
    && (forall i, o: OneTimeId :: AsEstablished(t, i, o) ==>
          || (AsEstablished(s, i, o) && t.established[i].session.nextNonce == s.established[i].session.nextNonce)
          || (AsResponder(s, i, o) && t.established[i].session.nextNonce == s.responders[i].session.nextNonce)
          || (AsInitiator(s, i, o) && t.established[i].session.nextNonce == 0))
    && (forall i, o: OneTimeId :: AsResponder(t, i, o) ==>
          || (AsResponder(s, i, o) && t.responders[i].session.nextNonce == s.responders[i].session.nextNonce)
          || (AsPoker(s, i, o) && t.responders[i].session.nextNonce == 0))
    && (forall i, o: OneTimeId :: AsPoker(t, i, o) ==> AsPoker(s, i, o) || o >= s.supply)
    && (forall i, o: OneTimeId :: AsInitiator(t, i, o) ==> AsInitiator(s, i, o) || o >= s.supply)
  }

  ghost predicate CountersOk(s: State, o: OneTimeId, writes: seq<nat>) {
    && (forall n :: 0 <= n < |writes| ==> writes[n] == n % U64)
    && (forall i :: AsEstablished(s, i, o) ==> s.established[i].session.nextNonce == |writes| % U64)
    && (forall i :: AsResponder(s, i, o) ==> s.responders[i].session.nextNonce == 0 && writes == [])
    && (forall i :: AsPoker(s, i, o) || AsInitiator(s, i, o) ==> writes == [])
    && (o >= s.supply ==> writes == [])
  }

  lemma CountersStayOk(s: State, t: State, o: OneTimeId, writes: seq<nat>)
    requires CountersOk(s, o, writes) && CountersGo(s, t)
    ensures CountersOk(t, o, writes)
  {
  }

  lemma FewerCountersGo(s: State, t: State)
    requires s.supply <= t.supply
    requires forall i :: i in t.established ==> i in s.established && t.established[i] == s.established[i]
    requires forall i :: i in t.responders ==> i in s.responders && t.responders[i] == s.responders[i]
    requires forall i, o: OneTimeId :: AsPoker(t, i, o) ==> AsPoker(s, i, o) || o >= s.supply
    requires forall i, o: OneTimeId :: AsInitiator(t, i, o) ==> AsInitiator(s, i, o) || o >= s.supply
    ensures CountersGo(s, t)
  {
  }

  lemma PokerCounters(s: State, src: S.Addr, id: SessionId, raw: Option<S.RawMessage>)
    requires id in s.pokers
    ensures CountersGo(s, PokerIncoming(s, src, id, raw))
  {
    var t := PokerIncoming(s, src, id, raw);
    PokerMovesOn(s, src, id, raw);
    assert t.established == s.established && t.initiators == s.initiators;
    assert t.responders == s.responders
           || (id in t.responders && t.responders == s.responders[id := t.responders[id]]
               && t.responders[id].session.nextNonce == 0 && t.responders[id].oneTime == s.pokers[id].oneTime);
  }

  lemma InitiatorCounters(s: State, src: S.Addr, id: SessionId, raw: Option<S.RawMessage>)
    requires id in s.initiators
    ensures CountersGo(s, InitiatorIncoming(s, src, id, raw))
  {
    var t := InitiatorIncoming(s, src, id, raw);
    InitiatorMovesOn(s, src, id, raw);
    assert t.responders == s.responders && t.pokers == s.pokers;
    if t.established != s.established {
      NewEstablishedGo(s, t, id);
    }
  }

  lemma NewEstablishedGo(s: State, t: State, id: SessionId)
    requires MovesOn(s, t, id) && t.responders == s.responders && t.pokers == s.pokers && id in s.initiators
    requires id in t.established && t.established == s.established[id := t.established[id]]
    requires t.established[id].session.nextNonce == 0 && t.established[id].oneTime == s.initiators[id].oneTime
    ensures CountersGo(s, t)
  {
  }

  lemma ResponderCounters(s: State, f: S.Formats, id: SessionId, raw: Option<S.RawMessage>)
    requires id in s.responders
    ensures CountersGo(s, ResponderIncoming(s, f, id, raw))
  {
    var t := ResponderIncoming(s, f, id, raw);
    var p := s.responders[id].session.Incoming(f, raw);
    L.ResponderReadyIff(f, s.responders[id].session, raw);
    L.ResponderBecomesLive(p);
    ResponderMovesOn(s, f, id, raw);
    assert t.initiators == s.initiators && t.pokers == s.pokers;
  }

  lemma EstablishedCounters(s: State, f: S.Formats, id: SessionId, raw: Option<S.RawMessage>)
    requires id in s.established
    ensures CountersGo(s, EstablishedIncoming(s, f, id, raw))
  {
    L.IncomingIff(f, s.established[id].session, raw);
  }

  lemma IncomingCounters(s: State, f: S.Formats, src: S.Addr, id: SessionId, raw: Option<S.RawMessage>)
    ensures CountersGo(s, Incoming(s, f, src, id, raw))
  {
    if id in s.pokers {
      PokerCounters(s, src, id, raw);
    } else if id in s.initiators {
      InitiatorCounters(s, src, id, raw);
    } else if id in s.responders {
      ResponderCounters(s, f, id, raw);
    } else if id in s.established {
      EstablishedCounters(s, f, id, raw);
    }
  }

  lemma StartCounters(s: State, id: SessionId, remote: PublicKey, usable: bool)
    ensures CountersGo(s, Initiate(s, id, remote, usable))
    ensures CountersGo(s, Respond(s, id, remote, usable))
  {
    FewerCountersGo(s, Initiate(s, id, remote, usable));
    FewerCountersGo(s, Respond(s, id, remote, usable));
  }

  lemma CloseCounters(s: State, id: SessionId, o: OneTimeId)
    ensures CountersGo(s, Close(s, id, o))
  {
    FewerCountersGo(s, Close(s, id, o));
  }

  lemma RecvFromCounters(s: State, id: SessionId)
    ensures CountersGo(s, RecvFrom(s, id))
  {
    FewerCountersGo(s, RecvFrom(s, id));
  }

  lemma SameCountersGo(s: State, t: State)
    requires SameMaps(s, t)
    ensures CountersGo(s, t)
  {
  }

  lemma QuietCounters(s: State, f: S.Formats, op: Op)
    requires op.OpPollReady? || op.OpDropReady? || op.OpDropSession?
    ensures CountersGo(s, Apply(s, f, op))
  {
    QuietSame(s, f, op);
    SameCountersGo(s, Apply(s, f, op));
  }

  lemma LocalCounters(s: State, f: S.Formats, id: SessionId, l: Local)
    requires !l.WriteMessage?
    ensures CountersGo(s, RunLocal(s, f, id, l))
  {
    if id in s.established && l.Monitor? { L.MonitorIff(s.established[id].session); }
  }

  /** A write uses the counter and moves it by one. */
  lemma WriteCounts(s: State, f: S.Formats, id: SessionId, m: S.Message, o: OneTimeId, writes: seq<nat>)
    requires Inv(s) && CountersOk(s, o, writes)
    ensures CountersOk(RunLocal(s, f, id, WriteMessage(m)), o,
                       writes + (if AsEstablished(s, id, o) then [s.established[id].session.nextNonce] else []))
  {
    var t := RunLocal(s, f, id, WriteMessage(m));
    if id in s.established {
      L.WriteIff(f, s.established[id].session, m);
      assert id in t.established && t.established[id].oneTime == s.established[id].oneTime;
      assert t == s.(established := s.established[id := t.established[id]]);
      forall i | AsEstablished(t, i, o) ensures AsEstablished(s, i, o) {
      }
      if AsEstablished(s, id, o) {
        assert Holds(s, id, o);
        forall i | AsEstablished(t, i, o) ensures i == id {
          assert Holds(s, i, o);
        }
        forall i ensures !AsPoker(t, i, o) && !AsInitiator(t, i, o) && !AsResponder(t, i, o) {
          assert Pending(s, i, o) ==> Holds(s, i, o);
        }
      } else {
        assert writes + [] == writes;
        forall i | AsEstablished(t, i, o) ensures t.established[i] == s.established[i] {
          assert i != id;
        }
        forall i | AsPoker(t, i, o) || AsInitiator(t, i, o) ensures AsPoker(s, i, o) || AsInitiator(s, i, o) {
        }
      }
    } else {
      assert writes + [] == writes;
    }
  }

  lemma OthersCount(s: State, f: S.Formats, op: Op)
    requires !(op.OpLocal? && op.local.WriteMessage?)
    ensures CountersGo(s, Apply(s, f, op))
  {
    match op
    case OpInitiate(id, remote, usable) => StartCounters(s, id, remote, usable);
    case OpRespond(id, remote, usable) => StartCounters(s, id, remote, usable);
    case OpIncoming(src, id, raw) => IncomingCounters(s, f, src, id, raw);
    case OpClose(id, q) => CloseCounters(s, id, q);
    case OpRecvFrom(id) => RecvFromCounters(s, id);
    case OpLocal(id, l) => LocalCounters(s, f, id, l);
    case _ => QuietCounters(s, f, op);
  }

  lemma ApplyCounts(s: State, f: S.Formats, op: Op, o: OneTimeId, writes: seq<nat>)
    requires Inv(s) && CountersOk(s, o, writes)
    ensures CountersOk(Apply(s, f, op), o,
                       writes + (if op.OpLocal? && op.local.WriteMessage? && AsEstablished(s, op.id, o)
                                 then [s.established[op.id].session.nextNonce] else []))
  {
    if op.OpLocal? && op.local.WriteMessage? {
      WriteCounts(s, f, op.id, op.local.m, o, writes);
    } else {
      OthersCount(s, f, op);
      CountersStayOk(s, Apply(s, f, op), o, writes);
      assert writes + [] == writes;
    }
  }

  /**
   Over every run of the handler, the n-th write of an incarnation is under the n-th value of the
   64-bit counter, from its handshake on: so it never uses a nonce twice in 2^64 writes.
   */
  lemma {:induction false} WritesCount(key: PublicKey, f: S.Formats, ops: seq<Op>, o: OneTimeId)
    ensures CountersOk(Run(key, f, ops), o, WritesBy(key, f, ops, o))
    ensures NoDuplicates(WritesBy(key, f, ops, o)) <==> |WritesBy(key, f, ops, o)| <= U64
  {
    if ops != [] {
      var before := ops[..|ops| - 1];
      WritesCount(key, f, before, o);
      RunInv(key, f, before);
      ApplyCounts(Run(key, f, before), f, ops[|ops| - 1], o, WritesBy(key, f, before, o));
    }
    CountedDistinctIff(WritesBy(key, f, ops, o));
  }

  lemma CountedDistinctIff(writes: seq<nat>)
    requires forall n :: 0 <= n < |writes| ==> writes[n] == n % U64
    ensures NoDuplicates(writes) <==> |writes| <= U64
  {
    if |writes| > U64 {
      assert writes[0] == writes[U64];
    }
  }
}
