/**
 The futures that wait for a session (src/handler.rs): over whole runs each resolves exactly when
 its own incarnation has been established, once, and dropping it early closes that incarnation.
 */
module Futures {
  import opened Common
  import opened SnowTypes
  import opened Handler
  import opened HandlerProofs
  import L = HandlerLaws
  import S = Session

  /** A future is for the session id of its incarnation, and has its signal once that is established. */
  ghost predicate FuturesOk(s: State) {
    forall i, o: OneTimeId :: Holds(s, i, o) && o in s.readies ==>
      s.readies[o].id == i && (AsEstablished(s, i, o) ==> Signalled(s, o))
  }

  /** Old futures keep their session id, their signal and their outcome; a new established entry has signalled. */
  ghost predicate Goes(s: State, t: State) {
    && (forall o: OneTimeId :: o in t.readies ==>
          && o in s.readies && t.readies[o].id == s.readies[o].id
          && (Signalled(s, o) ==> Signalled(t, o)) && (s.readies[o].completed ==> t.readies[o].completed))
    && (forall i, o: OneTimeId :: AsEstablished(t, i, o) && o in t.readies ==> AsEstablished(s, i, o) || Signalled(t, o))
    && (forall i, o: OneTimeId :: Holds(t, i, o) ==> Holds(s, i, o))
  }

  lemma GoesKeepsOk(s: State, t: State)
    requires FuturesOk(s) && Goes(s, t)
    ensures FuturesOk(t)
  {
  }

  /** Removing entries and leaving the futures alone. */
  lemma FewerEntriesGo(s: State, t: State)
    requires t.readies == s.readies
    requires forall i, o: OneTimeId :: AsEstablished(t, i, o) ==> AsEstablished(s, i, o)
    requires forall i, o: OneTimeId :: Holds(t, i, o) ==> Holds(s, i, o)
    ensures Goes(s, t)
  {
  }

  /** Entering the established map with a signal. */
  lemma UpgradeGoes(s: State, gone: State, id: SessionId, o: OneTimeId, session: S.SessionState)
    requires gone.readies == s.readies && gone.established == s.established && Holds(s, id, o)
    requires forall i, q: OneTimeId :: Holds(gone, i, q) ==> Holds(s, i, q)
    ensures Goes(s, Upgrade(gone, id, o, session))
  {
    var t := Upgrade(gone, id, o, session);
    forall i, q: OneTimeId | Holds(t, i, q) ensures Holds(s, i, q) {
      assert Holds(gone, i, q) || (i == id && q == o);
    }
  }

  lemma InitiatorGoes(s: State, src: S.Addr, id: SessionId, raw: Option<S.RawMessage>)
    requires id in s.initiators
    ensures Goes(s, InitiatorIncoming(s, src, id, raw))
  {
    var e := s.initiators[id];
    var p := e.session.Incoming(src, raw);
    var t := InitiatorIncoming(s, src, id, raw);
    InitiatorMovesOn(s, src, id, raw);
    if p.IsReady() && p.initiator.ReceiveResponse(p.workingRemoteAddr.value.1).Some? {
      var gone := s.(running := s.running - {p.handle}, initiators := s.initiators - {id});
      assert AsInitiator(s, id, e.oneTime);
      var key := p.initiator.ReceiveResponse(p.workingRemoteAddr.value.1).value;
      UpgradeGoes(s, gone, id, e.oneTime, S.NewSession(p.workingRemoteAddr.value.0, Stateless(key, Initiating), 0, {}));
    } else {
      assert t.established == s.established;
      FewerEntriesGo(s, t);
    }
  }

  lemma ResponderGoes(s: State, f: S.Formats, id: SessionId, raw: Option<S.RawMessage>)
    requires id in s.responders
    ensures Goes(s, ResponderIncoming(s, f, id, raw))
  {
    var e := s.responders[id];
    var p := e.session.Incoming(f, raw);
    var t := ResponderIncoming(s, f, id, raw);
    ResponderMovesOn(s, f, id, raw);
    if p.ready {
      var gone := s.(responders := s.responders - {id}, running := s.running - {p.handle});
      assert AsResponder(s, id, e.oneTime);
      UpgradeGoes(s, gone, id, e.oneTime, p.Session());
    } else {
      assert t.established == s.established;
      FewerEntriesGo(s, t);
    }
  }

  lemma PokerGoes(s: State, src: S.Addr, id: SessionId, raw: Option<S.RawMessage>)
    requires id in s.pokers
    ensures Goes(s, PokerIncoming(s, src, id, raw))
  {
    var t := PokerIncoming(s, src, id, raw);
    PokerMovesOn(s, src, id, raw);
    assert t.established == s.established && t.readies == s.readies;
    FewerEntriesGo(s, t);
  }

  lemma IncomingGoes(s: State, f: S.Formats, src: S.Addr, id: SessionId, raw: Option<S.RawMessage>)
    ensures Goes(s, Incoming(s, f, src, id, raw))
  {
    if id in s.pokers {
      PokerGoes(s, src, id, raw);
    } else if id in s.initiators {
      InitiatorGoes(s, src, id, raw);
    } else if id in s.responders {
      ResponderGoes(s, f, id, raw);
    } else if id in s.established {
      EstablishedMovesOn(s, f, id, raw);
      FewerEntriesGo(s, EstablishedIncoming(s, f, id, raw));
    }
  }

  lemma CloseGoes(s: State, id: SessionId, o: OneTimeId)
    ensures Goes(s, Close(s, id, o))
  {
    RemoveLineage(s, id, Some(o));
    var t, removed := Close(s, id, o), Remove(s, id, Some(o));
    forall i, q: OneTimeId | Holds(t, i, q) ensures Holds(s, i, q) {
      assert SameMaps(removed, t) ==> Holds(removed, i, q);
    }
    FewerEntriesGo(s, t);
  }

  lemma LocalGoes(s: State, f: S.Formats, id: SessionId, l: Local)
    ensures Goes(s, RunLocal(s, f, id, l)) && Goes(s, RecvFrom(s, id))
  {
    FewerEntriesGo(s, RunLocal(s, f, id, l));
    FewerEntriesGo(s, RecvFrom(s, id));
  }

  /** The maps stay, and each future that is left goes on. */
  lemma SameMapsGo(s: State, t: State)
    requires SameMaps(s, t)
    requires forall o: OneTimeId :: o in t.readies ==>
               && o in s.readies && t.readies[o].id == s.readies[o].id
               && (Signalled(s, o) ==> Signalled(t, o)) && (s.readies[o].completed ==> t.readies[o].completed)
    ensures Goes(s, t)
  {
  }

  lemma PollGoes(s: State, o: OneTimeId)
    ensures Goes(s, PollReady(s, o).0)
  {
    PollReadySame(s, o);
    if o in s.readies { L.PollReadyIff(s, o); }
    SameMapsGo(s, PollReady(s, o).0);
  }

  lemma DropGoes(s: State, o: OneTimeId)
    ensures Goes(s, DropReady(s, o))
  {
    DropReadySame(s, o);
    SameMapsGo(s, DropReady(s, o));
  }

  /** A new incarnation with its future, where the old ones are as they were. */
  lemma StartKeepsOk(s: State, cleared: State, t: State, id: SessionId, n: OneTimeId)
    requires Unique(s) && FuturesOk(cleared) && n >= s.supply
    requires forall i, o: OneTimeId :: Holds(cleared, i, o) ==> Holds(s, i, o)
    requires t.established == cleared.established && t.readies == cleared.readies[n := Ready(id, 0, false, false)]
    requires forall i, o: OneTimeId :: Holds(t, i, o) ==> Holds(cleared, i, o) || (i == id && o == n)
    ensures FuturesOk(t)
  {
    forall i, o: OneTimeId | Holds(t, i, o) && o in t.readies
      ensures t.readies[o].id == i && (AsEstablished(t, i, o) ==> Signalled(t, o))
    {
      if o == n {
        assert !Holds(cleared, i, o);
      }
    }
  }

  lemma InitiateKeepsOk(s: State, id: SessionId, remote: PublicKey, usable: bool)
    requires Inv(s) && FuturesOk(s)
    ensures FuturesOk(Initiate(s, id, remote, usable))
  {
    var cleared, t := Remove(s, id, None), Initiate(s, id, remote, usable);
    RemoveLineage(s, id, None);
    FewerEntriesGo(s, cleared);
    GoesKeepsOk(s, cleared);
    if usable {
      forall i, o: OneTimeId | Holds(t, i, o) ensures Holds(cleared, i, o) || (i == id && o == s.supply + 2) {
      }
      StartKeepsOk(s, cleared, t, id, s.supply + 2);
    }
  }

  lemma RespondKeepsOk(s: State, id: SessionId, remote: PublicKey, usable: bool)
    requires Inv(s) && FuturesOk(s)
    ensures FuturesOk(Respond(s, id, remote, usable))
  {
    var cleared, t := Remove(s, id, None), Respond(s, id, remote, usable);
    RemoveLineage(s, id, None);
    FewerEntriesGo(s, cleared);
    GoesKeepsOk(s, cleared);
    if usable {
      forall i, o: OneTimeId | Holds(t, i, o) ensures Holds(cleared, i, o) || (i == id && o == s.supply + 1) {
      }
      StartKeepsOk(s, cleared, t, id, s.supply + 1);
    }
  }

  lemma ApplyKeepsOk(s: State, f: S.Formats, op: Op)
    requires Inv(s) && FuturesOk(s)
    ensures FuturesOk(Apply(s, f, op))
  {
    match op
    case OpInitiate(id, remote, usable) => InitiateKeepsOk(s, id, remote, usable);
    case OpRespond(id, remote, usable) => RespondKeepsOk(s, id, remote, usable);
    case OpIncoming(src, id, raw) => IncomingGoes(s, f, src, id, raw);
    case OpClose(id, o) => CloseGoes(s, id, o);
    case OpRecvFrom(id) => LocalGoes(s, f, id, Monitor);
    case OpLocal(id, l) => LocalGoes(s, f, id, l);
    case OpPollReady(o) => PollGoes(s, o);
    case OpDropReady(o) => DropGoes(s, o);
    case OpDropSession(_, _) => FewerEntriesGo(s, Apply(s, f, op));
  }

  lemma {:induction false} RunOk(key: PublicKey, f: S.Formats, ops: seq<Op>)
    ensures FuturesOk(Run(key, f, ops))
  {
    if ops != [] {
      RunInv(key, f, ops[..|ops| - 1]);
      RunOk(key, f, ops[..|ops| - 1]);
      ApplyKeepsOk(Run(key, f, ops[..|ops| - 1]), f, ops[|ops| - 1]);
    }
  }

  /**
   In every run, the future of an incarnation that is in a map resolves at the next poll if and only
   if that incarnation is established and the future has not resolved before.
   */
  lemma {:induction false} ResolvesIff(key: PublicKey, f: S.Formats, ops: seq<Op>, id: SessionId, o: OneTimeId)
    requires Holds(Run(key, f, ops), id, o) && o in Run(key, f, ops).readies
    ensures PollReady(Run(key, f, ops), o).1 <==> AsEstablished(Run(key, f, ops), id, o) && !Run(key, f, ops).readies[o].completed
  {
    var s := Run(key, f, ops);
    RunInv(key, f, ops);
    RunOk(key, f, ops);
    L.PollReadyIff(s, o);
    assert AsEstablished(s, id, o) || Pending(s, id, o);
  }

  // ----- Once -----

  /** A future that has resolved stays resolved as long as it exists, and is not made anew. */
  lemma CompletedStays(s: State, f: S.Formats, op: Op, o: OneTimeId)
    requires Inv(s) && o < s.supply && (o in s.readies ==> s.readies[o].completed)
    ensures o < Apply(s, f, op).supply && (o in Apply(s, f, op).readies ==> Apply(s, f, op).readies[o].completed)
  {
    ApplyLineage(s, f, op);
    match op
    case OpInitiate(id, remote, usable) =>
    case OpRespond(id, remote, usable) =>
    case OpIncoming(src, id, raw) => IncomingGoes(s, f, src, id, raw);
    case OpClose(id, q) => CloseGoes(s, id, q);
    case OpRecvFrom(id) => LocalGoes(s, f, id, Monitor);
    case OpLocal(id, l) => LocalGoes(s, f, id, l);
    case OpPollReady(q) => PollGoes(s, q);
    case OpDropReady(q) => DropGoes(s, q);
    case OpDropSession(_, _) =>
  }

  lemma {:induction false} CompletedForGood(key: PublicKey, f: S.Formats, ops: seq<Op>, n: nat, o: OneTimeId)
    requires n <= |ops| && o < Run(key, f, ops[..n]).supply
    requires o in Run(key, f, ops[..n]).readies ==> Run(key, f, ops[..n]).readies[o].completed
    ensures o < Run(key, f, ops).supply && (o in Run(key, f, ops).readies ==> Run(key, f, ops).readies[o].completed)
    decreases |ops|
  {
    if n == |ops| {
      assert ops[..n] == ops;
    } else {
      var before := ops[..|ops| - 1];
      assert before[..n] == ops[..n];
      CompletedForGood(key, f, before, n, o);
      RunInv(key, f, before);
      CompletedStays(Run(key, f, before), f, ops[|ops| - 1], o);
    }
  }

  /** A future resolves at most once, whatever happens in between. */
  lemma {:induction false} ResolvesOnce(key: PublicKey, f: S.Formats, ops: seq<Op>, later: seq<Op>, o: OneTimeId)
    requires PollReady(Run(key, f, ops), o).1
    ensures !PollReady(Run(key, f, ops + [OpPollReady(o)] + later), o).1
  {
    var s, polled := Run(key, f, ops), ops + [OpPollReady(o)];
    var all := polled + later;
    RunInv(key, f, ops);
    L.PollReadyIff(s, o);
    RunSnoc(key, f, ops, OpPollReady(o));
    assert all[..|polled|] == polled;
    CompletedForGood(key, f, all, |polled|, o);
    RunInv(key, f, all);
    if o in Run(key, f, all).readies {
      L.PollReadyIff(Run(key, f, all), o);
    }
  }

  // ----- Dropped early -----

  /** A future that is dropped before it resolved closes its incarnation, for good. */
  lemma {:induction false} DroppedEarlyCloses(key: PublicKey, f: S.Formats, ops: seq<Op>, later: seq<Op>, id: SessionId, o: OneTimeId)
    requires Holds(Run(key, f, ops), id, o) && o in Run(key, f, ops).readies && !Run(key, f, ops).readies[o].completed
    ensures !Holds(Run(key, f, ops + [OpDropReady(o)] + [OpClose(id, o)] + later), id, o)
    ensures o !in Run(key, f, ops + [OpDropReady(o)]).readies
  {
    var s := Run(key, f, ops);
    RunInv(key, f, ops);
    RunOk(key, f, ops);
    RunSnoc(key, f, ops, OpDropReady(o));
    assert o < s.supply;
    StaleCloseIsSafe(key, f, ops + [OpDropReady(o)], later, id, o);
  }

  /** One that has resolved closes nothing when it is dropped. */
  lemma {:induction false} DroppedLateClosesNothing(s: State, o: OneTimeId)
    requires o in s.readies && s.readies[o].completed
    ensures DropReady(s, o) == s.(readies := s.readies - {o})
  {
  }
}
