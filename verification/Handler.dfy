/**
 The session handler (src/handler.rs): four maps of sessions by id, the retransmission tasks of
 the handshakes, and the futures that wait for a session to be ready. Public operations are
 atomic steps here, as functions on values; the class in `HandlerObject` is proved against them.
 */
module Handler {
  import opened Common
  import opened ReplayWindow
  import opened SnowTypes
  import S = Session

  type SessionId = S.SessionId
  type OneTimeId = nat
  type TaskId = nat

  /** One incarnation of a session, at whatever stage. */
  datatype Entry<T> = Entry(session: T, oneTime: OneTimeId)

  /** A running task that sends one handshake packet again and again. */
  datatype Retransmit = Retransmit(id: SessionId, packet: S.RawMessage, owner: OneTimeId)

  /** A future for one incarnation: unread signals in its channel, and whether it has resolved. */
  datatype Ready = Ready(id: SessionId, signals: nat, completed: bool, addedWaker: bool)

  datatype State = State(
    key: PublicKey,
    pokers: map<SessionId, Entry<S.PokerState>>,
    initiators: map<SessionId, Entry<S.InitiatorState>>,
    responders: map<SessionId, Entry<S.ResponderState>>,
    established: map<SessionId, Entry<S.SessionState>>,
    running: map<TaskId, Retransmit>,
    readies: map<OneTimeId, Ready>,
    closing: set<(SessionId, OneTimeId)>,
    supply: nat)

  function Init(key: PublicKey): State {
    State(key, map[], map[], map[], map[], map[], map[], {}, 0)
  }

  // ----- Removing -----

  predicate Names(oneTime: Option<OneTimeId>, current: OneTimeId) {
    oneTime.None? || oneTime.value == current
  }

  predicate Hit<T>(m: map<SessionId, Entry<T>>, id: SessionId, oneTime: Option<OneTimeId>) {
    id in m && Names(oneTime, m[id].oneTime)
  }

  function Without<T>(m: map<SessionId, Entry<T>>, id: SessionId, oneTime: Option<OneTimeId>): map<SessionId, Entry<T>> {
    if Hit(m, id, oneTime) then m - {id} else m
  }

  function ResponderTask(s: State, id: SessionId, oneTime: Option<OneTimeId>): set<TaskId> {
    if Hit(s.responders, id, oneTime) then {s.responders[id].session.handle} else {}
  }

  function PokerTask(s: State, id: SessionId, oneTime: Option<OneTimeId>): set<TaskId> {
    if Hit(s.pokers, id, oneTime) then {s.pokers[id].session.handle} else {}
  }

  function InitiatorTask(s: State, id: SessionId, oneTime: Option<OneTimeId>): set<TaskId> {
    if Hit(s.initiators, id, oneTime) then {s.initiators[id].session.handle} else {}
  }

  /** The tasks of the pending entries that are removed. */
  function Aborted(s: State, id: SessionId, oneTime: Option<OneTimeId>): set<TaskId> {
    ResponderTask(s, id, oneTime) + PokerTask(s, id, oneTime) + InitiatorTask(s, id, oneTime)
  }

  /** Drop whatever incarnation of the id is present, or only the one that is named. */
  function Remove(s: State, id: SessionId, oneTime: Option<OneTimeId>): State {
    s.(established := Without(s.established, id, oneTime),
       responders := Without(s.responders, id, oneTime),
       pokers := Without(s.pokers, id, oneTime),
       initiators := Without(s.initiators, id, oneTime),
       running := s.running - Aborted(s, id, oneTime))
  }

  // ----- Starting a session -----

  /** `usable` is whether the library accepts the keys. Draws an ephemeral, a task and a one-time id. */
  function Initiate(s: State, id: SessionId, remote: PublicKey, usable: bool): State {
    var cleared := Remove(s, id, None);
    if !usable then cleared
    else
      var n := s.supply;
      var initiator := SnowInitiator(s.key, remote, Ephemeral(s.key, n));
      var packet := S.HandshakeInitiation(initiator.InitiationMessage());
      cleared.(initiators := cleared.initiators[id := Entry(S.InitiatorState(n + 1, None, initiator), n + 2)],
               running := cleared.running[n + 1 := Retransmit(id, packet, n + 2)],
               readies := cleared.readies[n + 2 := Ready(id, 0, false, false)],
               supply := n + 3)
  }

  function Respond(s: State, id: SessionId, remote: PublicKey, usable: bool): State {
    var cleared := Remove(s, id, None);
    if !usable then cleared
    else
      var n := s.supply;
      var poker := S.PokerState(n, None, SnowResponder(s.key, remote));
      cleared.(pokers := cleared.pokers[id := Entry(poker, n + 1)],
               running := cleared.running[n := Retransmit(id, S.HandshakePoke, n + 1)],
               readies := cleared.readies[n + 1 := Ready(id, 0, false, false)],
               supply := n + 2)
  }

  // ----- A packet -----

  /** Enter the established map, then signal the waiting future if it still exists. */
  function Upgrade(s: State, id: SessionId, oneTime: OneTimeId, session: S.SessionState): (t: State)
    ensures t.closing == s.closing
  {
    s.(established := s.established[id := Entry(session, oneTime)],
       readies := if oneTime in s.readies
                  then s.readies[oneTime := s.readies[oneTime].(signals := s.readies[oneTime].signals + 1)]
                  else s.readies)
  }

  /** A poker that was given an initiation answers it and becomes a responder, or is dropped. */
  function PokerReady(s: State, id: SessionId, oneTime: OneTimeId, p: S.PokerState, src: S.Addr, i: Initiation): (t: State)
    ensures t.closing == s.closing
  {
    var n := s.supply;
    var stopped := s.(pokers := s.pokers - {id}, running := s.running - {p.handle}, supply := n + 2);
    match p.responder.Answer(i, Ephemeral(s.key, n))
    case None => stopped
    case Some((key, response)) =>
      var r := S.ResponderState(n + 1, src, Stateless(key, Responding), 0, {}, false);
      stopped.(responders := s.responders[id := Entry(r, oneTime)],
               running := stopped.running[n + 1 := Retransmit(id, S.HandshakeResponse(response), oneTime)])
  }

  function PokerIncoming(s: State, src: S.Addr, id: SessionId, raw: Option<S.RawMessage>): (t: State)
    requires id in s.pokers
    ensures t.closing == s.closing
  {
    var e := s.pokers[id];
    var p := e.session.Incoming(src, raw);
    if p.IsReady()
    then PokerReady(s, id, e.oneTime, p, p.workingRemoteAddr.value.0, p.workingRemoteAddr.value.1)
    else s.(pokers := s.pokers[id := Entry(p, e.oneTime)])
  }

  /** An initiator that was given a response is established, or goes on waiting with its task aborted. */
  function InitiatorReady(s: State, id: SessionId, oneTime: OneTimeId, p: S.InitiatorState, src: S.Addr, r: Response): (t: State)
    ensures t.closing == s.closing
  {
    var aborted := s.(running := s.running - {p.handle});
    match p.initiator.ReceiveResponse(r)
    case None =>
      aborted.(initiators := s.initiators[id := Entry(p.(workingRemoteAddr := None), oneTime)])
    case Some(key) =>
      Upgrade(aborted.(initiators := s.initiators - {id}), id, oneTime, S.NewSession(src, Stateless(key, Initiating), 0, {}))
  }

  function InitiatorIncoming(s: State, src: S.Addr, id: SessionId, raw: Option<S.RawMessage>): (t: State)
    requires id in s.initiators
    ensures t.closing == s.closing
  {
    var e := s.initiators[id];
    var p := e.session.Incoming(src, raw);
    if p.IsReady() then InitiatorReady(s, id, e.oneTime, p, p.workingRemoteAddr.value.0, p.workingRemoteAddr.value.1)
    else s.(initiators := s.initiators[id := Entry(p, e.oneTime)])
  }

  function ResponderIncoming(s: State, f: S.Formats, id: SessionId, raw: Option<S.RawMessage>): (t: State)
    requires id in s.responders
    ensures t.closing == s.closing
  {
    var e := s.responders[id];
    var p := e.session.Incoming(f, raw);
    if !p.ready then s.(responders := s.responders[id := Entry(p, e.oneTime)])
    else
      Upgrade(s.(responders := s.responders - {id}, running := s.running - {p.handle}), id, e.oneTime, p.Session())
  }

  function EstablishedIncoming(s: State, f: S.Formats, id: SessionId, raw: Option<S.RawMessage>): (t: State)
    requires id in s.established
    ensures t.closing == s.closing
  {
    var e := s.established[id];
    s.(established := s.established[id := Entry(S.Incoming(f, e.session, raw).0, e.oneTime)])
  }

  function Incoming(s: State, f: S.Formats, src: S.Addr, id: SessionId, raw: Option<S.RawMessage>): (t: State)
    ensures t.closing == s.closing
  {
    if id in s.pokers then PokerIncoming(s, src, id, raw)
    else if id in s.initiators then InitiatorIncoming(s, src, id, raw)
    else if id in s.responders then ResponderIncoming(s, f, id, raw)
    else if id in s.established then EstablishedIncoming(s, f, id, raw)
    else s
  }

  // ----- Waiting, receiving, closing -----

  function PollReady(s: State, oneTime: OneTimeId): (State, bool) {
    if oneTime !in s.readies then (s, false)
    else
      var r := s.readies[oneTime];
      if r.signals > 0
      then (s.(readies := s.readies[oneTime := r.(signals := r.signals - 1, completed := true)]), true)
      else (s.(readies := s.readies[oneTime := r.(addedWaker := true)]), false)
  }

  function DropReady(s: State, oneTime: OneTimeId): State {
    if oneTime !in s.readies then s
    else
      var r := s.readies[oneTime];
      s.(readies := s.readies - {oneTime},
         closing := if r.completed then s.closing else s.closing + {(r.id, oneTime)})
  }

  /** Run a close that was requested earlier. */
  function Close(s: State, id: SessionId, oneTime: OneTimeId): State {
    if (id, oneTime) in s.closing
    then Remove(s, id, Some(oneTime)).(closing := s.closing - {(id, oneTime)})
    else s
  }

  /** A dead session is dropped when it is asked for a message. */
  function RecvFrom(s: State, id: SessionId): State {
    if id in s.established && s.established[id].session.dead then s.(established := s.established - {id}) else s
  }

  /** What an established session does on its own: write, tick, serve a receiver. */
  datatype Local = WriteMessage(m: S.Message) | Monitor | Poll(receiver: nat)

  function RunLocal(s: State, f: S.Formats, id: SessionId, l: Local): State {
    if id !in s.established then s
    else
      var e := s.established[id];
      var after := match l
        case WriteMessage(m) => S.Write(f, e.session, m).0
        case Monitor => S.MonitorTick(e.session)
        case Poll(r) => e.session.(inbox := S.Poll(e.session.inbox, e.session.dead, r).0);
      s.(established := s.established[id := Entry(after, e.oneTime)])
  }

  // ----- Runs of whole operations -----

  datatype Op =
    | OpInitiate(id: SessionId, remote: PublicKey, usable: bool)
    | OpRespond(id: SessionId, remote: PublicKey, usable: bool)
    | OpIncoming(src: S.Addr, id: SessionId, raw: Option<S.RawMessage>)
    | OpPollReady(oneTime: OneTimeId)
    | OpDropReady(oneTime: OneTimeId)
    | OpDropSession(id: SessionId, oneTime: OneTimeId)   // the user's session object goes away
    | OpClose(id: SessionId, oneTime: OneTimeId)
    | OpRecvFrom(id: SessionId)
    | OpLocal(id: SessionId, local: Local)

  function Apply(s: State, f: S.Formats, op: Op): State {
    match op
    case OpInitiate(id, remote, usable) => Initiate(s, id, remote, usable)
    case OpRespond(id, remote, usable) => Respond(s, id, remote, usable)
    case OpIncoming(src, id, raw) => Incoming(s, f, src, id, raw)
    case OpPollReady(oneTime) => PollReady(s, oneTime).0
    case OpDropReady(oneTime) => DropReady(s, oneTime)
    case OpDropSession(id, oneTime) => s.(closing := s.closing + {(id, oneTime)})
    case OpClose(id, oneTime) => Close(s, id, oneTime)
    case OpRecvFrom(id) => RecvFrom(s, id)
    case OpLocal(id, l) => RunLocal(s, f, id, l)
  }

  function Run(key: PublicKey, f: S.Formats, ops: seq<Op>): State {
    if ops == [] then Init(key) else Apply(Run(key, f, ops[..|ops| - 1]), f, ops[|ops| - 1])
  }
}
