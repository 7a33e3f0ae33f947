/**
 Any number of receivers waiting on one session (src/session.rs): nothing is lost or repeated,
 and when no wake-up is lost. A poll is two lock sections: it first tries the queue, then it
 updates the waker table.
 */
module Receivers {
  import opened Common
  import opened Session
  import L = SessionLaws

  /**
   `missed` are polls that found the queue empty and have not registered yet; `leaving` are
   polls that took a value and have not removed their waker yet; `gone` are dropped receivers.
   */
  datatype State = State(
    inbox: Inbox,
    missed: set<nat>,
    leaving: set<nat>,
    gone: set<nat>,
    dead: bool,
    enqueued: seq<Bytes>,
    returned: seq<Bytes>)

  const Init := State(EmptyInbox, {}, {}, {}, false, [], [])

  datatype Step =
    | Arrival(data: Bytes)
    | TryRecv(receiver: nat)     // the first lock section of a poll
    | Update(receiver: nat)      // the second one
    | Drop(receiver: nat)
    | Death                      // the monitor gives up on the session
    | Close

  predicate Polling(s: State, r: nat) {
    r in s.missed || r in s.leaving
  }

  function Next(s: State, step: Step): State {
    match step
    case Arrival(data) =>
      var inbox := Deliver(s.inbox, data);
      s.(inbox := inbox.(woken := inbox.woken - s.gone), enqueued := s.enqueued + [data])
    case TryRecv(r) =>
      if Polling(s, r) || r in s.gone then s
      else
        var polled := s.inbox.(woken := s.inbox.woken - {r});
        if s.dead then s.(inbox := polled)
        else if s.inbox.queue != [] then
          s.(inbox := polled.(queue := s.inbox.queue[1..]), leaving := s.leaving + {r},
             returned := s.returned + [s.inbox.queue[0]])
        else
          s.(inbox := polled, missed := s.missed + {r})
    case Update(r) =>
      if r in s.missed then
        s.(inbox := s.inbox.(wakers := s.inbox.wakers + {r}), missed := s.missed - {r})
      else if r in s.leaving then
        s.(inbox := s.inbox.(wakers := s.inbox.wakers - {r}, woken := s.inbox.woken - {r}), leaving := s.leaving - {r})
      else s
    case Drop(r) =>
      if Polling(s, r) then s
      else s.(inbox := s.inbox.(woken := s.inbox.woken - {r}), gone := s.gone + {r})
    case Death =>
      s.(inbox := s.inbox.(woken := s.inbox.woken + (s.inbox.wakers - s.gone)), dead := true)
    case Close =>
      s.(dead := true)
  }

  function Run(steps: seq<Step>): State {
    if steps == [] then Init else Next(Run(steps[..|steps| - 1]), steps[|steps| - 1])
  }

  /** With nothing between its two sections a poll is the poll of `Session`, and returns its answer. */
  lemma PollIsTwoSections(s: State, r: nat)
    requires !Polling(s, r) && r !in s.gone
    ensures var t := Next(Next(s, TryRecv(r)), Update(r));
            var (after, answer) := Poll(s.inbox, s.dead, r);
            && t.inbox == after
            && t.returned == s.returned + (if answer.Value? then [answer.data] else [])
            && (answer == Pending ==> r in t.inbox.wakers)
  {
  }

  /** An arrival is a packet that brings a payload; a dropped receiver is not there to be woken. */
  lemma ArrivalIsIncoming(f: Formats, session: SessionState, raw: Option<RawMessage>, s: State, data: Bytes)
    requires session.inbox == s.inbox && L.Brings(f, session.stateless, session.seen, raw) == Some(Payload(data))
    ensures var after := Incoming(f, session, raw).0.inbox;
            Next(s, Arrival(data)).inbox == after.(woken := after.woken - s.gone)
  {
  }

  /** The monitor's declaration of death is the death of the run, and a close is a close. */
  lemma DeathIsMonitorTick(session: SessionState, s: State)
    requires session.inbox == s.inbox && !session.heartbeat && s.inbox.woken !! s.gone
    ensures var t := MonitorTick(session);
            t.dead && Next(s, Death).dead && Next(s, Death).inbox == t.inbox.(woken := t.inbox.woken - s.gone)
  {
  }

  /** For any number of receivers and any schedule: payloads come back once each, in order. */
  lemma {:induction false} NothingLostOrRepeated(steps: seq<Step>)
    ensures Run(steps).enqueued == Run(steps).returned + Run(steps).inbox.queue
  {
    if steps != [] {
      NothingLostOrRepeated(steps[..|steps| - 1]);
    }
  }

  // ----- Wake-ups -----

  /** Every waiting receiver is covered: queued messages never outnumber receivers about to poll. */
  ghost predicate Covered(s: State) {
    s.inbox.wakers != {} ==> |s.inbox.queue| <= |s.inbox.woken|
  }

  /** An arrival finds no poll between its sections, and no receiver is dropped while pending. */
  predicate Orderly(s: State, step: Step) {
    match step
    case Arrival(_) => s.missed == {} && s.leaving == {}
    case Drop(r) => r !in s.inbox.wakers && r !in s.inbox.woken
    case Death => false
    case Close => false
    case _ => true
  }

  ghost predicate AllOrderly(steps: seq<Step>) {
    forall n :: 0 <= n < |steps| ==> Orderly(Run(steps[..n]), steps[n])
  }

  ghost predicate Inv(s: State) {
    && !s.dead
    && s.inbox.woken !! s.inbox.wakers
    && s.inbox.woken !! s.missed
    && s.inbox.woken !! s.gone
    && (s.inbox.wakers !! s.gone) && (s.missed !! s.gone)
    && (s.inbox.wakers != {} || s.missed != {} ==> |s.inbox.queue| <= |s.inbox.woken|)
  }

  /**
   The steps that break the account: the session ends; a message arrives while nobody is registered
   and a poll is failing, or wakes a receiver that is polling; a registered receiver is dropped; or
   a wake-up goes to a receiver that is dropped or done, while another waits and none is to spare.
   */
  predicate Breaks(s: State, step: Step) {
    var scarce := |s.inbox.queue| == |s.inbox.woken|;
    match step
    case Arrival(_) =>
      if s.inbox.wakers == {} then s.missed != {} && scarce else Least(s.inbox.wakers) in s.missed
    case TryRecv(_) => false
    case Update(r) =>
      r !in s.missed && r in s.leaving && r in s.inbox.woken
      && (s.inbox.wakers != {} || s.missed != {}) && scarce
    case Drop(r) =>
      !Polling(s, r)
      && (r in s.inbox.wakers || (r in s.inbox.woken && (s.inbox.wakers != {} || s.missed != {}) && scarce))
    case Death => true
    case Close => true
  }

  lemma StepBreaksIff(s: State, step: Step)
    requires Inv(s)
    ensures !Inv(Next(s, step)) <==> Breaks(s, step)
  {
    match step
    case Arrival(data) => ArrivalBreaksIff(s, data);
    case TryRecv(r) =>
      assert |s.inbox.woken - {r}| >= |s.inbox.woken| - 1;
    case Update(r) => UpdateBreaksIff(s, r);
    case Drop(r) =>
      if !Polling(s, r) { DropBreaksIff(s, r); }
    case _ =>
  }

  lemma ArrivalBreaksIff(s: State, data: Bytes)
    requires Inv(s)
    ensures !Inv(Next(s, Arrival(data))) <==> Breaks(s, Arrival(data))
  {
    var t := Next(s, Arrival(data));
    if s.inbox.wakers != {} {
      var w := Least(s.inbox.wakers);
      assert t.inbox.woken == s.inbox.woken + {w};
    } else {
      assert t.inbox.woken == s.inbox.woken;
    }
  }

  lemma UpdateBreaksIff(s: State, r: nat)
    requires Inv(s)
    ensures !Inv(Next(s, Update(r))) <==> Breaks(s, Update(r))
  {
    var t := Next(s, Update(r));
    if r in s.leaving && r !in s.missed {
      assert |t.inbox.woken| == |s.inbox.woken| - (if r in s.inbox.woken then 1 else 0);
      assert r in s.inbox.woken ==> t.inbox.wakers == s.inbox.wakers;
    }
  }

  /**
   Dropping a receiver breaks the account exactly when it is registered, or when it was woken
   and not polled since, somebody else waits or is about to, and no other wake-up is to spare.
   */
  lemma DropBreaksIff(s: State, r: nat)
    requires Inv(s) && !Polling(s, r)
    ensures !Inv(Next(s, Drop(r))) <==>
              || r in s.inbox.wakers
              || (r in s.inbox.woken && (s.inbox.wakers != {} || s.missed != {}) && |s.inbox.queue| == |s.inbox.woken|)
  {
    var t := Next(s, Drop(r));
    assert r in t.gone && t.inbox.woken == s.inbox.woken - {r} && t.inbox.queue == s.inbox.queue;
    if r in s.inbox.woken {
      assert |t.inbox.woken| == |s.inbox.woken| - 1;
    } else {
      assert t.inbox.woken == s.inbox.woken;
    }
  }

  /** The account holds at every point of the run. */
  ghost predicate AlwaysKept(steps: seq<Step>) {
    Inv(Run(steps)) && (steps == [] || AlwaysKept(steps[..|steps| - 1]))
  }

  /** No step of the run breaks it. */
  predicate NeverBroken(steps: seq<Step>) {
    steps == [] || (NeverBroken(steps[..|steps| - 1]) && !Breaks(Run(steps[..|steps| - 1]), steps[|steps| - 1]))
  }

  /** Over whole runs: the account is kept throughout if and only if no step breaks it. */
  lemma {:induction false} AccountKeptIff(steps: seq<Step>)
    ensures AlwaysKept(steps) <==> NeverBroken(steps)
    ensures NeverBroken(steps) ==> Covered(Run(steps))
  {
    if steps != [] {
      var before := steps[..|steps| - 1];
      AccountKeptIff(before);
      if AlwaysKept(before) {
        StepBreaksIff(Run(before), steps[|steps| - 1]);
      }
    }
  }

  /** An orderly step breaks nothing, and wakes nobody who is done. */
  lemma StepKeepsInv(s: State, step: Step)
    requires Inv(s) && s.inbox.woken !! s.leaving && Orderly(s, step)
    ensures Inv(Next(s, step)) && Next(s, step).inbox.woken !! Next(s, step).leaving
  {
    assert !Breaks(s, step);
    StepBreaksIff(s, step);
  }

  /**
   No lost wake-up: in every such run, whenever a receiver is registered, the queued messages are
   at most the receivers woken but not yet polled. So nobody waits beside a message unnoticed.
   */
  lemma {:induction false} NoLostWakeup(steps: seq<Step>)
    requires AllOrderly(steps)
    ensures Inv(Run(steps)) && Covered(Run(steps)) && Run(steps).inbox.woken !! Run(steps).leaving
  {
    if steps != [] {
      var before := steps[..|steps| - 1];
      forall n | 0 <= n < |before| ensures Orderly(Run(before[..n]), before[n]) {
        assert before[..n] == steps[..n];
      }
      NoLostWakeup(before);
      StepKeepsInv(Run(before), steps[|steps| - 1]);
    }
  }

  /** A receiver waits, a message is queued, and nobody is going to poll. */
  ghost predicate Stuck(s: State) {
    !s.dead && s.inbox.wakers - s.gone != {} && s.inbox.queue != [] && s.inbox.woken == {}
    && s.missed == {} && s.leaving == {}
  }

  /** An orderly run never gets stuck. */
  lemma {:induction false} OrderlyNeverStuck(steps: seq<Step>)
    requires AllOrderly(steps)
    ensures !Stuck(Run(steps))
  {
    NoLostWakeup(steps);
  }

  lemma RunSnoc(before: seq<Step>, step: Step)
    ensures Run(before + [step]) == Next(Run(before), step)
  {
    assert (before + [step])[..|before|] == before;
  }

  /**
   An arrival between the two sections of a failing poll leaves the wake-ups short exactly when
   nobody else was registered and every earlier message already had its own receiver.
   */
  lemma ArrivalInsidePollIff(s: State, r: nat, data: Bytes)
    requires Inv(s) && r in s.missed
    ensures !Covered(Next(Next(s, Arrival(data)), Update(r))) <==>
              s.inbox.wakers == {} && |s.inbox.queue| == |s.inbox.woken|
  {
    var t := Next(s, Arrival(data));
    assert r in Next(t, Update(r)).inbox.wakers;
    if s.inbox.wakers != {} {
      assert t.inbox.woken == s.inbox.woken + {Least(s.inbox.wakers)};
    }
  }

  /** Runs that end stuck: an arrival between the sections of a failing poll is not noticed. */
  lemma ArrivalInsidePollGetsStuck(data: Bytes)
    ensures Stuck(Run([TryRecv(1), Arrival(data), Update(1)]))
  {
    RunThree([], TryRecv(1), Arrival(data), Update(1));
    assert [] + [TryRecv(1), Arrival(data), Update(1)] == [TryRecv(1), Arrival(data), Update(1)];
  }

  /** And a dropped receiver that stays in the table swallows the wake-up of another. */
  lemma DroppedReceiverGetsStuck(data: Bytes)
    ensures Stuck(Run([TryRecv(1), Update(1), TryRecv(2), Update(2), Drop(1), Arrival(data)]))
  {
    var s0 := Init;
    var s4 := Next(Next(Next(Next(s0, TryRecv(1)), Update(1)), TryRecv(2)), Update(2));
    assert s4.inbox.wakers == {1, 2} && s4.inbox.woken == {} && s4.inbox.queue == [] && s4.missed == {};
    var s5 := Next(s4, Drop(1));
    assert s5.gone == {1} && s5.inbox.wakers == {1, 2};
    assert Least(s5.inbox.wakers) == 1;
    var s6 := Next(s5, Arrival(data));
    assert 2 in s6.inbox.wakers - s6.gone;
    assert s6.inbox.woken == {};
    RunSix(TryRecv(1), Update(1), TryRecv(2), Update(2), Drop(1), Arrival(data));
  }

  lemma RunThree(before: seq<Step>, a: Step, b: Step, c: Step)
    ensures Run(before + [a, b, c]) == Next(Next(Next(Run(before), a), b), c)
  {
    RunSnoc(before, a);
    RunSnoc(before + [a], b);
    RunSnoc(before + [a] + [b], c);
    assert before + [a, b, c] == before + [a] + [b] + [c];
  }

  lemma RunSix(a: Step, b: Step, c: Step, d: Step, e: Step, f: Step)
    ensures Run([a, b, c, d, e, f]) == Next(Next(Next(Next(Next(Next(Init, a), b), c), d), e), f)
  {
    RunThree([], a, b, c);
    RunThree([a, b, c], d, e, f);
    assert [] + [a, b, c] == [a, b, c];
    assert [a, b, c] + [d, e, f] == [a, b, c, d, e, f];
  }

  /** When the monitor declares death every registered receiver is woken; closing wakes nobody. */
  lemma DeathWakesAll(s: State)
    ensures s.inbox.wakers - s.gone <= Next(s, Death).inbox.woken
    ensures Next(s, Close).inbox == s.inbox
    ensures forall r :: !Polling(s, r) && r !in s.gone ==>
              Poll(Next(s, Death).inbox, true, r).1 == Disconnected
  {
  }
}
