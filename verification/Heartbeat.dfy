/**
 The heartbeat monitor against time (src/session.rs): when it declares a session dead.
 Times are milliseconds since the session was created.
 */
module Heartbeat {
  import opened Common
  import opened Session
  import L = SessionLaws

  const PERIOD: nat := 5000

  /** An accepted keepalive, or a tick of the monitor. */
  datatype Event = Beat(at: nat) | Tick(at: nat)

  /** The monitor stops once it has declared death. */
  function Apply(s: SessionState, e: Event): SessionState {
    if e.Beat? then s.(heartbeat := true)
    else if s.dead then s
    else MonitorTick(s)
  }

  function Run(s: SessionState, trace: seq<Event>): SessionState {
    if trace == [] then s else Apply(Run(s, trace[..|trace| - 1]), trace[|trace| - 1])
  }

  function Ticks(trace: seq<Event>): nat {
    if trace == [] then 0 else Ticks(trace[..|trace| - 1]) + (if trace[|trace| - 1].Tick? then 1 else 0)
  }

  /** Time of the last accepted keepalive; creation counts as one. */
  function LastBeat(trace: seq<Event>): nat {
    if trace == [] then 0
    else if trace[|trace| - 1].Beat? then trace[|trace| - 1].at
    else LastBeat(trace[..|trace| - 1])
  }

  /** Events in the order of their times, with the ticks exactly one period apart. */
  ghost predicate WellTimed(trace: seq<Event>, first: nat) {
    && (forall i, j :: 0 <= i < j < |trace| ==> trace[i].at <= trace[j].at)
    && (forall n :: 0 <= n < |trace| && trace[n].Tick? ==> trace[n].at == first + PERIOD * Ticks(trace[..n]))
  }

  /** No event finds the last keepalive a period or more behind. */
  ghost predicate Steady(trace: seq<Event>) {
    forall n :: 0 <= n < |trace| ==> trace[n].at < LastBeat(trace[..n]) + PERIOD
  }

  lemma WellTimedPrefix(trace: seq<Event>, first: nat)
    requires trace != [] && WellTimed(trace, first)
    ensures WellTimed(trace[..|trace| - 1], first)
  {
    var before := trace[..|trace| - 1];
    forall n | 0 <= n < |before| && before[n].Tick? ensures before[n].at == first + PERIOD * Ticks(before[..n]) {
      assert before[..n] == trace[..n];
    }
  }

  lemma SteadyPrefix(trace: seq<Event>)
    requires trace != [] && Steady(trace)
    ensures Steady(trace[..|trace| - 1])
  {
    var before := trace[..|trace| - 1];
    forall n | 0 <= n < |before| ensures before[n].at < LastBeat(before[..n]) + PERIOD {
      assert before[..n] == trace[..n];
    }
  }

  /** A cleared flag dates the last keepalive: it is no later than the last tick. */
  lemma {:induction false} ClearedFlag(s: SessionState, trace: seq<Event>, first: nat)
    requires s.heartbeat && !s.dead && WellTimed(trace, first)
    ensures var t := Run(s, trace);
            !t.dead && !t.heartbeat ==> Ticks(trace) >= 1 && LastBeat(trace) <= first + PERIOD * (Ticks(trace) - 1)
    ensures trace != [] ==> LastBeat(trace) <= trace[|trace| - 1].at
  {
    if trace != [] {
      WellTimedPrefix(trace, first);
      ClearedFlag(s, trace[..|trace| - 1], first);
    }
  }

  /** While keepalives keep coming in less than a period apart, the monitor never declares death. */
  lemma {:induction false} SteadyStaysAlive(s: SessionState, trace: seq<Event>, first: nat)
    requires s.heartbeat && !s.dead && WellTimed(trace, first) && Steady(trace)
    ensures !Run(s, trace).dead
  {
    if trace != [] {
      var before, e := trace[..|trace| - 1], trace[|trace| - 1];
      WellTimedPrefix(trace, first);
      SteadyPrefix(trace);
      SteadyStaysAlive(s, before, first);
      ClearedFlag(s, before, first);
    }
  }

  /** Two ticks with no keepalive between them. */
  ghost predicate Silent(trace: seq<Event>, i: nat, j: nat) {
    i < j < |trace| && trace[i].Tick? && trace[j].Tick? && forall k :: i < k < j ==> !trace[k].Beat?
  }

  /** The flag is clear in a live session exactly when a tick came after the last keepalive. */
  lemma {:induction false} FlagIff(s: SessionState, trace: seq<Event>)
    requires s.heartbeat && !s.dead
    ensures !Run(s, trace).dead ==>
              (!Run(s, trace).heartbeat <==>
                 exists i :: 0 <= i < |trace| && trace[i].Tick? && forall k :: i < k < |trace| ==> !trace[k].Beat?)
  {
    if trace != [] {
      var before := trace[..|trace| - 1];
      FlagIff(s, before);
      if !Run(s, trace).dead && trace[|trace| - 1].Tick? {
        assert trace[|trace| - 1].Tick?;
      }
    }
  }

  /** A session is dead exactly when some two ticks had no keepalive between them. */
  lemma {:induction false} DeadIffSilent(s: SessionState, trace: seq<Event>)
    requires s.heartbeat && !s.dead
    ensures Run(s, trace).dead <==> exists i, j :: Silent(trace, i, j)
  {
    if trace != [] {
      var before, n := trace[..|trace| - 1], |trace| - 1;
      DeadIffSilent(s, before);
      FlagIff(s, before);
      if Run(s, before).dead {
        var i, j :| Silent(before, i, j);
        assert Silent(trace, i, j);
      } else if trace[n].Tick? && !Run(s, before).heartbeat {
        var i :| 0 <= i < |before| && before[i].Tick? && forall k :: i < k < |before| ==> !before[k].Beat?;
        assert trace[i] == before[i];
        assert Silent(trace, i, n);
      } else {
        forall i: nat, j: nat ensures !Silent(trace, i, j) {
          assert i < n ==> before[i] == trace[i];
          assert j < n && Silent(trace, i, j) ==> Silent(before, i, j);
        }
      }
    }
  }

  lemma {:induction false} DeathLasts(s: SessionState, trace: seq<Event>, n: nat)
    requires n <= |trace| && Run(s, trace[..n]).dead
    ensures Run(s, trace).dead
    decreases |trace|
  {
    if n < |trace| {
      assert trace[..|trace| - 1][..n] == trace[..n];
      DeathLasts(s, trace[..|trace| - 1], n);
    } else {
      assert trace[..n] == trace;
    }
  }

  // ----- Death against everything that can happen to a session -----

  datatype Change =
    | Packet(raw: Option<RawMessage>)
    | Encrypt(message: Message)
    | PollBy(receiver: nat)
    | MonitorRuns
    | Closed

  function Changed(f: Formats, s: SessionState, c: Change): SessionState {
    match c
    case Packet(raw) => Incoming(f, s, raw).0
    case Encrypt(m) => Write(f, s, m).0
    case PollBy(r) => s.(inbox := Poll(s.inbox, s.dead, r).0)
    case MonitorRuns => MonitorTick(s)
    case Closed => s.(dead := true)
  }

  function AllChanged(f: Formats, s: SessionState, changes: seq<Change>): SessionState {
    if changes == [] then s else Changed(f, AllChanged(f, s, changes[..|changes| - 1]), changes[|changes| - 1])
  }

  /** Only the monitor, with the flag clear, and a close make a live session dead. */
  predicate Kills(s: SessionState, c: Change) {
    c.Closed? || (c.MonitorRuns? && !s.heartbeat)
  }

  lemma ChangedDead(f: Formats, s: SessionState, c: Change)
    ensures Changed(f, s, c).dead <==> s.dead || Kills(s, c)
  {
  }

  /**
   Death is final: whatever happens to a dead session, it stays dead and every poll of it reports
   the disconnection. And a session dies of nothing but the two causes.
   */
  lemma {:induction false} DeathIsFinal(f: Formats, s: SessionState, changes: seq<Change>)
    ensures AllChanged(f, s, changes).dead <==>
              s.dead || exists n :: 0 <= n < |changes| && Kills(AllChanged(f, s, changes[..n]), changes[n])
    ensures s.dead ==> forall r :: Poll(AllChanged(f, s, changes).inbox, AllChanged(f, s, changes).dead, r).1 == Disconnected
  {
    if changes != [] {
      var k := |changes| - 1;
      var before := changes[..k];
      DeathIsFinal(f, s, before);
      forall n | 0 <= n < k ensures before[..n] == changes[..n] && before[n] == changes[n] {
      }
      ChangedDead(f, AllChanged(f, s, before), changes[k]);
    }
  }

  // ----- How fast a silent session dies -----

  lemma {:induction false} LastBeatBounds(trace: seq<Event>, first: nat, k: nat)
    requires WellTimed(trace, first) && k < |trace| && trace[k].Beat?
    ensures trace[k].at <= LastBeat(trace)
  {
    if k < |trace| - 1 {
      WellTimedPrefix(trace, first);
      LastBeatBounds(trace[..|trace| - 1], first, k);
    }
  }

  lemma {:induction false} PreviousTick(trace: seq<Event>, first: nat, n: nat) returns (m: nat)
    requires WellTimed(trace, first) && n <= |trace| && Ticks(trace[..n]) >= 1
    ensures m < n && trace[m].Tick? && trace[m].at == first + PERIOD * (Ticks(trace[..n]) - 1)
  {
    if trace[n - 1].Tick? {
      m := n - 1;
      assert trace[..n][..n - 1] == trace[..n - 1];
    } else {
      assert trace[..n][..n - 1] == trace[..n - 1];
      m := PreviousTick(trace, first, n - 1);
    }
  }

  /** Every tick more than a period after the last keepalive leaves the session dead. */
  lemma LateTickKills(s: SessionState, trace: seq<Event>, first: nat, n: nat)
    requires s.heartbeat && !s.dead && WellTimed(trace, first)
    requires n < |trace| && trace[n].Tick? && trace[n].at > first && trace[n].at > LastBeat(trace) + PERIOD
    ensures Run(s, trace[..n + 1]).dead && Run(s, trace).dead
  {
    var m := SilentUntil(trace, first, n);
    DeadIffSilent(s, trace[..n + 1]);
    DeathLasts(s, trace, n + 1);
  }

  lemma SilentUntil(trace: seq<Event>, first: nat, n: nat) returns (m: nat)
    requires WellTimed(trace, first)
    requires n < |trace| && trace[n].Tick? && trace[n].at > first && trace[n].at > LastBeat(trace) + PERIOD
    ensures Silent(trace[..n + 1], m, n)
  {
    assert Ticks(trace[..n]) >= 1;
    m := PreviousTick(trace, first, n);
    forall k | m < k < n ensures !trace[k].Beat? {
      if trace[k].Beat? { LastBeatBounds(trace, first, k); }
    }
  }

  /** Once every tick due within 10000 ms of the last keepalive has happened, the session is dead. */
  lemma SilentSessionDies(s: SessionState, trace: seq<Event>, first: nat)
    requires s.heartbeat && !s.dead && WellTimed(trace, first) && first <= LastBeat(trace)
    requires first + PERIOD * Ticks(trace) > LastBeat(trace) + 2 * PERIOD
    ensures Run(s, trace).dead
  {
    assert trace[..|trace|] == trace;
    var n := PreviousTick(trace, first, |trace|);
    LateTickKills(s, trace, first, n);
  }

  /** The tick that declares death is the second event since the last keepalive, or since creation. */
  lemma SecondTickKills(s: SessionState, trace: seq<Event>, k: nat, n: nat)
    requires s.heartbeat && !s.dead && k <= n < |trace|
    requires k == 0 || trace[k - 1].Beat?
    requires forall j :: k <= j < n ==> !trace[j].Beat?
    requires !Run(s, trace[..n]).dead && Run(s, trace[..n + 1]).dead
    ensures n == k + 1 && trace[k].Tick? && trace[n].Tick?
  {
    var before := trace[..n];
    assert trace[..n + 1][..n] == before;
    FlagIff(s, before);
    var i :| 0 <= i < |before| && before[i].Tick? && forall j :: i < j < |before| ==> !before[j].Beat?;
    assert before[i] == trace[i] && (k > 0 ==> before[k - 1] == trace[k - 1]);
  }

  lemma {:induction false} LastBeatSince(trace: seq<Event>, k: nat, n: nat)
    requires k <= n <= |trace| && (k == 0 || trace[k - 1].Beat?) && forall j :: k <= j < n ==> !trace[j].Beat?
    ensures LastBeat(trace[..n]) == if k == 0 then 0 else trace[k - 1].at
  {
    if n > k {
      assert trace[..n][..n - 1] == trace[..n - 1];
      LastBeatSince(trace, k, n - 1);
    } else if k > 0 {
      assert trace[..n][n - 1] == trace[k - 1];
    }
  }

  lemma {:induction false} SinceLastBeat(trace: seq<Event>, n: nat) returns (k: nat)
    requires n <= |trace|
    ensures k <= n && (k == 0 || trace[k - 1].Beat?) && forall j :: k <= j < n ==> !trace[j].Beat?
  {
    if n == 0 || trace[n - 1].Beat? {
      k := n;
    } else {
      k := SinceLastBeat(trace, n - 1);
    }
  }

  /** The last keepalive before the n-th event came just after a tick at the very same time. */
  ghost predicate JustMissed(trace: seq<Event>, n: nat)
    requires n <= |trace|
  {
    exists i, k :: 0 <= i < k < n && trace[i].Tick? && trace[k].Beat? && trace[i].at == trace[k].at
                   && forall j :: k < j < n ==> !trace[j].Beat?
  }

  /**
   For every session, with creation counted as a keepalive. The monitor declares death at least a
   period after the last keepalive, and in less than 10000 ms exactly when its first tick is less
   than a period late and no tick was handled at the time of that keepalive just before it. With
   the first tick in time, 10000 ms are never exceeded.
   */
  lemma DeathWithinDeadlineIff(s: SessionState, trace: seq<Event>, first: nat, n: nat)
    requires s.heartbeat && !s.dead && WellTimed(trace, first) && n < |trace|
    requires !Run(s, trace[..n]).dead && Run(s, trace[..n + 1]).dead
    ensures var u := LastBeat(trace[..n]);
            && u + PERIOD <= trace[n].at
            && (trace[n].at < u + 2 * PERIOD <==> first < u + PERIOD && !JustMissed(trace, n))
            && (first <= u + PERIOD ==> trace[n].at <= u + 2 * PERIOD)
  {
    var k := SinceLastBeat(trace, n);
    LastBeatSince(trace, k, n);
    SecondTickKills(s, trace, k, n);
    assert trace[..n][..k] == trace[..k];
    var t := Ticks(trace[..k]);
    assert trace[k].at == first + PERIOD * t && trace[n].at == first + PERIOD * (t + 1);
    JustMissedIff(trace, first, k, n);
    if k > 0 && t >= 1 {
      NotTicked(trace, k);
      var m := PreviousTick(trace, first, k - 1);
      assert trace[m].at <= trace[k - 1].at <= trace[k].at;
    }
  }

  /** The number of ticks so far tells whether the last keepalive just missed one. */
  lemma JustMissedIff(trace: seq<Event>, first: nat, k: nat, n: nat)
    requires WellTimed(trace, first) && k <= n <= |trace| && (k == 0 || trace[k - 1].Beat?)
    requires forall j :: k <= j < n ==> !trace[j].Beat?
    ensures JustMissed(trace, n) <==>
              k > 0 && Ticks(trace[..k]) >= 1 && trace[k - 1].at == first + PERIOD * (Ticks(trace[..k]) - 1)
  {
    if JustMissed(trace, n) {
      var j, b :| 0 <= j < b < n && trace[j].Tick? && trace[b].Beat? && trace[j].at == trace[b].at
                  && forall h :: b < h < n ==> !trace[h].Beat?;
      assert b == k - 1;
      TickCounted(trace, j, k);
    }
    if k > 0 && Ticks(trace[..k]) >= 1 {
      NotTicked(trace, k);
      var m := PreviousTick(trace, first, k - 1);
      assert m < k - 1 && trace[m].at <= trace[k - 1].at;
      if trace[m].at == trace[k - 1].at {
        assert JustMissed(trace, n);
      }
    }
  }

  lemma NotTicked(trace: seq<Event>, k: nat)
    requires 0 < k <= |trace| && trace[k - 1].Beat?
    ensures Ticks(trace[..k]) == Ticks(trace[..k - 1])
  {
    assert trace[..k][..k - 1] == trace[..k - 1];
  }

  lemma {:induction false} TickCounted(trace: seq<Event>, j: nat, k: nat)
    requires j < k <= |trace| && trace[j].Tick?
    ensures Ticks(trace[..j]) + 1 <= Ticks(trace[..k])
  {
    assert trace[..k][..k - 1] == trace[..k - 1];
    if j < k - 1 {
      TickCounted(trace, j, k - 1);
    }
  }

  /** The deadline can be met only just: a keepalive right after a tick at the same time. */
  lemma DeadlineIsExact(s: SessionState)
    requires s.heartbeat && !s.dead
    ensures var trace := [Tick(0), Beat(0), Tick(5000), Tick(10000)];
            && WellTimed(trace, 0) && LastBeat(trace) == 0
            && !Run(s, trace[..3]).dead && Run(s, trace).dead
  {
    var trace := [Tick(0), Beat(0), Tick(5000), Tick(10000)];
    var t1, t2 := [Tick(0)], [Tick(0), Beat(0)];
    var t3 := [Tick(0), Beat(0), Tick(5000)];
    assert trace[..0] == [] && trace[..1] == t1 && trace[..2] == t2 && trace[..3] == t3;
    Snoc(s, [], Tick(0), t1);
    Snoc(s, t1, Beat(0), t2);
    Snoc(s, t2, Tick(5000), t3);
    Snoc(s, t3, Tick(10000), trace);
  }

  lemma Snoc(s: SessionState, before: seq<Event>, e: Event, trace: seq<Event>)
    requires trace == before + [e]
    ensures Run(s, trace) == Apply(Run(s, before), e)
    ensures Ticks(trace) == Ticks(before) + (if e.Tick? then 1 else 0)
    ensures LastBeat(trace) == if e.Beat? then e.at else LastBeat(before)
  {
    assert trace[..|trace| - 1] == before;
  }

  // ----- The monitor of a session that is in use -----

  /** Something that happens to a session, at a time. */
  datatype Timed = Timed(change: Change, at: nat)

  function After(f: Formats, s: SessionState, trace: seq<Timed>): SessionState {
    if trace == [] then s else Changed(f, After(f, s, trace[..|trace| - 1]), trace[|trace| - 1].change)
  }

  /** The part of it that matters to the monitor: its own ticks, and the packets that bring a keepalive. */
  function Mark(f: Formats, s: SessionState, e: Timed): seq<Event> {
    match e.change
    case MonitorRuns => [Tick(e.at)]
    case Packet(raw) => if L.Brings(f, s.stateless, s.seen, raw) == Some(Keepalive) then [Beat(e.at)] else []
    case _ => []
  }

  function Marks(f: Formats, s: SessionState, trace: seq<Timed>): seq<Event> {
    if trace == [] then []
    else
      var before := trace[..|trace| - 1];
      Marks(f, s, before) + Mark(f, After(f, s, before), trace[|trace| - 1])
  }

  predicate SameFlags(s: SessionState, t: SessionState) {
    s.dead == t.dead && (!s.dead ==> s.heartbeat == t.heartbeat)
  }

  lemma MarkIsStep(f: Formats, s: SessionState, t: SessionState, e: Timed)
    requires SameFlags(s, t) && !e.change.Closed?
    ensures SameFlags(Changed(f, s, e.change), Run(t, Mark(f, s, e)))
  {
    if e.change.Packet? { L.IncomingIff(f, s, e.change.raw); }
    L.MonitorIff(s);
    var marks := Mark(f, s, e);
    if marks != [] {
      assert marks[..|marks| - 1] == [] && Run(t, marks) == Apply(t, marks[0]);
    }
  }

  lemma {:induction false} RunAppend(s: SessionState, a: seq<Event>, b: seq<Event>)
    ensures Run(s, a + b) == Run(Run(s, a), b)
  {
    if b == [] {
      assert a + [] == a;
    } else {
      RunAppend(s, a, b[..|b| - 1]);
      assert (a + b)[..|a + b| - 1] == a + b[..|b| - 1];
    }
  }

  /** Packets, writes and polls in between do not matter: the flags are those of the marks. */
  lemma {:induction false} FlagsFollowMarks(f: Formats, s: SessionState, trace: seq<Timed>)
    requires forall e :: e in trace ==> !e.change.Closed?
    ensures SameFlags(After(f, s, trace), Run(s, Marks(f, s, trace)))
  {
    if trace != [] {
      var before, e := trace[..|trace| - 1], trace[|trace| - 1];
      assert e in trace;
      FlagsFollowMarks(f, s, before);
      MarkIsStep(f, After(f, s, before), Run(s, Marks(f, s, before)), e);
      RunAppend(s, Marks(f, s, before), Mark(f, After(f, s, before), e));
    }
  }

  /** A session in use, whose accepted keepalive packets are less than a period apart, is never declared dead. */
  lemma {:induction false} SteadySessionLives(f: Formats, s: SessionState, trace: seq<Timed>, first: nat)
    requires s.heartbeat && !s.dead && forall e :: e in trace ==> !e.change.Closed?
    requires WellTimed(Marks(f, s, trace), first) && Steady(Marks(f, s, trace))
    ensures !After(f, s, trace).dead
  {
    FlagsFollowMarks(f, s, trace);
    SteadyStaysAlive(s, Marks(f, s, trace), first);
  }

  ghost predicate HasSilence(trace: seq<Event>) {
    exists i, j :: Silent(trace, i, j)
  }

  /** It is dead exactly when some two ticks had no accepted keepalive packet between them. */
  lemma {:induction false} SessionDeadIffSilent(f: Formats, s: SessionState, trace: seq<Timed>)
    requires s.heartbeat && !s.dead && forall e :: e in trace ==> !e.change.Closed?
    ensures After(f, s, trace).dead <==> HasSilence(Marks(f, s, trace))
  {
    FlagsFollowMarks(f, s, trace);
    DeadIffSilent(s, Marks(f, s, trace));
  }
}
