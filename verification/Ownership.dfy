/**
 The handler at the granularity of its locks (src/handler.rs): any number of concurrent calls,
 each of which takes an entry out of a map under one lock and puts it back under another. An
 incarnation is one value that is moved, never copied.
 */
module Ownership {
  import opened Common

  type SessionId = nat
  type OneTimeId = nat
  type Task = nat

  /** The four maps, and the four kinds of session. */
  datatype Stage = Poker | Initiator | Responder | Established

  datatype Local = Local(id: SessionId, oneTime: OneTimeId, stage: Stage)

  /** The entries of all four maps, and the entry that each running call holds. */
  datatype State = State(
    held: map<(Stage, SessionId), OneTimeId>,
    flight: map<Task, Local>,
    supply: nat)

  const Init := State(map[], map[], 0)

  datatype Step =
    | New(stage: Stage, id: SessionId)                  // `initiate` and `respond` insert a fresh entry
    | Take(task: Task, stage: Stage, id: SessionId)     // a packet takes an entry out of its map
    | Advance(task: Task)                               // the call turns what it holds into the next stage
    | PutBack(task: Task)                               // and inserts it into the map of its stage
    | Discard(task: Task)                               // or drops it
    | RemoveAt(stage: Stage, id: SessionId, oneTime: Option<OneTimeId>)   // one section of `remove_session`

  function Onward(stage: Stage): Stage {
    if stage == Poker then Responder else Established
  }

  /** A step that cannot happen does not. An insertion drops whatever it replaces. */
  function Next(s: State, step: Step): State {
    match step
    case New(stage, id) =>
      if stage == Poker || stage == Initiator
      then s.(held := s.held[(stage, id) := s.supply], supply := s.supply + 1)
      else s
    case Take(task, stage, id) =>
      if task !in s.flight && (stage, id) in s.held && stage != Established
      then s.(held := s.held - {(stage, id)}, flight := s.flight[task := Local(id, s.held[(stage, id)], stage)])
      else s
    case Advance(task) =>
      if task in s.flight && s.flight[task].stage != Established
      then s.(flight := s.flight[task := s.flight[task].(stage := Onward(s.flight[task].stage))])
      else s
    case PutBack(task) =>
      if task in s.flight
      then
        var l := s.flight[task];
        s.(held := s.held[(l.stage, l.id) := l.oneTime], flight := s.flight - {task})
      else s
    case Discard(task) =>
      s.(flight := s.flight - {task})
    case RemoveAt(stage, id, oneTime) =>
      if (stage, id) in s.held && (oneTime.None? || oneTime.value == s.held[(stage, id)])
      then s.(held := s.held - {(stage, id)})
      else s
  }

  function Run(steps: seq<Step>): State {
    if steps == [] then Init else Next(Run(steps[..|steps| - 1]), steps[|steps| - 1])
  }

  // ----- Where an incarnation is -----

  datatype Place = InMap(stage: Stage, id: SessionId) | InFlight(task: Task)

  predicate At(s: State, p: Place, o: OneTimeId) {
    match p
    case InMap(stage, id) => (stage, id) in s.held && s.held[(stage, id)] == o
    case InFlight(task) => task in s.flight && s.flight[task].oneTime == o
  }

  function StageAt(s: State, p: Place, o: OneTimeId): Stage
    requires At(s, p, o)
  {
    if p.InMap? then p.stage else s.flight[p.task].stage
  }

  function IdAt(s: State, p: Place, o: OneTimeId): SessionId
    requires At(s, p, o)
  {
    if p.InMap? then p.id else s.flight[p.task].id
  }

  /** Each one-time id is in one place at most. */
  ghost predicate Linear(s: State) {
    && (forall p, o: OneTimeId :: At(s, p, o) ==> o < s.supply)
    && forall p, q, o :: At(s, p, o) && At(s, q, o) ==> p == q
  }

  /** The stages an incarnation can go through from one on. */
  predicate Reaches(a: Stage, b: Stage) {
    a == b || b == Established || (a == Poker && b == Responder)
  }

  /** Old incarnations in the later state come from the earlier one, under the same id, and went forward. */
  ghost predicate Forward(s: State, t: State) {
    && s.supply <= t.supply
    && forall q, o: OneTimeId :: At(t, q, o) && o < s.supply ==>
         exists p :: At(s, p, o) && IdAt(s, p, o) == IdAt(t, q, o) && Reaches(StageAt(s, p, o), StageAt(t, q, o))
  }

  /** Where the incarnation that is now at `q` was before the step. */
  function Before(s: State, step: Step, q: Place): Place {
    match step
    case Take(task, stage, id) => if q == InFlight(task) && task !in s.flight then InMap(stage, id) else q
    case PutBack(task) =>
      if task in s.flight && q == InMap(s.flight[task].stage, s.flight[task].id) then InFlight(task) else q
    case _ => q
  }

  lemma StepOrigin(s: State, step: Step, q: Place, o: OneTimeId)
    requires At(Next(s, step), q, o)
    ensures || (o == s.supply && step.New? && q == InMap(step.stage, step.id))
            || (At(s, Before(s, step, q), o)
                && IdAt(s, Before(s, step, q), o) == IdAt(Next(s, step), q, o)
                && Reaches(StageAt(s, Before(s, step, q), o), StageAt(Next(s, step), q, o)))
  {
  }

  lemma StepIsLinear(s: State, step: Step)
    requires Linear(s)
    ensures Linear(Next(s, step)) && Forward(s, Next(s, step))
  {
    var t := Next(s, step);
    forall q, o: OneTimeId | At(t, q, o)
      ensures o < t.supply
      ensures o < s.supply ==>
                exists p :: At(s, p, o) && IdAt(s, p, o) == IdAt(t, q, o) && Reaches(StageAt(s, p, o), StageAt(t, q, o))
    {
      StepOrigin(s, step, q, o);
    }
    forall p, q, o | At(t, p, o) && At(t, q, o) ensures p == q {
      StepOrigin(s, step, p, o);
      StepOrigin(s, step, q, o);
    }
  }

  lemma ForwardTransitive(s: State, t: State, u: State)
    requires Forward(s, t) && Forward(t, u)
    ensures Forward(s, u)
  {
    forall r, o: OneTimeId | At(u, r, o) && o < s.supply
      ensures exists p :: At(s, p, o) && IdAt(s, p, o) == IdAt(u, r, o) && Reaches(StageAt(s, p, o), StageAt(u, r, o))
    {
      var q :| At(t, q, o) && IdAt(t, q, o) == IdAt(u, r, o) && Reaches(StageAt(t, q, o), StageAt(u, r, o));
      var p :| At(s, p, o) && IdAt(s, p, o) == IdAt(t, q, o) && Reaches(StageAt(s, p, o), StageAt(t, q, o));
    }
  }

  /**
   Linear ownership. For every interleaving of the lock sections of any number of calls: each
   one-time id is in at most one place, its session id never changes, its stage only moves
   forward, and once it is nowhere it never comes back.
   */
  lemma {:induction false} LinearOwnership(steps: seq<Step>, n: nat)
    requires n <= |steps|
    ensures Linear(Run(steps))
    ensures Forward(Run(steps[..n]), Run(steps))
    decreases |steps|
  {
    if steps == [] {
      assert steps[..n] == steps;
    } else {
      var before := steps[..|steps| - 1];
      LinearOwnership(before, if n < |steps| then n else 0);
      StepIsLinear(Run(before), steps[|steps| - 1]);
      if n == |steps| {
        assert steps[..n] == steps;
      } else {
        assert before[..n] == steps[..n];
        ForwardTransitive(Run(steps[..n]), Run(before), Run(steps));
      }
    }
  }

  lemma DroppedStaysDropped(steps: seq<Step>, n: nat, o: OneTimeId)
    requires n <= |steps| && o < Run(steps[..n]).supply
    requires forall p :: !At(Run(steps[..n]), p, o)
    ensures forall q :: !At(Run(steps), q, o)
  {
    LinearOwnership(steps, n);
  }

  // ----- How an incarnation ends -----

  ghost predicate Present(s: State, o: OneTimeId) {
    exists p :: At(s, p, o)
  }

  /** The step lets go of the incarnation: it is removed, dropped by its call, or replaced in its map. */
  predicate Releases(s: State, step: Step, o: OneTimeId) {
    match step
    case New(stage, id) => (stage == Poker || stage == Initiator) && At(s, InMap(stage, id), o)
    case PutBack(task) =>
      task in s.flight && s.flight[task].oneTime != o && At(s, InMap(s.flight[task].stage, s.flight[task].id), o)
    case Discard(task) => At(s, InFlight(task), o)
    case RemoveAt(stage, id, oneTime) => At(s, InMap(stage, id), o) && (oneTime.None? || oneTime.value == o)
    case _ => false
  }

  /** Where the incarnation that is at `p` is after a step that does not let go of it. */
  function After(s: State, step: Step, p: Place): Place {
    match step
    case Take(task, stage, id) =>
      if p == InMap(stage, id) && task !in s.flight && stage != Established then InFlight(task) else p
    case PutBack(task) =>
      if task in s.flight && p == InFlight(task) then InMap(s.flight[task].stage, s.flight[task].id) else p
    case _ => p
  }

  lemma StepKeepsIff(s: State, step: Step, p: Place, o: OneTimeId)
    requires Linear(s) && At(s, p, o)
    ensures if Releases(s, step, o) then !Present(Next(s, step), o) else At(Next(s, step), After(s, step, p), o)
  {
    var t := Next(s, step);
    if Releases(s, step, o) {
      forall q ensures !At(t, q, o) {
        if At(t, q, o) {
          StepOrigin(s, step, q, o);
        }
      }
    }
  }

  lemma StepPresentIff(s: State, step: Step, o: OneTimeId)
    requires Linear(s) && o < s.supply
    ensures Present(Next(s, step), o) <==> Present(s, o) && !Releases(s, step, o)
  {
    if Present(s, o) {
      var p :| At(s, p, o);
      StepKeepsIff(s, step, p, o);
    } else {
      forall q ensures !At(Next(s, step), q, o) {
        if At(Next(s, step), q, o) { StepOrigin(s, step, q, o); }
      }
    }
  }

  lemma PresentSupply(steps: seq<Step>, n: nat, o: OneTimeId)
    requires n <= |steps| && Present(Run(steps[..n]), o)
    ensures o < Run(steps).supply
  {
    LinearOwnership(steps, n);
    LinearOwnership(steps[..n], n);
  }

  /** The m-th step lets go of the incarnation. */
  predicate ReleasedBy(steps: seq<Step>, m: nat, o: OneTimeId)
    requires m < |steps|
  {
    Releases(Run(steps[..m]), steps[m], o)
  }

  /** For every interleaving: an incarnation stays exactly as long as no step lets go of it. */
  lemma {:induction false} StaysIff(steps: seq<Step>, n: nat, o: OneTimeId)
    requires n <= |steps| && Present(Run(steps[..n]), o)
    ensures Present(Run(steps), o) <==> forall m :: n <= m < |steps| ==> !ReleasedBy(steps, m, o)
  {
    if n == |steps| {
      assert steps[..n] == steps;
    } else {
      var k := |steps| - 1;
      var before := steps[..k];
      assert before[..n] == steps[..n];
      StaysIff(before, n, o);
      forall m | n <= m < k ensures ReleasedBy(before, m, o) <==> ReleasedBy(steps, m, o) {
        assert before[..m] == steps[..m];
      }
      PresentSupply(before, n, o);
      LinearOwnership(before, n);
      StepPresentIff(Run(before), steps[k], o);
      assert Present(Run(steps), o) <==> Present(Run(before), o) && !ReleasedBy(steps, k, o);
    }
  }

  // ----- What closing does at this granularity -----

  /** The maps in the order in which `remove_session` goes through them. */
  const Sweep: seq<Stage> := [Established, Responder, Poker, Initiator]

  /** The four sections of one close, with anything at all before, between and after them. */
  predicate IsClose(steps: seq<Step>, at: seq<nat>, id: SessionId, o: OneTimeId) {
    && |at| == |Sweep|
    && (forall i, j :: 0 <= i < j < |at| ==> at[i] < at[j])
    && forall k :: 0 <= k < |at| ==> at[k] < |steps| && steps[at[k]] == RemoveAt(Sweep[k], id, Some(o))
  }

  /** Nothing but the close lets go of the incarnation. */
  ghost predicate OnlyTheClose(steps: seq<Step>, at: seq<nat>, n: nat, o: OneTimeId) {
    forall m :: n <= m < |steps| && m !in at ==> !ReleasedBy(steps, m, o)
  }

  /**
   For every interleaving of the four sections of a close with other calls: the incarnation is
   gone afterwards exactly when some section found it in the map that this section goes through.
   */
  lemma {:induction false} CloseRemovesIffFound(steps: seq<Step>, at: seq<nat>, n: nat, id: SessionId, o: OneTimeId)
    requires IsClose(steps, at, id, o) && n <= at[0] && n <= |steps|
    requires Present(Run(steps[..n]), o) && OnlyTheClose(steps, at, n, o)
    ensures !Present(Run(steps), o) <==>
              exists k :: 0 <= k < |Sweep| && At(Run(steps[..at[k]]), InMap(Sweep[k], id), o)
  {
    StaysIff(steps, n, o);
    forall k | 0 <= k < |Sweep|
      ensures n <= at[k] < |steps|
      ensures ReleasedBy(steps, at[k], o) <==> At(Run(steps[..at[k]]), InMap(Sweep[k], id), o)
    {
      assert steps[at[k]] == RemoveAt(Sweep[k], id, Some(o));
    }
    if !Present(Run(steps), o) {
      var m :| n <= m < |steps| && ReleasedBy(steps, m, o);
      assert m in at;
      var k :| 0 <= k < |at| && at[k] == m;
    }
  }

  /** Nobody takes this entry out of its map for a while. */
  predicate NotTaken(steps: seq<Step>, from: nat, to: nat, stage: Stage, id: SessionId) {
    forall m :: from <= m < to && m < |steps| && steps[m].Take? ==> steps[m].stage != stage || steps[m].id != id
  }

  lemma {:induction false} StaysInMap(steps: seq<Step>, n: nat, to: nat, stage: Stage, id: SessionId, o: OneTimeId)
    requires n <= to <= |steps| && At(Run(steps[..n]), InMap(stage, id), o) && NotTaken(steps, n, to, stage, id)
    requires forall m :: n <= m < to ==> !ReleasedBy(steps, m, o)
    ensures At(Run(steps[..to]), InMap(stage, id), o)
  {
    if n < to {
      StaysInMap(steps, n, to - 1, stage, id, o);
      assert steps[..to][..to - 1] == steps[..to - 1];
      LinearOwnership(steps[..to - 1], to - 1);
      assert !ReleasedBy(steps, to - 1, o);
      StepKeepsIff(Run(steps[..to - 1]), steps[to - 1], InMap(stage, id), o);
    }
  }

  /** In particular a close removes an entry that no call takes out of its map before the sweep gets there. */
  lemma CloseRemovesWhatStays(steps: seq<Step>, at: seq<nat>, n: nat, k: nat, id: SessionId, o: OneTimeId)
    requires IsClose(steps, at, id, o) && n <= at[0] && n <= |steps| && k < |Sweep|
    requires At(Run(steps[..n]), InMap(Sweep[k], id), o) && NotTaken(steps, n, at[k], Sweep[k], id)
    requires OnlyTheClose(steps, at, n, o)
    ensures !Present(Run(steps), o)
  {
    CloseRemovesIffFound(steps, at, n, id, o);
    if Present(Run(steps), o) {
      StaysIff(steps, n, o);
      StaysInMap(steps, n, at[k], Sweep[k], id, o);
    }
  }

  /** The four sections of `remove_session`, in the order of the code. */
  function RemoveEverywhere(s: State, id: SessionId, o: OneTimeId): State {
    Next(Next(Next(Next(s, RemoveAt(Established, id, Some(o))), RemoveAt(Responder, id, Some(o))),
         RemoveAt(Poker, id, Some(o))), RemoveAt(Initiator, id, Some(o)))
  }

  /**
   When nothing runs between its sections, a close removes the incarnation exactly when no
   call is holding it at that moment: a call that does will put it back.
   */
  lemma CloseRemovesIffNotInFlight(s: State, id: SessionId, o: OneTimeId)
    requires Linear(s)
    requires forall p :: At(s, p, o) ==> IdAt(s, p, o) == id
    ensures (forall p :: !At(RemoveEverywhere(s, id, o), p, o)) <==> (forall task :: !At(s, InFlight(task), o))
  {
    var t := RemoveEverywhere(s, id, o);
    forall task ensures At(t, InFlight(task), o) <==> At(s, InFlight(task), o) {
    }
    forall stage, i: SessionId ensures !At(t, InMap(stage, i), o) {
      assert (stage, i) in t.held ==> (stage, i) in s.held && t.held[(stage, i)] == s.held[(stage, i)];
      assert At(s, InMap(stage, i), o) ==> IdAt(s, InMap(stage, i), o) == id;
      match stage {
        case Poker =>
        case Initiator =>
        case Responder =>
        case Established =>
      }
    }
    forall p ensures At(t, p, o) ==> p.InFlight? {
      if p.InMap? { assert !At(t, InMap(p.stage, p.id), o); }
    }
  }

  /** So a close can be overtaken: the incarnation is back in its map after the close has finished. */
  lemma CloseCanBeOvertaken(id: SessionId)
    ensures var s := Next(Next(Init, New(Poker, id)), Take(1, Poker, id));
            At(Next(RemoveEverywhere(s, id, 0), PutBack(1)), InMap(Poker, id), 0)
  {
  }

  /** A poker that was answered: a responder that no call holds. */
  function Answered(id: SessionId): State {
    Next(Next(Next(Next(Init, New(Poker, id)), Take(1, Poker, id)), Advance(1)), PutBack(1))
  }

  /** A packet establishes the responder between the first two sections of a close. */
  function Outrun(s: State, id: SessionId): State {
    var swept := Next(s, RemoveAt(Established, id, Some(0)));
    var moved := Next(Next(Next(swept, Take(2, Responder, id)), Advance(2)), PutBack(2));
    Next(Next(Next(moved, RemoveAt(Responder, id, Some(0))), RemoveAt(Poker, id, Some(0))), RemoveAt(Initiator, id, Some(0)))
  }

  /**
   And a close can be outrun: the sweep starts with the established map, and entries move towards
   it. No call holds the incarnation when the close starts or when it ends, and it survives.
   */
  lemma CloseCanBeOutrun(id: SessionId)
    ensures At(Answered(id), InMap(Responder, id), 0) && Answered(id).flight == map[]
    ensures At(Outrun(Answered(id), id), InMap(Established, id), 0) && Outrun(Answered(id), id).flight == map[]
  {
    var s := Answered(id);
    assert s.held == map[(Responder, id) := 0] && s.flight == map[];
    var moved := Next(Next(Next(s, Take(2, Responder, id)), Advance(2)), PutBack(2));
    assert moved.held == map[(Established, id) := 0] && moved.flight == map[];
  }
}
