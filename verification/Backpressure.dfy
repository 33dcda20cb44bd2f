/** Watermark backpressure: pause above a high watermark, resume at or below a low one. */
module Backpressure {

  datatype Policy = Policy(high: real, low: real)

  predicate ValidRatios(high: real, low: real) {
    0.0 < high <= 1.0 && 0.0 <= low < 1.0 && low < high
  }

  /** NewBackpressurePolicy: invalid ratios fall back to 0.80 and 0.50. */
  function NewPolicy(high: real, low: real): (p: Policy)
    ensures ValidRatios(p.high, p.low)
    ensures ValidRatios(high, low) ==> p == Policy(high, low)
    ensures !(0.0 < high <= 1.0 && 0.0 <= low < high) <==> !ValidRatios(high, low)
    ensures !ValidRatios(high, low) ==> p == Policy(0.80, 0.50)
  {
    if ValidRatios(high, low) then Policy(high, low) else Policy(0.80, 0.50)
  }

  function Ceil(x: real): int {
    -(-x).Floor
  }

  function HighShare(p: Policy, capacity: int): real {
    capacity as real * p.high
  }

  function LowShare(p: Policy, capacity: int): real {
    capacity as real * p.low
  }

  function HighMark(p: Policy, capacity: int): int {
    Ceil(HighShare(p, capacity))
  }

  function LowMark(p: Policy, capacity: int): int {
    LowShare(p, capacity).Floor
  }

  predicate ShouldPause(p: Policy, depth: int, capacity: int) {
    capacity > 0 && depth >= HighMark(p, capacity)
  }

  predicate ShouldResume(p: Policy, depth: int, capacity: int) {
    capacity <= 0 || depth <= LowMark(p, capacity)
  }

  lemma CeilBounds(x: real)
    ensures x <= Ceil(x) as real < x + 1.0
  {
  }

  /** The watermarks, exactly: pause from the high share of the capacity on, resume up to the low share. */
  lemma WatermarksExact(p: Policy, depth: int, capacity: int)
    ensures ShouldPause(p, depth, capacity) <==> capacity > 0 && depth as real >= capacity as real * p.high
    ensures ShouldResume(p, depth, capacity) <==> capacity <= 0 || depth as real <= capacity as real * p.low
  {
    CeilBounds(HighShare(p, capacity));
  }

  lemma ScaleStrict(c: real, a: real, b: real)
    requires c > 0.0 && a < b
    ensures c * a < c * b
  {
  }

  /**
    For every positive capacity and whatever ratios were configured: the low watermark is strictly
    below the high one, an empty queue never pauses and always allows resume, a full queue always
    pauses, and no depth asks for both.
   */
  lemma Hysteresis(high: real, low: real, capacity: int, depth: int)
    requires capacity > 0
    ensures var p := NewPolicy(high, low);
      && 0 <= LowMark(p, capacity) < HighMark(p, capacity) <= capacity
      && !ShouldPause(p, 0, capacity) && ShouldResume(p, 0, capacity)
      && ShouldPause(p, capacity, capacity)
      && !(ShouldPause(p, depth, capacity) && ShouldResume(p, depth, capacity))
  {
    var p := NewPolicy(high, low);
    Shares(p, capacity);
    hide HighShare, LowShare, Ceil;
    Marks(HighShare(p, capacity), LowShare(p, capacity), capacity);
  }

  lemma Shares(p: Policy, capacity: int)
    requires capacity > 0 && ValidRatios(p.high, p.low)
    ensures 0.0 <= LowShare(p, capacity) < HighShare(p, capacity) <= capacity as real
  {
    var c := capacity as real;
    ScaleStrict(c, p.low, p.high);
    Scale(c, 0.0, p.low);
    Scale(c, p.high, 1.0);
  }

  lemma Scale(c: real, a: real, b: real)
    requires c > 0.0 && a <= b
    ensures c * a <= c * b
  {
    if a < b {
      ScaleStrict(c, a, b);
    }
  }

  /** Rounding up the larger and down the smaller share keeps them apart and within the capacity. */
  lemma Marks(h: real, l: real, capacity: int)
    requires 0.0 <= l < h <= capacity as real
    ensures 0 <= l.Floor < Ceil(h) <= capacity
  {
    CeilBounds(h);
    assert l.Floor as real <= l < h <= Ceil(h) as real;
  }

  class InMemoryPauseResumeController {
    var paused: bool

    constructor ()
      ensures !paused
    {
      paused := false;
    }

    method Pause()
      modifies this
      ensures paused
    {
      if paused {
        return;
      }
      paused := true;
    }

    method Resume()
      modifies this
      ensures !paused
    {
      if !paused {
        return;
      }
      paused := false;
    }
  }

  datatype Event = Paused | Resumed

  /** The controller's flag and the counters of the consumer. */
  datatype Meter = Meter(paused: bool, pauses: nat, resumes: nat)

  function Evaluate(p: Policy, m: Meter, depth: int, capacity: int): Meter {
    if !m.paused && ShouldPause(p, depth, capacity) then Meter(true, m.pauses + 1, m.resumes)
    else if m.paused && ShouldResume(p, depth, capacity) then Meter(false, m.pauses, m.resumes + 1)
    else m
  }

  /** After an evaluation: paused at or above the high watermark, not paused at or below the low one, unchanged in between. */
  lemma EvaluateMeans(high: real, low: real, m: Meter, depth: int, capacity: int)
    requires capacity > 0
    ensures var p := NewPolicy(high, low);
      var m' := Evaluate(p, m, depth, capacity);
      && (depth as real >= capacity as real * p.high ==> m'.paused)
      && (depth as real <= capacity as real * p.low ==> !m'.paused)
      && (capacity as real * p.low < depth as real < capacity as real * p.high ==> m' == m)
      && m'.pauses == m.pauses + (if m'.paused && !m.paused then 1 else 0)
      && m'.resumes == m.resumes + (if !m'.paused && m.paused then 1 else 0)
  {
    var p := NewPolicy(high, low);
    WatermarksExact(p, depth, capacity);
    Hysteresis(high, low, capacity, depth);
    hide ShouldPause, ShouldResume, NewPolicy;
  }

  class BackpressureDriver {
    const policy: Policy
    const controller: InMemoryPauseResumeController
    var pauses: nat
    var resumes: nat

    function State(): Meter
      reads this, controller
    {
      Meter(controller.paused, pauses, resumes)
    }

    constructor (policy: Policy, controller: InMemoryPauseResumeController)
      ensures this.policy == policy && this.controller == controller && pauses == resumes == 0
    {
      this.policy, this.controller := policy, controller;
      pauses, resumes := 0, 0;
    }

    /** maybeApplyBackpressure, not overlapped by another evaluation. */
    method MaybeApply(depth: int, capacity: int)
      modifies this, controller
      ensures State() == Evaluate(policy, old(State()), depth, capacity)
    {
      if !controller.paused && ShouldPause(policy, depth, capacity) {
        controller.Pause();
        pauses := pauses + 1;
        return;
      }
      if controller.paused && ShouldResume(policy, depth, capacity) {
        controller.Resume();
        resumes := resumes + 1;
      }
    }
  }

  /** The events of a run of evaluations, one after another, over observed depths. */
  function Events(p: Policy, m: Meter, capacity: int, depths: seq<int>): seq<Event>
    decreases depths
  {
    if depths == [] then []
    else
      var m' := Evaluate(p, m, depths[0], capacity);
      var rest := Events(p, m', capacity, depths[1..]);
      if m'.pauses > m.pauses then [Paused] + rest
      else if m'.resumes > m.resumes then [Resumed] + rest
      else rest
  }

  function Final(p: Policy, m: Meter, capacity: int, depths: seq<int>): Meter
    decreases depths
  {
    if depths == [] then m else Final(p, Evaluate(p, m, depths[0], capacity), capacity, depths[1..])
  }

  /** Pause and resume events take turns, starting with `first`. */
  predicate Alternate(events: seq<Event>, first: Event) {
    forall i :: 0 <= i < |events| ==> (events[i] == first <==> i % 2 == 0)
  }

  lemma AlternateCons(first: Event, rest: seq<Event>)
    requires Alternate(rest, if first.Paused? then Resumed else Paused)
    ensures Alternate([first] + rest, first)
  {
    var all := [first] + rest;
    forall i | 0 <= i < |all| ensures all[i] == first <==> i % 2 == 0 {
      if i > 0 {
        assert all[i] == rest[i - 1];
      }
    }
  }

  /** Over any run of evaluations pauses and resumes alternate, so their counts differ by the flag. */
  lemma {:induction false} EventsAlternate(p: Policy, m: Meter, capacity: int, depths: seq<int>)
    ensures Alternate(Events(p, m, capacity, depths), if m.paused then Resumed else Paused)
    ensures var m' := Final(p, m, capacity, depths);
      m'.pauses - m'.resumes - (if m'.paused then 1 else 0) == m.pauses - m.resumes - (if m.paused then 1 else 0)
    decreases depths
  {
    if depths != [] {
      var m' := Evaluate(p, m, depths[0], capacity);
      EventsAlternate(p, m', capacity, depths[1..]);
      hide ShouldPause, ShouldResume;
      if m'.pauses > m.pauses {
        AlternateCons(Paused, Events(p, m', capacity, depths[1..]));
      } else if m'.resumes > m.resumes {
        AlternateCons(Resumed, Events(p, m', capacity, depths[1..]));
      }
    }
  }

  // ----- Overlapping evaluations -----

  /**
    Where an evaluation is.  The poller and every worker evaluate; the flag is locked only within
    each single read, pause or resume, and the depth is read once, at the start.
   */
  datatype Stage =
    | Idle
    | Began(depth: int)      // the depth is read; about to look at the flag for a pause
    | Checked(depth: int)    // no pause; about to look at the flag again for a resume
    | PauseDecided | PauseCounting
    | ResumeDecided | ResumeCounting

  /** The meter, every evaluator's stage, and how many calls changed the flag or found nothing to change. */
  datatype Crowd = Crowd(
    meter: Meter, stages: seq<Stage>, pauseChanges: nat, resumeChanges: nat, extraPauses: nat, extraResumes: nat)

  /** An evaluator starts on an observed depth, or goes on. */
  datatype Action = Begin(who: nat, depth: int) | Advance(who: nat)

  function PauseCall(c: Crowd): Crowd {
    if c.meter.paused then c.(extraPauses := c.extraPauses + 1)
    else c.(meter := c.meter.(paused := true), pauseChanges := c.pauseChanges + 1)
  }

  function ResumeCall(c: Crowd): Crowd {
    if !c.meter.paused then c.(extraResumes := c.extraResumes + 1)
    else c.(meter := c.meter.(paused := false), resumeChanges := c.resumeChanges + 1)
  }

  function Moved(p: Policy, capacity: int, c: Crowd, stage: Stage): (Crowd, Stage) {
    match stage
    case Idle => (c, Idle)
    case Began(depth) => (c, if !c.meter.paused && ShouldPause(p, depth, capacity) then PauseDecided else Checked(depth))
    case Checked(depth) => (c, if c.meter.paused && ShouldResume(p, depth, capacity) then ResumeDecided else Idle)
    case PauseDecided => (PauseCall(c), PauseCounting)
    case PauseCounting => (c.(meter := c.meter.(pauses := c.meter.pauses + 1)), Idle)
    case ResumeDecided => (ResumeCall(c), ResumeCounting)
    case ResumeCounting => (c.(meter := c.meter.(resumes := c.meter.resumes + 1)), Idle)
  }

  /** An action that cannot happen changes nothing. */
  function Act(p: Policy, capacity: int, c: Crowd, a: Action): Crowd {
    if a.who >= |c.stages| then c
    else
      match a
      case Begin(i, depth) => if c.stages[i].Idle? then c.(stages := c.stages[i := Began(depth)]) else c
      case Advance(i) =>
        var r := Moved(p, capacity, c, c.stages[i]);
        r.0.(stages := c.stages[i := r.1])
  }

  function ActAll(p: Policy, capacity: int, c: Crowd, actions: seq<Action>): Crowd
    decreases actions
  {
    if actions == [] then c else ActAll(p, capacity, Act(p, capacity, c, actions[0]), actions[1..])
  }

  function Start(n: nat): Crowd {
    Crowd(Meter(false, 0, 0), seq(n, _ => Idle), 0, 0, 0, 0)
  }

  function Count(stages: seq<Stage>, s: Stage): nat {
    if stages == [] then 0
    else Count(stages[..|stages| - 1], s) + if stages[|stages| - 1] == s then 1 else 0
  }

  lemma {:induction false} CountUpdate(stages: seq<Stage>, i: nat, x: Stage, s: Stage)
    requires i < |stages|
    ensures Count(stages[i := x], s) + (if stages[i] == s then 1 else 0) == Count(stages, s) + (if x == s then 1 else 0)
  {
    var n := |stages| - 1;
    if i == n {
      assert stages[i := x][..n] == stages[..n];
    } else {
      CountUpdate(stages[..n], i, x, s);
      assert stages[i := x][..n] == stages[..n][i := x];
    }
  }

  lemma {:induction false} CountBound(stages: seq<Stage>, s: Stage)
    ensures Count(stages, s) <= |stages|
    ensures (forall i :: 0 <= i < |stages| ==> stages[i] != s) ==> Count(stages, s) == 0
  {
    if stages != [] {
      CountBound(stages[..|stages| - 1], s);
    }
  }

  lemma CountOthers(stages: seq<Stage>, i: nat, s: Stage)
    requires i < |stages| && stages[i] != s
    ensures Count(stages, s) < |stages|
  {
    CountUpdate(stages, i, s, s);
    CountBound(stages[i := s], s);
  }

  /** The flag is what the effective calls made it; each call is counted or about to be. */
  ghost predicate Balanced(c: Crowd) {
    && c.pauseChanges - c.resumeChanges == (if c.meter.paused then 1 else 0)
    && c.meter.pauses + Count(c.stages, PauseCounting) == c.pauseChanges + c.extraPauses
    && c.meter.resumes + Count(c.stages, ResumeCounting) == c.resumeChanges + c.extraResumes
  }

  /** The n - 1 other evaluators, once per change of the flag. */
  function Share(changes: nat, n: nat): int {
    changes * (n - 1)
  }

  /** Idle calls come from evaluators that had decided before somebody else changed the flag. */
  ghost predicate FewExtra(c: Crowd) {
    var n := |c.stages|;
    && c.extraPauses + (if c.meter.paused then Count(c.stages, PauseDecided) else 0) <= Share(c.pauseChanges, n)
    && c.extraResumes + (if c.meter.paused then 0 else Count(c.stages, ResumeDecided)) <= Share(c.resumeChanges, n)
  }

  lemma ActBalanced(p: Policy, capacity: int, c: Crowd, a: Action)
    requires Balanced(c)
    ensures Balanced(Act(p, capacity, c, a)) && |Act(p, capacity, c, a).stages| == |c.stages|
  {
    if a.who < |c.stages| {
      hide Count, ShouldPause, ShouldResume;
      var x := Act(p, capacity, c, a).stages[a.who];
      CountUpdate(c.stages, a.who, x, PauseCounting);
      CountUpdate(c.stages, a.who, x, ResumeCounting);
      assert c.stages[a.who := c.stages[a.who]] == c.stages;
    }
  }

  /** One more flag change pays for the other n - 1 evaluators. */
  lemma OneMoreChange(changes: nat, n: nat)
    ensures Share(changes + 1, n) == Share(changes, n) + (n - 1)
  {
  }

  lemma ActFewExtra(p: Policy, capacity: int, c: Crowd, a: Action)
    requires FewExtra(c)
    ensures FewExtra(Act(p, capacity, c, a))
  {
    if a.who < |c.stages| {
      hide Count, Share, ShouldPause, ShouldResume;
      var c' := Act(p, capacity, c, a);
      var x := c'.stages[a.who];
      CountUpdate(c.stages, a.who, x, PauseDecided);
      CountUpdate(c.stages, a.who, x, ResumeDecided);
      assert c.stages[a.who := c.stages[a.who]] == c.stages;
      OneMoreChange(c.pauseChanges, |c.stages|);
      OneMoreChange(c.resumeChanges, |c.stages|);
      if x != PauseDecided {
        CountOthers(c'.stages, a.who, PauseDecided);
      }
      if x != ResumeDecided {
        CountOthers(c'.stages, a.who, ResumeDecided);
      }
    }
  }

  lemma {:induction false} RunBalanced(p: Policy, capacity: int, c: Crowd, actions: seq<Action>)
    requires Balanced(c) && FewExtra(c)
    ensures var c' := ActAll(p, capacity, c, actions);
      Balanced(c') && FewExtra(c') && |c'.stages| == |c.stages|
    decreases actions
  {
    if actions != [] {
      hide Act, Balanced, FewExtra;
      ActBalanced(p, capacity, c, actions[0]);
      ActFewExtra(p, capacity, c, actions[0]);
      RunBalanced(p, capacity, Act(p, capacity, c, actions[0]), actions[1..]);
    }
  }

  predicate AtRest(c: Crowd) {
    forall i :: 0 <= i < |c.stages| ==> c.stages[i].Idle?
  }

  lemma StartBalanced(n: nat)
    ensures Balanced(Start(n)) && FewExtra(Start(n))
  {
    var stages := Start(n).stages;
    CountBound(stages, PauseCounting);
    CountBound(stages, ResumeCounting);
    CountBound(stages, PauseDecided);
    CountBound(stages, ResumeDecided);
  }

  /**
    Any interleaving of any number of evaluators over any depths: pauses minus resumes, with the calls
    still to be counted, is the flag plus the pause calls that changed nothing minus the resume calls
    that changed nothing.  So at rest the difference is the flag exactly when those calls balance.
   */
  lemma {:induction false} OverlapBalance(p: Policy, capacity: int, n: nat, actions: seq<Action>)
    ensures var c := ActAll(p, capacity, Start(n), actions);
      var flag := if c.meter.paused then 1 else 0;
      && c.meter.pauses - c.meter.resumes + Count(c.stages, PauseCounting) - Count(c.stages, ResumeCounting) - flag
         == c.extraPauses - c.extraResumes
      && (AtRest(c) ==> (c.meter.pauses - c.meter.resumes == flag <==> c.extraPauses == c.extraResumes))
  {
    hide ActAll, Count, FewExtra;
    StartBalanced(n);
    RunBalanced(p, capacity, Start(n), actions);
    var c := ActAll(p, capacity, Start(n), actions);
    CountBound(c.stages, PauseCounting);
    CountBound(c.stages, ResumeCounting);
  }

  /** n evaluators make at most n - 1 calls that change nothing per change of the flag; one evaluator makes none. */
  lemma {:induction false} ExtraCallsBounded(p: Policy, capacity: int, n: nat, actions: seq<Action>)
    ensures var c := ActAll(p, capacity, Start(n), actions);
      && c.extraPauses <= c.pauseChanges * (n - 1) && c.extraResumes <= c.resumeChanges * (n - 1)
      && (n <= 1 ==> c.extraPauses == c.extraResumes == 0)
  {
    hide ActAll, Count, Balanced;
    StartBalanced(n);
    RunBalanced(p, capacity, Start(n), actions);
    if n == 0 {
      NobodyActs(p, capacity, Start(0), actions);
    }
  }

  lemma {:induction false} NobodyActs(p: Policy, capacity: int, c: Crowd, actions: seq<Action>)
    requires c.stages == []
    ensures ActAll(p, capacity, c, actions) == c
    decreases actions
  {
    if actions != [] {
      NobodyActs(p, capacity, c, actions[1..]);
    }
  }

  function Alone(i: nat, depth: int): seq<Action> {
    [Begin(i, depth), Advance(i), Advance(i), Advance(i), Advance(i)]
  }

  lemma FiveActs(p: Policy, capacity: int, c: Crowd, a: Action, b: Action)
    ensures ActAll(p, capacity, c, [a, b, b, b, b])
         == Act(p, capacity, Act(p, capacity, Act(p, capacity, Act(p, capacity, Act(p, capacity, c, a), b), b), b), b)
  {
    hide Act, ActAll;
    var c1 := Act(p, capacity, c, a);
    var c2 := Act(p, capacity, c1, b);
    var c3 := Act(p, capacity, c2, b);
    var c4 := Act(p, capacity, c3, b);
    assert [a, b, b, b, b] == [a] + [b, b, b, b] && [b, b, b, b] == [b] + [b, b, b];
    assert [b, b, b] == [b] + [b, b] && [b, b] == [b] + [b] && [b] == [b] + [];
    ActCons(p, capacity, c, a, [b, b, b, b]);
    ActCons(p, capacity, c1, b, [b, b, b]);
    ActCons(p, capacity, c2, b, [b, b]);
    ActCons(p, capacity, c3, b, [b]);
    ActCons(p, capacity, c4, b, []);
  }

  lemma ActCons(p: Policy, capacity: int, c: Crowd, a: Action, rest: seq<Action>)
    ensures ActAll(p, capacity, c, [a] + rest) == ActAll(p, capacity, Act(p, capacity, c, a), rest)
    ensures ActAll(p, capacity, c, []) == c
    ensures rest == [] ==> ActAll(p, capacity, c, [a] + rest) == Act(p, capacity, c, a)
  {
    assert ([a] + rest)[1..] == rest;
  }

  /** An evaluation that nobody overlaps is one Evaluate, and none of its calls is idle. */
  lemma AloneIsEvaluate(p: Policy, capacity: int, c: Crowd, i: nat, depth: int)
    requires i < |c.stages| && c.stages[i].Idle?
    ensures var c' := ActAll(p, capacity, c, Alone(i, depth));
      && c'.meter == Evaluate(p, c.meter, depth, capacity) && c'.stages == c.stages
      && c'.extraPauses == c.extraPauses && c'.extraResumes == c.extraResumes
  {
    FiveActs(p, capacity, c, Begin(i, depth), Advance(i));
    hide ShouldPause, ShouldResume;
    var c0 := Act(p, capacity, c, Begin(i, depth));
    var c1 := Act(p, capacity, c0, Advance(i));
    var c2 := Act(p, capacity, c1, Advance(i));
    var c3 := Act(p, capacity, c2, Advance(i));
    var c4 := Act(p, capacity, c3, Advance(i));
    assert c4.stages == c.stages;
  }

  /** Two overlapping evaluations of a full queue: one pause, counted twice. */
  lemma OverlapCountsTwice(p: Policy, capacity: int)
    requires capacity > 0 && ShouldPause(p, capacity, capacity)
    ensures var both := [Advance(0), Advance(1), Advance(0), Advance(1), Advance(0), Advance(1)];
      var c := ActAll(p, capacity, Start(2), [Begin(0, capacity), Begin(1, capacity)] + both);
      AtRest(c) && c.meter == Meter(true, 2, 0) && c.extraPauses == 1 && c.extraResumes == 0
  {
    var x, y := Advance(0), Advance(1);
    var all := [Begin(0, capacity), Begin(1, capacity)] + [x, y, x, y, x, y];
    var c1 := Act(p, capacity, Start(2), Begin(0, capacity));
    var c2 := Act(p, capacity, c1, Begin(1, capacity));
    assert c2.stages == [Began(capacity), Began(capacity)];
    assert all[1..][1..] == [x, y, x, y, x, y];
    assert ActAll(p, capacity, Start(2), all) == ActAll(p, capacity, c1, all[1..]) == ActAll(p, capacity, c2, [x, y, x, y, x, y]);
    var c3 := Pair(p, capacity, c2, [x, y, x, y]);
    assert c3.stages == [PauseDecided, PauseDecided];
    var c4 := Pair(p, capacity, c3, [x, y]);
    assert c4.stages == [PauseCounting, PauseCounting];
    var c5 := Pair(p, capacity, c4, []);
    assert [x, y] + [] == [x, y];
    assert c5.stages == [Idle, Idle];
  }

  /** Both evaluators move once. */
  lemma Pair(p: Policy, capacity: int, c: Crowd, rest: seq<Action>) returns (c': Crowd)
    ensures c' == Act(p, capacity, Act(p, capacity, c, Advance(0)), Advance(1))
    ensures ActAll(p, capacity, c, [Advance(0), Advance(1)] + rest) == ActAll(p, capacity, c', rest)
  {
    hide Act, ActAll;
    c' := Act(p, capacity, Act(p, capacity, c, Advance(0)), Advance(1));
    assert [Advance(0), Advance(1)] + rest == [Advance(0)] + ([Advance(1)] + rest);
    ActCons(p, capacity, c, Advance(0), [Advance(1)] + rest);
    ActCons(p, capacity, Act(p, capacity, c, Advance(0)), Advance(1), rest);
  }
}
