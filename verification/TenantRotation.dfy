/**
  Which tenant is served next.  The weighted round-robin and the composed scheduler
  share this rotation: a fixed lap of slots and a pointer that walks it, skipping
  tenants with nothing waiting.  The fairness and waiting bounds are proved here once,
  for every interleaving of arrivals and turns.
 */
module TenantRotation {
  import opened Wrappers
  import opened Arithmetic
  import opened WeightCycle

  datatype Rotation = Rotation(cycle: seq<Tenant>, pos: nat, backlog: map<Tenant, nat>)

  ghost predicate Valid(r: Rotation) {
    && r.pos < |r.cycle|
    && (forall t :: t in r.backlog <==> t in r.cycle)
  }

  /** The tenant of the slot reached after `steps` slots from `pos`. */
  function SlotAt(cycle: seq<Tenant>, pos: nat, steps: nat): Tenant
    requires cycle != []
  {
    cycle[(pos + steps) % |cycle|]
  }

  /** Slots skipped, from offset k on, before one whose tenant is busy; the lap length if there is none. */
  function Skipped(cycle: seq<Tenant>, pos: nat, busy: set<Tenant>, k: nat): (skip: nat)
    requires cycle != [] && k <= |cycle|
    ensures k <= skip <= |cycle|
    ensures skip < |cycle| ==> SlotAt(cycle, pos, skip) in busy
    ensures forall i :: k <= i < skip ==> SlotAt(cycle, pos, i) !in busy
    decreases |cycle| - k
  {
    if k == |cycle| || SlotAt(cycle, pos, k) in busy then k
    else Skipped(cycle, pos, busy, k + 1)
  }

  function Advanced(cycle: seq<Tenant>, pos: nat, skip: nat): nat
    requires cycle != []
  {
    (pos + skip + 1) % |cycle|
  }

  function Busy(backlog: map<Tenant, nat>): set<Tenant> {
    set t | t in backlog && backlog[t] > 0
  }

  function Skip(r: Rotation): nat
    requires Valid(r)
  {
    Skipped(r.cycle, r.pos, Busy(r.backlog), 0)
  }

  datatype Event = Arrival(tenant: Tenant) | Turn

  /** A turn serves the first busy slot and moves the pointer past it; with nobody busy it changes nothing. */
  function Next(r: Rotation, e: Event): Rotation
    requires Valid(r)
  {
    match e
    case Arrival(t) => if t in r.backlog then r.(backlog := r.backlog[t := r.backlog[t] + 1]) else r
    case Turn =>
      if Served(r).None? then r
      else
        var t := Served(r).value;
        r.(pos := Advanced(r.cycle, r.pos, Skip(r)), backlog := r.backlog[t := r.backlog[t] - 1])
  }

  function Served(r: Rotation): (t: Option<Tenant>)
    requires Valid(r)
    ensures t.Some? ==> t.value in r.backlog && r.backlog[t.value] > 0
  {
    if Skip(r) == |r.cycle| then None else Some(SlotAt(r.cycle, r.pos, Skip(r)))
  }

  function Run(r: Rotation, events: seq<Event>): Rotation
    requires Valid(r)
    ensures Valid(Run(r, events)) && Run(r, events).cycle == r.cycle
    decreases events
  {
    if events == [] then r else Run(Next(r, events[0]), events[1..])
  }

  /** What each turn of the run served, in order. */
  function Turns(r: Rotation, events: seq<Event>): (out: seq<Option<Tenant>>)
    requires Valid(r)
    ensures |out| == TurnCount(events)
    decreases events
  {
    if events == [] then []
    else
      var rest := Turns(Next(r, events[0]), events[1..]);
      if events[0].Turn? then [Served(r)] + rest else rest
  }

  function TurnCount(events: seq<Event>): nat {
    if events == [] then 0 else (if events[0].Turn? then 1 else 0) + TurnCount(events[1..])
  }

  /** How often a tenant was served in a run. */
  function Services(out: seq<Option<Tenant>>, t: Tenant): nat {
    if out == [] then 0 else (if out[0] == Some(t) then 1 else 0) + Services(out[1..], t)
  }

  // ----- Counting a tenant's slots over a stretch of the rotation -----

  function Visits(cycle: seq<Tenant>, t: Tenant, pos: nat, steps: nat): nat
    requires cycle != []
  {
    if steps == 0 then 0
    else Visits(cycle, t, pos, steps - 1) + (if SlotAt(cycle, pos, steps - 1) == t then 1 else 0)
  }

  lemma {:induction false} VisitsSplit(cycle: seq<Tenant>, t: Tenant, pos: nat, a: nat, b: nat)
    requires cycle != []
    ensures Visits(cycle, t, pos, a + b) == Visits(cycle, t, pos, a) + Visits(cycle, t, pos + a, b)
  {
    if b > 0 {
      VisitsSplit(cycle, t, pos, a, b - 1);
      assert (pos + a) + (b - 1) == pos + (a + b - 1);
    }
  }

  lemma {:induction false} VisitsModulo(cycle: seq<Tenant>, t: Tenant, pos: nat, steps: nat)
    requires cycle != []
    ensures Visits(cycle, t, pos % |cycle|, steps) == Visits(cycle, t, pos, steps)
  {
    if steps > 0 {
      VisitsModulo(cycle, t, pos, steps - 1);
      ModAdd(pos, steps - 1, |cycle|);
    }
  }

  lemma {:induction false} VisitsMonotone(cycle: seq<Tenant>, t: Tenant, pos: nat, a: nat, b: nat)
    requires cycle != [] && a <= b
    ensures Visits(cycle, t, pos, a) <= Visits(cycle, t, pos, b)
    ensures b - a >= Visits(cycle, t, pos, b) - Visits(cycle, t, pos, a)
  {
    if a < b {
      VisitsMonotone(cycle, t, pos, a, b - 1);
    }
  }

  lemma SlotFromStart(cycle: seq<Tenant>, k: nat)
    requires k < |cycle|
    ensures SlotAt(cycle, 0, k) == cycle[k]
  {
    SmallMod(k, |cycle|);
  }

  lemma {:induction false} VisitsFromStart(cycle: seq<Tenant>, t: Tenant, steps: nat)
    requires cycle != [] && steps <= |cycle|
    ensures Visits(cycle, t, 0, steps) == Slots(cycle[..steps], t)
  {
    if steps > 0 {
      hide SlotAt;
      VisitsFromStart(cycle, t, steps - 1);
      SlotFromStart(cycle, steps - 1);
      assert cycle[..steps] == cycle[..steps - 1] + [cycle[steps - 1]];
    }
  }

  /** From any pointer position a full lap visits each tenant exactly its number of slots. */
  lemma {:induction false} OneLap(cycle: seq<Tenant>, t: Tenant, pos: nat)
    requires cycle != []
    ensures Visits(cycle, t, pos, |cycle|) == Slots(cycle, t)
  {
    var n := |cycle|;
    if pos == 0 {
      VisitsFromStart(cycle, t, n);
      assert cycle[..n] == cycle;
    } else {
      OneLap(cycle, t, pos - 1);
      VisitsSplit(cycle, t, pos - 1, 1, n);
      VisitsSplit(cycle, t, pos - 1, n, 1);
      ModShift(pos - 1, n);
      assert SlotAt(cycle, pos - 1, 0) == SlotAt(cycle, pos - 1 + n, 0);
      assert Visits(cycle, t, pos - 1, 1) == Visits(cycle, t, pos - 1 + n, 1);
    }
  }

  lemma {:induction false} ManyLaps(cycle: seq<Tenant>, t: Tenant, pos: nat, laps: nat)
    requires cycle != []
    ensures Visits(cycle, t, pos, laps * |cycle|) == laps * Slots(cycle, t)
  {
    if laps > 0 {
      var n := |cycle|;
      hide Visits, Slots;
      MulNext(laps - 1, n);
      ManyLaps(cycle, t, pos, laps - 1);
      VisitsSplit(cycle, t, pos, (laps - 1) * n, n);
      OneLap(cycle, t, pos + (laps - 1) * n);
      MulNext(laps - 1, Slots(cycle, t));
    }
  }

  // ----- One turn -----

  /** While t waits, a turn walks over no slot of t except the one it serves. */
  lemma TurnVisits(r: Rotation, t: Tenant)
    requires Valid(r) && t in r.backlog && r.backlog[t] > 0
    ensures Served(r).Some?
    ensures Visits(r.cycle, t, r.pos, Skip(r) + 1) == if Served(r) == Some(t) then 1 else 0
    ensures Next(r, Turn).pos == (r.pos + Skip(r) + 1) % |r.cycle|
  {
    var n := |r.cycle|;
    var k :| 0 <= k < n && r.cycle[k] == t;
    var i := StepsTo(n, r.pos, k);
    assert SlotAt(r.cycle, r.pos, i) in Busy(r.backlog);
    NoVisits(r.cycle, t, r.pos, Busy(r.backlog), Skip(r));
  }

  /** Every slot is some number of steps, less than a lap, ahead of the pointer. */
  lemma StepsTo(n: nat, pos: nat, k: nat) returns (steps: nat)
    requires pos < n && k < n
    ensures steps < n && (pos + steps) % n == k
  {
    if pos <= k {
      steps := k - pos;
    } else {
      steps := n + k - pos;
      ModShift(k, n);
    }
  }

  lemma {:induction false} NoVisits(cycle: seq<Tenant>, t: Tenant, pos: nat, busy: set<Tenant>, steps: nat)
    requires cycle != [] && t in busy
    requires forall i :: 0 <= i < steps ==> SlotAt(cycle, pos, i) !in busy
    ensures Visits(cycle, t, pos, steps) == 0
  {
    if steps > 0 {
      NoVisits(cycle, t, pos, busy, steps - 1);
    }
  }

  // ----- Bounded wait -----

  /** The number of turns within which `need` services of a tenant holding c of the n slots are certain. */
  function WaitBound(n: nat, c: nat, need: nat): int
    requires c > 0
  {
    need + CeilDiv(need, c) * (n - c)
  }

  /** The bound is need short of q laps by what those laps hold too many. */
  lemma WaitBoundFits(n: nat, c: nat, need: nat)
    requires 0 < c <= n
    ensures var q := CeilDiv(need, c);
      0 <= WaitBound(n, c, need) <= q * n && q * n - WaitBound(n, c, need) == q * c - need
  {
    var q := CeilDiv(need, c);
    CeilDivBounds(need, c);
    MulMinus(q, n, c);
    MulMonotone(c, n, q);
    MulSymmetric(q, n);
    MulSymmetric(q, c);
  }

  lemma SlotsBound(cycle: seq<Tenant>, t: Tenant)
    requires t in cycle
    ensures 0 < Slots(cycle, t) <= |cycle|
  {
    var rest := multiset(cycle)[t := 0];
    assert t in multiset(cycle);
    assert multiset(cycle) == rest + multiset{}[t := Slots(cycle, t)];
  }

  /** WaitBound consecutive slots contain at least `need` slots of the tenant, from any position. */
  lemma WindowVisits(cycle: seq<Tenant>, t: Tenant, pos: nat, need: nat)
    requires t in cycle
    ensures WaitBound(|cycle|, Slots(cycle, t), need) >= 0
    ensures Visits(cycle, t, pos, WaitBound(|cycle|, Slots(cycle, t), need)) >= need
  {
    var n, c := |cycle|, Slots(cycle, t);
    SlotsBound(cycle, t);
    var q := CeilDiv(need, c);
    hide Visits, Slots, WaitBound, CeilDiv;
    ManyLaps(cycle, t, pos, q);
    WaitBoundFits(n, c, need);
    VisitsMonotone(cycle, t, pos, WaitBound(n, c, need), q * n);
  }

  /** A turn walks at least one slot and at most one of them, the one it serves, is t's. */
  lemma TurnLeaves(r: Rotation, t: Tenant, d: nat)
    requires Valid(r) && t in r.backlog && r.backlog[t] > 0
    ensures Visits(r.cycle, t, r.pos, 1 + d)
      <= Visits(r.cycle, t, Next(r, Turn).pos, d) + (if Served(r) == Some(t) then 1 else 0)
  {
    TurnVisits(r, t);
    var a := Skip(r) + 1;
    VisitsSplit(r.cycle, t, r.pos, a, d);
    VisitsModulo(r.cycle, t, r.pos + a, d);
    VisitsMonotone(r.cycle, t, r.pos, 1 + d, a + d);
  }

  lemma {:induction false} EnoughTurns(r: Rotation, t: Tenant, events: seq<Event>, need: nat)
    requires Valid(r) && t in r.backlog && need <= r.backlog[t]
    requires Visits(r.cycle, t, r.pos, TurnCount(events)) >= need
    ensures Services(Turns(r, events), t) >= need
    decreases events
  {
    if need > 0 && events != [] {
      var r', d := Next(r, events[0]), TurnCount(events[1..]);
      if events[0].Turn? {
        TurnVisits(r, t);
        TurnLeaves(r, t, d);
        EnoughTurns(r', t, events[1..], if Served(r) == Some(t) then need - 1 else need);
        assert Turns(r, events)[1..] == Turns(r', events[1..]);
      } else {
        EnoughTurns(r', t, events[1..], need);
        assert Turns(r, events) == Turns(r', events[1..]);
      }
    }
  }

  /**
    Bounded wait: a tenant with `need` jobs waiting is served `need` times within WaitBound
    turns, from any pointer position and whatever arrives for anyone meanwhile.
   */
  lemma BoundedWait(r: Rotation, t: Tenant, events: seq<Event>, need: nat)
    requires Valid(r) && t in r.backlog && need <= r.backlog[t]
    requires TurnCount(events) >= WaitBound(|r.cycle|, Slots(r.cycle, t), need)
    ensures Services(Turns(r, events), t) >= need
  {
    WindowVisits(r.cycle, t, r.pos, need);
    VisitsMonotone(r.cycle, t, r.pos, WaitBound(|r.cycle|, Slots(r.cycle, t), need), TurnCount(events));
    EnoughTurns(r, t, events, need);
  }

  // ----- Proportional share -----

  /** t has work waiting before every turn of the run. */
  ghost predicate Backlogged(r: Rotation, t: Tenant, events: seq<Event>)
    requires Valid(r)
    decreases events
  {
    events == [] ||
    ( (events[0].Turn? ==> t in r.backlog && r.backlog[t] > 0)
      && Backlogged(Next(r, events[0]), t, events[1..]))
  }

  /** Total number of slots the pointer walks over in a run. */
  function Walked(r: Rotation, events: seq<Event>): nat
    requires Valid(r)
    decreases events
  {
    if events == [] then 0
    else (if events[0].Turn? && Served(r).Some? then Skip(r) + 1 else 0) + Walked(Next(r, events[0]), events[1..])
  }

  /** A turn's own slots, followed by d more from where it leaves the pointer. */
  lemma TurnThen(r: Rotation, t: Tenant, d: nat)
    requires Valid(r) && t in r.backlog && r.backlog[t] > 0
    ensures Served(r).Some?
    ensures Visits(r.cycle, t, r.pos, Skip(r) + 1 + d)
         == Visits(r.cycle, t, Next(r, Turn).pos, d) + (if Served(r) == Some(t) then 1 else 0)
  {
    TurnVisits(r, t);
    hide SlotAt, Visits, Skip, Served, Next;
    VisitsSplit(r.cycle, t, r.pos, Skip(r) + 1, d);
    VisitsModulo(r.cycle, t, r.pos + Skip(r) + 1, d);
  }

  lemma NextValid(r: Rotation, e: Event)
    requires Valid(r)
    ensures Valid(Next(r, e)) && Next(r, e).cycle == r.cycle
    ensures e.Arrival? ==> Next(r, e).pos == r.pos
  {
    var r' := Run(r, [e]);
    assert [e][1..] == [] && r' == Run(Next(r, e), []);
  }

  lemma {:induction false} ServicesAreVisits(r: Rotation, t: Tenant, events: seq<Event>)
    requires Valid(r) && Backlogged(r, t, events)
    ensures Services(Turns(r, events), t) == Visits(r.cycle, t, r.pos, Walked(r, events))
    decreases events
  {
    if events != [] {
      var r' := Next(r, events[0]);
      NextValid(r, events[0]);
      hide Valid, Next, SlotAt, Visits, Skip, Served;
      var d := Walked(r', events[1..]);
      ServicesAreVisits(r', t, events[1..]);
      if events[0].Turn? {
        TurnThen(r, t, d);
        assert Turns(r, events)[1..] == Turns(r', events[1..]);
      } else {
        assert Turns(r, events) == Turns(r', events[1..]);
      }
    }
  }

  lemma LapsAround(steps: nat, n: nat)
    requires n > 0
    ensures (steps / n) * n <= steps <= (steps / n + 1) * n
  {
    assert (steps / n + 1) * n == (steps / n) * n + n;
  }

  /** x lies between q and q + 1 laps of a slots. */
  predicate Within(q: nat, x: nat, a: nat) {
    q * a <= x <= (q + 1) * a
  }

  /** Cross-scaled by each other's slots a and b, x and y differ by at most one lap's worth. */
  predicate Close(x: nat, a: nat, y: nat, b: nat) {
    -(a * b) <= x * b - y * a <= a * b
  }

  /** A stretch of the rotation visits a tenant between q and q + 1 laps' worth of times. */
  lemma VisitsByLaps(cycle: seq<Tenant>, t: Tenant, pos: nat, steps: nat)
    requires cycle != []
    ensures Within(steps / |cycle|, Visits(cycle, t, pos, steps), Slots(cycle, t))
  {
    var n := |cycle|;
    var q := steps / n;
    hide Visits, Slots;
    LapsAround(steps, n);
    ManyLaps(cycle, t, pos, q);
    ManyLaps(cycle, t, pos, q + 1);
    VisitsMonotone(cycle, t, pos, q * n, steps);
    VisitsMonotone(cycle, t, pos, steps, (q + 1) * n);
  }

  /** Whole laps the pointer walks in a run. */
  function Laps(r: Rotation, events: seq<Event>): nat
    requires Valid(r)
  {
    Walked(r, events) / |r.cycle|
  }

  lemma {:induction false} ServicesByLaps(r: Rotation, t: Tenant, events: seq<Event>)
    requires Valid(r) && Backlogged(r, t, events)
    ensures Within(Laps(r, events), Services(Turns(r, events), t), Slots(r.cycle, t))
  {
    hide Turns, Services, Visits, Walked, Slots, Within, Backlogged;
    ServicesAreVisits(r, t, events);
    VisitsByLaps(r.cycle, t, r.pos, Walked(r, events));
  }

  /**
    Weighted fairness: over any run in which t and u always have work waiting, their service
    counts, scaled by each other's slots, differ by at most one lap's worth, whatever the
    other tenants do.
   */
  lemma {:induction false} WeightedFairness(r: Rotation, t: Tenant, u: Tenant, events: seq<Event>)
    requires Valid(r) && Backlogged(r, t, events) && Backlogged(r, u, events)
    ensures Close(Services(Turns(r, events), t), Slots(r.cycle, t), Services(Turns(r, events), u), Slots(r.cycle, u))
  {
    hide Valid, Backlogged, Turns, Services, Laps, Slots, Within, Close;
    ServicesByLaps(r, t, events);
    ServicesByLaps(r, u, events);
    CrossBound(Laps(r, events), Services(Turns(r, events), t), Slots(r.cycle, t), Services(Turns(r, events), u), Slots(r.cycle, u));
  }

  lemma CrossBound(q: nat, x: nat, a: nat, y: nat, b: nat)
    requires Within(q, x, a) && Within(q, y, b)
    ensures Close(x, a, y, b)
  {
    Scaled(q, x, a, b);
    Scaled(q, y, b, a);
    MulSymmetric(a, b);
  }

  lemma Scaled(q: nat, x: nat, a: nat, b: nat)
    requires Within(q, x, a)
    ensures q * (a * b) <= x * b <= q * (a * b) + a * b
  {
    MulMonotone(q * a, x, b);
    MulMonotone(x, (q + 1) * a, b);
    MulAssoc(q, a, b);
    MulAssoc(q + 1, a, b);
    MulNext(q, a * b);
  }

  ghost predicate AllBacklogged(r: Rotation, events: seq<Event>)
    requires Valid(r)
    decreases events
  {
    events == [] ||
    ( (events[0].Turn? ==> forall t :: t in r.backlog ==> r.backlog[t] > 0)
      && AllBacklogged(Next(r, events[0]), events[1..]))
  }

  lemma {:induction false} AllBackloggedWalk(r: Rotation, t: Tenant, events: seq<Event>)
    requires Valid(r) && AllBacklogged(r, events) && t in r.backlog
    ensures Walked(r, events) == TurnCount(events) && Backlogged(r, t, events)
    decreases events
  {
    if events != [] {
      AllBackloggedWalk(Next(r, events[0]), t, events[1..]);
      if events[0].Turn? {
        assert SlotAt(r.cycle, r.pos, 0) in r.cycle;
      }
    }
  }

  /**
    Exact share: over a whole number of laps of turns with everyone backlogged, each tenant is
    served exactly that many times its slots, from any pointer position.
   */
  lemma ExactShare(r: Rotation, t: Tenant, events: seq<Event>, laps: nat)
    requires Valid(r) && AllBacklogged(r, events) && t in r.backlog
    requires TurnCount(events) == laps * |r.cycle|
    ensures Services(Turns(r, events), t) == laps * Slots(r.cycle, t)
  {
    AllBackloggedWalk(r, t, events);
    ServicesAreVisits(r, t, events);
    ManyLaps(r.cycle, t, r.pos, laps);
  }

  lemma TurnsUnfold(r: Rotation, events: seq<Event>)
    requires Valid(r) && events != []
    ensures Valid(Next(r, events[0]))
    ensures Turns(r, events) == (if events[0].Turn? then [Served(r)] else []) + Turns(Next(r, events[0]), events[1..])
  {
    NextValid(r, events[0]);
    hide Next, Served;
  }

  lemma NextSlot(cycle: seq<Tenant>, pos: nat, k: nat)
    requires cycle != []
    ensures SlotAt(cycle, (pos + 1) % |cycle|, k) == SlotAt(cycle, pos, k + 1)
  {
    ModAdd(pos + 1, k, |cycle|);
  }

  lemma FirstSlotServed(r: Rotation)
    requires Valid(r) && forall t :: t in r.backlog ==> r.backlog[t] > 0
    ensures Served(r) == Some(SlotAt(r.cycle, r.pos, 0)) && Next(r, Turn).pos == (r.pos + 1) % |r.cycle|
  {
    assert SlotAt(r.cycle, r.pos, 0) in r.cycle;
  }

  /** With everyone backlogged the turns follow the lap, slot by slot from the pointer on. */
  lemma {:induction false} TurnsFollowLap(r: Rotation, events: seq<Event>, k: nat)
    requires Valid(r) && AllBacklogged(r, events) && k < TurnCount(events)
    ensures Turns(r, events)[k] == Some(SlotAt(r.cycle, r.pos, k))
    decreases events
  {
    hide Next, SlotAt, Served;
    var r' := Next(r, events[0]);
    NextValid(r, events[0]);
    TurnsUnfold(r, events);
    hide Turns, Valid;
    if !events[0].Turn? {
      TurnsFollowLap(r', events[1..], k);
    } else {
      FirstSlotServed(r);
      if k > 0 {
        TurnsFollowLap(r', events[1..], k - 1);
        NextSlot(r.cycle, r.pos, k - 1);
      }
    }
  }

  /** A turn serves nobody exactly when nothing is waiting. */
  lemma IdleIffEmpty(r: Rotation)
    requires Valid(r)
    ensures Served(r).None? <==> forall t :: t in r.backlog ==> r.backlog[t] == 0
  {
    if t :| t in r.backlog && r.backlog[t] > 0 {
      TurnVisits(r, t);
    }
  }
}
