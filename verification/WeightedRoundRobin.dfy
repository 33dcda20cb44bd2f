/** The weighted round-robin scheduler: turns shared across tenants, FIFO within one. */
module WeightedRoundRobin {
  import opened Wrappers
  import opened Arithmetic
  import opened WeightCycle
  import opened Jobs
  import opened TenantQueues
  import TenantRotation

  datatype WeightError = EmptyWeights | NonPositiveWeight(tenant: Tenant)

  datatype UnknownTenant = UnknownTenant(tenant: Tenant)

  function Names(ws: Weights): (names: seq<Tenant>)
    ensures |names| == |ws| && forall i :: 0 <= i < |ws| ==> names[i] == ws[i].0
  {
    seq(|ws|, i requires 0 <= i < |ws| => ws[i].0)
  }

  /** A fresh scheduler: an empty queue per tenant, the pointer at the start of the lap. */
  function Initial(ws: Weights): Queues
    requires Positive(ws)
  {
    Queues(Names(ws), Cycle(ws), 0, map t | t in Names(ws) :: [])
  }

  lemma InitialValid(ws: Weights)
    requires Positive(ws)
    ensures Valid(Initial(ws)) && Size(Initial(ws)) == 0
  {
    CycleSlots(ws);
    var s := Initial(ws);
    forall t ensures t in s.queues <==> t in s.cycle {
      if t in s.cycle {
        var i :| 0 <= i < |ws| && ws[i].0 == t;
        assert Names(ws)[i] == t;
      }
    }
    TotalZero(s.tenants, s.queues);
  }

  lemma FirstBusyFifo(s: Queues, i: nat, t: Tenant)
    requires i < |s.cycle| && t == TenantRotation.SlotAt(s.cycle, s.pos, i)
    requires t in s.queues && s.queues[t] != []
    requires forall j :: 0 <= j < i ==> TenantRotation.SlotAt(s.cycle, s.pos, j) !in NonEmpty(s.queues)
    ensures Head(Fifo, s) == Some(s.queues[t][0])
    ensures Take(Fifo, s) == Queues(s.tenants, s.cycle, (s.pos + i + 1) % |s.cycle|, s.queues[t := s.queues[t][1..]])
  {
    FirstBusy(Fifo, s, i, t);
    assert Without(s.queues[t], 0) == s.queues[t][1..];
  }

  class WeightedRoundRobinScheduler {
    const tenants: seq<Tenant>
    const cycle: seq<Tenant>
    var queues: map<Tenant, seq<Job>>
    var cyclePos: nat

    function State(): Queues
      reads this
    {
      Queues(tenants, cycle, cyclePos, queues)
    }

    constructor (ws: Weights)
      requires Positive(ws)
      ensures State() == Initial(ws) && Valid(State())
      ensures cycle == Cycle(ws) && cyclePos == 0 && forall t :: t in queues ==> queues[t] == []
    {
      InitialValid(ws);
      var lap := BuildWeightCycle(ws);
      tenants := Names(ws);
      cycle := lap;
      queues := map t | t in Names(ws) :: [];
      cyclePos := 0;
    }

    /** The constructor's argument checks: it raises on no weights or on the first weight that is not positive. */
    static method New(ws: Weights) returns (r: Result<WeightedRoundRobinScheduler, WeightError>)
      ensures r.Ok? <==> Positive(ws)
      ensures r.Ok? ==> fresh(r.value) && Valid(r.value.State()) && r.value.State() == Initial(ws)
      ensures r == Err(EmptyWeights) <==> ws == []
      ensures r.Err? && r.error.NonPositiveWeight? ==>
        exists i :: 0 <= i < |ws| && ws[i].0 == r.error.tenant && ws[i].1 <= 0
          && forall j :: 0 <= j < i ==> ws[j].1 > 0
    {
      if ws == [] {
        return Err(EmptyWeights);
      }
      for i := 0 to |ws|
        invariant forall j :: 0 <= j < i ==> ws[j].1 > 0
      {
        if ws[i].1 <= 0 {
          return Err(NonPositiveWeight(ws[i].0));
        }
      }
      var s := new WeightedRoundRobinScheduler(ws);
      r := Ok(s);
    }

    method Enqueue(job: Job) returns (r: Result<(), UnknownTenant>)
      requires Valid(State())
      modifies this`queues
      ensures Valid(State()) && State() == Put(old(State()), job)
      ensures r == if job.tenant in old(queues) then Ok(()) else Err(UnknownTenant(job.tenant))
    {
      PutView(State(), job);
      if job.tenant !in queues {
        return Err(UnknownTenant(job.tenant));
      }
      queues := queues[job.tenant := queues[job.tenant] + [job]];
      r := Ok(());
    }

    method Size() returns (n: nat)
      requires Valid(State())
      ensures n == TenantQueues.Size(State())
    {
      n := 0;
      for i := 0 to |tenants|
        invariant forall j :: 0 <= j < |tenants| ==> tenants[j] in queues
        invariant n == Total(tenants[..i], queues)
      {
        assert tenants[..i + 1][..i] == tenants[..i];
        n := n + |queues[tenants[i]]|;
      }
      assert tenants[..|tenants|] == tenants;
    }

    /** The loop of dequeue: walk the lap, advancing the pointer, up to the first tenant with work. */
    method WalkToBusySlot() returns (t: Option<Tenant>)
      requires Valid(State())
      modifies this`cyclePos
      ensures t.None? <==> TenantQueues.Skip(old(State())) == |cycle|
      ensures t.None? ==> cyclePos == old(cyclePos)
      ensures t.Some? ==>
        && t.value == Chosen(old(State()))
        && cyclePos == TenantRotation.Advanced(cycle, old(cyclePos), TenantQueues.Skip(old(State())))
    {
      ghost var s := State();
      var n := |cycle|;
      SlotsHaveQueues(s);
      SmallMod(s.pos, n);
      NonEmptyMeans(queues);
      hide TenantQueues.Valid, TenantQueues.Skip, Chosen, Head, Take, TenantRotation.SlotAt, TenantRotation.Advanced, NonEmpty;
      for i := 0 to n
        invariant cyclePos == (s.pos + i) % n
        invariant forall j :: 0 <= j < i ==> TenantRotation.SlotAt(cycle, s.pos, j) !in NonEmpty(queues)
      {
        var tid := cycle[cyclePos];
        WalkOne(cycle, s.pos, i, cyclePos);
        cyclePos := (cyclePos + 1) % n;
        if queues[tid] != [] {
          FirstBusy(Fifo, s, i, tid);
          return Some(tid);
        }
      }
      ModShift(s.pos, n);
      NoneBusy(Fifo, s);
      return None;
    }

    method Dequeue() returns (r: Option<Job>)
      requires Valid(State())
      modifies this
      ensures Valid(State()) && State() == Take(Fifo, old(State()))
      ensures r == Head(Fifo, old(State()))
    {
      TakeValid(Fifo, State());
      var size := Size();
      if size == 0 {
        HeadNoneIffEmpty(Fifo, State());
        return None;
      }
      var t := WalkToBusySlot();
      if t.None? {
        return None;
      }
      var q := queues[t.value];
      assert Without(q, 0) == q[1..];
      queues := queues[t.value := q[1..]];
      return Some(q[0]);
    }

    /** The next answer of Dequeue, without changing anything. */
    method Peek() returns (r: Option<Job>)
      requires Valid(State())
      ensures r == Head(Fifo, State())
    {
      var size := Size();
      if size == 0 {
        HeadNoneIffEmpty(Fifo, State());
        return None;
      }
      var n, pos := |cycle|, cyclePos;
      SlotsHaveQueues(State());
      SmallMod(cyclePos, n);
      NonEmptyMeans(queues);
      hide TenantQueues.Valid, TenantQueues.Skip, Chosen, Head, Take, TenantRotation.SlotAt, TenantRotation.Advanced, NonEmpty;
      for i := 0 to n
        invariant pos == (cyclePos + i) % n
        invariant forall j :: 0 <= j < i ==> TenantRotation.SlotAt(cycle, cyclePos, j) !in NonEmpty(queues)
      {
        var tid := cycle[pos];
        WalkOne(cycle, cyclePos, i, pos);
        pos := (pos + 1) % n;
        if queues[tid] != [] {
          FirstBusyFifo(State(), i, tid);
          return Some(queues[tid][0]);
        }
      }
      NoneBusy(Fifo, State());
      return None;
    }
  }

  // ----- What a scheduler built from weights guarantees -----

  /** A tenant's weight divided by the common divisor of all: its slots in the lap. */
  function ReducedWeight(ws: Weights, i: nat): (c: nat)
    requires Positive(ws) && i < |ws|
    ensures c > 0 && c * GcdOf(ws) == ws[i].1 && c == Slots(Cycle(ws), ws[i].0)
  {
    TenantSlots(ws, i);
    DivisionUnique(ws[i].1, GcdOf(ws), Slots(Cycle(ws), ws[i].0), 0);
    ws[i].1 / GcdOf(ws)
  }

  /** The waiting bound in terms of the weights the scheduler was built with. */
  lemma WaitFromWeights(ws: Weights, i: nat, s: Queues, k: nat, ops: seq<Op>)
    requires Positive(ws) && i < |ws|
    requires Valid(s) && s.cycle == Cycle(ws) && ws[i].0 in s.queues && k < |s.queues[ws[i].0]|
    requires DequeueCount(ops) >= TenantRotation.WaitBound(|Cycle(ws)|, ReducedWeight(ws, i), k + 1)
    ensures Some(s.queues[ws[i].0][k]) in Answers(Fifo, s, ops)
  {
    JobWaitsAtMost(s, ws[i].0, k, ops);
  }

  /**
    A fresh scheduler serves tenants in the order of its weights: while everyone has work, its k-th
    dequeue answers a job of the k-th slot of the lap, which CycleInOrder and CycleSlots determine.
   */
  lemma FreshFollowsWeights(d: Discipline, ws: Weights, s: Queues, ops: seq<Op>, k: nat)
    requires Positive(ws) && Valid(s) && s.cycle == Cycle(ws) && s.pos == 0
    requires TenantRotation.AllBacklogged(View(s), Events(ops)) && k < DequeueCount(ops) && k < |Cycle(ws)|
    ensures k < |Answers(d, s, ops)| && TenantOf(Answers(d, s, ops)[k]) == Some(Cycle(ws)[k])
  {
    TurnCountOf(ops);
    ViewRun(d, s, ops);
    TenantRotation.TurnsFollowLap(View(s), Events(ops), k);
    SmallMod(k, |Cycle(ws)|);
  }

  /**
    With every tenant backlogged before every dequeue, each run of whole laps hands a tenant
    exactly its reduced weight per lap, under either discipline and from any pointer position.
   */
  lemma ShareFromWeights(d: Discipline, ws: Weights, i: nat, s: Queues, ops: seq<Op>, laps: nat)
    requires Positive(ws) && i < |ws|
    requires Valid(s) && s.cycle == Cycle(ws) && ws[i].0 in s.queues
    requires TenantRotation.AllBacklogged(View(s), Events(ops))
    requires DequeueCount(ops) == laps * |Cycle(ws)|
    ensures |OfTenant(Handed(Answers(d, s, ops)), ws[i].0)| * GcdOf(ws) == laps * ws[i].1
  {
    var t := ws[i].0;
    TurnCountOf(ops);
    TenantRotation.ExactShare(View(s), t, Events(ops), laps);
    ViewRun(d, s, ops);
    ServicesAreHanded(Answers(d, s, ops), t);
    TenantSlots(ws, i);
    MulAssoc(laps, Slots(Cycle(ws), t), GcdOf(ws));
  }
}
