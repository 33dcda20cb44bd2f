/** The composed scheduler: bounded admission, the rotation across tenants, best job first within one. */
module ComposedScheduler {
  import opened Wrappers
  import opened Arithmetic
  import opened Text
  import opened WeightCycle
  import opened Jobs
  import opened TenantQueues
  import TenantRotation
  import WeightedRoundRobin

  datatype Status = Accepted | RejectedFull | RejectedInvalid

  datatype ConfigError = BadCapacity | EmptyWeights | BlankTenant | NonPositiveWeight(tenant: Tenant)

  predicate Usable(ws: Weights) {
    ws != [] && forall i :: 0 <= i < |ws| ==> !Blank(ws[i].0) && ws[i].1 > 0
  }

  ghost function Admission(capacity: nat, s: Queues, job: Job): Status
    requires Valid(s)
  {
    if Blank(job.jobId) || Blank(job.tenant) || job.tenant !in s.queues then RejectedInvalid
    else if Size(s) >= capacity then RejectedFull
    else Accepted
  }

  ghost function Offer(capacity: nat, s: Queues, job: Job): Queues
    requires Valid(s)
  {
    if Admission(capacity, s, job).Accepted? then Put(s, job) else s
  }

  class Scheduler {
    const capacity: nat
    const tenants: seq<Tenant>
    const cycle: seq<Tenant>
    var queues: map<Tenant, seq<Job>>
    var cyclePos: nat

    function State(): Queues
      reads this
    {
      Queues(tenants, cycle, cyclePos, queues)
    }

    ghost predicate Valid()
      reads this
    {
      TenantQueues.Valid(State()) && TenantQueues.Size(State()) <= capacity
    }

    constructor (capacity: nat, ws: Weights)
      requires capacity > 0 && Usable(ws)
      ensures this.capacity == capacity && Valid() && State() == WeightedRoundRobin.Initial(ws)
    {
      WeightedRoundRobin.InitialValid(ws);
      var lap := BuildWeightCycle(ws);
      this.capacity := capacity;
      tenants := WeightedRoundRobin.Names(ws);
      cycle := lap;
      queues := map t | t in WeightedRoundRobin.Names(ws) :: [];
      cyclePos := 0;
    }

    /** The constructor's argument checks, in order. */
    static method New(capacity: int, ws: Weights) returns (r: Result<Scheduler, ConfigError>)
      ensures r.Ok? <==> capacity > 0 && Usable(ws)
      ensures r.Ok? ==> fresh(r.value) && r.value.capacity == capacity && r.value.Valid()
      ensures r.Ok? ==> r.value.State() == WeightedRoundRobin.Initial(ws)
      ensures r == Err(BadCapacity) <==> capacity <= 0
      ensures r == Err(EmptyWeights) <==> capacity > 0 && ws == []
      ensures r.Err? && capacity > 0 && ws != [] ==>
        exists i :: 0 <= i < |ws|
          && (forall j :: 0 <= j < i ==> !Blank(ws[j].0) && ws[j].1 > 0)
          && (if Blank(ws[i].0) then r.error == BlankTenant else ws[i].1 <= 0 && r.error == NonPositiveWeight(ws[i].0))
    {
      if capacity <= 0 {
        return Err(BadCapacity);
      }
      if ws == [] {
        return Err(EmptyWeights);
      }
      for i := 0 to |ws|
        invariant forall j :: 0 <= j < i ==> !Blank(ws[j].0) && ws[j].1 > 0
      {
        if Blank(ws[i].0) {
          return Err(BlankTenant);
        }
        if ws[i].1 <= 0 {
          return Err(NonPositiveWeight(ws[i].0));
        }
      }
      var s := new Scheduler(capacity, ws);
      r := Ok(s);
    }

    method Size() returns (n: nat)
      requires Valid()
      ensures n == TenantQueues.Size(State())
    {
      n := 0;
      for i := 0 to |tenants|
        invariant forall j :: 0 <= j < |tenants| ==> tenants[j] in queues
        invariant n == Total(tenants[..i], queues)
      {
        assert tenants[..i + 1][..i] == tenants[..i];
        n := n + |queues[tenants[i]]|;
      }
      assert tenants[..|tenants|] == tenants;
    }

    method Enqueue(job: Job) returns (status: Status)
      requires Valid()
      modifies this`queues
      ensures Valid()
      ensures status == old(Admission(capacity, State(), job))
      ensures status.RejectedInvalid? <==> Blank(job.jobId) || Blank(job.tenant) || job.tenant !in old(queues)
      ensures status.RejectedFull? ==> old(TenantQueues.Size(State())) >= capacity
      ensures status.Accepted? ==> old(TenantQueues.Size(State())) < capacity && queues == old(queues)[job.tenant := old(queues)[job.tenant] + [job]]
      ensures !status.Accepted? ==> queues == old(queues)
      ensures State() == old(Offer(capacity, State(), job))
    {
      if Blank(job.jobId) {
        return RejectedInvalid;
      }
      if Blank(job.tenant) {
        return RejectedInvalid;
      }
      if job.tenant !in queues {
        return RejectedInvalid;
      }
      var size := Size();
      if size >= capacity {
        return RejectedFull;
      }
      StepSize(BestFirst, State(), Op.Enqueue(job));
      queues := queues[job.tenant := queues[job.tenant] + [job]];
      return Accepted;
    }

    /** Rotation step of dequeue: advances the pointer past the chosen tenant's slot. */
    method NextTenantAdvance() returns (t: Option<Tenant>)
      requires Valid()
      modifies this`cyclePos
      ensures t.None? <==> Head(BestFirst, old(State())).None?
      ensures t.None? ==> cyclePos == old(cyclePos)
      ensures t.Some? ==>
        && TenantQueues.Skip(old(State())) < |cycle|
        && t.value == Chosen(old(State()))
        && cyclePos == TenantRotation.Advanced(cycle, old(cyclePos), TenantQueues.Skip(old(State())))
    {
      ghost var s := State();
      var size := Size();
      if size == 0 {
        HeadNoneIffEmpty(BestFirst, s);
        return None;
      }
      var n := |cycle|;
      SlotsHaveQueues(s);
      SmallMod(s.pos, n);
      NonEmptyMeans(queues);
      hide TenantQueues.Valid, TenantQueues.Skip, Chosen, Head, Take, TenantRotation.SlotAt, TenantRotation.Advanced, NonEmpty;
      for i := 0 to n
        invariant cyclePos == (s.pos + i) % n
        invariant forall j :: 0 <= j < i ==> TenantRotation.SlotAt(cycle, s.pos, j) !in NonEmpty(queues)
      {
        var tid := cycle[cyclePos];
        WalkOne(cycle, s.pos, i, cyclePos);
        cyclePos := (cyclePos + 1) % n;
        if queues[tid] != [] {
          FirstBusy(BestFirst, s, i, tid);
          return Some(tid);
        }
      }
      ModShift(s.pos, n);
      NoneBusy(BestFirst, s);
      return None;
    }

    method NextTenantNoAdvance() returns (t: Option<Tenant>)
      requires Valid()
      ensures t.None? <==> Head(BestFirst, State()).None?
      ensures t.Some? ==> TenantQueues.Skip(State()) < |cycle| && t.value == Chosen(State())
    {
      var size := Size();
      if size == 0 {
        HeadNoneIffEmpty(BestFirst, State());
        return None;
      }
      var n, pos := |cycle|, cyclePos;
      SlotsHaveQueues(State());
      SmallMod(cyclePos, n);
      NonEmptyMeans(queues);
      hide TenantQueues.Valid, TenantQueues.Skip, Chosen, Head, Take, TenantRotation.SlotAt, TenantRotation.Advanced, NonEmpty;
      for i := 0 to n
        invariant pos == (cyclePos + i) % n
        invariant forall j :: 0 <= j < i ==> TenantRotation.SlotAt(cycle, cyclePos, j) !in NonEmpty(queues)
      {
        var tid := cycle[pos];
        WalkOne(cycle, cyclePos, i, pos);
        pos := (pos + 1) % n;
        if queues[tid] != [] {
          FirstBusy(BestFirst, State(), i, tid);
          return Some(tid);
        }
      }
      NoneBusy(BestFirst, State());
      return None;
    }

    /** The best job of a queue: nothing in it is preferred, and ties go to the earliest position. */
    static method BestJobIndex(jobs: seq<Job>) returns (index: nat)
      requires jobs != []
      ensures index < |jobs|
      ensures forall j :: 0 <= j < |jobs| ==> !Ahead(jobs[j], jobs[index])
      ensures forall j :: 0 <= j < index ==> Ahead(jobs[index], jobs[j])
      ensures index == Pick(BestFirst, jobs)
    {
      index := 0;
      var best := jobs[0];
      for i := 1 to |jobs|
        invariant index == BestIndex(jobs, i) && best == jobs[index]
      {
        var candidate := jobs[i];
        if candidate.priority > best.priority
          || (candidate.priority == best.priority && candidate.createdAt < best.createdAt)
          || (candidate.priority == best.priority && candidate.createdAt == best.createdAt
              && Before(candidate.jobId, best.jobId))
        {
          best := candidate;
          index := i;
        }
      }
    }

    method Dequeue() returns (r: Option<Job>)
      requires Valid()
      modifies this
      ensures Valid() && State() == Take(BestFirst, old(State()))
      ensures r == Head(BestFirst, old(State()))
    {
      StepSize(BestFirst, State(), Op.Dequeue);
      assert cycle != [];
      hide TenantQueues.Valid, TenantQueues.Size, BestIndex;
      var t := NextTenantAdvance();
      if t.None? {
        return None;
      }
      var jobs := queues[t.value];
      var index := BestJobIndex(jobs);
      queues := queues[t.value := jobs[..index] + jobs[index + 1..]];
      return Some(jobs[index]);
    }

    method Peek() returns (r: Option<Job>)
      requires Valid()
      ensures r == Head(BestFirst, State())
    {
      var t := NextTenantNoAdvance();
      if t.None? {
        return None;
      }
      var index := BestJobIndex(queues[t.value]);
      return Some(queues[t.value][index]);
    }
  }

  // ----- Whole runs -----

  /** The operations of a run that take effect: rejected enqueues fall away. */
  ghost function Effective(capacity: nat, s: Queues, ops: seq<Op>): seq<Op>
    requires Valid(s)
    decreases ops
  {
    if ops == [] then []
    else
      match ops[0]
      case Enqueue(job) =>
        PutView(s, job);
        var rest := Effective(capacity, Offer(capacity, s, job), ops[1..]);
        if Admission(capacity, s, job).Accepted? then [ops[0]] + rest else rest
      case Dequeue =>
        TakeValid(BestFirst, s);
        [ops[0]] + Effective(capacity, Take(BestFirst, s), ops[1..])
  }

  /** The state the scheduler reaches by a run, admission included. */
  ghost function AdmittedRun(capacity: nat, s: Queues, ops: seq<Op>): (s': Queues)
    requires Valid(s)
    ensures Valid(s')
    decreases ops
  {
    if ops == [] then s
    else
      match ops[0]
      case Enqueue(job) =>
        PutView(s, job);
        AdmittedRun(capacity, Offer(capacity, s, job), ops[1..])
      case Dequeue =>
        TakeValid(BestFirst, s);
        AdmittedRun(capacity, Take(BestFirst, s), ops[1..])
  }

  /** A run is a run of its accepted operations, and never holds more than the capacity. */
  lemma {:induction false} AdmittedRunIsRun(capacity: nat, s: Queues, ops: seq<Op>)
    requires Valid(s) && Size(s) <= capacity
    ensures AdmittedRun(capacity, s, ops) == Run(BestFirst, s, Effective(capacity, s, ops))
    ensures Size(AdmittedRun(capacity, s, ops)) <= capacity
    decreases ops
  {
    if ops != [] {
      StepSize(BestFirst, s, ops[0]);
      match ops[0] {
        case Enqueue(job) =>
          var s' := Offer(capacity, s, job);
          AdmittedRunIsRun(capacity, s', ops[1..]);
          assert ([ops[0]] + Effective(capacity, s', ops[1..]))[1..] == Effective(capacity, s', ops[1..]);
        case Dequeue =>
          var s' := Take(BestFirst, s);
          AdmittedRunIsRun(capacity, s', ops[1..]);
          assert ([ops[0]] + Effective(capacity, s', ops[1..]))[1..] == Effective(capacity, s', ops[1..]);
      }
    }
  }

  // ----- Order of a drain -----

  lemma {:induction false} HandedWereWaiting(d: Discipline, s: Queues, n: nat, job: Job)
    requires Valid(s) && job in Handed(Answers(d, s, Dequeues(n)))
    ensures Waiting(s, job) > 0
  {
    RunConserves(d, s, Dequeues(n), job);
    NothingAdded(s, n);
    assert job in multiset(Handed(Answers(d, s, Dequeues(n))));
  }

  lemma {:induction false} NothingAdded(s: Queues, n: nat)
    ensures Added(s, Dequeues(n)) == []
  {
    if n > 0 {
      NothingAdded(s, n - 1);
      assert Dequeues(n)[1..] == Dequeues(n - 1);
    }
  }

  lemma {:induction false} OfTenantMember(jobs: seq<Job>, t: Tenant, job: Job)
    requires job in OfTenant(jobs, t)
    ensures job in jobs && job.tenant == t
  {
    if jobs[0].tenant != t || job != jobs[0] {
      OfTenantMember(jobs[1..], t, job);
    }
  }

  /** What n dequeues hand out for one tenant. */
  function Stretch(s: Queues, t: Tenant, n: nat): seq<Job>
    requires s.cycle != []
  {
    OfTenant(Handed(Answers(BestFirst, s, Dequeues(n))), t)
  }

  lemma {:induction false} StretchUnfold(s: Queues, t: Tenant, n: nat)
    requires s.cycle != [] && n > 0
    ensures var later := Answers(BestFirst, Take(BestFirst, s), Dequeues(n - 1));
      && Stretch(s, t, n) == OfTenant(Handed([Head(BestFirst, s)] + later), t)
      && Stretch(Take(BestFirst, s), t, n - 1) == OfTenant(Handed(later), t)
  {
    DrainUnfold(BestFirst, s, n);
  }

  lemma {:induction false} StretchSorted(s: Queues, t: Tenant, n: nat)
    requires Valid(s) && n > 0 && Sorted(Stretch(Take(BestFirst, s), t, n - 1))
    ensures Sorted(Stretch(s, t, n))
  {
    hide TenantQueues.Valid, Take, Head, Answers, Handed, Dequeues, OfTenant, Sorted, NoneAhead, Stretch;
    ValidCycle(s);
    HeadBeforeLater(s, t, n - 1);
    StretchUnfold(s, t, n);
    PrependHead(Head(BestFirst, s), t, Answers(BestFirst, Take(BestFirst, s), Dequeues(n - 1)));
  }

  /** In any stretch of dequeues each tenant's jobs come out best first. */
  lemma {:induction false} DrainSorted(s: Queues, t: Tenant, n: nat)
    requires Valid(s)
    ensures Sorted(Stretch(s, t, n))
    ensures forall i, j :: 0 <= i < j < |Stretch(s, t, n)| ==> ByFields(Stretch(s, t, n)[i], Stretch(s, t, n)[j])
    decreases n
  {
    SortedMeans(Stretch(s, t, n));
    if n > 0 {
      TakeValid(BestFirst, s);
      hide Take, Sorted, Stretch;
      DrainSorted(Take(BestFirst, s), t, n - 1);
      StretchSorted(s, t, n);
    } else {
      assert Stretch(s, t, 0) == [];
    }
  }

  lemma PrependHead(head: Option<Job>, t: Tenant, later: seq<Option<Job>>)
    requires Sorted(OfTenant(Handed(later), t))
    requires head.Some? && head.value.tenant == t ==> NoneAhead(OfTenant(Handed(later), t), head.value)
    ensures Sorted(OfTenant(Handed([head] + later), t))
  {
    HandedCons(head, later, Job("", "", 0, 0));
    if head.Some? {
      OfTenantCons(head.value, Handed(later), t);
      SortedCons(head.value, OfTenant(Handed(later), t));
    }
  }

  lemma SortedCons(job: Job, jobs: seq<Job>)
    requires Sorted(jobs)
    ensures NoneAhead(jobs, job) ==> Sorted([job] + jobs)
  {
    var all := [job] + jobs;
    assert forall j :: 1 <= j < |all| ==> all[j] == jobs[j - 1];
  }

  lemma HeadBeforeLater(s: Queues, t: Tenant, n: nat)
    requires Valid(s)
    ensures Head(BestFirst, s).Some? && Head(BestFirst, s).value.tenant == t ==>
      NoneAhead(Stretch(Take(BestFirst, s), t, n), Head(BestFirst, s).value)
  {
    var s' := Take(BestFirst, s);
    TakeValid(BestFirst, s);
    var later := Handed(Answers(BestFirst, s', Dequeues(n)));
    var mine := OfTenant(later, t);
    if Head(BestFirst, s).Some? && Head(BestFirst, s).value.tenant == t {
      forall j | 0 <= j < |mine| ensures !Ahead(mine[j], Head(BestFirst, s).value) {
        OfTenantMember(later, t, mine[j]);
        HandedWereWaiting(BestFirst, s', n, mine[j]);
        StillBehind(s, mine[j]);
      }
    }
  }

  /** What still waits for the chosen tenant is not preferred to what was just handed out. */
  lemma StillBehind(s: Queues, job: Job)
    requires s.cycle != [] && TenantQueues.Skip(s) < |s.cycle| && job.tenant == Chosen(s)
    requires Waiting(Take(BestFirst, s), job) > 0
    ensures !Ahead(job, Head(BestFirst, s).value)
  {
    var q := s.queues[Chosen(s)];
    var rest := Without(q, Pick(BestFirst, q));
    assert job in multiset(rest);
    assert job in q;
  }
}
