/** The four runners of the comparison: enqueue a workload under bounded admission, then drain it. */
module PolicyRunners {
  import opened Wrappers
  import opened Text
  import opened WeightCycle
  import opened Jobs
  import opened TenantQueues
  import opened SchedulerMetrics
  import opened CompareSchedulers
  import ComposedScheduler
  import WeightedRoundRobin
  import PriorityScheduler

  /** A job as a scheduler without tenants, or without priorities, holds it. */
  function Seen(job: Job, tenants: bool, priorities: bool): (r: Job)
    ensures r.jobId == job.jobId && r.createdAt == job.createdAt
    ensures tenants ==> r.tenant == job.tenant
    ensures priorities ==> r.priority == job.priority
  {
    Job(job.jobId, if tenants then job.tenant else "", if priorities then job.priority else 0, job.createdAt)
  }

  function AllSeen(jobs: seq<Job>, tenants: bool, priorities: bool): (r: seq<Job>)
    ensures |r| == |jobs| && forall i :: 0 <= i < |jobs| ==> r[i] == Seen(jobs[i], tenants, priorities)
  {
    seq(|jobs|, i requires 0 <= i < |jobs| => Seen(jobs[i], tenants, priorities))
  }

  // ----- Steps of the two phases -----

  lemma AdmitStep(work: seq<Job>, i: nat, allowed: set<Tenant>, capacity: int)
    requires i < |work|
    ensures var jobs, v := Admitted(work[..i], allowed, capacity),
                           Verdict(work[i], allowed, |Admitted(work[..i], allowed, capacity)|, capacity);
      && Admitted(work[..i + 1], allowed, capacity) == (if v.Accepted? then jobs + [work[i]] else jobs)
      && (forall st :: Verdicts(work[..i + 1], allowed, capacity, st)
                    == Verdicts(work[..i], allowed, capacity, st) + if v == st then 1 else 0)
  {
    assert work[..i + 1][..i] == work[..i];
  }

  lemma AdmitNone(work: seq<Job>, allowed: set<Tenant>, capacity: int)
    ensures Admitted(work[..0], allowed, capacity) == [] && ById([]) == map[]
    ensures forall st :: Verdicts(work[..0], allowed, capacity, st) == 0
    ensures forall a, b :: AllSeen([], a, b) == []
  {
  }

  lemma ByIdStep(jobs: seq<Job>, job: Job)
    ensures ById(jobs + [job]) == ById(jobs)[job.jobId := job]
  {
    assert (jobs + [job])[..|jobs|] == jobs;
  }

  lemma SeenStep(jobs: seq<Job>, job: Job, tenants: bool, priorities: bool)
    ensures AllSeen(jobs + [job], tenants, priorities) == AllSeen(jobs, tenants, priorities) + [Seen(job, tenants, priorities)]
  {
  }

  lemma TallyStep(byId: map<string, Job>, out: seq<Job>, job: Job)
    ensures TallyOf(Resolve(byId, out + [job])) == Record(TallyOf(Resolve(byId, out)), Lookup(byId, job), |out|)
  {
    var r := Resolve(byId, out + [job]);
    assert r[..|out|] == Resolve(byId, out);
  }

  lemma ResolveSeen(jobs: seq<Job>, tenants: bool, priorities: bool)
    ensures Resolve(ById(jobs), AllSeen(jobs, tenants, priorities)) == Resolve(ById(jobs), jobs)
  {
    forall i | 0 <= i < |jobs|
      ensures Lookup(ById(jobs), AllSeen(jobs, tenants, priorities)[i]) == Lookup(ById(jobs), jobs[i])
    {
      var j := ByIdLast(jobs, i);
    }
  }

  /** Draining what the lookup runners admitted, in any order, gives the expected summary. */
  lemma DrainReport(work: seq<Job>, allowed: set<Tenant>, capacity: int, out: seq<Job>, tenants: bool, priorities: bool)
    requires var jobs := Admitted(work, allowed, capacity);
      multiset(out) == multiset(AllSeen(jobs, tenants, priorities))
    ensures var byId := ById(Admitted(work, allowed, capacity));
      Expected(Resolve(byId, out), work, allowed, capacity)
        == Expected(Recorded(work, allowed, capacity), work, allowed, capacity)
  {
    var jobs := Admitted(work, allowed, capacity);
    ResolveSeen(jobs, tenants, priorities);
    ResolvePermuted(ById(jobs), out, AllSeen(jobs, tenants, priorities));
    ExpectedPermuted(Resolve(ById(jobs), out), Recorded(work, allowed, capacity), work, allowed, capacity);
  }

  /** A runner's report: its dispatches, looked up by id, recorded in order; and the rejections. */
  function LookupReport(work: seq<Job>, allowed: set<Tenant>, capacity: int, out: seq<Job>): Report {
    FullReport(work, allowed, capacity, Resolve(ById(Admitted(work, allowed, capacity)), out))
  }

  function FullReport(work: seq<Job>, allowed: set<Tenant>, capacity: int, recorded: seq<Job>): Report {
    ReportOf(TallyOf(recorded), Verdicts(work, allowed, capacity, ComposedScheduler.RejectedFull),
             Verdicts(work, allowed, capacity, ComposedScheduler.RejectedInvalid))
  }

  /** The counters after the admission of a workload. */
  ghost predicate Counted(m: SchedulerMetrics, work: seq<Job>, allowed: set<Tenant>, capacity: int)
    reads m
  {
    && m.rejectedFull == Verdicts(work, allowed, capacity, ComposedScheduler.RejectedFull)
    && m.rejectedInvalid == Verdicts(work, allowed, capacity, ComposedScheduler.RejectedInvalid)
  }

  // ----- FIFO -----

  method EnqueueFifo(work: seq<Job>, capacity: int, allowed: set<Tenant>, metrics: SchedulerMetrics)
    returns (queue: seq<Job>, byId: map<string, Job>)
    requires metrics.rejectedFull == metrics.rejectedInvalid == 0
    modifies metrics
    ensures Counted(metrics, work, allowed, capacity) && metrics.Totals() == old(metrics.Totals())
    ensures queue == AllSeen(Admitted(work, allowed, capacity), false, false)
    ensures byId == ById(Admitted(work, allowed, capacity))
  {
    queue, byId := [], map[];
    AdmitNone(work, allowed, capacity);
    hide Admitted, Verdicts, ById, IsValid;
    for i := 0 to |work|
      invariant Counted(metrics, work[..i], allowed, capacity) && metrics.Totals() == old(metrics.Totals())
      invariant queue == AllSeen(Admitted(work[..i], allowed, capacity), false, false)
      invariant byId == ById(Admitted(work[..i], allowed, capacity))
    {
      AdmitStep(work, i, allowed, capacity);
      SeenStep(Admitted(work[..i], allowed, capacity), work[i], false, false);
      ByIdStep(Admitted(work[..i], allowed, capacity), work[i]);
      var job := work[i];
      if !IsValid(job, allowed) {
        metrics.RecordEnqueueResult(ComposedScheduler.RejectedInvalid);
      } else if |queue| >= capacity {
        metrics.RecordEnqueueResult(ComposedScheduler.RejectedFull);
      } else {
        queue := queue + [Seen(job, false, false)];
        byId := byId[job.jobId := job];
        metrics.RecordEnqueueResult(ComposedScheduler.Accepted);
      }
    }
    assert work[..|work|] == work;
  }

  method DrainFifo(start: seq<Job>, byId: map<string, Job>, metrics: SchedulerMetrics)
    requires metrics.Totals() == Zero
    modifies metrics`total, metrics`byTenant, metrics`byPriority, metrics`wait, metrics`waitByTenant, metrics`waitByPriority
    ensures metrics.Totals() == TallyOf(Resolve(byId, start))
  {
    var queue, tick := start, 0;
    assert start[..0] == [] && Resolve(byId, []) == [];
    while queue != []
      invariant tick <= |start| && queue == start[tick..]
      invariant metrics.Totals() == TallyOf(Resolve(byId, start[..tick]))
      decreases |queue|
    {
      hide TallyOf, Resolve, Lookup, Record;
      assert start[..tick + 1] == start[..tick] + [start[tick]];
      TallyStep(byId, start[..tick], start[tick]);
      var job := queue[0];
      queue := queue[1..];
      metrics.RecordDispatch(Lookup(byId, job), tick);
      tick := tick + 1;
    }
    assert start[..tick] == start;
  }

  /** First come, first served: the report is that of the admitted jobs in order. */
  method RunFifo(work: seq<Job>, capacity: int, allowed: set<Tenant>) returns (r: Report)
    ensures r == FullReport(work, allowed, capacity, Recorded(work, allowed, capacity))
    ensures Summarize(r) == Expected(Recorded(work, allowed, capacity), work, allowed, capacity)
  {
    var metrics := new SchedulerMetrics();
    var queue, byId := EnqueueFifo(work, capacity, allowed, metrics);
    DrainFifo(queue, byId, metrics);
    DrainReport(work, allowed, capacity, queue, false, false);
    ResolveSeen(Admitted(work, allowed, capacity), false, false);
    r := ReportOf(metrics.Totals(), metrics.rejectedFull, metrics.rejectedInvalid);
  }

  // ----- Priority -----

  method EnqueuePriority(work: seq<Job>, capacity: int, allowed: set<Tenant>,
                         sched: PriorityScheduler.Scheduler, metrics: SchedulerMetrics)
    returns (byId: map<string, Job>)
    requires metrics.rejectedFull == metrics.rejectedInvalid == 0 && sched.Valid() && sched.heap == []
    modifies metrics, sched
    ensures Counted(metrics, work, allowed, capacity) && metrics.Totals() == old(metrics.Totals())
    ensures sched.Valid() && multiset(sched.heap) == multiset(AllSeen(Admitted(work, allowed, capacity), false, true))
    ensures byId == ById(Admitted(work, allowed, capacity))
  {
    byId := map[];
    AdmitNone(work, allowed, capacity);
    hide Admitted, Verdicts, ById, IsValid, NoneAhead;
    for i := 0 to |work|
      invariant Counted(metrics, work[..i], allowed, capacity) && metrics.Totals() == old(metrics.Totals())
      invariant sched.Valid()
      invariant multiset(sched.heap) == multiset(AllSeen(Admitted(work[..i], allowed, capacity), false, true))
      invariant byId == ById(Admitted(work[..i], allowed, capacity))
    {
      AdmitStep(work, i, allowed, capacity);
      SeenStep(Admitted(work[..i], allowed, capacity), work[i], false, true);
      ByIdStep(Admitted(work[..i], allowed, capacity), work[i]);
      var job := work[i];
      var size := sched.Size();
      assert size == |Admitted(work[..i], allowed, capacity)|;
      if !IsValid(job, allowed) {
        metrics.RecordEnqueueResult(ComposedScheduler.RejectedInvalid);
      } else if size >= capacity {
        metrics.RecordEnqueueResult(ComposedScheduler.RejectedFull);
      } else {
        sched.Enqueue(Seen(job, false, true));
        byId := byId[job.jobId := job];
        metrics.RecordEnqueueResult(ComposedScheduler.Accepted);
      }
    }
    assert work[..|work|] == work;
  }

  /** Nothing held is preferred to anything already out. */
  ghost predicate OutFirst(out: seq<Job>, held: multiset<Job>) {
    forall i, y :: 0 <= i < |out| && y in held ==> !Ahead(y, out[i])
  }

  lemma BestNext(out: seq<Job>, held: multiset<Job>, job: Job)
    requires Sorted(out) && OutFirst(out, held) && IsBest(job, held)
    ensures Sorted(out + [job]) && OutFirst(out + [job], held - multiset{job})
  {
    var all := out + [job];
    assert forall i :: 0 <= i < |all| ==> all[i] == if i < |out| then out[i] else job;
  }

  ghost predicate Split(out: seq<Job>, held: seq<Job>, start: seq<Job>) {
    multiset(out) + multiset(held) == multiset(start)
  }

  lemma Shrinks(held: seq<Job>, held': seq<Job>, job: Job)
    requires job in multiset(held) && multiset(held') == multiset(held) - multiset{job}
    ensures |held'| < |held|
    ensures forall out, start :: Split(out, held, start) ==> Split(out + [job], held', start)
  {
    assert multiset(held) == multiset(held') + multiset{job};
    assert |held| == |multiset(held)| && |held'| == |multiset(held')|;
  }

  method DrainPriority(sched: PriorityScheduler.Scheduler, byId: map<string, Job>, metrics: SchedulerMetrics)
    returns (ghost out: seq<Job>)
    requires metrics.Totals() == Zero && sched.Valid()
    modifies sched, metrics`total, metrics`byTenant, metrics`byPriority, metrics`wait, metrics`waitByTenant, metrics`waitByPriority
    ensures multiset(out) == old(multiset(sched.heap)) && Sorted(out)
    ensures metrics.Totals() == TallyOf(Resolve(byId, out))
  {
    var tick := 0;
    out := [];
    while true
      invariant sched.Valid() && tick == |out|
      invariant Split(out, sched.heap, old(sched.heap))
      invariant Sorted(out) && OutFirst(out, multiset(sched.heap))
      invariant metrics.Totals() == TallyOf(Resolve(byId, out))
      decreases |sched.heap|
    {
      hide TallyOf, Resolve, Lookup, Record, NoneAhead, IsBest, Sorted, OutFirst;
      ghost var held := sched.heap;
      var job := sched.Dequeue();
      if job.None? {
        break;
      }
      BestNext(out, multiset(held), job.value);
      Shrinks(held, sched.heap, job.value);
      TallyStep(byId, out, job.value);
      metrics.RecordDispatch(Lookup(byId, job.value), tick);
      tick := tick + 1;
      out := out + [job.value];
    }
  }

  /** Best first: the report is that of the admitted jobs dispatched in sorted order. */
  method RunPriority(work: seq<Job>, capacity: int, allowed: set<Tenant>) returns (r: Report, ghost out: seq<Job>)
    ensures multiset(out) == multiset(AllSeen(Admitted(work, allowed, capacity), false, true)) && Sorted(out)
    ensures forall i, j :: 0 <= i < j < |out| ==> ByFields(out[i], out[j])
    ensures r == LookupReport(work, allowed, capacity, out)
    ensures Summarize(r) == Expected(Recorded(work, allowed, capacity), work, allowed, capacity)
  {
    var metrics := new SchedulerMetrics();
    var sched := new PriorityScheduler.Scheduler();
    var byId := EnqueuePriority(work, capacity, allowed, sched, metrics);
    out := DrainPriority(sched, byId, metrics);
    DrainReport(work, allowed, capacity, out, false, true);
    SortedMeans(out);
    r := ReportOf(metrics.Totals(), metrics.rejectedFull, metrics.rejectedInvalid);
  }

  // ----- Weighted round robin -----

  ghost predicate Holds(s: Queues, jobs: seq<Job>) {
    forall job :: Waiting(s, job) == multiset(jobs)[job]
  }

  lemma HoldsNothing(ws: Weights)
    requires Positive(ws)
    ensures Holds(WeightedRoundRobin.Initial(ws), [])
  {
  }

  lemma HoldsPut(s: Queues, jobs: seq<Job>, job: Job)
    requires Holds(s, jobs) && job.tenant in s.queues
    ensures Holds(Put(s, job), jobs + [job])
  {
    forall j ensures Waiting(Put(s, job), j) == multiset(jobs + [job])[j] {
      assert Waiting(s, j) == multiset(jobs)[j];
    }
  }

  /** A scheduler's state after enqueueing `jobs`, one after another. */
  function Loaded(s: Queues, jobs: seq<Job>): Queues {
    if jobs == [] then s else Put(Loaded(s, jobs[..|jobs| - 1]), jobs[|jobs| - 1])
  }

  lemma LoadedStep(s: Queues, jobs: seq<Job>, job: Job)
    ensures Loaded(s, jobs + [job]) == Put(Loaded(s, jobs), job)
  {
    assert (jobs + [job])[..|jobs|] == jobs;
  }

  lemma {:induction false} HandedNext(d: Discipline, s: Queues, n: nat)
    requires s.cycle != [] && n > 0 && Head(d, s).Some?
    ensures Handed(Answers(d, s, Dequeues(n))) == [Head(d, s).value] + Handed(Answers(d, Take(d, s), Dequeues(n - 1)))
  {
    DrainUnfold(d, s, n);
    var head, rest := Head(d, s), Answers(d, Take(d, s), Dequeues(n - 1));
    hide Head, Take, Answers, Dequeues;
    HandedCons(head, rest, head.value);
  }

  lemma {:induction false} DrainedUnfold(d: Discipline, s: Queues, s': Queues)
    requires Valid(s) && Valid(s') && s' == Take(d, s) && Head(d, s).Some? && Size(s) == Size(s') + 1
    ensures Drained(d, s) == [Head(d, s).value] + Drained(d, s')
  {
    hide Size, Head, Take, Answers, Handed, Dequeues;
    HandedNext(d, s, Size(s));
  }

  lemma {:induction false} DrainedStep(d: Discipline, s: Queues)
    requires Valid(s) && Head(d, s).Some?
    ensures Valid(Take(d, s)) && Size(Take(d, s)) < Size(s)
    ensures Drained(d, s) == [Head(d, s).value] + Drained(d, Take(d, s))
  {
    hide Size, Head, Take, Drained;
    HeadNoneIffEmpty(d, s);
    DrainStep(d, s);
    DrainedUnfold(d, s, Take(d, s));
  }

  /** In the middle of a drain: what is out, followed by what the rest of the drain will hand out. */
  ghost predicate Draining(all: seq<Job>, out: seq<Job>, d: Discipline, s: Queues) {
    Valid(s) && all == out + Drained(d, s)
  }

  lemma DrainingStep(all: seq<Job>, out: seq<Job>, d: Discipline, s: Queues)
    requires Draining(all, out, d, s) && Valid(s)
    ensures Head(d, s).None? ==> all == out
    ensures Head(d, s).Some? ==>
      && Valid(Take(d, s)) && Size(Take(d, s)) < Size(s)
      && Draining(all, out + [Head(d, s).value], d, Take(d, s))
  {
    if Head(d, s).Some? {
      DrainedStep(d, s);
      hide Drained, Head, Take, Valid, Size;
      assert out + ([Head(d, s).value] + Drained(d, Take(d, s))) == (out + [Head(d, s).value]) + Drained(d, Take(d, s));
    } else {
      HeadNoneIffEmpty(d, s);
    }
  }

  /** A drain hands out exactly what was held. */
  lemma DrainedHolds(d: Discipline, s: Queues, jobs: seq<Job>)
    requires Valid(s) && Holds(s, jobs)
    ensures multiset(Drained(d, s)) == multiset(jobs)
  {
    var n := Size(s);
    var end := Run(d, s, Dequeues(n));
    DrainEmpties(d, s, n);
    TotalZero(end.tenants, end.queues);
    forall job ensures multiset(Drained(d, s))[job] == multiset(jobs)[job] {
      RunConserves(d, s, Dequeues(n), job);
      ComposedScheduler.NothingAdded(s, n);
      assert Waiting(end, job) == 0 && Waiting(s, job) == multiset(jobs)[job];
    }
  }

  /** The state s reached from s0 by enqueueing `jobs`, and what it holds. */
  ghost predicate InStep(s0: Queues, s: Queues, jobs: seq<Job>, allowed: set<Tenant>) {
    Valid(s) && Size(s) == |jobs| && Holds(s, jobs) && s.queues.Keys == allowed && s == Loaded(s0, jobs)
  }

  lemma PutStep(s0: Queues, s: Queues, jobs: seq<Job>, job: Job, allowed: set<Tenant>)
    requires InStep(s0, s, jobs, allowed) && job.tenant in allowed
    ensures InStep(s0, Put(s, job), jobs + [job], allowed)
  {
    StepSize(Fifo, s, Op.Enqueue(job));
    hide Valid, Size;
    LoadedStep(s0, jobs, job);
    HoldsPut(s, jobs, job);
  }

  lemma FreshInStep(ws: Weights)
    requires Positive(ws)
    ensures var s, allowed := WeightedRoundRobin.Initial(ws), set t | t in WeightedRoundRobin.Names(ws);
      InStep(s, s, [], allowed)
  {
    WeightedRoundRobin.InitialValid(ws);
    HoldsNothing(ws);
  }

  /** What the weighted round-robin runner does with one more job. */
  lemma RoundRobinStep(s0: Queues, s: Queues, work: seq<Job>, i: nat, allowed: set<Tenant>, capacity: int)
    requires i < |work| && InStep(s0, s, AllSeen(Admitted(work[..i], allowed, capacity), true, false), allowed)
    ensures Valid(s) && Size(s) == |Admitted(work[..i], allowed, capacity)|
    ensures var jobs := Admitted(work[..i + 1], allowed, capacity);
      if Verdict(work[i], allowed, Size(s), capacity).Accepted?
      then InStep(s0, Put(s, Seen(work[i], true, false)), AllSeen(jobs, true, false), allowed)
        && ById(jobs) == ById(Admitted(work[..i], allowed, capacity))[work[i].jobId := work[i]]
      else jobs == Admitted(work[..i], allowed, capacity)
  {
    var jobs := Admitted(work[..i], allowed, capacity);
    AdmitStep(work, i, allowed, capacity);
    hide Admitted, Valid, ById, Holds;
    if Verdict(work[i], allowed, Size(s), capacity).Accepted? {
      hide Size;
      SeenStep(jobs, work[i], true, false);
      ByIdStep(jobs, work[i]);
      PutStep(s0, s, AllSeen(jobs, true, false), Seen(work[i], true, false), allowed);
    }
  }

  method EnqueueRoundRobin(work: seq<Job>, capacity: int, allowed: set<Tenant>,
                           sched: WeightedRoundRobin.WeightedRoundRobinScheduler, metrics: SchedulerMetrics)
    returns (byId: map<string, Job>)
    requires metrics.rejectedFull == metrics.rejectedInvalid == 0
    requires InStep(sched.State(), sched.State(), [], allowed)
    modifies metrics, sched
    ensures Counted(metrics, work, allowed, capacity) && metrics.Totals() == old(metrics.Totals())
    ensures InStep(old(sched.State()), sched.State(), AllSeen(Admitted(work, allowed, capacity), true, false), allowed)
    ensures byId == ById(Admitted(work, allowed, capacity))
  {
    byId := map[];
    AdmitNone(work, allowed, capacity);
    hide Admitted, Verdicts, ById, Valid, InStep, Size, Verdict, Put, AllSeen, Seen;
    for i := 0 to |work|
      invariant Counted(metrics, work[..i], allowed, capacity) && metrics.Totals() == old(metrics.Totals())
      invariant InStep(old(sched.State()), sched.State(), AllSeen(Admitted(work[..i], allowed, capacity), true, false), allowed)
      invariant byId == ById(Admitted(work[..i], allowed, capacity))
    {
      RoundRobinStep(old(sched.State()), sched.State(), work, i, allowed, capacity);
      AdmitStep(work, i, allowed, capacity);
      var job := work[i];
      var size := sched.Size();
      var verdict := Judge(job, allowed, size, capacity);
      if verdict.Accepted? {
        var ok := sched.Enqueue(Seen(job, true, false));
        byId := byId[job.jobId := job];
      }
      metrics.RecordEnqueueResult(verdict);
    }
    assert work[..|work|] == work;
  }

  method Judge(job: Job, allowed: set<Tenant>, size: nat, capacity: int) returns (v: ComposedScheduler.Status)
    ensures v == Verdict(job, allowed, size, capacity)
    ensures v.Accepted? ==> job.tenant in allowed
  {
    if !IsValid(job, allowed) {
      return ComposedScheduler.RejectedInvalid;
    }
    if size >= capacity {
      return ComposedScheduler.RejectedFull;
    }
    return ComposedScheduler.Accepted;
  }

  method DrainRoundRobin(sched: WeightedRoundRobin.WeightedRoundRobinScheduler, byId: map<string, Job>,
                         metrics: SchedulerMetrics)
    requires metrics.Totals() == Zero && Valid(sched.State())
    modifies sched, metrics`total, metrics`byTenant, metrics`byPriority, metrics`wait, metrics`waitByTenant, metrics`waitByPriority
    ensures metrics.Totals() == TallyOf(Resolve(byId, Drained(Fifo, old(sched.State()))))
  {
    var tick := 0;
    ghost var out := [];
    ghost var all := Drained(Fifo, sched.State());
    assert Draining(all, out, Fifo, sched.State());
    while true
      invariant Valid(sched.State()) && tick == |out| && Draining(all, out, Fifo, sched.State())
      invariant metrics.Totals() == TallyOf(Resolve(byId, out))
      decreases Size(sched.State())
    {
      hide TallyOf, Resolve, Lookup, Record, Valid, Size, Take, Head, Drained, Draining;
      ghost var s := sched.State();
      var job := sched.Dequeue();
      DrainingStep(all, out, Fifo, s);
      if job.None? {
        break;
      }
      TallyStep(byId, out, job.value);
      metrics.RecordDispatch(Lookup(byId, job.value), tick);
      tick := tick + 1;
      out := out + [job.value];
    }
  }

  /** What a policy dispatches, in order, of the jobs it admitted. */
  ghost function Dispatched(d: Discipline, ws: Weights, jobs: seq<Job>): seq<Job>
    requires Positive(ws) && Valid(Loaded(WeightedRoundRobin.Initial(ws), jobs))
  {
    Drained(d, Loaded(WeightedRoundRobin.Initial(ws), jobs))
  }

  /** Turns by weight: the report is that of draining the admitted jobs through the rotation. */
  method RunWeightedRoundRobin(work: seq<Job>, capacity: int, ws: Weights) returns (r: Option<Report>)
    ensures r.Some? <==> Positive(ws)
    ensures r.Some? ==>
      var allowed := set t | t in WeightedRoundRobin.Names(ws);
      var jobs := AllSeen(Admitted(work, allowed, capacity), true, false);
      && Valid(Loaded(WeightedRoundRobin.Initial(ws), jobs))
      && r.value == LookupReport(work, allowed, capacity, Dispatched(Fifo, ws, jobs))
      && multiset(Dispatched(Fifo, ws, jobs)) == multiset(jobs)
      && Summarize(r.value) == Expected(Recorded(work, allowed, capacity), work, allowed, capacity)
  {
    var allowed := set t | t in WeightedRoundRobin.Names(ws);
    var made := WeightedRoundRobin.WeightedRoundRobinScheduler.New(ws);
    if made.Err? {
      return None;
    }
    var metrics := new SchedulerMetrics();
    var sched := made.value;
    FreshInStep(ws);
    hide Valid, Size, Holds, Loaded, Drained, Admitted, TallyOf, Verdicts, ById, Resolve, WeightedRoundRobin.Initial;
    var byId := EnqueueRoundRobin(work, capacity, allowed, sched, metrics);
    ghost var jobs := AllSeen(Admitted(work, allowed, capacity), true, false);
    DrainedHolds(Fifo, sched.State(), jobs);
    DrainReport(work, allowed, capacity, Drained(Fifo, sched.State()), true, false);
    DrainRoundRobin(sched, byId, metrics);
    return Some(ReportOf(metrics.Totals(), metrics.rejectedFull, metrics.rejectedInvalid));
  }

  // ----- Composed -----

  lemma OfferStep(capacity: nat, s0: Queues, s: Queues, jobs: seq<Job>, job: Job, allowed: set<Tenant>)
    requires InStep(s0, s, jobs, allowed) && Valid(s)
    ensures ComposedScheduler.Admission(capacity, s, job) == Verdict(job, allowed, |jobs|, capacity)
    ensures var v := Verdict(job, allowed, |jobs|, capacity);
      InStep(s0, ComposedScheduler.Offer(capacity, s, job), if v.Accepted? then jobs + [job] else jobs, allowed)
  {
    if ComposedScheduler.Admission(capacity, s, job).Accepted? {
      PutStep(s0, s, jobs, job, allowed);
    }
  }

  method EnqueueComposed(work: seq<Job>, ghost capacity: nat, ghost allowed: set<Tenant>, sched: ComposedScheduler.Scheduler, metrics: SchedulerMetrics)
    requires metrics.rejectedFull == metrics.rejectedInvalid == 0
    requires sched.Valid() && sched.capacity == capacity && InStep(sched.State(), sched.State(), [], allowed)
    modifies metrics, sched
    ensures Counted(metrics, work, allowed, capacity) && metrics.Totals() == old(metrics.Totals())
    ensures sched.Valid() && InStep(old(sched.State()), sched.State(), Admitted(work, allowed, capacity), allowed)
  {
    AdmitNone(work, allowed, capacity);
    hide Admitted, Verdicts, Valid, Size, InStep, ComposedScheduler.Admission, ComposedScheduler.Offer, Verdict;
    for i := 0 to |work|
      invariant Counted(metrics, work[..i], allowed, capacity) && metrics.Totals() == old(metrics.Totals())
      invariant sched.Valid() && InStep(old(sched.State()), sched.State(), Admitted(work[..i], allowed, capacity), allowed)
    {
      OfferStep(capacity, old(sched.State()), sched.State(), Admitted(work[..i], allowed, capacity), work[i], allowed);
      AdmitStep(work, i, allowed, capacity);
      var status := sched.Enqueue(work[i]);
      metrics.RecordEnqueueResult(status);
    }
    assert work[..|work|] == work;
  }

  method DrainComposed(sched: ComposedScheduler.Scheduler, metrics: SchedulerMetrics)
    requires metrics.Totals() == Zero && sched.Valid()
    modifies sched, metrics`total, metrics`byTenant, metrics`byPriority, metrics`wait, metrics`waitByTenant, metrics`waitByPriority
    ensures metrics.Totals() == TallyOf(Drained(BestFirst, old(sched.State())))
  {
    var tick := 0;
    ghost var out := [];
    ghost var all := Drained(BestFirst, sched.State());
    assert Draining(all, out, BestFirst, sched.State());
    while true
      invariant sched.Valid() && tick == |out| && Draining(all, out, BestFirst, sched.State())
      invariant metrics.Totals() == TallyOf(out)
      decreases Size(sched.State())
    {
      hide TallyOf, Record, Valid, Size, Take, Head, Drained, Draining;
      ghost var s := sched.State();
      var job := sched.Dequeue();
      DrainingStep(all, out, BestFirst, s);
      if job.None? {
        break;
      }
      TallyNext(out, job.value);
      metrics.RecordDispatch(job.value, tick);
      tick := tick + 1;
      out := out + [job.value];
    }
  }

  lemma TallyNext(out: seq<Job>, job: Job)
    ensures TallyOf(out + [job]) == Record(TallyOf(out), job, |out|)
  {
    assert (out + [job])[..|out|] == out;
  }

  /** Turns by weight and best first within a tenant; the dispatched jobs are recorded as they are. */
  method RunComposed(work: seq<Job>, capacity: int, ws: Weights) returns (r: Option<Report>)
    ensures r.Some? <==> capacity > 0 && ComposedScheduler.Usable(ws)
    ensures r.Some? ==>
      var allowed := set t | t in WeightedRoundRobin.Names(ws);
      var jobs := Admitted(work, allowed, capacity);
      && Valid(Loaded(WeightedRoundRobin.Initial(ws), jobs))
      && r.value == FullReport(work, allowed, capacity, Dispatched(BestFirst, ws, jobs))
      && multiset(Dispatched(BestFirst, ws, jobs)) == multiset(jobs)
      && Summarize(r.value) == Expected(jobs, work, allowed, capacity)
  {
    var made := ComposedScheduler.Scheduler.New(capacity, ws);
    if made.Err? {
      return None;
    }
    var metrics := new SchedulerMetrics();
    var sched := made.value;
    ghost var allowed := set t | t in WeightedRoundRobin.Names(ws);
    FreshInStep(ws);
    hide Valid, Size, Holds, Loaded, Drained, Admitted, TallyOf, Verdicts, ById, Resolve, WeightedRoundRobin.Initial;
    EnqueueComposed(work, capacity, allowed, sched, metrics);
    ghost var jobs := Admitted(work, allowed, capacity);
    DrainedHolds(BestFirst, sched.State(), jobs);
    ExpectedPermuted(Drained(BestFirst, sched.State()), jobs, work, allowed, capacity);
    DrainComposed(sched, metrics);
    return Some(ReportOf(metrics.Totals(), metrics.rejectedFull, metrics.rejectedInvalid));
  }

  // ----- The comparison -----

  /**
    The script's comparison of the four policies over one workload.  The three that look jobs up by
    id always agree in summary; the composed one agrees with them exactly when the lookup keeps each
    tenant's number of jobs and the sum of the creation times, as it does when ids identify the jobs.
   */
  method Compare(work: seq<Job>, capacity: int, ws: Weights)
    returns (r: Option<(Report, Report, Report, Report)>)
    ensures r.Some? <==> capacity > 0 && ComposedScheduler.Usable(ws)
    ensures r.Some? ==>
      var allowed := set t | t in WeightedRoundRobin.Names(ws);
      && Summarize(r.value.0) == Summarize(r.value.1) == Summarize(r.value.2)
      && (Summarize(r.value.2) == Summarize(r.value.3) <==>
            SameSums(Recorded(work, allowed, capacity), Admitted(work, allowed, capacity)))
      && (IdsIdentify(Admitted(work, allowed, capacity)) ==> Summarize(r.value.2) == Summarize(r.value.3))
  {
    var allowed := set t | t in WeightedRoundRobin.Names(ws);
    hide FullReport, LookupReport, Dispatched, Loaded, Valid, Expected, Recorded, Admitted, SameSums;
    ConservationLaw(work, allowed, capacity);
    var fifo := RunFifo(work, capacity, allowed);
    var priority, _ := RunPriority(work, capacity, allowed);
    var roundRobin := RunWeightedRoundRobin(work, capacity, ws);
    var composed := RunComposed(work, capacity, ws);
    if roundRobin.None? || composed.None? {
      return None;
    }
    return Some((fifo, priority, roundRobin.value, composed.value));
  }
}
