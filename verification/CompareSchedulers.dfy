/**
  The scheduler comparison: one workload offered to four policies.  Each runner's contract is
  stated against the workload alone, so the part of its report they share is a conservation law.
 */
module CompareSchedulers {
  import opened Wrappers
  import opened Text
  import opened WeightCycle
  import opened Jobs
  import opened TenantQueues
  import opened SchedulerMetrics
  import opened ComposedScheduler
  import WeightedRoundRobin
  import PriorityScheduler

  // ----- Admission -----

  predicate IsValid(job: Job, allowed: set<Tenant>) {
    !Blank(job.jobId) && !Blank(job.tenant) && job.tenant in allowed
  }

  function Verdict(job: Job, allowed: set<Tenant>, size: nat, capacity: int): Status {
    if !IsValid(job, allowed) then RejectedInvalid
    else if size >= capacity then RejectedFull
    else Accepted
  }

  /** The jobs a bounded admission lets in, in order. */
  function Admitted(work: seq<Job>, allowed: set<Tenant>, capacity: int): seq<Job> {
    if work == [] then []
    else
      var n := |work| - 1;
      var before := Admitted(work[..n], allowed, capacity);
      if Verdict(work[n], allowed, |before|, capacity).Accepted? then before + [work[n]] else before
  }

  /** How many jobs get the given verdict. */
  function Verdicts(work: seq<Job>, allowed: set<Tenant>, capacity: int, status: Status): nat {
    if work == [] then 0
    else
      var n := |work| - 1;
      var size := |Admitted(work[..n], allowed, capacity)|;
      Verdicts(work[..n], allowed, capacity, status)
        + if Verdict(work[n], allowed, size, capacity) == status then 1 else 0
  }

  /** The jobs with an id and a tenant that is allowed. */
  function ValidJobs(work: seq<Job>, allowed: set<Tenant>): seq<Job> {
    if work == [] then []
    else
      var n := |work| - 1;
      var before, job := ValidJobs(work[..n], allowed), work[n];
      if Strip(job.jobId) != [] && Strip(job.tenant) != [] && job.tenant in allowed then before + [job] else before
  }

  /** Admission, exactly: the first `capacity` valid jobs enter, further valid ones are full, the others invalid. */
  lemma {:induction false} AdmittedExactly(work: seq<Job>, allowed: set<Tenant>, capacity: nat)
    ensures var valid := ValidJobs(work, allowed);
      && Admitted(work, allowed, capacity) == valid[..if capacity < |valid| then capacity else |valid|]
      && Verdicts(work, allowed, capacity, RejectedInvalid) == |work| - |valid|
      && Verdicts(work, allowed, capacity, RejectedFull) == if capacity < |valid| then |valid| - capacity else 0
  {
    if work != [] {
      AdmittedExactly(work[..|work| - 1], allowed, capacity);
    }
  }

  // ----- Looking dispatched jobs up by id -----

  /** by_id after the enqueue phase: the last admitted job of each id. */
  function ById(jobs: seq<Job>): map<string, Job> {
    if jobs == [] then map[]
    else
      var n := |jobs| - 1;
      ById(jobs[..n])[jobs[n].jobId := jobs[n]]
  }

  function Lookup(byId: map<string, Job>, job: Job): Job {
    if job.jobId in byId then byId[job.jobId] else job
  }

  function Resolve(byId: map<string, Job>, jobs: seq<Job>): (r: seq<Job>)
    ensures |r| == |jobs|
    ensures forall i :: 0 <= i < |jobs| ==> r[i] == Lookup(byId, jobs[i])
  {
    seq(|jobs|, i requires 0 <= i < |jobs| => Lookup(byId, jobs[i]))
  }

  /** Admitted jobs that share an id are the same job. */
  ghost predicate IdsIdentify(jobs: seq<Job>) {
    forall i, j :: 0 <= i < j < |jobs| && jobs[i].jobId == jobs[j].jobId ==> jobs[i] == jobs[j]
  }

  lemma {:induction false} ByIdLast(jobs: seq<Job>, i: nat) returns (j: nat)
    requires i < |jobs|
    ensures i <= j < |jobs| && jobs[i].jobId in ById(jobs) && ById(jobs)[jobs[i].jobId] == jobs[j]
    ensures jobs[j].jobId == jobs[i].jobId
    decreases |jobs|
  {
    var n := |jobs| - 1;
    if jobs[n].jobId == jobs[i].jobId {
      j := n;
    } else {
      j := ByIdLast(jobs[..n], i);
    }
  }

  /**
    Looking jobs up by id records the multiset that was admitted exactly when ids identify the
    admitted jobs.
   */
  lemma LookupExact(jobs: seq<Job>)
    ensures multiset(Resolve(ById(jobs), jobs)) == multiset(jobs) <==> IdsIdentify(jobs)
  {
    var r := Resolve(ById(jobs), jobs);
    if IdsIdentify(jobs) {
      forall i | 0 <= i < |jobs| ensures r[i] == jobs[i] {
        var j := ByIdLast(jobs, i);
      }
      assert r == jobs;
    }
    if multiset(r) == multiset(jobs) {
      forall i, j | 0 <= i < j < |jobs| && jobs[i].jobId == jobs[j].jobId ensures jobs[i] == jobs[j] {
        OnlyTheLast(jobs, i);
        OnlyTheLast(jobs, j);
      }
    }
  }

  /** A recorded job is the last of its id. */
  lemma OnlyTheLast(jobs: seq<Job>, i: nat)
    requires i < |jobs| && multiset(Resolve(ById(jobs), jobs)) == multiset(jobs)
    ensures jobs[i].jobId in ById(jobs) && jobs[i] == ById(jobs)[jobs[i].jobId]
  {
    var r := Resolve(ById(jobs), jobs);
    assert jobs[i] in multiset(r);
    var k :| 0 <= k < |r| && r[k] == jobs[i];
    var last := ByIdLast(jobs, k);
  }

  /** What looking `jobs` up records. */
  ghost function Looked(byId: map<string, Job>, jobs: seq<Job>): multiset<Job> {
    multiset(Resolve(byId, jobs))
  }

  lemma ResolveWithout(byId: map<string, Job>, jobs: seq<Job>, i: nat)
    requires i < |jobs|
    ensures Looked(byId, jobs) == Looked(byId, Without(jobs, i)) + multiset{Lookup(byId, jobs[i])}
  {
    var r := Resolve(byId, jobs);
    assert Without(r, i) == Resolve(byId, Without(jobs, i));
  }

  lemma {:induction false} ResolvePermuted(byId: map<string, Job>, a: seq<Job>, b: seq<Job>)
    requires multiset(a) == multiset(b)
    ensures Looked(byId, a) == Looked(byId, b)
    decreases |a|
  {
    assert |a| == |multiset(a)| == |multiset(b)| == |b|;
    if a != [] {
      var n := |a| - 1;
      var i := MatchLast(a, b);
      assert a[..n] == Without(a, n);
      hide Looked, Lookup, Without;
      ResolvePermuted(byId, a[..n], Without(b, i));
      ResolveWithout(byId, a, n);
      ResolveWithout(byId, b, i);
    }
  }

  // ----- Reports -----

  datatype Report = Report(
    averageWait: real,
    averageByTenant: map<string, real>,
    averageByPriority: map<int, real>,
    countByTenant: map<string, int>,
    rejectedFull: nat,
    rejectedInvalid: nat)

  function ReportOf(t: Tally, full: nat, invalid: nat): Report {
    Report(
      Average(t.wait, t.total),
      map k | k in t.byTenant :: Average(Get(t.waitByTenant, k), t.byTenant[k]),
      map k | k in t.byPriority :: Average(Get(t.waitByPriority, k), t.byPriority[k]),
      t.byTenant, full, invalid)
  }

  /** Each reported average, times the number of its jobs, is the sum of their waits. */
  lemma ReportMeans(jobs: seq<Job>, full: nat, invalid: nat, t: string, p: int)
    requires jobs != []
    ensures var r := ReportOf(TallyOf(jobs), full, invalid);
      && r.rejectedFull == full && r.rejectedInvalid == invalid
      && 2.0 * r.averageWait * |jobs| as real == (|jobs| * (|jobs| - 1) - 2 * SumOf(jobs, CreatedAt())) as real
      && (t in r.countByTenant <==> t in r.averageByTenant)
      && (t in r.averageByTenant ==>
            && r.countByTenant[t] == SumOf(jobs, OneFor(t)) > 0
            && r.averageByTenant[t] * r.countByTenant[t] as real == WaitOf(jobs, OneFor(t)) as real)
      && (p in r.averageByPriority ==>
            r.averageByPriority[p] * SumOf(jobs, OneForPriority(p)) as real == WaitOf(jobs, OneForPriority(p)) as real)
  {
    var x := TallyOf(jobs);
    TallySums(jobs, t);
    TallyGroups(jobs, t, p);
    hide TallyOf, SumOf, WaitOf, Average;
    AverageMeans(x.wait, x.total);
    AverageMeans(Get(x.waitByTenant, t), Get(x.byTenant, t));
    AverageMeans(Get(x.waitByPriority, p), Get(x.byPriority, p));
  }

  /** The part of a report that no policy can change: average wait, counts per tenant, rejections. */
  datatype Summary = Summary(averageWait: real, countByTenant: map<string, int>, rejectedFull: nat, rejectedInvalid: nat)

  function Summarize(r: Report): Summary {
    Summary(r.averageWait, r.countByTenant, r.rejectedFull, r.rejectedInvalid)
  }

  /** The summary of dispatching some jobs, in whatever order, after admission of a workload. */
  function Expected(recorded: seq<Job>, work: seq<Job>, allowed: set<Tenant>, capacity: int): Summary {
    var t := TallyOf(recorded);
    Summary(Average(t.wait, t.total), t.byTenant,
            Verdicts(work, allowed, capacity, RejectedFull), Verdicts(work, allowed, capacity, RejectedInvalid))
  }

  /** What the three runners that look jobs up by id record. */
  function Recorded(work: seq<Job>, allowed: set<Tenant>, capacity: int): seq<Job> {
    var jobs := Admitted(work, allowed, capacity);
    Resolve(ById(jobs), jobs)
  }

  lemma ExpectedPermuted(a: seq<Job>, b: seq<Job>, work: seq<Job>, allowed: set<Tenant>, capacity: int)
    requires multiset(a) == multiset(b)
    ensures Expected(a, work, allowed, capacity) == Expected(b, work, allowed, capacity)
  {
    TallyPermuted(a, b);
  }

  /** The two lists hold as many jobs of each tenant, and their creation times add up alike. */
  ghost predicate SameSums(a: seq<Job>, b: seq<Job>) {
    SumOf(a, CreatedAt()) == SumOf(b, CreatedAt()) && forall t :: SumOf(a, OneFor(t)) == SumOf(b, OneFor(t))
  }

  lemma SameAverage(x: int, y: int, n: nat)
    requires n > 0
    ensures Average(x, n) == Average(y, n) <==> x == y
  {
    if Average(x, n) == Average(y, n) {
      assert x as real == Average(x, n) * n as real && y as real == Average(y, n) * n as real;
    }
  }

  /** As many jobs in all: the total waits, and so their averages, agree exactly when the creation times add up alike. */
  lemma SameWait(a: seq<Job>, b: seq<Job>)
    requires |a| == |b|
    ensures var x, y := TallyOf(a), TallyOf(b);
      Average(x.wait, x.total) == Average(y.wait, y.total) <==> SumOf(a, CreatedAt()) == SumOf(b, CreatedAt())
  {
    TallySums(a, "");
    TallySums(b, "");
    if |a| > 0 {
      hide TallyOf, SumOf, Average;
      SameAverage(TallyOf(a).wait, TallyOf(b).wait, |a|);
    }
  }

  lemma SameCounts(a: seq<Job>, b: seq<Job>)
    ensures TallyOf(a).byTenant == TallyOf(b).byTenant <==> forall t :: SumOf(a, OneFor(t)) == SumOf(b, OneFor(t))
  {
    hide TallyOf, SumOf, OneFor;
    var x, y := TallyOf(a).byTenant, TallyOf(b).byTenant;
    forall t
      ensures Get(x, t) == SumOf(a, OneFor(t)) && Get(y, t) == SumOf(b, OneFor(t))
      ensures (t in x <==> SumOf(a, OneFor(t)) > 0) && (t in y <==> SumOf(b, OneFor(t)) > 0)
    {
      TallySums(a, t);
      TallySums(b, t);
    }
    assert forall t :: t in x ==> x[t] == Get(x, t);
    assert forall t :: t in y ==> y[t] == Get(y, t);
  }

  /** Two lists of one length give one summary exactly when their sums agree. */
  lemma SummaryExact(a: seq<Job>, b: seq<Job>, work: seq<Job>, allowed: set<Tenant>, capacity: int)
    requires |a| == |b|
    ensures Expected(a, work, allowed, capacity) == Expected(b, work, allowed, capacity) <==> SameSums(a, b)
  {
    hide TallyOf, SumOf, Verdicts, Average;
    SameWait(a, b);
    SameCounts(a, b);
  }

  /**
    The conservation law, exactly: what the runners that look jobs up report in summary is what the
    composed runner reports if and only if the lookup keeps the number of jobs of each tenant and the
    sum of the creation times.  Ids that identify the admitted jobs are enough, and are needed for
    the recorded jobs themselves to agree.
   */
  lemma ConservationLaw(work: seq<Job>, allowed: set<Tenant>, capacity: int)
    ensures var jobs, recorded := Admitted(work, allowed, capacity), Recorded(work, allowed, capacity);
      && (Expected(recorded, work, allowed, capacity) == Expected(jobs, work, allowed, capacity) <==> SameSums(recorded, jobs))
      && (IdsIdentify(jobs) <==> multiset(recorded) == multiset(jobs))
      && (IdsIdentify(jobs) ==> SameSums(recorded, jobs))
  {
    var jobs, recorded := Admitted(work, allowed, capacity), Recorded(work, allowed, capacity);
    LookupExact(jobs);
    hide IdsIdentify, Expected, SameSums, Admitted;
    SummaryExact(recorded, jobs, work, allowed, capacity);
    if IdsIdentify(jobs) {
      ExpectedPermuted(recorded, jobs, work, allowed, capacity);
    }
  }

  /** Ids need not identify the jobs for the summaries to agree: two jobs may share one and differ in priority. */
  lemma TwinsKeepTheLaw(a: Job, b: Job, allowed: set<Tenant>)
    requires IsValid(a, allowed) && b == a.(priority := a.priority + 1)
    ensures !IdsIdentify(Admitted([a, b], allowed, 2))
    ensures Expected(Recorded([a, b], allowed, 2), [a, b], allowed, 2)
         == Expected(Admitted([a, b], allowed, 2), [a, b], allowed, 2)
  {
    PairAdmitted(a, b, allowed);
    assert [a, b][0].jobId == [a, b][1].jobId;
    PairSums(a, b, CreatedAt());
    PairSums(b, b, CreatedAt());
    forall t ensures SumOf([a, b], OneFor(t)) == SumOf([b, b], OneFor(t)) {
      PairSums(a, b, OneFor(t));
      PairSums(b, b, OneFor(t));
    }
    hide Expected, Recorded, Admitted, SumOf;
    SummaryExact([b, b], [a, b], [a, b], allowed, 2);
  }

  lemma PairSums(a: Job, b: Job, f: Job -> int)
    ensures SumOf([a, b], f) == f(a) + f(b)
  {
    assert [a, b][..1] == [a] && [a][..0] == [];
    assert SumOf([a], f) == SumOf([], f) + f(a);
  }

  /** Two jobs a, b admitted under one id: b is recorded twice. */
  lemma PairAdmitted(a: Job, b: Job, allowed: set<Tenant>)
    requires IsValid(a, allowed) && IsValid(b, allowed) && a.jobId == b.jobId
    ensures Admitted([a, b], allowed, 2) == [a, b] && Recorded([a, b], allowed, 2) == [b, b]
  {
    assert [a, b][..1] == [a] && [a][..0] == [];
    assert Admitted([a], allowed, 2) == [] + [a];
  }

  lemma PairTallied(a: Job, b: Job)
    ensures a.tenant in TallyOf([a, b]).byTenant && (a.tenant != b.tenant ==> a.tenant !in TallyOf([b, b]).byTenant)
  {
    assert [a, b][..1] == [a] && [a][..0] == [] && [b, b][..1] == [b] && [b][..0] == [];
    assert TallyOf([b]) == Record(TallyOf([]), b, 0);
    assert TallyOf([a]) == Record(TallyOf([]), a, 0);
  }

  /** So the law fails for every such pair. */
  lemma SharedIdBreaksTheLaw(a: Job, b: Job, allowed: set<Tenant>)
    requires IsValid(a, allowed) && IsValid(b, allowed) && a.jobId == b.jobId && a.tenant != b.tenant
    ensures Expected(Recorded([a, b], allowed, 2), [a, b], allowed, 2)
         != Expected(Admitted([a, b], allowed, 2), [a, b], allowed, 2)
  {
    PairAdmitted(a, b, allowed);
    PairTallied(a, b);
  }

  lemma SharedIdExample() returns (a: Job, b: Job)
    ensures IsValid(a, {"a", "b"}) && IsValid(b, {"a", "b"}) && a.jobId == b.jobId && a.tenant != b.tenant
  {
    a, b := Job("j", "a", 1, 0), Job("j", "b", 1, 0);
    NotBlank("j");
    NotBlank("a");
    NotBlank("b");
  }

  lemma NotBlank(s: string)
    requires |s| == 1 && !PySpace(s[0])
    ensures !Blank(s)
  {
    TrimUnique(s, PySpace, 0, 1);
  }
}
