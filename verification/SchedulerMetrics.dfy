/** Running totals of dispatches, and what they depend on. */
module SchedulerMetrics {
  import opened Jobs
  import opened ComposedScheduler

  datatype Tally = Tally(
    total: nat,
    byTenant: map<string, int>,
    byPriority: map<int, int>,
    wait: int,
    waitByTenant: map<string, int>,
    waitByPriority: map<int, int>)

  /** dict.get(key, 0) */
  function Get<K>(m: map<K, int>, k: K): int {
    if k in m then m[k] else 0
  }

  function Bump<K>(m: map<K, int>, k: K, amount: int): map<K, int> {
    m[k := Get(m, k) + amount]
  }

  const Zero := Tally(0, map[], map[], 0, map[], map[])

  function Record(t: Tally, job: Job, time: int): Tally {
    var wait := time - job.createdAt;
    Tally(t.total + 1, Bump(t.byTenant, job.tenant, 1), Bump(t.byPriority, job.priority, 1), t.wait + wait,
          Bump(t.waitByTenant, job.tenant, wait), Bump(t.waitByPriority, job.priority, wait))
  }

  /** The totals after dispatching `jobs` at times 0, 1, 2, ... */
  function TallyOf(jobs: seq<Job>): Tally {
    if jobs == [] then Zero
    else
      var n := |jobs| - 1;
      Record(TallyOf(jobs[..n]), jobs[n], n)
  }

  function Average(sum: int, count: int): real {
    if count == 0 then 0.0 else sum as real / count as real
  }

  /** An average times its count is the sum; nothing averages to 0. */
  lemma AverageMeans(sum: int, count: int)
    ensures count != 0 ==> Average(sum, count) * count as real == sum as real
    ensures count == 0 ==> Average(sum, count) == 0.0
  {
  }

  class SchedulerMetrics {
    var accepted: nat
    var rejectedFull: nat
    var rejectedInvalid: nat
    var total: nat
    var byTenant: map<string, int>
    var byPriority: map<int, int>
    var wait: int
    var waitByTenant: map<string, int>
    var waitByPriority: map<int, int>

    function Totals(): Tally
      reads this
    {
      Tally(total, byTenant, byPriority, wait, waitByTenant, waitByPriority)
    }

    constructor ()
      ensures accepted == rejectedFull == rejectedInvalid == 0 && Totals() == Zero
    {
      accepted, rejectedFull, rejectedInvalid, total, wait := 0, 0, 0, 0, 0;
      byTenant, byPriority, waitByTenant, waitByPriority := map[], map[], map[], map[];
    }

    method RecordEnqueueResult(status: Status)
      modifies this`accepted, this`rejectedFull, this`rejectedInvalid
      ensures accepted == old(accepted) + (if status.Accepted? then 1 else 0)
      ensures rejectedFull == old(rejectedFull) + (if status.RejectedFull? then 1 else 0)
      ensures rejectedInvalid == old(rejectedInvalid) + (if status.RejectedInvalid? then 1 else 0)
    {
      match status
      case Accepted => accepted := accepted + 1;
      case RejectedFull => rejectedFull := rejectedFull + 1;
      case RejectedInvalid => rejectedInvalid := rejectedInvalid + 1;
    }

    method RecordDispatch(job: Job, time: int)
      modifies this`total, this`byTenant, this`byPriority, this`wait, this`waitByTenant, this`waitByPriority
      ensures Totals() == Record(old(Totals()), job, time)
    {
      var waited := time - job.createdAt;
      total := total + 1;
      byTenant := byTenant[job.tenant := Get(byTenant, job.tenant) + 1];
      byPriority := byPriority[job.priority := Get(byPriority, job.priority) + 1];
      wait := wait + waited;
      waitByTenant := waitByTenant[job.tenant := Get(waitByTenant, job.tenant) + waited];
      waitByPriority := waitByPriority[job.priority := Get(waitByPriority, job.priority) + waited];
    }
  }

  // ----- Totals as sums over the dispatched jobs -----

  function SumOf(jobs: seq<Job>, f: Job -> int): int {
    if jobs == [] then 0 else SumOf(jobs[..|jobs| - 1], f) + f(jobs[|jobs| - 1])
  }

  function OneFor(t: string): Job -> int {
    (job: Job) => if job.tenant == t then 1 else 0
  }

  function CreatedAt(): Job -> int {
    (job: Job) => job.createdAt
  }

  lemma {:induction false} SumSplit(a: seq<Job>, b: seq<Job>, f: Job -> int)
    ensures SumOf(a + b, f) == SumOf(a, f) + SumOf(b, f)
  {
    if b == [] {
      assert a + b == a;
    } else {
      var n := |b| - 1;
      SumSplit(a, b[..n], f);
      assert (a + b)[..|a + b| - 1] == a + b[..n];
    }
  }

  lemma {:induction false} SumThree(x: seq<Job>, e: Job, y: seq<Job>, f: Job -> int)
    ensures SumOf(x + [e] + y, f) == SumOf(x + y, f) + f(e)
  {
    assert [e][..0] == [];
    assert SumOf([e], f) == f(e);
    SumSplit(x, y, f);
    SumSplit(x, [e], f);
    SumSplit(x + [e], y, f);
  }

  lemma {:induction false} SumWithout(jobs: seq<Job>, i: nat, f: Job -> int)
    requires i < |jobs|
    ensures SumOf(jobs, f) == SumOf(Without(jobs, i), f) + f(jobs[i])
  {
    hide SumOf;
    assert jobs == jobs[..i] + [jobs[i]] + jobs[i + 1..];
    assert Without(jobs, i) == jobs[..i] + jobs[i + 1..];
    SumThree(jobs[..i], jobs[i], jobs[i + 1..], f);
  }

  lemma MatchLast(a: seq<Job>, b: seq<Job>) returns (i: nat)
    requires a != [] && multiset(a) == multiset(b)
    ensures i < |b| && b[i] == a[|a| - 1] && multiset(Without(b, i)) == multiset(a[..|a| - 1])
  {
    var n := |a| - 1;
    assert a == a[..n] + [a[n]];
    assert a[n] in multiset(b);
    i :| 0 <= i < |b| && b[i] == a[n];
  }

  /** A sum does not depend on the order. */
  lemma {:induction false} SumPermuted(a: seq<Job>, b: seq<Job>, f: Job -> int)
    requires multiset(a) == multiset(b)
    ensures SumOf(a, f) == SumOf(b, f)
    decreases |a|
  {
    assert |a| == |multiset(a)| == |multiset(b)| == |b|;
    if a != [] {
      var i := MatchLast(a, b);
      SumPermuted(a[..|a| - 1], Without(b, i), f);
      SumWithout(b, i, f);
    }
  }

  /** n dispatches at times 0..n-1 wait n(n-1)/2 in all, less the creation times; a tenant is counted once per job. */
  lemma {:induction false} TallySums(jobs: seq<Job>, t: string)
    ensures TallyOf(jobs).total == |jobs|
    ensures 2 * TallyOf(jobs).wait == |jobs| * (|jobs| - 1) - 2 * SumOf(jobs, CreatedAt())
    ensures Get(TallyOf(jobs).byTenant, t) == SumOf(jobs, OneFor(t)) >= 0
    ensures t in TallyOf(jobs).byTenant <==> SumOf(jobs, OneFor(t)) > 0
  {
    if jobs != [] {
      var n := |jobs| - 1;
      TallySums(jobs[..n], t);
      assert (n + 1) * n == n * (n - 1) + 2 * n;
    }
  }

  function OneForPriority(p: int): Job -> int {
    (job: Job) => if job.priority == p then 1 else 0
  }

  /** The waits of the dispatches that `mine` selects. */
  function WaitOf(jobs: seq<Job>, mine: Job -> int): int {
    if jobs == [] then 0
    else
      var n := |jobs| - 1;
      WaitOf(jobs[..n], mine) + mine(jobs[n]) * (n - jobs[n].createdAt)
  }

  /** Each breakdown counts, and adds up the waits of, exactly the jobs of its tenant or priority. */
  lemma {:induction false} TallyGroups(jobs: seq<Job>, t: string, p: int)
    ensures Get(TallyOf(jobs).waitByTenant, t) == WaitOf(jobs, OneFor(t))
    ensures Get(TallyOf(jobs).waitByPriority, p) == WaitOf(jobs, OneForPriority(p))
    ensures Get(TallyOf(jobs).byPriority, p) == SumOf(jobs, OneForPriority(p)) >= 0
    ensures p in TallyOf(jobs).byPriority <==> SumOf(jobs, OneForPriority(p)) > 0
    ensures t in TallyOf(jobs).waitByTenant <==> t in TallyOf(jobs).byTenant
    ensures p in TallyOf(jobs).waitByPriority <==> p in TallyOf(jobs).byPriority
  {
    if jobs != [] {
      TallyGroups(jobs[..|jobs| - 1], t, p);
    }
  }

  lemma PrioritiesPermuted(a: seq<Job>, b: seq<Job>)
    requires multiset(a) == multiset(b)
    ensures TallyOf(a).byPriority == TallyOf(b).byPriority
  {
    hide TallyOf;
    var x, y := TallyOf(a).byPriority, TallyOf(b).byPriority;
    forall p ensures p in x <==> p in y
      ensures Get(x, p) == Get(y, p)
    {
      TallyGroups(a, "", p);
      TallyGroups(b, "", p);
      SumPermuted(a, b, OneForPriority(p));
    }
    assert forall p :: p in x ==> x[p] == Get(x, p);
    assert forall p :: p in y ==> y[p] == Get(y, p);
  }

  /** The dispatch counts, the total wait and so the average wait do not depend on the dispatch order. */
  lemma TallyPermuted(a: seq<Job>, b: seq<Job>)
    requires multiset(a) == multiset(b)
    ensures TallyOf(a).total == TallyOf(b).total && TallyOf(a).wait == TallyOf(b).wait
    ensures TallyOf(a).byTenant == TallyOf(b).byTenant
    ensures TallyOf(a).byPriority == TallyOf(b).byPriority
  {
    PrioritiesPermuted(a, b);
    assert |a| == |multiset(a)| == |multiset(b)| == |b|;
    forall t ensures t in TallyOf(a).byTenant <==> t in TallyOf(b).byTenant
      ensures Get(TallyOf(a).byTenant, t) == Get(TallyOf(b).byTenant, t)
    {
      TallySums(a, t);
      TallySums(b, t);
      SumPermuted(a, b, OneFor(t));
    }
    TallySums(a, "");
    TallySums(b, "");
    SumPermuted(a, b, CreatedAt());
    assert forall t :: t in TallyOf(a).byTenant ==> TallyOf(a).byTenant[t] == Get(TallyOf(a).byTenant, t);
    assert forall t :: t in TallyOf(b).byTenant ==> TallyOf(b).byTenant[t] == Get(TallyOf(b).byTenant, t);
  }
}
