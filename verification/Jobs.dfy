/** Jobs as the in-memory schedulers see them, and the order in which a tenant's jobs are preferred. */
module Jobs {
  import opened Text

  datatype Job = Job(jobId: string, tenant: string, priority: int, createdAt: int)

  /** Strictly preferred: higher priority, then earlier, then smaller id. */
  predicate Ahead(a: Job, b: Job) {
    || a.priority > b.priority
    || (a.priority == b.priority && a.createdAt < b.createdAt)
    || (a.priority == b.priority && a.createdAt == b.createdAt && Before(a.jobId, b.jobId))
  }

  /** Sorted order on the fields: (-priority, created_at, job_id), least first. */
  predicate ByFields(a: Job, b: Job) {
    || -a.priority < -b.priority
    || (a.priority == b.priority && a.createdAt < b.createdAt)
    || (a.priority == b.priority && a.createdAt == b.createdAt && (a.jobId == b.jobId || Before(a.jobId, b.jobId)))
  }

  lemma NotAheadMeans(a: Job, b: Job)
    ensures !Ahead(b, a) <==> ByFields(a, b)
  {
    BeforeTotal(a.jobId, b.jobId);
  }

  lemma SortedMeans(jobs: seq<Job>)
    ensures Sorted(jobs) <==> forall i, j :: 0 <= i < j < |jobs| ==> ByFields(jobs[i], jobs[j])
  {
    forall i, j | 0 <= i < j < |jobs| ensures !Ahead(jobs[j], jobs[i]) <==> ByFields(jobs[i], jobs[j]) {
      NotAheadMeans(jobs[i], jobs[j]);
    }
  }

  lemma AheadTrans(a: Job, b: Job, c: Job)
    requires !Ahead(b, a) && !Ahead(c, b)
    ensures !Ahead(c, a)
  {
    BeforeTotal(a.jobId, b.jobId);
    BeforeTotal(b.jobId, c.jobId);
    BeforeTotal(a.jobId, c.jobId);
    if Before(a.jobId, b.jobId) && Before(b.jobId, c.jobId) {
      BeforeTrans(a.jobId, b.jobId, c.jobId);
    }
  }

  /** Asymmetric, and two jobs of one tenant that tie are the same job. */
  lemma AheadTotal(a: Job, b: Job)
    ensures !(Ahead(a, b) && Ahead(b, a))
    ensures !Ahead(a, b) && !Ahead(b, a) && a.tenant == b.tenant ==> a == b
  {
    BeforeTotal(a.jobId, b.jobId);
  }

  /** Nothing in the queue is preferred to x. */
  ghost predicate IsBest(x: Job, jobs: multiset<Job>) {
    x in jobs && forall y :: y in jobs ==> !Ahead(y, x)
  }

  ghost predicate NoneAhead(jobs: seq<Job>, x: Job) {
    forall j :: 0 <= j < |jobs| ==> !Ahead(jobs[j], x)
  }

  ghost predicate Sorted(jobs: seq<Job>) {
    forall i, j :: 0 <= i < j < |jobs| ==> !Ahead(jobs[j], jobs[i])
  }

  /** The earliest position, among the first n, that nothing among them is preferred to. */
  function BestIndex(jobs: seq<Job>, n: nat): (best: nat)
    requires 0 < n <= |jobs|
    ensures best < n
    ensures forall j :: 0 <= j < n ==> !Ahead(jobs[j], jobs[best])
    ensures forall j :: 0 <= j < best ==> Ahead(jobs[best], jobs[j])
  {
    if n == 1 then
      AheadTotal(jobs[0], jobs[0]);
      0
    else
      var b := BestIndex(jobs, n - 1);
      BestOfPrefix(jobs, n, b);
      if Ahead(jobs[n - 1], jobs[b]) then n - 1 else b
  }

  lemma BestOfPrefix(jobs: seq<Job>, n: nat, b: nat)
    requires 1 < n <= |jobs| && b < n - 1
    requires forall j :: 0 <= j < n - 1 ==> !Ahead(jobs[j], jobs[b])
    ensures !Ahead(jobs[n - 1], jobs[n - 1])
    ensures Ahead(jobs[n - 1], jobs[b]) ==>
      forall j :: 0 <= j < n - 1 ==> Ahead(jobs[n - 1], jobs[j]) && !Ahead(jobs[j], jobs[n - 1])
  {
    AheadTotal(jobs[n - 1], jobs[n - 1]);
    if Ahead(jobs[n - 1], jobs[b]) {
      forall j | 0 <= j < n - 1
        ensures Ahead(jobs[n - 1], jobs[j]) && !Ahead(jobs[j], jobs[n - 1])
      {
        AheadTotal(jobs[n - 1], jobs[j]);
        StrictlyAhead(jobs[n - 1], jobs[b], jobs[j]);
      }
    }
  }

  lemma StrictlyAhead(a: Job, b: Job, c: Job)
    requires Ahead(a, b) && !Ahead(c, b)
    ensures Ahead(a, c)
  {
    AheadTotal(a, b);
    if !Ahead(a, c) {
      AheadTrans(b, c, a);
      assert false;
    }
  }

  function Without(jobs: seq<Job>, i: nat): (rest: seq<Job>)
    requires i < |jobs|
    ensures multiset(rest) == multiset(jobs) - multiset{jobs[i]}
    ensures multiset(jobs) == multiset(rest) + multiset{jobs[i]}
  {
    assert jobs == jobs[..i] + [jobs[i]] + jobs[i + 1..];
    jobs[..i] + jobs[i + 1..]
  }
}
