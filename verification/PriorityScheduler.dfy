/** The priority scheduler: a heap ordered by (-priority, created_at, job_id). */
module PriorityScheduler {
  import opened Wrappers
  import opened WeightCycle
  import opened Jobs
  import opened TenantQueues
  import ComposedScheduler

  /** heapq.heappush, by its specification: the element is added and a least element stays in front. */
  method HeapPush(heap: seq<Job>, job: Job) returns (heap': seq<Job>)
    requires heap != [] ==> NoneAhead(heap, heap[0])
    ensures heap' != [] && NoneAhead(heap', heap'[0])
    ensures multiset(heap') == multiset(heap) + multiset{job}
  {
    AheadTotal(job, job);
    if heap != [] && !Ahead(job, heap[0]) {
      heap' := heap + [job];
    } else {
      if heap != [] {
        AheadTotal(job, heap[0]);
        forall j | 0 <= j < |heap| ensures !Ahead(heap[j], job) {
          AheadTrans(job, heap[0], heap[j]);
        }
      }
      heap' := [job] + heap;
    }
  }

  lemma NoneAheadPermuted(a: seq<Job>, b: seq<Job>, x: Job)
    requires multiset(a) == multiset(b) && NoneAhead(a, x)
    ensures NoneAhead(b, x)
  {
    forall j | 0 <= j < |b| ensures !Ahead(b[j], x) {
      assert b[j] in multiset(a);
    }
  }

  lemma BestInFront(heap: seq<Job>)
    requires heap != [] && NoneAhead(heap, heap[0])
    ensures IsBest(heap[0], multiset(heap))
  {
    forall y | y in multiset(heap) ensures !Ahead(y, heap[0]) {
      assert y in heap;
    }
  }

  function BestToFront(jobs: seq<Job>): (heap: seq<Job>)
    ensures multiset(heap) == multiset(jobs)
    ensures heap != [] ==> NoneAhead(heap, heap[0])
  {
    if jobs == [] then []
    else
      var i := BestIndex(jobs, |jobs|);
      var heap := [jobs[i]] + Without(jobs, i);
      assert multiset(heap) == multiset{jobs[i]} + multiset(Without(jobs, i));
      NoneAheadPermuted(jobs, heap, jobs[i]);
      heap
  }

  /** heapq.heappop, by its specification: the front element leaves and a least remaining one takes its place. */
  method HeapPop(heap: seq<Job>) returns (job: Job, heap': seq<Job>)
    requires heap != [] && NoneAhead(heap, heap[0])
    ensures IsBest(job, multiset(heap)) && job == heap[0]
    ensures multiset(heap') == multiset(heap) - multiset{job}
    ensures heap' != [] ==> NoneAhead(heap', heap'[0])
  {
    job := heap[0];
    assert heap == [job] + heap[1..];
    heap' := BestToFront(heap[1..]);
    BestInFront(heap);
  }

  /** What a heap holding `held` may answer: nothing when empty, else a least element. */
  ghost predicate MayAnswer(held: multiset<Job>, answer: Option<Job>) {
    if held == multiset{} then answer == None else answer.Some? && IsBest(answer.value, held)
  }

  ghost function Left(held: multiset<Job>, answer: Option<Job>): multiset<Job> {
    if answer.Some? then held - multiset{answer.value} else held
  }

  class Scheduler {
    var heap: seq<Job>

    ghost predicate Valid()
      reads this
    {
      heap != [] ==> NoneAhead(heap, heap[0])
    }

    constructor ()
      ensures Valid() && heap == []
    {
      heap := [];
    }

    method Enqueue(job: Job)
      requires Valid()
      modifies this
      ensures Valid() && multiset(heap) == old(multiset(heap)) + multiset{job}
    {
      heap := HeapPush(heap, job);
    }

    method Dequeue() returns (r: Option<Job>)
      requires Valid()
      modifies this
      ensures Valid()
      ensures r.None? <==> old(heap) == []
      ensures r.Some? ==> r.value == old(heap)[0]
      ensures MayAnswer(old(multiset(heap)), r) && multiset(heap) == Left(old(multiset(heap)), r)
    {
      if heap == [] {
        return None;
      }
      var job, rest := HeapPop(heap);
      heap := rest;
      return Some(job);
    }

    method Peek() returns (r: Option<Job>)
      requires Valid()
      ensures r.None? <==> heap == []
      ensures r.Some? ==> r.value == heap[0] && IsBest(r.value, multiset(heap))
    {
      if heap == [] {
        return None;
      }
      BestInFront(heap);
      return Some(heap[0]);
    }

    method Size() returns (n: nat)
      ensures n == |multiset(heap)|
    {
      n := |heap|;
    }
  }

  /** The answers such a heap can give to a run. */
  ghost predicate Trace(held: multiset<Job>, ops: seq<Op>, answers: seq<Option<Job>>)
    decreases ops
  {
    if ops == [] then answers == []
    else
      match ops[0]
      case Enqueue(job) => Trace(held + multiset{job}, ops[1..], answers)
      case Dequeue =>
        && answers != []
        && MayAnswer(held, answers[0])
        && Trace(Left(held, answers[0]), ops[1..], answers[1..])
  }

  ghost predicate OneTenant(s: Queues, t: Tenant) {
    Valid(s) && s.queues.Keys == {t}
  }

  predicate OnlyFor(t: Tenant, ops: seq<Op>) {
    forall i :: 0 <= i < |ops| ==> ops[i].Enqueue? ==> ops[i].job.tenant == t
  }

  lemma OneTenantPut(s: Queues, t: Tenant, job: Job)
    requires OneTenant(s, t) && job.tenant == t
    ensures OneTenant(Put(s, job), t)
    ensures multiset(Put(s, job).queues[t]) == multiset(s.queues[t]) + multiset{job}
  {
    PutView(s, job);
  }

  lemma OneTenantTake(s: Queues, t: Tenant)
    requires OneTenant(s, t)
    ensures OneTenant(Take(BestFirst, s), t)
    ensures MayAnswer(multiset(s.queues[t]), Head(BestFirst, s))
    ensures Left(multiset(s.queues[t]), Head(BestFirst, s)) == multiset(Take(BestFirst, s).queues[t])
  {
    TakeValid(BestFirst, s);
    OneTenantHead(s, t);
    hide Valid;
    if s.queues[t] != [] {
      BestPicked(s.queues[t]);
    }
  }

  lemma OneTenantHead(s: Queues, t: Tenant)
    requires OneTenant(s, t)
    ensures s.queues[t] == [] <==> Head(BestFirst, s).None?
    ensures Head(BestFirst, s).Some? ==> Chosen(s) == t
  {
    HeadNoneIffEmpty(BestFirst, s);
    TotalZero(s.tenants, s.queues);
    assert t in s.tenants;
  }

  lemma BestPicked(q: seq<Job>)
    requires q != []
    ensures IsBest(q[Pick(BestFirst, q)], multiset(q))
  {
    forall y | y in multiset(q) ensures !Ahead(y, q[Pick(BestFirst, q)]) {
      assert y in q;
    }
  }

  /** Two best jobs of the same tenant are the same job. */
  lemma BestUnique(x: Job, y: Job, held: multiset<Job>)
    requires IsBest(x, held) && IsBest(y, held) && x.tenant == y.tenant
    ensures x == y
  {
    AheadTotal(x, y);
  }

  lemma QueueTenant(s: Queues, t: Tenant, job: Job)
    requires OneTenant(s, t) && job in multiset(s.queues[t])
    ensures job.tenant == t
  {
    assert job in s.queues[t];
  }

  lemma HeadAndTail(answers: seq<Option<Job>>)
    requires answers != []
    ensures answers == [answers[0]] + answers[1..]
  {
  }

  lemma SameAnswer(s: Queues, t: Tenant, answer: Option<Job>)
    requires OneTenant(s, t) && MayAnswer(multiset(s.queues[t]), answer)
    ensures answer == Head(BestFirst, s)
  {
    OneTenantTake(s, t);
    if answer.Some? {
      QueueTenant(s, t, answer.value);
      QueueTenant(s, t, Head(BestFirst, s).value);
      BestUnique(answer.value, Head(BestFirst, s).value, multiset(s.queues[t]));
    }
  }

  /** The composed scheduler's answers are answers a least-first heap can give. */
  lemma {:induction false} AnswersAreTrace(s: Queues, t: Tenant, ops: seq<Op>)
    requires OneTenant(s, t) && OnlyFor(t, ops)
    ensures Trace(multiset(s.queues[t]), ops, Answers(BestFirst, s, ops))
    decreases ops
  {
    assert s.cycle != [];
    hide Valid, Take, Put, Head, MayAnswer, Left;
    if ops != [] {
      AnswersUnfold(BestFirst, s, ops);
      match ops[0] {
        case Enqueue(job) =>
          var s' := Put(s, job);
          assert OneTenant(s', t) && multiset(s'.queues[t]) == multiset(s.queues[t]) + multiset{job} by {
            OneTenantPut(s, t, job);
          }
          AnswersAreTrace(s', t, ops[1..]);
        case Dequeue =>
          var s' := Take(BestFirst, s);
          OneTenantTake(s, t);
          AnswersAreTrace(s', t, ops[1..]);
          var answers := Answers(BestFirst, s, ops);
          assert answers[0] == Head(BestFirst, s) && answers[1..] == Answers(BestFirst, s', ops[1..]);
      }
    }
  }

  lemma {:induction false} TracesAreAnswers(s: Queues, t: Tenant, ops: seq<Op>, answers: seq<Option<Job>>)
    requires OneTenant(s, t) && OnlyFor(t, ops)
    requires Trace(multiset(s.queues[t]), ops, answers)
    ensures answers == Answers(BestFirst, s, ops)
    decreases ops
  {
    assert s.cycle != [];
    hide Valid, Take, Put, Head, MayAnswer, Left;
    if ops != [] {
      AnswersUnfold(BestFirst, s, ops);
      match ops[0] {
        case Enqueue(job) =>
          var s' := Put(s, job);
          assert OneTenant(s', t) && multiset(s'.queues[t]) == multiset(s.queues[t]) + multiset{job} by {
            OneTenantPut(s, t, job);
          }
          TracesAreAnswers(s', t, ops[1..], answers);
        case Dequeue =>
          var s' := Take(BestFirst, s);
          assert answers[0] == Head(BestFirst, s) by { SameAnswer(s, t, answers[0]); }
          assert OneTenant(s', t) && Left(multiset(s.queues[t]), Head(BestFirst, s)) == multiset(s'.queues[t]) by {
            OneTenantTake(s, t);
          }
          TracesAreAnswers(s', t, ops[1..], answers[1..]);
          HeadAndTail(answers);
      }
    }
  }

  /**
    With one tenant the composed scheduler is the priority scheduler: over every run of enqueues and
    dequeues a least-first heap can answer what the composed scheduler answers, and nothing else.
   */
  lemma ComposedIsPriority(s: Queues, t: Tenant, ops: seq<Op>, answers: seq<Option<Job>>)
    requires OneTenant(s, t) && OnlyFor(t, ops)
    ensures Trace(multiset(s.queues[t]), ops, answers) <==> answers == Answers(BestFirst, s, ops)
  {
    AnswersAreTrace(s, t, ops);
    hide Trace, Answers, OneTenant;
    if Trace(multiset(s.queues[t]), ops, answers) {
      TracesAreAnswers(s, t, ops, answers);
    }
  }

  /** The same with bounded admission: the heap is offered the enqueues the composed scheduler accepted. */
  lemma AdmittedIsPriority(capacity: nat, s: Queues, t: Tenant, ops: seq<Op>, answers: seq<Option<Job>>)
    requires OneTenant(s, t)
    ensures Trace(multiset(s.queues[t]), ComposedScheduler.Effective(capacity, s, ops), answers)
      <==> answers == Answers(BestFirst, s, ComposedScheduler.Effective(capacity, s, ops))
  {
    EffectiveTenant(capacity, s, t, ops);
    ComposedIsPriority(s, t, ComposedScheduler.Effective(capacity, s, ops), answers);
  }

  /** What one operation offers to the heap, and what the rest does. */
  lemma EffectiveHead(capacity: nat, s: Queues, t: Tenant, ops: seq<Op>) returns (s': Queues)
    requires OneTenant(s, t) && ops != []
    ensures OneTenant(s', t)
    ensures
      var all, rest := ComposedScheduler.Effective(capacity, s, ops), ComposedScheduler.Effective(capacity, s', ops[1..]);
      all == rest || (all == [ops[0]] + rest && (ops[0].Enqueue? ==> ops[0].job.tenant == t))
  {
    match ops[0] {
      case Enqueue(job) =>
        s' := ComposedScheduler.Offer(capacity, s, job);
        if ComposedScheduler.Admission(capacity, s, job).Accepted? {
          OneTenantPut(s, t, job);
        }
      case Dequeue =>
        s' := Take(BestFirst, s);
        OneTenantTake(s, t);
    }
  }

  lemma {:induction false} EffectiveTenant(capacity: nat, s: Queues, t: Tenant, ops: seq<Op>)
    requires OneTenant(s, t)
    ensures OnlyFor(t, ComposedScheduler.Effective(capacity, s, ops))
    decreases ops
  {
    if ops != [] {
      hide Valid, ComposedScheduler.Effective;
      var s' := EffectiveHead(capacity, s, t, ops);
      EffectiveTenant(capacity, s', t, ops[1..]);
    }
  }
}
