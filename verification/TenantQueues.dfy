/**
  Per-tenant waiting lists under the rotation.  The weighted round-robin scheduler and the
  composed scheduler differ only in which job of the chosen tenant they hand out, so both are
  runs of this machine under one of two disciplines.
 */
module TenantQueues {
  import opened Wrappers
  import opened Arithmetic
  import opened WeightCycle
  import opened Jobs
  import TenantRotation

  datatype Discipline = Fifo | BestFirst

  /** `tenants` is the insertion order of the queue dictionary. */
  datatype Queues = Queues(tenants: seq<Tenant>, cycle: seq<Tenant>, pos: nat, queues: map<Tenant, seq<Job>>)

  ghost function View(s: Queues): TenantRotation.Rotation {
    TenantRotation.Rotation(s.cycle, s.pos, map t | t in s.queues :: |s.queues[t]|)
  }

  ghost predicate Valid(s: Queues) {
    && TenantRotation.Valid(View(s))
    && (forall t :: t in s.tenants <==> t in s.queues)
    && (forall i, j :: 0 <= i < j < |s.tenants| ==> s.tenants[i] != s.tenants[j])
    && Owned(s.queues)
  }

  /** Every job waits in its own tenant's queue. */
  ghost predicate Owned(queues: map<Tenant, seq<Job>>) {
    forall t, i :: t in queues && 0 <= i < |queues[t]| ==> queues[t][i].tenant == t
  }

  lemma ValidCycle(s: Queues)
    requires Valid(s)
    ensures s.cycle != []
  {
  }

  function NonEmpty(queues: map<Tenant, seq<Job>>): set<Tenant> {
    set t | t in queues && queues[t] != []
  }

  lemma NonEmptyMeans(queues: map<Tenant, seq<Job>>)
    ensures forall t :: t in queues ==> (t in NonEmpty(queues) <==> queues[t] != [])
  {
  }

  function Pick(d: Discipline, q: seq<Job>): (i: nat)
    requires q != []
    ensures i < |q|
  {
    match d
    case Fifo => 0
    case BestFirst => BestIndex(q, |q|)
  }

  function Skip(s: Queues): nat
    requires s.cycle != []
  {
    TenantRotation.Skipped(s.cycle, s.pos, NonEmpty(s.queues), 0)
  }

  function Chosen(s: Queues): (t: Tenant)
    requires s.cycle != [] && Skip(s) < |s.cycle|
    ensures t in s.queues && s.queues[t] != []
  {
    TenantRotation.SlotAt(s.cycle, s.pos, Skip(s))
  }

  function Head(d: Discipline, s: Queues): Option<Job>
    requires s.cycle != []
  {
    if Skip(s) == |s.cycle| then None
    else
      var q := s.queues[Chosen(s)];
      Some(q[Pick(d, q)])
  }

  function Take(d: Discipline, s: Queues): (s': Queues)
    requires s.cycle != []
    ensures s'.cycle == s.cycle
  {
    if Skip(s) == |s.cycle| then s
    else
      var t := Chosen(s);
      s.(pos := TenantRotation.Advanced(s.cycle, s.pos, Skip(s)),
         queues := s.queues[t := Without(s.queues[t], Pick(d, s.queues[t]))])
  }

  /** Every slot of the lap has a queue. */
  lemma SlotsHaveQueues(s: Queues)
    requires Valid(s)
    ensures forall t :: t in s.cycle ==> t in s.queues
  {
    assert forall t :: t in View(s).backlog <==> t in s.queues;
  }

  /** The first busy slot determines what a dequeue does. */
  lemma FirstBusy(d: Discipline, s: Queues, i: nat, t: Tenant)
    requires i < |s.cycle| && t == TenantRotation.SlotAt(s.cycle, s.pos, i)
    requires t in s.queues && s.queues[t] != []
    requires forall j :: 0 <= j < i ==> TenantRotation.SlotAt(s.cycle, s.pos, j) !in NonEmpty(s.queues)
    ensures Skip(s) == i && Chosen(s) == t
    ensures Head(d, s) == Some(s.queues[t][Pick(d, s.queues[t])])
    ensures Take(d, s) == s.(pos := (s.pos + i + 1) % |s.cycle|,
                             queues := s.queues[t := Without(s.queues[t], Pick(d, s.queues[t]))])
  {
    assert t in NonEmpty(s.queues);
  }

  /** Without a busy slot a dequeue does nothing. */
  lemma NoneBusy(d: Discipline, s: Queues)
    requires s.cycle != []
    requires forall j :: 0 <= j < |s.cycle| ==> TenantRotation.SlotAt(s.cycle, s.pos, j) !in NonEmpty(s.queues)
    ensures Skip(s) == |s.cycle| && Head(d, s).None? && Take(d, s) == s
  {
  }

  lemma WalkOne(cycle: seq<Tenant>, pos: nat, i: nat, at: nat)
    requires cycle != [] && at == (pos + i) % |cycle|
    ensures cycle[at] == TenantRotation.SlotAt(cycle, pos, i)
    ensures (at + 1) % |cycle| == (pos + i + 1) % |cycle| == TenantRotation.Advanced(cycle, pos, i)
  {
    ModAdd(pos + i, 1, |cycle|);
  }

  /** An unknown tenant is refused. */
  function Put(s: Queues, job: Job): Queues {
    if job.tenant in s.queues then s.(queues := s.queues[job.tenant := s.queues[job.tenant] + [job]]) else s
  }

  datatype Op = Enqueue(job: Job) | Dequeue

  function Step(d: Discipline, s: Queues, op: Op): Queues
    requires s.cycle != []
  {
    match op
    case Enqueue(job) => Put(s, job)
    case Dequeue => Take(d, s)
  }

  function Run(d: Discipline, s: Queues, ops: seq<Op>): (s': Queues)
    requires s.cycle != []
    ensures s'.cycle == s.cycle
    decreases ops
  {
    if ops == [] then s else Run(d, Step(d, s, ops[0]), ops[1..])
  }

  /** The answers of the dequeues of a run, in order. */
  function Answers(d: Discipline, s: Queues, ops: seq<Op>): seq<Option<Job>>
    requires s.cycle != []
    decreases ops
  {
    if ops == [] then []
    else
      var rest := Answers(d, Step(d, s, ops[0]), ops[1..]);
      if ops[0].Dequeue? then [Head(d, s)] + rest else rest
  }

  lemma AnswersUnfold(d: Discipline, s: Queues, ops: seq<Op>)
    requires s.cycle != [] && ops != []
    ensures ops[0].Dequeue? ==> Answers(d, s, ops) == [Head(d, s)] + Answers(d, Take(d, s), ops[1..])
    ensures ops[0].Enqueue? ==> Answers(d, s, ops) == Answers(d, Put(s, ops[0].job), ops[1..])
  {
  }

  // ----- The rotation underneath -----

  function EventOf(op: Op): TenantRotation.Event {
    match op
    case Enqueue(job) => TenantRotation.Arrival(job.tenant)
    case Dequeue => TenantRotation.Turn
  }

  function Events(ops: seq<Op>): (es: seq<TenantRotation.Event>)
    ensures |es| == |ops| && forall i :: 0 <= i < |ops| ==> es[i] == EventOf(ops[i])
  {
    seq(|ops|, i requires 0 <= i < |ops| => EventOf(ops[i]))
  }

  function TenantOf(answer: Option<Job>): Option<Tenant> {
    match answer
    case None => None
    case Some(job) => Some(job.tenant)
  }

  function Tenants(answers: seq<Option<Job>>): (ts: seq<Option<Tenant>>)
    ensures |ts| == |answers| && forall i :: 0 <= i < |ts| ==> ts[i] == TenantOf(answers[i])
  {
    seq(|answers|, i requires 0 <= i < |answers| => TenantOf(answers[i]))
  }

  lemma TenantsCons(a: Option<Job>, answers: seq<Option<Job>>)
    ensures Tenants([a] + answers) == [TenantOf(a)] + Tenants(answers)
  {
  }

  lemma BusyView(s: Queues)
    ensures TenantRotation.Busy(View(s).backlog) == NonEmpty(s.queues)
  {
  }

  lemma {:induction false} PutView(s: Queues, job: Job)
    requires Valid(s)
    ensures Valid(Put(s, job))
    ensures View(Put(s, job)) == TenantRotation.Next(View(s), TenantRotation.Arrival(job.tenant))
  {
    assert View(Put(s, job)).backlog == TenantRotation.Next(View(s), TenantRotation.Arrival(job.tenant)).backlog;
  }

  lemma {:induction false} TakeView(d: Discipline, s: Queues)
    requires Valid(s)
    ensures View(Take(d, s)) == TenantRotation.Next(View(s), TenantRotation.Turn)
    ensures TenantOf(Head(d, s)) == TenantRotation.Served(View(s))
  {
    BusyView(s);
    assert View(Take(d, s)).backlog == TenantRotation.Next(View(s), TenantRotation.Turn).backlog;
  }

  lemma StepOwned(d: Discipline, s: Queues, op: Op)
    requires s.cycle != [] && Owned(s.queues)
    ensures Owned(Step(d, s, op).queues) && Step(d, s, op).queues.Keys == s.queues.Keys
  {
    if op.Dequeue? && Skip(s) < |s.cycle| {
      var t := Chosen(s);
      var i := Pick(d, s.queues[t]);
      var rest := Without(s.queues[t], i);
      assert forall j :: 0 <= j < |rest| ==> rest[j] == s.queues[t][if j < i then j else j + 1];
    }
  }

  lemma TakeValid(d: Discipline, s: Queues)
    requires Valid(s)
    ensures Valid(Take(d, s))
  {
    TakeView(d, s);
    StepOwned(d, s, Dequeue);
  }

  lemma ViewStep(d: Discipline, s: Queues, op: Op)
    requires Valid(s)
    ensures Valid(Step(d, s, op))
    ensures View(Step(d, s, op)) == TenantRotation.Next(View(s), EventOf(op))
    ensures op.Dequeue? ==> TenantOf(Head(d, s)) == TenantRotation.Served(View(s))
  {
    match op {
      case Enqueue(job) => PutView(s, job);
      case Dequeue => TakeView(d, s); TakeValid(d, s);
    }
  }

  lemma {:induction false} RunValid(d: Discipline, s: Queues, ops: seq<Op>)
    requires Valid(s)
    ensures Valid(Run(d, s, ops))
    decreases ops
  {
    if ops != [] {
      ViewStep(d, s, ops[0]);
      RunValid(d, Step(d, s, ops[0]), ops[1..]);
    }
  }

  lemma {:induction false} ViewRun(d: Discipline, s: Queues, ops: seq<Op>)
    requires Valid(s)
    ensures Tenants(Answers(d, s, ops)) == TenantRotation.Turns(View(s), Events(ops))
    decreases ops
  {
    if ops != [] {
      ViewStep(d, s, ops[0]);
      ViewRun(d, Step(d, s, ops[0]), ops[1..]);
      assert Events(ops)[1..] == Events(ops[1..]);
      TenantsCons(Head(d, s), Answers(d, Step(d, s, ops[0]), ops[1..]));
    }
  }

  /**
    Tenant-level simulation: from states that agree on the rotation, any run of enqueues and
    dequeues serves the same tenant at every dequeue under either discipline.
   */
  lemma SameTenants(d1: Discipline, s1: Queues, d2: Discipline, s2: Queues, ops: seq<Op>)
    requires Valid(s1) && Valid(s2) && View(s1) == View(s2)
    ensures |Answers(d1, s1, ops)| == |Answers(d2, s2, ops)|
    ensures forall i :: 0 <= i < |Answers(d1, s1, ops)| ==>
      TenantOf(Answers(d1, s1, ops)[i]) == TenantOf(Answers(d2, s2, ops)[i])
  {
    ViewRun(d1, s1, ops);
    ViewRun(d2, s2, ops);
    assert forall i :: 0 <= i < |Answers(d1, s1, ops)| ==>
        TenantOf(Answers(d1, s1, ops)[i]) == Tenants(Answers(d1, s1, ops))[i];
  }

  // ----- Size -----

  function Total(tenants: seq<Tenant>, queues: map<Tenant, seq<Job>>): nat
    requires forall i :: 0 <= i < |tenants| ==> tenants[i] in queues
  {
    if tenants == [] then 0
    else Total(tenants[..|tenants| - 1], queues) + |queues[tenants[|tenants| - 1]]|
  }

  ghost function Size(s: Queues): nat
    requires Valid(s)
  {
    Total(s.tenants, s.queues)
  }

  lemma {:induction false} TotalUpdate(tenants: seq<Tenant>, queues: map<Tenant, seq<Job>>, t: Tenant, q: seq<Job>)
    requires forall i :: 0 <= i < |tenants| ==> tenants[i] in queues
    requires forall i, j :: 0 <= i < j < |tenants| ==> tenants[i] != tenants[j]
    requires t in queues
    ensures Total(tenants, queues[t := q]) == Total(tenants, queues) + if t in tenants then |q| - |queues[t]| else 0
  {
    if tenants != [] {
      var n := |tenants| - 1;
      TotalUpdate(tenants[..n], queues, t, q);
      assert tenants == tenants[..n] + [tenants[n]];
    }
  }

  lemma {:induction false} TotalZero(tenants: seq<Tenant>, queues: map<Tenant, seq<Job>>)
    requires forall i :: 0 <= i < |tenants| ==> tenants[i] in queues
    ensures Total(tenants, queues) == 0 <==> forall t :: t in tenants ==> queues[t] == []
  {
    if tenants != [] {
      var n := |tenants| - 1;
      TotalZero(tenants[..n], queues);
      assert tenants == tenants[..n] + [tenants[n]];
    }
  }

  /** A dequeue answers nothing exactly when nothing is waiting. */
  lemma HeadNoneIffEmpty(d: Discipline, s: Queues)
    requires Valid(s)
    ensures Head(d, s).None? <==> Size(s) == 0
  {
    BusyView(s);
    TenantRotation.IdleIffEmpty(View(s));
    TotalZero(s.tenants, s.queues);
    assert forall t :: t in s.queues ==> View(s).backlog[t] == |s.queues[t]|;
  }

  lemma StepSize(d: Discipline, s: Queues, op: Op)
    requires Valid(s)
    ensures Valid(Step(d, s, op))
    ensures Size(Step(d, s, op)) == match op
      case Enqueue(job) => Size(s) + (if job.tenant in s.queues then 1 else 0)
      case Dequeue => Size(s) - (if Head(d, s).Some? then 1 else 0)
  {
    ViewStep(d, s, op);
    match op {
      case Enqueue(job) =>
        if job.tenant in s.queues {
          TotalUpdate(s.tenants, s.queues, job.tenant, s.queues[job.tenant] + [job]);
        }
      case Dequeue =>
        TakeSize(d, s);
    }
  }

  lemma TakeSize(d: Discipline, s: Queues)
    requires Valid(s) && Valid(Take(d, s))
    ensures Size(Take(d, s)) == Size(s) - (if Head(d, s).Some? then 1 else 0)
  {
    if Skip(s) < |s.cycle| {
      var t := Chosen(s);
      TotalUpdate(s.tenants, s.queues, t, Without(s.queues[t], Pick(d, s.queues[t])));
    }
  }

  // ----- Conservation -----

  function Handed(answers: seq<Option<Job>>): seq<Job> {
    if answers == [] then []
    else if answers[0].Some? then [answers[0].value] + Handed(answers[1..])
    else Handed(answers[1..])
  }

  /** The jobs a run's enqueues added. */
  function Added(s: Queues, ops: seq<Op>): seq<Job> {
    if ops == [] then []
    else if ops[0].Enqueue? && ops[0].job.tenant in s.queues then [ops[0].job] + Added(s, ops[1..])
    else Added(s, ops[1..])
  }

  function Held(queues: map<Tenant, seq<Job>>, job: Job): nat {
    if job.tenant in queues then multiset(queues[job.tenant])[job] else 0
  }

  function Waiting(s: Queues, job: Job): nat {
    Held(s.queues, job)
  }

  lemma RemoveConserves(queues: map<Tenant, seq<Job>>, t: Tenant, i: nat, job: Job)
    requires t in queues && i < |queues[t]| && queues[t][i].tenant == t
    ensures Held(queues, job) == Held(queues[t := Without(queues[t], i)], job) + (if queues[t][i] == job then 1 else 0)
  {
    var rest := Without(queues[t], i);
    assert multiset(queues[t])[job] == multiset(rest)[job] + multiset{queues[t][i]}[job];
  }

  lemma {:induction false} TakeConserves(d: Discipline, s: Queues, job: Job)
    requires s.cycle != [] && Owned(s.queues)
    ensures Waiting(s, job) == Waiting(Take(d, s), job) + (if Head(d, s) == Some(job) then 1 else 0)
    ensures Take(d, s).queues.Keys == s.queues.Keys
  {
    if Skip(s) < |s.cycle| {
      var t := Chosen(s);
      RemoveConserves(s.queues, t, Pick(d, s.queues[t]), job);
    }
  }

  lemma {:induction false} StepConserves(d: Discipline, s: Queues, op: Op, job: Job)
    requires Valid(s)
    ensures Waiting(s, job) + (if op == Enqueue(job) && job.tenant in s.queues then 1 else 0)
         == Waiting(Step(d, s, op), job) + (if op.Dequeue? && Head(d, s) == Some(job) then 1 else 0)
    ensures Step(d, s, op).queues.Keys == s.queues.Keys
  {
    assert s.cycle != [] && Owned(s.queues);
    hide Valid, Take, Head, Skip, Put, Waiting, Owned;
    match op {
      case Enqueue(added) => PutConserves(s, added, job);
      case Dequeue => TakeConserves(d, s, job);
    }
  }

  lemma PutConserves(s: Queues, added: Job, job: Job)
    ensures Waiting(Put(s, added), job) == Waiting(s, job) + (if added == job && job.tenant in s.queues then 1 else 0)
    ensures Put(s, added).queues.Keys == s.queues.Keys
  {
  }

  lemma {:induction false} AddedSameTenants(s: Queues, s': Queues, ops: seq<Op>)
    requires s.queues.Keys == s'.queues.Keys
    ensures Added(s, ops) == Added(s', ops)
  {
    if ops != [] {
      AddedSameTenants(s, s', ops[1..]);
    }
  }

  lemma HandedCons(a: Option<Job>, answers: seq<Option<Job>>, job: Job)
    ensures Handed([a] + answers) == if a.Some? then [a.value] + Handed(answers) else Handed(answers)
    ensures multiset(Handed([a] + answers))[job] == multiset(Handed(answers))[job] + (if a == Some(job) then 1 else 0)
  {
    assert ([a] + answers)[1..] == answers;
  }

  lemma AddedCons(s: Queues, ops: seq<Op>, job: Job)
    requires ops != [] && ops[0].Enqueue?
    ensures multiset(Added(s, ops))[job] == multiset(Added(s, ops[1..]))[job]
      + (if ops[0] == Enqueue(job) && job.tenant in s.queues then 1 else 0)
  {
  }

  /** Conservation: what waited and what was added is what was handed out and what still waits. */
  lemma {:induction false} RunConserves(d: Discipline, s: Queues, ops: seq<Op>, job: Job)
    requires Valid(s)
    ensures Waiting(s, job) + multiset(Added(s, ops))[job]
         == multiset(Handed(Answers(d, s, ops)))[job] + Waiting(Run(d, s, ops), job)
    decreases ops
  {
    if ops != [] {
      var s' := Step(d, s, ops[0]);
      ViewStep(d, s, ops[0]);
      StepConserves(d, s, ops[0], job);
      AddedSameTenants(s, s', ops[1..]);
      RunConserves(d, s', ops[1..], job);
      if ops[0].Dequeue? {
        HandedCons(Head(d, s), Answers(d, s', ops[1..]), job);
      } else {
        AddedCons(s, ops, job);
      }
    }
  }

  function OfTenant(jobs: seq<Job>, t: Tenant): seq<Job> {
    if jobs == [] then []
    else if jobs[0].tenant == t then [jobs[0]] + OfTenant(jobs[1..], t)
    else OfTenant(jobs[1..], t)
  }

  /** First in, first out: a tenant's handed-out jobs followed by its queue are its queue followed by its arrivals. */
  lemma {:induction false} FifoOrder(s: Queues, t: Tenant, ops: seq<Op>)
    requires s.cycle != [] && Owned(s.queues) && t in s.queues
    ensures t in Run(Fifo, s, ops).queues
    ensures OfTenant(Handed(Answers(Fifo, s, ops)), t) + Run(Fifo, s, ops).queues[t]
         == s.queues[t] + OfTenant(Added(s, ops), t)
    decreases ops
  {
    if ops != [] {
      var s' := Step(Fifo, s, ops[0]);
      StepOwned(Fifo, s, ops[0]);
      AddedSameTenants(s, s', ops[1..]);
      FifoOrder(s', t, ops[1..]);
      match ops[0] {
        case Enqueue(job) => FifoEnqueue(s, t, ops);
        case Dequeue =>
          var rest := Answers(Fifo, s', ops[1..]);
          var gone := FifoDequeue(s, t, rest);
          PrependBoth(gone, OfTenant(Handed(rest), t), Run(Fifo, s', ops[1..]).queues[t],
                      s'.queues[t], OfTenant(Added(s, ops[1..]), t));
          assert Added(s, ops) == Added(s, ops[1..]);
      }
    }
  }

  lemma PrependBoth(gone: seq<Job>, a: seq<Job>, b: seq<Job>, c: seq<Job>, e: seq<Job>)
    requires a + b == c + e
    ensures (gone + a) + b == (gone + c) + e
  {
    assert (gone + a) + b == gone + (a + b);
    assert (gone + c) + e == gone + (c + e);
  }

  lemma {:induction false} FifoDequeue(s: Queues, t: Tenant, rest: seq<Option<Job>>) returns (gone: seq<Job>)
    requires s.cycle != [] && Owned(s.queues) && t in s.queues
    ensures t in Take(Fifo, s).queues
    ensures OfTenant(Handed([Head(Fifo, s)] + rest), t) == gone + OfTenant(Handed(rest), t)
    ensures s.queues[t] == gone + Take(Fifo, s).queues[t]
  {
    assert ([Head(Fifo, s)] + rest)[1..] == rest;
    gone := [];
    if Skip(s) < |s.cycle| {
      var q := s.queues[Chosen(s)];
      assert q[0].tenant == Chosen(s) && q == [q[0]] + Without(q, 0);
      OfTenantCons(q[0], Handed(rest), t);
      if Chosen(s) == t {
        gone := [q[0]];
      }
    }
  }

  lemma FifoEnqueue(s: Queues, t: Tenant, ops: seq<Op>)
    requires ops != [] && ops[0].Enqueue? && t in s.queues
    ensures t in Put(s, ops[0].job).queues
    ensures s.queues[t] + OfTenant(Added(s, ops), t) == Put(s, ops[0].job).queues[t] + OfTenant(Added(s, ops[1..]), t)
  {
    var job := ops[0].job;
    if job.tenant in s.queues {
      OfTenantCons(job, Added(s, ops[1..]), t);
    }
  }

  lemma OfTenantCons(job: Job, jobs: seq<Job>, t: Tenant)
    ensures OfTenant([job] + jobs, t) == if job.tenant == t then [job] + OfTenant(jobs, t) else OfTenant(jobs, t)
  {
    assert ([job] + jobs)[1..] == jobs;
  }

  lemma {:induction false} ServicesAreHanded(answers: seq<Option<Job>>, t: Tenant)
    ensures TenantRotation.Services(Tenants(answers), t) == |OfTenant(Handed(answers), t)|
  {
    if answers != [] {
      ServicesAreHanded(answers[1..], t);
      assert Tenants(answers)[1..] == Tenants(answers[1..]);
      if answers[0].Some? {
        OfTenantCons(answers[0].value, Handed(answers[1..]), t);
      }
    }
  }

  lemma {:induction false} OfTenantElement(answers: seq<Option<Job>>, t: Tenant, k: nat)
    requires k < |OfTenant(Handed(answers), t)|
    ensures Some(OfTenant(Handed(answers), t)[k]) in answers
  {
    if answers != [] {
      if answers[0].Some? {
        OfTenantCons(answers[0].value, Handed(answers[1..]), t);
      }
      if answers[0].Some? && answers[0].value.tenant == t {
        if k > 0 { OfTenantElement(answers[1..], t, k - 1); }
      } else {
        OfTenantElement(answers[1..], t, k);
      }
      assert forall a :: a in answers[1..] ==> a in answers;
    }
  }

  function DequeueCount(ops: seq<Op>): nat {
    if ops == [] then 0 else (if ops[0].Dequeue? then 1 else 0) + DequeueCount(ops[1..])
  }

  lemma {:induction false} TurnCountOf(ops: seq<Op>)
    ensures TenantRotation.TurnCount(Events(ops)) == DequeueCount(ops)
  {
    if ops != [] {
      TurnCountOf(ops[1..]);
      assert Events(ops)[1..] == Events(ops[1..]);
    }
  }

  /** (k+1) + ceil((k+1)/c)*(n-c), for the tenant's c of the lap's n slots. */
  ghost function JobBound(s: Queues, t: Tenant, k: nat): int
    requires Valid(s) && t in s.queues
  {
    assert t in View(s).backlog;
    TenantRotation.WaitBound(|s.cycle|, Slots(s.cycle, t), k + 1)
  }

  /**
    Bounded wait of one job under weighted round robin: with n slots in the lap, c of them the
    tenant's, the job with k of its tenant's jobs ahead of it is among the answers of any run
    with at least (k+1) + ceil((k+1)/c)*(n-c) dequeues, wherever the pointer is and whatever
    is enqueued meanwhile.
   */
  lemma JobWaitsAtMost(s: Queues, t: Tenant, k: nat, ops: seq<Op>)
    requires Valid(s) && t in s.queues && k < |s.queues[t]|
    requires DequeueCount(ops) >= JobBound(s, t, k)
    ensures Some(s.queues[t][k]) in Answers(Fifo, s, ops)
  {
    var answers := Answers(Fifo, s, ops);
    var mine := OfTenant(Handed(answers), t);
    TurnCountOf(ops);
    TenantRotation.BoundedWait(View(s), t, Events(ops), k + 1);
    ViewRun(Fifo, s, ops);
    ServicesAreHanded(answers, t);
    FifoOrder(s, t, ops);
    assert mine[k] == (mine + Run(Fifo, s, ops).queues[t])[k] == s.queues[t][k];
    OfTenantElement(answers, t, k);
  }

  // ----- Draining -----

  function Dequeues(n: nat): seq<Op> {
    if n == 0 then [] else [Dequeue] + Dequeues(n - 1)
  }

  lemma DrainUnfold(d: Discipline, s: Queues, n: nat)
    requires s.cycle != [] && n > 0
    ensures Answers(d, s, Dequeues(n)) == [Head(d, s)] + Answers(d, Take(d, s), Dequeues(n - 1))
  {
    assert Dequeues(n)[0] == Dequeue && Dequeues(n)[1..] == Dequeues(n - 1);
    AnswersUnfold(d, s, Dequeues(n));
  }

  lemma DrainStep(d: Discipline, s: Queues)
    requires Valid(s) && Size(s) > 0
    ensures Valid(Take(d, s)) && Size(Take(d, s)) == Size(s) - 1 && Head(d, s).Some?
  {
    StepSize(d, s, Dequeue);
    HeadNoneIffEmpty(d, s);
  }

  /** n dequeues of n waiting jobs hand out one job each and leave nothing. */
  lemma {:induction false} DrainEmpties(d: Discipline, s: Queues, n: nat)
    requires Valid(s) && Size(s) == n
    ensures Valid(Run(d, s, Dequeues(n))) && Size(Run(d, s, Dequeues(n))) == 0
    ensures |Handed(Answers(d, s, Dequeues(n)))| == n
    decreases n
  {
    if n > 0 {
      DrainStep(d, s);
      DrainEmpties(d, Take(d, s), n - 1);
      assert Answers(d, s, Dequeues(n))[1..] == Answers(d, Take(d, s), Dequeues(n - 1));
    }
  }

  ghost function Drained(d: Discipline, s: Queues): seq<Job>
    requires Valid(s)
  {
    Handed(Answers(d, s, Dequeues(Size(s))))
  }
}
