/**
  The whole at-least-once pipeline: scheduler publishes, the dispatch topic, the workers, the result
  topic and the result consumer, over the jobs table.  A topic is the set of messages ever accepted;
  any of them may be delivered any number of times in any order.  A failed publish may still have
  reached its topic.  Neither message type carries an attempt, so both sides decode attempt 0.
 */
module Pipeline {
  import opened Wrappers
  import opened Text
  import opened IdempotencyKeys
  import opened BatchedSelection
  import H = DispatchHandler
  import B = DispatchBudget
  import R = ResultConsumer
  import C = ClaimStore
  import J = JobRepository
  import T = SchedulerTick

  /** A message on the dispatch topic: no attempt field. */
  datatype Dispatch = Dispatch(jobId: string, tenant: string, priority: int)

  /** A message on the result topic: no attempt field. */
  datatype Report = Report(jobId: string, status: R.ResultStatus)

  /** A result message whose claim was granted, and the interval of the claim. */
  datatype Taken = Taken(report: Report, start: real, end: real)

  datatype World = World(
    db: B.Db,
    dispatchStore: C.Store,
    dispatches: set<Dispatch>,
    worker: H.World,
    reports: set<Report>,
    resultStore: C.Store,
    taken: seq<Taken>)

  /** ttl: how long a result claim lasts; every store of the control plane lets claims expire. */
  datatype Settings = Settings(worker: H.Config, ttl: real)

  datatype Step =
    /** Any table step that is not a worker result: claims, scans, replays, API requests, creation, deletion. */
    | Database(step: B.Step)
    /** A tick publishes a claimed job, unless its dispatch key is taken. */
    | Publish(event: Dispatch, retryCount: nat, ttl: nat, clock: real, arrives: bool)
    | Deliver(call: int, event: Dispatch)
    | Work(call: int, env: H.Env, arrives: bool)
    | Consume(report: Report, clock: real, now: int)

  function DispatchKey(e: Dispatch, retryCount: nat): string {
    Compose(Prefix(IdempotencyKeys.Dispatch), Strip(e.jobId), retryCount)
  }

  function Decoded(e: Dispatch): H.Event {
    H.Event(e.jobId, e.tenant, e.priority, 0)
  }

  function Result(r: Report): R.ResultEvent {
    R.ResultEvent(r.jobId, r.status, 0)
  }

  function StatusOf(s: H.Status): R.ResultStatus {
    match s
    case Succeeded => R.Succeeded
    case RetryableFailure => R.RetryableFailure
    case _ => R.TerminalFailure
  }

  /** What a call that is about to publish puts on the result topic. */
  function ReportOf(call: H.Call): Report
    requires call.answer.Some? && call.answer.value.Ran?
  {
    Report(call.event.jobId, StatusOf(call.answer.value.status))
  }

  ghost predicate Enabled(w: World, step: Step) {
    match step
    case Database(s) => !s.WorkerWrite? && !s.WorkerRetry?
    case Publish(_, _, _, _, _) => true
    case Deliver(c, e) => e in w.dispatches && c !in w.worker.calls
    case Work(c, _, _) => c in w.worker.calls
    case Consume(r, _, _) => r in w.reports
  }

  predicate Reporting(call: H.Call) {
    call.pc.AtPublish? && call.answer.Some? && call.answer.value.Ran?
  }

  function Apply(cfg: Settings, w: World, step: Step): World {
    match step
    case Database(s) => w.(db := B.Apply(w.db, s))
    case Publish(e, retryCount, ttl, now, arrives) =>
      if Blank(e.jobId) || !C.Free(w.dispatchStore, DispatchKey(e, retryCount), now) then w
      else w.(dispatchStore := C.Claimed(w.dispatchStore, DispatchKey(e, retryCount), ttl, now),
              dispatches := if arrives then w.dispatches + {e} else w.dispatches)
    case Deliver(c, e) => w.(worker := H.Apply(cfg.worker, w.worker, H.Begin(c, Decoded(e))))
    case Work(c, env, arrives) =>
      var worker' := H.Apply(cfg.worker, w.worker, H.Advance(c, env));
      if c in w.worker.calls && Reporting(w.worker.calls[c]) && (env.publishOk || arrives)
      then w.(worker := worker', reports := w.reports + {ReportOf(w.worker.calls[c])})
      else w.(worker := worker')
    case Consume(r, clock, now) =>
      if !R.Acceptable(Result(r)) then w
      else
        var key := R.ResultKey(Result(r));
        if !C.Free(w.resultStore, key, clock) then w
        else w.(resultStore := w.resultStore[key := clock + cfg.ttl],
                taken := w.taken + [Taken(r, clock, clock + cfg.ttl)],
                db := B.Apply(w.db, R.HandlerStep(Result(r), now)))
  }

  /** A publish step is a pass of the scheduler's publish loop: only an attempt that arrives adds to the topic. */
  lemma PublishIsPass(cfg: Settings, w: World, e: Dispatch, retryCount: nat, ttl: nat, clock: real, arrives: bool)
    ensures var w' := Apply(cfg, w, Publish(e, retryCount, ttl, clock, arrives));
      var call := T.Call(e.jobId, retryCount, clock, ttl, arrives);
      var attempted := !Blank(e.jobId) && T.OutcomeOf(w.dispatchStore, call) != T.Duplicate;
      && w'.dispatches == w.dispatches + (if attempted && arrives then {e} else {})
      && w'.dispatchStore == (if Blank(e.jobId) then w.dispatchStore else T.After(w.dispatchStore, [call]))
      && w'.db == w.db && w'.worker == w.worker && w'.reports == w.reports && w'.taken == w.taken
  {
    var call := T.Call(e.jobId, retryCount, clock, ttl, arrives);
    assert [call][..0] == [];
    assert T.After(w.dispatchStore, [call]) == C.Claimed(T.After(w.dispatchStore, []), T.DispatchKey(call), ttl, clock);
    assert T.DispatchKey(call) == DispatchKey(e, retryCount);
    hide T.DispatchKey, DispatchKey, Blank;
  }

  /** A consume step: a message whose key is taken or that is not acceptable does nothing; otherwise its job changes as it says. */
  lemma ConsumeMeans(cfg: Settings, w: World, r: Report, clock: real, now: int)
    ensures var w', e := Apply(cfg, w, Consume(r, clock, now)), R.ResultEvent(r.jobId, r.status, 0);
      var granted := R.Acceptable(e) && C.Free(w.resultStore, R.ResultKey(e), clock);
      && (!granted ==> w' == w)
      && (granted ==> w'.taken == w.taken + [Taken(r, clock, clock + cfg.ttl)])
      && (granted && r.jobId in w.db.rows ==> R.Applied(w.db.rows, w'.db.rows, e, now))
      && (granted && r.jobId !in w.db.rows ==> w'.db == w.db)
  {
    R.HandlerStepMeans(w.db, R.ResultEvent(r.jobId, r.status, 0), now);
    hide R.ResultKey, R.Acceptable, R.Applied, R.HandlerStep, B.Apply;
  }

  // ----- The invariant -----

  function TakenKey(t: Taken): string {
    Compose(Prefix(WorkerResult), Strip(t.report.jobId), 0)
  }

  /** Some call executed the job and reported this. */
  ghost predicate Backed(w: World, r: Report) {
    exists c :: BackedBy(w, r, c)
  }

  ghost predicate BackedBy(w: World, r: Report, c: int) {
    && c in w.worker.calls
    && w.worker.calls[c].answer.Some?
    && H.Reportable(w.worker.calls[c].answer.value)
    && ReportOf(w.worker.calls[c]) == r
  }

  /** The same outcome in the worker's and the control plane's words. */
  predicate SameOutcome(worker: H.Status, control: R.ResultStatus) {
    && (worker.Succeeded? <==> control.Succeeded?)
    && (worker.RetryableFailure? <==> control.RetryableFailure?)
    && (worker.TerminalFailure? <==> control.TerminalFailure?)
  }

  /** A backed report carries the outcome its executor returned, for the job it was given. */
  lemma ReportIsAnswer(w: World, r: Report) returns (c: int)
    requires Backed(w, r)
    ensures c in w.worker.calls && w.worker.calls[c].event.jobId == r.jobId
    ensures w.worker.calls[c].answer.Some? && w.worker.calls[c].answer.value.Ran?
    ensures SameOutcome(w.worker.calls[c].answer.value.status, r.status)
  {
    c :| BackedBy(w, r, c);
  }

  /** Every call works on a message that was published. */
  ghost predicate Sourced(w: World) {
    forall c :: c in w.worker.calls ==>
      exists e :: e in w.dispatches && w.worker.calls[c].event == Decoded(e)
  }

  ghost predicate Reported(w: World) {
    forall r :: r in w.reports ==> Backed(w, r)
  }

  /** Result claims last a TTL, and those of one key did not overlap. */
  ghost predicate TakenApart(cfg: Settings, taken: seq<Taken>) {
    && (forall i :: 0 <= i < |taken| ==> taken[i].end == taken[i].start + cfg.ttl)
    && (forall i, j :: 0 <= i < j < |taken| && TakenKey(taken[i]) == TakenKey(taken[j]) ==>
          taken[i].end <= taken[j].start)
  }

  ghost predicate TakenStored(w: World) {
    forall i :: 0 <= i < |w.taken| ==>
      && w.taken[i].report in w.reports
      && TakenKey(w.taken[i]) in w.resultStore
      && w.taken[i].end <= w.resultStore[TakenKey(w.taken[i])]
  }

  /** How many results of a job were taken. */
  function TakenFor(taken: seq<Taken>, id: Id): nat {
    if taken == [] then 0
    else TakenFor(taken[..|taken| - 1], id) + if taken[|taken| - 1].report.jobId == id then 1 else 0
  }

  ghost predicate CountsBacked(w: World) {
    forall id :: id in w.db.rows ==> w.db.rows[id].retryCount <= TakenFor(w.taken, id)
  }

  ghost predicate Valid(cfg: Settings, w: World) {
    && H.Valid(cfg.worker, w.worker)
    && Sourced(w) && Reported(w)
    && TakenApart(cfg, w.taken) && TakenStored(w)
    && CountsBacked(w)
  }

  // ----- Steps -----

  /** A table step that is not a worker result never raises a retry count. */
  lemma DatabaseStep(db: B.Db, s: B.Step, id: Id)
    requires !s.WorkerWrite? && !s.WorkerRetry? && id in B.Apply(db, s).rows
    ensures B.Apply(db, s).rows[id].retryCount == (if id in db.rows then db.rows[id].retryCount else 0)
  {
  }

  lemma ConsumeStep(db: B.Db, e: R.ResultEvent, now: int, id: Id)
    requires id in B.Apply(db, R.HandlerStep(e, now)).rows
    ensures id in db.rows
    ensures B.Apply(db, R.HandlerStep(e, now)).rows[id].retryCount <= db.rows[id].retryCount + (if id == e.jobId then 1 else 0)
  {
  }

  lemma ConsumeCounts(db: B.Db, taken: seq<Taken>, t: Taken, now: int)
    requires forall id :: id in db.rows ==> db.rows[id].retryCount <= TakenFor(taken, id)
    ensures var db' := B.Apply(db, R.HandlerStep(Result(t.report), now));
      forall id :: id in db'.rows ==> db'.rows[id].retryCount <= TakenFor(taken + [t], id)
  {
    var e := Result(t.report);
    assert (taken + [t])[..|taken|] == taken;
    forall id | id in B.Apply(db, R.HandlerStep(e, now)).rows
      ensures B.Apply(db, R.HandlerStep(e, now)).rows[id].retryCount <= TakenFor(taken + [t], id)
    {
      ConsumeStep(db, e, now, id);
    }
  }

  lemma CountsStep(cfg: Settings, w: World, step: Step)
    requires CountsBacked(w) && Enabled(w, step)
    ensures CountsBacked(Apply(cfg, w, step))
  {
    hide B.Apply, H.Apply, R.HandlerStep, R.ResultKey, R.Acceptable, C.Claimed;
    var w' := Apply(cfg, w, step);
    match step {
      case Database(s) =>
        forall id | id in w'.db.rows ensures w'.db.rows[id].retryCount <= TakenFor(w'.taken, id) {
          DatabaseStep(w.db, s, id);
        }
      case Consume(r, clock, now) =>
        ConsumeCounts(w.db, w.taken, Taken(r, clock, clock + cfg.ttl), now);
      case Publish(_, _, _, _, _) =>
      case Deliver(_, _) =>
      case Work(_, _, _) =>
    }
  }

  lemma TakenStep(cfg: Settings, w: World, r: Report, clock: real, now: int)
    requires TakenApart(cfg, w.taken) && TakenStored(w) && r in w.reports && cfg.ttl >= 0.0
    ensures var w' := Apply(cfg, w, Consume(r, clock, now));
      TakenApart(cfg, w'.taken) && TakenStored(w')
  {
    var w' := Apply(cfg, w, Consume(r, clock, now));
    if w'.taken != w.taken {
      var n, t := |w.taken|, w'.taken[|w.taken|];
      assert TakenKey(t) == R.ResultKey(Result(r));
      hide TakenKey, R.ResultKey, R.Acceptable, B.Apply, R.HandlerStep;
      assert forall i :: 0 <= i < n ==> w'.taken[i] == w.taken[i];
    }
  }

  lemma BackedStays(w: World, w': World, r: Report)
    requires Backed(w, r)
    requires forall c :: c in w.worker.calls ==>
      && c in w'.worker.calls
      && w'.worker.calls[c].event == w.worker.calls[c].event
      && (w.worker.calls[c].answer.Some? ==> w'.worker.calls[c].answer == w.worker.calls[c].answer)
    ensures Backed(w', r)
  {
    var c :| BackedBy(w, r, c);
    assert BackedBy(w', r, c);
  }

  /** What a handler step changes: the handler's state, and the result topic if the call was about to publish. */
  lemma WorkShape(cfg: Settings, w: World, c: int, env: H.Env, arrives: bool)
    requires c in w.worker.calls
    ensures var w', call := Apply(cfg, w, Work(c, env, arrives)), w.worker.calls[c];
      && w'.worker == H.Apply(cfg.worker, w.worker, H.Advance(c, env))
      && w'.db == w.db && w'.resultStore == w.resultStore && w'.taken == w.taken && w'.dispatches == w.dispatches
      && w'.reports == w.reports + (if Reporting(call) && (env.publishOk || arrives) then {ReportOf(call)} else {})
  {
    hide H.Apply;
  }

  lemma CallKeeps(cfg: H.Config, sh: H.Shared, c: int, call: H.Call, env: H.Env)
    requires H.Consistent(cfg, call)
    ensures var call' := H.StepCall(cfg, sh, c, call, env).1;
      call'.event == call.event && (call.answer.Some? ==> call'.answer == call.answer)
  {
    hide H.KeyOf, H.ValidTask, H.Ended, H.Spent, H.Fails, H.FreeKey;
  }

  /** A handler step keeps every call's event and, once given, its answer. */
  lemma AdvanceKeeps(cfg: H.Config, w: H.World, c: int, env: H.Env)
    requires H.Valid(cfg, w) && c in w.calls
    ensures var w' := H.Apply(cfg, w, H.Advance(c, env));
      && w'.calls.Keys == w.calls.Keys
      && w'.calls[c].event == w.calls[c].event
      && (w.calls[c].answer.Some? ==> w'.calls[c].answer == w.calls[c].answer)
      && forall d :: d in w.calls && d != c ==> w'.calls[d] == w.calls[d]
  {
    assert H.Consistent(cfg, w.calls[c]);
    hide H.Valid, H.Ended, H.StepCall;
    CallKeeps(cfg, w.shared, c, w.calls[c], env);
  }

  /** Every call of w is still there in w', for the same event and with its answer if it had one. */
  ghost predicate CallsKept(w: World, w': World) {
    && w'.worker.calls.Keys == w.worker.calls.Keys
    && forall c :: c in w.worker.calls ==>
         && w'.worker.calls[c].event == w.worker.calls[c].event
         && (w.worker.calls[c].answer.Some? ==> w'.worker.calls[c].answer == w.worker.calls[c].answer)
  }

  lemma WorkKeepsCalls(cfg: Settings, w: World, c: int, env: H.Env, arrives: bool)
    requires H.Valid(cfg.worker, w.worker) && c in w.worker.calls
    ensures CallsKept(w, Apply(cfg, w, Work(c, env, arrives)))
  {
    WorkShape(cfg, w, c, env, arrives);
    hide Apply, H.Apply;
    AdvanceKeeps(cfg.worker, w.worker, c, env);
  }

  lemma SourcedKept(w: World, w': World)
    requires Sourced(w) && CallsKept(w, w') && w'.dispatches == w.dispatches
    ensures Sourced(w')
  {
  }

  lemma ReportedKept(w: World, w': World)
    requires CallsKept(w, w') && forall r :: r in w'.reports ==> Backed(w, r)
    ensures Reported(w')
  {
    hide Backed;
    forall r | r in w'.reports ensures Backed(w', r) {
      BackedStays(w, w', r);
    }
  }

  lemma ReportBacked(cfg: H.Config, w: World, c: int)
    requires H.Valid(cfg, w.worker) && c in w.worker.calls && Reporting(w.worker.calls[c])
    ensures Backed(w, ReportOf(w.worker.calls[c]))
  {
    assert H.Consistent(cfg, w.worker.calls[c]);
    assert BackedBy(w, ReportOf(w.worker.calls[c]), c);
  }

  lemma WorkStep(cfg: Settings, w: World, c: int, env: H.Env, arrives: bool)
    requires Valid(cfg, w) && c in w.worker.calls && cfg.worker.ttl >= 0.0
    ensures var w' := Apply(cfg, w, Work(c, env, arrives));
      H.Valid(cfg.worker, w'.worker) && Sourced(w') && Reported(w')
  {
    var w' := Apply(cfg, w, Work(c, env, arrives));
    hide Apply, H.Apply, H.Valid, Sourced, TakenApart, TakenStored, CountsBacked, Backed, CallsKept;
    WorkShape(cfg, w, c, env, arrives);
    H.StepValid(cfg.worker, w.worker, H.Advance(c, env));
    WorkKeepsCalls(cfg, w, c, env, arrives);
    SourcedKept(w, w');
    if Reporting(w.worker.calls[c]) {
      ReportBacked(cfg.worker, w, c);
    }
    ReportedKept(w, w');
  }

  lemma DeliverStep(cfg: Settings, w: World, c: int, e: Dispatch)
    requires Valid(cfg, w) && Enabled(w, Deliver(c, e)) && cfg.worker.ttl >= 0.0
    ensures var w' := Apply(cfg, w, Deliver(c, e));
      H.Valid(cfg.worker, w'.worker) && Sourced(w') && Reported(w')
  {
    var w' := Apply(cfg, w, Deliver(c, e));
    H.StepValid(cfg.worker, w.worker, H.Begin(c, Decoded(e)));
    hide H.Valid;
    forall r | r in w'.reports ensures Backed(w', r) {
      BackedStays(w, w', r);
    }
  }

  lemma StepValid(cfg: Settings, w: World, step: Step)
    requires Valid(cfg, w) && Enabled(w, step) && cfg.worker.ttl >= 0.0 && cfg.ttl >= 0.0
    ensures Valid(cfg, Apply(cfg, w, step))
  {
    hide B.Apply, H.Apply, H.Valid, R.HandlerStep, R.ResultKey, R.Acceptable, C.Claimed, CountsBacked, TakenApart;
    var w' := Apply(cfg, w, step);
    CountsStep(cfg, w, step);
    match step {
      case Work(c, env, arrives) => WorkStep(cfg, w, c, env, arrives);
      case Deliver(c, e) => DeliverStep(cfg, w, c, e);
      case Consume(r, clock, now) =>
        TakenStep(cfg, w, r, clock, now);
        SameWorker(w, w');
      case Database(_) => SameWorker(w, w');
      case Publish(_, _, _, _, _) => SameWorker(w, w');
    }
  }

  lemma SameWorker(w: World, w': World)
    requires w'.worker == w.worker && w'.reports == w.reports && w.dispatches <= w'.dispatches
    requires Sourced(w) && Reported(w)
    ensures Sourced(w') && Reported(w')
  {
    forall r | r in w'.reports ensures Backed(w', r) {
      BackedStays(w, w', r);
    }
  }

  function Initial(inj: H.Injector): World {
    World(B.Db(map[], map[]), map[], {}, H.Initial(inj), {}, map[], [])
  }

  ghost predicate Possible(cfg: Settings, w: World, steps: seq<Step>)
    decreases steps
  {
    steps == [] || (Enabled(w, steps[0]) && Possible(cfg, Apply(cfg, w, steps[0]), steps[1..]))
  }

  function Run(cfg: Settings, w: World, steps: seq<Step>): World
    decreases steps
  {
    if steps == [] then w else Run(cfg, Apply(cfg, w, steps[0]), steps[1..])
  }

  lemma {:induction false} RunValid(cfg: Settings, w: World, steps: seq<Step>)
    requires Valid(cfg, w) && Possible(cfg, w, steps) && cfg.worker.ttl >= 0.0 && cfg.ttl >= 0.0
    ensures Valid(cfg, Run(cfg, w, steps))
    decreases steps
  {
    if steps != [] {
      StepValid(cfg, w, steps[0]);
      hide Valid, Apply;
      RunValid(cfg, Apply(cfg, w, steps[0]), steps[1..]);
    }
  }

  // ----- What follows for every run of the pipeline -----

  /** On the wire every attempt is 0, so the execution key is the trimmed id alone. */
  lemma SameJobSameKey(w: World, c: int, d: int)
    requires Sourced(w) && c in w.worker.calls && d in w.worker.calls
    requires TrimSpace(w.worker.calls[c].event.jobId) == TrimSpace(w.worker.calls[d].event.jobId)
    ensures H.SameKey(w.worker, c, d)
  {
  }

  /**
    Executions: two calls that executed one job, whatever its retry count, hold claims that did not
    overlap; with execution claims that do not expire a job is executed at most once.
   */
  lemma JobExecutedOnce(cfg: Settings, inj: H.Injector, steps: seq<Step>, c: int, d: int)
    requires cfg.worker.hasStore && cfg.worker.ttl >= 0.0 && cfg.ttl >= 0.0
    requires Possible(cfg, Initial(inj), steps)
    requires var w := Run(cfg, Initial(inj), steps);
      && c != d && c in w.worker.shared.executed && d in w.worker.shared.executed
      && c in w.worker.calls && d in w.worker.calls
      && TrimSpace(w.worker.calls[c].event.jobId) == TrimSpace(w.worker.calls[d].event.jobId)
    ensures H.Apart(cfg.worker, Run(cfg, Initial(inj), steps).worker, c, d)
  {
    InitialValid(cfg, inj);
    RunValid(cfg, Initial(inj), steps);
    var w := Run(cfg, Initial(inj), steps);
    SameJobSameKey(w, c, d);
    H.ExecutedApart(cfg.worker, w.worker, c, d);
  }

  lemma InitialValid(cfg: Settings, inj: H.Injector)
    ensures Valid(cfg, Initial(inj))
  {
    H.InitialValid(cfg.worker, inj);
  }

  /**
    Results: two results taken for one job come under claims that did not overlap; every result
    taken was reported by a call that executed that job, on a message that was published.
   */
  lemma ResultTakenOnce(cfg: Settings, inj: H.Injector, steps: seq<Step>)
    requires cfg.worker.ttl >= 0.0 && cfg.ttl >= 0.0 && Possible(cfg, Initial(inj), steps)
    ensures var w := Run(cfg, Initial(inj), steps);
      && (forall i, j :: 0 <= i < j < |w.taken| && Strip(w.taken[i].report.jobId) == Strip(w.taken[j].report.jobId) ==>
            w.taken[i].end <= w.taken[j].start)
      && (forall i :: 0 <= i < |w.taken| ==> Backed(w, w.taken[i].report))
      && (forall c :: c in w.worker.shared.executed ==>
            && c in w.worker.calls
            && exists e :: e in w.dispatches && w.worker.calls[c].event == Decoded(e))
  {
    InitialValid(cfg, inj);
    RunValid(cfg, Initial(inj), steps);
    var w := Run(cfg, Initial(inj), steps);
    forall i, j | 0 <= i < j < |w.taken| && Strip(w.taken[i].report.jobId) == Strip(w.taken[j].report.jobId)
      ensures w.taken[i].end <= w.taken[j].start
    {
      assert TakenKey(w.taken[i]) == TakenKey(w.taken[j]);
    }
  }

  // ----- How far retries can get -----

  /** k TTLs. */
  function Ttls(k: nat, ttl: real): real {
    k as real * ttl
  }

  lemma TtlsNext(k: nat, ttl: real)
    ensures Ttls(k + 1, ttl) == Ttls(k, ttl) + ttl && Ttls(0, ttl) == 0.0
  {
  }

  lemma ApartPrefix(cfg: Settings, taken: seq<Taken>)
    requires TakenApart(cfg, taken) && taken != []
    ensures TakenApart(cfg, taken[..|taken| - 1])
  {
    hide TakenKey;
  }

  lemma SameJobApart(cfg: Settings, taken: seq<Taken>, i: nat, j: nat)
    requires TakenApart(cfg, taken) && i < j < |taken| && taken[i].report.jobId == taken[j].report.jobId
    ensures taken[i].start + cfg.ttl <= taken[j].start
  {
    assert TakenKey(taken[i]) == TakenKey(taken[j]);
  }

  /** From first to last the results taken for the job lie at least one TTL less than their number apart. */
  ghost predicate Spans(cfg: Settings, taken: seq<Taken>, id: Id, first: nat, last: nat) {
    && first <= last < |taken| && taken[first].report.jobId == id && taken[last].report.jobId == id
    && TakenFor(taken, id) > 0
    && Ttls(TakenFor(taken, id) - 1, cfg.ttl) <= taken[last].start - taken[first].start
  }

  lemma SpanStart(cfg: Settings, taken: seq<Taken>, id: Id)
    requires taken != [] && TakenFor(taken[..|taken| - 1], id) == 0 && taken[|taken| - 1].report.jobId == id
    ensures Spans(cfg, taken, id, |taken| - 1, |taken| - 1)
  {
    TtlsNext(0, cfg.ttl);
  }

  lemma SpanGrow(cfg: Settings, taken: seq<Taken>, id: Id, first: nat, last: nat)
    requires taken != [] && TakenApart(cfg, taken) && Spans(cfg, taken[..|taken| - 1], id, first, last)
    ensures Spans(cfg, taken, id, first, if taken[|taken| - 1].report.jobId == id then |taken| - 1 else last)
  {
    hide Ttls, TakenApart;
    var n := |taken| - 1;
    if taken[n].report.jobId == id {
      var k := TakenFor(taken[..n], id);
      assert TakenFor(taken, id) == k + 1;
      SameJobApart(cfg, taken, last, n);
      TtlsNext(k - 1, cfg.ttl);
      hide TakenFor;
    }
  }

  /** n results taken for one job lie at least n - 1 TTLs apart, first to last. */
  lemma {:induction false} TakenSpan(cfg: Settings, taken: seq<Taken>, id: Id) returns (first: nat, last: nat)
    requires TakenApart(cfg, taken) && TakenFor(taken, id) > 0
    ensures Spans(cfg, taken, id, first, last)
    decreases taken
  {
    var n := |taken| - 1;
    ApartPrefix(cfg, taken);
    hide Spans, TakenApart;
    if TakenFor(taken[..n], id) == 0 {
      SpanStart(cfg, taken, id);
      first, last := n, n;
    } else {
      first, last := TakenSpan(cfg, taken[..n], id);
      SpanGrow(cfg, taken, id, first, last);
      last := if taken[n].report.jobId == id then n else last;
    }
  }

  lemma TtlsMonotone(a: nat, b: nat, ttl: real)
    requires a <= b && ttl >= 0.0
    ensures Ttls(a, ttl) <= Ttls(b, ttl)
  {
    assert (b - a) as real * ttl >= 0.0;
  }

  lemma CountsNeedTime(cfg: Settings, w: World, id: Id) returns (first: nat, last: nat)
    requires cfg.ttl >= 0.0 && TakenApart(cfg, w.taken) && CountsBacked(w) && id in w.db.rows && w.db.rows[id].retryCount > 0
    ensures first <= last < |w.taken| && w.taken[first].report.jobId == id && w.taken[last].report.jobId == id
    ensures Ttls(w.db.rows[id].retryCount - 1, cfg.ttl) <= w.taken[last].start - w.taken[first].start
  {
    hide TakenFor, Ttls, TakenApart;
    first, last := TakenSpan(cfg, w.taken, id);
    TtlsMonotone(w.db.rows[id].retryCount - 1, TakenFor(w.taken, id) - 1, cfg.ttl);
  }

  /**
    Retries take time: since the wire carries no attempt, all results of a job share one claim key, so
    in every reachable state a row with retry count n > 0 had two results taken at least n - 1 TTLs
    apart, whatever its limit.
   */
  lemma {:induction false} RetriesNeedTime(cfg: Settings, inj: H.Injector, steps: seq<Step>, id: Id)
    returns (first: nat, last: nat)
    requires cfg.worker.ttl >= 0.0 && cfg.ttl >= 0.0 && Possible(cfg, Initial(inj), steps)
    requires var rows := Run(cfg, Initial(inj), steps).db.rows;
      id in rows && rows[id].retryCount > 0
    ensures var w := Run(cfg, Initial(inj), steps);
      && first <= last < |w.taken| && w.taken[first].report.jobId == id && w.taken[last].report.jobId == id
      && Ttls(w.db.rows[id].retryCount - 1, cfg.ttl) <= w.taken[last].start - w.taken[first].start
  {
    InitialValid(cfg, inj);
    hide Run, Possible, H.Valid, Sourced, Reported, TakenStored, TakenApart, CountsBacked, Ttls, Initial;
    RunValid(cfg, Initial(inj), steps);
    first, last := CountsNeedTime(cfg, Run(cfg, Initial(inj), steps), id);
  }

  /** While one claim lives the budget is out of reach: results of a job taken within less than a TTL leave it at one retry. */
  lemma {:induction false} RetriesStopAtOne(cfg: Settings, inj: H.Injector, steps: seq<Step>, id: Id)
    requires cfg.worker.ttl >= 0.0 && cfg.ttl >= 0.0 && Possible(cfg, Initial(inj), steps)
    requires var w := Run(cfg, Initial(inj), steps);
      && id in w.db.rows
      && forall i, j :: 0 <= i <= j < |w.taken| && w.taken[i].report.jobId == id && w.taken[j].report.jobId == id ==>
           w.taken[j].start - w.taken[i].start < cfg.ttl
    ensures Run(cfg, Initial(inj), steps).db.rows[id].retryCount <= 1
  {
    hide Run, Possible, Ttls, Initial;
    var n := Run(cfg, Initial(inj), steps).db.rows[id].retryCount;
    if n > 1 {
      var first, last := RetriesNeedTime(cfg, inj, steps, id);
      TtlsNext(0, cfg.ttl);
      TtlsMonotone(1, n - 1, cfg.ttl);
      assert false;
    }
  }

  // ----- And that they get there -----

  /** k results of the job taken, at 0, ttl, 2 ttl and so on, each granting a retry. */
  ghost predicate Reached(cfg: Settings, w: World, id: Id, maxRetries: nat, k: nat) {
    var r, key := Report(id, R.RetryableFailure), Compose(Prefix(WorkerResult), Strip(id), 0);
    && r in w.reports
    && id in w.db.rows && w.db.rows[id].maxRetries == maxRetries && w.db.rows[id].retryCount == k
    && |w.taken| == k
    && (forall i :: 0 <= i < k ==> w.taken[i].report == r && w.taken[i].start == Ttls(i, cfg.ttl))
    && (key in w.resultStore ==> w.resultStore[key] <= Ttls(k, cfg.ttl))
  }

  ghost predicate GetsTo(cfg: Settings, w: World, steps: seq<Step>, id: Id, maxRetries: nat, n: nat) {
    Possible(cfg, w, steps) && Reached(cfg, Run(cfg, w, steps), id, maxRetries, n)
  }

  lemma Prepend(cfg: Settings, w: World, step: Step, rest: seq<Step>, id: Id, maxRetries: nat, n: nat)
    requires Enabled(w, step) && GetsTo(cfg, Apply(cfg, w, step), rest, id, maxRetries, n)
    ensures GetsTo(cfg, w, [step] + rest, id, maxRetries, n)
  {
    hide Apply, Enabled, Reached;
    assert ([step] + rest)[1..] == rest;
  }

  lemma ConsumeOnce(cfg: Settings, w: World, id: Id, maxRetries: nat, k: nat)
    requires Reached(cfg, w, id, maxRetries, k) && k < maxRetries && !Blank(id)
    ensures Reached(cfg, Apply(cfg, w, Consume(Report(id, R.RetryableFailure), Ttls(k, cfg.ttl), 0)), id, maxRetries, k + 1)
  {
    TtlsNext(k, cfg.ttl);
    hide Ttls, Blank, Compose, Strip;
  }

  lemma {:induction false} ConsumeAll(cfg: Settings, w: World, id: Id, maxRetries: nat, k: nat, n: nat) returns (steps: seq<Step>)
    requires Reached(cfg, w, id, maxRetries, k) && k <= n <= maxRetries && !Blank(id)
    ensures GetsTo(cfg, w, steps, id, maxRetries, n)
    decreases n - k
  {
    steps := [];
    if k < n {
      var step := Consume(Report(id, R.RetryableFailure), Ttls(k, cfg.ttl), 0);
      ConsumeOnce(cfg, w, id, maxRetries, k);
      assert Enabled(w, step);
      hide Apply, Reached, Blank, GetsTo;
      var rest := ConsumeAll(cfg, Apply(cfg, w, step), id, maxRetries, k + 1, n);
      Prepend(cfg, w, step, rest, id, maxRetries, n);
      steps := [step] + rest;
    }
  }

  const Retryable := H.Ran(H.RetryableFailure)

  /** Nothing fails and the executor asks for a retry. */
  const Calm := H.Env(0.0, false, false, false, Retryable, true)

  /** Where a call goes next when nothing fails. */
  function Onward(cfg: Settings, pc: H.Pc): H.Pc {
    match pc
    case AtStart => if cfg.worker.hasStore then H.AtClaim else H.AtBeforeExecute
    case AtClaim => H.AtAfterClaim
    case AtAfterClaim => H.AtBeforeExecute
    case AtBeforeExecute => H.AtExecute
    case AtExecute => H.AtAfterExecute
    case AtAfterExecute => H.AtBeforePublish
    case _ => H.AtPublish
  }

  function Distance(pc: H.Pc): nat {
    match pc
    case AtStart => 7
    case AtClaim => 6
    case AtAfterClaim => 5
    case AtBeforeExecute => 4
    case AtExecute => 3
    case AtAfterExecute => 2
    case AtBeforePublish => 1
    case _ => 0
  }

  /** A new row, no result taken yet, and one call for it that is on its way to publishing. */
  ghost predicate Underway(w: World, id: Id, maxRetries: nat, pc: H.Pc) {
    && id in w.db.rows && w.db.rows[id].maxRetries == maxRetries && w.db.rows[id].retryCount == 0
    && w.resultStore == map[] && w.taken == []
    && 0 in w.worker.calls && OnItsWay(w.worker.shared, w.worker.calls[0], id, pc)
  }

  lemma SolidId(id: Id)
    requires !Blank(id)
    ensures TrimSpace(id) != [] && TrimSpace("t") != []
    ensures H.KeyOf(H.Event(id, "t", 0, 0)).Ok? && H.ValidTask(H.Event(id, "t", 0, 0))
  {
    var i, j := TrimShape(id, GoSpace);
    var a, b := TrimShape(id, PySpace);
    assert PySpace(id[a]) || a >= i;
    TrimUnique("t", GoSpace, 0, 1);
  }

  /** A call that nothing has stopped, with no faults left to stop it. */
  ghost predicate OnItsWay(sh: H.Shared, call: H.Call, id: Id, pc: H.Pc) {
    && sh.injector.count == 0
    && call.event == H.Event(id, "t", 0, 0) && call.pc == pc
    && (pc.AtStart? || pc.AtClaim? ==> sh.store == map[])
    && (pc.AtAfterExecute? || pc.AtBeforePublish? || pc.AtPublish? ==> call.answer == Some(Retryable))
  }

  lemma CallOnward(cfg: Settings, sh: H.Shared, call: H.Call, id: Id, pc: H.Pc)
    requires OnItsWay(sh, call, id, pc) && Distance(pc) > 0 && cfg.worker.hasExecutor && cfg.worker.hasProducer
    requires H.KeyOf(H.Event(id, "t", 0, 0)).Ok? && H.ValidTask(H.Event(id, "t", 0, 0))
    ensures H.Stages(call)
    ensures var r := H.StepCall(cfg.worker, sh, 0, call, Calm);
      OnItsWay(r.0, r.1, id, Onward(cfg, pc))
  {
    hide H.KeyOf, H.ValidTask;
  }

  lemma WorkOnce(cfg: Settings, w: World, id: Id, maxRetries: nat, pc: H.Pc)
    requires Underway(w, id, maxRetries, pc) && Distance(pc) > 0 && !Blank(id) && cfg.worker.hasExecutor && cfg.worker.hasProducer
    ensures Underway(Apply(cfg, w, Work(0, Calm, false)), id, maxRetries, Onward(cfg, pc))
  {
    SolidId(id);
    WorkShape(cfg, w, 0, Calm, false);
    hide Blank, TrimSpace, H.KeyOf, H.ValidTask, H.StepCall, Apply, OnItsWay, Onward, Distance;
    CallOnward(cfg, w.worker.shared, w.worker.calls[0], id, pc);
  }

  lemma WorkLast(cfg: Settings, w: World, id: Id, maxRetries: nat)
    requires Underway(w, id, maxRetries, H.AtPublish)
    ensures Reached(cfg, Apply(cfg, w, Work(0, Calm, false)), id, maxRetries, 0)
  {
    WorkShape(cfg, w, 0, Calm, false);
    hide Apply, H.Apply;
  }

  lemma {:induction false} WorkAll(cfg: Settings, w: World, id: Id, maxRetries: nat, pc: H.Pc, n: nat) returns (steps: seq<Step>)
    requires Underway(w, id, maxRetries, pc) && (Distance(pc) > 0 || pc.AtPublish?)
    requires n <= maxRetries && !Blank(id) && cfg.worker.hasExecutor && cfg.worker.hasProducer
    ensures GetsTo(cfg, w, steps, id, maxRetries, n)
    decreases Distance(pc)
  {
    var step, rest := Work(0, Calm, false), [];
    assert Enabled(w, step);
    if pc.AtPublish? {
      WorkLast(cfg, w, id, maxRetries);
      hide Apply, Blank, Enabled, GetsTo, Underway;
      rest := ConsumeAll(cfg, Apply(cfg, w, step), id, maxRetries, 0, n);
      Prepend(cfg, w, step, rest, id, maxRetries, n);
    } else {
      WorkOnce(cfg, w, id, maxRetries, pc);
      hide Apply, Blank, Enabled, GetsTo, Underway;
      rest := WorkAll(cfg, Apply(cfg, w, step), id, maxRetries, Onward(cfg, pc), n);
      Prepend(cfg, w, step, rest, id, maxRetries, n);
    }
    steps := [step] + rest;
  }

  lemma DeliverOnce(cfg: Settings, id: Id, maxRetries: nat) returns (w1: World, w2: World, w3: World)
    requires !Blank(id) && cfg.worker.hasExecutor
    ensures var w0, e := Initial(H.Injector(H.BeforeClaim, false, 0)), Dispatch.Dispatch(id, "t", 0);
      var create := Database(B.Create(id, "t", 0, J.Queued, maxRetries, 0));
      && Enabled(w0, create) && w1 == Apply(cfg, w0, create)
      && Enabled(w1, Publish(e, 0, 1, 0.0, true)) && w2 == Apply(cfg, w1, Publish(e, 0, 1, 0.0, true))
      && Enabled(w2, Deliver(0, e)) && w3 == Apply(cfg, w2, Deliver(0, e))
      && Underway(w3, id, maxRetries, H.AtStart)
  {
    hide Blank;
    var e := Dispatch.Dispatch(id, "t", 0);
    w1 := Apply(cfg, Initial(H.Injector(H.BeforeClaim, false, 0)), Database(B.Create(id, "t", 0, J.Queued, maxRetries, 0)));
    w2 := Apply(cfg, w1, Publish(e, 0, 1, 0.0, true));
    w3 := Apply(cfg, w2, Deliver(0, e));
  }

  /**
    The bound is reached: for every job, every limit and every n up to it, some run of the pipeline
    executes the job once and then takes that one result at 0, ttl, 2 ttl, ..., granting n retries.
   */
  lemma RetriesGetThere(cfg: Settings, id: Id, maxRetries: nat, n: nat) returns (steps: seq<Step>)
    requires !Blank(id) && n <= maxRetries && cfg.worker.hasExecutor && cfg.worker.hasProducer
    ensures GetsTo(cfg, Initial(H.Injector(H.BeforeClaim, false, 0)), steps, id, maxRetries, n)
  {
    var w0, e := Initial(H.Injector(H.BeforeClaim, false, 0)), Dispatch.Dispatch(id, "t", 0);
    var w1, w2, w3 := DeliverOnce(cfg, id, maxRetries);
    hide Apply, Blank, Enabled, GetsTo, Underway, Initial;
    var rest := WorkAll(cfg, w3, id, maxRetries, H.AtStart, n);
    Prepend(cfg, w2, Deliver(0, e), rest, id, maxRetries, n);
    steps := [Deliver(0, e)] + rest;
    Prepend(cfg, w1, Publish(e, 0, 1, 0.0, true), steps, id, maxRetries, n);
    steps := [Publish(e, 0, 1, 0.0, true)] + steps;
    var create := Database(B.Create(id, "t", 0, J.Queued, maxRetries, 0));
    Prepend(cfg, w0, create, steps, id, maxRetries, n);
    steps := [create] + steps;
  }
}
