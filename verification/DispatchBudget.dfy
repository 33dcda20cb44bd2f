/**
  Whole runs over the jobs table: scheduler claims, worker results, retry scans, operator replays
  and the API's read-then-write requests, in any interleaving.
 */
module DispatchBudget {
  import opened Wrappers
  import opened BatchedSelection
  import opened JobRepository

  /** What an API request decided to write after its read; its write comes as a separate step. */
  datatype Request = Request(id: Id, target: State)

  datatype Db = Db(rows: Table, pending: map<int, Request>)

  datatype Step =
    | Create(id: Id, tenant: string, priority: nat, state: State, maxRetries: nat, now: int)
    | Claim(ids: set<Id>, now: int)
    | Mark(id: Id, now: int)
    | WorkerWrite(id: Id, succeeded: bool, now: int)
    | WorkerRetry(id: Id, delay: int, now: int)
    | Scan(ids: set<Id>, now: int)
    | Replay(id: Id, now: int)
    | ApiRead(session: int, id: Id, cancel: bool)
    | ApiWrite(session: int, now: int)
    | Delete(id: Id)

  function Queueing(rows: Table, ids: set<Id>): set<Id> {
    set id | id in ids && id in rows && rows[id].state.Queued?
  }

  function DueAmong(rows: Table, ids: set<Id>, now: int): set<Id> {
    set id | id in ids && id in rows && Due(rows[id], now)
  }

  /** The row of `id` after a step on the table; a claim or scan takes any of the rows it may take. */
  function Apply(db: Db, step: Step): Db {
    match step
    case Create(id, tenant, priority, state, maxRetries, now) =>
      if id in db.rows then db else db.(rows := db.rows[id := NewRow(tenant, priority, state, maxRetries, now)])
    case Claim(ids, now) => db.(rows := ClaimRows(db.rows, Queueing(db.rows, ids), now))
    case Mark(id, now) => db.(rows := ClaimRows(db.rows, Queueing(db.rows, {id}), now))
    case WorkerWrite(id, succeeded, now) =>
      if id in db.rows
      then db.(rows := db.rows[id := WithState(db.rows[id], if succeeded then Succeeded else Failed, now)])
      else db
    case WorkerRetry(id, delay, now) =>
      if id in db.rows then db.(rows := db.rows[id := RetriedRow(db.rows[id], delay, now)]) else db
    case Scan(ids, now) => db.(rows := RequeueRows(db.rows, DueAmong(db.rows, ids, now), now))
    case Replay(id, now) =>
      if id in db.rows && db.rows[id].state.DeadLettered?
      then db.(rows := db.rows[id := ReplayedRow(db.rows[id], now)])
      else db
    case ApiRead(session, id, cancel) =>
      var target := if cancel then Canceled else RetryScheduled;
      if id in db.rows && CanTransition(db.rows[id].state, target)
      then db.(pending := db.pending[session := Request(id, target)])
      else db.(pending := db.pending - {session})
    case ApiWrite(session, now) =>
      if session !in db.pending then db
      else
        var req := db.pending[session];
        var db' := db.(pending := db.pending - {session});
        if req.id in db.rows
        then db'.(rows := db.rows[req.id := WithState(db.rows[req.id], req.target, now)])
        else db'
    case Delete(id) => db.(rows := db.rows - {id})
  }

  /** The repository's claim, scan and mark are steps of this machine. */
  lemma ClaimIsStep(db: Db, locked: set<Id>, limit: nat, batch: seq<Id>, now: int)
    requires Selects(ClaimKeys(db.rows, locked), limit, batch)
    ensures Apply(db, Claim(Members(batch), now)).rows == ClaimRows(db.rows, Members(batch), now)
  {
    assert Queueing(db.rows, Members(batch)) == Members(batch);
  }

  lemma ScanIsStep(db: Db, locked: set<Id>, limit: nat, batch: seq<Id>, now: int)
    requires Selects(DueKeys(db.rows, now, locked), limit, batch)
    ensures Apply(db, Scan(Members(batch), now)).rows == RequeueRows(db.rows, Members(batch), now)
  {
    assert DueAmong(db.rows, Members(batch), now) == Members(batch);
  }

  lemma ReplayIsStep(db: Db, id: Id, now: int)
    ensures Apply(db, Replay(id, now)).rows
      == if id in db.rows && db.rows[id].state.DeadLettered?
         then db.rows[id := db.rows[id].(state := Queued, retryAfter := None, updatedAt := now)] else db.rows
  {
  }

  lemma MarkIsStep(db: Db, id: Id, now: int)
    ensures Apply(db, Mark(id, now)).rows
      == if id in db.rows && db.rows[id].state.Queued? then db.rows[id := DispatchedRow(db.rows[id], now)] else db.rows
  {
    assert id in db.rows && db.rows[id].state.Queued? ==> Queueing(db.rows, {id}) == {id};
    assert !(id in db.rows && db.rows[id].state.Queued?) ==> Queueing(db.rows, {id}) == {};
  }

  function Run(db: Db, steps: seq<Step>): Db
    decreases steps
  {
    if steps == [] then db else Run(Apply(db, steps[0]), steps[1..])
  }

  // ----- What happened to one row -----

  datatype Count = Count(dispatches: nat, scheduled: nat, replays: nat, apiRetries: nat) {
    function Plus(c: Count): Count {
      Count(dispatches + c.dispatches, scheduled + c.scheduled, replays + c.replays, apiRetries + c.apiRetries)
    }
  }

  predicate InState(db: Db, id: Id, s: State) {
    id in db.rows && db.rows[id].state == s
  }

  /** Observed at the row, whatever the step: queued -> dispatched, a retry granted, a replay, an API retry written. */
  function Observe(db: Db, step: Step, id: Id): Count {
    Count(
      if InState(db, id, Queued) && InState(Apply(db, step), id, Dispatched) then 1 else 0,
      if step.WorkerRetry? && step.id == id && id in db.rows && db.rows[id].retryCount < db.rows[id].maxRetries then 1 else 0,
      if step.Replay? && step.id == id && InState(db, id, DeadLettered) then 1 else 0,
      if step.ApiWrite? && step.session in db.pending && db.pending[step.session] == Request(id, RetryScheduled) then 1 else 0)
  }

  function Observed(db: Db, steps: seq<Step>, id: Id): Count
    decreases steps
  {
    if steps == [] then Count(0, 0, 0, 0)
    else Observe(db, steps[0], id).Plus(Observed(Apply(db, steps[0]), steps[1..], id))
  }

  predicate Keeps(steps: seq<Step>, id: Id) {
    forall i :: 0 <= i < |steps| ==> steps[i] != Delete(id)
  }

  /** 1 while the row can still be dispatched without a new retry, replay or API request. */
  function Ready(db: Db, id: Id): nat {
    if InState(db, id, Queued) || InState(db, id, RetryScheduled) then 1 else 0
  }

  ghost predicate Bounded(db: Db, id: Id) {
    && id in db.rows && db.rows[id].retryCount <= db.rows[id].maxRetries
    && (forall s :: s in db.pending ==> db.pending[s].target.Canceled? || db.pending[s].target.RetryScheduled?)
  }

  /** One step: dispatches are paid for, the retry count follows the retries granted, and fixed fields stay. */
  lemma StepBudget(db: Db, step: Step, id: Id)
    requires Bounded(db, id) && step != Delete(id)
    ensures var db', seen := Apply(db, step), Observe(db, step, id);
      && Bounded(db', id)
      && seen.dispatches + Ready(db', id) <= Ready(db, id) + seen.scheduled + seen.replays + seen.apiRetries
      && db'.rows[id].retryCount == db.rows[id].retryCount + seen.scheduled
      && db'.rows[id].maxRetries == db.rows[id].maxRetries
      && db'.rows[id].createdAt == db.rows[id].createdAt
      && (db.rows[id].dispatchedAt.Some? ==> db'.rows[id].dispatchedAt == db.rows[id].dispatchedAt)
  {
  }

  /**
    Over any run that does not delete the row: dispatches are at most one, if it was ready, plus
    the retries granted, operator replays and API retries; the retry count is exactly the number
    of retries granted and never exceeds its maximum.
   */
  lemma {:induction false} RunBudget(db: Db, steps: seq<Step>, id: Id)
    requires Bounded(db, id) && Keeps(steps, id)
    ensures var db', seen := Run(db, steps), Observed(db, steps, id);
      && Bounded(db', id)
      && seen.dispatches + Ready(db', id) <= Ready(db, id) + seen.scheduled + seen.replays + seen.apiRetries
      && db'.rows[id].retryCount == db.rows[id].retryCount + seen.scheduled
      && db'.rows[id].maxRetries == db.rows[id].maxRetries
      && (db.rows[id].dispatchedAt.Some? ==> db'.rows[id].dispatchedAt == db.rows[id].dispatchedAt)
    decreases steps
  {
    if steps != [] {
      StepBudget(db, steps[0], id);
      RunBudget(Apply(db, steps[0]), steps[1..], id);
    }
  }

  /** The dispatch budget of a row created queued. */
  lemma CreatedRowBudget(db: Db, id: Id, tenant: string, priority: nat, maxRetries: nat, now: int, steps: seq<Step>)
    requires id !in db.rows && Keeps(steps, id)
    requires forall s :: s in db.pending ==> db.pending[s].target.Canceled? || db.pending[s].target.RetryScheduled?
    ensures var start := Apply(db, Create(id, tenant, priority, Queued, maxRetries, now));
      var end, seen := Run(start, steps), Observed(start, steps, id);
      && seen.dispatches <= 1 + maxRetries + seen.replays + seen.apiRetries
      && id in end.rows
      && end.rows[id].retryCount == seen.scheduled <= maxRetries
  {
    RunBudget(Apply(db, Create(id, tenant, priority, Queued, maxRetries, now)), steps, id);
  }

  /**
    Terminal states are left after all, and exactly by: a worker result of another kind, a retryable
    result (unless it finds a dead-lettered row out of retries), an operator replay of a dead-lettered
    row, or the late write of an API request that read the row earlier.
   */
  lemma TerminalLeft(db: Db, step: Step, id: Id)
    requires Bounded(db, id) && Terminal(db.rows[id].state) && step != Delete(id)
    ensures Bounded(Apply(db, step), id)
    ensures Apply(db, step).rows[id].state != db.rows[id].state <==>
      var row := db.rows[id];
      || (step.WorkerWrite? && step.id == id && !(step.succeeded && row.state.Succeeded?))
      || (step.WorkerRetry? && step.id == id && !(row.state.DeadLettered? && row.retryCount == row.maxRetries))
      || (step.Replay? && step.id == id && row.state.DeadLettered?)
      || (step.ApiWrite? && step.session in db.pending && db.pending[step.session].id == id
          && db.pending[step.session].target != row.state)
  {
    StepBudget(db, step, id);
  }

  lemma ThreeSteps(db: Db, a: Step, b: Step, c: Step)
    ensures Run(db, [a, b, c]) == Apply(Apply(Apply(db, a), b), c)
  {
    hide Apply;
    assert [a, b, c][1..] == [b, c] && [b, c][1..] == [c] && [c][1..] == [];
    var db2 := Apply(Apply(db, a), b);
    assert Run(db2, [c]) == Run(Apply(db2, c), []);
  }

  /**
    A succeeded job comes back: created, dispatched and reported succeeded, a stale retryable result of
    the same job puts its row into retry_scheduled, and a scan and a claim then dispatch it again.
   */
  lemma StaleResultRevives(id: Id, maxRetries: nat)
    requires maxRetries > 0
    ensures var done := Run(Db(map[], map[]), [Create(id, "t", 0, Queued, maxRetries, 0), Claim({id}, 1), WorkerWrite(id, true, 2)]);
      var again := Run(done, [WorkerRetry(id, 60, 4), Scan({id}, 64), Claim({id}, 65)]);
      && InState(done, id, Succeeded)
      && InState(Apply(done, WorkerRetry(id, 60, 4)), id, RetryScheduled)
      && InState(again, id, Dispatched)
  {
    var create := Create(id, "t", 0, Queued, maxRetries, 0);
    ThreeSteps(Db(map[], map[]), create, Claim({id}, 1), WorkerWrite(id, true, 2));
    var db1 := Apply(Db(map[], map[]), create);
    var db2 := Apply(db1, Claim({id}, 1));
    var done := Apply(db2, WorkerWrite(id, true, 2));
    assert InState(db2, id, Dispatched) && InState(done, id, Succeeded);
    ThreeSteps(done, WorkerRetry(id, 60, 4), Scan({id}, 64), Claim({id}, 65));
    var db3 := Apply(done, WorkerRetry(id, 60, 4));
    assert InState(db3, id, RetryScheduled) && Due(db3.rows[id], 64);
    var db4 := Apply(db3, Scan({id}, 64));
    assert InState(db4, id, Queued);
  }

  // ----- The budget is attained -----

  /** n rounds of: dispatched, reported retryable, due again. */
  function Rounds(id: Id, n: nat): seq<Step> {
    if n == 0 then [Claim({id}, 0)]
    else [Claim({id}, 0), WorkerRetry(id, 0, 0), Scan({id}, 0)] + Rounds(id, n - 1)
  }

  lemma ObservedCons(db: Db, step: Step, rest: seq<Step>, id: Id)
    ensures Observed(db, [step] + rest, id) == Observe(db, step, id).Plus(Observed(Apply(db, step), rest, id))
  {
    assert ([step] + rest)[1..] == rest;
  }

  lemma OneRound(db: Db, id: Id)
    requires InState(db, id, Queued) && db.rows[id].retryCount < db.rows[id].maxRetries
    ensures var db1 := Apply(db, Claim({id}, 0));
      var db2 := Apply(db1, WorkerRetry(id, 0, 0));
      var db3 := Apply(db2, Scan({id}, 0));
      && Observe(db, Claim({id}, 0), id) == Count(1, 0, 0, 0)
      && Observe(db1, WorkerRetry(id, 0, 0), id) == Count(0, 1, 0, 0)
      && Observe(db2, Scan({id}, 0), id) == Count(0, 0, 0, 0)
      && InState(db3, id, Queued)
      && db3.rows[id].retryCount == db.rows[id].retryCount + 1
      && db3.rows[id].maxRetries == db.rows[id].maxRetries
  {
    var db1 := Apply(db, Claim({id}, 0));
    assert InState(db1, id, Dispatched);
    var db2 := Apply(db1, WorkerRetry(id, 0, 0));
    assert InState(db2, id, RetryScheduled) && Due(db2.rows[id], 0);
  }

  lemma ObservedThree(db: Db, a: Step, b: Step, c: Step, rest: seq<Step>, id: Id)
    ensures var db1 := Apply(db, a);
      var db2 := Apply(db1, b);
      Observed(db, [a, b, c] + rest, id)
        == Observe(db, a, id).Plus(Observe(db1, b, id).Plus(Observe(db2, c, id).Plus(Observed(Apply(db2, c), rest, id))))
  {
    hide Apply, Observe;
    assert [a, b, c] + rest == [a] + ([b] + ([c] + rest));
    ObservedCons(db, a, [b] + ([c] + rest), id);
    ObservedCons(Apply(db, a), b, [c] + rest, id);
    ObservedCons(Apply(Apply(db, a), b), c, rest, id);
  }

  lemma {:induction false} RoundsKeep(id: Id, n: nat)
    ensures Keeps(Rounds(id, n), id)
  {
    if n > 0 {
      RoundsKeep(id, n - 1);
    }
  }

  lemma LastDispatch(db: Db, id: Id)
    requires InState(db, id, Queued)
    ensures Observed(db, [Claim({id}, 0)], id) == Count(1, 0, 0, 0)
  {
    var a := Claim({id}, 0);
    assert [a][1..] == [] && InState(Apply(db, a), id, Dispatched);
  }

  lemma {:induction false} RoundsDispatch(db: Db, id: Id, n: nat)
    requires InState(db, id, Queued) && db.rows[id].retryCount + n == db.rows[id].maxRetries
    ensures Observed(db, Rounds(id, n), id) == Count(n + 1, n, 0, 0)
    decreases n
  {
    hide Apply, Observe, Observed;
    var a, b, c := Claim({id}, 0), WorkerRetry(id, 0, 0), Scan({id}, 0);
    if n == 0 {
      LastDispatch(db, id);
    } else {
      OneRound(db, id);
      ObservedThree(db, a, b, c, Rounds(id, n - 1), id);
      RoundsDispatch(Apply(Apply(Apply(db, a), b), c), id, n - 1);
    }
  }

  /** For every retry limit some run dispatches the row exactly 1 + maxRetries times with no replay or API retry. */
  lemma BudgetAttained(id: Id, maxRetries: nat)
    ensures var start := Apply(Db(map[], map[]), Create(id, "t", 0, Queued, maxRetries, 0));
      Keeps(Rounds(id, maxRetries), id) && Observed(start, Rounds(id, maxRetries), id) == Count(maxRetries + 1, maxRetries, 0, 0)
  {
    RoundsKeep(id, maxRetries);
    RoundsDispatch(Apply(Db(map[], map[]), Create(id, "t", 0, Queued, maxRetries, 0)), id, maxRetries);
  }
}
