/** Consuming worker results: claim the result key, then apply the outcome to the job's row. */
module ResultConsumer {
  import opened Wrappers
  import opened Text
  import opened IdempotencyKeys
  import opened BatchedSelection
  import opened JobRepository
  import opened ClaimStore
  import DispatchBudget

  datatype ResultStatus = Succeeded | RetryableFailure | TerminalFailure

  /** A result event as decoded from the topic; a missing attempt decodes as 0. */
  datatype ResultEvent = ResultEvent(jobId: string, status: ResultStatus, attempt: int)

  /** parse_worker_result_event on a decodable message: blank ids and negative attempts are refused. */
  predicate Acceptable(e: ResultEvent) {
    !Blank(e.jobId) && e.attempt >= 0
  }

  const RETRY_DELAY_SECONDS := 60

  /** ResultStateHandler.handle, as a step on the table. */
  function HandlerStep(e: ResultEvent, now: int): DispatchBudget.Step {
    match e.status
    case Succeeded => DispatchBudget.WorkerWrite(e.jobId, true, now)
    case TerminalFailure => DispatchBudget.WorkerWrite(e.jobId, false, now)
    case RetryableFailure => DispatchBudget.WorkerRetry(e.jobId, RETRY_DELAY_SECONDS, now)
  }

  /**
    What a result does to an existing job: succeeded and failed are written as they are; a retryable
    failure schedules a retry a minute later and counts it, or dead-letters a job that is out of
    retries.  No other row and no other field changes.
   */
  ghost predicate Applied(rows: Table, rows': Table, e: ResultEvent, now: int)
    requires e.jobId in rows
  {
    var row := rows[e.jobId];
    && rows'.Keys == rows.Keys
    && (forall id :: id in rows && id != e.jobId ==> rows'[id] == rows[id])
    && rows'[e.jobId] ==
         match e.status
         case Succeeded => row.(state := State.Succeeded, updatedAt := now)
         case TerminalFailure => row.(state := State.Failed, updatedAt := now)
         case RetryableFailure =>
           if row.retryCount < row.maxRetries
           then row.(state := State.RetryScheduled, retryCount := row.retryCount + 1, retryAfter := Some(now + 60), updatedAt := now)
           else row.(state := State.DeadLettered, updatedAt := now)
  }

  /** The table step of a result does exactly that, and nothing to a table without the job. */
  lemma HandlerStepMeans(db: DispatchBudget.Db, e: ResultEvent, now: int)
    ensures e.jobId in db.rows ==> Applied(db.rows, DispatchBudget.Apply(db, HandlerStep(e, now)).rows, e, now)
    ensures e.jobId !in db.rows ==> DispatchBudget.Apply(db, HandlerStep(e, now)) == db
  {
  }

  function ResultKey(e: ResultEvent): string
    requires Acceptable(e)
  {
    Compose(Prefix(WorkerResult), Strip(e.jobId), e.attempt)
  }

  /** It is the key that the key builder makes, and an event is acceptable exactly when the builder accepts it. */
  lemma ResultKeyIsStageKey(e: ResultEvent)
    ensures Acceptable(e) <==> StageKey(WorkerResult, e.jobId, e.attempt).Ok?
    ensures Acceptable(e) ==> StageKey(WorkerResult, e.jobId, e.attempt) == Ok(ResultKey(e))
  {
  }

  datatype ConsumeError = InvalidMessage | InvalidTtl | JobNotFound

  class ResultConsumerRunner {
    const store: InMemoryIdempotencyStore
    const repo: JobRepository
    const ttl: int
    var processed: nat
    var duplicates: nat

    constructor (store: InMemoryIdempotencyStore, repo: JobRepository, ttl: int)
      ensures this.store == store && this.repo == repo && this.ttl == ttl && processed == 0 && duplicates == 0
    {
      this.store, this.repo, this.ttl := store, repo, ttl;
      processed, duplicates := 0, 0;
    }

    method Handle(e: ResultEvent, now: int) returns (found: bool)
      modifies repo
      ensures found <==> e.jobId in old(repo.rows)
      ensures found ==> Applied(old(repo.rows), repo.rows, e, now)
      ensures !found ==> repo.rows == old(repo.rows)
      ensures repo.rows == DispatchBudget.Apply(DispatchBudget.Db(old(repo.rows), map[]), HandlerStep(e, now)).rows
    {
      if e.status.RetryableFailure? {
        var r := repo.ScheduleRetry(e.jobId, RETRY_DELAY_SECONDS, now);
        return r.Some?;
      }
      var r := repo.UpdateJobState(e.jobId, if e.status.Succeeded? then State.Succeeded else State.Failed, now);
      return r.Some?;
    }

    /**
      Claim before handling.  A duplicate changes nothing but its counter.  A granted message moves the
      row as its status says; if the job is missing the claim stays taken and the message counts as neither.
     */
    method ProcessMessage(msg: Option<ResultEvent>, clock: real, now: int) returns (r: Result<(), ConsumeError>)
      modifies this, store, repo
      ensures msg.None? || !Acceptable(msg.value) ==> r == Err(InvalidMessage)
      ensures r.Err? && !r.error.JobNotFound? ==>
        repo.rows == old(repo.rows) && store.expiryByKey == old(store.expiryByKey)
        && processed == old(processed) && duplicates == old(duplicates)
      ensures msg.Some? && Acceptable(msg.value) && ttl > 0 ==>
        var key, free := ResultKey(msg.value), Free(old(store.expiryByKey), ResultKey(msg.value), clock);
        && store.expiryByKey == Claimed(old(store.expiryByKey), key, ttl, clock)
        && (r == Err(JobNotFound) <==> free && msg.value.jobId !in old(repo.rows))
        && (free && msg.value.jobId in old(repo.rows) ==> Applied(old(repo.rows), repo.rows, msg.value, now))
        && (r.Ok? <==> !free || msg.value.jobId in old(repo.rows))
        && duplicates == old(duplicates) + (if free then 0 else 1)
        && processed == old(processed) + (if free && r.Ok? then 1 else 0)
        && repo.rows == (if free
             then DispatchBudget.Apply(DispatchBudget.Db(old(repo.rows), map[]), HandlerStep(msg.value, now)).rows
             else old(repo.rows))
    {
      if msg.None? || !Acceptable(msg.value) {
        return Err(InvalidMessage);
      }
      var event := msg.value;
      SolidKey(event);
      hide ResultKey, Acceptable, Blank, DispatchBudget.Apply, HandlerStep, Applied;
      var mine := store.TryClaim(ResultKey(event), ttl, clock);
      if mine.Err? {
        return Err(InvalidTtl);
      }
      if !mine.value {
        duplicates := duplicates + 1;
        return Ok(());
      }
      var found := Handle(event, now);
      if !found {
        return Err(JobNotFound);
      }
      processed := processed + 1;
      return Ok(());
    }
  }

  lemma SolidKey(e: ResultEvent)
    requires Acceptable(e)
    ensures !Blank(ResultKey(e))
  {
    var key := ResultKey(e);
    ComposeHead(WorkerResult, Strip(e.jobId), e.attempt);
    assert !PySpace(key[0]) && LeftEdge(key, PySpace, 0) == 0;
  }
}
