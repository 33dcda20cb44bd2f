/** The API's cancel and retry: read a row, check the transition, write the new state. */
module JobApi {
  import opened Wrappers
  import opened BatchedSelection
  import opened JobRepository
  import opened DispatchBudget

  datatype ApiError = NotFound | Conflict

  lemma TwoSteps(db: Db, a: Step, b: Step)
    ensures Run(db, [a, b]) == Apply(Apply(db, a), b)
  {
    assert [a, b][1..] == [b] && [b][1..] == [];
    assert Run(Apply(db, a), [b]) == Run(Apply(Apply(db, a), b), []);
  }

  /** With no one else writing between its read and its write, a request is its two steps in a row. */
  method ChangeState(repo: JobRepository, id: Id, cancel: bool, now: int) returns (r: Result<Row, ApiError>)
    modifies repo
    ensures repo.rows == Run(Db(old(repo.rows), map[]), [ApiRead(0, id, cancel), ApiWrite(0, now)]).rows
    ensures r.Ok? ==> id in repo.rows && r.value == repo.rows[id]
    ensures r == Err(NotFound) <==> id !in old(repo.rows)
    ensures r.Ok? <==>
      id in old(repo.rows) &&
      var state := old(repo.rows)[id].state;
      if cancel then state in {Created, Queued, Running, RetryScheduled} else state == Failed
    ensures r.Ok? ==>
      && r.value == old(repo.rows)[id].(state := if cancel then Canceled else RetryScheduled, updatedAt := now)
      && repo.rows == old(repo.rows)[id := r.value]
    ensures r.Err? ==> repo.rows == old(repo.rows)
    ensures r.Ok? <==>
      id in old(repo.rows) && CanTransition(old(repo.rows)[id].state, if cancel then Canceled else RetryScheduled)
  {
    TwoSteps(Db(repo.rows, map[]), ApiRead(0, id, cancel), ApiWrite(0, now));
    var target := if cancel then Canceled else RetryScheduled;
    var current := repo.GetJob(id);
    if current.None? {
      return Err(NotFound);
    }
    if !CanTransition(current.value.state, target) {
      return Err(Conflict);
    }
    var updated := repo.UpdateJobState(id, target, now);
    if updated.None? {
      return Err(NotFound);
    }
    return Ok(updated.value);
  }
}
