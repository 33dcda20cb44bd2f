/**
  The jobs table and the row-level effect of each repository statement.  Each statement is one
  atomic step; NOW() and time.time() are parameters.  A selection with SKIP LOCKED is given the
  rows other sessions hold locked.
 */
module JobRepository {
  import opened Wrappers
  import opened BatchedSelection
  import Arithmetic

  datatype State =
    | Created | Queued | Dispatched | Running | Succeeded | Failed | RetryScheduled | DeadLettered | Canceled

  predicate Terminal(s: State) {
    s.Succeeded? || s.DeadLettered? || s.Canceled?
  }

  predicate Allowed(from: State, to: State) {
    match from
    case Created => to.Queued? || to.Canceled?
    case Queued => to.Dispatched? || to.Canceled?
    case Dispatched => to.Running? || to.Queued?
    case Running => to.Succeeded? || to.Failed? || to.Canceled?
    case RetryScheduled => to.Queued? || to.Canceled?
    case Failed => to.RetryScheduled? || to.DeadLettered?
    case _ => false
  }

  predicate CanTransition(from: State, to: State) {
    !Terminal(from) && Allowed(from, to)
  }

  datatype Row = Row(
    tenant: string,
    priority: nat,
    state: State,
    retryCount: nat,
    maxRetries: nat,
    createdAt: int,
    updatedAt: int,
    dispatchedAt: Option<int>,
    retryAfter: Option<int>)

  type Table = map<Id, Row>

  // ----- Row effects -----

  function NewRow(tenant: string, priority: nat, state: State, maxRetries: nat, now: int): Row {
    Row(tenant, priority, state, 0, maxRetries, now, now, None, None)
  }

  function WithState(row: Row, state: State, now: int): Row {
    row.(state := state, updatedAt := now)
  }

  /** queued -> dispatched; dispatched_at = COALESCE(dispatched_at, NOW()). */
  function DispatchedRow(row: Row, now: int): Row {
    row.(state := Dispatched, updatedAt := now,
         dispatchedAt := if row.dispatchedAt.Some? then row.dispatchedAt else Some(now))
  }

  /** Only the state and the times change, and the first dispatch time is the one kept. */
  predicate IsDispatch(before: Row, after: Row, now: int) {
    && after.state == Dispatched && after.updatedAt == now
    && (before.dispatchedAt.None? ==> after.dispatchedAt == Some(now))
    && (before.dispatchedAt.Some? ==> after.dispatchedAt == before.dispatchedAt)
    && after.(state := before.state, updatedAt := before.updatedAt, dispatchedAt := before.dispatchedAt) == before
  }

  /** The CASE expressions of schedule_retry_from_worker_result. */
  function RetriedRow(row: Row, delay: int, now: int): Row {
    if row.retryCount < row.maxRetries
    then row.(retryCount := row.retryCount + 1, state := RetryScheduled, retryAfter := Some(now + delay), updatedAt := now)
    else row.(state := DeadLettered, updatedAt := now)
  }

  function ReplayedRow(row: Row, now: int): Row {
    row.(state := Queued, retryAfter := None, updatedAt := now)
  }

  predicate Due(row: Row, now: int) {
    row.state.RetryScheduled? && row.retryAfter.Some? && row.retryAfter.value <= now
  }

  /** Moves the named rows; names without a row are ignored. */
  function ClaimRows(rows: Table, ids: set<Id>, now: int): (rows': Table)
    ensures rows'.Keys == rows.Keys
  {
    map id | id in rows :: if id in ids then DispatchedRow(rows[id], now) else rows[id]
  }

  function RequeueRows(rows: Table, ids: set<Id>, now: int): (rows': Table)
    ensures rows'.Keys == rows.Keys
  {
    map id | id in rows :: if id in ids then WithState(rows[id], Queued, now) else rows[id]
  }

  /** Sort keys of the rows a claim may take: priority DESC, created_at ASC. */
  function ClaimKeys(rows: Table, locked: set<Id>): map<Id, Key> {
    map id | id in rows && rows[id].state.Queued? && id !in locked :: (0 - rows[id].priority, rows[id].createdAt)
  }

  /** Sort keys of the rows a retry scan may take: retry_after ASC, created_at ASC. */
  function DueKeys(rows: Table, now: int, locked: set<Id>): map<Id, Key> {
    map id | id in rows && Due(rows[id], now) && id !in locked :: (rows[id].retryAfter.value, rows[id].createdAt)
  }

  // ----- What the selections mean on the rows -----

  /** Scheduling order: higher priority first, then older. */
  predicate Sooner(a: Row, b: Row) {
    a.priority > b.priority || (a.priority == b.priority && a.createdAt <= b.createdAt)
  }

  /** Retry order: earlier retry_after first, then older. */
  predicate DueSooner(a: Row, b: Row) {
    && a.retryAfter.Some? && b.retryAfter.Some?
    && ( a.retryAfter.value < b.retryAfter.value
      || (a.retryAfter.value == b.retryAfter.value && a.createdAt <= b.createdAt))
  }

  function QueuedIds(rows: Table, locked: set<Id>): set<Id> {
    set id | id in rows && rows[id].state == Queued && id !in locked
  }

  function DueIds(rows: Table, now: int, locked: set<Id>): set<Id> {
    set id | id in rows && rows[id].state == RetryScheduled && rows[id].retryAfter.Some? && rows[id].retryAfter.value <= now && id !in locked
  }

  function WaitingIds(rows: Table): set<Id> {
    set id | id in rows && rows[id].state == RetryScheduled && rows[id].retryAfter.Some?
  }

  /** The ids are among those eligible, each once, ordered by `sooner`, and ahead of every eligible row left out. */
  ghost predicate First(rows: Table, eligible: set<Id>, sooner: (Row, Row) -> bool, ids: seq<Id>)
    requires eligible <= rows.Keys
  {
    && Distinct(ids)
    && (forall x :: x in ids ==> x in eligible)
    && (forall i, j :: 0 <= i < j < |ids| && ids[i] in eligible && ids[j] in eligible ==> sooner(rows[ids[i]], rows[ids[j]]))
    && (forall x, y :: x in ids && x in eligible && y in eligible && y !in ids ==> sooner(rows[x], rows[y]))
  }

  lemma ClaimKeysMean(rows: Table, locked: set<Id>, x: Id, y: Id)
    ensures ClaimKeys(rows, locked).Keys == QueuedIds(rows, locked)
    ensures Sorts(ClaimKeys(rows, locked), x, y) ==> x in rows && y in rows && Sooner(rows[x], rows[y])
  {
  }

  /** A prefix in key order is, on the rows, a prefix in scheduling order. */
  lemma PrefixOfQueue(rows: Table, locked: set<Id>, ids: seq<Id>, size: nat)
    requires SortedPrefix(ClaimKeys(rows, locked), ids, size)
    ensures First(rows, QueuedIds(rows, locked), Sooner, ids)
  {
    var keys := ClaimKeys(rows, locked);
    ClaimKeysMean(rows, locked, "", "");
    forall x, y ensures Sorts(keys, x, y) ==> x in rows && y in rows && Sooner(rows[x], rows[y]) {
      ClaimKeysMean(rows, locked, x, y);
    }
    hide ClaimKeys, QueuedIds, Sorts, Sooner;
    assert forall i, j :: 0 <= i < j < |ids| ==> Sorts(keys, ids[i], ids[j]);
  }

  lemma PrefixOfRetries(rows: Table, ids: seq<Id>, size: nat)
    requires SortedPrefix(WaitKeys(rows), ids, size)
    ensures First(rows, WaitKeys(rows).Keys, DueSooner, ids)
  {
    var keys := WaitKeys(rows);
    assert forall x, y :: Sorts(keys, x, y) ==> DueSooner(rows[x], rows[y]);
    hide WaitKeys, Sorts, DueSooner;
    assert forall i, j :: 0 <= i < j < |ids| ==> Sorts(keys, ids[i], ids[j]);
  }

  lemma DueKeysMean(rows: Table, now: int, locked: set<Id>, x: Id, y: Id)
    ensures DueKeys(rows, now, locked).Keys == DueIds(rows, now, locked)
    ensures Sorts(DueKeys(rows, now, locked), x, y) ==> x in rows && y in rows && DueSooner(rows[x], rows[y])
  {
  }

  lemma PrefixOfDue(rows: Table, now: int, locked: set<Id>, ids: seq<Id>, size: nat)
    requires SortedPrefix(DueKeys(rows, now, locked), ids, size)
    ensures First(rows, DueIds(rows, now, locked), DueSooner, ids)
  {
    var keys := DueKeys(rows, now, locked);
    DueKeysMean(rows, now, locked, "", "");
    forall x, y ensures Sorts(keys, x, y) ==> x in rows && y in rows && DueSooner(rows[x], rows[y]) {
      DueKeysMean(rows, now, locked, x, y);
    }
    hide DueKeys, DueIds, Sorts, DueSooner;
    assert forall i, j :: 0 <= i < j < |ids| ==> Sorts(keys, ids[i], ids[j]);
  }

  lemma SelectsPrefix(keys: map<Id, Key>, limit: nat, batch: seq<Id>)
    requires Selects(keys, limit, batch)
    ensures SortedPrefix(keys, batch, Min(limit, |keys.Keys|))
  {
    assert |keys| == |keys.Keys|;
  }

  datatype RepositoryError = LimitNotPositive | DuplicateJob

  datatype RetryOutcome = RetryOutcome(scheduled: bool, row: Row)

  class JobRepository {
    var rows: Table

    constructor ()
      ensures rows == map[]
    {
      rows := map[];
    }

    method CreateJob(id: Id, tenant: string, priority: nat, state: State, maxRetries: nat, now: int)
      returns (r: Result<Row, RepositoryError>)
      modifies this
      ensures id in old(rows) ==> r == Err(DuplicateJob) && rows == old(rows)
      ensures id !in old(rows) ==>
        r == Ok(NewRow(tenant, priority, state, maxRetries, now)) && rows == old(rows)[id := r.value]
      ensures r.Ok? ==> r.value == Row(tenant, priority, state, 0, maxRetries, now, now, None, None)
    {
      if id in rows {
        return Err(DuplicateJob);
      }
      rows := rows[id := NewRow(tenant, priority, state, maxRetries, now)];
      return Ok(rows[id]);
    }

    method GetJob(id: Id) returns (r: Option<Row>)
      ensures r.Some? <==> id in rows
      ensures r.Some? ==> r.value == rows[id]
    {
      r := if id in rows then Some(rows[id]) else None;
    }

    /** update_job_state and update_job_state_from_worker_result: no guard on the current state. */
    method UpdateJobState(id: Id, state: State, now: int) returns (r: Option<Row>)
      modifies this
      ensures r.Some? <==> id in old(rows)
      ensures r.None? ==> rows == old(rows)
      ensures r.Some? ==> r.value == WithState(old(rows)[id], state, now) && rows == old(rows)[id := r.value]
      ensures r.Some? ==> r.value == old(rows)[id].(state := state, updatedAt := now)
    {
      if id !in rows {
        return None;
      }
      rows := rows[id := rows[id].(state := state, updatedAt := now)];
      return Some(rows[id]);
    }

    method ScheduleRetry(id: Id, delay: int, now: int) returns (r: Option<RetryOutcome>)
      modifies this
      ensures r.Some? <==> id in old(rows)
      ensures r.None? ==> rows == old(rows)
      ensures r.Some? ==>
        && r.value.scheduled == (old(rows)[id].retryCount < old(rows)[id].maxRetries)
        && r.value.row == RetriedRow(old(rows)[id], delay, now)
        && rows == old(rows)[id := r.value.row]
      ensures r.Some? && r.value.scheduled ==>
        var row := old(rows)[id];
        r.value.row == row.(state := RetryScheduled, retryCount := row.retryCount + 1, retryAfter := Some(now + delay), updatedAt := now)
      ensures r.Some? && !r.value.scheduled ==> r.value.row == old(rows)[id].(state := DeadLettered, updatedAt := now)
    {
      if id !in rows {
        return None;
      }
      var row := rows[id];
      if row.retryCount < row.maxRetries {
        row := row.(retryCount := row.retryCount + 1, state := RetryScheduled, retryAfter := Some(now + delay));
      } else {
        row := row.(state := DeadLettered);
      }
      row := row.(updatedAt := now);
      rows := rows[id := row];
      return Some(RetryOutcome(row.state.RetryScheduled?, row));
    }

    method RequeueDueRetries(now: int, limit: int, locked: set<Id>) returns (r: Result<seq<Id>, RepositoryError>)
      modifies this
      ensures r.Err? <==> limit <= 0
      ensures r.Err? ==> rows == old(rows)
      ensures r.Ok? ==>
        && Selects(DueKeys(old(rows), now, locked), limit, r.value)
        && rows == RequeueRows(old(rows), Members(r.value), now)
      ensures r.Ok? ==>
        && First(old(rows), DueIds(old(rows), now, locked), DueSooner, r.value)
        && |r.value| == Min(limit, |DueIds(old(rows), now, locked)|)
        && rows.Keys == old(rows).Keys
        && forall id :: id in rows ==>
             rows[id] == if id in r.value then old(rows)[id].(state := Queued, updatedAt := now) else old(rows)[id]
    {
      if limit <= 0 {
        return Err(LimitNotPositive);
      }
      var batch := Select(DueKeys(rows, now, locked), limit);
      SelectsPrefix(DueKeys(rows, now, locked), limit, batch);
      PrefixOfDue(rows, now, locked, batch, Min(limit, |DueKeys(rows, now, locked).Keys|));
      DueKeysMean(rows, now, locked, "", "");
      hide First, DueIds, DueKeys, Selects, SortedPrefix, DueSooner;
      rows := map id | id in rows :: if id in batch then WithState(rows[id], Queued, now) else rows[id];
      return Ok(batch);
    }

    method DeleteJob(id: Id) returns (deleted: bool)
      modifies this
      ensures deleted <==> id in old(rows)
      ensures rows == old(rows) - {id}
    {
      deleted := id in rows;
      rows := rows - {id};
    }

    method ListSchedulableJobs(limit: nat) returns (batch: seq<Id>)
      ensures Selects(ClaimKeys(rows, {}), limit, batch)
      ensures First(rows, QueuedIds(rows, {}), Sooner, batch) && |batch| == Min(limit, |QueuedIds(rows, {})|)
    {
      batch := Select(ClaimKeys(rows, {}), limit);
      SelectsPrefix(ClaimKeys(rows, {}), limit, batch);
      PrefixOfQueue(rows, {}, batch, Min(limit, |ClaimKeys(rows, {}).Keys|));
      ClaimKeysMean(rows, {}, "", "");
    }

    method RequeueDeadLetteredJob(id: Id, now: int) returns (updated: bool)
      modifies this
      ensures updated <==> id in old(rows) && old(rows)[id].state.DeadLettered?
      ensures rows == if updated then old(rows)[id := ReplayedRow(old(rows)[id], now)] else old(rows)
      ensures updated ==> rows[id] == old(rows)[id].(state := Queued, retryAfter := None, updatedAt := now)
    {
      if id !in rows || !rows[id].state.DeadLettered? {
        return false;
      }
      rows := rows[id := rows[id].(state := Queued, retryAfter := None, updatedAt := now)];
      return true;
    }

    method MarkJobDispatched(id: Id, now: int) returns (r: Option<Row>)
      modifies this
      ensures r.Some? <==> id in old(rows) && old(rows)[id].state.Queued?
      ensures r.None? ==> rows == old(rows)
      ensures r.Some? ==> r.value == DispatchedRow(old(rows)[id], now) && rows == old(rows)[id := r.value]
      ensures r.Some? ==> IsDispatch(old(rows)[id], r.value, now)
    {
      var current := GetJob(id);
      if current.None? || !current.value.state.Queued? {
        return None;
      }
      rows := rows[id := DispatchedRow(rows[id], now)];
      return Some(rows[id]);
    }

    /** One transaction: lock the first `limit` queued rows nobody else holds, and dispatch them. */
    method ClaimSchedulableJobs(limit: int, now: int, locked: set<Id>) returns (r: Result<seq<Id>, RepositoryError>)
      modifies this
      ensures r.Err? <==> limit <= 0
      ensures r.Err? ==> rows == old(rows)
      ensures r.Ok? ==>
        && Selects(ClaimKeys(old(rows), locked), limit, r.value)
        && rows == ClaimRows(old(rows), Members(r.value), now)
      ensures r.Ok? ==>
        && First(old(rows), QueuedIds(old(rows), locked), Sooner, r.value)
        && |r.value| == Min(limit, |QueuedIds(old(rows), locked)|)
        && rows.Keys == old(rows).Keys
        && forall id :: id in rows ==>
             if id in r.value then IsDispatch(old(rows)[id], rows[id], now) else rows[id] == old(rows)[id]
    {
      if limit <= 0 {
        return Err(LimitNotPositive);
      }
      var batch := Select(ClaimKeys(rows, locked), limit);
      SelectsPrefix(ClaimKeys(rows, locked), limit, batch);
      PrefixOfQueue(rows, locked, batch, Min(limit, |ClaimKeys(rows, locked).Keys|));
      ClaimKeysMean(rows, locked, "", "");
      hide First, QueuedIds, ClaimKeys, Selects, SortedPrefix, Sooner;
      rows := map id | id in rows :: if id in batch then DispatchedRow(rows[id], now) else rows[id];
      return Ok(batch);
    }
  }

  // ----- Draining the queue, and the due retries, by batches -----

  /** Claims in sequence with no other writer: batch i is claimed at times[i]. */
  ghost predicate Claims(rows: Table, limit: nat, batches: seq<seq<Id>>, times: seq<int>)
    requires |times| == |batches|
    decreases batches
  {
    batches == [] ||
    ( Selects(ClaimKeys(rows, {}), limit, batches[0])
      && Claims(ClaimRows(rows, Members(batches[0]), times[0]), limit, batches[1..], times[1..]))
  }

  /** Claimed rows leave the queue and nothing else about it changes. */
  lemma ClaimLeaves(rows: Table, batch: seq<Id>, now: int)
    ensures ClaimKeys(ClaimRows(rows, Members(batch), now), {}) == Remaining(ClaimKeys(rows, {}), batch)
  {
  }

  lemma {:induction false} ClaimsDrain(rows: Table, limit: nat, batches: seq<seq<Id>>, times: seq<int>)
    requires |times| == |batches| && Claims(rows, limit, batches, times)
    ensures Drain(ClaimKeys(rows, {}), limit, batches)
    decreases batches
  {
    if batches != [] {
      hide ClaimKeys, ClaimRows, Selects;
      var rows' := ClaimRows(rows, Members(batches[0]), times[0]);
      ClaimsDrain(rows', limit, batches[1..], times[1..]);
      ClaimLeaves(rows, batches[0], times[0]);
    }
  }

  /**
    Batched claims drain the queue in scheduling order: their concatenation lists queued rows by
    priority descending then age, ahead of every row left, and k rows take exactly ceil(k/limit)
    claims.
   */
  lemma ClaimsAreSorted(rows: Table, limit: nat, batches: seq<seq<Id>>, times: seq<int>)
    requires limit > 0 && |times| == |batches| && Claims(rows, limit, batches, times)
    ensures var queued, ids := QueuedIds(rows, {}), Flatten(batches);
      && First(rows, queued, Sooner, ids)
      && |ids| == Reach(|queued|, |batches|, limit)
      && (Members(ids) == queued <==> |batches| >= Arithmetic.CeilDiv(|queued|, limit))
  {
    var keys := ClaimKeys(rows, {});
    assert |keys| == |keys.Keys|;
    ClaimKeysMean(rows, {}, "", "");
    ClaimsDrain(rows, limit, batches, times);
    DrainIsSort(keys, limit, batches);
    DrainExhausts(keys, limit, batches);
    PrefixOfQueue(rows, {}, Flatten(batches), Reach(|keys|, |batches|, limit));
  }

  /** Retry scans in sequence with no other writer: batch i is requeued by a scan at times[i], whatever the clock does. */
  ghost predicate Scans(rows: Table, limit: nat, batches: seq<seq<Id>>, times: seq<int>)
    requires |times| == |batches|
    decreases batches
  {
    batches == [] ||
    ( Selects(DueKeys(rows, times[0], {}), limit, batches[0])
      && Scans(RequeueRows(rows, Members(batches[0]), times[0]), limit, batches[1..], times[1..]))
  }

  /** Sort keys of all rows waiting for a retry, due or not. */
  function WaitKeys(rows: Table): map<Id, Key> {
    map id | id in rows && rows[id].state.RetryScheduled? && rows[id].retryAfter.Some? ::
      (rows[id].retryAfter.value, rows[id].createdAt)
  }

  /** The due rows are the waiting rows whose time has come. */
  lemma DueAreWaiting(rows: Table, now: int)
    ensures DueKeys(rows, now, {}).Keys <= WaitKeys(rows).Keys
    ensures forall id :: id in DueKeys(rows, now, {}) ==> DueKeys(rows, now, {})[id] == WaitKeys(rows)[id]
    ensures forall id :: id in WaitKeys(rows) ==> (id in DueKeys(rows, now, {}) <==> WaitKeys(rows)[id].0 <= now)
  {
  }

  /** A row that is not yet due sorts after everything a scan takes, so a batch comes before all that still waits. */
  lemma ScanIsPrefix(rows: Table, now: int, limit: nat, batch: seq<Id>)
    requires Selects(DueKeys(rows, now, {}), limit, batch)
    ensures SortedPrefix(WaitKeys(rows), batch, |batch|)
  {
    var due, waiting := DueKeys(rows, now, {}), WaitKeys(rows);
    DueAreWaiting(rows, now);
    hide DueKeys, WaitKeys;
    forall x, y | x in batch && y in waiting.Keys - Members(batch) ensures Sorts(waiting, x, y) {
      if y in due {
        assert Sorts(due, x, y);
      }
    }
    assert forall i, j :: 0 <= i < j < |batch| ==> Sorts(due, batch[i], batch[j]);
  }

  lemma ScanLeaves(rows: Table, batch: seq<Id>, now: int)
    ensures WaitKeys(RequeueRows(rows, Members(batch), now)) == Remaining(WaitKeys(rows), batch)
    ensures forall t :: DueKeys(RequeueRows(rows, Members(batch), now), t, {}) == Remaining(DueKeys(rows, t, {}), batch)
  {
  }

  /** What every scan may take: rows whose retry time its own clock has reached. */
  lemma {:induction false} NoneBeforeItsTime(rows: Table, limit: nat, batches: seq<seq<Id>>, times: seq<int>, i: nat, id: Id)
    requires |times| == |batches| && Scans(rows, limit, batches, times) && i < |batches| && id in batches[i]
    ensures id in WaitKeys(rows) && WaitKeys(rows)[id].0 <= times[i]
    decreases batches
  {
    hide RequeueRows;
    if i == 0 {
      assert id in DueKeys(rows, times[0], {});
      DueAreWaiting(rows, times[0]);
    } else {
      hide DueKeys, WaitKeys, Selects;
      NoneBeforeItsTime(RequeueRows(rows, Members(batches[0]), times[0]), limit, batches[1..], times[1..], i - 1, id);
      ScanLeaves(rows, batches[0], times[0]);
    }
  }

  lemma {:induction false} ScansArePrefix(rows: Table, limit: nat, batches: seq<seq<Id>>, times: seq<int>)
    requires |times| == |batches| && Scans(rows, limit, batches, times)
    ensures SortedPrefix(WaitKeys(rows), Flatten(batches), |Flatten(batches)|)
    decreases batches
  {
    if batches != [] {
      hide DueKeys, RequeueRows, Selects, WaitKeys;
      ScansArePrefix(RequeueRows(rows, Members(batches[0]), times[0]), limit, batches[1..], times[1..]);
      ScanLeaves(rows, batches[0], times[0]);
      ScanIsPrefix(rows, times[0], limit, batches[0]);
      PrefixConcat(WaitKeys(rows), batches[0], Flatten(batches[1..]), |Flatten(batches[1..])|);
    }
  }

  /**
    Retry scans at any times, on any clock: together they requeue waiting rows in
    (retry_after, created_at) order, each once and ahead of every row left waiting, and none before
    the scan that takes it has reached its retry_after.
   */
  lemma ScansAreSorted(rows: Table, limit: nat, batches: seq<seq<Id>>, times: seq<int>)
    requires |times| == |batches| && Scans(rows, limit, batches, times)
    ensures SortedPrefix(WaitKeys(rows), Flatten(batches), |Flatten(batches)|)
    ensures First(rows, WaitingIds(rows), DueSooner, Flatten(batches))
    ensures forall i, id :: 0 <= i < |batches| && id in batches[i] ==>
      id in rows && rows[id].state.RetryScheduled? && rows[id].retryAfter.Some? && rows[id].retryAfter.value <= times[i]
  {
    hide Scans, SortedPrefix, First, Flatten;
    ScansArePrefix(rows, limit, batches, times);
    assert First(rows, WaitingIds(rows), DueSooner, Flatten(batches)) by {
      PrefixOfRetries(rows, Flatten(batches), |Flatten(batches)|);
      assert WaitKeys(rows).Keys == WaitingIds(rows);
    }
    forall i, id | 0 <= i < |batches| && id in batches[i]
      ensures id in rows && rows[id].state.RetryScheduled? && rows[id].retryAfter.Some? && rows[id].retryAfter.value <= times[i]
    {
      NoneBeforeItsTime(rows, limit, batches, times, i, id);
    }
  }

  /** A scan at t or later takes a full batch of the rows due at t, or all of them. */
  lemma ScanProgress(rows: Table, t: int, now: int, limit: nat, batch: seq<Id>)
    requires t <= now && Selects(DueKeys(rows, now, {}), limit, batch)
    ensures DueKeys(rows, t, {}).Keys <= Members(batch)
      || (|batch| == limit && Members(batch) <= DueKeys(rows, t, {}).Keys)
  {
    var due, early, waiting := DueKeys(rows, now, {}), DueKeys(rows, t, {}), WaitKeys(rows);
    DueAreWaiting(rows, now);
    DueAreWaiting(rows, t);
    BatchSize(due, batch);
    hide DueKeys, WaitKeys;
    assert early.Keys <= due.Keys;
    if y :| y in early.Keys && y !in Members(batch) {
      forall x | x in batch ensures x in early {
        assert Sorts(due, x, y);
      }
    }
  }

  lemma BatchLeaves(keys: map<Id, Key>, batch: seq<Id>)
    requires Distinct(batch) && Members(batch) <= keys.Keys
    ensures |Remaining(keys, batch)| == |keys| - |batch|
  {
    MembersSize(batch);
    SplitSize(keys.Keys, Members(batch));
    var left := Remaining(keys, batch);
    assert left.Keys == keys.Keys - Members(batch);
    assert |left| == |left.Keys| && |keys| == |keys.Keys|;
  }

  lemma FlattenHead(batches: seq<seq<Id>>)
    requires batches != []
    ensures Members(Flatten(batches)) == Members(batches[0]) + Members(Flatten(batches[1..]))
  {
  }

  /** k rows due at time t are all requeued by ceil(k/limit) scans made at t or later, whatever else becomes due meanwhile. */
  lemma {:induction false} DueRowsAreReached(rows: Table, t: int, limit: nat, batches: seq<seq<Id>>, times: seq<int>)
    requires limit > 0 && |times| == |batches| && Scans(rows, limit, batches, times)
    requires forall i :: 0 <= i < |times| ==> t <= times[i]
    requires |batches| >= Arithmetic.CeilDiv(|DueIds(rows, t, {})|, limit)
    ensures DueIds(rows, t, {}) <= Members(Flatten(batches))
    decreases batches
  {
    var early := DueKeys(rows, t, {});
    DueKeysMean(rows, t, {}, "", "");
    assert |early| == |early.Keys|;
    Arithmetic.CeilDivBounds(|early|, limit);
    if batches != [] {
      var rows' := RequeueRows(rows, Members(batches[0]), times[0]);
      ScanProgress(rows, t, times[0], limit, batches[0]);
      ScanLeaves(rows, batches[0], times[0]);
      FlattenHead(batches);
      assert Distinct(batches[0]);
      DueKeysMean(rows', t, {}, "", "");
      assert |DueKeys(rows', t, {})| == |DueKeys(rows', t, {}).Keys|;
      hide DueKeys, DueIds, RequeueRows, Selects, Distinct;
      if !(early.Keys <= Members(batches[0])) {
        BatchLeaves(early, batches[0]);
        FewerScans(|early|, limit);
        DueRowsAreReached(rows', t, limit, batches[1..], times[1..]);
      }
    }
  }

  lemma FewerScans(k: nat, limit: nat)
    requires 0 < limit <= k
    ensures Arithmetic.CeilDiv(k - limit, limit) == Arithmetic.CeilDiv(k, limit) - 1
  {
    var q := Arithmetic.CeilDiv(k, limit);
    var n := k + limit - 1;
    Arithmetic.DivisionUnique(n - limit, limit, n / limit - 1, n % limit);
  }

  lemma {:induction false} ScansDrain(rows: Table, now: int, limit: nat, batches: seq<seq<Id>>, times: seq<int>)
    requires |times| == |batches| && Scans(rows, limit, batches, times)
    requires forall i :: 0 <= i < |times| ==> times[i] == now
    ensures Drain(DueKeys(rows, now, {}), limit, batches)
    decreases batches
  {
    if batches != [] {
      hide DueKeys, RequeueRows, Selects;
      ScansDrain(RequeueRows(rows, Members(batches[0]), now), now, limit, batches[1..], times[1..]);
      ScanLeaves(rows, batches[0], now);
    }
  }

  /** At one instant, k due rows take exactly ceil(k/limit) scans. */
  lemma ScansAtOnce(rows: Table, now: int, limit: nat, batches: seq<seq<Id>>, times: seq<int>)
    requires limit > 0 && |times| == |batches| && Scans(rows, limit, batches, times)
    requires forall i :: 0 <= i < |times| ==> times[i] == now
    ensures var due, ids := DueIds(rows, now, {}), Flatten(batches);
      && First(rows, due, DueSooner, ids)
      && |ids| == Reach(|due|, |batches|, limit)
      && (Members(ids) == due <==> |batches| >= Arithmetic.CeilDiv(|due|, limit))
  {
    var keys := DueKeys(rows, now, {});
    assert |keys| == |keys.Keys|;
    DueKeysMean(rows, now, {}, "", "");
    ScansDrain(rows, now, limit, batches, times);
    DrainIsSort(keys, limit, batches);
    DrainExhausts(keys, limit, batches);
    PrefixOfDue(rows, now, {}, Flatten(batches), Reach(|keys|, |batches|, limit));
  }
}
