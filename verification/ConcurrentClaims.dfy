/**
  Many scheduler sessions claiming at once.  A claim is two steps, locking its rows and committing;
  between them any other session may lock, commit or give up, and any writer may change rows that
  are not locked (a writer of a locked row waits).
 */
module ConcurrentClaims {
  import opened Wrappers
  import opened BatchedSelection
  import opened JobRepository

  type Session = int

  datatype Db = Db(rows: Table, locks: map<Session, set<Id>>)

  datatype Step =
    /** SELECT ... FOR UPDATE SKIP LOCKED: some unlocked queued rows. */
    | Lock(session: Session, ids: set<Id>)
    | Commit(session: Session, now: int)
    | Abort(session: Session)
    /** Any other statement on one row: insert, update or delete. */
    | Write(id: Id, row: Option<Row>)

  ghost predicate Locked(db: Db, id: Id) {
    exists s :: s in db.locks && id in db.locks[s]
  }

  predicate Queued(db: Db, id: Id) {
    id in db.rows && db.rows[id].state.Queued?
  }

  ghost predicate Enabled(db: Db, step: Step) {
    match step
    case Lock(s, ids) => s !in db.locks && forall id :: id in ids ==> Queued(db, id) && !Locked(db, id)
    case Commit(s, _) => s in db.locks
    case Abort(s) => s in db.locks
    case Write(id, _) => !Locked(db, id)
  }

  function Apply(db: Db, step: Step): Db {
    match step
    case Lock(s, ids) => db.(locks := db.locks[s := ids])
    case Commit(s, now) =>
      if s in db.locks then Db(ClaimRows(db.rows, db.locks[s], now), db.locks - {s}) else db
    case Abort(s) => db.(locks := db.locks - {s})
    case Write(id, row) =>
      db.(rows := if row.Some? then db.rows[id := row.value] else db.rows - {id})
  }

  /** Batches in progress are disjoint and hold queued rows only. */
  ghost predicate Valid(db: Db) {
    && (forall s, id :: s in db.locks && id in db.locks[s] ==> Queued(db, id))
    && (forall s, t :: s in db.locks && t in db.locks && s != t ==> db.locks[s] !! db.locks[t])
  }

  ghost predicate Possible(db: Db, steps: seq<Step>)
    decreases steps
  {
    steps == [] || (Enabled(db, steps[0]) && Possible(Apply(db, steps[0]), steps[1..]))
  }

  function Run(db: Db, steps: seq<Step>): Db
    decreases steps
  {
    if steps == [] then db else Run(Apply(db, steps[0]), steps[1..])
  }

  predicate Returns(db: Db, step: Step, id: Id) {
    step.Commit? && step.session in db.locks && id in db.locks[step.session]
  }

  /** How often a run's claims returned the job. */
  function Claims(db: Db, steps: seq<Step>, id: Id): nat
    decreases steps
  {
    if steps == [] then 0
    else (if Returns(db, steps[0], id) then 1 else 0) + Claims(Apply(db, steps[0]), steps[1..], id)
  }

  /** How often the job entered the queue. */
  function Entries(db: Db, steps: seq<Step>, id: Id): nat
    decreases steps
  {
    if steps == [] then 0
    else (if !Queued(db, id) && Queued(Apply(db, steps[0]), id) then 1 else 0) + Entries(Apply(db, steps[0]), steps[1..], id)
  }

  /** How often it left the queue without being returned. */
  function Withdrawals(db: Db, steps: seq<Step>, id: Id): nat
    decreases steps
  {
    if steps == [] then 0
    else
      var left := Queued(db, id) && !Queued(Apply(db, steps[0]), id) && !Returns(db, steps[0], id);
      (if left then 1 else 0) + Withdrawals(Apply(db, steps[0]), steps[1..], id)
  }

  lemma StepValid(db: Db, step: Step)
    requires Valid(db) && Enabled(db, step)
    ensures Valid(Apply(db, step))
  {
    match step {
      case Lock(s, ids) =>
        forall t | t in db.locks ensures ids !! db.locks[t] {
          assert forall id :: id in ids ==> !Locked(db, id);
        }
        var db' := Apply(db, step);
        forall t, id | t in db'.locks && id in db'.locks[t] ensures Queued(db', id) {
          assert t != s ==> id in db.locks[t];
          assert Queued(db, id);
        }
      case Commit(s, now) =>
        var db' := Apply(db, step);
        forall t, id | t in db'.locks && id in db'.locks[t] ensures Queued(db', id) {
          assert db.locks[s] !! db.locks[t] && id in db.locks[t] && Queued(db, id);
        }
      case Abort(_) =>
        var db' := Apply(db, step);
        forall t, id | t in db'.locks && id in db'.locks[t] ensures Queued(db', id) {
          assert id in db.locks[t] && Queued(db, id);
        }
      case Write(id, row) =>
        var db' := Apply(db, step);
        forall t, j | t in db'.locks && j in db'.locks[t] ensures Queued(db', j) {
          assert j in db.locks[t] && Locked(db, j) && Queued(db, j);
        }
    }
  }

  /** A commit changes only the rows it locked, all of them queued, to dispatched; a dispatch time once set stays. */
  lemma CommitFrame(db: Db, s: Session, now: int, id: Id)
    requires Valid(db) && s in db.locks && id in db.rows
    ensures var db' := Apply(db, Commit(s, now));
      && id in db'.rows
      && (id !in db.locks[s] ==> db'.rows[id] == db.rows[id])
      && (id in db.locks[s] ==> db.rows[id].state.Queued? && db'.rows[id].state.Dispatched?)
      && (db.rows[id].dispatchedAt.Some? ==> db'.rows[id].dispatchedAt == db.rows[id].dispatchedAt)
      && db'.rows[id].(state := db.rows[id].state, updatedAt := db.rows[id].updatedAt, dispatchedAt := db.rows[id].dispatchedAt)
         == db.rows[id]
  {
    if id in db.locks[s] {
      assert Queued(db, id);
    }
  }

  /** Locking and giving up change no row; a commit changes only rows it locked, and another writer only its own row. */
  lemma StepFrame(db: Db, step: Step, id: Id)
    requires Valid(db) && Enabled(db, step)
    ensures var db' := Apply(db, step);
      (id in db'.rows) != (id in db.rows) || (id in db.rows && db'.rows[id] != db.rows[id]) ==>
        || (step.Commit? && id in db.locks[step.session] && Queued(db, id))
        || (step.Write? && step.id == id)
  {
  }

  lemma ReturnedWasQueued(db: Db, step: Step, id: Id)
    requires Valid(db) && Returns(db, step, id)
    ensures Queued(db, id) && !Queued(Apply(db, step), id)
  {
  }

  /**
    Queue balance in every interleaving: a job is returned by claims exactly as often as it was
    or became queued, less the times it was withdrawn, less one if it is still queued.
   */
  lemma {:induction false} QueueBalance(db: Db, steps: seq<Step>, id: Id)
    requires Valid(db) && Possible(db, steps)
    ensures Valid(Run(db, steps))
    ensures Claims(db, steps, id) + Withdrawals(db, steps, id) + (if Queued(Run(db, steps), id) then 1 else 0)
         == Entries(db, steps, id) + (if Queued(db, id) then 1 else 0)
    decreases steps
  {
    if steps != [] {
      StepValid(db, steps[0]);
      QueueBalance(Apply(db, steps[0]), steps[1..], id);
      if Returns(db, steps[0], id) {
        ReturnedWasQueued(db, steps[0], id);
      }
    }
  }

  /** No job is returned by two claims unless it re-entered the queue in between. */
  lemma NoDoubleClaim(db: Db, first: Step, between: seq<Step>, second: Step, id: Id)
    requires Valid(db) && Possible(db, [first] + between + [second])
    requires Returns(db, first, id) && Returns(Run(Apply(db, first), between), second, id)
    ensures Entries(Apply(db, first), between, id) >= 1
  {
    assert [first] + between + [second] == [first] + (between + [second]);
    assert ([first] + (between + [second]))[1..] == between + [second];
    ReturnedWasQueued(db, first, id);
    StepValid(db, first);
    PossiblePrefix(Apply(db, first), between, [second]);
    QueueBalance(Apply(db, first), between, id);
    ReturnedWasQueued(Run(Apply(db, first), between), second, id);
  }

  lemma {:induction false} PossiblePrefix(db: Db, a: seq<Step>, b: seq<Step>)
    requires Possible(db, a + b)
    ensures Possible(db, a)
    decreases a
  {
    if a != [] {
      assert (a + b)[1..] == a[1..] + b;
      PossiblePrefix(Apply(db, a[0]), a[1..], b);
    }
  }

  /** The repository's one-transaction claim is a lock of a selected batch followed by its commit. */
  lemma ClaimIsLockCommit(db: Db, s: Session, limit: nat, batch: seq<Id>, now: int)
    requires Valid(db) && s !in db.locks
    requires Selects(ClaimKeys(db.rows, set t, id | t in db.locks && id in db.locks[t] :: id), limit, batch)
    ensures Possible(db, [Lock(s, Members(batch)), Commit(s, now)])
    ensures Run(db, [Lock(s, Members(batch)), Commit(s, now)]) == Db(ClaimRows(db.rows, Members(batch), now), db.locks)
  {
    var a, b := Lock(s, Members(batch)), Commit(s, now);
    assert [a, b][1..] == [b] && [b][1..] == [];
    var db1 := Apply(db, a);
    assert Enabled(db, a);
    assert db1.locks[s] == Members(batch) && db1.locks - {s} == db.locks;
    assert Possible(db1, [b]);
    assert Run(db, [a, b]) == Run(db1, [b]) == Run(Apply(db1, b), []);
  }
}
