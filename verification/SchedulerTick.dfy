/**
  One scheduler tick: claim rows, then for each claim its dispatch key and publish.  The clock and
  the producer's answers are parameters, indexed by the position of the job in the batch.
 */
module SchedulerTick {
  import opened Wrappers
  import opened Text
  import opened IdempotencyKeys
  import opened BatchedSelection
  import opened JobRepository
  import opened ClaimStore

  /** One pass of the publish loop: the job and its retry count, when it is tried and for how long, and whether the broker takes it. */
  datatype Call = Call(id: Id, attempt: nat, now: real, ttl: int, delivered: bool)

  datatype Outcome = Published | Duplicate | PublishError

  function DispatchKey(call: Call): string {
    Compose(Prefix(Dispatch), Strip(call.id), call.attempt)
  }

  function OutcomeOf(store: Store, call: Call): Outcome {
    if !Free(store, DispatchKey(call), call.now) then Duplicate
    else if call.delivered then Published
    else PublishError
  }

  function Outcomes(store: Store, calls: seq<Call>): (r: seq<Outcome>)
    ensures |r| == |calls|
    decreases calls
  {
    if calls == [] then []
    else
      var last := |calls| - 1;
      Outcomes(store, calls[..last]) + [OutcomeOf(After(store, calls[..last]), calls[last])]
  }

  function After(store: Store, calls: seq<Call>): Store
    decreases calls
  {
    if calls == [] then store
    else
      var last := |calls| - 1;
      Claimed(After(store, calls[..last]), DispatchKey(calls[last]), calls[last].ttl, calls[last].now)
  }

  datatype Counts = Counts(published: nat, failed: nat, duplicates: nat)

  function Plus(c: Counts, o: Outcome): Counts {
    match o
    case Published => c.(published := c.published + 1)
    case PublishError => c.(failed := c.failed + 1)
    case Duplicate => c.(duplicates := c.duplicates + 1)
  }

  function Tally(outcomes: seq<Outcome>): (c: Counts)
    ensures c.published + c.failed + c.duplicates == |outcomes|
  {
    if outcomes == [] then Counts(0, 0, 0)
    else Plus(Tally(outcomes[..|outcomes| - 1]), outcomes[|outcomes| - 1])
  }

  function CallsFor(rows: Table, batch: seq<Id>, ttl: int, clock: nat -> real, delivers: nat -> bool): (calls: seq<Call>)
    requires forall id :: id in batch ==> id in rows
    ensures |calls| == |batch|
    ensures forall i :: 0 <= i < |batch| ==> calls[i] == Call(batch[i], rows[batch[i]].retryCount, clock(i), ttl, delivers(i))
  {
    seq(|batch|, i requires 0 <= i < |batch| => Call(batch[i], rows[batch[i]].retryCount, clock(i), ttl, delivers(i)))
  }

  datatype TickResult = TickResult(
    jobs: seq<Id>, claimFailed: bool, published: nat, publishErrors: nat, duplicates: nat)

  datatype TickError = BadKey(key: KeyError) | BadClaim(claim: ClaimError)

  lemma KeyIsSolid(call: Call)
    ensures !Blank(DispatchKey(call))
  {
    var key := DispatchKey(call);
    var l := LeftEdge(key, PySpace, 0);
    ComposeHead(Dispatch, Strip(call.id), call.attempt);
    assert !PySpace(key[0]);
    assert l == 0;
  }

  lemma CallStep(store: Store, calls: seq<Call>, i: nat)
    requires i < |calls|
    ensures After(store, calls[..i + 1]) == Claimed(After(store, calls[..i]), DispatchKey(calls[i]), calls[i].ttl, calls[i].now)
    ensures Tally(Outcomes(store, calls[..i + 1]))
      == Plus(Tally(Outcomes(store, calls[..i])), OutcomeOf(After(store, calls[..i]), calls[i]))
  {
    assert calls[..i + 1][..i] == calls[..i];
    var outs := Outcomes(store, calls[..i + 1]);
    assert outs[..i] == Outcomes(store, calls[..i]);
  }

  /** One pass of the loop: build the key, claim it, publish. */
  method PublishOne(call: Call, store: InMemoryIdempotencyStore) returns (r: Result<Outcome, TickError>)
    modifies store
    ensures r.Ok? <==> !Blank(call.id) && call.ttl > 0
    ensures r.Err? ==> store.expiryByKey == old(store.expiryByKey)
    ensures r.Ok? ==> r.value == OutcomeOf(old(store.expiryByKey), call)
    ensures r.Ok? ==> store.expiryByKey == Claimed(old(store.expiryByKey), DispatchKey(call), call.ttl, call.now)
  {
    CallKey(call);
    hide Blank, DispatchKey, StageKey;
    var key := StageKey(Dispatch, call.id, call.attempt);
    if key.Err? {
      return Err(BadKey(key.error));
    }
    var mine := store.TryClaim(key.value, call.ttl, call.now);
    if mine.Err? {
      return Err(BadClaim(mine.error));
    }
    if !mine.value {
      return Ok(Duplicate);
    }
    return Ok(if call.delivered then Published else PublishError);
  }

  /** No call would raise: the ids are legal and so is the TTL. */
  predicate Legal(calls: seq<Call>) {
    forall i :: 0 <= i < |calls| ==> !Blank(calls[i].id) && calls[i].ttl > 0
  }

  lemma LegalStep(calls: seq<Call>, i: nat)
    requires i < |calls| && Legal(calls[..i])
    ensures Legal(calls[..i + 1]) <==> !Blank(calls[i].id) && calls[i].ttl > 0
    ensures !Legal(calls[..i + 1]) ==> !Legal(calls)
  {
    hide Blank;
    assert calls[..i + 1] == calls[..i] + [calls[i]];
    assert calls[..i + 1][i] == calls[i];
  }

  /**
    The publish loop.  It returns exactly when no call would raise, and then splits the jobs into
    published, failed and duplicate; otherwise the first offending job stops it.
   */
  method PublishAll(calls: seq<Call>, store: InMemoryIdempotencyStore) returns (r: Result<Counts, TickError>)
    modifies store
    ensures r.Ok? <==> Legal(calls)
    ensures r.Ok? ==>
      r.value == Tally(Outcomes(old(store.expiryByKey), calls)) && store.expiryByKey == After(old(store.expiryByKey), calls)
  {
    var counts := Counts(0, 0, 0);
    ghost var s0 := store.expiryByKey;
    StartOfLoop(s0, calls);
    hide Blank, After, Outcomes, Tally, OutcomeOf, Claimed, DispatchKey, Plus;
    for i := 0 to |calls|
      invariant Legal(calls[..i])
      invariant store.expiryByKey == After(s0, calls[..i])
      invariant counts == Tally(Outcomes(s0, calls[..i]))
    {
      hide Legal;
      CallStep(s0, calls, i);
      LegalStep(calls, i);
      var out := PublishOne(calls[i], store);
      if out.Err? {
        return Err(out.error);
      }
      counts := Plus(counts, out.value);
    }
    assert calls[..|calls|] == calls;
    return Ok(counts);
  }

  lemma CallKey(call: Call)
    ensures StageKey(Dispatch, call.id, call.attempt).Err? <==> Blank(call.id)
    ensures !Blank(call.id) ==> StageKey(Dispatch, call.id, call.attempt) == Ok(DispatchKey(call))
    ensures !Blank(DispatchKey(call))
  {
    KeyIsSolid(call);
  }

  lemma StartOfLoop(store: Store, calls: seq<Call>)
    ensures After(store, calls[..0]) == store
    ensures Tally(Outcomes(store, calls[..0])) == Counts(0, 0, 0)
  {
  }

  /** The claim of a tick: the first rows in scheduling order, dispatched. */
  ghost predicate ClaimedBatch(rows: Table, rows': Table, locked: set<Id>, maxJobs: nat, now: int, batch: seq<Id>) {
    && Selects(ClaimKeys(rows, locked), maxJobs, batch) && rows' == ClaimRows(rows, Members(batch), now)
    && First(rows, QueuedIds(rows, locked), Sooner, batch) && |batch| == Min(maxJobs, |QueuedIds(rows, locked)|)
    && (forall id :: id in batch ==> id in rows' && id in rows && IsDispatch(rows[id], rows'[id], now))
  }

  /** What a tick then reports and does to the store. */
  ghost predicate Reported(rows: Table, before: Store, after: Store, batch: seq<Id>, hasProducer: bool, ttl: int,
                           clock: nat -> real, delivers: nat -> bool, r: Result<TickResult, TickError>)
    requires forall id :: id in batch ==> id in rows
  {
    if !hasProducer then r == Ok(TickResult(batch, false, 0, 0, 0)) && after == before
    else
      var calls := CallsFor(rows, batch, ttl, clock, delivers);
      && (r.Ok? <==> batch == [] || (ttl > 0 && forall id :: id in batch ==> !Blank(id)))
      && (r.Ok? ==>
            && r.value.jobs == batch && !r.value.claimFailed
            && r.value.published + r.value.publishErrors + r.value.duplicates == |batch|
            && Counts(r.value.published, r.value.publishErrors, r.value.duplicates) == Tally(Outcomes(before, calls))
            && after == After(before, calls))
  }

  /** run_once. */
  method RunOnce(repo: JobRepository, store: InMemoryIdempotencyStore, maxJobs: nat, hasProducer: bool, ttl: int,
                 claimFails: bool, locked: set<Id>, now: int, clock: nat -> real, delivers: nat -> bool)
    returns (r: Result<TickResult, TickError>)
    requires maxJobs > 0
    modifies repo, store
    ensures claimFails ==>
      r == Ok(TickResult([], true, 0, 0, 0)) && repo.rows == old(repo.rows) && store.expiryByKey == old(store.expiryByKey)
    ensures !claimFails ==> exists batch ::
      && ClaimedBatch(old(repo.rows), repo.rows, locked, maxJobs, now, batch)
      && Reported(repo.rows, old(store.expiryByKey), store.expiryByKey, batch, hasProducer, ttl, clock, delivers, r)
  {
    if claimFails {
      return Ok(TickResult([], true, 0, 0, 0));
    }
    var claimed := repo.ClaimSchedulableJobs(maxJobs, now, locked);
    var batch := claimed.value;
    assert ClaimedBatch(old(repo.rows), repo.rows, locked, maxJobs, now, batch);
    hide Selects, ClaimKeys, ClaimRows, First, QueuedIds, IsDispatch;
    if !hasProducer {
      return Ok(TickResult(batch, false, 0, 0, 0));
    }
    r := Publish(repo.rows, batch, store, ttl, clock, delivers);
  }

  lemma LegalBatch(calls: seq<Call>, batch: seq<Id>, ttl: int)
    requires |calls| == |batch| && forall i :: 0 <= i < |batch| ==> calls[i].id == batch[i] && calls[i].ttl == ttl
    ensures Legal(calls) <==> batch == [] || (ttl > 0 && forall id :: id in batch ==> !Blank(id))
  {
    hide Blank;
    if batch != [] && Legal(calls) {
      assert calls[0].ttl > 0;
      forall id | id in batch ensures !Blank(id) {
        var i :| 0 <= i < |batch| && batch[i] == id;
        assert !Blank(calls[i].id);
      }
    }
  }

  /** The publishing half of a tick. */
  method Publish(rows: Table, batch: seq<Id>, store: InMemoryIdempotencyStore, ttl: int, clock: nat -> real, delivers: nat -> bool)
    returns (r: Result<TickResult, TickError>)
    requires forall id :: id in batch ==> id in rows
    modifies store
    ensures Reported(rows, old(store.expiryByKey), store.expiryByKey, batch, true, ttl, clock, delivers, r)
  {
    hide Blank, Outcomes, After, Tally;
    var calls := CallsFor(rows, batch, ttl, clock, delivers);
    var sent := PublishAll(calls, store);
    LegalBatch(calls, batch, ttl);
    hide Legal, CallsFor;
    if sent.Err? {
      return Err(sent.error);
    }
    return Ok(TickResult(batch, false, sent.value.published, sent.value.failed, sent.value.duplicates));
  }

  // ----- Ticks sharing a store -----

  /** Ticks one after another are one sequence of passes: the second starts on the store the first left. */
  ghost predicate InARow(store: Store, a: seq<Call>, b: seq<Call>) {
    && After(store, a + b) == After(After(store, a), b)
    && Outcomes(store, a + b) == Outcomes(store, a) + Outcomes(After(store, a), b)
  }

  lemma OneMorePass(store: Store, a: seq<Call>, b: seq<Call>, call: Call)
    requires InARow(store, a, b)
    ensures InARow(store, a, b + [call])
  {
    hide After, Outcomes, DispatchKey, OutcomeOf, Claimed;
    LastPass(store, a + b, call);
    LastPass(After(store, a), b, call);
    assert a + (b + [call]) == (a + b) + [call];
  }

  lemma {:induction false} TicksInARow(store: Store, a: seq<Call>, b: seq<Call>)
    ensures InARow(store, a, b)
    decreases b
  {
    if b == [] {
      assert a + b == a && After(After(store, a), b) == After(store, a) && Outcomes(After(store, a), b) == [];
    } else {
      hide InARow;
      var n := |b| - 1;
      TicksInARow(store, a, b[..n]);
      OneMorePass(store, a, b[..n], b[n]);
      assert b[..n] + [b[n]] == b;
    }
  }

  lemma LastPass(store: Store, calls: seq<Call>, call: Call)
    ensures After(store, calls + [call]) == Claimed(After(store, calls), DispatchKey(call), call.ttl, call.now)
    ensures Outcomes(store, calls + [call]) == Outcomes(store, calls) + [OutcomeOf(After(store, calls), call)]
  {
    assert (calls + [call])[..|calls|] == calls;
  }

  /** How many passes attempted to publish or not, and were delivered or not. */
  function Passes(outcomes: seq<Outcome>, calls: seq<Call>, attempted: bool, delivered: bool): nat
    requires |outcomes| == |calls|
  {
    if calls == [] then 0
    else
      var n := |calls| - 1;
      Passes(outcomes[..n], calls[..n], attempted, delivered)
        + if (outcomes[n] != Duplicate) == attempted && calls[n].delivered == delivered then 1 else 0
  }

  /** Published are the attempts that were delivered, failed those that were not, duplicates the rest. */
  ghost predicate Counted(outs: seq<Outcome>, calls: seq<Call>)
    requires |outs| == |calls|
  {
    && Tally(outs).published == Passes(outs, calls, true, true)
    && Tally(outs).failed == Passes(outs, calls, true, false)
    && Tally(outs).duplicates == Passes(outs, calls, false, true) + Passes(outs, calls, false, false)
  }

  lemma {:induction false} CountedAll(outs: seq<Outcome>, calls: seq<Call>)
    requires |outs| == |calls|
    requires forall i :: 0 <= i < |calls| && outs[i] != Duplicate ==> (outs[i].Published? <==> calls[i].delivered)
    ensures Counted(outs, calls)
  {
    if calls != [] {
      var n := |calls| - 1;
      CountedAll(outs[..n], calls[..n]);
    }
  }

  /** What the counts of the publish loop count. */
  lemma {:induction false} CountsMean(store: Store, calls: seq<Call>)
    ensures Counted(Outcomes(store, calls), calls)
  {
    var outs := Outcomes(store, calls);
    hide Outcomes, After, Counted;
    forall i | 0 <= i < |calls| && outs[i] != Duplicate ensures outs[i].Published? <==> calls[i].delivered {
      OutcomeAt(store, calls, i);
    }
    CountedAll(outs, calls);
  }

  /** From an empty store, every entry was made by a pass that attempted to publish. */
  lemma {:induction false} EntryHasHolder(calls: seq<Call>, m: nat, key: string) returns (i: nat)
    requires m <= |calls| && key in After(map[], calls[..m])
    ensures i < m && OutcomeOf(After(map[], calls[..i]), calls[i]) != Duplicate && DispatchKey(calls[i]) == key
    ensures After(map[], calls[..m])[key] == calls[i].now + calls[i].ttl as real
    decreases m
  {
    var n := m - 1;
    var before := After(map[], calls[..n]);
    CallStep(map[], calls, n);
    var granted := Free(before, DispatchKey(calls[n]), calls[n].now);
    assert granted <==> OutcomeOf(before, calls[n]) != Duplicate;
    hide DispatchKey, After, OutcomeOf;
    if key == DispatchKey(calls[n]) && granted {
      i := n;
    } else {
      i := EntryHasHolder(calls, n, key);
    }
  }

  /**
    Why a pass is skipped: from an empty store, a duplicate follows an earlier attempt for the same job
    id and retry count whose claim has not ended.
   */
  lemma DuplicateHasReason(calls: seq<Call>, j: nat) returns (i: nat)
    requires j < |calls| && Outcomes(map[], calls)[j] == Duplicate
    ensures i < j && Outcomes(map[], calls)[i] != Duplicate && calls[j].now < calls[i].now + calls[i].ttl as real
    ensures Strip(calls[i].id) == Strip(calls[j].id) && calls[i].attempt == calls[j].attempt
  {
    OutcomeAt(map[], calls, j);
    i := EntryHasHolder(calls, j, DispatchKey(calls[j]));
    OutcomeAt(map[], calls, i);
    ComposeInjective(Prefix(Dispatch), Strip(calls[i].id), calls[i].attempt, Strip(calls[j].id), calls[j].attempt);
  }

  /** An earlier pass as seen later: its outcome is the one it had. */
  lemma {:induction false} OutcomeAt(store: Store, calls: seq<Call>, i: nat)
    requires i < |calls|
    ensures Outcomes(store, calls)[i] == OutcomeOf(After(store, calls[..i]), calls[i])
    decreases calls
  {
    var last := |calls| - 1;
    hide DispatchKey, OutcomeOf, Claimed;
    if i < last {
      OutcomeAt(store, calls[..last], i);
      assert calls[..last][..i] == calls[..i];
    }
  }

  /** A claim taken by pass i keeps its key at least until it ends, through all later passes. */
  lemma {:induction false} StaysHeld(store: Store, calls: seq<Call>, i: nat, m: nat)
    requires i < m <= |calls| && Legal(calls)
    requires OutcomeOf(After(store, calls[..i]), calls[i]) != Duplicate
    ensures var key, held := DispatchKey(calls[i]), After(store, calls[..m]);
      key in held && held[key] >= calls[i].now + calls[i].ttl as real
    decreases m
  {
    hide DispatchKey, Outcomes, Blank;
    var prefix := calls[..m];
    assert prefix[..m - 1] == calls[..m - 1] && prefix[m - 1] == calls[m - 1];
    assert calls[m - 1].ttl > 0;
    hide Legal;
    if i < m - 1 {
      StaysHeld(store, calls, i, m - 1);
    }
  }

  /**
    Over any ticks sharing a store, each with its own TTL, on any clock: two passes for the same job
    id and retry count that both attempt to publish are at least the first one's TTL apart, whether or
    not the first was delivered.
   */
  lemma OneAttemptPerClaim(store: Store, calls: seq<Call>, i: nat, j: nat)
    requires i < j < |calls| && Legal(calls)
    requires Strip(calls[i].id) == Strip(calls[j].id) && calls[i].attempt == calls[j].attempt
    requires Outcomes(store, calls)[i] != Duplicate && Outcomes(store, calls)[j] != Duplicate
    ensures calls[i].now + calls[i].ttl as real <= calls[j].now
  {
    OutcomeAt(store, calls, i);
    OutcomeAt(store, calls, j);
    StaysHeld(store, calls, i, j);
    assert DispatchKey(calls[i]) == DispatchKey(calls[j]);
    hide After, Outcomes, DispatchKey, Legal, Blank;
  }
}
