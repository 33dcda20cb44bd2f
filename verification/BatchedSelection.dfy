/**
  Repeated "ORDER BY key LIMIT n" selections that remove what they select.  Rows are known by
  their sort keys; rows with equal keys may come in any order, as the database allows.
 */
module BatchedSelection {
  import opened Arithmetic

  type Id = string
  type Key = (int, int)

  predicate NotAfter(a: Key, b: Key) {
    a.0 < b.0 || (a.0 == b.0 && a.1 <= b.1)
  }

  predicate Distinct(ids: seq<Id>) {
    forall i, j :: 0 <= i < j < |ids| ==> ids[i] != ids[j]
  }

  function Members(ids: seq<Id>): set<Id> {
    set id | id in ids
  }

  ghost predicate Sorts(keys: map<Id, Key>, x: Id, y: Id) {
    x in keys && y in keys && NotAfter(keys[x], keys[y])
  }

  ghost predicate InOrder(keys: map<Id, Key>, ids: seq<Id>) {
    && (forall i :: 0 <= i < |ids| ==> ids[i] in keys)
    && (forall i, j :: 0 <= i < j < |ids| ==> Sorts(keys, ids[i], ids[j]))
  }

  /** Nothing in `ids` sorts after anything left in `rest`. */
  ghost predicate AllBefore(keys: map<Id, Key>, ids: seq<Id>, rest: set<Id>) {
    forall x, y :: x in ids && y in rest ==> Sorts(keys, x, y)
  }

  function Min(a: nat, b: nat): nat {
    if a <= b then a else b
  }

  /** A selection of the first `limit` rows in key order. */
  ghost predicate Selects(keys: map<Id, Key>, limit: nat, batch: seq<Id>) {
    && Distinct(batch)
    && InOrder(keys, batch)
    && |batch| == Min(limit, |keys|)
    && AllBefore(keys, batch, keys.Keys - Members(batch))
  }

  lemma {:induction false} LeastExists(keys: map<Id, Key>, ids: set<Id>)
    requires ids != {} && ids <= keys.Keys
    ensures exists x :: x in ids && forall y :: y in ids ==> NotAfter(keys[x], keys[y])
    decreases ids
  {
    var x :| x in ids;
    if ids != {x} {
      LeastExists(keys, ids - {x});
      var z :| z in ids - {x} && forall y :: y in ids - {x} ==> NotAfter(keys[z], keys[y]);
      var w := if NotAfter(keys[x], keys[z]) then x else z;
      assert forall y :: y in ids ==> y == x || y in ids - {x};
      assert forall y :: y in ids ==> NotAfter(keys[w], keys[y]);
    }
  }

  lemma MembersSize(ids: seq<Id>)
    requires Distinct(ids)
    ensures |Members(ids)| == |ids|
  {
    if ids != [] {
      var n := |ids| - 1;
      MembersSize(ids[..n]);
      assert Members(ids) == Members(ids[..n]) + {ids[n]};
    }
  }

  lemma Extend(keys: map<Id, Key>, batch: seq<Id>, rest: set<Id>, x: Id)
    requires Distinct(batch) && InOrder(keys, batch) && AllBefore(keys, batch, rest)
    requires rest == keys.Keys - Members(batch) && x in rest && forall y :: y in rest ==> NotAfter(keys[x], keys[y])
    ensures Distinct(batch + [x]) && InOrder(keys, batch + [x])
    ensures rest - {x} == keys.Keys - Members(batch + [x]) && AllBefore(keys, batch + [x], rest - {x})
  {
    assert x !in Members(batch);
    assert Members(batch + [x]) == Members(batch) + {x};
  }

  /** SELECT ... ORDER BY key LIMIT limit. */
  method Select(keys: map<Id, Key>, limit: nat) returns (batch: seq<Id>)
    ensures Selects(keys, limit, batch)
  {
    batch := [];
    var rest := keys.Keys;
    while |batch| < limit && rest != {}
      invariant |batch| <= limit && Distinct(batch) && InOrder(keys, batch)
      invariant rest == keys.Keys - Members(batch) && AllBefore(keys, batch, rest)
      decreases rest
    {
      hide Distinct, InOrder, AllBefore, Members, NotAfter;
      LeastExists(keys, rest);
      var x :| x in rest && forall y :: y in rest ==> NotAfter(keys[x], keys[y]);
      Extend(keys, batch, rest, x);
      batch := batch + [x];
      rest := rest - {x};
    }
    BatchSize(keys, batch);
  }

  lemma BatchSize(keys: map<Id, Key>, batch: seq<Id>)
    requires Distinct(batch) && InOrder(keys, batch)
    ensures |keys.Keys - Members(batch)| == |keys| - |batch|
    ensures Members(batch) == keys.Keys <==> |batch| == |keys|
  {
    MembersSize(batch);
    assert Members(batch) <= keys.Keys;
    assert |keys| == |keys.Keys|;
    SplitSize(keys.Keys, Members(batch));
    if |batch| == |keys| {
      assert keys.Keys - Members(batch) == {};
    }
  }

  lemma SplitSize(all: set<Id>, part: set<Id>)
    requires part <= all
    ensures |all - part| == |all| - |part|
  {
  }

  function Flatten(batches: seq<seq<Id>>): seq<Id> {
    if batches == [] then [] else batches[0] + Flatten(batches[1..])
  }

  function Remaining(keys: map<Id, Key>, batch: seq<Id>): map<Id, Key> {
    keys - Members(batch)
  }

  /** Successive selections, each removing what it selects. */
  ghost predicate Drain(keys: map<Id, Key>, limit: nat, batches: seq<seq<Id>>)
    decreases batches
  {
    batches == [] || (Selects(keys, limit, batches[0]) && Drain(Remaining(keys, batches[0]), limit, batches[1..]))
  }

  /** The selected rows, in order, ahead of everything left, and `size` of them. */
  ghost predicate SortedPrefix(keys: map<Id, Key>, ids: seq<Id>, size: nat) {
    && Distinct(ids)
    && InOrder(keys, ids)
    && AllBefore(keys, ids, keys.Keys - Members(ids))
    && |ids| == size
  }

  lemma PrefixConcat(keys: map<Id, Key>, batch: seq<Id>, rest: seq<Id>, n: nat)
    requires Distinct(batch) && InOrder(keys, batch) && AllBefore(keys, batch, keys.Keys - Members(batch))
    requires SortedPrefix(Remaining(keys, batch), rest, n)
    ensures SortedPrefix(keys, batch + rest, |batch| + n)
  {
    var all, left := batch + rest, Remaining(keys, batch);
    assert left.Keys == keys.Keys - Members(batch);
    assert forall i :: 0 <= i < |rest| ==> rest[i] in left && rest[i] !in Members(batch);
    assert keys.Keys - Members(all) == left.Keys - Members(rest);
    assert forall id :: id in left ==> left[id] == keys[id];
    OrderConcat(keys, batch, rest);
  }

  lemma OrderConcat(keys: map<Id, Key>, batch: seq<Id>, rest: seq<Id>)
    requires InOrder(keys, batch) && InOrder(keys, rest)
    requires forall i, j :: 0 <= i < |batch| && 0 <= j < |rest| ==> Sorts(keys, batch[i], rest[j])
    ensures InOrder(keys, batch + rest)
  {
  }

  /** How many of k rows m selections of at most `limit` reach. */
  function Reach(k: nat, m: nat, limit: nat): nat {
    Min(k, m * limit)
  }

  lemma ReachStep(k: nat, m: nat, limit: nat)
    requires m > 0
    ensures Reach(k, m, limit) == Min(limit, k) + Reach(k - Min(limit, k), m - 1, limit)
  {
    assert m * limit == (m - 1) * limit + limit;
    if k <= limit {
      MulMonotone(1, m, limit);
    }
  }

  lemma ReachesAll(k: nat, m: nat, limit: nat)
    requires limit > 0
    ensures Reach(k, m, limit) == k <==> m >= CeilDiv(k, limit)
  {
    CeilDivBounds(k, limit);
    if m >= CeilDiv(k, limit) {
      MulMonotone(CeilDiv(k, limit), m, limit);
    } else {
      MulMonotone(m, CeilDiv(k, limit) - 1, limit);
    }
  }

  /**
    A batched drain is a sort: m selections of at most `limit` list the first
    min(k, m*limit) of the k rows in key order.
   */
  lemma {:induction false} DrainIsSort(keys: map<Id, Key>, limit: nat, batches: seq<seq<Id>>)
    requires Drain(keys, limit, batches)
    ensures SortedPrefix(keys, Flatten(batches), Reach(|keys|, |batches|, limit))
    decreases batches
  {
    if batches != [] {
      var left := Remaining(keys, batches[0]);
      DrainIsSort(left, limit, batches[1..]);
      BatchSize(keys, batches[0]);
      assert left.Keys == keys.Keys - Members(batches[0]) && |left| == |left.Keys|;
      ReachStep(|keys|, |batches|, limit);
      PrefixConcat(keys, batches[0], Flatten(batches[1..]), Reach(|left|, |batches| - 1, limit));
    }
  }

  /** k rows are exhausted by exactly ceil(k/limit) selections. */
  lemma DrainExhausts(keys: map<Id, Key>, limit: nat, batches: seq<seq<Id>>)
    requires limit > 0 && Drain(keys, limit, batches)
    ensures Members(Flatten(batches)) == keys.Keys <==> |batches| >= CeilDiv(|keys|, limit)
  {
    DrainIsSort(keys, limit, batches);
    BatchSize(keys, Flatten(batches));
    ReachesAll(|keys|, |batches|, limit);
  }
}
