/** Queue-wait statistics of completed jobs, with nearest-rank percentiles. */
module JobMetrics {
  import opened Wrappers
  import opened JobRepository

  datatype Sample = Sample(state: State, createdAt: Option<real>, updatedAt: Option<real>, dispatchedAt: Option<real>)

  predicate Completed(s: State) {
    s.Succeeded? || s.Failed? || s.DeadLettered?
  }

  /** The queue wait a job contributes, if any: completed, both times known, not negative. */
  function Wait(job: Sample): Option<real> {
    if Completed(job.state) && job.createdAt.Some? && job.dispatchedAt.Some? && job.dispatchedAt.value >= job.createdAt.value
    then Some(job.dispatchedAt.value - job.createdAt.value)
    else None
  }

  function Waits(jobs: seq<Sample>): seq<real> {
    if jobs == [] then []
    else
      var rest := Waits(jobs[..|jobs| - 1]);
      var w := Wait(jobs[|jobs| - 1]);
      if w.Some? then rest + [w.value] else rest
  }

  /** The completion time a job contributes, if any: completed and both times known. */
  function Duration(job: Sample): Option<real> {
    if Completed(job.state) && job.createdAt.Some? && job.updatedAt.Some?
    then Some(job.updatedAt.value - job.createdAt.value)
    else None
  }

  function Durations(jobs: seq<Sample>): seq<real> {
    if jobs == [] then []
    else
      var rest, d := Durations(jobs[..|jobs| - 1]), Duration(jobs[|jobs| - 1]);
      if d.Some? then rest + [d.value] else rest
  }

  function CompletedCount(jobs: seq<Sample>): nat {
    if jobs == [] then 0
    else CompletedCount(jobs[..|jobs| - 1]) + if Completed(jobs[|jobs| - 1].state) then 1 else 0
  }

  function Sum(xs: seq<real>): real {
    if xs == [] then 0.0 else Sum(xs[..|xs| - 1]) + xs[|xs| - 1]
  }

  function Mean(xs: seq<real>): real {
    if xs == [] then 0.0 else Sum(xs) / |xs| as real
  }

  /** A mean times the number of values is their sum; no values have mean 0. */
  lemma MeanMeans(xs: seq<real>)
    ensures Mean(xs) * |xs| as real == Sum(xs)
    ensures xs == [] ==> Mean(xs) == 0.0
  {
  }

  /** A job's wait: known exactly for completed jobs with both times, the dispatch not before the creation. */
  lemma WaitMeans(job: Sample, w: real)
    ensures Wait(job) == Some(w) <==>
      && job.state in {Succeeded, Failed, DeadLettered}
      && job.createdAt.Some? && job.dispatchedAt == Some(job.createdAt.value + w) && w >= 0.0
  {
  }

  lemma DurationMeans(job: Sample, d: real)
    ensures Duration(job) == Some(d) <==>
      && job.state in {Succeeded, Failed, DeadLettered}
      && job.createdAt.Some? && job.updatedAt == Some(job.createdAt.value + d)
  {
  }

  /** Sums add up over concatenation, and one value sums to itself. */
  lemma {:induction false} SumConcat(a: seq<real>, b: seq<real>, x: real)
    ensures Sum(a + b) == Sum(a) + Sum(b) && Sum([x]) == x
  {
    assert [x][..0] == [];
    assert Sum([x]) == Sum([x][..0]) + x;
    if b == [] {
      assert a + b == a;
    } else {
      var n := |b| - 1;
      SumConcat(a, b[..n], x);
      assert (a + b)[..|a + b| - 1] == a + b[..n];
    }
  }

  lemma {:induction false} CompletedMeans(jobs: seq<Sample>)
    ensures CompletedCount(jobs) == |set i: nat | i < |jobs| && jobs[i].state in {Succeeded, Failed, DeadLettered}|
  {
    var all := set i: nat | i < |jobs| && jobs[i].state in {Succeeded, Failed, DeadLettered};
    if jobs != [] {
      var n := |jobs| - 1;
      CompletedMeans(jobs[..n]);
      var before := set i: nat | i < n && jobs[..n][i].state in {Succeeded, Failed, DeadLettered};
      assert all == before + if jobs[n].state in {Succeeded, Failed, DeadLettered} then {n} else {};
    } else {
      assert all == {};
    }
  }

  predicate Sorted(xs: seq<real>) {
    forall i, j :: 0 <= i < j < |xs| ==> xs[i] <= xs[j]
  }

  // ----- Nearest rank -----

  /** ceil(p/100 * n) clamped to 1..n. */
  function Rank(p: nat, n: nat): (rank: nat)
    requires n > 0
    ensures 1 <= rank <= n
  {
    var r := (p * n + 99) / 100;
    if r < 1 then 1 else if r > n then n else r
  }

  function Percentile(sorted: seq<real>, p: nat): real {
    if sorted == [] then 0.0 else sorted[Rank(p, |sorted|) - 1]
  }

  /** How many observations are at or below x. */
  function AtOrBelow(xs: seq<real>, x: real): nat {
    if xs == [] then 0 else AtOrBelow(xs[..|xs| - 1], x) + if xs[|xs| - 1] <= x then 1 else 0
  }

  /** x is observed, at least p% of the observations are at or below it, and no smaller observation has that. */
  ghost predicate IsPercentile(xs: seq<real>, p: nat, x: real) {
    && x in xs
    && AtOrBelow(xs, x) * 100 >= p * |xs|
    && (forall y :: y in xs && AtOrBelow(xs, y) * 100 >= p * |xs| ==> x <= y)
  }

  lemma {:induction false} AtOrBelowSorted(xs: seq<real>, x: real, k: nat)
    requires Sorted(xs) && k <= |xs|
    ensures (forall i :: 0 <= i < k ==> xs[i] <= x) ==> AtOrBelow(xs, x) >= k
    ensures (forall i :: k <= i < |xs| ==> xs[i] > x) ==> AtOrBelow(xs, x) <= k
  {
    if xs != [] {
      var n := |xs| - 1;
      AtOrBelowSorted(xs[..n], x, if k <= n then k else n);
    }
  }

  lemma RankBounds(p: nat, n: nat)
    requires n > 0 && p <= 100
    ensures Rank(p, n) * 100 >= p * n
    ensures Rank(p, n) > 1 ==> (Rank(p, n) - 1) * 100 < p * n
  {
    assert p * n <= 100 * n by { assert (100 - p) * n >= 0; }
  }

  lemma BelowRank(xs: seq<real>, p: nat, y: real)
    requires Sorted(xs) && xs != [] && 0 < p <= 100 && y < xs[Rank(p, |xs|) - 1]
    ensures AtOrBelow(xs, y) * 100 < p * |xs|
  {
    var r := Rank(p, |xs|);
    RankBounds(p, |xs|);
    AtOrBelowSorted(xs, y, r - 1);
    assert p * |xs| > 0;
  }

  /** On sorted data the value at the rank is the percentile. */
  lemma PercentileIsNearestRank(xs: seq<real>, p: nat)
    requires Sorted(xs) && xs != [] && p <= 100
    ensures IsPercentile(xs, p, Percentile(xs, p))
  {
    var r := Rank(p, |xs|);
    var x := xs[r - 1];
    RankBounds(p, |xs|);
    AtOrBelowSorted(xs, x, r);
    forall y | y in xs && AtOrBelow(xs, y) * 100 >= p * |xs| ensures x <= y {
      if y < x && p > 0 {
        BelowRank(xs, p, y);
        assert false;
      }
    }
  }

  lemma RankMonotone(p: nat, q: nat, n: nat)
    requires n > 0 && p <= q
    ensures Rank(p, n) <= Rank(q, n)
  {
    assert p * n <= q * n by { assert (q - p) * n >= 0; }
  }

  /** Percentiles grow with p. */
  lemma PercentileMonotone(xs: seq<real>, p: nat, q: nat)
    requires Sorted(xs) && p <= q
    ensures Percentile(xs, p) <= Percentile(xs, q)
  {
    if xs != [] {
      RankMonotone(p, q, |xs|);
    }
  }

  // ----- Order of the jobs -----

  function Drop<T>(xs: seq<T>, i: nat): seq<T>
    requires i < |xs|
  {
    xs[..i] + xs[i + 1..]
  }

  lemma DropSplit<T>(xs: seq<T>, i: nat)
    requires i < |xs|
    ensures multiset(xs) == multiset(Drop(xs, i)) + multiset{xs[i]}
    ensures multiset(Drop(xs, i)) == multiset(xs) - multiset{xs[i]}
  {
    assert xs == xs[..i] + [xs[i]] + xs[i + 1..];
  }

  lemma {:induction false} WaitsConcat(a: seq<Sample>, b: seq<Sample>)
    ensures Waits(a + b) == Waits(a) + Waits(b)
  {
    if b == [] {
      assert a + b == a;
    } else {
      var n := |b| - 1;
      WaitsConcat(a, b[..n]);
      assert (a + b)[..|a + b| - 1] == a + b[..n];
    }
  }

  function Share(job: Sample): multiset<real> {
    if Wait(job).Some? then multiset{Wait(job).value} else multiset{}
  }

  lemma WaitsOne(job: Sample)
    ensures multiset(Waits([job])) == Share(job)
  {
    assert [job][..0] == [];
  }

  lemma {:induction false} WaitsDrop(jobs: seq<Sample>, i: nat)
    requires i < |jobs|
    ensures multiset(Waits(jobs)) == multiset(Waits(Drop(jobs, i))) + Share(jobs[i])
  {
    hide Waits, Share;
    var a, x, b := jobs[..i], [jobs[i]], jobs[i + 1..];
    assert jobs == a + (x + b);
    WaitsConcat(a, x + b);
    WaitsConcat(x, b);
    WaitsConcat(a, b);
    WaitsOne(jobs[i]);
  }

  lemma {:induction false} WaitsPermuted(a: seq<Sample>, b: seq<Sample>)
    requires multiset(a) == multiset(b)
    ensures multiset(Waits(a)) == multiset(Waits(b))
    decreases |a|
  {
    assert |a| == |multiset(a)| == |multiset(b)| == |b|;
    if a != [] {
      assert a[0] in multiset(b);
      var i :| 0 <= i < |b| && b[i] == a[0];
      DropSplit(a, 0);
      DropSplit(b, i);
      WaitsPermuted(Drop(a, 0), Drop(b, i));
      WaitsDrop(a, 0);
      WaitsDrop(b, i);
    }
  }

  /** list.sort, by its specification. */
  method Sort(xs: seq<real>) returns (ys: seq<real>)
    ensures Sorted(ys) && multiset(ys) == multiset(xs)
  {
    ys := [];
    for n := 0 to |xs|
      invariant Sorted(ys) && multiset(ys) == multiset(xs[..n])
    {
      assert xs[..n + 1] == xs[..n] + [xs[n]];
      ys := Insert(ys, xs[n]);
    }
    assert xs[..|xs|] == xs;
  }

  lemma InsertBelow(ys: seq<real>, x: real, zs: seq<real>)
    requires Sorted(ys) && ys != [] && x < ys[|ys| - 1] && Sorted(zs)
    requires multiset(zs) == multiset(ys[..|ys| - 1]) + multiset{x}
    requires forall z :: z in zs ==> z == x || z in ys[..|ys| - 1]
    ensures Sorted(zs + [ys[|ys| - 1]]) && multiset(zs + [ys[|ys| - 1]]) == multiset(ys) + multiset{x}
  {
    var n := |ys| - 1;
    assert ys == ys[..n] + [ys[n]];
    forall i | 0 <= i < |zs| ensures zs[i] <= ys[n] {
      assert zs[i] in zs;
    }
  }

  function Insert(ys: seq<real>, x: real): (zs: seq<real>)
    requires Sorted(ys)
    ensures Sorted(zs) && multiset(zs) == multiset(ys) + multiset{x}
    ensures forall z :: z in zs ==> z == x || z in ys
    decreases |ys|
  {
    if ys == [] || x >= ys[|ys| - 1] then ys + [x]
    else
      var n := |ys| - 1;
      var zs := Insert(ys[..n], x);
      InsertBelow(ys, x, zs);
      zs + [ys[n]]
  }

  datatype Metrics = Metrics(completed: nat, averageWait: real, averageCompletion: real, p50: real, p95: real, p99: real)

  /** What the metrics mean: percentiles of the observed waits, 0 when there are none. */
  ghost predicate Meets(jobs: seq<Sample>, m: Metrics) {
    var waits := Waits(jobs);
    && m.completed == CompletedCount(jobs)
    && m.averageWait == Mean(waits) && m.averageCompletion == Mean(Durations(jobs))
    && (waits == [] ==> m.p50 == m.p95 == m.p99 == 0.0)
    && (waits != [] ==> IsPercentile(waits, 50, m.p50) && IsPercentile(waits, 95, m.p95) && IsPercentile(waits, 99, m.p99))
    && m.p50 <= m.p95 <= m.p99
  }

  lemma {:induction false} AtOrBelowPermuted(a: seq<real>, b: seq<real>, x: real)
    requires multiset(a) == multiset(b)
    ensures AtOrBelow(a, x) == AtOrBelow(b, x)
    decreases |a|
  {
    assert |a| == |multiset(a)| == |multiset(b)| == |b|;
    if a != [] {
      assert a[0] in multiset(b);
      var i :| 0 <= i < |b| && b[i] == a[0];
      DropSplit(a, 0);
      DropSplit(b, i);
      AtOrBelowPermuted(Drop(a, 0), Drop(b, i), x);
      AtOrBelowDrop(a, 0, x);
      AtOrBelowDrop(b, i, x);
    }
  }

  lemma {:induction false} AtOrBelowConcat(a: seq<real>, b: seq<real>, x: real)
    ensures AtOrBelow(a + b, x) == AtOrBelow(a, x) + AtOrBelow(b, x)
  {
    if b == [] {
      assert a + b == a;
    } else {
      var n := |b| - 1;
      AtOrBelowConcat(a, b[..n], x);
      assert (a + b)[..|a + b| - 1] == a + b[..n];
    }
  }

  lemma AtOrBelowDrop(xs: seq<real>, i: nat, x: real)
    requires i < |xs|
    ensures AtOrBelow(xs, x) == AtOrBelow(Drop(xs, i), x) + if xs[i] <= x then 1 else 0
  {
    var a, e, b := xs[..i], [xs[i]], xs[i + 1..];
    assert xs == a + (e + b);
    AtOrBelowConcat(a, e + b, x);
    AtOrBelowConcat(e, b, x);
    AtOrBelowConcat(a, b, x);
    assert e[..0] == [];
  }

  /** A percentile of one listing of the waits is a percentile of every listing. */
  lemma PercentilePermuted(a: seq<real>, b: seq<real>, p: nat, x: real)
    requires multiset(a) == multiset(b) && IsPercentile(a, p, x)
    ensures IsPercentile(b, p, x)
  {
    assert |a| == |multiset(a)| == |multiset(b)| == |b|;
    assert x in multiset(a);
    AtOrBelowPermuted(a, b, x);
    forall y | y in b ensures y in a && AtOrBelow(a, y) == AtOrBelow(b, y) {
      assert y in multiset(b);
      AtOrBelowPermuted(a, b, y);
    }
  }

  method ComputeJobDurationMetrics(jobs: seq<Sample>) returns (m: Metrics)
    ensures Meets(jobs, m)
  {
    var completed, waits, durations := 0, [], [];
    for i := 0 to |jobs|
      invariant completed == CompletedCount(jobs[..i]) && waits == Waits(jobs[..i]) && durations == Durations(jobs[..i])
    {
      assert jobs[..i + 1][..i] == jobs[..i];
      var job := jobs[i];
      if Completed(job.state) {
        completed := completed + 1;
        if job.createdAt.Some? && job.dispatchedAt.Some? {
          var wait := job.dispatchedAt.value - job.createdAt.value;
          if wait >= 0.0 {
            waits := waits + [wait];
          }
        }
        if job.createdAt.Some? && job.updatedAt.Some? {
          durations := durations + [job.updatedAt.value - job.createdAt.value];
        }
      }
    }
    assert jobs[..|jobs|] == jobs;
    var sorted := Sort(waits);
    m := Metrics(completed, Mean(waits), Mean(durations), Percentile(sorted, 50), Percentile(sorted, 95), Percentile(sorted, 99));
    ReportIsRight(waits, sorted);
  }

  lemma ReportIsRight(waits: seq<real>, sorted: seq<real>)
    requires Sorted(sorted) && multiset(sorted) == multiset(waits)
    ensures waits == [] <==> sorted == []
    ensures waits != [] ==> forall p :: p in {50, 95, 99} ==> IsPercentile(waits, p, Percentile(sorted, p))
    ensures Percentile(sorted, 50) <= Percentile(sorted, 95) <= Percentile(sorted, 99)
  {
    assert |sorted| == |multiset(sorted)| == |multiset(waits)| == |waits|;
    PercentileMonotone(sorted, 50, 95);
    PercentileMonotone(sorted, 95, 99);
    if waits != [] {
      forall p | p in {50, 95, 99} ensures IsPercentile(waits, p, Percentile(sorted, p)) {
        PercentileIsNearestRank(sorted, p);
        PercentilePermuted(sorted, waits, p, Percentile(sorted, p));
      }
    }
  }

  /** The percentiles do not depend on the order of the jobs. */
  lemma PercentilesIgnoreOrder(a: seq<Sample>, b: seq<Sample>, m: Metrics, n: Metrics)
    requires multiset(a) == multiset(b) && Meets(a, m) && Meets(b, n)
    ensures m.p50 == n.p50 && m.p95 == n.p95 && m.p99 == n.p99
  {
    WaitsPermuted(a, b);
    var u, v := Waits(a), Waits(b);
    assert |u| == |multiset(u)| == |multiset(v)| == |v|;
    if u != [] {
      PercentilePermuted(u, v, 50, m.p50);
      PercentilePermuted(u, v, 95, m.p95);
      PercentilePermuted(u, v, 99, m.p99);
    }
  }
}
