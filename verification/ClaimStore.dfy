/**
  The idempotency store: a key is claimed until its time to live has passed.  Time is a parameter
  of each call.  SET NX EX on a Redis server has the same effect on the server's keys.
 */
module ClaimStore {
  import opened Wrappers
  import opened Text

  /** key -> the time its claim expires. */
  type Store = map<string, real>

  predicate Free(store: Store, key: string, now: real) {
    key !in store || store[key] <= now
  }

  function Claimed(store: Store, key: string, ttl: int, now: real): Store {
    if Free(store, key, now) then store[key := now + ttl as real] else store
  }

  function Cleaned(store: Store, now: real): Store {
    map key | key in store && store[key] > now :: store[key]
  }

  datatype ClaimError = BlankKey | TtlNotPositive

  class InMemoryIdempotencyStore {
    var expiryByKey: Store

    constructor ()
      ensures expiryByKey == map[]
    {
      expiryByKey := map[];
    }

    method TryClaim(key: string, ttl: int, now: real) returns (r: Result<bool, ClaimError>)
      modifies this
      ensures r == Err(BlankKey) <==> Blank(key)
      ensures r.Ok? <==> !Blank(key) && ttl > 0
      ensures r.Err? ==> expiryByKey == old(expiryByKey)
      ensures r.Ok? ==> r.value == Free(old(expiryByKey), key, now)
      ensures r.Ok? ==> expiryByKey == Claimed(old(expiryByKey), key, ttl, now)
    {
      if Blank(key) {
        return Err(BlankKey);
      }
      if ttl <= 0 {
        return Err(TtlNotPositive);
      }
      if key !in expiryByKey || expiryByKey[key] <= now {
        expiryByKey := expiryByKey[key := now + ttl as real];
        return Ok(true);
      }
      return Ok(false);
    }

    method CleanupExpired(now: real) returns (removed: nat)
      modifies this
      ensures expiryByKey == Cleaned(old(expiryByKey), now)
      ensures removed == |old(expiryByKey)| - |expiryByKey|
    {
      var expired := set key | key in expiryByKey && expiryByKey[key] <= now;
      removed := |expired|;
      ghost var keys := expiryByKey.Keys;
      expiryByKey := expiryByKey - expired;
      assert expiryByKey == Cleaned(old(expiryByKey), now);
      assert expiryByKey.Keys == keys - expired && expired <= keys;
      assert |keys| == |old(expiryByKey)| && |expiryByKey.Keys| == |expiryByKey|;
    }
  }

  // ----- Runs -----

  datatype Op = Claim(key: string, ttl: nat, now: real) | Cleanup(now: real)

  /** A granted claim and the half-open interval [start, end) it holds its key. */
  datatype Grant = Grant(key: string, start: real, end: real)

  function Step(store: Store, op: Op): Store {
    match op
    case Claim(key, ttl, now) => Claimed(store, key, ttl, now)
    case Cleanup(now) => Cleaned(store, now)
  }

  predicate Grants(store: Store, op: Op) {
    op.Claim? && Free(store, op.key, op.now)
  }

  /** The answers of a run's claims. */
  function Answers(store: Store, ops: seq<Op>): seq<bool>
    decreases ops
  {
    if ops == [] then []
    else if ops[0].Claim? then [Grants(store, ops[0])] + Answers(Step(store, ops[0]), ops[1..])
    else Answers(Step(store, ops[0]), ops[1..])
  }

  function Granted(store: Store, ops: seq<Op>): seq<Grant>
    decreases ops
  {
    if ops == [] then []
    else
      var rest := Granted(Step(store, ops[0]), ops[1..]);
      if Grants(store, ops[0])
      then [Grant(ops[0].key, ops[0].now, ops[0].now + ops[0].ttl as real)] + rest
      else rest
  }

  predicate NoCleanup(ops: seq<Op>) {
    forall i :: 0 <= i < |ops| ==> ops[i].Claim?
  }

  predicate ClockForward(ops: seq<Op>) {
    forall i, j :: 0 <= i < j < |ops| ==> ops[i].now <= ops[j].now
  }

  /** The clock never goes back, or nothing is ever cleaned up. */
  predicate Orderly(ops: seq<Op>) {
    ClockForward(ops) || NoCleanup(ops)
  }

  /** Nobody can be granted `key` before time t. */
  ghost predicate HeldUntil(store: Store, ops: seq<Op>, key: string, t: real) {
    (key in store && store[key] >= t) || forall i :: 0 <= i < |ops| ==> ops[i].now >= t
  }

  lemma HeldStep(store: Store, ops: seq<Op>, key: string, t: real)
    requires ops != [] && Orderly(ops) && HeldUntil(store, ops, key, t)
    ensures HeldUntil(Step(store, ops[0]), ops[1..], key, t)
    ensures Grants(store, ops[0]) && ops[0].key == key ==> ops[0].now >= t
  {
    assert forall i :: 0 <= i < |ops[1..]| ==> ops[1..][i] == ops[i + 1];
  }

  lemma OrderlyTail(ops: seq<Op>)
    requires ops != [] && Orderly(ops)
    ensures Orderly(ops[1..])
  {
    assert forall i :: 0 <= i < |ops[1..]| ==> ops[1..][i] == ops[i + 1];
  }

  lemma {:induction false} GrantsAfter(store: Store, ops: seq<Op>, key: string, t: real)
    requires Orderly(ops) && HeldUntil(store, ops, key, t)
    ensures forall g :: g in Granted(store, ops) && g.key == key ==> g.start >= t
    decreases ops
  {
    if ops != [] {
      HeldStep(store, ops, key, t);
      OrderlyTail(ops);
      GrantsAfter(Step(store, ops[0]), ops[1..], key, t);
    }
  }

  /** Grants of one key follow one another without overlap. */
  ghost predicate Exclusive(gs: seq<Grant>) {
    forall i, j :: 0 <= i < j < |gs| && gs[i].key == gs[j].key ==> gs[i].end <= gs[j].start
  }

  /**
    Exclusivity: in any run with the clock never going back, or without cleanups whatever the clock
    does, the intervals for which one key is granted are disjoint and in order, for any mix of TTLs.
   */
  lemma {:induction false} GrantsAreExclusive(store: Store, ops: seq<Op>)
    requires Orderly(ops)
    ensures Exclusive(Granted(store, ops))
    decreases ops
  {
    if ops != [] {
      var store' := Step(store, ops[0]);
      OrderlyTail(ops);
      GrantsAreExclusive(store', ops[1..]);
      if Grants(store, ops[0]) {
        var g, rest := Grant(ops[0].key, ops[0].now, ops[0].now + ops[0].ttl as real), Granted(store', ops[1..]);
        GrantsAfter(store', ops[1..], g.key, g.end);
        assert forall j :: 0 <= j < |rest| ==> rest[j] in rest;
      }
    }
  }

  /** Both disjuncts are needed: a cleanup on a clock that then goes back lets two claims overlap. */
  lemma BackwardCleanupOverlaps()
    ensures var gs := Granted(map[], [Claim("k", 10, 0.0), Cleanup(20.0), Claim("k", 10, 5.0)]);
      |gs| == 2 && gs[0].key == gs[1].key && gs[0].end > gs[1].start
  {
    var a, b, c := Claim("k", 10, 0.0), Cleanup(20.0), Claim("k", 10, 5.0);
    var ops := [a, b, c];
    assert ops[1..] == [b, c] && [b, c][1..] == [c] && [c][1..] == [];
    var s1 := Step(map[], a);
    var s2 := Step(s1, b);
    assert s1 == map["k" := 10.0] && s2 == map[];
    assert Granted(s2, [c]) == [Grant("k", 5.0, 15.0)] + [];
    assert Granted(s1, [b, c]) == Granted(s2, [c]);
    assert Granted(map[], ops) == [Grant("k", 0.0, 10.0)] + Granted(s1, [b, c]);
  }

  /** Exactly when a cleanup at c changes a later claim's answer at t: the clock went back past a live expiry. */
  lemma CleanupChangesAnswer(store: Store, key: string, c: real, t: real)
    ensures Free(Cleaned(store, c), key, t) != Free(store, key, t) <==> key in store && t < store[key] <= c
  {
  }

  // ----- Cleanups do not matter on a forward clock -----

  function WithoutCleanups(ops: seq<Op>): seq<Op> {
    if ops == [] then []
    else if ops[0].Claim? then [ops[0]] + WithoutCleanups(ops[1..])
    else WithoutCleanups(ops[1..])
  }

  /** a is b without some keys that have expired by all the times to come. */
  ghost predicate Trims(a: Store, b: Store, ops: seq<Op>) {
    forall key ::
      && (key in a ==> key in b && b[key] == a[key])
      && (key in b && key !in a ==> forall i :: 0 <= i < |ops| ==> b[key] <= ops[i].now)
  }

  lemma TrimsStep(a: Store, b: Store, ops: seq<Op>)
    requires ops != [] && ClockForward(ops) && Trims(a, b, ops)
    ensures ops[0].Claim? ==> Grants(a, ops[0]) == Grants(b, ops[0]) && Trims(Step(a, ops[0]), Step(b, ops[0]), ops[1..])
    ensures ops[0].Cleanup? ==> Trims(Step(a, ops[0]), b, ops[1..])
  {
    assert forall i :: 0 <= i < |ops[1..]| ==> ops[1..][i] == ops[i + 1];
  }

  lemma {:induction false} TrimmedAnswers(a: Store, b: Store, ops: seq<Op>)
    requires ClockForward(ops) && Trims(a, b, ops)
    ensures Answers(a, ops) == Answers(b, WithoutCleanups(ops))
    decreases ops
  {
    if ops != [] {
      TrimsStep(a, b, ops);
      assert ClockForward(ops[1..]);
      if ops[0].Claim? {
        TrimmedAnswers(Step(a, ops[0]), Step(b, ops[0]), ops[1..]);
        assert ([ops[0]] + WithoutCleanups(ops[1..]))[1..] == WithoutCleanups(ops[1..]);
      } else {
        TrimmedAnswers(Step(a, ops[0]), b, ops[1..]);
      }
    }
  }

  /** On a clock that never goes back, cleanups inserted anywhere change no claim's answer. */
  lemma CleanupsDoNotMatter(store: Store, ops: seq<Op>)
    requires ClockForward(ops)
    ensures Answers(store, ops) == Answers(store, WithoutCleanups(ops))
  {
    TrimmedAnswers(store, store, ops);
  }

  // ----- Exactly which runs keep claims apart -----

  function Expired(store: Store, now: real): set<string> {
    set key | key in store && store[key] <= now
  }

  /**
    The clock condition, in terms of the claims alone: `store` holds what was claimed, never cleaned,
    and `gone` the keys a cleanup has removed since their last grant.  No claim of such a key may come
    at a time before the expiry that the cleanup took to be past.
   */
  predicate Timely(store: Store, gone: set<string>, ops: seq<Op>)
    decreases ops
  {
    ops == [] ||
    match ops[0]
    case Claim(key, ttl, now) =>
      && !(key in gone && key in store && now < store[key])
      && Timely(Claimed(store, key, ttl, now), if Free(store, key, now) then gone - {key} else gone, ops[1..])
    case Cleanup(now) => Timely(store, gone + Expired(store, now), ops[1..])
  }

  /** a is b without the keys that cleanups removed. */
  ghost predicate Pruned(a: Store, b: Store, gone: set<string>) {
    forall key :: (key in a <==> key in b && key !in gone) && (key in a ==> a[key] == b[key])
  }

  lemma PrunedClaim(a: Store, b: Store, gone: set<string>, key: string, ttl: nat, now: real)
    requires Pruned(a, b, gone)
    ensures Free(a, key, now) != Free(b, key, now) <==> key in gone && key in b && now < b[key]
    ensures Free(a, key, now) == Free(b, key, now) ==>
      Pruned(Claimed(a, key, ttl, now), Claimed(b, key, ttl, now), if Free(b, key, now) then gone - {key} else gone)
  {
  }

  lemma PrunedCleanup(a: Store, b: Store, gone: set<string>, now: real)
    requires Pruned(a, b, gone)
    ensures Pruned(Cleaned(a, now), b, gone + Expired(b, now))
  {
  }

  lemma AnswersHead(store: Store, ops: seq<Op>)
    requires ops != []
    ensures ops[0].Claim? ==>
      && Answers(store, ops) == [Grants(store, ops[0])] + Answers(Step(store, ops[0]), ops[1..])
      && WithoutCleanups(ops) == [ops[0]] + WithoutCleanups(ops[1..])
      && Answers(store, WithoutCleanups(ops)) == [Grants(store, ops[0])] + Answers(Step(store, ops[0]), WithoutCleanups(ops[1..]))
    ensures ops[0].Cleanup? ==>
      Answers(store, ops) == Answers(Step(store, ops[0]), ops[1..]) && WithoutCleanups(ops) == WithoutCleanups(ops[1..])
  {
    assert ([ops[0]] + WithoutCleanups(ops[1..]))[1..] == WithoutCleanups(ops[1..]);
  }

  /** Cleanups change no answer of a run exactly when the run is timely. */
  lemma {:induction false} TimelyAnswers(a: Store, b: Store, gone: set<string>, ops: seq<Op>)
    requires Pruned(a, b, gone)
    ensures Answers(a, ops) == Answers(b, WithoutCleanups(ops)) <==> Timely(b, gone, ops)
    decreases ops
  {
    if ops != [] {
      AnswersHead(a, ops);
      AnswersHead(b, ops);
      hide Answers, WithoutCleanups;
      match ops[0] {
        case Claim(key, ttl, now) =>
          PrunedClaim(a, b, gone, key, ttl, now);
          if Free(a, key, now) == Free(b, key, now) {
            var a', b' := Claimed(a, key, ttl, now), Claimed(b, key, ttl, now);
            TimelyAnswers(a', b', if Free(b, key, now) then gone - {key} else gone, ops[1..]);
            SameHead(Free(b, key, now), Answers(a', ops[1..]), Answers(b', WithoutCleanups(ops[1..])));
          } else {
            assert ([Free(a, key, now)] + Answers(Claimed(a, key, ttl, now), ops[1..]))[0] == Free(a, key, now);
          }
        case Cleanup(now) =>
          PrunedCleanup(a, b, gone, now);
          TimelyAnswers(Cleaned(a, now), b, gone + Expired(b, now), ops[1..]);
      }
    } else {
      assert WithoutCleanups(ops) == [];
    }
  }

  lemma SameHead(x: bool, u: seq<bool>, v: seq<bool>)
    ensures [x] + u == [x] + v <==> u == v
  {
    assert ([x] + u)[1..] == u && ([x] + v)[1..] == v;
  }

  /** Every expiry in the store is the end of some grant. */
  ghost predicate Backs(past: seq<Grant>, store: Store) {
    forall key :: key in store ==> exists i :: 0 <= i < |past| && past[i].key == key && past[i].end == store[key]
  }

  lemma BacksClaim(past: seq<Grant>, store: Store, key: string, ttl: nat, now: real)
    requires Backs(past, store)
    ensures Free(store, key, now) ==> Backs(past + [Grant(key, now, now + ttl as real)], Claimed(store, key, ttl, now))
  {
    var past' := past + [Grant(key, now, now + ttl as real)];
    if Free(store, key, now) {
      forall k | k in Claimed(store, key, ttl, now)
        ensures exists i :: 0 <= i < |past'| && past'[i].key == k && past'[i].end == Claimed(store, key, ttl, now)[k]
      {
        if k == key {
          assert past'[|past|].key == key;
        } else {
          var i :| 0 <= i < |past| && past[i].key == k && past[i].end == store[k];
          assert past'[i] == past[i];
        }
      }
    }
  }

  lemma OverlapHere(past: seq<Grant>, store: Store, g: Grant, rest: seq<Grant>)
    requires Backs(past, store) && g.key in store && g.start < store[g.key]
    ensures !Exclusive(past + ([g] + rest))
  {
    var i :| 0 <= i < |past| && past[i].key == g.key && past[i].end == store[g.key];
    var all := past + ([g] + rest);
    assert all[i] == past[i] && all[|past|] == g;
  }

  lemma GrantedHead(store: Store, ops: seq<Op>)
    requires ops != []
    ensures Granted(store, ops)
      == (if Grants(store, ops[0]) then [Grant(ops[0].key, ops[0].now, ops[0].now + ops[0].ttl as real)] else [])
         + Granted(Step(store, ops[0]), ops[1..])
  {
  }

  /** A run that is not timely has two grants that overlap. */
  lemma {:induction false} UntimelyOverlaps(past: seq<Grant>, a: Store, b: Store, gone: set<string>, ops: seq<Op>)
    requires Pruned(a, b, gone) && Backs(past, b) && !Timely(b, gone, ops)
    ensures !Exclusive(past + Granted(a, ops))
    decreases ops
  {
    GrantedHead(a, ops);
    hide Granted, Exclusive, Backs;
    match ops[0] {
      case Claim(key, ttl, now) =>
        PrunedClaim(a, b, gone, key, ttl, now);
        var g, rest := Grant(key, now, now + ttl as real), Granted(Claimed(a, key, ttl, now), ops[1..]);
        if Free(a, key, now) != Free(b, key, now) {
          OverlapHere(past, b, g, rest);
        } else if Free(b, key, now) {
          BacksClaim(past, b, key, ttl, now);
          UntimelyOverlaps(past + [g], Claimed(a, key, ttl, now), Claimed(b, key, ttl, now), gone - {key}, ops[1..]);
          assert (past + [g]) + rest == past + ([g] + rest);
        } else {
          UntimelyOverlaps(past, a, b, gone, ops[1..]);
          assert [] + rest == rest;
        }
      case Cleanup(now) =>
        PrunedCleanup(a, b, gone, now);
        UntimelyOverlaps(past, Cleaned(a, now), b, gone + Expired(b, now), ops[1..]);
        assert [] + Granted(Cleaned(a, now), ops[1..]) == Granted(Cleaned(a, now), ops[1..]);
    }
  }

  /** A timely run grants what it would grant without its cleanups. */
  lemma {:induction false} TimelyGrants(a: Store, b: Store, gone: set<string>, ops: seq<Op>)
    requires Pruned(a, b, gone) && Timely(b, gone, ops)
    ensures Granted(a, ops) == Granted(b, WithoutCleanups(ops))
    decreases ops
  {
    if ops != [] {
      match ops[0] {
        case Claim(key, ttl, now) =>
          PrunedClaim(a, b, gone, key, ttl, now);
          var a', b' := Claimed(a, key, ttl, now), Claimed(b, key, ttl, now);
          TimelyGrants(a', b', if Free(b, key, now) then gone - {key} else gone, ops[1..]);
          assert ([ops[0]] + WithoutCleanups(ops[1..]))[1..] == WithoutCleanups(ops[1..]);
        case Cleanup(now) =>
          PrunedCleanup(a, b, gone, now);
          TimelyGrants(Cleaned(a, now), b, gone + Expired(b, now), ops[1..]);
      }
    }
  }

  lemma {:induction false} NoneLeft(ops: seq<Op>)
    ensures NoCleanup(WithoutCleanups(ops))
  {
    if ops != [] {
      NoneLeft(ops[1..]);
    }
  }

  /**
    Exclusivity, exactly: from an empty store, on any clock, the granted intervals of every key are
    disjoint and in order if and only if the cleanups change no claim's answer, if and only if no
    claim comes before an expiry that a cleanup has already taken to be past.
   */
  lemma ExclusiveExactly(ops: seq<Op>)
    ensures Exclusive(Granted(map[], ops)) <==> Timely(map[], {}, ops)
    ensures Exclusive(Granted(map[], ops)) <==> Answers(map[], ops) == Answers(map[], WithoutCleanups(ops))
  {
    hide Granted, Exclusive, Timely, Answers, WithoutCleanups;
    TimelyAnswers(map[], map[], {}, ops);
    if Timely(map[], {}, ops) {
      TimelyGrants(map[], map[], {}, ops);
      NoneLeft(ops);
      GrantsAreExclusive(map[], WithoutCleanups(ops));
    } else {
      UntimelyOverlaps([], map[], map[], {}, ops);
      assert [] + Granted(map[], ops) == Granted(map[], ops);
    }
  }
}
