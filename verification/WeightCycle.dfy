/**
  One lap of the weighted round-robin pattern: tenants repeated in proportion to
  their GCD-reduced weights.  Both tenant schedulers build their lap this way.
 */
module WeightCycle {
  import opened Arithmetic

  type Tenant = string

  /** A Python dict of weights, in insertion order: keys are distinct. */
  type Weights = ws: seq<(Tenant, int)> | DistinctTenants(ws)

  predicate DistinctTenants(ws: seq<(Tenant, int)>) {
    forall i, j :: 0 <= i < j < |ws| ==> ws[i].0 != ws[j].0
  }

  predicate Positive(ws: seq<(Tenant, int)>) {
    ws != [] && forall i :: 0 <= i < |ws| ==> ws[i].1 > 0
  }

  /** math.gcd. */
  function Gcd(a: nat, b: nat): nat
    decreases b
  {
    if b == 0 then a else Gcd(b, a % b)
  }

  /** reduce(math.gcd, values): a left fold. */
  function GcdOf(ws: seq<(Tenant, int)>): (g: nat)
    requires Positive(ws)
    ensures g > 0
  {
    var n := |ws| - 1;
    if n == 0 then ws[0].1
    else
      var g := GcdOf(ws[..n]);
      GcdDivides(g, ws[n].1);
      Gcd(g, ws[n].1)
  }

  /** The lap for weights divided by g, in insertion order. */
  function Lap(ws: seq<(Tenant, int)>, g: nat): seq<Tenant>
    requires g > 0
    requires forall i :: 0 <= i < |ws| ==> ws[i].1 > 0
  {
    if ws == [] then []
    else
      var n := |ws| - 1;
      Lap(ws[..n], g) + seq(ws[n].1 / g, _ => ws[n].0)
  }

  function Cycle(ws: Weights): seq<Tenant>
    requires Positive(ws)
  {
    Lap(ws, GcdOf(ws))
  }

  /** Number of slots a tenant has in a list of turns. */
  function Slots(lap: seq<Tenant>, t: Tenant): nat {
    multiset(lap)[t]
  }

  method BuildWeightCycle(ws: Weights) returns (lap: seq<Tenant>)
    requires Positive(ws)
    ensures lap == Cycle(ws)
  {
    var g := GcdOf(ws);
    lap := [];
    for i := 0 to |ws|
      invariant lap == Lap(ws[..i], g)
    {
      assert ws[..i+1][..i] == ws[..i];
      lap := lap + seq(ws[i].1 / g, _ => ws[i].0);
    }
    assert ws[..|ws|] == ws;
  }

  // ----- Divisibility -----

  predicate IsMultiple(k: nat, d: nat, n: nat) {
    k * d == n
  }

  ghost predicate Divides(d: nat, n: nat) {
    exists k: nat :: IsMultiple(k, d, n)
  }

  lemma MultipleDivides(k: nat, d: nat, n: nat)
    requires k * d == n
    ensures Divides(d, n)
  {
    assert IsMultiple(k, d, n);
  }

  lemma Quotient(d: nat, n: nat) returns (k: nat)
    requires Divides(d, n)
    ensures k * d == n
  {
    k :| IsMultiple(k, d, n);
  }

  lemma DividesTrans(a: nat, b: nat, c: nat)
    requires Divides(a, b) && Divides(b, c)
    ensures Divides(a, c)
  {
    var k := Quotient(a, b);
    var l := Quotient(b, c);
    assert (l * k) * a == l * (k * a);
    MultipleDivides(l * k, a, c);
  }

  /** d | x and d | y give d | x + q*y, and d | x - q*y when that is not negative. */
  lemma DividesCombination(d: nat, x: nat, y: nat, q: nat)
    requires Divides(d, x) && Divides(d, y)
    ensures Divides(d, x + q * y)
    ensures q * y <= x ==> Divides(d, x - q * y)
  {
    var k := Quotient(d, x);
    var l := Quotient(d, y);
    MulAssoc(q, l, d);
    assert (k + q * l) * d == k * d + (q * l) * d;
    assert (k - q * l) * d == k * d - (q * l) * d;
    MultipleDivides(k + q * l, d, x + q * y);
    if q * y <= x {
      if k >= q * l {
        MultipleDivides(k - q * l, d, x - q * y);
      } else {
        assert (k - q * l) * d <= 0;
        MultipleDivides(0, d, x - q * y);
      }
    }
  }

  lemma DividesRemainder(d: nat, a: nat, b: nat)
    requires b > 0 && Divides(d, a % b) && Divides(d, b)
    ensures Divides(d, a)
  {
    DividesCombination(d, a % b, b, a / b);
    assert a % b + (a / b) * b == a;
  }

  lemma {:induction false} GcdDivides(a: nat, b: nat)
    requires a > 0
    ensures Divides(Gcd(a, b), a) && Divides(Gcd(a, b), b)
    ensures Gcd(a, b) > 0
    decreases b
  {
    if b == 0 {
      MultipleDivides(1, a, a);
      MultipleDivides(0, a, 0);
    } else {
      GcdDivides(b, a % b);
      DividesRemainder(Gcd(b, a % b), a, b);
    }
  }

  /** Bezout in the form needed here: d dividing m*a and m*b divides m*gcd. */
  lemma {:induction false} GcdLinear(d: nat, m: nat, a: nat, b: nat)
    requires Divides(d, m * a) && Divides(d, m * b)
    ensures Divides(d, m * Gcd(a, b))
    decreases b
  {
    if b > 0 {
      DividesCombination(d, m * a, m * b, a / b);
      assert m * (a % b) == m * a - (a / b) * (m * b) by {
        assert a % b == a - (a / b) * b;
        assert m * (a - (a / b) * b) == m * a - m * ((a / b) * b);
        assert m * ((a / b) * b) == (a / b) * (m * b);
      }
      GcdLinear(d, m, b, a % b);
    }
  }

  lemma {:induction false} GcdOfDivides(ws: seq<(Tenant, int)>, i: nat)
    requires Positive(ws) && i < |ws|
    ensures Divides(GcdOf(ws), ws[i].1)
  {
    var n := |ws| - 1;
    if n == 0 {
      MultipleDivides(1, ws[0].1, ws[0].1);
    } else {
      GcdDivides(GcdOf(ws[..n]), ws[n].1);
      if i < n {
        GcdOfDivides(ws[..n], i);
        DividesTrans(GcdOf(ws), GcdOf(ws[..n]), ws[i].1);
      }
    }
  }

  lemma {:induction false} GcdOfLinear(d: nat, m: nat, ws: seq<(Tenant, int)>)
    requires Positive(ws)
    requires forall i :: 0 <= i < |ws| ==> Divides(d, m * ws[i].1)
    ensures Divides(d, m * GcdOf(ws))
  {
    var n := |ws| - 1;
    if n > 0 {
      forall i | 0 <= i < n ensures Divides(d, m * ws[..n][i].1) {
        assert ws[..n][i] == ws[i];
      }
      GcdOfLinear(d, m, ws[..n]);
      GcdLinear(d, m, GcdOf(ws[..n]), ws[n].1);
    }
  }

  // ----- The lap -----

  lemma {:induction false} RepeatSlots(n: nat, u: Tenant, t: Tenant)
    ensures Slots(seq(n, _ => u), t) == if t == u then n else 0
  {
    if n == 0 {
      assert seq(0, _ => u) == [];
    } else {
      RepeatSlots(n - 1, u, t);
      assert seq(n, _ => u) == seq(n - 1, _ => u) + [u];
    }
  }

  lemma {:induction false} LapSlots(ws: seq<(Tenant, int)>, g: nat, t: Tenant)
    requires g > 0 && DistinctTenants(ws)
    requires forall i :: 0 <= i < |ws| ==> ws[i].1 > 0
    ensures forall i :: 0 <= i < |ws| && ws[i].0 == t ==> Slots(Lap(ws, g), t) == ws[i].1 / g
    ensures (forall i :: 0 <= i < |ws| ==> ws[i].0 != t) ==> Slots(Lap(ws, g), t) == 0
  {
    if ws != [] {
      var n := |ws| - 1;
      LapSlots(ws[..n], g, t);
      RepeatSlots(ws[n].1 / g, ws[n].0, t);
      assert forall i :: 0 <= i < n ==> ws[..n][i] == ws[i];
    }
  }

  lemma {:induction false} TenantSlots(ws: Weights, i: nat)
    requires Positive(ws) && i < |ws|
    ensures Slots(Cycle(ws), ws[i].0) * GcdOf(ws) == ws[i].1 && Slots(Cycle(ws), ws[i].0) > 0
  {
    var g := GcdOf(ws);
    LapSlots(ws, g, ws[i].0);
    GcdOfDivides(ws, i);
    hide Lap, GcdOf, Divides, Slots;
    var k := Quotient(g, ws[i].1);
    DivisionUnique(ws[i].1, g, k, 0);
  }

  /** Each tenant holds exactly weight/gcd slots, at least one; nobody else holds any. */
  lemma CycleSlots(ws: Weights)
    requires Positive(ws)
    ensures forall i :: 0 <= i < |ws| ==>
      Slots(Cycle(ws), ws[i].0) * GcdOf(ws) == ws[i].1 && Slots(Cycle(ws), ws[i].0) > 0
    ensures forall t :: t in Cycle(ws) <==> exists i :: 0 <= i < |ws| && ws[i].0 == t
    ensures Cycle(ws) != []
  {
    forall i | 0 <= i < |ws|
      ensures Slots(Cycle(ws), ws[i].0) * GcdOf(ws) == ws[i].1 && Slots(Cycle(ws), ws[i].0) > 0
    {
      TenantSlots(ws, i);
    }
    forall t ensures t in Cycle(ws) <==> exists i :: 0 <= i < |ws| && ws[i].0 == t {
      assert t in Cycle(ws) <==> t in multiset(Cycle(ws));
      LapSlots(ws, GcdOf(ws), t);
    }
    assert ws[0].0 in Cycle(ws);
  }

  /** The lap holds only tenants that have a weight. */
  lemma {:induction false} LapNames(ws: seq<(Tenant, int)>, g: nat, p: nat) returns (k: nat)
    requires g > 0 && (forall i :: 0 <= i < |ws| ==> ws[i].1 > 0) && p < |Lap(ws, g)|
    ensures k < |ws| && ws[k].0 == Lap(ws, g)[p]
  {
    var n := |ws| - 1;
    if p < |Lap(ws[..n], g)| {
      k := LapNames(ws[..n], g, p);
    } else {
      k := n;
    }
  }

  lemma {:induction false} LapInOrder(ws: seq<(Tenant, int)>, g: nat, i: nat, j: nat, p: nat, q: nat)
    requires g > 0 && DistinctTenants(ws) && (forall k :: 0 <= k < |ws| ==> ws[k].1 > 0)
    requires i < j < |ws| && p < |Lap(ws, g)| && q < |Lap(ws, g)|
    requires Lap(ws, g)[p] == ws[i].0 && Lap(ws, g)[q] == ws[j].0
    ensures p < q
  {
    var n := |ws| - 1;
    var rest := Lap(ws[..n], g);
    if q < |rest| {
      var k := LapNames(ws[..n], g, q);
      assert k == j;
      LapInOrder(ws[..n], g, i, j, p, q);
    }
  }

  /** The lap follows the order of the weights: all slots of a tenant come before all slots of a later one. */
  lemma CycleInOrder(ws: Weights, i: nat, j: nat, p: nat, q: nat)
    requires Positive(ws) && i < j < |ws| && p < |Cycle(ws)| && q < |Cycle(ws)|
    requires Cycle(ws)[p] == ws[i].0 && Cycle(ws)[q] == ws[j].0
    ensures p < q
  {
    LapInOrder(ws, GcdOf(ws), i, j, p, q);
  }

  lemma ScaleDivisor(d: nat, c: nat, g: nat)
    requires Divides(d, c)
    ensures Divides(d * g, c * g)
  {
    var k := Quotient(d, c);
    MulAssoc(k, d, g);
    MultipleDivides(k, d * g, c * g);
  }

  lemma UnitFactor(d: nat, g: nat)
    requires g > 0 && Divides(d * g, g)
    ensures d == 1
  {
    var k := Quotient(d * g, g);
    MulAssoc(k, d, g);
    CancelFactor(k * d, 1, g);
    if d > 1 {
      MulPositive(k, d);
      assert false;
    }
  }

  /** The slot counts have no common divisor other than 1. */
  lemma CycleCoprime(ws: Weights, d: nat)
    requires Positive(ws)
    requires forall i :: 0 <= i < |ws| ==> Divides(d, Slots(Cycle(ws), ws[i].0))
    ensures d == 1
  {
    CycleSlots(ws);
    var g := GcdOf(ws);
    forall i | 0 <= i < |ws| ensures Divides(d * g, 1 * ws[i].1) {
      ScaleDivisor(d, Slots(Cycle(ws), ws[i].0), g);
    }
    GcdOfLinear(d * g, 1, ws);
    UnitFactor(d, g);
  }

  /** Tenants i and j have turns in the ratio of their weights. */
  ghost predicate SameRatio(ws: Weights, turns: seq<Tenant>, i: nat, j: nat)
    requires i < |ws| && j < |ws|
  {
    Slots(turns, ws[i].0) * ws[j].1 == Slots(turns, ws[j].0) * ws[i].1
  }

  /** A list of turns in which tenants appear in the proportions of their weights. */
  ghost predicate Proportional(ws: Weights, turns: seq<Tenant>) {
    && turns != []
    && (forall t :: t in turns ==> exists i :: 0 <= i < |ws| && ws[i].0 == t)
    && (forall i, j :: 0 <= i < |ws| && 0 <= j < |ws| ==> SameRatio(ws, turns, i, j))
  }

  lemma CycleIsProportional(ws: Weights)
    requires Positive(ws)
    ensures Proportional(ws, Cycle(ws))
  {
    CycleSlots(ws);
    forall i, j | 0 <= i < |ws| && 0 <= j < |ws|
      ensures SameRatio(ws, Cycle(ws), i, j)
    {
      MulAssoc(Slots(Cycle(ws), ws[i].0), Slots(Cycle(ws), ws[j].0), GcdOf(ws));
    }
  }

  lemma FirstTenantLaps(ws: Weights, turns: seq<Tenant>) returns (laps: nat)
    requires Positive(ws) && Proportional(ws, turns)
    ensures Slots(turns, ws[0].0) == laps * Slots(Cycle(ws), ws[0].0)
  {
    CycleSlots(ws);
    var g, w0, l0 := GcdOf(ws), ws[0].1, Slots(turns, ws[0].0);
    forall j | 0 <= j < |ws| ensures Divides(w0, l0 * ws[j].1) {
      assert SameRatio(ws, turns, 0, j);
      MultipleDivides(Slots(turns, ws[j].0), w0, l0 * ws[j].1);
    }
    GcdOfLinear(w0, l0, ws);
    laps := Quotient(w0, l0 * g);
    MulAssoc(laps, Slots(Cycle(ws), ws[0].0), g);
    CancelFactor(laps * Slots(Cycle(ws), ws[0].0), l0, g);
  }

  lemma ScaleSlots(li: nat, ci: nat, c0: nat, g: nat, laps: nat)
    requires g > 0 && c0 > 0 && li * (c0 * g) == (laps * c0) * (ci * g)
    ensures li == laps * ci
  {
    MulPositive(c0, g);
    MulAssoc(laps * c0, ci, g);
    MulAssoc(laps * ci, c0, g);
    assert (laps * c0) * ci == (laps * ci) * c0;
    CancelFactor(li, laps * ci, c0 * g);
  }

  lemma TenantLaps(ws: Weights, turns: seq<Tenant>, laps: nat, i: nat)
    requires Positive(ws) && Proportional(ws, turns) && i < |ws|
    requires Slots(turns, ws[0].0) == laps * Slots(Cycle(ws), ws[0].0)
    ensures Slots(turns, ws[i].0) == laps * Slots(Cycle(ws), ws[i].0)
  {
    CycleSlots(ws);
    assert SameRatio(ws, turns, 0, i);
    ScaleSlots(Slots(turns, ws[i].0), Slots(Cycle(ws), ws[i].0), Slots(Cycle(ws), ws[0].0), GcdOf(ws), laps);
  }

  lemma CoversOneLap(cycle: seq<Tenant>, turns: seq<Tenant>, laps: nat)
    requires laps >= 1
    requires forall t :: t in cycle ==> Slots(turns, t) == laps * Slots(cycle, t)
    ensures multiset(cycle) <= multiset(turns) && |cycle| <= |turns|
  {
    forall t ensures multiset(cycle)[t] <= multiset(turns)[t] {
      if t in multiset(cycle) {
        assert t in cycle;
        MulMonotone(1, laps, Slots(cycle, t));
      }
    }
    assert multiset(turns) == multiset(cycle) + (multiset(turns) - multiset(cycle));
  }

  /** Any list of turns with the same proportions is a whole number of laps, so no list is shorter than one lap. */
  lemma CycleIsShortest(ws: Weights, turns: seq<Tenant>) returns (laps: nat)
    requires Positive(ws) && Proportional(ws, turns)
    ensures laps >= 1
    ensures forall i :: 0 <= i < |ws| ==> Slots(turns, ws[i].0) == laps * Slots(Cycle(ws), ws[i].0)
    ensures multiset(Cycle(ws)) <= multiset(turns) && |Cycle(ws)| <= |turns|
  {
    laps := FirstTenantLaps(ws, turns);
    forall i | 0 <= i < |ws| ensures Slots(turns, ws[i].0) == laps * Slots(Cycle(ws), ws[i].0) {
      TenantLaps(ws, turns, laps, i);
    }
    CycleSlots(ws);
    assert turns[0] in turns && Slots(turns, turns[0]) > 0;
    var i0 :| 0 <= i0 < |ws| && ws[i0].0 == turns[0];
    assert laps * Slots(Cycle(ws), ws[i0].0) > 0;
    CoversOneLap(Cycle(ws), turns, laps);
  }
}
