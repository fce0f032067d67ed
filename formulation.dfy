/** The four linear programs the tool builds: the primal (integer or relaxed)
    and the dual of the single-knapsack and of the multiple-knapsack covering
    problem. Each builder takes the instance exactly as the tool does
    (counts as integers, `range` semantics for negative counts) and returns a
    `Program` in place of the PuLP problem object.

    Variable numbering:
      single primal   x[j]     at j
      single dual     v_1      at 0,      u[j]  at 1 + j
      multi primal    x[i,j]   at Offset(i, n) + j, that is i*n + j
      multi dual      vi[i]    at i,      vj[j] at m + j
    where m and n are the numbers of knapsacks and items. */
module Formulation {
  import opened Wrappers
  import opened LinearProgram

  /** How many indices `range(k)` yields. */
  function RangeLength(k: int): nat
  {
    if k < 0 then 0 else k
  }

  /** Modes 0 (integer primal) and 1 (relaxed primal) build a primal; any other mode builds the dual. */
  predicate IsPrimal(mode: int)
  {
    mode == 0 || mode == 1
  }

  /** A primal variable: bounded to [0, 1], binary exactly in mode 0. */
  function PrimalVariable(mode: int): Variable
  {
    Variable(0, Some(1), if mode == 0 then Binary else Continuous)
  }

  /** A dual variable: continuous, at least 0, no upper bound. */
  const DualVariable: Variable := Variable(0, None, Continuous)

  function Repeat(v: Variable, k: nat): seq<Variable>
  {
    seq(k, _ => v)
  }

  /** Every value is in [0, 1]. */
  predicate InUnitBox(x: seq<real>)
  {
    forall k :: 0 <= k < |x| ==> 0.0 <= x[k] <= 1.0
  }

  /** Every value is 0 or 1. */
  predicate ZeroOne(x: seq<real>)
  {
    forall k :: 0 <= k < |x| ==> x[k] == 0.0 || x[k] == 1.0
  }

  predicate NonNegative(y: seq<real>)
  {
    forall k :: 0 <= k < |y| ==> y[k] >= 0.0
  }

  // ---------------------------------------------------------------------
  // Single knapsack

  /** What the single-knapsack builders index: `demand[0]` and the first
      `nbItems` weights and costs. */
  predicate SingleIndexable(nbItems: int, demand: seq<int>, weight: seq<int>, cost: seq<int>)
  {
    |demand| >= 1 && |weight| >= RangeLength(nbItems) && |cost| >= RangeLength(nbItems)
  }

  /** Primal: minimise `sum cost[j]*x[j]` subject to `sum weight[j]*x[j] >= demand[0]`. */
  function SinglePrimal(nbItems: int, demand: seq<int>, weight: seq<int>, cost: seq<int>, mode: int): (p: Program)
    requires SingleIndexable(nbItems, demand, weight, cost)
    ensures |p.variables| == RangeLength(nbItems) && |p.constraints| == 1
  {
    var n := RangeLength(nbItems);
    Program(
      Minimize,
      Repeat(PrimalVariable(mode), n),
      Linear(0, cost, n),
      [Constraint(Linear(0, weight, n), AtLeast, demand[0])])
  }

  /** Dual constraint of item j: `weight[j]*v_1 - u[j] <= cost[j]`. */
  function SingleDualRow(weight: seq<int>, cost: seq<int>, j: nat): Constraint
    requires j < |weight| && j < |cost|
  {
    Constraint([Term(0, weight[j]), Term(1 + j, -1)], AtMost, cost[j])
  }

  /** The dual constraints of items 0..k-1, in item order. */
  function SingleDualRows(weight: seq<int>, cost: seq<int>, k: nat): (rows: seq<Constraint>)
    requires k <= |weight| && k <= |cost|
    ensures |rows| == k
  {
    if k == 0 then [] else SingleDualRows(weight, cost, k - 1) + [SingleDualRow(weight, cost, k - 1)]
  }

  /** Dual: maximise `demand[0]*v_1 - sum u[j]` subject to one row per item. */
  function SingleDual(nbItems: int, demand: seq<int>, weight: seq<int>, cost: seq<int>): (p: Program)
    requires SingleIndexable(nbItems, demand, weight, cost)
    ensures |p.variables| == 1 + RangeLength(nbItems) && |p.constraints| == RangeLength(nbItems)
  {
    var n := RangeLength(nbItems);
    Program(
      Maximize,
      Repeat(DualVariable, 1 + n),
      [Term(0, demand[0])] + Strided(1, 1, -1, n),
      SingleDualRows(weight, cost, n))
  }

  /** The dual builder, adding one constraint per item in a loop. */
  method BuildSingleDual(nbItems: int, demand: seq<int>, weight: seq<int>, cost: seq<int>) returns (p: Program)
    requires SingleIndexable(nbItems, demand, weight, cost)
    ensures p == SingleDual(nbItems, demand, weight, cost)
  {
    var n := RangeLength(nbItems);
    var rows: seq<Constraint> := [];
    for j := 0 to n
      invariant rows == SingleDualRows(weight, cost, j)
    {
      rows := rows + [SingleDualRow(weight, cost, j)];
    }
    p := Program(Maximize, Repeat(DualVariable, 1 + n), [Term(0, demand[0])] + Strided(1, 1, -1, n), rows);
  }

  // ---------------------------------------------------------------------
  // Multiple knapsacks

  /** What the multiple-knapsack builders index. With no knapsack nothing is
      indexed; otherwise every demand and the first `nbItems` weights and costs. */
  predicate MultiIndexable(nbKnapsacks: int, nbItems: int, demand: seq<int>, weight: seq<int>, cost: seq<int>)
  {
    var m, n := RangeLength(nbKnapsacks), RangeLength(nbItems);
    m == 0 || (|demand| >= m && |weight| >= n && |cost| >= n)
  }

  /** Objective terms `cost[j]*x[i,j]` for knapsacks 0..k-1, item index innermost. */
  function CostTerms(cost: seq<int>, n: nat, k: nat): LinExpr
    requires k > 0 ==> n <= |cost|
  {
    if k == 0 then [] else CostTerms(cost, n, k - 1) + Linear(Offset(k - 1, n), cost, n)
  }

  /** Coverage of knapsack i: `sum_j weight[j]*x[i,j] >= demand[i]`. */
  function Coverage(demand: seq<int>, weight: seq<int>, n: nat, i: nat): Constraint
    requires i < |demand| && n <= |weight|
  {
    Constraint(Linear(Offset(i, n), weight, n), AtLeast, demand[i])
  }

  function CoverageRows(demand: seq<int>, weight: seq<int>, n: nat, k: nat): (rows: seq<Constraint>)
    requires k <= |demand| && (k > 0 ==> n <= |weight|)
    ensures |rows| == k
  {
    if k == 0 then [] else CoverageRows(demand, weight, n, k - 1) + [Coverage(demand, weight, n, k - 1)]
  }

  /** Exclusivity of item j: `sum_i x[i,j] <= 1`. */
  function Exclusivity(m: nat, n: nat, j: nat): Constraint
  {
    Constraint(Strided(j, n, 1, m), AtMost, 1)
  }

  function ExclusivityRows(m: nat, n: nat, k: nat): (rows: seq<Constraint>)
    ensures |rows| == k
  {
    if k == 0 then [] else ExclusivityRows(m, n, k - 1) + [Exclusivity(m, n, k - 1)]
  }

  /** Primal: minimise total cost, one coverage row per knapsack, then one
      exclusivity row per item. */
  function MultiPrimal(nbKnapsacks: int, nbItems: int, demand: seq<int>, weight: seq<int>, cost: seq<int>, mode: int): (p: Program)
    requires MultiIndexable(nbKnapsacks, nbItems, demand, weight, cost)
    ensures |p.variables| == Offset(RangeLength(nbKnapsacks), RangeLength(nbItems))
    ensures |p.constraints| == RangeLength(nbKnapsacks) + RangeLength(nbItems)
  {
    var m, n := RangeLength(nbKnapsacks), RangeLength(nbItems);
    Program(
      Minimize,
      Repeat(PrimalVariable(mode), Offset(m, n)),
      CostTerms(cost, n, m),
      CoverageRows(demand, weight, n, m) + ExclusivityRows(m, n, n))
  }

  /** The primal builder: the two loops that add the coverage and the exclusivity rows. */
  method BuildMultiPrimal(nbKnapsacks: int, nbItems: int, demand: seq<int>, weight: seq<int>, cost: seq<int>, mode: int)
    returns (p: Program)
    requires MultiIndexable(nbKnapsacks, nbItems, demand, weight, cost)
    ensures p == MultiPrimal(nbKnapsacks, nbItems, demand, weight, cost, mode)
  {
    var m, n := RangeLength(nbKnapsacks), RangeLength(nbItems);
    var rows: seq<Constraint> := [];
    for i := 0 to m
      invariant rows == CoverageRows(demand, weight, n, i)
    {
      rows := rows + [Coverage(demand, weight, n, i)];
    }
    for j := 0 to n
      invariant rows == CoverageRows(demand, weight, n, m) + ExclusivityRows(m, n, j)
    {
      rows := rows + [Exclusivity(m, n, j)];
    }
    p := Program(Minimize, Repeat(PrimalVariable(mode), Offset(m, n)), CostTerms(cost, n, m), rows);
  }

  /** Dual constraint of the pair (i, j): `weight[j]*vi[i] - vj[j] <= cost[j]`. */
  function MultiDualRow(m: nat, weight: seq<int>, cost: seq<int>, i: nat, j: nat): Constraint
    requires j < |weight| && j < |cost|
  {
    Constraint([Term(i, weight[j]), Term(m + j, -1)], AtMost, cost[j])
  }

  /** The dual rows of knapsack i for items 0..k-1. */
  function MultiDualBlock(m: nat, weight: seq<int>, cost: seq<int>, i: nat, k: nat): (rows: seq<Constraint>)
    requires k <= |weight| && k <= |cost|
    ensures |rows| == k
  {
    if k == 0 then [] else MultiDualBlock(m, weight, cost, i, k - 1) + [MultiDualRow(m, weight, cost, i, k - 1)]
  }

  /** The dual rows of knapsacks 0..k-1, knapsack-major: row (i, j) is at Offset(i, n) + j. */
  function MultiDualRows(m: nat, n: nat, weight: seq<int>, cost: seq<int>, k: nat): (rows: seq<Constraint>)
    requires k > 0 ==> n <= |weight| && n <= |cost|
    ensures |rows| == Offset(k, n)
  {
    if k == 0 then [] else MultiDualRows(m, n, weight, cost, k - 1) + MultiDualBlock(m, weight, cost, k - 1, n)
  }

  /** Dual: maximise `sum demand[i]*vi[i] - sum vj[j]` subject to one row per (knapsack, item) pair. */
  function MultiDual(nbKnapsacks: int, nbItems: int, demand: seq<int>, weight: seq<int>, cost: seq<int>): (p: Program)
    requires MultiIndexable(nbKnapsacks, nbItems, demand, weight, cost)
    ensures |p.variables| == RangeLength(nbKnapsacks) + RangeLength(nbItems)
    ensures |p.constraints| == Offset(RangeLength(nbKnapsacks), RangeLength(nbItems))
  {
    var m, n := RangeLength(nbKnapsacks), RangeLength(nbItems);
    Program(
      Maximize,
      Repeat(DualVariable, m + n),
      Linear(0, demand, m) + Strided(m, 1, -1, n),
      MultiDualRows(m, n, weight, cost, m))
  }

  /** The dual builder: the nested loops over knapsacks and items. */
  method BuildMultiDual(nbKnapsacks: int, nbItems: int, demand: seq<int>, weight: seq<int>, cost: seq<int>)
    returns (p: Program)
    requires MultiIndexable(nbKnapsacks, nbItems, demand, weight, cost)
    ensures p == MultiDual(nbKnapsacks, nbItems, demand, weight, cost)
  {
    var m, n := RangeLength(nbKnapsacks), RangeLength(nbItems);
    var rows: seq<Constraint> := [];
    for i := 0 to m
      invariant rows == MultiDualRows(m, n, weight, cost, i)
    {
      for j := 0 to n
        invariant rows == MultiDualRows(m, n, weight, cost, i) + MultiDualBlock(m, weight, cost, i, j)
      {
        rows := rows + [MultiDualRow(m, weight, cost, i, j)];
      }
    }
    p := Program(Maximize, Repeat(DualVariable, m + n), Linear(0, demand, m) + Strided(m, 1, -1, n), rows);
  }

  // ---------------------------------------------------------------------
  // Where each row sits in the row lists above

  lemma {:induction false} SingleDualRowsAt(weight: seq<int>, cost: seq<int>, k: nat)
    requires k <= |weight| && k <= |cost|
    ensures forall j :: 0 <= j < k ==> SingleDualRows(weight, cost, k)[j] == SingleDualRow(weight, cost, j)
  {
    if k > 0 {
      SingleDualRowsAt(weight, cost, k - 1);
    }
  }

  lemma {:induction false} CoverageRowsAt(demand: seq<int>, weight: seq<int>, n: nat, k: nat)
    requires k <= |demand| && (k > 0 ==> n <= |weight|)
    ensures forall i :: 0 <= i < k ==> CoverageRows(demand, weight, n, k)[i] == Coverage(demand, weight, n, i)
  {
    if k > 0 {
      CoverageRowsAt(demand, weight, n, k - 1);
    }
  }

  lemma {:induction false} ExclusivityRowsAt(m: nat, n: nat, k: nat)
    ensures forall j :: 0 <= j < k ==> ExclusivityRows(m, n, k)[j] == Exclusivity(m, n, j)
  {
    if k > 0 {
      ExclusivityRowsAt(m, n, k - 1);
    }
  }

  lemma {:induction false} MultiDualBlockAt(m: nat, weight: seq<int>, cost: seq<int>, i: nat, k: nat)
    requires k <= |weight| && k <= |cost|
    ensures forall j :: 0 <= j < k ==> MultiDualBlock(m, weight, cost, i, k)[j] == MultiDualRow(m, weight, cost, i, j)
  {
    if k > 0 {
      MultiDualBlockAt(m, weight, cost, i, k - 1);
    }
  }
}
