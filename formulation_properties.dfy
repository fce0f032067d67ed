/** What the four built programs mean: their shape (counts, where each row
    sits, only declared variables are used) and, for any value vector, when
    it is feasible and what its objective value is, written with the
    reference sums of `LinearProgram`. */
module FormulationProperties {
  import opened Wrappers
  import opened LinearProgram
  import opened Formulation

  /** The domain of the primal variables: [0, 1], and {0, 1} in mode 0. */
  predicate PrimalBox(x: seq<real>, mode: int)
  {
    InUnitBox(x) && (mode == 0 ==> ZeroOne(x))
  }

  /** Knapsack `i` is covered by `x`: `sum_j weight[j]*x[i,j] >= demand[i]`. */
  predicate KnapsackCovered(x: seq<real>, demand: seq<int>, weight: seq<int>, n: nat, i: nat)
    requires i < |demand| && n <= |weight|
  {
    Dot(weight, x, Offset(i, n), n) >= demand[i] as real
  }

  /** Item `j` is used at most once by `x`: `sum_i x[i,j] <= 1` over `m` knapsacks. */
  predicate ItemExclusive(x: seq<real>, m: nat, n: nat, j: nat)
  {
    Mass(x, j, n, m) <= 1.0
  }

  /** The dual row of the pair (i, j) is satisfied by `y`, where the knapsack
      price of `i` sits at `i` and the item price of `j` at `m + j`:
      `weight[j]*y[i] - y[m+j] <= cost[j]`. */
  predicate PairPriced(y: seq<real>, m: nat, weight: seq<int>, cost: seq<int>, i: nat, j: nat)
    requires j < |weight| && j < |cost|
  {
    Scale(weight[j], Val(y, i)) - Val(y, m + j) <= cost[j] as real
  }

  // ---------------------------------------------------------------------
  // Variable domains

  lemma PrimalDomain(mode: int, x: seq<real>)
    ensures (forall k :: 0 <= k < |x| ==> Admits(Repeat(PrimalVariable(mode), |x|)[k], x[k]))
        <==> PrimalBox(x, mode)
  {
    var vs := Repeat(PrimalVariable(mode), |x|);
    if forall k :: 0 <= k < |x| ==> Admits(vs[k], x[k]) {
      forall k | 0 <= k < |x| ensures 0.0 <= x[k] <= 1.0 && (mode == 0 ==> x[k] == 0.0 || x[k] == 1.0) {
        assert Admits(vs[k], x[k]);
      }
    }
    if PrimalBox(x, mode) {
      forall k | 0 <= k < |x| ensures Admits(vs[k], x[k]) {
        assert vs[k] == PrimalVariable(mode);
      }
    }
  }

  lemma DualDomain(y: seq<real>)
    ensures (forall k :: 0 <= k < |y| ==> Admits(Repeat(DualVariable, |y|)[k], y[k])) <==> NonNegative(y)
  {
    var vs := Repeat(DualVariable, |y|);
    if forall k :: 0 <= k < |y| ==> Admits(vs[k], y[k]) {
      forall k | 0 <= k < |y| ensures y[k] >= 0.0 {
        assert Admits(vs[k], y[k]);
      }
    }
    if NonNegative(y) {
      forall k | 0 <= k < |y| ensures Admits(vs[k], y[k]) {
        assert vs[k] == DualVariable;
      }
    }
  }

  // ---------------------------------------------------------------------
  // Rows written out term by term

  /** The dual row of the pair (i, j) holds exactly when the pair is priced. */
  lemma EvalDualRow(y: seq<real>, m: nat, weight: seq<int>, cost: seq<int>, i: nat, j: nat)
    requires j < |weight| && j < |cost|
    ensures Holds(MultiDualRow(m, weight, cost, i, j), y) <==> PairPriced(y, m, weight, cost, i, j)
  {
    var a, b := Term(i, weight[j]), Term(m + j, -1);
    assert [a, b] == [a] + [b];
    EvalSnoc([a], b, y);
    EvalSingle(a, y);
  }

  // ---------------------------------------------------------------------
  // Well-formedness helpers

  lemma LinearWithin(base: nat, c: seq<int>, n: nat, count: nat)
    requires n <= |c| && base + n <= count
    ensures RefersWithin(Linear(base, c, n), count)
  {
    LinearAt(base, c, n);
  }

  /** Exclusivity row j of an m-by-n grid refers to cells (i, j), all before m*n. */
  lemma ColumnWithin(j: nat, m: nat, n: nat)
    requires j < n
    ensures RefersWithin(Strided(j, n, 1, m), Offset(m, n))
  {
    var e := Strided(j, n, 1, m);
    StridedAt(j, n, 1, m);
    forall k | 0 <= k < |e| ensures e[k].index < Offset(m, n) {
      OffsetBelow(k, j, m, n);
    }
  }

  lemma {:induction false} CostTermsWithin(cost: seq<int>, n: nat, k: nat, count: nat)
    requires k > 0 ==> n <= |cost|
    requires Offset(k, n) <= count
    ensures RefersWithin(CostTerms(cost, n, k), count)
  {
    if k > 0 {
      CostTermsWithin(cost, n, k - 1, count);
      LinearWithin(Offset(k - 1, n), cost, n, count);
      AppendWithin(CostTerms(cost, n, k - 1), Linear(Offset(k - 1, n), cost, n), count);
    }
  }

  lemma AppendWithin(a: LinExpr, b: LinExpr, count: nat)
    requires RefersWithin(a, count) && RefersWithin(b, count)
    ensures RefersWithin(a + b, count)
  {
    forall k | 0 <= k < |a + b| ensures (a + b)[k].index < count {
      if k >= |a| {
        assert (a + b)[k] == b[k - |a|];
      }
    }
  }

  /** The multi-knapsack cost terms evaluate to the block sum of `cost[j]*x[i,j]`. */
  lemma {:induction false} EvalCostTerms(cost: seq<int>, n: nat, k: nat, x: seq<real>)
    requires k > 0 ==> n <= |cost|
    ensures Eval(CostTerms(cost, n, k), x) == BlockDot(cost, x, n, k)
  {
    if k > 0 {
      EvalCostTerms(cost, n, k - 1, x);
      EvalAppend(CostTerms(cost, n, k - 1), Linear(Offset(k - 1, n), cost, n), x);
      EvalLinear(Offset(k - 1, n), cost, n, x);
    }
  }

  // ---------------------------------------------------------------------
  // Single knapsack

  /** The single primal has n variables in [0, 1], binary iff mode 0, is
      minimised, and has exactly one constraint, a covering one on demand[0]. */
  lemma SinglePrimalShape(nbItems: int, demand: seq<int>, weight: seq<int>, cost: seq<int>, mode: int)
    requires SingleIndexable(nbItems, demand, weight, cost)
    ensures SinglePrimal(nbItems, demand, weight, cost, mode).sense == Minimize
    ensures |SinglePrimal(nbItems, demand, weight, cost, mode).variables| == RangeLength(nbItems)
    ensures forall k :: 0 <= k < RangeLength(nbItems) ==>
      var v := SinglePrimal(nbItems, demand, weight, cost, mode).variables[k];
      v.lower == 0 && v.upper == Some(1) && (v.category == Binary <==> mode == 0)
    ensures |SinglePrimal(nbItems, demand, weight, cost, mode).constraints| == 1
    ensures SinglePrimal(nbItems, demand, weight, cost, mode).constraints[0].rel == AtLeast
    ensures SinglePrimal(nbItems, demand, weight, cost, mode).constraints[0].rhs == demand[0]
    ensures WellFormed(SinglePrimal(nbItems, demand, weight, cost, mode))
  {
    LinearWithin(0, cost, RangeLength(nbItems), RangeLength(nbItems));
    LinearWithin(0, weight, RangeLength(nbItems), RangeLength(nbItems));
  }

  /** A vector is feasible for the single primal iff it has one value per
      item, in [0, 1] (0 or 1 in mode 0), and its weighted sum reaches demand[0]. */
  lemma SinglePrimalFeasible(nbItems: int, demand: seq<int>, weight: seq<int>, cost: seq<int>, mode: int, x: seq<real>)
    requires SingleIndexable(nbItems, demand, weight, cost)
    ensures Feasible(SinglePrimal(nbItems, demand, weight, cost, mode), x) <==>
      (|x| == RangeLength(nbItems) && PrimalBox(x, mode)
       && Dot(weight, x, 0, RangeLength(nbItems)) >= demand[0] as real)
  {
    var p, n := SinglePrimal(nbItems, demand, weight, cost, mode), RangeLength(nbItems);
    if |x| == n {
      PrimalDomain(mode, x);
    }
    EvalLinear(0, weight, n, x);
    AllHoldAt(p.constraints, x);
  }

  /** The single primal's objective value is the total cost `sum cost[j]*x[j]`. */
  lemma SinglePrimalObjective(nbItems: int, demand: seq<int>, weight: seq<int>, cost: seq<int>, mode: int, x: seq<real>)
    requires SingleIndexable(nbItems, demand, weight, cost)
    ensures ObjectiveValue(SinglePrimal(nbItems, demand, weight, cost, mode), x) == Dot(cost, x, 0, RangeLength(nbItems))
  {
    EvalLinear(0, cost, RangeLength(nbItems), x);
  }

  /** The single dual has v_1 and one u[j] per item, all continuous and at
      least 0, is maximised, and has exactly one row per item. */
  lemma SingleDualShape(nbItems: int, demand: seq<int>, weight: seq<int>, cost: seq<int>)
    requires SingleIndexable(nbItems, demand, weight, cost)
    ensures SingleDual(nbItems, demand, weight, cost).sense == Maximize
    ensures |SingleDual(nbItems, demand, weight, cost).variables| == 1 + RangeLength(nbItems)
    ensures forall k :: 0 <= k < 1 + RangeLength(nbItems) ==>
      SingleDual(nbItems, demand, weight, cost).variables[k] == Variable(0, None, Continuous)
    ensures |SingleDual(nbItems, demand, weight, cost).constraints| == RangeLength(nbItems)
    ensures forall j :: 0 <= j < RangeLength(nbItems) ==>
      SingleDual(nbItems, demand, weight, cost).constraints[j]
        == Constraint([Term(0, weight[j]), Term(1 + j, -1)], AtMost, cost[j])
    ensures WellFormed(SingleDual(nbItems, demand, weight, cost))
  {
    var p, n := SingleDual(nbItems, demand, weight, cost), RangeLength(nbItems);
    SingleDualRowsAt(weight, cost, n);
    var us := Strided(1, 1, -1, n);
    StridedAt(1, 1, -1, n);
    forall k | 0 <= k < n ensures us[k].index < 1 + n {
      OffsetBelow(k, 0, n, 1);
      OffsetUnit(n);
    }
    AppendWithin([Term(0, demand[0])], us, 1 + n);
  }

  /** A vector is feasible for the single dual iff it has 1 + n non-negative
      values and `weight[j]*v_1 - u[j] <= cost[j]` for every item. */
  lemma SingleDualFeasible(nbItems: int, demand: seq<int>, weight: seq<int>, cost: seq<int>, y: seq<real>)
    requires SingleIndexable(nbItems, demand, weight, cost)
    ensures Feasible(SingleDual(nbItems, demand, weight, cost), y) <==>
      (|y| == 1 + RangeLength(nbItems) && NonNegative(y)
       && forall j :: 0 <= j < RangeLength(nbItems) ==> PairPriced(y, 1, weight, cost, 0, j))
  {
    var p, n := SingleDual(nbItems, demand, weight, cost), RangeLength(nbItems);
    if |y| == 1 + n {
      DualDomain(y);
    }
    AllHoldAt(p.constraints, y);
    SingleDualRowsAt(weight, cost, n);
    forall j | 0 <= j < n
      ensures Holds(p.constraints[j], y) <==> PairPriced(y, 1, weight, cost, 0, j)
    {
      assert p.constraints[j] == MultiDualRow(1, weight, cost, 0, j);
      EvalDualRow(y, 1, weight, cost, 0, j);
    }
  }

  /** The single dual's objective value is `demand[0]*v_1 - sum u[j]`. */
  lemma SingleDualObjective(nbItems: int, demand: seq<int>, weight: seq<int>, cost: seq<int>, y: seq<real>)
    requires SingleIndexable(nbItems, demand, weight, cost)
    ensures ObjectiveValue(SingleDual(nbItems, demand, weight, cost), y)
         == Dot(demand, y, 0, 1) - Mass(y, 1, 1, RangeLength(nbItems))
  {
    var n := RangeLength(nbItems);
    EvalAppend([Term(0, demand[0])], Strided(1, 1, -1, n), y);
    EvalSingle(Term(0, demand[0]), y);
    EvalStridedMinus(1, 1, n, y);
  }

  // ---------------------------------------------------------------------
  // Multiple knapsacks

  /** The multi primal has m*n variables in [0, 1], binary iff mode 0, is
      minimised, and has exactly m + n rows, every one over its variables. */
  lemma MultiPrimalShape(nbKnapsacks: int, nbItems: int, demand: seq<int>, weight: seq<int>, cost: seq<int>, mode: int)
    requires MultiIndexable(nbKnapsacks, nbItems, demand, weight, cost)
    ensures MultiPrimal(nbKnapsacks, nbItems, demand, weight, cost, mode).sense == Minimize
    ensures |MultiPrimal(nbKnapsacks, nbItems, demand, weight, cost, mode).variables|
         == RangeLength(nbKnapsacks) * RangeLength(nbItems)
    ensures forall v :: v in MultiPrimal(nbKnapsacks, nbItems, demand, weight, cost, mode).variables ==>
      v.lower == 0 && v.upper == Some(1) && (v.category == Binary <==> mode == 0)
    ensures |MultiPrimal(nbKnapsacks, nbItems, demand, weight, cost, mode).constraints|
         == RangeLength(nbKnapsacks) + RangeLength(nbItems)
    ensures WellFormed(MultiPrimal(nbKnapsacks, nbItems, demand, weight, cost, mode))
  {
    OffsetIsProduct(RangeLength(nbKnapsacks), RangeLength(nbItems));
    MultiPrimalWellFormed(nbKnapsacks, nbItems, demand, weight, cost, mode);
  }

  /** The rows of the multi primal: first the coverage row of every knapsack
      i, `sum_j weight[j]*x[i,j] >= demand[i]`, then the exclusivity row of
      every item j, `sum_i x[i,j] <= 1`. */
  lemma MultiPrimalRows(nbKnapsacks: int, nbItems: int, demand: seq<int>, weight: seq<int>, cost: seq<int>, mode: int)
    requires MultiIndexable(nbKnapsacks, nbItems, demand, weight, cost)
    ensures forall i :: 0 <= i < RangeLength(nbKnapsacks) ==>
      MultiPrimal(nbKnapsacks, nbItems, demand, weight, cost, mode).constraints[i]
        == Constraint(Linear(Offset(i, RangeLength(nbItems)), weight, RangeLength(nbItems)), AtLeast, demand[i])
    ensures forall j :: 0 <= j < RangeLength(nbItems) ==>
      MultiPrimal(nbKnapsacks, nbItems, demand, weight, cost, mode).constraints[RangeLength(nbKnapsacks) + j]
        == Constraint(Strided(j, RangeLength(nbItems), 1, RangeLength(nbKnapsacks)), AtMost, 1)
  {
    var p := MultiPrimal(nbKnapsacks, nbItems, demand, weight, cost, mode);
    var m, n := RangeLength(nbKnapsacks), RangeLength(nbItems);
    MultiPrimalCoverageAt(nbKnapsacks, nbItems, demand, weight, cost, mode);
    MultiPrimalExclusivityAt(nbKnapsacks, nbItems, demand, weight, cost, mode);
    forall i | 0 <= i < m
      ensures p.constraints[i] == Constraint(Linear(Offset(i, n), weight, n), AtLeast, demand[i])
    {
      assert p.constraints[i] == Coverage(demand, weight, n, i);
    }
    forall j | 0 <= j < n ensures p.constraints[m + j] == Constraint(Strided(j, n, 1, m), AtMost, 1) {
      assert p.constraints[m + j] == Exclusivity(m, n, j);
    }
  }

  lemma MultiPrimalCoverageAt(nbKnapsacks: int, nbItems: int, demand: seq<int>, weight: seq<int>, cost: seq<int>, mode: int)
    requires MultiIndexable(nbKnapsacks, nbItems, demand, weight, cost)
    ensures forall i :: 0 <= i < RangeLength(nbKnapsacks) ==>
      MultiPrimal(nbKnapsacks, nbItems, demand, weight, cost, mode).constraints[i]
        == Coverage(demand, weight, RangeLength(nbItems), i)
  {
    var p := MultiPrimal(nbKnapsacks, nbItems, demand, weight, cost, mode);
    var m, n := RangeLength(nbKnapsacks), RangeLength(nbItems);
    var cover := CoverageRows(demand, weight, n, m);
    CoverageRowsAt(demand, weight, n, m);
    forall i | 0 <= i < m ensures p.constraints[i] == Coverage(demand, weight, n, i) {
      assert p.constraints[i] == cover[i];
    }
  }

  lemma MultiPrimalExclusivityAt(nbKnapsacks: int, nbItems: int, demand: seq<int>, weight: seq<int>, cost: seq<int>, mode: int)
    requires MultiIndexable(nbKnapsacks, nbItems, demand, weight, cost)
    ensures forall j :: 0 <= j < RangeLength(nbItems) ==>
      MultiPrimal(nbKnapsacks, nbItems, demand, weight, cost, mode).constraints[RangeLength(nbKnapsacks) + j]
        == Exclusivity(RangeLength(nbKnapsacks), RangeLength(nbItems), j)
  {
    var p := MultiPrimal(nbKnapsacks, nbItems, demand, weight, cost, mode);
    var m, n := RangeLength(nbKnapsacks), RangeLength(nbItems);
    var excl := ExclusivityRows(m, n, n);
    ExclusivityRowsAt(m, n, n);
    forall j | 0 <= j < n ensures p.constraints[m + j] == Exclusivity(m, n, j) {
      assert p.constraints[m + j] == excl[j];
    }
  }

  /** Every term of the multi primal refers to one of its m*n variables. */
  lemma MultiPrimalWellFormed(nbKnapsacks: int, nbItems: int, demand: seq<int>, weight: seq<int>, cost: seq<int>, mode: int)
    requires MultiIndexable(nbKnapsacks, nbItems, demand, weight, cost)
    ensures WellFormed(MultiPrimal(nbKnapsacks, nbItems, demand, weight, cost, mode))
  {
    var p := MultiPrimal(nbKnapsacks, nbItems, demand, weight, cost, mode);
    var m, n := RangeLength(nbKnapsacks), RangeLength(nbItems);
    var cover, excl := CoverageRows(demand, weight, n, m), ExclusivityRows(m, n, n);
    CoverageRowsAt(demand, weight, n, m);
    ExclusivityRowsAt(m, n, n);
    CostTermsWithin(cost, n, m, Offset(m, n));
    forall c | 0 <= c < |p.constraints| ensures RefersWithin(p.constraints[c].lhs, Offset(m, n)) {
      if c < m {
        assert p.constraints[c] == cover[c];
        OffsetMonotone(c + 1, m, n);
        LinearWithin(Offset(c, n), weight, n, Offset(m, n));
      } else {
        assert p.constraints[c] == excl[c - m];
        ColumnWithin(c - m, m, n);
      }
    }
  }

  /** A vector is feasible for the multi primal iff it has m*n values in
      [0, 1] (0 or 1 in mode 0), every knapsack is covered and every item
      is used at most once. */
  lemma MultiPrimalFeasible(nbKnapsacks: int, nbItems: int, demand: seq<int>, weight: seq<int>, cost: seq<int>,
                            mode: int, x: seq<real>)
    requires MultiIndexable(nbKnapsacks, nbItems, demand, weight, cost)
    ensures Feasible(MultiPrimal(nbKnapsacks, nbItems, demand, weight, cost, mode), x) <==>
      (|x| == RangeLength(nbKnapsacks) * RangeLength(nbItems) && PrimalBox(x, mode)
       && (forall i :: 0 <= i < RangeLength(nbKnapsacks) ==>
             KnapsackCovered(x, demand, weight, RangeLength(nbItems), i))
       && (forall j :: 0 <= j < RangeLength(nbItems) ==>
             ItemExclusive(x, RangeLength(nbKnapsacks), RangeLength(nbItems), j)))
  {
    var p := MultiPrimal(nbKnapsacks, nbItems, demand, weight, cost, mode);
    var m, n := RangeLength(nbKnapsacks), RangeLength(nbItems);
    var cover, excl := CoverageRows(demand, weight, n, m), ExclusivityRows(m, n, n);
    OffsetIsProduct(m, n);
    if |x| == Offset(m, n) {
      PrimalDomain(mode, x);
    }
    AllHoldAppend(cover, excl, x);
    AllHoldAt(cover, x);
    AllHoldAt(excl, x);
    CoverageRowsAt(demand, weight, n, m);
    ExclusivityRowsAt(m, n, n);
    forall i | 0 <= i < m
      ensures Holds(cover[i], x) <==> KnapsackCovered(x, demand, weight, n, i)
    {
      EvalLinear(Offset(i, n), weight, n, x);
    }
    forall j | 0 <= j < n
      ensures Holds(excl[j], x) <==> ItemExclusive(x, m, n, j)
    {
      EvalStridedPlus(j, n, m, x);
    }
  }

  /** The multi primal's objective value is the total cost `sum cost[j]*x[i,j]`. */
  lemma MultiPrimalObjective(nbKnapsacks: int, nbItems: int, demand: seq<int>, weight: seq<int>, cost: seq<int>,
                             mode: int, x: seq<real>)
    requires MultiIndexable(nbKnapsacks, nbItems, demand, weight, cost)
    ensures ObjectiveValue(MultiPrimal(nbKnapsacks, nbItems, demand, weight, cost, mode), x)
         == BlockDot(cost, x, RangeLength(nbItems), RangeLength(nbKnapsacks))
  {
    EvalCostTerms(cost, RangeLength(nbItems), RangeLength(nbKnapsacks), x);
  }

  /** `block` is the `i`-th run of `n` consecutive rows of `rows`, that is rows `i*n` to `i*n + n - 1`. */
  predicate BlockAt(rows: seq<Constraint>, n: nat, i: nat, block: seq<Constraint>)
  {
    Offset(i, n) + n <= |rows| && rows[Offset(i, n)..Offset(i, n) + n] == block
  }

  /** The rows of knapsack i form the i-th block of n rows of the multi dual. */
  lemma {:induction false} MultiDualRowsLayout(m: nat, n: nat, weight: seq<int>, cost: seq<int>, k: nat)
    requires k > 0 ==> n <= |weight| && n <= |cost|
    ensures forall i :: 0 <= i < k ==>
      BlockAt(MultiDualRows(m, n, weight, cost, k), n, i, MultiDualBlock(m, weight, cost, i, n))
  {
    forall i | 0 <= i < k
      ensures BlockAt(MultiDualRows(m, n, weight, cost, k), n, i, MultiDualBlock(m, weight, cost, i, n))
    {
      MultiDualBlockSlice(m, n, weight, cost, k, i);
    }
  }

  lemma {:induction false} MultiDualBlockSlice(m: nat, n: nat, weight: seq<int>, cost: seq<int>, k: nat, i: nat)
    requires n <= |weight| && n <= |cost|
    requires i < k
    ensures BlockAt(MultiDualRows(m, n, weight, cost, k), n, i, MultiDualBlock(m, weight, cost, i, n))
  {
    OffsetMonotone(i + 1, k, n);
    var prefix := MultiDualRows(m, n, weight, cost, k - 1);
    var block := MultiDualBlock(m, weight, cost, k - 1, n);
    var lo := Offset(i, n);
    assert MultiDualRows(m, n, weight, cost, k) == prefix + block;
    if i < k - 1 {
      MultiDualBlockSlice(m, n, weight, cost, k - 1, i);
      SliceLeft(prefix, block, lo, lo + n);
    } else {
      SliceRight(prefix, block);
    }
  }

  lemma SliceLeft<T>(a: seq<T>, b: seq<T>, lo: nat, hi: nat)
    requires lo <= hi <= |a|
    ensures (a + b)[lo..hi] == a[lo..hi]
  {
  }

  lemma SliceRight<T>(a: seq<T>, b: seq<T>)
    ensures (a + b)[|a|..|a| + |b|] == b
  {
  }

  /** Every pair (i, j) of knapsack i is priced. */
  predicate KnapsackPriced(y: seq<real>, m: nat, n: nat, weight: seq<int>, cost: seq<int>, i: nat)
    requires n <= |weight| && n <= |cost|
  {
    forall j :: 0 <= j < n ==> PairPriced(y, m, weight, cost, i, j)
  }

  /** Every pair (i, j) with i < k is priced, knapsack by knapsack. */
  predicate PricedUpTo(y: seq<real>, m: nat, n: nat, weight: seq<int>, cost: seq<int>, k: nat)
    requires n <= |weight| && n <= |cost|
  {
    k == 0 || (PricedUpTo(y, m, n, weight, cost, k - 1) && KnapsackPriced(y, m, n, weight, cost, k - 1))
  }

  lemma {:induction false} PricedUpToMeans(y: seq<real>, m: nat, n: nat, weight: seq<int>, cost: seq<int>, k: nat)
    requires n <= |weight| && n <= |cost|
    ensures PricedUpTo(y, m, n, weight, cost, k) <==>
      forall i, j :: 0 <= i < k && 0 <= j < n ==> PairPriced(y, m, weight, cost, i, j)
  {
    if k > 0 {
      PricedUpToMeans(y, m, n, weight, cost, k - 1);
    }
  }

  /** All dual rows of knapsack i hold iff every pair (i, j) is priced. */
  lemma MultiDualBlockHolds(m: nat, weight: seq<int>, cost: seq<int>, i: nat, n: nat, y: seq<real>)
    requires n <= |weight| && n <= |cost|
    ensures AllHold(MultiDualBlock(m, weight, cost, i, n), y) <==> KnapsackPriced(y, m, n, weight, cost, i)
  {
    var block := MultiDualBlock(m, weight, cost, i, n);
    AllHoldAt(block, y);
    MultiDualBlockAt(m, weight, cost, i, n);
    forall j | 0 <= j < n
      ensures Holds(block[j], y) <==> PairPriced(y, m, weight, cost, i, j)
    {
      EvalDualRow(y, m, weight, cost, i, j);
    }
  }

  /** All dual rows of knapsacks 0..k-1 hold iff every pair (i, j) with i < k is priced. */
  lemma {:induction false} MultiDualRowsHold(m: nat, n: nat, weight: seq<int>, cost: seq<int>, k: nat, y: seq<real>)
    requires n <= |weight| && n <= |cost|
    ensures AllHold(MultiDualRows(m, n, weight, cost, k), y) <==> PricedUpTo(y, m, n, weight, cost, k)
  {
    if k > 0 {
      MultiDualRowsHold(m, n, weight, cost, k - 1, y);
      MultiDualBlockHolds(m, weight, cost, k - 1, n, y);
      AllHoldAppend(MultiDualRows(m, n, weight, cost, k - 1), MultiDualBlock(m, weight, cost, k - 1, n), y);
    }
  }

  /** The multi dual has m + n continuous non-negative variables, is
      maximised, and has exactly m*n rows; the rows of knapsack i are the
      i-th block of n, row j of the block being the pair (i, j). */
  lemma MultiDualShape(nbKnapsacks: int, nbItems: int, demand: seq<int>, weight: seq<int>, cost: seq<int>)
    requires MultiIndexable(nbKnapsacks, nbItems, demand, weight, cost)
    ensures MultiDual(nbKnapsacks, nbItems, demand, weight, cost).sense == Maximize
    ensures |MultiDual(nbKnapsacks, nbItems, demand, weight, cost).variables| == RangeLength(nbKnapsacks) + RangeLength(nbItems)
    ensures forall v :: v in MultiDual(nbKnapsacks, nbItems, demand, weight, cost).variables ==>
      v == Variable(0, None, Continuous)
    ensures |MultiDual(nbKnapsacks, nbItems, demand, weight, cost).constraints|
         == RangeLength(nbKnapsacks) * RangeLength(nbItems)
    ensures forall i :: 0 <= i < RangeLength(nbKnapsacks) ==>
      BlockAt(MultiDual(nbKnapsacks, nbItems, demand, weight, cost).constraints, RangeLength(nbItems), i,
              MultiDualBlock(RangeLength(nbKnapsacks), weight, cost, i, RangeLength(nbItems)))
    ensures WellFormed(MultiDual(nbKnapsacks, nbItems, demand, weight, cost))
  {
    var p := MultiDual(nbKnapsacks, nbItems, demand, weight, cost);
    var m, n := RangeLength(nbKnapsacks), RangeLength(nbItems);
    OffsetIsProduct(m, n);
    MultiDualRowsLayout(m, n, weight, cost, m);
    var us := Strided(m, 1, -1, n);
    StridedAt(m, 1, -1, n);
    forall k | 0 <= k < n ensures us[k].index < m + n {
      OffsetBelow(k, 0, n, 1);
      OffsetUnit(n);
    }
    LinearWithin(0, demand, m, m + n);
    AppendWithin(Linear(0, demand, m), us, m + n);
    MultiDualRowsWithin(m, n, weight, cost, m);
  }

  /** Every dual row of knapsacks 0..k-1 refers to vi[i] with i < k and vj[j] with j < n. */
  lemma {:induction false} MultiDualRowsWithin(m: nat, n: nat, weight: seq<int>, cost: seq<int>, k: nat)
    requires k > 0 ==> n <= |weight| && n <= |cost|
    requires k <= m
    ensures forall c :: 0 <= c < |MultiDualRows(m, n, weight, cost, k)| ==>
      RefersWithin(MultiDualRows(m, n, weight, cost, k)[c].lhs, m + n)
  {
    if k > 0 {
      MultiDualRowsWithin(m, n, weight, cost, k - 1);
      var prefix := MultiDualRows(m, n, weight, cost, k - 1);
      var block := MultiDualBlock(m, weight, cost, k - 1, n);
      var rows: seq<Constraint> := prefix + block;
      MultiDualBlockAt(m, weight, cost, k - 1, n);
      forall c | 0 <= c < |rows| ensures RefersWithin(rows[c].lhs, m + n) {
        if c >= |prefix| {
          assert rows[c] == block[c - |prefix|];
        } else {
          assert rows[c] == prefix[c];
        }
      }
    }
  }

  /** A vector is feasible for the multi dual iff it has m + n non-negative
      values and every (knapsack, item) pair is priced:
      `weight[j]*vi[i] - vj[j] <= cost[j]`. */
  lemma MultiDualFeasible(nbKnapsacks: int, nbItems: int, demand: seq<int>, weight: seq<int>, cost: seq<int>, y: seq<real>)
    requires MultiIndexable(nbKnapsacks, nbItems, demand, weight, cost)
    ensures Feasible(MultiDual(nbKnapsacks, nbItems, demand, weight, cost), y) <==>
      (|y| == RangeLength(nbKnapsacks) + RangeLength(nbItems) && NonNegative(y)
       && forall i, j :: 0 <= i < RangeLength(nbKnapsacks) && 0 <= j < RangeLength(nbItems) ==>
            PairPriced(y, RangeLength(nbKnapsacks), weight, cost, i, j))
  {
    var m, n := RangeLength(nbKnapsacks), RangeLength(nbItems);
    if |y| == m + n {
      DualDomain(y);
    }
    if m > 0 {
      MultiDualRowsHold(m, n, weight, cost, m, y);
      PricedUpToMeans(y, m, n, weight, cost, m);
    }
  }

  /** The multi dual's objective value is `sum demand[i]*vi[i] - sum vj[j]`. */
  lemma MultiDualObjective(nbKnapsacks: int, nbItems: int, demand: seq<int>, weight: seq<int>, cost: seq<int>, y: seq<real>)
    requires MultiIndexable(nbKnapsacks, nbItems, demand, weight, cost)
    ensures ObjectiveValue(MultiDual(nbKnapsacks, nbItems, demand, weight, cost), y)
         == Dot(demand, y, 0, RangeLength(nbKnapsacks)) - Mass(y, RangeLength(nbKnapsacks), 1, RangeLength(nbItems))
  {
    var m, n := RangeLength(nbKnapsacks), RangeLength(nbItems);
    EvalAppend(Linear(0, demand, m), Strided(m, 1, -1, n), y);
    EvalLinear(0, demand, m, y);
    EvalStridedMinus(m, 1, n, y);
  }

  // ---------------------------------------------------------------------
  // The single-knapsack path against the multiple-knapsack path with one knapsack

  /** The single dual is literally the multi dual with one knapsack: v_1 is vi[0], u[j] is vj[j]. */
  lemma SingleDualIsMultiDualOfOne(nbItems: int, demand: seq<int>, weight: seq<int>, cost: seq<int>)
    requires SingleIndexable(nbItems, demand, weight, cost)
    ensures MultiIndexable(1, nbItems, demand, weight, cost)
    ensures SingleDual(nbItems, demand, weight, cost) == MultiDual(1, nbItems, demand, weight, cost)
  {
    var n := RangeLength(nbItems);
    LinearAt(0, demand, 1);
    assert Linear(0, demand, 1) == [Term(0, demand[0])];
    var single, block := SingleDualRows(weight, cost, n), MultiDualBlock(1, weight, cost, 0, n);
    SingleDualRowsAt(weight, cost, n);
    MultiDualBlockAt(1, weight, cost, 0, n);
    assert MultiDualRows(1, n, weight, cost, 1) == block;
    assert single == block;
  }

  /** The single primal and the multi primal with one knapsack have the same
      feasible vectors and the same objective: the extra exclusivity rows
      `x[0,j] <= 1` repeat the variable bounds. */
  lemma SinglePrimalAgreesWithMultiPrimalOfOne(nbItems: int, demand: seq<int>, weight: seq<int>, cost: seq<int>,
                                               mode: int, x: seq<real>)
    requires SingleIndexable(nbItems, demand, weight, cost)
    ensures MultiIndexable(1, nbItems, demand, weight, cost)
    ensures Feasible(SinglePrimal(nbItems, demand, weight, cost, mode), x)
        <==> Feasible(MultiPrimal(1, nbItems, demand, weight, cost, mode), x)
    ensures ObjectiveValue(SinglePrimal(nbItems, demand, weight, cost, mode), x)
         == ObjectiveValue(MultiPrimal(1, nbItems, demand, weight, cost, mode), x)
  {
    var n := RangeLength(nbItems);
    SinglePrimalFeasible(nbItems, demand, weight, cost, mode, x);
    MultiPrimalFeasible(1, nbItems, demand, weight, cost, mode, x);
    SinglePrimalObjective(nbItems, demand, weight, cost, mode, x);
    MultiPrimalObjective(1, nbItems, demand, weight, cost, mode, x);
    assert Offset(0, n) == 0 && 1 * n == n;
    assert KnapsackCovered(x, demand, weight, n, 0) <==> Dot(weight, x, 0, n) >= demand[0] as real;
    assert (forall i :: 0 <= i < 1 ==> KnapsackCovered(x, demand, weight, n, i)) <==> KnapsackCovered(x, demand, weight, n, 0);
    if |x| == n && InUnitBox(x) {
      forall j | 0 <= j < n ensures ItemExclusive(x, 1, n, j) {
        assert Mass(x, j, n, 1) == Val(x, j);
      }
    }
  }
}
