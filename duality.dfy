/** How the primal and dual programs of one instance bound each other, and
    how the primal's feasible set depends on the demands. None of this
    depends on the solver: it holds for any vectors that satisfy the
    programs. */
module Duality {
  import opened LinearProgram
  import opened Formulation
  import opened FormulationProperties
  import opened Extraction

  /** `y[m]*x[b] + y[m+1]*x[b+1] + ... + y[m+k-1]*x[b+k-1]`: what the item
      prices charge for the items used by one knapsack. */
  function PricedUse(y: seq<real>, m: nat, x: seq<real>, b: nat, k: nat): real
  {
    if k == 0 then 0.0 else PricedUse(y, m, x, b, k - 1) + Val(y, m + k - 1) * Val(x, b + k - 1)
  }

  /** `sum_{j<k} y[m+j] * (x[0,j] + ... + x[rows-1,j])` over rows of width `n`:
      what the item prices charge for the items used by the first `rows`
      knapsacks together. */
  function PricedMass(y: seq<real>, m: nat, x: seq<real>, n: nat, rows: nat, k: nat): real
  {
    if k == 0 then 0.0 else PricedMass(y, m, x, n, rows, k - 1) + Val(y, m + k - 1) * Mass(x, k - 1, n, rows)
  }

  /** `c[0]*x[b] + ... + c[k-1]*x[b+k-1]` as a sum of real products; `Dot`
      computes the same sum (`DotIsWeightedSum`). */
  function WeightedSum(c: seq<int>, x: seq<real>, b: nat, k: nat): real
    requires k <= |c|
  {
    if k == 0 then 0.0 else WeightedSum(c, x, b, k - 1) + c[k - 1] as real * Val(x, b + k - 1)
  }

  lemma {:induction false} DotIsWeightedSum(c: seq<int>, x: seq<real>, b: nat, k: nat)
    requires k <= |c|
    ensures Dot(c, x, b, k) == WeightedSum(c, x, b, k)
  {
    if k > 0 {
      DotIsWeightedSum(c, x, b, k - 1);
      ScaleIsProduct(c[k - 1], Val(x, b + k - 1));
    }
  }

  /** `BlockDot` as a sum of `WeightedSum`s over `k` blocks of width `n`. */
  function BlockWeightedSum(c: seq<int>, x: seq<real>, n: nat, k: nat): real
    requires k > 0 ==> n <= |c|
  {
    if k == 0 then 0.0 else BlockWeightedSum(c, x, n, k - 1) + WeightedSum(c, x, Offset(k - 1, n), n)
  }

  lemma {:induction false} BlockDotIsBlockWeightedSum(c: seq<int>, x: seq<real>, n: nat, k: nat)
    requires k > 0 ==> n <= |c|
    ensures BlockDot(c, x, n, k) == BlockWeightedSum(c, x, n, k)
  {
    if k > 0 {
      BlockDotIsBlockWeightedSum(c, x, n, k - 1);
      DotIsWeightedSum(c, x, Offset(k - 1, n), n);
    }
  }

  /** `PairPriced` with the product written out: `weight[j]*y[i] - y[m+j] <= cost[j]`. */
  predicate PairPricedByProduct(y: seq<real>, m: nat, w: seq<int>, c: seq<int>, i: nat, j: nat)
    requires j < |w| && j < |c|
  {
    w[j] as real * Val(y, i) - Val(y, m + j) <= c[j] as real
  }

  /** Every pair of knapsack `i` is priced, in product form. */
  predicate KnapsackPricedByProduct(y: seq<real>, m: nat, w: seq<int>, c: seq<int>, n: nat, i: nat)
    requires n <= |w| && n <= |c|
  {
    forall j :: 0 <= j < n ==> PairPricedByProduct(y, m, w, c, i, j)
  }

  lemma PairPricedProduct(y: seq<real>, m: nat, w: seq<int>, c: seq<int>, i: nat, j: nat)
    requires j < |w| && j < |c|
    ensures PairPriced(y, m, w, c, i, j) <==> PairPricedByProduct(y, m, w, c, i, j)
  {
    ScaleIsProduct(w[j], Val(y, i));
  }

  /** The inductive step of `RowBound`, on plain reals: adding an item of
      value `t`, cost `c` and weight `w` whose pair is priced (`w*v - u <= c`)
      keeps `cost >= v * weight - use`. */
  lemma RowStep(costK: real, weightK: real, useK: real, cost: real, weight: real, use: real,
                v: real, c: real, w: real, u: real, t: real)
    requires costK == cost + c * t && weightK == weight + w * t && useK == use + u * t
    requires cost >= v * weight - use && w * v - u <= c && t >= 0.0
    ensures costK >= v * weightK - useK
  {
    assert (c - (w * v - u)) * t >= 0.0;
    assert (w * v - u) * t == v * (w * t) - u * t;
    assert v * weightK == v * weight + v * (w * t);
  }

  /** The inductive step of `BlockBound`, on plain reals: a covered
      knapsack (`weight >= d`) with a non-negative price `v` adds at least
      `d*v` to the bound, less what the item prices charge for its items. */
  lemma BlockStep(totalK: real, total: real, row: real, demandK: real, demand: real, dv: real,
                  massK: real, mass: real, use: real, v: real, weight: real, d: real)
    requires totalK == total + row && demandK == demand + dv && massK == mass + use
    requires total >= demand - mass && row >= v * weight - use
    requires dv == d * v && v >= 0.0 && weight >= d
    ensures totalK >= demandK - massK
  {
    assert v * (weight - d) >= 0.0;
    assert d * v == v * d;
  }

  /** The inductive step of `PricedMassStep`, on plain reals. */
  lemma MassStep(before: real, rowsBefore: real, useBefore: real, u: real, a: real, t: real)
    requires before == rowsBefore + useBefore
    ensures before + u * (a + t) == (rowsBefore + u * a) + (useBefore + u * t)
  {
    assert u * (a + t) == u * a + u * t;
  }

  /** A non-negative price charges at most itself for a share of at most 1. */
  lemma PriceShare(u: real, t: real)
    requires u >= 0.0 && t <= 1.0
    ensures u * t <= u
  {
    assert u * (1.0 - t) >= 0.0;
  }

  /** A sum of non-negative values is non-negative. */
  lemma {:induction false} MassNonNegative(x: seq<real>, first: nat, stride: nat, k: nat)
    requires forall t :: 0 <= t < |x| ==> x[t] >= 0.0
    ensures Mass(x, first, stride, k) >= 0.0
  {
    if k > 0 {
      MassNonNegative(x, first, stride, k - 1);
    }
  }

  /** For one knapsack `i` whose pairs are all priced by `y`, the cost of the
      items it uses is at least its price `y[i]` times their weight, less
      what the item prices charge for them. */
  lemma {:induction false} RowBound(c: seq<int>, w: seq<int>, x: seq<real>, y: seq<real>, m: nat, i: nat, b: nat, k: nat)
    requires k <= |c| && k <= |w|
    requires forall j :: 0 <= j < k ==> PairPricedByProduct(y, m, w, c, i, j)
    requires forall t :: 0 <= t < |x| ==> x[t] >= 0.0
    ensures WeightedSum(c, x, b, k) >= Val(y, i) * WeightedSum(w, x, b, k) - PricedUse(y, m, x, b, k)
  {
    if k > 0 {
      forall j | 0 <= j < k - 1 ensures PairPricedByProduct(y, m, w, c, i, j) {
      }
      RowBound(c, w, x, y, m, i, b, k - 1);
      var t, v, u := Val(x, b + k - 1), Val(y, i), Val(y, m + k - 1);
      assert PairPricedByProduct(y, m, w, c, i, k - 1);
      assert t >= 0.0;
      RowStep(WeightedSum(c, x, b, k), WeightedSum(w, x, b, k), PricedUse(y, m, x, b, k),
              WeightedSum(c, x, b, k - 1), WeightedSum(w, x, b, k - 1), PricedUse(y, m, x, b, k - 1),
              v, c[k - 1] as real, w[k - 1] as real, u, t);
    }
  }

  /** Adding knapsack `rows` to the column sums adds what the prices charge for its items. */
  lemma {:induction false} PricedMassStep(y: seq<real>, m: nat, x: seq<real>, n: nat, rows: nat, k: nat)
    ensures PricedMass(y, m, x, n, rows + 1, k) == PricedMass(y, m, x, n, rows, k) + PricedUse(y, m, x, Offset(rows, n), k)
  {
    if k > 0 {
      PricedMassStep(y, m, x, n, rows, k - 1);
      var u, t := Val(y, m + k - 1), Val(x, Offset(rows, n) + k - 1);
      assert Mass(x, k - 1, n, rows + 1) == Mass(x, k - 1, n, rows) + t;
      MassStep(PricedMass(y, m, x, n, rows + 1, k - 1), PricedMass(y, m, x, n, rows, k - 1),
               PricedUse(y, m, x, Offset(rows, n), k - 1), u, Mass(x, k - 1, n, rows), t);
    }
  }

  /** Before any knapsack, the prices charge nothing. */
  lemma {:induction false} PricedMassNoRows(y: seq<real>, m: nat, x: seq<real>, n: nat, k: nat)
    ensures PricedMass(y, m, x, n, 0, k) == 0.0
  {
    if k > 0 {
      PricedMassNoRows(y, m, x, n, k - 1);
    }
  }

  /** With every item used at most once in total, the prices charge at most the sum of the item prices. */
  lemma {:induction false} PricedMassBound(y: seq<real>, m: nat, x: seq<real>, n: nat, rows: nat, k: nat)
    requires forall j :: 0 <= j < k ==> 0.0 <= Mass(x, j, n, rows) <= 1.0 && Val(y, m + j) >= 0.0
    ensures PricedMass(y, m, x, n, rows, k) <= Mass(y, m, 1, k)
  {
    if k > 0 {
      forall j | 0 <= j < k - 1 ensures 0.0 <= Mass(x, j, n, rows) <= 1.0 && Val(y, m + j) >= 0.0 {
      }
      PricedMassBound(y, m, x, n, rows, k - 1);
      OffsetUnit(k - 1);
      assert 0.0 <= Mass(x, k - 1, n, rows) <= 1.0 && Val(y, m + (k - 1)) >= 0.0;
      PriceShare(Val(y, m + k - 1), Mass(x, k - 1, n, rows));
    }
  }

  /** Summed over knapsacks `0..k-1`, each covered and each of whose pairs
      is priced, the cost is at least the priced demand less what the item
      prices charge for all the items used. */
  lemma {:induction false} BlockBound(c: seq<int>, w: seq<int>, d: seq<int>, x: seq<real>, y: seq<real>, m: nat, n: nat, k: nat)
    requires k <= |d| && n <= |w| && n <= |c|
    requires forall i :: 0 <= i < k ==> KnapsackPricedByProduct(y, m, w, c, n, i)
    requires forall i :: 0 <= i < k ==> WeightedSum(w, x, Offset(i, n), n) >= d[i] as real
    requires forall i :: 0 <= i < k ==> Val(y, i) >= 0.0
    requires forall t :: 0 <= t < |x| ==> x[t] >= 0.0
    ensures BlockWeightedSum(c, x, n, k) >= WeightedSum(d, y, 0, k) - PricedMass(y, m, x, n, k, n)
  {
    if k == 0 {
      PricedMassNoRows(y, m, x, n, n);
    } else {
      BlockBound(c, w, d, x, y, m, n, k - 1);
      BlockBoundStep(c, w, d, x, y, m, n, k);
    }
  }

  /** One knapsack more in `BlockBound`: knapsack `k - 1` is added to the first `k - 1`. */
  lemma BlockBoundStep(c: seq<int>, w: seq<int>, d: seq<int>, x: seq<real>, y: seq<real>, m: nat, n: nat, k: nat)
    requires 0 < k <= |d| && n <= |w| && n <= |c|
    requires BlockWeightedSum(c, x, n, k - 1) >= WeightedSum(d, y, 0, k - 1) - PricedMass(y, m, x, n, k - 1, n)
    requires KnapsackPricedByProduct(y, m, w, c, n, k - 1)
    requires WeightedSum(w, x, Offset(k - 1, n), n) >= d[k - 1] as real && Val(y, k - 1) >= 0.0
    requires forall t :: 0 <= t < |x| ==> x[t] >= 0.0
    ensures BlockWeightedSum(c, x, n, k) >= WeightedSum(d, y, 0, k) - PricedMass(y, m, x, n, k, n)
  {
    var i := k - 1;
    var b := Offset(i, n);
    RowBound(c, w, x, y, m, i, b, n);
    PricedMassStep(y, m, x, n, i, n);
    BlockStep(BlockWeightedSum(c, x, n, k), BlockWeightedSum(c, x, n, i), WeightedSum(c, x, b, n),
              WeightedSum(d, y, 0, k), WeightedSum(d, y, 0, i), d[i] as real * Val(y, i),
              PricedMass(y, m, x, n, k, n), PricedMass(y, m, x, n, i, n), PricedUse(y, m, x, b, n),
              Val(y, i), WeightedSum(w, x, b, n), d[i] as real);
  }

  /** Weak duality for several knapsacks: the cost of any vector feasible
      for the primal (integer or relaxed) is at least the objective of any
      vector feasible for the dual, so the dual gives a lower bound. */
  lemma MultiWeakDuality(nbKnapsacks: int, nbItems: int, demand: seq<int>, weight: seq<int>, cost: seq<int>,
                         mode: int, x: seq<real>, y: seq<real>)
    requires MultiIndexable(nbKnapsacks, nbItems, demand, weight, cost)
    requires Feasible(MultiPrimal(nbKnapsacks, nbItems, demand, weight, cost, mode), x)
    requires Feasible(MultiDual(nbKnapsacks, nbItems, demand, weight, cost), y)
    ensures ObjectiveValue(MultiPrimal(nbKnapsacks, nbItems, demand, weight, cost, mode), x)
         >= ObjectiveValue(MultiDual(nbKnapsacks, nbItems, demand, weight, cost), y)
  {
    var m, n := RangeLength(nbKnapsacks), RangeLength(nbItems);
    MultiPrimalFeasible(nbKnapsacks, nbItems, demand, weight, cost, mode, x);
    MultiDualFeasible(nbKnapsacks, nbItems, demand, weight, cost, y);
    MultiPrimalObjective(nbKnapsacks, nbItems, demand, weight, cost, mode, x);
    MultiDualObjective(nbKnapsacks, nbItems, demand, weight, cost, y);
    MassNonNegative(y, m, 1, n);
    if m > 0 {
      forall i | 0 <= i < m ensures Val(y, i) >= 0.0 {
      }
      forall i | 0 <= i < m ensures WeightedSum(weight, x, Offset(i, n), n) >= demand[i] as real {
        assert KnapsackCovered(x, demand, weight, n, i);
        DotIsWeightedSum(weight, x, Offset(i, n), n);
      }
      forall i | 0 <= i < m ensures KnapsackPricedByProduct(y, m, weight, cost, n, i) {
        forall j | 0 <= j < n ensures PairPricedByProduct(y, m, weight, cost, i, j) {
          PairPricedProduct(y, m, weight, cost, i, j);
        }
      }
      BlockBound(cost, weight, demand, x, y, m, n, m);
      BlockDotIsBlockWeightedSum(cost, x, n, m);
      DotIsWeightedSum(demand, y, 0, m);
      forall j | 0 <= j < n ensures 0.0 <= Mass(x, j, n, m) <= 1.0 && Val(y, m + j) >= 0.0 {
        MassNonNegative(x, j, n, m);
        assert ItemExclusive(x, m, n, j);
      }
      PricedMassBound(y, m, x, n, m, n);
    }
  }

  /** Weak duality for one knapsack, through the multiple programs with one knapsack. */
  lemma SingleWeakDuality(nbItems: int, demand: seq<int>, weight: seq<int>, cost: seq<int>,
                          mode: int, x: seq<real>, y: seq<real>)
    requires SingleIndexable(nbItems, demand, weight, cost)
    requires Feasible(SinglePrimal(nbItems, demand, weight, cost, mode), x)
    requires Feasible(SingleDual(nbItems, demand, weight, cost), y)
    ensures ObjectiveValue(SinglePrimal(nbItems, demand, weight, cost, mode), x)
         >= ObjectiveValue(SingleDual(nbItems, demand, weight, cost), y)
  {
    SinglePrimalAgreesWithMultiPrimalOfOne(nbItems, demand, weight, cost, mode, x);
    SingleDualIsMultiDualOfOne(nbItems, demand, weight, cost);
    MultiWeakDuality(1, nbItems, demand, weight, cost, mode, x, y);
  }

  /** `demand` is nowhere above `larger`. */
  predicate DemandsBelow(demand: seq<int>, larger: seq<int>)
  {
    |demand| == |larger| && forall i :: 0 <= i < |demand| ==> demand[i] <= larger[i]
  }

  /** Raising demands only removes feasible vectors of the multiple primal,
      so its least cost cannot go down. */
  lemma MultiPrimalDemandMonotone(nbKnapsacks: int, nbItems: int, demand: seq<int>, larger: seq<int>,
                                  weight: seq<int>, cost: seq<int>, mode: int, x: seq<real>)
    requires MultiIndexable(nbKnapsacks, nbItems, demand, weight, cost)
    requires DemandsBelow(demand, larger)
    requires Feasible(MultiPrimal(nbKnapsacks, nbItems, larger, weight, cost, mode), x)
    ensures Feasible(MultiPrimal(nbKnapsacks, nbItems, demand, weight, cost, mode), x)
    ensures ObjectiveValue(MultiPrimal(nbKnapsacks, nbItems, demand, weight, cost, mode), x)
         == ObjectiveValue(MultiPrimal(nbKnapsacks, nbItems, larger, weight, cost, mode), x)
  {
    var m, n := RangeLength(nbKnapsacks), RangeLength(nbItems);
    MultiPrimalFeasible(nbKnapsacks, nbItems, larger, weight, cost, mode, x);
    MultiPrimalFeasible(nbKnapsacks, nbItems, demand, weight, cost, mode, x);
    MultiPrimalObjective(nbKnapsacks, nbItems, larger, weight, cost, mode, x);
    MultiPrimalObjective(nbKnapsacks, nbItems, demand, weight, cost, mode, x);
    forall i | 0 <= i < m ensures KnapsackCovered(x, demand, weight, n, i) {
      assert KnapsackCovered(x, larger, weight, n, i);
    }
  }

  /** Raising `demand[0]` only removes feasible vectors of the single primal. */
  lemma SinglePrimalDemandMonotone(nbItems: int, demand: seq<int>, larger: seq<int>,
                                   weight: seq<int>, cost: seq<int>, mode: int, x: seq<real>)
    requires SingleIndexable(nbItems, demand, weight, cost)
    requires DemandsBelow(demand, larger)
    requires Feasible(SinglePrimal(nbItems, larger, weight, cost, mode), x)
    ensures Feasible(SinglePrimal(nbItems, demand, weight, cost, mode), x)
    ensures ObjectiveValue(SinglePrimal(nbItems, demand, weight, cost, mode), x)
         == ObjectiveValue(SinglePrimal(nbItems, larger, weight, cost, mode), x)
  {
    SinglePrimalFeasible(nbItems, larger, weight, cost, mode, x);
    SinglePrimalFeasible(nbItems, demand, weight, cost, mode, x);
    SinglePrimalObjective(nbItems, larger, weight, cost, mode, x);
    SinglePrimalObjective(nbItems, demand, weight, cost, mode, x);
  }

  // ---------------------------------------------------------------------
  // Zero demands

  /** Every demand is 0. */
  predicate ZeroDemands(demand: seq<int>)
  {
    forall i :: 0 <= i < |demand| ==> demand[i] == 0
  }

  /** No cost is negative. */
  predicate NonNegativeCosts(cost: seq<int>)
  {
    forall j :: 0 <= j < |cost| ==> cost[j] >= 0
  }

  /** Every cost is above 0. */
  predicate PositiveCosts(cost: seq<int>)
  {
    forall j :: 0 <= j < |cost| ==> cost[j] > 0
  }

  /** The value of item `j` at `x[b + j]` is 0. */
  predicate Unused(x: seq<real>, b: nat, j: nat)
  {
    Val(x, b + j) == 0.0
  }

  /** `k` zeros: nothing selected, and every dual price 0. */
  function Zeros(k: nat): seq<real>
  {
    seq(k, _ => 0.0)
  }

  lemma {:induction false} DotOfZeros(c: seq<int>, b: nat, k: nat, len: nat)
    requires k <= |c|
    ensures Dot(c, Zeros(len), b, k) == 0.0
  {
    if k > 0 {
      DotOfZeros(c, b, k - 1, len);
      ScaleZero(c[k - 1]);
    }
  }

  lemma {:induction false} MassOfZeros(first: nat, stride: nat, k: nat, len: nat)
    ensures Mass(Zeros(len), first, stride, k) == 0.0
  {
    if k > 0 {
      MassOfZeros(first, stride, k - 1, len);
    }
  }

  lemma {:induction false} BlockDotOfZeros(c: seq<int>, n: nat, k: nat, len: nat)
    requires k > 0 ==> n <= |c|
    ensures BlockDot(c, Zeros(len), n, k) == 0.0
  {
    if k > 0 {
      BlockDotOfZeros(c, n, k - 1, len);
      DotOfZeros(c, Offset(k - 1, n), n, len);
    }
  }

  /** With every demand 0, buying nothing is feasible for the multiple
      primal in either mode, and it costs 0. */
  lemma MultiZerosFeasible(nbKnapsacks: int, nbItems: int, demand: seq<int>, weight: seq<int>, cost: seq<int>,
                           mode: int)
    requires MultiIndexable(nbKnapsacks, nbItems, demand, weight, cost) && ZeroDemands(demand)
    ensures Feasible(MultiPrimal(nbKnapsacks, nbItems, demand, weight, cost, mode),
                     Zeros(RangeLength(nbKnapsacks) * RangeLength(nbItems)))
    ensures ObjectiveValue(MultiPrimal(nbKnapsacks, nbItems, demand, weight, cost, mode),
                           Zeros(RangeLength(nbKnapsacks) * RangeLength(nbItems))) == 0.0
  {
    var m, n := RangeLength(nbKnapsacks), RangeLength(nbItems);
    var z := Zeros(m * n);
    MultiPrimalFeasible(nbKnapsacks, nbItems, demand, weight, cost, mode, z);
    MultiPrimalObjective(nbKnapsacks, nbItems, demand, weight, cost, mode, z);
    forall i | 0 <= i < m ensures KnapsackCovered(z, demand, weight, n, i) {
      DotOfZeros(weight, Offset(i, n), n, m * n);
    }
    forall j | 0 <= j < n ensures ItemExclusive(z, m, n, j) {
      MassOfZeros(j, n, m, m * n);
    }
    BlockDotOfZeros(cost, n, m, m * n);
  }

  /** With every demand 0 and no negative cost, the zero prices are
      feasible for the multiple dual, and their objective is 0. */
  lemma MultiZeroPricesFeasible(nbKnapsacks: int, nbItems: int, demand: seq<int>, weight: seq<int>, cost: seq<int>)
    requires MultiIndexable(nbKnapsacks, nbItems, demand, weight, cost)
    requires ZeroDemands(demand) && NonNegativeCosts(cost)
    ensures Feasible(MultiDual(nbKnapsacks, nbItems, demand, weight, cost),
                     Zeros(RangeLength(nbKnapsacks) + RangeLength(nbItems)))
    ensures ObjectiveValue(MultiDual(nbKnapsacks, nbItems, demand, weight, cost),
                           Zeros(RangeLength(nbKnapsacks) + RangeLength(nbItems))) == 0.0
  {
    var m, n := RangeLength(nbKnapsacks), RangeLength(nbItems);
    var y := Zeros(m + n);
    MultiDualFeasible(nbKnapsacks, nbItems, demand, weight, cost, y);
    MultiDualObjective(nbKnapsacks, nbItems, demand, weight, cost, y);
    forall i, j | 0 <= i < m && 0 <= j < n ensures PairPriced(y, m, weight, cost, i, j) {
      ScaleZero(weight[j]);
    }
    if m > 0 {
      DotOfZeros(demand, 0, m, m + n);
    }
    MassOfZeros(m, 1, n, m + n);
  }

  /** With every demand 0 and no negative cost, the optimum of the multiple
      primal is 0: buying nothing reaches it, and by weak duality against
      the zero prices no feasible vector costs less. */
  lemma MultiZeroDemandOptimum(nbKnapsacks: int, nbItems: int, demand: seq<int>, weight: seq<int>, cost: seq<int>,
                               mode: int, x: seq<real>)
    requires MultiIndexable(nbKnapsacks, nbItems, demand, weight, cost)
    requires ZeroDemands(demand) && NonNegativeCosts(cost)
    ensures Feasible(MultiPrimal(nbKnapsacks, nbItems, demand, weight, cost, mode),
                     Zeros(RangeLength(nbKnapsacks) * RangeLength(nbItems)))
    ensures ObjectiveValue(MultiPrimal(nbKnapsacks, nbItems, demand, weight, cost, mode),
                           Zeros(RangeLength(nbKnapsacks) * RangeLength(nbItems))) == 0.0
    ensures Feasible(MultiPrimal(nbKnapsacks, nbItems, demand, weight, cost, mode), x) ==>
      ObjectiveValue(MultiPrimal(nbKnapsacks, nbItems, demand, weight, cost, mode), x) >= 0.0
  {
    MultiZerosFeasible(nbKnapsacks, nbItems, demand, weight, cost, mode);
    MultiZeroPricesFeasible(nbKnapsacks, nbItems, demand, weight, cost);
    if Feasible(MultiPrimal(nbKnapsacks, nbItems, demand, weight, cost, mode), x) {
      MultiWeakDuality(nbKnapsacks, nbItems, demand, weight, cost, mode, x,
                       Zeros(RangeLength(nbKnapsacks) + RangeLength(nbItems)));
    }
  }

  /** With every demand 0, buying nothing is feasible for the single primal
      in either mode, and it costs 0. */
  lemma SingleZerosFeasible(nbItems: int, demand: seq<int>, weight: seq<int>, cost: seq<int>, mode: int)
    requires SingleIndexable(nbItems, demand, weight, cost) && ZeroDemands(demand)
    ensures Feasible(SinglePrimal(nbItems, demand, weight, cost, mode), Zeros(RangeLength(nbItems)))
    ensures ObjectiveValue(SinglePrimal(nbItems, demand, weight, cost, mode), Zeros(RangeLength(nbItems))) == 0.0
  {
    var n := RangeLength(nbItems);
    SinglePrimalFeasible(nbItems, demand, weight, cost, mode, Zeros(n));
    SinglePrimalObjective(nbItems, demand, weight, cost, mode, Zeros(n));
    DotOfZeros(weight, 0, n, n);
    DotOfZeros(cost, 0, n, n);
  }

  /** With every demand 0 and no negative cost, the zero prices are
      feasible for the single dual, and their objective is 0. */
  lemma SingleZeroPricesFeasible(nbItems: int, demand: seq<int>, weight: seq<int>, cost: seq<int>)
    requires SingleIndexable(nbItems, demand, weight, cost)
    requires ZeroDemands(demand) && NonNegativeCosts(cost)
    ensures Feasible(SingleDual(nbItems, demand, weight, cost), Zeros(1 + RangeLength(nbItems)))
    ensures ObjectiveValue(SingleDual(nbItems, demand, weight, cost), Zeros(1 + RangeLength(nbItems))) == 0.0
  {
    var n := RangeLength(nbItems);
    var y := Zeros(1 + n);
    SingleDualFeasible(nbItems, demand, weight, cost, y);
    SingleDualObjective(nbItems, demand, weight, cost, y);
    forall j | 0 <= j < n ensures PairPriced(y, 1, weight, cost, 0, j) {
      ScaleZero(weight[j]);
    }
    DotOfZeros(demand, 0, 1, 1 + n);
    MassOfZeros(1, 1, n, 1 + n);
  }

  /** With every demand 0 and no negative cost, the optimum of the single
      primal is 0: buying nothing reaches it, and by weak duality against
      the zero prices no feasible vector costs less. */
  lemma SingleZeroDemandOptimum(nbItems: int, demand: seq<int>, weight: seq<int>, cost: seq<int>,
                                mode: int, x: seq<real>)
    requires SingleIndexable(nbItems, demand, weight, cost)
    requires ZeroDemands(demand) && NonNegativeCosts(cost)
    ensures Feasible(SinglePrimal(nbItems, demand, weight, cost, mode), Zeros(RangeLength(nbItems)))
    ensures ObjectiveValue(SinglePrimal(nbItems, demand, weight, cost, mode), Zeros(RangeLength(nbItems))) == 0.0
    ensures Feasible(SinglePrimal(nbItems, demand, weight, cost, mode), x) ==>
      ObjectiveValue(SinglePrimal(nbItems, demand, weight, cost, mode), x) >= 0.0
  {
    SingleZerosFeasible(nbItems, demand, weight, cost, mode);
    SingleZeroPricesFeasible(nbItems, demand, weight, cost);
    if Feasible(SinglePrimal(nbItems, demand, weight, cost, mode), x) {
      SingleWeakDuality(nbItems, demand, weight, cost, mode, x, Zeros(1 + RangeLength(nbItems)));
    }
  }

  /** A non-negative coefficient times a non-negative value is non-negative,
      and it is 0 only if the value is, when the coefficient is positive. */
  lemma ScaleSign(c: int, v: real)
    requires c >= 0 && v >= 0.0
    ensures Scale(c, v) >= 0.0
    ensures c > 0 && Scale(c, v) <= 0.0 ==> v == 0.0
  {
    ScaleIsProduct(c, v);
    if c > 0 && v > 0.0 {
      assert c as real * v > 0.0;
    }
  }

  /** With positive costs and non-negative values, a total cost of at most
      0 forces every value to 0. */
  lemma {:induction false} ZeroCostBuysNothing(c: seq<int>, x: seq<real>, b: nat, k: nat)
    requires k <= |c| && PositiveCosts(c)
    requires forall t :: 0 <= t < |x| ==> x[t] >= 0.0
    ensures Dot(c, x, b, k) >= 0.0
    ensures Dot(c, x, b, k) <= 0.0 ==> forall j :: 0 <= j < k ==> Unused(x, b, j)
  {
    if k > 0 {
      ZeroCostBuysNothing(c, x, b, k - 1);
      ScaleSign(c[k - 1], Val(x, b + k - 1));
    }
  }

  /** The same over `k` blocks of width `n`. */
  lemma {:induction false} ZeroBlockCostBuysNothing(c: seq<int>, x: seq<real>, n: nat, k: nat)
    requires n <= |c| && PositiveCosts(c)
    requires forall t :: 0 <= t < |x| ==> x[t] >= 0.0
    ensures BlockDot(c, x, n, k) >= 0.0
    ensures BlockDot(c, x, n, k) <= 0.0 ==>
      forall i, j :: 0 <= i < k && 0 <= j < n ==> Unused(x, Offset(i, n), j)
  {
    if k > 0 {
      ZeroBlockCostBuysNothing(c, x, n, k - 1);
      ZeroCostBuysNothing(c, x, Offset(k - 1, n), n);
    }
  }

  /** Nothing is listed from values that are all at most the threshold. */
  lemma SelectNothing(x: seq<real>, base: nat, weight: seq<int>, cost: seq<int>, eps: real, k: nat)
    requires k <= |weight| && k <= |cost| && eps >= 0.0
    requires forall j :: 0 <= j < k ==> Unused(x, base, j)
    ensures Select(x, base, weight, cost, eps, k) == []
  {
    var items := Select(x, base, weight, cost, eps, k);
    SelectSpec(x, base, weight, cost, eps, k);
    forall j: nat | j < k ensures j !in Indices(items) {
      assert Unused(x, base, j);
    }
    assert |items| > 0 ==> items[0].index in Indices(items);
  }

  /** With positive costs, a feasible vector of cost 0 (under zero demands,
      an optimum) lists nothing for any knapsack. */
  lemma MultiZeroCostSelectsNothing(nbKnapsacks: int, nbItems: int, demand: seq<int>, weight: seq<int>, cost: seq<int>,
                                    mode: int, x: seq<real>)
    requires MultiIndexable(nbKnapsacks, nbItems, demand, weight, cost) && PositiveCosts(cost)
    requires Feasible(MultiPrimal(nbKnapsacks, nbItems, demand, weight, cost, mode), x)
    requires ObjectiveValue(MultiPrimal(nbKnapsacks, nbItems, demand, weight, cost, mode), x) == 0.0
    ensures forall i :: 0 <= i < RangeLength(nbKnapsacks) ==>
      Selections(x, RangeLength(nbItems), weight, cost, RangeLength(nbKnapsacks))[i] == []
  {
    var m, n := RangeLength(nbKnapsacks), RangeLength(nbItems);
    MultiPrimalFeasible(nbKnapsacks, nbItems, demand, weight, cost, mode, x);
    MultiPrimalObjective(nbKnapsacks, nbItems, demand, weight, cost, mode, x);
    if m > 0 {
      ZeroBlockCostBuysNothing(cost, x, n, m);
      forall i | 0 <= i < m ensures Selections(x, n, weight, cost, m)[i] == [] {
        SelectionsAt(x, n, weight, cost, m, i);
        SelectNothing(x, Offset(i, n), weight, cost, MultiThreshold, n);
      }
    }
  }

  /** With positive costs, a feasible vector of cost 0 lists nothing for the one knapsack. */
  lemma SingleZeroCostSelectsNothing(nbItems: int, demand: seq<int>, weight: seq<int>, cost: seq<int>,
                                     mode: int, x: seq<real>)
    requires SingleIndexable(nbItems, demand, weight, cost) && PositiveCosts(cost)
    requires Feasible(SinglePrimal(nbItems, demand, weight, cost, mode), x)
    requires ObjectiveValue(SinglePrimal(nbItems, demand, weight, cost, mode), x) == 0.0
    ensures SelectSingle(nbItems, weight, cost, x) == []
  {
    var n := RangeLength(nbItems);
    SinglePrimalFeasible(nbItems, demand, weight, cost, mode, x);
    SinglePrimalObjective(nbItems, demand, weight, cost, mode, x);
    ZeroCostBuysNothing(cost, x, 0, n);
    var items := SelectSingle(nbItems, weight, cost, x);
    forall j: nat | j < n ensures j !in Indices(items) {
      assert Unused(x, 0, j);
    }
    assert |items| > 0 ==> items[0].index in Indices(items);
  }

  /** Positive costs are needed for the empty selections: with a zero-cost
      item and zero demand, taking the item is feasible and costs 0, which
      is optimal, yet the item is listed. */
  lemma ZeroCostItemMayBeListed(x: seq<real>)
    requires x == [1.0]
    ensures Feasible(SinglePrimal(1, [0], [1], [0], 0), x)
    ensures ObjectiveValue(SinglePrimal(1, [0], [1], [0], 0), x) == 0.0
    ensures SelectSingle(1, [1], [0], x) == [Item(0, 1, 0)]
  {
    SinglePrimalFeasible(1, [0], [1], [0], 0, x);
    SinglePrimalObjective(1, [0], [1], [0], 0, x);
    ScaleOne(1);
    ScaleOne(0);
    var items := SelectSingle(1, [1], [0], x);
    assert Picked(x, 0, SingleThreshold, 0);
    assert 0 in Indices(items);
  }
}
