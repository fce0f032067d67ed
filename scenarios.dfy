/** Three small instances worked out on the programs themselves: which
    vectors are feasible, what the optimum is, and what the extraction lists
    at an optimum.  The solver is not modelled, so "optimum" here means a
    feasible vector whose objective no feasible vector beats. */
module Scenarios {
  import opened LinearProgram
  import opened Formulation
  import opened FormulationProperties
  import opened Extraction
  import opened Duality

  /** A sum of three weighted values, written out. */
  lemma WeightedSumOfThree(c: seq<int>, x: seq<real>, b: nat)
    requires |c| >= 3
    ensures WeightedSum(c, x, b, 3)
         == c[0] as real * Val(x, b) + c[1] as real * Val(x, b + 1) + c[2] as real * Val(x, b + 2)
  {
    assert WeightedSum(c, x, b, 1) == c[0] as real * Val(x, b);
    assert WeightedSum(c, x, b, 2) == WeightedSum(c, x, b, 1) + c[1] as real * Val(x, b + 1);
  }

  // ---------------------------------------------------------------------
  // The four programs for one or two knapsacks and three items, written out

  /** The single primal over three items: one covering row, cost summed item by item. */
  lemma SinglePrimalOfThree(demand: seq<int>, weight: seq<int>, cost: seq<int>, mode: int, x: seq<real>)
    requires |demand| >= 1 && |weight| >= 3 && |cost| >= 3
    ensures Feasible(SinglePrimal(3, demand, weight, cost, mode), x) <==>
      (|x| == 3 && PrimalBox(x, mode)
       && weight[0] as real * Val(x, 0) + weight[1] as real * Val(x, 1) + weight[2] as real * Val(x, 2)
          >= demand[0] as real)
    ensures ObjectiveValue(SinglePrimal(3, demand, weight, cost, mode), x)
         == cost[0] as real * Val(x, 0) + cost[1] as real * Val(x, 1) + cost[2] as real * Val(x, 2)
  {
    SinglePrimalFeasible(3, demand, weight, cost, mode, x);
    SinglePrimalObjective(3, demand, weight, cost, mode, x);
    DotIsWeightedSum(weight, x, 0, 3);
    DotIsWeightedSum(cost, x, 0, 3);
    WeightedSumOfThree(weight, x, 0);
    WeightedSumOfThree(cost, x, 0);
  }

  /** `Mass` of three consecutive values, written out. */
  lemma MassOfThree(y: seq<real>, first: nat)
    ensures Mass(y, first, 1, 3) == Val(y, first) + Val(y, first + 1) + Val(y, first + 2)
  {
    OffsetUnit(0);
    OffsetUnit(1);
    OffsetUnit(2);
    assert Mass(y, first, 1, 1) == Val(y, first);
  }

  /** Feasibility of the single dual with each pricing row in product form. */
  lemma SingleDualByProduct(nbItems: int, demand: seq<int>, weight: seq<int>, cost: seq<int>, y: seq<real>)
    requires SingleIndexable(nbItems, demand, weight, cost)
    ensures Feasible(SingleDual(nbItems, demand, weight, cost), y) <==>
      (|y| == 1 + RangeLength(nbItems) && NonNegative(y)
       && KnapsackPricedByProduct(y, 1, weight, cost, RangeLength(nbItems), 0))
  {
    SingleDualFeasible(nbItems, demand, weight, cost, y);
    forall j | 0 <= j < RangeLength(nbItems)
      ensures PairPriced(y, 1, weight, cost, 0, j) <==> PairPricedByProduct(y, 1, weight, cost, 0, j)
    {
      PairPricedProduct(y, 1, weight, cost, 0, j);
    }
  }

  /** The single dual over three items: one pricing row per item. */
  lemma SingleDualOfThree(demand: seq<int>, weight: seq<int>, cost: seq<int>, y: seq<real>)
    requires |demand| >= 1 && |weight| >= 3 && |cost| >= 3
    ensures Feasible(SingleDual(3, demand, weight, cost), y) <==>
      (|y| == 4 && NonNegative(y)
       && weight[0] as real * Val(y, 0) - Val(y, 1) <= cost[0] as real
       && weight[1] as real * Val(y, 0) - Val(y, 2) <= cost[1] as real
       && weight[2] as real * Val(y, 0) - Val(y, 3) <= cost[2] as real)
  {
    SingleDualByProduct(3, demand, weight, cost, y);
    assert RangeLength(3) == 3;
    assert PairPricedByProduct(y, 1, weight, cost, 0, 0)
       <==> weight[0] as real * Val(y, 0) - Val(y, 1) <= cost[0] as real;
    assert PairPricedByProduct(y, 1, weight, cost, 0, 1)
       <==> weight[1] as real * Val(y, 0) - Val(y, 2) <= cost[1] as real;
    assert PairPricedByProduct(y, 1, weight, cost, 0, 2)
       <==> weight[2] as real * Val(y, 0) - Val(y, 3) <= cost[2] as real;
    assert KnapsackPricedByProduct(y, 1, weight, cost, 3, 0)
       <==> PairPricedByProduct(y, 1, weight, cost, 0, 0) && PairPricedByProduct(y, 1, weight, cost, 0, 1)
            && PairPricedByProduct(y, 1, weight, cost, 0, 2);
  }

  /** The single dual's objective over three items: demand times `v_1`, less the item prices. */
  lemma SingleDualValueOfThree(demand: seq<int>, weight: seq<int>, cost: seq<int>, y: seq<real>)
    requires |demand| >= 1 && |weight| >= 3 && |cost| >= 3
    ensures ObjectiveValue(SingleDual(3, demand, weight, cost), y)
         == demand[0] as real * Val(y, 0) - Val(y, 1) - Val(y, 2) - Val(y, 3)
  {
    SingleDualObjective(3, demand, weight, cost, y);
    DotIsWeightedSum(demand, y, 0, 1);
    MassOfThree(y, 1);
  }

  /** Feasibility of the multiple primal with each covering row as a product-form sum. */
  lemma MultiPrimalByProduct(nbKnapsacks: int, nbItems: int, demand: seq<int>, weight: seq<int>, cost: seq<int>,
                             mode: int, x: seq<real>)
    requires MultiIndexable(nbKnapsacks, nbItems, demand, weight, cost)
    ensures Feasible(MultiPrimal(nbKnapsacks, nbItems, demand, weight, cost, mode), x) <==>
      (|x| == RangeLength(nbKnapsacks) * RangeLength(nbItems) && PrimalBox(x, mode)
       && (forall i :: 0 <= i < RangeLength(nbKnapsacks) ==>
             WeightedSum(weight, x, Offset(i, RangeLength(nbItems)), RangeLength(nbItems)) >= demand[i] as real)
       && (forall j :: 0 <= j < RangeLength(nbItems) ==> ItemExclusive(x, RangeLength(nbKnapsacks), RangeLength(nbItems), j)))
  {
    var m, n := RangeLength(nbKnapsacks), RangeLength(nbItems);
    MultiPrimalFeasible(nbKnapsacks, nbItems, demand, weight, cost, mode, x);
    forall i | 0 <= i < m
      ensures KnapsackCovered(x, demand, weight, n, i) <==> WeightedSum(weight, x, Offset(i, n), n) >= demand[i] as real
    {
      DotIsWeightedSum(weight, x, Offset(i, n), n);
    }
  }

  /** The multiple primal over two knapsacks and three items: two covering
      rows and three exclusivity rows. */
  lemma MultiPrimalOfTwoByThree(demand: seq<int>, weight: seq<int>, cost: seq<int>, mode: int, x: seq<real>)
    requires |demand| >= 2 && |weight| >= 3 && |cost| >= 3
    ensures Feasible(MultiPrimal(2, 3, demand, weight, cost, mode), x) <==>
      (|x| == 6 && PrimalBox(x, mode)
       && weight[0] as real * Val(x, 0) + weight[1] as real * Val(x, 1) + weight[2] as real * Val(x, 2)
          >= demand[0] as real
       && weight[0] as real * Val(x, 3) + weight[1] as real * Val(x, 4) + weight[2] as real * Val(x, 5)
          >= demand[1] as real
       && Val(x, 0) + Val(x, 3) <= 1.0
       && Val(x, 1) + Val(x, 4) <= 1.0
       && Val(x, 2) + Val(x, 5) <= 1.0)
  {
    MultiPrimalByProduct(2, 3, demand, weight, cost, mode, x);
    assert RangeLength(2) == 2 && RangeLength(3) == 3;
    assert Offset(0, 3) == 0 && Offset(1, 3) == 3;
    WeightedSumOfThree(weight, x, 0);
    WeightedSumOfThree(weight, x, 3);
    assert WeightedSum(weight, x, 0, 3)
        == weight[0] as real * Val(x, 0) + weight[1] as real * Val(x, 1) + weight[2] as real * Val(x, 2);
    assert WeightedSum(weight, x, 3, 3)
        == weight[0] as real * Val(x, 3) + weight[1] as real * Val(x, 4) + weight[2] as real * Val(x, 5);
    forall j | 0 <= j < 3 ensures ItemExclusive(x, 2, 3, j) <==> Val(x, j) + Val(x, j + 3) <= 1.0 {
      assert Mass(x, j, 3, 1) == Val(x, j);
    }
    assert ItemExclusive(x, 2, 3, 0) <==> Val(x, 0) + Val(x, 3) <= 1.0;
    assert ItemExclusive(x, 2, 3, 1) <==> Val(x, 1) + Val(x, 4) <= 1.0;
    assert ItemExclusive(x, 2, 3, 2) <==> Val(x, 2) + Val(x, 5) <= 1.0;
    assert (forall i :: 0 <= i < 2 ==> WeightedSum(weight, x, Offset(i, 3), 3) >= demand[i] as real)
       <==> WeightedSum(weight, x, 0, 3) >= demand[0] as real && WeightedSum(weight, x, 3, 3) >= demand[1] as real;
    assert (forall j :: 0 <= j < 3 ==> ItemExclusive(x, 2, 3, j))
       <==> ItemExclusive(x, 2, 3, 0) && ItemExclusive(x, 2, 3, 1) && ItemExclusive(x, 2, 3, 2);
  }

  /** The cost of the multiple primal over two knapsacks and three items,
      summed over all six variables. */
  lemma MultiPrimalCostOfTwoByThree(demand: seq<int>, weight: seq<int>, cost: seq<int>, mode: int, x: seq<real>)
    requires |demand| >= 2 && |weight| >= 3 && |cost| >= 3
    ensures ObjectiveValue(MultiPrimal(2, 3, demand, weight, cost, mode), x)
         == (cost[0] as real * Val(x, 0) + cost[1] as real * Val(x, 1) + cost[2] as real * Val(x, 2))
          + (cost[0] as real * Val(x, 3) + cost[1] as real * Val(x, 4) + cost[2] as real * Val(x, 5))
  {
    MultiPrimalObjective(2, 3, demand, weight, cost, mode, x);
    assert Offset(0, 3) == 0 && Offset(1, 3) == 3;
    BlockDotIsBlockWeightedSum(cost, x, 3, 2);
    WeightedSumOfThree(cost, x, 0);
    WeightedSumOfThree(cost, x, 3);
    assert BlockWeightedSum(cost, x, 3, 1) == WeightedSum(cost, x, 0, 3);
  }

  /** Feasibility of the multiple dual with each knapsack's pricing rows in product form. */
  lemma MultiDualByProduct(nbKnapsacks: int, nbItems: int, demand: seq<int>, weight: seq<int>, cost: seq<int>,
                           y: seq<real>)
    requires MultiIndexable(nbKnapsacks, nbItems, demand, weight, cost)
    ensures Feasible(MultiDual(nbKnapsacks, nbItems, demand, weight, cost), y) <==>
      (|y| == RangeLength(nbKnapsacks) + RangeLength(nbItems) && NonNegative(y)
       && forall i, j :: 0 <= i < RangeLength(nbKnapsacks) && 0 <= j < RangeLength(nbItems) ==>
            PairPricedByProduct(y, RangeLength(nbKnapsacks), weight, cost, i, j))
  {
    var m, n := RangeLength(nbKnapsacks), RangeLength(nbItems);
    MultiDualFeasible(nbKnapsacks, nbItems, demand, weight, cost, y);
    forall i, j | 0 <= i < m && 0 <= j < n
      ensures PairPriced(y, m, weight, cost, i, j) <==> PairPricedByProduct(y, m, weight, cost, i, j)
    {
      PairPricedProduct(y, m, weight, cost, i, j);
    }
  }

  /** The multiple dual over two knapsacks and three items: one pricing row per pair. */
  lemma MultiDualOfTwoByThree(demand: seq<int>, weight: seq<int>, cost: seq<int>, y: seq<real>)
    requires |demand| >= 2 && |weight| >= 3 && |cost| >= 3
    ensures Feasible(MultiDual(2, 3, demand, weight, cost), y) <==>
      (|y| == 5 && NonNegative(y)
       && weight[0] as real * Val(y, 0) - Val(y, 2) <= cost[0] as real
       && weight[1] as real * Val(y, 0) - Val(y, 3) <= cost[1] as real
       && weight[2] as real * Val(y, 0) - Val(y, 4) <= cost[2] as real
       && weight[0] as real * Val(y, 1) - Val(y, 2) <= cost[0] as real
       && weight[1] as real * Val(y, 1) - Val(y, 3) <= cost[1] as real
       && weight[2] as real * Val(y, 1) - Val(y, 4) <= cost[2] as real)
  {
    MultiDualByProduct(2, 3, demand, weight, cost, y);
    assert RangeLength(2) == 2 && RangeLength(3) == 3;
    assert PairPricedByProduct(y, 2, weight, cost, 0, 0)
       <==> weight[0] as real * Val(y, 0) - Val(y, 2) <= cost[0] as real;
    assert PairPricedByProduct(y, 2, weight, cost, 0, 1)
       <==> weight[1] as real * Val(y, 0) - Val(y, 3) <= cost[1] as real;
    assert PairPricedByProduct(y, 2, weight, cost, 0, 2)
       <==> weight[2] as real * Val(y, 0) - Val(y, 4) <= cost[2] as real;
    assert PairPricedByProduct(y, 2, weight, cost, 1, 0)
       <==> weight[0] as real * Val(y, 1) - Val(y, 2) <= cost[0] as real;
    assert PairPricedByProduct(y, 2, weight, cost, 1, 1)
       <==> weight[1] as real * Val(y, 1) - Val(y, 3) <= cost[1] as real;
    assert PairPricedByProduct(y, 2, weight, cost, 1, 2)
       <==> weight[2] as real * Val(y, 1) - Val(y, 4) <= cost[2] as real;
    assert (forall i, j :: 0 <= i < 2 && 0 <= j < 3 ==> PairPricedByProduct(y, 2, weight, cost, i, j))
       <==> PairPricedByProduct(y, 2, weight, cost, 0, 0) && PairPricedByProduct(y, 2, weight, cost, 0, 1)
            && PairPricedByProduct(y, 2, weight, cost, 0, 2) && PairPricedByProduct(y, 2, weight, cost, 1, 0)
            && PairPricedByProduct(y, 2, weight, cost, 1, 1) && PairPricedByProduct(y, 2, weight, cost, 1, 2);
  }

  /** The multiple dual's objective over two knapsacks and three items. */
  lemma MultiDualValueOfTwoByThree(demand: seq<int>, weight: seq<int>, cost: seq<int>, y: seq<real>)
    requires |demand| >= 2 && |weight| >= 3 && |cost| >= 3
    ensures ObjectiveValue(MultiDual(2, 3, demand, weight, cost), y)
         == demand[0] as real * Val(y, 0) + demand[1] as real * Val(y, 1) - Val(y, 2) - Val(y, 3) - Val(y, 4)
  {
    MultiDualObjective(2, 3, demand, weight, cost, y);
    DotIsWeightedSum(demand, y, 0, 2);
    assert WeightedSum(demand, y, 0, 1) == demand[0] as real * Val(y, 0);
    MassOfThree(y, 2);
  }

  // ---------------------------------------------------------------------
  // Scenario A: one knapsack of demand 10, items of weight 5, 6, 7 and cost 2, 3, 4

  const DemandA: seq<int> := [10]
  const WeightA: seq<int> := [5, 6, 7]
  const CostA: seq<int> := [2, 3, 4]

  /** Items 0 and 1 (weight 11, cost 5) are a feasible integer answer, and
      the extraction lists exactly them. */
  lemma ScenarioAIntegerWitness()
    ensures Feasible(SinglePrimal(3, DemandA, WeightA, CostA, 0), [1.0, 1.0, 0.0])
    ensures ObjectiveValue(SinglePrimal(3, DemandA, WeightA, CostA, 0), [1.0, 1.0, 0.0]) == 5.0
    ensures SelectSingle(3, WeightA, CostA, [1.0, 1.0, 0.0]) == [Item(0, 5, 2), Item(1, 6, 3)]
  {
    var x := [1.0, 1.0, 0.0];
    SinglePrimalOfThree(DemandA, WeightA, CostA, 0, x);
    assert Select(x, 0, WeightA, CostA, SingleThreshold, 1) == [Item(0, 5, 2)];
    assert Select(x, 0, WeightA, CostA, SingleThreshold, 2) == [Item(0, 5, 2), Item(1, 6, 3)];
  }

  /** No integer answer of scenario A costs less than 5. */
  lemma ScenarioAIntegerOptimum(x: seq<real>)
    requires Feasible(SinglePrimal(3, DemandA, WeightA, CostA, 0), x)
    ensures ObjectiveValue(SinglePrimal(3, DemandA, WeightA, CostA, 0), x) >= 5.0
  {
    SinglePrimalOfThree(DemandA, WeightA, CostA, 0, x);
    assert x[0] == 0.0 || x[0] == 1.0;
    assert x[1] == 0.0 || x[1] == 1.0;
    assert x[2] == 0.0 || x[2] == 1.0;
  }

  /** The relaxed optimum of scenario A is 4.5, all of item 0 and five sixths
      of item 1, and a dual vector reaches 4.5 too: on this instance the
      relaxed primal and the dual have the same optimum (strong duality). */
  lemma ScenarioAStrongDuality(x: seq<real>, y: seq<real>)
    ensures Feasible(SinglePrimal(3, DemandA, WeightA, CostA, 1), [1.0, 5.0 / 6.0, 0.0])
    ensures ObjectiveValue(SinglePrimal(3, DemandA, WeightA, CostA, 1), [1.0, 5.0 / 6.0, 0.0]) == 4.5
    ensures Feasible(SingleDual(3, DemandA, WeightA, CostA), [0.5, 0.5, 0.0, 0.0])
    ensures ObjectiveValue(SingleDual(3, DemandA, WeightA, CostA), [0.5, 0.5, 0.0, 0.0]) == 4.5
    ensures Feasible(SinglePrimal(3, DemandA, WeightA, CostA, 1), x)
            ==> ObjectiveValue(SinglePrimal(3, DemandA, WeightA, CostA, 1), x) >= 4.5
    ensures Feasible(SingleDual(3, DemandA, WeightA, CostA), y)
            ==> ObjectiveValue(SingleDual(3, DemandA, WeightA, CostA), y) <= 4.5
  {
    var best, price := [1.0, 5.0 / 6.0, 0.0], [0.5, 0.5, 0.0, 0.0];
    SinglePrimalOfThree(DemandA, WeightA, CostA, 1, best);
    SingleDualOfThree(DemandA, WeightA, CostA, price);
    SingleDualValueOfThree(DemandA, WeightA, CostA, price);
    if Feasible(SinglePrimal(3, DemandA, WeightA, CostA, 1), x) {
      SingleWeakDuality(3, DemandA, WeightA, CostA, 1, x, price);
    }
    if Feasible(SingleDual(3, DemandA, WeightA, CostA), y) {
      SingleWeakDuality(3, DemandA, WeightA, CostA, 1, best, y);
    }
  }

  // ---------------------------------------------------------------------
  // Scenario B: one knapsack of demand 5 and no items

  /** With no items nothing reaches demand 5: the primal has no feasible vector. */
  lemma ScenarioBInfeasible(mode: int, x: seq<real>)
    ensures !Feasible(SinglePrimal(0, [5], [], [], mode), x)
  {
    SinglePrimalFeasible(0, [5], [], [], mode, x);
  }

  // ---------------------------------------------------------------------
  // Scenario C: two knapsacks of demand 4, three items of weight 4 and cost 1

  const DemandC: seq<int> := [4, 4]
  const WeightC: seq<int> := [4, 4, 4]
  const CostC: seq<int> := [1, 1, 1]

  /** Item 0 in knapsack 0 and item 1 in knapsack 1 is a feasible integer
      answer of cost 2, and the extraction lists one distinct item per knapsack. */
  lemma ScenarioCIntegerWitness(x: seq<real>)
    requires x == [1.0, 0.0, 0.0, 0.0, 1.0, 0.0]
    ensures Feasible(MultiPrimal(2, 3, DemandC, WeightC, CostC, 0), x)
    ensures ObjectiveValue(MultiPrimal(2, 3, DemandC, WeightC, CostC, 0), x) == 2.0
    ensures Selections(x, 3, WeightC, CostC, 2) == map[0 := [Item(0, 4, 1)], 1 := [Item(1, 4, 1)]]
  {
    MultiPrimalOfTwoByThree(DemandC, WeightC, CostC, 0, x);
    MultiPrimalCostOfTwoByThree(DemandC, WeightC, CostC, 0, x);
    assert Offset(0, 3) == 0 && Offset(1, 3) == 3;
    assert Select(x, 0, WeightC, CostC, MultiThreshold, 1) == [Item(0, 4, 1)];
    assert Select(x, 0, WeightC, CostC, MultiThreshold, 3) == [Item(0, 4, 1)];
    assert Select(x, 3, WeightC, CostC, MultiThreshold, 1) == [];
    assert Select(x, 3, WeightC, CostC, MultiThreshold, 2) == [Item(1, 4, 1)];
    assert Select(x, 3, WeightC, CostC, MultiThreshold, 3) == [Item(1, 4, 1)];
  }

  /** A quarter per unit of demand, and no item price, is a dual vector of scenario C of value 2. */
  lemma ScenarioCDualWitness(y: seq<real>)
    requires y == [0.25, 0.25, 0.0, 0.0, 0.0]
    ensures Feasible(MultiDual(2, 3, DemandC, WeightC, CostC), y)
    ensures ObjectiveValue(MultiDual(2, 3, DemandC, WeightC, CostC), y) == 2.0
  {
    MultiDualOfTwoByThree(DemandC, WeightC, CostC, y);
    MultiDualValueOfTwoByThree(DemandC, WeightC, CostC, y);
  }

  /** No answer of scenario C, integer or relaxed, costs less than 2. */
  lemma ScenarioCOptimum(mode: int, x: seq<real>)
    requires Feasible(MultiPrimal(2, 3, DemandC, WeightC, CostC, mode), x)
    ensures ObjectiveValue(MultiPrimal(2, 3, DemandC, WeightC, CostC, mode), x) >= 2.0
  {
    var price := [0.25, 0.25, 0.0, 0.0, 0.0];
    ScenarioCDualWitness(price);
    MultiWeakDuality(2, 3, DemandC, WeightC, CostC, mode, x, price);
  }

  /** Every integer optimum of scenario C puts exactly one item in each
      knapsack, and leaves one item in neither. */
  lemma ScenarioCOptimaPickOneEach(x: seq<real>)
    requires Feasible(MultiPrimal(2, 3, DemandC, WeightC, CostC, 0), x)
    requires ObjectiveValue(MultiPrimal(2, 3, DemandC, WeightC, CostC, 0), x) == 2.0
    ensures x[0] + x[1] + x[2] == 1.0 && x[3] + x[4] + x[5] == 1.0
    ensures exists j :: 0 <= j < 3 && x[j] == 0.0 && x[j + 3] == 0.0
  {
    MultiPrimalOfTwoByThree(DemandC, WeightC, CostC, 0, x);
    MultiPrimalCostOfTwoByThree(DemandC, WeightC, CostC, 0, x);
    assert forall k :: 0 <= k < 6 ==> x[k] == 0.0 || x[k] == 1.0;
    if x[0] + x[3] != 0.0 && x[1] + x[4] != 0.0 {
      assert x[2] == 0.0 && x[5] == 0.0;
    }
  }
}
