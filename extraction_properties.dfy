/** What the extracted selections and dual vectors say about a solution of
    the programs `Formulation` builds: a feasible primal solution yields
    selections that meet every demand and, when it is 0/1, never share an
    item; a dual solution is reported whole and its vectors give back the
    dual objective. */
module ExtractionProperties {
  import opened LinearProgram
  import opened Formulation
  import opened FormulationProperties
  import opened Extraction
  import opened Duality

  /** Every listed weight is at least 0. */
  predicate NonNegativeWeights(weight: seq<int>)
  {
    forall j :: 0 <= j < |weight| ==> weight[j] >= 0
  }

  lemma WeightSumSnoc(items: seq<Item>, it: Item)
    ensures WeightSum(items + [it]) == WeightSum(items) + it.weight
  {
    assert (items + [it])[..|items|] == items;
  }

  /** `c[j]` summed over the items `j < k` picked from `x[base + j]` (their
      weight or their cost), directly over the items rather than over the
      extracted list. */
  function PickedSum(x: seq<real>, base: nat, c: seq<int>, eps: real, k: nat): int
    requires k <= |c|
  {
    if k == 0 then 0
    else PickedSum(x, base, c, eps, k - 1) + (if Picked(x, base, eps, k - 1) then c[k - 1] else 0)
  }

  /** The extracted list weighs what its picked items weigh. */
  lemma {:induction false} SelectWeight(x: seq<real>, base: nat, weight: seq<int>, cost: seq<int>, eps: real, k: nat)
    requires k <= |weight| && k <= |cost|
    ensures WeightSum(Select(x, base, weight, cost, eps, k)) == PickedSum(x, base, weight, eps, k)
  {
    if k > 0 {
      SelectWeight(x, base, weight, cost, eps, k - 1);
      if Picked(x, base, eps, k - 1) {
        WeightSumSnoc(Select(x, base, weight, cost, eps, k - 1), Item(k - 1, weight[k - 1], cost[k - 1]));
      }
    }
  }

  // ---------------------------------------------------------------------
  // Weight of a selection against the coverage sum

  /** With values in [0, 1] and non-negative weights, the items with a
      positive value weigh at least the coverage sum `sum_j weight[j]*x[base+j]`. */
  lemma {:induction false} PickedSumBound(x: seq<real>, base: nat, weight: seq<int>, k: nat)
    requires k <= |weight|
    requires NonNegativeWeights(weight) && InUnitBox(x)
    ensures Dot(weight, x, base, k) <= PickedSum(x, base, weight, MultiThreshold, k) as real
  {
    if k > 0 {
      PickedSumBound(x, base, weight, k - 1);
      var w, v := weight[k - 1], Val(x, base + k - 1);
      assert 0.0 <= v <= 1.0;
      if v > 0.0 {
        ScaleWithin(w, v);
      } else {
        ScaleZero(w);
      }
    }
  }

  /** With 0/1 values and a threshold in [0, 1), the picked items weigh
      exactly the coverage sum, whatever the signs of the weights. */
  lemma {:induction false} PickedSumExact(x: seq<real>, base: nat, weight: seq<int>, eps: real, k: nat)
    requires k <= |weight|
    requires ZeroOne(x) && 0.0 <= eps < 1.0
    ensures Dot(weight, x, base, k) == PickedSum(x, base, weight, eps, k) as real
  {
    if k > 0 {
      PickedSumExact(x, base, weight, eps, k - 1);
      var v := Val(x, base + k - 1);
      assert v == 0.0 || v == 1.0;
      if v == 1.0 {
        ScaleOne(weight[k - 1]);
      } else {
        ScaleZero(weight[k - 1]);
      }
    }
  }

  /** A feasible 0/1 solution of the single primal selects items that meet the demand. */
  lemma SingleSelectionCovers(nbItems: int, demand: seq<int>, weight: seq<int>, cost: seq<int>, x: seq<real>)
    requires SingleIndexable(nbItems, demand, weight, cost)
    requires Feasible(SinglePrimal(nbItems, demand, weight, cost, 0), x)
    ensures WeightSum(SelectSingle(nbItems, weight, cost, x)) >= demand[0]
  {
    SinglePrimalFeasible(nbItems, demand, weight, cost, 0, x);
    SelectWeight(x, 0, weight, cost, SingleThreshold, RangeLength(nbItems));
    PickedSumExact(x, 0, weight, SingleThreshold, RangeLength(nbItems));
  }

  /** Knapsack `i`'s selected items weigh at least its demand when its coverage row holds. */
  lemma KnapsackSelectionCovers(x: seq<real>, demand: seq<int>, weight: seq<int>, cost: seq<int>, n: nat, k: nat, i: nat)
    requires n <= |weight| && n <= |cost| && i < k && i < |demand|
    requires NonNegativeWeights(weight) && InUnitBox(x)
    requires KnapsackCovered(x, demand, weight, n, i)
    ensures WeightSum(Selections(x, n, weight, cost, k)[i]) >= demand[i]
  {
    SelectionsAt(x, n, weight, cost, k, i);
    SelectWeight(x, Offset(i, n), weight, cost, MultiThreshold, n);
    PickedSumBound(x, Offset(i, n), weight, n);
  }

  // ---------------------------------------------------------------------
  // Exclusivity and disjoint selections

  /** One entry of a column sum is at most the sum, when every entry is non-negative. */
  lemma {:induction false} MassAtLeastOne(x: seq<real>, first: nat, stride: nat, m: nat, a: nat)
    requires InUnitBox(x) && a < m
    ensures Mass(x, first, stride, m) >= Val(x, first + Offset(a, stride))
  {
    if a < m - 1 {
      MassAtLeastOne(x, first, stride, m - 1, a);
    } else {
      MassNonNegative(x, first, stride, m - 1);
    }
  }

  /** Two entries of a column sum are at most the sum. */
  lemma {:induction false} MassAtLeastTwo(x: seq<real>, first: nat, stride: nat, m: nat, a: nat, b: nat)
    requires InUnitBox(x) && a < b < m
    ensures Mass(x, first, stride, m) >= Val(x, first + Offset(a, stride)) + Val(x, first + Offset(b, stride))
  {
    if b < m - 1 {
      MassAtLeastTwo(x, first, stride, m - 1, a, b);
    } else {
      MassAtLeastOne(x, first, stride, m - 1, a);
    }
  }

  /** An item picked by two different knapsacks under 0/1 values breaks its exclusivity row. */
  lemma PickedTwiceBreaksExclusivity(x: seq<real>, m: nat, n: nat, j: nat, a: nat, b: nat)
    requires ZeroOne(x) && InUnitBox(x)
    requires j < n && a < b < m
    requires Picked(x, Offset(a, n), MultiThreshold, j) && Picked(x, Offset(b, n), MultiThreshold, j)
    ensures !ItemExclusive(x, m, n, j)
  {
    assert Val(x, Offset(a, n) + j) == 1.0;
    assert Val(x, Offset(b, n) + j) == 1.0;
    MassAtLeastTwo(x, j, n, m, a, b);
  }

  /** Two knapsacks `a < b` list no common item under a 0/1 assignment that
      keeps every exclusivity row. */
  lemma KnapsacksShareNothing(x: seq<real>, m: nat, n: nat, weight: seq<int>, cost: seq<int>, a: nat, b: nat)
    requires n <= |weight| && n <= |cost|
    requires ZeroOne(x) && InUnitBox(x)
    requires forall j :: 0 <= j < n ==> ItemExclusive(x, m, n, j)
    requires a < b < m
    ensures Indices(Selections(x, n, weight, cost, m)[a]) !! Indices(Selections(x, n, weight, cost, m)[b])
  {
    var sel := Selections(x, n, weight, cost, m);
    SelectionsAt(x, n, weight, cost, m, a);
    SelectionsAt(x, n, weight, cost, m, b);
    SelectSpec(x, Offset(a, n), weight, cost, MultiThreshold, n);
    SelectSpec(x, Offset(b, n), weight, cost, MultiThreshold, n);
    forall j | j in Indices(sel[a]) && j in Indices(sel[b])
      ensures false
    {
      PickedTwiceBreaksExclusivity(x, m, n, j, a, b);
    }
  }

  /** Under a 0/1 assignment that keeps every exclusivity row, no item is
      listed under two knapsacks. */
  lemma SelectionsDisjoint(x: seq<real>, m: nat, n: nat, weight: seq<int>, cost: seq<int>)
    requires n <= |weight| && n <= |cost|
    requires ZeroOne(x) && InUnitBox(x)
    requires forall j :: 0 <= j < n ==> ItemExclusive(x, m, n, j)
    ensures forall a, b :: 0 <= a < m && 0 <= b < m && a != b ==>
      Indices(Selections(x, n, weight, cost, m)[a]) !! Indices(Selections(x, n, weight, cost, m)[b])
  {
    var sel := Selections(x, n, weight, cost, m);
    forall a, b | 0 <= a < m && 0 <= b < m && a != b
      ensures Indices(sel[a]) !! Indices(sel[b])
    {
      if a < b {
        KnapsacksShareNothing(x, m, n, weight, cost, a, b);
      } else {
        KnapsacksShareNothing(x, m, n, weight, cost, b, a);
      }
    }
  }

  /** A feasible solution of the multiple primal yields selections meeting
      every demand, in mode 0 (0/1 values) whatever the weights and in mode 1
      when no weight is negative; in mode 0 the selections are also pairwise
      disjoint. */
  lemma MultiSelectionsCover(nbKnapsacks: int, nbItems: int, demand: seq<int>, weight: seq<int>, cost: seq<int>,
                             mode: int, x: seq<real>)
    requires MultiIndexable(nbKnapsacks, nbItems, demand, weight, cost)
    requires mode == 0 || NonNegativeWeights(weight)
    requires Feasible(MultiPrimal(nbKnapsacks, nbItems, demand, weight, cost, mode), x)
    ensures forall i :: 0 <= i < RangeLength(nbKnapsacks) ==>
      WeightSum(Selections(x, RangeLength(nbItems), weight, cost, RangeLength(nbKnapsacks))[i]) >= demand[i]
    ensures mode == 0 ==> forall a, b :: 0 <= a < RangeLength(nbKnapsacks) && 0 <= b < RangeLength(nbKnapsacks) && a != b ==>
      Indices(Selections(x, RangeLength(nbItems), weight, cost, RangeLength(nbKnapsacks))[a])
      !! Indices(Selections(x, RangeLength(nbItems), weight, cost, RangeLength(nbKnapsacks))[b])
  {
    var m, n := RangeLength(nbKnapsacks), RangeLength(nbItems);
    MultiPrimalFeasible(nbKnapsacks, nbItems, demand, weight, cost, mode, x);
    if m > 0 {
      forall i | 0 <= i < m
        ensures WeightSum(Selections(x, n, weight, cost, m)[i]) >= demand[i]
      {
        assert KnapsackCovered(x, demand, weight, n, i);
        if mode == 0 {
          SelectionsAt(x, n, weight, cost, m, i);
          SelectWeight(x, Offset(i, n), weight, cost, MultiThreshold, n);
          PickedSumExact(x, Offset(i, n), weight, MultiThreshold, n);
        } else {
          KnapsackSelectionCovers(x, demand, weight, cost, n, m, i);
        }
      }
      if mode == 0 {
        SelectionsDisjoint(x, m, n, weight, cost);
      }
    }
  }

  // ---------------------------------------------------------------------
  // What a relaxed (mode 1) answer does not promise

  /** The `1e-5` threshold can drop an item that carries the coverage: one
      item of weight at least 200000 at value 0.000005 covers a demand of 1,
      yet nothing is listed. */
  lemma RelaxedSingleMayMissDemand(w: int)
    requires w >= 200000
    ensures Feasible(SinglePrimal(1, [1], [w], [0], 1), [0.000005])
    ensures SelectSingle(1, [w], [0], [0.000005]) == []
    ensures WeightSum(SelectSingle(1, [w], [0], [0.000005])) < 1
  {
    var x := [0.000005];
    ScaleIsProduct(w, 0.000005);
    assert Dot([w], x, 0, 1) == Scale(w, 0.000005);
    SinglePrimalFeasible(1, [1], [w], [0], 1, x);
    assert !Picked(x, 0, SingleThreshold, 0);
  }

  /** The answer of `NegativeWeightMayMissDemand` keeps every row. */
  lemma NegativeWeightRowsHold(x: seq<real>)
    requires x == [1.0, 0.5, 0.0, 0.0]
    ensures KnapsackCovered(x, [1, 0], [2, -2], 2, 0) && KnapsackCovered(x, [1, 0], [2, -2], 2, 1)
    ensures ItemExclusive(x, 2, 2, 0) && ItemExclusive(x, 2, 2, 1)
  {
    var weight := [2, -2];
    ScaleIsProduct(2, 1.0);
    ScaleIsProduct(-2, 0.5);
    ScaleZero(2);
    ScaleZero(-2);
    assert Offset(1, 2) == 2;
    assert Val(x, 0) == 1.0 && Val(x, 1) == 0.5 && Val(x, 2) == 0.0 && Val(x, 3) == 0.0;
    assert Dot(weight, x, 0, 1) == Scale(2, Val(x, 0));
    assert Dot(weight, x, 0, 2) == Dot(weight, x, 0, 1) + Scale(-2, Val(x, 1));
    assert Dot(weight, x, 2, 1) == Scale(2, Val(x, 2));
    assert Dot(weight, x, 2, 2) == Dot(weight, x, 2, 1) + Scale(-2, Val(x, 3));
    assert Mass(x, 0, 2, 1) == Val(x, 0);
    assert Mass(x, 0, 2, 2) == Mass(x, 0, 2, 1) + Val(x, 2);
    assert Mass(x, 1, 2, 1) == Val(x, 1);
    assert Mass(x, 1, 2, 2) == Mass(x, 1, 2, 1) + Val(x, 3);
  }

  /** So that answer is feasible for the relaxed program. */
  lemma NegativeWeightFeasible(x: seq<real>)
    requires x == [1.0, 0.5, 0.0, 0.0]
    ensures Feasible(MultiPrimal(2, 2, [1, 0], [2, -2], [0, 0], 1), x)
  {
    NegativeWeightRowsHold(x);
    MultiPrimalFeasible(2, 2, [1, 0], [2, -2], [0, 0], 1, x);
    assert RangeLength(2) == 2;
    assert PrimalBox(x, 1);
  }

  /** A negative weight at a fractional value lowers the coverage sum by less
      than the listed weight drops: knapsack 0 lists weights 2 and -2 against
      a demand of 1 while its row `2*1 - 2*0.5 >= 1` holds. */
  lemma NegativeWeightMayMissDemand()
    ensures Feasible(MultiPrimal(2, 2, [1, 0], [2, -2], [0, 0], 1), [1.0, 0.5, 0.0, 0.0])
    ensures WeightSum(Selections([1.0, 0.5, 0.0, 0.0], 2, [2, -2], [0, 0], 2)[0]) < 1
  {
    var x, weight := [1.0, 0.5, 0.0, 0.0], [2, -2];
    NegativeWeightFeasible(x);
    SelectionsAt(x, 2, weight, [0, 0], 2, 0);
    assert Select(x, 0, weight, [0, 0], MultiThreshold, 2) == [Item(0, 2, 0), Item(1, -2, 0)];
  }

  /** Under relaxed values the `> 0` extraction can list one item under two
      knapsacks while every row holds: `x[0,0] = x[1,0] = 0.5`. */
  lemma RelaxedKnapsacksShareItem()
    ensures Feasible(MultiPrimal(2, 1, [0, 0], [1], [0], 1), [0.5, 0.5])
    ensures 0 in Indices(Selections([0.5, 0.5], 1, [1], [0], 2)[0])
    ensures 0 in Indices(Selections([0.5, 0.5], 1, [1], [0], 2)[1])
  {
    var x := [0.5, 0.5];
    ScaleIsProduct(1, 0.5);
    assert Offset(1, 1) == 1;
    assert KnapsackCovered(x, [0, 0], [1], 1, 0);
    assert KnapsackCovered(x, [0, 0], [1], 1, 1);
    assert ItemExclusive(x, 2, 1, 0);
    MultiPrimalFeasible(2, 1, [0, 0], [1], [0], 1, x);
    SelectionsAt(x, 1, [1], [0], 2, 0);
    SelectionsAt(x, 1, [1], [0], 2, 1);
    assert Select(x, 0, [1], [0], MultiThreshold, 1) == [Item(0, 1, 0)];
    assert Select(x, 1, [1], [0], MultiThreshold, 1) == [Item(0, 1, 0)];
    assert [Item(0, 1, 0)][0].index == 0;
  }

  // ---------------------------------------------------------------------
  // Idempotence of the single extraction

  /** The 0/1 vector over `k` items that is 1 exactly at the listed indices. */
  function Indicator(items: seq<Item>, k: nat): (x: seq<real>)
    ensures |x| == k && ZeroOne(x)
    ensures forall j :: 0 <= j < k ==> (x[j] == 1.0 <==> j in Indices(items))
  {
    seq(k, (j: nat) => if j in Indices(items) then 1.0 else 0.0)
  }

  /** Two value vectors that pick the same items select the same list. */
  lemma {:induction false} SelectCongruent(x: seq<real>, y: seq<real>, base: nat, weight: seq<int>, cost: seq<int>, eps: real, k: nat)
    requires k <= |weight| && k <= |cost|
    requires forall j: nat :: j < k ==> (Picked(x, base, eps, j) <==> Picked(y, base, eps, j))
    ensures Select(x, base, weight, cost, eps, k) == Select(y, base, weight, cost, eps, k)
  {
    if k > 0 {
      SelectCongruent(x, y, base, weight, cost, eps, k - 1);
    }
  }

  /** Extracting again from the 0/1 vector of a single-knapsack selection
      gives back the same selection. */
  lemma SelectSingleIdempotent(nbItems: int, weight: seq<int>, cost: seq<int>, x: seq<real>)
    requires RangeLength(nbItems) <= |weight| && RangeLength(nbItems) <= |cost|
    ensures SelectSingle(nbItems, weight, cost, Indicator(SelectSingle(nbItems, weight, cost, x), RangeLength(nbItems)))
         == SelectSingle(nbItems, weight, cost, x)
  {
    var n := RangeLength(nbItems);
    var items := SelectSingle(nbItems, weight, cost, x);
    var y := Indicator(items, n);
    forall j: nat | j < n
      ensures Picked(y, 0, SingleThreshold, j) <==> Picked(x, 0, SingleThreshold, j)
    {
      assert Val(y, j) == y[j];
    }
    SelectCongruent(y, x, 0, weight, cost, SingleThreshold, n);
  }

  // ---------------------------------------------------------------------
  // Dual vectors against the dual objective

  /** Sums over two vectors that agree entry by entry coincide. */
  lemma {:induction false} DotAgree(c: seq<int>, x: seq<real>, z: seq<real>, n: nat)
    requires n <= |c|
    requires forall k: nat :: k < n ==> Val(x, k) == Val(z, k)
    ensures Dot(c, x, 0, n) == Dot(c, z, 0, n)
  {
    if n > 0 {
      DotAgree(c, x, z, n - 1);
    }
  }

  /** `z` holds the entries of `y` from `first` on: their unit-stride sums agree. */
  lemma {:induction false} MassShift(y: seq<real>, z: seq<real>, first: nat, n: nat)
    requires forall k: nat :: k < n ==> Val(z, k) == Val(y, first + k)
    ensures Mass(z, 0, 1, n) == Mass(y, first, 1, n)
  {
    if n > 0 {
      MassShift(y, z, first, n - 1);
      OffsetUnit(n - 1);
    }
  }

  /** The reported `v1` and `uj` give back the single dual's objective
      `demand[0]*v1 - sum_j uj[j]`. */
  lemma SingleDualReportObjective(nbItems: int, demand: seq<int>, weight: seq<int>, cost: seq<int>, y: seq<real>)
    requires SingleIndexable(nbItems, demand, weight, cost)
    ensures ObjectiveValue(SingleDual(nbItems, demand, weight, cost), y)
         == Dot(demand, SingleDualVectors(nbItems, y).v1, 0, 1) - Mass(SingleDualVectors(nbItems, y).uj, 0, 1, RangeLength(nbItems))
  {
    var d := SingleDualVectors(nbItems, y);
    SingleDualObjective(nbItems, demand, weight, cost, y);
    DotAgree(demand, y, d.v1, 1);
    MassShift(y, d.uj, 1, RangeLength(nbItems));
  }

  /** The reported `vi` and `vj` give back the multiple dual's objective
      `sum_i demand[i]*vi[i] - sum_j vj[j]`. */
  lemma MultiDualReportObjective(nbKnapsacks: int, nbItems: int, demand: seq<int>, weight: seq<int>, cost: seq<int>, y: seq<real>)
    requires MultiIndexable(nbKnapsacks, nbItems, demand, weight, cost)
    ensures ObjectiveValue(MultiDual(nbKnapsacks, nbItems, demand, weight, cost), y)
         == Dot(demand, MultiDualVectors(nbKnapsacks, nbItems, y).vi, 0, RangeLength(nbKnapsacks))
            - Mass(MultiDualVectors(nbKnapsacks, nbItems, y).vj, 0, 1, RangeLength(nbItems))
  {
    var m, n := RangeLength(nbKnapsacks), RangeLength(nbItems);
    var d := MultiDualVectors(nbKnapsacks, nbItems, y);
    MultiDualObjective(nbKnapsacks, nbItems, demand, weight, cost, y);
    DotAgree(demand, y, d.vi, m);
    MassShift(y, d.vj, m, n);
  }

  // ---------------------------------------------------------------------
  // The reported objective of a 0/1 answer is the cost of what is listed

  /** The summed cost of a selection. */
  function CostSum(items: seq<Item>): int
  {
    if |items| == 0 then 0 else CostSum(items[..|items| - 1]) + items[|items| - 1].cost
  }

  lemma CostSumSnoc(items: seq<Item>, it: Item)
    ensures CostSum(items + [it]) == CostSum(items) + it.cost
  {
    assert (items + [it])[..|items|] == items;
  }

  /** The extracted list costs what its picked items cost. */
  lemma {:induction false} SelectCost(x: seq<real>, base: nat, weight: seq<int>, cost: seq<int>, eps: real, k: nat)
    requires k <= |weight| && k <= |cost|
    ensures CostSum(Select(x, base, weight, cost, eps, k)) == PickedSum(x, base, cost, eps, k)
  {
    if k > 0 {
      SelectCost(x, base, weight, cost, eps, k - 1);
      if Picked(x, base, eps, k - 1) {
        CostSumSnoc(Select(x, base, weight, cost, eps, k - 1), Item(k - 1, weight[k - 1], cost[k - 1]));
      }
    }
  }

  /** For a 0/1 answer the single primal's objective is the summed cost of the listed items. */
  lemma SingleObjectiveIsSelectionCost(nbItems: int, demand: seq<int>, weight: seq<int>, cost: seq<int>,
                                       mode: int, x: seq<real>)
    requires SingleIndexable(nbItems, demand, weight, cost) && ZeroOne(x)
    ensures ObjectiveValue(SinglePrimal(nbItems, demand, weight, cost, mode), x)
         == CostSum(SelectSingle(nbItems, weight, cost, x)) as real
  {
    var n := RangeLength(nbItems);
    SinglePrimalObjective(nbItems, demand, weight, cost, mode, x);
    SelectCost(x, 0, weight, cost, SingleThreshold, n);
    PickedSumExact(x, 0, cost, SingleThreshold, n);
  }

  /** The summed cost of the selections of knapsacks `0..k-1`. */
  function SelectionsCost(byKnapsack: map<nat, seq<Item>>, k: nat): int
    requires forall i: nat :: i < k ==> i in byKnapsack
  {
    if k == 0 then 0 else SelectionsCost(byKnapsack, k - 1) + CostSum(byKnapsack[k - 1])
  }

  /** One knapsack's block of the objective is the cost of that knapsack's selection. */
  lemma KnapsackCost(x: seq<real>, n: nat, weight: seq<int>, cost: seq<int>, m: nat, i: nat)
    requires n <= |weight| && n <= |cost| && ZeroOne(x) && i < m
    ensures Dot(cost, x, Offset(i, n), n) == CostSum(Selections(x, n, weight, cost, m)[i]) as real
  {
    SelectionsAt(x, n, weight, cost, m, i);
    SelectCost(x, Offset(i, n), weight, cost, MultiThreshold, n);
    PickedSumExact(x, Offset(i, n), cost, MultiThreshold, n);
  }

  lemma {:induction false} BlockCost(x: seq<real>, n: nat, weight: seq<int>, cost: seq<int>, m: nat, k: nat)
    requires n <= |weight| && n <= |cost| && ZeroOne(x) && k <= m
    ensures BlockDot(cost, x, n, k) == SelectionsCost(Selections(x, n, weight, cost, m), k) as real
  {
    if k > 0 {
      BlockCost(x, n, weight, cost, m, k - 1);
      KnapsackCost(x, n, weight, cost, m, k - 1);
    }
  }

  /** For a 0/1 answer the multiple primal's objective is the summed cost of
      the items listed under every knapsack. */
  lemma MultiObjectiveIsSelectionCost(nbKnapsacks: int, nbItems: int, demand: seq<int>, weight: seq<int>,
                                      cost: seq<int>, mode: int, x: seq<real>)
    requires MultiIndexable(nbKnapsacks, nbItems, demand, weight, cost) && ZeroOne(x)
    ensures ObjectiveValue(MultiPrimal(nbKnapsacks, nbItems, demand, weight, cost, mode), x)
         == SelectionsCost(Selections(x, RangeLength(nbItems), weight, cost, RangeLength(nbKnapsacks)),
                           RangeLength(nbKnapsacks)) as real
  {
    var m, n := RangeLength(nbKnapsacks), RangeLength(nbItems);
    MultiPrimalObjective(nbKnapsacks, nbItems, demand, weight, cost, mode, x);
    if m > 0 {
      BlockCost(x, n, weight, cost, m, m);
    }
  }
}
