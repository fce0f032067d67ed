/** Reading a solver's answer back: the selected items of a primal solution,
    the dual vectors of a dual one, and the weight totals the reports print.
    The solver's answer is a value per variable, `x` or `y`, in the numbering
    of `Formulation`; whatever the solver status, extraction reads the values. */
module Extraction {
  import opened LinearProgram
  import opened Formulation

  /** A selected item `(j, weight_item[j], cost_item[j])`. */
  datatype Item = Item(index: nat, weight: int, cost: int)

  /** The single-knapsack selection threshold `1e-5`, compared exactly. */
  const SingleThreshold: real := 0.00001

  /** The multiple-knapsack selection threshold: any positive value selects. */
  const MultiThreshold: real := 0.0

  /** The item indices a selection lists. */
  function Indices(items: seq<Item>): set<nat>
  {
    set t | 0 <= t < |items| :: items[t].index
  }

  /** Item indices strictly increase along the list. */
  predicate Ascending(items: seq<Item>)
  {
    forall s, t :: 0 <= s < t < |items| ==> items[s].index < items[t].index
  }

  /** Each listed item carries the weight and cost of its index. */
  predicate Described(items: seq<Item>, weight: seq<int>, cost: seq<int>)
  {
    forall t :: 0 <= t < |items| ==>
      items[t].index < |weight| && items[t].index < |cost|
      && items[t].weight == weight[items[t].index] && items[t].cost == cost[items[t].index]
  }

  /** The value of item `j` at `x[base + j]` exceeds `eps`. */
  predicate Picked(x: seq<real>, base: nat, eps: real, j: nat)
  {
    Val(x, base + j) > eps
  }

  /** The items `j` in `0..k-1` whose value `x[base + j]` exceeds `eps`, in
      ascending `j`: the comprehension of both primal extractions. */
  function Select(x: seq<real>, base: nat, weight: seq<int>, cost: seq<int>, eps: real, k: nat): (items: seq<Item>)
    requires k <= |weight| && k <= |cost|
    ensures |items| <= k
  {
    if k == 0 then []
    else
      var init := Select(x, base, weight, cost, eps, k - 1);
      if Picked(x, base, eps, k - 1) then init + [Item(k - 1, weight[k - 1], cost[k - 1])] else init
  }

  /** The extraction lists exactly the picked items below `k`, each once, in
      ascending order, each with its own weight and cost. */
  lemma {:induction false} SelectSpec(x: seq<real>, base: nat, weight: seq<int>, cost: seq<int>, eps: real, k: nat)
    requires k <= |weight| && k <= |cost|
    ensures forall j: nat :: j in Indices(Select(x, base, weight, cost, eps, k)) <==> j < k && Picked(x, base, eps, j)
    ensures Ascending(Select(x, base, weight, cost, eps, k))
    ensures Described(Select(x, base, weight, cost, eps, k), weight, cost)
  {
    if k > 0 {
      var init := Select(x, base, weight, cost, eps, k - 1);
      SelectSpec(x, base, weight, cost, eps, k - 1);
      if Picked(x, base, eps, k - 1) {
        SelectStep(init, k - 1, weight, cost);
      }
    }
  }

  /** Appending item `j`, above every listed index, keeps a selection ascending and described. */
  lemma SelectStep(items: seq<Item>, j: nat, weight: seq<int>, cost: seq<int>)
    requires j < |weight| && j < |cost|
    requires Ascending(items) && Described(items, weight, cost)
    requires forall i :: i in Indices(items) ==> i < j
    ensures Indices(items + [Item(j, weight[j], cost[j])]) == Indices(items) + {j}
    ensures Ascending(items + [Item(j, weight[j], cost[j])])
    ensures Described(items + [Item(j, weight[j], cost[j])], weight, cost)
  {
    var all := items + [Item(j, weight[j], cost[j])];
    assert forall t :: 0 <= t < |items| ==> all[t] == items[t] && items[t].index in Indices(items);
    assert all[|items|].index == j;
  }

  /** Single knapsack: the items with `x[j] > 1e-5`. */
  function SelectSingle(nbItems: int, weight: seq<int>, cost: seq<int>, x: seq<real>): (items: seq<Item>)
    requires RangeLength(nbItems) <= |weight| && RangeLength(nbItems) <= |cost|
    ensures forall j: nat :: j in Indices(items) <==> j < RangeLength(nbItems) && Picked(x, 0, SingleThreshold, j)
    ensures Ascending(items) && Described(items, weight, cost)
  {
    SelectSpec(x, 0, weight, cost, SingleThreshold, RangeLength(nbItems));
    Select(x, 0, weight, cost, SingleThreshold, RangeLength(nbItems))
  }

  /** Multiple knapsacks: knapsacks `0..k-1` each mapped to its items `j`
      with `x[i,j] > 0`. */
  function Selections(x: seq<real>, n: nat, weight: seq<int>, cost: seq<int>, k: nat): (byKnapsack: map<nat, seq<Item>>)
    requires k > 0 ==> n <= |weight| && n <= |cost|
    ensures forall i: nat :: i in byKnapsack <==> i < k
  {
    if k == 0 then map[]
    else Selections(x, n, weight, cost, k - 1)[k - 1 := Select(x, Offset(k - 1, n), weight, cost, MultiThreshold, n)]
  }

  /** Entry `i` of the map is the selection of knapsack `i`, read from `x[i,j]` at `Offset(i, n) + j`. */
  lemma {:induction false} SelectionsAt(x: seq<real>, n: nat, weight: seq<int>, cost: seq<int>, k: nat, i: nat)
    requires n <= |weight| && n <= |cost|
    requires i < k
    ensures Selections(x, n, weight, cost, k)[i] == Select(x, Offset(i, n), weight, cost, MultiThreshold, n)
  {
    if i < k - 1 {
      SelectionsAt(x, n, weight, cost, k - 1, i);
    }
  }

  /** The loop that fills the per-knapsack map, one key per knapsack. */
  method SelectByKnapsack(nbKnapsacks: int, nbItems: int, weight: seq<int>, cost: seq<int>, x: seq<real>)
    returns (byKnapsack: map<nat, seq<Item>>)
    requires nbKnapsacks > 0 ==> RangeLength(nbItems) <= |weight| && RangeLength(nbItems) <= |cost|
    ensures byKnapsack == Selections(x, RangeLength(nbItems), weight, cost, RangeLength(nbKnapsacks))
  {
    var m, n := RangeLength(nbKnapsacks), RangeLength(nbItems);
    byKnapsack := map[];
    for i := 0 to m
      invariant byKnapsack == Selections(x, n, weight, cost, i)
    {
      byKnapsack := byKnapsack[i := Select(x, Offset(i, n), weight, cost, MultiThreshold, n)];
    }
  }

  // ---------------------------------------------------------------------
  // Dual vectors

  /** The single dual's report: `"v1"` and `"uj"`. */
  datatype SingleDualValues = SingleDualValues(v1: seq<real>, uj: seq<real>)

  /** The multiple dual's report: `"vi"` and `"vj"`. */
  datatype MultiDualValues = MultiDualValues(vi: seq<real>, vj: seq<real>)

  /** `v_1` alone, then every `u[j]`, unfiltered. */
  function SingleDualVectors(nbItems: int, y: seq<real>): (d: SingleDualValues)
    ensures |d.v1| == 1 && |d.uj| == RangeLength(nbItems)
    ensures |y| == 1 + RangeLength(nbItems) ==> d.v1 + d.uj == y
  {
    var n := RangeLength(nbItems);
    var d := SingleDualValues([Val(y, 0)], seq(n, (j: nat) => Val(y, 1 + j)));
    assert |y| == 1 + n ==> d.v1 + d.uj == y by {
      if |y| == 1 + n {
        assert forall k :: 0 <= k < |y| ==> (d.v1 + d.uj)[k] == y[k] by {
          forall k | 0 <= k < |y| ensures (d.v1 + d.uj)[k] == y[k] {
            if k > 0 {
              assert (d.v1 + d.uj)[k] == d.uj[k - 1];
            }
          }
        }
      }
    }
    d
  }

  /** Every `vi[i]`, then every `vj[j]`, unfiltered. */
  function MultiDualVectors(nbKnapsacks: int, nbItems: int, y: seq<real>): (d: MultiDualValues)
    ensures |d.vi| == RangeLength(nbKnapsacks) && |d.vj| == RangeLength(nbItems)
    ensures |y| == RangeLength(nbKnapsacks) + RangeLength(nbItems) ==> d.vi + d.vj == y
  {
    var m, n := RangeLength(nbKnapsacks), RangeLength(nbItems);
    var d := MultiDualValues(seq(m, (i: nat) => Val(y, i)), seq(n, (j: nat) => Val(y, m + j)));
    assert |y| == m + n ==> d.vi + d.vj == y by {
      if |y| == m + n {
        forall k | 0 <= k < |y| ensures (d.vi + d.vj)[k] == y[k] {
          if k >= m {
            assert (d.vi + d.vj)[k] == d.vj[k - m];
          }
        }
      }
    }
    d
  }

  // ---------------------------------------------------------------------
  // Weight totals

  /** The summed weight of a selection. */
  function WeightSum(items: seq<Item>): (w: int)
    ensures (forall t :: 0 <= t < |items| ==> items[t].weight >= 0) ==> w >= 0
  {
    if |items| == 0 then 0 else WeightSum(items[..|items| - 1]) + items[|items| - 1].weight
  }

  /** The running total the reports print under a selection. */
  method TotalWeight(items: seq<Item>) returns (total: int)
    ensures total == WeightSum(items)
  {
    total := 0;
    for t := 0 to |items|
      invariant total == WeightSum(items[..t])
    {
      assert items[..t + 1][..t] == items[..t];
      total := total + items[t].weight;
    }
    assert items[..|items|] == items;
  }

  /** The totals of knapsacks `0..m-1`, in key order, as the multiple report prints them. */
  method KnapsackTotals(byKnapsack: map<nat, seq<Item>>, m: nat) returns (totals: seq<int>)
    requires forall i: nat :: i < m ==> i in byKnapsack
    ensures |totals| == m
    ensures forall i :: 0 <= i < m ==> totals[i] == WeightSum(byKnapsack[i])
  {
    totals := [];
    for i := 0 to m
      invariant |totals| == i
      invariant forall s :: 0 <= s < i ==> totals[s] == WeightSum(byKnapsack[s])
    {
      var total := TotalWeight(byKnapsack[i]);
      totals := totals + [total];
    }
  }
}
