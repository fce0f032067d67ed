# minKP: a verified model of the covering knapsack tool

`minKP.py` solves a minimum-cost covering knapsack problem. Each knapsack `i`
has a demand. Each item `j` has a weight and a cost. The tool chooses items so
that every knapsack's chosen weight reaches its demand, at least total cost.
There is one formulation for a single knapsack and one for several. Each comes
as an integer primal (mode 0), a relaxed primal (mode 1) or a linear-programming
dual (mode 2). The tool:

- reads an instance file of whitespace-separated integers, one list per line;
- checks the mode;
- builds the chosen linear program;
- hands it to PuLP's solver;
- reads the solver's values back as selected items `(j, weight[j], cost[j])`
  or as dual vectors.

This project models that core in Dafny:

| file | module | what it holds |
|---|---|---|
| `wrappers.dfy` | `Wrappers` | `Option` and `Result` |
| `linear_program.dfy` | `LinearProgram` | a linear program as a value, how a vector satisfies it, reference sums |
| `formulation.dfy` | `Formulation` | the four programs; the builders that add rows in loops are methods proved equal to them |
| `formulation_properties.dfy` | `FormulationProperties` | the shape of each program, what feasibility means, what its objective sums, single vs multi with one knapsack |
| `extraction.dfy` | `Extraction` | selected items, the per-knapsack map and its loop, dual vectors, weight totals |
| `extraction_properties.dfy` | `ExtractionProperties` | coverage and disjointness of selections, idempotence, objective vs reported values |
| `read_data.dfy` | `ReadData` | `strip`, `split`, `int` and the read loop |
| `read_data_properties.dfy` | `ReadDataProperties` | `int(str(n)) == n`, `split` undoes joining by spaces, line endings ignored, rendered files read back exactly |
| `dispatch.dfy` | `Dispatch` | `main`: mode check, loading, the choice of formulation, the solver call, the report |
| `duality.dfy` | `Duality` | weak duality between each primal and its dual; raising demands only removes feasible vectors; with every demand 0 the optimum is 0 |
| `scenarios.dfy` | `Scenarios` | three small instances worked out on the programs: feasibility, optimum, what is listed at an optimum |

The solver is a parameter `solve: Program -> Answer`. It returns a status name
and one value per variable. Variables are numbered as follows:

- single primal `x[j]` at `j`;
- single dual `v_1` at 0 and `u[j]` at `1 + j`;
- multi primal `x[i,j]` at `i*n + j`;
- multi dual `vi[i]` at `i` and `vj[j]` at `m + j`.

Here `m` and `n` are the numbers of knapsacks and items.

In these details the model follows what the code does:

- The multiple-knapsack extraction keeps `x[i,j] > 0`. It does not use the
  `1e-5` threshold of the single case.
- Extraction runs whatever status the solver reports.
- `nb_knapsacks <= 0` is not rejected. It takes the multiple-knapsack branch
  with no knapsacks.
- List lengths are not checked against the counts. Extra entries are ignored.
  A list too short for what a builder indexes raises an index error, modelled
  as `IndexOutOfRange`.
- The report does not check that the selected weight reaches the demand. The
  model proves it for answers that satisfy the program: in the single case for
  a 0/1 answer (mode 0); in the multiple case in mode 0, or in mode 1 when no
  weight is negative. `RelaxedSingleMayMissDemand` and
  `NegativeWeightMayMissDemand` give answers that satisfy the program and
  still list too little weight, so neither condition can be dropped.
- In mode 1 the multiple extraction keeps every `x[i,j] > 0`, so one item can
  be listed under two knapsacks. With `m = 2`, `n = 1`, demands `[0, 0]`,
  weight `[1]` and `x = [0.5, 0.5]`, item 0 is listed under both
  (`RelaxedKnapsacksShareItem`). Disjoint lists are proved for mode 0 only.

## Model

| member | source | states |
|---|---|---|
| ReadData.DropSpace | minKP.py:18 | `lstrip()`: the result is no longer than the input and does not start with whitespace |
| ReadData.DropTrailingSpace | minKP.py:18 | `rstrip()`: the result is no longer than the input and does not end with whitespace |
| ReadData.Strip | minKP.py:18 | `strip()`: the result is no longer than the line and neither starts nor ends with whitespace |
| ReadData.ParseLine | minKP.py:18 | `[int(x) for x in line.strip().split()]` succeeds iff every word of the line converts, and then holds each word's value in order |
| ReadData.TakeWord | minKP.py:18 | the first word holds no whitespace, and is non-empty when the text starts with a non-space |
| ReadData.Words | minKP.py:18 | `split()` yields only non-empty words free of Python whitespace |
| ReadData.ParseInt | minKP.py:18 | `int(token)` succeeds exactly when the token is an optional sign and a decimal numeral, single underscores allowed between digits |
| ReadData.ParseAll | minKP.py:18 | the list comprehension succeeds iff every token converts, and then holds each token's value in order |
| ReadData.Collect | minKP.py:14-18 | the file converts iff every line does, giving one list per line in order; otherwise the error names the first refused line |
| ReadData.CollectStops | minKP.py:14-18 | a refused line ends the read with its index, whatever follows |
| ReadData.ReadLines | minKP.py:14-19 | the `for line in lines` loop computes `Collect` of the lines |
| ReadDataProperties.NumeralShowNat | minKP.py:18 | the decimal digits of `n` are a numeral whose value is `n` |
| ReadDataProperties.ParseShowInt | minKP.py:18 | `int(str(n)) == n` for every integer |
| ReadDataProperties.WordsTrailing | minKP.py:18 | trailing whitespace does not change `split()` |
| ReadDataProperties.StripThenSplit | minKP.py:18 | `line.strip().split() == line.split()` |
| ReadDataProperties.LineEndIgnored | minKP.py:16-18 | the `\n` kept by `readlines` does not change a line's list |
| ReadDataProperties.WordsUnwords | minKP.py:18 | `split()` of words joined by single spaces gives back those words |
| ReadDataProperties.ParseShowRow | minKP.py:18 | a list written on one line, space-separated, reads back as the same list |
| ReadDataProperties.ReadRendered | minKP.py:14-19 | an instance written one list per line reads back exactly |
| ReadDataProperties.CollectAppend | minKP.py:14-18 | reading two blocks of lines that both convert gives the first block's lists followed by the second's |
| ReadDataProperties.BlankLineReadsEmpty | minKP.py:18 | a line of whitespace only reads as the empty list |
| ReadDataProperties.CollectCongruent | minKP.py:17-18 | lines that convert alike give the same read result |
| ReadDataProperties.ReadIgnoresLineEnds | minKP.py:16-18 | reading lines with their `\n` kept gives the same lists and the same first bad line |
| Formulation.SinglePrimal | minKP.py:22-28 | the single primal has one variable per item and one row; what they mean is stated by `SinglePrimalShape`, `SinglePrimalFeasible` and `SinglePrimalObjective` |
| Formulation.SingleDual | minKP.py:37-46 | the single dual has `1 + n` variables and one row per item; see `SingleDualShape`, `SingleDualFeasible`, `SingleDualObjective` |
| Formulation.MultiPrimal | minKP.py:78-94 | the multiple primal has `m*n` variables and `m + n` rows; see `MultiPrimalShape`, `MultiPrimalRows`, `MultiPrimalFeasible`, `MultiPrimalObjective` |
| Formulation.MultiDual | minKP.py:107-117 | the multiple dual has `m + n` variables and `m*n` rows; see `MultiDualShape`, `MultiDualFeasible`, `MultiDualObjective` |
| Formulation.BuildSingleDual | minKP.py:37-46 | the loop adding one row per item builds exactly the single dual |
| Formulation.BuildMultiPrimal | minKP.py:83-94 | the coverage loop and the exclusivity loop build exactly the multiple primal |
| Formulation.BuildMultiDual | minKP.py:107-117 | the nested loops over knapsacks and items build exactly the multiple dual |
| FormulationProperties.SinglePrimalShape | minKP.py:23-28 | minimised; `n` variables in [0, 1], binary iff mode 0; one covering row on `demand[0]`; every term refers to a variable |
| FormulationProperties.SinglePrimalFeasible | minKP.py:25-28 | `x` is feasible iff it has `n` values in [0, 1] (0 or 1 in mode 0) and `sum weight[j]*x[j] >= demand[0]` |
| FormulationProperties.SinglePrimalObjective | minKP.py:27 | the objective at `x` is `sum cost[j]*x[j]` |
| FormulationProperties.SingleDualShape | minKP.py:37-46 | maximised; `1 + n` continuous variables at least 0; row `j` is `weight[j]*v_1 - u[j] <= cost[j]`; every term refers to a variable |
| FormulationProperties.SingleDualFeasible | minKP.py:39-46 | `y` is feasible iff it has `1 + n` non-negative values and every item's row holds |
| FormulationProperties.SingleDualObjective | minKP.py:43 | the objective at `y` is `demand[0]*v_1 - sum u[j]` |
| FormulationProperties.MultiPrimalShape | minKP.py:78-94 | minimised; `m*n` variables in [0, 1], binary iff mode 0; `m + n` rows; every term refers to a variable |
| FormulationProperties.MultiPrimalRows | minKP.py:89-94 | row `i` is `sum_j weight[j]*x[i,j] >= demand[i]`; row `m + j` is `sum_i x[i,j] <= 1` |
| FormulationProperties.MultiPrimalWellFormed | minKP.py:83-94 | every term of the objective and of every row refers to one of the `m*n` variables |
| FormulationProperties.MultiPrimalFeasible | minKP.py:83-94 | `x` is feasible iff it has `m*n` values in [0, 1] (0 or 1 in mode 0), every knapsack is covered and every item is used at most once |
| FormulationProperties.MultiPrimalObjective | minKP.py:86 | the objective at `x` is `sum cost[j]*x[i,j]` over all pairs |
| FormulationProperties.MultiDualRowsLayout | minKP.py:115-117 | the rows of knapsack `i` are the `i`-th block of `n` rows, in item order |
| FormulationProperties.MultiDualRowsHold | minKP.py:115-117 | all dual rows hold iff every pair `(i, j)` satisfies `weight[j]*vi[i] - vj[j] <= cost[j]` |
| FormulationProperties.MultiDualShape | minKP.py:107-117 | maximised; `m + n` continuous variables at least 0; `m*n` rows laid out knapsack by knapsack; every term refers to a variable |
| FormulationProperties.MultiDualFeasible | minKP.py:109-117 | `y` is feasible iff it has `m + n` non-negative values and every pair's row holds |
| FormulationProperties.MultiDualObjective | minKP.py:113 | the objective at `y` is `sum demand[i]*vi[i] - sum vj[j]` |
| FormulationProperties.SingleDualIsMultiDualOfOne | minKP.py:37-46 | the single dual is the multiple dual with one knapsack |
| FormulationProperties.SinglePrimalAgreesWithMultiPrimalOfOne | minKP.py:22-28 | the single primal and the multiple primal with one knapsack have the same feasible vectors and the same objective |
| Extraction.Select | minKP.py:32-33 | the comprehension (also the one at minKP.py:102-103) gives a listing of length at most `k`; `SelectSpec` states which items it lists, each once, in ascending order |
| Extraction.SelectSpec | minKP.py:32-33 | the extraction lists item `j` iff `j < n` and its value exceeds the threshold, in ascending index order, each with its own weight and cost |
| Extraction.SelectStep | minKP.py:32-33 | appending an index above all listed ones keeps the list ascending and described |
| Extraction.SelectSingle | minKP.py:32-33 | the single extraction lists exactly the items with `x[j] > 1e-5`, ascending, with their weights and costs |
| Extraction.Selections | minKP.py:100-103 | the map has exactly the keys `0..m-1` |
| Extraction.SelectionsAt | minKP.py:102-103 | entry `i` lists the items with `x[i,j] > 0` |
| Extraction.SelectByKnapsack | minKP.py:100-103 | the loop over knapsacks builds exactly `Selections` |
| Extraction.SingleDualVectors | minKP.py:53-56 | `v1` has one value and `uj` has `n`; together they are the solver's vector, unfiltered |
| Extraction.MultiDualVectors | minKP.py:126-129 | `vi` has `m` values and `vj` has `n`; together they are the solver's vector, unfiltered |
| Extraction.WeightSum | minKP.py:149-153 | the summed weight of a list is not negative when no listed weight is |
| Extraction.TotalWeight | minKP.py:149-153 | the printed running total is the summed weight of the list |
| Extraction.KnapsackTotals | minKP.py:171-177 | the total printed under knapsack `i` is the summed weight of its list |
| ExtractionProperties.SelectWeight | minKP.py:32-33 | the listed items weigh what the picked items weigh |
| ExtractionProperties.PickedSumBound | minKP.py:102-103 | for values in [0, 1] and weights not negative, `sum weight[j]*x[j]` is at most the weight of the items with a positive value |
| ExtractionProperties.PickedSumExact | minKP.py:32-33 | for 0/1 values, `sum weight[j]*x[j]` is exactly the weight of the picked items |
| ExtractionProperties.SingleSelectionCovers | minKP.py:22-33 | a feasible 0/1 single answer lists items weighing at least `demand[0]` |
| ExtractionProperties.KnapsackSelectionCovers | minKP.py:89-103 | when knapsack `i`'s coverage row holds, its listed items weigh at least `demand[i]` |
| ExtractionProperties.PickedTwiceBreaksExclusivity | minKP.py:93-94 | an item picked by two knapsacks under 0/1 values breaks its exclusivity row |
| ExtractionProperties.KnapsacksShareNothing | minKP.py:93-103 | two knapsacks list no common item under a 0/1 answer that keeps every exclusivity row |
| ExtractionProperties.SelectionsDisjoint | minKP.py:93-103 | under such an answer the lists of different knapsacks are disjoint |
| ExtractionProperties.MultiSelectionsCover | minKP.py:83-103 | a feasible multiple answer lists at least `demand[i]` of weight for every knapsack, in mode 0 for any weights and in mode 1 when no weight is negative; in mode 0 no item is listed twice |
| ExtractionProperties.RelaxedSingleMayMissDemand | minKP.py:22-33 | a relaxed single answer can satisfy the program and still list nothing: one item of weight `w >= 200000`, demand 1, `x = [0.000005]` |
| ExtractionProperties.NegativeWeightMayMissDemand | minKP.py:83-103 | with a negative weight, a relaxed multiple answer can satisfy the program while knapsack 0's list weighs less than its demand |
| ExtractionProperties.RelaxedKnapsacksShareItem | minKP.py:93-103 | a relaxed multiple answer can satisfy the program and list item 0 under both knapsacks |
| ExtractionProperties.SelectCongruent | minKP.py:32-33 | values that pick the same items give the same list |
| ExtractionProperties.SelectSingleIdempotent | minKP.py:32-33 | extracting from the 0/1 vector of a selection gives back the same selection |
| ExtractionProperties.SingleDualReportObjective | minKP.py:43-56 | the single dual's objective is `demand[0]*v1 - sum uj` of the reported vectors |
| ExtractionProperties.MultiDualReportObjective | minKP.py:113-129 | the multiple dual's objective is `sum demand[i]*vi[i] - sum vj` of the reported vectors |
| ExtractionProperties.SelectCost | minKP.py:32-33 | the listed items cost what the picked items cost |
| ExtractionProperties.SingleObjectiveIsSelectionCost | minKP.py:27-34 | for a 0/1 answer, the reported objective is the summed cost of the listed items |
| ExtractionProperties.KnapsackCost | minKP.py:100-103 | knapsack `i`'s part of the objective is the cost of its list, for a 0/1 answer |
| ExtractionProperties.BlockCost | minKP.py:86-103 | the objective over knapsacks `0..k-1` is the cost of their lists, for a 0/1 answer |
| ExtractionProperties.MultiObjectiveIsSelectionCost | minKP.py:86-104 | for a 0/1 answer, the reported objective is the summed cost of the lists of all knapsacks |
| Dispatch.Encode | minKP.py:191-195 | an instance written as five lists decodes back to itself |
| Dispatch.Decode | minKP.py:191-195 | decoding succeeds iff there are at least five lists and the first two are not empty, and then gives `data_list[0][0]`, `data_list[1][0]` and lists 2 to 4; otherwise it is an index error |
| Dispatch.DecodeLooksAtFiveRows | minKP.py:191-195 | only `data_list[0][0]`, `data_list[1][0]` and lists 2 to 4 matter |
| Dispatch.Load | minKP.py:190-195 | a bad integer is reported with its line exactly when the read fails; loading succeeds iff every line converts, there are at least five lines and the first two lists are not empty, and then the instance is the first entries of lines 0 and 1 and the lists of lines 2 to 4; every other failure is an index error |
| Dispatch.Formulate | minKP.py:201-207 | the chosen program is minimised iff the mode is a primal one, with `m*n` variables for a primal and `m + n` for a dual |
| Dispatch.ReadBack | minKP.py:201-207 | the read-back is a single-knapsack shape iff `nb_knapsacks == 1` and an item listing iff the mode is 0 or 1 |
| Dispatch.Solve | minKP.py:201-208 | it fails iff the chosen formulation indexes past a list; otherwise the report carries the solver's status on the formulated program, the objective at the solver's values and what `ReadBack` extracts from those values; single-knapsack data iff `nb_knapsacks == 1`; item lists iff mode 0 or 1 |
| Dispatch.Run | minKP.py:184-208 | an invalid mode fails first, before reading; a failed load is reported as is; with a valid mode and a loaded instance the run is `Solve` of that instance; a report implies both |
| Dispatch.RunAfterRead | minKP.py:190-208 | once the file reads as the five lists of an instance, the run is `Solve` of that instance |
| Dispatch.RunRendered | minKP.py:189-208 | a file written from an instance runs as that instance |
| Dispatch.RunIgnoresLineEnds | minKP.py:14-18 | the line endings `readlines` keeps do not change a run |
| Dispatch.LoadIgnoresTrailingLines | minKP.py:190-195 | lines after the fifth that convert do not change the loaded instance |
| Dispatch.RunIgnoresTrailingLines | minKP.py:190-208 | such lines do not change a run |
| Dispatch.SolveCovers | minKP.py:201-208 | for an answer that satisfies the program, every listed selection reaches its demand, in the single case for a 0/1 answer (mode 0) and in the multiple case in mode 0 or, with no negative weight, in mode 1; in mode 0 knapsacks share no item |
| Dispatch.SolvePrimalObjective | minKP.py:201-208 | for a 0/1 primal answer, the reported objective is the summed cost of what is listed |
| Dispatch.SolveDualObjective | minKP.py:201-208 | for a dual, the reported objective is the demand-weighted knapsack prices minus the item prices, as reported |
| Dispatch.Build | minKP.py:201-207 | the builder `main` reaches constructs exactly the chosen program |
| Dispatch.Extract | minKP.py:201-207 | the extraction `main` reaches computes exactly the chosen read-back |
| Dispatch.LoadLines | minKP.py:190-195 | reading and the look-ups compute exactly `Load` |
| Dispatch.SolveWith | minKP.py:201-207 | building, one solver call and extraction compute exactly `Solve` |
| Dispatch.Execute | minKP.py:179-208 | `main` step by step computes exactly `Run` |
| Duality.MultiWeakDuality | minKP.py:78-117 | for any vector feasible for the multiple primal (integer or relaxed) and any vector feasible for the multiple dual, the primal cost is at least the dual objective |
| Duality.SingleWeakDuality | minKP.py:22-46 | the same for the single-knapsack primal and dual |
| Duality.MultiPrimalDemandMonotone | minKP.py:83-94 | a vector feasible for the multiple primal with larger demands is feasible with the smaller ones, at the same cost |
| Duality.SinglePrimalDemandMonotone | minKP.py:22-28 | the same for the single-knapsack primal |
| Duality.MultiZerosFeasible | minKP.py:78-94 | with every demand 0, buying nothing is feasible for the multiple primal in either mode, at cost 0 |
| Duality.MultiZeroPricesFeasible | minKP.py:107-117 | with every demand 0 and no negative cost, all-zero prices are feasible for the multiple dual, with objective 0 |
| Duality.MultiZeroDemandOptimum | minKP.py:78-94 | with every demand 0 and no negative cost, the optimum of the multiple primal is 0: buying nothing reaches it, and no feasible vector costs less |
| Duality.SingleZerosFeasible | minKP.py:22-28 | with every demand 0, buying nothing is feasible for the single primal in either mode, at cost 0 |
| Duality.SingleZeroPricesFeasible | minKP.py:37-46 | with every demand 0 and no negative cost, all-zero prices are feasible for the single dual, with objective 0 |
| Duality.SingleZeroDemandOptimum | minKP.py:22-28 | with every demand 0 and no negative cost, the optimum of the single primal is 0: buying nothing reaches it, and no feasible vector costs less |
| Duality.MultiZeroCostSelectsNothing | minKP.py:100-103 | with every cost above 0, a feasible vector of cost 0 (an optimum when every demand is 0) lists no item for any knapsack |
| Duality.SingleZeroCostSelectsNothing | minKP.py:32-33 | with every cost above 0, a feasible vector of cost 0 lists no item for the one knapsack |
| Duality.ZeroCostItemMayBeListed | minKP.py:22-33 | with demand 0 and one item of cost 0, taking the item is feasible at cost 0, which is optimal, and the item is listed: empty listings need costs above 0 |
| Scenarios.ScenarioAIntegerWitness | minKP.py:22-33 | one knapsack of demand 10, weights `[5, 6, 7]`, costs `[2, 3, 4]`: items 0 and 1 are a feasible integer answer of cost 5, and the extraction lists exactly `(0, 5, 2)` and `(1, 6, 3)` |
| Scenarios.ScenarioAIntegerOptimum | minKP.py:22-28 | no feasible integer answer of that instance costs less than 5, so 5 is its integer optimum |
| Scenarios.ScenarioAStrongDuality | minKP.py:22-46 | on that instance the relaxed optimum is 4.5 (item 0 and five sixths of item 1), the dual vector `v_1 = 0.5`, `u = [0.5, 0, 0]` is feasible with value 4.5, no relaxed answer costs less and no dual vector is worth more: the two optima coincide |
| Scenarios.ScenarioBInfeasible | minKP.py:22-28 | one knapsack of demand 5 and no items: no vector satisfies the primal, in mode 0 or 1 (the primal modes; with mode 2 `main` builds the dual, which this lemma does not cover) |
| Scenarios.ScenarioCIntegerWitness | minKP.py:78-104 | two knapsacks of demand 4, three items of weight 4 and cost 1: item 0 in knapsack 0 and item 1 in knapsack 1 is a feasible integer answer of cost 2, listed as one distinct item per knapsack |
| Scenarios.ScenarioCDualWitness | minKP.py:105-117 | on that instance `vi = [0.25, 0.25]`, `vj = [0, 0, 0]` is a feasible dual vector of value 2 |
| Scenarios.ScenarioCOptimum | minKP.py:78-94 | no feasible answer of that instance, integer or relaxed, costs less than 2 |
| Scenarios.ScenarioCOptimaPickOneEach | minKP.py:83-94 | every integer answer of cost 2 puts exactly one item in each knapsack and leaves one item in neither |

## Left out

- The solver itself, `prob.solve()`, `LpStatus` and `value()` are not modelled. The solver is a function parameter, and its status is an uninterpreted string.
- A variable the solver gives no value is read as 0. In PuLP, `value()` of such a variable is `None`. This can happen for a variable that occurs in no term with a non-zero factor, such as an item with weight 0 and cost 0 in the single primal. Then `None > 1e-5` at minKP.py:33 (or `None > 0` at minKP.py:103) raises `TypeError`, and a dual vector would hold `None`. The model lists nothing for such an item and reports normally.
- Floating point is not modelled: solver values are exact reals, and `1e-5` is the exact rational `0.00001`.
- The PuLP objects (`LpProblem`, `LpVariable`, `lpSum`) are modelled by the `Program` value, not as objects.
- `open`, `sys.argv`, `int(sys.argv[2])` and `sys.exit` are not modelled. The file arrives as its lines and the mode as an integer.
- Printing is not modelled; only the totals the print functions compute are.
- `ReadData.ParseInt`: digits from other Unicode scripts, which Python's `int` also accepts, are not modelled. Only ASCII digits are. Nor is the limit on digits: CPython 3.11 and later, and the 3.7.14, 3.8.14, 3.9.14 and 3.10.7 security releases, refuse a decimal string of more than 4300 digits (`sys.get_int_max_str_digits()`) with `ValueError`. The model accepts numerals of any length.
- `i*n` and `c*x` are computed as `Offset(i, n)` and `Scale(c, x)` by repeated addition. The lemmas `OffsetIsProduct` and `ScaleIsProduct` show they are the products.
- `ExtractionProperties.SingleSelectionCovers` needs a 0/1 answer (mode 0). With relaxed values, the `1e-5` threshold may drop fractional items, so the single listing is not promised to cover (`RelaxedSingleMayMissDemand`).
- `ExtractionProperties.MultiSelectionsCover` needs mode 0 or, in mode 1, weights that are not negative. The source checks neither, and `NegativeWeightMayMissDemand` shows coverage can fail without them.
- `Dispatch.SolveCovers`: coverage is promised in the single case only for a 0/1 answer (mode 0), and in the multiple case only in mode 0 or with no negative weight in mode 1. `RelaxedSingleMayMissDemand` and `NegativeWeightMayMissDemand` show that each condition is needed. Disjointness of the knapsack lists is promised in mode 0 only (`RelaxedKnapsacksShareItem`).
- Strong duality is proved on scenario A only (`ScenarioAStrongDuality`). For an arbitrary instance the model proves weak duality (`MultiWeakDuality`, `SingleWeakDuality`) but not that the two optima coincide, nor the `1e-4` agreement of the values the solver reports: both depend on the optimum the solver returns, which is not modelled.
- Monotonicity of the optimal value in the demands is not proved. The model proves the step it rests on: raising demands only removes feasible vectors and leaves each vector's cost unchanged (`MultiPrimalDemandMonotone`, `SinglePrimalDemandMonotone`). The optimum itself is the solver's, which is not modelled.
- Scenarios A to C are proved about the programs: feasibility, the optimal value and what the extraction lists at an optimum. The status names (`Optimal`, `Infeasible`) and which of several optima the solver returns depend on the solver, which is not modelled.
- `Duality.MultiZeroCostSelectsNothing` and `Duality.SingleZeroCostSelectsNothing` need every cost above 0. Non-negative costs are not enough for the zero-demand optimum to list nothing: `ZeroCostItemMayBeListed` shows an optimum of cost 0 that lists an item of cost 0. Which of several such optima the solver returns depends on the solver, which is not modelled.
