/** The command-line tool: check the mode, read the instance file, pick the
    single formulation when there is exactly one knapsack and the multiple one
    otherwise, solve, and read the answer back. The solver is a parameter:
    given a program it returns a status name and a value per variable. */
module Dispatch {
  import opened Wrappers
  import opened LinearProgram
  import opened Formulation
  import opened Extraction
  import opened ExtractionProperties
  import opened ReadData
  import opened ReadDataProperties

  /** What the solver returns for a program: `LpStatus[prob.status]` and the
      value of every variable, in the numbering of `Formulation`. */
  datatype Answer = Answer(status: string, values: seq<real>)

  /** The third element of what a solve returns: the selected items, per
      knapsack in the multiple case, or the dual vectors. */
  datatype Outcome =
    | SingleItems(items: seq<Item>)
    | KnapsackItems(byKnapsack: map<nat, seq<Item>>)
    | SingleDuals(single: SingleDualValues)
    | MultiDuals(multi: MultiDualValues)

  /** `(status, objective value, data)`. */
  datatype Report = Report(status: string, objective: real, outcome: Outcome)

  /** Why a run ends without a report. */
  datatype Failure =
    | InvalidMode            // the mode is not 0, 1 or 2: exit status 1
    | BadInteger(line: nat)  // `int` refused a token on this line
    | IndexOutOfRange        // a list the tool indexes is too short

  /** The five lists of an instance file. */
  datatype Instance = Instance(nbKnapsacks: int, nbItems: int, demand: seq<int>, weight: seq<int>, cost: seq<int>)

  predicate ValidMode(mode: int)
  {
    mode == 0 || mode == 1 || mode == 2
  }

  /** An instance written out as the tool expects it, one list per row. */
  function Encode(inst: Instance): (rows: seq<seq<int>>)
    ensures Decode(rows) == Ok(inst)
  {
    [[inst.nbKnapsacks], [inst.nbItems], inst.demand, inst.weight, inst.cost]
  }

  /** `data_list[0][0]`, `data_list[1][0]` and rows 2 to 4; later rows are ignored. */
  function Decode(rows: seq<seq<int>>): (r: Result<Instance, Failure>)
    ensures r.Ok? <==> |rows| >= 5 && |rows[0]| > 0 && |rows[1]| > 0
    ensures r.Err? ==> r.error == IndexOutOfRange
    ensures r.Ok? ==> r.value == Instance(rows[0][0], rows[1][0], rows[2], rows[3], rows[4])
  {
    if |rows| < 5 || |rows[0]| == 0 || |rows[1]| == 0 then Err(IndexOutOfRange)
    else Ok(Instance(rows[0][0], rows[1][0], rows[2], rows[3], rows[4]))
  }

  /** Decoding depends only on the first entry of rows 0 and 1 and on rows 2 to 4. */
  lemma DecodeLooksAtFiveRows(rows: seq<seq<int>>, other: seq<seq<int>>)
    requires |rows| >= 5 && |other| >= 5 && |rows[0]| > 0 && |rows[1]| > 0 && |other[0]| > 0 && |other[1]| > 0
    requires rows[0][0] == other[0][0] && rows[1][0] == other[1][0] && rows[2..5] == other[2..5]
    ensures Decode(rows) == Decode(other)
  {
    assert rows[2] == rows[2..5][0] && rows[3] == rows[2..5][1] && rows[4] == rows[2..5][2];
  }

  predicate IsSingle(inst: Instance)
  {
    inst.nbKnapsacks == 1
  }

  /** Everything the chosen builder and extractor index is there. */
  predicate Indexable(inst: Instance)
  {
    if IsSingle(inst) then SingleIndexable(inst.nbItems, inst.demand, inst.weight, inst.cost)
    else MultiIndexable(inst.nbKnapsacks, inst.nbItems, inst.demand, inst.weight, inst.cost)
  }

  /** The program the tool hands to the solver: minimised exactly in modes 0
      and 1, over one variable per item and knapsack in a primal and one per
      item plus one per knapsack in a dual. */
  function Formulate(inst: Instance, mode: int): (p: Program)
    requires Indexable(inst)
    ensures p.sense == Minimize <==> IsPrimal(mode)
    ensures |p.variables| == if IsPrimal(mode) then Offset(RangeLength(inst.nbKnapsacks), RangeLength(inst.nbItems))
                             else RangeLength(inst.nbKnapsacks) + RangeLength(inst.nbItems)
  {
    var Instance(m, n, demand, weight, cost) := inst;
    if IsSingle(inst) then
      if IsPrimal(mode) then SinglePrimal(n, demand, weight, cost, mode) else SingleDual(n, demand, weight, cost)
    else
      if IsPrimal(mode) then MultiPrimal(m, n, demand, weight, cost, mode) else MultiDual(m, n, demand, weight, cost)
  }

  /** The solver's values read back as the chosen formulation reports them. */
  function ReadBack(inst: Instance, mode: int, values: seq<real>): (o: Outcome)
    requires Indexable(inst)
    ensures (o.SingleItems? || o.SingleDuals?) <==> IsSingle(inst)
    ensures (o.SingleItems? || o.KnapsackItems?) <==> IsPrimal(mode)
  {
    var Instance(m, n, demand, weight, cost) := inst;
    if IsSingle(inst) then
      if IsPrimal(mode) then SingleItems(SelectSingle(n, weight, cost, values)) else SingleDuals(SingleDualVectors(n, values))
    else
      if IsPrimal(mode) then KnapsackItems(Selections(values, RangeLength(n), weight, cost, RangeLength(m)))
      else MultiDuals(MultiDualVectors(m, n, values))
  }

  /** `solve_single_knapsack` or `solve_multi_knapsack`, as `main` chooses. */
  function Solve(inst: Instance, mode: int, solve: Program -> Answer): (r: Result<Report, Failure>)
    ensures r.Ok? <==> Indexable(inst)
    ensures r.Err? ==> r.error == IndexOutOfRange
    ensures r.Ok? ==> ((r.value.outcome.SingleItems? || r.value.outcome.SingleDuals?) <==> inst.nbKnapsacks == 1)
    ensures r.Ok? ==> ((r.value.outcome.SingleItems? || r.value.outcome.KnapsackItems?) <==> mode == 0 || mode == 1)
    ensures r.Ok? ==> r.value.status == solve(Formulate(inst, mode)).status
    ensures r.Ok? ==> r.value.objective == ObjectiveValue(Formulate(inst, mode), solve(Formulate(inst, mode)).values)
    ensures r.Ok? ==> r.value.outcome == ReadBack(inst, mode, solve(Formulate(inst, mode)).values)
  {
    if !Indexable(inst) then Err(IndexOutOfRange)
    else
      var p := Formulate(inst, mode);
      var answer := solve(p);
      Ok(Report(answer.status, ObjectiveValue(p, answer.values), ReadBack(inst, mode, answer.values)))
  }

  /** `read_data` followed by the five look-ups at the top of `main`. */
  function Load(lines: seq<string>): (r: Result<Instance, Failure>)
    ensures r.Err? && r.error.BadInteger? <==> Collect(ParseLine, lines).Err?
    ensures r.Err? && r.error.BadInteger? ==> Collect(ParseLine, lines) == Err(r.error.line)
    ensures r.Err? ==> r.error.BadInteger? || r.error == IndexOutOfRange
    ensures r.Ok? <==> Collect(ParseLine, lines).Ok? && |lines| >= 5
                       && |ParseLine(lines[0]).value| > 0 && |ParseLine(lines[1]).value| > 0
    ensures r.Ok? ==> r.value == Instance(ParseLine(lines[0]).value[0], ParseLine(lines[1]).value[0],
                                          ParseLine(lines[2]).value, ParseLine(lines[3]).value, ParseLine(lines[4]).value)
  {
    match Collect(ParseLine, lines)
    case Err(k) => Err(BadInteger(k))
    case Ok(rows) => Decode(rows)
  }

  /** `main` after the command line is read: the mode is checked before the
      file is read, then the file, then the instance. */
  function Run(mode: int, lines: seq<string>, solve: Program -> Answer): (r: Result<Report, Failure>)
    ensures !ValidMode(mode) ==> r == Err(InvalidMode)
    ensures ValidMode(mode) && Load(lines).Err? ==> r == Err(Load(lines).error)
    ensures r.Ok? ==> ValidMode(mode) && Load(lines).Ok?
    ensures ValidMode(mode) && Load(lines).Ok? ==> r == Solve(Load(lines).value, mode, solve)
  {
    if !ValidMode(mode) then Err(InvalidMode)
    else
      match Load(lines)
      case Err(e) => Err(e)
      case Ok(inst) => Solve(inst, mode, solve)
  }

  // ---------------------------------------------------------------------
  // What a report means

  /** Once the file reads as `rows`, a run is the run of the instance `rows` decode to. */
  lemma RunAfterRead(mode: int, lines: seq<string>, solve: Program -> Answer, inst: Instance)
    requires ValidMode(mode) && Collect(ParseLine, lines) == Ok(Encode(inst))
    ensures Run(mode, lines, solve) == Solve(inst, mode, solve)
  {
  }

  /** A file written from an instance runs as that instance. */
  lemma RunRendered(mode: int, inst: Instance, solve: Program -> Answer)
    requires ValidMode(mode)
    ensures Run(mode, Render(Encode(inst)), solve) == Solve(inst, mode, solve)
  {
    ReadRendered(Encode(inst));
    RunAfterRead(mode, Render(Encode(inst)), solve, inst);
  }

  /** The line endings `readlines` keeps do not change a run. */
  lemma RunIgnoresLineEnds(mode: int, lines: seq<string>, solve: Program -> Answer)
    ensures Run(mode, WithLineEnds(lines), solve) == Run(mode, lines, solve)
  {
    ReadIgnoresLineEnds(lines);
  }

  /** Lines after the first five that read as integers, blank ones included,
      do not change the instance: only `data_list[0]` to `data_list[4]` are
      looked at. */
  lemma LoadIgnoresTrailingLines(lines: seq<string>, extra: seq<string>)
    requires |lines| >= 5 && Collect(ParseLine, lines).Ok? && Collect(ParseLine, extra).Ok?
    ensures Load(lines + extra) == Load(lines)
  {
    CollectAppend(ParseLine, lines, extra);
    var rows := Collect(ParseLine, lines).value;
    var all := rows + Collect(ParseLine, extra).value;
    assert Collect(ParseLine, lines + extra) == Ok(all);
    assert all[0] == rows[0] && all[1] == rows[1] && all[2] == rows[2] && all[3] == rows[3] && all[4] == rows[4];
    assert Decode(all) == Decode(rows);
  }

  /** Such trailing lines do not change a run either. */
  lemma RunIgnoresTrailingLines(mode: int, lines: seq<string>, extra: seq<string>, solve: Program -> Answer)
    requires |lines| >= 5 && Collect(ParseLine, lines).Ok? && Collect(ParseLine, extra).Ok?
    ensures Run(mode, lines + extra, solve) == Run(mode, lines, solve)
  {
    LoadIgnoresTrailingLines(lines, extra);
  }

  /** When the solver's values satisfy every constraint, the listed items meet
      every demand: in the single case for a 0/1 answer (mode 0), in the
      multiple case in mode 0 and, when no weight is negative, in mode 1; and
      in mode 0 no item is listed under two knapsacks. The lemmas
      `RelaxedSingleMayMissDemand`, `NegativeWeightMayMissDemand` and
      `RelaxedKnapsacksShareItem` show that none of these conditions can go. */
  lemma SolveCovers(inst: Instance, mode: int, solve: Program -> Answer)
    requires Indexable(inst) && IsPrimal(mode)
    requires Feasible(Formulate(inst, mode), solve(Formulate(inst, mode)).values)
    requires IsSingle(inst) ==> mode == 0
    requires !IsSingle(inst) ==> mode == 0 || NonNegativeWeights(inst.weight)
    ensures Solve(inst, mode, solve).Ok?
    ensures Solve(inst, mode, solve).value.outcome.SingleItems? ==>
      WeightSum(Solve(inst, mode, solve).value.outcome.items) >= inst.demand[0]
    ensures Solve(inst, mode, solve).value.outcome.KnapsackItems? ==>
      forall i: nat :: i < RangeLength(inst.nbKnapsacks) ==>
        i in Solve(inst, mode, solve).value.outcome.byKnapsack
        && WeightSum(Solve(inst, mode, solve).value.outcome.byKnapsack[i]) >= inst.demand[i]
    ensures Solve(inst, mode, solve).value.outcome.KnapsackItems? && mode == 0 ==>
      forall a: nat, b: nat :: a < b < RangeLength(inst.nbKnapsacks) ==>
        Indices(Solve(inst, mode, solve).value.outcome.byKnapsack[a])
        !! Indices(Solve(inst, mode, solve).value.outcome.byKnapsack[b])
  {
    var Instance(m, n, demand, weight, cost) := inst;
    var x := solve(Formulate(inst, mode)).values;
    if IsSingle(inst) {
      SingleSelectionCovers(n, demand, weight, cost, x);
    } else {
      MultiSelectionsCover(m, n, demand, weight, cost, mode, x);
    }
  }

  /** For a 0/1 answer of a primal, the reported objective is the summed cost
      of the items listed (under every knapsack, in the multiple case). */
  lemma SolvePrimalObjective(inst: Instance, mode: int, solve: Program -> Answer)
    requires Indexable(inst) && IsPrimal(mode)
    requires ZeroOne(solve(Formulate(inst, mode)).values)
    ensures Solve(inst, mode, solve).Ok?
    ensures Solve(inst, mode, solve).value.outcome.SingleItems? ==>
      Solve(inst, mode, solve).value.objective == CostSum(Solve(inst, mode, solve).value.outcome.items) as real
    ensures Solve(inst, mode, solve).value.outcome.KnapsackItems? ==>
      Solve(inst, mode, solve).value.objective
        == SelectionsCost(Solve(inst, mode, solve).value.outcome.byKnapsack, RangeLength(inst.nbKnapsacks)) as real
  {
    var Instance(m, n, demand, weight, cost) := inst;
    var x := solve(Formulate(inst, mode)).values;
    if IsSingle(inst) {
      SingleObjectiveIsSelectionCost(n, demand, weight, cost, mode, x);
    } else {
      MultiObjectiveIsSelectionCost(m, n, demand, weight, cost, mode, x);
    }
  }

  /** For a dual, the reported objective is the demand-weighted sum of the
      reported knapsack prices minus the sum of the reported item prices. */
  lemma SolveDualObjective(inst: Instance, mode: int, solve: Program -> Answer)
    requires Indexable(inst) && !IsPrimal(mode)
    ensures Solve(inst, mode, solve).Ok?
    ensures Solve(inst, mode, solve).value.outcome.SingleDuals? ==>
      Solve(inst, mode, solve).value.objective
        == Dot(inst.demand, Solve(inst, mode, solve).value.outcome.single.v1, 0, 1)
           - Mass(Solve(inst, mode, solve).value.outcome.single.uj, 0, 1, RangeLength(inst.nbItems))
    ensures Solve(inst, mode, solve).value.outcome.MultiDuals? ==>
      Solve(inst, mode, solve).value.objective
        == Dot(inst.demand, Solve(inst, mode, solve).value.outcome.multi.vi, 0, RangeLength(inst.nbKnapsacks))
           - Mass(Solve(inst, mode, solve).value.outcome.multi.vj, 0, 1, RangeLength(inst.nbItems))
  {
    var Instance(m, n, demand, weight, cost) := inst;
    var y := solve(Formulate(inst, mode)).values;
    if IsSingle(inst) {
      SingleDualReportObjective(n, demand, weight, cost, y);
    } else {
      MultiDualReportObjective(m, n, demand, weight, cost, y);
    }
  }

  // ---------------------------------------------------------------------
  // The tool as it runs

  /** The builder `main` reaches: the dual and the multiple primal add their rows in loops. */
  method Build(inst: Instance, mode: int) returns (p: Program)
    requires Indexable(inst)
    ensures p == Formulate(inst, mode)
  {
    var Instance(m, n, demand, weight, cost) := inst;
    if m == 1 {
      if IsPrimal(mode) {
        p := SinglePrimal(n, demand, weight, cost, mode);
      } else {
        p := BuildSingleDual(n, demand, weight, cost);
      }
    } else {
      if IsPrimal(mode) {
        p := BuildMultiPrimal(m, n, demand, weight, cost, mode);
      } else {
        p := BuildMultiDual(m, n, demand, weight, cost);
      }
    }
  }

  /** The extraction `main` reaches: the multiple primal fills its map in a loop. */
  method Extract(inst: Instance, mode: int, values: seq<real>) returns (outcome: Outcome)
    requires Indexable(inst)
    ensures outcome == ReadBack(inst, mode, values)
  {
    var Instance(m, n, demand, weight, cost) := inst;
    if m == 1 {
      if IsPrimal(mode) {
        outcome := SingleItems(SelectSingle(n, weight, cost, values));
      } else {
        outcome := SingleDuals(SingleDualVectors(n, values));
      }
    } else {
      if IsPrimal(mode) {
        var byKnapsack := SelectByKnapsack(m, n, weight, cost, values);
        outcome := KnapsackItems(byKnapsack);
      } else {
        outcome := MultiDuals(MultiDualVectors(m, n, values));
      }
    }
  }

  /** The read loop, then the look-ups. */
  method LoadLines(lines: seq<string>) returns (r: Result<Instance, Failure>)
    ensures r == Load(lines)
  {
    var read := ReadLines(lines);
    if read.Err? {
      return Err(BadInteger(read.error));
    }
    var rows := read.value;
    if |rows| < 5 || |rows[0]| == 0 || |rows[1]| == 0 {
      return Err(IndexOutOfRange);
    }
    r := Ok(Instance(rows[0][0], rows[1][0], rows[2], rows[3], rows[4]));
  }

  /** The builder, one call to the solver, the extraction. */
  method SolveWith(inst: Instance, mode: int, solve: Program -> Answer) returns (r: Result<Report, Failure>)
    ensures r == Solve(inst, mode, solve)
  {
    if !Indexable(inst) {
      return Err(IndexOutOfRange);
    }
    var p := Build(inst, mode);
    var answer := solve(p);
    var outcome := Extract(inst, mode, answer.values);
    r := Ok(Report(answer.status, ObjectiveValue(p, answer.values), outcome));
  }

  /** `main` step by step. */
  method Execute(mode: int, lines: seq<string>, solve: Program -> Answer) returns (r: Result<Report, Failure>)
    ensures r == Run(mode, lines, solve)
  {
    if !ValidMode(mode) {
      return Err(InvalidMode);
    }
    var loaded := LoadLines(lines);
    if loaded.Err? {
      return Err(loaded.error);
    }
    r := SolveWith(loaded.value, mode, solve);
  }
}
