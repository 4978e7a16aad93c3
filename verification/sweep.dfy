/** One hyper-parameter sweep of src/nntest.py: for every feature subset
    and every grid point, a model is trained and its test error recorded
    in the running averages; the best cell so far is kept, every cell under
    the dump limit is exported, and at the end the best cell and the field
    ranking are reported. Training and testing a cell are the oracle
    `error`. */
module Sweep {
  import opened Outcomes
  import opened PyDict
  import opened SweepSubsets
  import opened RunningAverages
  import opened SweepGrid

  /** The fields every sweep draws its subsets from (src/nntest.py:6). */
  const Fields: seq<string> := ["EP_POV", "EP_UNEMP", "EP_PCI", "EP_NOHSDP", "EP_AGE65", "EP_AGE17", "EP_DISABL",
    "EP_SNGPNT", "EP_MINRTY", "EP_LIMENG", "EP_MUNIT", "EP_MOBILE", "EP_CROWD", "EP_NOVEH", "EP_GROUPQ", "EP_UNINSUR"]

  /** The error every sweep starts from (src/nntest.py:31). */
  const InitialLowest: real := 10000000.0

  /** One model tried: a feature subset and the values of the grid's
      parameters. */
  datatype Cell = Cell(fields: seq<string>, point: seq<real>)

  /** The sweep's variables after some cells: `lowestError`, `stats`
      (None while it is the empty list), the cells exported so far, and the
      running error lists. */
  datatype Progress = Progress(lowest: real, stats: Option<Cell>, exported: seq<Cell>, lists: Lists)

  function Start(): (p: Progress)
    ensures p.lists.Valid()
  {
    Progress(InitialLowest, None, [], Empty())
  }

  /** The body of the innermost loop for one cell with error `e`. */
  function Visit(p: Progress, c: Cell, e: real, dumpLimit: real): (q: Progress)
    requires p.lists.Valid()
    ensures q.lists.Valid()
  {
    Progress(
      if e < p.lowest then e else p.lowest,
      if e < p.lowest then Some(c) else p.stats,
      if e < dumpLimit then p.exported + [c] else p.exported,
      Updated(p.lists, c.fields, e))
  }

  /** The variables after visiting `cells` in order. */
  function After(cells: seq<Cell>, error: Cell -> real, dumpLimit: real): (p: Progress)
    ensures p.lists.Valid()
  {
    if cells == [] then Start()
    else Visit(After(cells[..|cells| - 1], error, dumpLimit), cells[|cells| - 1], error(cells[|cells| - 1]), dumpLimit)
  }

  lemma AfterOneMore(cells: seq<Cell>, c: Cell, error: Cell -> real, dumpLimit: real)
    ensures After(cells + [c], error, dumpLimit) == Visit(After(cells, error, dumpLimit), c, error(c), dumpLimit)
  {
    assert (cells + [c])[..|cells|] == cells;
  }

  /** The cells of one subset: the subset with every grid point. */
  function RowOf(fields: seq<string>, points: seq<seq<real>>): (r: seq<Cell>)
    ensures |r| == |points| && forall j :: 0 <= j < |points| ==> r[j] == Cell(fields, points[j])
  {
    seq(|points|, j requires 0 <= j < |points| => Cell(fields, points[j]))
  }

  lemma RowOfExtend(fields: seq<string>, points: seq<seq<real>>, j: nat)
    requires j < |points|
    ensures RowOf(fields, points[..j + 1]) == RowOf(fields, points[..j]) + [Cell(fields, points[j])]
  {
  }

  /** One more grid point of a row is one more visit. */
  lemma RowStep(done: seq<Cell>, fields: seq<string>, points: seq<seq<real>>, j: nat, error: Cell -> real, dumpLimit: real)
    requires j < |points|
    ensures var c := Cell(fields, points[j]);
      After(done + RowOf(fields, points[..j + 1]), error, dumpLimit)
        == Visit(After(done + RowOf(fields, points[..j]), error, dumpLimit), c, error(c), dumpLimit)
  {
    RowOfExtend(fields, points, j);
    assert done + RowOf(fields, points[..j + 1]) == done + RowOf(fields, points[..j]) + [Cell(fields, points[j])];
    AfterOneMore(done + RowOf(fields, points[..j]), Cell(fields, points[j]), error, dumpLimit);
  }

  /** The cells of a sweep, subset by subset. */
  function Cells(subsets: seq<seq<string>>, points: seq<seq<real>>): seq<Cell> {
    if subsets == [] then []
    else Cells(subsets[..|subsets| - 1], points) + RowOf(subsets[|subsets| - 1], points)
  }

  /** The final report: `stats`, `lowestError` and the fields ranked by
      their mean error. */
  datatype Summary = Summary(best: Cell, lowest: real, ranking: seq<(string, real)>)

  /** What a sweep does: the models it exports, in order, and its report,
      or the exception that ends it. */
  datatype SweepOutcome = SweepOutcome(exported: seq<Cell>, report: Result<Summary>)

  /** The report after the loops: `stats[0]` raises IndexError when no cell
      beat the initial error. */
  function Report(p: Progress): Result<Summary>
    requires p.lists.Valid()
  {
    if p.stats.None? then Err(IndexError)
    else
      match AveragesOf(p.lists)
      case Err(e) => Err(e)
      case Ok(averages) => Ok(Summary(p.stats.value, p.lowest, Ranked(ItemsOf(averages))))
  }

  function SweepOf(cells: seq<Cell>, error: Cell -> real, dumpLimit: real): SweepOutcome {
    var p := After(cells, error, dumpLimit);
    SweepOutcome(p.exported, Report(p))
  }

  /** The cells before position `k` all have an error above `e`. */
  predicate AllAbove(cells: seq<Cell>, error: Cell -> real, k: nat, e: real)
    requires k <= |cells|
  {
    forall j :: 0 <= j < k ==> error(cells[j]) > e
  }

  /** `lowestError` is the least of the initial error and every cell's
      error; `stats` is the first cell that reached it, and empty exactly
      when no cell went below the initial error. */
  lemma {:induction false} BestTracking(cells: seq<Cell>, error: Cell -> real, dumpLimit: real)
    ensures var p := After(cells, error, dumpLimit);
      && p.lowest <= InitialLowest
      && (forall k :: 0 <= k < |cells| ==> p.lowest <= error(cells[k]))
      && (p.stats.None? <==> p.lowest == InitialLowest)
      && (p.stats.Some? ==> exists k :: 0 <= k < |cells| && cells[k] == p.stats.value && error(cells[k]) == p.lowest && AllAbove(cells, error, k, p.lowest))
  {
    if cells != [] {
      var init, c := cells[..|cells| - 1], cells[|cells| - 1];
      BestTracking(init, error, dumpLimit);
      var p0 := After(init, error, dumpLimit);
      var p := After(cells, error, dumpLimit);
      assert forall k :: 0 <= k < |init| ==> cells[k] == init[k];
      if error(c) < p0.lowest {
        assert cells[|init|] == c;
        assert AllAbove(cells, error, |init|, p.lowest);
      } else if p.stats.Some? {
        var k :| 0 <= k < |init| && init[k] == p.stats.value && error(init[k]) == p.lowest && AllAbove(init, error, k, p.lowest);
        assert cells[k] == p.stats.value && AllAbove(cells, error, k, p.lowest);
      }
    }
  }

  /** The lowest error never rises as more cells are visited. */
  lemma {:induction false} LowestNeverRises(cells: seq<Cell>, error: Cell -> real, dumpLimit: real, m: nat)
    requires m <= |cells|
    ensures After(cells, error, dumpLimit).lowest <= After(cells[..m], error, dumpLimit).lowest
    decreases |cells|
  {
    if m < |cells| {
      var init := cells[..|cells| - 1];
      assert init[..m] == cells[..m];
      LowestNeverRises(init, error, dumpLimit, m);
    } else {
      assert cells[..m] == cells;
    }
  }

  /** The cells of `cells` whose error is under `limit`, in order. */
  function Below(cells: seq<Cell>, error: Cell -> real, limit: real): seq<Cell> {
    if cells == [] then []
    else if error(cells[0]) < limit then [cells[0]] + Below(cells[1..], error, limit)
    else Below(cells[1..], error, limit)
  }

  lemma {:induction false} BelowAppend(cells: seq<Cell>, c: Cell, error: Cell -> real, limit: real)
    ensures Below(cells + [c], error, limit) == Below(cells, error, limit) + (if error(c) < limit then [c] else [])
  {
    if cells != [] {
      assert (cells + [c])[1..] == cells[1..] + [c];
      BelowAppend(cells[1..], c, error, limit);
    }
  }

  /** Every cell under the dump limit is exported, whether or not it was the
      best so far, and no other cell is. */
  lemma {:induction false} DumpedCells(cells: seq<Cell>, error: Cell -> real, dumpLimit: real)
    ensures After(cells, error, dumpLimit).exported == Below(cells, error, dumpLimit)
  {
    if cells != [] {
      var init := cells[..|cells| - 1];
      DumpedCells(init, error, dumpLimit);
      BelowAppend(init, cells[|cells| - 1], error, dumpLimit);
      assert init + [cells[|cells| - 1]] == cells;
    }
  }

  /** The errors a field collects: each cell's error once for every time
      its subset names the field. */
  function ErrorsOf(cells: seq<Cell>, error: Cell -> real, f: string): seq<real> {
    if cells == [] then []
    else ErrorsOf(cells[..|cells| - 1], error, f) + Repeat(error(cells[|cells| - 1]), Count(cells[|cells| - 1].fields, f))
  }

  /** Some cell's subset names `f`. */
  predicate Used(cells: seq<Cell>, f: string) {
    exists k :: 0 <= k < |cells| && f in cells[k].fields
  }

  /** The running averages are kept per field: a field has a list exactly
      when some subset used it, the list holds the errors of the cells
      that used it in visiting order, and no list is empty. */
  lemma {:induction false} RunningLists(cells: seq<Cell>, error: Cell -> real, dumpLimit: real, f: string)
    ensures var lists := After(cells, error, dumpLimit).lists;
      && (f in lists.items <==> Used(cells, f))
      && ListOf(lists, f) == ErrorsOf(cells, error, f)
      && AllNonEmpty(lists)
  {
    if cells == [] {
    } else {
      var init, c := cells[..|cells| - 1], cells[|cells| - 1];
      RunningLists(init, error, dumpLimit, f);
      var p0 := After(init, error, dumpLimit);
      UpdatedEffect(p0.lists, c.fields, error(c), f);
      UpdatedNonEmpty(p0.lists, c.fields, error(c));
      if Used(cells, f) && !Used(init, f) {
        var k :| 0 <= k < |cells| && f in cells[k].fields;
      }
      if Used(init, f) {
        var k :| 0 <= k < |init| && f in init[k].fields;
        assert f in cells[k].fields;
      }
      if f in c.fields {
        assert f in cells[|init|].fields;
      }
    }
  }

  /** The sweep ends with a report exactly when some cell went below the
      initial error; it never fails on the running averages. */
  lemma ReportFails(cells: seq<Cell>, error: Cell -> real, dumpLimit: real)
    ensures SweepOf(cells, error, dumpLimit).report.Err? <==> forall k :: 0 <= k < |cells| ==> error(cells[k]) >= InitialLowest
    ensures SweepOf(cells, error, dumpLimit).report.Err? ==> SweepOf(cells, error, dumpLimit).report.error == IndexError
  {
    var p := After(cells, error, dumpLimit);
    BestTracking(cells, error, dumpLimit);
    RunningLists(cells, error, dumpLimit, "");
    AveragesOfMeans(p.lists);
    if p.stats.Some? {
      var k :| 0 <= k < |cells| && cells[k] == p.stats.value && error(cells[k]) == p.lowest && AllAbove(cells, error, k, p.lowest);
    }
  }

  /** The report names the first cell with the least error and ranks every
      used field by its mean error, ascending: each used field appears
      exactly once, paired with the mean of the errors of the cells that
      used it, and no other field appears. */
  lemma ReportContents(cells: seq<Cell>, error: Cell -> real, dumpLimit: real)
    requires SweepOf(cells, error, dumpLimit).report.Ok?
    ensures var s := SweepOf(cells, error, dumpLimit).report.value;
      && s.lowest < InitialLowest
      && (forall k :: 0 <= k < |cells| ==> s.lowest <= error(cells[k]))
      && (exists k :: 0 <= k < |cells| && cells[k] == s.best && error(cells[k]) == s.lowest && AllAbove(cells, error, k, s.lowest))
      && Ascending(s.ranking)
      && |s.ranking| == |After(cells, error, dumpLimit).lists.keys|
    ensures forall i :: 0 <= i < |SweepOf(cells, error, dumpLimit).report.value.ranking| ==>
      RankedMean(cells, error, SweepOf(cells, error, dumpLimit).report.value.ranking[i])
    ensures forall f :: Used(cells, f) ==>
      exists i :: 0 <= i < |SweepOf(cells, error, dumpLimit).report.value.ranking| &&
        SweepOf(cells, error, dumpLimit).report.value.ranking[i].0 == f
    ensures forall i, j :: 0 <= i < j < |SweepOf(cells, error, dumpLimit).report.value.ranking| ==>
      SweepOf(cells, error, dumpLimit).report.value.ranking[i].0 != SweepOf(cells, error, dumpLimit).report.value.ranking[j].0
  {
    var p := After(cells, error, dumpLimit);
    var averages := AveragesOf(p.lists).value;
    var ranking := SweepOf(cells, error, dumpLimit).report.value.ranking;
    BestTracking(cells, error, dumpLimit);
    RunningLists(cells, error, dumpLimit, "");
    AveragesOfMeans(p.lists);
    RankedSorted(ItemsOf(averages));
    RankingOf(averages);
    assert averages.items.Keys == p.lists.items.Keys;
    forall i | 0 <= i < |ranking|
      ensures RankedMean(cells, error, ranking[i])
    {
      RunningLists(cells, error, dumpLimit, ranking[i].0);
    }
    forall f | Used(cells, f)
      ensures exists i :: 0 <= i < |ranking| && ranking[i].0 == f
    {
      RunningLists(cells, error, dumpLimit, f);
    }
  }

  /** `entry` is a used field paired with the mean error of the cells that
      used it. */
  predicate RankedMean(cells: seq<Cell>, error: Cell -> real, entry: (string, real)) {
    && Used(cells, entry.0)
    && ErrorsOf(cells, error, entry.0) != []
    && entry.1 == MeanOf(ErrorsOf(cells, error, entry.0))
  }

  /** The innermost loop body for one cell with error `e`: the running
      lists get `e` for each of the cell's fields, a strictly lower error
      replaces the best cell, and an error under the dump limit exports the
      cell (src/nntest.py:43-50). */
  method VisitCell(cell: Cell, e: real, dumpLimit: real, lowestError0: real, stats0: Option<Cell>, exported0: seq<Cell>,
                   runningAverages: Averages)
    returns (lowestError: real, stats: Option<Cell>, exported: seq<Cell>)
    requires runningAverages.Valid()
    modifies runningAverages
    ensures runningAverages.Valid()
    ensures Progress(lowestError, stats, exported, runningAverages.lists)
      == Visit(Progress(lowestError0, stats0, exported0, old(runningAverages.lists)), cell, e, dumpLimit)
  {
    lowestError, stats, exported := lowestError0, stats0, exported0;
    runningAverages.Update(cell.fields, e);
    if e < lowestError {
      stats := Some(cell);
      lowestError := e;
    }
    if e < dumpLimit {
      exported := exported + [cell];
    }
  }

  /** A sweep (the body shared by the `test*` functions of
      src/nntest.py:30-256): subsets of `fieldList` in the size window,
      the grid of `axes`, errors from `error`. */
  method RunSweep(fieldList: seq<string>, startCount: int, stopCount: int, axes: seq<Axis>,
                  error: Cell -> real, dumpLimit: real) returns (o: SweepOutcome)
    requires forall k :: 0 <= k < |axes| ==> AxisEnds(axes[k])
    ensures o == SweepOf(Cells(AllSubsets(fieldList, startCount, stopCount), Grid(axes)), error, dumpLimit)
  {
    var lowestError := InitialLowest;
    var stats: Option<Cell> := None;
    var exported: seq<Cell> := [];
    var runningAverages := new Averages();
    var subsets := GetAllSubsets(fieldList, startCount, stopCount);
    var points := WalkGrid(axes);
    for i := 0 to |subsets|
      invariant runningAverages.Valid()
      invariant Progress(lowestError, stats, exported, runningAverages.lists) == After(Cells(subsets[..i], points), error, dumpLimit)
    {
      lowestError, stats, exported := VisitRow(subsets[i], points, Cells(subsets[..i], points), error, dumpLimit,
                                               lowestError, stats, exported, runningAverages);
      assert subsets[..i + 1][..i] == subsets[..i];
      assert Cells(subsets[..i + 1], points) == Cells(subsets[..i], points) + RowOf(subsets[i], points);
    }
    assert subsets[..|subsets|] == subsets;
    o := Finish(lowestError, stats, exported, runningAverages.lists);
  }

  /** The parameter loops for one subset of fields: every grid point in
      turn, after the cells `done` (src/nntest.py:36-50). */
  method VisitRow(shortFields: seq<string>, points: seq<seq<real>>, ghost done: seq<Cell>,
                  error: Cell -> real, dumpLimit: real, lowestError0: real, stats0: Option<Cell>, exported0: seq<Cell>,
                  runningAverages: Averages)
    returns (lowestError: real, stats: Option<Cell>, exported: seq<Cell>)
    requires runningAverages.Valid()
    requires Progress(lowestError0, stats0, exported0, runningAverages.lists) == After(done, error, dumpLimit)
    modifies runningAverages
    ensures runningAverages.Valid()
    ensures Progress(lowestError, stats, exported, runningAverages.lists) == After(done + RowOf(shortFields, points), error, dumpLimit)
  {
    lowestError, stats, exported := lowestError0, stats0, exported0;
    assert done + RowOf(shortFields, points[..0]) == done;
    for j := 0 to |points|
      invariant runningAverages.Valid()
      invariant Progress(lowestError, stats, exported, runningAverages.lists) == After(done + RowOf(shortFields, points[..j]), error, dumpLimit)
    {
      var cell := Cell(shortFields, points[j]);
      RowStep(done, shortFields, points, j, error, dumpLimit);
      lowestError, stats, exported := VisitCell(cell, error(cell), dumpLimit, lowestError, stats, exported, runningAverages);
    }
    assert points[..|points|] == points;
  }

  /** The end of a sweep: `stats[0]` fails when no cell beat the initial
      error; otherwise the best cell, its error and the fields ranked by
      mean error (src/nntest.py:53-58). */
  method Finish(lowestError: real, stats: Option<Cell>, exported: seq<Cell>, lists: Lists) returns (o: SweepOutcome)
    requires lists.Valid()
    ensures o == SweepOutcome(exported, Report(Progress(lowestError, stats, exported, lists)))
  {
    if stats.None? {
      return SweepOutcome(exported, Err(IndexError));
    }
    var averages := CalculateRunningAverages(lists);
    if averages.Err? {
      return SweepOutcome(exported, Err(averages.error));
    }
    return SweepOutcome(exported, Ok(Summary(stats.value, lowestError, Ranked(ItemsOf(averages.value)))));
  }

  /** The grids of the seven sweeps, outermost parameter first. */
  datatype Experiment =
    | LinearRegression
    | Lars
    | OrthogonalMatchingPursuit
    | LinearElasticNet(alphaMin: real, alphaMax: real, alphaMultip: real, l1Min: real, l1Max: real, l1Step: real)
    | SVRLinear(cMin: real, cMax: real, cStep: real, gammaMin: real, gammaMax: real, gammaStep: real)
    | SVRRadial(cMin: real, cMax: real, cStep: real, gammaMin: real, gammaMax: real, gammaStep: real,
                epsilonMin: real, epsilonMax: real, epsilonStep: real)
    | LinearRidge(alphaMin: real, alphaMax: real, alphaMultip: real)
    | MLPRegressor(layerMin: int, layerMax: int, toleranceMin: real, toleranceMax: real, toleranceMultip: real,
                   iterationsMin: real, iterationsMax: real, iterationsMultip: real)

  /** The parameter loops of each sweep (src/nntest.py:36-52, 90-106,
      120-139, 153-166, 228-250; the others have none). */
  function AxesOf(x: Experiment): (axes: seq<Axis>)
    ensures |axes| == match x
      case LinearRegression | Lars | OrthogonalMatchingPursuit => 0
      case LinearRidge(_, _, _) => 1
      case LinearElasticNet(_, _, _, _, _, _) | SVRLinear(_, _, _, _, _, _) => 2
      case SVRRadial(_, _, _, _, _, _, _, _, _) | MLPRegressor(_, _, _, _, _, _, _, _) => 3
  {
    match x
    case LinearRegression | Lars | OrthogonalMatchingPursuit => []
    case LinearElasticNet(aMin, aMax, aMul, lMin, lMax, lStep) =>
      [Multiplicative(aMin, aMax, aMul), Additive(lMin, lMax, lStep)]
    case SVRLinear(cMin, cMax, cStep, gMin, gMax, gStep) =>
      [Additive(cMin, cMax, cStep), Additive(gMin, gMax, gStep)]
    case SVRRadial(cMin, cMax, cStep, gMin, gMax, gStep, eMin, eMax, eStep) =>
      [Additive(cMin, cMax, cStep), Additive(gMin, gMax, gStep), Additive(eMin, eMax, eStep)]
    case LinearRidge(aMin, aMax, aMul) => [Multiplicative(aMin, aMax, aMul)]
    case MLPRegressor(lMin, lMax, tMin, tMax, tMul, iMin, iMax, iMul) =>
      [Additive(lMin as real, lMax as real, 1.0), Multiplicative(tMin, tMax, tMul), Multiplicative(iMin, iMax, iMul)]
  }

  /** One `test*` function of src/nntest.py: the sweep over the subsets of
      `fieldList` and the grid of that experiment's parameter loops. */
  method RunExperiment(x: Experiment, fieldList: seq<string>, startCount: int, stopCount: int,
                       error: Cell -> real, dumpLimit: real) returns (o: SweepOutcome)
    requires forall k :: 0 <= k < |AxesOf(x)| ==> AxisEnds(AxesOf(x)[k])
    ensures o == SweepOf(Cells(AllSubsets(fieldList, startCount, stopCount), Grid(AxesOf(x))), error, dumpLimit)
  {
    o := RunSweep(fieldList, startCount, stopCount, AxesOf(x), error, dumpLimit);
  }

  /** Every cell an experiment visits pairs one of the subsets with one
      value of each of its parameter loops, in loop order. */
  lemma ExperimentCells(x: Experiment, subsets: seq<seq<string>>, c: Cell)
    requires forall k :: 0 <= k < |AxesOf(x)| ==> AxisEnds(AxesOf(x)[k])
    requires c in Cells(subsets, Grid(AxesOf(x)))
    ensures c.fields in subsets
    ensures |c.point| == |AxesOf(x)| && forall k :: 0 <= k < |c.point| ==> c.point[k] in AxisValues(AxesOf(x)[k])
  {
    CellsMember(subsets, Grid(AxesOf(x)), c);
    GridPoints(AxesOf(x), c.point);
  }

  /** A cell of the nested loops is one subset with one grid point. */
  lemma {:induction false} CellsMember(subsets: seq<seq<string>>, points: seq<seq<real>>, c: Cell)
    requires c in Cells(subsets, points)
    ensures c.fields in subsets && c.point in points
  {
    var init := subsets[..|subsets| - 1];
    if c in Cells(init, points) {
      CellsMember(init, points, c);
    } else {
      var j :| 0 <= j < |points| && RowOf(subsets[|subsets| - 1], points)[j] == c;
    }
  }
}
