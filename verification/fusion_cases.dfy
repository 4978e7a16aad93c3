/** First step of the fusion: influenza case counts summed per
    (season, county) as both are written in the influenza file. */
module FusionCases {
  import opened Outcomes
  import opened PyDict

  /** What one population join appends to a county's list. */
  datatype PopJoin = PopJoin(population: int, percent: real)

  /** The list kept for one (season, county): `[cases]` after the influenza
      file, then `population, cases/population` appended per population join. */
  datatype CountyRecord = CountyRecord(cases: int, joins: seq<PopJoin>) {
    /** `len(yearSet[season][county])` */
    function Length(): nat {
      1 + 2 * |joins|
    }
  }

  /** `yearSet`: season text to county text to record; seasons in the order
      they first appear in the influenza file. */
  type Seasons = Dict<string, map<string, CountyRecord>>

  /** Columns of the influenza file that the script reads. */
  const SeasonColumn := 0
  const CountyColumn := 2
  const CountColumn := 6

  /** The exception reading an influenza row raises, if any. */
  function FluRowFailure(row: Row, parseInt: IntParser): Option<Failure> {
    if |row| <= CountColumn then Some(IndexError)
    else if parseInt(row[CountColumn]).None? then Some(ValueError)
    else None
  }

  predicate FluRowOk(row: Row, parseInt: IntParser) {
    FluRowFailure(row, parseInt).None?
  }

  predicate AllFluRowsOk(rows: seq<Row>, parseInt: IntParser) {
    forall i :: 0 <= i < |rows| ==> FluRowOk(rows[i], parseInt)
  }

  function Count(row: Row, parseInt: IntParser): int
    requires FluRowOk(row, parseInt)
  {
    parseInt(row[CountColumn]).value
  }

  predicate HasRecord(ys: Seasons, season: string, county: string) {
    season in ys.items && county in ys.items[season]
  }

  /** The effect of one influenza row on `yearSet`. */
  function AddRow(ys: Seasons, row: Row, parseInt: IntParser): (r: Seasons)
    requires ys.Valid() && FluRowOk(row, parseInt)
    ensures r.Valid()
  {
    Tally(ys, row[SeasonColumn], row[CountyColumn], Count(row, parseInt))
  }

  /** `n` cases for (season, county): a new record, or added to its count. */
  function Tally(ys: Seasons, season: string, county: string, n: int): (r: Seasons)
    requires ys.Valid()
    ensures r.Valid()
  {
    if season !in ys.items then ys.Put(season, map[county := CountyRecord(n, [])])
    else if county !in ys.items[season] then ys.Put(season, ys.items[season][county := CountyRecord(n, [])])
    else
      var rec := ys.items[season][county];
      ys.Put(season, ys.items[season][county := rec.(cases := rec.cases + n)])
  }

  /** Reading the influenza rows in order into `ys`. */
  function Aggregate(ys: Seasons, rows: seq<Row>, parseInt: IntParser): (r: Result<Seasons>)
    requires ys.Valid()
    ensures r.Ok? ==> r.value.Valid()
    decreases |rows|
  {
    if rows == [] then Ok(ys)
    else match FluRowFailure(rows[0], parseInt)
      case Some(e) => Err(e)
      case None => Aggregate(AddRow(ys, rows[0], parseInt), rows[1..], parseInt)
  }

  /** The whole influenza file: the header row, then the rows aggregated. */
  function CasesOf(table: Table, parseInt: IntParser): Result<Seasons> {
    if |table| == 0 then Err(StopIteration) else Aggregate(Empty(), table[1..], parseInt)
  }

  /** The sum of the counts of the rows for (season, county). */
  function TotalCases(rows: seq<Row>, season: string, county: string, parseInt: IntParser): int
    requires AllFluRowsOk(rows, parseInt)
  {
    if rows == [] then 0
    else
      (if rows[0][SeasonColumn] == season && rows[0][CountyColumn] == county then Count(rows[0], parseInt) else 0)
      + TotalCases(rows[1..], season, county, parseInt)
  }

  /** Some row of `rows` is for (season, county). */
  predicate Mentions(rows: seq<Row>, season: string, county: string) {
    exists i :: 0 <= i < |rows| && |rows[i]| > CountyColumn
      && rows[i][SeasonColumn] == season && rows[i][CountyColumn] == county
  }

  /** Reading fails exactly when some row is too short or its count is not an
      integer, and then with the exception of the first such row. */
  lemma {:induction false} AggregateFails(ys: Seasons, rows: seq<Row>, parseInt: IntParser)
    requires ys.Valid()
    ensures Aggregate(ys, rows, parseInt).Ok? <==> AllFluRowsOk(rows, parseInt)
    ensures Aggregate(ys, rows, parseInt).Err? ==>
      exists i :: 0 <= i < |rows| && FluRowFailure(rows[i], parseInt) == Some(Aggregate(ys, rows, parseInt).error)
        && AllFluRowsOk(rows[..i], parseInt)
    decreases |rows|
  {
    if rows != [] && FluRowOk(rows[0], parseInt) {
      AggregateFails(AddRow(ys, rows[0], parseInt), rows[1..], parseInt);
      OkCons(rows, |rows| - 1, parseInt);
      assert rows[..|rows|] == rows;
      if Aggregate(ys, rows, parseInt).Err? {
        var i :| 0 <= i < |rows[1..]| && FluRowFailure(rows[1..][i], parseInt) == Some(Aggregate(ys, rows, parseInt).error)
          && AllFluRowsOk(rows[1..][..i], parseInt);
        OkCons(rows, i, parseInt);
        assert rows[1..][i] == rows[i + 1];
      }
    } else if rows != [] {
      assert rows[..0] == [];
    }
  }

  /** The rows before `i + 1` are all readable exactly when the first is and
      the next `i` are. */
  lemma OkCons(rows: seq<Row>, i: nat, parseInt: IntParser)
    requires i < |rows|
    ensures AllFluRowsOk(rows[..i + 1], parseInt) <==>
      FluRowOk(rows[0], parseInt) && AllFluRowsOk(rows[1..][..i], parseInt)
  {
    assert rows[..i + 1] == [rows[0]] + rows[1..][..i];
  }

  /** One row touches only the record it names: it creates it with the row's
      count or adds the count to it; every other record is unchanged. */
  lemma AddRowEffect(ys: Seasons, row: Row, parseInt: IntParser, season: string, county: string)
    requires ys.Valid() && FluRowOk(row, parseInt)
    ensures var r := AddRow(ys, row, parseInt);
      var hit := row[SeasonColumn] == season && row[CountyColumn] == county;
      && (HasRecord(r, season, county) <==> HasRecord(ys, season, county) || hit)
      && (HasRecord(r, season, county) ==>
            && r.items[season][county].cases
               == (if HasRecord(ys, season, county) then ys.items[season][county].cases else 0)
                  + (if hit then Count(row, parseInt) else 0)
            && r.items[season][county].joins
               == (if HasRecord(ys, season, county) then ys.items[season][county].joins else []))
  {
  }

  /** Whether a list of rows names (season, county), by its first row. */
  lemma MentionsCons(rows: seq<Row>, season: string, county: string)
    requires rows != [] && |rows[0]| > CountyColumn
    ensures Mentions(rows, season, county)
      <==> (rows[0][SeasonColumn] == season && rows[0][CountyColumn] == county) || Mentions(rows[1..], season, county)
  {
    if Mentions(rows[1..], season, county) {
      var i :| 0 <= i < |rows[1..]| && |rows[1..][i]| > CountyColumn
        && rows[1..][i][SeasonColumn] == season && rows[1..][i][CountyColumn] == county;
      assert rows[i + 1] == rows[1..][i];
    }
    if Mentions(rows, season, county) {
      var i :| 0 <= i < |rows| && |rows[i]| > CountyColumn
        && rows[i][SeasonColumn] == season && rows[i][CountyColumn] == county;
      if i > 0 {
        assert rows[1..][i - 1] == rows[i];
      }
    }
  }

  /** After reading, a (season, county) has a record exactly when it had one
      before or some row names it, and its cases are the earlier cases plus the
      sum of the counts of the rows that name it. The county text is used as
      written in the file. Joins are untouched. */
  lemma {:induction false} AggregateSums(ys: Seasons, rows: seq<Row>, parseInt: IntParser, season: string, county: string)
    requires ys.Valid()
    requires Aggregate(ys, rows, parseInt).Ok?
    ensures AllFluRowsOk(rows, parseInt)
    ensures var r := Aggregate(ys, rows, parseInt).value;
      HasRecord(r, season, county) <==> HasRecord(ys, season, county) || Mentions(rows, season, county)
    ensures var r := Aggregate(ys, rows, parseInt).value;
      HasRecord(r, season, county) ==>
        && r.items[season][county].cases
           == (if HasRecord(ys, season, county) then ys.items[season][county].cases else 0)
              + TotalCases(rows, season, county, parseInt)
        && r.items[season][county].joins
           == (if HasRecord(ys, season, county) then ys.items[season][county].joins else [])
    decreases |rows|
  {
    AggregateFails(ys, rows, parseInt);
    if rows != [] {
      var next := AddRow(ys, rows[0], parseInt);
      AddRowEffect(ys, rows[0], parseInt, season, county);
      MentionsCons(rows, season, county);
      AggregateSums(next, rows[1..], parseInt, season, county);
      assert Aggregate(ys, rows, parseInt) == Aggregate(next, rows[1..], parseInt);
    } else {
      assert !Mentions(rows, season, county);
    }
  }

  /** Reading a readable first row is adding it, then reading the rest. */
  lemma AggregateStep(ys: Seasons, rows: seq<Row>, parseInt: IntParser)
    requires ys.Valid() && rows != [] && FluRowOk(rows[0], parseInt)
    ensures Aggregate(ys, rows, parseInt) == Aggregate(AddRow(ys, rows[0], parseInt), rows[1..], parseInt)
  {
  }

  /** The update of `yearSet` for one row (src/datasort.py:39-46). */
  method TallyRow(ys: Seasons, season: string, county: string, n: int) returns (r: Seasons)
    requires ys.Valid()
    ensures r == Tally(ys, season, county, n)
  {
    r := ys;
    if season !in r.items {
      r := r.Put(season, map[county := CountyRecord(n, [])]);
    } else if county !in r.items[season] {
      r := r.Put(season, r.items[season][county := CountyRecord(n, [])]);
    } else {
      var rec := r.items[season][county];
      r := r.Put(season, r.items[season][county := rec.(cases := rec.cases + n)]);
    }
  }

  /** `yearSet` filled from the influenza file (src/datasort.py:31-46). */
  method LoadInfluenza(table: Table, parseInt: IntParser) returns (r: Result<Seasons>)
    ensures r == CasesOf(table, parseInt)
  {
    if |table| == 0 {
      return Err(StopIteration);
    }
    var rows := table[1..];
    var ys: Seasons := Empty();
    var i := 0;
    while i < |rows|
      invariant 0 <= i <= |rows| && ys.Valid()
      invariant Aggregate(ys, rows[i..], parseInt) == Aggregate(Empty(), rows, parseInt)
    {
      var row := rows[i];
      assert rows[i..][0] == row && rows[i..][1..] == rows[i + 1..];
      if |row| <= CountColumn {
        return Err(IndexError);
      }
      var season, county := row[SeasonColumn], row[CountyColumn];
      var n := parseInt(row[CountColumn]);
      if n.None? {
        return Err(ValueError);
      }
      AggregateStep(ys, rows[i..], parseInt);
      assert AddRow(ys, row, parseInt) == Tally(ys, season, county, n.value);
      ys := TallyRow(ys, season, county, n.value);
      i := i + 1;
    }
    return Ok(ys);
  }
}
