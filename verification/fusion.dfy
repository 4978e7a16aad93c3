/** The fusion script as a whole: the argument check, the three kinds of
    input file read in turn, then the output file written. */
module Fusion {
  import opened Outcomes
  import opened PyText
  import opened PyDict
  import opened FusionArgs
  import opened FusionCases
  import opened FusionPopulation
  import opened FusionSvi
  import opened FusionEmit

  const OutputPath := "influenza_data_by_year_by_county.csv"

  /** How a run ends: the usage text and an exit status, an uncaught
      exception, or the output file written in full. */
  datatype Outcome =
    | Usage(lines: seq<string>, exitStatus: int)
    | Crash(error: Failure)
    | Written(path: string, output: Emission)

  lemma CsvOnlyAllCsv(names: seq<string>)
    ensures AllCsv(CsvOnly(names))
  {
    forall i | 0 <= i < |CsvOnly(names)|
      ensures Contains(CsvOnly(names)[i], ".csv")
    {
      CsvOnlyMembers(names, CsvOnly(names)[i]);
    }
  }

  /** The inputs read and the output computed, or the first exception. */
  function Pipeline(influenza: string, population: string, svi: seq<string>, files: Files,
                    parseInt: IntParser, parseReal: RealParser): Result<Emission>
    requires AllCsv(svi)
  {
    match Open(files, influenza)
    case Err(e) => Err(e)
    case Ok(flu) =>
      match CasesOf(flu, parseInt)
      case Err(e) => Err(e)
      case Ok(cases) =>
        match Open(files, population)
        case Err(e) => Err(e)
        case Ok(pop) =>
          match PopulationOf(cases, pop, parseInt)
          case Err(e) => Err(e)
          case Ok(joined) =>
            match SviAll(InitialState(), svi, files, parseInt)
            case Err(e) => Err(e)
            case Ok(st) => Emitted(joined, st, parseInt, parseReal)
  }

  /** A run of the script on `args` (the arguments after the program name)
      and the files in `files`. */
  function Run(args: seq<string>, files: Files, parseInt: IntParser, parseReal: RealParser): Outcome {
    if |args| < 2 || !IsCsvName(args[0]) || !IsCsvName(args[1]) then Usage([NoFileMessage, UsageMessage], 0)
    else
      CsvOnlyAllCsv(args[2..]);
      match Pipeline(args[0], args[1], CsvOnly(args[2..]), files, parseInt, parseReal)
      case Err(e) => Crash(e)
      case Ok(out) => Written(OutputPath, out)
  }

  /** `row` stands for season `s` of the influenza rows `flu`: some row
      names (s, row.county), the row's year is the one the season's text
      ends with, and its cases are the sum of the counts for that pair. */
  predicate CountedFor(flu: seq<Row>, s: string, row: OutRow, parseInt: IntParser) {
    && AllFluRowsOk(flu, parseInt)
    && Mentions(flu, s, row.county)
    && Some(row.year) == parseInt(SeasonYearText(s))
    && |row.values| > 0
    && row.values[0] == TotalCases(flu, s, row.county, parseInt) as real
  }

  /** A row drawn from a record of `joined`, which differs from the
      influenza aggregate only by population joins, counts the influenza rows. */
  lemma RowCounted(flu: seq<Row>, cases: Seasons, joined: Seasons, row: OutRow, parseInt: IntParser)
    requires Aggregate(Empty(), flu, parseInt) == Ok(cases)
    requires SameShape(cases, joined)
    requires FromSomeSeason(joined, row, parseInt)
    ensures Counted(flu, row, parseInt)
  {
    var s :| s in joined.items && RowFrom(joined, s, row, parseInt);
    AggregateSums(Empty(), flu, parseInt, s, row.county);
    assert row.values[0] == RecordNumbers(joined.items[s][row.county])[0];
    assert CountedFor(flu, s, row, parseInt);
  }

  /** `row` counts the influenza rows `flu` for some season. */
  ghost predicate Counted(flu: seq<Row>, row: OutRow, parseInt: IntParser) {
    exists s :: CountedFor(flu, s, row, parseInt)
  }

  /** Every row of `rows` counts the influenza rows `flu` for some season. */
  ghost predicate AllCounted(flu: seq<Row>, rows: seq<OutRow>, parseInt: IntParser) {
    forall k :: 0 <= k < |rows| ==> Counted(flu, rows[k], parseInt)
  }

  lemma JoinedRowsCounted(flu: seq<Row>, cases: Seasons, joined: Seasons, rows: seq<OutRow>, parseInt: IntParser)
    requires Aggregate(Empty(), flu, parseInt) == Ok(cases)
    requires SameShape(cases, joined)
    requires forall k :: 0 <= k < |rows| ==> FromSomeSeason(joined, rows[k], parseInt)
    ensures AllFluRowsOk(flu, parseInt)
    ensures AllCounted(flu, rows, parseInt)
  {
    AggregateFails(Empty(), flu, parseInt);
    forall k | 0 <= k < |rows|
      ensures Counted(flu, rows[k], parseInt)
    {
      RowCounted(flu, cases, joined, rows[k], parseInt);
    }
  }

  /** Every row of the output stands for a season of the influenza file
      `flu` whose counts for the row's county it sums, whatever the
      population and SVI inputs. */
  lemma OutputCounts(flu: Table, pop: Table, st: SviState, parseInt: IntParser, parseReal: RealParser)
    requires CasesOf(flu, parseInt).Ok?
    requires PopulationOf(CasesOf(flu, parseInt).value, pop, parseInt).Ok?
    requires Emitted(PopulationOf(CasesOf(flu, parseInt).value, pop, parseInt).value, st, parseInt, parseReal).Ok?
    ensures |flu| > 0 && AllFluRowsOk(flu[1..], parseInt)
    ensures var rows := Emitted(PopulationOf(CasesOf(flu, parseInt).value, pop, parseInt).value, st, parseInt, parseReal).value.rows;
      AllCounted(flu[1..], rows, parseInt)
  {
    var cases := CasesOf(flu, parseInt).value;
    var joined := PopulationOf(cases, pop, parseInt).value;
    JoinAllShape(cases, pop[1..], parseInt);
    EmittedFrom(joined, st, parseInt, parseReal);
    JoinedRowsCounted(flu[1..], cases, joined, Emitted(joined, st, parseInt, parseReal).value.rows, parseInt);
  }

  /** The script (src/datasort.py:1-136). */
  method Fuse(args: seq<string>, files: Files, parseInt: IntParser, parseReal: RealParser) returns (o: Outcome)
    ensures o == Run(args, files, parseInt, parseReal)
  {
    var inv := ParseArgs(args);
    if inv.ShowUsage? {
      return Usage(inv.lines, inv.exitStatus);
    }
    var flu := Open(files, inv.influenza);
    if flu.Err? {
      return Crash(flu.error);
    }
    var cases := LoadInfluenza(flu.value, parseInt);
    if cases.Err? {
      return Crash(cases.error);
    }
    var pop := Open(files, inv.population);
    if pop.Err? {
      return Crash(pop.error);
    }
    var joined := LoadPopulation(cases.value, pop.value, parseInt);
    if joined.Err? {
      return Crash(joined.error);
    }
    CsvOnlyAllCsv(args[2..]);
    var st := LoadSvi(inv.svi, files, parseInt);
    if st.Err? {
      return Crash(st.error);
    }
    var out := Emit(joined.value, st.value, parseInt, parseReal);
    if out.Err? {
      return Crash(out.error);
    }
    return Written(OutputPath, out.value);
  }
}
