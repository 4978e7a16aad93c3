/** Last step of the fusion: the output rows, seasons ascending and counties
    ascending within a season, one row per record joined exactly once to a
    population and found in the SVI data of its year. */
module FusionEmit {
  import opened Outcomes
  import opened PyText
  import opened Sorting
  import opened PyDict
  import opened FusionCases
  import opened FusionPopulation
  import opened FusionSvi

  const FixedHeader: seq<string> := ["Year", "County", "Cases", "Population", "Percent"]

  /** A written data row: the year of the season, the county, then the
      numbers that follow (their decimal rendering is not modelled). */
  datatype OutRow = OutRow(year: int, county: string, values: seq<real>)

  /** The output file: the header row and the data rows. */
  datatype Emission = Emission(header: seq<string>, rows: seq<OutRow>)

  /** The value columns of the output, in sorted order. */
  function Columns(fs: FieldIndex): (r: seq<string>)
    ensures forall x :: x in r <==> x in FieldKeys(fs)
    ensures StrictlySorted(r, StrLt)
  {
    SortedStrings(FieldKeys(fs))
  }

  /** `float()` of a stored SVI value; the sentinel is the number -999999999. */
  function SviNumber(v: SviValue, parseReal: RealParser): Result<real> {
    match v
    case Missing => Ok(Sentinel as real)
    case Text(t) => if parseReal(t).None? then Err(ValueError) else Ok(parseReal(t).value)
  }

  /** The SVI numbers of one county for `columns[j..]`; a column the county
      has no value for raises KeyError. */
  function SviNumbers(fields: CountyFields, columns: seq<string>, j: nat, parseReal: RealParser): (r: Result<seq<real>>)
    requires j <= |columns|
    ensures r.Ok? ==> |r.value| == |columns| - j
    ensures r.Ok? ==> forall m :: j <= m < |columns| ==> columns[m] in fields
    ensures r.Ok? ==> forall m :: j <= m < |columns| ==> SviNumber(fields[columns[m]], parseReal) == Ok(r.value[m - j])
    decreases |columns| - j
  {
    if j == |columns| then Ok([])
    else if columns[j] !in fields then Err(KeyError)
    else
      match SviNumber(fields[columns[j]], parseReal)
      case Err(e) => Err(e)
      case Ok(x) =>
        match SviNumbers(fields, columns, j + 1, parseReal)
        case Err(e) => Err(e)
        case Ok(xs) => Ok([x] + xs)
  }

  /** The numbers of a record joined once: cases, population, percent. */
  function RecordNumbers(rec: CountyRecord): (r: seq<real>)
    requires |rec.joins| == 1
    ensures |r| == rec.Length()
  {
    [rec.cases as real, rec.joins[0].population as real, rec.joins[0].percent]
  }

  /** The SVI values of (year, county), if the SVI files had any. */
  predicate HasSvi(svi: SviYears, year: int, county: string) {
    year in svi && county in svi[year]
  }

  /** What the emission loop does for one (season, county): nothing unless
      the record has exactly three values; otherwise the year, the record
      and, when the SVI data has the county, its values; the row is written
      only when it then has one cell per header column. */
  function CountyRow(rec: CountyRecord, season: string, county: string, svi: SviYears, columns: seq<string>,
                     parseInt: IntParser, parseReal: RealParser): Result<Option<OutRow>>
  {
    if rec.Length() != 3 then Ok(None)
    else
      match parseInt(SeasonYearText(season))
      case None => Err(ValueError)
      case Some(year) =>
        var extra := if HasSvi(svi, year, county) then SviNumbers(svi[year][county], columns, 0, parseReal) else Ok([]);
        match extra
        case Err(e) => Err(e)
        case Ok(xs) =>
          var cells := 2 + |RecordNumbers(rec)| + |xs|;
          if cells == |FixedHeader| + |columns| then Ok(Some(OutRow(year, county, RecordNumbers(rec) + xs)))
          else Ok(None)
  }

  /** A county is written exactly when its record was joined to a population
      once and the SVI data of its year has it; the row then carries the
      record's three numbers followed by one value per column. */
  lemma CountyRowWritten(rec: CountyRecord, season: string, county: string, svi: SviYears, columns: seq<string>,
                         parseInt: IntParser, parseReal: RealParser)
    requires |columns| > 0
    requires CountyRow(rec, season, county, svi, columns, parseInt, parseReal).Ok?
    ensures var r := CountyRow(rec, season, county, svi, columns, parseInt, parseReal).value;
      r.Some? <==> rec.Length() == 3 && HasSvi(svi, parseInt(SeasonYearText(season)).value, county)
    ensures var r := CountyRow(rec, season, county, svi, columns, parseInt, parseReal).value;
      r.Some? ==>
        && r.value.county == county
        && Some(r.value.year) == parseInt(SeasonYearText(season))
        && |r.value.values| == 3 + |columns|
        && r.value.values[..3] == [rec.cases as real, rec.joins[0].population as real, rec.joins[0].percent]
        && forall m :: 0 <= m < |columns| ==>
             SviNumber(svi[r.value.year][county][columns[m]], parseReal) == Ok(r.value.values[3 + m])
  {
    var r := CountyRow(rec, season, county, svi, columns, parseInt, parseReal).value;
    if r.Some? {
      var xs := r.value.values[3..];
      assert r.value.values == RecordNumbers(rec) + xs;
    }
  }

  /** A field never located in a file is written as -999999999, not left out. */
  lemma SentinelWritten(parseReal: RealParser)
    ensures SviNumber(Missing, parseReal) == Ok(-999999999.0)
  {
  }

  predicate Width(rows: seq<OutRow>, columns: seq<string>) {
    forall k :: 0 <= k < |rows| ==> |rows[k].values| == 3 + |columns|
  }

  /** The rows for `counties[i..]` of one season. */
  function EmitCounties(ys: Seasons, season: string, counties: seq<string>, i: nat, svi: SviYears, columns: seq<string>,
                        parseInt: IntParser, parseReal: RealParser): (r: Result<seq<OutRow>>)
    requires season in ys.items && i <= |counties|
    requires forall c :: c in counties ==> c in ys.items[season]
    ensures r.Ok? ==> Width(r.value, columns)
    decreases |counties| - i
  {
    if i == |counties| then Ok([])
    else
      match CountyRow(ys.items[season][counties[i]], season, counties[i], svi, columns, parseInt, parseReal)
      case Err(e) => Err(e)
      case Ok(o) =>
        match EmitCounties(ys, season, counties, i + 1, svi, columns, parseInt, parseReal)
        case Err(e) => Err(e)
        case Ok(rest) => Ok((if o.Some? then [o.value] else []) + rest)
  }

  /** The rows for `seasons[i..]`, each season's counties in sorted order. */
  function EmitSeasons(ys: Seasons, seasons: seq<string>, i: nat, svi: SviYears, columns: seq<string>,
                       parseInt: IntParser, parseReal: RealParser): (r: Result<seq<OutRow>>)
    requires i <= |seasons| && forall s :: s in seasons ==> s in ys.items
    ensures r.Ok? ==> Width(r.value, columns)
    decreases |seasons| - i
  {
    if i == |seasons| then Ok([])
    else
      var counties := SortedStrings(ys.items[seasons[i]].Keys);
      match EmitCounties(ys, seasons[i], counties, 0, svi, columns, parseInt, parseReal)
      case Err(e) => Err(e)
      case Ok(rows) =>
        match EmitSeasons(ys, seasons, i + 1, svi, columns, parseInt, parseReal)
        case Err(e) => Err(e)
        case Ok(rest) => Ok(rows + rest)
  }

  /** One step of the county loop. */
  lemma EmitCountiesStep(ys: Seasons, season: string, counties: seq<string>, i: nat, svi: SviYears, columns: seq<string>,
                         parseInt: IntParser, parseReal: RealParser)
    requires season in ys.items && i < |counties|
    requires forall c :: c in counties ==> c in ys.items[season]
    ensures var line := CountyRow(ys.items[season][counties[i]], season, counties[i], svi, columns, parseInt, parseReal);
      var r := EmitCounties(ys, season, counties, i, svi, columns, parseInt, parseReal);
      && (line.Err? ==> r == Err(line.error))
      && (line.Ok? ==> r == Prefixed(if line.value.Some? then [line.value.value] else [],
                                     EmitCounties(ys, season, counties, i + 1, svi, columns, parseInt, parseReal)))
  {
  }

  /** One step of the season loop. */
  lemma EmitSeasonsStep(ys: Seasons, seasons: seq<string>, i: nat, svi: SviYears, columns: seq<string>,
                        parseInt: IntParser, parseReal: RealParser)
    requires i < |seasons| && forall s :: s in seasons ==> s in ys.items
    ensures var here := EmitCounties(ys, seasons[i], SortedStrings(ys.items[seasons[i]].Keys), 0, svi, columns, parseInt, parseReal);
      var r := EmitSeasons(ys, seasons, i, svi, columns, parseInt, parseReal);
      && (here.Err? ==> r == Err(here.error))
      && (here.Ok? ==> r == Prefixed(here.value, EmitSeasons(ys, seasons, i + 1, svi, columns, parseInt, parseReal)))
  {
  }

  /** `row` was written for record (season, row.county) of `ys`: that
      record was joined once, and the row starts with its three numbers. */
  predicate RowFrom(ys: Seasons, season: string, row: OutRow, parseInt: IntParser) {
    && season in ys.items && row.county in ys.items[season]
    && ys.items[season][row.county].Length() == 3
    && Some(row.year) == parseInt(SeasonYearText(season))
    && |row.values| >= 3
    && row.values[..3] == RecordNumbers(ys.items[season][row.county])
  }

  predicate FromSomeSeason(ys: Seasons, row: OutRow, parseInt: IntParser) {
    exists s :: s in ys.items && RowFrom(ys, s, row, parseInt)
  }

  lemma CountyRowFrom(ys: Seasons, season: string, county: string, svi: SviYears, columns: seq<string>,
                      parseInt: IntParser, parseReal: RealParser)
    requires season in ys.items && county in ys.items[season]
    requires CountyRow(ys.items[season][county], season, county, svi, columns, parseInt, parseReal).Ok?
    ensures var o := CountyRow(ys.items[season][county], season, county, svi, columns, parseInt, parseReal).value;
      o.Some? ==> o.value.county == county && RowFrom(ys, season, o.value, parseInt)
  {
    var rec := ys.items[season][county];
    var o := CountyRow(rec, season, county, svi, columns, parseInt, parseReal).value;
    if o.Some? {
      assert o.value.values[..3] == RecordNumbers(rec);
    }
  }

  /** Every row of one season's output comes from a record of that season. */
  lemma {:induction false} EmitCountiesFrom(ys: Seasons, season: string, counties: seq<string>, i: nat, svi: SviYears,
                                            columns: seq<string>, parseInt: IntParser, parseReal: RealParser)
    requires season in ys.items && i <= |counties|
    requires forall c :: c in counties ==> c in ys.items[season]
    requires EmitCounties(ys, season, counties, i, svi, columns, parseInt, parseReal).Ok?
    ensures var rows := EmitCounties(ys, season, counties, i, svi, columns, parseInt, parseReal).value;
      forall k :: 0 <= k < |rows| ==> RowFrom(ys, season, rows[k], parseInt)
    decreases |counties| - i
  {
    if i < |counties| {
      EmitCountiesStep(ys, season, counties, i, svi, columns, parseInt, parseReal);
      CountyRowFrom(ys, season, counties[i], svi, columns, parseInt, parseReal);
      EmitCountiesFrom(ys, season, counties, i + 1, svi, columns, parseInt, parseReal);
      var line := CountyRow(ys.items[season][counties[i]], season, counties[i], svi, columns, parseInt, parseReal).value;
      var first := if line.Some? then [line.value] else [];
      var rest := EmitCounties(ys, season, counties, i + 1, svi, columns, parseInt, parseReal).value;
      var rows := EmitCounties(ys, season, counties, i, svi, columns, parseInt, parseReal).value;
      assert rows == first + rest;
      RowsFromAppend(ys, season, first, rest, parseInt);
    }
  }

  lemma RowsFromAppend(ys: Seasons, season: string, first: seq<OutRow>, rest: seq<OutRow>, parseInt: IntParser)
    requires forall k :: 0 <= k < |first| ==> RowFrom(ys, season, first[k], parseInt)
    requires forall k :: 0 <= k < |rest| ==> RowFrom(ys, season, rest[k], parseInt)
    ensures forall k :: 0 <= k < |first + rest| ==> RowFrom(ys, season, (first + rest)[k], parseInt)
  {
    forall k | 0 <= k < |first + rest|
      ensures RowFrom(ys, season, (first + rest)[k], parseInt)
    {
      if k >= |first| {
        assert (first + rest)[k] == rest[k - |first|];
      }
    }
  }

  /** Every row of the output comes from a record of some season. */
  lemma {:induction false} EmitSeasonsFrom(ys: Seasons, seasons: seq<string>, i: nat, svi: SviYears, columns: seq<string>,
                                           parseInt: IntParser, parseReal: RealParser)
    requires i <= |seasons| && forall s :: s in seasons ==> s in ys.items
    requires EmitSeasons(ys, seasons, i, svi, columns, parseInt, parseReal).Ok?
    ensures var rows := EmitSeasons(ys, seasons, i, svi, columns, parseInt, parseReal).value;
      forall k :: 0 <= k < |rows| ==> FromSomeSeason(ys, rows[k], parseInt)
    decreases |seasons| - i
  {
    if i < |seasons| {
      var counties := SortedStrings(ys.items[seasons[i]].Keys);
      EmitSeasonsStep(ys, seasons, i, svi, columns, parseInt, parseReal);
      EmitCountiesFrom(ys, seasons[i], counties, 0, svi, columns, parseInt, parseReal);
      EmitSeasonsFrom(ys, seasons, i + 1, svi, columns, parseInt, parseReal);
      var here := EmitCounties(ys, seasons[i], counties, 0, svi, columns, parseInt, parseReal).value;
      var rows := EmitSeasons(ys, seasons, i, svi, columns, parseInt, parseReal).value;
      forall k | 0 <= k < |rows|
        ensures FromSomeSeason(ys, rows[k], parseInt)
      {
        if k < |here| {
          assert RowFrom(ys, seasons[i], rows[k], parseInt);
        } else {
          assert rows[k] == EmitSeasons(ys, seasons, i + 1, svi, columns, parseInt, parseReal).value[k - |here|];
        }
      }
    }
  }

  /** Every written row is the record of one (season, county) joined to a
      population exactly once: its year is the season's and its first three
      numbers are that record's cases, population and percent. */
  lemma EmittedFrom(ys: Seasons, st: SviState, parseInt: IntParser, parseReal: RealParser)
    requires Emitted(ys, st, parseInt, parseReal).Ok?
    ensures var e := Emitted(ys, st, parseInt, parseReal).value;
      forall k :: 0 <= k < |e.rows| ==> FromSomeSeason(ys, e.rows[k], parseInt)
  {
    EmitSeasonsFrom(ys, SortedStrings(ys.items.Keys), 0, st.years, Columns(st.fields), parseInt, parseReal);
  }

  /** Whether the emission loop writes a row for (season, county): the
      record was joined once, the season's year reads as a number, and the
      SVI data of that year has the county (or there are no value columns,
      when the row is as wide as the header without it). */
  predicate Writes(ys: Seasons, season: string, county: string, svi: SviYears, columns: seq<string>,
                   parseInt: IntParser)
    requires season in ys.items && county in ys.items[season]
  {
    && ys.items[season][county].Length() == 3
    && parseInt(SeasonYearText(season)).Some?
    && (|columns| == 0 || HasSvi(svi, parseInt(SeasonYearText(season)).value, county))
  }

  /** The counties of a season that get a row. */
  function WritingCounties(ys: Seasons, season: string, svi: SviYears, columns: seq<string>,
                           parseInt: IntParser): set<string>
    requires season in ys.items
  {
    set c | c in ys.items[season] && Writes(ys, season, c, svi, columns, parseInt)
  }

  /** The elements of `xs[i..]` that are in `keep`, in order. */
  function Kept(xs: seq<string>, keep: set<string>, i: nat): seq<string>
    requires i <= |xs|
    decreases |xs| - i
  {
    if i == |xs| then [] else (if xs[i] in keep then [xs[i]] else []) + Kept(xs, keep, i + 1)
  }

  /** Each county of `blocks[j]` paired with `seasons[j]`, block after
      block from `i` on. */
  function Flatten(seasons: seq<string>, blocks: seq<seq<string>>, i: nat): seq<(string, string)>
    requires |blocks| == |seasons| && i <= |seasons|
    decreases |seasons| - i
  {
    if i == |seasons| then [] else Tagged(seasons[i], blocks[i]) + Flatten(seasons, blocks, i + 1)
  }

  /** For each season, the counties that get a row, in sorted order. */
  function WrittenBlocks(ys: Seasons, seasons: seq<string>, svi: SviYears, columns: seq<string>,
                         parseInt: IntParser): (r: seq<seq<string>>)
    requires forall s :: s in seasons ==> s in ys.items
    ensures |r| == |seasons|
    ensures forall j :: 0 <= j < |seasons| ==>
      r[j] == Kept(SortedStrings(ys.items[seasons[j]].Keys), WritingCounties(ys, seasons[j], svi, columns, parseInt), 0)
  {
    seq(|seasons|, j requires 0 <= j < |seasons| =>
      Kept(SortedStrings(ys.items[seasons[j]].Keys), WritingCounties(ys, seasons[j], svi, columns, parseInt), 0))
  }

  /** The (season, county) pairs that get a row, in the order the rows
      are written: seasons in sorted order, each season's counties sorted. */
  function WrittenPairs(ys: Seasons, svi: SviYears, columns: seq<string>, parseInt: IntParser): seq<(string, string)> {
    var seasons := SortedStrings(ys.items.Keys);
    Flatten(seasons, WrittenBlocks(ys, seasons, svi, columns, parseInt), 0)
  }

  /** Each county paired with its season. */
  function Tagged(season: string, counties: seq<string>): (r: seq<(string, string)>)
    ensures |r| == |counties| && forall k :: 0 <= k < |r| ==> r[k] == (season, counties[k])
  {
    seq(|counties|, k requires 0 <= k < |counties| => (season, counties[k]))
  }

  /** Season first, then county, both as Python compares strings. */
  predicate PairLt(p: (string, string), q: (string, string)) {
    StrLt(p.0, q.0) || (p.0 == q.0 && StrLt(p.1, q.1))
  }

  /** An element is kept exactly when it is in the list and in `keep`. */
  lemma {:induction false} KeptMembers(xs: seq<string>, keep: set<string>, i: nat)
    requires i <= |xs|
    ensures forall c :: c in Kept(xs, keep, i) <==> c in xs[i..] && c in keep
    decreases |xs| - i
  {
    if i < |xs| {
      KeptMembers(xs, keep, i + 1);
      assert xs[i..] == [xs[i]] + xs[i + 1..];
    }
  }

  /** What is kept keeps the order of the list it is drawn from. */
  lemma {:induction false} KeptSorted(xs: seq<string>, keep: set<string>, i: nat)
    requires i <= |xs| && StrictlySorted(xs, StrLt)
    ensures StrictlySorted(Kept(xs, keep, i), StrLt)
    decreases |xs| - i
  {
    if i < |xs| {
      KeptSorted(xs, keep, i + 1);
      var rest := Kept(xs, keep, i + 1);
      if xs[i] in keep {
        SortedHead(xs, i);
        KeptAbove(xs, keep, i + 1, xs[i]);
        SortedCons(xs[i], rest);
      } else {
        assert Kept(xs, keep, i) == [] + rest;
      }
    }
  }

  /** A string below every element from `i` on is below everything kept. */
  lemma {:induction false} KeptAbove(xs: seq<string>, keep: set<string>, i: nat, x: string)
    requires i <= |xs|
    requires forall m :: i <= m < |xs| ==> StrLt(x, xs[m])
    ensures forall y :: y in Kept(xs, keep, i) ==> StrLt(x, y)
    decreases |xs| - i
  {
    if i < |xs| {
      KeptAbove(xs, keep, i + 1, x);
    }
  }

  lemma SortedHead(s: seq<string>, i: nat)
    requires StrictlySorted(s, StrLt) && i < |s|
    ensures forall m :: i < m < |s| ==> StrLt(s[i], s[m])
  {
  }

  /** A string below every element of a sorted list keeps it sorted in front. */
  lemma SortedCons(x: string, rest: seq<string>)
    requires StrictlySorted(rest, StrLt)
    requires forall y :: y in rest ==> StrLt(x, y)
    ensures StrictlySorted([x] + rest, StrLt)
  {
    var w := [x] + rest;
    forall a, b | 0 <= a < b < |w|
      ensures StrLt(w[a], w[b])
    {
      assert w[b] == rest[b - 1];
      if a > 0 {
        assert w[a] == rest[a - 1];
      }
    }
  }

  /** A pair is in the flattening exactly when its county is in the block
      of a season equal to its season. */
  lemma {:induction false} FlattenMembers(seasons: seq<string>, blocks: seq<seq<string>>, i: nat)
    requires |blocks| == |seasons| && i <= |seasons|
    ensures forall s, c :: (s, c) in Flatten(seasons, blocks, i) <==>
      exists j :: i <= j < |seasons| && seasons[j] == s && c in blocks[j]
    decreases |seasons| - i
  {
    if i < |seasons| {
      FlattenMembers(seasons, blocks, i + 1);
      var here := Tagged(seasons[i], blocks[i]);
      forall s, c
        ensures (s, c) in here <==> seasons[i] == s && c in blocks[i]
      {
        if (s, c) in here {
          var k :| 0 <= k < |here| && here[k] == (s, c);
        }
        if seasons[i] == s && c in blocks[i] {
          var k :| 0 <= k < |blocks[i]| && blocks[i][k] == c;
          assert here[k] == (s, c);
        }
      }
    }
  }

  /** A string below every season from `i` on is below the season of every
      pair of the flattening. */
  lemma {:induction false} FlattenAbove(seasons: seq<string>, blocks: seq<seq<string>>, i: nat, x: string)
    requires |blocks| == |seasons| && i <= |seasons|
    requires forall m :: i <= m < |seasons| ==> StrLt(x, seasons[m])
    ensures forall k :: 0 <= k < |Flatten(seasons, blocks, i)| ==> StrLt(x, Flatten(seasons, blocks, i)[k].0)
    decreases |seasons| - i
  {
    if i < |seasons| {
      FlattenAbove(seasons, blocks, i + 1, x);
      var here := Tagged(seasons[i], blocks[i]);
      var rest := Flatten(seasons, blocks, i + 1);
      var p: seq<(string, string)> := here + rest;
      assert StrLt(x, seasons[i]);
      forall k | 0 <= k < |p|
        ensures StrLt(x, p[k].0)
      {
        if k < |here| {
          assert p[k] == here[k] == (seasons[i], blocks[i][k]);
        } else {
          assert p[k] == rest[k - |here|];
        }
      }
    }
  }

  /** Sorted seasons with sorted blocks flatten to pairs sorted by season,
      then county. */
  lemma {:induction false} FlattenSorted(seasons: seq<string>, blocks: seq<seq<string>>, i: nat)
    requires |blocks| == |seasons| && i <= |seasons|
    requires StrictlySorted(seasons, StrLt)
    requires forall j :: 0 <= j < |blocks| ==> StrictlySorted(blocks[j], StrLt)
    ensures forall a, b :: 0 <= a < b < |Flatten(seasons, blocks, i)| ==>
      PairLt(Flatten(seasons, blocks, i)[a], Flatten(seasons, blocks, i)[b])
    decreases |seasons| - i
  {
    if i < |seasons| {
      FlattenSorted(seasons, blocks, i + 1);
      FlattenAbove(seasons, blocks, i + 1, seasons[i]);
      var here := Tagged(seasons[i], blocks[i]);
      var rest := Flatten(seasons, blocks, i + 1);
      var p := here + rest;
      forall a, b | 0 <= a < b < |p|
        ensures PairLt(p[a], p[b])
      {
        if b < |here| {
          assert p[a] == here[a] == (seasons[i], blocks[i][a]);
          assert p[b] == here[b] == (seasons[i], blocks[i][b]);
          assert StrictlySorted(blocks[i], StrLt);
        } else if a < |here| {
          assert p[a] == here[a] == (seasons[i], blocks[i][a]);
          assert p[b] == rest[b - |here|];
          assert StrLt(seasons[i], rest[b - |here|].0);
        } else {
          assert p[a] == rest[a - |here|] && p[b] == rest[b - |here|];
        }
      }
    }
  }

  /** A (season, county) pair is written exactly when the season is one of
      the records' seasons, the county one of its records, and that record
      gets a row. */
  lemma WrittenPairsMembers(ys: Seasons, svi: SviYears, columns: seq<string>, parseInt: IntParser)
    ensures forall s, c :: (s, c) in WrittenPairs(ys, svi, columns, parseInt) <==>
      s in ys.items && c in ys.items[s] && Writes(ys, s, c, svi, columns, parseInt)
  {
    var seasons := SortedStrings(ys.items.Keys);
    var blocks := WrittenBlocks(ys, seasons, svi, columns, parseInt);
    assert WrittenPairs(ys, svi, columns, parseInt) == Flatten(seasons, blocks, 0);
    FlattenMembers(seasons, blocks, 0);
    forall s, c
      ensures (exists j :: 0 <= j < |seasons| && seasons[j] == s && c in blocks[j]) <==>
        s in ys.items && c in ys.items[s] && Writes(ys, s, c, svi, columns, parseInt)
    {
      if s in ys.items {
        var j :| 0 <= j < |seasons| && seasons[j] == s;
        forall j' | 0 <= j' < |seasons| && seasons[j'] == s
          ensures c in blocks[j'] <==> c in ys.items[s] && Writes(ys, s, c, svi, columns, parseInt)
        {
          BlockMembers(ys, s, svi, columns, parseInt);
        }
      }
    }
  }

  /** The block of a season holds exactly its counties that get a row. */
  lemma BlockMembers(ys: Seasons, season: string, svi: SviYears, columns: seq<string>, parseInt: IntParser)
    requires season in ys.items
    ensures forall c ::
      c in Kept(SortedStrings(ys.items[season].Keys), WritingCounties(ys, season, svi, columns, parseInt), 0)
      <==> c in ys.items[season] && Writes(ys, season, c, svi, columns, parseInt)
  {
    var sorted := SortedStrings(ys.items[season].Keys);
    KeptMembers(sorted, WritingCounties(ys, season, svi, columns, parseInt), 0);
    assert sorted[0..] == sorted;
  }

  /** The written pairs are in ascending order of season, then county. */
  lemma WrittenPairsSorted(ys: Seasons, svi: SviYears, columns: seq<string>, parseInt: IntParser)
    ensures forall a, b :: 0 <= a < b < |WrittenPairs(ys, svi, columns, parseInt)| ==>
      PairLt(WrittenPairs(ys, svi, columns, parseInt)[a], WrittenPairs(ys, svi, columns, parseInt)[b])
  {
    var seasons := SortedStrings(ys.items.Keys);
    var blocks := WrittenBlocks(ys, seasons, svi, columns, parseInt);
    forall j | 0 <= j < |blocks|
      ensures StrictlySorted(blocks[j], StrLt)
    {
      KeptSorted(SortedStrings(ys.items[seasons[j]].Keys), WritingCounties(ys, seasons[j], svi, columns, parseInt), 0);
    }
    FlattenSorted(seasons, blocks, 0);
  }

  /** CountyRow writes a row exactly for the records Writes picks out. */
  lemma CountyRowWrites(ys: Seasons, season: string, county: string, svi: SviYears, columns: seq<string>,
                        parseInt: IntParser, parseReal: RealParser)
    requires season in ys.items && county in ys.items[season]
    requires CountyRow(ys.items[season][county], season, county, svi, columns, parseInt, parseReal).Ok?
    ensures CountyRow(ys.items[season][county], season, county, svi, columns, parseInt, parseReal).value.Some?
      <==> county in WritingCounties(ys, season, svi, columns, parseInt)
  {
    var rec := ys.items[season][county];
    if rec.Length() == 3 {
      var year := parseInt(SeasonYearText(season)).value;
      if HasSvi(svi, year, county) {
        var xs := SviNumbers(svi[year][county], columns, 0, parseReal);
        assert xs.Ok? && |xs.value| == |columns|;
      }
    }
  }

  /** The cells of `row` after its first three are the SVI numbers of its
      year and county, one per column in column order. */
  predicate SviCells(svi: SviYears, columns: seq<string>, row: OutRow, parseReal: RealParser) {
    && |row.values| == 3 + |columns|
    && forall m :: 0 <= m < |columns| ==>
         && HasSvi(svi, row.year, row.county)
         && columns[m] in svi[row.year][row.county]
         && SviNumber(svi[row.year][row.county][columns[m]], parseReal) == Ok(row.values[3 + m])
  }

  /** A row CountyRow writes carries the SVI numbers of its year and county. */
  lemma CountyRowSvi(rec: CountyRecord, season: string, county: string, svi: SviYears, columns: seq<string>,
                     parseInt: IntParser, parseReal: RealParser)
    requires CountyRow(rec, season, county, svi, columns, parseInt, parseReal).Ok?
    requires CountyRow(rec, season, county, svi, columns, parseInt, parseReal).value.Some?
    ensures SviCells(svi, columns, CountyRow(rec, season, county, svi, columns, parseInt, parseReal).value.value, parseReal)
  {
    var row := CountyRow(rec, season, county, svi, columns, parseInt, parseReal).value.value;
    var xs := row.values[3..];
    assert row.values == RecordNumbers(rec) + xs;
    if |columns| > 0 {
      assert HasSvi(svi, row.year, county);
      assert Ok(xs) == SviNumbers(svi[row.year][county], columns, 0, parseReal);
    }
  }

  /** `rows` are the rows written for `pairs`, one each and in that order:
      row k has the county of pair k, is drawn from its season's record and
      ends with the SVI numbers of its year and county. */
  predicate RowsFollow(ys: Seasons, svi: SviYears, columns: seq<string>, rows: seq<OutRow>,
                       pairs: seq<(string, string)>, parseInt: IntParser, parseReal: RealParser) {
    && |rows| == |pairs|
    && forall k :: 0 <= k < |rows| ==>
         && rows[k].county == pairs[k].1
         && RowFrom(ys, pairs[k].0, rows[k], parseInt)
         && SviCells(svi, columns, rows[k], parseReal)
  }

  /** One season's rows are written for its kept counties, in order. */
  lemma {:induction false} EmitCountiesKept(ys: Seasons, season: string, counties: seq<string>, i: nat, svi: SviYears,
                                            columns: seq<string>, parseInt: IntParser, parseReal: RealParser)
    requires season in ys.items && i <= |counties|
    requires forall c :: c in counties ==> c in ys.items[season]
    requires EmitCounties(ys, season, counties, i, svi, columns, parseInt, parseReal).Ok?
    ensures RowsFollow(ys, svi, columns, EmitCounties(ys, season, counties, i, svi, columns, parseInt, parseReal).value,
                       Tagged(season, Kept(counties, WritingCounties(ys, season, svi, columns, parseInt), i)),
                       parseInt, parseReal)
    decreases |counties| - i
  {
    if i < |counties| {
      var keep := WritingCounties(ys, season, svi, columns, parseInt);
      var c := counties[i];
      EmitCountiesStep(ys, season, counties, i, svi, columns, parseInt, parseReal);
      CountyRowFollows(ys, season, c, svi, columns, parseInt, parseReal);
      EmitCountiesKept(ys, season, counties, i + 1, svi, columns, parseInt, parseReal);
      var line := CountyRow(ys.items[season][c], season, c, svi, columns, parseInt, parseReal).value;
      var first := Optional(line);
      var head := if c in keep then [c] else [];
      assert Kept(counties, keep, i) == head + Kept(counties, keep, i + 1);
      FollowAppend(ys, svi, columns, first, EmitCounties(ys, season, counties, i + 1, svi, columns, parseInt, parseReal).value,
                   Tagged(season, head), Tagged(season, Kept(counties, keep, i + 1)), parseInt, parseReal);
      TaggedAppend(season, head, Kept(counties, keep, i + 1));
      assert EmitCounties(ys, season, counties, i, svi, columns, parseInt, parseReal).value
        == first + EmitCounties(ys, season, counties, i + 1, svi, columns, parseInt, parseReal).value;
    }
  }

  lemma TaggedAppend(season: string, a: seq<string>, b: seq<string>)
    ensures Tagged(season, a) + Tagged(season, b) == Tagged(season, a + b)
  {
    var l, r := Tagged(season, a) + Tagged(season, b), Tagged(season, a + b);
    forall k | 0 <= k < |l| ensures l[k] == r[k] {
      if k < |a| { assert l[k] == Tagged(season, a)[k]; } else { assert l[k] == Tagged(season, b)[k - |a|]; }
    }
  }

  /** The row, if any, that CountyRow writes for one county follows that
      county when it is one that gets a row, and nothing otherwise. */
  lemma CountyRowFollows(ys: Seasons, season: string, county: string, svi: SviYears, columns: seq<string>,
                         parseInt: IntParser, parseReal: RealParser)
    requires season in ys.items && county in ys.items[season]
    requires CountyRow(ys.items[season][county], season, county, svi, columns, parseInt, parseReal).Ok?
    ensures RowsFollow(ys, svi, columns,
                       Optional(CountyRow(ys.items[season][county], season, county, svi, columns, parseInt, parseReal).value),
                       Tagged(season, if county in WritingCounties(ys, season, svi, columns, parseInt) then [county] else []),
                       parseInt, parseReal)
  {
    CountyRowWrites(ys, season, county, svi, columns, parseInt, parseReal);
    CountyRowFrom(ys, season, county, svi, columns, parseInt, parseReal);
    if CountyRow(ys.items[season][county], season, county, svi, columns, parseInt, parseReal).value.Some? {
      CountyRowSvi(ys.items[season][county], season, county, svi, columns, parseInt, parseReal);
    }
  }

  /** The list holding the value of `o`, if any. */
  function Optional<T>(o: Option<T>): (r: seq<T>)
    ensures |r| <= 1 && (o.Some? <==> |r| == 1) && (o.Some? ==> r[0] == o.value)
  {
    if o.Some? then [o.value] else []
  }

  /** Rows that follow two lists of pairs, one after the other, follow the
      two lists joined. */
  lemma FollowAppend(ys: Seasons, svi: SviYears, columns: seq<string>, rows1: seq<OutRow>, rows2: seq<OutRow>,
                     pairs1: seq<(string, string)>, pairs2: seq<(string, string)>, parseInt: IntParser, parseReal: RealParser)
    requires RowsFollow(ys, svi, columns, rows1, pairs1, parseInt, parseReal)
    requires RowsFollow(ys, svi, columns, rows2, pairs2, parseInt, parseReal)
    ensures RowsFollow(ys, svi, columns, rows1 + rows2, pairs1 + pairs2, parseInt, parseReal)
  {
    var rows, pairs := rows1 + rows2, pairs1 + pairs2;
    forall k | 0 <= k < |rows|
      ensures rows[k].county == pairs[k].1 && RowFrom(ys, pairs[k].0, rows[k], parseInt)
      ensures SviCells(svi, columns, rows[k], parseReal)
    {
      if k < |rows1| {
        assert rows[k] == rows1[k] && pairs[k] == pairs1[k];
      } else {
        assert rows[k] == rows2[k - |rows1|] && pairs[k] == pairs2[k - |rows1|];
      }
    }
  }

  /** The rows of the seasons from `i` on are written for the flattened
      blocks of counties that get a row, in order. */
  lemma {:induction false} EmitSeasonsFollow(ys: Seasons, seasons: seq<string>, i: nat, svi: SviYears,
                                             columns: seq<string>, parseInt: IntParser, parseReal: RealParser)
    requires i <= |seasons| && forall s :: s in seasons ==> s in ys.items
    requires EmitSeasons(ys, seasons, i, svi, columns, parseInt, parseReal).Ok?
    ensures RowsFollow(ys, svi, columns, EmitSeasons(ys, seasons, i, svi, columns, parseInt, parseReal).value,
                       Flatten(seasons, WrittenBlocks(ys, seasons, svi, columns, parseInt), i), parseInt, parseReal)
    decreases |seasons| - i
  {
    if i < |seasons| {
      var season := seasons[i];
      var sorted := SortedStrings(ys.items[season].Keys);
      var blocks := WrittenBlocks(ys, seasons, svi, columns, parseInt);
      EmitSeasonsStep(ys, seasons, i, svi, columns, parseInt, parseReal);
      EmitCountiesKept(ys, season, sorted, 0, svi, columns, parseInt, parseReal);
      EmitSeasonsFollow(ys, seasons, i + 1, svi, columns, parseInt, parseReal);
      var here := EmitCounties(ys, season, sorted, 0, svi, columns, parseInt, parseReal).value;
      var rest := EmitSeasons(ys, seasons, i + 1, svi, columns, parseInt, parseReal).value;
      assert blocks[i] == Kept(sorted, WritingCounties(ys, season, svi, columns, parseInt), 0);
      FollowAppend(ys, svi, columns, here, rest, Tagged(season, blocks[i]), Flatten(seasons, blocks, i + 1),
                   parseInt, parseReal);
    }
  }

  /** The output has one row for each (season, county) whose record was
      joined once and whose county the SVI data of its year has, and no
      other; each row is drawn from that record and ends with that county's
      SVI numbers, one per column; and the rows run through
      the seasons in ascending order and, within a season, through the
      counties in ascending order. */
  lemma EmittedRows(ys: Seasons, st: SviState, parseInt: IntParser, parseReal: RealParser)
    requires Emitted(ys, st, parseInt, parseReal).Ok?
    ensures RowsFollow(ys, st.years, Columns(st.fields), Emitted(ys, st, parseInt, parseReal).value.rows,
                       WrittenPairs(ys, st.years, Columns(st.fields), parseInt), parseInt, parseReal)
    ensures forall s, c :: (s, c) in WrittenPairs(ys, st.years, Columns(st.fields), parseInt) <==>
      s in ys.items && c in ys.items[s] && Writes(ys, s, c, st.years, Columns(st.fields), parseInt)
    ensures forall a, b :: 0 <= a < b < |WrittenPairs(ys, st.years, Columns(st.fields), parseInt)| ==>
      PairLt(WrittenPairs(ys, st.years, Columns(st.fields), parseInt)[a],
             WrittenPairs(ys, st.years, Columns(st.fields), parseInt)[b])
  {
    var columns := Columns(st.fields);
    var seasons := SortedStrings(ys.items.Keys);
    EmitSeasonsFollow(ys, seasons, 0, st.years, columns, parseInt, parseReal);
    WrittenPairsMembers(ys, st.years, columns, parseInt);
    WrittenPairsSorted(ys, st.years, columns, parseInt);
  }

  /** The whole output: the header, then the seasons in sorted order. */
  function Emitted(ys: Seasons, st: SviState, parseInt: IntParser, parseReal: RealParser): Result<Emission> {
    var columns := Columns(st.fields);
    match EmitSeasons(ys, SortedStrings(ys.items.Keys), 0, st.years, columns, parseInt, parseReal)
    case Err(e) => Err(e)
    case Ok(rows) => Ok(Emission(FixedHeader + columns, rows))
  }

  /** Every written row has one cell per header column: 5 plus the number
      of value fields. */
  lemma EmittedWidth(ys: Seasons, st: SviState, parseInt: IntParser, parseReal: RealParser)
    requires Emitted(ys, st, parseInt, parseReal).Ok?
    ensures var e := Emitted(ys, st, parseInt, parseReal).value;
      forall k :: 0 <= k < |e.rows| ==> 2 + |e.rows[k].values| == |e.header|
  {
  }

  /** The header names the five fixed columns, then every value field once,
      in ascending order. */
  lemma EmittedHeader(ys: Seasons, st: SviState, parseInt: IntParser, parseReal: RealParser)
    requires Emitted(ys, st, parseInt, parseReal).Ok?
    ensures var h := Emitted(ys, st, parseInt, parseReal).value.header;
      && h[..5] == FixedHeader
      && (forall x :: x in h[5..] <==> x in FieldKeys(st.fields))
      && StrictlySorted(h[5..], StrLt)
  {
    var h := Emitted(ys, st, parseInt, parseReal).value.header;
    assert h[5..] == Columns(st.fields);
  }

  /** The loop over the value columns for one county (src/datasort.py:132-134). */
  method AppendSvi(fields: CountyFields, columns: seq<string>, parseReal: RealParser) returns (r: Result<seq<real>>)
    ensures r == SviNumbers(fields, columns, 0, parseReal)
  {
    var out: seq<real> := [];
    var j := 0;
    PrefixedNil(SviNumbers(fields, columns, 0, parseReal));
    while j < |columns|
      invariant 0 <= j <= |columns|
      invariant SviNumbers(fields, columns, 0, parseReal) == Prefixed(out, SviNumbers(fields, columns, j, parseReal))
    {
      var key := columns[j];
      if key !in fields {
        return Err(KeyError);
      }
      var x := SviNumber(fields[key], parseReal);
      if x.Err? {
        return Err(x.error);
      }
      PrefixedTwice(out, [x.value], SviNumbers(fields, columns, j + 1, parseReal));
      out := out + [x.value];
      j := j + 1;
    }
    assert out + [] == out;
    return Ok(out);
  }

  /** The body of the county loop (src/datasort.py:127-136). */
  method CountyLine(rec: CountyRecord, season: string, county: string, svi: SviYears, columns: seq<string>,
                    parseInt: IntParser, parseReal: RealParser) returns (r: Result<Option<OutRow>>)
    ensures r == CountyRow(rec, season, county, svi, columns, parseInt, parseReal)
  {
    if rec.Length() != 3 {
      return Ok(None);
    }
    var targetYear := parseInt(Slice(season, Find(season, "-") + 1, |season|));
    if targetYear.None? {
      return Err(ValueError);
    }
    var towrite := RecordNumbers(rec);
    assert towrite + [] == towrite;
    if targetYear.value in svi {
      if county in svi[targetYear.value] {
        var extra := AppendSvi(svi[targetYear.value][county], columns, parseReal);
        if extra.Err? {
          return Err(extra.error);
        }
        towrite := towrite + extra.value;
      }
    }
    if 2 + |towrite| == |FixedHeader| + |columns| {
      return Ok(Some(OutRow(targetYear.value, county, towrite)));
    }
    return Ok(None);
  }

  /** The county loop of one season (src/datasort.py:124-136). */
  method EmitSeason(ys: Seasons, season: string, svi: SviYears, columns: seq<string>,
                    parseInt: IntParser, parseReal: RealParser) returns (r: Result<seq<OutRow>>)
    requires season in ys.items
    ensures r == EmitCounties(ys, season, SortedStrings(ys.items[season].Keys), 0, svi, columns, parseInt, parseReal)
  {
    var sortedCounties := SortedStrings(ys.items[season].Keys);
    var rows: seq<OutRow> := [];
    var i := 0;
    PrefixedNil(EmitCounties(ys, season, sortedCounties, 0, svi, columns, parseInt, parseReal));
    while i < |sortedCounties|
      invariant 0 <= i <= |sortedCounties|
      invariant EmitCounties(ys, season, sortedCounties, 0, svi, columns, parseInt, parseReal)
        == Prefixed(rows, EmitCounties(ys, season, sortedCounties, i, svi, columns, parseInt, parseReal))
    {
      var county := sortedCounties[i];
      var line := CountyLine(ys.items[season][county], season, county, svi, columns, parseInt, parseReal);
      EmitCountiesStep(ys, season, sortedCounties, i, svi, columns, parseInt, parseReal);
      if line.Err? {
        return Err(line.error);
      }
      var found := if line.value.Some? then [line.value.value] else [];
      PrefixedTwice(rows, found, EmitCounties(ys, season, sortedCounties, i + 1, svi, columns, parseInt, parseReal));
      rows := rows + found;
      i := i + 1;
    }
    assert rows + [] == rows;
    return Ok(rows);
  }

  /** The season loop (src/datasort.py:123-136). */
  method EmitAll(ys: Seasons, seasons: seq<string>, svi: SviYears, columns: seq<string>,
                 parseInt: IntParser, parseReal: RealParser) returns (r: Result<seq<OutRow>>)
    requires forall s :: s in seasons ==> s in ys.items
    ensures r == EmitSeasons(ys, seasons, 0, svi, columns, parseInt, parseReal)
  {
    var rows: seq<OutRow> := [];
    var i := 0;
    PrefixedNil(EmitSeasons(ys, seasons, 0, svi, columns, parseInt, parseReal));
    while i < |seasons|
      invariant 0 <= i <= |seasons|
      invariant EmitSeasons(ys, seasons, 0, svi, columns, parseInt, parseReal)
        == Prefixed(rows, EmitSeasons(ys, seasons, i, svi, columns, parseInt, parseReal))
    {
      var written := EmitSeason(ys, seasons[i], svi, columns, parseInt, parseReal);
      EmitSeasonsStep(ys, seasons, i, svi, columns, parseInt, parseReal);
      if written.Err? {
        return Err(written.error);
      }
      PrefixedTwice(rows, written.value, EmitSeasons(ys, seasons, i + 1, svi, columns, parseInt, parseReal));
      rows := rows + written.value;
      i := i + 1;
    }
    assert rows + [] == rows;
    return Ok(rows);
  }

  /** The output step (src/datasort.py:113-136). */
  method Emit(ys: Seasons, st: SviState, parseInt: IntParser, parseReal: RealParser) returns (r: Result<Emission>)
    ensures r == Emitted(ys, st, parseInt, parseReal)
  {
    var sortedyears := SortedStrings(ys.items.Keys);
    var fieldSortKeys := SortedStrings(st.fields.Keys - {StateField, CountyField});
    var header := FixedHeader + fieldSortKeys;
    var rows := EmitAll(ys, sortedyears, st.years, fieldSortKeys, parseInt, parseReal);
    if rows.Err? {
      return Err(rows.error);
    }
    return Ok(Emission(header, rows.value));
  }
}
