/** Second step of the fusion: each New York county row of the population
    file joins a population estimate to the influenza records of that county,
    one join per season whose year the estimates cover. */
module FusionPopulation {
  import opened Outcomes
  import opened PyText
  import opened PyDict
  import opened FusionCases

  /** Columns of the population file that the script reads: STNAME, CTYNAME
      and POPESTIMATE2010 .. POPESTIMATE2019. */
  const StateColumn := 5
  const NameColumn := 6
  const FirstEstimateColumn := 9
  const EstimateCount := 10
  const BaseYear := 2010

  /** The text after the first "-" of a season, or the whole season when it
      has no "-". */
  function SeasonYearText(season: string): (r: string)
    ensures Find(season, "-") == -1 ==> r == season
    ensures Find(season, "-") != -1 ==> season == season[..Find(season, "-")] + "-" + r
  {
    var k := Find(season, "-");
    assert k != -1 ==> season[k..k + 1] == "-";
    Slice(season, k + 1, |season|)
  }

  /** The position in the estimates that a season's year selects, if the year
      text is an integer. */
  function Offset(season: string, parseInt: IntParser): Option<int> {
    match parseInt(SeasonYearText(season))
    case None => None
    case Some(y) => Some(y - BaseYear)
  }

  predicate IsNewYorkCounty(row: Row)
    requires |row| > NameColumn
  {
    row[StateColumn] == "New York" && Contains(row[NameColumn], "County")
  }

  /** The join key of a county name: the text before the first "County",
      stripped and upper-cased. */
  function CountyKey(name: string): string
    requires Contains(name, "County")
  {
    Upper(Strip(name[..Find(name, "County")]))
  }

  /** A join key is already normalised: stripping and upper-casing it again
      changes nothing, and it holds no "County" text before where the name's
      first "County" was. */
  lemma CountyKeyNormalized(name: string)
    requires Contains(name, "County")
    ensures Upper(Strip(CountyKey(name))) == CountyKey(name)
  {
    NormalizeIdempotent(name[..Find(name, "County")]);
  }

  /** A record with one more join, if there is one. */
  function Attach(rec: CountyRecord, j: Option<PopJoin>): CountyRecord {
    match j
    case None => rec
    case Some(p) => rec.(joins := rec.joins + [p])
  }

  /** The join a qualifying row makes for one season: none, one, or the
      exception raised on the way. The year text is parsed for every season,
      the estimate only when the county has a record and the offset is below
      ten; a negative offset counts from the end of the estimates. */
  function SeasonJoin(ys: Seasons, season: string, key: string, estimates: seq<string>, parseInt: IntParser): Result<Option<PopJoin>>
    requires season in ys.items && |estimates| == EstimateCount
  {
    match Offset(season, parseInt)
    case None => Err(ValueError)
    case Some(cell) =>
      if key in ys.items[season] && cell < |estimates| then
        match PyIndex(estimates, cell)
        case None => Err(IndexError)
        case Some(text) =>
          match parseInt(text)
          case None => Err(ValueError)
          case Some(population) =>
            if population == 0 then Err(ZeroDivisionError)
            else Ok(Some(PopJoin(population, ys.items[season][key].cases as real / population as real)))
      else Ok(None)
  }

  /** `ys` with the record (season, key) given the join `j`. */
  function JoinAt(ys: Seasons, season: string, key: string, j: Option<PopJoin>): (r: Seasons)
    requires ys.Valid() && season in ys.items
    ensures r.Valid() && r.keys == ys.keys && r.items.Keys == ys.items.Keys
  {
    if j.Some? && key in ys.items[season] then
      ys.Put(season, ys.items[season][key := Attach(ys.items[season][key], j)])
    else ys
  }

  predicate AllIn(seasons: seq<string>, ys: Seasons) {
    forall i :: 0 <= i < |seasons| ==> seasons[i] in ys.items
  }

  lemma KeysAllIn(ys: Seasons)
    requires ys.Valid()
    ensures AllIn(ys.keys, ys)
  {
    forall i | 0 <= i < |ys.keys|
      ensures ys.keys[i] in ys.items
    {
      KeyAt(ys, i);
    }
  }

  /** The loop over the seasons for one qualifying row, from the `i`-th
      season on. */
  function JoinSeasons(ys: Seasons, seasons: seq<string>, i: nat, key: string, estimates: seq<string>, parseInt: IntParser): (r: Result<Seasons>)
    requires ys.Valid() && AllIn(seasons, ys) && i <= |seasons| && |estimates| == EstimateCount
    ensures r.Ok? ==> r.value.Valid() && r.value.keys == ys.keys && r.value.items.Keys == ys.items.Keys
    decreases |seasons| - i
  {
    if i == |seasons| then Ok(ys)
    else
      match SeasonJoin(ys, seasons[i], key, estimates, parseInt)
      case Err(e) => Err(e)
      case Ok(j) => JoinSeasons(JoinAt(ys, seasons[i], key, j), seasons, i + 1, key, estimates, parseInt)
  }

  /** One row of the population file. A row shorter than 19 cells raises
      IndexError whatever its state; other rows count only for a New York
      county. */
  function PopRow(ys: Seasons, row: Row, parseInt: IntParser): (r: Result<Seasons>)
    requires ys.Valid()
    ensures r.Ok? ==> r.value.Valid() && r.value.keys == ys.keys && r.value.items.Keys == ys.items.Keys
  {
    if |row| < FirstEstimateColumn + EstimateCount then Err(IndexError)
    else if IsNewYorkCounty(row) then
      KeysAllIn(ys);
      JoinSeasons(ys, ys.keys, 0, CountyKey(row[NameColumn]), row[FirstEstimateColumn..FirstEstimateColumn + EstimateCount], parseInt)
    else Ok(ys)
  }

  function JoinAll(ys: Seasons, rows: seq<Row>, parseInt: IntParser): (r: Result<Seasons>)
    requires ys.Valid()
    ensures r.Ok? ==> r.value.Valid() && r.value.keys == ys.keys && r.value.items.Keys == ys.items.Keys
    decreases |rows|
  {
    if rows == [] then Ok(ys)
    else
      match PopRow(ys, rows[0], parseInt)
      case Err(e) => Err(e)
      case Ok(next) => JoinAll(next, rows[1..], parseInt)
  }

  /** A row too short for the estimates raises IndexError. */
  lemma PopRowShort(ys: Seasons, row: Row, parseInt: IntParser)
    requires ys.Valid()
    ensures |row| < FirstEstimateColumn + EstimateCount ==> PopRow(ys, row, parseInt) == Err(IndexError)
  {
  }

  /** A long enough row joins its county when it is a New York county and
      leaves the seasons as they are otherwise. */
  lemma PopRowCases(ys: Seasons, row: Row, parseInt: IntParser)
    requires ys.Valid() && AllIn(ys.keys, ys) && |row| >= FirstEstimateColumn + EstimateCount
    ensures IsNewYorkCounty(row) ==>
      (PopRow(ys, row, parseInt) == JoinSeasons(ys, ys.keys, 0, CountyKey(row[NameColumn]),
         row[FirstEstimateColumn..FirstEstimateColumn + EstimateCount], parseInt))
    ensures !IsNewYorkCounty(row) ==> PopRow(ys, row, parseInt) == Ok(ys)
  {
  }

  /** Row `i` is joined, then the rows after it from what it gives. */
  lemma JoinAllStep(ys: Seasons, rows: seq<Row>, i: nat, parseInt: IntParser)
    requires ys.Valid() && i < |rows|
    ensures PopRow(ys, rows[i], parseInt).Err? ==>
      JoinAll(ys, rows[i..], parseInt) == Err(PopRow(ys, rows[i], parseInt).error)
    ensures PopRow(ys, rows[i], parseInt).Ok? ==>
      JoinAll(ys, rows[i..], parseInt) == JoinAll(PopRow(ys, rows[i], parseInt).value, rows[i + 1..], parseInt)
  {
    assert rows[i..][0] == rows[i] && rows[i..][1..] == rows[i + 1..];
  }

  /** The whole population file: the header row, then the rows in order. */
  function PopulationOf(ys: Seasons, table: Table, parseInt: IntParser): Result<Seasons>
    requires ys.Valid()
  {
    if |table| == 0 then Err(StopIteration) else JoinAll(ys, table[1..], parseInt)
  }

  /** `after` differs from `before` only by joins appended to existing
      records: the same seasons in the same order, the same counties and the
      same cases. */
  ghost predicate SameShape(before: Seasons, after: Seasons) {
    && after.keys == before.keys
    && after.items.Keys == before.items.Keys
    && (forall s :: s in before.items ==> after.items[s].Keys == before.items[s].Keys)
    && (forall s, c :: s in before.items && c in before.items[s] ==>
          after.items[s][c].cases == before.items[s][c].cases
          && before.items[s][c].joins <= after.items[s][c].joins)
  }

  lemma SameShapeTrans(a: Seasons, b: Seasons, c: Seasons)
    requires SameShape(a, b) && SameShape(b, c)
    ensures SameShape(a, c)
  {
    forall s, k | s in a.items && k in a.items[s]
      ensures c.items[s][k].cases == a.items[s][k].cases && a.items[s][k].joins <= c.items[s][k].joins
    {
      assert s in b.items && k in b.items[s];
    }
  }

  lemma JoinAtShape(ys: Seasons, season: string, key: string, j: Option<PopJoin>)
    requires ys.Valid() && season in ys.items
    ensures SameShape(ys, JoinAt(ys, season, key, j))
  {
  }

  lemma {:induction false} JoinSeasonsShape(ys: Seasons, seasons: seq<string>, i: nat, key: string, estimates: seq<string>, parseInt: IntParser)
    requires ys.Valid() && AllIn(seasons, ys) && i <= |seasons| && |estimates| == EstimateCount
    requires JoinSeasons(ys, seasons, i, key, estimates, parseInt).Ok?
    ensures SameShape(ys, JoinSeasons(ys, seasons, i, key, estimates, parseInt).value)
    decreases |seasons| - i
  {
    if i < |seasons| {
      var j := SeasonJoin(ys, seasons[i], key, estimates, parseInt).value;
      var next := JoinAt(ys, seasons[i], key, j);
      JoinAtShape(ys, seasons[i], key, j);
      JoinSeasonsShape(next, seasons, i + 1, key, estimates, parseInt);
      SameShapeTrans(ys, next, JoinSeasons(next, seasons, i + 1, key, estimates, parseInt).value);
    }
  }

  lemma PopRowShape(ys: Seasons, row: Row, parseInt: IntParser)
    requires ys.Valid() && PopRow(ys, row, parseInt).Ok?
    ensures SameShape(ys, PopRow(ys, row, parseInt).value)
  {
    if |row| >= FirstEstimateColumn + EstimateCount && IsNewYorkCounty(row) {
      var key, estimates := CountyKey(row[NameColumn]), row[FirstEstimateColumn..FirstEstimateColumn + EstimateCount];
      KeysAllIn(ys);
      assert PopRow(ys, row, parseInt) == JoinSeasons(ys, ys.keys, 0, key, estimates, parseInt);
      JoinSeasonsShape(ys, ys.keys, 0, key, estimates, parseInt);
    } else {
      assert PopRow(ys, row, parseInt) == Ok(ys);
    }
  }

  /** Joining population never adds or removes a season or a county, never
      changes a count of cases, and only appends to the joins. */
  lemma {:induction false} JoinAllShape(ys: Seasons, rows: seq<Row>, parseInt: IntParser)
    requires ys.Valid()
    requires JoinAll(ys, rows, parseInt).Ok?
    ensures SameShape(ys, JoinAll(ys, rows, parseInt).value)
    decreases |rows|
  {
    if rows != [] {
      var next := PopRow(ys, rows[0], parseInt).value;
      PopRowShape(ys, rows[0], parseInt);
      JoinAllShape(next, rows[1..], parseInt);
      assert JoinAll(ys, rows, parseInt) == JoinAll(next, rows[1..], parseInt);
      SameShapeTrans(ys, next, JoinAll(next, rows[1..], parseInt).value);
    }
  }

  /** The join for a season depends only on that season's counties. */
  lemma SeasonJoinLocal(ys: Seasons, zs: Seasons, season: string, key: string, estimates: seq<string>, parseInt: IntParser)
    requires season in ys.items && season in zs.items && ys.items[season] == zs.items[season]
    requires |estimates| == EstimateCount
    ensures SeasonJoin(ys, season, key, estimates, parseInt) == SeasonJoin(zs, season, key, estimates, parseInt)
  {
  }

  lemma JoinAtEffect(ys: Seasons, season: string, key: string, j: Option<PopJoin>, s: string, c: string)
    requires ys.Valid() && season in ys.items && HasRecord(ys, s, c)
    ensures var r := JoinAt(ys, season, key, j);
      HasRecord(r, s, c)
      && (s != season ==> r.items[s] == ys.items[s])
      && r.items[s][c] == if s == season && c == key then Attach(ys.items[s][c], j) else ys.items[s][c]
  {
  }

  /** What one qualifying row does: the record (season, key) of every season
      visited gets the join `SeasonJoin` computes for it; every other record
      is left as it was. */
  lemma {:induction false} JoinSeasonsEffect(ys: Seasons, seasons: seq<string>, i: nat, key: string, estimates: seq<string>, parseInt: IntParser, s: string, c: string)
    requires ys.Valid() && AllIn(seasons, ys) && i <= |seasons| && |estimates| == EstimateCount
    requires forall m, n :: 0 <= m < n < |seasons| ==> seasons[m] != seasons[n]
    requires JoinSeasons(ys, seasons, i, key, estimates, parseInt).Ok?
    requires HasRecord(ys, s, c)
    ensures s in seasons[i..] ==> SeasonJoin(ys, s, key, estimates, parseInt).Ok?
    ensures var r := JoinSeasons(ys, seasons, i, key, estimates, parseInt).value;
      HasRecord(r, s, c)
      && r.items[s][c] == if c == key && s in seasons[i..]
        then Attach(ys.items[s][c], SeasonJoin(ys, s, key, estimates, parseInt).value)
        else ys.items[s][c]
    decreases |seasons| - i
  {
    if i < |seasons| {
      var s0 := seasons[i];
      var j := SeasonJoin(ys, s0, key, estimates, parseInt).value;
      var next := JoinAt(ys, s0, key, j);
      JoinAtEffect(ys, s0, key, j, s, c);
      JoinSeasonsEffect(next, seasons, i + 1, key, estimates, parseInt, s, c);
      assert JoinSeasons(ys, seasons, i, key, estimates, parseInt) == JoinSeasons(next, seasons, i + 1, key, estimates, parseInt);
      SuffixStep(seasons, i, s);
      if s != s0 {
        SeasonJoinLocal(ys, next, s, key, estimates, parseInt);
      }
    } else {
      assert seasons[i..] == [];
    }
  }

  /** The seasons from `i` on are season `i` and those after it, which
      do not repeat it. */
  lemma SuffixStep(seasons: seq<string>, i: nat, s: string)
    requires i < |seasons|
    requires forall m, n :: 0 <= m < n < |seasons| ==> seasons[m] != seasons[n]
    ensures s in seasons[i..] <==> s == seasons[i] || s in seasons[i + 1..]
    ensures seasons[i] !in seasons[i + 1..]
  {
    assert seasons[i..] == [seasons[i]] + seasons[i + 1..];
  }

  /** A qualifying row for a county with a record: the estimate used for a
      season whose year is below 2010 counts back from POPESTIMATE2019
      (there is no lower bound on the offset), and a year more than ten
      before 2010 raises IndexError. */
  lemma NoLowerBound(ys: Seasons, season: string, key: string, estimates: seq<string>, parseInt: IntParser)
    requires HasRecord(ys, season, key) && |estimates| == EstimateCount
    requires Offset(season, parseInt).Some? && Offset(season, parseInt).value < 0
    ensures var cell := Offset(season, parseInt).value;
      cell < -EstimateCount ==> SeasonJoin(ys, season, key, estimates, parseInt) == Err(IndexError)
    ensures var cell := Offset(season, parseInt).value;
      var r := SeasonJoin(ys, season, key, estimates, parseInt);
      -EstimateCount <= cell && r.Ok? ==>
        r.value.Some? && Some(r.value.value.population) == parseInt(estimates[EstimateCount + cell])
  {
  }

  /** A population of 0 for a county being joined raises ZeroDivisionError;
      the row is not skipped. */
  lemma ZeroPopulationRaises(ys: Seasons, season: string, key: string, estimates: seq<string>, parseInt: IntParser)
    requires HasRecord(ys, season, key) && |estimates| == EstimateCount
    requires Offset(season, parseInt).Some?
    requires 0 <= Offset(season, parseInt).value < EstimateCount
    requires parseInt(estimates[Offset(season, parseInt).value]) == Some(0)
    ensures SeasonJoin(ys, season, key, estimates, parseInt) == Err(ZeroDivisionError)
  {
  }

  /** Every join carries the population and the cases divided by it. */
  lemma JoinIsShare(ys: Seasons, season: string, key: string, estimates: seq<string>, parseInt: IntParser)
    requires season in ys.items && |estimates| == EstimateCount
    requires SeasonJoin(ys, season, key, estimates, parseInt).Ok?
    requires SeasonJoin(ys, season, key, estimates, parseInt).value.Some?
    ensures var p := SeasonJoin(ys, season, key, estimates, parseInt).value.value;
      && HasRecord(ys, season, key)
      && Offset(season, parseInt).Some? && Offset(season, parseInt).value < EstimateCount
      && p.population != 0
      && Some(p.population) == parseInt(estimates[if Offset(season, parseInt).value < 0 then EstimateCount + Offset(season, parseInt).value else Offset(season, parseInt).value])
      && p.percent * p.population as real == ys.items[season][key].cases as real
  {
  }

  /** A row that is not a New York county leaves every record as it was. */
  lemma OtherRowsSkipped(ys: Seasons, row: Row, parseInt: IntParser)
    requires ys.Valid() && |row| >= FirstEstimateColumn + EstimateCount
    requires row[StateColumn] != "New York" || !Contains(row[NameColumn], "County")
    ensures PopRow(ys, row, parseInt) == Ok(ys)
  {
  }

  /** The body of the `for year in yearSet` loop up to the two appends: the
      year offset, the estimate and the share for one season
      (src/datasort.py:68-72). */
  method ComputeJoin(ys: Seasons, season: string, key: string, estimates: seq<string>, parseInt: IntParser) returns (r: Result<Option<PopJoin>>)
    requires season in ys.items && |estimates| == EstimateCount
    ensures r == SeasonJoin(ys, season, key, estimates, parseInt)
  {
    var targetYear := Slice(season, Find(season, "-") + 1, |season|);
    var y := parseInt(targetYear);
    if y.None? {
      return Err(ValueError);
    }
    var targetCell := y.value - BaseYear;
    if key in ys.items[season] && targetCell < |estimates| {
      var text := PyIndex(estimates, targetCell);
      if text.None? {
        return Err(IndexError);
      }
      var population := parseInt(text.value);
      if population.None? {
        return Err(ValueError);
      }
      if population.value == 0 {
        return Err(ZeroDivisionError);
      }
      var percentage := ys.items[season][key].cases as real / population.value as real;
      return Ok(Some(PopJoin(population.value, percentage)));
    }
    return Ok(None);
  }

  /** The `for year in yearSet` loop for one New York county row
      (src/datasort.py:67-74). */
  method JoinCounty(ys0: Seasons, key: string, estimates: seq<string>, parseInt: IntParser) returns (r: Result<Seasons>)
    requires ys0.Valid() && AllIn(ys0.keys, ys0) && |estimates| == EstimateCount
    ensures r == JoinSeasons(ys0, ys0.keys, 0, key, estimates, parseInt)
  {
    var ys := ys0;
    var seasons := ys.keys;
    var j := 0;
    while j < |seasons|
      invariant 0 <= j <= |seasons| && ys.Valid()
      invariant ys.keys == seasons && ys.items.Keys == ys0.items.Keys
      invariant JoinSeasons(ys, seasons, j, key, estimates, parseInt)
        == JoinSeasons(ys0, seasons, 0, key, estimates, parseInt)
    {
      var season := seasons[j];
      var join := ComputeJoin(ys, season, key, estimates, parseInt);
      if join.Err? {
        return Err(join.error);
      }
      if join.value.Some? {
        var rec := ys.items[season][key];
        ys := ys.Put(season, ys.items[season][key := rec.(joins := rec.joins + [join.value.value])]);
      }
      j := j + 1;
    }
    return Ok(ys);
  }

  /** The ten estimate cells of a row, read one by one; a row that ends
      before the last of them raises IndexError (src/datasort.py:59-61). */
  method ReadEstimates(row: Row) returns (r: Option<seq<string>>)
    ensures r.None? <==> |row| < FirstEstimateColumn + EstimateCount
    ensures r.Some? ==> r.value == row[FirstEstimateColumn..FirstEstimateColumn + EstimateCount]
  {
    var estimates: seq<string> := [];
    var k := FirstEstimateColumn;
    while k < FirstEstimateColumn + EstimateCount
      invariant FirstEstimateColumn <= k <= FirstEstimateColumn + EstimateCount
      invariant k == FirstEstimateColumn || k <= |row|
      invariant |estimates| == k - FirstEstimateColumn
      invariant forall m :: 0 <= m < |estimates| ==> estimates[m] == row[FirstEstimateColumn + m]
    {
      if k >= |row| {
        return None;
      }
      estimates := estimates + [row[k]];
      k := k + 1;
    }
    return Some(estimates);
  }

  /** `yearSet` after the population file (src/datasort.py:52-74). */
  method LoadPopulation(ys0: Seasons, table: Table, parseInt: IntParser) returns (r: Result<Seasons>)
    requires ys0.Valid()
    ensures r == PopulationOf(ys0, table, parseInt)
  {
    if |table| == 0 {
      return Err(StopIteration);
    }
    var rows := table[1..];
    var ys := ys0;
    var i := 0;
    while i < |rows|
      invariant 0 <= i <= |rows| && ys.Valid()
      invariant JoinAll(ys, rows[i..], parseInt) == JoinAll(ys0, rows, parseInt)
    {
      var row := rows[i];
      JoinAllStep(ys, rows, i, parseInt);
      PopRowShort(ys, row, parseInt);
      if |row| <= NameColumn {
        return Err(IndexError);
      }
      var stName, ctyName := row[StateColumn], row[NameColumn];
      var read := ReadEstimates(row);
      if read.None? {
        return Err(IndexError);
      }
      var estimates := read.value;
      if stName == "New York" && Contains(ctyName, "County") {
        var key := Upper(Strip(ctyName[..Find(ctyName, "County")]));
        assert key == CountyKey(ctyName);
        KeysAllIn(ys);
        var joined := JoinCounty(ys, key, estimates, parseInt);
        PopRowCases(ys, row, parseInt);
        if joined.Err? {
          return joined;
        }
        ys := joined.value;
      } else {
        PopRowCases(ys, row, parseInt);
      }
      i := i + 1;
    }
    return Ok(ys);
  }
}
