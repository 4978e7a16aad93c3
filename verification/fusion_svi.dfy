/** Third step of the fusion: the Social Vulnerability Index files. Each
    file's header locates STATE, COUNTY and the "EP" percentage columns; each
    New York row then stores its values per (file year, county). */
module FusionSvi {
  import opened Outcomes
  import opened PyText
  import opened Sorting

  const StateField := "STATE"
  const CountyField := "COUNTY"

  /** The value written for a field whose column was never located. */
  const Sentinel := -999999999

  /** The fields looked for before any header is read. */
  const InitialFields: set<string> := {
    "EP_POV", "EP_UNEMP", "EP_PCI", "EP_NOHSDP", "EP_AGE65", "EP_AGE17",
    "EP_DISABL", "EP_SNGPNT", "EP_MINRTY", "EP_LIMENG", "EP_MUNIT",
    "EP_MOBILE", "EP_CROWD", "EP_NOVEH", "EP_GROUPQ", "EP_UNINSUR"}

  /** `fieldSort`: each name to the column it was last found in, if any. */
  type FieldIndex = map<string, Option<nat>>

  /** One stored value: a cell's text, or the sentinel for an unlocated field. */
  datatype SviValue = Text(text: string) | Missing

  type CountyFields = map<string, SviValue>

  /** `yearSet1`: file year to county to field values. */
  type SviYears = map<int, map<string, CountyFields>>

  /** Everything the SVI loop carries from one file to the next. */
  datatype SviState = SviState(years: SviYears, fields: FieldIndex)

  function InitialIndex(): (fs: FieldIndex)
    ensures fs.Keys == {StateField, CountyField} + InitialFields
    ensures forall k :: k in fs ==> fs[k] == None
  {
    map k | k in {StateField, CountyField} + InitialFields :: None
  }

  /** The names other than STATE and COUNTY: the value columns. */
  function FieldKeys(fs: FieldIndex): set<string> {
    fs.Keys - {StateField, CountyField}
  }

  /** The index keeps STATE, COUNTY and every initial field. */
  ghost predicate WellFormed(fs: FieldIndex) {
    StateField in fs && CountyField in fs && InitialFields <= fs.Keys
  }

  /** The year of an SVI file: the text between the first "svi" (plus three
      characters) and the first ".csv", as an integer. Without "svi" the
      text starts at the third character. */
  function FileYearText(filename: string): string
    requires Contains(filename, ".csv")
  {
    Slice(filename, Find(filename, "svi") + 3, Find(filename, ".csv"))
  }

  /** A header is an "EP" field when its text before the first "_",
      stripped, is "EP"; without "_" that text is all but its last character. */
  predicate IsEpHeader(h: string) {
    Strip(Slice(h, 0, Find(h, "_"))) == "EP"
  }

  /** A header that the registration loop records. */
  predicate Registers(h: string) {
    h == StateField || h == CountyField || IsEpHeader(h)
  }

  /** The index after the header cell at position `i`. */
  function RegisterCell(fs: FieldIndex, h: string, i: nat): FieldIndex {
    if h == StateField then fs[StateField := Some(i)]
    else if h == CountyField then fs[CountyField := Some(i)]
    else if IsEpHeader(h) then fs[h := Some(i)]
    else fs
  }

  /** A registering header cell points its own name at its column. */
  lemma RegisterCellIs(fs: FieldIndex, h: string, i: nat)
    ensures RegisterCell(fs, h, i) == if Registers(h) then fs[h := Some(i)] else fs
  {
  }

  /** The registration loop over the header, from position `i` on. */
  function Register(fs: FieldIndex, header: Row, i: nat): FieldIndex
    requires i <= |header|
    decreases |header| - i
  {
    if i == |header| then fs else Register(RegisterCell(fs, header[i], i), header, i + 1)
  }

  /** After the header, a name is known exactly when it was known before or
      is a registering header cell; a registered name points to its LAST
      occurrence in the header; every other name keeps its column. */
  lemma {:induction false} RegisterEffect(fs: FieldIndex, header: Row, i: nat, k: string)
    requires i <= |header|
    ensures var r := Register(fs, header, i);
      k in r <==> k in fs || (Registers(k) && k in header[i..])
    ensures var r := Register(fs, header, i);
      Registers(k) && k in header[i..] ==>
        && k in r && r[k].Some? && i <= r[k].value < |header|
        && header[r[k].value] == k && k !in header[r[k].value + 1..]
    ensures var r := Register(fs, header, i);
      !(Registers(k) && k in header[i..]) && k in fs ==> k in r && r[k] == fs[k]
    decreases |header| - i
  {
    if i < |header| {
      var next := RegisterCell(fs, header[i], i);
      RegisterCellIs(fs, header[i], i);
      RegisterEffect(next, header, i + 1, k);
      InSuffix(header, i, k);
    }
  }

  /** Registering a header never forgets a name. */
  lemma {:induction false} RegisterKeeps(fs: FieldIndex, header: Row, i: nat)
    requires i <= |header|
    ensures fs.Keys <= Register(fs, header, i).Keys
    decreases |header| - i
  {
    if i < |header| {
      RegisterKeeps(RegisterCell(fs, header[i], i), header, i + 1);
    }
  }

  /** A header without "_" is an "EP" field when all but its last character,
      stripped, is "EP"; "EPX" is one. */
  lemma UnderscoreFreeHeader(h: string)
    requires |h| > 0 && !Contains(h, "_")
    ensures IsEpHeader(h) <==> Strip(h[..|h| - 1]) == "EP"
  {
  }

  /** Column `k` can be read from `row`, or was never located. */
  predicate Located(fs: FieldIndex, row: Row, k: string)
    requires k in fs
  {
    fs[k].None? || fs[k].value < |row|
  }

  function ValueOf(fs: FieldIndex, row: Row, k: string): SviValue
    requires k in fs && Located(fs, row, k)
  {
    if fs[k].None? then Missing else Text(row[fs[k].value])
  }

  /** The values of one row: every value field, the sentinel for those never
      located; IndexError if a located column is past the end of the row. */
  function FieldValues(fs: FieldIndex, row: Row): (r: Result<CountyFields>)
    ensures r.Ok? <==> forall k :: k in FieldKeys(fs) ==> Located(fs, row, k)
    ensures r.Err? ==> r.error == IndexError
    ensures r.Ok? ==> r.value.Keys == FieldKeys(fs)
    ensures r.Ok? ==> forall k :: k in r.value ==> (r.value[k] == Missing <==> fs[k].None?)
    ensures r.Ok? ==> forall k :: k in r.value && fs[k].Some? ==> r.value[k] == Text(row[fs[k].value])
  {
    if forall k :: k in FieldKeys(fs) ==> Located(fs, row, k) then
      Ok(map k | k in FieldKeys(fs) :: ValueOf(fs, row, k))
    else Err(IndexError)
  }

  /** The loop over `keys` that fills `acc` with the values of one row. */
  function CollectValues(fs: FieldIndex, row: Row, keys: seq<string>, acc: CountyFields): Result<CountyFields>
    requires forall k :: k in keys ==> k in fs
    decreases |keys|
  {
    if keys == [] then Ok(acc)
    else
      var k := keys[0];
      if k == StateField || k == CountyField then CollectValues(fs, row, keys[1..], acc)
      else if fs[k].None? then CollectValues(fs, row, keys[1..], acc[k := Missing])
      else if fs[k].value >= |row| then Err(IndexError)
      else CollectValues(fs, row, keys[1..], acc[k := Text(row[fs[k].value])])
  }

  /** Every value field among `keys` can be read from `row`. */
  predicate AllLocated(fs: FieldIndex, row: Row, keys: seq<string>) {
    forall k :: k in keys && k in FieldKeys(fs) ==> Located(fs, row, k)
  }

  /** The values of the value fields among `keys`. */
  function ValuesAmong(fs: FieldIndex, row: Row, keys: seq<string>): CountyFields
    requires AllLocated(fs, row, keys)
  {
    map k | k in keys && k in FieldKeys(fs) :: ValueOf(fs, row, k)
  }

  /** Collecting over `keys` adds the value of each value field among them,
      or fails with IndexError if one of them is not in the row. */
  lemma {:induction false} CollectValuesSpec(fs: FieldIndex, row: Row, keys: seq<string>, acc: CountyFields)
    requires forall k :: k in keys ==> k in fs
    ensures AllLocated(fs, row, keys) ==>
      CollectValues(fs, row, keys, acc) == Ok(acc + ValuesAmong(fs, row, keys))
    ensures !AllLocated(fs, row, keys) ==> CollectValues(fs, row, keys, acc) == Err(IndexError)
    decreases |keys|
  {
    if keys != [] {
      var k := keys[0];
      var rest := keys[1..];
      assert forall x :: x in keys <==> x == k || x in rest;
      if k == StateField || k == CountyField {
        CollectValuesSpec(fs, row, rest, acc);
        if AllLocated(fs, row, keys) {
          assert ValuesAmong(fs, row, keys) == ValuesAmong(fs, row, rest);
        }
      } else if fs[k].None? || fs[k].value < |row| {
        var next := acc[k := ValueOf(fs, row, k)];
        assert CollectValues(fs, row, keys, acc) == CollectValues(fs, row, rest, next);
        CollectValuesSpec(fs, row, rest, next);
        if AllLocated(fs, row, keys) {
          ValuesAmongCons(fs, row, keys, acc);
        }
      } else {
        assert k in keys && k in FieldKeys(fs) && !Located(fs, row, k);
      }
    } else {
      assert ValuesAmong(fs, row, keys) == map[];
      assert acc + map[] == acc;
    }
  }

  /** A value field at the head of `keys` joins the values of the rest. */
  lemma ValuesAmongCons(fs: FieldIndex, row: Row, keys: seq<string>, acc: CountyFields)
    requires keys != [] && (forall k :: k in keys ==> k in fs) && AllLocated(fs, row, keys)
    requires keys[0] in FieldKeys(fs)
    ensures AllLocated(fs, row, keys[1..])
    ensures acc[keys[0] := ValueOf(fs, row, keys[0])] + ValuesAmong(fs, row, keys[1..]) == acc + ValuesAmong(fs, row, keys)
  {
    var k, rest := keys[0], keys[1..];
    assert forall x :: x in keys <==> x == k || x in rest;
    assert ValuesAmong(fs, row, keys) == ValuesAmong(fs, row, rest)[k := ValueOf(fs, row, k)];
  }

  /** Collecting over every name of the index gives the row's values. */
  lemma CollectAll(fs: FieldIndex, row: Row, keys: seq<string>)
    requires forall k :: k in keys <==> k in fs
    ensures CollectValues(fs, row, keys, map[]) == FieldValues(fs, row)
  {
    CollectValuesSpec(fs, row, keys, map[]);
    if forall k :: k in FieldKeys(fs) ==> Located(fs, row, k) {
      assert map[] + ValuesAmong(fs, row, keys) == map k | k in FieldKeys(fs) :: ValueOf(fs, row, k);
    }
  }

  /** The county a New York row is stored under: its COUNTY cell upper-cased. */
  function RowCounty(fs: FieldIndex, row: Row): string
    requires CountyField in fs && fs[CountyField].Some? && fs[CountyField].value < |row|
  {
    Upper(row[fs[CountyField].value])
  }

  /** The effect of one data row of an SVI file. Looking up a column that
      was never located indexes the row with None: TypeError. */
  function SviRow(years: SviYears, fileYear: int, fs: FieldIndex, row: Row): Result<SviYears>
    requires fileYear in years && WellFormed(fs)
  {
    match fs[StateField]
    case None => Err(TypeError)
    case Some(si) =>
      if si >= |row| then Err(IndexError)
      else if row[si] != "NEW YORK" then Ok(years)
      else
        match fs[CountyField]
        case None => Err(TypeError)
        case Some(ci) =>
          if ci >= |row| then Err(IndexError)
          else
            match FieldValues(fs, row)
            case Err(e) => Err(e)
            case Ok(values) => Ok(years[fileYear := years[fileYear][RowCounty(fs, row) := values]])
  }

  /** A row that the state column marks as New York. */
  predicate IsNewYorkRow(fs: FieldIndex, row: Row)
    requires StateField in fs
  {
    fs[StateField].Some? && fs[StateField].value < |row| && row[fs[StateField].value] == "NEW YORK"
  }

  function SviRows(years: SviYears, fileYear: int, fs: FieldIndex, rows: seq<Row>): (r: Result<SviYears>)
    requires fileYear in years && WellFormed(fs)
    ensures r.Ok? ==> fileYear in r.value
    decreases |rows|
  {
    if rows == [] then Ok(years)
    else
      match SviRow(years, fileYear, fs, rows[0])
      case Err(e) => Err(e)
      case Ok(next) => SviRows(next, fileYear, fs, rows[1..])
  }

  /** Reading the rows of a file is reading all but the last, then the last. */
  lemma {:induction false} SviRowsSnoc(years: SviYears, fileYear: int, fs: FieldIndex, rows: seq<Row>, row: Row)
    requires fileYear in years && WellFormed(fs)
    ensures SviRows(years, fileYear, fs, rows + [row]) ==
      match SviRows(years, fileYear, fs, rows)
      case Err(e) => Err(e)
      case Ok(ys) => SviRow(ys, fileYear, fs, row)
    decreases |rows|
  {
    if rows == [] {
      assert [] + [row] == [row];
      assert [row][1..] == [];
    } else {
      assert (rows + [row])[0] == rows[0];
      assert (rows + [row])[1..] == rows[1..] + [row];
      match SviRow(years, fileYear, fs, rows[0])
      case Err(e) =>
      case Ok(next) => SviRowsSnoc(next, fileYear, fs, rows[1..], row);
    }
  }

  /** A New York row's values replace, rather than merge with, whatever its
      county held: right after that row the county holds exactly its values.
      SviRowsJoin states the same for the last such row of a whole file. */
  lemma LastRowWins(years: SviYears, fileYear: int, fs: FieldIndex, rows: seq<Row>, row: Row)
    requires fileYear in years && WellFormed(fs)
    requires SviRows(years, fileYear, fs, rows + [row]).Ok?
    requires IsNewYorkRow(fs, row)
    ensures fs[CountyField].Some? && fs[CountyField].value < |row|
    ensures FieldValues(fs, row).Ok?
    ensures var r := SviRows(years, fileYear, fs, rows + [row]).value;
      RowCounty(fs, row) in r[fileYear]
      && r[fileYear][RowCounty(fs, row)] == FieldValues(fs, row).value
  {
    SviRowsSnoc(years, fileYear, fs, rows, row);
  }

  /** Reading rows for one year leaves every other year as it was and never
      drops a county of that year. */
  lemma {:induction false} SviRowsFrame(years: SviYears, fileYear: int, fs: FieldIndex, rows: seq<Row>)
    requires fileYear in years && WellFormed(fs)
    requires SviRows(years, fileYear, fs, rows).Ok?
    ensures var r := SviRows(years, fileYear, fs, rows).value;
      && r.Keys == years.Keys
      && (forall y :: y in years && y != fileYear ==> r[y] == years[y])
      && years[fileYear].Keys <= r[fileYear].Keys
    decreases |rows|
  {
    if rows != [] {
      var next := SviRow(years, fileYear, fs, rows[0]).value;
      SviRowsFrame(next, fileYear, fs, rows[1..]);
    }
  }

  /** A row that names county `c`: a New York row whose COUNTY cell,
      upper-cased, is `c`. */
  predicate NamesCounty(fs: FieldIndex, row: Row, c: string)
    requires StateField in fs && CountyField in fs
  {
    IsNewYorkRow(fs, row) && fs[CountyField].Some? && fs[CountyField].value < |row|
    && RowCounty(fs, row) == c
  }

  /** The position of the last row naming county `c`, if any. */
  function LastNaming(fs: FieldIndex, rows: seq<Row>, c: string): (r: Option<nat>)
    requires StateField in fs && CountyField in fs
    ensures r.Some? ==> r.value < |rows| && NamesCounty(fs, rows[r.value], c)
    decreases |rows|
  {
    if rows == [] then None
    else if NamesCounty(fs, rows[|rows| - 1], c) then Some(|rows| - 1)
    else LastNaming(fs, rows[..|rows| - 1], c)
  }

  /** LastNaming finds the row naming `c` after which no row names it, and
      finds nothing exactly when no row names it. */
  lemma LastNamingIsLast(fs: FieldIndex, rows: seq<Row>, c: string)
    requires StateField in fs && CountyField in fs
    ensures LastNaming(fs, rows, c).None? <==> forall k :: 0 <= k < |rows| ==> !NamesCounty(fs, rows[k], c)
    ensures forall k :: 0 <= k < |rows| ==>
      (LastNaming(fs, rows, c) == Some(k) <==>
        NamesCounty(fs, rows[k], c) && forall j :: k < j < |rows| ==> !NamesCounty(fs, rows[j], c))
  {
    LastNamingNone(fs, rows, c);
    forall k | 0 <= k < |rows| {
      LastNamingAt(fs, rows, c, k);
    }
  }

  lemma {:induction false} LastNamingNone(fs: FieldIndex, rows: seq<Row>, c: string)
    requires StateField in fs && CountyField in fs
    ensures LastNaming(fs, rows, c).None? <==> forall k :: 0 <= k < |rows| ==> !NamesCounty(fs, rows[k], c)
    decreases |rows|
  {
    if rows != [] {
      var n := |rows| - 1;
      var init := rows[..n];
      assert forall k :: 0 <= k < n ==> init[k] == rows[k];
      LastNamingNone(fs, init, c);
    }
  }

  lemma {:induction false} LastNamingAt(fs: FieldIndex, rows: seq<Row>, c: string, k: nat)
    requires StateField in fs && CountyField in fs && k < |rows|
    ensures LastNaming(fs, rows, c) == Some(k) <==>
      NamesCounty(fs, rows[k], c) && forall j :: k < j < |rows| ==> !NamesCounty(fs, rows[j], c)
    decreases |rows|
  {
    var n := |rows| - 1;
    var init := rows[..n];
    if NamesCounty(fs, rows[n], c) {
      assert LastNaming(fs, rows, c) == Some(n);
    } else {
      assert LastNaming(fs, rows, c) == LastNaming(fs, init, c);
      if k < n {
        assert forall j :: k < j < n ==> init[j] == rows[j];
        assert rows[k] == init[k];
        LastNamingAt(fs, init, c, k);
      }
    }
  }

  /** `after` is the county map `before` once `rows` are read into it: a
      county is there if it was before or some New York row names it; it
      then holds the values of the last row naming it, or, when no row names
      it, what it held before. Rows of other states change nothing. */
  ghost predicate Joined(fs: FieldIndex, before: map<string, CountyFields>, rows: seq<Row>,
                         after: map<string, CountyFields>)
    requires StateField in fs && CountyField in fs
  {
    forall c :: JoinedAt(fs, before, rows, after, c)
  }

  /** Joined, for one county. */
  ghost predicate JoinedAt(fs: FieldIndex, before: map<string, CountyFields>, rows: seq<Row>,
                           after: map<string, CountyFields>, c: string)
    requires StateField in fs && CountyField in fs
  {
    && (c in after <==> c in before || LastNaming(fs, rows, c).Some?)
    && (LastNaming(fs, rows, c).Some? ==>
          var k := LastNaming(fs, rows, c).value;
          FieldValues(fs, rows[k]).Ok? && c in after && after[c] == FieldValues(fs, rows[k]).value)
    && (c in before && LastNaming(fs, rows, c).None? ==> c in after && after[c] == before[c])
  }

  /** Joining rows one after another is joining them all at once. */
  lemma JoinedSnoc(fs: FieldIndex, before: map<string, CountyFields>, rows: seq<Row>,
                   mid: map<string, CountyFields>, row: Row, after: map<string, CountyFields>)
    requires StateField in fs && CountyField in fs
    requires Joined(fs, before, rows, mid) && Joined(fs, mid, [row], after)
    ensures Joined(fs, before, rows + [row], after)
  {
    var all := rows + [row];
    assert all[..|rows|] == rows && all[|rows|] == row;
    assert [row][..0] == [] && [row][0] == row;
    forall c
      ensures JoinedAt(fs, before, all, after, c)
    {
      assert JoinedAt(fs, before, rows, mid, c) && JoinedAt(fs, mid, [row], after, c);
      assert LastNaming(fs, [row], c) == if NamesCounty(fs, row, c) then Some(0) else None;
      assert LastNaming(fs, all, c) == if NamesCounty(fs, row, c) then Some(|rows|) else LastNaming(fs, rows, c);
    }
  }

  /** What reading the rows does to the file's year (see Joined). */
  lemma {:induction false} SviRowsJoin(years: SviYears, fileYear: int, fs: FieldIndex, rows: seq<Row>)
    requires fileYear in years && WellFormed(fs)
    requires SviRows(years, fileYear, fs, rows).Ok?
    ensures Joined(fs, years[fileYear], rows, SviRows(years, fileYear, fs, rows).value[fileYear])
    decreases |rows|
  {
    if rows == [] {
    } else {
      var n := |rows| - 1;
      var init, row := rows[..n], rows[n];
      assert rows == init + [row];
      SviRowsSnoc(years, fileYear, fs, init, row);
      var ys := SviRows(years, fileYear, fs, init).value;
      SviRowsJoin(years, fileYear, fs, init);
      JoinLastRow(ys, fileYear, fs, row);
      JoinedSnoc(fs, years[fileYear], init, ys[fileYear], row, SviRow(ys, fileYear, fs, row).value[fileYear]);
    }
  }

  /** One row's effect on the file's year. */
  lemma JoinLastRow(ys: SviYears, fileYear: int, fs: FieldIndex, row: Row)
    requires fileYear in ys && WellFormed(fs)
    requires SviRow(ys, fileYear, fs, row).Ok?
    ensures fileYear in SviRow(ys, fileYear, fs, row).value
    ensures Joined(fs, ys[fileYear], [row], SviRow(ys, fileYear, fs, row).value[fileYear])
  {
    var r := SviRow(ys, fileYear, fs, row).value;
    assert [row][0] == row && [row][..0] == [];
    if IsNewYorkRow(fs, row) {
      var values := FieldValues(fs, row).value;
      assert r == ys[fileYear := ys[fileYear][RowCounty(fs, row) := values]];
      forall c
        ensures JoinedAt(fs, ys[fileYear], [row], r[fileYear], c)
      {
        assert LastNaming(fs, [row], c) == if c == RowCounty(fs, row) then Some(0) else None;
      }
    } else {
      assert r == ys;
      forall c
        ensures JoinedAt(fs, ys[fileYear], [row], r[fileYear], c)
      {
        assert LastNaming(fs, [row], c) == None;
      }
    }
  }

  /** One SVI file: its year, the header, then the rows. */
  function SviFile(st: SviState, filename: string, files: Files, parseInt: IntParser): (r: Result<SviState>)
    requires Contains(filename, ".csv") && WellFormed(st.fields)
    ensures r.Ok? ==> WellFormed(r.value.fields) && st.fields.Keys <= r.value.fields.Keys
  {
    match parseInt(FileYearText(filename))
    case None => Err(ValueError)
    case Some(fy) =>
      var years := if fy in st.years then st.years else st.years[fy := map[]];
      match Open(files, filename)
      case Err(e) => Err(e)
      case Ok(table) =>
        if |table| == 0 then Err(StopIteration)
        else
          RegisterKeeps(st.fields, table[0], 0);
          var fs := Register(st.fields, table[0], 0);
          match SviRows(years, fy, fs, table[1..])
          case Err(e) => Err(e)
          case Ok(ys) => Ok(SviState(ys, fs))
  }

  predicate AllCsv(names: seq<string>) {
    forall i :: 0 <= i < |names| ==> Contains(names[i], ".csv")
  }

  /** The SVI files in order; the index carries over from file to file. */
  function SviAll(st: SviState, filenames: seq<string>, files: Files, parseInt: IntParser): (r: Result<SviState>)
    requires AllCsv(filenames) && WellFormed(st.fields)
    ensures r.Ok? ==> WellFormed(r.value.fields) && st.fields.Keys <= r.value.fields.Keys
    decreases |filenames|
  {
    if filenames == [] then Ok(st)
    else
      match SviFile(st, filenames[0], files, parseInt)
      case Err(e) => Err(e)
      case Ok(next) => SviAll(next, filenames[1..], files, parseInt)
  }

  /** File `n` is read, then the files after it from the state it leaves. */
  lemma SviAllStep(st: SviState, filenames: seq<string>, n: nat, files: Files, parseInt: IntParser)
    requires AllCsv(filenames) && WellFormed(st.fields) && n < |filenames|
    ensures SviFile(st, filenames[n], files, parseInt).Err? ==>
      SviAll(st, filenames[n..], files, parseInt) == Err(SviFile(st, filenames[n], files, parseInt).error)
    ensures SviFile(st, filenames[n], files, parseInt).Ok? ==>
      SviAll(st, filenames[n..], files, parseInt)
        == SviAll(SviFile(st, filenames[n], files, parseInt).value, filenames[n + 1..], files, parseInt)
  {
    assert filenames[n..][0] == filenames[n] && filenames[n..][1..] == filenames[n + 1..];
  }

  /** What one file does: the year it names gains the counties of its New
      York rows as Joined says, every other year is unchanged, and the index
      is the old one with the file's header registered. A year seen for the
      first time starts empty. */
  lemma SviFileJoin(st: SviState, filename: string, files: Files, parseInt: IntParser)
    requires Contains(filename, ".csv") && WellFormed(st.fields)
    requires SviFile(st, filename, files, parseInt).Ok?
    ensures parseInt(FileYearText(filename)).Some? && Open(files, filename).Ok?
      && |Open(files, filename).value| > 0
    ensures var fy := parseInt(FileYearText(filename)).value;
      var table := Open(files, filename).value;
      var r := SviFile(st, filename, files, parseInt).value;
      && r.fields == Register(st.fields, table[0], 0)
      && r.years.Keys == st.years.Keys + {fy}
      && (forall y :: y in st.years && y != fy ==> r.years[y] == st.years[y])
      && Joined(r.fields, if fy in st.years then st.years[fy] else map[], table[1..], r.years[fy])
  {
    var fy := parseInt(FileYearText(filename)).value;
    var years := if fy in st.years then st.years else st.years[fy := map[]];
    var table := Open(files, filename).value;
    RegisterKeeps(st.fields, table[0], 0);
    var fs := Register(st.fields, table[0], 0);
    SviRowsFrame(years, fy, fs, table[1..]);
    SviRowsJoin(years, fy, fs, table[1..]);
  }

  /** Reading a list of files is reading a first part of it, then the rest
      from the state that part leaves. */
  lemma {:induction false} SviAllAppend(st: SviState, first: seq<string>, rest: seq<string>,
                                        files: Files, parseInt: IntParser)
    requires AllCsv(first) && AllCsv(rest) && WellFormed(st.fields)
    ensures AllCsv(first + rest)
    ensures SviAll(st, first + rest, files, parseInt) ==
      match SviAll(st, first, files, parseInt)
      case Err(e) => Err(e)
      case Ok(mid) => SviAll(mid, rest, files, parseInt)
    decreases |first|
  {
    var all := first + rest;
    assert forall i :: 0 <= i < |all| ==> all[i] == if i < |first| then first[i] else rest[i - |first|];
    if first == [] {
      assert all == rest;
    } else {
      assert all[0] == first[0] && all[1..] == first[1..] + rest;
      match SviFile(st, first[0], files, parseInt)
      case Err(e) =>
      case Ok(next) => SviAllAppend(next, first[1..], rest, files, parseInt);
    }
  }

  /** One file drops no year and no county, and adds at most its own year. */
  lemma SviFileKeeps(st: SviState, filename: string, files: Files, parseInt: IntParser)
    requires Contains(filename, ".csv") && WellFormed(st.fields)
    requires SviFile(st, filename, files, parseInt).Ok?
    ensures var r := SviFile(st, filename, files, parseInt).value;
      forall y :: y in st.years ==> y in r.years && st.years[y].Keys <= r.years[y].Keys
    ensures var r := SviFile(st, filename, files, parseInt).value;
      forall y :: y in r.years ==> y in st.years || parseInt(FileYearText(filename)) == Some(y)
  {
    SviFileJoin(st, filename, files, parseInt);
    var r := SviFile(st, filename, files, parseInt).value;
    var fy := parseInt(FileYearText(filename)).value;
    var table := Open(files, filename).value;
    if fy in st.years {
      forall c | c in st.years[fy]
        ensures c in r.years[fy]
      {
        assert JoinedAt(r.fields, st.years[fy], table[1..], r.years[fy], c);
      }
    }
  }

  /** Across the files, no year and no county is ever dropped, and a year is
      there only if it was at the start or some file's name gives it. */
  lemma {:induction false} SviAllYears(st: SviState, filenames: seq<string>, files: Files, parseInt: IntParser)
    requires AllCsv(filenames) && WellFormed(st.fields)
    requires SviAll(st, filenames, files, parseInt).Ok?
    ensures var r := SviAll(st, filenames, files, parseInt).value;
      forall y :: y in st.years ==> y in r.years && st.years[y].Keys <= r.years[y].Keys
    ensures var r := SviAll(st, filenames, files, parseInt).value;
      forall y :: y in r.years ==>
        y in st.years || exists i :: 0 <= i < |filenames| && parseInt(FileYearText(filenames[i])) == Some(y)
    decreases |filenames|
  {
    if filenames != [] {
      var next := SviFile(st, filenames[0], files, parseInt).value;
      SviFileKeeps(st, filenames[0], files, parseInt);
      SviAllYears(next, filenames[1..], files, parseInt);
      var r := SviAll(st, filenames, files, parseInt).value;
      assert r == SviAll(next, filenames[1..], files, parseInt).value;
      forall y | y in r.years && y !in st.years
        ensures exists i :: 0 <= i < |filenames| && parseInt(FileYearText(filenames[i])) == Some(y)
      {
        if y in next.years {
          assert parseInt(FileYearText(filenames[0])) == Some(y);
        } else {
          var i :| 0 <= i < |filenames[1..]| && parseInt(FileYearText(filenames[1..][i])) == Some(y);
          assert filenames[1..][i] == filenames[i + 1];
        }
      }
    }
  }

  function InitialState(): (st: SviState)
    ensures WellFormed(st.fields) && FieldKeys(st.fields) == InitialFields
  {
    SviState(map[], InitialIndex())
  }

  /** The header loop (src/datasort.py:88-96). */
  method RegisterHeader(fs0: FieldIndex, header: Row) returns (fs: FieldIndex)
    ensures fs == Register(fs0, header, 0)
  {
    fs := fs0;
    var field := 0;
    while field < |header|
      invariant 0 <= field <= |header|
      invariant Register(fs, header, field) == Register(fs0, header, 0)
    {
      if header[field] == StateField {
        fs := fs[StateField := Some(field)];
      } else if header[field] == CountyField {
        fs := fs[CountyField := Some(field)];
      } else {
        var fieldSplit := Strip(Slice(header[field], 0, Find(header[field], "_")));
        if fieldSplit == "EP" {
          fs := fs[header[field] := Some(field)];
        }
      }
      field := field + 1;
    }
  }

  /** The inner `for key in sorted(fieldSort.keys())` loop of one New York
      row (src/datasort.py:102-109). */
  method ReadValues(fs: FieldIndex, row: Row) returns (r: Result<CountyFields>)
    ensures r == FieldValues(fs, row)
  {
    var keys := SortedStrings(fs.Keys);
    r := ReadValuesOf(fs, row, keys);
    CollectAll(fs, row, keys);
  }

  /** The same loop over a given order of the names. */
  method ReadValuesOf(fs: FieldIndex, row: Row, keys: seq<string>) returns (r: Result<CountyFields>)
    requires forall k :: k in keys ==> k in fs
    ensures r == CollectValues(fs, row, keys, map[])
  {
    var values: CountyFields := map[];
    var j := 0;
    while j < |keys|
      invariant 0 <= j <= |keys|
      invariant CollectValues(fs, row, keys[j..], values) == CollectValues(fs, row, keys, map[])
    {
      var key := keys[j];
      assert keys[j..][0] == key && keys[j..][1..] == keys[j + 1..];
      if key == StateField || key == CountyField {
        j := j + 1;
        continue;
      }
      if fs[key].None? {
        values := values[key := Missing];
      } else {
        if fs[key].value >= |row| {
          return Err(IndexError);
        }
        values := values[key := Text(row[fs[key].value])];
      }
      j := j + 1;
    }
    return Ok(values);
  }

  /** The row loop of one SVI file (src/datasort.py:97-109). */
  method ReadRows(years0: SviYears, fileYear: int, fs: FieldIndex, rows: seq<Row>) returns (r: Result<SviYears>)
    requires fileYear in years0 && WellFormed(fs)
    ensures r == SviRows(years0, fileYear, fs, rows)
  {
    var years := years0;
    var i := 0;
    while i < |rows|
      invariant 0 <= i <= |rows| && fileYear in years
      invariant SviRows(years, fileYear, fs, rows[i..]) == SviRows(years0, fileYear, fs, rows)
    {
      var row := rows[i];
      assert rows[i..][0] == row && rows[i..][1..] == rows[i + 1..];
      if fs[StateField].None? {
        return Err(TypeError);
      }
      if fs[StateField].value >= |row| {
        return Err(IndexError);
      }
      if row[fs[StateField].value] == "NEW YORK" {
        if fs[CountyField].None? {
          return Err(TypeError);
        }
        if fs[CountyField].value >= |row| {
          return Err(IndexError);
        }
        var county := Upper(row[fs[CountyField].value]);
        // `county in yearSet1` compares a text with the integer file years,
        // so it never holds and the county's values start afresh.
        var values := ReadValues(fs, row);
        if values.Err? {
          return Err(values.error);
        }
        years := years[fileYear := years[fileYear][county := values.value]];
      }
      i := i + 1;
    }
    return Ok(years);
  }

  /** One SVI file (the body of the loop at src/datasort.py:79-109): its
      year, its header and its rows. */
  method LoadFile(years0: SviYears, fs0: FieldIndex, filename: string, files: Files, parseInt: IntParser)
    returns (r: Result<SviState>)
    requires Contains(filename, ".csv") && WellFormed(fs0)
    ensures r == SviFile(SviState(years0, fs0), filename, files, parseInt)
  {
    var years, fs := years0, fs0;
    var fileyear := parseInt(Slice(filename, Find(filename, "svi") + 3, Find(filename, ".csv")));
    if fileyear.None? {
      return Err(ValueError);
    }
    if fileyear.value !in years {
      years := years[fileyear.value := map[]];
    }
    var table := Open(files, filename);
    if table.Err? {
      return Err(table.error);
    }
    if |table.value| == 0 {
      return Err(StopIteration);
    }
    RegisterKeeps(fs, table.value[0], 0);
    fs := RegisterHeader(fs, table.value[0]);
    var read := ReadRows(years, fileyear.value, fs, table.value[1..]);
    if read.Err? {
      return Err(read.error);
    }
    return Ok(SviState(read.value, fs));
  }

  /** `yearSet1` and `fieldSort` after the SVI files (src/datasort.py:79-109). */
  method LoadSvi(filenames: seq<string>, files: Files, parseInt: IntParser) returns (r: Result<SviState>)
    requires AllCsv(filenames)
    ensures r == SviAll(InitialState(), filenames, files, parseInt)
  {
    var st := InitialState();
    var n := 0;
    assert filenames[0..] == filenames;
    while n < |filenames|
      invariant 0 <= n <= |filenames| && WellFormed(st.fields)
      invariant SviAll(st, filenames[n..], files, parseInt) == SviAll(InitialState(), filenames, files, parseInt)
    {
      SviAllStep(st, filenames, n, files, parseInt);
      var next := LoadFile(st.years, st.fields, filenames[n], files, parseInt);
      if next.Err? {
        return next;
      }
      st := next.value;
      n := n + 1;
    }
    assert filenames[n..] == [];
    return Ok(st);
  }
}
