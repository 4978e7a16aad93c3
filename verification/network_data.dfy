/** The loader of the network: the fused CSV file read into a year to
    county to field record map (src/nn.py:27-52). */
module NetworkData {
  import opened Outcomes
  import opened PyDict

  /** One county's values: field name to float. */
  type Record = map<string, real>

  /** `self.data`: year text to county text to record, years and counties in
      the order they first appear in the file. */
  type Data = Dict<string, Dict<string, Record>>

  /** `fieldDictionary`: column name to column index. */
  type HeaderIndex = Dict<string, nat>

  const YearField := "Year"
  const CountyField := "County"

  ghost predicate DataValid(d: Data) {
    d.Valid() && forall y :: y in d.items ==> d.items[y].Valid()
  }

  predicate HasPair(d: Data, year: string, county: string) {
    year in d.items && county in d.items[year].items
  }

  /** `fieldDictionary` after the header loop has seen `header[..i]`. */
  function HeaderIndexOf(header: Row, i: nat): (h: HeaderIndex)
    requires i <= |header|
    ensures h.Valid()
    ensures forall name :: name in h.items ==> h.items[name] < i
    decreases i
  {
    if i == 0 then Empty()
    else
      var h := HeaderIndexOf(header, i - 1);
      if header[i - 1] in h.items then h else h.Put(header[i - 1], i - 1)
  }

  /** Each column name maps to the index of its first occurrence. */
  lemma {:induction false} HeaderFirst(header: Row, i: nat, name: string)
    requires i <= |header|
    ensures name in HeaderIndexOf(header, i).items <==> name in header[..i]
    ensures name in HeaderIndexOf(header, i).items ==>
      var k := HeaderIndexOf(header, i).items[name];
      header[k] == name && forall j :: 0 <= j < k ==> header[j] != name
    decreases i
  {
    if i > 0 {
      var h := HeaderIndexOf(header, i - 1);
      HeaderFirst(header, i - 1, name);
      assert header[..i] == header[..i - 1] + [header[i - 1]];
      if header[i - 1] == name && name !in h.items {
        assert HeaderIndexOf(header, i).items[name] == i - 1;
        forall j | 0 <= j < i - 1
          ensures header[j] != name
        {
          assert header[j] == header[..i - 1][j];
        }
      } else if name in h.items {
        assert HeaderIndexOf(header, i).items[name] == h.items[name];
      }
    }
  }

  /** A header name other than Year and County: its column is stored. */
  predicate Stored(h: HeaderIndex, f: string) {
    f in h.items && f != YearField && f != CountyField
  }

  /** The record `rec` after the field loop over `keys[j..]` has stored the
      cells of `row`. */
  function FillRecord(rec: Record, h: HeaderIndex, row: Row, j: nat, parseReal: RealParser): (r: Result<Record>)
    requires h.Valid() && j <= |h.keys|
    decreases |h.keys| - j
  {
    if j == |h.keys| then Ok(rec)
    else
      var f := h.keys[j];
      KeyAt(h, j);
      if f == YearField || f == CountyField then FillRecord(rec, h, row, j + 1, parseReal)
      else if h.items[f] >= |row| then Err(IndexError)
      else
        match parseReal(row[h.items[f]])
        case None => Err(ValueError)
        case Some(v) => FillRecord(rec[f := v], h, row, j + 1, parseReal)
  }

  /** The cell of `row` that a stored field reads, parsed. */
  predicate ReadsCell(row: Row, h: HeaderIndex, f: string, v: real, parseReal: RealParser)
    requires f in h.items
  {
    h.items[f] < |row| && parseReal(row[h.items[f]]) == Some(v)
  }

  /** `f` is a stored field that the field loop still visits from `j` on. */
  predicate Fills(h: HeaderIndex, j: nat, f: string) {
    (exists m :: j <= m < |h.keys| && h.keys[m] == f) && Stored(h, f)
  }

  /** Filling a record stores every field of `h.keys[j..]` from its cell and
      leaves every other entry as it was. */
  lemma {:induction false} FillRecordEffect(rec: Record, h: HeaderIndex, row: Row, j: nat, parseReal: RealParser, f: string)
    requires h.Valid() && j <= |h.keys|
    requires FillRecord(rec, h, row, j, parseReal).Ok?
    ensures var r := FillRecord(rec, h, row, j, parseReal).value;
      Fills(h, j, f) ==> f in r && ReadsCell(row, h, f, r[f], parseReal)
    ensures var r := FillRecord(rec, h, row, j, parseReal).value;
      !Fills(h, j, f) ==> (f in r <==> f in rec) && (f in rec ==> r[f] == rec[f])
    decreases |h.keys| - j
  {
    if j < |h.keys| {
      var g := h.keys[j];
      KeyAt(h, j);
      var next := if g == YearField || g == CountyField then rec else rec[g := parseReal(row[h.items[g]]).value];
      FillRecordEffect(next, h, row, j + 1, parseReal, f);
      if Fills(h, j, f) && g != f {
        var m :| j <= m < |h.keys| && h.keys[m] == f;
        assert Fills(h, j + 1, f);
      }
      if g == f && Stored(h, f) {
        assert !Fills(h, j + 1, f);
      }
      if !Fills(h, j, f) {
        assert !Fills(h, j + 1, f);
      }
    }
  }

  /** Every stored field of `h` is filled from the row. */
  lemma FillRecordStores(rec: Record, h: HeaderIndex, row: Row, parseReal: RealParser, f: string)
    requires h.Valid() && FillRecord(rec, h, row, 0, parseReal).Ok? && Stored(h, f)
    ensures var r := FillRecord(rec, h, row, 0, parseReal).value;
      f in r && ReadsCell(row, h, f, r[f], parseReal)
  {
    var ks := set k | 0 <= k < |h.keys| :: h.keys[k];
    assert f in ks;
    assert Fills(h, 0, f);
    FillRecordEffect(rec, h, row, 0, parseReal, f);
  }

  /** The (year, county) a non-blank row names, if its columns exist. */
  function RowPair(h: HeaderIndex, row: Row): Option<(string, string)> {
    if |row| == 0 || YearField !in h.items || CountyField !in h.items then None
    else if h.items[YearField] >= |row| || h.items[CountyField] >= |row| then None
    else Some((row[h.items[YearField]], row[h.items[CountyField]]))
  }

  /** The record stored for (year, county), or a fresh empty one. */
  function Slot(d: Data, year: string, county: string): (r: Record)
    ensures HasPair(d, year, county) ==> r == d.items[year].items[county]
    ensures !HasPair(d, year, county) ==> r == map[]
  {
    if HasPair(d, year, county) then d.items[year].items[county] else map[]
  }

  /** `d[y][c] = v` on a two-level dict after creating `d[y]` as an empty
      dict and `d[y][c]` as `init` when new: only the entry `c` of `d[y]`
      changes. */
  function PutPair<V>(d: Dict<string, Dict<string, V>>, y: string, c: string, init: V, v: V): (r: Dict<string, Dict<string, V>>)
    requires d.Valid() && (y in d.items ==> d.items[y].Valid())
    ensures r.Valid() && y in r.items && r.items[y].Valid() && c in r.items[y].items && r.items[y].items[c] == v
  {
    var years := if y in d.items then d else d.Put(y, Empty());
    var counties := if c in years.items[y].items then years.items[y] else years.items[y].Put(c, init);
    years.Put(y, counties.Put(c, v))
  }

  /** `data[year][county] = rec`, creating the year's dict and the county's
      entry when new. */
  function Store(d: Data, year: string, county: string, rec: Record): (r: Data)
    requires DataValid(d)
    ensures DataValid(r)
    ensures HasPair(r, year, county) && r.items[year].items[county] == rec
  {
    PutPair(d, year, county, map[], rec)
  }

  /** Storing under one pair leaves every other pair as it was. */
  lemma PutPairMiss<V>(d: Dict<string, Dict<string, V>>, y: string, c: string, init: V, v: V, year: string, county: string)
    requires d.Valid() && (y in d.items ==> d.items[y].Valid())
    requires (y, c) != (year, county)
    ensures var r := PutPair(d, y, c, init, v);
      && (year in r.items && county in r.items[year].items <==> year in d.items && county in d.items[year].items)
      && (year in d.items && county in d.items[year].items ==> r.items[year].items[county] == d.items[year].items[county])
  {
  }

  /** One row of the file: blank rows are skipped; otherwise the year and
      county dicts are created when new and the row's values stored into the
      county's record, overwriting earlier values. */
  function LoadRow(d: Data, h: HeaderIndex, row: Row, parseReal: RealParser): (r: Result<Data>)
    requires DataValid(d) && h.Valid()
    ensures r.Ok? ==> DataValid(r.value)
  {
    if |row| == 0 then Ok(d)
    else if YearField !in h.items then Err(KeyError)
    else if h.items[YearField] >= |row| then Err(IndexError)
    else if CountyField !in h.items then Err(KeyError)
    else if h.items[CountyField] >= |row| then Err(IndexError)
    else
      var year, county := row[h.items[YearField]], row[h.items[CountyField]];
      match FillRecord(Slot(d, year, county), h, row, 0, parseReal)
      case Err(e) => Err(e)
      case Ok(rec) => Ok(Store(d, year, county, rec))
  }

  /** The rows `rows[i..]` loaded into `d` in order. */
  function LoadRows(d: Data, h: HeaderIndex, rows: seq<Row>, i: nat, parseReal: RealParser): (r: Result<Data>)
    requires DataValid(d) && h.Valid() && i <= |rows|
    ensures r.Ok? ==> DataValid(r.value)
    decreases |rows| - i
  {
    if i == |rows| then Ok(d)
    else
      match LoadRow(d, h, rows[i], parseReal)
      case Err(e) => Err(e)
      case Ok(next) => LoadRows(next, h, rows, i + 1, parseReal)
  }

  /** `getDataFromFile`: the header, then every row. */
  function DataOf(table: Table, parseReal: RealParser): Result<Data> {
    if |table| == 0 then Err(StopIteration)
    else LoadRows(Empty(), HeaderIndexOf(table[0], |table[0]|), table, 1, parseReal)
  }

  /** A row creates the record of the pair it names if needed, and stores
      the row's value in every stored field of it. */
  lemma LoadRowHit(d: Data, h: HeaderIndex, row: Row, parseReal: RealParser, year: string, county: string)
    requires DataValid(d) && h.Valid() && LoadRow(d, h, row, parseReal).Ok?
    requires RowPair(h, row) == Some((year, county))
    ensures var r := LoadRow(d, h, row, parseReal).value;
      HasPair(r, year, county)
      && forall f :: Stored(h, f) ==>
           f in r.items[year].items[county] && ReadsCell(row, h, f, r.items[year].items[county][f], parseReal)
  {
    var rec := FillRecord(Slot(d, year, county), h, row, 0, parseReal).value;
    forall f | Stored(h, f)
      ensures f in rec && ReadsCell(row, h, f, rec[f], parseReal)
    {
      FillRecordStores(Slot(d, year, county), h, row, parseReal, f);
    }
  }

  /** A row leaves the record of every pair it does not name as it was. */
  lemma LoadRowMiss(d: Data, h: HeaderIndex, row: Row, parseReal: RealParser, year: string, county: string)
    requires DataValid(d) && h.Valid() && LoadRow(d, h, row, parseReal).Ok?
    requires RowPair(h, row) != Some((year, county))
    ensures var r := LoadRow(d, h, row, parseReal).value;
      (HasPair(r, year, county) <==> HasPair(d, year, county))
      && (HasPair(d, year, county) ==> r.items[year].items[county] == d.items[year].items[county])
  {
    if |row| > 0 {
      var y, c := row[h.items[YearField]], row[h.items[CountyField]];
      var rec := FillRecord(Slot(d, y, c), h, row, 0, parseReal).value;
      assert LoadRow(d, h, row, parseReal).value == PutPair(d, y, c, map[], rec);
      PutPairMiss(d, y, c, map[], rec, year, county);
    }
  }

  /** Rows that do not name (year, county) leave its record as it was. */
  lemma {:induction false} LoadRowsFrame(d: Data, h: HeaderIndex, rows: seq<Row>, i: nat, parseReal: RealParser,
                                         year: string, county: string)
    requires DataValid(d) && h.Valid() && i <= |rows| && LoadRows(d, h, rows, i, parseReal).Ok?
    requires forall j :: i <= j < |rows| ==> RowPair(h, rows[j]) != Some((year, county))
    ensures var r := LoadRows(d, h, rows, i, parseReal).value;
      (HasPair(r, year, county) <==> HasPair(d, year, county))
      && (HasPair(d, year, county) ==> r.items[year].items[county] == d.items[year].items[county])
    decreases |rows| - i
  {
    if i < |rows| {
      var next := LoadRow(d, h, rows[i], parseReal).value;
      LoadRowMiss(d, h, rows[i], parseReal, year, county);
      LoadRowsFrame(next, h, rows, i + 1, parseReal, year, county);
    }
  }

  /** Repeated (year, county) rows share one record, and the last of them
      decides every stored value: the record holds the cells of the last row
      that names the pair. */
  lemma {:induction false} LastRowWins(d: Data, h: HeaderIndex, rows: seq<Row>, i: nat, parseReal: RealParser,
                                       last: nat, f: string)
    requires DataValid(d) && h.Valid() && i <= last < |rows| && LoadRows(d, h, rows, i, parseReal).Ok?
    requires RowPair(h, rows[last]).Some? && Stored(h, f)
    requires forall j :: last < j < |rows| ==> RowPair(h, rows[j]) != RowPair(h, rows[last])
    ensures var (year, county) := RowPair(h, rows[last]).value;
      var r := LoadRows(d, h, rows, i, parseReal).value;
      HasPair(r, year, county) && f in r.items[year].items[county]
      && ReadsCell(rows[last], h, f, r.items[year].items[county][f], parseReal)
    decreases |rows| - i
  {
    var (year, county) := RowPair(h, rows[last]).value;
    var next := LoadRow(d, h, rows[i], parseReal).value;
    if i < last {
      LastRowWins(next, h, rows, i + 1, parseReal, last, f);
    } else {
      LoadRowHit(d, h, rows[i], parseReal, year, county);
      LoadRowsFrame(next, h, rows, i + 1, parseReal, year, county);
    }
  }

  /** The fields every record holds: the header names but Year and County. */
  function StoredKeys(h: HeaderIndex): set<string> {
    set f | f in h.items && f != YearField && f != CountyField
  }

  /** Every record holds exactly the stored fields. */
  ghost predicate Complete(d: Data, h: HeaderIndex) {
    forall y, c :: HasPair(d, y, c) ==> d.items[y].items[c].Keys == StoredKeys(h)
  }

  /** Filling adds exactly the stored fields to a record. */
  lemma FillRecordKeys(rec: Record, h: HeaderIndex, row: Row, parseReal: RealParser)
    requires h.Valid() && FillRecord(rec, h, row, 0, parseReal).Ok?
    ensures FillRecord(rec, h, row, 0, parseReal).value.Keys == rec.Keys + StoredKeys(h)
  {
    var r := FillRecord(rec, h, row, 0, parseReal).value;
    forall f
      ensures f in r <==> f in rec || f in StoredKeys(h)
    {
      if Stored(h, f) {
        FillRecordStores(rec, h, row, parseReal, f);
      } else {
        FillRecordEffect(rec, h, row, 0, parseReal, f);
      }
    }
  }

  lemma UnionAbsorbs<T>(a: set<T>, b: set<T>)
    requires a <= b
    ensures a + b == b
  {
  }

  /** The record a row names holds exactly the stored fields afterwards. */
  lemma LoadRowHitKeys(d: Data, h: HeaderIndex, row: Row, parseReal: RealParser, y: string, c: string)
    requires DataValid(d) && h.Valid() && LoadRow(d, h, row, parseReal).Ok?
    requires HasPair(d, y, c) ==> d.items[y].items[c].Keys == StoredKeys(h)
    requires RowPair(h, row) == Some((y, c))
    ensures HasPair(LoadRow(d, h, row, parseReal).value, y, c)
    ensures LoadRow(d, h, row, parseReal).value.items[y].items[c].Keys == StoredKeys(h)
  {
    var before := Slot(d, y, c);
    FillRecordKeys(before, h, row, parseReal);
    UnionAbsorbs(before.Keys, StoredKeys(h));
  }

  /** A row keeps every record holding exactly the stored fields. */
  lemma LoadRowComplete(d: Data, h: HeaderIndex, row: Row, parseReal: RealParser)
    requires DataValid(d) && h.Valid() && Complete(d, h) && LoadRow(d, h, row, parseReal).Ok?
    ensures Complete(LoadRow(d, h, row, parseReal).value, h)
  {
    var r := LoadRow(d, h, row, parseReal).value;
    forall y, c | HasPair(r, y, c)
      ensures r.items[y].items[c].Keys == StoredKeys(h)
    {
      if RowPair(h, row) == Some((y, c)) {
        LoadRowHitKeys(d, h, row, parseReal, y, c);
      } else {
        LoadRowMiss(d, h, row, parseReal, y, c);
      }
    }
  }

  lemma {:induction false} LoadRowsComplete(d: Data, h: HeaderIndex, rows: seq<Row>, i: nat, parseReal: RealParser)
    requires DataValid(d) && h.Valid() && i <= |rows| && Complete(d, h) && LoadRows(d, h, rows, i, parseReal).Ok?
    ensures Complete(LoadRows(d, h, rows, i, parseReal).value, h)
    decreases |rows| - i
  {
    if i < |rows| {
      LoadRowComplete(d, h, rows[i], parseReal);
      LoadRowsComplete(LoadRow(d, h, rows[i], parseReal).value, h, rows, i + 1, parseReal);
    }
  }

  /** Every record of the loaded data holds a float for every column of the
      file but Year and County, and nothing else. */
  lemma DataComplete(table: Table, parseReal: RealParser)
    requires DataOf(table, parseReal).Ok?
    ensures Complete(DataOf(table, parseReal).value, HeaderIndexOf(table[0], |table[0]|))
  {
    LoadRowsComplete(Empty(), HeaderIndexOf(table[0], |table[0]|), table, 1, parseReal);
  }

  /** The header loop (src/nn.py:36-40). */
  method BuildHeaderIndex(header: Row) returns (h: HeaderIndex)
    ensures h == HeaderIndexOf(header, |header|)
  {
    h := Empty();
    for i := 0 to |header|
      invariant h == HeaderIndexOf(header, i)
    {
      if header[i] !in h.items {
        h := h.Put(header[i], i);
      }
    }
  }

  /** The field loop of one row (src/nn.py:49-51). */
  method StoreFields(rec0: Record, h: HeaderIndex, row: Row, parseReal: RealParser) returns (r: Result<Record>)
    requires h.Valid()
    ensures r == FillRecord(rec0, h, row, 0, parseReal)
  {
    var rec := rec0;
    var j := 0;
    while j < |h.keys|
      invariant 0 <= j <= |h.keys|
      invariant FillRecord(rec, h, row, j, parseReal) == FillRecord(rec0, h, row, 0, parseReal)
    {
      var parsedField := h.keys[j];
      KeyAt(h, j);
      if parsedField != YearField && parsedField != CountyField {
        if h.items[parsedField] >= |row| {
          return Err(IndexError);
        }
        var v := parseReal(row[h.items[parsedField]]);
        if v.None? {
          return Err(ValueError);
        }
        rec := rec[parsedField := v.value];
      }
      j := j + 1;
    }
    return Ok(rec);
  }

  /** The body of the row loop (src/nn.py:42-51). */
  method LoadOneRow(d: Data, h: HeaderIndex, row: Row, parseReal: RealParser) returns (r: Result<Data>)
    requires DataValid(d) && h.Valid()
    ensures r == LoadRow(d, h, row, parseReal)
  {
    if |row| == 0 {
      return Ok(d);
    }
    if YearField !in h.items {
      return Err(KeyError);
    }
    if h.items[YearField] >= |row| {
      return Err(IndexError);
    }
    var year := row[h.items[YearField]];
    if CountyField !in h.items {
      return Err(KeyError);
    }
    if h.items[CountyField] >= |row| {
      return Err(IndexError);
    }
    var county := row[h.items[CountyField]];
    var yearSet := d;
    if year !in yearSet.items {
      yearSet := yearSet.Put(year, Empty());
    }
    var counties := yearSet.items[year];
    if county !in counties.items {
      counties := counties.Put(county, map[]);
    }
    var rec := StoreFields(counties.items[county], h, row, parseReal);
    if rec.Err? {
      return Err(rec.error);
    }
    return Ok(yearSet.Put(year, counties.Put(county, rec.value)));
  }

  /** `getDataFromFile` on the rows of the file (src/nn.py:27-52). */
  method GetDataFromFile(table: Table, parseReal: RealParser) returns (r: Result<Data>)
    ensures r == DataOf(table, parseReal)
  {
    if |table| == 0 {
      return Err(StopIteration);
    }
    var h := BuildHeaderIndex(table[0]);
    var yearSet: Data := Empty();
    var i := 1;
    while i < |table|
      invariant 1 <= i <= |table| && DataValid(yearSet)
      invariant LoadRows(yearSet, h, table, i, parseReal) == DataOf(table, parseReal)
    {
      var next := LoadOneRow(yearSet, h, table[i], parseReal);
      if next.Err? {
        return Err(next.error);
      }
      yearSet := next.value;
      i := i + 1;
    }
    return Ok(yearSet);
  }
}
