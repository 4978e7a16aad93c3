# InfluenzaNetwork core, modelled in Dafny

InfluenzaNetwork fuses three public data sets about New York counties:
influenza case counts per season, census population estimates and CDC
Social Vulnerability Index (SVI) files. It writes one CSV row per season
and county. It then trains regression models that predict the share of a
county's population with influenza from its SVI fields, and sweeps feature
subsets and hyper-parameter grids to find the best model.

This project models the logic of that pipeline:

- the fusion script `src/datasort.py`: argument check, influenza
  aggregation, population join, SVI header discovery and row join, and
  sorted emission;
- from `src/nn.py`: the data set loader `getDataFromFile`, the train/test
  split `getIOFromData` over the `InfluenzaNetwork` object's split
  attributes, the error measure `testModel_statistics`, and the file-name
  rule of `exportModel`;
- from `src/nntest.py`: `getAllSubsets`, `updateRunningAverages`,
  `calculateRunningAverages`, and the sweep loops, which track the best
  cell, dump good models, walk grids and rank fields;
- from `src/nnmodel.py`: the plot-point selection helpers `_bestFit`,
  `_random` and `_arrange`.

The model keeps the form of the Python code. Loops are Dafny methods with
loop invariants. Each method's result is given by a specification function
or stated element by element, and lemmas prove what the functions mean. The `InfluenzaNetwork` object and
the running-average dictionary are classes whose methods update their
fields.

Python's behaviour is spelled out where it matters:

- `str.find` returns -1 when the text is absent, and slices clamp their
  bounds (module `PyText`);
- `strip` removes Python's Unicode white space (module `PyText`);
  `upper` maps only the ASCII letters a-z (see "Left out"); strings compare
  lexicographically by code point;
- dictionaries keep their insertion order (`PyDict.Dict`);
- exceptions are `Outcomes.Failure` values returned in `Result`.

A few things become parameters of the model:

- CSV files become the `Files` map from path to already-tokenised rows;
- `int()`/`float()` parsing becomes the `IntParser`/`RealParser`
  functions;
- the values `random.randint` returns become a caller-supplied `picks`
  sequence;
- training and testing one sweep cell becomes an `error` oracle;
- the timestamp becomes a string.

Behaviour of the code worth noting:

- A missing or non-CSV argument exits with status 0, not an error status
  (`src/datasort.py:25`).
- A population of 0 raises ZeroDivisionError instead of dropping the
  record. A year offset below -10 raises IndexError. An offset between -10
  and -1 reads the estimates from the end (`src/datasort.py:69-72`).
- A zero target in `testModel_statistics` yields a non-finite mean
  (`NonFinite`). It is neither rejected nor flagged.
- The SVI file year is the text between "svi" and ".csv" in the file name,
  not a trailing numeral (`src/datasort.py:82`).
- An SVI field registered only by a later SVI file makes the emission of a
  county from an earlier file raise KeyError. The field index persists
  across files, but earlier counties have no value for the new field
  (`src/datasort.py:80`, `:133`).
- The county test of `src/datasort.py:100` looks in the outer SVI
  dictionary, keyed by year, so it never finds the county. Each SVI row
  therefore replaces its county's values, and the last row wins.

## Model

| member | source | states |
|---|---|---|
| FusionArgs.CsvOnlyMembers | src/datasort.py:19-21 | an SVI argument is kept exactly when it is among the arguments and contains ".csv" |
| FusionArgs.CsvOnlyAppend | src/datasort.py:19-21 | the kept SVI arguments keep their order: filtering a concatenation concatenates the filtered parts |
| FusionArgs.ParseArgs | src/datasort.py:9-25 | usage is printed and the exit status is 0 exactly when there are fewer than two arguments or one of the first two lacks ".csv"; otherwise the two input names and the ".csv" SVI names are returned |
| Fusion.CsvOnlyAllCsv | src/datasort.py:19-21 | every kept SVI name contains ".csv" |
| Fusion.RowCounted | src/datasort.py:36-46 | an emitted row stands for a season whose influenza rows name its county, and its cases are their sum |
| Fusion.JoinedRowsCounted | src/datasort.py:36-136 | when the pipeline succeeds, every influenza row parsed and every emitted row carries the summed count of its season and county |
| Fusion.OutputCounts | src/datasort.py:31-136 | end to end: a successful run had a header row and parseable influenza rows, and every output row's cases are the sum of the matching influenza counts |
| Fusion.Fuse | src/datasort.py:9-136 | the script's result is the usage message, the crash with the exception of the first failing step, or the emitted file |
| FusionCases.AggregateFails | src/datasort.py:36-39 | reading the influenza rows fails exactly when some row is too short or has a non-integer count, and then with the exception of the first such row |
| FusionCases.AddRowEffect | src/datasort.py:37-46 | one row creates the (season, county) record if missing and adds its count to it; every other record is unchanged |
| FusionCases.MentionsCons | src/datasort.py:36-38 | a pair is named by a row list exactly when the first row or a later row names it |
| FusionCases.AggregateSums | src/datasort.py:36-46 | after all rows, a (season, county) record exists exactly when some row names the pair, and its cases are the exact sum of the counts of those rows; the county text is not normalised |
| FusionCases.TallyRow | src/datasort.py:40-46 | one row's update of `yearSet`: a new season, a new county or an added count |
| FusionCases.LoadInfluenza | src/datasort.py:31-46 | the loop computes the season/county case totals, or StopIteration on an empty file |
| FusionPopulation.SeasonYearText | src/datasort.py:68 | the year text is everything after the first "-", or the whole season when it has none |
| FusionPopulation.CountyKeyNormalized | src/datasort.py:65 | the join key is already stripped and upper-cased, so normalising it again leaves it unchanged |
| FusionPopulation.JoinAt | src/datasort.py:73-74 | a join leaves the season list and the season keys as they are |
| FusionPopulation.JoinSeasons | src/datasort.py:67-74 | joining a county over all seasons keeps the season keys when it succeeds |
| FusionPopulation.PopRow | src/datasort.py:56-74 | one population row keeps the season keys when it succeeds |
| FusionPopulation.JoinAll | src/datasort.py:56-74 | all population rows keep the season keys when they succeed |
| FusionPopulation.PopRowShort | src/datasort.py:59-61 | a row with fewer than 19 cells raises IndexError while the estimates are read |
| FusionPopulation.PopRowCases | src/datasort.py:63-67 | a New York county row joins its normalised key into every season in order; any other row changes nothing |
| FusionPopulation.JoinAllStep | src/datasort.py:56-74 | the rows are processed in file order and the first exception stops the load |
| FusionPopulation.JoinAtShape | src/datasort.py:73-74 | a join only appends to one record: keys and cases stay, the join list only grows |
| FusionPopulation.JoinSeasonsShape | src/datasort.py:67-74 | joining one county over the seasons only appends to records |
| FusionPopulation.PopRowShape | src/datasort.py:56-74 | one population row only appends to records |
| FusionPopulation.JoinAllShape | src/datasort.py:56-74 | the whole population load only appends to records: no record appears or disappears and no count changes |
| FusionPopulation.JoinAtEffect | src/datasort.py:73-74 | a join appends to the one (season, county) record it names and to no other |
| FusionPopulation.JoinSeasonsEffect | src/datasort.py:67-74 | after a county's row, each of its seasons' records got that season's join appended, and every other record is unchanged |
| FusionPopulation.NoLowerBound | src/datasort.py:69-71 | a negative year offset passes the guard: below -10 it raises IndexError, otherwise it reads the estimate counted from the end |
| FusionPopulation.ZeroPopulationRaises | src/datasort.py:71-72 | an estimate of 0 for a present county raises ZeroDivisionError rather than skipping the record |
| FusionPopulation.JoinIsShare | src/datasort.py:70-74 | a join happens only for a present county and an offset below 10; it adds the non-zero estimate at the offset and the share cases / population |
| FusionPopulation.OtherRowsSkipped | src/datasort.py:63-64 | rows outside New York or without "County" in the name change nothing |
| FusionPopulation.ComputeJoin | src/datasort.py:68-72 | one season's join, or the exception it raises |
| FusionPopulation.JoinCounty | src/datasort.py:67-74 | the season loop for one county row |
| FusionPopulation.ReadEstimates | src/datasort.py:59-61 | the ten estimate cells 9 to 18, or the IndexError of a short row |
| FusionPopulation.LoadPopulation | src/datasort.py:52-74 | the population loop over the file after its header row, or StopIteration on an empty file |
| FusionSvi.InitialIndex | src/datasort.py:80 | the field index starts with STATE, COUNTY and the sixteen fields, all unlocated |
| FusionSvi.RegisterEffect | src/datasort.py:88-96 | after the header scan, a name is indexed exactly when it was before or is a registering header; a registering header points at its last column |
| FusionSvi.RegisterKeeps | src/datasort.py:88-96 | the header scan never removes a field, so the index persists across SVI files |
| FusionSvi.UnderscoreFreeHeader | src/datasort.py:94-95 | without "_", the slice to `find("_")` drops the last character |
| FusionSvi.FieldValues | src/datasort.py:102-109 | a row's values exist exactly when every located field's column is in the row, otherwise IndexError; an unlocated field holds the sentinel and a located one the cell's text |
| FusionSvi.CollectValuesSpec | src/datasort.py:102-109 | the field loop gives all located values, or IndexError when a located column is past the row's end |
| FusionSvi.CollectAll | src/datasort.py:102-109 | the loop over the sorted keys computes the row's values |
| FusionSvi.SviRowsSnoc | src/datasort.py:97-109 | the rows of one SVI file are processed in order, and the first failure stops the load |
| FusionSvi.LastRowWins | src/datasort.py:98-109 | after a New York row, its upper-cased county holds exactly that row's values |
| FusionSvi.LastNaming | src/datasort.py:98-101 | the position of the last New York row naming a county, which does name it |
| FusionSvi.LastNamingIsLast | src/datasort.py:98-101 | no row names the county exactly when there is no last one; otherwise row k is the last exactly when it names the county and no later row does |
| FusionSvi.JoinedSnoc | src/datasort.py:97-109 | the join of some rows followed by the join of one more is the join of all of them |
| FusionSvi.JoinLastRow | src/datasort.py:98-109 | one successful row joins its county's values into the file's year, leaving every other county as it was |
| FusionSvi.SviRowsJoin | src/datasort.py:97-109 | after a whole file's rows, a county is in the file's year exactly when it was before or some New York row names it; it then holds the values of the last such row, or else its old values |
| FusionSvi.SviRowsFrame | src/datasort.py:97-109 | the rows of a file change only that file's year, and never lose a county |
| FusionSvi.SviFile | src/datasort.py:82-109 | one SVI file keeps the index well formed and never removes a field (what it stores: SviFileJoin) |
| FusionSvi.SviAll | src/datasort.py:81-109 | all SVI files keep the index well formed and never remove a field (what they store: SviAllAppend, SviFileJoin, SviAllYears) |
| FusionSvi.SviAllStep | src/datasort.py:81-109 | the SVI files are read in order, and the first failure stops the load |
| FusionSvi.SviFileJoin | src/datasort.py:82-109 | a successful file has a parseable year and a header; the index is that header registered, only the file's year is added or changed, and it holds the join of the file's rows onto what it held |
| FusionSvi.SviAllAppend | src/datasort.py:81-109 | loading two lists of files one after the other is loading their concatenation |
| FusionSvi.SviFileKeeps | src/datasort.py:82-109 | one file drops no year and no county, and adds at most its own year |
| FusionSvi.SviAllYears | src/datasort.py:81-109 | all files drop no year and no county, and every year loaded was there before or is the year of some file |
| FusionSvi.InitialState | src/datasort.py:79-80 | loading starts with no SVI years and the sixteen value fields |
| FusionSvi.RegisterHeader | src/datasort.py:88-96 | the header-registration loop |
| FusionSvi.ReadValues | src/datasort.py:102-109 | the field loop of one SVI row |
| FusionSvi.ReadValuesOf | src/datasort.py:102-109 | the field loop over a list of keys |
| FusionSvi.ReadRows | src/datasort.py:97-109 | the row loop of one SVI file |
| FusionSvi.LoadFile | src/datasort.py:82-109 | one SVI file: its year, its header and its rows, or the exception raised |
| FusionSvi.LoadSvi | src/datasort.py:79-109 | the loop over the SVI files |
| FusionEmit.Columns | src/datasort.py:115-118 | the output columns are exactly the value fields, sorted without repeats |
| FusionEmit.SviNumbers | src/datasort.py:132-134 | a county's SVI numbers have one value per column, in column order, the sentinel included; a missing column raises |
| FusionEmit.RecordNumbers | src/datasort.py:129 | the record's cases, population and percent, one number each |
| FusionEmit.CountyRowWritten | src/datasort.py:127-135 | a row is written exactly when the record has three values and the SVI year has the county; it then holds the year, the three numbers and one SVI number per column |
| FusionEmit.SentinelWritten | src/datasort.py:107 | the sentinel -999999999 is written as a number, not filtered |
| FusionEmit.EmitCounties | src/datasort.py:126-136 | every row written for a season has one cell per header column |
| FusionEmit.EmitSeasons | src/datasort.py:123-136 | every row written has one cell per header column |
| FusionEmit.CountyRowFrom | src/datasort.py:127-129 | a written row comes from its county's record of the season |
| FusionEmit.EmitCountiesFrom | src/datasort.py:124-136 | every row written for a season comes from a record of that season |
| FusionEmit.RowsFromAppend | src/datasort.py:123-136 | rows from one season stay from that season when concatenated |
| FusionEmit.EmitSeasonsFrom | src/datasort.py:123-136 | every written row comes from some season's record |
| FusionEmit.EmittedFrom | src/datasort.py:113-136 | every output row comes from a joined record |
| FusionEmit.KeptMembers | src/datasort.py:126-127 | a county is kept exactly when it is listed and gets a row |
| FusionEmit.KeptSorted | src/datasort.py:126-127 | keeping some of a strictly sorted list leaves it strictly sorted |
| FusionEmit.FlattenMembers | src/datasort.py:123-127 | a pair is in the flattened blocks exactly when its county is in the block of its season |
| FusionEmit.FlattenSorted | src/datasort.py:123-127 | sorted seasons with sorted blocks flatten to pairs ascending by season, then county |
| FusionEmit.BlockMembers | src/datasort.py:126-135 | a season's block holds exactly its counties that get a row |
| FusionEmit.WrittenPairsMembers | src/datasort.py:123-135 | a (season, county) pair is written exactly when its record has three numbers, its season year parses and, when there are SVI columns, its year's SVI data has the county |
| FusionEmit.WrittenPairsSorted | src/datasort.py:123-127 | the written pairs ascend by season, then by county within a season |
| FusionEmit.CountyRowWrites | src/datasort.py:127-135 | a county's record gives a row exactly when it is one that gets a row |
| FusionEmit.CountyRowSvi | src/datasort.py:131-135 | a written row's cells after the first three are the SVI numbers of its year and county, one per column in column order |
| FusionEmit.CountyRowFollows | src/datasort.py:127-135 | the row written for a county, if any, is that county's row drawn from its season's record and ending with its SVI numbers |
| FusionEmit.EmitCountiesKept | src/datasort.py:126-136 | one season's rows are, one each and in order, those of its counties that get a row |
| FusionEmit.EmitSeasonsFollow | src/datasort.py:123-136 | the rows of the seasons from one on are, one each and in order, those of the written pairs of those seasons |
| FusionEmit.EmittedRows | src/datasort.py:113-136 | the output has exactly one row per written (season, county) pair and no other row; each row holds the season's year, the county, the record's three numbers and then the county's SVI number for each column in order; the rows ascend by season and by county within a season |
| FusionEmit.EmittedWidth | src/datasort.py:135 | every output row has as many cells as the header |
| FusionEmit.EmittedHeader | src/datasort.py:121 | the header is Year, County, Cases, Population, Percent followed by the value fields in sorted order |
| FusionEmit.AppendSvi | src/datasort.py:132-134 | the SVI append loop |
| FusionEmit.CountyLine | src/datasort.py:127-136 | the row for one county, or none, or the exception raised |
| FusionEmit.EmitSeason | src/datasort.py:124-136 | the county loop of one season over the sorted counties |
| FusionEmit.EmitAll | src/datasort.py:123-136 | the season loop |
| FusionEmit.Emit | src/datasort.py:113-136 | emission over the sorted seasons |
| Network.PercentError | src/nn.py:135 | the percent error is non-finite exactly when the actual value is 0; otherwise it is non-negative, and 0 exactly when the prediction is exact |
| Network.PercentErrors | src/nn.py:133-136 | one percent error per prediction, in order |
| Network.Mean | src/nn.py:137 | `statistics.mean` raises StatisticsError exactly on an empty list |
| Network.SumOfNonNegative | src/nn.py:137 | a sum of non-negative errors is finite exactly when all are, non-negative, and 0 exactly when all are 0 |
| Network.MeanPercentErrorSign | src/nn.py:128-137 | for a non-empty test set the mean exists; it is non-finite exactly when some target is 0, otherwise non-negative, and 0 exactly when every prediction is exact |
| Network.MeanPercentErrorExample | src/nn.py:135-137 | targets [1.0, 2.0] and predictions [1.1, 2.0] give 5 |
| Network.ExportNameChoice | src/nn.py:161-163 | the chosen name always contains ".pickle"; a given name is kept exactly when it contains ".pickle", otherwise the timestamp name is used |
| Network.ExportNameStable | src/nn.py:161-163 | exporting under a name the rule chose keeps that name |
| Network.CountyLoop | src/nn.py:61-67 | the county loop of one year computes that year's samples, or KeyError |
| Network.YearLoop | src/nn.py:60-67 | the year loop computes all samples, or KeyError |
| Network.PickMove | src/nn.py:73-80 | moving the drawn index from the pool to the training list moves the same item |
| Network.PickProjections | src/nn.py:73-80 | picking inputs, targets or metadata at indices equals projecting the picked samples |
| Network.SplitProjections | src/nn.py:81-86 | the six split attributes are the projections of the training and test samples |
| Network.DrawnSoFarStart | src/nn.py:58-59 | before the draw loop, nothing is chosen and every position remains |
| Network.DrawnSoFarStep | src/nn.py:73-80 | each draw is in range and pops the same position from all three lists |
| Network.DrawnSoFarEnd | src/nn.py:73-80 | when the training set is full, the loop has made exactly the specified draw |
| Network.DrawLoop | src/nn.py:73-80 | the three parallel lists are split into training and test lists at the drawn positions, kept aligned |
| Network.InfluenzaNetwork.constructor | src/nn.py:15-25 | a new object holds the data, fields and test fraction; its split is empty |
| Network.InfluenzaNetwork.GetIOFromData | src/nn.py:54-86 | the split attributes become the training and test samples of the draw, and nothing else changes; a record without a needed field raises KeyError and leaves them unchanged |
| Network.InfluenzaNetwork.SetSplit | src/nn.py:81-86 | the six split attributes are assigned and the rest of the object is unchanged |
| Network.InfluenzaNetwork.TestModelStatistics | src/nn.py:128-137 | the result is the mean percent error of the predictions over the test targets |
| NetworkData.HeaderIndexOf | src/nn.py:36-40 | every header index points before the end |
| NetworkData.HeaderFirst | src/nn.py:38-40 | a name is in the header map exactly when it is in the header, and it maps to its first column |
| NetworkData.FillRecordEffect | src/nn.py:49-51 | the field loop stores every non-key field from its cell and leaves other entries unchanged, or raises on a bad cell |
| NetworkData.FillRecordStores | src/nn.py:49-51 | after the field loop every non-key field holds the value parsed from its cell |
| NetworkData.PutPair | src/nn.py:45-48 | after the two setdefault steps the (year, county) record is the one stored |
| NetworkData.Store | src/nn.py:45-51 | storing a record keeps the year/county map well formed and puts the record at its pair |
| NetworkData.PutPairMiss | src/nn.py:45-48 | storing at one pair leaves every other pair's presence and record unchanged |
| NetworkData.LoadRow | src/nn.py:42-51 | loading a row keeps the year/county map well formed |
| NetworkData.LoadRows | src/nn.py:41-51 | loading rows keeps the year/county map well formed |
| NetworkData.LoadRowHit | src/nn.py:43-51 | a row's pair exists afterwards and every non-key field holds the row's value |
| NetworkData.LoadRowMiss | src/nn.py:42-51 | a row leaves every other pair as it was; a blank row changes nothing |
| NetworkData.LoadRowsFrame | src/nn.py:41-51 | rows naming other pairs leave a pair as it was |
| NetworkData.LastRowWins | src/nn.py:41-51 | a repeated pair holds the values of its last row: later rows overwrite earlier ones |
| NetworkData.FillRecordKeys | src/nn.py:49-51 | the field loop adds exactly the non-key fields to the record |
| NetworkData.LoadRowHitKeys | src/nn.py:43-51 | a loaded record holds exactly the non-key fields |
| NetworkData.LoadRowComplete | src/nn.py:42-51 | a row keeps every record holding exactly the non-key fields |
| NetworkData.LoadRowsComplete | src/nn.py:41-51 | all rows keep every record holding exactly the non-key fields |
| NetworkData.DataComplete | src/nn.py:27-52 | every loaded record holds exactly the header's non-key fields |
| NetworkData.BuildHeaderIndex | src/nn.py:36-40 | the header loop builds the first-occurrence map |
| NetworkData.StoreFields | src/nn.py:49-51 | the field loop of one row |
| NetworkData.LoadOneRow | src/nn.py:42-51 | one row of the loader's loop |
| NetworkData.GetDataFromFile | src/nn.py:27-52 | the loader over the file after its header, or StopIteration on an empty file |
| NetworkSplit.Inputs | src/nn.py:63-66 | the feature vectors of the samples, in order |
| NetworkSplit.Outputs | src/nn.py:62 | the targets of the samples, in order |
| NetworkSplit.Infos | src/nn.py:67 | the metadata of the samples, in order |
| NetworkSplit.SampleOf | src/nn.py:62-67 | a record gives a sample exactly when it has Percent, Population and every requested field, otherwise KeyError |
| NetworkSplit.CountySamplesFor | src/nn.py:61-67 | every sample of a year is the sample of one of its county records |
| NetworkSplit.YearSamplesFor | src/nn.py:60-67 | every sample is the sample of one stored (year, county) record |
| NetworkSplit.CountySamplesFail | src/nn.py:61-67 | a year's samples fail exactly when one of its records lacks a needed field, and then with KeyError |
| NetworkSplit.YearSamplesFail | src/nn.py:60-67 | sampling fails exactly when some record lacks a needed field, and then with KeyError |
| NetworkSplit.CompleteByKeys | src/nn.py:61 | checking the records by map or by key order agree |
| NetworkSplit.TestFraction | src/nn.py:70-71 | the test fraction is kept when it lies in [0, 1] and replaced by 0.25 otherwise |
| NetworkSplit.TrainingSize | src/nn.py:72 | the training size never exceeds the number of samples |
| NetworkSplit.Pop | src/nn.py:77 | `pop(k)` removes the item at k and shifts the rest |
| NetworkSplit.Draw | src/nn.py:73-80 | drawing without replacement: the drawn and the remaining positions are a permutation of the pool, the remaining ones keep their order, and distinct positions are drawn at most once |
| NetworkSplit.ConsDistinct | src/nn.py:73-80 | a drawn position differs from all later draws |
| NetworkSplit.PopDistinct | src/nn.py:77 | popping keeps a repeat-free pool repeat-free |
| NetworkSplit.RangeDistinct | src/nn.py:73 | the initial positions are all different |
| NetworkSplit.DrawStep | src/nn.py:73-80 | one draw takes the picked position and continues with the popped pool |
| NetworkSplit.Range | src/nn.py:73 | the initial pool lists the positions 0 to N-1 |
| NetworkSplit.PopIncreasing | src/nn.py:77 | popping keeps the pool in increasing order |
| NetworkSplit.PopMultiset | src/nn.py:77 | popping removes exactly one occurrence of the popped item |
| NetworkSplit.Pick | src/nn.py:75-79 | picking gives the items at the given positions, in order |
| NetworkSplit.DrawInRange | src/nn.py:74 | every drawn and remaining position is a valid index |
| NetworkSplit.DrawOf | src/nn.py:72-80 | the split's positions are valid indices |
| NetworkSplit.SplitProperties | src/nn.py:72-86 | the training set has `int(N*(1-p))` samples and the test set the rest; together they are a permutation of the samples, and the test set keeps the original order |
| NetworkSplit.PickPermutation | src/nn.py:73-86 | picking at a permutation of all positions permutes the items |
| NetworkSplit.PickPop | src/nn.py:77 | picking after a pop loses exactly the popped item |
| NetworkSplit.PickBySwaps | src/nn.py:73-86 | picking at two permutations of the same positions gives the same multiset |
| NetworkSplit.PickSwapStep | src/nn.py:73-86 | the step of that argument for one position |
| PlotPoints.FirstSeenIs | src/nnmodel.py:55-58 | each distinct difference maps to the first index where it occurs, and every difference is a key |
| PlotPoints.SmallestKeys | src/nnmodel.py:60 | the smallest keys are keys of the map |
| PlotPoints.PositionsOf | src/nnmodel.py:61-62 | the positions of the chosen differences, in order |
| PlotPoints.BestIndices | src/nnmodel.py:60-62 | the chosen positions are valid indices |
| PlotPoints.BestCount | src/nnmodel.py:60-62 | at most n points are chosen: n, or the number of distinct differences when fewer |
| PlotPoints.BestAscending | src/nnmodel.py:60-62 | the chosen points are in strictly ascending difference, each the first with its difference |
| PlotPoints.BestAt | src/nnmodel.py:60-62 | the k-th chosen point has the k-th smallest difference, and it is its first occurrence |
| PlotPoints.SmallestAscending | src/nnmodel.py:60 | `sorted(va.keys())[0:n]` is strictly ascending |
| PlotPoints.SmallerKeyEarlier | src/nnmodel.py:60 | a key smaller than a chosen one was chosen before it |
| PlotPoints.BestNoneSmaller | src/nnmodel.py:54-62 | no point has a smaller difference than a chosen one unless that difference was chosen earlier |
| PlotPoints.BestFit | src/nnmodel.py:54-62 | the method computes the aligned predicted, real and metadata lists of the best-fit choice, or IndexError |
| PlotPoints.Positions | src/nnmodel.py:69 | the drawn indices, in draw order |
| PlotPoints.Random | src/nnmodel.py:64-74 | the method computes the points at the drawn indices, or ValueError when n exceeds the number of points |
| PlotPoints.Gather | src/nnmodel.py:70-73 | the gather loop picks the points at the drawn indices |
| PlotPoints.RandomAligned | src/nnmodel.py:64-74 | the k-th result is the point at the k-th drawn index, which lies in [0, len(p)-1-k]; the three lists are aligned and the metadata is empty without testInfo |
| PlotPoints.RandomRepeats | src/nnmodel.py:68-73 | two draws of 0 on two points return the first point twice |
| PlotPoints.RandomDistinctPoints | src/nnmodel.py:64-74 | drawing with a pop gives n distinct valid positions, and the corrected result is the points at them |
| PlotPoints.Arrange | src/nnmodel.py:76-80 | one pair [real, predicted] per prediction, in order; fewer real values than predictions raise IndexError |
| Sweep.Start | src/nntest.py:31-33 | the starting state (error 10000000, no best cell, no exports, no lists) has a well-formed running-average dictionary |
| Sweep.Visit | src/nntest.py:42-50 | visiting a cell keeps the running-average dictionary well formed |
| Sweep.After | src/nntest.py:35-52 | the sweep state after any cells is well formed |
| Sweep.AfterOneMore | src/nntest.py:35-52 | the cells are visited one at a time, in order |
| Sweep.RowOf | src/nntest.py:36-52 | one subset's cells are that subset with each grid point, in grid order |
| Sweep.RowOfExtend | src/nntest.py:36-52 | one more grid point adds one more cell at the end |
| Sweep.RowStep | src/nntest.py:36-52 | the next cell of a subset is visited after the earlier ones |
| Sweep.BestTracking | src/nntest.py:31-46 | the lowest error is at most 10000000 and at most every cell's error; no best cell exists exactly when no cell beat 10000000; otherwise the best is the first cell with the lowest error |
| Sweep.LowestNeverRises | src/nntest.py:44-46 | the lowest error never rises as more cells are visited |
| Sweep.DumpedCells | src/nntest.py:50 | the exported models are exactly the cells with error below dumpLimit, in visiting order, best or not |
| Sweep.RunningLists | src/nntest.py:43 | a field has a running list exactly when some cell used it; the list holds the errors of those cells in order, and no list is empty |
| Sweep.ReportFails | src/nntest.py:54 | the final report raises IndexError exactly when no cell beat 10000000 |
| Sweep.ReportContents | src/nntest.py:53-57 | the report names the first cell with the lowest error; its ranking is ascending and lists every used field exactly once, paired with the mean of the errors of the cells that used it, and no other field |
| Sweep.VisitCell | src/nntest.py:43-50 | one cell updates the running averages, the best cell and the exports as specified |
| Sweep.RunSweep | src/nntest.py:30-58 | the nested subset and grid loops produce the specified exports and report |
| Sweep.VisitRow | src/nntest.py:36-52 | the grid loop of one subset |
| Sweep.Finish | src/nntest.py:53-58 | the final report of a sweep |
| Sweep.AxesOf | src/nntest.py:36-52 | each sweep has as many grid axes as it has nested parameter loops |
| Sweep.RunExperiment | src/nntest.py:30-256 | a `test*` function is the sweep over the field subsets and the grid of its own parameter loops |
| Sweep.ExperimentCells | src/nntest.py:30-256 | every cell an experiment visits is one of the subsets with one value of each of its parameter loops, in loop order |
| Sweep.CellsMember | src/nntest.py:35-52 | a cell of the nested loops is one subset with one grid point |
| RunningAverages.Repeat | src/nntest.py:9-13 | the list of one error repeated once per occurrence of a field |
| RunningAverages.UpdatedEffect | src/nntest.py:8-14 | after an update, a field has a list exactly when it had one or is active; its list gets the error once per occurrence, and other lists are unchanged |
| RunningAverages.CountCons | src/nntest.py:9 | the count of a field in a list splits on its first item |
| RunningAverages.AppendedEffect | src/nntest.py:10-13 | a new field gets `[error]`, a known one gets the error appended, and other fields are unchanged |
| RunningAverages.UpdatedOrder | src/nntest.py:8-14 | existing fields keep their place and new ones come after |
| RunningAverages.CountPositive | src/nntest.py:9 | a field in a list occurs at least once |
| RunningAverages.UpdatedNonEmpty | src/nntest.py:8-14 | no running list is ever empty |
| RunningAverages.UpdatedOnce | src/nntest.py:8-14 | for a subset without repeats, each active field gets the error exactly once |
| RunningAverages.CountDistinct | src/nntest.py:9 | a field occurs at most once in a list without repeats |
| RunningAverages.Averages.constructor | src/nntest.py:33 | the running averages start empty |
| RunningAverages.Averages.Update | src/nntest.py:8-14 | the dictionary is updated in place as specified |
| RunningAverages.AveragesFrom | src/nntest.py:18-19 | the averaging loop keeps the result dictionary well formed |
| RunningAverages.AveragesOf | src/nntest.py:16-20 | the averages are well formed |
| RunningAverages.MeansSoFarStep | src/nntest.py:18-19 | one more key adds its mean |
| RunningAverages.AveragesFromIs | src/nntest.py:18-19 | the loop succeeds exactly when every remaining list is non-empty, and then maps every key to its mean |
| RunningAverages.NonEmptyStep | src/nntest.py:18-19 | the remaining lists are non-empty exactly when the next one is and the rest are |
| RunningAverages.AveragesOfMeans | src/nntest.py:16-20 | the averages exist exactly when no list is empty; they have the same keys in the same order, each mapped to its list's mean |
| RunningAverages.CalculateRunningAverages | src/nntest.py:16-20 | the loop computes the averages |
| RunningAverages.ItemsOf | src/nntest.py:55 | `.items()` lists the pairs in key order |
| RunningAverages.Cut | src/nntest.py:55 | an item goes after every item with a mean not larger than its own |
| RunningAverages.InsertSorted | src/nntest.py:55 | inserting keeps a ranking ascending |
| RunningAverages.InsertPermutes | src/nntest.py:55 | inserting adds exactly that item |
| RunningAverages.RankedSorted | src/nntest.py:55 | the ranking is ascending by mean and a permutation of the averages |
| RunningAverages.RankingOf | src/nntest.py:55 | sorting a dict's items lists every key exactly once, each with its own value |
| RunningAverages.RankedEntries | src/nntest.py:55 | a permutation of a dict's items pairs each key with its value |
| RunningAverages.RankedCovers | src/nntest.py:55 | a permutation of a dict's items names every key |
| RunningAverages.RankedDistinct | src/nntest.py:55 | a permutation of a dict's items names no key twice |
| SweepGrid.StepsShrink | src/nntest.py:37-52 | an additive step brings the walk closer to its end |
| SweepGrid.StepsFewer | src/nntest.py:37-52 | a larger step leaves no more steps |
| SweepGrid.MulShrink | src/nntest.py:37-52 | a multiplicative step brings the walk closer to its end |
| SweepGrid.AddValuesAre | src/nntest.py:39-51 | an additive loop visits min, min+step, ... while not above max, and stops at the first value above max |
| SweepGrid.MulValuesAre | src/nntest.py:37-52 | a multiplicative loop visits min*m^k while not above max, and stops at the first value above max |
| SweepGrid.MulValuesAt | src/nntest.py:37-52 | the k-th multiplicative value is min*m^k and not above max |
| SweepGrid.MulValuesStep | src/nntest.py:37-52 | a multiplicative walk is its first value followed by the walk from the next |
| SweepGrid.MulValuesEnd | src/nntest.py:37-52 | the next multiplicative value is above max |
| SweepGrid.WalkAxis | src/nntest.py:37-52 | one parameter loop of either kind |
| SweepGrid.WalkAdditive | src/nntest.py:39-51 | the additive loop |
| SweepGrid.WalkMultiplicative | src/nntest.py:37-52 | the multiplicative loop |
| SweepGrid.Combine | src/nntest.py:35-52 | nesting a loop over a grid gives one point per pair |
| SweepGrid.Prefix | src/nntest.py:35-52 | one outer value followed by every inner point |
| SweepGrid.CombineAt | src/nntest.py:35-52 | the inner loop runs in full for every outer value, restarting from its min |
| SweepGrid.GridPoints | src/nntest.py:35-52 | every grid point has one value per axis, each from that axis's loop |
| SweepGrid.CombineIndex | src/nntest.py:35-52 | every position of the nested grid belongs to one outer value and one inner point |
| SweepGrid.CombineMember | src/nntest.py:35-52 | every nested point is an outer value followed by an inner point |
| SweepGrid.LayerTuple | src/nntest.py:230-232 | the MLP layer tuple is `numLayers` copies of the current layer size |
| SweepGrid.WalkGrid | src/nntest.py:35-52 | the nested loops visit the grid points in order |
| SweepGrid.AppendPrefixed | src/nntest.py:35-52 | one outer value's inner loop appends its points |
| SweepSubsets.WithHead | src/nntest.py:26 | prefixing the first item to every smaller combination |
| SweepSubsets.WithHeadMember | src/nntest.py:26 | a combination with a head is that head before a smaller combination |
| SweepSubsets.CombinationsAre | src/nntest.py:26 | `combinations(xs, k)` holds exactly the order-preserving subsequences of length k |
| SweepSubsets.SubseqLength | src/nntest.py:26 | a subsequence is never longer than the list |
| SweepSubsets.CombinationsCount | src/nntest.py:26 | there are C(n, k) combinations |
| SweepSubsets.Interval | src/nntest.py:24 | the sizes lo to hi in order |
| SweepSubsets.SizesWindow | src/nntest.py:24-27 | with lo = max(start, 1): the sizes tried run from lo to min(stop, n) when stop >= lo, are lo alone when stop < lo, and are none when lo > n |
| SweepSubsets.SizesFromWindow | src/nntest.py:24-27 | the same window from any size on |
| SweepSubsets.BySizeMembers | src/nntest.py:24-27 | the subsets are exactly the subsequences whose size is among the sizes tried |
| SweepSubsets.BySizeOrdered | src/nntest.py:24-27 | the subsets come in non-decreasing size |
| SweepSubsets.LengthsOrdered | src/nntest.py:24-27 | one size's combinations followed by larger ones stay in size order |
| SweepSubsets.AllSubsetsAre | src/nntest.py:22-28 | the result is exactly the subsequences with size in the window, in increasing size |
| SweepSubsets.GetAllSubsets | src/nntest.py:22-28 | the loop with `continue` and `break` computes those subsets |
| PyText.Find | src/datasort.py:65 | `str.find`: the first occurrence, or -1 exactly when there is none |
| PyText.Bound | src/datasort.py:82 | a Python slice bound: negative counts from the end, clamped to the length |
| PyText.Slice | src/datasort.py:82 | a Python slice, empty when the bounds cross |
| PyText.PyIndex | src/datasort.py:71 | a Python list index, negative counting from the end, IndexError outside |
| PyText.StripRight | src/datasort.py:65 | removes exactly the trailing spaces |
| PyText.Strip | src/datasort.py:65 | the result neither starts nor ends with a space |
| PyText.StripLeftKeeps | src/datasort.py:65 | stripping text without leading space changes nothing |
| PyText.StripRightKeeps | src/datasort.py:65 | stripping text without trailing space changes nothing |
| PyText.StripIdempotent | src/datasort.py:65 | stripping twice is stripping once |
| PyText.UpperChar | src/datasort.py:65 | upper-casing keeps spaces and leaves no lower-case letter |
| PyText.Upper | src/datasort.py:65 | upper-casing works character by character |
| PyText.StripLeftUpper | src/datasort.py:65 | upper-casing and left stripping commute |
| PyText.StripRightUpper | src/datasort.py:65 | upper-casing and right stripping commute |
| PyText.NormalizeIdempotent | src/datasort.py:65 | normalising a county name twice is normalising it once |
| PyText.UpperIdempotent | src/datasort.py:65 | upper-casing twice is upper-casing once |
| PyText.StrLtIrreflexive | src/datasort.py:118 | no string sorts before itself |
| PyText.StrLtTransitive | src/datasort.py:118 | string order is transitive |
| PyText.StrLtTotal | src/datasort.py:118 | of two different strings one sorts first |
| Sorting.Least | src/datasort.py:114 | the least element of a non-empty set |
| Sorting.SortedOf | src/datasort.py:114 | `sorted` of a set lists each element once, in strictly ascending order |
| Sorting.SortedUnique | src/datasort.py:114 | there is only one such list |
| Sorting.StrictlySortedDistinct | src/datasort.py:114 | a strictly sorted list has no repeats |
| Sorting.StrLtIsStrictTotalOrder | src/datasort.py:118 | string comparison is a strict total order |
| Sorting.SortedStrings | src/datasort.py:125 | sorted county or season names: each once, ascending |
| Outcomes.Open | src/datasort.py:32 | opening a file succeeds exactly when it exists, and gives its rows |

## Left out

- File and stream I/O are not modelled. Files are the `Files` map of tokenised rows, and the output file is the returned `Emission`. A file left half-written by a crash is not modelled. The constructor's file read becomes its `data` argument.
- The `sys.stdout` redirection, the sweep log lines and `print(va)` write text only, so they are left out. The "CANNOT FIND ONE" diagnostic is also left out; only its sentinel value is modelled.
- Pickle serialisation (`importModel`, `pickle.dump`) uses a foreign format. Only the file-name rule of `exportModel` is modelled.
- scikit-learn training and prediction are not part of this model. `testModel_statistics` takes the predictions as a parameter, and a sweep cell's error is the `error` oracle. `testModel_output`, `testModel_custom` and the `train*` methods are not part of this model.
- Floating point is modelled with exact reals. A division by a zero target becomes `NonFinite`, standing for numpy's inf or nan. Rounding drift of float grid steps is not modelled.
- `'{0:.10f}'` formatting is left out. Output rows hold the numbers themselves.
- `int()` and `float()` parsing become caller-supplied parser functions.
- `random.randint` becomes the caller-supplied `picks`. The draws must lie in the range `randint` would use.
- `datetime.now()` becomes an opaque timestamp string.
- `np.array` conversion is left out. The split attributes are sequences, and their initial `None` is the empty sequence.
- Plotting, `manualInput` and `modelData_barGraph` are matplotlib and `input()`, so they are not modelled.
- The `__main__` blocks of `src/nn.py`, `src/nntest.py` and `src/nnmodel.py` are not part of this model.
- Sweep.RunSweep: assumes every grid axis ends. An additive step must be positive. A multiplicative walk needs a positive start and a factor above 1, unless its range is empty. Other walks are excluded: most of them never end in Python, and the few that do (a factor below -1, whose values alternate in sign and grow past max) are not modelled either.
- Sweep.RunSweep: the grid is computed once and reused for every subset. The Python code recomputes it per subset, with the same values.
- PyText.Upper: maps only the ASCII letters a-z. Python's `upper` also maps other letters (é to É), and some to several characters (ß to SS, which lengthens the text).
- PyText.UpperChar: the same gap, one character at a time: only a-z is mapped, and a character whose upper case is several characters cannot be stated as one `char`.
- FusionSvi.SviAll: characterised file by file. SviAllAppend splits the files, SviFileJoin states what one file stores, and SviAllYears bounds the years and counties. No single statement gives each county's values over all files at once.
- Sweep.RunSweep: the `error` oracle is total and finite. A zero target makes Python's mean non-finite, an empty test set raises StatisticsError and a missing field raises KeyError; none of these reach the sweep here. In Python a NaN error is never best and never exported, but it makes its fields' running means NaN and leaves the final ranking unordered. Sweep.BestTracking and RunningAverages.RankedSorted rely on finite errors.
- RunningAverages.RankedSorted: the ranking is proved ascending and a permutation. That it keeps equal means in dictionary order is not proved.
- Training a fresh `InfluenzaNetwork(shortFields, 0.2)` for each sweep cell is part of the `error` oracle.

## Findings

| source | as written | input that shows it | evidently intended | confidence | as-written member | corrected member |
|---|---|---|---|---|---|---|
| src/nnmodel.py:68-73 | draw k is taken from `randint(0, lp-1)` with `lp` shrinking, but nothing is popped, so it indexes the full lists and can repeat a point | two points and draws [0, 0]: the first point is returned twice | n distinct random points, each draw popped from the remaining positions | not executed | PlotPoints.RandomRepeats | PlotPoints.RandomDistinctPoints |
