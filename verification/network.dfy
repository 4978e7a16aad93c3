/** The network object: the loaded data, the feature fields and the
    train/test split it keeps as state, the mean absolute percentage error
    of a model on the test set, and the file name a model is exported to
    (src/nn.py:13-165). Fitting and prediction are supplied by the caller. */
module Network {
  import opened Outcomes
  import opened PyText
  import opened PyDict
  import opened NetworkData
  import opened NetworkSplit

  /** A float as the error computation can produce it: a real number, or
      the infinity or not-a-number a division by an actual value of 0 gives. */
  datatype Extended = Finite(value: real) | NonFinite

  function Abs(x: real): real {
    if x < 0.0 then -x else x
  }

  /** `abs((actual - predicted) / actual) * 100`. */
  function PercentError(actual: real, predicted: real): (r: Extended)
    ensures r.NonFinite? <==> actual == 0.0
    ensures r.Finite? ==> r.value >= 0.0
    ensures r.Finite? ==> (r.value == 0.0 <==> predicted == actual)
  {
    if actual == 0.0 then NonFinite else Finite(Abs((actual - predicted) / actual) * 100.0)
  }

  function PercentErrors(actual: seq<real>, predicted: seq<real>): (r: seq<Extended>)
    requires |predicted| <= |actual|
    ensures |r| == |predicted| && forall i :: 0 <= i < |r| ==> r[i] == PercentError(actual[i], predicted[i])
  {
    seq(|predicted|, i requires 0 <= i < |predicted| => PercentError(actual[i], predicted[i]))
  }

  /** The sum of `es`; a non-finite term makes it non-finite. */
  function Sum(es: seq<Extended>): Extended {
    if es == [] then Finite(0.0)
    else
      match Sum(es[1..])
      case NonFinite => NonFinite
      case Finite(rest) => if es[0].NonFinite? then NonFinite else Finite(es[0].value + rest)
  }

  /** `statistics.mean`: an empty list raises StatisticsError. */
  function Mean(es: seq<Extended>): (r: Result<Extended>)
    ensures r.Err? <==> es == []
    ensures r.Err? ==> r.error == StatisticsError
  {
    if es == [] then Err(StatisticsError)
    else
      match Sum(es)
      case NonFinite => Ok(NonFinite)
      case Finite(s) => Ok(Finite(s / |es| as real))
  }

  predicate AllFinite(es: seq<Extended>) {
    forall i :: 0 <= i < |es| ==> es[i].Finite?
  }

  predicate AllZero(es: seq<Extended>) {
    forall i :: 0 <= i < |es| ==> es[i] == Finite(0.0)
  }

  /** A sum of non-negative terms is finite exactly when every term is,
      non-negative, and zero exactly when every term is zero. */
  lemma {:induction false} SumOfNonNegative(es: seq<Extended>)
    requires forall i :: 0 <= i < |es| ==> es[i].Finite? ==> es[i].value >= 0.0
    ensures Sum(es).Finite? <==> AllFinite(es)
    ensures Sum(es).Finite? ==> Sum(es).value >= 0.0
    ensures Sum(es) == Finite(0.0) <==> AllZero(es)
  {
    if es != [] {
      SumOfNonNegative(es[1..]);
      assert AllFinite(es) <==> es[0].Finite? && AllFinite(es[1..]);
      assert AllZero(es) <==> es[0] == Finite(0.0) && AllZero(es[1..]);
    }
  }

  /** The error is non-negative, non-finite exactly when some actual value is
      0, and 0 exactly when every prediction equals its actual value. */
  lemma MeanPercentErrorSign(actual: seq<real>, predicted: seq<real>)
    requires |predicted| == |actual| > 0
    ensures var m := Mean(PercentErrors(actual, predicted));
      && m.Ok?
      && (m.value.NonFinite? <==> exists i :: 0 <= i < |actual| && actual[i] == 0.0)
      && (m.value.Finite? ==> m.value.value >= 0.0)
      && (m.value == Finite(0.0) <==> predicted == actual && forall i :: 0 <= i < |actual| ==> actual[i] != 0.0)
  {
    var es := PercentErrors(actual, predicted);
    SumOfNonNegative(es);
    if Sum(es).Finite? {
      var n := |es| as real;
      assert Sum(es).value / n == 0.0 <==> Sum(es).value == 0.0;
      assert Sum(es).value / n >= 0.0;
    }
    if AllZero(es) {
      assert forall i :: 0 <= i < |actual| ==> predicted[i] == actual[i];
    }
  }

  /** The error of predictions [1.1, 2.0] against actual values [1.0, 2.0] is 5. */
  lemma MeanPercentErrorExample()
    ensures Mean(PercentErrors([1.0, 2.0], [1.1, 2.0])) == Ok(Finite(5.0))
  {
    var es := PercentErrors([1.0, 2.0], [1.1, 2.0]);
    assert es == [Finite(10.0), Finite(0.0)];
    assert es[1..] == [Finite(0.0)];
    assert es[1..][1..] == [];
  }

  const ModelSuffix := "_model.pickle"
  const PickleMark := ".pickle"

  /** `exportModel`'s file name: a missing or empty name, or one without
      ".pickle", is replaced by the timestamp followed by "_model.pickle". */
  function ExportName(filename: Option<string>, timestamp: string): string {
    if filename.None? || |filename.value| == 0 || !Contains(filename.value, PickleMark) then timestamp + ModelSuffix
    else filename.value
  }

  /** The chosen name always contains ".pickle", and a given name is kept
      exactly when it is non-empty and contains ".pickle". */
  lemma ExportNameChoice(filename: Option<string>, timestamp: string)
    ensures Contains(ExportName(filename, timestamp), PickleMark)
    ensures ExportName(filename, timestamp) == (if filename.Some? && Contains(filename.value, PickleMark) then filename.value
                                                else timestamp + ModelSuffix)
  {
    var s := timestamp + ModelSuffix;
    assert s[|timestamp| + 6..|timestamp| + 6 + |PickleMark|] == PickleMark;
    ContainsAt(s, PickleMark, |timestamp| + 6);
    if filename.Some? && Contains(filename.value, PickleMark) {
      assert |filename.value| > 0;
    }
  }

  /** Exporting again under the chosen name keeps it. */
  lemma ExportNameStable(filename: Option<string>, timestamp: string, later: string)
    ensures ExportName(Some(ExportName(filename, timestamp)), later) == ExportName(filename, timestamp)
  {
    ExportNameChoice(filename, timestamp);
    ExportNameChoice(Some(ExportName(filename, timestamp)), later);
  }

  /** The sample loop over the counties of one year (src/nn.py:61-67). */
  method CountyLoop(year: string, cs: Dict<string, Record>, fields: seq<string>) returns (r: Result<seq<Sample>>)
    requires cs.Valid()
    ensures r == CountySamples(year, cs, fields, 0)
  {
    var samples: seq<Sample> := [];
    var j := 0;
    PrefixedNil(CountySamples(year, cs, fields, 0));
    while j < |cs.keys|
      invariant 0 <= j <= |cs.keys|
      invariant CountySamples(year, cs, fields, 0) == Prefixed(samples, CountySamples(year, cs, fields, j))
    {
      var countyKey := cs.keys[j];
      KeyAt(cs, j);
      var rec := cs.items[countyKey];
      if TargetField !in rec {
        return Err(KeyError);
      }
      var singleInput: seq<real> := [];
      for m := 0 to |fields|
        invariant |singleInput| == m && forall k :: 0 <= k < m ==> fields[k] in rec && singleInput[k] == rec[fields[k]]
      {
        if fields[m] !in rec {
          return Err(KeyError);
        }
        singleInput := singleInput + [rec[fields[m]]];
      }
      if PopulationField !in rec {
        return Err(KeyError);
      }
      var x := Sample(singleInput, rec[TargetField], Info(year, countyKey, rec[PopulationField]));
      assert singleInput == Features(rec, fields);
      assert SampleOf(year, countyKey, rec, fields) == Ok(x);
      PrefixedTwice(samples, [x], CountySamples(year, cs, fields, j + 1));
      samples := samples + [x];
      j := j + 1;
    }
    assert samples + [] == samples;
    return Ok(samples);
  }

  /** The sample loop over the years (src/nn.py:58-67). */
  method YearLoop(d: Data, fields: seq<string>) returns (r: Result<seq<Sample>>)
    requires DataValid(d)
    ensures r == YearSamples(d, fields, 0)
  {
    var samples: seq<Sample> := [];
    var i := 0;
    PrefixedNil(YearSamples(d, fields, 0));
    while i < |d.keys|
      invariant 0 <= i <= |d.keys|
      invariant YearSamples(d, fields, 0) == Prefixed(samples, YearSamples(d, fields, i))
    {
      var yearKey := d.keys[i];
      KeyAt(d, i);
      var xs := CountyLoop(yearKey, d.items[yearKey], fields);
      if xs.Err? {
        return Err(xs.error);
      }
      PrefixedTwice(samples, xs.value, YearSamples(d, fields, i + 1));
      samples := samples + xs.value;
      i := i + 1;
    }
    assert samples + [] == samples;
    return Ok(samples);
  }

  /** Moving position `left[k]` from the left-over positions to the end of
      the drawn ones moves the matching item between the picked lists. */
  lemma PickMove<T>(xs: seq<T>, chosen: seq<nat>, left: seq<nat>, k: nat)
    requires Within(chosen, |xs|) && Within(left, |xs|) && k < |left|
    ensures Within(chosen + [left[k]], |xs|) && Within(Pop(left, k), |xs|)
    ensures Pick(xs, chosen) + [Pick(xs, left)[k]] == Pick(xs, chosen + [left[k]])
    ensures Pop(Pick(xs, left), k) == Pick(xs, Pop(left, k))
  {
  }

  lemma PickProjections(s: seq<Sample>, idx: seq<nat>)
    requires Within(idx, |s|)
    ensures Pick(Inputs(s), idx) == Inputs(Pick(s, idx))
    ensures Pick(Outputs(s), idx) == Outputs(Pick(s, idx))
    ensures Pick(Infos(s), idx) == Infos(Pick(s, idx))
  {
  }

  /** The split sets' columns are the columns of all samples picked at the
      drawn positions. */
  lemma SplitProjections(s: seq<Sample>, p: real, picks: seq<int>)
    requires ValidDraws(picks, |s|, TrainingSize(|s|, p))
    ensures var d, split := DrawOf(|s|, p, picks), SplitOf(s, p, picks);
      && Inputs(split.training) == Pick(Inputs(s), d.chosen) && Inputs(split.test) == Pick(Inputs(s), d.left)
      && Outputs(split.training) == Pick(Outputs(s), d.chosen) && Outputs(split.test) == Pick(Outputs(s), d.left)
      && Infos(split.training) == Pick(Infos(s), d.chosen) && Infos(split.test) == Pick(Infos(s), d.left)
  {
    var d := DrawOf(|s|, p, picks);
    PickProjections(s, d.chosen);
    PickProjections(s, d.left);
  }

  /** After `|chosen|` of the `count` draws, `chosen` are the positions drawn
      so far and `left` those still in the list, and the remaining draws
      from `left` complete the whole draw. */
  ghost predicate DrawnSoFar(n: nat, picks: seq<int>, count: nat, chosen: seq<nat>, left: seq<nat>)
    requires ValidDraws(picks, n, count)
  {
    && |chosen| <= count && |left| == n - |chosen|
    && var rest := Draw(left, picks, |chosen|, count);
       Draw(Range(n), picks, 0, count) == Drawn(chosen + rest.chosen, rest.left)
  }

  lemma DrawnSoFarStart(n: nat, picks: seq<int>, count: nat)
    requires ValidDraws(picks, n, count)
    ensures DrawnSoFar(n, picks, count, [], Range(n))
  {
    assert [] + Draw(Range(n), picks, 0, count).chosen == Draw(Range(n), picks, 0, count).chosen;
  }

  lemma DrawnSoFarStep(n: nat, picks: seq<int>, count: nat, chosen: seq<nat>, left: seq<nat>)
    requires ValidDraws(picks, n, count)
    requires DrawnSoFar(n, picks, count, chosen, left) && |chosen| < count
    ensures 0 <= picks[|chosen|] < |left|
    ensures DrawnSoFar(n, picks, count, chosen + [left[picks[|chosen|]]], Pop(left, picks[|chosen|]))
  {
    var t, k := |chosen|, picks[|chosen|];
    DrawStep(left, picks, t, count);
    var rest := Draw(Pop(left, k), picks, t + 1, count);
    Associative(chosen, [left[k]], rest.chosen);
    assert |chosen + [left[k]]| == t + 1;
  }

  lemma DrawnSoFarEnd(n: nat, picks: seq<int>, count: nat, chosen: seq<nat>, left: seq<nat>)
    requires ValidDraws(picks, n, count)
    requires DrawnSoFar(n, picks, count, chosen, left) && |chosen| == count
    ensures Draw(Range(n), picks, 0, count) == Drawn(chosen, left)
  {
    assert chosen + [] == chosen;
  }

  /** The draw loop on the three parallel lists (src/nn.py:72-80): each draw
      pops the same position from all three. */
  method DrawLoop(inputList0: seq<seq<real>>, outputList0: seq<real>, metadata0: seq<Info>, p: real, picks: seq<int>)
    returns (trainingInput: seq<seq<real>>, trainingOutput: seq<real>, trainingMetadata: seq<Info>,
             inputList: seq<seq<real>>, outputList: seq<real>, metadata: seq<Info>)
    requires |inputList0| == |outputList0| == |metadata0|
    requires ValidDraws(picks, |inputList0|, TrainingSize(|inputList0|, p))
    ensures var d := DrawOf(|inputList0|, p, picks);
      && trainingInput == Pick(inputList0, d.chosen) && inputList == Pick(inputList0, d.left)
      && trainingOutput == Pick(outputList0, d.chosen) && outputList == Pick(outputList0, d.left)
      && trainingMetadata == Pick(metadata0, d.chosen) && metadata == Pick(metadata0, d.left)
  {
    var n := |inputList0|;
    var trainingSplit := TrainingSize(n, p);
    trainingInput, trainingOutput, trainingMetadata := [], [], [];
    inputList, outputList, metadata := inputList0, outputList0, metadata0;
    ghost var chosen: seq<nat> := [];
    ghost var left := Range(n);
    DrawnSoFarStart(n, picks, trainingSplit);
    while |trainingInput| < trainingSplit
      invariant Within(chosen, n) && Within(left, n) && |trainingInput| == |chosen|
      invariant DrawnSoFar(n, picks, trainingSplit, chosen, left)
      invariant trainingInput == Pick(inputList0, chosen) && inputList == Pick(inputList0, left)
      invariant trainingOutput == Pick(outputList0, chosen) && outputList == Pick(outputList0, left)
      invariant trainingMetadata == Pick(metadata0, chosen) && metadata == Pick(metadata0, left)
      decreases trainingSplit - |trainingInput|
    {
      var randomPos := picks[|trainingInput|];
      DrawnSoFarStep(n, picks, trainingSplit, chosen, left);
      PickMove(inputList0, chosen, left, randomPos);
      PickMove(outputList0, chosen, left, randomPos);
      PickMove(metadata0, chosen, left, randomPos);
      trainingInput := trainingInput + [inputList[randomPos]];
      trainingOutput := trainingOutput + [outputList[randomPos]];
      inputList := Pop(inputList, randomPos);
      outputList := Pop(outputList, randomPos);
      trainingMetadata := trainingMetadata + [metadata[randomPos]];
      metadata := Pop(metadata, randomPos);
      chosen := chosen + [left[randomPos]];
      left := Pop(left, randomPos);
    }
    DrawnSoFarEnd(n, picks, trainingSplit, chosen, left);
  }

  /** The object of src/nn.py:13-25 with the fields the modelled methods use. */
  class InfluenzaNetwork {
    var data: Data
    var fields: seq<string>
    var testPercentage: real
    var trainingInput: seq<seq<real>>
    var trainingOutput: seq<real>
    var trainingInfo: seq<Info>
    var testInput: seq<seq<real>>
    var testOutput: seq<real>
    var testInfo: seq<Info>

    ghost predicate Valid()
      reads this`data
    {
      DataValid(data)
    }

    /** The samples `getIOFromData` builds from the data. */
    function Samples(): Result<seq<Sample>>
      reads this`data, this`fields
      requires Valid()
    {
      YearSamples(data, fields, 0)
    }

    /** The constructor, given the data its file read produced
        (src/nn.py:15-25); the split fields start empty. */
    constructor (data: Data, fields: seq<string>, testPercentage: real)
      requires DataValid(data)
      ensures Valid()
      ensures this.data == data && this.fields == fields && this.testPercentage == testPercentage
      ensures trainingInput == [] && trainingOutput == [] && trainingInfo == []
      ensures testInput == [] && testOutput == [] && testInfo == []
    {
      this.data := data;
      this.fields := fields;
      this.testPercentage := testPercentage;
      trainingInput, trainingOutput, trainingInfo := [], [], [];
      testInput, testOutput, testInfo := [], [], [];
    }

    /** `getIOFromData` (src/nn.py:54-86): the samples split into training
        and test sets by the draws `picks`. A record without a feature
        field, Percent or Population raises KeyError before any field is
        assigned. */
    method GetIOFromData(testPercentage: real, picks: seq<int>) returns (failure: Option<Failure>)
      requires Valid()
      requires Samples().Ok? ==> ValidDraws(picks, |Samples().value|, TrainingSize(|Samples().value|, testPercentage))
      modifies this
      ensures Valid() && data == old(data) && fields == old(fields) && this.testPercentage == old(this.testPercentage)
      ensures old(Samples()).Err? ==>
        && failure == Some(old(Samples()).error)
        && trainingInput == old(trainingInput) && trainingOutput == old(trainingOutput) && trainingInfo == old(trainingInfo)
        && testInput == old(testInput) && testOutput == old(testOutput) && testInfo == old(testInfo)
      ensures old(Samples()).Ok? ==>
        && failure == None
        && var split := SplitOf(old(Samples()).value, testPercentage, picks);
           && trainingInput == Inputs(split.training) && trainingOutput == Outputs(split.training)
           && trainingInfo == Infos(split.training)
           && testInput == Inputs(split.test) && testOutput == Outputs(split.test) && testInfo == Infos(split.test)
    {
      var samples := YearLoop(data, fields);
      if samples.Err? {
        return Some(samples.error);
      }
      var s := samples.value;
      var tIn, tOut, tInfo, rIn, rOut, rInfo := DrawLoop(Inputs(s), Outputs(s), Infos(s), testPercentage, picks);
      SplitProjections(s, testPercentage, picks);
      SetSplit(tIn, tOut, tInfo, rIn, rOut, rInfo);
      return None;
    }

    /** Stores a split in the six split attributes, leaving the rest as is. */
    method SetSplit(tIn: seq<seq<real>>, tOut: seq<real>, tInfo: seq<Info>, rIn: seq<seq<real>>, rOut: seq<real>, rInfo: seq<Info>)
      modifies this
      ensures data == old(data) && fields == old(fields) && testPercentage == old(testPercentage)
      ensures trainingInput == tIn && trainingOutput == tOut && trainingInfo == tInfo
      ensures testInput == rIn && testOutput == rOut && testInfo == rInfo
    {
      trainingInput, trainingOutput, trainingInfo := tIn, tOut, tInfo;
      testInput, testOutput, testInfo := rIn, rOut, rInfo;
    }

    /** `testModel_statistics` (src/nn.py:128-137) given the model's
        predictions for the test inputs. */
    method TestModelStatistics(results: seq<real>) returns (r: Result<Extended>)
      requires |results| == |testOutput|
      ensures r == Mean(PercentErrors(testOutput, results))
    {
      var percentErrors: seq<Extended> := [];
      for resultIndex := 0 to |results|
        invariant percentErrors == PercentErrors(testOutput[..resultIndex], results[..resultIndex])
      {
        var actual := testOutput[resultIndex];
        var pe := if actual == 0.0 then NonFinite else Finite(Abs((actual - results[resultIndex]) / actual) * 100.0);
        percentErrors := percentErrors + [pe];
      }
      assert testOutput[..|results|] == testOutput && results[..|results|] == results;
      return Mean(percentErrors);
    }
  }
}
