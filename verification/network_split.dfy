/** The samples the network learns from and how they are split into a
    training set and a test set (src/nn.py:54-86). The random draws are
    supplied by the caller: `picks[t]` is what `random.randint` returns at
    the t-th draw. */
module NetworkSplit {
  import opened Outcomes
  import opened PyDict
  import opened NetworkData

  const TargetField := "Percent"
  const PopulationField := "Population"
  const DefaultTestFraction := 0.25

  /** The metadata kept beside a sample: year, county and population. */
  datatype Info = Info(year: string, county: string, population: real)

  /** One sample: the feature vector, the target and the metadata. */
  datatype Sample = Sample(input: seq<real>, output: real, info: Info)

  function Inputs(s: seq<Sample>): (r: seq<seq<real>>)
    ensures |r| == |s| && forall k :: 0 <= k < |s| ==> r[k] == s[k].input
  {
    seq(|s|, k requires 0 <= k < |s| => s[k].input)
  }

  function Outputs(s: seq<Sample>): (r: seq<real>)
    ensures |r| == |s| && forall k :: 0 <= k < |s| ==> r[k] == s[k].output
  {
    seq(|s|, k requires 0 <= k < |s| => s[k].output)
  }

  function Infos(s: seq<Sample>): (r: seq<Info>)
    ensures |r| == |s| && forall k :: 0 <= k < |s| ==> r[k] == s[k].info
  {
    seq(|s|, k requires 0 <= k < |s| => s[k].info)
  }

  /** The record has the target, every feature field and the population. */
  predicate HasColumns(rec: Record, fields: seq<string>) {
    TargetField in rec && PopulationField in rec && forall m :: 0 <= m < |fields| ==> fields[m] in rec
  }

  /** The record's values of `fields`, in that order. */
  function Features(rec: Record, fields: seq<string>): (r: seq<real>)
    requires forall m :: 0 <= m < |fields| ==> fields[m] in rec
    ensures |r| == |fields| && forall m :: 0 <= m < |fields| ==> r[m] == rec[fields[m]]
  {
    seq(|fields|, m requires 0 <= m < |fields| => rec[fields[m]])
  }

  /** The sample of one record; a missing column raises KeyError. */
  function SampleOf(year: string, county: string, rec: Record, fields: seq<string>): (r: Result<Sample>)
    ensures r.Ok? <==> HasColumns(rec, fields)
    ensures r.Err? ==> r.error == KeyError
  {
    if !HasColumns(rec, fields) then Err(KeyError)
    else Ok(Sample(Features(rec, fields), rec[TargetField], Info(year, county, rec[PopulationField])))
  }

  /** The samples of the counties `cs.keys[j..]` of one year, in order. */
  function CountySamples(year: string, cs: Dict<string, Record>, fields: seq<string>, j: nat): (r: Result<seq<Sample>>)
    requires cs.Valid() && j <= |cs.keys|
    decreases |cs.keys| - j
  {
    if j == |cs.keys| then Ok([])
    else
      KeyAt(cs, j);
      match SampleOf(year, cs.keys[j], cs.items[cs.keys[j]], fields)
      case Err(e) => Err(e)
      case Ok(x) => Prefixed([x], CountySamples(year, cs, fields, j + 1))
  }

  /** The samples of the years `d.keys[i..]`, each year's counties in order. */
  function YearSamples(d: Data, fields: seq<string>, i: nat): (r: Result<seq<Sample>>)
    requires DataValid(d) && i <= |d.keys|
    decreases |d.keys| - i
  {
    if i == |d.keys| then Ok([])
    else
      KeyAt(d, i);
      match CountySamples(d.keys[i], d.items[d.keys[i]], fields, 0)
      case Err(e) => Err(e)
      case Ok(xs) => Prefixed(xs, YearSamples(d, fields, i + 1))
  }

  /** A sample stands for the record (year, county) of `d`: its features
      are the record's values of `fields` in that order, its target the
      record's Percent and its metadata the year, county and Population. */
  predicate SampleFor(d: Data, x: Sample, fields: seq<string>) {
    && HasPair(d, x.info.year, x.info.county)
    && SampleOf(x.info.year, x.info.county, d.items[x.info.year].items[x.info.county], fields) == Ok(x)
  }

  lemma {:induction false} CountySamplesFor(d: Data, year: string, fields: seq<string>, j: nat)
    requires DataValid(d) && year in d.items && j <= |d.items[year].keys|
    requires CountySamples(year, d.items[year], fields, j).Ok?
    ensures var xs := CountySamples(year, d.items[year], fields, j).value;
      forall k :: 0 <= k < |xs| ==> SampleFor(d, xs[k], fields)
    decreases |d.items[year].keys| - j
  {
    var cs := d.items[year];
    if j < |cs.keys| {
      KeyAt(cs, j);
      CountySamplesFor(d, year, fields, j + 1);
    }
  }

  /** Every sample stands for a record of the data, features in the order
      of `fields`. */
  lemma {:induction false} YearSamplesFor(d: Data, fields: seq<string>, i: nat)
    requires DataValid(d) && i <= |d.keys| && YearSamples(d, fields, i).Ok?
    ensures var xs := YearSamples(d, fields, i).value;
      forall k :: 0 <= k < |xs| ==> SampleFor(d, xs[k], fields)
    decreases |d.keys| - i
  {
    if i < |d.keys| {
      KeyAt(d, i);
      CountySamplesFor(d, d.keys[i], fields, 0);
      YearSamplesFor(d, fields, i + 1);
    }
  }

  /** Building the samples fails, with KeyError, exactly when some record
      lacks the target, a feature field or the population. */
  lemma {:induction false} CountySamplesFail(year: string, cs: Dict<string, Record>, fields: seq<string>, j: nat)
    requires cs.Valid() && j <= |cs.keys|
    ensures CountySamples(year, cs, fields, j).Err? <==>
      exists k :: j <= k < |cs.keys| && cs.keys[k] in cs.items && !HasColumns(cs.items[cs.keys[k]], fields)
    ensures CountySamples(year, cs, fields, j).Err? ==> CountySamples(year, cs, fields, j).error == KeyError
    decreases |cs.keys| - j
  {
    if j < |cs.keys| {
      KeyAt(cs, j);
      CountySamplesFail(year, cs, fields, j + 1);
    }
  }

  /** A year's counties, each with all columns. */
  predicate YearComplete(d: Data, fields: seq<string>, y: string)
    requires y in d.items
  {
    forall c :: c in d.items[y].items ==> HasColumns(d.items[y].items[c], fields)
  }

  lemma {:induction false} YearSamplesFail(d: Data, fields: seq<string>, i: nat)
    requires DataValid(d) && i <= |d.keys|
    ensures YearSamples(d, fields, i).Err? <==>
      exists k :: i <= k < |d.keys| && d.keys[k] in d.items && !YearComplete(d, fields, d.keys[k])
    ensures YearSamples(d, fields, i).Err? ==> YearSamples(d, fields, i).error == KeyError
    decreases |d.keys| - i
  {
    if i < |d.keys| {
      var y := d.keys[i];
      KeyAt(d, i);
      var cs := d.items[y];
      CountySamplesFail(y, cs, fields, 0);
      CompleteByKeys(cs, fields);
      YearSamplesFail(d, fields, i + 1);
    }
  }

  /** Every county has all columns exactly when no listed county lacks one. */
  lemma CompleteByKeys(cs: Dict<string, Record>, fields: seq<string>)
    requires cs.Valid()
    ensures (forall c :: c in cs.items ==> HasColumns(cs.items[c], fields)) <==>
      !exists k :: 0 <= k < |cs.keys| && cs.keys[k] in cs.items && !HasColumns(cs.items[cs.keys[k]], fields)
  {
    if c :| c in cs.items && !HasColumns(cs.items[c], fields) {
      var ks := set k | 0 <= k < |cs.keys| :: cs.keys[k];
      assert c in ks;
    }
  }

  /** `testPercentage` outside [0, 1] is replaced by 0.25. */
  function TestFraction(p: real): (r: real)
    ensures 0.0 <= r <= 1.0
    ensures 0.0 <= p <= 1.0 ==> r == p
    ensures !(0.0 <= p <= 1.0) ==> r == DefaultTestFraction
  {
    if p > 1.0 || p < 0.0 then DefaultTestFraction else p
  }

  /** `int(float(n) * (1 - p))` with p clamped: the size of the training set. */
  function TrainingSize(n: nat, p: real): (r: nat)
    ensures r <= n
  {
    var q := 1.0 - TestFraction(p);
    assert 0.0 <= (n as real) * q <= n as real by {
      assert 0.0 <= q <= 1.0;
    }
    ((n as real) * q).Floor
  }

  /** Python's `list.pop(k)` on a list: the list without its k-th item. */
  function Pop<T>(s: seq<T>, k: nat): (r: seq<T>)
    requires k < |s|
    ensures |r| == |s| - 1
    ensures forall m :: 0 <= m < k ==> r[m] == s[m]
    ensures forall m :: k <= m < |r| ==> r[m] == s[m + 1]
  {
    s[..k] + s[k + 1..]
  }

  /** The draws are what `random.randint(0, len - 1)` can return when the
      list starts with `size` items and loses one per draw. */
  predicate ValidDraws(picks: seq<int>, size: nat, count: nat) {
    count <= size && count <= |picks| && forall t :: 0 <= t < count ==> 0 <= picks[t] < size - t
  }

  /** The positions drawn into the training set, in draw order, and the
      positions left for the test set. */
  datatype Drawn = Drawn(chosen: seq<nat>, left: seq<nat>)

  /** Draws `t..count` from the positions still in `left`: drawing without
      replacement, so the positions drawn and the positions left are a
      permutation of `left`, and distinct positions stay distinct. */
  function Draw(left: seq<nat>, picks: seq<int>, t: nat, count: nat): (r: Drawn)
    requires t <= count <= |picks| && count - t <= |left|
    requires forall s :: t <= s < count ==> 0 <= picks[s] < |left| - (s - t)
    ensures |r.chosen| == count - t && |r.left| == |left| - (count - t)
    ensures multiset(r.chosen) + multiset(r.left) == multiset(left)
    ensures Increasing(left) ==> Increasing(r.left)
    ensures AllDistinct(left) ==> AllDistinct(r.chosen)
    decreases count - t
  {
    if t == count then Drawn([], left)
    else
      var k := picks[t];
      var rest := Draw(Pop(left, k), picks, t + 1, count);
      PopMultiset(left, k);
      PopIncreasing(left, k);
      ConsDistinct(left, k, rest.chosen);
      assert multiset([left[k]] + rest.chosen) == multiset{left[k]} + multiset(rest.chosen);
      Drawn([left[k]] + rest.chosen, rest.left)
  }

  /** The positions are distinct. */
  predicate AllDistinct(s: seq<nat>) {
    forall a, b :: 0 <= a < b < |s| ==> s[a] != s[b]
  }

  lemma PopDistinct(s: seq<nat>, k: nat)
    requires k < |s|
    ensures AllDistinct(s) ==> AllDistinct(Pop(s, k)) && s[k] !in Pop(s, k)
  {
    assert Pop(s, k) == s[..k] + s[k + 1..];
  }

  /** Putting a popped position in front of positions drawn from what was
      left after popping it keeps distinct positions distinct. */
  lemma ConsDistinct(left: seq<nat>, k: nat, s: seq<nat>)
    requires k < |left| && multiset(s) <= multiset(Pop(left, k))
    ensures AllDistinct(left) ==> AllDistinct(Pop(left, k))
    ensures AllDistinct(left) && AllDistinct(s) ==> AllDistinct([left[k]] + s)
  {
    PopDistinct(left, k);
    if AllDistinct(left) && AllDistinct(s) {
      assert multiset(Pop(left, k))[left[k]] == 0;
      var c := [left[k]] + s;
      forall a, b | 0 <= a < b < |c|
        ensures c[a] != c[b]
      {
        assert c[b] == s[b - 1] && s[b - 1] in multiset(s);
        if a > 0 {
          assert c[a] == s[a - 1];
        }
      }
    }
  }

  lemma RangeDistinct(n: nat)
    ensures AllDistinct(Range(n))
  {
  }

  /** One draw: the picked position goes first, the rest are drawn from
      what is left without it. */
  lemma DrawStep(left: seq<nat>, picks: seq<int>, t: nat, count: nat)
    requires t < count <= |picks| && count - t <= |left|
    requires forall s :: t <= s < count ==> 0 <= picks[s] < |left| - (s - t)
    ensures var rest := Draw(Pop(left, picks[t]), picks, t + 1, count);
      Draw(left, picks, t, count) == Drawn([left[picks[t]]] + rest.chosen, rest.left)
  {
  }

  /** `[0, 1, …, n-1]`: the positions of the samples before the draw. */
  function Range(n: nat): (r: seq<nat>)
    ensures |r| == n && forall k :: 0 <= k < n ==> r[k] == k
  {
    seq(n, k requires 0 <= k < n => k)
  }

  predicate Increasing(s: seq<nat>) {
    forall a, b :: 0 <= a < b < |s| ==> s[a] < s[b]
  }

  lemma PopMultiset<T>(s: seq<T>, k: nat)
    requires k < |s|
    ensures multiset(Pop(s, k)) + multiset{s[k]} == multiset(s)
  {
    assert s == s[..k] + [s[k]] + s[k + 1..];
  }

  lemma PopIncreasing(left: seq<nat>, k: nat)
    requires k < |left|
    ensures Increasing(left) ==> Increasing(Pop(left, k))
  {
    var popped := Pop(left, k);
    forall a, b | Increasing(left) && 0 <= a < b < |popped|
      ensures popped[a] < popped[b]
    {
      var a' := if a < k then a else a + 1;
      var b' := if b < k then b else b + 1;
      assert popped[a] == left[a'] && popped[b] == left[b'];
    }
  }

  /** Every position of `idx` is below `n`. */
  predicate Within(idx: seq<nat>, n: nat) {
    forall k :: 0 <= k < |idx| ==> idx[k] < n
  }

  /** The items of `xs` at the positions `idx`, in that order. */
  function Pick<T>(xs: seq<T>, idx: seq<nat>): (r: seq<T>)
    requires Within(idx, |xs|)
    ensures |r| == |idx| && forall k :: 0 <= k < |idx| ==> r[k] == xs[idx[k]]
  {
    seq(|idx|, k requires 0 <= k < |idx| => xs[idx[k]])
  }

  /** Every position drawn or left is a position of the samples. */
  lemma DrawInRange(n: nat, picks: seq<int>, count: nat)
    requires ValidDraws(picks, n, count)
    ensures var r := Draw(Range(n), picks, 0, count);
      Within(r.chosen, n) && Within(r.left, n)
  {
    var r := Draw(Range(n), picks, 0, count);
    assert multiset(r.chosen + r.left) == multiset(Range(n));
    forall x | x in r.chosen + r.left
      ensures x < n
    {
      assert x in multiset(Range(n));
    }
    forall k | 0 <= k < |r.chosen|
      ensures r.chosen[k] < n
    {
      assert r.chosen[k] in r.chosen + r.left;
    }
    forall k | 0 <= k < |r.left|
      ensures r.left[k] < n
    {
      assert r.left[k] in r.chosen + r.left;
    }
  }

  /** The training set and the test set drawn from `samples`. */
  datatype SplitSets = SplitSets(training: seq<Sample>, test: seq<Sample>)

  /** The draw of `getIOFromData` over `n` samples with test fraction `p`. */
  function DrawOf(n: nat, p: real, picks: seq<int>): (d: Drawn)
    requires ValidDraws(picks, n, TrainingSize(n, p))
    ensures Within(d.chosen, n) && Within(d.left, n)
  {
    DrawInRange(n, picks, TrainingSize(n, p));
    Draw(Range(n), picks, 0, TrainingSize(n, p))
  }

  function SplitOf(samples: seq<Sample>, p: real, picks: seq<int>): (r: SplitSets)
    requires ValidDraws(picks, |samples|, TrainingSize(|samples|, p))
  {
    var d := DrawOf(|samples|, p, picks);
    SplitSets(Pick(samples, d.chosen), Pick(samples, d.left))
  }

  /** The training set has `int(N * (1 - p))` samples and the test set the
      rest; together they are a permutation of the samples; the test set
      keeps the samples' original order. */
  lemma SplitProperties(samples: seq<Sample>, p: real, picks: seq<int>)
    requires ValidDraws(picks, |samples|, TrainingSize(|samples|, p))
    ensures var r := SplitOf(samples, p, picks);
      && |r.training| == TrainingSize(|samples|, p)
      && |r.training| + |r.test| == |samples|
      && multiset(r.training + r.test) == multiset(samples)
      && exists idx: seq<nat> :: Within(idx, |samples|) && Increasing(idx) && r.test == Pick(samples, idx)
  {
    var n, count := |samples|, TrainingSize(|samples|, p);
    var d := Draw(Range(n), picks, 0, count);
    assert multiset(d.chosen + d.left) == multiset(Range(n));
    DrawInRange(n, picks, count);
    var all := d.chosen + d.left;
    assert Within(all, n);
    PickPermutation(samples, all);
    assert Pick(samples, all) == Pick(samples, d.chosen) + Pick(samples, d.left);
  }

  /** Picking the items at a permutation of all positions permutes the items. */
  lemma PickPermutation<T>(xs: seq<T>, idx: seq<nat>)
    requires multiset(idx) == multiset(Range(|xs|))
    requires Within(idx, |xs|)
    ensures multiset(Pick(xs, idx)) == multiset(xs)
  {
    PickBySwaps(xs, idx, Range(|xs|));
    assert Pick(xs, Range(|xs|)) == xs;
  }

  /** Removing the same item from two lists with equal multisets leaves
      equal multisets. */
  lemma MultisetCancel<T>(a: seq<T>, b: seq<T>, x: T)
    requires multiset(a) + multiset{x} == multiset(b) + multiset{x}
    ensures multiset(a) == multiset(b)
  {
    forall y
      ensures multiset(a)[y] == multiset(b)[y]
    {
      assert (multiset(a) + multiset{x})[y] == (multiset(b) + multiset{x})[y];
    }
  }

  /** Picking at a list without its j-th position misses one item. */
  lemma PickPop<T>(xs: seq<T>, b: seq<nat>, j: nat)
    requires Within(b, |xs|) && j < |b|
    ensures Within(Pop(b, j), |xs|)
    ensures multiset(Pick(xs, b)) == multiset(Pick(xs, Pop(b, j))) + multiset{xs[b[j]]}
  {
    var p := Pick(xs, b);
    assert p == p[..j] + [p[j]] + p[j + 1..];
    assert Pick(xs, Pop(b, j)) == p[..j] + p[j + 1..];
  }

  /** Picks along two position lists with the same multiset have the same
      multiset of items. */
  lemma {:induction false} PickBySwaps<T>(xs: seq<T>, a: seq<nat>, b: seq<nat>)
    requires multiset(a) == multiset(b)
    requires Within(a, |xs|) && Within(b, |xs|)
    ensures multiset(Pick(xs, a)) == multiset(Pick(xs, b))
    decreases |a|
  {
    if |a| > 0 {
      var x := a[0];
      assert x in multiset(b);
      var j :| 0 <= j < |b| && b[j] == x;
      var b' := Pop(b, j);
      PopMultiset(b, j);
      assert a == [x] + a[1..];
      MultisetCancel(a[1..], b', x);
      PickBySwaps(xs, a[1..], b');
      PickSwapStep(xs, a, b, j);
    } else {
      assert |b| == |multiset(b)| == 0;
    }
  }

  /** Matching the first position of `a` with position `j` of `b`. */
  lemma PickSwapStep<T>(xs: seq<T>, a: seq<nat>, b: seq<nat>, j: nat)
    requires Within(a, |xs|) && Within(b, |xs|) && 0 < |a| && j < |b| && b[j] == a[0]
    requires Within(Pop(b, j), |xs|)
    requires multiset(Pick(xs, a[1..])) == multiset(Pick(xs, Pop(b, j)))
    ensures multiset(Pick(xs, a)) == multiset(Pick(xs, b))
  {
    PickPop(xs, b, j);
    assert Pick(xs, a) == [xs[a[0]]] + Pick(xs, a[1..]);
  }
}
