/** The helpers that choose the points of the bar graph comparing a model's
    predictions `p` with the real values `r` (src/nnmodel.py:54-80): the
    best fits, a random choice, and the (real, predicted) pairs. The
    metadata list is the network's `testInfo`, None when it was never set. */
module PlotPoints {
  import opened Outcomes
  import opened PyText
  import opened Sorting
  import opened NetworkSplit

  /** The three lists a helper returns: predictions, real values and
      metadata, index-aligned. */
  datatype Points<T> = Points(predicted: seq<real>, actual: seq<real>, metadata: seq<T>)

  function Abs(x: real): real {
    if x < 0.0 then -x else x
  }

  /** `abs(p[i] - r[i])`. */
  function Diff(p: seq<real>, r: seq<real>, i: nat): real
    requires i < |p| && i < |r|
  {
    Abs(p[i] - r[i])
  }

  /** `va` after the first `k` positions: each difference seen maps to the
      position where it was first seen. */
  function FirstSeen(p: seq<real>, r: seq<real>, k: nat): map<real, nat>
    requires k <= |p| && k <= |r|
  {
    if k == 0 then map[]
    else
      var va := FirstSeen(p, r, k - 1);
      var d := Diff(p, r, k - 1);
      if d in va then va else va[d := k - 1]
  }

  /** `va` holds every difference of the first `k` positions, each mapped to
      the first position that has it. */
  lemma {:induction false} FirstSeenIs(p: seq<real>, r: seq<real>, k: nat)
    requires k <= |p| && k <= |r|
    ensures var va := FirstSeen(p, r, k);
      && (forall i :: 0 <= i < k ==> Diff(p, r, i) in va)
      && (forall d :: d in va ==> va[d] < k && Diff(p, r, va[d]) == d && forall j :: 0 <= j < va[d] ==> Diff(p, r, j) != d)
  {
    if k > 0 {
      FirstSeenIs(p, r, k - 1);
    }
  }

  predicate RealLt(a: real, b: real) {
    a < b
  }

  lemma RealLtIsStrictTotalOrder()
    ensures StrictTotalOrder(RealLt)
  {
  }

  /** `sorted(va.keys())[0:n]`. */
  function SmallestKeys(va: map<real, nat>, n: int): (s: seq<real>)
    ensures forall k :: 0 <= k < |s| ==> s[k] in va
  {
    RealLtIsStrictTotalOrder();
    var sorted := SortedOf(va.Keys, RealLt);
    var s := Slice(sorted, 0, n);
    assert forall k :: 0 <= k < |s| ==> s[k] == sorted[k] && sorted[k] in sorted;
    s
  }

  /** `[va[z] for z in keys]`. */
  function PositionsOf(va: map<real, nat>, keys: seq<real>): (idx: seq<nat>)
    requires forall k :: 0 <= k < |keys| ==> keys[k] in va
    ensures |idx| == |keys| && forall k :: 0 <= k < |keys| ==> idx[k] == va[keys[k]]
  {
    seq(|keys|, k requires 0 <= k < |keys| => va[keys[k]])
  }

  /** The positions `_bestFit` shows: the first position of each of the `n`
      smallest differences, ascending by difference. */
  function BestIndices(p: seq<real>, r: seq<real>, n: int): (idx: seq<nat>)
    requires |p| <= |r|
    ensures Within(idx, |p|)
  {
    var va := FirstSeen(p, r, |p|);
    FirstSeenIs(p, r, |p|);
    PositionsOf(va, SmallestKeys(va, n))
  }

  /** The best-fit points; a real-value list shorter than the predictions,
      or a metadata list too short for a chosen position, raises
      IndexError. */
  function BestFitOf<T>(testInfo: Option<seq<T>>, p: seq<real>, r: seq<real>, n: int): Result<Points<T>> {
    if |r| < |p| then Err(IndexError)
    else
      var idx := BestIndices(p, r, n);
      if testInfo.Some? && !Within(idx, |testInfo.value|) then Err(IndexError)
      else Ok(Points(Pick(p, idx), Pick(r, idx),
                     if testInfo.Some? then Pick(testInfo.value, idx) else []))
  }

  /** The number of distinct differences. */
  function Distinct(p: seq<real>, r: seq<real>): nat
    requires |p| <= |r|
  {
    |FirstSeen(p, r, |p|).Keys|
  }

  /** `n` points, or every distinct difference when there are fewer; a
      negative `n` leaves out that many of the largest. */
  lemma BestCount(p: seq<real>, r: seq<real>, n: int)
    requires |p| <= |r|
    ensures |BestIndices(p, r, n)| == Bound(n, Distinct(p, r))
    ensures 0 <= n ==> |BestIndices(p, r, n)| == if n < Distinct(p, r) then n else Distinct(p, r)
  {
    RealLtIsStrictTotalOrder();
  }

  /** The differences at the chosen positions strictly ascend, and each
      chosen position is the first with its difference. */
  lemma BestAscending(p: seq<real>, r: seq<real>, n: int)
    requires |p| <= |r|
    ensures var idx := BestIndices(p, r, n);
      && (forall a, b :: 0 <= a < b < |idx| ==> Diff(p, r, idx[a]) < Diff(p, r, idx[b]))
      && (forall k, j :: 0 <= k < |idx| && 0 <= j < idx[k] ==> Diff(p, r, j) != Diff(p, r, idx[k]))
  {
    var s := SmallestKeys(FirstSeen(p, r, |p|), n);
    SmallestAscending(FirstSeen(p, r, |p|), n);
    var idx := BestIndices(p, r, n);
    forall a, b | 0 <= a < b < |idx|
      ensures Diff(p, r, idx[a]) < Diff(p, r, idx[b])
    {
      BestAt(p, r, n, a);
      BestAt(p, r, n, b);
    }
    forall k, j | 0 <= k < |idx| && 0 <= j < idx[k]
      ensures Diff(p, r, j) != Diff(p, r, idx[k])
    {
      BestAt(p, r, n, k);
    }
  }

  /** The `k`-th chosen position is the first with the `k`-th smallest
      difference. */
  lemma BestAt(p: seq<real>, r: seq<real>, n: int, k: nat)
    requires |p| <= |r| && k < |BestIndices(p, r, n)|
    ensures var s, idx := SmallestKeys(FirstSeen(p, r, |p|), n), BestIndices(p, r, n);
      && Diff(p, r, idx[k]) == s[k]
      && forall j :: 0 <= j < idx[k] ==> Diff(p, r, j) != s[k]
  {
    FirstSeenIs(p, r, |p|);
  }

  /** The smallest keys strictly ascend. */
  lemma SmallestAscending(va: map<real, nat>, n: int)
    ensures var s := SmallestKeys(va, n);
      forall a, b :: 0 <= a < b < |s| ==> s[a] < s[b]
  {
    RealLtIsStrictTotalOrder();
    var sorted := SortedOf(va.Keys, RealLt);
    var s := SmallestKeys(va, n);
    assert forall k :: 0 <= k < |s| ==> s[k] == sorted[k];
  }

  /** A key below the `k`-th of the smallest keys is one of the keys before
      it. */
  lemma SmallerKeyEarlier(va: map<real, nat>, n: int, d: real, k: nat)
    requires d in va
    requires k < |SmallestKeys(va, n)| && d < SmallestKeys(va, n)[k]
    ensures exists a :: 0 <= a < k && SmallestKeys(va, n)[a] == d
  {
    RealLtIsStrictTotalOrder();
    var sorted := SortedOf(va.Keys, RealLt);
    var s := SmallestKeys(va, n);
    assert s[k] == sorted[k];
    assert d in sorted;
    var m :| 0 <= m < |sorted| && sorted[m] == d;
    assert s[m] == sorted[m];
  }

  /** No position left out has a smaller difference than a chosen one
      unless its difference is already shown at an earlier point. */
  lemma BestNoneSmaller(p: seq<real>, r: seq<real>, n: int)
    requires |p| <= |r|
    ensures var idx := BestIndices(p, r, n);
      forall i, k :: 0 <= i < |p| && 0 <= k < |idx| && Diff(p, r, i) < Diff(p, r, idx[k]) ==>
        exists a :: 0 <= a < k && Diff(p, r, idx[a]) == Diff(p, r, i)
  {
    var va := FirstSeen(p, r, |p|);
    FirstSeenIs(p, r, |p|);
    var s := SmallestKeys(va, n);
    var idx := BestIndices(p, r, n);
    forall i, k | 0 <= i < |p| && 0 <= k < |idx| && Diff(p, r, i) < Diff(p, r, idx[k])
      ensures exists a :: 0 <= a < k && Diff(p, r, idx[a]) == Diff(p, r, i)
    {
      SmallerKeyEarlier(va, n, Diff(p, r, i), k);
      var a :| 0 <= a < k && s[a] == Diff(p, r, i);
      assert Diff(p, r, idx[a]) == Diff(p, r, i);
    }
  }

  /** `_modelData_barGraph_bestFit(o, p, r, n)` (src/nnmodel.py:54-62). */
  method BestFit<T>(testInfo: Option<seq<T>>, p: seq<real>, r: seq<real>, n: int) returns (result: Result<Points<T>>)
    ensures result == BestFitOf(testInfo, p, r, n)
  {
    var va: map<real, nat> := map[];
    for i := 0 to |p|
      invariant i <= |r|
      invariant va == FirstSeen(p, r, i)
    {
      if i >= |r| {
        return Err(IndexError);
      }
      var d := Abs(p[i] - r[i]);
      if !(d in va) {
        va := va[d := i];
      }
    }
    var idx := PositionsOf(va, SmallestKeys(va, n));
    assert idx == BestIndices(p, r, n);
    var ml: seq<T> := [];
    if testInfo.Some? {
      if !Within(idx, |testInfo.value|) {
        return Err(IndexError);
      }
      ml := Pick(testInfo.value, idx);
    }
    return Ok(Points(Pick(p, idx), Pick(r, idx), ml));
  }

  /** How many draws `range(n)` asks for before the range of `randint`
      runs empty. */
  function Made(n: int, size: nat): nat {
    if n < 0 then 0 else if n < size then n else size
  }

  /** `randint(0, lp - 1)` succeeded for every draw made: draw `k` lies in
      `[0, size - 1 - k]`. */
  predicate RandomDraws(picks: seq<int>, size: nat, n: int) {
    ValidDraws(picks, size, Made(n, size))
  }

  /** The draws as positions. */
  function Positions(picks: seq<int>): (rl: seq<nat>)
    requires forall k :: 0 <= k < |picks| ==> 0 <= picks[k]
    ensures |rl| == |picks| && forall k :: 0 <= k < |picks| ==> rl[k] == picks[k]
  {
    seq(|picks|, k requires 0 <= k < |picks| => picks[k] as nat)
  }

  /** The points at positions `rl`; a list too short for one raises
      IndexError. */
  function PointsAt<T>(testInfo: Option<seq<T>>, p: seq<real>, r: seq<real>, rl: seq<nat>): Result<Points<T>>
    requires Within(rl, |p|)
  {
    if !Within(rl, |r|) || (testInfo.Some? && !Within(rl, |testInfo.value|)) then Err(IndexError)
    else Ok(Points(Pick(p, rl), Pick(r, rl), if testInfo.Some? then Pick(testInfo.value, rl) else []))
  }

  /** `_modelData_barGraph_random` as written: draw `k` comes from a range
      that shrinks by one each time, but it indexes the full, unchanged
      lists; asking for more points than there are makes `randint` raise
      ValueError. */
  function RandomOf<T>(testInfo: Option<seq<T>>, p: seq<real>, r: seq<real>, n: int, picks: seq<int>): Result<Points<T>>
    requires RandomDraws(picks, |p|, n)
  {
    if n > |p| then Err(ValueError)
    else PointsAt(testInfo, p, r, Positions(picks[..Made(n, |p|)]))
  }

  /** `_modelData_barGraph_random(o, p, r, n)` (src/nnmodel.py:64-74), with
      the values `random.randint` returns given as `picks`. */
  method Random<T>(testInfo: Option<seq<T>>, p: seq<real>, r: seq<real>, n: int, picks: seq<int>)
    returns (result: Result<Points<T>>)
    requires RandomDraws(picks, |p|, n)
    ensures result == RandomOf(testInfo, p, r, n, picks)
  {
    var rl: seq<nat> := [];
    var lp := |p|;
    var i := 0;
    while i < n
      invariant 0 <= i <= Made(n, |p|) && i <= |picks|
      invariant lp == |p| - i
      invariant rl == Positions(picks[..i]) && Within(rl, |p|)
    {
      if lp - 1 < 0 {
        return Err(ValueError);
      }
      rl := rl + [picks[i] as nat];
      lp := lp - 1;
      i := i + 1;
    }
    result := Gather(testInfo, p, r, rl);
  }

  /** The second loop of `_modelData_barGraph_random` (src/nnmodel.py:70-73):
      the points at the drawn positions, in draw order. */
  method Gather<T>(testInfo: Option<seq<T>>, p: seq<real>, r: seq<real>, rl: seq<nat>)
    returns (result: Result<Points<T>>)
    requires Within(rl, |p|)
    ensures result == PointsAt(testInfo, p, r, rl)
  {
    var pr: seq<real>, rr: seq<real>, ml: seq<T> := [], [], [];
    for j := 0 to |rl|
      invariant Within(rl[..j], |r|)
      invariant testInfo.Some? ==> Within(rl[..j], |testInfo.value|)
      invariant pr == Pick(p, rl[..j]) && rr == Pick(r, rl[..j])
      invariant ml == if testInfo.Some? then Pick(testInfo.value, rl[..j]) else []
    {
      var x := rl[j];
      pr := pr + [p[x]];
      if x >= |r| {
        return Err(IndexError);
      }
      rr := rr + [r[x]];
      if testInfo.Some? {
        if x >= |testInfo.value| {
          return Err(IndexError);
        }
        ml := ml + [testInfo.value[x]];
      }
    }
    assert rl[..|rl|] == rl;
    return Ok(Points(pr, rr, ml));
  }

  /** The random points are the points at the drawn positions, aligned
      across the three lists. */
  lemma RandomAligned<T>(testInfo: Option<seq<T>>, p: seq<real>, r: seq<real>, n: int, picks: seq<int>)
    requires RandomDraws(picks, |p|, n)
    requires RandomOf(testInfo, p, r, n, picks).Ok?
    ensures var pts := RandomOf(testInfo, p, r, n, picks).value;
      && 0 <= Made(n, |p|) <= |p| && |pts.predicted| == Made(n, |p|) && |pts.actual| == Made(n, |p|)
      && (forall k :: 0 <= k < Made(n, |p|) ==> 0 <= picks[k] < |p| - k && pts.predicted[k] == p[picks[k]] && pts.actual[k] == r[picks[k]])
      && (testInfo.Some? ==> |pts.metadata| == Made(n, |p|) && forall k :: 0 <= k < Made(n, |p|) ==> pts.metadata[k] == testInfo.value[picks[k]])
      && (testInfo.None? ==> pts.metadata == [])
  {
  }

  /** Two draws of 0 on two points give the first point twice. */
  lemma RandomRepeats()
    ensures RandomDraws([0, 0], 2, 2)
    ensures RandomOf<string>(None, [1.0, 2.0], [1.5, 2.5], 2, [0, 0]) == Ok(Points([1.0, 1.0], [1.5, 1.5], []))
  {
    assert Positions([0, 0][..2]) == [0, 0];
    assert Pick([1.0, 2.0], [0, 0]) == [1.0, 1.0];
    assert Pick([1.5, 2.5], [0, 0]) == [1.5, 1.5];
  }

  /** The random choice as evidently intended: each drawn position is popped
      from the positions still available, so the range shrinking by one
      per draw picks distinct points. */
  function RandomDistinctOf<T>(testInfo: Option<seq<T>>, p: seq<real>, r: seq<real>, n: int, picks: seq<int>): Result<Points<T>>
    requires RandomDraws(picks, |p|, n)
  {
    if n > |p| then Err(ValueError)
    else
      DrawInRange(|p|, picks, Made(n, |p|));
      PointsAt(testInfo, p, r, Draw(Range(|p|), picks, 0, Made(n, |p|)).chosen)
  }

  /** The corrected choice shows `n` distinct points (none for a negative
      `n`). */
  lemma RandomDistinctPoints<T>(testInfo: Option<seq<T>>, p: seq<real>, r: seq<real>, n: int, picks: seq<int>)
    requires RandomDraws(picks, |p|, n)
    requires n <= |p|
    ensures var chosen := Draw(Range(|p|), picks, 0, Made(n, |p|)).chosen;
      && |chosen| == Made(n, |p|)
      && AllDistinct(chosen)
      && Within(chosen, |p|)
      && (RandomDistinctOf(testInfo, p, r, n, picks).Ok? ==> RandomDistinctOf(testInfo, p, r, n, picks).value.predicted == Pick(p, chosen))
  {
    DrawInRange(|p|, picks, Made(n, |p|));
    RangeDistinct(|p|);
  }

  /** `_modelData_barGraph_arrange(p, r)` (src/nnmodel.py:76-80): the pair
      [real, predicted] for every prediction; a shorter real-value list
      raises IndexError. */
  method Arrange(p: seq<real>, r: seq<real>) returns (result: Result<seq<seq<real>>>)
    ensures result.Ok? <==> |r| >= |p|
    ensures result.Err? ==> result.error == IndexError
    ensures result.Ok? ==> |result.value| == |p| && forall i :: 0 <= i < |p| ==> result.value[i] == [r[i], p[i]]
  {
    var toReturn: seq<seq<real>> := [];
    for i := 0 to |p|
      invariant i <= |r|
      invariant |toReturn| == i && forall k :: 0 <= k < i ==> toReturn[k] == [r[k], p[k]]
    {
      if i >= |r| {
        return Err(IndexError);
      }
      toReturn := toReturn + [[r[i], p[i]]];
    }
    return Ok(toReturn);
  }
}
