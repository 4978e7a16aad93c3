/** The feature subsets a sweep tries: every order-preserving combination
    of the field list, for each size in a window (src/nntest.py:22-28). */
module SweepSubsets {

  /** `c` can be obtained from `xs` by deleting items, keeping the order. */
  predicate SubseqOf<T(==)>(c: seq<T>, xs: seq<T>)
    decreases |xs|
  {
    if c == [] then true
    else if xs == [] then false
    else (c[0] == xs[0] && SubseqOf(c[1..], xs[1..])) || SubseqOf(c, xs[1..])
  }

  /** `itertools.combinations(xs, k)`: the combinations in lexicographic
      order of their positions in `xs`. */
  function Combinations<T>(xs: seq<T>, k: nat): seq<seq<T>>
    decreases |xs|
  {
    if k == 0 then [[]]
    else if xs == [] then []
    else WithHead(xs[0], Combinations(xs[1..], k - 1)) + Combinations(xs[1..], k)
  }

  function WithHead<T>(x: T, cs: seq<seq<T>>): (r: seq<seq<T>>)
    ensures |r| == |cs| && forall i :: 0 <= i < |cs| ==> r[i] == [x] + cs[i]
  {
    seq(|cs|, i requires 0 <= i < |cs| => [x] + cs[i])
  }

  function Binomial(n: nat, k: nat): nat {
    if k == 0 then 1
    else if n == 0 then 0
    else Binomial(n - 1, k - 1) + Binomial(n - 1, k)
  }

  lemma WithHeadMember<T>(x: T, cs: seq<seq<T>>, c: seq<T>)
    ensures c in WithHead(x, cs) <==> c != [] && c[0] == x && c[1..] in cs
  {
    if c in WithHead(x, cs) {
      var i :| 0 <= i < |cs| && WithHead(x, cs)[i] == c;
      assert c[1..] == cs[i];
    }
    if c != [] && c[0] == x && c[1..] in cs {
      var i :| 0 <= i < |cs| && cs[i] == c[1..];
      assert WithHead(x, cs)[i] == c;
    }
  }

  /** The combinations of size `k` are exactly the subsequences of `xs` of
      length `k`. */
  lemma {:induction false} CombinationsAre<T>(xs: seq<T>, k: nat, c: seq<T>)
    ensures c in Combinations(xs, k) <==> |c| == k && SubseqOf(c, xs)
    decreases |xs|
  {
    if k == 0 {
      assert Combinations(xs, k) == [[]];
    } else if xs != [] {
      assert Combinations(xs, k) == WithHead(xs[0], Combinations(xs[1..], k - 1)) + Combinations(xs[1..], k);
      WithHeadMember(xs[0], Combinations(xs[1..], k - 1), c);
      CombinationsAre(xs[1..], k, c);
      if c != [] {
        CombinationsAre(xs[1..], k - 1, c[1..]);
      }
    }
  }

  lemma {:induction false} SubseqLength<T>(c: seq<T>, xs: seq<T>)
    requires SubseqOf(c, xs)
    ensures |c| <= |xs|
    decreases |xs|
  {
    if c != [] {
      if c[0] == xs[0] && SubseqOf(c[1..], xs[1..]) {
        SubseqLength(c[1..], xs[1..]);
      } else {
        SubseqLength(c, xs[1..]);
      }
    }
  }

  lemma {:induction false} CombinationsCount<T>(xs: seq<T>, k: nat)
    ensures |Combinations(xs, k)| == Binomial(|xs|, k)
    decreases |xs|
  {
    if k != 0 && xs != [] {
      CombinationsCount(xs[1..], k - 1);
      CombinationsCount(xs[1..], k);
    }
  }

  /** The sizes the loop of `getAllSubsets` takes, from size `i` on: sizes
      below `start` are skipped, and the loop stops after the first size
      that reaches `stop`. */
  function SizesFrom(i: nat, n: nat, start: int, stop: int): seq<nat>
    decreases n + 1 - i
  {
    if i > n then []
    else if i < start then SizesFrom(i + 1, n, start, stop)
    else if i >= stop then [i]
    else [i] + SizesFrom(i + 1, n, start, stop)
  }

  function Sizes(n: nat, start: int, stop: int): seq<nat> {
    SizesFrom(1, n, start, stop)
  }

  /** `[lo, lo + 1, …, hi]`, empty when `hi < lo`. */
  function Interval(lo: nat, hi: int): (r: seq<nat>)
    ensures |r| == if hi < lo then 0 else hi - lo + 1
    ensures forall k :: 0 <= k < |r| ==> r[k] == lo + k
  {
    if hi < lo then [] else seq(hi - lo + 1, k requires 0 <= k <= hi - lo => lo + k)
  }

  function Lowest(start: int): nat {
    if start < 1 then 1 else start
  }

  function Highest(n: nat, start: int, stop: int): int {
    var lo := Lowest(start);
    if lo > n then lo - 1
    else if stop < lo then lo
    else if stop < n then stop
    else n
  }

  /** With lo = max(start, 1), the lowest size tried: the sizes run from lo
      up to min(stop, n) when stop >= lo; they are lo alone when stop < lo;
      there are none when lo > n. */
  lemma SizesWindow(n: nat, start: int, stop: int)
    ensures Sizes(n, start, stop) == Interval(Lowest(start), Highest(n, start, stop))
  {
    SizesFromWindow(1, n, start, stop);
  }

  lemma {:induction false} SizesFromWindow(i: nat, n: nat, start: int, stop: int)
    requires 1 <= i && (i <= Lowest(start) || Lowest(start) <= i <= stop)
    ensures var lo := if i < Lowest(start) then Lowest(start) else i;
      SizesFrom(i, n, start, stop) == Interval(lo, Highest(n, start, stop))
    decreases n + 1 - i
  {
    var lo := if i < Lowest(start) then Lowest(start) else i;
    if i <= n {
      if i < start {
        SizesFromWindow(i + 1, n, start, stop);
      } else if i >= stop {
        assert Interval(lo, Highest(n, start, stop)) == [i];
      } else {
        SizesFromWindow(i + 1, n, start, stop);
        assert Interval(lo, Highest(n, start, stop)) == [i] + Interval(lo + 1, Highest(n, start, stop));
      }
    }
  }

  /** The combinations of each size of `sizes` in turn. */
  function BySize<T>(xs: seq<T>, sizes: seq<nat>): seq<seq<T>> {
    if sizes == [] then [] else Combinations(xs, sizes[0]) + BySize(xs, sizes[1..])
  }

  function AllSubsets<T>(xs: seq<T>, start: int, stop: int): seq<seq<T>> {
    BySize(xs, Sizes(|xs|, start, stop))
  }

  lemma {:induction false} BySizeMembers<T>(xs: seq<T>, sizes: seq<nat>, c: seq<T>)
    ensures c in BySize(xs, sizes) <==> |c| in sizes && SubseqOf(c, xs)
  {
    if sizes != [] {
      CombinationsAre(xs, sizes[0], c);
      BySizeMembers(xs, sizes[1..], c);
    }
  }

  lemma {:induction false} BySizeOrdered<T>(xs: seq<T>, sizes: seq<nat>)
    requires forall a, b :: 0 <= a < b < |sizes| ==> sizes[a] < sizes[b]
    ensures var r := BySize(xs, sizes);
      forall a, b :: 0 <= a < b < |r| ==> |r[a]| <= |r[b]|
  {
    if sizes != [] {
      var n, first, rest := sizes[0], Combinations(xs, sizes[0]), BySize(xs, sizes[1..]);
      BySizeOrdered(xs, sizes[1..]);
      assert forall a, b :: 0 <= a < b < |BySize(xs, sizes[1..])| ==> |BySize(xs, sizes[1..])[a]| <= |BySize(xs, sizes[1..])[b]|;
      forall c | c in first
        ensures |c| == n
      {
        CombinationsAre(xs, n, c);
      }
      forall c | c in rest
        ensures |c| > n
      {
        BySizeMembers(xs, sizes[1..], c);
        var k :| 0 <= k < |sizes[1..]| && sizes[1..][k] == |c|;
        assert sizes[0] < sizes[k + 1];
      }
      LengthsOrdered(first, rest, n);
    }
  }

  /** Lists of one length followed by longer lists in order of length are
      in order of length. */
  lemma LengthsOrdered<T>(first: seq<seq<T>>, rest: seq<seq<T>>, n: nat)
    requires forall c :: c in first ==> |c| == n
    requires forall c :: c in rest ==> |c| > n
    requires forall a, b :: 0 <= a < b < |rest| ==> |rest[a]| <= |rest[b]|
    ensures var r := first + rest;
      forall a, b :: 0 <= a < b < |r| ==> |r[a]| <= |r[b]|
  {
    var r := first + rest;
    forall a, b | 0 <= a < b < |r|
      ensures |r[a]| <= |r[b]|
    {
      if b < |first| {
        assert r[a] in first && r[b] in first;
      } else if a < |first| {
        assert r[a] in first && r[b] in rest;
      } else {
        assert r[a] == rest[a - |first|] && r[b] == rest[b - |first|];
      }
    }
  }

  /** The subsets are exactly the subsequences whose size lies in the
      window, listed by increasing size. */
  lemma AllSubsetsAre<T>(xs: seq<T>, start: int, stop: int)
    ensures forall c :: c in AllSubsets(xs, start, stop) <==>
      Lowest(start) <= |c| <= Highest(|xs|, start, stop) && SubseqOf(c, xs)
    ensures var r := AllSubsets(xs, start, stop);
      forall a, b :: 0 <= a < b < |r| ==> |r[a]| <= |r[b]|
  {
    var sizes := Sizes(|xs|, start, stop);
    SizesWindow(|xs|, start, stop);
    forall c
      ensures c in AllSubsets(xs, start, stop) <==> Lowest(start) <= |c| <= Highest(|xs|, start, stop) && SubseqOf(c, xs)
    {
      BySizeMembers(xs, sizes, c);
      if Lowest(start) <= |c| <= Highest(|xs|, start, stop) {
        assert sizes[|c| - Lowest(start)] == |c|;
      }
    }
    BySizeOrdered(xs, sizes);
  }

  /** `getAllSubsets(myList, startCount, stopCount)`
      (src/nntest.py:22-28). */
  method GetAllSubsets<T>(myList: seq<T>, startCount: int, stopCount: int) returns (allSubsets: seq<seq<T>>)
    ensures allSubsets == AllSubsets(myList, startCount, stopCount)
  {
    allSubsets := [];
    var i := 1;
    while i <= |myList|
      invariant 1 <= i
      invariant AllSubsets(myList, startCount, stopCount) == allSubsets + BySize(myList, SizesFrom(i, |myList|, startCount, stopCount))
      decreases |myList| + 1 - i
    {
      if i < startCount {
        i := i + 1;
        continue;
      }
      allSubsets := allSubsets + Combinations(myList, i);
      if i >= stopCount {
        assert BySize(myList, [i]) == Combinations(myList, i) + BySize(myList, []);
        return;
      }
      i := i + 1;
    }
  }
}
