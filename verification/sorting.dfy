/** Python's `sorted()` over a collection of distinct keys: the keys in
    ascending order under a strict total order. */
module Sorting {
  import opened PyText

  ghost predicate StrictTotalOrder<T(!new)>(lt: (T, T) -> bool) {
    && (forall x :: !lt(x, x))
    && (forall x, y, z :: lt(x, y) && lt(y, z) ==> lt(x, z))
    && (forall x, y :: x != y ==> lt(x, y) || lt(y, x))
  }

  predicate StrictlySorted<T>(s: seq<T>, lt: (T, T) -> bool) {
    forall i, j :: 0 <= i < j < |s| ==> lt(s[i], s[j])
  }

  /** `m` is below every other element of `s`. */
  ghost predicate IsLeast<T>(m: T, s: set<T>, lt: (T, T) -> bool) {
    m in s && forall y :: y in s && y != m ==> lt(m, y)
  }

  lemma {:induction false} LeastExists<T(!new)>(s: set<T>, lt: (T, T) -> bool)
    requires s != {} && StrictTotalOrder(lt)
    ensures exists m :: IsLeast(m, s, lt)
    decreases |s|
  {
    var x :| x in s;
    if s != {x} {
      LeastExists(s - {x}, lt);
      var m :| IsLeast(m, s - {x}, lt);
      if !lt(m, x) {
        assert IsLeast(x, s, lt);
      } else {
        assert IsLeast(m, s, lt);
      }
    } else {
      assert IsLeast(x, s, lt);
    }
  }

  /** The smallest element of a non-empty set. */
  function Least<T(!new)>(s: set<T>, lt: (T, T) -> bool): (m: T)
    requires s != {} && StrictTotalOrder(lt)
    ensures IsLeast(m, s, lt)
  {
    LeastExists(s, lt);
    var m :| m in s && forall y :: y in s && y != m ==> lt(m, y);
    m
  }

  /** `sorted(s)`: every element of `s` exactly once, strictly ascending. */
  function SortedOf<T(!new)>(s: set<T>, lt: (T, T) -> bool): (r: seq<T>)
    requires StrictTotalOrder(lt)
    ensures |r| == |s|
    ensures forall x :: x in r <==> x in s
    ensures StrictlySorted(r, lt)
    decreases |s|
  {
    if s == {} then []
    else
      var m := Least(s, lt);
      [m] + SortedOf(s - {m}, lt)
  }

  /** A strictly sorted sequence is determined by its elements: it is the
      result of `sorted` on them. */
  lemma {:induction false} SortedUnique<T(!new)>(r: seq<T>, s: set<T>, lt: (T, T) -> bool)
    requires StrictTotalOrder(lt)
    requires StrictlySorted(r, lt)
    requires forall x :: x in r <==> x in s
    ensures r == SortedOf(s, lt)
    decreases |r|
  {
    if r != [] {
      assert r[0] in s;
      var m := Least(s, lt);
      assert r[0] == m;
      forall x ensures x in r[1..] <==> x in s - {m} {
        if x in r[1..] {
          var k :| 1 <= k < |r| && r[k] == x;
          assert lt(r[0], r[k]);
        }
        if x in s - {m} {
          var k :| 0 <= k < |r| && r[k] == x;
          assert k != 0;
          assert r[1..][k - 1] == x;
        }
      }
      SortedUnique(r[1..], s - {m}, lt);
      assert r == [m] + r[1..];
    } else {
      assert s == {};
    }
  }

  lemma StrictlySortedDistinct<T>(r: seq<T>, lt: (T, T) -> bool, i: int, j: int)
    requires forall x :: !lt(x, x)
    requires StrictlySorted(r, lt)
    requires 0 <= i < |r| && 0 <= j < |r| && i != j
    ensures r[i] != r[j]
  {
    if i < j {
      assert lt(r[i], r[j]);
    } else {
      assert lt(r[j], r[i]);
    }
  }

  /** Python's string `<` is a strict total order. */
  lemma StrLtIsStrictTotalOrder()
    ensures StrictTotalOrder(StrLt)
  {
    forall a: string
      ensures !StrLt(a, a)
    {
      StrLtIrreflexive(a);
    }
    forall a: string, b: string, c: string | StrLt(a, b) && StrLt(b, c)
      ensures StrLt(a, c)
    {
      StrLtTransitive(a, b, c);
    }
    forall a: string, b: string | a != b
      ensures StrLt(a, b) || StrLt(b, a)
    {
      StrLtTotal(a, b);
    }
  }

  /** `sorted()` of a collection of distinct strings. */
  function SortedStrings(s: set<string>): (r: seq<string>)
    ensures |r| == |s|
    ensures forall x :: x in r <==> x in s
    ensures StrictlySorted(r, StrLt)
  {
    StrLtIsStrictTotalOrder();
    SortedOf(s, StrLt)
  }
}
