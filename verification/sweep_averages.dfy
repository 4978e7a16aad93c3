/** The per-field running error lists of a sweep, their means, and the
    ranking of the fields by mean error (src/nntest.py:8-20, 55). */
module RunningAverages {
  import opened Outcomes
  import opened PyDict

  /** Field name to the errors of every model that used the field. */
  type Lists = Dict<string, seq<real>>

  /** How often `f` occurs in `fs`. */
  function Count(fs: seq<string>, f: string): nat {
    if fs == [] then 0 else (if fs[0] == f then 1 else 0) + Count(fs[1..], f)
  }

  function Repeat(e: real, n: nat): (r: seq<real>)
    ensures |r| == n && forall i :: 0 <= i < n ==> r[i] == e
  {
    seq(n, i => e)
  }

  /** The list of `f` in `d`, or the empty list for a field not yet seen. */
  function ListOf(d: Lists, f: string): seq<real> {
    if f in d.items then d.items[f] else []
  }

  /** One step of `updateRunningAverages`: a new field gets `[error]`, a
      known one has `error` appended. */
  function Appended(d: Lists, f: string, error: real): (r: Lists)
    requires d.Valid()
    ensures r.Valid()
  {
    d.Put(f, ListOf(d, f) + [error])
  }

  function Updated(d: Lists, fields: seq<string>, error: real): (r: Lists)
    requires d.Valid()
    ensures r.Valid()
    decreases |fields|
  {
    if fields == [] then d else Updated(Appended(d, fields[0], error), fields[1..], error)
  }

  /** After the update, a field has a list exactly when it had one or is
      among `fields`, and its list is the old one followed by `error` once
      per occurrence in `fields`. */
  lemma {:induction false} UpdatedEffect(d: Lists, fields: seq<string>, error: real, f: string)
    requires d.Valid()
    ensures f in Updated(d, fields, error).items <==> f in d.items || f in fields
    ensures ListOf(Updated(d, fields, error), f) == ListOf(d, f) + Repeat(error, Count(fields, f))
    decreases |fields|
  {
    if fields == [] {
      assert ListOf(d, f) + Repeat(error, 0) == ListOf(d, f);
    } else {
      var d1 := Appended(d, fields[0], error);
      UpdatedEffect(d1, fields[1..], error, f);
      AppendedEffect(d, fields[0], error, f);
      CountCons(fields, f, error);
      Associative(ListOf(d, f), if fields[0] == f then [error] else [], Repeat(error, Count(fields[1..], f)));
    }
  }

  /** The first field counts once if it is `f`, then the rest count. */
  lemma CountCons(fields: seq<string>, f: string, error: real)
    requires fields != []
    ensures f in fields <==> f == fields[0] || f in fields[1..]
    ensures Repeat(error, Count(fields, f))
      == (if fields[0] == f then [error] else []) + Repeat(error, Count(fields[1..], f))
  {
    assert fields == [fields[0]] + fields[1..];
  }

  /** One step adds `error` to the list of its own field only. */
  lemma AppendedEffect(d: Lists, g: string, error: real, f: string)
    requires d.Valid()
    ensures f in Appended(d, g, error).items <==> f in d.items || f == g
    ensures ListOf(Appended(d, g, error), f) == ListOf(d, f) + (if f == g then [error] else [])
  {
    if f != g {
      assert ListOf(d, f) + [] == ListOf(d, f);
    }
  }

  /** The fields already present keep their place; new ones follow. */
  lemma {:induction false} UpdatedOrder(d: Lists, fields: seq<string>, error: real)
    requires d.Valid()
    ensures |d.keys| <= |Updated(d, fields, error).keys|
    ensures Updated(d, fields, error).keys[..|d.keys|] == d.keys
    decreases |fields|
  {
    if fields != [] {
      var d1 := Appended(d, fields[0], error);
      UpdatedOrder(d1, fields[1..], error);
      assert d1.keys[..|d.keys|] == d.keys;
    }
  }

  /** Every field's list is non-empty, so its mean exists. */
  predicate AllNonEmpty(d: Lists) {
    forall f :: f in d.items ==> d.items[f] != []
  }

  lemma CountPositive(fields: seq<string>, f: string)
    requires f in fields
    ensures Count(fields, f) > 0
  {
    if fields[0] != f {
      assert f in fields[1..];
      CountPositive(fields[1..], f);
    }
  }

  /** Updates keep every list non-empty. */
  lemma UpdatedNonEmpty(d: Lists, fields: seq<string>, error: real)
    requires d.Valid() && AllNonEmpty(d)
    ensures AllNonEmpty(Updated(d, fields, error))
  {
    var r := Updated(d, fields, error);
    forall f | f in r.items
      ensures r.items[f] != []
    {
      UpdatedEffect(d, fields, error, f);
      if f !in d.items {
        CountPositive(fields, f);
      }
    }
  }

  /** A subset names each field once, so each of its fields gets exactly
      one more error. */
  lemma UpdatedOnce(d: Lists, fields: seq<string>, error: real, f: string)
    requires d.Valid()
    requires forall i, j :: 0 <= i < j < |fields| ==> fields[i] != fields[j]
    ensures ListOf(Updated(d, fields, error), f) == ListOf(d, f) + (if f in fields then [error] else [])
  {
    UpdatedEffect(d, fields, error, f);
    CountDistinct(fields, f);
  }

  lemma {:induction false} CountDistinct(fields: seq<string>, f: string)
    requires forall i, j :: 0 <= i < j < |fields| ==> fields[i] != fields[j]
    ensures Count(fields, f) == if f in fields then 1 else 0
  {
    if fields != [] {
      CountDistinct(fields[1..], f);
      if fields[0] == f {
        assert f !in fields[1..];
      }
    }
  }

  /** The running error lists of one sweep (the dict that
      `updateRunningAverages` changes in place). */
  class Averages {
    var lists: Lists

    ghost predicate Valid()
      reads this
    {
      lists.Valid()
    }

    constructor ()
      ensures Valid() && lists == Empty()
    {
      lists := Empty();
    }

    /** `updateRunningAverages(runningAverages, activeFields, error)`
        (src/nntest.py:8-14). */
    method Update(activeFields: seq<string>, error: real)
      requires Valid()
      modifies this
      ensures Valid() && lists == Updated(old(lists), activeFields, error)
    {
      for i := 0 to |activeFields|
        invariant Valid()
        invariant Updated(old(lists), activeFields, error) == Updated(lists, activeFields[i..], error)
      {
        ghost var before := lists;
        var field := activeFields[i];
        if !(field in lists.items) {
          assert ListOf(lists, field) + [error] == [error];
          lists := lists.Put(field, [error]);
        } else {
          lists := lists.Put(field, lists.items[field] + [error]);
        }
        assert lists == Appended(before, field, error);
        assert activeFields[i..][0] == field && activeFields[i..][1..] == activeFields[i + 1..];
      }
    }
  }

  function Total(xs: seq<real>): real {
    if xs == [] then 0.0 else xs[0] + Total(xs[1..])
  }

  /** `statistics.mean` of a non-empty list. */
  function MeanOf(xs: seq<real>): real
    requires xs != []
  {
    Total(xs) / |xs| as real
  }

  /** The dict `calculateRunningAverages` builds from keys `i..` of `d`
      onto `acc`; the mean of an empty list raises StatisticsError. */
  function AveragesFrom(d: Lists, acc: Dict<string, real>, i: nat): (r: Result<Dict<string, real>>)
    requires d.Valid() && acc.Valid() && i <= |d.keys|
    ensures r.Ok? ==> r.value.Valid()
    decreases |d.keys| - i
  {
    if i == |d.keys| then Ok(acc)
    else
      KeyAt(d, i);
      var xs := d.items[d.keys[i]];
      if xs == [] then Err(StatisticsError)
      else AveragesFrom(d, acc.Put(d.keys[i], MeanOf(xs)), i + 1)
  }

  function AveragesOf(d: Lists): (r: Result<Dict<string, real>>)
    requires d.Valid()
    ensures r.Ok? ==> r.value.Valid()
  {
    AveragesFrom(d, Empty(), 0)
  }

  /** `acc` holds the means of the first `i` fields of `d`, in order. */
  ghost predicate MeansSoFar(d: Lists, acc: Dict<string, real>, i: nat)
    requires d.Valid() && i <= |d.keys|
  {
    && acc.Valid() && acc.keys == d.keys[..i]
    && forall k :: 0 <= k < i ==> d.keys[k] in d.items && d.items[d.keys[k]] != [] && acc.items[d.keys[k]] == MeanOf(d.items[d.keys[k]])
  }

  /** The fields from position `i` on all have non-empty lists. */
  predicate NonEmptyFrom(d: Lists, i: nat) {
    forall k :: i <= k < |d.keys| ==> d.keys[k] in d.items && d.items[d.keys[k]] != []
  }

  lemma MeansSoFarStep(d: Lists, acc: Dict<string, real>, i: nat)
    requires d.Valid() && i < |d.keys| && MeansSoFar(d, acc, i)
    requires d.keys[i] in d.items && d.items[d.keys[i]] != []
    ensures MeansSoFar(d, acc.Put(d.keys[i], MeanOf(d.items[d.keys[i]])), i + 1)
  {
    var f := d.keys[i];
    assert f !in acc.items;
    assert d.keys[..i + 1] == d.keys[..i] + [f];
  }

  lemma {:induction false} AveragesFromIs(d: Lists, acc: Dict<string, real>, i: nat)
    requires d.Valid() && i <= |d.keys| && MeansSoFar(d, acc, i)
    ensures AveragesFrom(d, acc, i).Ok? <==> NonEmptyFrom(d, i)
    ensures AveragesFrom(d, acc, i).Ok? ==> MeansSoFar(d, AveragesFrom(d, acc, i).value, |d.keys|)
    decreases |d.keys| - i
  {
    if i < |d.keys| {
      KeyAt(d, i);
      var f := d.keys[i];
      NonEmptyStep(d, i);
      if d.items[f] != [] {
        MeansSoFarStep(d, acc, i);
        AveragesFromIs(d, acc.Put(f, MeanOf(d.items[f])), i + 1);
      }
    }
  }

  lemma NonEmptyStep(d: Lists, i: nat)
    requires i < |d.keys| && d.keys[i] in d.items
    ensures NonEmptyFrom(d, i) <==> d.items[d.keys[i]] != [] && NonEmptyFrom(d, i + 1)
  {
  }

  /** `calculateRunningAverages` succeeds exactly when every list is
      non-empty, keeps the fields in their order and maps each to the mean
      of its list. */
  lemma AveragesOfMeans(d: Lists)
    requires d.Valid()
    ensures AveragesOf(d).Ok? <==> AllNonEmpty(d)
    ensures AveragesOf(d).Ok? ==>
      && AveragesOf(d).value.keys == d.keys
      && forall f :: f in d.items ==> f in AveragesOf(d).value.items && AveragesOf(d).value.items[f] == MeanOf(d.items[f])
  {
    AveragesFromIs(d, Empty(), 0);
    if AveragesOf(d).Ok? {
      assert d.keys[..|d.keys|] == d.keys;
      forall f | f in d.items
        ensures f in AveragesOf(d).value.items && AveragesOf(d).value.items[f] == MeanOf(d.items[f])
      {
        var k :| 0 <= k < |d.keys| && d.keys[k] == f;
      }
    }
    if AllNonEmpty(d) {
      forall k | 0 <= k < |d.keys|
        ensures d.items[d.keys[k]] != []
      {
        KeyAt(d, k);
      }
    } else {
      var f :| f in d.items && d.items[f] == [];
      var k :| 0 <= k < |d.keys| && d.keys[k] == f;
    }
  }

  /** `calculateRunningAverages(runningAverages)` (src/nntest.py:16-20). */
  method CalculateRunningAverages(runningAverages: Lists) returns (r: Result<Dict<string, real>>)
    requires runningAverages.Valid()
    ensures r == AveragesOf(runningAverages)
  {
    var fieldDict: Dict<string, real> := Empty();
    for i := 0 to |runningAverages.keys|
      invariant fieldDict.Valid()
      invariant AveragesOf(runningAverages) == AveragesFrom(runningAverages, fieldDict, i)
    {
      var fieldList := runningAverages.keys[i];
      KeyAt(runningAverages, i);
      var xs := runningAverages.items[fieldList];
      if xs == [] {
        return Err(StatisticsError);
      }
      fieldDict := fieldDict.Put(fieldList, MeanOf(xs));
    }
    return Ok(fieldDict);
  }

  /** `d.items()`: the (field, mean) pairs in the dict's order. */
  function ItemsOf(d: Dict<string, real>): (r: seq<(string, real)>)
    requires d.Valid()
    ensures |r| == |d.keys|
    ensures forall i :: 0 <= i < |r| ==> r[i].0 == d.keys[i] && r[i].0 in d.items && r[i].1 == d.items[r[i].0]
  {
    seq(|d.keys|, i requires 0 <= i < |d.keys| => KeyAt(d, i); (d.keys[i], d.items[d.keys[i]]))
  }

  predicate Ascending(s: seq<(string, real)>) {
    forall i, j :: 0 <= i < j < |s| ==> s[i].1 <= s[j].1
  }

  /** Where `p` goes in `s`: after the pairs at the end whose mean is not
      larger than `p`'s have been passed over from the back. */
  function Cut(p: (string, real), s: seq<(string, real)>): (k: nat)
    ensures k <= |s|
    ensures forall i :: k <= i < |s| ==> s[i].1 > p.1
    ensures k > 0 ==> s[k - 1].1 <= p.1
  {
    if s == [] || s[|s| - 1].1 <= p.1 then |s| else Cut(p, s[..|s| - 1])
  }

  /** Puts `p` after every pair of `s` whose mean is not larger. */
  function Insert(p: (string, real), s: seq<(string, real)>): seq<(string, real)> {
    var k := Cut(p, s);
    s[..k] + [p] + s[k..]
  }

  /** `sorted(items, key=lambda x: x[1])`, stable. */
  function Ranked(items: seq<(string, real)>): seq<(string, real)> {
    if items == [] then [] else Insert(items[|items| - 1], Ranked(items[..|items| - 1]))
  }

  lemma InsertSorted(p: (string, real), s: seq<(string, real)>)
    requires Ascending(s)
    ensures Ascending(Insert(p, s))
  {
    var k := Cut(p, s);
    var r := Insert(p, s);
    assert |r| == |s| + 1;
    assert forall i :: 0 <= i < k ==> r[i] == s[i];
    assert r[k] == p;
    assert forall i :: k < i < |r| ==> r[i] == s[i - 1];
    forall i, j | 0 <= i < j < |r|
      ensures r[i].1 <= r[j].1
    {
      if j < k || i > k {
      } else if i == k {
        assert r[j] == s[j - 1];
      } else if j == k {
        assert s[i].1 <= s[k - 1].1;
      } else {
        assert r[j] == s[j - 1];
      }
    }
  }

  lemma InsertPermutes(p: (string, real), s: seq<(string, real)>)
    ensures multiset(Insert(p, s)) == multiset(s) + multiset{p}
  {
    var k := Cut(p, s);
    assert s == s[..k] + s[k..];
  }

  /** The ranking lists every (field, mean) pair once, ascending by mean. */
  lemma {:induction false} RankedSorted(items: seq<(string, real)>)
    ensures Ascending(Ranked(items)) && multiset(Ranked(items)) == multiset(items)
  {
    if items != [] {
      var init := items[..|items| - 1];
      RankedSorted(init);
      InsertSorted(items[|items| - 1], Ranked(init));
      InsertPermutes(items[|items| - 1], Ranked(init));
      assert items == init + [items[|items| - 1]];
    }
  }

  /** `r` ranks the entries of `d`: each field once, with its own value, and
      every field of `d` present. */
  ghost predicate RanksDict(r: seq<(string, real)>, d: Dict<string, real>)
    requires d.Valid()
  {
    && |r| == |d.keys|
    && (forall i :: 0 <= i < |r| ==> r[i].0 in d.items && r[i].1 == d.items[r[i].0])
    && (forall f :: f in d.items ==> exists i :: 0 <= i < |r| && r[i].0 == f)
    && (forall i, j :: 0 <= i < j < |r| ==> r[i].0 != r[j].0)
  }

  /** Sorting the items of a dict ranks its entries: every field appears
      exactly once, paired with its own mean. */
  lemma RankingOf(d: Dict<string, real>)
    requires d.Valid()
    ensures RanksDict(Ranked(ItemsOf(d)), d)
  {
    RankedSorted(ItemsOf(d));
    RankedEntries(d, Ranked(ItemsOf(d)));
    RankedCovers(d, Ranked(ItemsOf(d)));
    RankedDistinct(d, Ranked(ItemsOf(d)));
  }

  /** A permutation of the items of a dict pairs each field with its value. */
  lemma RankedEntries(d: Dict<string, real>, r: seq<(string, real)>)
    requires d.Valid() && multiset(r) == multiset(ItemsOf(d))
    ensures |r| == |d.keys|
    ensures forall i :: 0 <= i < |r| ==> r[i].0 in d.items && r[i].1 == d.items[r[i].0]
  {
    var items := ItemsOf(d);
    assert |r| == |multiset(r)| == |multiset(items)| == |items|;
    forall i | 0 <= i < |r|
      ensures r[i].0 in d.items && r[i].1 == d.items[r[i].0]
    {
      assert r[i] in multiset(items);
      var m :| 0 <= m < |items| && items[m] == r[i];
    }
  }

  /** A permutation of the items of a dict names every field. */
  lemma RankedCovers(d: Dict<string, real>, r: seq<(string, real)>)
    requires d.Valid() && multiset(r) == multiset(ItemsOf(d))
    ensures forall f :: f in d.items ==> exists i :: 0 <= i < |r| && r[i].0 == f
  {
    var items := ItemsOf(d);
    forall f | f in d.items
      ensures exists i :: 0 <= i < |r| && r[i].0 == f
    {
      var m :| 0 <= m < |d.keys| && d.keys[m] == f;
      assert items[m] in multiset(r);
      var i :| 0 <= i < |r| && r[i] == items[m];
    }
  }

  /** A permutation of the items of a dict names no field twice. */
  lemma RankedDistinct(d: Dict<string, real>, r: seq<(string, real)>)
    requires d.Valid() && multiset(r) == multiset(ItemsOf(d))
    ensures forall i, j :: 0 <= i < j < |r| ==> r[i].0 != r[j].0
  {
    var items := ItemsOf(d);
    RankedEntries(d, r);
    FirstsDistinctOnce(items);
    forall i, j | 0 <= i < j < |r|
      ensures r[i].0 != r[j].0
    {
      if r[i].0 == r[j].0 {
        assert r[i] == r[j];
        OccursTwice(r, i, j);
        assert false;
      }
    }
  }

  /** An item at two positions occurs at least twice. */
  lemma OccursTwice<T>(s: seq<T>, i: nat, j: nat)
    requires i < j < |s| && s[i] == s[j]
    ensures multiset(s)[s[i]] >= 2
  {
    assert s == s[..j] + [s[j]] + s[j + 1..];
    assert s[i] in multiset(s[..j]) by {
      assert s[..j][i] == s[i];
    }
  }

  /** A list of pairs with distinct first components holds each pair once. */
  lemma {:induction false} FirstsDistinctOnce(s: seq<(string, real)>)
    requires forall i, j :: 0 <= i < j < |s| ==> s[i].0 != s[j].0
    ensures forall x :: multiset(s)[x] <= 1
  {
    if s != [] {
      var init, last := s[..|s| - 1], s[|s| - 1];
      FirstsDistinctOnce(init);
      assert s == init + [last];
      forall k | 0 <= k < |init|
        ensures init[k] != last
      {
        assert init[k] == s[k];
      }
    }
  }
}
