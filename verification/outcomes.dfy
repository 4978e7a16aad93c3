/** Values shared by every part of the model: optional values, the Python
    exceptions that end a run, results that carry either, and the shape of the
    tabular input the programs read. */
module Outcomes {

  datatype Option<+T> = None | Some(value: T)

  /** The Python exceptions the modelled code can raise. None of them is
      caught by the program, so each one ends the run. */
  datatype Failure =
    | IndexError          // a row or list is shorter than the index used
    | KeyError            // a dictionary lookup of a missing key
    | ValueError          // int()/float() of text that is not a number, randint on an empty range
    | TypeError           // a list indexed by None
    | ZeroDivisionError   // a division by zero
    | StopIteration       // next() on an empty CSV file (no header row)
    | StatisticsError     // statistics.mean of an empty list
    | FileNotFoundError   // open() of a path that does not exist

  datatype Result<+T> = Ok(value: T) | Err(error: Failure)

  /** One CSV row as produced by `csv.reader`: its cells as text. */
  type Row = seq<string>

  /** The rows of one CSV file, the header row first. */
  type Table = seq<Row>

  /** The file system as seen by `open`: path to contents. */
  type Files = map<string, Table>

  /** Python's `int(text)`: the value, or None where `int` raises ValueError. */
  type IntParser = string -> Option<int>

  /** Python's `float(text)`: the value, or None where `float` raises ValueError. */
  type RealParser = string -> Option<real>

  /** `open(path)` followed by reading every row. */
  function Open(files: Files, path: string): (r: Result<Table>)
    ensures r.Ok? <==> path in files
    ensures r.Ok? ==> r.value == files[path]
  {
    if path in files then Ok(files[path]) else Err(FileNotFoundError)
  }

  /** `xs` put before the list a later computation produces, or that
      computation's exception: how a loop's output so far combines with
      what the rest of the loop yields. */
  function Prefixed<T>(xs: seq<T>, r: Result<seq<T>>): (p: Result<seq<T>>)
    ensures p.Ok? <==> r.Ok?
    ensures p.Err? ==> p.error == r.error
    ensures p.Ok? ==> |p.value| == |xs| + |r.value| && p.value[..|xs|] == xs && p.value[|xs|..] == r.value
  {
    match r
    case Err(e) => Err(e)
    case Ok(ys) => Ok(xs + ys)
  }

  /** Nothing before a result leaves it as it is. */
  lemma PrefixedNil<T>(r: Result<seq<T>>)
    ensures Prefixed([], r) == r
  {
    if r.Ok? {
      assert [] + r.value == r.value;
    }
  }

  /** Two prefixes in turn are their concatenation. */
  lemma PrefixedTwice<T>(xs: seq<T>, ys: seq<T>, r: Result<seq<T>>)
    ensures Prefixed(xs, Prefixed(ys, r)) == Prefixed(xs + ys, r)
  {
    if r.Ok? {
      assert xs + (ys + r.value) == (xs + ys) + r.value;
    }
  }

  /** Concatenation is associative. */
  lemma Associative<T>(a: seq<T>, b: seq<T>, c: seq<T>)
    ensures a + (b + c) == (a + b) + c
  {
  }

  /** An item is in a suffix when it heads it or is in the rest. */
  lemma InSuffix<T>(xs: seq<T>, i: nat, x: T)
    requires i < |xs|
    ensures x in xs[i..] <==> x == xs[i] || x in xs[i + 1..]
  {
    assert xs[i..] == [xs[i]] + xs[i + 1..];
  }
}
