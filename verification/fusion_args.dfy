/** The command-line check of the fusion script: an influenza file, a
    population file, then any number of SVI files. */
module FusionArgs {
  import opened PyText

  const NoFileMessage := "Error: No file specified!"
  const UsageMessage := "Usage: datasort.py <path_to_influenza_file> <path_to_census_file> <path_to_svi_file1>..."

  /** What the argument check decides: print usage and exit, or go on with
      the three kinds of input file. */
  datatype Invocation =
    | ShowUsage(lines: seq<string>, exitStatus: int)
    | Inputs(influenza: string, population: string, svi: seq<string>)

  predicate IsCsvName(name: string) {
    Contains(name, ".csv")
  }

  /** The arguments that name a CSV file, in the order given. */
  function CsvOnly(names: seq<string>): seq<string> {
    if names == [] then []
    else if IsCsvName(names[0]) then [names[0]] + CsvOnly(names[1..])
    else CsvOnly(names[1..])
  }

  /** A name is kept exactly when it is one of the arguments and names a CSV file. */
  lemma {:induction false} CsvOnlyMembers(names: seq<string>, x: string)
    ensures x in CsvOnly(names) <==> x in names && IsCsvName(x)
  {
    if names != [] {
      CsvOnlyMembers(names[1..], x);
      assert names == [names[0]] + names[1..];
    }
  }

  /** Filtering keeps the order of the arguments: it distributes over concatenation. */
  lemma {:induction false} CsvOnlyAppend(a: seq<string>, b: seq<string>)
    ensures CsvOnly(a + b) == CsvOnly(a) + CsvOnly(b)
  {
    if a != [] {
      assert (a + b)[1..] == a[1..] + b;
      CsvOnlyAppend(a[1..], b);
    } else {
      assert a + b == b;
    }
  }

  /** The check at the top of the script. `args` are the arguments after the
      program name. A missing first or second argument, or one without
      ".csv", prints the usage text and exits with status 0. */
  method ParseArgs(args: seq<string>) returns (inv: Invocation)
    ensures inv.ShowUsage? <==> |args| < 2 || !IsCsvName(args[0]) || !IsCsvName(args[1])
    ensures inv.ShowUsage? ==> inv.exitStatus == 0 && inv.lines == [NoFileMessage, UsageMessage]
    ensures inv.Inputs? ==> inv.influenza == args[0] && inv.population == args[1]
    ensures inv.Inputs? ==> inv.svi == CsvOnly(args[2..])
  {
    if |args| < 2 || !IsCsvName(args[0]) || !IsCsvName(args[1]) {
      return ShowUsage([NoFileMessage, UsageMessage], 0);
    }
    var svi: seq<string> := [];
    var i := 2;
    while i < |args|
      invariant 2 <= i <= |args|
      invariant svi + CsvOnly(args[i..]) == CsvOnly(args[2..])
    {
      if IsCsvName(args[i]) {
        svi := svi + [args[i]];
      }
      i := i + 1;
    }
    return Inputs(args[0], args[1], svi);
  }
}
