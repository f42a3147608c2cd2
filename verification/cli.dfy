/**
 Selection of the execution strategy on the command line: the program
 needs its name plus seven arguments, the first of which names the mode.
 */
module Cli {
  import opened Network
  import opened Results

  datatype CliError =
    | Usage        // fewer than seven arguments after the program name
    | InvalidMode  // the mode argument names no strategy

  /** The number of command-line words, program name included, below which
      the usage message is printed. */
  const RequiredArgs: nat := 8

  /** The word that selects each strategy. */
  function ModeName(m: Mode): string {
    match m
    case Sequential => "sequential"
    case Parallel => "parallel"
    case Simd => "simd"
  }

  /** The integer the program keeps for each strategy. */
  function ModeCode(m: Mode): (c: int)
    ensures 1 <= c <= 3
  {
    match m
    case Sequential => 1
    case Parallel => 2
    case Simd => 3
  }

  /** Distinct strategies have distinct names and distinct codes. */
  lemma ModeNamesDistinct(a: Mode, b: Mode)
    ensures ModeName(a) == ModeName(b) ==> a == b
    ensures ModeCode(a) == ModeCode(b) ==> a == b
  {
    if a != b {
      match a
      case Sequential =>
        assert ModeName(a)[0] == 's' && ModeName(a)[1] == 'e';
      case Parallel =>
        assert ModeName(a)[0] == 'p';
      case Simd =>
        assert ModeName(a)[1] == 'i';
    }
  }

  /** The comparison chain over the mode word: exact matches only. */
  function ParseMode(word: string): (r: Option<Mode>)
    ensures r.Some? ==> ModeName(r.value) == word
    ensures r.None? <==> forall m: Mode :: ModeName(m) != word
  {
    if word == "sequential" then Some(Sequential)
    else if word == "parallel" then Some(Parallel)
    else if word == "simd" then Some(Simd)
    else None
  }

  /** Every strategy's own name selects it. */
  lemma ParseModeName(m: Mode)
    ensures ParseMode(ModeName(m)) == Some(m)
  {
    ModeNamesDistinct(ParseMode(ModeName(m)).value, m);
  }

  /** The argument check followed by the mode dispatch. `args` holds every
      command-line word, the program name first. */
  function ParseArgs(args: seq<string>): (r: Result<Mode, CliError>)
    ensures r == Failure(Usage) <==> |args| < RequiredArgs
    ensures r == Failure(InvalidMode) <==> |args| >= RequiredArgs && forall m: Mode :: ModeName(m) != args[1]
    ensures r.Success? ==> |args| >= RequiredArgs && ModeName(r.value) == args[1]
  {
    if |args| < RequiredArgs then Failure(Usage)
    else
      match ParseMode(args[1])
      case Some(m) => Success(m)
      case None => Failure(InvalidMode)
  }

  /** With enough arguments, naming a strategy selects exactly it. */
  lemma ParseArgsSelects(args: seq<string>, m: Mode)
    requires |args| >= RequiredArgs && args[1] == ModeName(m)
    ensures ParseArgs(args) == Success(m)
  {
    ParseModeName(m);
  }
}
